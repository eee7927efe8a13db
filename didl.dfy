/** The track record and its extraction from a DIDL-Lite document (the UPnP
    ContentDirectory item description a Sonos player sends as
    `CurrentTrackMetaData`), after xml2js has turned the XML into a tree. */
module Didl {
  import opened JsValues

  datatype Option<T> = None | Some(value: T)

  /** One XML element as xml2js builds it with its default options: an
      element with only text becomes that text (the empty string for an empty
      element), any other element an object whose child elements are grouped
      by name into arrays. Attributes (`$`) and mixed text (`_`) are never
      read here and are not kept. */
  datatype XmlNode =
    | Text(s: string)
    | Element(children: map<string, seq<XmlNode>>)

  /** A parse result: null for a blank document, otherwise an object whose
      one key is the root element's name. */
  datatype Doc = NoDoc | Root(name: string, top: XmlNode)

  /** The track record: `{title, artist, album, albumArtURI}`. A field the
      object lacks reads as undefined. */
  datatype Track = Track(title: JsVal, artist: JsVal, album: JsVal, albumArtURI: JsVal)

  /** The record `{}`: every field reads as undefined. */
  const EmptyRecord := Track(Undefined, Undefined, Undefined, Undefined)

  const DidlLite := "DIDL-Lite"
  const ItemKey := "item"
  const TitleKey := "dc:title"
  const CreatorKey := "dc:creator"
  const AlbumKey := "upnp:album"
  const AlbumArtKey := "upnp:albumArtURI"

  /** The value a node stands for when it is read out of an array. */
  function NodeValue(n: XmlNode): (v: JsVal)
    ensures !IsNullish(v)
  {
    match n
    case Text(s) => Str(s)
    case Element(_) => Obj
  }

  predicate NodeTruthy(n: XmlNode) {
    Truthy(NodeValue(n))
  }

  /** `didl['DIDL-Lite'].item[0]` when every guard of the extraction passes:
      the document exists, its `DIDL-Lite` is truthy, that has an `item`
      array, and the array's first element is truthy. None otherwise. */
  function FirstItem(d: Doc): (r: Option<XmlNode>)
    ensures r.Some? ==> NodeTruthy(r.value)
    ensures r.Some? <==>
      d.Root? && d.name == DidlLite && d.top.Element? && ItemKey in d.top.children
      && |d.top.children[ItemKey]| > 0 && NodeTruthy(d.top.children[ItemKey][0])
    ensures r.Some? ==> r.value == d.top.children[ItemKey][0]
  {
    if d.NoDoc? || d.name != DidlLite then None
    else match d.top
      case Text(_) => None
      case Element(children) =>
        if ItemKey !in children then None
        else
          var items := children[ItemKey];
          if |items| == 0 || !NodeTruthy(items[0]) then None
          else Some(items[0])
  }

  /** `isArray(item[key]) ? item[key][0] : null`. */
  function FieldOf(item: XmlNode, key: string): (v: JsVal)
    ensures v == Null <==> !(item.Element? && key in item.children)
    ensures v == Undefined <==> item.Element? && key in item.children && item.children[key] == []
    ensures !IsNullish(v) ==> v == NodeValue(item.children[key][0])
  {
    match item
    case Text(_) => Null
    case Element(children) =>
      if key !in children then Null
      else if |children[key]| == 0 then Undefined
      else NodeValue(children[key][0])
  }

  /** parseDIDL: the four fields of the first item of the document, or `{}`
      when there is no first item. */
  function ParseDIDL(d: Doc): (r: Track)
    ensures FirstItem(d).None? ==> r == EmptyRecord
    ensures FirstItem(d).Some? ==>
      var item := d.top.children[ItemKey][0];
      r == Track(FieldOf(item, TitleKey), FieldOf(item, CreatorKey),
                 FieldOf(item, AlbumKey), FieldOf(item, AlbumArtKey))
  {
    match FirstItem(d)
    case None => EmptyRecord
    case Some(item) =>
      Track(FieldOf(item, TitleKey), FieldOf(item, CreatorKey),
            FieldOf(item, AlbumKey), FieldOf(item, AlbumArtKey))
  }

  /** The children one field contributes to an item element so that it reads
      back as `v`: absent for null, an empty array for undefined. */
  function Encode(children: map<string, seq<XmlNode>>, key: string, v: JsVal): (r: map<string, seq<XmlNode>>)
    ensures FieldOf(Element(r), key) == v
    ensures forall k | k != key :: FieldOf(Element(r), k) == FieldOf(Element(children), k)
  {
    match v
    case Null => children - {key}
    case Undefined => children[key := []]
    case Str(s) => children[key := [Text(s)]]
    case Obj => children[key := [Element(map[])]]
  }

  /** A DIDL-Lite document whose first item carries `t` and which holds the
      further items `later`; the partner of ParseDIDL. */
  function DocOf(t: Track, later: seq<XmlNode>): (d: Doc)
    ensures ParseDIDL(d) == t
  {
    var f1 := Encode(map[], TitleKey, t.title);
    var f2 := Encode(f1, CreatorKey, t.artist);
    var f3 := Encode(f2, AlbumKey, t.album);
    var f4 := Encode(f3, AlbumArtKey, t.albumArtURI);
    var d := Root(DidlLite, Element(map[ItemKey := [Element(f4)] + later]));
    assert FirstItem(d) == Some(Element(f4));
    d
  }

  /** The cases the guard of parseDIDL turns into `{}`. */
  lemma EmptyCases(d: Doc)
    ensures d.NoDoc? ==> ParseDIDL(d) == EmptyRecord
    ensures d.Root? && d.name != DidlLite ==> ParseDIDL(d) == EmptyRecord
    ensures d.Root? && d.top.Text? ==> ParseDIDL(d) == EmptyRecord
    ensures d.Root? && d.top.Element? && ItemKey !in d.top.children ==> ParseDIDL(d) == EmptyRecord
    ensures d.Root? && d.top.Element? && ItemKey in d.top.children
            && (d.top.children[ItemKey] == [] || d.top.children[ItemKey][0] == Text(""))
            ==> ParseDIDL(d) == EmptyRecord
  {
  }

  /** An item that is plain text has no fields: all four read as null. */
  lemma TextItemGivesNulls(d: Doc, s: string)
    requires d.Root? && d.name == DidlLite && d.top.Element? && ItemKey in d.top.children
    requires |d.top.children[ItemKey]| > 0 && d.top.children[ItemKey][0] == Text(s) && s != ""
    ensures ParseDIDL(d) == Track(Null, Null, Null, Null)
  {
  }

  /** Only the first item is read: documents that agree up to their first
      item give the same record. */
  lemma OnlyFirstItemRead(item: XmlNode, rest1: seq<XmlNode>, rest2: seq<XmlNode>,
                          other1: map<string, seq<XmlNode>>, other2: map<string, seq<XmlNode>>)
    ensures ParseDIDL(Root(DidlLite, Element(other1[ItemKey := [item] + rest1])))
         == ParseDIDL(Root(DidlLite, Element(other2[ItemKey := [item] + rest2])))
  {
  }
}
