/** The Slack message text built for an announced track: a bold
    "artist – title" line, followed by an italic album line when there is an
    album. Fields are turned into text by JavaScript's string concatenation,
    so a missing artist or title shows as "null" or "undefined". */
module SlackText {
  import opened JsValues
  import opened Didl

  const Dash: string := " \U{2013} "

  /** `'*' + artist + ' – ' + title + '*'`. */
  function Headline(t: Track): (h: string)
    ensures |h| == |ToStr(t.artist)| + |ToStr(t.title)| + 5
    ensures h[0] == '*' && h[|h| - 1] == '*'
  {
    "*" + ToStr(t.artist) + Dash + ToStr(t.title) + "*"
  }

  /** The headline's artist and title can be cut back out of it: the artist
      right after the opening star, the title right before the closing one. */
  lemma HeadlineParts(t: Track)
    ensures var h := Headline(t);
      h[1..1 + |ToStr(t.artist)|] == ToStr(t.artist)
      && h[|h| - 1 - |ToStr(t.title)|..|h| - 1] == ToStr(t.title)
  {
  }

  /** `album != null && album != 'null'`. */
  predicate ShowsAlbum(album: JsVal)
    ensures ShowsAlbum(album) <==> !IsNullish(album) && album != Str("null")
  {
    !LooseEq(album, Null) && !LooseEq(album, Str("null"))
  }

  /** The `text` of the payload sendToSlack posts. */
  function FormatText(t: Track): (text: string)
    ensures |Headline(t)| <= |text| && text[..|Headline(t)|] == Headline(t)
    ensures ShowsAlbum(t.album) <==> |text| > |Headline(t)|
    ensures ShowsAlbum(t.album) ==> text[|Headline(t)|..] == "\n_" + ToStr(t.album) + "_"
  {
    if ShowsAlbum(t.album) then Headline(t) + "\n" + "_" + ToStr(t.album) + "_"
    else Headline(t)
  }

  /** The texts of a series of announced tracks, in order. */
  function Texts(ts: seq<Track>): (texts: seq<string>)
    ensures |texts| == |ts|
    ensures forall i | 0 <= i < |ts| :: texts[i] == FormatText(ts[i])
  {
    if ts == [] then [] else [FormatText(ts[0])] + Texts(ts[1..])
  }

  // ---------------------------------------------------------------------
  // Reading the album back out of a message

  /** The position of the first line break in `s`, or `|s|` when there is none. */
  function LineEnd(s: string): (i: nat)
    ensures i <= |s|
    ensures i < |s| ==> s[i] == '\n'
    ensures forall j | 0 <= j < i :: s[j] != '\n'
  {
    if s == [] || s[0] == '\n' then 0 else 1 + LineEnd(s[1..])
  }

  /** The album of a message: the second line, with its underscores removed. */
  function AlbumLine(text: string): Option<string> {
    var i := LineEnd(text);
    if i == |text| then None
    else
      var line := text[i + 1..];
      if |line| >= 2 && line[0] == '_' && line[|line| - 1] == '_' then Some(line[1..|line| - 1])
      else None
  }

  /** A line break after a prefix without one is found right after it. */
  lemma LineEndAfter(head: string, rest: string)
    requires '\n' !in head
    requires rest != [] && rest[0] == '\n'
    ensures LineEnd(head + rest) == |head|
  {
    var s := head + rest;
    assert forall j | 0 <= j < |head| :: s[j] == head[j];
    assert s[|head|] == '\n';
  }

  /** The headline is one line when artist and title are. */
  lemma HeadlineSingleLine(t: Track)
    requires '\n' !in ToStr(t.artist) && '\n' !in ToStr(t.title)
    ensures '\n' !in Headline(t)
  {
    assert '\n' !in Dash;
  }

  /** A shown album is the second line of the message, between underscores. */
  lemma ShownAlbumLine(t: Track)
    requires '\n' !in ToStr(t.artist) && '\n' !in ToStr(t.title)
    requires ShowsAlbum(t.album)
    ensures AlbumLine(FormatText(t)) == Some(ToStr(t.album))
  {
    var h := Headline(t);
    HeadlineSingleLine(t);
    var rest := "\n_" + ToStr(t.album) + "_";
    var text := FormatText(t);
    assert text == h + rest;
    LineEndAfter(h, rest);
    assert text[|h| + 1..] == "_" + ToStr(t.album) + "_";
  }

  /** A message without an album is a single line. */
  lemma HiddenAlbumLine(t: Track)
    requires '\n' !in ToStr(t.artist) && '\n' !in ToStr(t.title)
    requires !ShowsAlbum(t.album)
    ensures AlbumLine(FormatText(t)) == None
  {
    var h := Headline(t);
    HeadlineSingleLine(t);
    var text := FormatText(t);
    assert text == h;
    var i := LineEnd(text);
    if i < |text| {
      assert false;
    }
  }

  /** The album of a message is the album of the track, whenever artist and
      title are single-line: shown exactly when it is neither null,
      undefined nor the text "null". */
  lemma AlbumLineRecoversAlbum(t: Track)
    requires '\n' !in ToStr(t.artist) && '\n' !in ToStr(t.title)
    ensures AlbumLine(FormatText(t)) == if ShowsAlbum(t.album) then Some(ToStr(t.album)) else None
  {
    if ShowsAlbum(t.album) {
      ShownAlbumLine(t);
    } else {
      HiddenAlbumLine(t);
    }
  }

  /** The album line is left out for a missing album and for the text
      "null", and only then. */
  lemma NoAlbumLine(t: Track)
    ensures FormatText(t) == Headline(t) <==>
      (IsNullish(t.album) || t.album == Str("null"))
  {
  }

  /** The empty record's message: both fields spelled "undefined", no album line. */
  lemma EmptyRecordText()
    ensures FormatText(EmptyRecord) == "*undefined" + Dash + "undefined*"
  {
  }
}
