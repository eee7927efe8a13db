/** The decisions of the track-change detector, as functions of the session
    state: the fingerprint gate on the still-encoded `CurrentTrackMetaData`
    string, and the test `checkForNewTrack` applies to the parsed record.
    Both versions of the detector (bellman.js and lib/bellman.js) make
    exactly these decisions; they differ only in what they do with a change. */
module Detector {
  import opened JsValues
  import opened Didl

  /** The session: the last fingerprint seen (null when none, or after a
      duplicate) and the last track announced (`{}` before the first). */
  datatype State = State(lastFingerprint: JsVal, lastPlaying: Track)

  const Fresh := State(Null, EmptyRecord)

  // ---------------------------------------------------------------------
  // Fingerprint gate

  /** The stored fingerprint after one notification carrying `fp`: a value
      that differs from the stored one replaces it, an equal one resets it to
      null. */
  function Gate(stored: JsVal, fp: JsVal): (next: JsVal)
    ensures Proceeds(next) <==> !LooseEq(stored, fp) && !IsNullish(fp)
    ensures Proceeds(next) ==> next == fp
    ensures LooseEq(stored, fp) ==> next == Null
  {
    if !LooseEq(stored, fp) then fp else Null
  }

  /** `lastCurrentTrackMetaData != null`: whether the notification goes on
      to be parsed. */
  predicate Proceeds(stored: JsVal)
    ensures Proceeds(stored) <==> stored.Str? || stored.Obj?
  {
    !LooseEq(stored, Null)
  }

  /** Whether each of a series of notifications passes the gate. */
  function GateRun(stored: JsVal, fps: seq<JsVal>): (passed: seq<bool>)
    ensures |passed| == |fps|
    ensures |fps| > 0 ==> passed[0] == (!LooseEq(stored, fps[0]) && !IsNullish(fps[0]))
    decreases |fps|
  {
    if fps == [] then []
    else
      var next := Gate(stored, fps[0]);
      [Proceeds(next)] + GateRun(next, fps[1..])
  }

  /** The stored fingerprint after a series of notifications. */
  function GateFinal(stored: JsVal, fps: seq<JsVal>): JsVal
    decreases |fps|
  {
    if fps == [] then stored else GateFinal(Gate(stored, fps[0]), fps[1..])
  }

  /** The verdict on the i-th notification is the gate applied to the value
      stored after the ones before it. */
  lemma {:induction false} GateRunAt(stored: JsVal, fps: seq<JsVal>, i: nat)
    requires i < |fps|
    ensures GateRun(stored, fps)[i] == Proceeds(Gate(GateFinal(stored, fps[..i]), fps[i]))
    decreases i
  {
    if i > 0 {
      var next := Gate(stored, fps[0]);
      GateRunAt(next, fps[1..], i - 1);
      assert fps[..i][0] == fps[0];
      assert fps[..i][1..] == fps[1..][..i - 1];
    }
  }

  function Repeat(v: JsVal, n: nat): (vs: seq<JsVal>)
    ensures |vs| == n
    ensures forall i | 0 <= i < n :: vs[i] == v
  {
    if n == 0 then [] else [v] + Repeat(v, n - 1)
  }

  /** The same fingerprint over and over passes on the 1st, 3rd, 5th, ...
      notification and is held back on the 2nd, 4th, ...: a duplicate clears
      the stored value, so the next copy looks new again. */
  lemma {:induction false} RepeatedFingerprintAlternates(stored: JsVal, s: string, n: nat)
    requires !LooseEq(stored, Str(s))
    ensures forall i | 0 <= i < n :: GateRun(stored, Repeat(Str(s), n))[i] == (i % 2 == 0)
    decreases n
  {
    var fps := Repeat(Str(s), n);
    if n >= 2 {
      RepeatedFingerprintAlternates(Null, s, n - 2);
      assert fps[1..][1..] == Repeat(Str(s), n - 2);
      var tail := GateRun(Null, Repeat(Str(s), n - 2));
      assert GateRun(stored, fps) == [true, false] + tail;
      forall i | 0 <= i < n
        ensures GateRun(stored, fps)[i] == (i % 2 == 0)
      {
        if i >= 2 {
          assert GateRun(stored, fps)[i] == tail[i - 2];
        }
      }
    } else if n == 1 {
      assert GateRun(stored, fps) == [true];
    }
  }

  /** A missing fingerprint (`$.val` undefined) never passes the gate. */
  lemma MissingFingerprintNeverPasses(stored: JsVal)
    ensures !Proceeds(Gate(stored, Undefined))
  {
  }

  // ---------------------------------------------------------------------
  // Change test of checkForNewTrack

  /** Every field of the record is null or undefined. */
  predicate IsBlank(t: Track)
    ensures IsBlank(t) <==>
      IsNullish(t.title) && IsNullish(t.artist) && IsNullish(t.album) && IsNullish(t.albumArtURI)
  {
    LooseEq(t.title, Null) && LooseEq(t.artist, Null)
    && LooseEq(t.album, Null) && LooseEq(t.albumArtURI, Null)
  }

  /** The first branch: nothing announced yet and the title is not `' '`. */
  predicate InitialFill(last: Track, cur: Track)
    ensures InitialFill(last, cur) <==> IsBlank(last) && cur.title != Str(" ")
  {
    IsBlank(last) && !LooseEq(cur.title, Str(" "))
  }

  /** The second branch's condition, grouped as JavaScript's precedence
      groups it (`&&` before `||`):
      `A || B || (C && D)` with A the titles differing, B title and artist
      both present, C neither is the text `'null'`, D the title is not `' '`. */
  predicate ChangePredicate(last: Track, cur: Track)
    ensures !ChangePredicate(last, cur) <==>
      LooseEq(last.title, cur.title)
      && (IsNullish(cur.title) || IsNullish(cur.artist))
      && (cur.title == Str("null") || cur.artist == Str("null") || cur.title == Str(" "))
  {
    !LooseEq(last.title, cur.title)
    || (!LooseEq(cur.title, Null) && !LooseEq(cur.artist, Null))
    || ((!LooseEq(cur.title, Str("null")) && !LooseEq(cur.artist, Str("null")))
        && !LooseEq(cur.title, Str(" ")))
  }

  /** Whether checkForNewTrack overwrites lastPlaying and announces `cur`.
      It holds back in exactly two situations: the title is missing, the
      artist is the text `'null'` and the last title was missing too (with
      something else of the last record present); or the artist is missing,
      the title is the text `'null'` or `' '`, and it equals the last title. */
  predicate Emits(last: Track, cur: Track)
    ensures !Emits(last, cur) <==>
      (IsNullish(cur.title) && cur.artist == Str("null") && IsNullish(last.title) && !IsBlank(last))
      || (IsNullish(cur.artist) && (cur.title == Str("null") || cur.title == Str(" "))
          && last.title == cur.title)
  {
    InitialFill(last, cur) || ChangePredicate(last, cur)
  }

  /** The record lastPlaying holds after checkForNewTrack(cur). */
  function NextPlaying(last: Track, cur: Track): (r: Track)
    ensures Emits(last, cur) ==> r == cur
    ensures !Emits(last, cur) ==> r == last
  {
    if InitialFill(last, cur) then cur
    else if ChangePredicate(last, cur) then cur
    else last
  }

  /** A record with a title and an artist is always announced, even when it
      is the one announced last. */
  lemma RealMetadataAlwaysEmits(last: Track, cur: Track)
    requires !IsNullish(cur.title) && !IsNullish(cur.artist)
    ensures Emits(last, cur) && NextPlaying(last, cur) == cur
  {
  }

  /** A `' '` title skips the first branch but, met with nothing announced
      yet, is still announced by the second (undefined != ' '). */
  lemma BlankTitleFromFreshStillEmits(cur: Track)
    requires cur.title == Str(" ")
    ensures !InitialFill(EmptyRecord, cur) && ChangePredicate(EmptyRecord, cur)
  {
  }

  /** While every field of lastPlaying is null or undefined (`{}` at the
      start, or a record of nulls announced from a text item), every record
      except a `' '` title takes the first branch and is copied over. */
  lemma InitialFillWhenBlank(last: Track, cur: Track)
    requires IsBlank(last) && !LooseEq(cur.title, Str(" "))
    ensures InitialFill(last, cur) && Emits(last, cur) && NextPlaying(last, cur) == cur
  {
  }

  /** The grouping matters: with `(A || B || C) && D` a `' '` title with an
      artist would be held back, but JavaScript's `A || B || (C && D)`
      announces it. */
  lemma PrecedenceMatters(last: Track, cur: Track)
    requires cur.title == Str(" ") && cur.artist.Str?
    ensures ChangePredicate(last, cur)
    ensures !(( !LooseEq(last.title, cur.title)
               || (!LooseEq(cur.title, Null) && !LooseEq(cur.artist, Null))
               || (!LooseEq(cur.title, Str("null")) && !LooseEq(cur.artist, Str("null"))))
              && !LooseEq(cur.title, Str(" ")))
  {
  }

  // ---------------------------------------------------------------------
  // One notification, and a series of them

  datatype Step = Step(next: State, announced: seq<Track>)

  /** One `serviceEvent` notification whose fingerprint is `fp`; `parse` is
      the xml2js pass over the stored fingerprint. */
  function Process(st: State, fp: JsVal, parse: JsVal -> Doc): (r: Step)
    ensures r.next.lastFingerprint == Gate(st.lastFingerprint, fp)
    ensures |r.announced| <= 1
    ensures r.announced != [] ==>
      Proceeds(r.next.lastFingerprint) && r.announced == [r.next.lastPlaying]
      && r.next.lastPlaying == ParseDIDL(parse(fp))
    ensures r.announced == [] ==> r.next.lastPlaying == st.lastPlaying
    ensures Proceeds(r.next.lastFingerprint) ==>
      (r.announced != [] <==> Emits(st.lastPlaying, ParseDIDL(parse(fp))))
  {
    var stored := Gate(st.lastFingerprint, fp);
    if !Proceeds(stored) then Step(State(stored, st.lastPlaying), [])
    else
      var cur := ParseDIDL(parse(stored));
      var last := NextPlaying(st.lastPlaying, cur);
      Step(State(stored, last), if Emits(st.lastPlaying, cur) then [cur] else [])
  }

  /** A series of notifications, in arrival order. lastPlaying always holds
      the track announced last, or the starting record if none was. */
  function Run(st: State, fps: seq<JsVal>, parse: JsVal -> Doc): (r: Step)
    ensures |r.announced| <= |fps|
    ensures r.next.lastFingerprint == GateFinal(st.lastFingerprint, fps)
    ensures r.announced == [] ==> r.next.lastPlaying == st.lastPlaying
    ensures r.announced != [] ==> r.next.lastPlaying == r.announced[|r.announced| - 1]
    decreases |fps|
  {
    if fps == [] then Step(st, [])
    else
      var first := Process(st, fps[0], parse);
      var rest := Run(first.next, fps[1..], parse);
      Step(rest.next, first.announced + rest.announced)
  }

  /** Track A, the same notification again, then track B: A and B are
      announced, in that order. */
  lemma {:induction false} ChangeAfterDuplicate(a: string, b: string, parse: JsVal -> Doc)
    requires a != b
    requires !IsNullish(ParseDIDL(parse(Str(a))).title) && !IsNullish(ParseDIDL(parse(Str(a))).artist)
    requires !IsNullish(ParseDIDL(parse(Str(b))).title) && !IsNullish(ParseDIDL(parse(Str(b))).artist)
    ensures Run(Fresh, [Str(a), Str(a), Str(b)], parse).announced
         == [ParseDIDL(parse(Str(a))), ParseDIDL(parse(Str(b)))]
  {
    var fps := [Str(a), Str(a), Str(b)];
    var s1 := Process(Fresh, Str(a), parse);
    var s2 := Process(s1.next, Str(a), parse);
    var s3 := Process(s2.next, Str(b), parse);
    RealMetadataAlwaysEmits(Fresh.lastPlaying, ParseDIDL(parse(Str(a))));
    RealMetadataAlwaysEmits(s2.next.lastPlaying, ParseDIDL(parse(Str(b))));
    assert fps[1..][1..][1..] == [];
    assert Run(s3.next, [], parse).announced == [];
    assert Run(s2.next, fps[1..][1..], parse).announced == s3.announced;
    assert Run(s1.next, fps[1..], parse).announced == s2.announced + s3.announced;
  }

  /** The same notification three times over, carrying a title and an
      artist: it is announced on the first and again on the third. */
  lemma {:induction false} TripleDuplicateAnnouncedTwice(a: string, parse: JsVal -> Doc)
    requires !IsNullish(ParseDIDL(parse(Str(a))).title) && !IsNullish(ParseDIDL(parse(Str(a))).artist)
    ensures Run(Fresh, Repeat(Str(a), 3), parse).announced
         == [ParseDIDL(parse(Str(a))), ParseDIDL(parse(Str(a)))]
  {
    var fps := Repeat(Str(a), 3);
    var t := ParseDIDL(parse(Str(a)));
    var s1 := Process(Fresh, Str(a), parse);
    var s2 := Process(s1.next, Str(a), parse);
    var s3 := Process(s2.next, Str(a), parse);
    RealMetadataAlwaysEmits(Fresh.lastPlaying, t);
    RealMetadataAlwaysEmits(s2.next.lastPlaying, t);
    assert fps[1..][1..][1..] == [];
    assert Run(s3.next, [], parse).announced == [];
    assert Run(s2.next, fps[1..][1..], parse).announced == s3.announced;
    assert Run(s1.next, fps[1..], parse).announced == s2.announced + s3.announced;
  }

  /** Running one more notification appends its announcement. */
  lemma {:induction false} RunSnoc(st: State, fps: seq<JsVal>, fp: JsVal, parse: JsVal -> Doc)
    ensures Run(st, fps + [fp], parse).next == Process(Run(st, fps, parse).next, fp, parse).next
    ensures Run(st, fps + [fp], parse).announced
         == Run(st, fps, parse).announced + Process(Run(st, fps, parse).next, fp, parse).announced
    decreases |fps|
  {
    var all := fps + [fp];
    if fps != [] {
      var first := Process(st, fps[0], parse);
      assert all[0] == fps[0] && all[1..] == fps[1..] + [fp];
      var before := Run(first.next, fps[1..], parse);
      var after := Run(first.next, all[1..], parse);
      RunSnoc(first.next, fps[1..], fp, parse);
      var last := Process(before.next, fp, parse);
      assert Run(st, fps, parse) == Step(before.next, first.announced + before.announced);
      assert Run(st, all, parse) == Step(after.next, first.announced + after.announced);
      assert after.announced == before.announced + last.announced;
      assert first.announced + after.announced == first.announced + before.announced + last.announced;
    } else {
      assert all[1..] == [];
      assert Run(st, all, parse) == Step(Process(st, fp, parse).next, Process(st, fp, parse).announced + []);
    }
  }

  /** A notification the fingerprint gate holds back announces nothing: the
      i-th notification of a series adds no track when GateRun says it did
      not pass. */
  lemma HeldBackAnnouncesNothing(st: State, fps: seq<JsVal>, parse: JsVal -> Doc, i: nat)
    requires i < |fps| && !GateRun(st.lastFingerprint, fps)[i]
    ensures Run(st, fps[..i + 1], parse).announced == Run(st, fps[..i], parse).announced
  {
    GateRunAt(st.lastFingerprint, fps, i);
    assert fps[..i + 1] == fps[..i] + [fps[i]];
    RunSnoc(st, fps[..i], fps[i], parse);
  }

  /** A stopped player sends an empty `CurrentTrackMetaData`; xml2js makes
      null of the blank string, so after a real track the empty record `{}`
      is announced. */
  lemma EmptyMetadataAnnouncesEmptyRecord(st: State, parse: JsVal -> Doc)
    requires parse(Str("")) == NoDoc
    requires !LooseEq(st.lastFingerprint, Str(""))
    requires !IsNullish(st.lastPlaying.title)
    ensures Process(st, Str(""), parse).announced == [EmptyRecord]
  {
  }
}
