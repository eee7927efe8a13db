/** lib/bellman.js: the plain-object Bellman. Same fingerprint gate and change
    test as bellman.js, but with no configuration and no events: every change
    goes straight to Slack. */
module LibBellman {
  import opened JsValues
  import opened Didl
  import opened Detector
  import opened SlackText

  class Bellman {
    var lastFingerprint: JsVal
    var lastPlaying: Track
    /** The texts posted to the Slack webhook, oldest first. */
    ghost var posted: seq<string>

    /** The latest message posted is the text of lastPlaying; nothing is
        posted while lastPlaying is `{}` from the start. */
    ghost predicate Valid()
      reads this
    {
      if posted == [] then lastPlaying == EmptyRecord else posted[|posted| - 1] == FormatText(lastPlaying)
    }

    /** The module state when the file is loaded: no fingerprint, `{}`. */
    constructor ()
      ensures lastFingerprint == Null && lastPlaying == EmptyRecord && posted == []
      ensures Valid()
    {
      lastFingerprint := Null;
      lastPlaying := EmptyRecord;
      posted := [];
    }

    /** sendToSlack: builds the message text; the HTTP POST itself is
        recorded as the text it carries. */
    method SendToSlack(t: Track)
      modifies this`posted
      ensures posted == old(posted) + [FormatText(t)]
    {
      var text := FormatText(t);
      posted := posted + [text];
    }

    /** checkForNewTrack: overwrites lastPlaying with `cur` and sends it
        exactly when the change test says so; otherwise nothing changes. */
    method CheckForNewTrack(cur: Track)
      modifies this`lastPlaying, this`posted
      ensures lastPlaying == NextPlaying(old(lastPlaying), cur)
      ensures Emits(old(lastPlaying), cur) ==> lastPlaying == cur && posted == old(posted) + [FormatText(cur)]
      ensures !Emits(old(lastPlaying), cur) ==> lastPlaying == old(lastPlaying) && posted == old(posted)
      ensures old(Valid()) ==> Valid()
    {
      if InitialFill(lastPlaying, cur) {
        lastPlaying := Track(cur.title, cur.artist, cur.album, cur.albumArtURI);
        SendToSlack(lastPlaying);
      } else if ChangePredicate(lastPlaying, cur) {
        lastPlaying := Track(cur.title, cur.artist, cur.album, cur.albumArtURI);
        SendToSlack(lastPlaying);
      }
    }

    /** The `serviceEvent` handler, from the fingerprint the first xml2js pass
        found at `Event.InstanceID[0].CurrentTrackMetaData[0].$.val`; `parse`
        is the second pass. Every change it detects is sent. */
    method OnServiceEvent(fp: JsVal, parse: JsVal -> Doc)
      modifies this`lastFingerprint, this`lastPlaying, this`posted
      ensures State(lastFingerprint, lastPlaying) == Process(old(State(lastFingerprint, lastPlaying)), fp, parse).next
      ensures posted == old(posted) + Texts(Process(old(State(lastFingerprint, lastPlaying)), fp, parse).announced)
      ensures old(Valid()) ==> Valid()
    {
      if !LooseEq(lastFingerprint, fp) {
        lastFingerprint := fp;
      } else {
        lastFingerprint := Null;
      }
      if !LooseEq(lastFingerprint, Null) {
        var cur := ParseDIDL(parse(lastFingerprint));
        CheckForNewTrack(cur);
      }
    }
  }
}
