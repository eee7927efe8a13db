/** bellman.js: the constructor-based Bellman, an event emitter. It keeps its
    configuration and the detector's session state, runs every `serviceEvent`
    notification through the fingerprint gate and the change test, and
    announces each change as a `newTrack` event and, when a webhook is
    configured, as a Slack message. */
module Bellman {
  import opened JsValues
  import opened Didl
  import opened Detector
  import opened SlackText

  const SonosHostKey := "SONOS_HOST"
  const SlackWebhookKey := "SLACK_WEBHOOK"

  /** `obj[key]`: undefined when the object lacks the key. */
  function Prop(obj: map<string, JsVal>, key: string): JsVal {
    if key in obj then obj[key] else Undefined
  }

  /** `Object.assign(target, source)`: every key of `source` is copied over,
      including those whose value is undefined; every other key of `target`
      keeps its value. */
  function Assign(target: map<string, JsVal>, source: map<string, JsVal>): (r: map<string, JsVal>)
    ensures r.Keys == target.Keys + source.Keys
    ensures forall k | k in source :: r[k] == source[k]
    ensures forall k | k in target && k !in source :: r[k] == target[k]
  {
    target + source
  }

  /** Whether announced tracks are also posted to Slack. */
  predicate WebhookSet(config: map<string, JsVal>)
    ensures WebhookSet(config) <==>
      SlackWebhookKey in config
      && (config[SlackWebhookKey].Obj? || (config[SlackWebhookKey].Str? && config[SlackWebhookKey].s != ""))
  {
    Truthy(Prop(config, SlackWebhookKey))
  }

  class Bellman {
    var config: map<string, JsVal>
    var lastFingerprint: JsVal
    var lastPlaying: Track
    /** The `newTrack` events emitted, oldest first. */
    ghost var emitted: seq<Track>
    /** The texts posted to the Slack webhook, oldest first. */
    ghost var posted: seq<string>

    /** lastPlaying is the track of the latest `newTrack` event, or `{}`
        before the first. */
    ghost predicate Valid()
      reads this
    {
      if emitted == [] then lastPlaying == EmptyRecord else lastPlaying == emitted[|emitted| - 1]
    }

    /** `new Bellman(options)`: the configuration holds exactly the two known
        options (undefined when not given); nothing is known or announced. */
    constructor (options: map<string, JsVal>)
      ensures config == map[SonosHostKey := Prop(options, SonosHostKey),
                            SlackWebhookKey := Prop(options, SlackWebhookKey)]
      ensures lastFingerprint == Null && lastPlaying == EmptyRecord
      ensures emitted == [] && posted == []
      ensures Valid()
    {
      config := map[SonosHostKey := Prop(options, SonosHostKey),
                    SlackWebhookKey := Prop(options, SlackWebhookKey)];
      lastFingerprint := Null;
      lastPlaying := EmptyRecord;
      emitted := [];
      posted := [];
    }

    /** updateConfig: the given keys overwrite, the rest stay. */
    method UpdateConfig(updated: map<string, JsVal>)
      modifies this`config
      ensures config == Assign(old(config), updated)
    {
      config := Assign(config, updated);
    }

    /** onNewTrack: always emits `newTrack`; posts the message only when the
        webhook is configured. */
    method OnNewTrack(t: Track)
      modifies this`emitted, this`posted
      ensures emitted == old(emitted) + [t]
      ensures posted == old(posted) + if WebhookSet(config) then [FormatText(t)] else []
    {
      emitted := emitted + [t];
      if Truthy(Prop(config, SlackWebhookKey)) {
        SendToSlack(t);
      }
    }

    /** sendToSlack: builds the message text; the HTTP POST itself is
        recorded as the text it carries. */
    method SendToSlack(t: Track)
      modifies this`posted
      ensures posted == old(posted) + [FormatText(t)]
    {
      var text := FormatText(t);
      posted := posted + [text];
    }

    /** checkForNewTrack: overwrites lastPlaying with `cur` and announces it
        exactly when the change test says so; otherwise nothing changes. */
    method CheckForNewTrack(cur: Track)
      modifies this`lastPlaying, this`emitted, this`posted
      ensures lastPlaying == NextPlaying(old(lastPlaying), cur)
      ensures Emits(old(lastPlaying), cur) ==> lastPlaying == cur && emitted == old(emitted) + [cur]
      ensures !Emits(old(lastPlaying), cur) ==> lastPlaying == old(lastPlaying) && emitted == old(emitted)
      ensures posted == old(posted) + if Emits(old(lastPlaying), cur) && WebhookSet(config) then [FormatText(cur)] else []
      ensures old(Valid()) ==> Valid()
    {
      if InitialFill(lastPlaying, cur) {
        lastPlaying := Track(cur.title, cur.artist, cur.album, cur.albumArtURI);
        OnNewTrack(lastPlaying);
      } else if ChangePredicate(lastPlaying, cur) {
        lastPlaying := Track(cur.title, cur.artist, cur.album, cur.albumArtURI);
        OnNewTrack(lastPlaying);
      }
    }

    /** The `serviceEvent` handler, from the fingerprint the first xml2js pass
        found at `Event.InstanceID[0].CurrentTrackMetaData[0].$.val`; `parse`
        is the second pass. */
    method OnServiceEvent(fp: JsVal, parse: JsVal -> Doc)
      modifies this`lastFingerprint, this`lastPlaying, this`emitted, this`posted
      ensures State(lastFingerprint, lastPlaying) == Process(old(State(lastFingerprint, lastPlaying)), fp, parse).next
      ensures emitted == old(emitted) + Process(old(State(lastFingerprint, lastPlaying)), fp, parse).announced
      ensures posted == old(posted) +
        if WebhookSet(config) then Texts(Process(old(State(lastFingerprint, lastPlaying)), fp, parse).announced) else []
      ensures config == old(config)
      ensures old(Valid()) ==> Valid()
    {
      if !LooseEq(lastFingerprint, fp) {
        lastFingerprint := fp;
      } else {
        lastFingerprint := Null;
      }
      if !LooseEq(lastFingerprint, Null) {
        var cur := ParseDIDL(parse(lastFingerprint));
        CheckForNewTrack(cur);
      }
    }
  }
}
