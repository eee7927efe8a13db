# Bellman track-change pipeline, modelled in Dafny

Bellman listens to the UPnP AVTransport notifications of a Sonos player and
announces every new track in Slack. Each notification carries the current
track's DIDL-Lite description as an XML string (`CurrentTrackMetaData`). The
pipeline has four parts:

1. A **fingerprint gate** compares that still-encoded string with the last one it stored.
2. **parseDIDL** reads title, creator, album and album-art URI from the first `item` of the parsed document.
3. **checkForNewTrack** decides whether to overwrite the remembered `lastPlaying` record and announce it.
4. The **message formatter** builds the Slack text `*artist – title*`, followed by `_album_` on a second line when there is an album.

The repository has this logic twice:

- `bellman.js` is a constructor-based event emitter. It has a configuration and emits `newTrack`. It posts to Slack only when `SLACK_WEBHOOK` is set.
- `lib/bellman.js` is a plain object. It always posts.

Both versions make the same decisions.

Files:

- `js_values.dfy` (`JsValues`): JavaScript values (`undefined`, `null`, strings, plain objects) with loose equality, truthiness and string conversion.
- `didl.dfy` (`Didl`): the xml2js tree of a DIDL-Lite document, the track record, `ParseDIDL`, and its partner `DocOf`. `DocOf` builds a document for any record, and that document parses back to the record.
- `detector.dfy` (`Detector`): the gate and the change test as functions of the session state. It also has one notification (`Process`), a series of notifications (`Run`), and the lemmas about them.
- `slack_text.dfy` (`SlackText`): the message text. `AlbumLine` reads the album back out of a message.
- `bellman.dfy` (`Bellman`): the class for bellman.js, with `config`, the session fields, and ghost logs of emitted events and posted texts.
- `lib_bellman.dfy` (`LibBellman`): the class for lib/bellman.js, with the session fields and a ghost log of posted texts.

Two behaviours of the code stand out:

- A duplicate fingerprint does not just stop processing. It also resets the stored fingerprint to `null`, so the same fingerprint passes the gate on the 1st, 3rd, 5th… notification (`RepeatedFingerprintAlternates`).
- The second branch of checkForNewTrack is `A || B || (C && D)` under JavaScript precedence. It announces almost everything, including a record identical to the last one whenever it has a title and an artist. `Emits` states exactly the two situations in which nothing is announced.

What the code does not do:

- It does not look at the transport state: pausing or stopping the player resets nothing.
- It does not suppress a message for an empty track. An empty `CurrentTrackMetaData` after a real track announces `{}`, whose text reads `*undefined – undefined*` (`EmptyMetadataAnnouncesEmptyRecord`, `EmptyRecordText`).
- It does not compare the records field by field. The test is the precedence-grouped predicate above.
- It does not always drop a repeated notification, because of the alternation.

## Model

| member | source | states |
|---|---|---|
| `JsValues.LooseEq` | bellman.js:86 | `==`: null and undefined equal only each other; two strings are equal exactly when their contents are |
| `Detector.Gate` | bellman.js:86-100 | A notification passes exactly when its fingerprint loosely differs from the stored one and is not null/undefined. The stored value then becomes that fingerprint. An equal fingerprint resets the stored value to null. Same gate at lib/bellman.js:52-66 |
| `Detector.Proceeds` | bellman.js:104 | `lastCurrentTrackMetaData != null`: holds exactly for a string or an object, never for null or undefined. Same test at lib/bellman.js:70 |
| `Detector.GateRun` | bellman.js:86-104 | One pass/hold verdict per notification of a series; the first is the single-step gate |
| `Detector.GateRunAt` | bellman.js:86-104 | The verdict on the i-th notification is the gate applied to the value stored after the notifications before it |
| `Detector.RepeatedFingerprintAlternates` | bellman.js:86-100 | The same fingerprint n times in a row, starting from a different stored value, passes at positions 0, 2, 4… and is held back at 1, 3, 5… (also lib/bellman.js:52-66) |
| `Detector.MissingFingerprintNeverPasses` | bellman.js:86-104 | An undefined fingerprint never reaches parsing, whatever was stored |
| `Detector.IsBlank` | bellman.js:143-146 | All four fields of the record are `== null`, i.e. each is null or undefined. Same test at lib/bellman.js:109-112 |
| `Detector.InitialFill` | bellman.js:143-147 | The first branch is taken exactly when the last record is blank and the current title is not `' '`. Same test at lib/bellman.js:109-113 |
| `Detector.ChangePredicate` | bellman.js:168-173 | The second branch's test, A or B or (C and D), fails exactly when the titles are loosely equal, title or artist is missing, and the title or artist is `'null'` or the title is `' '`. Same test at lib/bellman.js:134-139 |
| `Detector.PrecedenceMatters` | bellman.js:168-173 | A `' '` title with an artist passes the test as JavaScript groups it, but would fail it if the last `&&` applied to the whole disjunction |
| `Detector.Emits` | bellman.js:143-173 | First branch, or A or B or (C and D) with `&&` binding tighter than or. Nothing is announced exactly when (title missing, artist `'null'`, last title missing, last record not all-missing) or (artist missing, title `'null'` or `' '` and equal to the last title). Same test at lib/bellman.js:109-139 |
| `Detector.NextPlaying` | bellman.js:143-190 | After the check, lastPlaying is the current record if it was announced and the old one otherwise |
| `Detector.RealMetadataAlwaysEmits` | bellman.js:168-173 | A record with title and artist is always announced, even one identical to lastPlaying |
| `Detector.BlankTitleFromFreshStillEmits` | bellman.js:143-173 | A `' '` title skips the initial fill but is announced by the second branch when nothing was known (undefined != `' '`) |
| `Detector.InitialFillWhenBlank` | bellman.js:143-162 | While every field of lastPlaying is null or undefined (`{}`, or a record of nulls), any record whose title is not `' '` takes the first branch, is announced and becomes lastPlaying |
| `Detector.Process` | bellman.js:82-127 | One notification. The stored fingerprint is the gate's result. Only a passing notification announces, and then it announces at most the parse of its own fingerprint. That parse becomes lastPlaying. It is announced exactly when `Emits` holds. Without an announcement lastPlaying is unchanged |
| `Detector.Run` | bellman.js:66-131 | A series of notifications in arrival order announces at most one track per notification. Afterwards lastPlaying is the track announced last, or unchanged when none was |
| `Detector.RunSnoc` | bellman.js:66-131 | One more notification at the end of a series appends exactly that notification's announcement and state change |
| `Detector.HeldBackAnnouncesNothing` | bellman.js:86-104 | When `GateRun` says the i-th notification of a series is held back, that notification adds no announcement |
| `Detector.EmptyMetadataAnnouncesEmptyRecord` | bellman.js:104-127 | An empty `CurrentTrackMetaData`, which xml2js parses to null, following a notification of a real track announces the empty record `{}` |
| `Detector.ChangeAfterDuplicate` | bellman.js:86-127 | Fresh session; notifications a, a, b whose tracks have title and artist: exactly [A, B] are announced, in order |
| `Detector.TripleDuplicateAnnouncedTwice` | bellman.js:86-127 | Fresh session; the same notification three times: its track is announced on the first and again on the third |
| `Didl.FirstItem` | bellman.js:242-243 | An item is found exactly when the document exists, its root is `DIDL-Lite` with an element value, that has an `item` array, and the first entry is truthy; the item found is `didl['DIDL-Lite'].item[0]` |
| `Didl.FieldOf` | bellman.js:245-248 | A field is null exactly when its key holds no array. It is undefined exactly when the array is empty. Otherwise it is the value of the array's first element |
| `Didl.ParseDIDL` | bellman.js:239-250 | Without a first item the result is `{}` (all undefined); otherwise the four fields read from `didl['DIDL-Lite'].item[0]`. Identical at lib/bellman.js:197-208 |
| `Didl.Encode` | bellman.js:245-248 | Setting one key of an item so that it reads back as the given field value leaves every other field's reading unchanged |
| `Didl.DocOf` | bellman.js:239-250 | Every record is what ParseDIDL reads from some DIDL-Lite document, whatever items follow the first |
| `Didl.EmptyCases` | bellman.js:242 | A missing document, another root, a text root, no `item` array, and an empty or falsy first item each give `{}` |
| `Didl.TextItemGivesNulls` | bellman.js:243-249 | A first item that is non-empty text has no fields: all four are null |
| `Didl.OnlyFirstItemRead` | bellman.js:243 | Documents that agree on `item[0]` parse alike, whatever their other items or keys |
| `SlackText.Headline` | bellman.js:212 | `'*' + artist + ' – ' + title + '*'`: starts and ends with a star, and its length is that of both fields plus five. Same line at bellman.js:218 |
| `SlackText.HeadlineParts` | bellman.js:212 | The artist is the text right after the opening star and the title the text right before the closing one |
| `SlackText.ShowsAlbum` | bellman.js:210 | The album line is shown exactly when the album is neither null, undefined nor the text `'null'` |
| `SlackText.FormatText` | bellman.js:206-221 | The text starts with `*artist – title*`, where artist and title are always present, even as `null`/`undefined`. The `\n_album_` line follows exactly when album is not null/undefined and not `'null'`. Identical at lib/bellman.js:164-179 |
| `SlackText.NoAlbumLine` | bellman.js:210-221 | The message is the headline alone exactly when album is null, undefined or the text `'null'` |
| `SlackText.EmptyRecordText` | bellman.js:216-220 | The message for `{}` is `*undefined – undefined*`, with no album line |
| `SlackText.AlbumLineRecoversAlbum` | bellman.js:210-221 | When artist and title are single-line, the album read back from the message is the track's album when shown and nothing otherwise |
| `Bellman.Assign` | bellman.js:30-32 | `Object.assign`: the keys are the union. Given keys take the given values, undefined included. All other keys keep theirs |
| `Bellman.WebhookSet` | bellman.js:199 | `config.SLACK_WEBHOOK` is truthy exactly when the key is present and holds an object or a non-empty string |
| `Bellman.Bellman.constructor` | bellman.js:20-26 | The configuration holds exactly SONOS_HOST and SLACK_WEBHOOK from the options (undefined when absent); nothing is stored or announced |
| `Bellman.Bellman.UpdateConfig` | bellman.js:30-32 | The configuration becomes `Assign(old config, updated)` |
| `Bellman.Bellman.OnNewTrack` | bellman.js:196-202 | Always appends the track to the `newTrack` log; appends its text to the posted log exactly when SLACK_WEBHOOK is truthy |
| `Bellman.Bellman.SendToSlack` | bellman.js:206-221 | Posts `FormatText` of the track |
| `Bellman.Bellman.CheckForNewTrack` | bellman.js:139-194 | When `Emits` holds, lastPlaying becomes the current record and it is emitted once, and posted once if the webhook is set. Otherwise lastPlaying and both logs are unchanged. It keeps `Valid`: lastPlaying is the latest emitted track, or `{}` before any |
| `Bellman.Bellman.OnServiceEvent` | bellman.js:66-131 | State and emitted log follow `Process`; posted texts are the announced tracks' texts when the webhook is set; config unchanged; `Valid` is kept |
| `LibBellman.Bellman.constructor` | lib/bellman.js:7-8 | Module state at load: stored fingerprint null, lastPlaying `{}`, nothing posted |
| `LibBellman.Bellman.SendToSlack` | lib/bellman.js:164-179 | Posts `FormatText` of the track |
| `LibBellman.Bellman.CheckForNewTrack` | lib/bellman.js:105-160 | When `Emits` holds, lastPlaying becomes the current record and its text is posted once; otherwise nothing changes. It keeps `Valid`: the latest posted text is that of lastPlaying |
| `LibBellman.Bellman.OnServiceEvent` | lib/bellman.js:32-97 | State follows `Process`. The text of every announced track is posted; there is no webhook check. `Valid` is kept |

## Left out

- Sonos discovery and the UPnP subscription are left out because they are network I/O through a library. This covers `Listener`, `listen`, `addService`/`removeService`, the re-listen cleanup at bellman.js:39-45, and the hard-coded host in lib/bellman.js:16.
- XML text parsing by xml2js is left out. The first pass and the lookup of `Event.InstanceID[0].CurrentTrackMetaData[0].$.val` are replaced by the fingerprint value given to `OnServiceEvent`. The second pass is a parameter `parse: JsVal -> Doc`. Callbacks that xml2js runs synchronously are modelled as sequential steps.
- Parse and lookup errors, and the string `throw`s of every callback, are left out. The model has no recoverable error path because the code has none. Because `parse` is total, the `currentTrackMetaData != null` test at bellman.js:125 always holds.
- The HTTP POST is left out: `request`, the JSON body and its escaping, and the response handling. A post is recorded as its text in a ghost log.
- Logging and the `console.log` override are left out.
- EventEmitter inheritance and listener dispatch are left out. Emission is recorded in a ghost log as a snapshot of the record. In JavaScript the listener receives the `lastPlaying` object itself, which later changes in place. That aliasing is not modelled.
- In bellman.js, `config`, `lastPlaying` and the stored fingerprint are module-level variables. All instances share them, and the constructor resets only `config`. The model gives each object its own copy.
- The config and options objects are modelled as string-keyed maps of JsVal. Numbers and booleans as option values are not modelled.
- xml2js attributes (`$`) and mixed text (`_`) are not kept in the tree, because parseDIDL never reads them. An element that has them reads as a plain object (`Obj`).
- Loose equality treats two objects as never equal. In this code every compared object comes from a different parse, so none are the same reference.
- app.js is not part of this model. It is startup wiring only.
