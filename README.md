# mqtt-lutron-leap-bridge, modelled in Dafny

This project models the core of a bridge between an MQTT bus and a Lutron
gateway that speaks LEAP:

- `lutron.js` holds `filterResponseArray` and the `LutronLeap` class. `filterResponseArray` flattens a gateway status document into one record per item.
- `LutronLeap` does several things:
  - it builds the zone-level and button-press requests;
  - it maps LED states to `"1"`/`"0"`;
  - it derives connection parameters from its secrets;
  - it keeps the module-level `connected` flag;
  - it reads and subscribes through the LEAP client;
  - it walks areas, control stations and button groups to collect LED ids into `allLEDs`.
- `mqtt-lutron-leap-bridge.js` chooses the topic prefix and subscribes to the set and press filters. It routes every incoming message by the second-to-last level of its topic.

## Modules

- `js.dfy` (`Js`): JavaScript values, property reads that throw on `null`/`undefined`, `Object.keys`, key assignment and truthiness.
- `strings.dfy` (`Strings`): `trim`, `split` and `join` with a one-character separator, `includes`, and loose equality of a string with `0`.
- `filter.dfy` (`ResponseFilter`): `filterResponseArray`.
  - It is given as reference functions (`Filtered`, `FlattenAll`, `FlattenFields`, `Step`) and as the imperative loops `FilterResponseArray` and `NewItem`, which are proved equal to those functions.
  - It also holds the lemmas about record contents.
- `requests.dfy` (`Requests`): the request builders and `secrets()`.
  - Each builder is paired with `CommandOf`, an independent reader that parses a request the way the processor would.
- `discovery.dfy` (`Discovery`): the synchronous work of each response callback.
  - This covers the reads the `loadAreas` walk issues, the LED ids a button group yields, and the LED-state mapping.
  - A `forEach` that may throw is modelled as `Scan` over a prefix.
- `connection.dfy` (`Connection`): the class `LutronLeap`, whose fields are the module-level state.
  - That state is the `connected` flag, the client, `allLEDs`, pending reads, subscriptions and a `trace` of every client call and emitted event.
  - An awaited request is split into the synchronous part, which issues it, and `FinishRead`, which runs when its reply arrives. Replies can therefore arrive in any order.
- `bridge.dfy` (`Bridge`): the topic prefix, the subscriptions, MQTT filter matching, routing, and dispatch.

## Model

| member | source | states |
|---|---|---|
| Js.Prop | lutron.js:18 | `v.k` throws exactly when `v` is null or undefined; on an object it yields the field's value, or `undefined` when the key is absent |
| Js.OwnFields | lutron.js:23 | `Object.keys(item)` throws exactly on null/undefined; an object enumerates its fields in order; arrays and strings enumerate one key per element |
| Js.Put | lutron.js:26 | after `obj[k] = v`, `obj[k]` is `v`; a new key is appended at the end, as JavaScript orders string keys |
| Js.PutKeepsOthers | lutron.js:37 | assigning one key leaves every other key's value unchanged |
| Strings.TrimStart | lutron.js:25 | the result is a suffix of the input that starts with a non-space |
| Strings.TrimEnd | lutron.js:25 | the result is a prefix of the input that ends with a non-space |
| Strings.TrimStartDropsSpaces | lutron.js:25 | `trim` removes only white space at the front |
| Strings.TrimEndDropsSpaces | lutron.js:25 | `trim` removes only white space at the back |
| Strings.Trim | lutron.js:25 | the trimmed string starts and ends with a non-space |
| Strings.TrimmedIsFixed | lutron.js:25 | trimming a string that starts and ends with a non-space changes nothing |
| Strings.Split | lutron.js:25 | `split` always yields at least one piece |
| Strings.Join | lutron.js:25 | the inverse of `split` used to state its pieces; `JoinSplit` and `SplitJoin` prove the two undo each other |
| Strings.SplitPiecesFree | lutron.js:25 | no piece of `split(c)` contains `c` |
| Strings.JoinSplit | lutron.js:25 | joining the pieces of `split(c)` with `c` gives back the string |
| Strings.SplitWithout | lutron.js:25 | `split(c)` yields a single piece exactly when the string has no `c` |
| Strings.SplitConcat | mqtt-lutron-leap-bridge.js:115 | splitting `a + c + b` yields the pieces of `a` followed by those of `b` |
| Strings.SplitJoin | lutron.js:25 | splitting a join of separator-free pieces gives back the pieces |
| Strings.PathSplits | lutron.js:222 | `/kind/id/tail` splits into `""`, `kind`, `id`, `tail`, so segment 2 is the id |
| Strings.ContainsIff | mqtt-lutron-leap-bridge.js:120 | `includes(w)` holds exactly when `w` occurs at some position |
| Strings.Contains | mqtt-lutron-leap-bridge.js:120 | `topic.includes(w)`: whether `w` starts at some position of the topic; `ContainsIff` states it |
| Strings.ContainsAcross | mqtt-lutron-leap-bridge.js:120 | a separator-free word found in `a/b` lies in `a` or in `b` |
| Strings.ContainsWithin | mqtt-lutron-leap-bridge.js:120 | a word found in a part is found in the whole |
| Strings.DigitsLooselyZero | mqtt-lutron-leap-bridge.js:119 | a digit string is loosely equal to `0` exactly when all its digits are `0`; the empty string is zero |
| Strings.LooselyZero | mqtt-lutron-leap-bridge.js:119 | `s == 0` for a string: its trim is empty, a radix literal of zero, or a signed decimal literal (with optional exponent) whose value is zero or underflows to zero, i.e. has magnitude at most 2^-1075 |
| Strings.DigitsValueZero | mqtt-lutron-leap-bridge.js:119 | a digit string has value 0 exactly when every digit is `0` |
| Strings.DigitsOnlyMantissa | mqtt-lutron-leap-bridge.js:119 | a non-empty digit string is a mantissa with neither point nor exponent, and is a decimal zero exactly when its value is 0 |
| Strings.UnderflowBound | mqtt-lutron-leap-bridge.js:119 | `2^1075 <= 10^d` for every `d >= 359`, the bound behind underflow to zero |
| Strings.TinyLiteralLooselyZero | mqtt-lutron-leap-bridge.js:119 | `1e-<d>` with `d >= 359` (e.g. `1e-400`) is loosely equal to 0, although its mantissa is 1 |
| Strings.ZeroDecimalLooselyZero | mqtt-lutron-leap-bridge.js:119 | a decimal literal of zero with no surrounding white space is loosely 0 |
| ResponseFilter.DeviceSegment | lutron.js:25-26 | `components[nodeIndex + 1]` is a string piece or `undefined` |
| ResponseFilter.Step | lutron.js:24-38 | one key of the inner loop: `href` sets `device` or throws when not a string; under a nil exclude other keys are skipped; otherwise excluded or nil keys are skipped and the rest are copied |
| ResponseFilter.FlattenFields | lutron.js:23-39 | the keys in order, each through `Step`, stopping at the first throw |
| ResponseFilter.FlattenItem | lutron.js:22-41 | `Object.keys(item)`, which throws on a nil item, then the keys flattened into a new record |
| ResponseFilter.FlattenAll | lutron.js:21-42 | the items in order, one record each, stopping at the first throw |
| ResponseFilter.Collection | lutron.js:18-21 | `response.Body[bodyKey]` must be an array; a nil `response`, `Body` or collection throws a read error, and any other value has no `forEach` |
| ResponseFilter.Filtered | lutron.js:17-45 | what `filterResponseArray` returns or throws: the collection's items flattened in order |
| ResponseFilter.Kept | lutron.js:23-39 | an independent filter-and-rename of an item's fields: `href` becomes `device`, excluded and nil fields are dropped, the rest are copied |
| ResponseFilter.NewItem | lutron.js:22-40 | the inner loop returns what `FlattenFields` defines, or the TypeError thrown on a bad `href` |
| ResponseFilter.FilterResponseArray | lutron.js:17-45 | the outer loop returns what `Filtered` defines |
| ResponseFilter.FlattenFieldsErrSticks | lutron.js:23-39 | once a key has thrown, the whole item throws the same error |
| ResponseFilter.FlattenAllErrSticks | lutron.js:21-42 | once an item has thrown, the whole call throws the same error |
| ResponseFilter.FlattenAllPerItem | lutron.js:21-42 | one record per item, in input order, each the item's own flattening; the call throws exactly when some item throws |
| ResponseFilter.FilteredPerItem | lutron.js:17-45 | succeeds exactly when `Body[bodyKey]` is an array whose items all flatten; then returns one record per item, in order |
| ResponseFilter.MissingCollectionThrows | lutron.js:18-21 | a body without `bodyKey` makes `body.forEach` throw rather than give an empty list |
| ResponseFilter.KeptFind | lutron.js:23-39 | the filter-and-rename `Kept` maps `href` to `device` and keeps exactly the present, non-excluded, non-nil keys, with their values |
| ResponseFilter.FlattenIsKept | lutron.js:23-39 | with a non-nil exclude list, flattening an item equals `Kept` |
| ResponseFilter.FlattenCopiesFields | lutron.js:27-38 | with a non-nil exclude list: `device` is present iff the item has `href`; every other key is present iff it is not `href`, not excluded and not nil; values are copied unchanged |
| ResponseFilter.ItemDeviceWritesLast | lutron.js:24-37 | under a non-nil exclude list that does not name `device`, an item's own non-nil `device` key coming last is what the record keeps, overwriting any `href` segment: last write wins |
| ResponseFilter.HrefWritesLast | lutron.js:24-26 | an `href` coming after any other key, `device` included, leaves the segment as the record's `device` |
| ResponseFilter.NilExcludeKeepsOnlyDevice | lutron.js:27-29 | with a nil exclude list the record is `{device}` when there is an `href`, and empty otherwise |
| ResponseFilter.FlattenThrowsOnBadHref | lutron.js:24-25 | an item throws exactly when one of its `href` values is not a string |
| ResponseFilter.StepThrows | lutron.js:24-38 | one turn of the key loop throws exactly on a non-string `href` |
| ResponseFilter.DeviceSegmentOfJoin | lutron.js:25-26 | the device of a trimmed path is the segment at `nodeIndex + 1`, or undefined past the end |
| ResponseFilter.ZoneHrefDevice | lutron.js:25-26 | `/zone/<id>/status` at segment index 1 names device `<id>`; at index 3 the device is undefined |
| ResponseFilter.HrefFieldFlattened | lutron.js:24-26 | an item holding only a string `href` becomes `{device}` |
| ResponseFilter.LevelsFlattened | lutron.js:36-37 | non-nil, non-excluded level fields are copied after `device`, in order |
| ResponseFilter.LevelFieldsFlattened | lutron.js:33-35 | under `['Zone']` the `Zone` field is dropped and the levels are kept |
| ResponseFilter.ZoneFieldsFlattened | lutron.js:177 | a zone status item flattens to its id and its two levels |
| ResponseFilter.ZoneStatusFlattened | lutron.js:175-181 | a one-zone status document flattens to one record holding its id and levels, without `Zone` |
| Requests.OnOffLevel | lutron.js:67-69 | the level is 100 for a truthy `onOff` and 0 otherwise |
| Requests.ZoneLevelRequest | lutron.js:80-88 | a `CreateRequest` to `/zone/<zone>/commandprocessor` with a `GoToLevel` command whose one `Level` parameter is the level; `ZoneLevelRoundTrip` reads it back |
| Requests.ButtonPressRequest | lutron.js:71-78 | a `CreateRequest` to `/button/<button>/commandprocessor` with a `PressAndRelease` command; `ButtonPressRoundTrip` reads it back |
| Requests.ProcessorUrlSplits | lutron.js:72 | `/kind/id/commandprocessor` splits back into kind and id |
| Requests.ZoneLevelRoundTrip | lutron.js:80-88 | the zone request parses back as `GoToLevel` of that zone, with the level unchanged and no range check |
| Requests.ButtonPressRoundTrip | lutron.js:71-78 | the button request parses back as `PressAndRelease` of that button, with no parameters |
| Requests.ZoneOnOffRoundTrip | lutron.js:67-69 | `sendZoneOnOffCommand` asks for level 100 when `onOff` is truthy and 0 otherwise |
| Requests.SecretsAsWritten | lutron.js:284-293 | reading the secrets throws exactly when they are null or undefined |
| Requests.Secrets | lutron.js:284-293 | the corrected reader throws exactly when the secrets are null or undefined |
| Requests.CallerSecretsFields | mqtt-lutron-leap-bridge.js:85 | the bridge's object has `ip`, `ca`, `cert` and `key`, and no `crt` |
| Requests.SecretsRoundTrip | lutron.js:284-293 | reading `cert` hands every parameter the caller supplied to the client |
| Requests.SecretsAsWrittenDropsCert | lutron.js:289 | as written, the client gets `cert: undefined`, which differs from what the caller supplied |
| Discovery.Dot | lutron.js:219 | a property read on a read that threw, or on nil, throws |
| Discovery.SegmentOf | lutron.js:222 | `v.split('/')[i]` succeeds exactly when `v` is a string |
| Discovery.ButtonLed | lutron.js:252-270 | one button: its `href` must split; an associated LED contributes the id at segment 2 of its `href`, and no LED contributes nothing |
| Discovery.GroupLeds | lutron.js:252 | `group.Buttons.forEach`, stopping at the first button that throws |
| Discovery.ButtonGroupLeds | lutron.js:245-273 | the button-group callback: nothing for a nil `Body` or nil `ButtonGroupsExpanded`, otherwise each group's LED ids in order |
| Discovery.AreaRead | lutron.js:222-224 | one area leads to a read of `/area/<id>/associatedcontrolstation`, the id being segment 2 of its `href` |
| Discovery.AreaReads | lutron.js:217-224 | the `/area` callback: one control-station read per area of `Body.Areas`, in order |
| Discovery.GangDeviceReads | lutron.js:232-243 | one ganged device leads to a read of `/device/<id>` and then of `/device/<id>/buttongroup/expanded` |
| Discovery.StationReads | lutron.js:229-232 | a station with nil `AssociatedGangedDevices` leads to nothing; otherwise to each device's reads in order |
| Discovery.ControlStationReads | lutron.js:224-228 | the control-station callback: nothing for a nil `Body`, otherwise each station's reads in order |
| Discovery.LooselyOn | lutron.js:202 | `State == 'On'` under loose equality |
| Discovery.LedStatusPath | lutron.js:201 | `/led/<id>/status`, with `undefined` pasted for a missing id |
| Discovery.LedState | lutron.js:202 | the state is `"1"` or `"0"`; the callback throws exactly when `Body` or `Body.LEDStatus` is nil |
| Discovery.LedStateOfDocument | lutron.js:202 | `State` loosely equal to `On` gives `"1"`; any other state, `Off` included, gives `"0"` |
| Discovery.LedStatusPathRoundTrip | lutron.js:201 | `/led/<id>/status` yields the id back at segment 2 |
| Discovery.ScanStops | lutron.js:250-252 | after an item throws, `forEach` visits no later item |
| Discovery.ScanAppend | lutron.js:250-252 | walking two lists in a row is walking the first, then the second if the first finished |
| Discovery.ScanFinishes | lutron.js:250-252 | a `forEach` finishes exactly when no item throws |
| Discovery.ButtonWithLed | lutron.js:259-262 | a button whose `AssociatedLED.href` is `/led/<id>` contributes exactly `<id>` |
| Discovery.ButtonWithoutLed | lutron.js:259-265 | a button without an associated LED contributes nothing, and the walk goes on |
| Discovery.ButtonWithoutHref | lutron.js:255 | a button without `href` throws and ends its group's walk |
| Connection.ZoneStatusOutcome | lutron.js:175-181 | the zone callback emits one `zone-status` per item, in order, each with the item's record; it emits nothing when some item throws |
| Connection.AreaStatusOutcome | lutron.js:167-173 | the area callback does the same with an empty exclude list |
| Connection.LedStatusOutcome | lutron.js:201-205 | the LED callback emits the LED's id with `"1"` for `On` and `"0"` otherwise, and issues nothing |
| Connection.Outcome | lutron.js:167-281 | what each callback emits, which reads it issues, which LED ids it appends, and whether it ran without throwing |
| Connection.LutronLeap.constructor | lutron.js:49-54 | starts disconnected with an empty `allLEDs`, then connects: when `secrets()` as written does not throw, a client is opened at port 8081 with its parameters (the certificate read from `crt`) and asked to connect |
| Connection.LutronLeap.Connect | lutron.js:150-160 | no-op when connected; secrets that throw leave the flag false and make no call; otherwise a new client is opened with the parameters `secrets()` as written returns and `leap.connect()` is called, with the flag still false |
| Connection.LutronLeap.ConnectSettled | lutron.js:160-212 | the flag becomes exactly the outcome of `leap.connect()`. On success, in order: read-and-subscribe area and zone status, register the `unsolicited` and `disconnected` listeners, emit `connected`, read `/area`, and arm the LED timer. A failure changes nothing else |
| Connection.LutronLeap.TransportDisconnected | lutron.js:187-191 | once the listener is registered, a disconnect emits `disconnected` and clears the flag |
| Connection.LutronLeap.IsConnected | lutron.js:130-132 | returns the flag unchanged |
| Connection.LutronLeap.SendCommand | lutron.js:62-65 | makes the request when there is a client, without checking the flag |
| Connection.LutronLeap.Ping | lutron.js:137-148 | always answers true and never touches the flag; the read of `/server/1/status/ping` (`Requests.PingRequest`) is made when there is a client |
| Connection.LutronLeap.SendZoneLevelCommand | lutron.js:80-88 | sends the `GoToLevel` request for the zone whenever there is a client |
| Connection.LutronLeap.SendZoneOnOffCommand | lutron.js:67-69 | sends level 100 or 0 according to `onOff` |
| Connection.LutronLeap.SendButtonPress | lutron.js:71-78 | sends the `PressAndRelease` request for the button |
| Connection.LutronLeap.Read | lutron.js:90-101 | issues the read and waits for its reply, never to subscribe |
| Connection.LutronLeap.ReadAndSubscribe | lutron.js:103-115 | issues the read and waits for its reply, marked to subscribe afterwards |
| Connection.LutronLeap.SubscribeTo | lutron.js:117-128 | subscribes when there is a client; otherwise the throw is caught and nothing happens |
| Connection.LutronLeap.IssueRead | lutron.js:94 | with a client, the read request is made and its reply awaited; without one, nothing happens |
| Connection.LutronLeap.IssueReads | lutron.js:219-224 | the reads a callback makes are issued in order, each waiting for its reply |
| Connection.LutronLeap.EmitAll | lutron.js:170-172 | emits the events in order |
| Connection.LutronLeap.ButtonsLeds | lutron.js:252-270 | appends each button's LED id to `allLEDs` in discovery order, stopping at the first button that throws |
| Connection.LutronLeap.GroupsLeds | lutron.js:250-271 | does this for the buttons of each group in turn |
| Connection.LutronLeap.GroupButtonsLeds | lutron.js:252-270 | one group appends the LED ids of its `Buttons` as `GroupLeds` defines; `ok` says whether its `forEach` finished |
| Connection.LutronLeap.DiscoverLeds | lutron.js:243-274 | the button-group callback appends `ButtonGroupLeds(response)` to `allLEDs`, never removing an id |
| Connection.LutronLeap.ProcessStatus | lutron.js:167-181 | the area and zone callbacks only emit, as `Outcome` defines: no reads, no LEDs |
| Connection.LutronLeap.ProcessLedStatus | lutron.js:201-205 | the LED callback only emits its LED's state |
| Connection.LutronLeap.ProcessWalk | lutron.js:217-243 | the area and control-station callbacks only issue reads, as `Outcome` defines; the reads are never subscribed |
| Connection.LutronLeap.Process | lutron.js:167-281 | running a callback emits its events, issues its reads and appends its LED ids, as `Outcome` defines |
| Connection.LutronLeap.FinishRead | lutron.js:90-115 | a rejected read returns null and runs nothing. A resolved read runs the processor on the reply and returns the reply. `readAndSubscribe` subscribes only after the processor finished without throwing |
| Connection.LutronLeap.Deliver | lutron.js:109 | a pushed update runs the subscribed processor |
| Connection.LutronLeap.LedTimerFired | lutron.js:198-207 | the timer read-and-subscribes `/led/<id>/status` for every LED collected so far, in order |
| Bridge.DeviceId | mqtt-lutron-leap-bridge.js:115-117 | the device id is defined exactly when the topic has a `/`, and it holds no `/` |
| Bridge.Route | mqtt-lutron-leap-bridge.js:114-126 | a message is dropped exactly when its device id is loosely 0; otherwise it is a button command when the topic mentions `press` anywhere and a level command if not, with the id and the message unchanged |
| Bridge.TopicPrefix | mqtt-lutron-leap-bridge.js:79-82 | `TOPIC_PREFIX`, or `/leap/` when it is unset |
| Bridge.Subscriptions | mqtt-lutron-leap-bridge.js:89-96 | the filters `<prefix>/+/set` then `<prefix>/+/press`, each at qos 1 |
| Bridge.Matches | mqtt-lutron-leap-bridge.js:92 | MQTT filter matching without `#`: the same number of levels, each filter level `+` or equal to the topic's |
| Bridge.Dispatched | mqtt-lutron-leap-bridge.js:119 | `deviceId != 0`: an undefined id always passes, a string passes unless it is loosely 0 |
| Bridge.TopicDeviceId | mqtt-lutron-leap-bridge.js:115-117 | the device id of `prefix/id/tail` is `id`, whatever the prefix holds |
| Bridge.PressTopicRoute | mqtt-lutron-leap-bridge.js:119-121 | a `…/id/press` topic is a button press of `id` with the message unchanged, unless `id` is loosely 0 |
| Bridge.SetTopicRoute | mqtt-lutron-leap-bridge.js:119-124 | a `…/id/set` topic is a level command, unless the prefix or the id mentions `press`, in which case it is a button press; it is dropped when `id` is loosely 0 |
| Bridge.SetTopicMentionsPress | mqtt-lutron-leap-bridge.js:120 | `press` occurs in `prefix/id/set` exactly when it occurs in the prefix or the id |
| Bridge.TopicWithoutSlashRoute | mqtt-lutron-leap-bridge.js:117-124 | a one-level topic has an undefined id, which is not 0, so it is always dispatched |
| Bridge.FilterLevels | mqtt-lutron-leap-bridge.js:90-96 | the levels of `prefix/+/tail` are the prefix's, then `+`, then the tail |
| Bridge.SubscribedTopic | mqtt-lutron-leap-bridge.js:90-96 | every topic matching `prefix/+/tail` is `prefix/<id>/tail`, with `<id>` its second-to-last level |
| Bridge.JoinLevels | mqtt-lutron-leap-bridge.js:115-117 | a topic whose levels are the prefix's, then `id`, then `tail` is `prefix/id/tail` with device id `id` |
| Bridge.SetSubscriptionRoute | mqtt-lutron-leap-bridge.js:89-124 | every message on the set subscription is a level command for its id, unless the prefix or the id mentions `press`; it is dropped when the id is loosely 0 |
| Bridge.PressSubscriptionRoute | mqtt-lutron-leap-bridge.js:89-124 | every message on the press subscription is a button press of its id, or dropped when the id is loosely 0 |
| Bridge.DefaultPrefixFilters | mqtt-lutron-leap-bridge.js:79-96 | without `TOPIC_PREFIX` the filters are `/leap//+/set` and `/leap//+/press`, in that order, at qos 1 |
| Bridge.DigitsMentionNoPress | mqtt-lutron-leap-bridge.js:120 | a numeric id never mentions `press` |
| Bridge.NumericSetTopicRoute | mqtt-lutron-leap-bridge.js:119-124 | under a press-free prefix, a numeric set topic is dropped exactly when all digits are 0 (`0`, `00`, or the empty id of `a//set`); otherwise it is a level command |
| Bridge.ZeroSetTopicIgnored | mqtt-lutron-leap-bridge.js:119-124 | a set topic whose slash-free id is loosely 0 reaches no processor, whatever the prefix |
| Bridge.UnderflowSetTopicIgnored | mqtt-lutron-leap-bridge.js:119-124 | a message on `<prefix>/1e-<d>/set` with `d >= 359` (e.g. `1e-400`) is dropped like one on `<prefix>/0/set` |
| Bridge.DefaultPrefixRoute | mqtt-lutron-leap-bridge.js:79-82 | under the default prefix, `/leap//622/set` is a level command for 622 and `/leap//0/set` is dropped |
| Bridge.NoPressInDefaultPrefix | mqtt-lutron-leap-bridge.js:81 | the default prefix does not mention `press` |
| Bridge.DispatchAsWrittenThrows | mqtt-lutron-leap-bridge.js:121-123 | every dispatched message calls a method `LutronLeap` lacks, so it throws a TypeError |
| Bridge.DispatchReachesProcessor | mqtt-lutron-leap-bridge.js:119-124 | with the intended calls, a set message reaches the zone's processor as `GoToLevel` carrying the message. A press message reaches the button's processor as `PressAndRelease` |

## Left out

- Transport and process plumbing is not modelled. This covers TLS material, `LeapClient` and `SmartBridge` internals, the MQTT client, file reads, environment checks with `process.abort`, health reporting and logging. The LEAP client is an abstract transport: every call on it is recorded in `trace`, and its replies arrive as `Reply` values.
- Async interleaving is modelled only as the split between issuing a request and `FinishRead`. `await this.runTestCommands()` is merged into `ConnectSettled`, because that method is empty. The 5-second LED timer is a counter that `LedTimerFired` consumes.
- Module-level state (`connected`, `leap`, `allLEDs`) is modelled as fields of a single `LutronLeap` object. Two instances sharing that state are not modelled.
- `Connection.LutronLeap.TransportDisconnected`: one flag stands for the listeners of every client opened so far. A listener left on an earlier client is not told apart.
- A `new LeapClient` that throws is not modelled: opening a client always succeeds, and its failure shows as a rejected `leap.connect()`.
- Unhandled promise rejections are not modelled: a command or read made without a client simply makes no call.
- The `unsolicited` listener's malformed emit is not modelled; only its registration is. `testCommandAndLog` calls an undefined `sendCommand` and is left out, as is the empty `runTestCommands`.
- The `DeviceProcessor` callback reads `response.Body` and does nothing with it. Only whether that read throws is modelled.
- The `Engraving` and `Name` reads in the button loop are not modelled. Both read a non-nil object, so neither can throw.
- `exclude` is modelled as an array (`Option<seq<string>>`). A `Set`, whose `size == 0` test could fire, is not modelled.
- Property reads on keys that are array indices or `length` are not modelled. Only objects have named keys here.
- Loose equality with 0 covers decimal, signed, exponent and radix literals of zero, and decimal literals that underflow to zero (magnitude at most 2^-1075, such as `1e-400`). `Infinity` and `NaN`, which never equal 0, are not singled out. A Buffer message is modelled as its text.
- JavaScript numbers are modelled as integers (`Js.Value.Num`). Fractional values and `NaN` are not represented, so a `NaN` `onOff`, which is falsy at lutron.js:68, cannot be passed to `Requests.OnOffLevel`. Levels and other numbers only pass through unchanged, so no proved property depends on their arithmetic.
- Zone, button and device ids are strings. Non-string ids printed into paths are not modelled.
- Matching of MQTT filters that contain `#`, and of topics starting with `$`, is not modelled. The bridge's own filters use neither.
- The commented-out MQTT publisher is not modelled.
- Four behaviours of the code that the model keeps as they are:
  - commands do not check the `connected` flag and have no "not connected" failure;
  - concurrent `connect()` calls each open a new client;
  - a missing `Body[bodyKey]` throws instead of giving an empty list;
  - the device id is segment `nodeIndex + 1` of the trimmed `href`, and `undefined` past the end.

## Findings

| source | as written | input that shows it | evidently intended | confidence | as-written member | corrected member |
|---|---|---|---|---|---|---|
| lutron.js:289 | `secrets()` reads the certificate from `crt` | `new LutronLeap({ip, ca, cert: C, key})` opens the client with `cert` undefined | read `cert`, the name the bridge passes at mqtt-lutron-leap-bridge.js:85 | not executed | Requests.SecretsAsWrittenDropsCert | Requests.SecretsRoundTrip |
| mqtt-lutron-leap-bridge.js:121-123 | the handler calls `lutron.sendButtonCommand` and `lutron.sendLutronCommand`, which `LutronLeap` does not define | topic `/leap//622/set` with message `50` throws `TypeError: lutron.sendLutronCommand is not a function` | call `sendButtonPress(deviceId)` or `sendZoneLevelCommand(deviceId, message)` | not executed | Bridge.DispatchAsWrittenThrows | Bridge.DispatchReachesProcessor |
