/** The MQTT side of mqtt-lutron-leap-bridge.js: the topic prefix, the two
    subscriptions made on connect, and the routing of each incoming message
    by the second-to-last level of its topic. */
module Bridge {
  import opened Js
  import opened Strings
  import opened Requests

  /** The prefix the bridge works under: `TOPIC_PREFIX`, or `/leap/` when it is unset. */
  function TopicPrefix(env: Option<string>): string {
    if env.None? then "/leap/" else env.value
  }

  /** One `client.subscribe(filter, {qos})` call. */
  datatype MqttSubscription = MqttSubscription(filter: string, qos: nat)

  /** `connectedEvent`: the set filter, then the press filter, both at qos 1. */
  function Subscriptions(prefix: string): seq<MqttSubscription> {
    [MqttSubscription(prefix + "/+/set", 1), MqttSubscription(prefix + "/+/press", 1)]
  }

  /** MQTT topic-filter matching for filters without `#`: the same number of
      levels, each level of the filter either `+` or equal to the topic's. */
  predicate Matches(filter: string, topic: string) {
    var fs, ts := Split(filter, '/'), Split(topic, '/');
    |fs| == |ts| && forall i :: 0 <= i < |fs| ==> fs[i] == "+" || fs[i] == ts[i]
  }

  /** `components[components.length - 2]`: undefined (`None`) when the topic has
      a single level, since index -1 reads nothing. */
  function DeviceId(topic: string): (id: Option<string>)
    ensures id.Some? <==> '/' in topic
    ensures id.Some? ==> '/' !in id.value
  {
    var parts := Split(topic, '/');
    SplitWithout(topic, '/');
    JoinSplit(topic, '/');
    SplitPiecesFree(topic, '/');
    if |parts| >= 2 then Some(parts[|parts| - 2]) else None
  }

  /** `deviceId != 0` under loose equality: `undefined` is never equal to 0. */
  predicate Dispatched(id: Option<string>) {
    id.None? || !LooselyZero(id.value)
  }

  /** What the message handler decides to do with one message. */
  datatype Decision =
    | ButtonCommand(deviceId: Option<string>, message: string)  // `lutron.sendButtonCommand(deviceId, message)`
    | LevelCommand(deviceId: Option<string>, message: string)   // `lutron.sendLutronCommand(deviceId, message)`
    | Ignore

  /** The `client.on('message')` handler: skip a device id loosely equal to 0,
      otherwise send to the button path when the topic mentions `press`
      anywhere and to the level path otherwise. */
  function Route(topic: string, message: string): (d: Decision)
    ensures d.Ignore? <==> !Dispatched(DeviceId(topic))
    ensures d.ButtonCommand? <==> Dispatched(DeviceId(topic)) && Contains(topic, "press")
    ensures !d.Ignore? ==> d.deviceId == DeviceId(topic) && d.message == message
  {
    var id := DeviceId(topic);
    if !Dispatched(id) then Ignore
    else if Contains(topic, "press") then ButtonCommand(id, message)
    else LevelCommand(id, message)
  }

  /** A topic under the press filter: the button path whenever the id is not
      loosely 0, with the id and the message unchanged. */
  lemma PressTopicRoute(prefix: string, id: string, message: string)
    requires '/' !in id
    ensures Route(prefix + "/" + id + "/press", message) ==
      if LooselyZero(id) then Ignore else ButtonCommand(Some(id), message)
  {
    var topic := prefix + "/" + id + "/press";
    TopicDeviceId(prefix, id, "press");
    assert topic == prefix + "/" + id + "/" + "press";
    ContainsSuffix(prefix + "/" + id + "/", "press");
  }

  /** A topic under the set filter takes the level path unless `press` occurs
      in the prefix or in the id itself, which turns it into a button press. */
  lemma SetTopicRoute(prefix: string, id: string, message: string)
    requires '/' !in id
    ensures Route(prefix + "/" + id + "/set", message) ==
      if LooselyZero(id) then Ignore
      else if Contains(prefix, "press") || Contains(id, "press") then ButtonCommand(Some(id), message)
      else LevelCommand(Some(id), message)
  {
    var topic := prefix + "/" + id + "/set";
    TopicDeviceId(prefix, id, "set");
    assert topic == prefix + "/" + id + "/" + "set";
    assert DeviceId(topic) == Some(id);
    SetTopicMentionsPress(prefix, id);
    var press := Contains(topic, "press");
    assert press == (Contains(prefix, "press") || Contains(id, "press"));
    assert Route(topic, message) ==
      if LooselyZero(id) then Ignore else if press then ButtonCommand(Some(id), message) else LevelCommand(Some(id), message);
  }

  /** `press` occurs in `prefix/id/set` exactly when it occurs in the prefix or the id. */
  lemma SetTopicMentionsPress(prefix: string, id: string)
    ensures Contains(prefix + "/" + id + "/set", "press") <==> Contains(prefix, "press") || Contains(id, "press")
  {
    var rest := id + ['/'] + "set";
    var topic := prefix + ['/'] + rest;
    assert prefix + "/" + id + "/set" == topic;
    if Contains(topic, "press") {
      ContainsAcross(prefix, rest, '/', "press");
      if Contains(rest, "press") {
        ContainsAcross(id, "set", '/', "press");
      }
    }
    if Contains(prefix, "press") {
      ContainsWithin([], prefix, ['/'] + rest, "press");
      assert [] + prefix + (['/'] + rest) == topic;
    }
    if Contains(id, "press") {
      ContainsWithin(prefix + ['/'], id, ['/'] + "set", "press");
      assert prefix + ['/'] + id + (['/'] + "set") == topic;
    }
  }

  /** The device id of `prefix/id/tail` is `id`, whatever the prefix holds. */
  lemma TopicDeviceId(prefix: string, id: string, tail: string)
    requires '/' !in id && '/' !in tail
    ensures DeviceId(prefix + "/" + id + "/" + tail) == Some(id)
  {
    var rest := id + ['/'] + tail;
    assert prefix + "/" + id + "/" + tail == prefix + ['/'] + rest;
    SplitConcat(prefix, rest, '/');
    SplitConcat(id, tail, '/');
    SplitWithout(id, '/');
    SplitWithout(tail, '/');
  }

  /** A topic of one level has an undefined device id, which is not 0, so the
      message is always dispatched. */
  lemma TopicWithoutSlashRoute(topic: string, message: string)
    requires '/' !in topic
    ensures Route(topic, message) ==
      if Contains(topic, "press") then ButtonCommand(None, message) else LevelCommand(None, message)
  {
  }

  /** The levels of the filter `prefix/+/tail`: the prefix's, then `+`, then the tail. */
  lemma FilterLevels(prefix: string, tail: string)
    requires '/' !in tail
    ensures Split(prefix + "/+/" + tail, '/') == Split(prefix, '/') + ["+", tail]
  {
    assert prefix + "/+/" + tail == prefix + ['/'] + ("+" + ['/'] + tail);
    SplitConcat(prefix, "+" + ['/'] + tail, '/');
    SplitConcat("+", tail, '/');
    SplitWithout("+", '/');
    SplitWithout(tail, '/');
  }

  /** Every topic delivered on `prefix/+/tail` is `prefix/<id>/tail` for a
      one-level id, and that id is the second-to-last level. */
  lemma SubscribedTopic(prefix: string, tail: string, topic: string)
    requires '+' !in prefix && '/' !in tail && tail != "+"
    requires Matches(prefix + "/+/" + tail, topic)
    ensures DeviceId(topic).Some?
    ensures topic == prefix + "/" + DeviceId(topic).value + "/" + tail
  {
    var ps := Split(prefix, '/');
    FilterLevels(prefix, tail);
    var ts := Split(topic, '/');
    SplitPiecesWithin(prefix, '/', '+');
    var id := ts[|ps|];
    assert ts == ps + [id] + [tail] by {
      forall i | 0 <= i < |ps| ensures ts[i] == ps[i] {
        assert '+' !in ps[i];
      }
    }
    JoinLevels(topic, prefix, id, tail);
  }

  /** Every message on the bridge's set subscription, under a prefix without
      `+`: a level command for its id unless the prefix or the id mentions
      `press`, and dropped when the id is loosely 0. */
  lemma SetSubscriptionRoute(prefix: string, topic: string, message: string)
    requires '+' !in prefix && Matches(Subscriptions(prefix)[0].filter, topic)
    ensures DeviceId(topic).Some?
    ensures var id := DeviceId(topic).value;
      Route(topic, message) ==
        if LooselyZero(id) then Ignore
        else if Contains(prefix, "press") || Contains(id, "press") then ButtonCommand(Some(id), message)
        else LevelCommand(Some(id), message)
  {
    assert prefix + "/+/set" == prefix + "/+/" + "set";
    SubscribedTopic(prefix, "set", topic);
    var id := DeviceId(topic).value;
    assert topic == prefix + "/" + id + "/set";
    SetTopicRoute(prefix, id, message);
  }

  /** Every message on the bridge's press subscription, under a prefix without
      `+`: a button press of its id, dropped when the id is loosely 0. */
  lemma PressSubscriptionRoute(prefix: string, topic: string, message: string)
    requires '+' !in prefix && Matches(Subscriptions(prefix)[1].filter, topic)
    ensures DeviceId(topic).Some?
    ensures var id := DeviceId(topic).value;
      Route(topic, message) == if LooselyZero(id) then Ignore else ButtonCommand(Some(id), message)
  {
    assert prefix + "/+/press" == prefix + "/+/" + "press";
    SubscribedTopic(prefix, "press", topic);
    var id := DeviceId(topic).value;
    assert topic == prefix + "/" + id + "/press";
    PressTopicRoute(prefix, id, message);
  }

  /** A topic whose levels are the prefix's, then `id`, then `tail`, is `prefix/id/tail`. */
  lemma JoinLevels(topic: string, prefix: string, id: string, tail: string)
    requires Split(topic, '/') == Split(prefix, '/') + [id] + [tail]
    ensures DeviceId(topic) == Some(id)
    ensures topic == prefix + "/" + id + "/" + tail
  {
    var ps := Split(prefix, '/');
    JoinSplit(topic, '/');
    JoinSplit(prefix, '/');
    JoinSnoc(ps + [id], tail, '/');
    JoinSnoc(ps, id, '/');
  }

  /** Under the default prefix the filters carry a doubled slash. */
  lemma DefaultPrefixFilters()
    ensures Subscriptions(TopicPrefix(None)) ==
      [MqttSubscription("/leap//+/set", 1), MqttSubscription("/leap//+/press", 1)]
  {
    assert "/leap/" + "/+/set" == "/leap//+/set";
    assert "/leap/" + "/+/press" == "/leap//+/press";
  }

  /** A numeric id never mentions `press`. */
  lemma DigitsMentionNoPress(id: string)
    requires AllDigits(id)
    ensures !Contains(id, "press")
  {
    ContainsIff(id, "press");
    forall i ensures !OccursAt(id, "press", i) {
      if 0 <= i <= |id| - 5 {
        assert id[i..i + 5][0] == id[i];
      }
    }
  }

  /** Under a prefix free of `press`, a set topic with a numeric id is ignored
      exactly when every digit is 0 (`/0/`, `/00/`, and the empty id of `a//set`);
      any other number (`/leap//622/set`) takes the level path. */
  lemma NumericSetTopicRoute(prefix: string, id: string, message: string)
    requires AllDigits(id) && !Contains(prefix, "press")
    ensures Route(prefix + "/" + id + "/set", message) ==
      if forall i :: 0 <= i < |id| ==> id[i] == '0' then Ignore else LevelCommand(Some(id), message)
  {
    assert forall i :: 0 <= i < |id| ==> id[i] != '/';
    DigitsLooselyZero(id);
    DigitsMentionNoPress(id);
    SetTopicRoute(prefix, id, message);
  }

  /** An id that underflows to zero is dropped like `0`: a message on
      `<prefix>/1e-400/set` reaches no processor, whatever the prefix. */
  lemma UnderflowSetTopicIgnored(prefix: string, d: string, message: string)
    requires AllDigits(d) && DigitsValue(d) >= 359
    ensures Route(prefix + "/" + ("1e-" + d) + "/set", message) == Ignore
  {
    TinyLiteralLooselyZero(d);
    TinyIdHasNoSlash(d);
    ZeroSetTopicIgnored(prefix, "1e-" + d, message);
  }

  /** A set topic whose id is loosely 0 is dropped. */
  lemma ZeroSetTopicIgnored(prefix: string, id: string, message: string)
    requires '/' !in id && LooselyZero(id)
    ensures Route(prefix + "/" + id + "/set", message) == Ignore
  {
    SetTopicRoute(prefix, id, message);
  }

  lemma TinyIdHasNoSlash(d: string)
    requires AllDigits(d)
    ensures '/' !in "1e-" + d
  {
    var id := "1e-" + d;
    assert forall i :: 0 <= i < |id| ==> id[i] != '/';
  }

  /** The default prefix `/leap/` does not mention `press`, so numeric set
      topics under it route by their id alone. */
  lemma DefaultPrefixRoute(id: string, message: string)
    requires AllDigits(id)
    ensures Route(TopicPrefix(None) + "/" + id + "/set", message) ==
      if forall i :: 0 <= i < |id| ==> id[i] == '0' then Ignore else LevelCommand(Some(id), message)
  {
    NoPressInDefaultPrefix();
    NumericSetTopicRoute("/leap/", id, message);
  }

  lemma NoPressInDefaultPrefix()
    ensures !Contains("/leap/", "press")
  {
    var p := "/leap/";
    assert p[..5] != "press" by { assert p[..5][0] == '/'; }
    assert p[1..][..5] != "press" by { assert p[1..][..5][0] == 'l'; }
  }

  /** The methods a `LutronLeap` object has. */
  const LutronLeapMethods: set<string> := {
    "testCommandAndLog", "sendCommand", "sendZoneOnOffCommand", "sendButtonPress",
    "sendZoneLevelCommand", "read", "readAndSubscribe", "subscribe", "isConnected",
    "runTestCommands", "ping", "connect", "loadAreas", "secrets"}

  /** The method the handler calls for a decision. */
  function CalledMethod(d: Decision): string
    requires !d.Ignore?
  {
    if d.ButtonCommand? then "sendButtonCommand" else "sendLutronCommand"
  }

  /** The dispatch the handler evidently means: a button press through
      `sendButtonPress`, a level through `sendZoneLevelCommand` carrying the
      message as the level. */
  function Dispatch(d: Decision): Option<Request> {
    match d
    case Ignore => None
    case ButtonCommand(id, _) => Some(ButtonPressRequest(Printed(id)))
    case LevelCommand(id, message) => Some(ZoneLevelRequest(Printed(id), Str(message)))
  }

  /** The dispatch as written: calling a method the object lacks throws a TypeError. */
  function DispatchAsWritten(d: Decision): Result<Option<Request>> {
    if d.Ignore? then Ok(None)
    else if CalledMethod(d) in LutronLeapMethods then Ok(Dispatch(d))
    else Err(NotAFunction(CalledMethod(d)))
  }

  /** As written, every message that gets past the zero check throws instead of
      reaching the processor. */
  lemma DispatchAsWrittenThrows(d: Decision)
    ensures DispatchAsWritten(d) == if d.Ignore? then Ok(None) else Err(NotAFunction(CalledMethod(d)))
  {
    if !d.Ignore? {
      var name := CalledMethod(d);
      assert |name| == 17 && name[0] == 's';
      assert forall m | m in LutronLeapMethods :: |m| != 17 || m[0] == 't';
    }
  }

  /** With the intended dispatch a set message on a press-free topic reaches
      the zone's processor as `GoToLevel` with the message as the level, and a
      press message reaches the button's processor as `PressAndRelease`. */
  lemma DispatchReachesProcessor(prefix: string, id: string, message: string)
    requires '/' !in id && !LooselyZero(id)
    requires !Contains(prefix, "press") && !Contains(id, "press")
    ensures var r := Dispatch(Route(prefix + "/" + id + "/set", message));
      r.Some? && CommandOf(r.value) == Some(GoToLevel(id, Str(message)))
    ensures var r := Dispatch(Route(prefix + "/" + id + "/press", message));
      r.Some? && CommandOf(r.value) == Some(PressAndRelease(id))
  {
    SetTopicRoute(prefix, id, message);
    PressTopicRoute(prefix, id, message);
    ZoneLevelRoundTrip(id, Str(message));
    ButtonPressRoundTrip(id);
  }
}
