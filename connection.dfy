/** `LutronLeap` of lutron.js: the module-level `connected` flag, client and
    `allLEDs` list, and the requests, reads and subscriptions it makes through
    the LEAP client. The client is an abstract transport: every call made on it
    is appended to `trace`, a request's reply arrives later through `FinishRead`,
    and `leap.connect()` settles through `ConnectSettled`. */
module Connection {
  import opened Js
  import opened ResponseFilter
  import opened Requests
  import opened Discovery

  /** What `lutronEvent` emits. */
  datatype Event =
    | ConnectedEvent
    | DisconnectedEvent
    | AreaStatus(record: Record)
    | ZoneStatus(record: Record)
    | LedStatus(ledId: Option<string>, state: string)

  /** How an awaited `leap.request` settles. */
  datatype Reply = Rejected | Resolved(response: Value)

  /** A subscription handed to `leap.subscribe`. */
  datatype Subscription = Subscription(path: string, processor: Processor)

  /** A call made on the LEAP client, or an event emitted to listeners. */
  datatype Effect =
    | OpenClient(params: Params, port: int)   // `new LeapClient(ip, 8081, cert, key, ca)`
    | ConnectClient                           // `leap.connect()`
    | Send(request: Request)                  // `leap.request(...)`
    | Subscribe(subscription: Subscription)   // `leap.subscribe(path, processor, 'SubscribeRequest')`
    | Listen(eventName: string)               // `leap.on(eventName, ...)`
    | Emit(event: Event)                      // `emitter.emit(...)`

  /** A read whose reply has not arrived yet; `thenSubscribe` marks `readAndSubscribe`. */
  datatype PendingRead = PendingRead(call: ReadCall, thenSubscribe: bool)

  /** The port the LEAP client connects to. */
  const LeapPort := 8081

  /** What a processor does with one reply: the events it emits, the reads it
      issues, the LED ids it appends, and whether it ran to the end without throwing. */
  datatype Reaction = Reaction(events: seq<Event>, issued: seq<ReadCall>, leds: seq<Option<string>>, ok: bool)

  function AreaStatuses(records: seq<Record>): seq<Event> {
    seq(|records|, i requires 0 <= i < |records| => AreaStatus(records[i]))
  }

  function ZoneStatuses(records: seq<Record>): seq<Event> {
    seq(|records|, i requires 0 <= i < |records| => ZoneStatus(records[i]))
  }

  /** The reaction of each processor to a reply. */
  function Outcome(p: Processor, response: Value): Reaction {
    match p
    case AreaStatusProcessor =>
      var results := Filtered(response, "AreaStatuses", 1, Some([]));
      if results.Err? then Reaction([], [], [], false) else Reaction(AreaStatuses(results.value), [], [], true)
    case ZoneStatusProcessor =>
      var results := Filtered(response, "ZoneStatuses", 1, Some(["Zone"]));
      if results.Err? then Reaction([], [], [], false) else Reaction(ZoneStatuses(results.value), [], [], true)
    case LedStatusProcessor(ledId) =>
      var state := LedState(response);
      if state.Err? then Reaction([], [], [], false) else Reaction([LedStatus(ledId, state.value)], [], [], true)
    case AreaListProcessor =>
      var walk := AreaReads(response);
      Reaction([], walk.out, [], walk.ok)
    case ControlStationProcessor =>
      var walk := ControlStationReads(response);
      Reaction([], walk.out, [], walk.ok)
    case DeviceProcessor =>
      Reaction([], [], [], !IsNil(response))
    case ButtonGroupProcessor =>
      var leds := ButtonGroupLeds(response);
      Reaction([], [], leds.out, leds.ok)
  }

  /** The zone-status callback emits one `zone-status` event per item of
      `Body.ZoneStatuses`, in order, each carrying that item's record, and
      throws, emitting nothing, exactly when some item cannot be flattened. */
  lemma ZoneStatusOutcome(response: Value)
    ensures var o := Outcome(ZoneStatusProcessor, response);
      var items := Collection(response, "ZoneStatuses");
      && o.issued == [] && o.leds == []
      && (o.ok <==> items.Ok? && forall i :: 0 <= i < |items.value| ==> FlattenItem(items.value[i], 1, Some(["Zone"])).Ok?)
      && (!o.ok ==> o.events == [])
      && (o.ok ==> (|o.events| == |items.value| &&
            forall i :: 0 <= i < |items.value| ==>
              o.events[i].ZoneStatus? && FlattenItem(items.value[i], 1, Some(["Zone"])) == Ok(o.events[i].record)))
  {
    FilteredPerItem(response, "ZoneStatuses", 1, Some(["Zone"]));
  }

  /** The area-status callback, likewise, with an empty exclude list. */
  lemma AreaStatusOutcome(response: Value)
    ensures var o := Outcome(AreaStatusProcessor, response);
      var items := Collection(response, "AreaStatuses");
      && o.issued == [] && o.leds == []
      && (o.ok <==> items.Ok? && forall i :: 0 <= i < |items.value| ==> FlattenItem(items.value[i], 1, Some([])).Ok?)
      && (!o.ok ==> o.events == [])
      && (o.ok ==> (|o.events| == |items.value| &&
            forall i :: 0 <= i < |items.value| ==>
              o.events[i].AreaStatus? && FlattenItem(items.value[i], 1, Some([])) == Ok(o.events[i].record)))
  {
    FilteredPerItem(response, "AreaStatuses", 1, Some([]));
  }

  /** The LED callback on a status document emits the LED's id with `"1"` for
      `On` and `"0"` for anything else. */
  lemma LedStatusOutcome(ledId: Option<string>, state: Value)
    ensures Outcome(LedStatusProcessor(ledId), LedStatusDocument(state)) ==
      Reaction([LedStatus(ledId, if LooselyOn(state) then "1" else "0")], [], [], true)
  {
    LedStateOfDocument(state);
  }

  function EmitEffects(events: seq<Event>): seq<Effect> {
    seq(|events|, i requires 0 <= i < |events| => Emit(events[i]))
  }

  function ReadRequestTo(path: string): Request {
    Request(ReadRequest, path, None)
  }

  function ReadEffects(calls: seq<ReadCall>): seq<Effect> {
    seq(|calls|, i requires 0 <= i < |calls| => Send(ReadRequestTo(calls[i].path)))
  }

  function Pendings(calls: seq<ReadCall>, thenSubscribe: bool): seq<PendingRead> {
    seq(|calls|, i requires 0 <= i < |calls| => PendingRead(calls[i], thenSubscribe))
  }

  /** The reads `readAndSubscribe` issues for the LED list when the LED timer fires. */
  function LedReads(leds: seq<Option<string>>): seq<ReadCall> {
    seq(|leds|, i requires 0 <= i < |leds| => ReadCall(LedStatusPath(leds[i]), LedStatusProcessor(leds[i])))
  }

  /** The reads issued once `leap.connect()` resolves: area and zone status, then subscribed. */
  const StatusReads: seq<ReadCall> := [
    ReadCall("/area/status", AreaStatusProcessor),
    ReadCall("/zone/status", ZoneStatusProcessor)]

  /** `loadAreas` starts the walk with a plain read of `/area`. */
  const AreaListRead: ReadCall := ReadCall("/area", AreaListProcessor)

  /** Everything `connect` does on the client and the emitter after `leap.connect()` resolves. */
  const ConnectedEffects: seq<Effect> :=
    ReadEffects(StatusReads) + [Listen("unsolicited"), Listen("disconnected"), Emit(ConnectedEvent)]
    + ReadEffects([AreaListRead])

  class LutronLeap {
    /** The secrets the instance was built with. */
    var secrets: Value
    /** The module-level `connected` flag. */
    var connected: bool
    /** Whether the module-level `leap` holds a client. */
    var hasClient: bool
    /** `leap.connect()` calls not yet settled. */
    var connecting: nat
    /** Whether a `disconnected` listener is registered on the client. */
    var listening: bool
    /** LED subscription timers not yet fired. */
    var ledTimers: nat
    var pending: seq<PendingRead>
    var subscriptions: seq<Subscription>
    /** The module-level `allLEDs`: appended to, never cleared. */
    var allLEDs: seq<Option<string>>
    /** Every call made on the client and every event emitted, in order. */
    var trace: seq<Effect>

    /** Anything that waits on the client exists only once there is a client. */
    predicate Valid()
      reads this
    {
      connecting > 0 || ledTimers > 0 || |pending| > 0 || |subscriptions| > 0 || listening ==> hasClient
    }

    /** `new LutronLeap(inSecrets)`: disconnected, then `connect()`, which opens
        the client with `secrets()` as written (the certificate read from `crt`). */
    constructor (inSecrets: Value)
      ensures Valid()
      ensures secrets == inSecrets && !connected && !listening
      ensures pending == [] && subscriptions == [] && allLEDs == [] && ledTimers == 0
      ensures SecretsAsWritten(inSecrets).Err? ==> !hasClient && connecting == 0 && trace == []
      ensures SecretsAsWritten(inSecrets).Ok? ==>
        hasClient && connecting == 1 && trace == [OpenClient(SecretsAsWritten(inSecrets).value, LeapPort), ConnectClient]
    {
      secrets := inSecrets;
      connected := false;
      hasClient := false;
      connecting := 0;
      listening := false;
      ledTimers := 0;
      pending := [];
      subscriptions := [];
      allLEDs := [];
      trace := [];
      new;
      Connect();
    }

    /** `connect()` up to `await leap.connect()`: a no-op when connected; a secrets
        read that throws leaves the flag false; otherwise a new client is opened
        and asked to connect. */
    method Connect()
      requires Valid()
      modifies this`connected, this`hasClient, this`connecting, this`trace
      ensures Valid()
      ensures old(connected) ==> connected && hasClient == old(hasClient) && connecting == old(connecting) && trace == old(trace)
      ensures !old(connected) && SecretsAsWritten(secrets).Err? ==>
        !connected && hasClient == old(hasClient) && connecting == old(connecting) && trace == old(trace)
      ensures !old(connected) && SecretsAsWritten(secrets).Ok? ==>
        !connected && hasClient && connecting == old(connecting) + 1
        && trace == old(trace) + [OpenClient(SecretsAsWritten(secrets).value, LeapPort), ConnectClient]
    {
      if connected {
        return;
      }
      var params := SecretsAsWritten(secrets);
      if params.Err? {
        connected := false;
        return;
      }
      trace := trace + [OpenClient(params.value, LeapPort), ConnectClient];
      hasClient := true;
      connecting := connecting + 1;
    }

    /** The rest of `connect()` once `leap.connect()` settles: a rejection leaves
        the flag false; success sets it, reads and subscribes to area and zone
        status, registers the client listeners, emits `connected`, starts the area
        walk and arms the LED timer. */
    method ConnectSettled(ok: bool)
      requires Valid() && connecting > 0
      modifies this`connected, this`connecting, this`listening, this`ledTimers, this`trace, this`pending
      ensures Valid()
      ensures connecting == old(connecting) - 1
      ensures connected == ok
      ensures !ok ==> (listening == old(listening) && ledTimers == old(ledTimers)
        && trace == old(trace) && pending == old(pending))
      ensures ok ==> (listening && ledTimers == old(ledTimers) + 1
        && trace == old(trace) + ConnectedEffects
        && pending == old(pending) + Pendings(StatusReads, true) + Pendings([AreaListRead], false))
    {
      connecting := connecting - 1;
      if !ok {
        connected := false;
        return;
      }
      connected := true;
      IssueRead(StatusReads[0], true);
      IssueRead(StatusReads[1], true);
      trace := trace + [Listen("unsolicited"), Listen("disconnected")];
      listening := true;
      trace := trace + [Emit(ConnectedEvent)];
      IssueRead(AreaListRead, false);
      ledTimers := ledTimers + 1;
    }

    /** The client's `disconnected` event: the listener, once registered, emits
        `disconnected` and clears the flag. */
    method TransportDisconnected()
      modifies this`connected, this`trace
      ensures listening ==> !connected && trace == old(trace) + [Emit(DisconnectedEvent)]
      ensures !listening ==> connected == old(connected) && trace == old(trace)
    {
      if listening {
        trace := trace + [Emit(DisconnectedEvent)];
        connected := false;
      }
    }

    /** `isConnected()`. */
    method IsConnected() returns (c: bool)
      ensures c == connected
    {
      c := connected;
    }

    /** `sendCommand(type, url)`: the request is made when there is a client;
        without one the call throws inside the returned promise. */
    method SendCommand(requestType: RequestType, url: string)
      modifies this`trace
      ensures trace == old(trace) + (if hasClient then [Send(Request(requestType, url, None))] else [])
    {
      if hasClient {
        trace := trace + [Send(Request(requestType, url, None))];
      }
    }

    /** `ping()`: the request is not awaited, so its failure never reaches the
        `catch`; the answer is always true and the flag is left alone. */
    method Ping() returns (success: bool)
      modifies this`trace
      ensures success
      ensures trace == old(trace) + (if hasClient then [Send(PingRequest)] else [])
    {
      success := true;
      SendCommand(ReadRequest, "/server/1/status/ping");
    }

    /** `sendZoneLevelCommand(zone, level)`; no check of the flag or of the level's range. */
    method SendZoneLevelCommand(zone: string, level: Value)
      modifies this`trace
      ensures trace == old(trace) + (if hasClient then [Send(ZoneLevelRequest(zone, level))] else [])
    {
      if hasClient {
        trace := trace + [Send(ZoneLevelRequest(zone, level))];
      }
    }

    /** `sendZoneOnOffCommand(zone, onOff)`: level 100 or 0. */
    method SendZoneOnOffCommand(zone: string, onOff: Value)
      modifies this`trace
      ensures trace == old(trace) + (if hasClient then [Send(ZoneLevelRequest(zone, Num(if Truthy(onOff) then 100 else 0)))] else [])
    {
      SendZoneLevelCommand(zone, Num(OnOffLevel(onOff)));
    }

    /** `sendButtonPress(button)`. */
    method SendButtonPress(button: string)
      modifies this`trace
      ensures trace == old(trace) + (if hasClient then [Send(ButtonPressRequest(button))] else [])
    {
      if hasClient {
        trace := trace + [Send(ButtonPressRequest(button))];
      }
    }

    /** The synchronous part of `read`/`readAndSubscribe`: the request is made and
        its reply awaited; without a client the call throws and is caught. */
    method IssueRead(call: ReadCall, thenSubscribe: bool)
      requires Valid()
      modifies this`trace, this`pending
      ensures Valid()
      ensures hasClient ==> (trace == old(trace) + [Send(ReadRequestTo(call.path))]
        && pending == old(pending) + [PendingRead(call, thenSubscribe)])
      ensures !hasClient ==> trace == old(trace) && pending == old(pending)
    {
      if hasClient {
        trace := trace + [Send(ReadRequestTo(call.path))];
        pending := pending + [PendingRead(call, thenSubscribe)];
      }
    }

    /** `read(path, processor)` up to its `await`. */
    method Read(path: string, processor: Processor)
      requires Valid()
      modifies this`trace, this`pending
      ensures Valid()
      ensures hasClient ==> (trace == old(trace) + [Send(ReadRequestTo(path))]
        && pending == old(pending) + [PendingRead(ReadCall(path, processor), false)])
      ensures !hasClient ==> trace == old(trace) && pending == old(pending)
    {
      IssueRead(ReadCall(path, processor), false);
    }

    /** `readAndSubscribe(path, processor)` up to its `await`. */
    method ReadAndSubscribe(path: string, processor: Processor)
      requires Valid()
      modifies this`trace, this`pending
      ensures Valid()
      ensures hasClient ==> (trace == old(trace) + [Send(ReadRequestTo(path))]
        && pending == old(pending) + [PendingRead(ReadCall(path, processor), true)])
      ensures !hasClient ==> trace == old(trace) && pending == old(pending)
    {
      IssueRead(ReadCall(path, processor), true);
    }

    /** `subscribe(path, processor)`: without a client the call throws and is caught. */
    method SubscribeTo(path: string, processor: Processor)
      requires Valid()
      modifies this`trace, this`subscriptions
      ensures Valid()
      ensures hasClient ==> (trace == old(trace) + [Subscribe(Subscription(path, processor))]
        && subscriptions == old(subscriptions) + [Subscription(path, processor)])
      ensures !hasClient ==> trace == old(trace) && subscriptions == old(subscriptions)
    {
      if hasClient {
        trace := trace + [Subscribe(Subscription(path, processor))];
        subscriptions := subscriptions + [Subscription(path, processor)];
      }
    }

    /** Issues the reads a callback makes, in order. */
    method IssueReads(calls: seq<ReadCall>)
      requires Valid() && hasClient
      modifies this`trace, this`pending
      ensures Valid()
      ensures trace == old(trace) + ReadEffects(calls)
      ensures pending == old(pending) + Pendings(calls, false)
    {
      var i := 0;
      while i < |calls|
        invariant 0 <= i <= |calls|
        invariant Valid()
        invariant trace == old(trace) + ReadEffects(calls[..i])
        invariant pending == old(pending) + Pendings(calls[..i], false)
      {
        IssueRead(calls[i], false);
        assert ReadEffects(calls[..i + 1]) == ReadEffects(calls[..i]) + [Send(ReadRequestTo(calls[i].path))];
        assert Pendings(calls[..i + 1], false) == Pendings(calls[..i], false) + [PendingRead(calls[i], false)];
        i := i + 1;
      }
      assert calls[..i] == calls;
    }

    /** `results.forEach(result => emitter.emit(...))`. */
    method EmitAll(events: seq<Event>)
      modifies this`trace
      ensures trace == old(trace) + EmitEffects(events)
    {
      var i := 0;
      while i < |events|
        invariant 0 <= i <= |events|
        invariant trace == old(trace) + EmitEffects(events[..i])
      {
        assert EmitEffects(events[..i + 1]) == EmitEffects(events[..i]) + [Emit(events[i])];
        trace := trace + [Emit(events[i])];
        i := i + 1;
      }
      assert events[..i] == events;
    }

    /** `group.Buttons.forEach(...)`: appends the id of each button's associated
        LED to `allLEDs`, stopping at the first button that throws. */
    method ButtonsLeds(bs: seq<Value>) returns (ok: bool)
      modifies this`allLEDs
      ensures ok == Scan(bs, ButtonLed).ok
      ensures allLEDs == old(allLEDs) + Scan(bs, ButtonLed).out
    {
      ok := true;
      var j := 0;
      while j < |bs| && ok
        invariant 0 <= j <= |bs|
        invariant ok == Scan(bs[..j], ButtonLed).ok
        invariant allLEDs == old(allLEDs) + Scan(bs[..j], ButtonLed).out
      {
        ScanSnoc(bs, j, ButtonLed);
        var found := ButtonLed(bs[j]);
        allLEDs := allLEDs + found.out;
        ok := found.ok;
        j := j + 1;
      }
      if ok {
        assert bs[..j] == bs;
      } else {
        ScanStops(bs, j, ButtonLed);
      }
    }

    /** One group: `group.Buttons` must be an array. */
    method GroupButtonsLeds(group: Value) returns (ok: bool)
      modifies this`allLEDs
      ensures ok == GroupLeds(group).ok
      ensures allLEDs == old(allLEDs) + GroupLeds(group).out
    {
      var buttons := Dot(Ok(group), "Buttons");
      if !(buttons.Ok? && buttons.value.Arr?) {
        return false;
      }
      ok := ButtonsLeds(buttons.value.elems);
    }

    /** `buttonGroup.forEach(group => ...)`: the buttons of each group in turn. */
    method GroupsLeds(gs: seq<Value>) returns (ok: bool)
      modifies this`allLEDs
      ensures ok == Scan(gs, GroupLeds).ok
      ensures allLEDs == old(allLEDs) + Scan(gs, GroupLeds).out
    {
      ok := true;
      var i := 0;
      while i < |gs| && ok
        invariant 0 <= i <= |gs|
        invariant ok == Scan(gs[..i], GroupLeds).ok
        invariant allLEDs == old(allLEDs) + Scan(gs[..i], GroupLeds).out
      {
        ScanSnoc(gs, i, GroupLeds);
        ok := GroupButtonsLeds(gs[i]);
        i := i + 1;
      }
      if ok {
        assert gs[..i] == gs;
      } else {
        ScanStops(gs, i, GroupLeds);
      }
    }

    /** The button-group callback: walks the groups and their buttons, appending
        each associated LED's id to `allLEDs` as it is found. */
    method DiscoverLeds(response: Value) returns (ok: bool)
      modifies this`allLEDs
      ensures ok == ButtonGroupLeds(response).ok
      ensures allLEDs == old(allLEDs) + ButtonGroupLeds(response).out
    {
      var body := Dot(Ok(response), "Body");
      if body.Err? {
        return false;
      }
      if IsNil(body.value) {
        return true;
      }
      var groups := Dot(body, "ButtonGroupsExpanded");
      if groups.Ok? && IsNil(groups.value) {
        return true;
      }
      if !(groups.Ok? && groups.value.Arr?) {
        return false;
      }
      ok := GroupsLeds(groups.value.elems);
    }

    /** The area and zone status callbacks: flatten the status list and emit one
        event per record, in order; a throwing flatten emits nothing. */
    method ProcessStatus(p: Processor, response: Value) returns (ok: bool)
      requires p.AreaStatusProcessor? || p.ZoneStatusProcessor?
      modifies this`trace
      ensures ok == Outcome(p, response).ok
      ensures Outcome(p, response).issued == [] && Outcome(p, response).leds == []
      ensures trace == old(trace) + EmitEffects(Outcome(p, response).events)
    {
      var results;
      if p.AreaStatusProcessor? {
        results := FilterResponseArray(response, "AreaStatuses", 1, Some([]));
      } else {
        results := FilterResponseArray(response, "ZoneStatuses", 1, Some(["Zone"]));
      }
      if results.Err? {
        return false;
      }
      EmitAll(if p.AreaStatusProcessor? then AreaStatuses(results.value) else ZoneStatuses(results.value));
      ok := true;
    }

    /** The LED status callback: emit the LED's id with `"1"` or `"0"`. */
    method ProcessLedStatus(p: Processor, response: Value) returns (ok: bool)
      requires p.LedStatusProcessor?
      modifies this`trace
      ensures ok == Outcome(p, response).ok
      ensures Outcome(p, response).issued == [] && Outcome(p, response).leds == []
      ensures trace == old(trace) + EmitEffects(Outcome(p, response).events)
    {
      var state := LedState(response);
      if state.Err? {
        return false;
      }
      EmitAll([LedStatus(p.ledId, state.value)]);
      ok := true;
    }

    /** The area-list and control-station callbacks: issue the next reads of the walk. */
    method ProcessWalk(p: Processor, response: Value) returns (ok: bool)
      requires p.AreaListProcessor? || p.ControlStationProcessor?
      requires Valid() && hasClient
      modifies this`trace, this`pending
      ensures Valid()
      ensures ok == Outcome(p, response).ok
      ensures Outcome(p, response).events == [] && Outcome(p, response).leds == []
      ensures trace == old(trace) + ReadEffects(Outcome(p, response).issued)
      ensures pending == old(pending) + Pendings(Outcome(p, response).issued, false)
    {
      var walk := if p.AreaListProcessor? then AreaReads(response) else ControlStationReads(response);
      IssueReads(walk.out);
      ok := walk.ok;
    }

    /** Runs a processor on a reply: what it emits, reads and collects. */
    method Process(p: Processor, response: Value) returns (ok: bool)
      requires Valid() && hasClient
      modifies this`trace, this`pending, this`allLEDs
      ensures Valid()
      ensures ok == Outcome(p, response).ok
      ensures trace == old(trace) + EmitEffects(Outcome(p, response).events) + ReadEffects(Outcome(p, response).issued)
      ensures pending == old(pending) + Pendings(Outcome(p, response).issued, false)
      ensures allLEDs == old(allLEDs) + Outcome(p, response).leds
    {
      if p.AreaStatusProcessor? || p.ZoneStatusProcessor? {
        ok := ProcessStatus(p, response);
      } else if p.LedStatusProcessor? {
        ok := ProcessLedStatus(p, response);
      } else if p.AreaListProcessor? || p.ControlStationProcessor? {
        ok := ProcessWalk(p, response);
      } else if p.DeviceProcessor? {
        ok := !IsNil(response);
      } else {
        ok := DiscoverLeds(response);
      }
    }

    /** The continuation of `read`/`readAndSubscribe` once the request settles:
        a rejection is caught and the result is null; otherwise the processor
        runs on the reply, and only if it did not throw does `readAndSubscribe`
        subscribe. The reply is returned either way. */
    method FinishRead(i: nat, reply: Reply) returns (result: Value)
      requires Valid() && i < |pending|
      modifies this`trace, this`pending, this`allLEDs, this`subscriptions
      ensures Valid()
      ensures reply.Rejected? ==> (result == Null && trace == old(trace)
        && pending == old(pending[..i] + pending[i + 1..])
        && allLEDs == old(allLEDs) && subscriptions == old(subscriptions))
      ensures reply.Resolved? ==>
        var read := old(pending[i]);
        var o := Outcome(read.call.processor, reply.response);
        var subscribes := o.ok && read.thenSubscribe;
        && result == reply.response
        && trace == old(trace) + EmitEffects(o.events) + ReadEffects(o.issued)
             + (if subscribes then [Subscribe(Subscription(read.call.path, read.call.processor))] else [])
        && pending == old(pending[..i] + pending[i + 1..]) + Pendings(o.issued, false)
        && allLEDs == old(allLEDs) + o.leds
        && subscriptions == old(subscriptions)
             + (if subscribes then [Subscription(read.call.path, read.call.processor)] else [])
    {
      var read := pending[i];
      pending := pending[..i] + pending[i + 1..];
      if reply.Rejected? {
        return Null;
      }
      result := reply.response;
      var ok := Process(read.call.processor, result);
      if ok && read.thenSubscribe {
        SubscribeTo(read.call.path, read.call.processor);
      }
    }

    /** An update pushed on subscription `j`: its processor runs on the update. */
    method Deliver(j: nat, update: Value)
      requires Valid() && j < |subscriptions|
      modifies this`trace, this`pending, this`allLEDs
      ensures Valid()
      ensures var o := Outcome(subscriptions[j].processor, update);
        && trace == old(trace) + EmitEffects(o.events) + ReadEffects(o.issued)
        && pending == old(pending) + Pendings(o.issued, false)
        && allLEDs == old(allLEDs) + o.leds
    {
      var _ := Process(subscriptions[j].processor, update);
    }

    /** The LED timer: `readAndSubscribe` on the status of every LED collected so far. */
    method LedTimerFired()
      requires Valid() && ledTimers > 0
      modifies this`ledTimers, this`trace, this`pending
      ensures Valid()
      ensures ledTimers == old(ledTimers) - 1
      ensures trace == old(trace) + ReadEffects(LedReads(allLEDs))
      ensures pending == old(pending) + Pendings(LedReads(allLEDs), true)
    {
      ledTimers := ledTimers - 1;
      var i := 0;
      while i < |allLEDs|
        invariant 0 <= i <= |allLEDs|
        invariant ledTimers == old(ledTimers) - 1
        invariant Valid() && hasClient
        invariant trace == old(trace) + ReadEffects(LedReads(allLEDs[..i]))
        invariant pending == old(pending) + Pendings(LedReads(allLEDs[..i]), true)
      {
        var ledId := allLEDs[i];
        ReadAndSubscribe(LedStatusPath(ledId), LedStatusProcessor(ledId));
        assert LedReads(allLEDs[..i + 1]) == LedReads(allLEDs[..i]) + [ReadCall(LedStatusPath(ledId), LedStatusProcessor(ledId))];
        assert ReadEffects(LedReads(allLEDs[..i + 1])) == ReadEffects(LedReads(allLEDs[..i])) + [Send(ReadRequestTo(LedStatusPath(ledId)))];
        assert Pendings(LedReads(allLEDs[..i + 1]), true) == Pendings(LedReads(allLEDs[..i]), true) + [PendingRead(ReadCall(LedStatusPath(ledId), LedStatusProcessor(ledId)), true)];
        i := i + 1;
      }
      assert allLEDs[..i] == allLEDs;
    }
  }
}
