/** The callbacks `LutronLeap` hands to its reads and subscriptions, and the
    synchronous work each does with a reply: the `loadAreas` walk from areas
    to control stations to button groups, the LED ids it collects from
    `href.split('/')[2]`, and the LED state mapping. */
module Discovery {
  import opened Js
  import opened Strings

  /** The response processors of lutron.js, one per callback. */
  datatype Processor =
    | AreaStatusProcessor                        // `/area/status`: emits `area-status`
    | ZoneStatusProcessor                        // `/zone/status`: emits `zone-status`
    | LedStatusProcessor(ledId: Option<string>)  // `/led/<id>/status`: emits `led-status`
    | AreaListProcessor                          // `/area`: reads each area's control stations
    | ControlStationProcessor                    // reads each ganged device and its button groups
    | DeviceProcessor                            // reads `Body` and does nothing with it
    | ButtonGroupProcessor                       // collects the LED ids of the buttons

  /** A read a callback issues: the path and the processor of its reply. */
  datatype ReadCall = ReadCall(path: string, processor: Processor)

  /** What a `forEach` produced before it finished (`ok`) or threw (`!ok`). */
  datatype Partial<X> = Partial(out: seq<X>, ok: bool)

  /** Calling `f` on each item in turn, stopping at the first that throws. */
  function Scan<X>(items: seq<Value>, f: Value -> Partial<X>): Partial<X> {
    if |items| == 0 then Partial([], true)
    else
      var init := Scan(items[..|items| - 1], f);
      if !init.ok then init
      else
        var last := f(items[|items| - 1]);
        Partial(init.out + last.out, last.ok)
  }

  /** `v.forEach(f)` where reading `v` may itself have thrown: only an array has `forEach`. */
  function ForEach<X>(v: Result<Value>, f: Value -> Partial<X>): Partial<X> {
    if v.Ok? && v.value.Arr? then Scan(v.value.elems, f) else Partial([], false)
  }

  /** `v.k` where reading `v` may itself have thrown. */
  function Dot(v: Result<Value>, k: string): (r: Result<Value>)
    ensures r.Err? <==> v.Err? || IsNil(v.value)
  {
    if v.Err? then v else Prop(v.value, k)
  }

  /** `v.split('/')[i]`: the segment, or `undefined` past the last one; only a string has `split`. */
  function SegmentOf(v: Result<Value>, i: nat): (r: Result<Option<string>>)
    ensures r.Ok? <==> v.Ok? && v.value.Str?
  {
    if v.Err? then Err(v.error)
    else if v.value.Str? then
      var parts := Split(v.value.s, '/');
      Ok(if i < |parts| then Some(parts[i]) else None)
    else if IsNil(v.value) then Err(NilAccess)
    else Err(NotAFunction("split"))
  }

  /** One button of a button group: its own `href` must split, and the id of
      its associated LED, if it has one, is collected. */
  function ButtonLed(button: Value): Partial<Option<string>> {
    var self := Ok(button);
    if SegmentOf(Dot(self, "href"), 2).Err? then Partial([], false)
    else
      var led := Dot(self, "AssociatedLED");
      if led.Err? then Partial([], false)
      else if IsNil(led.value) then Partial([], true)
      else
        var ledId := SegmentOf(Dot(led, "href"), 2);
        if ledId.Err? then Partial([], false) else Partial([ledId.value], true)
  }

  /** `group.Buttons.forEach(...)`. */
  function GroupLeds(group: Value): Partial<Option<string>> {
    ForEach(Dot(Ok(group), "Buttons"), ButtonLed)
  }

  /** The LED ids the button-group callback appends to `allLEDs`, in discovery order. */
  function ButtonGroupLeds(response: Value): Partial<Option<string>> {
    var body := Dot(Ok(response), "Body");
    if body.Err? then Partial([], false)
    else if IsNil(body.value) then Partial([], true)
    else
      var groups := Dot(body, "ButtonGroupsExpanded");
      if groups.Ok? && IsNil(groups.value) then Partial([], true)
      else ForEach(groups, GroupLeds)
  }

  /** The control-station read one area leads to. */
  function AreaRead(area: Value): Partial<ReadCall> {
    var areaId := SegmentOf(Dot(Ok(area), "href"), 2);
    if areaId.Err? then Partial([], false)
    else Partial([ReadCall("/area/" + Printed(areaId.value) + "/associatedcontrolstation", ControlStationProcessor)], true)
  }

  /** The reads the `/area` callback issues, one per area. */
  function AreaReads(response: Value): Partial<ReadCall> {
    ForEach(Dot(Dot(Ok(response), "Body"), "Areas"), AreaRead)
  }

  /** The two reads one ganged device leads to: the device and its expanded button groups. */
  function GangDeviceReads(gangDevice: Value): Partial<ReadCall> {
    var deviceId := SegmentOf(Dot(Dot(Ok(gangDevice), "Device"), "href"), 2);
    if deviceId.Err? then Partial([], false)
    else
      var path := "/device/" + Printed(deviceId.value);
      Partial([ReadCall(path, DeviceProcessor), ReadCall(path + "/buttongroup/expanded", ButtonGroupProcessor)], true)
  }

  /** The reads one control station leads to; a station without ganged devices leads to none. */
  function StationReads(station: Value): Partial<ReadCall> {
    var devices := Dot(Ok(station), "AssociatedGangedDevices");
    if devices.Ok? && IsNil(devices.value) then Partial([], true)
    else ForEach(devices, GangDeviceReads)
  }

  /** The reads the control-station callback issues; a nil `Body` leads to none. */
  function ControlStationReads(response: Value): Partial<ReadCall> {
    var body := Dot(Ok(response), "Body");
    if body.Ok? && IsNil(body.value) then Partial([], true)
    else ForEach(Dot(body, "ControlStations"), StationReads)
  }

  /** `State == 'On'` under loose equality: a string equal to `On`, or an array
      whose string form is `On` (a one-element array of such a value). */
  predicate LooselyOn(state: Value) {
    state == Str("On") || (state.Arr? && |state.elems| == 1 && LooselyOn(state.elems[0]))
  }

  /** The state the LED callback emits: `"1"` when on, `"0"` for any other state;
      it throws when `Body` or `Body.LEDStatus` is nil. */
  function LedState(response: Value): (r: Result<string>)
    ensures r.Ok? ==> r.value == "1" || r.value == "0"
    ensures r.Ok? <==> Dot(Dot(Ok(response), "Body"), "LEDStatus").Ok? && !IsNil(Dot(Dot(Ok(response), "Body"), "LEDStatus").value)
  {
    var state := Dot(Dot(Dot(Ok(response), "Body"), "LEDStatus"), "State");
    if state.Err? then Err(state.error) else Ok(if LooselyOn(state.value) then "1" else "0")
  }

  /** The path an LED's status is read and subscribed at. */
  function LedStatusPath(ledId: Option<string>): string {
    "/led/" + Printed(ledId) + "/status"
  }

  /** A status document carrying one LED state. */
  function LedStatusDocument(state: Value): Value {
    Obj([Field("Body", Obj([Field("LEDStatus", Obj([Field("State", state)]))]))])
  }

  /** `On` maps to `"1"`; every other state, including a missing one, maps to `"0"`. */
  lemma LedStateOfDocument(state: Value)
    ensures LedState(LedStatusDocument(state)) == Ok(if LooselyOn(state) then "1" else "0")
    ensures LedState(LedStatusDocument(Str("On"))) == Ok("1")
    ensures LedState(LedStatusDocument(Str("Off"))) == Ok("0")
  {
    assert LooselyOn(Str("On"));
    assert Str("Off") != Str("On");
  }

  /** The path of a segment that holds no `/` gives the segment back at index 2. */
  lemma LedStatusPathRoundTrip(ledId: string)
    requires '/' !in ledId
    ensures SegmentOf(Ok(Str(LedStatusPath(Some(ledId)))), 2) == Ok(Some(ledId))
  {
    assert LedStatusPath(Some(ledId)) == "/" + "led" + "/" + ledId + "/" + "status";
    PathSplits("led", ledId, "status");
  }

  /** Scanning a prefix one item longer: the loop step. */
  lemma ScanSnoc<X>(items: seq<Value>, i: int, f: Value -> Partial<X>)
    requires 0 <= i < |items|
    ensures Scan(items[..i + 1], f) ==
      if !Scan(items[..i], f).ok then Scan(items[..i], f)
      else Partial(Scan(items[..i], f).out + f(items[i]).out, f(items[i]).ok)
  {
    assert items[..i + 1][..i] == items[..i];
  }

  /** Once an item has thrown, later items are never visited. */
  lemma {:induction false} ScanStops<X>(items: seq<Value>, i: nat, f: Value -> Partial<X>)
    requires i <= |items|
    requires !Scan(items[..i], f).ok
    ensures Scan(items, f) == Scan(items[..i], f)
    decreases |items| - i
  {
    if i < |items| {
      ScanSnoc(items, i, f);
      ScanStops(items, i + 1, f);
    } else {
      assert items[..i] == items;
    }
  }

  /** Scanning two lists in a row is scanning the first, then the second if the first finished. */
  lemma {:induction false} ScanAppend<X>(a: seq<Value>, b: seq<Value>, f: Value -> Partial<X>)
    ensures Scan(a + b, f) ==
      if !Scan(a, f).ok then Scan(a, f)
      else Partial(Scan(a, f).out + Scan(b, f).out, Scan(b, f).ok)
  {
    if |b| == 0 {
      assert a + b == a;
    } else {
      var b' := b[..|b| - 1];
      ScanAppend(a, b', f);
      assert (a + b)[..|a + b| - 1] == a + b';
      assert (a + b)[|a + b| - 1] == b[|b| - 1];
    }
  }

  /** A scan finishes exactly when no item throws; its output is then the items' outputs joined in order, as `ScanAppend` unfolds one item at a time. */
  lemma {:induction false} ScanFinishes<X>(items: seq<Value>, f: Value -> Partial<X>)
    ensures Scan(items, f).ok <==> forall i :: 0 <= i < |items| ==> f(items[i]).ok
  {
    if |items| > 0 {
      var n := |items| - 1;
      ScanFinishes(items[..n], f);
      assert forall i :: 0 <= i < n ==> items[..n][i] == items[i];
    }
  }

  /** A button that names an LED contributes exactly that LED's id. */
  lemma ButtonWithLed(buttonHref: string, ledId: string)
    requires '/' !in ledId
    ensures ButtonLed(Obj([
        Field("href", Str(buttonHref)),
        Field("AssociatedLED", Obj([Field("href", Str("/led/" + ledId))]))]))
      == Partial([Some(ledId)], true)
  {
    var parts := ["", "led", ledId];
    assert Join(parts[2..], '/') == ledId;
    assert Join(parts[1..], '/') == "led/" + ledId;
    assert Join(parts, '/') == "/led/" + ledId;
    SplitJoin(parts, '/');
    var fields := [
      Field("href", Str(buttonHref)),
      Field("AssociatedLED", Obj([Field("href", Str("/led/" + ledId))]))];
    assert DistinctKeys(fields);
    FindAt(fields, 1);
  }

  /** A button without an associated LED contributes nothing, and the scan goes on. */
  lemma ButtonWithoutLed(buttonHref: string)
    ensures ButtonLed(Obj([Field("href", Str(buttonHref))])) == Partial([], true)
  {
    FindAbsent([Field("href", Str(buttonHref))], "AssociatedLED");
  }

  /** A button whose `href` is missing throws, ending the scan of its group. */
  lemma ButtonWithoutHref(fields: seq<Field>)
    requires !HasKey(fields, "href")
    ensures ButtonLed(Obj(fields)) == Partial([], false)
  {
  }
}
