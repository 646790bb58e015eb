/** `filterResponseArray` of lutron.js: flatten the collection under
    `response.Body[bodyKey]` into one record per item, naming each record's
    device by a segment of the item's `href` and copying its other fields. */
module ResponseFilter {
  import opened Js
  import opened Strings

  /** A flattened item, its fields in insertion order. */
  type Record = seq<Field>

  /** `href.trim().split('/')[nodeIndex + 1]`, undefined when out of range. */
  function DeviceSegment(href: string, nodeIndex: int): (v: Value)
    ensures v.Str? || v.Undefined?
  {
    var parts := Split(Trim(href), '/');
    if 0 <= nodeIndex + 1 < |parts| then Str(parts[nodeIndex + 1]) else Undefined
  }

  /** What an `href` value contributes as `device` when it is a string. */
  function DeviceOf(href: Value, nodeIndex: int): Value {
    if href.Str? then DeviceSegment(href.s, nodeIndex) else Undefined
  }

  /** One turn of the inner `forEach` over the keys of an item. */
  function Step(acc: Record, f: Field, nodeIndex: int, exclude: Option<seq<string>>): Result<Record> {
    if f.key == "href" then
      if f.value.Str? then Ok(Put(acc, "device", DeviceSegment(f.value.s, nodeIndex)))
      else if IsNil(f.value) then Err(NilAccess)
      else Err(NotAFunction("trim"))
    else if exclude.None? then Ok(acc)
    // the `exclude.size == 0` test never fires: an array has no `size`, and `undefined == 0` is false
    else if f.key in exclude.value then Ok(acc)
    else if IsNil(f.value) then Ok(acc)
    else Ok(Put(acc, f.key, f.value))
  }

  /** The record built from the fields of one item, or the TypeError thrown on the way. */
  function FlattenFields(fields: seq<Field>, nodeIndex: int, exclude: Option<seq<string>>): Result<Record> {
    if |fields| == 0 then Ok([])
    else
      var acc :- FlattenFields(fields[..|fields| - 1], nodeIndex, exclude);
      Step(acc, fields[|fields| - 1], nodeIndex, exclude)
  }

  function FlattenItem(item: Value, nodeIndex: int, exclude: Option<seq<string>>): Result<Record> {
    var fields :- OwnFields(item);
    FlattenFields(fields, nodeIndex, exclude)
  }

  function FlattenAll(items: seq<Value>, nodeIndex: int, exclude: Option<seq<string>>): Result<seq<Record>> {
    if |items| == 0 then Ok([])
    else
      var init :- FlattenAll(items[..|items| - 1], nodeIndex, exclude);
      var last :- FlattenItem(items[|items| - 1], nodeIndex, exclude);
      Ok(init + [last])
  }

  /** `response.Body[bodyKey]`, which `forEach` needs to be an array. */
  function Collection(response: Value, bodyKey: string): Result<seq<Value>> {
    var body :- Prop(response, "Body");
    var items :- Prop(body, bodyKey);
    if items.Arr? then Ok(items.elems)
    else if IsNil(items) then Err(NilAccess)
    else Err(NotAFunction("forEach"))
  }

  /** What `filterResponseArray(response, bodyKey, nodeIndex, exclude)` returns or throws;
      a nil `exclude` is `None`. */
  function Filtered(response: Value, bodyKey: string, nodeIndex: int, exclude: Option<seq<string>>): Result<seq<Record>> {
    var items :- Collection(response, bodyKey);
    FlattenAll(items, nodeIndex, exclude)
  }

  /** Once a prefix of the keys has thrown, the whole item throws the same error. */
  lemma {:induction false} FlattenFieldsErrSticks(fields: seq<Field>, j: nat, nodeIndex: int, exclude: Option<seq<string>>)
    requires j <= |fields|
    requires FlattenFields(fields[..j], nodeIndex, exclude).Err?
    ensures FlattenFields(fields, nodeIndex, exclude) == FlattenFields(fields[..j], nodeIndex, exclude)
    decreases |fields| - j
  {
    if j < |fields| {
      assert fields[..j + 1][..j] == fields[..j];
      FlattenFieldsErrSticks(fields, j + 1, nodeIndex, exclude);
    } else {
      assert fields[..j] == fields;
    }
  }

  /** Once an item has thrown, the whole collection throws the same error. */
  lemma {:induction false} FlattenAllErrSticks(items: seq<Value>, i: nat, nodeIndex: int, exclude: Option<seq<string>>)
    requires i <= |items|
    requires FlattenAll(items[..i], nodeIndex, exclude).Err?
    ensures FlattenAll(items, nodeIndex, exclude) == FlattenAll(items[..i], nodeIndex, exclude)
    decreases |items| - i
  {
    if i < |items| {
      assert items[..i + 1][..i] == items[..i];
      FlattenAllErrSticks(items, i + 1, nodeIndex, exclude);
    } else {
      assert items[..i] == items;
    }
  }

  /** The inner `forEach` of `filterResponseArray`: build `newItem` from the keys of one item. */
  method NewItem(fields: seq<Field>, nodeIndex: int, exclude: Option<seq<string>>) returns (r: Result<Record>)
    ensures r == FlattenFields(fields, nodeIndex, exclude)
  {
    var newItem: Record := [];
    var j := 0;
    while j < |fields|
      invariant 0 <= j <= |fields|
      invariant FlattenFields(fields[..j], nodeIndex, exclude) == Ok(newItem)
    {
      assert fields[..j + 1][..j] == fields[..j];
      var f := fields[j];
      if f.key == "href" {
        if !f.value.Str? {
          r := Err(if IsNil(f.value) then NilAccess else NotAFunction("trim"));
          FlattenFieldsErrSticks(fields, j + 1, nodeIndex, exclude);
          return;
        }
        var components := Split(Trim(f.value.s), '/');
        newItem := Put(newItem, "device",
          if 0 <= nodeIndex + 1 < |components| then Str(components[nodeIndex + 1]) else Undefined);
      } else if exclude.None? {
      } else if f.key in exclude.value {
      } else if !IsNil(f.value) {
        newItem := Put(newItem, f.key, f.value);
      }
      j := j + 1;
    }
    assert fields[..j] == fields;
    r := Ok(newItem);
  }

  /** `filterResponseArray`: the outer `forEach` pushes one record per item. */
  method FilterResponseArray(response: Value, bodyKey: string, nodeIndex: int, exclude: Option<seq<string>>)
    returns (r: Result<seq<Record>>)
    ensures r == Filtered(response, bodyKey, nodeIndex, exclude)
  {
    var collection := Collection(response, bodyKey);
    if collection.Err? {
      return Err(collection.error);
    }
    var body := collection.value;
    var result: seq<Record> := [];
    var i := 0;
    while i < |body|
      invariant 0 <= i <= |body|
      invariant FlattenAll(body[..i], nodeIndex, exclude) == Ok(result)
    {
      assert body[..i + 1][..i] == body[..i];
      var keys := OwnFields(body[i]);
      if keys.Err? {
        FlattenAllErrSticks(body, i + 1, nodeIndex, exclude);
        return Err(keys.error);
      }
      var newItem := NewItem(keys.value, nodeIndex, exclude);
      assert FlattenItem(body[i], nodeIndex, exclude) == newItem;
      if newItem.Err? {
        FlattenAllErrSticks(body, i + 1, nodeIndex, exclude);
        return Err(newItem.error);
      }
      assert FlattenAll(body[..i + 1], nodeIndex, exclude) == Ok(result + [newItem.value]);
      result := result + [newItem.value];
      i := i + 1;
    }
    assert body[..i] == body;
    r := Ok(result);
  }

  /** When the call returns, it holds one record per item, in input order,
      each the flattening of its item. */
  lemma {:induction false} FlattenAllRecords(items: seq<Value>, nodeIndex: int, exclude: Option<seq<string>>)
    ensures FlattenAll(items, nodeIndex, exclude).Ok? ==>
      var rs := FlattenAll(items, nodeIndex, exclude).value;
      |rs| == |items| && forall i :: 0 <= i < |items| ==> FlattenItem(items[i], nodeIndex, exclude) == Ok(rs[i])
  {
    if |items| > 0 && FlattenAll(items, nodeIndex, exclude).Ok? {
      var n := |items| - 1;
      var init := items[..n];
      FlattenAllRecords(init, nodeIndex, exclude);
      var rs := FlattenAll(init, nodeIndex, exclude).value + [FlattenItem(items[n], nodeIndex, exclude).value];
      assert FlattenAll(items, nodeIndex, exclude) == Ok(rs);
      forall i | 0 <= i < n ensures FlattenItem(items[i], nodeIndex, exclude) == Ok(rs[i]) {
        assert items[i] == init[i];
      }
    }
  }

  /** When every item flattens, so does the whole collection. */
  lemma {:induction false} FlattenAllSucceeds(items: seq<Value>, nodeIndex: int, exclude: Option<seq<string>>)
    requires forall i :: 0 <= i < |items| ==> FlattenItem(items[i], nodeIndex, exclude).Ok?
    ensures FlattenAll(items, nodeIndex, exclude).Ok?
  {
    if |items| > 0 {
      var n := |items| - 1;
      var init := items[..n];
      forall i | 0 <= i < n ensures FlattenItem(init[i], nodeIndex, exclude).Ok? {
        assert init[i] == items[i];
      }
      FlattenAllSucceeds(init, nodeIndex, exclude);
    }
  }

  /** One record per item, in input order, each the flattening of its item;
      the call throws exactly when some item throws. */
  lemma FlattenAllPerItem(items: seq<Value>, nodeIndex: int, exclude: Option<seq<string>>)
    ensures FlattenAll(items, nodeIndex, exclude).Ok? <==>
      forall i :: 0 <= i < |items| ==> FlattenItem(items[i], nodeIndex, exclude).Ok?
    ensures FlattenAll(items, nodeIndex, exclude).Ok? ==>
      var rs := FlattenAll(items, nodeIndex, exclude).value;
      |rs| == |items| && forall i :: 0 <= i < |items| ==> FlattenItem(items[i], nodeIndex, exclude) == Ok(rs[i])
  {
    FlattenAllRecords(items, nodeIndex, exclude);
    if forall i :: 0 <= i < |items| ==> FlattenItem(items[i], nodeIndex, exclude).Ok? {
      FlattenAllSucceeds(items, nodeIndex, exclude);
    }
  }

  /** `filterResponseArray` succeeds exactly when `Body[bodyKey]` is an array
      whose items all flatten, and then returns one record per item, in order. */
  lemma FilteredPerItem(response: Value, bodyKey: string, nodeIndex: int, exclude: Option<seq<string>>)
    ensures Filtered(response, bodyKey, nodeIndex, exclude).Ok? <==>
      Collection(response, bodyKey).Ok? &&
      forall i :: 0 <= i < |Collection(response, bodyKey).value| ==>
        FlattenItem(Collection(response, bodyKey).value[i], nodeIndex, exclude).Ok?
    ensures Filtered(response, bodyKey, nodeIndex, exclude).Ok? ==>
      var items := Collection(response, bodyKey).value;
      var rs := Filtered(response, bodyKey, nodeIndex, exclude).value;
      |rs| == |items| && forall i :: 0 <= i < |items| ==> FlattenItem(items[i], nodeIndex, exclude) == Ok(rs[i])
  {
    if Collection(response, bodyKey).Ok? {
      FlattenAllPerItem(Collection(response, bodyKey).value, nodeIndex, exclude);
    }
  }

  /** A status document whose body lacks `bodyKey` makes `body.forEach` throw:
      the call fails rather than returning an empty list. */
  lemma MissingCollectionThrows(body: seq<Field>, bodyKey: string, nodeIndex: int, exclude: Option<seq<string>>)
    requires !HasKey(body, bodyKey)
    ensures Filtered(Obj([Field("Body", Obj(body))]), bodyKey, nodeIndex, exclude) == Err(NilAccess)
  {
  }

  /** The fields an item keeps under a non-nil exclude list, as an independent
      filter-and-rename over its fields: `href` becomes `device`, excluded and
      nil fields are dropped, the rest are copied. */
  function Kept(fields: seq<Field>, nodeIndex: int, ex: seq<string>): Record {
    if |fields| == 0 then []
    else
      var init := Kept(fields[..|fields| - 1], nodeIndex, ex);
      var f := fields[|fields| - 1];
      if f.key == "href" then init + [Field("device", DeviceOf(f.value, nodeIndex))]
      else if f.key in ex || IsNil(f.value) then init
      else init + [f]
  }

  /** Every `href` of the item is a string, so `trim` does not throw. */
  predicate HrefIsString(fields: seq<Field>) {
    forall i :: 0 <= i < |fields| && fields[i].key == "href" ==> fields[i].value.Str?
  }

  /** The keys and values of `Kept`: `device` exactly when there is an `href`,
      every other key exactly when it is present, not `href`, not excluded and
      not nil, with its value unchanged. */
  lemma {:induction false} KeptFind(fields: seq<Field>, nodeIndex: int, ex: seq<string>, k: string)
    requires DistinctKeys(fields) && !HasKey(fields, "device")
    ensures k == "device" ==>
      Find(Kept(fields, nodeIndex, ex), k) ==
        if HasKey(fields, "href") then Some(DeviceOf(Find(fields, "href").value, nodeIndex)) else None
    ensures k != "device" ==>
      Find(Kept(fields, nodeIndex, ex), k) ==
        if k != "href" && k !in ex && HasKey(fields, k) && !IsNil(Find(fields, k).value) then Find(fields, k) else None
  {
    if |fields| > 0 {
      var init := fields[..|fields| - 1];
      var f := fields[|fields| - 1];
      assert fields == init + [f];
      assert DistinctKeys(init);
      FindSnoc(init, f, "device");
      FindSnoc(init, f, "href");
      assert !HasKey(init, "device");
      KeptFind(init, nodeIndex, ex, k);
      FindSnoc(init, f, k);
      var kept := Kept(init, nodeIndex, ex);
      if f.key == "href" {
        FindSnoc(kept, Field("device", DeviceOf(f.value, nodeIndex)), k);
        KeptFind(init, nodeIndex, ex, "device");
        FindSome(init, "href");
        assert !HasKey(init, "href");
      } else {
        if k == f.key {
          FindSome(init, k);
          assert !HasKey(init, k);
        }
        if !(f.key in ex || IsNil(f.value)) {
          FindSnoc(kept, f, k);
        }
      }
    }
  }

  /** Under a non-nil exclude list, flattening an item whose keys are distinct
      and do not include `device` keeps exactly the fields `Kept` names. (An
      item with its own `device` key: see `ItemDeviceWritesLast` and
      `HrefWritesLast`.) */
  lemma {:induction false} FlattenIsKept(fields: seq<Field>, nodeIndex: int, ex: seq<string>)
    requires DistinctKeys(fields) && !HasKey(fields, "device") && HrefIsString(fields)
    ensures FlattenFields(fields, nodeIndex, Some(ex)) == Ok(Kept(fields, nodeIndex, ex))
  {
    if |fields| > 0 {
      var init := fields[..|fields| - 1];
      var f := fields[|fields| - 1];
      assert fields == init + [f];
      assert DistinctKeys(init) && HrefIsString(init);
      FindSnoc(init, f, "device");
      assert !HasKey(init, "device");
      FlattenIsKept(init, nodeIndex, ex);
      var kept := Kept(init, nodeIndex, ex);
      FindSome(init, f.key);
      assert !HasKey(init, f.key);
      if f.key == "href" {
        KeptFind(init, nodeIndex, ex, "device");
      } else {
        KeptFind(init, nodeIndex, ex, f.key);
      }
    }
  }

  /** With a non-nil exclude list (`[]` for areas, `['Zone']` for zones) the
      record holds `device` exactly when the item has an `href`, and every other
      key exactly when the item has it, it is not `href`, not excluded and not
      nil; copied values are unchanged. */
  lemma FlattenCopiesFields(fields: seq<Field>, nodeIndex: int, ex: seq<string>)
    requires DistinctKeys(fields) && !HasKey(fields, "device") && HrefIsString(fields)
    ensures FlattenFields(fields, nodeIndex, Some(ex)).Ok?
    ensures var r := FlattenFields(fields, nodeIndex, Some(ex)).value;
      && (HasKey(r, "device") <==> HasKey(fields, "href"))
      && (HasKey(fields, "href") ==>
            Find(r, "device") == Some(DeviceOf(Find(fields, "href").value, nodeIndex)))
      && forall k :: k != "device" ==>
           (HasKey(r, k) <==> k != "href" && k !in ex && HasKey(fields, k) && !IsNil(Find(fields, k).value))
           && (HasKey(r, k) ==> Find(r, k) == Find(fields, k))
  {
    FlattenIsKept(fields, nodeIndex, ex);
    forall k | true
      ensures k == "device" ==>
        Find(Kept(fields, nodeIndex, ex), k) ==
          if HasKey(fields, "href") then Some(DeviceOf(Find(fields, "href").value, nodeIndex)) else None
      ensures k != "device" ==>
        Find(Kept(fields, nodeIndex, ex), k) ==
          if k != "href" && k !in ex && HasKey(fields, k) && !IsNil(Find(fields, k).value) then Find(fields, k) else None
    {
      KeptFind(fields, nodeIndex, ex, k);
    }
  }

  /** An item may carry its own `device` key; `newItem['device']` is then
      assigned twice, and whichever key comes later in the item wins. Here the
      item's own value comes last and overwrites the `href` segment. */
  lemma ItemDeviceWritesLast(fields: seq<Field>, nodeIndex: int, ex: seq<string>, v: Value)
    requires FlattenFields(fields, nodeIndex, Some(ex)).Ok?
    requires "device" !in ex && !IsNil(v)
    ensures var r := FlattenFields(fields + [Field("device", v)], nodeIndex, Some(ex));
      r.Ok? && Find(r.value, "device") == Some(v)
  {
  }

  /** The other order: an `href` after the item's own `device` overwrites it
      with the segment, whatever the exclude list. */
  lemma HrefWritesLast(fields: seq<Field>, nodeIndex: int, exclude: Option<seq<string>>, href: string)
    requires FlattenFields(fields, nodeIndex, exclude).Ok?
    ensures var r := FlattenFields(fields + [Field("href", Str(href))], nodeIndex, exclude);
      r.Ok? && Find(r.value, "device") == Some(DeviceSegment(href, nodeIndex))
  {
  }

  /** With a nil exclude list nothing but `device` is copied: the record is
      `{device}` when the item has an `href` and empty otherwise. */
  lemma {:induction false} NilExcludeKeepsOnlyDevice(fields: seq<Field>, nodeIndex: int)
    requires DistinctKeys(fields) && HrefIsString(fields)
    ensures FlattenFields(fields, nodeIndex, None) ==
      Ok(if HasKey(fields, "href") then [Field("device", DeviceOf(Find(fields, "href").value, nodeIndex))] else [])
  {
    if |fields| > 0 {
      var init := fields[..|fields| - 1];
      var f := fields[|fields| - 1];
      assert fields == init + [f];
      assert DistinctKeys(init) && HrefIsString(init);
      NilExcludeKeepsOnlyDevice(init, nodeIndex);
      FindSnoc(init, f, "href");
      if f.key == "href" {
        FindSome(init, "href");
        assert !HasKey(init, "href");
      }
    }
  }

  /** An item throws exactly when one of its `href` fields is not a string. */
  lemma {:induction false} FlattenThrowsOnBadHref(fields: seq<Field>, nodeIndex: int, exclude: Option<seq<string>>)
    ensures FlattenFields(fields, nodeIndex, exclude).Err? <==> !HrefIsString(fields)
  {
    if |fields| > 0 {
      var init := fields[..|fields| - 1];
      var f := fields[|fields| - 1];
      assert fields == init + [f];
      FlattenThrowsOnBadHref(init, nodeIndex, exclude);
      FlattenSnoc(init, f, nodeIndex, exclude);
      var acc := FlattenFields(init, nodeIndex, exclude);
      if acc.Ok? {
        StepThrows(acc.value, f, nodeIndex, exclude);
      }
      HrefIsStringSnoc(init, f);
    }
  }

  lemma HrefIsStringSnoc(init: seq<Field>, f: Field)
    ensures HrefIsString(init + [f]) <==> HrefIsString(init) && (f.key == "href" ==> f.value.Str?)
  {
    if HrefIsString(init + [f]) {
      forall i | 0 <= i < |init| && init[i].key == "href" ensures init[i].value.Str? {
        assert (init + [f])[i] == init[i];
      }
      assert (init + [f])[|init|] == f;
    }
  }

  /** One turn of the inner loop throws exactly on an `href` that is not a string. */
  lemma StepThrows(acc: Record, f: Field, nodeIndex: int, exclude: Option<seq<string>>)
    ensures Step(acc, f, nodeIndex, exclude).Err? <==> f.key == "href" && !f.value.Str?
  {
  }

  /** The device of a trimmed `href` built from separator-free segments is the
      segment at `nodeIndex + 1`, and undefined past the last one. */
  lemma DeviceSegmentOfJoin(parts: seq<string>, nodeIndex: int)
    requires |parts| >= 1 && forall i :: 0 <= i < |parts| ==> '/' !in parts[i]
    requires Trim(Join(parts, '/')) == Join(parts, '/')
    ensures DeviceSegment(Join(parts, '/'), nodeIndex) ==
      if 0 <= nodeIndex + 1 < |parts| then Str(parts[nodeIndex + 1]) else Undefined
  {
    SplitJoin(parts, '/');
  }

  /** `/zone/<id>/status` with segment index 1 names device `<id>`; an index past
      the last segment gives an undefined device. */
  lemma ZoneHrefDevice(id: string)
    requires '/' !in id
    ensures DeviceSegment("/zone/" + id + "/status", 1) == Str(id)
    ensures DeviceSegment("/zone/" + id + "/status", 3) == Undefined
  {
    var href := "/zone/" + id + "/status";
    assert href == "/" + "zone" + "/" + id + "/" + "status";
    PathSplits("zone", id, "status");
    assert href[0] == '/' && href[|href| - 1] == 's';
    TrimmedIsFixed(href);
  }

  /** Flattening one more field is one more turn of the inner loop. */
  lemma FlattenSnoc(fields: seq<Field>, f: Field, nodeIndex: int, exclude: Option<seq<string>>)
    ensures FlattenFields(fields + [f], nodeIndex, exclude) ==
      if FlattenFields(fields, nodeIndex, exclude).Err? then FlattenFields(fields, nodeIndex, exclude)
      else Step(FlattenFields(fields, nodeIndex, exclude).value, f, nodeIndex, exclude)
  {
    assert (fields + [f])[..|fields|] == fields;
  }

  /** A non-nil field whose key is new and not excluded is appended. */
  lemma StepAppends(acc: Record, f: Field, nodeIndex: int, ex: seq<string>)
    requires f.key != "href" && f.key !in ex && !IsNil(f.value)
    requires forall i :: 0 <= i < |acc| ==> acc[i].key != f.key
    ensures Step(acc, f, nodeIndex, Some(ex)) == Ok(acc + [f])
  {
    FindAbsent(acc, f.key);
  }

  /** An item holding only a string `href` becomes a record holding only its `device`. */
  lemma HrefFieldFlattened(href: string, nodeIndex: int, exclude: Option<seq<string>>)
    ensures FlattenFields([Field("href", Str(href))], nodeIndex, exclude) ==
      Ok([Field("device", DeviceSegment(href, nodeIndex))])
  {
    FlattenSnoc([], Field("href", Str(href)), nodeIndex, exclude);
    assert [] + [Field("href", Str(href))] == [Field("href", Str(href))];
  }

  /** An item with an `href`, two non-nil levels and a `Zone` reference,
      flattened with exclude `['Zone']`: the reference is dropped. */
  lemma LevelFieldsFlattened(href: string, level: Value, switched: Value, zone: Value)
    requires !IsNil(level) && !IsNil(switched)
    ensures FlattenFields([
        Field("href", Str(href)),
        Field("Level", level),
        Field("SwitchedLevel", switched),
        Field("Zone", zone)], 1, Some(["Zone"]))
      == Ok([Field("device", DeviceSegment(href, 1)), Field("Level", level), Field("SwitchedLevel", switched)])
  {
    var ex := ["Zone"];
    var f0, f1, f2, f3 := Field("href", Str(href)), Field("Level", level), Field("SwitchedLevel", switched), Field("Zone", zone);
    var d := Field("device", DeviceSegment(href, 1));
    LevelsFlattened(href, level, switched, ex);
    FlattenSkips([f0, f1, f2], f3, [d, f1, f2], 1, ex);
    assert [f0, f1, f2] + [f3] == [f0, f1, f2, f3];
  }

  /** The `href` and the two levels of a zone status, under an exclude list without them. */
  lemma LevelsFlattened(href: string, level: Value, switched: Value, ex: seq<string>)
    requires !IsNil(level) && !IsNil(switched) && "Level" !in ex && "SwitchedLevel" !in ex
    ensures FlattenFields([Field("href", Str(href)), Field("Level", level), Field("SwitchedLevel", switched)], 1, Some(ex))
      == Ok([Field("device", DeviceSegment(href, 1)), Field("Level", level), Field("SwitchedLevel", switched)])
  {
    var f0, f1, f2 := Field("href", Str(href)), Field("Level", level), Field("SwitchedLevel", switched);
    var d := Field("device", DeviceSegment(href, 1));
    HrefFieldFlattened(href, 1, Some(ex));
    FlattenAppends([f0], f1, [d], 1, ex);
    assert [f0] + [f1] == [f0, f1] && [d] + [f1] == [d, f1];
    FlattenAppends([f0, f1], f2, [d, f1], 1, ex);
    assert [f0, f1] + [f2] == [f0, f1, f2] && [d, f1] + [f2] == [d, f1, f2];
  }

  /** A further non-nil field under a new key that is neither `href` nor excluded is appended. */
  lemma FlattenAppends(fields: seq<Field>, f: Field, acc: Record, nodeIndex: int, ex: seq<string>)
    requires FlattenFields(fields, nodeIndex, Some(ex)) == Ok(acc)
    requires f.key != "href" && f.key !in ex && !IsNil(f.value)
    requires forall i :: 0 <= i < |acc| ==> acc[i].key != f.key
    ensures FlattenFields(fields + [f], nodeIndex, Some(ex)) == Ok(acc + [f])
  {
    FlattenSnoc(fields, f, nodeIndex, Some(ex));
    StepAppends(acc, f, nodeIndex, ex);
  }

  /** A further excluded field, other than `href`, is skipped. */
  lemma FlattenSkips(fields: seq<Field>, f: Field, acc: Record, nodeIndex: int, ex: seq<string>)
    requires FlattenFields(fields, nodeIndex, Some(ex)) == Ok(acc)
    requires f.key != "href" && f.key in ex
    ensures FlattenFields(fields + [f], nodeIndex, Some(ex)) == Ok(acc)
  {
    FlattenSnoc(fields, f, nodeIndex, Some(ex));
  }

  /** The fields of one zone status, flattened with segment index 1 and exclude `['Zone']`. */
  lemma ZoneFieldsFlattened(id: string, level: Value, switched: Value, zone: Value)
    requires '/' !in id
    requires !IsNil(level) && !IsNil(switched)
    ensures FlattenFields([
        Field("href", Str("/zone/" + id + "/status")),
        Field("Level", level),
        Field("SwitchedLevel", switched),
        Field("Zone", zone)], 1, Some(["Zone"]))
      == Ok([Field("device", Str(id)), Field("Level", level), Field("SwitchedLevel", switched)])
  {
    ZoneHrefDevice(id);
    LevelFieldsFlattened("/zone/" + id + "/status", level, switched, zone);
  }

  /** A zone status document with one zone, flattened as the zone subscription
      does it: the `Zone` reference is dropped and the levels are copied unchanged. */
  lemma ZoneStatusFlattened(id: string, level: Value, switched: Value, zone: Value)
    requires '/' !in id
    requires !IsNil(level) && !IsNil(switched)
    ensures Filtered(
      Obj([Field("Body", Obj([Field("ZoneStatuses", Arr([Obj([
        Field("href", Str("/zone/" + id + "/status")),
        Field("Level", level),
        Field("SwitchedLevel", switched),
        Field("Zone", zone)])]))]))]),
      "ZoneStatuses", 1, Some(["Zone"]))
      == Ok([[Field("device", Str(id)), Field("Level", level), Field("SwitchedLevel", switched)]])
  {
    ZoneFieldsFlattened(id, level, switched, zone);
    var item := Obj([
        Field("href", Str("/zone/" + id + "/status")),
        Field("Level", level),
        Field("SwitchedLevel", switched),
        Field("Zone", zone)]);
    var record := [Field("device", Str(id)), Field("Level", level), Field("SwitchedLevel", switched)];
    var response := Obj([Field("Body", Obj([Field("ZoneStatuses", Arr([item]))]))]);
    assert Collection(response, "ZoneStatuses") == Ok([item]);
    assert Filtered(response, "ZoneStatuses", 1, Some(["Zone"])) == FlattenAll([item], 1, Some(["Zone"]));
    assert FlattenItem(item, 1, Some(["Zone"])) == Ok(record);
    var items := [item];
    assert items[..|items| - 1] == [];
    var init := FlattenAll(items[..|items| - 1], 1, Some(["Zone"]));
    assert init == Ok([]);
    assert FlattenAll(items, 1, Some(["Zone"])) == Ok(init.Extract() + [record]);
    assert init.Extract() + [record] == [record];
  }
}
