/** The slice of JavaScript's data model that the bridge touches: JSON-like
    values, property reads that throw on null/undefined, `Object.keys`, and
    truthiness. */
module Js {

  datatype Option<+T> = None | Some(value: T)

  /** Why a JavaScript expression throws a TypeError. */
  datatype Failure =
    | NilAccess                   // a property read or Object.keys on null or undefined
    | NotAFunction(name: string)  // calling trim/split/forEach on a value that has no such method

  /** A completed evaluation: a value, or the TypeError that was thrown. */
  datatype Result<+T> = Ok(value: T) | Err(error: Failure) {
    predicate IsFailure() { Err? }
    function PropagateFailure<U>(): Result<U> requires Err? { Err(error) }
    function Extract(): T requires Ok? { value }
  }

  /** A JSON-like value. An object's fields are listed in the order
      `Object.keys` enumerates them. Numbers are integers. */
  datatype Value =
    | Undefined
    | Null
    | Bool(b: bool)
    | Num(n: int)
    | Str(s: string)
    | Arr(elems: seq<Value>)
    | Obj(fields: seq<Field>)

  datatype Field = Field(key: string, value: Value)

  /** lodash `_.isNil`. */
  predicate IsNil(v: Value) {
    v.Undefined? || v.Null?
  }

  /** JavaScript's ToBoolean, as used by `c ? a : b`. */
  predicate Truthy(v: Value) {
    match v
    case Undefined => false
    case Null => false
    case Bool(b) => b
    case Num(n) => n != 0
    case Str(s) => s != ""
    case Arr(_) => true
    case Obj(_) => true
  }

  /** The value under the first field named `k`, if any. */
  function Find(fields: seq<Field>, k: string): Option<Value> {
    if |fields| == 0 then None
    else if fields[0].key == k then Some(fields[0].value)
    else Find(fields[1..], k)
  }

  /** A key is found exactly when some field carries it, and what is found is that field's value. */
  lemma {:induction false} FindSome(fields: seq<Field>, k: string)
    ensures Find(fields, k).Some? <==> exists i :: 0 <= i < |fields| && fields[i].key == k
    ensures Find(fields, k).Some? ==> exists i :: 0 <= i < |fields| && fields[i] == Field(k, Find(fields, k).value)
  {
    if |fields| > 0 && fields[0].key != k {
      FindSome(fields[1..], k);
      assert forall i :: 0 <= i < |fields| - 1 ==> fields[1..][i] == fields[i + 1];
    }
  }

  /** In an object with distinct keys, each key finds its own field. */
  lemma FindAt(fields: seq<Field>, i: int)
    requires DistinctKeys(fields) && 0 <= i < |fields|
    ensures Find(fields, fields[i].key) == Some(fields[i].value)
  {
    FindSome(fields, fields[i].key);
  }

  /** A key no field carries is not found. */
  lemma FindAbsent(fields: seq<Field>, k: string)
    requires forall i :: 0 <= i < |fields| ==> fields[i].key != k
    ensures Find(fields, k) == None
  {
    FindSome(fields, k);
  }

  predicate HasKey(fields: seq<Field>, k: string) {
    Find(fields, k).Some?
  }

  /** No two fields share a key, as in every JavaScript object. */
  predicate DistinctKeys(fields: seq<Field>) {
    forall i, j :: 0 <= i < j < |fields| ==> fields[i].key != fields[j].key
  }

  /** `obj[k] = v`: overwrite the field in place when the key exists, append it otherwise. */
  function Put(fields: seq<Field>, k: string, v: Value): (r: seq<Field>)
    ensures Find(r, k) == Some(v)
    ensures !HasKey(fields, k) ==> r == fields + [Field(k, v)]
  {
    if |fields| == 0 then [Field(k, v)]
    else if fields[0].key == k then [Field(k, v)] + fields[1..]
    else
      var r := [fields[0]] + Put(fields[1..], k, v);
      assert r[1..] == Put(fields[1..], k, v);
      r
  }

  /** Assigning one key leaves every other key as it was. */
  lemma {:induction false} PutKeepsOthers(fields: seq<Field>, k: string, v: Value, k': string)
    requires k' != k
    ensures Find(Put(fields, k, v), k') == Find(fields, k')
  {
    if |fields| > 0 && fields[0].key != k {
      PutKeepsOthers(fields[1..], k, v, k');
    }
  }

  /** A string that may be `undefined`, as it prints when pasted into a path. */
  function Printed(s: Option<string>): string {
    if s.Some? then s.value else "undefined"
  }

  /** Decimal digits of a natural number, as `String(n)` writes them. */
  function NatToString(n: nat): (s: string)
    ensures |s| >= 1
    ensures forall i :: 0 <= i < |s| ==> '0' <= s[i] <= '9'
  {
    var d := ['0' + (n % 10) as char];
    if n < 10 then d else NatToString(n / 10) + d
  }

  /** `Object.keys(v)` together with the value under each key. Strings and
      arrays enumerate their indices; numbers and booleans have no own keys. */
  function OwnFields(v: Value): (r: Result<seq<Field>>)
    ensures r.Err? <==> IsNil(v)
    ensures v.Obj? ==> r == Ok(v.fields)
    ensures v.Arr? ==> |r.value| == |v.elems|
    ensures v.Str? ==> |r.value| == |v.s|
  {
    match v
    case Undefined => Err(NilAccess)
    case Null => Err(NilAccess)
    case Bool(_) => Ok([])
    case Num(_) => Ok([])
    case Str(s) => Ok(seq(|s|, i requires 0 <= i < |s| => Field(NatToString(i), Str([s[i]]))))
    case Arr(e) => Ok(seq(|e|, i requires 0 <= i < |e| => Field(NatToString(i), e[i])))
    case Obj(fs) => Ok(fs)
  }

  /** `v.k`: throws on null/undefined, undefined when the key is absent. Keys
      read this way are names, never indices, so only an object has them. */
  function Prop(v: Value, k: string): (r: Result<Value>)
    ensures r.Err? <==> IsNil(v)
    ensures v.Obj? ==> r == Ok(if HasKey(v.fields, k) then Find(v.fields, k).value else Undefined)
  {
    if IsNil(v) then Err(NilAccess)
    else if v.Obj? then
      match Find(v.fields, k)
      case Some(x) => Ok(x)
      case None => Ok(Undefined)
    else Ok(Undefined)
  }

  /** Looking a key up in a list extended by one field. */
  lemma {:induction false} FindSnoc(fields: seq<Field>, f: Field, k: string)
    ensures Find(fields + [f], k) ==
      if HasKey(fields, k) then Find(fields, k) else if f.key == k then Some(f.value) else None
  {
    if |fields| > 0 {
      assert (fields + [f])[1..] == fields[1..] + [f];
      FindSnoc(fields[1..], f, k);
    }
  }
}
