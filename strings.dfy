/** JavaScript's `String.prototype.trim`, `split(sep)` with a one-character
    separator, `includes`, and the string-to-number conversion behind `x != 0`. */
module Strings {

  /** The WhiteSpace and LineTerminator code points of ECMAScript: what `trim`
      strips and what `Number(s)` ignores around a literal. */
  predicate IsJsSpace(c: char) {
    || c == '\t' || c == '\U{000B}' || c == '\U{000C}' || c == ' ' || c == '\U{00A0}' || c == '\U{FEFF}'
    || c == '\U{1680}' || ('\U{2000}' <= c <= '\U{200A}') || c == '\U{202F}' || c == '\U{205F}' || c == '\U{3000}'
    || c == '\n' || c == '\r' || c == '\U{2028}' || c == '\U{2029}'
  }

  function TrimStart(s: string): (r: string)
    ensures |r| <= |s| && r == s[|s| - |r|..]
    ensures |r| > 0 ==> !IsJsSpace(r[0])
  {
    if |s| > 0 && IsJsSpace(s[0]) then TrimStart(s[1..]) else s
  }

  function TrimEnd(s: string): (r: string)
    ensures |r| <= |s| && r == s[..|r|]
    ensures |r| > 0 ==> !IsJsSpace(r[|r| - 1])
  {
    if |s| > 0 && IsJsSpace(s[|s| - 1]) then TrimEnd(s[..|s| - 1]) else s
  }

  function Trim(s: string): (r: string)
    ensures |r| > 0 ==> !IsJsSpace(r[0]) && !IsJsSpace(r[|r| - 1])
  {
    TrimEnd(TrimStart(s))
  }

  /** `trimStart` removes white space only. */
  lemma {:induction false} TrimStartDropsSpaces(s: string)
    ensures forall i :: 0 <= i < |s| - |TrimStart(s)| ==> IsJsSpace(s[i])
  {
    if |s| > 0 && IsJsSpace(s[0]) {
      var t := s[1..];
      TrimStartDropsSpaces(t);
      assert TrimStart(s) == TrimStart(t);
      forall i | 1 <= i < |s| - |TrimStart(s)| ensures IsJsSpace(s[i]) {
        assert s[i] == t[i - 1];
      }
    }
  }

  /** `trimEnd` removes white space only. */
  lemma {:induction false} TrimEndDropsSpaces(s: string)
    ensures forall i :: |TrimEnd(s)| <= i < |s| ==> IsJsSpace(s[i])
  {
    if |s| > 0 && IsJsSpace(s[|s| - 1]) {
      var t := s[..|s| - 1];
      TrimEndDropsSpaces(t);
      assert TrimEnd(s) == TrimEnd(t);
      forall i | |TrimEnd(s)| <= i < |s| - 1 ensures IsJsSpace(s[i]) {
        assert s[i] == t[i];
      }
    }
  }

  /** A string that starts and ends with a non-space is its own trim. */
  lemma TrimmedIsFixed(s: string)
    requires |s| > 0 ==> !IsJsSpace(s[0]) && !IsJsSpace(s[|s| - 1])
    ensures Trim(s) == s
  {
  }

  /** `s.split(c)`: the pieces between the occurrences of `c`. */
  function Split(s: string, c: char): (parts: seq<string>)
    ensures |parts| >= 1
  {
    if |s| == 0 then [""]
    else
      var rest := Split(s[1..], c);
      if s[0] == c then [""] + rest
      else [[s[0]] + rest[0]] + rest[1..]
  }

  /** No piece of a split contains the separator. */
  lemma {:induction false} SplitPiecesFree(s: string, c: char)
    ensures forall i :: 0 <= i < |Split(s, c)| ==> c !in Split(s, c)[i]
  {
    if |s| > 0 {
      SplitPiecesFree(s[1..], c);
    }
  }

  /** A character absent from a string is absent from every piece of its split. */
  lemma {:induction false} SplitPiecesWithin(s: string, c: char, d: char)
    requires d !in s
    ensures forall i :: 0 <= i < |Split(s, c)| ==> d !in Split(s, c)[i]
  {
    if |s| > 0 {
      assert s == [s[0]] + s[1..];
      SplitPiecesWithin(s[1..], c, d);
    }
  }

  /** `parts.join(c)`. */
  function Join(parts: seq<string>, c: char): string
    requires |parts| >= 1
  {
    if |parts| == 1 then parts[0] else parts[0] + [c] + Join(parts[1..], c)
  }

  /** Joining the pieces gives back the string that was split. */
  lemma {:induction false} JoinSplit(s: string, c: char)
    ensures Join(Split(s, c), c) == s
  {
    if |s| > 0 {
      var rest := Split(s[1..], c);
      JoinSplit(s[1..], c);
      if s[0] != c {
        var parts := Split(s, c);
        assert parts[1..] == rest[1..];
        if |rest| == 1 {
          assert Join(parts, c) == [s[0]] + rest[0];
        } else {
          assert Join(parts, c) == [s[0]] + rest[0] + [c] + Join(rest[1..], c);
          assert Join(rest, c) == rest[0] + [c] + Join(rest[1..], c);
        }
      }
    }
  }

  /** A string without the separator splits into itself alone. */
  lemma {:induction false} SplitWithout(s: string, c: char)
    ensures c !in s <==> Split(s, c) == [s]
  {
    if |s| > 0 {
      SplitWithout(s[1..], c);
      var rest := Split(s[1..], c);
      assert s == [s[0]] + s[1..];
      if s[0] != c && c in s[1..] {
        JoinSplit(s[1..], c);
        SplitPiecesFree(s[1..], c);
        assert |rest| >= 2;
      }
    }
  }

  /** Splitting distributes over a separator between two strings. */
  lemma {:induction false} SplitConcat(a: string, b: string, c: char)
    ensures Split(a + [c] + b, c) == Split(a, c) + Split(b, c)
  {
    if |a| == 0 {
      assert a + [c] + b == [c] + b;
      assert ([c] + b)[1..] == b;
    } else {
      assert (a + [c] + b)[1..] == a[1..] + [c] + b;
      SplitConcat(a[1..], b, c);
    }
  }

  /** Splitting the join of separator-free pieces gives back the pieces. */
  lemma {:induction false} SplitJoin(parts: seq<string>, c: char)
    requires |parts| >= 1
    requires forall i :: 0 <= i < |parts| ==> c !in parts[i]
    ensures Split(Join(parts, c), c) == parts
  {
    SplitWithout(parts[0], c);
    if |parts| > 1 {
      SplitJoin(parts[1..], c);
      SplitConcat(parts[0], Join(parts[1..], c), c);
      assert parts == [parts[0]] + parts[1..];
    }
  }

  lemma {:induction false} JoinSnoc(parts: seq<string>, x: string, c: char)
    requires |parts| >= 1
    ensures Join(parts + [x], c) == Join(parts, c) + [c] + x
  {
    if |parts| > 1 {
      assert (parts + [x])[1..] == parts[1..] + [x];
      JoinSnoc(parts[1..], x, c);
    } else {
      assert (parts + [x])[1..] == [x];
    }
  }

  /** An absolute path of three separator-free segments splits into an empty
      piece and the three segments. */
  lemma PathSplits(kind: string, id: string, tail: string)
    requires '/' !in kind && '/' !in id && '/' !in tail
    ensures Split("/" + kind + "/" + id + "/" + tail, '/') == ["", kind, id, tail]
  {
    var parts := ["", kind, id, tail];
    assert Join(parts[3..], '/') == tail;
    assert Join(parts[2..], '/') == id + "/" + tail;
    assert Join(parts[1..], '/') == kind + "/" + id + "/" + tail;
    assert Join(parts, '/') == "/" + kind + "/" + id + "/" + tail;
    SplitJoin(parts, '/');
  }

  /** The piece `w` starts at position `i` of `s`. */
  predicate OccursAt(s: string, w: string, i: int) {
    0 <= i <= |s| - |w| && s[i..i + |w|] == w
  }

  /** `s.includes(w)`. */
  function Contains(s: string, w: string): bool
    decreases |s|
  {
    if |s| < |w| then false else s[..|w|] == w || Contains(s[1..], w)
  }

  /** `includes` holds exactly when the piece occurs at some position. */
  lemma {:induction false} ContainsIff(s: string, w: string)
    ensures Contains(s, w) <==> exists i :: OccursAt(s, w, i)
  {
    if |s| >= |w| && s[..|w|] == w {
      assert OccursAt(s, w, 0);
    } else if |s| >= |w| {
      ContainsIff(s[1..], w);
      if Contains(s[1..], w) {
        var i :| OccursAt(s[1..], w, i);
        assert s[i + 1..i + 1 + |w|] == s[1..][i..i + |w|];
        assert OccursAt(s, w, i + 1);
      }
      if i :| OccursAt(s, w, i) {
        if i > 0 {
          assert s[1..][i - 1..i - 1 + |w|] == s[i..i + |w|];
          assert OccursAt(s[1..], w, i - 1);
        }
      }
    } else {
      if i :| OccursAt(s, w, i) {
        assert false;
      }
    }
  }

  /** A string contains each of its suffixes. */
  lemma ContainsSuffix(a: string, w: string)
    ensures Contains(a + w, w)
  {
    ContainsIff(a + w, w);
    assert OccursAt(a + w, w, |a|);
  }

  lemma OccurrenceChars(s: string, w: string, i: int)
    requires OccursAt(s, w, i)
    ensures forall k :: i <= k < i + |w| ==> s[k] in w
  {
    forall k | i <= k < i + |w| ensures s[k] in w {
      assert s[k] == w[k - i];
    }
  }

  /** An occurrence that ends before the separator lies in the left part. */
  lemma OccursLeft(a: string, b: string, c: char, w: string, i: int)
    requires OccursAt(a + [c] + b, w, i) && i + |w| <= |a|
    ensures OccursAt(a, w, i)
  {
    assert (a + [c] + b)[i..i + |w|] == a[i..i + |w|];
  }

  /** An occurrence that starts after the separator lies in the right part. */
  lemma OccursRight(a: string, b: string, c: char, w: string, i: int)
    requires OccursAt(a + [c] + b, w, i) && i > |a|
    ensures OccursAt(b, w, i - |a| - 1)
  {
    var s := a + [c] + b;
    var j := i - |a| - 1;
    assert s[|a| + 1..] == b;
    assert s[i..i + |w|] == s[|a| + 1..][j..j + |w|];
  }

  /** A piece free of the separator occurs on one side of it or the other. */
  lemma ContainsAcross(a: string, b: string, c: char, w: string)
    requires c !in w
    requires Contains(a + [c] + b, w)
    ensures Contains(a, w) || Contains(b, w)
  {
    var s := a + [c] + b;
    ContainsIff(s, w);
    var i :| OccursAt(s, w, i);
    OccurrenceChars(s, w, i);
    assert s[|a|] == c;
    if i + |w| <= |a| {
      OccursLeft(a, b, c, w, i);
      ContainsIff(a, w);
    } else {
      OccursRight(a, b, c, w, i);
      ContainsIff(b, w);
    }
  }

  /** A string contains whatever its middle part contains. */
  lemma ContainsWithin(x: string, a: string, y: string, w: string)
    requires Contains(a, w)
    ensures Contains(x + a + y, w)
  {
    ContainsIff(a, w);
    var i :| OccursAt(a, w, i);
    var s := x + a + y;
    assert s[|x| + i..|x| + i + |w|] == a[i..i + |w|];
    assert OccursAt(s, w, |x| + i);
    ContainsIff(s, w);
  }

  predicate AllDigits(s: string) {
    forall i :: 0 <= i < |s| ==> '0' <= s[i] <= '9'
  }

  /** The value of a decimal digit character. */
  function DigitValue(c: char): nat {
    if '0' <= c <= '9' then c as int - '0' as int else 0
  }

  /** The value of a string of decimal digits, most significant digit first. */
  function DigitsValue(s: string): nat {
    if |s| == 0 then 0 else DigitsValue(s[..|s| - 1]) * 10 + DigitValue(s[|s| - 1])
  }

  function Pow(b: nat, n: nat): nat {
    if n == 0 then 1 else b * Pow(b, n - 1)
  }

  /** The index of the first character of `s` that occurs in `cs`, or `|s|` when there is none. */
  function IndexOfAny(s: string, cs: string): (i: nat)
    ensures i <= |s|
    ensures i < |s| ==> s[i] in cs
    ensures forall j :: 0 <= j < i ==> s[j] !in cs
  {
    if |s| == 0 || s[0] in cs then 0 else 1 + IndexOfAny(s[1..], cs)
  }

  /** The digits after the point of a mantissa, empty when it has no point. */
  function FractionOf(m: string): string {
    var p := IndexOfAny(m, ".");
    if p < |m| then m[p + 1..] else ""
  }

  /** Decimal digits with at most one point and at least one digit: `12`, `1.5`, `.5`, `5.`. */
  predicate IsMantissa(m: string) {
    var p := IndexOfAny(m, ".");
    AllDigits(m[..p]) && AllDigits(FractionOf(m)) && p + |FractionOf(m)| >= 1
  }

  /** `e`/`E`, an optional sign, then at least one digit. */
  predicate IsExponentPart(x: string) {
    && |x| >= 2
    && (x[0] == 'e' || x[0] == 'E')
    && var y := if x[1] == '+' || x[1] == '-' then x[2..] else x[1..];
       |y| > 0 && AllDigits(y)
  }

  /** The signed value of an exponent part. */
  function ExponentValue(x: string): int
    requires IsExponentPart(x)
  {
    if x[1] == '-' then -(DigitsValue(x[2..]) as int)
    else if x[1] == '+' then DigitsValue(x[2..])
    else DigitsValue(x[1..])
  }

  /** `n × 10^(exponent − fraction)` converts to zero as a double: it is zero,
      or its magnitude is at most 2^-1075, half the least subnormal, which
      round-to-nearest-even takes to 0. */
  predicate RoundsToZero(n: nat, fraction: nat, exponent: int) {
    n == 0 || (exponent < fraction && n * Pow(2, 1075) <= Pow(10, fraction - exponent))
  }

  /** A signed decimal literal that converts to zero: `-0`, `+.0e5`, `0.000`,
      and non-zero literals that underflow, such as `1e-400`. The mantissa ends
      at the first `e`/`E`. */
  predicate IsZeroDecimal(t: string) {
    var u := if |t| > 0 && (t[0] == '+' || t[0] == '-') then t[1..] else t;
    var k := IndexOfAny(u, "eE");
    var m := u[..k];
    && IsMantissa(m)
    && (k == |u| || IsExponentPart(u[k..]))
    && RoundsToZero(DigitsValue(m[..IndexOfAny(m, ".")] + FractionOf(m)), |FractionOf(m)|,
                    if k == |u| then 0 else ExponentValue(u[k..]))
  }

  /** A hexadecimal, octal or binary literal denoting zero, such as `0x00`. */
  predicate IsZeroRadix(t: string) {
    && |t| >= 3
    && t[0] == '0'
    && t[1] in "xXoObB"
    && forall i :: 2 <= i < |t| ==> t[i] == '0'
  }

  /** `s == 0` under JavaScript's loose equality: the string converts to the
      number zero. Surrounding white space is ignored and the empty string is zero. */
  predicate LooselyZero(s: string) {
    var t := Trim(s);
    t == "" || IsZeroDecimal(t) || IsZeroRadix(t)
  }

  /** A string of decimal digits equals 0 loosely exactly when every digit is
      `0`; the empty string counts as zero. An integer never underflows. */
  lemma DigitsLooselyZero(id: string)
    requires AllDigits(id)
    ensures LooselyZero(id) <==> forall i :: 0 <= i < |id| ==> id[i] == '0'
  {
    TrimmedIsFixed(id);
    DigitsNotRadix(id);
    if |id| > 0 {
      DigitsOnlyMantissa(id);
      DigitsValueZero(id);
    }
  }

  /** A digit string is its own mantissa, with no fraction and no exponent. */
  lemma DigitsOnlyMantissa(id: string)
    requires AllDigits(id) && |id| > 0
    ensures IndexOfAny(id, "eE") == |id| && IndexOfAny(id, ".") == |id|
    ensures IsZeroDecimal(id) <==> DigitsValue(id) == 0
  {
    assert id[0] != '+' && id[0] != '-';
    assert id[..|id|] == id;
    assert FractionOf(id) == "";
    assert id[..IndexOfAny(id, ".")] + FractionOf(id) == id;
    assert IsMantissa(id);
    assert RoundsToZero(DigitsValue(id), 0, 0) <==> DigitsValue(id) == 0;
  }

  /** A digit string has value 0 exactly when all its digits are `0`. */
  lemma {:induction false} DigitsValueZero(s: string)
    requires AllDigits(s)
    ensures DigitsValue(s) == 0 <==> forall i :: 0 <= i < |s| ==> s[i] == '0'
  {
    if |s| > 0 {
      var n := |s| - 1;
      assert forall i :: 0 <= i < n ==> s[..n][i] == s[i];
      DigitsValueZero(s[..n]);
    }
  }

  /** `b^m <= b^n` when `m <= n`. */
  lemma {:induction false} PowMonotone(b: nat, m: nat, n: nat)
    requires b >= 1 && m <= n
    ensures Pow(b, m) <= Pow(b, n)
    decreases n
  {
    if m < n {
      PowMonotone(b, m, n - 1);
      AtMostMultiple(b, Pow(b, n - 1));
    }
  }

  lemma AtMostMultiple(b: nat, x: nat)
    requires b >= 1
    ensures x <= b * x
  {
    assert b * x == x + (b - 1) * x;
  }

  /** `2^(3n) <= 10^n`, as `8 <= 10`. */
  lemma {:induction false} PowTwoBelowTen(n: nat)
    ensures Pow(2, 3 * n) <= Pow(10, n)
  {
    if n > 0 {
      PowTwoBelowTen(n - 1);
      var k := 3 * n;
      assert Pow(2, k) == 2 * Pow(2, k - 1);
      assert Pow(2, k - 1) == 2 * Pow(2, k - 2);
      assert Pow(2, k - 2) == 2 * Pow(2, k - 3);
      assert k - 3 == 3 * (n - 1);
    }
  }

  /** `2^1075 <= 10^d` once `d >= 359`: a literal `1e-<d>` is then at most half the least subnormal. */
  lemma UnderflowBound(d: nat)
    requires d >= 359
    ensures Pow(2, 1075) <= Pow(10, d)
  {
    PowMonotone(2, 1075, 3 * 359);
    PowTwoBelowTen(359);
    PowMonotone(10, 359, d);
  }

  /** `1e-<d>` with `d >= 359` converts to zero although its mantissa is 1:
      `"1e-400" == 0` holds. */
  lemma TinyLiteralLooselyZero(d: string)
    requires AllDigits(d) && DigitsValue(d) >= 359
    ensures LooselyZero("1e-" + d)
  {
    var t := "1e-" + d;
    TinyLiteralParts(d);
    UnitMantissa();
    UnderflowRounds(DigitsValue(d));
    assert IsZeroDecimal(t);
    ZeroDecimalLooselyZero(t);
  }

  /** How `1e-<d>` parses: mantissa `1`, exponent `-d`. */
  lemma TinyLiteralParts(d: string)
    requires AllDigits(d) && DigitsValue(d) >= 359
    ensures var t := "1e-" + d;
      && t[0] != '+' && t[0] != '-'
      && IndexOfAny(t, "eE") == 1 && t[..1] == "1"
      && IsExponentPart(t[1..]) && ExponentValue(t[1..]) == -(DigitsValue(d) as int)
  {
    var t := "1e-" + d;
    assert t[0] == '1' && t[1] == 'e';
    assert t[0] !in "eE" && t[1] in "eE";
    assert t[1..][2..] == d;
  }

  /** The mantissa `1`: one digit, no point, value 1. */
  lemma UnitMantissa()
    ensures IsMantissa("1") && FractionOf("1") == ""
    ensures "1"[..IndexOfAny("1", ".")] + FractionOf("1") == "1" && DigitsValue("1") == 1
  {
    assert "1"[0] !in ".";
  }

  /** `1 × 10^-v` rounds to zero once `v >= 359`. */
  lemma UnderflowRounds(v: nat)
    requires v >= 359
    ensures RoundsToZero(1, 0, -(v as int))
  {
    UnderflowBound(v);
    assert 0 - -(v as int) == v;
  }

  /** A decimal literal of zero, with no white space around it, is loosely 0. */
  lemma ZeroDecimalLooselyZero(t: string)
    requires IsZeroDecimal(t) && |t| > 0 && !IsJsSpace(t[0]) && !IsJsSpace(t[|t| - 1])
    ensures LooselyZero(t)
  {
    TrimmedIsFixed(t);
  }

  /** A digit string has no radix prefix. */
  lemma DigitsNotRadix(id: string)
    requires AllDigits(id)
    ensures !IsZeroRadix(id)
  {
    if |id| >= 3 {
      assert forall i :: 0 <= i < |"xXoObB"| ==> !('0' <= "xXoObB"[i] <= '9');
    }
  }
}
