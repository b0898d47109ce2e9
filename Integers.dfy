/** Python's `int(token)` on a token of a configuration line, and `str(n)`
    as its reference inverse. */
module Integers {
  import opened Wrappers

  predicate IsDigit(c: char) {
    '0' <= c <= '9'
  }

  function DigitValue(c: char): (d: nat)
    requires IsDigit(c)
    ensures d < 10
  {
    (c as int) - ('0' as int)
  }

  function DigitChar(d: nat): (c: char)
    requires d < 10
    ensures IsDigit(c) && DigitValue(c) == d
  {
    ('0' as int + d) as char
  }

  /** The unsigned part of an integer literal that `int()` accepts: decimal
      digits, where a single underscore may stand between two digits. */
  predicate IsDigitRun(s: string) {
    && |s| > 0
    && IsDigit(s[0])
    && RunChars(s)
    && forall i :: 0 <= i < |s| && s[i] == '_' ==> i + 1 < |s| && IsDigit(s[i + 1])
  }

  predicate RunChars(s: string) {
    forall i :: 0 <= i < |s| ==> IsDigit(s[i]) || s[i] == '_'
  }

  /** The number a run of digits and underscores denotes; underscores do not
      contribute. */
  function RunValue(s: string): nat
    requires RunChars(s)
  {
    if s == [] then 0
    else if s[|s| - 1] == '_' then RunValue(s[..|s| - 1])
    else 10 * RunValue(s[..|s| - 1]) + DigitValue(s[|s| - 1])
  }

  /** `int(s)` in base 10: an optional sign followed by a digit run.
      `None` stands for the `ValueError` that `int()` raises. */
  function ParseInt(s: string): (r: Option<int>)
    ensures r.Some? <==>
      IsDigitRun(s) || (|s| > 0 && (s[0] == '+' || s[0] == '-') && IsDigitRun(s[1..]))
    ensures r.Some? ==> |s| > 0
    ensures r.Some? ==> forall i :: 0 <= i < |s| ==>
      IsDigit(s[i]) || s[i] == '_' || (i == 0 && (s[i] == '+' || s[i] == '-'))
    ensures r.Some? && r.value < 0 ==> s[0] == '-'
  {
    if |s| > 0 && (s[0] == '+' || s[0] == '-') then
      var body := s[1..];
      if IsDigitRun(body) then
        assert forall i :: 1 <= i < |s| ==> s[i] == body[i - 1];
        var v: int := RunValue(body);
        Some(if s[0] == '-' then -v else v)
      else None
    else if IsDigitRun(s) then Some(RunValue(s))
    else None
  }

  /** `str(n)` for a non-negative `n`. */
  function NatString(n: nat): (s: string)
    ensures |s| > 0
    ensures forall i :: 0 <= i < |s| ==> IsDigit(s[i])
  {
    if n < 10 then [DigitChar(n)] else NatString(n / 10) + [DigitChar(n % 10)]
  }

  /** `str(n)`: decimal, with a minus sign for a negative number. */
  function DecimalString(n: int): string {
    if n < 0 then "-" + NatString(-n) else NatString(n)
  }

  /** `[str(n) for n in ns]`: each integer as `str()` writes it. */
  function Decimals(ns: seq<int>): (ts: seq<string>)
    ensures |ts| == |ns|
    ensures forall i :: 0 <= i < |ns| ==> ts[i] == DecimalString(ns[i])
  {
    if ns == [] then [] else [DecimalString(ns[0])] + Decimals(ns[1..])
  }

  lemma {:induction false} NatStringValue(n: nat)
    ensures RunValue(NatString(n)) == n
  {
    var s := NatString(n);
    if n >= 10 {
      NatStringValue(n / 10);
      assert s[..|s| - 1] == NatString(n / 10);
    }
  }

  /** Every integer, negative ones included, survives printing and
      `int()`: the model's `int()` applies no range check to the value. */
  lemma ParseDecimal(n: int)
    ensures ParseInt(DecimalString(n)) == Some(n)
  {
    var s := DecimalString(n);
    var m: nat := if n < 0 then -n else n;
    var digits := NatString(m);
    NatStringValue(m);
    assert IsDigitRun(digits);
    if n < 0 {
      assert s[0] == '-' && s[1..] == digits;
    } else {
      assert s == digits && IsDigit(s[0]);
    }
  }

  lemma {:induction false} RunValueSkipsUnderscore(a: string, b: string)
    requires RunChars(a) && RunChars(b)
    ensures RunChars(a + "_" + b) && RunChars(a + b)
    ensures RunValue(a + "_" + b) == RunValue(a + b)
    decreases |b|
  {
    var s, t := a + "_" + b, a + b;
    assert forall i :: 0 <= i < |s| ==> s[i] == if i < |a| then a[i] else if i == |a| then '_' else b[i - |a| - 1];
    assert forall i :: 0 <= i < |t| ==> t[i] == if i < |a| then a[i] else b[i - |a|];
    if b == [] {
      assert s[..|s| - 1] == a && t == a;
    } else {
      var b' := b[..|b| - 1];
      assert s[..|s| - 1] == a + "_" + b' && t[..|t| - 1] == a + b';
      RunValueSkipsUnderscore(a, b');
    }
  }

  /** An underscore between two digits is accepted and ignored, as in
      `int("64_000") == 64000`. */
  lemma UnderscoreIgnored(a: string, b: string)
    requires IsDigitRun(a) && IsDigitRun(b)
    ensures ParseInt(a + "_" + b) == ParseInt(a + b) && ParseInt(a + b).Some?
  {
    RunValueSkipsUnderscore(a, b);
    var s, t := a + "_" + b, a + b;
    assert IsDigit(a[|a| - 1]);
    assert forall i :: 0 <= i < |s| ==> s[i] == if i < |a| then a[i] else if i == |a| then '_' else b[i - |a| - 1];
    assert forall i :: 0 <= i < |t| ==> t[i] == if i < |a| then a[i] else b[i - |a|];
    assert IsDigitRun(s) && IsDigitRun(t);
  }

  lemma {:induction false} ZeroPrefixValue(a: string)
    requires RunChars(a)
    ensures RunChars("0" + a) && RunValue("0" + a) == RunValue(a)
    decreases |a|
  {
    var s := "0" + a;
    assert forall i :: 0 <= i < |s| ==> s[i] == if i == 0 then '0' else a[i - 1];
    if a == [] {
      assert s[..0] == [];
    } else {
      var a' := a[..|a| - 1];
      assert s[..|s| - 1] == "0" + a';
      ZeroPrefixValue(a');
    }
  }

  /** A leading `+` and leading zeros do not change the value, and a leading
      `-` negates it, as in `int("+5") == int("005") == 5` and
      `int("-0") == 0`. */
  lemma SignAndZeros(a: string)
    requires IsDigitRun(a)
    ensures ParseInt(a).Some?
    ensures ParseInt("+" + a) == ParseInt(a) == ParseInt("0" + a)
    ensures ParseInt("-" + a) == Some(-ParseInt(a).value)
  {
    ZeroPrefixValue(a);
    var z := "0" + a;
    assert forall i :: 0 <= i < |z| ==> z[i] == if i == 0 then '0' else a[i - 1];
    assert IsDigitRun(z);
    assert ("+" + a)[0] == '+' && ("+" + a)[1..] == a;
    assert ("-" + a)[0] == '-' && ("-" + a)[1..] == a;
  }
}
