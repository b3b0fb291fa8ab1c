/** Decimal printing and the C library's decimal parsing. */
module Decimal {
  import opened Bytes
  import opened Wrappers

  function Digits(n: nat): (ds: Bytes)
    ensures |ds| > 0 && forall k :: 0 <= k < |ds| ==> IsDigit(ds[k])
  {
    if n < 10 then [48 + n] else Digits(n / 10) + [48 + n % 10]
  }

  predicate IsDigit(b: Byte) { 48 <= b <= 57 }

  /** `%d` and its relatives. */
  function Print(n: int): Bytes { if n < 0 then [45] + Digits(-n) else Digits(n) }

  /** The number a run of digits stands for. */
  function Value(ds: Bytes): nat
    requires forall k :: 0 <= k < |ds| ==> IsDigit(ds[k])
  {
    if ds == [] then 0 else Value(ds[..|ds| - 1]) * 10 + DigitValue(ds[|ds| - 1])
  }

  function DigitValue(b: Byte): nat
    requires IsDigit(b)
  {
    var v: int := b;
    v - 48
  }

  lemma {:induction false} ValueOfDigits(n: nat)
    ensures Value(Digits(n)) == n
  {
    if n >= 10 {
      var ds := Digits(n);
      assert ds[..|ds| - 1] == Digits(n / 10);
      ValueOfDigits(n / 10);
    }
  }

  /** How many digits a number has. */
  lemma {:induction false} DigitsBound(n: nat, k: nat)
    requires k > 0 && n < Pow10(k)
    ensures |Digits(n)| <= k
  {
    if n >= 10 {
      assert k > 1;
      DigitsBound(n / 10, k - 1);
    }
  }

  function Pow10(k: nat): nat { if k == 0 then 1 else 10 * Pow10(k - 1) }

  /** The longest run of digits at the start of `s`. */
  function Run(s: Bytes): (k: nat)
    ensures k <= |s| && forall i :: 0 <= i < k ==> IsDigit(s[i])
    ensures k < |s| ==> !IsDigit(s[k])
  {
    if s != [] && IsDigit(s[0]) then 1 + Run(s[1..]) else 0
  }

  lemma {:induction false} RunOf(ds: Bytes, rest: Bytes)
    requires forall k :: 0 <= k < |ds| ==> IsDigit(ds[k])
    requires rest == [] || !IsDigit(rest[0])
    ensures Run(ds + rest) == |ds|
  {
    if ds == [] {
      assert ds + rest == rest;
    } else {
      assert (ds + rest)[1..] == ds[1..] + rest;
      RunOf(ds[1..], rest);
    }
  }

  const U64: int := 0x1_0000_0000_0000_0000
  const I64: int := 0x8000_0000_0000_0000

  predicate IsSpace(b: Byte) { 9 <= b <= 13 || b == 32 }

  /** Leading white space. */
  function Spaces(s: Bytes): (k: nat)
    ensures k <= |s|
  {
    if s != [] && IsSpace(s[0]) then 1 + Spaces(s[1..]) else 0
  }

  /** What the `strto*` functions read: a sign, a magnitude and how far they got; `end`
      is 0 when there was nothing to convert. */
  datatype Number = Number(neg: bool, magnitude: nat, end: nat)

  function Scan(s: Bytes): (n: Number)
    ensures n.end <= |s|
  {
    var i := Spaces(s);
    var signed := i < |s| && (s[i] == 43 || s[i] == 45);
    var j := if signed then i + 1 else i;
    var k := Run(s[j..]);
    if k == 0 then Number(false, 0, 0)
    else
      assert forall m :: 0 <= m < k ==> s[j..j + k][m] == s[j..][m];
      Number(signed && s[i] == 45, Value(s[j..j + k]), j + k)
  }

  /** `strtoull` in base 10: negative input wraps, overflow saturates. */
  function Strtoull(s: Bytes): nat {
    var n := Scan(s);
    if n.magnitude >= U64 then U64 - 1
    else if n.neg && n.magnitude > 0 then U64 - n.magnitude
    else n.magnitude
  }

  /** `strtol` with 64-bit `long`. */
  function Strtol(s: Bytes): int {
    var n := Scan(s);
    if n.neg then (if n.magnitude > I64 then -I64 else 0 - n.magnitude)
    else if n.magnitude >= I64 then I64 - 1 else n.magnitude
  }

  /** Scanning printed digits, followed by anything that is not a digit. */
  lemma ScanDigits(n: nat, rest: Bytes)
    requires rest == [] || !IsDigit(rest[0])
    ensures Scan(Digits(n) + rest) == Number(false, n, |Digits(n)|)
  {
    ScanRun(Digits(n), rest);
    ValueOfDigits(n);
  }

  lemma ScanRun(ds: Bytes, rest: Bytes)
    requires ds != [] && (forall k :: 0 <= k < |ds| ==> IsDigit(ds[k])) && (rest == [] || !IsDigit(rest[0]))
    ensures Scan(ds + rest) == Number(false, Value(ds), |ds|)
  {
    var s := ds + rest;
    assert IsDigit(ds[0]) && s[0] == ds[0];
    assert Spaces(s) == 0 && s[0..] == s;
    RunOf(ds, rest);
    assert s[..|ds|] == ds;
  }

  lemma ScanNegative(n: nat, rest: Bytes)
    requires rest == [] || !IsDigit(rest[0])
    ensures Scan([45] + Digits(n) + rest) == Number(true, n, 1 + |Digits(n)|)
  {
    var ds := Digits(n);
    var s := [45] + ds + rest;
    assert s[0] == 45 && Spaces(s) == 0;
    assert s[1..] == ds + rest;
    RunOf(ds, rest);
    assert s[1..1 + |ds|] == ds;
    ValueOfDigits(n);
  }

  /** What a number that is scanned to its end consists of. */
  lemma ScannedBytes(s: Bytes, k: nat)
    requires Scan(s).end == |s| && k < |s|
    ensures IsSpace(s[k]) || s[k] == 43 || s[k] == 45 || IsDigit(s[k])
  {
    var i := Spaces(s);
    var j := if i < |s| && (s[i] == 43 || s[i] == 45) then i + 1 else i;
    if k < i {
      LeadingSpace(s, k);
    } else if k >= j {
      assert s[k] == s[j..][k - j];
    }
  }

  lemma {:induction false} LeadingSpace(s: Bytes, k: nat)
    requires k < Spaces(s)
    ensures IsSpace(s[k])
  {
    if k > 0 { LeadingSpace(s[1..], k - 1); }
  }
}
