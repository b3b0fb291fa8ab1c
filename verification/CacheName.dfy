/** File names of the envelope cache: `<uuid>.envelope`, or `<ts>-<count>-<uuid>.envelope`
    for an envelope that is to be retried. */
module CacheName {
  import opened Bytes
  import opened Wrappers
  import Decimal

  /** What a name says; a count of -1 marks the bare form. */
  datatype Name = Name(ts: nat, count: int, uuid: Bytes)

  const UUID := 36
  const BUFFER := 128
  const DASH: Byte := 45

  /** ".envelope" */
  function Suffix(): (s: Bytes)
    ensures |s| == 9 && Spells(s, ".envelope")
  {
    [46, 101, 110, 118, 101, 108, 111, 112, 101]
  }

  /** `(int)` of a 64-bit `long`. */
  function ToInt32(n: int): int {
    var m := n % 0x1_0000_0000;
    if m >= 0x8000_0000 then m - 0x1_0000_0000 else m
  }

  predicate IsBare(s: Bytes) { |s| == UUID + 9 && s[UUID..] == Suffix() }

  predicate At(s: Bytes, i: nat, b: Byte) { i < |s| && s[i] == b }

  /** A C string holds no NUL, so reading at its end never meets a dash. */
  function Parse(s: Bytes): (r: Option<Name>)
    ensures r.Some? ==> |r.value.uuid| == UUID && |s| >= UUID + 9 && s[|s| - UUID - 9..] == r.value.uuid + Suffix()
    ensures r.Some? ==> (r.value.count == -1 && r.value.ts == 0 && |s| == UUID + 9) || |s| > UUID + 9
  {
    if IsBare(s) then Some(Name(0, -1, s[..UUID]))
    else if |s| <= UUID + 9 then None
    else
      var i := Decimal.Scan(s).end;
      if !At(s, i, DASH) then None else ParseTail(Decimal.Strtoull(s), s[i + 1..])
  }

  /** What follows the time stamp. */
  function ParseTail(ts: nat, s: Bytes): (r: Option<Name>)
    ensures r.Some? ==> |r.value.uuid| == UUID && |s| >= UUID + 9 && s[|s| - UUID - 9..] == r.value.uuid + Suffix()
  {
    var j := Decimal.Scan(s).end;
    var count := Decimal.Strtol(s);
    if !At(s, j, DASH) || count < 0 || !IsBare(s[j + 1..]) then None
    else Some(Name(ts, ToInt32(count), s[j + 1..][..UUID]))
  }

  /** `%02d` of a number that is not negative. */
  function TwoDigits(n: nat): Bytes { if n < 10 then [48] + Decimal.Digits(n) else Decimal.Digits(n) }

  /** What `snprintf` leaves in the buffer. */
  function Fit(s: Bytes): Bytes { if |s| < BUFFER then s else s[..BUFFER - 1] }

  function Prefix36(uuid: Bytes): Bytes { if |uuid| <= UUID then uuid else uuid[..UUID] }

  function Retry(ts: nat, count: nat, uuid: Bytes): Bytes {
    Decimal.Digits(ts) + ([DASH] + (TwoDigits(count) + ([DASH] + (Prefix36(uuid) + Suffix()))))
  }

  function Build(ts: nat, count: int, uuid: Bytes): Bytes {
    Fit(if count >= 0 then Retry(ts, count, uuid) else Prefix36(uuid) + Suffix())
  }

  // ------------------------------------------------------- round trip

  const INT_MAX: int := 0x7fff_ffff

  lemma ScanTwoDigits(n: nat, rest: Bytes)
    requires rest == [] || !Decimal.IsDigit(rest[0])
    ensures Decimal.Scan(TwoDigits(n) + rest) == Decimal.Number(false, n, |TwoDigits(n)|)
  {
    if n < 10 {
      var ds := [48] + Decimal.Digits(n);
      assert ds == [48, 48 + n];
      assert ds[..1] == [48] && ds[..1][..0] == [];
      assert Decimal.Value(ds[..1]) == 0;
      assert Decimal.Value(ds) == n;
      Decimal.ScanRun(ds, rest);
    } else {
      Decimal.ScanDigits(n, rest);
    }
  }

  lemma NameFits(ts: nat, count: int, uuid: Bytes)
    requires ts < Decimal.U64 && count <= INT_MAX
    ensures |Build(ts, count, uuid)| < BUFFER
    ensures count >= 0 ==> Build(ts, count, uuid) == Retry(ts, count, uuid)
    ensures count < 0 ==> Build(ts, count, uuid) == Prefix36(uuid) + Suffix()
  {
    assert Decimal.Pow10(20) > Decimal.U64 by { Powers(); }
    assert Decimal.Pow10(10) > INT_MAX by { Powers(); }
    Decimal.DigitsBound(ts, 20);
    if count >= 0 { Decimal.DigitsBound(count, 10); }
  }

  lemma Powers()
    ensures Decimal.Pow10(10) == 10000000000
    ensures Decimal.Pow10(20) == 100000000000000000000
  {
    assert Decimal.Pow10(5) == 100000;
    assert Decimal.Pow10(10) == 10000000000;
    assert Decimal.Pow10(15) == 1000000000000000;
  }

  /** Every name that is built is read back as what it was built from. */
  lemma ParseBuild(ts: nat, count: int, uuid: Bytes)
    requires ts < Decimal.U64 && -1 <= count <= INT_MAX && |uuid| == UUID
    ensures Parse(Build(ts, count, uuid)) == Some(Name(if count < 0 then 0 else ts, count, uuid))
  {
    NameFits(ts, count, uuid);
    hide Build;
    if count >= 0 {
      ParseRetry(ts, count, uuid);
    } else {
      var s := uuid + Suffix();
      assert s[UUID..] == Suffix() && s[..UUID] == uuid;
    }
  }

  lemma ParseRetry(ts: nat, count: nat, uuid: Bytes)
    requires ts < Decimal.U64 && count <= INT_MAX && |uuid| == UUID
    ensures Parse(Retry(ts, count, uuid)) == Some(Name(ts, count, uuid))
  {
    var tail := TwoDigits(count) + ([DASH] + (uuid + Suffix()));
    var s := Decimal.Digits(ts) + ([DASH] + tail);
    assert Prefix36(uuid) == uuid;
    assert s == Retry(ts, count, uuid);
    hide *;
    ParseCount(ts, count, uuid);
    ParseStamp(ts, tail);
  }

  lemma ParseStamp(ts: nat, tail: Bytes)
    requires ts < Decimal.U64 && |tail| >= UUID + 9
    ensures Parse(Decimal.Digits(ts) + ([DASH] + tail)) == ParseTail(ts, tail)
  {
    var ds := Decimal.Digits(ts);
    hide Decimal.Scan, Decimal.Digits, ParseTail, Suffix;
    Decimal.ScanDigits(ts, [DASH] + tail);
    After(ds, tail);
    assert |ds + ([DASH] + tail)| > UUID + 9;
  }

  lemma ParseCount(ts: nat, count: nat, uuid: Bytes)
    requires count <= INT_MAX && |uuid| == UUID
    ensures ParseTail(ts, TwoDigits(count) + ([DASH] + (uuid + Suffix()))) == Some(Name(ts, count, uuid))
  {
    var last := uuid + Suffix();
    ScanTwoDigits(count, [DASH] + last);
    After(TwoDigits(count), last);
    assert last[UUID..] == Suffix() && last[..UUID] == uuid;
    hide Decimal.Scan, TwoDigits, Suffix;
  }

  lemma After(a: Bytes, b: Bytes)
    ensures (a + ([DASH] + b))[|a|] == DASH && (a + ([DASH] + b))[|a| + 1..] == b
  {
  }

  /** The two forms never coincide, and different envelopes never share a name. */
  lemma NamesAreUnique(ts: nat, count: int, uuid: Bytes, ts': nat, count': int, uuid': Bytes)
    requires ts < Decimal.U64 && -1 <= count <= INT_MAX && |uuid| == UUID
    requires ts' < Decimal.U64 && -1 <= count' <= INT_MAX && |uuid'| == UUID
    requires Build(ts, count, uuid) == Build(ts', count', uuid')
    ensures count == count' && uuid == uuid' && (count >= 0 ==> ts == ts')
  {
    hide Build, Parse;
    ParseBuild(ts, count, uuid);
    ParseBuild(ts', count', uuid');
  }
}
