/** Bytes, as the serializers write them. */
module Bytes {
  type Byte = b: int | 0 <= b < 256

  type Bytes = seq<Byte>

  /** The bytes of a text in ASCII. */
  predicate Spells(b: Bytes, text: string) {
    |b| == |text| && forall i :: 0 <= i < |b| ==> b[i] == text[i] as int
  }
}

/** UTF-8 encoding of one code point. */
module Utf8 {
  import opened Bytes
  import opened Wrappers

  /** The encoding table of section 3 of RFC 3629. */
  function Encode(c: nat): Bytes
    requires c <= 0x10FFFF
  {
    if c < 0x80 then [c]
    else if c < 0x800 then [0xC0 + c / 64, 0x80 + c % 64]
    else if c < 0x10000 then [0xE0 + c / 4096, 0x80 + c / 64 % 64, 0x80 + c % 64]
    else [0xF0 + c / 262144, 0x80 + c / 4096 % 64, 0x80 + c / 64 % 64, 0x80 + c % 64]
  }

  predicate Tail(b: Byte) { 0x80 <= b < 0xC0 }

  function Minus(b: Byte, base: int): int { b - base }

  /** The code point a well-formed sequence stands for, read off its bit pattern. */
  function Decode(bs: Bytes): Option<int> {
    if |bs| == 1 && bs[0] < 0x80 then Some(bs[0])
    else if |bs| == 2 && 0xC0 <= bs[0] < 0xE0 && Tail(bs[1]) then
      Some(Minus(bs[0], 0xC0) * 64 + Minus(bs[1], 0x80))
    else if |bs| == 3 && 0xE0 <= bs[0] < 0xF0 && Tail(bs[1]) && Tail(bs[2]) then
      Some(Minus(bs[0], 0xE0) * 4096 + Minus(bs[1], 0x80) * 64 + Minus(bs[2], 0x80))
    else if |bs| == 4 && 0xF0 <= bs[0] < 0xF8 && Tail(bs[1]) && Tail(bs[2]) && Tail(bs[3]) then
      Some(Minus(bs[0], 0xF0) * 262144 + Minus(bs[1], 0x80) * 4096 + Minus(bs[2], 0x80) * 64 + Minus(bs[3], 0x80))
    else None
  }

  /** The encoding decodes to its code point, and no shorter sequence does. */
  lemma EncodeDecodes(c: nat, bs: Bytes)
    requires c <= 0x10FFFF
    ensures Decode(Encode(c)) == Some(c)
    ensures Decode(bs) == Some(c) ==> |Encode(c)| <= |bs|
  {
    assert c / 4096 == c / 64 / 64 && c / 262144 == c / 4096 / 64;
  }

  /** `sentry__unichar_to_utf8`: the bytes are written back to front, shifting `c`. */
  method Write(c: nat, buf: array<Byte>, at: nat) returns (len: nat)
    requires c <= 0x10FFFF ==> at + |Encode(c)| <= buf.Length
    modifies buf
    ensures c > 0x10FFFF ==> len == 0 && buf[..] == old(buf[..])
    ensures c <= 0x10FFFF ==>
      && len == |Encode(c)| && buf[at..at + len] == Encode(c)
      && (forall k :: 0 <= k < buf.Length && !(at <= k < at + len) ==> buf[k] == old(buf[k]))
  {
    var first: nat;
    if c < 0x80 { first, len := 0, 1; }
    else if c < 0x800 { first, len := 0xC0, 2; }
    else if c < 0x10000 { first, len := 0xE0, 3; }
    else if c <= 0x10FFFF { first, len := 0xF0, 4; }
    else { return 0; }

    var rest, i := c, len - 1;
    ghost var bytes := Encode(c);
    while i > 0
      invariant 0 <= i < len
      invariant rest == c / Pow64(len - 1 - i)
      invariant forall k :: i < k < len ==> buf[at + k] == bytes[k]
      invariant forall k :: 0 <= k < buf.Length && !(at <= k < at + len) ==> buf[k] == old(buf[k])
    {
      ShiftOnce(c, len - 1 - i);
      assert bytes[i] == rest % 64 + 0x80;
      buf[at + i] := rest % 64 + 0x80;
      rest := rest / 64;
      i := i - 1;
    }
    assert bytes[0] == rest + first;
    buf[at] := rest + first;
    assert buf[at..at + len] == bytes;
  }

  lemma ShiftOnce(c: nat, n: nat)
    requires n < 3
    ensures c / Pow64(n) / 64 == c / Pow64(n + 1)
  {
  }

  function Pow64(n: nat): nat
    requires n < 4
    ensures Pow64(n) > 0
  {
    if n == 0 then 1 else if n == 1 then 64 else if n == 2 then 4096 else 262144
  }
}

/** Escaping and unescaping of JSON strings (section 7 of RFC 8259). */
module JsonString {
  import opened Bytes
  import opened Wrappers
  import Utf8

  const BACKSLASH: Byte := 92
  const QUOTE: Byte := 34

  function HexDigit(d: nat): Byte
    requires d < 16
  {
    if d < 10 then 48 + d else 87 + d
  }

  predicate NeedsEscaping(b: Byte) { b < 32 || b == QUOTE || b == BACKSLASH }

  function EscapeByte(b: Byte): Bytes {
    if !NeedsEscaping(b) then [b]
    else if b == BACKSLASH || b == QUOTE then [BACKSLASH, b]
    else if b == 8 then [BACKSLASH, 98]
    else if b == 12 then [BACKSLASH, 102]
    else if b == 10 then [BACKSLASH, 110]
    else if b == 13 then [BACKSLASH, 114]
    else if b == 9 then [BACKSLASH, 116]
    else [BACKSLASH, 117, 48, 48, HexDigit(b / 16), HexDigit(b % 16)]
  }

  /** The byte-by-byte escape. */
  function Escape(s: Bytes): Bytes {
    if s == [] then [] else EscapeByte(s[0]) + Escape(s[1..])
  }

  function HexValue(b: Byte): int {
    if 48 <= b <= 57 then b - 48
    else if 97 <= b <= 102 then b - 87
    else if 65 <= b <= 70 then b - 55
    else -1
  }

  /** Four hex digits at the start of `s`. */
  function Hex4(s: Bytes): Option<nat> {
    if |s| >= 4 && forall k :: 0 <= k < 4 ==> HexValue(s[k]) >= 0
    then Some(HexValue(s[0]) * 4096 + HexValue(s[1]) * 256 + HexValue(s[2]) * 16 + HexValue(s[3]))
    else None
  }

  predicate IsLead(c: int) { 0xD800 <= c < 0xDC00 }

  predicate IsTrail(c: int) { 0xDC00 <= c < 0xE000 }

  function SurrogateValue(lead: nat, trail: nat): nat
    requires IsLead(lead) && IsTrail(trail)
  {
    (lead - 0xD800) * 1024 + (trail - 0xDC00) + 0x10000
  }

  /** A unicode escape after its `\u`: the code point and how many bytes it took. */
  function Unicode(s: Bytes): (r: Option<(nat, nat)>)
    ensures r.Some? ==>
      r.value.1 <= |s| && r.value.0 <= 0x10FFFF && |Utf8.Encode(r.value.0)| <= r.value.1
      && !IsLead(r.value.0) && !IsTrail(r.value.0)
  {
    var h := Hex4(s);
    if h.None? then None
    else if IsLead(h.value) then
      if |s| >= 6 && s[4] == BACKSLASH && s[5] == 117 && Hex4(s[6..]).Some? && IsTrail(Hex4(s[6..]).value)
      then Some((SurrogateValue(h.value, Hex4(s[6..]).value), 10))
      else None
    else if IsTrail(h.value) then None
    else Some((h.value, 4))
  }

  function SimpleEscape(b: Byte): Option<Byte> {
    if b == QUOTE || b == BACKSLASH || b == 47 then Some(b)
    else if b == 98 then Some(8)
    else if b == 102 then Some(12)
    else if b == 110 then Some(10)
    else if b == 114 then Some(13)
    else if b == 116 then Some(9)
    else None
  }

  /** The bytes one unit at the start of `s` stands for, and how many bytes it takes. */
  function Unit(s: Bytes): (r: Option<(Bytes, nat)>)
    requires s != []
    ensures r.Some? ==> 0 < r.value.1 <= |s| && |r.value.0| <= r.value.1
  {
    if s[0] != BACKSLASH then Some(([s[0]], 1))
    else if |s| < 2 then None
    else if SimpleEscape(s[1]).Some? then Some(([SimpleEscape(s[1]).value], 2))
    else if s[1] != 117 then None
    else
      var u := Unicode(s[2..]);
      if u.None? then None else Some((Utf8.Encode(u.value.0), 2 + u.value.1))
  }

  /** What a NUL-free JSON string body stands for. */
  function Decode(s: Bytes): Option<Bytes>
    decreases |s|
  {
    if s == [] then Some([])
    else
      var u := Unit(s);
      if u.None? then None else Join(u.value.0, Decode(s[u.value.1..]))
  }

  function Join(p: Bytes, o: Option<Bytes>): Option<Bytes> {
    if o.None? then None else Some(p + o.value)
  }

  // ------------------------------------------------------- round trip

  lemma UnitOfEscape(b: Byte, rest: Bytes)
    ensures Unit(EscapeByte(b) + rest) == Some(([b], |EscapeByte(b)|))
  {
    var e := EscapeByte(b) + rest;
    if NeedsEscaping(b) && |EscapeByte(b)| == 6 {
      var s := e[2..];
      assert s[0] == 48 && s[1] == 48 && s[2] == HexDigit(b / 16) && s[3] == HexDigit(b % 16);
      assert Hex4(s) == Some(b);
      assert Utf8.Encode(b) == [b];
    }
  }

  /** Decoding an escaped string gives the string back, whatever its bytes. */
  lemma {:induction false} DecodeEscape(s: Bytes)
    ensures Decode(Escape(s)) == Some(s)
  {
    if s != [] {
      var e, rest := EscapeByte(s[0]), Escape(s[1..]);
      UnitOfEscape(s[0], rest);
      assert (e + rest)[|e|..] == rest;
      DecodeEscape(s[1..]);
      assert [s[0]] + s[1..] == s;
    }
  }

  /** The escapes that are written: the short ones where there are, four lower-case digits
      for other control bytes, and nothing else is escaped. */
  lemma EscapesWritten(b: Byte)
    ensures b == '"' as int ==> Spells(EscapeByte(b), "\\\"")
    ensures b == '\\' as int ==> Spells(EscapeByte(b), "\\\\")
    ensures b == 8 ==> Spells(EscapeByte(b), "\\b")
    ensures b == 9 ==> Spells(EscapeByte(b), "\\t")
    ensures b == 10 ==> Spells(EscapeByte(b), "\\n")
    ensures b == 12 ==> Spells(EscapeByte(b), "\\f")
    ensures b == 13 ==> Spells(EscapeByte(b), "\\r")
    ensures b < 32 && b !in {8, 9, 10, 12, 13} ==>
      |EscapeByte(b)| == 6 && Spells(EscapeByte(b)[..4], "\\u00")
      && EscapeByte(b)[4] == 48 + b / 16 && EscapeByte(b)[5] == if b % 16 < 10 then 48 + b % 16 else 87 + b % 16
    ensures b >= 32 && b != '"' as int && b != '\\' as int ==> EscapeByte(b) == [b]
  {
  }

  /** An escaped string has no control byte, so no NUL, and no quote that would end it. */
  lemma {:induction false} EscapeIsClean(s: Bytes, k: nat)
    requires k < |Escape(s)|
    ensures Escape(s)[k] >= 32
    ensures Escape(s)[k] == QUOTE ==> k > 0 && Escape(s)[k - 1] == BACKSLASH
  {
    var e := EscapeByte(s[0]);
    if k >= |e| { EscapeIsClean(s[1..], k - |e|); }
  }

  lemma {:induction false} EscapeConcat(a: Bytes, b: Bytes)
    ensures Escape(a + b) == Escape(a) + Escape(b)
  {
    if a == [] {
      assert a + b == b;
    } else {
      assert (a + b)[1..] == a[1..] + b;
      EscapeConcat(a[1..], b);
    }
  }

  lemma {:induction false} EscapePlain(a: Bytes)
    requires forall k :: 0 <= k < |a| ==> !NeedsEscaping(a[k])
    ensures Escape(a) == a
  {
    if a != [] { EscapePlain(a[1..]); }
  }

  // ------------------------------------------------------- every escape

  /** `b` is a hex digit for `d`, of either case. */
  predicate IsHex(b: Byte, d: int) { 0 <= d < 16 && (if d < 10 then b == 48 + d else b == 87 + d || b == 55 + d) }

  /** `h` are the four hex digits of `n`. */
  ghost predicate IsHex4(h: Bytes, n: nat) {
    |h| == 4 && exists d0, d1, d2, d3 ::
      && IsHex(h[0], d0) && IsHex(h[1], d1) && IsHex(h[2], d2) && IsHex(h[3], d3)
      && n == d0 * 4096 + d1 * 256 + d2 * 16 + d3
  }

  /** `e` is a unicode escape of the UTF-16 unit `n`. */
  ghost predicate IsUnitEscape(e: Bytes, n: nat) { |e| == 6 && e[0] == 92 && e[1] == 117 && IsHex4(e[2..], n) }

  /** `e` is the escape of code point `c` (section 7 of RFC 8259): one unit, or above the
      basic plane the surrogate pair of its upper and its lower ten bits. */
  ghost predicate IsEscapeOf(e: Bytes, c: nat) {
    if c < 0x10000 then IsUnitEscape(e, c)
    else
      && c <= 0x10FFFF && |e| == 12
      && IsUnitEscape(e[..6], 0xD800 + (c - 0x10000) / 1024)
      && IsUnitEscape(e[6..], 0xDC00 + (c - 0x10000) % 1024)
  }

  lemma HexValueIs(b: Byte, d: int)
    requires IsHex(b, d)
    ensures HexValue(b) == d
  {
  }

  lemma Hex4Is(h: Bytes, n: nat, rest: Bytes)
    requires IsHex4(h, n)
    ensures Hex4(h + rest) == Some(n)
  {
    var d0, d1, d2, d3 :|
      && IsHex(h[0], d0) && IsHex(h[1], d1) && IsHex(h[2], d2) && IsHex(h[3], d3)
      && n == d0 * 4096 + d1 * 256 + d2 * 16 + d3;
    HexValueIs(h[0], d0);
    HexValueIs(h[1], d1);
    HexValueIs(h[2], d2);
    HexValueIs(h[3], d3);
    assert (h + rest)[0] == h[0] && (h + rest)[1] == h[1] && (h + rest)[2] == h[2] && (h + rest)[3] == h[3];
    hide HexValue;
  }

  /** Every code point that is no surrogate is read from its escape, and the escape is all
      that is consumed. */
  lemma EscapesDecode(c: nat, e: Bytes, rest: Bytes)
    requires c <= 0x10FFFF && !(0xD800 <= c < 0xE000) && IsEscapeOf(e, c)
    ensures Unit(e + rest) == Some((Utf8.Encode(c), |e|))
    ensures Decode(e + rest) == Join(Utf8.Encode(c), Decode(rest))
  {
    assert e[..6][0] == e[0] && e[..6][1] == e[1];
    Introduced(e, rest);
    hide *;
    UnicodeDecodes(c, e, rest);
    UnitUnicode(e + rest, 117);
    DecodeFirst(e + rest);
  }

  lemma Introduced(e: Bytes, rest: Bytes)
    requires |e| >= 6 && e[0] == 92 && e[1] == 117
    ensures var s := e + rest;
      s != [] && s[0] == BACKSLASH && |s| > 1 && s[1] == 117 && s[2..] == e[2..] + rest && s[|e|..] == rest
  {
  }

  lemma DecodeFirst(s: Bytes)
    requires s != []
    ensures Decode(s) == if Unit(s).None? then None else Join(Unit(s).value.0, Decode(s[Unit(s).value.1..]))
  {
    hide Unit;
  }

  lemma UnicodeDecodes(c: nat, e: Bytes, rest: Bytes)
    requires c <= 0x10FFFF && !(0xD800 <= c < 0xE000) && IsEscapeOf(e, c)
    ensures Unicode(e[2..] + rest) == Some((c, |e| - 2))
  {
    var s := e[2..] + rest;
    if c < 0x10000 {
      Hex4Is(e[2..], c, rest);
    } else {
      var lead, trail := 0xD800 + (c - 0x10000) / 1024, 0xDC00 + (c - 0x10000) % 1024;
      var h1, h2 := e[..6][2..], e[6..][2..];
      assert s == h1 + (e[6..] + rest);
      Hex4Is(h1, lead, e[6..] + rest);
      assert s[4] == e[6] && s[5] == e[7] && s[6..] == h2 + rest;
      Hex4Is(h2, trail, rest);
      hide Hex4, IsHex4;
    }
  }

  /** A surrogate on its own is refused: a trailing one, or a leading one that no escape of
      a trailing one follows. */
  lemma LoneSurrogatesRefused(n: nat, e: Bytes, rest: Bytes)
    requires IsUnitEscape(e, n) && 0xD800 <= n < 0xE000
    requires n < 0xDC00 ==> forall m :: 0xDC00 <= m < 0xE000 && |rest| >= 6 ==> !IsUnitEscape(rest[..6], m)
    ensures Unit(e + rest) == None && Decode(e + rest) == None
  {
    Introduced(e, rest);
    hide *;
    LoneUnicode(n, e, rest);
    UnitUnicode(e + rest, 117);
    DecodeFirst(e + rest);
  }

  lemma LoneUnicode(n: nat, e: Bytes, rest: Bytes)
    requires IsUnitEscape(e, n) && 0xD800 <= n < 0xE000
    requires n < 0xDC00 ==> forall m :: 0xDC00 <= m < 0xE000 && |rest| >= 6 ==> !IsUnitEscape(rest[..6], m)
    ensures Unicode(e[2..] + rest) == None
  {
    var s := e[2..] + rest;
    Hex4Is(e[2..], n, rest);
    if |rest| >= 2 {
      assert s[4] == rest[0] && s[5] == rest[1] && s[6..] == rest[2..];
      if n < 0xDC00 && rest[0] == 92 && rest[1] == 117 && Hex4(rest[2..]).Some? { Followed(rest); }
    }
    hide Hex4, IsUnitEscape;
  }

  lemma Followed(rest: Bytes)
    requires |rest| >= 2 && rest[0] == 92 && rest[1] == 117 && Hex4(rest[2..]).Some?
    ensures |rest| >= 6 && IsUnitEscape(rest[..6], Hex4(rest[2..]).value)
  {
    Hex4Digits(rest[2..]);
    assert rest[..6][2..] == rest[2..][..4];
    hide IsHex4, Hex4;
  }

  lemma Hex4Digits(s: Bytes)
    requires Hex4(s).Some?
    ensures |s| >= 4 && IsHex4(s[..4], Hex4(s).value)
  {
    var h := s[..4];
    assert forall k :: 0 <= k < 4 ==> h[k] == s[k] && HexValue(s[k]) >= 0;
    HexDigits(h[0]);
    HexDigits(h[1]);
    HexDigits(h[2]);
    HexDigits(h[3]);
    hide HexValue, IsHex;
  }

  lemma HexDigits(b: Byte)
    ensures HexValue(b) >= 0 ==> IsHex(b, HexValue(b))
  {
  }

  /** The two-byte escapes of section 7 of RFC 8259; after a backslash nothing else but `u`
      is accepted, and any other byte stands for itself. */
  lemma ShortEscapesDecode(x: Byte, rest: Bytes)
    ensures
      var y := if x == '"' as int then '"' as int
               else if x == '\\' as int then '\\' as int
               else if x == '/' as int then '/' as int
               else if x == 'b' as int then 8
               else if x == 'f' as int then 12
               else if x == 'n' as int then 10
               else if x == 'r' as int then 13
               else if x == 't' as int then 9
               else -1;
      if y >= 0 then Unit([92, x] + rest) == Some(([y], 2))
      else x != 'u' as int ==> Unit([92, x] + rest) == None
    ensures x != 92 ==> Unit([x] + rest) == Some(([x], 1))
  {
    hide Unicode, Utf8.Encode;
  }

  // ------------------------------------------------------- the in-place decoder

  function FirstNul(s: Bytes): (n: nat)
    requires 0 in s
    ensures n < |s| && s[n] == 0 && forall k :: 0 <= k < n ==> s[k] != 0
  {
    if s[0] == 0 then 0 else 1 + FirstNul(s[1..])
  }

  /** The decoder's only way to read its buffer: up to the terminator and never past it.
      Where the terminator is, `n`, is ghost: the decoder cannot ask. */
  function Peek(buf: array<Byte>, i: nat, ghost n: nat): Byte
    requires i <= n < buf.Length
    reads buf
  {
    buf[i]
  }

  /** `read_escaped_unicode_char`: stops at the first byte that is not a hex digit, so
      it never reads past the terminator at `n`. */
  method ReadHex4(buf: array<Byte>, at: nat, ghost n: nat) returns (r: int)
    requires at <= n < buf.Length && buf[n] == 0
    requires forall k :: at <= k < n ==> buf[k] != 0
    ensures Hex4(buf[at..n]).None? ==> r == -1
    ensures Hex4(buf[at..n]).Some? ==> r == Hex4(buf[at..n]).value
  {
    r := 0;
    var i := 0;
    while i < 4
      invariant 0 <= i <= 4 && at + i <= n
      invariant forall k :: at <= k < at + i ==> HexValue(buf[k]) >= 0
      invariant r == (if i == 0 then 0 else if i == 1 then HexValue(buf[at])
                      else if i == 2 then HexValue(buf[at]) * 16 + HexValue(buf[at + 1])
                      else if i == 3 then HexValue(buf[at]) * 256 + HexValue(buf[at + 1]) * 16 + HexValue(buf[at + 2])
                      else HexValue(buf[at]) * 4096 + HexValue(buf[at + 1]) * 256
                           + HexValue(buf[at + 2]) * 16 + HexValue(buf[at + 3]))
    {
      var c := Peek(buf, at + i, n);
      if HexValue(c) < 0 {
        if at + 4 <= n { assert HexValue(buf[at..n][i]) < 0; }
        return -1;
      }
      assert at + i < n;
      r := r * 16 + HexValue(c);
      i := i + 1;
    }
    assert forall k :: 0 <= k < 4 ==> buf[at..n][k] == buf[at + k];
  }

  /** The `\u` case of the decoder: the code point and the new read cursor. */
  method ReadUnicode(buf: array<Byte>, at: nat, ghost n: nat) returns (ok: bool, c: nat, next: nat)
    requires at <= n < buf.Length && buf[n] == 0
    requires forall k :: at <= k < n ==> buf[k] != 0
    ensures ok <==> Unicode(buf[at..n]).Some?
    ensures ok ==> Unicode(buf[at..n]).value == (c, next - at) && at <= next <= n
  {
    var r := ReadHex4(buf, at, n);
    c, next := 0, at;
    if r == -1 { return false, 0, at; }
    next := at + 4;
    assert next <= n;
    if IsLead(r) {
      if Peek(buf, next, n) != BACKSLASH || Peek(buf, next + 1, n) != 117 {
        assert |buf[at..n]| >= 6 ==> buf[at..n][4] == buf[next] && buf[at..n][5] == buf[next + 1];
        return false, 0, at;
      }
      assert buf[at..n][4] == buf[next] && buf[at..n][5] == buf[next + 1];
      next := next + 2;
      assert buf[at..n][6..] == buf[next..n];
      var trail := ReadHex4(buf, next, n);
      if trail == -1 || !IsTrail(trail) { return false, 0, at; }
      next := next + 4;
      return true, SurrogateValue(r, trail), next;
    } else if IsTrail(r) {
      return false, 0, at;
    }
    return true, r, next;
  }

  lemma JoinStep(done: Bytes, orig: Bytes, n: nat, i: nat)
    requires i < n <= |orig|
    ensures var u := Unit(orig[i..n]);
      if u.None? then Join(done, Decode(orig[i..n])) == None
      else Join(done, Decode(orig[i..n])) == Join(done + u.value.0, Decode(orig[i + u.value.1..n]))
  {
    var u := Unit(orig[i..n]);
    if u.Some? {
      var o := Decode(orig[i + u.value.1..n]);
      assert orig[i..n][u.value.1..] == orig[i + u.value.1..n];
      if o.Some? { assert done + (u.value.0 + o.value) == (done + u.value.0) + o.value; }
    }
  }

  /** One turn of the decoder's loop: reads a unit at `input`, writes what it stands for
      at `output`, and leaves the text not yet read alone. */
  method DecodeUnit(buf: array<Byte>, input: nat, output: nat, ghost n: nat)
    returns (ok: bool, input': nat, output': nat)
    requires output <= input < n < buf.Length && buf[n] == 0
    requires forall k :: input <= k < n ==> buf[k] != 0
    modifies buf
    ensures ok <==> Unit(old(buf[input..n])).Some?
    ensures ok ==> var u := Unit(old(buf[input..n])).value;
      && input' == input + u.1 && output' == output + |u.0| && output' <= input' <= n
      && buf[..output'] == old(buf[..output]) + u.0
    ensures ok ==> forall k :: input' <= k < buf.Length ==> buf[k] == old(buf[k])
    ensures forall k :: n <= k < buf.Length ==> buf[k] == old(buf[k])
  {
    hide *;
    ghost var s := buf[input..n];
    var c := Peek(buf, input, n);
    PeekIs(buf, input, n);
    if c != BACKSLASH {
      UnitPlain(s);
      PutByte(buf, output, c);
      return true, input + 1, output + 1;
    }
    var e := Peek(buf, input + 1, n);
    PeekIs(buf, input + 1, n);
    if SimpleEscape(e).Some? {
      UnitSimple(s, e);
      PutByte(buf, output, SimpleEscape(e).value);
      return true, input + 2, output + 1;
    } else if e == 117 {
      UnitUnicode(s, e);
      assert buf[input + 2..n] == s[2..];
      ok, input', output' := DecodeUnicode(buf, input + 2, output, n);
    } else {
      UnitNone(s, e);
      return false, input, output;
    }
  }

  method PutByte(buf: array<Byte>, at: nat, b: Byte)
    requires at < buf.Length
    modifies buf
    ensures buf[..at + 1] == old(buf[..at]) + [b]
    ensures forall k :: 0 <= k < buf.Length && k != at ==> buf[k] == old(buf[k])
  {
    buf[at] := b;
  }

  lemma PeekIs(buf: array<Byte>, i: nat, n: nat)
    requires i <= n < buf.Length
    ensures Peek(buf, i, n) == buf[i]
  {
  }

  lemma UnitPlain(s: Bytes)
    requires s != [] && s[0] != BACKSLASH
    ensures Unit(s) == Some(([s[0]], 1))
  {
  }

  /** `e` is what follows the backslash: a byte of the text, or the terminator. */
  lemma UnitSimple(s: Bytes, e: Byte)
    requires s != [] && s[0] == BACKSLASH && (if |s| > 1 then e == s[1] else e == 0) && SimpleEscape(e).Some?
    ensures |s| > 1 && Unit(s) == Some(([SimpleEscape(e).value], 2))
  {
  }

  lemma UnitUnicode(s: Bytes, e: Byte)
    requires s != [] && s[0] == BACKSLASH && (if |s| > 1 then e == s[1] else e == 0) && e == 117
    ensures |s| > 1
    ensures
      var u := Unicode(s[2..]);
      if u.None? then Unit(s) == None
      else Unit(s).Some? && Unit(s).value.0 == Utf8.Encode(u.value.0) && Unit(s).value.1 == 2 + u.value.1
  {
    hide Unicode, Utf8.Encode;
  }

  lemma UnitNone(s: Bytes, e: Byte)
    requires s != [] && s[0] == BACKSLASH && (if |s| > 1 then e == s[1] else e == 0)
    requires SimpleEscape(e).None? && e != 117
    ensures Unit(s) == None
  {
  }

  /** The `\u` case of `DecodeUnit`, after the two bytes that introduce it. */
  method DecodeUnicode(buf: array<Byte>, at: nat, output: nat, ghost n: nat)
    returns (ok: bool, next: nat, output': nat)
    requires output <= at <= n < buf.Length && buf[n] == 0
    requires forall k :: at <= k < n ==> buf[k] != 0
    modifies buf
    ensures ok <==> Unicode(old(buf[at..n])).Some?
    ensures ok ==> var u := Unicode(old(buf[at..n])).value;
      && next == at + u.1 && output' == output + |Utf8.Encode(u.0)| && output' <= next <= n
      && buf[..output'] == old(buf[..output]) + Utf8.Encode(u.0)
    ensures ok ==> forall k :: next <= k < buf.Length ==> buf[k] == old(buf[k])
    ensures forall k :: n <= k < buf.Length ==> buf[k] == old(buf[k])
  {
    ghost var done := buf[..output];
    var uchar;
    ok, uchar, next := ReadUnicode(buf, at, n);
    hide Utf8.Encode;
    if !ok { return false, at, output; }
    var wrote := Utf8.Write(uchar, buf, output);
    output' := output + wrote;
    assert buf[..output] == done;
    assert buf[..output'] == done + Utf8.Encode(uchar);
  }

  /** `decode_string_inplace`: rewrites a NUL-terminated buffer. The result is what the
      text before the terminator stands for; the write cursor never passes the read
      cursor, and every read is a `Peek`, so nothing past the terminator is read. */
  method DecodeInPlace(buf: array<Byte>) returns (ok: bool, len: nat)
    requires 0 in buf[..]
    modifies buf
    ensures var n := FirstNul(old(buf[..])); var d := Decode(old(buf[..])[..n]);
      && (ok <==> d.Some?)
      && (ok ==> len <= n && buf[..len] == d.value && buf[len] == 0)
      && (forall k :: n < k < buf.Length ==> buf[k] == old(buf[k]))
  {
    hide Unit;
    ghost var orig := buf[..];
    ghost var n: nat := FirstNul(orig);
    var input, output := 0, 0;
    assert n < buf.Length;
    assert orig[0..n] == orig[..n];
    assert Decode(orig[..n]) == Join([], Decode(orig[..n])) by {
      if Decode(orig[..n]).Some? { assert [] + Decode(orig[..n]).value == Decode(orig[..n]).value; }
    }
    hide Decode;
    while Peek(buf, input, n) != 0
      invariant 0 <= output <= input <= n < buf.Length
      invariant forall k :: input <= k < buf.Length ==> buf[k] == orig[k]
      invariant forall k :: n <= k < buf.Length ==> buf[k] == orig[k]
      invariant Decode(orig[..n]) == Join(buf[..output], Decode(orig[input..n]))
      decreases n - input
    {
      assert buf[input..n] == orig[input..n];
      JoinStep(buf[..output], orig, n, input);
      ok, input, output := DecodeUnit(buf, input, output, n);
      if !ok { return false, 0; }
    }
    assert Decode([]) == Some([]) by { DecodeEmpty(); }
    assert orig[input..n] == [];
    buf[output] := 0;
    ok, len := true, output;
    assert buf[..output] + [] == buf[..output];
  }

  lemma DecodeEmpty()
    ensures Decode([]) == Some([])
  {
  }
}
