/** Scanning the notes of an ELF segment or section. */
module ElfNotes {
  import opened Bytes
  import opened Wrappers

  const HEADER := 12
  const WORD: int := 0x1_0000_0000
  const SIZE_MAX: int := 0xffff_ffff_ffff_ffff

  datatype Note = Note(kind: nat, name: Bytes, desc: Bytes)

  /** Where a descriptor is. */
  datatype Found = Found(at: nat, size: nat)

  // ------------------------------------------------------- arithmetic

  /** Rounding up with a 64-bit sum, which may wrap around. */
  function AlignUp(x: nat, al: nat): (r: nat)
    requires al == 4 || al == 8
  {
    var sum := (x + (al - 1)) % (SIZE_MAX + 1);
    if al == 4 then sum / 4 * 4 else sum / 8 * 8
  }

  /** The next multiple of the alignment. */
  function Up(x: nat, al: nat): (r: nat)
    requires al == 4 || al == 8
    ensures x <= r < x + al
  {
    if al == 4 then (x + 3) / 4 * 4 else (x + 7) / 8 * 8
  }

  /** Away from the end of the range, the sum does not wrap around. */
  lemma AlignUpIsUp(x: nat, al: nat)
    requires (al == 4 || al == 8) && x <= SIZE_MAX - 7
    ensures AlignUp(x, al) == Up(x, al)
  {
  }

  /** A field of the header, in little-endian order. */
  function Word(b: Bytes, at: nat): (n: nat)
    requires at + 4 <= |b|
    ensures n < WORD
  {
    var b0: int, b1: int, b2: int, b3: int := b[at], b[at + 1], b[at + 2], b[at + 3];
    b0 + 0x100 * b1 + 0x1_0000 * b2 + 0x100_0000 * b3
  }

  function WordBytes(n: nat): (b: Bytes)
    requires n < WORD
    ensures |b| == 4 && Word(b, 0) == n
  {
    var q1 := n / 0x100;
    var q2 := q1 / 0x100;
    [n % 0x100, q1 % 0x100, q2 % 0x100, q2 / 0x100]
  }

  // ------------------------------------------------------- scanning

  /** The header at `off`: sizes and type. */
  datatype Header = Header(nameSize: nat, descSize: nat, kind: nat)

  function HeaderAt(b: Bytes, off: nat): Header
    requires off + HEADER <= |b|
  {
    Header(Word(b, off), Word(b, off + 4), Word(b, off + 8))
  }

  /** What the note at `off` leads to. */
  datatype Turn = Malformed | Hit(found: Found) | Onward(next: nat)

  function Visit(b: Bytes, off: nat, al: nat, kind: nat, name: Bytes): (t: Turn)
    requires (al == 4 || al == 8) && off + HEADER <= |b| <= SIZE_MAX - 7
    ensures t.Onward? ==> off < t.next
    ensures t.Hit? ==> off < t.found.at && t.found.at + t.found.size <= |b|
  {
    var h, nameAt := HeaderAt(b, off), off + HEADER;
    if h.nameSize > |b| - nameAt then Malformed
    else
      AlignUpIsUp(nameAt + h.nameSize, al);
      var descAt := AlignUp(nameAt + h.nameSize, al);
      if descAt > |b| || h.descSize > |b| - descAt then Malformed
      else if h.kind == kind && b[nameAt..nameAt + h.nameSize] == name then Hit(Found(descAt, h.descSize))
      else
        AlignUpIsUp(descAt + h.descSize, al);
        Onward(AlignUp(descAt + h.descSize, al))
  }

  function Scan(b: Bytes, off: nat, al: nat, kind: nat, name: Bytes): (r: Option<Found>)
    requires (al == 4 || al == 8) && |b| <= SIZE_MAX - 7
    ensures r.Some? ==> off < r.value.at && r.value.at + r.value.size <= |b|
    decreases |b| - off
  {
    if off + HEADER > |b| then None
    else
      match Visit(b, off, al, kind, name)
      case Malformed => None
      case Hit(found) => Some(found)
      case Onward(next) => Scan(b, next, al, kind, name)
  }

  /** `sentry__elf_find_note`. Every access is in bounds, and the offset grows. */
  method FindNote(b: Bytes, alignment: nat, kind: nat, name: Bytes) returns (r: Option<Found>)
    requires |b| <= SIZE_MAX - 7
    ensures r == if alignment > 4 && alignment != 8 then None
                 else Scan(b, 0, if alignment == 8 then 8 else 4, kind, name)
  {
    var al := alignment;
    if al < 4 {
      al := 4;
    } else if al != 4 && al != 8 {
      return None;
    }
    var offset := 0;
    hide Visit;
    while |b| - offset >= HEADER
      invariant offset <= |b|
      invariant Scan(b, 0, al, kind, name) == Scan(b, offset, al, kind, name)
    {
      var turn := VisitNote(b, offset, al, kind, name);
      match turn {
        case Malformed => return None;
        case Hit(found) => return Some(found);
        case Onward(next) =>
          offset := next;
          if offset > |b| { return None; }
      }
    }
    return None;
  }

  /** The body of that loop. */
  method VisitNote(b: Bytes, off: nat, al: nat, kind: nat, name: Bytes) returns (t: Turn)
    requires (al == 4 || al == 8) && off + HEADER <= |b| <= SIZE_MAX - 7
    ensures t == Visit(b, off, al, kind, name)
  {
    hide AlignUp, HeaderAt, Up;
    var h := HeaderAt(b, off);
    var offset := off + HEADER;
    if h.nameSize > |b| - offset { return Malformed; }
    AlignUpIsUp(offset + h.nameSize, al);
    var descAt := AlignUp(offset + h.nameSize, al);
    if descAt > |b| { return Malformed; }
    if h.descSize > |b| - descAt { return Malformed; }
    if h.kind == kind && h.nameSize == |name| && b[offset..offset + h.nameSize] == name {
      return Hit(Found(descAt, h.descSize));
    }
    return Onward(AlignUp(descAt + h.descSize, al));
  }

  // ------------------------------------------------------- the notes of a buffer

  function Zeros(n: nat): (z: Bytes)
    ensures |z| == n
  {
    if n == 0 then [] else [0] + Zeros(n - 1)
  }

  function Padded(s: Bytes, al: nat): (r: Bytes)
    requires al == 4 || al == 8
    ensures |r| == Up(|s|, al) && s <= r
  {
    s + Zeros(Up(|s|, al) - |s|)
  }

  predicate Fits(n: Note) { n.kind < WORD && |n.name| < WORD && |n.desc| < WORD }

  function HeaderBytes(n: Note): (b: Bytes)
    requires Fits(n)
    ensures |b| == HEADER
  {
    WordBytes(|n.name|) + WordBytes(|n.desc|) + WordBytes(n.kind)
  }

  /** The buffer with one more note: header and name, padding, descriptor, padding. */
  function Emit(out: Bytes, n: Note, al: nat): (r: Bytes)
    requires Fits(n) && (al == 4 || al == 8)
    ensures out <= r
  {
    Padded(Padded(out + HeaderBytes(n) + n.name, al) + n.desc, al)
  }

  function Encode(out: Bytes, notes: seq<Note>, al: nat): (r: Bytes)
    requires (al == 4 || al == 8) && forall k :: 0 <= k < |notes| ==> Fits(notes[k])
    ensures out <= r
    decreases |notes|
  {
    if notes == [] then out else Encode(Emit(out, notes[0], al), notes[1..], al)
  }

  predicate Matches(n: Note, kind: nat, name: Bytes) { n.kind == kind && n.name == name }

  /** The position of the first note that matches, or the length. */
  function FirstMatch(notes: seq<Note>, kind: nat, name: Bytes): (k: nat)
    ensures k <= |notes| && (k < |notes| ==> Matches(notes[k], kind, name))
    ensures forall i :: 0 <= i < k ==> !Matches(notes[i], kind, name)
  {
    if notes == [] || Matches(notes[0], kind, name) then 0 else 1 + FirstMatch(notes[1..], kind, name)
  }

  // ------------------------------------------------------- the scanner finds it

  lemma WordOf(b: Bytes, at: nat, n: nat)
    requires n < WORD && at + 4 <= |b| && b[at..at + 4] == WordBytes(n)
    ensures Word(b, at) == n
  {
    var w := WordBytes(n);
    assert forall i :: 0 <= i < 4 ==> b[at + i] == w[i];
    hide WordBytes;
  }

  /** What is in the buffer where a note was written. */
  lemma EmitLayout(out: Bytes, n: Note, al: nat, b: Bytes)
    requires Fits(n) && (al == 4 || al == 8) && Emit(out, n, al) <= b
    ensures
      var nameAt := |out| + HEADER;
      var descAt := Up(nameAt + |n.name|, al);
      && |Emit(out, n, al)| == Up(descAt + |n.desc|, al) && nameAt + |n.name| <= descAt && descAt + |n.desc| <= |b|
      && b[|out|..nameAt] == HeaderBytes(n)
      && b[nameAt..nameAt + |n.name|] == n.name
      && b[descAt..descAt + |n.desc|] == n.desc
  {
    var a := out + HeaderBytes(n) + n.name;
    var p := Padded(a, al);
    var q := p + n.desc;
    hide Up, Padded, HeaderBytes;
    assert a <= p && q <= Emit(out, n, al) && q <= b && p <= b && a <= b;
    var nameAt := |out| + HEADER;
    assert b[|out|..nameAt] == a[|out|..nameAt] == HeaderBytes(n);
    assert b[nameAt..nameAt + |n.name|] == a[nameAt..] == n.name;
    assert b[|p|..|p| + |n.desc|] == q[|p|..] == n.desc;
  }

  lemma HeaderRead(out: Bytes, n: Note, b: Bytes)
    requires Fits(n) && |out| + HEADER <= |b| && b[|out|..|out| + HEADER] == HeaderBytes(n)
    ensures HeaderAt(b, |out|) == Header(|n.name|, |n.desc|, n.kind)
  {
    var off, h := |out|, HeaderBytes(n);
    hide Word, WordBytes;
    assert forall i :: 0 <= i < HEADER ==> b[off + i] == h[i];
    assert b[off..off + 4] == h[..4] == WordBytes(|n.name|);
    assert b[off + 4..off + 8] == h[4..8] == WordBytes(|n.desc|);
    assert b[off + 8..off + 12] == h[8..12] == WordBytes(n.kind);
    WordOf(b, off, |n.name|);
    WordOf(b, off + 4, |n.desc|);
    WordOf(b, off + 8, n.kind);
  }

  lemma VisitOne(out: Bytes, n: Note, al: nat, b: Bytes, kind: nat, name: Bytes)
    requires Fits(n) && (al == 4 || al == 8) && Emit(out, n, al) <= b && |out| + HEADER <= |b| <= SIZE_MAX - 7
    ensures Visit(b, |out|, al, kind, name)
      == if Matches(n, kind, name) then Hit(Found(Up(|out| + HEADER + |n.name|, al), |n.desc|))
         else Onward(|Emit(out, n, al)|)
  {
    var nameAt: nat := |out| + HEADER;
    hide *;
    var descAt := Up(nameAt + |n.name|, al);
    EmitLayout(out, n, al, b);
    HeaderRead(out, n, b);
    AlignUpIsUp(nameAt + |n.name|, al);
    AlignUpIsUp(descAt + |n.desc|, al);
    VisitLayout(b, |out|, al, n, kind, name, descAt, |Emit(out, n, al)|);
  }

  /** A visit, by what is where in the buffer. */
  lemma VisitLayout(b: Bytes, off: nat, al: nat, n: Note, kind: nat, name: Bytes, descAt: nat, next: nat)
    requires (al == 4 || al == 8) && off + HEADER + |n.name| <= |b| <= SIZE_MAX - 7
    requires HeaderAt(b, off) == Header(|n.name|, |n.desc|, n.kind)
    requires b[off + HEADER..off + HEADER + |n.name|] == n.name
    requires AlignUp(off + HEADER + |n.name|, al) == descAt && descAt + |n.desc| <= |b|
    requires AlignUp(descAt + |n.desc|, al) == next
    ensures Visit(b, off, al, kind, name)
         == if Matches(n, kind, name) then Hit(Found(descAt, |n.desc|)) else Onward(next)
  {
    hide AlignUp, HeaderAt;
  }

  lemma ScanOne(out: Bytes, n: Note, al: nat, b: Bytes, kind: nat, name: Bytes)
    requires Fits(n) && (al == 4 || al == 8) && Emit(out, n, al) <= b && |b| <= SIZE_MAX - 7
    ensures
      Scan(b, |out|, al, kind, name)
      == if Matches(n, kind, name) then Some(Found(Up(|out| + HEADER + |n.name|, al), |n.desc|))
         else Scan(b, |Emit(out, n, al)|, al, kind, name)
  {
    hide Visit, Up, Emit, Matches;
    EmitLayout(out, n, al, b);
    VisitOne(out, n, al, b, kind, name);
  }

  /** `r` is the descriptor of the first match, or nothing. */
  ghost predicate Reports(r: Option<Found>, b: Bytes, notes: seq<Note>, kind: nat, name: Bytes) {
    var k := FirstMatch(notes, kind, name);
    if k == |notes| then r == None
    else
      && r.Some? && r.value.at + r.value.size <= |b|
      && b[r.value.at..r.value.at + r.value.size] == notes[k].desc
  }

  lemma NothingToReport(out: Bytes, al: nat, kind: nat, name: Bytes)
    requires (al == 4 || al == 8) && |out| <= SIZE_MAX - 7
    ensures Encode(out, [], al) == out && Reports(Scan(out, |out|, al, kind, name), out, [], kind, name)
  {
  }

  lemma FirstReported(at: nat, b: Bytes, notes: seq<Note>, kind: nat, name: Bytes)
    requires notes != [] && Matches(notes[0], kind, name)
    requires at + |notes[0].desc| <= |b| && b[at..at + |notes[0].desc|] == notes[0].desc
    ensures Reports(Some(Found(at, |notes[0].desc|)), b, notes, kind, name)
  {
  }

  lemma LaterReported(r: Option<Found>, b: Bytes, notes: seq<Note>, kind: nat, name: Bytes)
    requires notes != [] && !Matches(notes[0], kind, name) && Reports(r, b, notes[1..], kind, name)
    ensures Reports(r, b, notes, kind, name)
  {
  }

  lemma EncodeFirst(out: Bytes, notes: seq<Note>, al: nat)
    requires (al == 4 || al == 8) && notes != [] && forall k :: 0 <= k < |notes| ==> Fits(notes[k])
    ensures Encode(out, notes, al) == Encode(Emit(out, notes[0], al), notes[1..], al)
    ensures Emit(out, notes[0], al) <= Encode(out, notes, al)
  {
    hide Emit;
  }

  lemma {:induction false} ScanFinds(out: Bytes, notes: seq<Note>, al: nat, kind: nat, name: Bytes)
    requires (al == 4 || al == 8) && forall k :: 0 <= k < |notes| ==> Fits(notes[k])
    requires |Encode(out, notes, al)| <= SIZE_MAX - 7
    ensures Reports(Scan(Encode(out, notes, al), |out|, al, kind, name), Encode(out, notes, al), notes, kind, name)
    decreases |notes|
  {
    hide *;
    if notes == [] {
      NothingToReport(out, al, kind, name);
    } else {
      var b, n := Encode(out, notes, al), notes[0];
      var out' := Emit(out, n, al);
      EncodeFirst(out, notes, al);
      ScanOne(out, n, al, b, kind, name);
      if Matches(n, kind, name) {
        EmitLayout(out, n, al, b);
        FirstReported(Up(|out| + HEADER + |n.name|, al), b, notes, kind, name);
      } else {
        ScanFinds(out', notes[1..], al, kind, name);
        LaterReported(Scan(b, |out'|, al, kind, name), b, notes, kind, name);
      }
    }
  }

  /** Main result: on the encoding of any notes, the scan finds the descriptor of the
      first one that matches, or nothing if none does. */
  lemma FindsFirst(notes: seq<Note>, al: nat, kind: nat, name: Bytes)
    requires (al == 4 || al == 8) && forall k :: 0 <= k < |notes| ==> Fits(notes[k])
    requires |Encode([], notes, al)| <= SIZE_MAX - 7
    ensures
      var b, k := Encode([], notes, al), FirstMatch(notes, kind, name);
      var r := Scan(b, 0, al, kind, name);
      if k == |notes| then r == None
      else r.Some? && b[r.value.at..r.value.at + r.value.size] == notes[k].desc
  {
    ScanFinds([], notes, al, kind, name);
    hide Scan, Encode;
  }
}
