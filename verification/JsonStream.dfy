/**
  The writer object itself: a 64-bit word of comma flags, a depth counter and a
  "last was key" flag, updated in place. Every method refines the corresponding call of
  the stack-of-flags specification. The sink is infallible.
 */
module JsonStream {
  import opened Bytes
  import opened Wrappers
  import opened JsonValue
  import opened JsonString
  import opened JsonWriter

  /** A shift amount. */
  function Pos(d: nat): bv8
    requires d < 64
  {
    d as bv8
  }

  predicate BitAt(c: bv64, d: bv8)
    requires d < 64
  {
    (c >> d) & 1 == 1
  }

  function SetAt(c: bv64, d: bv8, val: bool): bv64
    requires d < 64
  {
    if val then c | (1 << d) else c & !(1 << d)
  }

  lemma SetAtIs(c: bv64, d: bv8, val: bool, e: bv8)
    requires d < 64 && e < 64
    ensures BitAt(SetAt(c, d, val), e) == if d == e then val else BitAt(c, e)
  {
    OrBit(c, d, e);
    AndBit(c, d, e);
    hide BitAt;
  }

  lemma OrBit(c: bv64, d: bv8, e: bv8)
    requires d < 64 && e < 64
    ensures BitAt(c | (1 << d), e) == (e == d || BitAt(c, e))
  {
  }

  lemma AndBit(c: bv64, d: bv8, e: bv8)
    requires d < 64 && e < 64
    ensures BitAt(c & !(1 << d), e) == (e != d && BitAt(c, e))
  {
  }

  lemma PosBack(d: nat)
    requires d < 64
    ensures Pos(d) < 64 && Pos(d) as nat == d
  {
  }

  lemma PosInjective(d: nat, e: nat)
    requires d < 64 && e < 64
    ensures Pos(d) < 64 && Pos(e) < 64 && (Pos(d) == Pos(e) <==> d == e)
  {
    PosBack(d);
    PosBack(e);
    hide Pos;
  }

  /** Bit `d` of a comma word. */
  predicate Bit(c: bv64, d: nat)
    requires d < 64
  {
    Pos(d) < 64 && BitAt(c, Pos(d))
  }

  /** `set_comma` on the word. */
  function WithBit(c: bv64, d: nat, val: bool): bv64
    requires d < 64
  {
    if Pos(d) < 64 then SetAt(c, Pos(d), val) else c
  }

  lemma WithBitIs(c: bv64, d: nat, val: bool, e: nat)
    requires d < 64 && e < 64
    ensures Bit(WithBit(c, d, val), e) == if d == e then val else Bit(c, e)
  {
    hide Pos, BitAt, SetAt;
    PosInjective(d, e);
    SetAtIs(c, Pos(d), val, Pos(e));
  }

  /** The flags of levels `0..depth` that a word stands for. */
  function Flags(c: bv64, depth: nat): (f: seq<bool>)
    ensures |f| == depth + 1
    ensures forall d :: 0 <= d <= depth ==> f[d] == (d < 64 && Bit(c, d))
  {
    seq(depth + 1, d requires 0 <= d <= depth => d < 64 && Bit(c, d))
  }

  lemma FlagsWithBit(c: bv64, depth: nat, val: bool)
    requires depth < 64
    ensures Flags(WithBit(c, depth, val), depth) == Flags(c, depth)[depth := val]
  {
    hide Bit, WithBit;
    forall d | 0 <= d <= depth ensures Flags(WithBit(c, depth, val), depth)[d] == Flags(c, depth)[depth := val][d] {
      WithBitIs(c, depth, val, d);
    }
  }

  const UINT32: nat := 0x1_0000_0000

  type Uint32 = d: nat | d < 0x1_0000_0000

  /** `depth += 1` */
  function Deeper(d: Uint32): Uint32 { if d + 1 == UINT32 then 0 else d + 1 }

  /** `depth -= 1` */
  function Higher(d: Uint32): Uint32 { if d == 0 then UINT32 - 1 else d - 1 }

  class Stream {
    var out: Bytes
    var wantComma: bv64
    var depth: Uint32
    var lastWasKey: bool

    ghost function View(): Writer
      reads this
    {
      Writer(out, Flags(wantComma, depth), lastWasKey)
    }

    constructor ()
      ensures View() == Writer([], [false], false)
    {
      out, wantComma, depth, lastWasKey := [], 0, 0, false;
      new;
      assert Flags(0, 0) == [false];
    }

    method SetComma(val: bool)
      modifies this`wantComma
      ensures var flags := old(Flags(wantComma, depth));
        Flags(wantComma, depth) == if depth < 64 then flags[depth := val] else flags
    {
      hide Bit, WithBit;
      if depth >= MAX_DEPTH { return; }
      FlagsWithBit(wantComma, depth, val);
      wantComma := WithBit(wantComma, depth, val);
    }

    /** `can_write_item`: makes room for one item, or refuses it below the depth limit. */
    method CanWriteItem() returns (ok: bool)
      modifies this`out, this`wantComma, this`lastWasKey
      ensures ok <==> depth < MAX_DEPTH
      ensures !ok ==> View() == old(View())
      ensures ok ==> Item(old(View()), []) == View()
    {
      hide Bit, WithBit;
      if depth >= MAX_DEPTH { return false; }
      if lastWasKey {
        lastWasKey := false;
        assert out + [] == out;
        return true;
      }
      if Bit(wantComma, depth) {
        out := out + [44];
      } else {
        SetComma(true);
        assert out + [] == out;
      }
      return true;
    }

    /** Null, booleans and numbers. */
    method WriteAtom(text: Bytes)
      modifies this`out, this`wantComma, this`lastWasKey
      ensures View() == Apply(old(View()), Atom(text))
    {
      hide Bit;
      var ok := CanWriteItem();
      if ok { out := out + text; }
    }

    method WriteRun(s: Bytes, start: nat, ptr: nat)
      requires start <= ptr <= |s|
      modifies this`out
      ensures out == old(out) + s[start..ptr]
    {
      if ptr > start { out := out + s[start..ptr]; } else { assert out + [] == out; }
    }

    /** `write_json_str`: copies runs of plain bytes and escapes what is between them. A
        C string (`str_len` omitted) ends at its first NUL. */
    method WriteJsonStr(s: Bytes, cString: bool)
      requires cString ==> 0 in s
      modifies this`out
      ensures out == old(out) + Escape(if cString then s[..FirstNul(s)] else s)
    {
      assert s[..|s|] == s;
      WriteRuns(s, cString, if cString then FirstNul(s) else |s|);
    }

    method WriteRuns(s: Bytes, cString: bool, ghost n: nat)
      requires if cString then n < |s| && s[n] == 0 && forall k :: 0 <= k < n ==> s[k] != 0 else n == |s|
      modifies this`out
      ensures out == old(out) + Escape(s[..n])
    {
      var ptr, start := 0, 0;
      ghost var pre := out;
      assert s[..0] == [] && Escape([]) == [] && pre + [] == pre;
      hide Escape, EscapeByte, NeedsEscaping;
      while (if cString then s[ptr] != 0 else ptr < |s|)
        invariant 0 <= start <= ptr <= n
        invariant out == pre + Escape(s[..start])
        invariant forall k :: start <= k < ptr ==> !NeedsEscaping(s[k])
        decreases n - ptr
      {
        if NeedsEscaping(s[ptr]) {
          WriteRun(s, start, ptr);
          out := out + EscapeByte(s[ptr]);
          RunThenEscape(s, start, ptr);
          Regroup(pre, Escape(s[..start]), s[start..ptr], EscapeByte(s[ptr]));
          start := ptr + 1;
        }
        ptr := ptr + 1;
      }
      WriteRun(s, start, ptr);
      LastRun(s, start, ptr);
      Regroup(pre, Escape(s[..start]), s[start..ptr], []);
    }

    /** A string value, or a key (a C string) with its colon. */
    method WriteStr(s: Bytes)
      modifies this`out, this`wantComma, this`lastWasKey
      ensures View() == Apply(old(View()), Atom(Quoted(s)))
    {
      hide Bit, Escape;
      var ok := CanWriteItem();
      if ok {
        ghost var before := out;
        out := out + [QUOTE];
        WriteJsonStr(s, false);
        out := out + [QUOTE];
        assert out == before + Quoted(s);
      }
    }

    method WriteKey(k: Bytes)
      requires 0 in k
      modifies this`out, this`wantComma, this`lastWasKey
      ensures View() == Apply(old(View()), Key(k[..FirstNul(k)]))
    {
      hide Bit, Escape;
      var ok := CanWriteItem();
      if ok {
        ghost var before := out;
        out := out + [QUOTE];
        WriteJsonStr(k, true);
        out := out + [QUOTE];
        out := out + [58];
        assert out == before + (Quoted(k[..FirstNul(k)]) + [58]);
        lastWasKey := true;
      }
    }

    /** `write_list_start` and `write_object_start`: one level deeper, exactly unless the
        depth wraps around. */
    method Start(bracket: Byte)
      modifies this
      ensures depth == Deeper(old(depth))
      ensures View() == Apply(old(View()), Open(bracket)) <==> old(depth) + 1 < UINT32
    {
      hide Bit;
      ghost var w := View();
      var ok := CanWriteItem();
      if ok { out := out + [bracket]; }
      assert View() == Item(w, [bracket]);
      ghost var flags := Flags(wantComma, depth);
      depth := Deeper(depth);
      SetComma(false);
      if depth > 0 {
        assert Flags(wantComma, depth) == flags + [false];
      } else {
        assert |Flags(wantComma, depth)| == 1 && |Apply(w, Open(bracket)).wrote| == UINT32 + 1;
      }
    }

    /** `write_list_end` and `write_object_end`: one level up, exactly unless there was none. */
    method End(bracket: Byte)
      modifies this`depth, this`out
      ensures depth == Higher(old(depth))
      ensures View() == Apply(old(View()), Close(bracket)) <==> old(depth) > 0
    {
      hide Bit;
      ghost var w := View();
      ghost var flags := Flags(wantComma, depth);
      depth := Higher(depth);
      if |flags| > 1 {
        assert Flags(wantComma, depth) == flags[..|flags| - 1];
      } else {
        assert |Flags(wantComma, depth)| == UINT32 && |Apply(w, Close(bracket)).wrote| == 1;
      }
      if depth < MAX_DEPTH { out := out + [bracket]; }
    }
  }

  lemma RunThenEscape(t: Bytes, start: nat, ptr: nat)
    requires start <= ptr < |t| && forall k :: start <= k < ptr ==> !NeedsEscaping(t[k])
    ensures Escape(t[..ptr + 1]) == Escape(t[..start]) + t[start..ptr] + EscapeByte(t[ptr])
  {
    assert t[..ptr + 1] == t[..start] + (t[start..ptr] + [t[ptr]]);
    EscapeConcat(t[..start], t[start..ptr] + [t[ptr]]);
    EscapeConcat(t[start..ptr], [t[ptr]]);
    EscapePlain(t[start..ptr]);
    assert Escape([t[ptr]]) == EscapeByte(t[ptr]) + Escape([]);
  }

  lemma Regroup(a: Bytes, b: Bytes, c: Bytes, d: Bytes)
    ensures a + b + c + d == a + (b + c + d) && a + b + c == a + (b + c)
  {
  }

  lemma LastRun(t: Bytes, start: nat, end: nat)
    requires start <= end <= |t| && forall k :: start <= k < end ==> !NeedsEscaping(t[k])
    ensures Escape(t[..end]) == Escape(t[..start]) + t[start..end]
  {
    assert t[..end] == t[..start] + t[start..end];
    EscapeConcat(t[..start], t[start..end]);
    EscapePlain(t[start..end]);
  }

  /** Keys are C strings. */
  predicate CKeys(v: Value) {
    match v
    case List(items) => ItemsCKeys(items)
    case Object(fields) => FieldsCKeys(fields)
    case _ => true
  }

  predicate ItemsCKeys(vs: Values) { vs.Cons? ==> CKeys(vs.head) && ItemsCKeys(vs.tail) }

  predicate FieldsCKeys(fs: Fields) { fs.Field? ==> 0 !in fs.key && CKeys(fs.value) && FieldsCKeys(fs.rest) }

  lemma CStringPrefix(k: Bytes)
    requires 0 !in k
    ensures (k + [0])[..FirstNul(k + [0])] == k
  {
  }

  /** `sentry__jsonwriter_write_value`: makes exactly the calls of the value. */
  method WriteValue(j: Stream, v: Value)
    requires CKeys(v)
    modifies j
    ensures j.depth == old(j.depth)
    ensures old(j.depth) + Height(v) < UINT32 ==> j.View() == Run(old(j.View()), Calls(v))
    decreases v, 0
  {
    hide Bit;
    ghost var w := j.View();
    match v {
      case List(items) =>
        RunSandwich(w, Open(91), ItemCalls(items), Close(93));
        hide Run;
        j.Start(91);
        WriteItems(j, items);
        j.End(93);
      case Object(fields) =>
        RunSandwich(w, Open(123), FieldCalls(fields), Close(125));
        hide Run;
        j.Start(123);
        WriteFields(j, fields);
        j.End(125);
      case Str(s) =>
        j.WriteStr(s);
        assert Run(w, Calls(v)) == Run(Apply(w, Calls(v)[0]), []);
      case _ =>
        j.WriteAtom(AtomText(v));
        assert Run(w, Calls(v)) == Run(Apply(w, Calls(v)[0]), []);
    }
  }

  /** The loop over the items of a list. */
  method WriteItems(j: Stream, items: Values)
    requires ItemsCKeys(items)
    modifies j
    ensures j.depth == old(j.depth)
    ensures old(j.depth) + ItemsHeight(items) < UINT32 ==> j.View() == Run(old(j.View()), ItemCalls(items))
    decreases items, 1
  {
    hide Bit;
    ghost var w, fits := j.View(), j.depth + ItemsHeight(items) < UINT32;
    var rest := items;
    while rest.Cons?
      invariant j.depth == old(j.depth) && ItemsCKeys(rest)
      invariant fits ==> j.depth + ItemsHeight(rest) < UINT32
      invariant fits ==> Run(j.View(), ItemCalls(rest)) == Run(w, ItemCalls(items))
      invariant rest == items || (items decreases to rest)
      decreases rest
    {
      RunConcat(j.View(), Calls(rest.head), ItemCalls(rest.tail));
      WriteValue(j, rest.head);
      rest := rest.tail;
    }
  }

  /** The loop over the members of an object. */
  method WriteFields(j: Stream, fields: Fields)
    requires FieldsCKeys(fields)
    modifies j
    ensures j.depth == old(j.depth)
    ensures old(j.depth) + FieldsHeight(fields) < UINT32 ==> j.View() == Run(old(j.View()), FieldCalls(fields))
    decreases fields, 1
  {
    hide Bit;
    ghost var w, fits := j.View(), j.depth + FieldsHeight(fields) < UINT32;
    var rest := fields;
    while rest.Field?
      invariant j.depth == old(j.depth) && FieldsCKeys(rest)
      invariant fits ==> j.depth + FieldsHeight(rest) < UINT32
      invariant fits ==> Run(j.View(), FieldCalls(rest)) == Run(w, FieldCalls(fields))
      invariant rest == fields || (fields decreases to rest)
      decreases rest
    {
      FieldStep(j.View(), rest);
      CStringPrefix(rest.key);
      j.WriteKey(rest.key + [0]);
      WriteValue(j, rest.value);
      rest := rest.rest;
    }
  }

  lemma FieldStep(w: Writer, fs: Fields)
    requires w.wrote != [] && fs.Field?
    ensures Run(w, FieldCalls(fs)) == Run(Run(Apply(w, Key(fs.key)), Calls(fs.value)), FieldCalls(fs.rest))
  {
    RunConcat(w, [Key(fs.key)] + Calls(fs.value), FieldCalls(fs.rest));
    RunConcat(w, [Key(fs.key)], Calls(fs.value));
    assert Run(w, [Key(fs.key)]) == Run(Apply(w, Key(fs.key)), []);
  }

  /** `sentry__value_to_json`: the text of a value is the print of its pruned tree. */
  method ToJson(v: Value) returns (text: Bytes)
    requires CKeys(v)
    ensures Height(v) < UINT32 ==> text == Print(Prune(v, 64))
  {
    var j := new Stream();
    WriteValue(j, v);
    WritesPrunedTree(v);
    text := j.out;
  }
}
