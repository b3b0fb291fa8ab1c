/** Values the SDK serializes. A double is known only by the text it is printed as. */
module JsonValue {
  import opened Bytes
  import opened Wrappers

  datatype Value =
    | Null
    | Bool(b: bool)
    | Int(n: int)
    | Real(text: Bytes)
    | Str(s: Bytes)
    | List(items: Values)
    | Object(fields: Fields)

  datatype Values = Nil | Cons(head: Value, tail: Values)

  datatype Fields = NoFields | Field(key: Bytes, value: Value, rest: Fields)
}

/**
  The streaming JSON writer. The class keeps one comma flag per nesting level in a
  64-bit word and drops everything below level 64; its specification is a plain stack
  of flags.
 */
module JsonWriter {
  import opened Bytes
  import opened Wrappers
  import opened JsonValue
  import opened JsonString
  import Decimal

  const MAX_DEPTH: nat := 64

  // ------------------------------------------------------- specification

  /** What a writer has written, whether each open level has an item yet, and whether
      the last thing written was a key. */
  datatype Writer = Writer(out: Bytes, wrote: seq<bool>, key: bool)

  function Level(w: Writer): int { |w.wrote| - 1 }

  /** Write one item: a comma if the level needs one, then the text. */
  function Item(w: Writer, text: Bytes): Writer
    requires w.wrote != []
  {
    if Level(w) >= MAX_DEPTH then w
    else if w.key then Writer(w.out + text, w.wrote, false)
    else if w.wrote[Level(w)] then Writer(w.out + [44] + text, w.wrote, false)
    else Writer(w.out + text, w.wrote[Level(w) := true], false)
  }

  datatype Call =
    | Atom(text: Bytes)
    | Key(k: Bytes)
    | Open(bracket: Byte)
    | Close(bracket: Byte)

  function Apply(w: Writer, c: Call): (w': Writer)
    requires w.wrote != []
    ensures w'.wrote != []
  {
    match c
    case Atom(text) => Item(w, text)
    case Key(k) =>
      if Level(w) >= MAX_DEPTH then w else Item(w, Quoted(k) + [58]).(key := true)
    case Open(b) =>
      var w1 := Item(w, [b]);
      w1.(wrote := w1.wrote + [false])
    case Close(b) =>
      if |w.wrote| == 1 then w
      else
        var w1 := w.(wrote := w.wrote[..|w.wrote| - 1]);
        if Level(w1) >= MAX_DEPTH then w1 else w1.(out := w1.out + [b])
  }

  function Run(w: Writer, cs: seq<Call>): (w': Writer)
    requires w.wrote != []
    ensures w'.wrote != []
    decreases cs
  {
    if cs == [] then w else Run(Apply(w, cs[0]), cs[1..])
  }

  function Quoted(s: Bytes): Bytes { [QUOTE] + Escape(s) + [QUOTE] }

  function AtomText(v: Value): Bytes
    requires !v.List? && !v.Object?
  {
    match v
    case Null => [110, 117, 108, 108]
    case Bool(b) => if b then [116, 114, 117, 101] else [102, 97, 108, 115, 101]
    case Int(n) => Decimal.Print(n)
    case Real(text) => text
    case Str(s) => Quoted(s)
  }

  /** The writer calls a value is serialized with. These are all the well-nested calls from
      one root: see `JsonNesting`. */
  function Calls(v: Value): seq<Call> {
    match v
    case List(items) => [Open(91)] + ItemCalls(items) + [Close(93)]
    case Object(fields) => [Open(123)] + FieldCalls(fields) + [Close(125)]
    case _ => [Atom(AtomText(v))]
  }

  function ItemCalls(vs: Values): seq<Call> {
    match vs
    case Nil => []
    case Cons(v, rest) => Calls(v) + ItemCalls(rest)
  }

  function FieldCalls(fs: Fields): seq<Call> {
    match fs
    case NoFields => []
    case Field(k, v, rest) => [Key(k)] + Calls(v) + FieldCalls(rest)
  }

  // ------------------------------------------------------- canonical print

  function Print(v: Value): Bytes {
    match v
    case List(items) => [91] + PrintItems(items) + [93]
    case Object(fields) => [123] + PrintFields(fields) + [125]
    case _ => AtomText(v)
  }

  function PrintItems(vs: Values): Bytes {
    match vs
    case Nil => []
    case Cons(v, rest) => if rest == Nil then Print(v) else Print(v) + [44] + PrintItems(rest)
  }

  function PrintFields(fs: Fields): Bytes {
    match fs
    case NoFields => []
    case Field(k, v, rest) =>
      var field := Quoted(k) + [58] + Print(v);
      if rest == NoFields then field else field + [44] + PrintFields(rest)
  }

  /** The value without the items that `levels` or more containers enclose. */
  function Prune(v: Value, levels: nat): Value
    decreases v
  {
    match v
    case List(items) => List(if levels <= 1 then Nil else PruneItems(items, levels - 1))
    case Object(fields) => Object(if levels <= 1 then NoFields else PruneFields(fields, levels - 1))
    case _ => v
  }

  function PruneItems(vs: Values, levels: nat): Values
    decreases vs
  {
    match vs
    case Nil => Nil
    case Cons(v, rest) => Cons(Prune(v, levels), PruneItems(rest, levels))
  }

  function PruneFields(fs: Fields, levels: nat): Fields
    decreases fs
  {
    match fs
    case NoFields => NoFields
    case Field(k, v, rest) => Field(k, Prune(v, levels), PruneFields(rest, levels))
  }

  // ------------------------------------------------------- the writer prints the pruned tree

  lemma {:induction false} RunConcat(w: Writer, a: seq<Call>, b: seq<Call>)
    requires w.wrote != []
    ensures Run(w, a + b) == Run(Run(w, a), b)
    decreases a
  {
    if a == [] {
      assert a + b == b;
    } else {
      assert (a + b)[1..] == a[1..] + b;
      RunConcat(Apply(w, a[0]), a[1..], b);
    }
  }

  lemma RunSandwich(w: Writer, x: Call, cs: seq<Call>, y: Call)
    requires w.wrote != []
    ensures Run(w, [x] + cs + [y]) == Apply(Run(Apply(w, x), cs), y)
  {
    RunConcat(w, [x] + cs, [y]);
    RunConcat(w, [x], cs);
    var w1 := Run(Apply(w, x), cs);
    assert Run(w1, [y]) == Run(Apply(w1, y), []);
  }

  /** Below the depth limit nothing happens at all. */
  lemma {:induction false} RunDeep(w: Writer, v: Value)
    requires |w.wrote| > MAX_DEPTH
    ensures Run(w, Calls(v)) == w
    decreases v
  {
    match v
    case List(items) =>
      var w1 := Apply(w, Open(91));
      RunSandwich(w, Open(91), ItemCalls(items), Close(93));
      RunDeepItems(w1, items);
      assert w1.wrote[..|w1.wrote| - 1] == w.wrote;
    case Object(fields) =>
      var w1 := Apply(w, Open(123));
      RunSandwich(w, Open(123), FieldCalls(fields), Close(125));
      RunDeepFields(w1, fields);
      assert w1.wrote[..|w1.wrote| - 1] == w.wrote;
    case _ =>
      assert Run(w, Calls(v)) == Run(Apply(w, Calls(v)[0]), []);
  }

  lemma {:induction false} RunDeepItems(w: Writer, vs: Values)
    requires |w.wrote| > MAX_DEPTH
    ensures Run(w, ItemCalls(vs)) == w
    decreases vs
  {
    match vs
    case Nil =>
    case Cons(v, rest) =>
      RunConcat(w, Calls(v), ItemCalls(rest));
      RunDeep(w, v);
      RunDeepItems(w, rest);
  }

  lemma {:induction false} RunDeepFields(w: Writer, fs: Fields)
    requires |w.wrote| > MAX_DEPTH
    ensures Run(w, FieldCalls(fs)) == w
    decreases fs
  {
    match fs
    case NoFields =>
    case Field(k, v, rest) =>
      RunConcat(w, [Key(k)] + Calls(v), FieldCalls(rest));
      RunConcat(w, [Key(k)], Calls(v));
      assert Run(w, [Key(k)]) == Run(Apply(w, Key(k)), []);
      RunDeep(w, v);
      RunDeepFields(w, rest);
  }

  function Left(w: Writer): nat
    requires 0 < |w.wrote| <= MAX_DEPTH
  {
    MAX_DEPTH - Level(w)
  }

  /** A whole value is one item: its calls write exactly the print of what is left of it
      above the depth limit. */
  lemma {:induction false} RunValue(w: Writer, v: Value)
    requires 0 < |w.wrote| <= MAX_DEPTH
    ensures Run(w, Calls(v)) == Item(w, Print(Prune(v, Left(w))))
    decreases v, 0
  {
    match v
    case List(items) =>
      RunSandwich(w, Open(91), ItemCalls(items), Close(93));
      RunList(w, items);
    case Object(fields) =>
      RunSandwich(w, Open(123), FieldCalls(fields), Close(125));
      RunObject(w, fields);
    case _ =>
      assert Run(w, Calls(v)) == Run(Apply(w, Calls(v)[0]), []);
  }

  lemma {:induction false} RunList(w: Writer, items: Values)
    requires 0 < |w.wrote| <= MAX_DEPTH
    ensures Apply(Run(Apply(w, Open(91)), ItemCalls(items)), Close(93)) == Item(w, Print(Prune(List(items), Left(w))))
    decreases items, 1
  {
    var w1 := Apply(w, Open(91));
    CloseEmpty(w, 91, 93);
    if Left(w) == 1 {
      RunDeepItems(w1, items);
    } else {
      RunItems(w1, items);
      CloseFull(w, 91, PrintItems(PruneItems(items, Left(w) - 1)), 93);
    }
  }

  lemma {:induction false} RunObject(w: Writer, fields: Fields)
    requires 0 < |w.wrote| <= MAX_DEPTH
    ensures Apply(Run(Apply(w, Open(123)), FieldCalls(fields)), Close(125))
         == Item(w, Print(Prune(Object(fields), Left(w))))
    decreases fields, 1
  {
    var w1 := Apply(w, Open(123));
    CloseEmpty(w, 123, 125);
    if Left(w) == 1 {
      RunDeepFields(w1, fields);
    } else {
      RunFields(w1, fields);
      CloseFull(w, 123, PrintFields(PruneFields(fields, Left(w) - 1)), 125);
    }
  }

  lemma {:induction false} RunItems(w: Writer, vs: Values)
    requires 0 < |w.wrote| <= MAX_DEPTH && !w.key
    ensures Run(w, ItemCalls(vs)) == if vs == Nil then w else Item(w, PrintItems(PruneItems(vs, Left(w))))
    decreases vs, 0
  {
    match vs
    case Nil =>
    case Cons(v, rest) =>
      var p := Print(Prune(v, Left(w)));
      RunConcat(w, Calls(v), ItemCalls(rest));
      RunValue(w, v);
      RunItems(Item(w, p), rest);
      if rest != Nil { TwoItems(w, p, PrintItems(PruneItems(rest, Left(w)))); }
  }

  lemma {:induction false} RunFields(w: Writer, fs: Fields)
    requires 0 < |w.wrote| <= MAX_DEPTH && !w.key
    ensures Run(w, FieldCalls(fs)) == if fs == NoFields then w else Item(w, PrintFields(PruneFields(fs, Left(w))))
    decreases fs, 0
  {
    match fs
    case NoFields =>
    case Field(k, v, rest) =>
      var p := Quoted(k) + [58] + Print(Prune(v, Left(w)));
      RunConcat(w, [Key(k)] + Calls(v), FieldCalls(rest));
      RunField(w, k, v);
      RunFields(Item(w, p), rest);
      hide Run, Quoted, Calls;
      if rest != NoFields { TwoItems(w, p, PrintFields(PruneFields(rest, Left(w)))); }
  }

  lemma {:induction false} RunField(w: Writer, k: Bytes, v: Value)
    requires 0 < |w.wrote| <= MAX_DEPTH && !w.key
    ensures Run(w, [Key(k)] + Calls(v)) == Item(w, Quoted(k) + [58] + Print(Prune(v, Left(w))))
    decreases v, 1
  {
    var w1 := Apply(w, Key(k));
    RunConcat(w, [Key(k)], Calls(v));
    assert Run(w, [Key(k)]) == Run(w1, []);
    RunValue(w1, v);
    KeyThenValue(w, k, Print(Prune(v, Left(w))));
  }

  lemma KeyThenValue(w: Writer, k: Bytes, p: Bytes)
    requires 0 < |w.wrote| <= MAX_DEPTH
    ensures Item(Apply(w, Key(k)), p) == Item(w, Quoted(k) + [58] + p)
  {
    var q := Quoted(k) + [58];
    assert w.out + q + p == w.out + (q + p);
    assert w.out + [44] + q + p == w.out + [44] + (q + p);
  }

  lemma TwoItems(w: Writer, a: Bytes, b: Bytes)
    requires 0 < |w.wrote| <= MAX_DEPTH && !w.key
    ensures Item(Item(w, a), b) == Item(w, a + [44] + b)
  {
    assert w.out + a + [44] + b == w.out + (a + [44] + b);
    assert w.out + [44] + a + [44] + b == w.out + [44] + (a + [44] + b);
  }

  /** Opening a container, writing `body` inside it and closing it is one item. */
  lemma CloseFull(w: Writer, open_: Byte, body: Bytes, close: Byte)
    requires 0 < |w.wrote| < MAX_DEPTH
    ensures Apply(Item(Apply(w, Open(open_)), body), Close(close)) == Item(w, [open_] + body + [close])
  {
    var w1 := Apply(w, Open(open_));
    var w2 := Item(w, [open_]);
    assert Item(w1, body) == Writer(w2.out + body, w2.wrote + [true], false);
    assert (w2.wrote + [true])[..|w.wrote|] == w2.wrote;
    assert w.out + [open_] + body + [close] == w.out + ([open_] + body + [close]);
    assert w.out + [44] + [open_] + body + [close] == w.out + [44] + ([open_] + body + [close]);
  }

  lemma CloseEmpty(w: Writer, open_: Byte, close: Byte)
    requires 0 < |w.wrote| <= MAX_DEPTH
    ensures Apply(Apply(w, Open(open_)), Close(close)) == Item(w, [open_] + [] + [close])
  {
    var w2 := Item(w, [open_]);
    assert (w2.wrote + [false])[..|w.wrote|] == w2.wrote;
    assert w.out + [open_] + [close] == w.out + ([open_] + [close]);
    assert w.out + [44] + [open_] + [close] == w.out + [44] + ([open_] + [close]);
  }

  /** Main result: from an empty writer, any well-nested sequence of calls, however
      deep, writes exactly the canonical print of its tree without the items that 64 or
      more containers enclose. */
  lemma WritesPrunedTree(v: Value)
    ensures Run(Writer([], [false], false), Calls(v)) == Writer(Print(Prune(v, 64)), [true], false)
  {
    RunValue(Writer([], [false], false), v);
  }

  // ------------------------------------------------------- what pruning leaves

  /** How deep containers nest. */
  function Height(v: Value): nat {
    match v
    case List(items) => 1 + ItemsHeight(items)
    case Object(fields) => 1 + FieldsHeight(fields)
    case _ => 0
  }

  function ItemsHeight(vs: Values): nat {
    match vs
    case Nil => 0
    case Cons(v, rest) => if Height(v) > ItemsHeight(rest) then Height(v) else ItemsHeight(rest)
  }

  function FieldsHeight(fs: Fields): nat {
    match fs
    case NoFields => 0
    case Field(_, v, rest) => if Height(v) > FieldsHeight(rest) then Height(v) else FieldsHeight(rest)
  }

  /** The number of values on the longest path from the root to a leaf. */
  function Depth(v: Value): nat {
    match v
    case List(items) => 1 + ItemsDepth(items)
    case Object(fields) => 1 + FieldsDepth(fields)
    case _ => 1
  }

  function ItemsDepth(vs: Values): nat {
    match vs
    case Nil => 0
    case Cons(v, rest) => if Depth(v) > ItemsDepth(rest) then Depth(v) else ItemsDepth(rest)
  }

  function FieldsDepth(fs: Fields): nat {
    match fs
    case NoFields => 0
    case Field(_, v, rest) => if Depth(v) > FieldsDepth(rest) then Depth(v) else FieldsDepth(rest)
  }

  /** Pruning leaves at most `levels` nested containers, and changes nothing exactly
      when no path is longer than that. */
  lemma {:induction false} PruneDepth(v: Value, levels: nat)
    requires levels > 0
    ensures Height(Prune(v, levels)) <= levels
    ensures Prune(v, levels) == v <==> Depth(v) <= levels
    decreases v
  {
    match v
    case List(items) =>
      if levels > 1 { PruneItemsDepth(items, levels - 1); } else { assert items == Nil <==> ItemsDepth(items) == 0; }
    case Object(fields) =>
      if levels > 1 { PruneFieldsDepth(fields, levels - 1); }
      else { assert fields == NoFields <==> FieldsDepth(fields) == 0; }
    case _ =>
  }

  lemma {:induction false} PruneItemsDepth(vs: Values, levels: nat)
    requires levels > 0
    ensures ItemsHeight(PruneItems(vs, levels)) <= levels
    ensures PruneItems(vs, levels) == vs <==> ItemsDepth(vs) <= levels
    decreases vs
  {
    match vs
    case Nil =>
    case Cons(v, rest) => PruneDepth(v, levels); PruneItemsDepth(rest, levels);
  }

  lemma {:induction false} PruneFieldsDepth(fs: Fields, levels: nat)
    requires levels > 0
    ensures FieldsHeight(PruneFields(fs, levels)) <= levels
    ensures PruneFields(fs, levels) == fs <==> FieldsDepth(fs) <= levels
    decreases fs
  {
    match fs
    case NoFields =>
    case Field(_, v, rest) => PruneDepth(v, levels); PruneFieldsDepth(rest, levels);
  }
}
