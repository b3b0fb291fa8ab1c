/** Building a value from the preorder token array of the tokenizer. */
module JsonTokens {
  import opened Bytes
  import opened Wrappers
  import opened JsonValue
  import opened JsonString
  import opened JsonWriter
  import Decimal

  /** A token, with the text it spans; containers carry their number of children. */
  datatype Token = Prim(text: Bytes) | Text(raw: Bytes) | Arr(size: nat) | Obj(size: nat) | Undefined

  // ------------------------------------------------------- specification

  /** `parse_number`: an integer if the whole text is one that fits, else a double. */
  function ParseNumber(text: Bytes): Value {
    var n := Decimal.Scan(text);
    if n.end != |text| then Real(text)
    else if text != [] && text[0] == 45 then
      if n.magnitude <= Decimal.I64 then Int(0 - n.magnitude) else Real(text)
    else if n.magnitude < Decimal.U64 then Int(Decimal.Strtoull(text)) else Real(text)
  }

  function ParsePrimitive(text: Bytes): Value {
    if text == [] then ParseNumber(text)
    else if text[0] == 116 then Bool(true)
    else if text[0] == 102 then Bool(false)
    else if text[0] == 110 then Null
    else ParseNumber(text)
  }

  function BeforeNul(s: Bytes): Bytes { if 0 in s then s[..FirstNul(s)] else s }

  /** What the decoder sees of a raw string: it stops at a NUL. */
  function DecodeRaw(raw: Bytes): Option<Bytes> { Decode(BeforeNul(raw)) }

  /** `sentry_value_set_by_key`: replace in place, or append. */
  function SetKey(fs: Fields, k: Bytes, v: Value): Fields {
    match fs
    case NoFields => Field(k, v, NoFields)
    case Field(k', v', rest) => if k' == k then Field(k, v, rest) else Field(k', v', SetKey(rest, k, v))
  }

  function Lookup(fs: Fields, k: Bytes): Option<Value> {
    match fs
    case NoFields => None
    case Field(k', v, rest) => if k' == k then Some(v) else Lookup(rest, k)
  }

  function KeysOf(fs: Fields): seq<Bytes> { if fs.NoFields? then [] else [fs.key] + KeysOf(fs.rest) }

  /** A later member of the same name replaces the value, and a new one comes last. */
  lemma {:induction false} SetKeyIs(fs: Fields, k: Bytes, v: Value)
    ensures forall k' :: Lookup(SetKey(fs, k, v), k') == if k' == k then Some(v) else Lookup(fs, k')
    ensures KeysOf(SetKey(fs, k, v)) == if k in KeysOf(fs) then KeysOf(fs) else KeysOf(fs) + [k]
  {
    if fs.Field? { SetKeyIs(fs.rest, k, v); }
  }

  /** The value at the start of `ts` and the number of tokens it takes. */
  function Parse(ts: seq<Token>, depth: nat): (r: Option<(Value, nat)>)
    ensures r.Some? ==> 0 < r.value.1 <= |ts|
    decreases |ts|, 0, 0
  {
    if ts == [] then None
    else
      match ts[0]
      case Prim(text) => Some((ParsePrimitive(text), 1))
      case Text(raw) => Some((if DecodeRaw(raw).Some? then Str(DecodeRaw(raw).value) else Null, 1))
      case Undefined => Some((Null, 1))
      case Arr(size) =>
        if depth >= MAX_DEPTH then None
        else
          var r := ParseItems(ts[1..], depth + 1, size);
          if r.None? then None else Some((List(r.value.0), 1 + r.value.1))
      case Obj(size) =>
        if depth >= MAX_DEPTH then None
        else
          var r := ParseFields(ts[1..], depth + 1, size, NoFields);
          if r.None? then None else Some((Object(r.value.0), 1 + r.value.1))
  }

  function ParseItems(ts: seq<Token>, depth: nat, n: nat): (r: Option<(Values, nat)>)
    ensures r.Some? ==> r.value.1 <= |ts|
    decreases |ts|, 1, n
  {
    if n == 0 then Some((Nil, 0))
    else
      var c := Parse(ts, depth);
      if c.None? then None
      else
        var r := ParseItems(ts[c.value.1..], depth, n - 1);
        if r.None? then None else Some((Cons(c.value.0, r.value.0), c.value.1 + r.value.1))
  }

  function ParseFields(ts: seq<Token>, depth: nat, n: nat, acc: Fields): (r: Option<(Fields, nat)>)
    ensures r.Some? ==> r.value.1 <= |ts|
    decreases |ts|, 1, n
  {
    if n == 0 then Some((acc, 0))
    else if ts == [] || !ts[0].Text? then None
    else
      var c := Parse(ts[1..], depth);
      if c.None? then None
      else
        Advance(1 + c.value.1, ParseFields(ts[1 + c.value.1..], depth, n - 1, Keyed(acc, ts[0].raw, c.value.0)))
  }

  /** The object after one more member; a key that does not decode drops its value. */
  function Keyed(acc: Fields, raw: Bytes, v: Value): Fields {
    var k := DecodeRaw(raw);
    if k.Some? then SetKey(acc, BeforeNul(k.value), v) else acc
  }

  function Advance(n: nat, r: Option<(Fields, nat)>): Option<(Fields, nat)> {
    if r.None? then None else Some((r.value.0, n + r.value.1))
  }

  lemma ParseFieldsStep(ts: seq<Token>, depth: nat, n: nat, acc: Fields)
    requires n > 0 && ts != [] && ts[0].Text?
    ensures var c := Parse(ts[1..], depth);
      ParseFields(ts, depth, n, acc)
      == if c.None? then None
         else Advance(1 + c.value.1, ParseFields(ts[1 + c.value.1..], depth, n - 1, Keyed(acc, ts[0].raw, c.value.0)))
  {
    hide Keyed, Parse;
  }

  lemma ParseStep(ts: seq<Token>, depth: nat)
    requires ts != []
    ensures Parse(ts, depth)
      == match ts[0]
         case Prim(text) => Some((ParsePrimitive(text), 1))
         case Text(raw) => Some((if DecodeRaw(raw).Some? then Str(DecodeRaw(raw).value) else Null, 1))
         case Undefined => Some((Null, 1))
         case Arr(size) =>
           var r := ParseItems(ts[1..], depth + 1, size);
           if depth >= 64 || r.None? then None else Some((List(r.value.0), 1 + r.value.1))
         case Obj(size) =>
           var r := ParseFields(ts[1..], depth + 1, size, NoFields);
           if depth >= 64 || r.None? then None else Some((Object(r.value.0), 1 + r.value.1))
  {
    hide ParseItems, ParseFields, ParsePrimitive, DecodeRaw;
  }

  /** `sentry__value_from_json` after tokenizing: all tokens must be used up. */
  function FromTokens(ts: seq<Token>): Value {
    var r := Parse(ts, 0);
    if r.Some? && r.value.1 == |ts| then r.value.0 else Null
  }

  // ------------------------------------------------------- the tokens of a value

  function Tokens(v: Value): seq<Token> {
    match v
    case Str(s) => [Text(Escape(s))]
    case List(items) => [Arr(Length(items))] + ItemTokens(items)
    case Object(fields) => [Obj(Count(fields))] + FieldTokens(fields)
    case _ => [Prim(AtomText(v))]
  }

  function ItemTokens(vs: Values): seq<Token> {
    if vs.Nil? then [] else Tokens(vs.head) + ItemTokens(vs.tail)
  }

  function FieldTokens(fs: Fields): seq<Token> {
    if fs.NoFields? then [] else [Text(Escape(fs.key))] + Tokens(fs.value) + FieldTokens(fs.rest)
  }

  function Length(vs: Values): nat { if vs.Nil? then 0 else 1 + Length(vs.tail) }

  function Count(fs: Fields): nat { if fs.NoFields? then 0 else 1 + Count(fs.rest) }

  function HasKey(fs: Fields, k: Bytes): bool { fs.Field? && (fs.key == k || HasKey(fs.rest, k)) }

  /** Values the SDK can hold: 64-bit integers, text that reads as a double, and objects
      whose keys are distinct C strings. */
  predicate Proper(v: Value) {
    match v
    case Int(n) => -Decimal.I64 <= n < Decimal.U64
    case Real(text) => ParsePrimitive(text) == v
    case List(items) => ProperItems(items)
    case Object(fields) => ProperFields(fields)
    case _ => true
  }

  predicate ProperItems(vs: Values) { vs.Cons? ==> Proper(vs.head) && ProperItems(vs.tail) }

  predicate ProperFields(fs: Fields) {
    fs.Field? ==> 0 !in fs.key && !HasKey(fs.rest, fs.key) && Proper(fs.value) && ProperFields(fs.rest)
  }

  // ------------------------------------------------------- round trip

  lemma ParseScanned(text: Bytes, neg: bool, m: nat)
    requires text != [] && Decimal.Scan(text) == Decimal.Number(neg, m, |text|)
    requires if neg then text[0] == 45 && m <= Decimal.I64 else Decimal.IsDigit(text[0]) && m < Decimal.U64
    ensures ParsePrimitive(text) == Int(if neg then 0 - m else m)
  {
    hide Decimal.Scan;
  }

  lemma ParseInt(n: int)
    requires -Decimal.I64 <= n < Decimal.U64
    ensures ParsePrimitive(Decimal.Print(n)) == Int(n)
  {
    var text := Decimal.Print(n);
    hide Decimal.Scan, Decimal.Digits, ParsePrimitive;
    assert text + [] == text;
    if n < 0 {
      Decimal.ScanNegative(-n, []);
      ParseScanned(text, true, -n);
    } else {
      Decimal.ScanDigits(n, []);
      ParseScanned(text, false, n);
    }
  }

  /** A number with a fraction or an exponent is a double, and so is an integer beyond the
      64-bit ranges. */
  lemma OthersAreDoubles(text: Bytes, k: nat)
    requires k < |text| && (text[k] == '.' as int || text[k] == 'e' as int || text[k] == 'E' as int)
    ensures ParseNumber(text) == Real(text)
  {
    if Decimal.Scan(text).end == |text| { Decimal.ScannedBytes(text, k); }
    hide Decimal.Scan;
  }

  lemma BigIntegersAreDoubles(n: int)
    requires n < -Decimal.I64 || n >= Decimal.U64
    ensures ParseNumber(Decimal.Print(n)) == Real(Decimal.Print(n))
  {
    var text := Decimal.Print(n);
    hide Decimal.Scan, Decimal.Digits, ParseNumber;
    assert text + [] == text;
    if n < 0 {
      Decimal.ScanNegative(-n, []);
      TooBig(text, true, -n);
    } else {
      Decimal.ScanDigits(n, []);
      TooBig(text, false, n);
    }
  }

  lemma TooBig(text: Bytes, neg: bool, m: nat)
    requires text != [] && Decimal.Scan(text) == Decimal.Number(neg, m, |text|)
    requires if neg then text[0] == 45 && m > Decimal.I64 else Decimal.IsDigit(text[0]) && m >= Decimal.U64
    ensures ParseNumber(text) == Real(text)
  {
    hide Decimal.Scan;
  }

  lemma ParseAtom(v: Value)
    requires Proper(v) && (v.Null? || v.Bool? || v.Int? || v.Real?)
    ensures ParsePrimitive(AtomText(v)) == v
  {
    hide ParseNumber;
    if v.Int? { ParseInt(v.n); }
  }

  lemma ParseText(s: Bytes)
    ensures DecodeRaw(Escape(s)) == Some(s)
  {
    forall k | 0 <= k < |Escape(s)| ensures Escape(s)[k] != 0 { EscapeIsClean(s, k); }
    DecodeEscape(s);
  }

  /** The fields of `acc` followed by those of `fs`. */
  function Append(acc: Fields, fs: Fields): Fields {
    if acc.NoFields? then fs else Field(acc.key, acc.value, Append(acc.rest, fs))
  }

  lemma {:induction false} SetNewKey(acc: Fields, k: Bytes, v: Value, rest: Fields)
    requires !HasKey(acc, k)
    ensures Append(SetKey(acc, k, v), rest) == Append(acc, Field(k, v, rest))
    ensures forall k' :: HasKey(SetKey(acc, k, v), k') ==> k' == k || HasKey(acc, k')
  {
    if acc.Field? { SetNewKey(acc.rest, k, v, rest); }
  }

  lemma {:induction false} AppendNothing(acc: Fields)
    ensures Append(acc, NoFields) == acc
  {
    if acc.Field? { AppendNothing(acc.rest); }
  }

  /** On the tokens of a value, followed by anything, the parser rebuilds the value and
      consumes exactly its tokens, if and only if containers stay within 64 levels. */
  lemma {:induction false} ParseTokens(v: Value, suffix: seq<Token>, depth: nat)
    requires Proper(v) && depth <= MAX_DEPTH
    ensures Parse(Tokens(v) + suffix, depth)
         == if Height(v) + depth <= MAX_DEPTH then Some((v, |Tokens(v)|)) else None
    decreases v
  {
    hide ParseItems, ParseFields, ParsePrimitive, DecodeRaw, Escape, ItemTokens, FieldTokens, AtomText;
    var ts := Tokens(v) + suffix;
    match v
    case Str(s) => ParseText(s);
    case List(items) =>
      assert ts[1..] == ItemTokens(items) + suffix;
      if depth < MAX_DEPTH { ParseItemTokens(items, suffix, depth + 1); }
    case Object(fields) =>
      assert ts[1..] == FieldTokens(fields) + suffix;
      if depth < MAX_DEPTH { ParseFieldTokens(fields, suffix, depth + 1, NoFields); }
    case _ =>
      ParseAtom(v);
      assert ts[0] == Prim(AtomText(v));
  }

  lemma {:induction false} ParseItemTokens(vs: Values, suffix: seq<Token>, depth: nat)
    requires ProperItems(vs) && depth <= MAX_DEPTH
    ensures ParseItems(ItemTokens(vs) + suffix, depth, Length(vs))
         == if ItemsHeight(vs) + depth <= MAX_DEPTH then Some((vs, |ItemTokens(vs)|)) else None
    decreases vs
  {
    hide *;
    if vs.Nil? {
      ParseNoItems(suffix, depth);
    } else {
      var rest := ItemTokens(vs.tail) + suffix;
      ItemParts(vs);
      ParseTokens(vs.head, rest, depth);
      ParseItemTokens(vs.tail, suffix, depth);
      ParseOneItem(vs, suffix, depth);
      CombineItems(depth, vs, |Tokens(vs.head)|, |ItemTokens(vs.tail)|,
        Parse(Tokens(vs.head) + rest, depth), ParseItems(rest, depth, Length(vs.tail)));
    }
  }

  lemma ParseNoItems(suffix: seq<Token>, depth: nat)
    requires depth <= MAX_DEPTH
    ensures ParseItems(ItemTokens(Nil) + suffix, depth, Length(Nil))
         == if ItemsHeight(Nil) + depth <= MAX_DEPTH then Some((Nil, |ItemTokens(Nil)|)) else None
  {
  }

  lemma ItemParts(vs: Values)
    requires vs.Cons? && ProperItems(vs)
    ensures Proper(vs.head) && ProperItems(vs.tail) && Length(vs) == 1 + Length(vs.tail)
    ensures |ItemTokens(vs)| == |Tokens(vs.head)| + |ItemTokens(vs.tail)|
  {
    hide Proper, Tokens;
  }

  /** The result of a list, from those of its first item and of the others. */
  function Consed(c: Option<(Value, nat)>, r: Option<(Values, nat)>): Option<(Values, nat)> {
    if c.None? || r.None? then None else Some((Cons(c.value.0, r.value.0), c.value.1 + r.value.1))
  }

  lemma ParseOneItem(vs: Values, suffix: seq<Token>, depth: nat)
    requires vs.Cons?
    ensures
      var rest := ItemTokens(vs.tail) + suffix;
      var c := Parse(Tokens(vs.head) + rest, depth);
      c == None || c == Some((vs.head, |Tokens(vs.head)|)) ==>
      ParseItems(ItemTokens(vs) + suffix, depth, Length(vs)) == Consed(c, ParseItems(rest, depth, Length(vs.tail)))
  {
    Split(Tokens(vs.head), ItemTokens(vs.tail), suffix);
    hide Tokens, Parse;
  }

  lemma CombineItems(depth: nat, vs: Values, n: nat, m: nat, c: Option<(Value, nat)>, r: Option<(Values, nat)>)
    requires vs.Cons?
    requires c == if Height(vs.head) + depth <= MAX_DEPTH then Some((vs.head, n)) else None
    requires r == if ItemsHeight(vs.tail) + depth <= MAX_DEPTH then Some((vs.tail, m)) else None
    ensures Consed(c, r) == if ItemsHeight(vs) + depth <= MAX_DEPTH then Some((vs, n + m)) else None
  {
    hide Height;
  }

  lemma {:induction false} ParseFieldTokens(fs: Fields, suffix: seq<Token>, depth: nat, acc: Fields)
    requires ProperFields(fs) && depth <= MAX_DEPTH && Disjoint(fs, acc)
    ensures ParseFields(FieldTokens(fs) + suffix, depth, Count(fs), acc)
         == if FieldsHeight(fs) + depth <= MAX_DEPTH then Some((Append(acc, fs), |FieldTokens(fs)|)) else None
    decreases fs
  {
    hide *;
    if fs.NoFields? {
      ParseNoFields(suffix, depth, acc);
    } else {
      var acc' := SetKey(acc, fs.key, fs.value);
      var rest := FieldTokens(fs.rest) + suffix;
      DisjointStep(fs, acc);
      FieldParts(fs);
      ParseTokens(fs.value, rest, depth);
      ParseFieldTokens(fs.rest, suffix, depth, acc');
      ParseOneField(fs, suffix, depth, acc);
      CombineHeights(depth, Height(fs.value), FieldsHeight(fs.rest), |Tokens(fs.value)|, |FieldTokens(fs.rest)|,
        fs.value, Append(acc, fs), Parse(Tokens(fs.value) + rest, depth),
        ParseFields(rest, depth, Count(fs.rest), acc'));
    }
  }

  lemma ParseNoFields(suffix: seq<Token>, depth: nat, acc: Fields)
    requires depth <= MAX_DEPTH
    ensures ParseFields(FieldTokens(NoFields) + suffix, depth, Count(NoFields), acc)
         == if FieldsHeight(NoFields) + depth <= MAX_DEPTH then Some((Append(acc, NoFields), |FieldTokens(NoFields)|))
            else None
  {
    AppendNothing(acc);
    assert FieldTokens(NoFields) + suffix == suffix;
    ParseFieldsStops(suffix, depth, 0, acc);
    hide ParseFields;
  }

  lemma FieldParts(fs: Fields)
    requires fs.Field? && ProperFields(fs)
    ensures 0 !in fs.key && Proper(fs.value) && ProperFields(fs.rest)
    ensures FieldsHeight(fs)
         == if Height(fs.value) > FieldsHeight(fs.rest) then Height(fs.value) else FieldsHeight(fs.rest)
    ensures |FieldTokens(fs)| == 1 + |Tokens(fs.value)| + |FieldTokens(fs.rest)|
  {
    hide Height, Tokens, Proper;
  }

  /** The first member, by the tokenizer's order: a key, its value, then the others. */
  lemma ParseOneField(fs: Fields, suffix: seq<Token>, depth: nat, acc: Fields)
    requires fs.Field? && 0 !in fs.key
    ensures
      var rest := FieldTokens(fs.rest) + suffix;
      var c := Parse(Tokens(fs.value) + rest, depth);
      c == None || c == Some((fs.value, |Tokens(fs.value)|)) ==>
      ParseFields(FieldTokens(fs) + suffix, depth, Count(fs), acc)
      == if c.None? then None
         else Advance(1 + |Tokens(fs.value)|, ParseFields(rest, depth, Count(fs.rest), SetKey(acc, fs.key, fs.value)))
  {
    hide *;
    CountStep(fs);
    FieldTokensSplit(fs, suffix);
    ParseFieldsStep(FieldTokens(fs) + suffix, depth, Count(fs), acc);
    KeyedNew(acc, fs.key, fs.value);
  }

  lemma CountStep(fs: Fields)
    requires fs.Field?
    ensures Count(fs) == 1 + Count(fs.rest)
  {
  }

  lemma CombineHeights(depth: nat, h: nat, hs: nat, n: nat, m: nat, v: Value, fs: Fields,
                       c: Option<(Value, nat)>, r: Option<(Fields, nat)>)
    requires c == if h + depth <= MAX_DEPTH then Some((v, n)) else None
    requires r == if hs + depth <= MAX_DEPTH then Some((fs, m)) else None
    ensures (if c.None? then None else Advance(1 + n, r))
         == if (if h > hs then h else hs) + depth <= MAX_DEPTH then Some((fs, 1 + n + m)) else None
  {
  }

  ghost predicate Disjoint(fs: Fields, acc: Fields) { forall k :: HasKey(fs, k) ==> !HasKey(acc, k) }

  lemma DisjointStep(fs: Fields, acc: Fields)
    requires fs.Field? && ProperFields(fs) && Disjoint(fs, acc)
    ensures Disjoint(fs.rest, SetKey(acc, fs.key, fs.value))
    ensures Append(SetKey(acc, fs.key, fs.value), fs.rest) == Append(acc, fs)
  {
    assert HasKey(fs, fs.key);
    SetNewKey(acc, fs.key, fs.value, fs.rest);
  }

  lemma FieldTokensSplit(fs: Fields, suffix: seq<Token>)
    requires fs.Field?
    ensures var ts, rest := FieldTokens(fs) + suffix, FieldTokens(fs.rest) + suffix;
      && ts != [] && ts[0] == Text(Escape(fs.key)) && ts[1..] == Tokens(fs.value) + rest
      && ts[1 + |Tokens(fs.value)|..] == rest
      && |FieldTokens(fs)| == 1 + |Tokens(fs.value)| + |FieldTokens(fs.rest)|
  {
    hide Tokens, Escape;
    var x, a := [Text(Escape(fs.key))], Tokens(fs.value);
    Split(x, a, FieldTokens(fs.rest));
    Split(x, a + FieldTokens(fs.rest), suffix);
    Split(a, FieldTokens(fs.rest), suffix);
    Split(x + a, FieldTokens(fs.rest), suffix);
  }

  lemma Split<T>(a: seq<T>, b: seq<T>, c: seq<T>)
    ensures a + b + c == a + (b + c)
    ensures (a + b + c)[|a|..] == b + c
    ensures a != [] ==> (a + b + c) != [] && (a + b + c)[0] == a[0]
  {
  }

  lemma KeyedNew(acc: Fields, k: Bytes, v: Value)
    requires 0 !in k
    ensures Keyed(acc, Escape(k), v) == SetKey(acc, k, v)
  {
    ParseText(k);
    hide Escape, DecodeRaw, SetKey;
  }

  /** Main result: the parser accepts exactly the values with at most 64 nested
      containers, and gives them back. */
  lemma FromTokensRoundTrip(v: Value)
    requires Proper(v)
    ensures FromTokens(Tokens(v)) == if Height(v) <= 64 then v else Null
  {
    ParseTokens(v, [], 0);
    assert Tokens(v) + [] == Tokens(v);
  }

  lemma {:induction false} PruneProper(v: Value, levels: nat)
    requires Proper(v)
    ensures Proper(Prune(v, levels))
    decreases v
  {
    match v
    case List(items) => if levels > 1 { PruneProperItems(items, levels - 1); }
    case Object(fields) => if levels > 1 { PruneProperFields(fields, levels - 1); }
    case _ =>
  }

  lemma {:induction false} PruneProperItems(vs: Values, levels: nat)
    requires ProperItems(vs)
    ensures ProperItems(PruneItems(vs, levels))
    decreases vs
  {
    if vs.Cons? { PruneProper(vs.head, levels); PruneProperItems(vs.tail, levels); }
  }

  lemma {:induction false} PruneProperFields(fs: Fields, levels: nat)
    requires ProperFields(fs)
    ensures ProperFields(PruneFields(fs, levels))
    ensures forall k :: HasKey(PruneFields(fs, levels), k) <==> HasKey(fs, k)
    decreases fs
  {
    if fs.Field? { PruneProper(fs.value, levels); PruneProperFields(fs.rest, levels); }
  }

  /** The parser's limit matches the writer's: whatever the writer emits of a value, the
      parser reads back. */
  lemma WriterOutputIsReadable(v: Value)
    requires Proper(v)
    ensures FromTokens(Tokens(Prune(v, 64))) == Prune(v, 64)
  {
    PruneProper(v, 64);
    PruneDepth(v, 64);
    FromTokensRoundTrip(Prune(v, 64));
  }

  // ------------------------------------------------------- the recursive consumer

  /** `tokens_to_value` on the tokens from `at` on: a cursor that pops tokens, and loops
      over the children of a container. */
  method TokensToValue(ts: seq<Token>, at: nat, depth: nat) returns (r: Option<(Value, nat)>)
    requires at <= |ts|
    ensures r == Parse(ts[at..], depth)
    decreases |ts| - at, 0
  {
    if at == |ts| {
      assert ts[at..] == [];
      return None;
    }
    assert ts[at..][0] == ts[at] && ts[at..][1..] == ts[at + 1..];
    ParseStep(ts[at..], depth);
    hide *;
    match ts[at] {
      case Prim(text) => return Some((ParsePrimitive(text), 1));
      case Text(raw) => return Some((if DecodeRaw(raw).Some? then Str(DecodeRaw(raw).value) else Null, 1));
      case Undefined => return Some((Null, 1));
      case Arr(size) =>
        if depth >= 64 { return None; }
        var items := ReadItems(ts, at + 1, depth + 1, size);
        return if items.None? then None else Some((List(items.value.0), 1 + items.value.1));
      case Obj(size) =>
        if depth >= 64 { return None; }
        var fields := ReadFields(ts, at + 1, depth + 1, size);
        return if fields.None? then None else Some((Object(fields.value.0), 1 + fields.value.1));
    }
  }

  /** The loop over the children of an array. */
  method ReadItems(ts: seq<Token>, at: nat, depth: nat, size: nat) returns (r: Option<(Values, nat)>)
    requires at <= |ts|
    ensures r == ParseItems(ts[at..], depth, size)
    decreases |ts| - at, 1
  {
    hide Parse;
    var items: seq<Value>, offset: nat, i: nat := [], 0, 0;
    assert ts[at + 0..] == ts[at..];
    while i < size
      invariant i <= size && at + offset <= |ts|
      invariant ParseItems(ts[at..], depth, size)
             == Prepend(items, offset, ParseItems(ts[at + offset..], depth, size - i))
    {
      var c := TokensToValue(ts, at + offset, depth);
      if c.None? { return None; }
      PrependStep(items, offset, c.value, ParseItems(ts[at + offset + c.value.1..], depth, size - i - 1));
      assert ts[at + offset..][c.value.1..] == ts[at + offset + c.value.1..];
      items, offset, i := items + [c.value.0], offset + c.value.1, i + 1;
    }
    return Some((ToValues(items, Nil), offset));
  }

  /** The loop over the members of an object. */
  method ReadFields(ts: seq<Token>, at: nat, depth: nat, size: nat) returns (r: Option<(Fields, nat)>)
    requires at <= |ts|
    ensures r == ParseFields(ts[at..], depth, size, NoFields)
    decreases |ts| - at, 1
  {
    hide Parse, Keyed, ParseFields;
    var fields, offset: nat, i: nat := NoFields, 0, 0;
    assert ts[at + 0..] == ts[at..];
    while i < size
      invariant i <= size && at + offset <= |ts|
      invariant ParseFields(ts[at..], depth, size, NoFields)
             == Advance(offset, ParseFields(ts[at + offset..], depth, size - i, fields))
    {
      if at + offset == |ts| || !ts[at + offset].Text? {
        ParseFieldsStops(ts[at + offset..], depth, size - i, fields);
        return None;
      }
      var key := ts[at + offset].raw;
      assert ts[at + offset..][0] == ts[at + offset] && ts[at + offset..][1..] == ts[at + offset + 1..];
      ParseFieldsStep(ts[at + offset..], depth, size - i, fields);
      var c := TokensToValue(ts, at + offset + 1, depth);
      if c.None? { return None; }
      assert ts[at + offset..][1 + c.value.1..] == ts[at + (offset + 1 + c.value.1)..];
      fields := Keyed(fields, key, c.value.0);
      offset, i := offset + 1 + c.value.1, i + 1;
    }
    ParseFieldsStops(ts[at + offset..], depth, 0, fields);
    return Some((fields, offset));
  }

  lemma ParseFieldsStops(ts: seq<Token>, depth: nat, n: nat, acc: Fields)
    requires n == 0 || ts == [] || !ts[0].Text?
    ensures ParseFields(ts, depth, n, acc) == if n == 0 then Some((acc, 0)) else None
  {
  }

  function ToValues(xs: seq<Value>, rest: Values): Values
    decreases |xs|
  {
    if xs == [] then rest else Cons(xs[0], ToValues(xs[1..], rest))
  }

  function Prepend(xs: seq<Value>, n: nat, r: Option<(Values, nat)>): Option<(Values, nat)> {
    if r.None? then None else Some((ToValues(xs, r.value.0), n + r.value.1))
  }

  lemma {:induction false} ToValuesAppend(xs: seq<Value>, v: Value, rest: Values)
    ensures ToValues(xs + [v], rest) == ToValues(xs, Cons(v, rest))
    decreases |xs|
  {
    if xs == [] {
      assert xs + [v] == [v] && [v][1..] == [];
    } else {
      assert (xs + [v])[1..] == xs[1..] + [v];
      ToValuesAppend(xs[1..], v, rest);
    }
  }

  lemma PrependStep(xs: seq<Value>, n: nat, c: (Value, nat), r: Option<(Values, nat)>)
    ensures Prepend(xs, n, if r.None? then None else Some((Cons(c.0, r.value.0), c.1 + r.value.1)))
         == Prepend(xs + [c.0], n + c.1, r)
  {
    if r.Some? { ToValuesAppend(xs, c.0, r.value.0); }
  }
}
