/**
  JSON texts by the grammar of section 2 of RFC 8259, with white space wherever it may
  stand, and what they mean to the SDK.
 */
module JsonDoc {
  import opened Bytes
  import opened Wrappers
  import opened JsonValue
  import opened JsonString
  import opened JsonWriter
  import opened JsonTokens

  /** A text, by its parts; `blank`, `after`, `gap`, `before` and `behind` are white space. */
  datatype Doc =
    | Plain(text: Bytes)
    | Quote(raw: Bytes)
    | Bracketed(blank: Bytes, items: Items)
    | Braced(blank: Bytes, members: Members)

  datatype Items = NoItems | OneItem(value: Doc, after: Bytes, gap: Bytes, more: Items)

  datatype Members =
    | NoMembers
    | Member(key: Bytes, before: Bytes, behind: Bytes, value: Doc, after: Bytes, gap: Bytes, more: Members)

  // ------------------------------------------------------- the text

  function Render(d: Doc): Bytes {
    match d
    case Plain(text) => text
    case Quote(raw) => Delimit(raw)
    case Bracketed(blank, items) => [91] + (blank + RenderItems(items) + [93])
    case Braced(blank, members) => [123] + (blank + RenderMembers(members) + [125])
  }

  function Delimit(raw: Bytes): Bytes { [34] + (raw + [34]) }

  function RenderItems(xs: Items): Bytes {
    match xs
    case NoItems => []
    case OneItem(v, after, gap, more) =>
      Render(v) + (after + (if more.NoItems? then [] else [44] + (gap + RenderItems(more))))
  }

  function RenderMembers(ms: Members): Bytes {
    match ms
    case NoMembers => []
    case Member(k, before, behind, v, after, gap, more) =>
      var rest := if more.NoMembers? then [] else [44] + (gap + RenderMembers(more));
      Pair(k, before, behind, Render(v)) + (after + rest)
  }

  function Pair(k: Bytes, before: Bytes, behind: Bytes, v: Bytes): Bytes {
    Delimit(k) + (before + ([58] + (behind + v)))
  }

  // ------------------------------------------------------- what is well formed

  predicate Blanks(b: Bytes) { forall k :: 0 <= k < |b| ==> b[k] in {9, 10, 13, 32} }

  predicate HexByte(b: Byte) { 48 <= b <= 57 || 65 <= b <= 70 || 97 <= b <= 102 }

  /** The inside of a string: bytes other than NUL, quote and backslash, and escapes. */
  predicate Body(raw: Bytes)
    decreases |raw|
  {
    || raw == []
    || (raw[0] != 92 && raw[0] != 34 && raw[0] != 0 && Body(raw[1..]))
    || (|raw| >= 2 && raw[0] == 92 && raw[1] in {34, 92, 47, 98, 102, 110, 114, 116} && Body(raw[2..]))
    || (|raw| >= 6 && raw[0] == 92 && raw[1] == 117 && (forall k :: 2 <= k < 6 ==> HexByte(raw[k])) && Body(raw[6..]))
  }

  /** A byte of a number, `true`, `false` or `null`, or of any other unquoted word. */
  predicate Solid(b: Byte) { 32 < b < 127 && b !in {34, 44, 58, 91, 93, 123, 125} }

  predicate Word(text: Bytes) { text != [] && forall k :: 0 <= k < |text| ==> Solid(text[k]) }

  predicate WellFormed(d: Doc) {
    match d
    case Plain(text) => Word(text)
    case Quote(raw) => Body(raw)
    case Bracketed(blank, items) => Blanks(blank) && ItemsFormed(items)
    case Braced(blank, members) => Blanks(blank) && MembersFormed(members)
  }

  predicate ItemsFormed(xs: Items) {
    xs.OneItem? ==> WellFormed(xs.value) && Blanks(xs.after) && Blanks(xs.gap) && ItemsFormed(xs.more)
  }

  predicate MembersFormed(ms: Members) {
    ms.Member? ==>
      && Body(ms.key) && Blanks(ms.before) && Blanks(ms.behind) && WellFormed(ms.value)
      && Blanks(ms.after) && Blanks(ms.gap) && MembersFormed(ms.more)
  }

  // ------------------------------------------------------- its tokens and its meaning

  function DocTokens(d: Doc): seq<Token> {
    match d
    case Plain(text) => [Prim(text)]
    case Quote(raw) => [Text(raw)]
    case Bracketed(_, items) => [Arr(ItemCount(items))] + ItemsTokens(items)
    case Braced(_, members) => [Obj(MemberCount(members))] + MembersTokens(members)
  }

  function ItemsTokens(xs: Items): seq<Token> {
    if xs.NoItems? then [] else DocTokens(xs.value) + ItemsTokens(xs.more)
  }

  function MembersTokens(ms: Members): seq<Token> {
    if ms.NoMembers? then [] else [Text(ms.key)] + DocTokens(ms.value) + MembersTokens(ms.more)
  }

  function ItemCount(xs: Items): nat { if xs.NoItems? then 0 else 1 + ItemCount(xs.more) }

  function MemberCount(ms: Members): nat { if ms.NoMembers? then 0 else 1 + MemberCount(ms.more) }

  /** Words are literals or numbers, strings are decoded, and of members of one name the
      last one counts. */
  function Meaning(d: Doc): Value {
    match d
    case Plain(text) => ParsePrimitive(text)
    case Quote(raw) => if DecodeRaw(raw).Some? then Str(DecodeRaw(raw).value) else Null
    case Bracketed(_, items) => List(MeaningItems(items))
    case Braced(_, members) => Object(MeaningMembers(members, NoFields))
  }

  function MeaningItems(xs: Items): Values {
    if xs.NoItems? then Nil else Cons(Meaning(xs.value), MeaningItems(xs.more))
  }

  function MeaningMembers(ms: Members, acc: Fields): Fields
    decreases ms
  {
    if ms.NoMembers? then acc else MeaningMembers(ms.more, Keyed(acc, ms.key, Meaning(ms.value)))
  }

  function Levels(d: Doc): nat {
    match d
    case Bracketed(_, items) => 1 + ItemsLevels(items)
    case Braced(_, members) => 1 + MembersLevels(members)
    case _ => 0
  }

  function Max(a: nat, b: nat): nat { if a > b then a else b }

  function ItemsLevels(xs: Items): nat { if xs.NoItems? then 0 else Max(Levels(xs.value), ItemsLevels(xs.more)) }

  function MembersLevels(ms: Members): nat {
    if ms.NoMembers? then 0 else Max(Levels(ms.value), MembersLevels(ms.more))
  }

  // ------------------------------------------------------- the tokens are read as the meaning

  /** On the tokens of a text, followed by anything, the consumer builds its meaning and uses
      exactly those tokens, if and only if it stays within 64 levels. */
  lemma {:induction false} ParseDoc(d: Doc, suffix: seq<Token>, depth: nat)
    requires depth <= MAX_DEPTH
    ensures Parse(DocTokens(d) + suffix, depth)
         == if Levels(d) + depth <= MAX_DEPTH then Some((Meaning(d), |DocTokens(d)|)) else None
    decreases d
  {
    hide Parse, ParseItems, ParseFields, ParsePrimitive, DecodeRaw, ItemsTokens, MembersTokens;
    hide MeaningItems, MeaningMembers, ItemsLevels, MembersLevels, ItemCount, MemberCount;
    var ts := DocTokens(d) + suffix;
    ParseStep(ts, depth);
    match d
    case Bracketed(_, items) =>
      assert ts[1..] == ItemsTokens(items) + suffix;
      if depth < MAX_DEPTH { ParseDocItems(items, suffix, depth + 1); }
    case Braced(_, members) =>
      assert ts[1..] == MembersTokens(members) + suffix;
      if depth < MAX_DEPTH { ParseDocMembers(members, suffix, depth + 1, NoFields); }
    case _ =>
  }

  lemma {:induction false} ParseDocItems(xs: Items, suffix: seq<Token>, depth: nat)
    requires depth <= MAX_DEPTH
    ensures ParseItems(ItemsTokens(xs) + suffix, depth, ItemCount(xs))
         == if ItemsLevels(xs) + depth <= MAX_DEPTH then Some((MeaningItems(xs), |ItemsTokens(xs)|)) else None
    decreases xs
  {
    if xs.OneItem? {
      hide Parse, DocTokens, Meaning, Levels;
      var a, b := DocTokens(xs.value), ItemsTokens(xs.more);
      Split(a, b, suffix);
      ParseDoc(xs.value, b + suffix, depth);
      ParseDocItems(xs.more, suffix, depth);
    }
  }

  lemma {:induction false} ParseDocMembers(ms: Members, suffix: seq<Token>, depth: nat, acc: Fields)
    requires depth <= MAX_DEPTH
    ensures ParseFields(MembersTokens(ms) + suffix, depth, MemberCount(ms), acc)
         == if MembersLevels(ms) + depth <= MAX_DEPTH then Some((MeaningMembers(ms, acc), |MembersTokens(ms)|))
            else None
    decreases ms
  {
    hide *;
    if ms.NoMembers? {
      ParseNoMembers(suffix, depth, acc);
    } else {
      MembersParts(ms, suffix, acc);
      var rest := MembersTokens(ms.more) + suffix;
      ParseDoc(ms.value, rest, depth);
      var acc' := Keyed(acc, ms.key, Meaning(ms.value));
      ParseDocMembers(ms.more, suffix, depth, acc');
      ParseFieldsStep(MembersTokens(ms) + suffix, depth, MemberCount(ms), acc);
      CombineHeights(depth, Levels(ms.value), MembersLevels(ms.more), |DocTokens(ms.value)|, |MembersTokens(ms.more)|,
        Meaning(ms.value), MeaningMembers(ms, acc), Parse(DocTokens(ms.value) + rest, depth),
        ParseFields(rest, depth, MemberCount(ms.more), acc'));
    }
  }

  lemma ParseNoMembers(suffix: seq<Token>, depth: nat, acc: Fields)
    requires depth <= MAX_DEPTH
    ensures ParseFields(MembersTokens(NoMembers) + suffix, depth, MemberCount(NoMembers), acc) == Some((acc, 0))
    ensures MembersLevels(NoMembers) == 0 && MeaningMembers(NoMembers, acc) == acc && |MembersTokens(NoMembers)| == 0
  {
    ParseFieldsStops(MembersTokens(NoMembers) + suffix, depth, 0, acc);
    hide ParseFields;
  }

  lemma MembersParts(ms: Members, suffix: seq<Token>, acc: Fields)
    requires ms.Member?
    ensures var ts, rest := MembersTokens(ms) + suffix, MembersTokens(ms.more) + suffix;
      && ts != [] && ts[0] == Text(ms.key) && ts[1..] == DocTokens(ms.value) + rest
      && ts[1 + |DocTokens(ms.value)|..] == rest
      && |MembersTokens(ms)| == 1 + |DocTokens(ms.value)| + |MembersTokens(ms.more)|
      && MemberCount(ms) == 1 + MemberCount(ms.more) && MemberCount(ms) > 0
      && MembersLevels(ms) == (if Levels(ms.value) > MembersLevels(ms.more) then Levels(ms.value)
                               else MembersLevels(ms.more))
      && MeaningMembers(ms, acc) == MeaningMembers(ms.more, Keyed(acc, ms.key, Meaning(ms.value)))
  {
    hide DocTokens, Meaning, Levels, Keyed;
    var x, a := [Text(ms.key)], DocTokens(ms.value);
    Split(x, a, MembersTokens(ms.more));
    Split(x, a + MembersTokens(ms.more), suffix);
    Split(a, MembersTokens(ms.more), suffix);
    Split(x + a, MembersTokens(ms.more), suffix);
  }

  // ------------------------------------------------------- the text the writer prints

  function DocOf(v: Value): Doc {
    match v
    case Str(s) => Quote(Escape(s))
    case List(items) => Bracketed([], ItemsOf(items))
    case Object(fields) => Braced([], MembersOf(fields))
    case _ => Plain(AtomText(v))
  }

  function ItemsOf(vs: Values): Items { if vs.Nil? then NoItems else OneItem(DocOf(vs.head), [], [], ItemsOf(vs.tail)) }

  function MembersOf(fs: Fields): Members {
    if fs.NoFields? then NoMembers else Member(Escape(fs.key), [], [], DocOf(fs.value), [], [], MembersOf(fs.rest))
  }

  lemma {:induction false} Printed(v: Value)
    ensures Render(DocOf(v)) == Print(v) && DocTokens(DocOf(v)) == Tokens(v)
    decreases v
  {
    match v
    case List(items) => PrintedItems(items); PrintedContainer(v);
    case Object(fields) => PrintedFields(fields); PrintedContainer(v);
    case Str(s) => PrintedText(s);
    case _ => hide Escape;
  }

  lemma PrintedText(s: Bytes)
    ensures Render(DocOf(Str(s))) == Print(Str(s)) && DocTokens(DocOf(Str(s))) == Tokens(Str(s))
  {
    hide Escape;
    assert Delimit(Escape(s)) == Quoted(s);
  }

  lemma PrintedContainer(v: Value)
    requires v.List? || v.Object?
    requires v.List? ==>
      && RenderItems(ItemsOf(v.items)) == PrintItems(v.items) && ItemsTokens(ItemsOf(v.items)) == ItemTokens(v.items)
      && ItemCount(ItemsOf(v.items)) == Length(v.items)
    requires v.Object? ==>
      && RenderMembers(MembersOf(v.fields)) == PrintFields(v.fields)
      && MembersTokens(MembersOf(v.fields)) == FieldTokens(v.fields)
      && MemberCount(MembersOf(v.fields)) == Count(v.fields)
    ensures Render(DocOf(v)) == Print(v) && DocTokens(DocOf(v)) == Tokens(v)
  {
    hide ItemsOf, MembersOf, RenderItems, RenderMembers, PrintItems, PrintFields, Length, Count, ItemTokens;
    hide FieldTokens, ItemsTokens, MembersTokens, ItemCount, MemberCount;
  }

  lemma {:induction false} PrintedItems(vs: Values)
    ensures RenderItems(ItemsOf(vs)) == PrintItems(vs) && ItemsTokens(ItemsOf(vs)) == ItemTokens(vs)
    ensures ItemCount(ItemsOf(vs)) == Length(vs)
    decreases vs
  {
    if vs.Cons? {
      Printed(vs.head);
      PrintedItems(vs.tail);
      hide Print, Render, DocOf, DocTokens, Tokens;
    }
  }

  lemma {:induction false} PrintedFields(fs: Fields)
    ensures RenderMembers(MembersOf(fs)) == PrintFields(fs) && MembersTokens(MembersOf(fs)) == FieldTokens(fs)
    ensures MemberCount(MembersOf(fs)) == Count(fs)
    decreases fs
  {
    if fs.Field? {
      Printed(fs.value);
      PrintedFields(fs.rest);
      PrintedPair(fs.key, Print(fs.value));
      hide Print, Render, DocOf, DocTokens, Tokens, Escape, Quoted, Pair;
    }
  }

  lemma PrintedPair(k: Bytes, v: Bytes)
    ensures Pair(Escape(k), [], [], v) == Quoted(k) + [58] + v
  {
    hide Escape;
  }
}
