/** Reading JSON texts: `sentry__value_from_json`, and that it undoes the writer. */
module JsonText {
  import opened Bytes
  import opened Wrappers
  import opened JsonValue
  import opened JsonString
  import opened JsonWriter
  import opened JsonTokens
  import opened JsonDoc
  import opened Jsmn
  import opened JsonScan
  import Decimal

  /** The tokenizer splits every well-formed text into its tokens. */
  lemma TokenizeText(lead: Bytes, d: Doc, trail: Bytes)
    requires Blanks(lead) && WellFormed(d) && Blanks(trail)
    ensures Tokenize(lead + (Render(d) + trail)) == DocTokens(d)
  {
    hide *;
    var js, cap := lead + (Render(d) + trail), |DocTokens(d)|;
    StartIs();
    TextParts(js, lead, Render(d), trail);
    var p := Parser(|lead|, [], -1);
    ScanBlanks(js, START, cap, lead);
    AlikeOk(js, START, p, cap);
    var q, new_ := ScanValue(js, p, cap, d);
    LeavesAll(js, p, q, new_, DocTokens(d));
    var r := Parser(|js|, q.toks, q.super);
    ScanBlanks(js, q, cap, trail);
    AllAlike(js, START, p, q, cap);
    AllAlike(js, START, q, r, cap);
    ScanEnds(js, r, cap);
    AlikeIs(js, START, r, cap);
    CountIsExact(js, START, cap);
    TokenizeIs(js, new_);
  }

  lemma TextParts(js: Bytes, lead: Bytes, t: Bytes, trail: Bytes)
    requires js == lead + (t + trail) && Blanks(trail)
    ensures Here(js, 0, lead) && Here(js, |lead|, t) && Here(js, |lead| + |t|, trail)
    ensures After(js, |lead| + |t|) && |js| == |lead| + |t| + |trail|
  {
    assert js[0..|js|] == js;
    HereSplit(js, 0, lead, t + trail);
    HereSplit(js, |lead|, t, trail);
    if trail != [] { HereFirst(js, |lead| + |t|, trail); }
    hide Here;
  }

  lemma StartIs()
    ensures START.Ok() && START == Parser(0, [], -1) && OpenAreContainers([]) && LastOpen([]) == -1
  {
  }

  lemma LeavesAll(js: Bytes, p: Parser, q: Parser, new_: seq<Tok>, ts: seq<Token>)
    requires p.toks == [] && p.super == -1 && Leaves(js, p, q, 1, new_, ts)
    ensures q.Ok() && q.toks == new_ && LastOpen(new_) == -1 && AllSeen(js, new_) == ts && |new_| == |ts|
  {
    LastOpenBefore([], new_);
    assert [] + new_ == new_;
  }

  lemma ScanEnds(js: Bytes, q: Parser, cap: nat)
    requires q.Ok() && q.pos == |js| && LastOpen(q.toks) == -1
    ensures Scan(js, q, cap) == Some(q.toks)
  {
  }

  lemma AlikeIs(js: Bytes, p: Parser, q: Parser, cap: nat)
    requires Alike(js, p, q, cap)
    ensures p.Ok() && q.Ok() && Scan(js, p, cap) == Scan(js, q, cap)
  {
  }

  lemma TokenizeIs(js: Bytes, new_: seq<Tok>)
    requires START.Ok() && CountFrom(js, 0) == Some(|new_|) && Scan(js, START, |new_|) == Some(new_)
    ensures Tokenize(js) == AllSeen(js, new_)
  {
    hide Scan, AllSeen, CountFrom;
  }

  /** Reading a text: tokenize it, and build the value. */
  function FromJson(js: Bytes): Value { FromTokens(Tokenize(js)) }

  /** `sentry__value_from_json`: count, fill, build, and use up all tokens or give null. */
  method ReadJson(js: Bytes) returns (v: Value)
    ensures v == FromJson(js)
  {
    hide CountFrom, Scan, Parse;
    var n := CountTokens(js);
    if n.None? || n.value == 0 {
      NothingToRead(js);
      return Null;
    }
    var tokens := new Tok[n.value];
    var m := FillTokens(js, tokens);
    if m.None? || m.value == 0 { return Null; }
    var ts := AllSeen(js, tokens[..m.value]);
    assert Tokenize(js) == ts && ts[0..] == ts;
    var r := TokensToValue(ts, 0, 0);
    return if r.Some? && r.value.1 == |ts| then r.value.0 else Null;
  }

  lemma NothingToRead(js: Bytes)
    requires CountFrom(js, 0) == None || CountFrom(js, 0) == Some(0)
    ensures FromJson(js) == Null
  {
    StartIs();
    if CountFrom(js, 0).Some? && Scan(js, START, 0).Some? {
      CountIsExact(js, START, 0);
      assert AllSeen(js, Scan(js, START, 0).value) == [];
    }
    hide CountFrom, Scan;
  }

  /** Main result: every text of the grammar, whatever its white space, escapes and repeated
      names, is read as its meaning, exactly if it has at most 64 levels. */
  lemma ReadsEveryText(lead: Bytes, d: Doc, trail: Bytes)
    requires Blanks(lead) && WellFormed(d) && Blanks(trail)
    ensures FromJson(lead + (Render(d) + trail)) == if Levels(d) <= 64 then Meaning(d) else Null
  {
    TokenizeText(lead, d, trail);
    ParseDoc(d, [], 0);
    assert DocTokens(d) + [] == DocTokens(d);
    hide Tokenize, Parse, Render, DocTokens, Levels, Meaning;
  }

  // ------------------------------------------------------- what the writer writes

  predicate Numeral(text: Bytes) {
    text != [] && forall k :: 0 <= k < |text| ==>
      Decimal.IsDigit(text[k]) || text[k] == 43 || text[k] == 45 || text[k] == 46 || text[k] == 69 || text[k] == 101
  }

  /** Every double in it prints as digits, signs, a point and an exponent. */
  predicate Printable(v: Value) {
    match v
    case Real(text) => Numeral(text)
    case List(items) => PrintableItems(items)
    case Object(fields) => PrintableFields(fields)
    case _ => true
  }

  predicate PrintableItems(vs: Values) { vs.Cons? ==> Printable(vs.head) && PrintableItems(vs.tail) }

  predicate PrintableFields(fs: Fields) { fs.Field? ==> Printable(fs.value) && PrintableFields(fs.rest) }

  lemma AtomIsWord(v: Value)
    requires Printable(v) && (v.Null? || v.Bool? || v.Int? || v.Real?)
    ensures Word(AtomText(v))
  {
  }

  lemma {:induction false} EscapeIsBody(s: Bytes)
    ensures Body(Escape(s))
  {
    if s != [] {
      EscapeIsBody(s[1..]);
      ByteThenBody(s[0], Escape(s[1..]));
      hide EscapeByte, Body;
    }
  }

  lemma ByteThenBody(b: Byte, rest: Bytes)
    requires Body(rest)
    ensures Body(EscapeByte(b) + rest)
  {
    var e := EscapeByte(b);
    assert (e + rest)[|e|..] == rest;
    if |e| == 6 {
      assert HexByte(HexDigit(b / 16)) && HexByte(HexDigit(b % 16));
    }
  }

  lemma {:induction false} PrintsWellFormed(v: Value)
    requires Printable(v)
    ensures WellFormed(DocOf(v))
    decreases v
  {
    match v
    case Str(s) => EscapeIsBody(s);
    case List(items) => PrintsItems(items);
    case Object(fields) => PrintsFields(fields);
    case _ => AtomIsWord(v); hide AtomText, Word;
  }

  lemma {:induction false} PrintsItems(vs: Values)
    requires PrintableItems(vs)
    ensures ItemsFormed(ItemsOf(vs))
    decreases vs
  {
    if vs.Cons? { PrintsWellFormed(vs.head); PrintsItems(vs.tail); hide WellFormed, DocOf; }
  }

  lemma {:induction false} PrintsFields(fs: Fields)
    requires PrintableFields(fs)
    ensures MembersFormed(MembersOf(fs))
    decreases fs
  {
    if fs.Field? {
      EscapeIsBody(fs.key);
      PrintsWellFormed(fs.value);
      PrintsFields(fs.rest);
      hide WellFormed, DocOf, Body, Escape;
    }
  }

  /** The text of a value has the tokens of the value. */
  lemma TokenizePrinted(v: Value)
    requires Printable(v)
    ensures Tokenize(Print(v)) == Tokens(v)
  {
    hide *;
    NoBlanks();
    PrintsWellFormed(v);
    Printed(v);
    TokenizeText([], DocOf(v), []);
    assert [] + (Print(v) + []) == Print(v);
  }

  lemma NoBlanks()
    ensures Blanks([])
  {
  }

  /** Main result: the text of every value of at most 64 levels is read back as the value. */
  lemma TextRoundTrip(v: Value)
    requires Proper(v) && Printable(v)
    ensures FromJson(Print(v)) == if Height(v) <= 64 then v else Null
  {
    TokenizePrinted(v);
    FromTokensRoundTrip(v);
    hide Tokenize, FromTokens, Print, Tokens, Height;
  }

  lemma {:induction false} PrunePrintable(v: Value, levels: nat)
    requires Printable(v)
    ensures Printable(Prune(v, levels))
    decreases v
  {
    match v
    case List(items) => if levels > 1 { PrunePrintableItems(items, levels - 1); }
    case Object(fields) => if levels > 1 { PrunePrintableFields(fields, levels - 1); }
    case _ =>
  }

  lemma {:induction false} PrunePrintableItems(vs: Values, levels: nat)
    requires PrintableItems(vs)
    ensures PrintableItems(PruneItems(vs, levels))
    decreases vs
  {
    if vs.Cons? { PrunePrintable(vs.head, levels); PrunePrintableItems(vs.tail, levels); }
  }

  lemma {:induction false} PrunePrintableFields(fs: Fields, levels: nat)
    requires PrintableFields(fs)
    ensures PrintableFields(PruneFields(fs, levels))
    decreases fs
  {
    if fs.Field? { PrunePrintable(fs.value, levels); PrunePrintableFields(fs.rest, levels); }
  }

  /** Main result: whatever the writer writes of a value, to any depth, is read back as what
      it kept of the value. */
  lemma WrittenIsRead(v: Value)
    requires Proper(v) && Printable(v)
    ensures FromJson(Print(Prune(v, 64))) == Prune(v, 64)
  {
    PrunePrintable(v, 64);
    TokenizePrinted(Prune(v, 64));
    WriterOutputIsReadable(v);
    hide Tokenize, FromTokens, Print, Tokens, Prune;
  }
}
