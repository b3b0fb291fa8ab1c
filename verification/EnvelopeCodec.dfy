/**
  The newline-framed form of envelopes: a line of headers, then for each item a line of
  headers and its payload. Headers are JSON objects; the tokenizer is a parameter, which
  the last theorem instantiates with `Jsmn.Tokenize`.
 */
module EnvelopeCodec {
  import opened Bytes
  import opened Wrappers
  import opened JsonValue
  import opened JsonString
  import opened JsonWriter
  import opened JsonTokens
  import Decimal
  import Jsmn
  import JsonText

  const NEWLINE: Byte := 10
  const SIZE_MAX: int := Decimal.U64 - 1

  datatype Item = Item(headers: Value, payload: Bytes)

  datatype Parts = Parts(headers: Value, items: seq<Item>)

  // ------------------------------------------------------- headers

  function HeaderText(h: Value): Bytes { Print(Prune(h, MAX_DEPTH)) }

  /** Reading a line of headers, given what the tokenizer makes of it. */
  function ReadHeader(tokenize: Bytes -> seq<Token>, text: Bytes): Value { FromTokens(tokenize(text)) }

  /** "length" */
  function LengthKey(): Bytes { [108, 101, 110, 103, 116, 104] }

  datatype Length = Absent | Given(n: int)

  /** The length header; what is not an integer reads as 0. */
  function LengthOf(h: Value): Length {
    if !h.Object? then Absent
    else
      match Lookup(h.fields, LengthKey())
      case None => Absent
      case Some(Null) => Absent
      case Some(Int(n)) => Given(n)
      case Some(_) => Given(0)
  }

  // ------------------------------------------------------- printing

  function ItemText(it: Item): Bytes { HeaderText(it.headers) + [NEWLINE] + it.payload }

  function ItemsText(items: seq<Item>): Bytes {
    if items == [] then [] else [NEWLINE] + ItemText(items[0]) + ItemsText(items[1..])
  }

  function Serialize(e: Parts): Bytes { HeaderText(e.headers) + ItemsText(e.items) }

  // ------------------------------------------------------- parsing

  /** The position of the first newline, or the length. */
  function LineEnd(s: Bytes): (k: nat)
    ensures k <= |s| && (k < |s| ==> s[k] == NEWLINE) && NEWLINE !in s[..k]
  {
    if s == [] || s[0] == NEWLINE then 0
    else
      var k := LineEnd(s[1..]);
      assert s[..k + 1] == [s[0]] + s[1..][..k];
      k + 1
  }

  function SkipNewlines(s: Bytes): (r: Bytes)
    ensures |r| <= |s|
  {
    if s != [] && s[0] == NEWLINE then SkipNewlines(s[1..]) else s
  }

  /** How much of `body` is payload. */
  function PayloadLength(l: Length, body: Bytes): (r: Option<nat>)
    ensures r.Some? ==> r.value <= |body|
  {
    match l
    case Absent => Some(LineEnd(body))
    case Given(n) => if n < 0 || n >= SIZE_MAX || n > |body| then None else Some(n)
  }

  function ParseItems(tokenize: Bytes -> seq<Token>, s: Bytes): Option<seq<Item>>
    decreases |s|
  {
    if s == [] then Some([])
    else
      var k := LineEnd(s);
      if k == |s| then None
      else
        var h := ReadHeader(tokenize, s[..k]);
        if !h.Object? then None
        else
          var body := s[k + 1..];
          var n := PayloadLength(LengthOf(h), body);
          if n.None? then None
          else Prepend(Item(h, body[..n.value]), ParseItems(tokenize, SkipNewlines(body[n.value..])))
  }

  function Prepend(it: Item, r: Option<seq<Item>>): Option<seq<Item>> {
    if r.None? then None else Some([it] + r.value)
  }

  function Deserialize(tokenize: Bytes -> seq<Token>, s: Bytes): Option<Parts> {
    if s == [] then None
    else
      var k := LineEnd(s);
      var h := ReadHeader(tokenize, s[..k]);
      if !h.Object? then None
      else
        var items := ParseItems(tokenize, if k < |s| then s[k + 1..] else []);
        if items.None? then None else Some(Parts(h, items.value))
  }

  // ------------------------------------------------------- the text of headers

  /** Doubles print without newlines. */
  predicate OneLine(v: Value) {
    match v
    case Real(text) => NEWLINE !in text
    case List(items) => OneLineItems(items)
    case Object(fields) => OneLineFields(fields)
    case _ => true
  }

  predicate OneLineItems(vs: Values) { vs.Cons? ==> OneLine(vs.head) && OneLineItems(vs.tail) }

  predicate OneLineFields(fs: Fields) { fs.Field? ==> OneLine(fs.value) && OneLineFields(fs.rest) }

  lemma QuotedOneLine(s: Bytes)
    ensures NEWLINE !in Quoted(s)
  {
    forall k | 0 <= k < |Escape(s)| ensures Escape(s)[k] != NEWLINE { EscapeIsClean(s, k); }
    hide Escape;
  }

  lemma {:induction false} PrintOneLine(v: Value, levels: nat)
    requires OneLine(v)
    ensures NEWLINE !in Print(Prune(v, levels))
    decreases v
  {
    match v
    case Str(s) => QuotedOneLine(s);
    case List(items) => PrintOneLineItems(items, if levels <= 1 then 0 else levels - 1);
    case Object(fields) => PrintOneLineFields(fields, if levels <= 1 then 0 else levels - 1);
    case Int(n) => assert NEWLINE !in Decimal.Print(n);
    case _ =>
  }

  lemma {:induction false} PrintOneLineItems(vs: Values, levels: nat)
    requires OneLineItems(vs)
    ensures NEWLINE !in PrintItems(PruneItems(vs, levels))
    decreases vs
  {
    if vs.Cons? {
      PrintOneLine(vs.head, levels);
      PrintOneLineItems(vs.tail, levels);
      hide Print, Prune;
    }
  }

  lemma {:induction false} PrintOneLineFields(fs: Fields, levels: nat)
    requires OneLineFields(fs)
    ensures NEWLINE !in PrintFields(PruneFields(fs, levels))
    decreases fs
  {
    if fs.Field? {
      QuotedOneLine(fs.key);
      PrintOneLine(fs.value, levels);
      PrintOneLineFields(fs.rest, levels);
      hide Print, Prune, Quoted;
    }
  }

  lemma {:induction false} LookupPruned(fs: Fields, levels: nat, k: Bytes)
    ensures Lookup(PruneFields(fs, levels), k)
         == if Lookup(fs, k).None? then None else Some(Prune(Lookup(fs, k).value, levels))
    decreases fs
  {
    hide Prune;
    if fs.Field? { LookupPruned(fs.rest, levels, k); }
  }

  lemma LengthPruned(h: Value)
    ensures LengthOf(Prune(h, MAX_DEPTH)) == LengthOf(h)
  {
    if h.Object? { LookupPruned(h.fields, MAX_DEPTH - 1, LengthKey()); }
  }

  /** Headers that can be written and read: an object of proper values, whose text the
      tokenizer splits into its tokens. */
  ghost predicate Readable(tokenize: Bytes -> seq<Token>, h: Value) {
    h.Object? && Proper(h) && OneLine(h) && tokenize(HeaderText(h)) == Tokens(Prune(h, MAX_DEPTH))
  }

  lemma HeaderReads(tokenize: Bytes -> seq<Token>, h: Value)
    requires Readable(tokenize, h)
    ensures ReadHeader(tokenize, HeaderText(h)) == Prune(h, MAX_DEPTH) && Prune(h, MAX_DEPTH).Object?
    ensures NEWLINE !in HeaderText(h) && HeaderText(h) != [] && HeaderText(h)[0] == 123
    ensures LengthOf(Prune(h, MAX_DEPTH)) == LengthOf(h)
  {
    WriterOutputIsReadable(h);
    PrintOneLine(h, MAX_DEPTH);
    LengthPruned(h);
    hide PrintFields, PruneFields;
  }

  // ------------------------------------------------------- round trip

  /** The payload can be found again: it has the length that the header gives, or no
      header and no newline. */
  predicate Framed(it: Item) {
    match LengthOf(it.headers)
    case Absent => NEWLINE !in it.payload
    case Given(n) => n == |it.payload|
  }

  /** The first field of this name. */
  function FirstNamed(fs: Fields, name: string): Option<Value> {
    if fs.NoFields? then None
    else if Spells(fs.key, name) then Some(fs.value)
    else FirstNamed(fs.rest, name)
  }

  /** The same by the header itself: an integer under "length" is the size of the payload; a
      missing or null one leaves a payload without newlines; anything else an empty one. */
  predicate Delimited(it: Item)
    requires it.headers.Object?
  {
    match FirstNamed(it.headers.fields, "length")
    case Some(Int(n)) => n == |it.payload|
    case None => 10 !in it.payload
    case Some(Null) => 10 !in it.payload
    case Some(_) => it.payload == []
  }

  lemma {:induction false} LookupMeans(fs: Fields)
    ensures Lookup(fs, LengthKey()) == FirstNamed(fs, "length")
  {
    if fs.Field? {
      LookupMeans(fs.rest);
      SpellsLength(fs.key);
      hide Spells, LengthKey;
    }
  }

  lemma SpellsLength(k: Bytes)
    ensures Spells(k, "length") <==> k == LengthKey()
  {
    if Spells(k, "length") {
      assert forall i :: 0 <= i < 6 ==> k[i] == LengthKey()[i];
    }
  }

  lemma FramedMeans(it: Item)
    requires it.headers.Object?
    ensures Framed(it) <==> Delimited(it)
  {
    LookupMeans(it.headers.fields);
    hide Lookup, FirstNamed, LengthKey;
  }

  function PruneItem(it: Item): Item { Item(Prune(it.headers, MAX_DEPTH), it.payload) }

  function PruneAll(items: seq<Item>): seq<Item> {
    if items == [] then [] else [PruneItem(items[0])] + PruneAll(items[1..])
  }

  lemma {:induction false} LineEndOf(a: Bytes, b: Bytes)
    requires NEWLINE !in a && (b == [] || b[0] == NEWLINE)
    ensures LineEnd(a + b) == |a|
  {
    if a == [] {
      assert a + b == b;
    } else {
      assert (a + b)[1..] == a[1..] + b;
      LineEndOf(a[1..], b);
    }
  }

  lemma {:induction false} ItemsTextStart(tokenize: Bytes -> seq<Token>, items: seq<Item>)
    requires forall i :: 0 <= i < |items| ==> Readable(tokenize, items[i].headers)
    ensures items == [] ==> ItemsText(items) == []
    ensures items != [] ==>
      && ItemsText(items) == [NEWLINE] + SkipNewlines(ItemsText(items))
      && SkipNewlines(ItemsText(items)) == ItemText(items[0]) + ItemsText(items[1..])
  {
    if items != [] {
      HeaderReads(tokenize, items[0].headers);
      hide *;
      ItemsTextStep(items);
      ItemStarts(items[0], ItemsText(items[1..]));
      SkipOnce(ItemText(items[0]) + ItemsText(items[1..]));
    }
  }

  lemma ItemsTextStep(items: seq<Item>)
    requires items != []
    ensures ItemsText(items) == [NEWLINE] + (ItemText(items[0]) + ItemsText(items[1..]))
  {
    hide ItemText;
  }

  lemma ItemStarts(it: Item, rest: Bytes)
    requires HeaderText(it.headers) != [] && HeaderText(it.headers)[0] == 123
    ensures ItemText(it) + rest != [] && (ItemText(it) + rest)[0] != NEWLINE
  {
    hide HeaderText;
  }

  lemma SkipOnce(s: Bytes)
    requires s != [] && s[0] != NEWLINE
    ensures SkipNewlines([NEWLINE] + s) == s
  {
    assert ([NEWLINE] + s)[1..] == s;
  }

  /** The payload length that is read is the one that was written, exactly if the item is
      framed. */
  lemma {:induction false} PayloadFound(it: Item, rest: Bytes)
    requires rest == [] || rest[0] == NEWLINE
    requires |it.payload| < SIZE_MAX
    ensures PayloadLength(LengthOf(it.headers), it.payload + rest) == Some(|it.payload|) <==> Framed(it)
  {
    var body := it.payload + rest;
    match LengthOf(it.headers)
    case Absent =>
      assert body[..|it.payload|] == it.payload;
      if NEWLINE !in it.payload { LineEndOf(it.payload, rest); }
    case Given(n) =>
  }

  /** What is read back of one item, up to its payload. */
  lemma {:induction false} FirstItem(tokenize: Bytes -> seq<Token>, it: Item, rest: Bytes)
    requires Readable(tokenize, it.headers)
    ensures
      var n := PayloadLength(LengthOf(it.headers), it.payload + rest);
      ParseItems(tokenize, ItemText(it) + rest)
      == if n.None? then None
         else Prepend(Item(Prune(it.headers, MAX_DEPTH), (it.payload + rest)[..n.value]),
                      ParseItems(tokenize, SkipNewlines((it.payload + rest)[n.value..])))
  {
    var text, body := HeaderText(it.headers), it.payload + rest;
    HeaderReads(tokenize, it.headers);
    hide HeaderText, Readable, LengthOf, ReadHeader, PayloadLength, SkipNewlines;
    var s := ItemText(it) + rest;
    assert s == text + ([NEWLINE] + body);
    LineEndOf(text, [NEWLINE] + body);
    assert s[..|text|] == text && s[|text| + 1..] == body;
  }

  lemma {:induction false} ItemsRoundTrip(tokenize: Bytes -> seq<Token>, items: seq<Item>)
    requires forall i :: 0 <= i < |items| ==> Readable(tokenize, items[i].headers) && |items[i].payload| < SIZE_MAX
    ensures ParseItems(tokenize, SkipNewlines(ItemsText(items))) == Some(PruneAll(items))
       <==> forall i :: 0 <= i < |items| ==> Framed(items[i])
    decreases |items|
  {
    ItemsTextStart(tokenize, items);
    if items != [] {
      var it, more := items[0], items[1..];
      var rest := ItemsText(more);
      ItemsTextStart(tokenize, more);
      PayloadFound(it, rest);
      FirstItem(tokenize, it, rest);
      ItemsRoundTrip(tokenize, more);
      assert (it.payload + rest)[..|it.payload|] == it.payload && (it.payload + rest)[|it.payload|..] == rest;
      assert (forall i :: 0 <= i < |items| ==> Framed(items[i]))
        <==> Framed(it) && forall i :: 0 <= i < |more| ==> Framed(more[i]) by { FramedAll(items); }
      hide ItemsText, ParseItems, SkipNewlines, Readable, PayloadLength, Framed, ItemText;
      var body := it.payload + rest;
      var n := PayloadLength(LengthOf(it.headers), body);
      var tail := if n.None? then None else ParseItems(tokenize, SkipNewlines(body[n.value..]));
      Compare(PruneItem(it), n, body, |it.payload|, tail, PruneAll(more));
    }
  }

  lemma FramedAll(items: seq<Item>)
    requires items != []
    ensures (forall i :: 0 <= i < |items| ==> Framed(items[i]))
       <==> Framed(items[0]) && forall i :: 0 <= i < |items[1..]| ==> Framed(items[1..][i])
  {
    hide Framed;
    assert forall i :: 1 <= i < |items| ==> items[i] == items[1..][i - 1];
  }

  /** A result with this first item needs its payload cut at the right place. */
  lemma Compare(it: Item, n: Option<nat>, body: Bytes, size: nat, tail: Option<seq<Item>>, more: seq<Item>)
    requires n.Some? ==> n.value <= |body|
    requires size <= |body| && it.payload == body[..size]
    ensures (if n.None? then None else Prepend(Item(it.headers, body[..n.value]), tail)) == Some([it] + more)
       <==> n == Some(size) && tail == Some(more)
  {
    if n.Some? && tail.Some? {
      var x := Item(it.headers, body[..n.value]);
      assert ([x] + tail.value)[0] == x && ([it] + more)[0] == it;
      assert ([x] + tail.value)[1..] == tail.value && ([it] + more)[1..] == more;
      assert |x.payload| == n.value && |it.payload| == size;
    }
  }

  lemma DelimitedAll(tokenize: Bytes -> seq<Token>, items: seq<Item>)
    requires forall i :: 0 <= i < |items| ==> Readable(tokenize, items[i].headers)
    ensures (forall i :: 0 <= i < |items| ==> Framed(items[i]))
       <==> forall i :: 0 <= i < |items| ==> items[i].headers.Object? && Delimited(items[i])
  {
    forall i | 0 <= i < |items| ensures items[i].headers.Object? && (Framed(items[i]) <==> Delimited(items[i])) {
      assert Readable(tokenize, items[i].headers);
      FramedMeans(items[i]);
    }
    hide Framed, Delimited, Readable;
  }

  /** What an integer length does, whatever the size of the payload: it cuts off that many
      bytes of what follows the header, or is rejected. */
  lemma LengthDecides(tokenize: Bytes -> seq<Token>, it: Item, n: int, rest: Bytes)
    requires Readable(tokenize, it.headers) && FirstNamed(it.headers.fields, "length") == Some(Int(n))
    ensures
      var body := it.payload + rest;
      ParseItems(tokenize, ItemText(it) + rest)
      == if n < 0 || n >= SIZE_MAX || n > |body| then None
         else Prepend(Item(Prune(it.headers, MAX_DEPTH), body[..n]), ParseItems(tokenize, SkipNewlines(body[n..])))
  {
    FirstItem(tokenize, it, rest);
    LookupMeans(it.headers.fields);
    hide Readable, Lookup, FirstNamed, LengthKey, ParseItems, SkipNewlines, ItemText, Prune;
  }

  /** Main result: an envelope is read back as it was written, exactly if every payload is
      delimited by its header. */
  lemma RoundTrip(tokenize: Bytes -> seq<Token>, e: Parts)
    requires Readable(tokenize, e.headers)
    requires forall i :: 0 <= i < |e.items| ==>
      Readable(tokenize, e.items[i].headers) && |e.items[i].payload| < SIZE_MAX
    ensures Deserialize(tokenize, Serialize(e)) == Some(Parts(Prune(e.headers, MAX_DEPTH), PruneAll(e.items)))
       <==> forall i :: 0 <= i < |e.items| ==> e.items[i].headers.Object? && Delimited(e.items[i])
  {
    DelimitedAll(tokenize, e.items);
    hide *;
    HeaderReads(tokenize, e.headers);
    ItemsTextStart(tokenize, e.items);
    ItemsRoundTrip(tokenize, e.items);
    AfterHeaders(tokenize, e, Prune(e.headers, MAX_DEPTH));
  }

  lemma {:induction false} AfterHeaders(tokenize: Bytes -> seq<Token>, e: Parts, h: Value)
    requires h.Object? && ReadHeader(tokenize, HeaderText(e.headers)) == h
    requires HeaderText(e.headers) != [] && NEWLINE !in HeaderText(e.headers)
    requires ItemsText(e.items) == if e.items == [] then [] else [NEWLINE] + SkipNewlines(ItemsText(e.items))
    ensures
      var items := ParseItems(tokenize, SkipNewlines(ItemsText(e.items)));
      Deserialize(tokenize, Serialize(e)) == if items.None? then None else Some(Parts(h, items.value))
  {
    var text, rest := HeaderText(e.headers), ItemsText(e.items);
    assert SkipNewlines(rest) == if rest == [] then [] else rest[1..];
    hide HeaderText, ItemsText, ParseItems, ReadHeader, SkipNewlines;
    LineEndOf(text, rest);
    assert (text + rest)[..|text|] == text;
    assert rest != [] ==> (text + rest)[|text| + 1..] == rest[1..];
  }

  /** Within the nesting that the writer prints in full, nothing is lost. */
  lemma {:induction false} PruneNothing(items: seq<Item>)
    requires forall i :: 0 <= i < |items| ==> Depth(items[i].headers) <= MAX_DEPTH
    ensures PruneAll(items) == items
  {
    if items != [] {
      PruneDepth(items[0].headers, MAX_DEPTH);
      PruneNothing(items[1..]);
      hide Prune, Depth;
    }
  }

  // ------------------------------------------------------- with the SDK's tokenizer

  /** Headers the SDK can hold: an object of proper values whose doubles print as numerals. */
  predicate Sendable(h: Value) { h.Object? && Proper(h) && JsonText.Printable(h) }

  lemma {:induction false} PrintableOneLine(v: Value)
    requires JsonText.Printable(v)
    ensures OneLine(v)
    decreases v
  {
    match v
    case List(items) => PrintableOneLineItems(items);
    case Object(fields) => PrintableOneLineFields(fields);
    case _ =>
  }

  lemma {:induction false} PrintableOneLineItems(vs: Values)
    requires JsonText.PrintableItems(vs)
    ensures OneLineItems(vs)
    decreases vs
  {
    if vs.Cons? { PrintableOneLine(vs.head); PrintableOneLineItems(vs.tail); }
  }

  lemma {:induction false} PrintableOneLineFields(fs: Fields)
    requires JsonText.PrintableFields(fs)
    ensures OneLineFields(fs)
    decreases fs
  {
    if fs.Field? { PrintableOneLine(fs.value); PrintableOneLineFields(fs.rest); }
  }

  lemma SendableIsReadable(h: Value)
    requires Sendable(h)
    ensures Readable(Jsmn.Tokenize, h)
  {
    PrintableOneLine(h);
    JsonText.PrunePrintable(h, MAX_DEPTH);
    JsonText.TokenizePrinted(Prune(h, MAX_DEPTH));
    hide Prune, Print, Tokens, OneLine, JsonText.Printable, Jsmn.Tokenize, Proper;
  }

  /** Main result: from bytes to bytes, an envelope is read back as it was written exactly
      if every payload is delimited by its header. */
  lemma EnvelopeRoundTrip(e: Parts)
    requires Sendable(e.headers)
    requires forall i :: 0 <= i < |e.items| ==> Sendable(e.items[i].headers) && |e.items[i].payload| < SIZE_MAX
    ensures Deserialize(Jsmn.Tokenize, Serialize(e)) == Some(Parts(Prune(e.headers, MAX_DEPTH), PruneAll(e.items)))
       <==> forall i :: 0 <= i < |e.items| ==> e.items[i].headers.Object? && Delimited(e.items[i])
  {
    hide *;
    SendableIsReadable(e.headers);
    forall i | 0 <= i < |e.items|
      ensures Readable(Jsmn.Tokenize, e.items[i].headers) && |e.items[i].payload| < SIZE_MAX
    {
      SendableIsReadable(e.items[i].headers);
    }
    RoundTrip(Jsmn.Tokenize, e);
  }
}
