/** Envelopes, structured or raw. */
module Envelope {
  import opened Bytes
  import opened Wrappers
  import opened JsonValue
  import JsonTokens
  import opened EnvelopeCodec

  /** The two members of the union. */
  datatype Contents = Structured(headers: Value, items: seq<Item>) | Raw(payload: Bytes)

  function Concat(done: seq<Item>, r: Option<seq<Item>>): Option<seq<Item>> {
    if r.None? then None else Some(done + r.value)
  }

  lemma ConcatPrepend(done: seq<Item>, it: Item, r: Option<seq<Item>>)
    ensures Concat(done, Prepend(it, r)) == Concat(done + [it], r)
  {
    if r.Some? { assert done + ([it] + r.value) == done + [it] + r.value; }
  }

  lemma ConcatNothing(r: Option<seq<Item>>)
    ensures Concat([], r) == r
  {
    if r.Some? { assert [] + r.value == r.value; }
  }

  /** An item with this line of headers, at the start of `body`, and those after it. */
  function ParseItem(tokenize: Bytes -> seq<JsonTokens.Token>, line: Bytes, body: Bytes): Option<seq<Item>> {
    var h := ReadHeader(tokenize, line);
    var n := PayloadLength(LengthOf(h), body);
    if !h.Object? || n.None? then None
    else Prepend(Item(h, body[..n.value]), ParseItems(tokenize, SkipNewlines(body[n.value..])))
  }

  lemma ParseItemsStep(tokenize: Bytes -> seq<JsonTokens.Token>, s: Bytes)
    requires s != []
    ensures var k := LineEnd(s);
      ParseItems(tokenize, s) == if k == |s| then None else ParseItem(tokenize, s[..k], s[k + 1..])
  {
    hide ReadHeader, LengthOf, PayloadLength, LineEnd;
  }

  class Envelope {
    var contents: Contents

    constructor (contents: Contents)
      ensures this.contents == contents
    {
      this.contents := contents;
    }

    /** A raw envelope takes no items; a new item has no headers and no payload. */
    method AddItem() returns (ok: bool)
      modifies this
      ensures ok == old(contents).Structured?
      ensures contents == if !ok then old(contents)
                          else old(contents).(items := old(contents).items + [Item(Object(NoFields), [])])
    {
      if contents.Raw? { return false; }
      contents := contents.(items := contents.items + [Item(Object(NoFields), [])]);
      return true;
    }

    method SetLast(it: Item)
      requires contents.Structured? && contents.items != []
      modifies this
      ensures contents == old(contents).(items := old(contents).items[..|old(contents).items| - 1] + [it])
    {
      contents := contents.(items := contents.items[..|contents.items| - 1] + [it]);
    }

    /** `deserialize_into`: the cursor over the buffer. On failure, what was read so far
        stays behind. */
    method DeserializeInto(tokenize: Bytes -> seq<JsonTokens.Token>, buf: Bytes) returns (ok: bool)
      requires contents.Structured? && contents.items == []
      modifies this
      ensures contents.Structured?
      ensures ok == Deserialize(tokenize, buf).Some?
      ensures ok ==> Parts(contents.headers, contents.items) == Deserialize(tokenize, buf).value
    {
      if buf == [] { return false; }
      var end := LineEnd(buf);
      contents := contents.(headers := ReadHeader(tokenize, buf[..end]));
      if !contents.headers.Object? { return false; }
      var ptr := if end < |buf| then end + 1 else end;
      ghost var start := if end < |buf| then buf[end + 1..] else [];
      assert buf[ptr..] == start;
      ConcatNothing(ParseItems(tokenize, start));
      hide ParseItems, ReadHeader;
      while ptr < |buf|
        invariant ptr <= |buf| && contents.Structured? && contents.headers == ReadHeader(tokenize, buf[..end])
        invariant ParseItems(tokenize, start) == Concat(contents.items, ParseItems(tokenize, buf[ptr..]))
      {
        ptr, ok := ReadItem(tokenize, buf, ptr, start);
        if !ok { return false; }
      }
      ParseNothing(tokenize, buf[ptr..], contents.items);
      return true;
    }

    /** The body of that loop. */
    method ReadItem(tokenize: Bytes -> seq<JsonTokens.Token>, buf: Bytes, at: nat, ghost start: Bytes)
      returns (ptr: nat, ok: bool)
      requires contents.Structured? && at < |buf|
      requires ParseItems(tokenize, start) == Concat(contents.items, ParseItems(tokenize, buf[at..]))
      modifies this
      ensures contents.Structured? && contents.headers == old(contents).headers
      ensures !ok ==> ParseItems(tokenize, start) == None
      ensures ok ==> at < ptr <= |buf|
      ensures ok ==> ParseItems(tokenize, start) == Concat(contents.items, ParseItems(tokenize, buf[ptr..]))
    {
      ghost var done := contents.items;
      ok := AddItem();
      var it;
      it, ptr := ScanItem(tokenize, buf, at);
      if it.None? { return ptr, false; }
      SetLast(it.value);
      ConcatPrepend(done, it.value, ParseItems(tokenize, buf[ptr..]));
      assert contents.items == done + [it.value];
      return ptr, true;
    }

    /** Raw contents are parsed in place; if that fails they are put back. */
    method Materialize(tokenize: Bytes -> seq<JsonTokens.Token>) returns (ok: bool)
      modifies this
      ensures old(contents).Structured? ==> ok && contents == old(contents)
      ensures old(contents).Raw? ==>
        var parsed := Deserialize(tokenize, old(contents).payload);
        && ok == parsed.Some?
        && contents == if ok then Structured(parsed.value.headers, parsed.value.items) else old(contents)
    {
      if contents.Structured? { return true; }
      var payload := contents.payload;
      contents := Structured(Object(NoFields), []);
      ok := DeserializeInto(tokenize, payload);
      if !ok { contents := Raw(payload); }
    }

    /** `sentry__envelope_serialize_into_stringbuilder` */
    method SerializeInto() returns (text: Bytes)
      ensures text == match contents
        case Raw(payload) => payload
        case Structured(h, items) => Serialize(Parts(h, items))
    {
      if contents.Raw? { return contents.payload; }
      var items := contents.items;
      text := HeaderText(contents.headers);
      var i := 0;
      while i < |items|
        invariant i <= |items|
        invariant text + ItemsText(items[i..]) == Serialize(Parts(contents.headers, items))
      {
        ghost var rest := ItemsText(items[i + 1..]);
        assert items[i..][1..] == items[i + 1..];
        Regroup(text, ItemText(items[i]), rest);
        text := text + [NEWLINE] + ItemText(items[i]);
        i := i + 1;
      }
      assert items[i..] == [];
    }
  }

  lemma Regroup(a: Bytes, b: Bytes, c: Bytes)
    ensures a + ([NEWLINE] + b + c) == a + [NEWLINE] + b + c
  {
  }

  lemma ParseNothing(tokenize: Bytes -> seq<JsonTokens.Token>, s: Bytes, done: seq<Item>)
    requires s == []
    ensures Concat(done, ParseItems(tokenize, s)) == Some(done)
  {
    assert done + [] == done;
  }

  /** Headers and payload of the item at the cursor. */
  method ScanItem(tokenize: Bytes -> seq<JsonTokens.Token>, buf: Bytes, at: nat) returns (it: Option<Item>, ptr: nat)
    requires at < |buf|
    ensures it.None? ==> ParseItems(tokenize, buf[at..]) == None
    ensures it.Some? ==> at < ptr <= |buf|
    ensures it.Some? ==> ParseItems(tokenize, buf[at..]) == Prepend(it.value, ParseItems(tokenize, buf[ptr..]))
  {
    hide *;
    ParseItemsAt(tokenize, buf, at);
    var line := LineEnd(buf[at..]);
    var end := at + line;
    if end == |buf| { return None, at; }
    var headers := ReadHeader(tokenize, buf[at..end]);
    ptr := end + 1;
    ParseItemAt(tokenize, buf[at..end], buf, ptr);
    if !headers.Object? { return None, at; }
    var n := PayloadLength(LengthOf(headers), buf[ptr..]);
    if n.None? { return None, ptr; }
    it := Some(Item(headers, buf[ptr..ptr + n.value]));
    ptr := SkipLines(buf, ptr + n.value);
  }

  /** One turn of the loop, by positions in the buffer. */
  lemma ParseItemsAt(tokenize: Bytes -> seq<JsonTokens.Token>, buf: Bytes, at: nat)
    requires at < |buf|
    ensures var end := at + LineEnd(buf[at..]);
      ParseItems(tokenize, buf[at..])
      == if end == |buf| then None else ParseItem(tokenize, buf[at..end], buf[end + 1..])
  {
    hide *;
    ParseItemsStep(tokenize, buf[at..]);
    Slices(buf, at, LineEnd(buf[at..]));
  }

  lemma ParseItemAt(tokenize: Bytes -> seq<JsonTokens.Token>, line: Bytes, buf: Bytes, ptr: nat)
    requires ptr <= |buf|
    ensures
      var h := ReadHeader(tokenize, line);
      var n := PayloadLength(LengthOf(h), buf[ptr..]);
      ParseItem(tokenize, line, buf[ptr..])
      == if !h.Object? || n.None? then None
         else Prepend(Item(h, buf[ptr..ptr + n.value]), ParseItems(tokenize, SkipNewlines(buf[ptr + n.value..])))
  {
    hide ReadHeader, LengthOf, PayloadLength, Prepend, ParseItems, SkipNewlines;
    var n := PayloadLength(LengthOf(ReadHeader(tokenize, line)), buf[ptr..]);
    if n.Some? { Slices(buf, ptr, n.value); }
  }

  lemma Slices(s: Bytes, at: nat, n: nat)
    requires at + n <= |s|
    ensures s[at..][..n] == s[at..at + n] && s[at..][n..] == s[at + n..]
    ensures at + n < |s| ==> s[at..][n + 1..] == s[at + n + 1..]
  {
  }

  method SkipLines(buf: Bytes, at: nat) returns (ptr: nat)
    requires at <= |buf|
    ensures at <= ptr <= |buf| && buf[ptr..] == SkipNewlines(buf[at..])
  {
    ptr := at;
    while ptr < |buf| && buf[ptr] == NEWLINE
      invariant at <= ptr <= |buf| && SkipNewlines(buf[at..]) == SkipNewlines(buf[ptr..])
    {
      assert buf[ptr..][1..] == buf[ptr + 1..];
      ptr := ptr + 1;
    }
  }
}
