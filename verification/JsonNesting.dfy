/** Which sequences of writer calls are well nested, and that they are those of values. */
module JsonNesting {
  import opened Bytes
  import opened Wrappers
  import opened JsonValue
  import opened JsonWriter

  /** What an open level waits for: the root for its one value, a list for items or its
      end, an object for a key or its end, or for the value of a key. */
  datatype Level = Root(done: bool) | InList | InObject(keyed: bool)

  predicate TakesValue(l: Level) { l == Root(false) || l == InList || l == InObject(true) }

  /** The level after it has taken a value. */
  function Taken(l: Level): Level {
    match l
    case Root(_) => Root(true)
    case InList => InList
    case InObject(_) => InObject(false)
  }

  /** The open levels, innermost first, after one more call, if the call is in place. */
  function Nest(levels: seq<Level>, c: Call): Option<seq<Level>>
    requires levels != []
  {
    var top, rest := levels[0], levels[1..];
    match c
    case Atom(_) => if TakesValue(top) then Some([Taken(top)] + rest) else None
    case Key(_) => if top == InObject(false) then Some([InObject(true)] + rest) else None
    case Open(b) =>
      if !TakesValue(top) || (b != 91 && b != 123) then None
      else Some([if b == 91 then InList else InObject(false)] + ([Taken(top)] + rest))
    case Close(b) =>
      if rest != [] && ((top == InList && b == 93) || (top == InObject(false) && b == 125)) then Some(rest) else None
  }

  /** From these levels, the calls are all in place and complete the root. */
  predicate Accepts(levels: seq<Level>, cs: seq<Call>)
    requires levels != []
    decreases |cs|
  {
    if cs == [] then levels == [Root(true)]
    else Nest(levels, cs[0]).Some? && Nest(levels, cs[0]).value != [] && Accepts(Nest(levels, cs[0]).value, cs[1..])
  }

  /** Well-nested calls from one root. */
  predicate WellNested(cs: seq<Call>) { Accepts([Root(false)], cs) }

  // ------------------------------------------------------- the calls of a value are well nested

  lemma First(c: Call, cs: seq<Call>)
    ensures ([c] + cs)[0] == c && ([c] + cs)[1..] == cs
  {
  }

  lemma Regroup(a: seq<Call>, b: seq<Call>, c: seq<Call>)
    ensures a + b + c == a + (b + c)
  {
  }

  lemma {:induction false} AcceptsValue(top: Level, rest: seq<Level>, v: Value, cs: seq<Call>)
    requires TakesValue(top) && Accepts([Taken(top)] + rest, cs)
    ensures Accepts([top] + rest, Calls(v) + cs)
    decreases v
  {
    var after := [Taken(top)] + rest;
    match v
    case List(items) =>
      AcceptsClose(after, InList, 93, cs);
      hide *;
      AcceptsItems(after, items, [Close(93)] + cs);
      AcceptsOpen(top, rest, 91, ItemCalls(items) + ([Close(93)] + cs));
      CallsOfList(items, cs);
    case Object(fields) =>
      AcceptsClose(after, InObject(false), 125, cs);
      hide *;
      AcceptsFields(after, fields, [Close(125)] + cs);
      AcceptsOpen(top, rest, 123, FieldCalls(fields) + ([Close(125)] + cs));
      CallsOfObject(fields, cs);
    case _ => First(Atom(AtomText(v)), cs);
  }

  lemma CallsOfList(items: Values, cs: seq<Call>)
    ensures Calls(List(items)) + cs == [Open(91)] + (ItemCalls(items) + ([Close(93)] + cs))
  {
    Regroup([Open(91)] + ItemCalls(items), [Close(93)], cs);
    Regroup([Open(91)], ItemCalls(items), [Close(93)] + cs);
  }

  lemma CallsOfObject(fields: Fields, cs: seq<Call>)
    ensures Calls(Object(fields)) + cs == [Open(123)] + (FieldCalls(fields) + ([Close(125)] + cs))
  {
    Regroup([Open(123)] + FieldCalls(fields), [Close(125)], cs);
    Regroup([Open(123)], FieldCalls(fields), [Close(125)] + cs);
  }

  lemma AcceptsClose(after: seq<Level>, top: Level, b: Byte, cs: seq<Call>)
    requires after != [] && Accepts(after, cs) && ((top == InList && b == 93) || (top == InObject(false) && b == 125))
    ensures Accepts([top] + after, [Close(b)] + cs)
  {
    First(Close(b), cs);
    assert ([top] + after)[1..] == after;
  }

  lemma AcceptsOpen(top: Level, rest: seq<Level>, b: Byte, cs: seq<Call>)
    requires TakesValue(top) && (b == 91 || b == 123)
    requires Accepts([if b == 91 then InList else InObject(false)] + ([Taken(top)] + rest), cs)
    ensures Accepts([top] + rest, [Open(b)] + cs)
  {
    First(Open(b), cs);
    assert ([top] + rest)[1..] == rest;
  }

  lemma {:induction false} AcceptsItems(rest: seq<Level>, vs: Values, cs: seq<Call>)
    requires Accepts([InList] + rest, cs)
    ensures Accepts([InList] + rest, ItemCalls(vs) + cs)
    decreases vs
  {
    match vs
    case Nil => assert ItemCalls(vs) + cs == cs;
    case Cons(v, more) =>
      AcceptsItems(rest, more, cs);
      AcceptsValue(InList, rest, v, ItemCalls(more) + cs);
      Regroup(Calls(v), ItemCalls(more), cs);
  }

  lemma {:induction false} AcceptsFields(rest: seq<Level>, fs: Fields, cs: seq<Call>)
    requires Accepts([InObject(false)] + rest, cs)
    ensures Accepts([InObject(false)] + rest, FieldCalls(fs) + cs)
    decreases fs
  {
    match fs
    case NoFields => assert FieldCalls(fs) + cs == cs;
    case Field(k, v, more) =>
      AcceptsFields(rest, more, cs);
      AcceptsValue(InObject(true), rest, v, FieldCalls(more) + cs);
      Regroup([Key(k)] + Calls(v), FieldCalls(more), cs);
      Regroup([Key(k)], Calls(v), FieldCalls(more) + cs);
      First(Key(k), Calls(v) + (FieldCalls(more) + cs));
  }

  // ------------------------------------------------------- and there are no others

  /** The value that the calls start with, where one is due. */
  lemma {:induction false} TakeValue(top: Level, rest: seq<Level>, cs: seq<Call>) returns (v: Value, more: seq<Call>)
    requires Accepts([top] + rest, cs) && TakesValue(top) && cs != [] && !cs[0].Close?
    ensures cs == Calls(v) + more && Accepts([Taken(top)] + rest, more)
    decreases |cs|, 0
  {
    var after := [Taken(top)] + rest;
    assert ([top] + rest)[1..] == rest;
    assert cs == [cs[0]] + cs[1..];
    match cs[0]
    case Atom(text) =>
      v, more := Real(text), cs[1..];
    case Open(b) =>
      if b == 91 {
        var items;
        items, more := TakeItems(after, cs[1..]);
        v := List(items);
        Regroup([Open(91)], ItemCalls(items) + [Close(93)], more);
        Regroup([Open(91)], ItemCalls(items), [Close(93)]);
      } else {
        var fields;
        fields, more := TakeFields(after, cs[1..]);
        v := Object(fields);
        Regroup([Open(123)], FieldCalls(fields) + [Close(125)], more);
        Regroup([Open(123)], FieldCalls(fields), [Close(125)]);
      }
  }

  lemma {:induction false} TakeItems(rest: seq<Level>, cs: seq<Call>) returns (vs: Values, more: seq<Call>)
    requires rest != [] && Accepts([InList] + rest, cs)
    ensures cs == ItemCalls(vs) + [Close(93)] + more && Accepts(rest, more)
    decreases |cs|, 1
  {
    assert ([InList] + rest)[0] == InList && ([InList] + rest)[1..] == rest;
    assert cs != [] && cs == [cs[0]] + cs[1..];
    if cs[0].Close? {
      vs, more := Nil, cs[1..];
    } else {
      var v, cs1 := TakeValue(InList, rest, cs);
      assert |Calls(v)| > 0 by { CallsNotEmpty(v); }
      var tail;
      tail, more := TakeItems(rest, cs1);
      vs := Cons(v, tail);
      Regroup(Calls(v), ItemCalls(tail) + [Close(93)], more);
      Regroup(Calls(v), ItemCalls(tail), [Close(93)]);
    }
  }

  lemma {:induction false} TakeFields(rest: seq<Level>, cs: seq<Call>) returns (fs: Fields, more: seq<Call>)
    requires rest != [] && Accepts([InObject(false)] + rest, cs)
    ensures cs == FieldCalls(fs) + [Close(125)] + more && Accepts(rest, more)
    decreases |cs|, 1
  {
    assert ([InObject(false)] + rest)[0] == InObject(false) && ([InObject(false)] + rest)[1..] == rest;
    assert cs != [] && cs == [cs[0]] + cs[1..];
    if cs[0].Close? {
      fs, more := NoFields, cs[1..];
    } else {
      var k := cs[0].k;
      assert Accepts([InObject(true)] + rest, cs[1..]);
      assert cs[1..] != [] && !cs[1].Close? by { KeyNeedsValue(rest, cs[1..]); }
      var v, cs1 := TakeValue(InObject(true), rest, cs[1..]);
      var tail;
      tail, more := TakeFields(rest, cs1);
      fs := Field(k, v, tail);
      Regroup([Key(k)] + Calls(v), FieldCalls(tail) + [Close(125)], more);
      Regroup([Key(k)] + Calls(v), FieldCalls(tail), [Close(125)]);
      Regroup([Key(k)], Calls(v), cs1);
    }
  }

  lemma CallsNotEmpty(v: Value)
    ensures |Calls(v)| > 0
  {
  }

  lemma KeyNeedsValue(rest: seq<Level>, cs: seq<Call>)
    requires Accepts([InObject(true)] + rest, cs)
    ensures cs != [] && !cs[0].Close?
  {
  }

  /** Calls are well nested if and only if they are the calls of a value. */
  lemma WellNestedIffCalls(cs: seq<Call>)
    ensures WellNested(cs) <==> exists v :: Calls(v) == cs
  {
    if WellNested(cs) {
      assert [Root(false)] + [] == [Root(false)];
      RootNeedsValue(cs);
      var v, more := TakeValue(Root(false), [], cs);
      RootIsDone(more);
      assert Calls(v) + [] == Calls(v);
    }
    if v :| Calls(v) == cs {
      assert [Root(false)] + [] == [Root(false)] && [Root(true)] + [] == [Root(true)];
      AcceptsValue(Root(false), [], v, []);
      assert Calls(v) + [] == Calls(v);
    }
  }

  lemma RootNeedsValue(cs: seq<Call>)
    requires Accepts([Root(false)], cs)
    ensures cs != [] && !cs[0].Close?
  {
  }

  lemma RootIsDone(cs: seq<Call>)
    requires Accepts([Taken(Root(false))] + [], cs)
    ensures cs == []
  {
  }

  /** Main result: any well-nested calls, however deep, write the canonical print of a tree
      without the items that 64 or more containers enclose; and it is their own tree. */
  lemma WellNestedWritesPrunedTree(cs: seq<Call>) returns (v: Value)
    requires WellNested(cs)
    ensures Calls(v) == cs
    ensures Run(Writer([], [false], false), cs) == Writer(Print(Prune(v, 64)), [true], false)
  {
    WellNestedIffCalls(cs);
    v :| Calls(v) == cs;
    WritesPrunedTree(v);
  }
}
