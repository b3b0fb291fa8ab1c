/** How the tokenizer goes through a well-formed text, wherever it stands. */
module JsonScan {
  import opened Bytes
  import opened Wrappers
  import opened JsonTokens
  import opened JsonDoc
  import opened Jsmn

  /** `t` stands at position `at` of `js`. */
  predicate Here(js: Bytes, at: nat, t: Bytes) { at + |t| <= |js| && js[at..at + |t|] == t }

  lemma HereSplit(js: Bytes, at: nat, a: Bytes, b: Bytes)
    requires Here(js, at, a + b)
    ensures Here(js, at, a) && Here(js, at + |a|, b)
  {
    var t := js[at..at + |a + b|];
    assert t[..|a|] == a && t[|a|..] == b;
  }

  lemma HereFirst(js: Bytes, at: nat, t: Bytes)
    requires t != [] && Here(js, at, t)
    ensures at < |js| && js[at] == t[0]
    ensures Here(js, at + 1, t[1..])
  {
    assert js[at..at + |t|][0] == t[0];
    assert [t[0]] + t[1..] == t;
    HereSplit(js, at, [t[0]], t[1..]);
  }

  /** No word goes on here. */
  predicate After(js: Bytes, at: nat) {
    at == |js| || (at < |js| && js[at] in {9, 10, 13, 32, 44, 93, 125})
  }

  // ------------------------------------------------------- strings

  lemma HexRun(js: Bytes, at: nat)
    requires at + 4 <= |js| && Hex(js[at]) && Hex(js[at + 1]) && Hex(js[at + 2]) && Hex(js[at + 3])
    ensures HexEnd(js, at, 4) == Some(at + 4)
  {
    assert HexEnd(js, at + 4, 0) == Some(at + 4);
    assert HexEnd(js, at + 3, 1) == Some(at + 4);
    assert HexEnd(js, at + 2, 2) == Some(at + 4);
    assert HexEnd(js, at + 1, 3) == Some(at + 4);
  }

  lemma UnicodeTurn(js: Bytes, at: nat)
    requires at + 6 <= |js| && js[at] == 92 && js[at + 1] == 117 && HexEnd(js, at + 2, 4) == Some(at + 6)
    ensures StringEnd(js, at) == StringEnd(js, at + 6)
  {
    hide HexEnd;
  }

  lemma EscapedTurn(js: Bytes, at: nat)
    requires at + 2 <= |js| && js[at] == 92 && Escapable(js[at + 1])
    ensures StringEnd(js, at) == StringEnd(js, at + 2)
  {
    hide HexEnd;
  }

  lemma PlainTurn(js: Bytes, at: nat)
    requires at < |js| && js[at] != 92 && js[at] != 34 && js[at] != 0
    ensures StringEnd(js, at) == StringEnd(js, at + 1)
  {
    hide HexEnd;
  }

  /** The quote behind the inside of a string is the first one the tokenizer stops at. */
  lemma {:induction false} BodyEnd(js: Bytes, at: nat, raw: Bytes)
    requires Body(raw) && Here(js, at, raw + [34])
    ensures StringEnd(js, at) == Some(at + |raw|)
    decreases |raw|
  {
    hide StringEnd;
    HereFirst(js, at, raw + [34]);
    if raw == [] {
      QuoteTurn(js, at);
    } else if raw[0] != 92 {
      PlainTurn(js, at);
      BodyRest(js, at, raw, 1);
      BodyEnd(js, at + 1, raw[1..]);
    } else if raw[1] != 117 {
      HereAt(js, at, raw + [34], 1);
      EscapedTurn(js, at);
      BodyRest(js, at, raw, 2);
      BodyEnd(js, at + 2, raw[2..]);
    } else {
      HereAt(js, at, raw + [34], 1);
      HereAt(js, at, raw + [34], 2);
      HereAt(js, at, raw + [34], 3);
      HereAt(js, at, raw + [34], 4);
      HereAt(js, at, raw + [34], 5);
      assert HexByte(raw[2]) && HexByte(raw[3]) && HexByte(raw[4]) && HexByte(raw[5]);
      HexRun(js, at + 2);
      UnicodeTurn(js, at);
      BodyRest(js, at, raw, 6);
      BodyEnd(js, at + 6, raw[6..]);
    }
  }

  lemma QuoteTurn(js: Bytes, at: nat)
    requires at < |js| && js[at] == 34
    ensures StringEnd(js, at) == Some(at)
  {
  }

  lemma HereAt(js: Bytes, at: nat, t: Bytes, k: nat)
    requires Here(js, at, t) && k < |t|
    ensures at + k < |js| && js[at + k] == t[k]
  {
    assert js[at..at + |t|][k] == t[k];
  }

  lemma BodyRest(js: Bytes, at: nat, raw: Bytes, n: nat)
    requires n <= |raw| && Here(js, at, raw + [34])
    ensures Here(js, at + n, raw[n..] + [34])
  {
    assert raw + [34] == raw[..n] + (raw[n..] + [34]);
    HereSplit(js, at, raw[..n], raw[n..] + [34]);
  }

  // ------------------------------------------------------- words and white space

  lemma {:induction false} SolidEnd(js: Bytes, at: nat, t: Bytes)
    requires Here(js, at, t) && After(js, at + |t|) && forall k :: 0 <= k < |t| ==> Solid(t[k])
    ensures PrimEnd(js, at) == Some(at + |t|)
    decreases |t|
  {
    if t != [] {
      HereFirst(js, at, t);
      SolidEnd(js, at + 1, t[1..]);
    }
  }

  // ------------------------------------------------------- open tokens

  predicate AllClosed(ts: seq<Tok>) { forall i :: 0 <= i < |ts| ==> ts[i].end != -1 }

  predicate OpenAreContainers(ts: seq<Tok>) { forall i :: 0 <= i < |ts| && ts[i].end == -1 ==> Container(ts[i].kind) }

  lemma {:induction false} LastOpenBefore(a: seq<Tok>, b: seq<Tok>)
    requires AllClosed(b)
    ensures LastOpen(a + b) == LastOpen(a)
    decreases |b|
  {
    if b == [] {
      assert a + b == a;
    } else {
      var b' := b[..|b| - 1];
      assert (a + b)[..|a + b| - 1] == a + b';
      LastOpenBefore(a, b');
    }
  }

  lemma {:induction false} SameOpen(a: seq<Tok>, b: seq<Tok>)
    requires |a| == |b| && forall i :: 0 <= i < |a| ==> a[i].end == b[i].end
    ensures LastOpen(a) == LastOpen(b)
  {
    if a != [] { SameOpen(a[..|a| - 1], b[..|b| - 1]); }
  }

  lemma {:induction false} ContainersOnly(a: seq<Tok>)
    requires OpenAreContainers(a)
    ensures LastOpenContainer(a) == LastOpen(a)
  {
    if a != [] { ContainersOnly(a[..|a| - 1]); }
  }

  // ------------------------------------------------------- values

  /** `n` more children of token `super`. */
  function Bumped(toks: seq<Tok>, super: int, n: nat): (r: seq<Tok>)
    requires -1 <= super < |toks|
    ensures |r| == |toks|
  {
    if super == -1 then toks else toks[super := toks[super].(size := toks[super].size + n)]
  }

  /** Both parsers go on alike. */
  ghost predicate Alike(js: Bytes, p: Parser, q: Parser, cap: nat) {
    p.Ok() && q.Ok() && Scan(js, p, cap) == Scan(js, q, cap)
  }

  /** What a value leaves behind: one more child of `super`, and its own tokens, all closed. */
  ghost predicate Leaves(js: Bytes, p: Parser, q: Parser, n: nat, new_: seq<Tok>, ts: seq<Token>) {
    && p.Ok() && q.Ok()
    && q.toks == Bumped(p.toks, p.super, n) + new_
    && AllClosed(new_) && AllSeen(js, new_) == ts
  }

  lemma OneTurn(js: Bytes, p: Parser, cap: nat)
    requires p.Ok() && !Done(js, p.pos) && Turn(js, p, cap).Some?
    ensures Alike(js, p, Turn(js, p, cap).value, cap)
  {
    TurnStep(js, p, cap);
    hide Turn, Scan;
  }

  lemma AllAlike(js: Bytes, p: Parser, q: Parser, r: Parser, cap: nat)
    requires Alike(js, p, q, cap) && Alike(js, q, r, cap)
    ensures Alike(js, p, r, cap) && p.Ok() && r.Ok()
  {
    hide Scan;
  }

  function Leaf(p: Parser, t: Tok, pos: nat): Parser
    requires p.Ok()
  {
    Parser(pos, Bumped(p.toks, p.super, 1) + [t], p.super)
  }

  lemma {:induction false} ScanBlanks(js: Bytes, p: Parser, cap: nat, b: Bytes)
    requires p.Ok() && Blanks(b) && Here(js, p.pos, b)
    ensures Alike(js, p, Parser(p.pos + |b|, p.toks, p.super), cap)
    decreases |b|
  {
    if b != [] {
      HereFirst(js, p.pos, b);
      assert b[0] in {9, 10, 13, 32};
      hide Scan;
      OneTurn(js, p, cap);
      var q := Parser(p.pos + 1, p.toks, p.super);
      ScanBlanks(js, q, cap, b[1..]);
    }
  }

  lemma ScanString(js: Bytes, p: Parser, cap: nat, raw: Bytes)
    requires p.Ok() && |p.toks| < cap && Body(raw) && Here(js, p.pos, Delimit(raw))
    ensures var t := Tok(STRING, p.pos + 1, p.pos + 1 + |raw|, 0);
      Alike(js, p, Leaf(p, t, p.pos + |Delimit(raw)|), cap) && Seen(js, t) == Text(raw)
  {
    hide Body, StringEnd, Scan;
    HereSplit(js, p.pos, [34], raw + [34]);
    HereSplit(js, p.pos + 1, raw, [34]);
    HereFirst(js, p.pos, [34]);
    BodyEnd(js, p.pos + 1, raw);
    OneTurn(js, p, cap);
  }

  lemma ScanWord(js: Bytes, p: Parser, cap: nat, text: Bytes)
    requires p.Ok() && |p.toks| < cap && Here(js, p.pos, text) && After(js, p.pos + |text|)
    requires Word(text)
    ensures var t := Tok(PRIMITIVE, p.pos, p.pos + |text|, 0);
      Alike(js, p, Leaf(p, t, p.pos + |text|), cap) && Seen(js, t) == Prim(text)
  {
    SolidEnd(js, p.pos, text);
    HereFirst(js, p.pos, text);
    assert Solid(text[0]);
    hide PrimEnd, Scan;
    OneTurn(js, p, cap);
  }

  lemma LeafLeaves(js: Bytes, p: Parser, t: Tok, pos: nat)
    requires p.Ok() && t.end != -1
    ensures Leaves(js, p, Leaf(p, t, pos), 1, [t], [Seen(js, t)])
  {
  }

  /** A container is opened: it is a child of `super`, and `super` from now on. */
  function Opened(p: Parser, k: Kind): Parser
    requires p.Ok()
  {
    Parser(p.pos + 1, Bumped(p.toks, p.super, 1) + [Tok(k, p.pos, -1, 0)], |p.toks|)
  }

  lemma ScanOpen(js: Bytes, p: Parser, cap: nat, k: Kind)
    requires p.Ok() && |p.toks| < cap && OpenAreContainers(p.toks) && Container(k)
    requires p.pos < |js| && js[p.pos] == if k == OBJECT then 123 else 91
    ensures var q := Opened(p, k);
      Alike(js, p, q, cap) && LastOpen(q.toks) == q.super && q.toks[q.super].kind == k && OpenAreContainers(q.toks)
  {
    hide Scan;
    OneTurn(js, p, cap);
  }

  /** A container is closed, after its own tokens `new_`. */
  lemma ScanClose(js: Bytes, q: Parser, base: seq<Tok>, t: Tok, new_: seq<Tok>, cap: nat)
    requires q.Ok() && q.toks == base + [t] + new_ && t.end == -1 && AllClosed(new_) && Container(t.kind)
    requires q.pos < |js| && js[q.pos] == if t.kind == OBJECT then 125 else 93
    ensures Alike(js, q, Parser(q.pos + 1, base + [t.(end := q.pos + 1)] + new_, LastOpen(base)), cap)
  {
    LastOpenBefore(base + [t], new_);
    assert LastOpen(base + [t]) == |base|;
    assert q.toks[..|base|] == base && q.toks[|base|] == t;
    assert q.toks[|base| := t.(end := q.pos + 1)] == base + [t.(end := q.pos + 1)] + new_;
    hide Scan, LastOpen;
    OneTurn(js, q, cap);
  }

  // ------------------------------------------------------- whole values

  /** The tokens of a text, wherever it stands. */
  lemma {:induction false} ScanValue(js: Bytes, p: Parser, cap: nat, v: Doc) returns (q: Parser, new_: seq<Tok>)
    requires p.Ok() && OpenAreContainers(p.toks) && WellFormed(v) && |p.toks| + |DocTokens(v)| <= cap
    requires Here(js, p.pos, Render(v)) && After(js, p.pos + |Render(v)|)
    ensures Alike(js, p, q, cap) && Leaves(js, p, q, 1, new_, DocTokens(v)) && q.pos == p.pos + |Render(v)|
    ensures q.super == p.super || q.super == LastOpen(p.toks)
    decreases v, 2
  {
    hide *;
    if v.Bracketed? || v.Braced? {
      q, new_ := ScanContainer(js, p, cap, v);
    } else {
      q, new_ := ScanLeaf(js, p, cap, v);
    }
  }

  lemma ScanLeaf(js: Bytes, p: Parser, cap: nat, v: Doc) returns (q: Parser, new_: seq<Tok>)
    requires p.Ok() && WellFormed(v) && |p.toks| + |DocTokens(v)| <= cap && !v.Bracketed? && !v.Braced?
    requires Here(js, p.pos, Render(v)) && After(js, p.pos + |Render(v)|)
    ensures Alike(js, p, q, cap) && Leaves(js, p, q, 1, new_, DocTokens(v)) && q.pos == p.pos + |Render(v)|
    ensures q.super == p.super
  {
    hide Here, After, Alike, Leaves, Seen, Body, Word, Delimit;
    var t;
    if v.Quote? {
      ScanString(js, p, cap, v.raw);
      t := Tok(STRING, p.pos + 1, p.pos + 1 + |v.raw|, 0);
    } else {
      ScanWord(js, p, cap, v.text);
      t := Tok(PRIMITIVE, p.pos, p.pos + |v.text|, 0);
    }
    q, new_ := Leaf(p, t, p.pos + |Render(v)|), [t];
    LeafLeaves(js, p, t, p.pos + |Render(v)|);
  }

  function Inner(v: Doc): Bytes
    requires v.Bracketed? || v.Braced?
  {
    v.blank + if v.Bracketed? then RenderItems(v.items) else RenderMembers(v.members)
  }

  function InnerTokens(v: Doc): seq<Token>
    requires v.Bracketed? || v.Braced?
  {
    if v.Bracketed? then ItemsTokens(v.items) else MembersTokens(v.members)
  }

  function InnerCount(v: Doc): nat
    requires v.Bracketed? || v.Braced?
  {
    if v.Bracketed? then ItemCount(v.items) else MemberCount(v.members)
  }

  function KindOf(v: Doc): Kind { if v.Braced? then OBJECT else ARRAY }

  /** A container is its brackets around what it holds, and its token before theirs. */
  lemma ContainerParts(js: Bytes, at: nat, v: Doc)
    requires (v.Bracketed? || v.Braced?) && Here(js, at, Render(v)) && WellFormed(v)
    ensures |Render(v)| == |Inner(v)| + 2 && at + |Inner(v)| + 2 <= |js|
    ensures js[at] == (if v.Braced? then 123 else 91)
    ensures js[at + 1 + |Inner(v)|] == (if v.Braced? then 125 else 93)
    ensures Here(js, at + 1, Inner(v)) && After(js, at + 1 + |Inner(v)|)
    ensures DocTokens(v) == [if v.Braced? then Obj(InnerCount(v)) else Arr(InnerCount(v))] + InnerTokens(v)
    ensures Blanks(v.blank) && if v.Bracketed? then ItemsFormed(v.items) else MembersFormed(v.members)
  {
    hide *;
    Brackets(v);
    Enclosed(js, at, if v.Braced? then 123 else 91, Inner(v), if v.Braced? then 125 else 93);
  }

  lemma Brackets(v: Doc)
    requires (v.Bracketed? || v.Braced?) && WellFormed(v)
    ensures Render(v) == [if v.Braced? then 123 else 91] + (Inner(v) + [if v.Braced? then 125 else 93])
    ensures DocTokens(v) == [if v.Braced? then Obj(InnerCount(v)) else Arr(InnerCount(v))] + InnerTokens(v)
    ensures Blanks(v.blank) && if v.Bracketed? then ItemsFormed(v.items) else MembersFormed(v.members)
  {
    hide RenderItems, RenderMembers, ItemsTokens, MembersTokens;
  }

  lemma Enclosed(js: Bytes, at: nat, a: Byte, t: Bytes, b: Byte)
    requires Here(js, at, [a] + (t + [b])) && b in {44, 93, 125}
    ensures at + |t| + 2 <= |js| && js[at] == a && js[at + 1 + |t|] == b
    ensures Here(js, at + 1, t) && After(js, at + 1 + |t|)
  {
    HereFirst(js, at, [a] + (t + [b]));
    HereSplit(js, at, [a], t + [b]);
    HereSplit(js, at + 1, t, [b]);
    HereFirst(js, at + 1 + |t|, [b]);
    hide Here;
  }

  lemma {:induction false} ScanContainer(js: Bytes, p: Parser, cap: nat, v: Doc) returns (q: Parser, new_: seq<Tok>)
    requires p.Ok() && OpenAreContainers(p.toks) && WellFormed(v) && |p.toks| + |DocTokens(v)| <= cap
    requires (v.Bracketed? || v.Braced?) && Here(js, p.pos, Render(v))
    ensures Alike(js, p, q, cap) && Leaves(js, p, q, 1, new_, DocTokens(v)) && q.pos == p.pos + |Render(v)|
    ensures q.super == LastOpen(p.toks)
    decreases v, 1
  {
    hide *;
    ContainerParts(js, p.pos, v);
    KindIs(v);
    ScanOpen(js, p, cap, KindOf(v));
    var p1 := Opened(p, KindOf(v));
    OpenedIs(p, KindOf(v));
    var q1, new1 := ScanInner(js, p1, cap, v);
    q := Parser(q1.pos + 1, Bumped(p.toks, p.super, 1) + [Tok(KindOf(v), p.pos, q1.pos + 1, InnerCount(v))] + new1,
                LastOpen(p.toks));
    new_ := [Tok(KindOf(v), p.pos, q1.pos + 1, InnerCount(v))] + new1;
    InnerLeaves(js, p, KindOf(v), q1, InnerCount(v), new1, InnerTokens(v));
    ScanClose(js, q1, Bumped(p.toks, p.super, 1), Tok(KindOf(v), p.pos, -1, InnerCount(v)), new1, cap);
    BumpedOpen(p);
    AllAlike(js, p, p1, q1, cap);
    AllAlike(js, p, q1, q, cap);
    ContainerLeaves(js, p, q, v, new1);
  }

  lemma KindIs(v: Doc)
    requires v.Bracketed? || v.Braced?
    ensures Container(KindOf(v)) && (KindOf(v) == OBJECT <==> v.Braced?) && (KindOf(v) == ARRAY <==> v.Bracketed?)
  {
  }

  lemma OpenedIs(p: Parser, k: Kind)
    requires p.Ok()
    ensures Opened(p, k).pos == p.pos + 1 && |Opened(p, k).toks| == |p.toks| + 1 && Opened(p, k).super == |p.toks|
    ensures Opened(p, k).Ok() && -1 <= p.super < |p.toks|
  {
  }

  lemma BumpedOpen(p: Parser)
    requires p.Ok()
    ensures LastOpen(Bumped(p.toks, p.super, 1)) == LastOpen(p.toks)
  {
    SameOpen(Bumped(p.toks, p.super, 1), p.toks);
  }

  lemma InnerLeaves(js: Bytes, p: Parser, k: Kind, q1: Parser, n: nat, new1: seq<Tok>, ts: seq<Token>)
    requires p.Ok() && Leaves(js, Opened(p, k), q1, n, new1, ts)
    ensures q1.Ok() && q1.toks == Bumped(p.toks, p.super, 1) + [Tok(k, p.pos, -1, n)] + new1
    ensures AllClosed(new1) && AllSeen(js, new1) == ts
    ensures Tok(k, p.pos, -1, n).end == -1 && Tok(k, p.pos, -1, n).kind == k
  {
    var base := Bumped(p.toks, p.super, 1);
    assert (base + [Tok(k, p.pos, -1, 0)])[|base| := Tok(k, p.pos, -1, n)] == base + [Tok(k, p.pos, -1, n)];
    hide AllSeen;
  }

  lemma ContainerLeaves(js: Bytes, p: Parser, q: Parser, v: Doc, new1: seq<Tok>)
    requires p.Ok() && q.Ok() && (v.Bracketed? || v.Braced?) && q.pos > 0
    requires AllClosed(new1) && AllSeen(js, new1) == InnerTokens(v)
    requires DocTokens(v) == [if v.Braced? then Obj(InnerCount(v)) else Arr(InnerCount(v))] + InnerTokens(v)
    requires q.toks == Bumped(p.toks, p.super, 1) + [Tok(KindOf(v), p.pos, q.pos, InnerCount(v))] + new1
    ensures Leaves(js, p, q, 1, [Tok(KindOf(v), p.pos, q.pos, InnerCount(v))] + new1, DocTokens(v))
  {
    hide InnerTokens, InnerCount, Bumped, DocTokens;
    var t := Tok(KindOf(v), p.pos, q.pos, InnerCount(v));
    SeenConcat(js, [t], new1);
    assert AllSeen(js, [t]) == [Seen(js, t)];
    hide AllSeen;
  }

  lemma SeenConcat(js: Bytes, a: seq<Tok>, b: seq<Tok>)
    ensures AllSeen(js, a + b) == AllSeen(js, a) + AllSeen(js, b)
  {
  }

  /** What a container holds. */
  lemma {:induction false} ScanInner(js: Bytes, p: Parser, cap: nat, v: Doc) returns (q: Parser, new_: seq<Tok>)
    requires p.Ok() && OpenAreContainers(p.toks) && (v.Bracketed? || v.Braced?) && |p.toks| + |InnerTokens(v)| <= cap
    requires Blanks(v.blank) && if v.Bracketed? then ItemsFormed(v.items) else MembersFormed(v.members)
    requires Here(js, p.pos, Inner(v)) && After(js, p.pos + |Inner(v)|)
    requires p.super == LastOpen(p.toks) >= 0 && p.toks[p.super].kind == KindOf(v)
    ensures Alike(js, p, q, cap) && Leaves(js, p, q, InnerCount(v), new_, InnerTokens(v))
    ensures q.pos == p.pos + |Inner(v)|
    decreases v, 0
  {
    hide *;
    KindIs(v);
    InnerIs(js, p.pos, v);
    ScanBlanks(js, p, cap, v.blank);
    var p1 := Parser(p.pos + |v.blank|, p.toks, p.super);
    AlikeOk(js, p, p1, cap);
    BetweenHolds(p1, KindOf(v));
    if v.Bracketed? {
      q, new_ := ScanItems(js, p1, cap, v.items);
    } else {
      q, new_ := ScanMembers(js, p1, cap, v.members);
    }
    AllAlike(js, p, p1, q, cap);
    LeavesMovedFrom(js, p1, p, q, InnerCount(v), new_, InnerTokens(v));
  }

  lemma InnerIs(js: Bytes, at: nat, v: Doc)
    requires (v.Bracketed? || v.Braced?) && Here(js, at, Inner(v)) && After(js, at + |Inner(v)|)
    ensures Here(js, at, v.blank) && |Inner(v)| >= |v.blank|
    ensures v.Bracketed? ==>
      && Here(js, at + |v.blank|, RenderItems(v.items)) && After(js, at + |v.blank| + |RenderItems(v.items)|)
      && |Inner(v)| == |v.blank| + |RenderItems(v.items)|
      && InnerTokens(v) == ItemsTokens(v.items) && InnerCount(v) == ItemCount(v.items)
    ensures v.Braced? ==>
      && Here(js, at + |v.blank|, RenderMembers(v.members)) && After(js, at + |v.blank| + |RenderMembers(v.members)|)
      && |Inner(v)| == |v.blank| + |RenderMembers(v.members)|
      && InnerTokens(v) == MembersTokens(v.members) && InnerCount(v) == MemberCount(v.members)
  {
    hide *;
    InnerParts(v);
    HereSplit(js, at, v.blank, if v.Bracketed? then RenderItems(v.items) else RenderMembers(v.members));
  }

  lemma InnerParts(v: Doc)
    requires v.Bracketed? || v.Braced?
    ensures Inner(v) == v.blank + if v.Bracketed? then RenderItems(v.items) else RenderMembers(v.members)
    ensures v.Bracketed? ==> InnerTokens(v) == ItemsTokens(v.items) && InnerCount(v) == ItemCount(v.items)
    ensures v.Braced? ==> InnerTokens(v) == MembersTokens(v.members) && InnerCount(v) == MemberCount(v.members)
  {
    hide RenderItems, RenderMembers, ItemsTokens, MembersTokens, ItemCount, MemberCount;
  }

  lemma AlikeOk(js: Bytes, p: Parser, q: Parser, cap: nat)
    requires Alike(js, p, q, cap)
    ensures p.Ok() && q.Ok()
  {
  }

  lemma LeavesMovedFrom(js: Bytes, p: Parser, r: Parser, q: Parser, n: nat, new_: seq<Tok>, ts: seq<Token>)
    requires Leaves(js, p, q, n, new_, ts) && r.toks == p.toks && r.super == p.super
    ensures Leaves(js, r, q, n, new_, ts)
  {
  }

  /** The state between the members of a container is kept. */
  ghost predicate Between(p: Parser, k: Kind) {
    p.Ok() && OpenAreContainers(p.toks) && p.super == LastOpen(p.toks) >= 0 && p.toks[p.super].kind == k
  }

  lemma BetweenStays(js: Bytes, p: Parser, q: Parser, k: Kind, n: nat, new_: seq<Tok>, ts: seq<Token>)
    requires Between(p, k) && Leaves(js, p, q, n, new_, ts)
    ensures LastOpen(q.toks) == p.super && OpenAreContainers(q.toks) && q.toks[p.super].kind == k
  {
    LastOpenBefore(Bumped(p.toks, p.super, n), new_);
    SameOpen(Bumped(p.toks, p.super, n), p.toks);
    hide AllSeen, LastOpen;
  }

  lemma LeavesMore(js: Bytes, p: Parser, q: Parser, r: Parser, n: nat, m: nat, a: seq<Tok>, b: seq<Tok>,
                   ts: seq<Token>, us: seq<Token>)
    requires Leaves(js, p, q, n, a, ts) && Leaves(js, q, r, m, b, us) && 0 <= p.super == q.super
    ensures Leaves(js, p, r, n + m, a + b, ts + us)
  {
    SeenConcat(js, a, b);
    hide AllSeen;
    assert Bumped(q.toks, q.super, m) == Bumped(p.toks, p.super, n + m) + a;
  }

  lemma LeavesNothing(js: Bytes, p: Parser)
    requires p.Ok()
    ensures Leaves(js, p, p, 0, [], [])
  {
    assert Bumped(p.toks, p.super, 0) + [] == p.toks;
  }

  /** The comma after a member brings the container back as `super`. */
  lemma ScanComma(js: Bytes, p: Parser, cap: nat, c: int)
    requires p.Ok() && p.pos < |js| && js[p.pos] == 44 && OpenAreContainers(p.toks)
    requires c == LastOpen(p.toks) >= 0 && (p.super == c || (p.super >= 0 && !Container(p.toks[p.super].kind)))
    ensures Alike(js, p, Parser(p.pos + 1, p.toks, c), cap)
  {
    ContainersOnly(p.toks);
    assert Container(p.toks[c].kind);
    hide Scan, LastOpen, LastOpenContainer;
    OneTurn(js, p, cap);
  }

  /** White space, a comma and white space bring the next member. */
  lemma ScanNext(js: Bytes, p: Parser, cap: nat, after: Bytes, gap: Bytes, c: int) returns (q: Parser)
    requires p.Ok() && OpenAreContainers(p.toks) && Blanks(after) && Blanks(gap)
    requires c == LastOpen(p.toks) >= 0 && (p.super == c || (p.super >= 0 && !Container(p.toks[p.super].kind)))
    requires Here(js, p.pos, after) && Here(js, p.pos + |after| + 1, gap)
    requires p.pos + |after| < |js| && js[p.pos + |after|] == 44
    ensures Alike(js, p, q, cap) && q == Parser(p.pos + |after| + 1 + |gap|, p.toks, c)
  {
    hide Scan, LastOpen, Here, Blanks, OpenAreContainers, Alike;
    var p1 := Parser(p.pos + |after|, p.toks, p.super);
    ScanBlanks(js, p, cap, after);
    ScanComma(js, p1, cap, c);
    var p2 := Parser(p1.pos + 1, p.toks, c);
    ScanBlanks(js, p2, cap, gap);
    q := Parser(p2.pos + |gap|, p.toks, c);
    AllAlike(js, p, p1, p2, cap);
    AllAlike(js, p, p2, q, cap);
  }

  lemma {:induction false} ScanItems(js: Bytes, p: Parser, cap: nat, xs: Items) returns (q: Parser, new_: seq<Tok>)
    requires Between(p, ARRAY) && |p.toks| + |ItemsTokens(xs)| <= cap
    requires ItemsFormed(xs) && Here(js, p.pos, RenderItems(xs)) && After(js, p.pos + |RenderItems(xs)|)
    ensures Alike(js, p, q, cap) && Leaves(js, p, q, ItemCount(xs), new_, ItemsTokens(xs))
    ensures q.pos == p.pos + |RenderItems(xs)|
    decreases xs, 0
  {
    hide *;
    BetweenIs(p, ARRAY);
    if xs.NoItems? {
      q, new_ := p, [];
      EmptyList(js, p, cap);
    } else {
      ItemsFirst(js, p.pos, xs);
      var q1, new1 := ScanValue(js, p, cap, xs.value);
      BetweenStays(js, p, q1, ARRAY, 1, new1, DocTokens(xs.value));
      LeavesCount(js, p, q1, 1, new1, DocTokens(xs.value));
      if xs.more.NoItems? {
        q, new_ := Parser(q1.pos + |xs.after|, q1.toks, q1.super), new1;
        ScanBlanks(js, q1, cap, xs.after);
        AllAlike(js, p, q1, q, cap);
        LeavesMoved(js, p, q1, q, 1, new1, DocTokens(xs.value));
      } else {
        var p2 := ScanNext(js, q1, cap, xs.after, xs.gap, p.super);
        AllAlike(js, p, q1, p2, cap);
        LeavesMoved(js, p, q1, p2, 1, new1, DocTokens(xs.value));
        BetweenHolds(p2, ARRAY);
        var q2, new2 := ScanItems(js, p2, cap, xs.more);
        q, new_ := q2, new1 + new2;
        LeavesMore(js, p, p2, q2, 1, ItemCount(xs.more), new1, new2, DocTokens(xs.value), ItemsTokens(xs.more));
        AllAlike(js, p, p2, q2, cap);
      }
    }
  }

  lemma EmptyList(js: Bytes, p: Parser, cap: nat)
    requires p.Ok()
    ensures Alike(js, p, p, cap) && |RenderItems(NoItems)| == 0
    ensures Leaves(js, p, p, ItemCount(NoItems), [], ItemsTokens(NoItems))
  {
    LeavesNothing(js, p);
    hide Scan, Leaves;
  }

  lemma BetweenIs(p: Parser, k: Kind)
    requires Between(p, k)
    ensures p.Ok() && OpenAreContainers(p.toks) && p.super == LastOpen(p.toks) >= 0 && p.toks[p.super].kind == k
  {
  }

  lemma BetweenHolds(p: Parser, k: Kind)
    requires p.Ok() && OpenAreContainers(p.toks) && p.super == LastOpen(p.toks) >= 0 && p.toks[p.super].kind == k
    ensures Between(p, k)
  {
  }

  lemma LeavesCount(js: Bytes, p: Parser, q: Parser, n: nat, new_: seq<Tok>, ts: seq<Token>)
    requires Leaves(js, p, q, n, new_, ts)
    ensures p.Ok() && q.Ok() && |q.toks| == |p.toks| + |ts| && |AllSeen(js, new_)| == |new_|
  {
  }

  lemma LeavesMoved(js: Bytes, p: Parser, q: Parser, r: Parser, n: nat, new_: seq<Tok>, ts: seq<Token>)
    requires Leaves(js, p, q, n, new_, ts) && r.toks == q.toks && r.Ok()
    ensures Leaves(js, p, r, n, new_, ts)
  {
  }

  /** The text of a list: its first item and, after a comma, the others. */
  lemma ItemsFirst(js: Bytes, at: nat, xs: Items)
    requires xs.OneItem? && ItemsFormed(xs) && Here(js, at, RenderItems(xs)) && After(js, at + |RenderItems(xs)|)
    ensures var at', n := at + |Render(xs.value)|, |xs.after|;
      && WellFormed(xs.value) && Blanks(xs.after) && Blanks(xs.gap) && ItemsFormed(xs.more)
      && ItemCount(xs) == 1 + ItemCount(xs.more) && ItemsTokens(xs) == DocTokens(xs.value) + ItemsTokens(xs.more)
      && Here(js, at, Render(xs.value)) && After(js, at') && Here(js, at', xs.after)
      && (xs.more.NoItems? ==>
            && |RenderItems(xs)| == |Render(xs.value)| + n
            && ItemCount(xs) == 1 && ItemsTokens(xs) == DocTokens(xs.value))
      && (!xs.more.NoItems? ==>
            && at' + n < |js| && js[at' + n] == 44 && Here(js, at' + n + 1, xs.gap)
            && Here(js, at' + n + 1 + |xs.gap|, RenderItems(xs.more))
            && |RenderItems(xs)| == |Render(xs.value)| + n + 1 + |xs.gap| + |RenderItems(xs.more)|
            && After(js, at' + n + 1 + |xs.gap| + |RenderItems(xs.more)|))
  {
    hide *;
    ItemsRendered(xs);
    if xs.more.NoItems? {
      Final(js, at, Render(xs.value), xs.after);
    } else {
      Joined(js, at, Render(xs.value), xs.after, xs.gap, RenderItems(xs.more));
    }
  }

  lemma ItemsRendered(xs: Items)
    requires xs.OneItem? && ItemsFormed(xs)
    ensures WellFormed(xs.value) && Blanks(xs.after) && Blanks(xs.gap) && ItemsFormed(xs.more)
    ensures ItemCount(xs) == 1 + ItemCount(xs.more) && ItemsTokens(xs) == DocTokens(xs.value) + ItemsTokens(xs.more)
    ensures xs.more.NoItems? ==> ItemCount(xs) == 1 && ItemsTokens(xs) == DocTokens(xs.value)
    ensures RenderItems(xs)
         == Render(xs.value) + (xs.after + (if xs.more.NoItems? then [] else [44] + (xs.gap + RenderItems(xs.more))))
  {
    hide Render, DocTokens, WellFormed, Blanks;
  }

  /** Two texts with a comma between them. */
  lemma Joined(js: Bytes, at: nat, a: Bytes, after: Bytes, gap: Bytes, b: Bytes)
    requires var t := a + (after + ([44] + (gap + b))); Here(js, at, t) && After(js, at + |t|)
    requires Blanks(after)
    ensures var at', n := at + |a|, |after|;
      && |a + (after + ([44] + (gap + b)))| == |a| + n + 1 + |gap| + |b|
      && Here(js, at, a) && After(js, at') && Here(js, at', after) && at' + n < |js| && js[at' + n] == 44
      && Here(js, at' + n + 1, gap) && Here(js, at' + n + 1 + |gap|, b) && After(js, at' + n + 1 + |gap| + |b|)
  {
    hide Here;
    HereSplit(js, at, a, after + ([44] + (gap + b)));
    HereSplit(js, at + |a|, after, [44] + (gap + b));
    HereSplit(js, at + |a| + |after|, [44], gap + b);
    HereSplit(js, at + |a| + |after| + 1, gap, b);
    HereFirst(js, at + |a| + |after|, [44]);
    if after != [] { HereFirst(js, at + |a|, after); }
  }

  /** The last text, before the bracket. */
  lemma Final(js: Bytes, at: nat, a: Bytes, after: Bytes)
    requires var t := a + (after + []); Here(js, at, t) && After(js, at + |t|)
    requires Blanks(after)
    ensures |a + (after + [])| == |a| + |after|
    ensures Here(js, at, a) && After(js, at + |a|) && Here(js, at + |a|, after)
  {
    hide Here;
    assert after + [] == after;
    HereSplit(js, at, a, after);
    if after != [] { HereFirst(js, at + |a|, after); }
  }

  // ------------------------------------------------------- objects

  lemma {:induction false} ScanMembers(js: Bytes, p: Parser, cap: nat, ms: Members) returns (q: Parser, new_: seq<Tok>)
    requires Between(p, OBJECT) && |p.toks| + |MembersTokens(ms)| <= cap
    requires MembersFormed(ms) && Here(js, p.pos, RenderMembers(ms)) && After(js, p.pos + |RenderMembers(ms)|)
    ensures Alike(js, p, q, cap) && Leaves(js, p, q, MemberCount(ms), new_, MembersTokens(ms))
    ensures q.pos == p.pos + |RenderMembers(ms)|
    decreases ms, 0
  {
    hide *;
    BetweenIs(p, OBJECT);
    if ms.NoMembers? {
      q, new_ := p, [];
      EmptyObject(js, p, cap);
    } else {
      MembersFirst(js, p.pos, ms);
      var q1, new1 := ScanPair(js, p, cap, ms);
      var ts := [Text(ms.key)] + DocTokens(ms.value);
      BetweenStays(js, p, q1, OBJECT, 1, new1, ts);
      LeavesCount(js, p, q1, 1, new1, ts);
      if ms.more.NoMembers? {
        q, new_ := Parser(q1.pos + |ms.after|, q1.toks, q1.super), new1;
        ScanBlanks(js, q1, cap, ms.after);
        AllAlike(js, p, q1, q, cap);
        LeavesMoved(js, p, q1, q, 1, new1, ts);
      } else {
        var p2 := ScanNext(js, q1, cap, ms.after, ms.gap, p.super);
        AllAlike(js, p, q1, p2, cap);
        LeavesMoved(js, p, q1, p2, 1, new1, ts);
        BetweenHolds(p2, OBJECT);
        var q2, new2 := ScanMembers(js, p2, cap, ms.more);
        q, new_ := q2, new1 + new2;
        LeavesMore(js, p, p2, q2, 1, MemberCount(ms.more), new1, new2, ts, MembersTokens(ms.more));
        AllAlike(js, p, p2, q2, cap);
      }
    }
  }

  lemma EmptyObject(js: Bytes, p: Parser, cap: nat)
    requires p.Ok()
    ensures Alike(js, p, p, cap) && |RenderMembers(NoMembers)| == 0
    ensures Leaves(js, p, p, MemberCount(NoMembers), [], MembersTokens(NoMembers))
  {
    LeavesNothing(js, p);
    hide Scan, Leaves;
  }

  function PairText(ms: Members): Bytes
    requires ms.Member?
  {
    Pair(ms.key, ms.before, ms.behind, Render(ms.value))
  }

  /** The text of an object: its first member and, after a comma, the others. */
  lemma MembersFirst(js: Bytes, at: nat, ms: Members)
    requires ms.Member? && MembersFormed(ms) && Here(js, at, RenderMembers(ms)) && After(js, at + |RenderMembers(ms)|)
    ensures var at', n := at + |PairText(ms)|, |ms.after|;
      && Blanks(ms.after) && Blanks(ms.gap) && MembersFormed(ms.more) && PairFormed(ms)
      && MemberCount(ms) == 1 + MemberCount(ms.more)
      && MembersTokens(ms) == [Text(ms.key)] + DocTokens(ms.value) + MembersTokens(ms.more)
      && Here(js, at, PairText(ms)) && After(js, at') && Here(js, at', ms.after)
      && (ms.more.NoMembers? ==>
            && |RenderMembers(ms)| == |PairText(ms)| + n
            && MemberCount(ms) == 1 && MembersTokens(ms) == [Text(ms.key)] + DocTokens(ms.value))
      && (!ms.more.NoMembers? ==>
            && at' + n < |js| && js[at' + n] == 44 && Here(js, at' + n + 1, ms.gap)
            && Here(js, at' + n + 1 + |ms.gap|, RenderMembers(ms.more))
            && |RenderMembers(ms)| == |PairText(ms)| + n + 1 + |ms.gap| + |RenderMembers(ms.more)|
            && After(js, at' + n + 1 + |ms.gap| + |RenderMembers(ms.more)|))
  {
    hide *;
    MembersRendered(ms);
    if ms.more.NoMembers? {
      Final(js, at, PairText(ms), ms.after);
    } else {
      Joined(js, at, PairText(ms), ms.after, ms.gap, RenderMembers(ms.more));
    }
  }

  predicate PairFormed(ms: Members)
    requires ms.Member?
  {
    Body(ms.key) && Blanks(ms.before) && Blanks(ms.behind) && WellFormed(ms.value)
  }

  lemma MembersRendered(ms: Members)
    requires ms.Member? && MembersFormed(ms)
    ensures Blanks(ms.after) && Blanks(ms.gap) && MembersFormed(ms.more) && PairFormed(ms)
    ensures MemberCount(ms) == 1 + MemberCount(ms.more)
    ensures MembersTokens(ms) == [Text(ms.key)] + DocTokens(ms.value) + MembersTokens(ms.more)
    ensures ms.more.NoMembers? ==> MemberCount(ms) == 1 && MembersTokens(ms) == [Text(ms.key)] + DocTokens(ms.value)
    ensures RenderMembers(ms)
         == PairText(ms) + (ms.after + (if ms.more.NoMembers? then [] else [44] + (ms.gap + RenderMembers(ms.more))))
  {
    hide Render, DocTokens, WellFormed, Blanks, Body, Pair;
  }

  /** A key, its colon and its value; the value is counted by the key. */
  lemma {:induction false} ScanPair(js: Bytes, p: Parser, cap: nat, ms: Members) returns (q: Parser, new_: seq<Tok>)
    requires ms.Member? && PairFormed(ms) && Between(p, OBJECT) && |p.toks| + 1 + |DocTokens(ms.value)| <= cap
    requires Here(js, p.pos, PairText(ms)) && After(js, p.pos + |PairText(ms)|)
    ensures Alike(js, p, q, cap) && Leaves(js, p, q, 1, new_, [Text(ms.key)] + DocTokens(ms.value))
    ensures q.pos == p.pos + |PairText(ms)|
    ensures q.super == p.super || (0 <= q.super < |q.toks| && !Container(q.toks[q.super].kind))
    decreases ms.value, 3
  {
    hide *;
    BetweenIs(p, OBJECT);
    PairParts(js, p.pos, ms);
    var t := Tok(STRING, p.pos + 1, p.pos + 1 + |ms.key|, 0);
    ScanString(js, p, cap, ms.key);
    var q1 := Leaf(p, t, p.pos + |Delimit(ms.key)|);
    LeafIs(p, t, p.pos + |Delimit(ms.key)|);
    var p2 := ScanColon(js, q1, cap, ms.before, ms.behind);
    LeafLeaves(js, p, t, p.pos + |Delimit(ms.key)|);
    BetweenStays(js, p, q1, OBJECT, 1, [t], [Seen(js, t)]);
    AlikeOk(js, q1, p2, cap);
    var q3, new3 := ScanValue(js, p2, cap, ms.value);
    q, new_ := q3, [t.(size := 1)] + new3;
    AllAlike(js, p, q1, p2, cap);
    AllAlike(js, p, p2, q3, cap);
    MemberLeaves(js, p, t, q1.pos, p2, q3, new3, DocTokens(ms.value));
  }

  lemma PairParts(js: Bytes, at: nat, ms: Members)
    requires ms.Member? && PairFormed(ms) && Here(js, at, PairText(ms)) && After(js, at + |PairText(ms)|)
    ensures var at' := at + |Delimit(ms.key)|; var at'' := at' + |ms.before| + 1;
      && Body(ms.key) && Blanks(ms.before) && Blanks(ms.behind) && WellFormed(ms.value)
      && Here(js, at, Delimit(ms.key)) && Here(js, at', ms.before)
      && at' + |ms.before| < |js| && js[at' + |ms.before|] == 58 && Here(js, at'', ms.behind)
      && Here(js, at'' + |ms.behind|, Render(ms.value)) && After(js, at'' + |ms.behind| + |Render(ms.value)|)
      && at + |PairText(ms)| == at'' + |ms.behind| + |Render(ms.value)|
  {
    hide Render, Delimit, WellFormed, Body, Blanks, Here;
    var v := Render(ms.value);
    HereSplit(js, at, Delimit(ms.key), ms.before + ([58] + (ms.behind + v)));
    HereSplit(js, at + |Delimit(ms.key)|, ms.before, [58] + (ms.behind + v));
    HereSplit(js, at + |Delimit(ms.key)| + |ms.before|, [58], ms.behind + v);
    HereFirst(js, at + |Delimit(ms.key)| + |ms.before|, [58]);
    HereSplit(js, at + |Delimit(ms.key)| + |ms.before| + 1, ms.behind, v);
  }

  lemma LeafIs(p: Parser, t: Tok, pos: nat)
    requires p.Ok()
    ensures var q := Leaf(p, t, pos); q.Ok() && q.pos == pos && |q.toks| == |p.toks| + 1
    ensures Parser(pos + 1, Leaf(p, t, pos).toks, |p.toks|).Ok()
  {
  }

  /** White space, a colon and white space make the last token `super`. */
  lemma ScanColon(js: Bytes, p: Parser, cap: nat, before: Bytes, behind: Bytes) returns (q: Parser)
    requires p.Ok() && p.toks != [] && Blanks(before) && Blanks(behind) && Here(js, p.pos, before)
    requires p.pos + |before| < |js| && js[p.pos + |before|] == 58 && Here(js, p.pos + |before| + 1, behind)
    ensures Alike(js, p, q, cap) && q == Parser(p.pos + |before| + 1 + |behind|, p.toks, |p.toks| - 1)
  {
    hide Scan, Here, Blanks, Alike;
    var p1 := Parser(p.pos + |before|, p.toks, p.super);
    ScanBlanks(js, p, cap, before);
    OneTurn(js, p1, cap);
    var p2 := Parser(p1.pos + 1, p.toks, |p.toks| - 1);
    ScanBlanks(js, p2, cap, behind);
    q := Parser(p2.pos + |behind|, p.toks, |p.toks| - 1);
    AllAlike(js, p, p1, p2, cap);
    AllAlike(js, p, p2, q, cap);
  }

  lemma MemberLeaves(js: Bytes, p: Parser, t: Tok, pos: nat, p2: Parser, q: Parser, new3: seq<Tok>, ts: seq<Token>)
    requires p.Ok() && t.kind == STRING && t.end != -1 && t.size == 0 && p2.Ok()
    requires p2.toks == Leaf(p, t, pos).toks && p2.super == |p.toks|
    requires Leaves(js, p2, q, 1, new3, ts)
    ensures Leaves(js, p, q, 1, [t.(size := 1)] + new3, [Seen(js, t)] + ts)
    ensures |p.toks| < |q.toks| && !Container(q.toks[|p.toks|].kind)
  {
    var t1 := t.(size := 1);
    SeenConcat(js, [t1], new3);
    assert AllSeen(js, [t1]) == [Seen(js, t)];
    hide AllSeen;
    assert Bumped(p2.toks, p2.super, 1) == Bumped(p.toks, p.super, 1) + [t1];
  }
}
