/**
  The tokenizer `jsmn` as the SDK builds it: not strict, and without parent links. A first
  pass counts tokens, a second one fills an array of that many.
 */
module Jsmn {
  import opened Bytes
  import opened Wrappers
  import opened JsonTokens

  datatype Kind = OBJECT | ARRAY | STRING | PRIMITIVE

  /** A token; `end` is -1 while a container is open. */
  datatype Tok = Tok(kind: Kind, start: nat, end: int, size: nat)

  /** `super` is the token whose size counts the next one, or -1. */
  datatype Parser = Parser(pos: nat, toks: seq<Tok>, super: int) {
    predicate Ok() { -1 <= super < |toks| }
  }

  const START: Parser := Parser(0, [], -1)

  // ------------------------------------------------------- leaves

  predicate Done(js: Bytes, at: nat) { at >= |js| || js[at] == 0 }

  predicate Hex(b: Byte) { 48 <= b <= 57 || 65 <= b <= 70 || 97 <= b <= 102 }

  predicate Escapable(b: Byte) { b in {34, 47, 92, 98, 102, 114, 110, 116} }

  /** The end of up to `n` hex digits, which only the end of the text may cut short. */
  function HexEnd(js: Bytes, at: nat, n: nat): (r: Option<nat>)
    ensures r.Some? ==> at <= r.value
    decreases n
  {
    if n == 0 || Done(js, at) then Some(at)
    else if !Hex(js[at]) then None
    else HexEnd(js, at + 1, n - 1)
  }

  /** The closing quote of the string whose content begins at `at`. */
  function StringEnd(js: Bytes, at: nat): (r: Option<nat>)
    ensures r.Some? ==> at <= r.value < |js|
    decreases if at < |js| then |js| - at else 0
  {
    if Done(js, at) then None
    else if js[at] == 34 then Some(at)
    else if js[at] == 92 && at + 1 < |js| then
      if Escapable(js[at + 1]) then StringEnd(js, at + 2)
      else if js[at + 1] == 117 then
        var h := HexEnd(js, at + 2, 4);
        if h.None? then None else StringEnd(js, h.value)
      else None
    else StringEnd(js, at + 1)
  }

  predicate Blank(b: Byte) { b in {9, 10, 13, 32} }

  predicate Delimiter(b: Byte) { Blank(b) || b in {44, 58, 93, 125} }

  /** Where the primitive at `at` ends. */
  function PrimEnd(js: Bytes, at: nat): (r: Option<nat>)
    requires at <= |js|
    ensures r.Some? ==> at <= r.value <= |js|
    ensures r.Some? && at < |js| && js[at] != 0 && !Delimiter(js[at]) ==> at < r.value
    decreases |js| - at
  {
    if Done(js, at) || Delimiter(js[at]) then Some(at)
    else if js[at] < 32 || js[at] >= 127 then None
    else PrimEnd(js, at + 1)
  }

  // ------------------------------------------------------- the two passes

  /** One more child of token `super`. */
  function Bump(toks: seq<Tok>, super: int): (r: seq<Tok>)
    requires -1 <= super < |toks|
    ensures |r| == |toks|
  {
    if super == -1 then toks else toks[super := toks[super].(size := toks[super].size + 1)]
  }

  /** The last open token, or -1. */
  function LastOpen(toks: seq<Tok>): (i: int)
    ensures -1 <= i < |toks| && (i >= 0 ==> toks[i].end == -1)
  {
    if toks == [] then -1
    else if toks[|toks| - 1].end == -1 then |toks| - 1
    else LastOpen(toks[..|toks| - 1])
  }

  predicate Container(k: Kind) { k == ARRAY || k == OBJECT }

  function LastOpenContainer(toks: seq<Tok>): (i: int)
    ensures -1 <= i < |toks|
  {
    if toks == [] then -1
    else if Container(toks[|toks| - 1].kind) && toks[|toks| - 1].end == -1 then |toks| - 1
    else LastOpenContainer(toks[..|toks| - 1])
  }

  function Alloc(p: Parser, t: Tok, cap: nat, pos: nat, super: int): Option<Parser>
    requires p.Ok()
  {
    if |p.toks| >= cap then None else Some(Parser(pos, Bump(p.toks, p.super) + [t], super))
  }

  function Close(p: Parser, k: Kind): Option<Parser> {
    var i := LastOpen(p.toks);
    if i == -1 || p.toks[i].kind != k then None
    else Some(Parser(p.pos + 1, p.toks[i := p.toks[i].(end := p.pos + 1)], LastOpen(p.toks[..i])))
  }

  function Comma(p: Parser): int
    requires p.Ok()
  {
    if p.super != -1 && !Container(p.toks[p.super].kind) && LastOpenContainer(p.toks) != -1
    then LastOpenContainer(p.toks) else p.super
  }

  /** One turn of the main loop of the second pass, with room for `cap` tokens. */
  function Turn(js: Bytes, p: Parser, cap: nat): (r: Option<Parser>)
    requires p.Ok() && !Done(js, p.pos)
    ensures r.Some? ==> r.value.Ok() && p.pos < r.value.pos <= |js|
  {
    var c := js[p.pos];
    if c == 123 || c == 91 then
      Alloc(p, Tok(if c == 123 then OBJECT else ARRAY, p.pos, -1, 0), cap, p.pos + 1, |p.toks|)
    else if c == 125 || c == 93 then Close(p, if c == 125 then OBJECT else ARRAY)
    else if c == 34 then
      var e := StringEnd(js, p.pos + 1);
      if e.None? then None else Alloc(p, Tok(STRING, p.pos + 1, e.value, 0), cap, e.value + 1, p.super)
    else if Blank(c) then Some(p.(pos := p.pos + 1))
    else if c == 58 then Some(Parser(p.pos + 1, p.toks, |p.toks| - 1))
    else if c == 44 then Some(Parser(p.pos + 1, p.toks, Comma(p)))
    else
      var e := PrimEnd(js, p.pos);
      if e.None? then None else Alloc(p, Tok(PRIMITIVE, p.pos, e.value, 0), cap, e.value, p.super)
  }

  function Scan(js: Bytes, p: Parser, cap: nat): Option<seq<Tok>>
    requires p.Ok()
    decreases if p.pos < |js| then |js| - p.pos else 0
  {
    if Done(js, p.pos) then
      if LastOpen(p.toks) == -1 then Some(p.toks) else None
    else
      var q := Turn(js, p, cap);
      if q.None? then None else Scan(js, q.value, cap)
  }

  /** The first pass: how many tokens there are from `at` on. */
  function CountFrom(js: Bytes, at: nat): Option<nat>
    decreases if at < |js| then |js| - at else 0
  {
    if Done(js, at) then Some(0)
    else if js[at] == 34 then
      var e := StringEnd(js, at + 1);
      if e.None? then None else Plus(1, CountFrom(js, e.value + 1))
    else if js[at] == 123 || js[at] == 91 then Plus(1, CountFrom(js, at + 1))
    else if Delimiter(js[at]) then CountFrom(js, at + 1)
    else
      var e := PrimEnd(js, at);
      if e.None? then None else Plus(1, CountFrom(js, e.value))
  }

  function Plus(n: nat, r: Option<nat>): Option<nat> { if r.None? then None else Some(n + r.value) }

  function Slice(js: Bytes, from: int, to: int): Bytes { if 0 <= from <= to <= |js| then js[from..to] else [] }

  /** What the consumer of the tokens sees of one. */
  function Seen(js: Bytes, t: Tok): Token {
    match t.kind
    case OBJECT => Obj(t.size)
    case ARRAY => Arr(t.size)
    case STRING => Text(Slice(js, t.start, t.end))
    case PRIMITIVE => Prim(Slice(js, t.start, t.end))
  }

  function AllSeen(js: Bytes, ts: seq<Tok>): seq<Token> { seq(|ts|, i requires 0 <= i < |ts| => Seen(js, ts[i])) }

  /** Both passes; no tokens when either fails. */
  function Tokenize(js: Bytes): seq<Token> {
    var n := CountFrom(js, 0);
    if n.None? then []
    else
      var ts := Scan(js, START, n.value);
      if ts.None? then [] else AllSeen(js, ts.value)
  }

  // ------------------------------------------------------- the two passes agree

  lemma TurnStep(js: Bytes, p: Parser, cap: nat)
    requires p.Ok()
    ensures Scan(js, p, cap)
      == if Done(js, p.pos) then (if LastOpen(p.toks) == -1 then Some(p.toks) else None)
         else if Turn(js, p, cap).None? then None else Scan(js, Turn(js, p, cap).value, cap)
  {
    hide Turn, LastOpen, Done;
  }

  /** A turn allocates what the first pass counts at that place. */
  lemma TurnCounts(js: Bytes, p: Parser, cap: nat)
    requires p.Ok() && !Done(js, p.pos) && Turn(js, p, cap).Some?
    ensures var q := Turn(js, p, cap).value;
      CountFrom(js, p.pos) == Plus(|q.toks| - |p.toks|, CountFrom(js, q.pos)) && |q.toks| >= |p.toks|
  {
    hide StringEnd, PrimEnd, LastOpen, LastOpenContainer;
  }

  /** The number of tokens that are filled is the number that were counted. */
  lemma {:induction false} CountIsExact(js: Bytes, p: Parser, cap: nat)
    requires p.Ok() && Scan(js, p, cap).Some?
    ensures CountFrom(js, p.pos) == Some(|Scan(js, p, cap).value| - |p.toks|) && |Scan(js, p, cap).value| >= |p.toks|
    decreases if p.pos < |js| then |js| - p.pos else 0
  {
    hide Turn, LastOpen, Scan, CountFrom;
    TurnStep(js, p, cap);
    if Done(js, p.pos) {
      CountDone(js, p.pos);
    } else {
      TurnCounts(js, p, cap);
      CountIsExact(js, Turn(js, p, cap).value, cap);
    }
  }

  lemma CountDone(js: Bytes, at: nat)
    requires Done(js, at)
    ensures CountFrom(js, at) == Some(0)
  {
  }

  /** An array with room for the tokens counted is as good as any larger one: the second pass
      never runs out of tokens. */
  lemma {:induction false} NeverOutOfTokens(js: Bytes, p: Parser, n: nat, cap: nat)
    requires p.Ok() && CountFrom(js, p.pos).Some? && |p.toks| + CountFrom(js, p.pos).value <= n <= cap
    ensures Scan(js, p, n) == Scan(js, p, cap)
    decreases if p.pos < |js| then |js| - p.pos else 0
  {
    hide Turn, LastOpen, Scan, CountFrom;
    TurnStep(js, p, n);
    TurnStep(js, p, cap);
    if !Done(js, p.pos) {
      SameTurn(js, p, n, cap);
      if Turn(js, p, n).Some? {
        TurnCounts(js, p, n);
        NeverOutOfTokens(js, Turn(js, p, n).value, n, cap);
      }
    }
  }

  lemma SameTurn(js: Bytes, p: Parser, n: nat, cap: nat)
    requires p.Ok() && !Done(js, p.pos)
    requires CountFrom(js, p.pos).Some? && |p.toks| + CountFrom(js, p.pos).value <= n <= cap
    ensures Turn(js, p, n) == Turn(js, p, cap)
  {
    hide StringEnd, PrimEnd, LastOpen, LastOpenContainer;
  }

  // ------------------------------------------------------- what is accepted

  /** From `at` on, with the containers of kinds `open` still open: every word and string
      ends, and every closing bracket matches the bracket opened last. */
  predicate Balanced(js: Bytes, at: nat, open: seq<Kind>)
    decreases if at < |js| then |js| - at else 0
  {
    if Done(js, at) then open == []
    else if js[at] == 123 || js[at] == 91 then
      Balanced(js, at + 1, open + [if js[at] == 123 then OBJECT else ARRAY])
    else if js[at] == 125 || js[at] == 93 then
      && open != [] && open[|open| - 1] == (if js[at] == 125 then OBJECT else ARRAY)
      && Balanced(js, at + 1, open[..|open| - 1])
    else if js[at] == 34 then
      var e := StringEnd(js, at + 1);
      e.Some? && Balanced(js, e.value + 1, open)
    else if Delimiter(js[at]) then Balanced(js, at + 1, open)
    else
      var e := PrimEnd(js, at);
      e.Some? && Balanced(js, e.value, open)
  }

  /** The kinds of the open tokens, in order. */
  function OpenKinds(toks: seq<Tok>): seq<Kind> {
    if toks == [] then []
    else
      var t := toks[|toks| - 1];
      OpenKinds(toks[..|toks| - 1]) + (if t.end == -1 then [t.kind] else [])
  }

  lemma KindsThen(toks: seq<Tok>, t: Tok)
    ensures OpenKinds(toks + [t]) == OpenKinds(toks) + (if t.end == -1 then [t.kind] else [])
  {
    assert (toks + [t])[..|toks|] == toks;
  }

  lemma {:induction false} SameKinds(a: seq<Tok>, b: seq<Tok>)
    requires |a| == |b| && forall i :: 0 <= i < |a| ==> a[i].end == b[i].end && a[i].kind == b[i].kind
    ensures OpenKinds(a) == OpenKinds(b)
  {
    if a != [] { SameKinds(a[..|a| - 1], b[..|b| - 1]); }
  }

  /** The backward search for an open token finds the bracket opened last. */
  lemma {:induction false} LastOpenIsTop(toks: seq<Tok>, e: nat)
    ensures var i, ks := LastOpen(toks), OpenKinds(toks);
      && (i == -1 <==> ks == [])
      && (i != -1 ==> ks[|ks| - 1] == toks[i].kind && OpenKinds(toks[i := toks[i].(end := e)]) == ks[..|ks| - 1])
  {
    if toks != [] {
      var n := |toks| - 1;
      var front, t := toks[..n], toks[n];
      assert front + [t] == toks;
      if t.end == -1 {
        KindsThen(front, t);
        KindsThen(front, t.(end := e));
        assert toks[n := t.(end := e)] == front + [t.(end := e)];
      } else {
        LastOpenIsTop(front, e);
        KindsThen(front, t);
        var i := LastOpen(front);
        if i != -1 {
          var front' := front[i := front[i].(end := e)];
          assert toks[i := toks[i].(end := e)] == front' + [t];
          KindsThen(front', t);
        }
      }
    }
  }

  lemma AllocKinds(p: Parser, t: Tok)
    requires p.Ok()
    ensures OpenKinds(Bump(p.toks, p.super) + [t])
         == if t.end == -1 then OpenKinds(p.toks) + [t.kind] else OpenKinds(p.toks)
  {
    SameKinds(Bump(p.toks, p.super), p.toks);
    KindsThen(Bump(p.toks, p.super), t);
    hide OpenKinds;
  }

  /** One turn against one step of the bracket matching. */
  lemma TurnBalances(js: Bytes, p: Parser, cap: nat)
    requires p.Ok() && !Done(js, p.pos)
    requires CountFrom(js, p.pos).Some? && |p.toks| + CountFrom(js, p.pos).value <= cap
    ensures var q := Turn(js, p, cap);
      Balanced(js, p.pos, OpenKinds(p.toks)) == (q.Some? && Balanced(js, q.value.pos, OpenKinds(q.value.toks)))
  {
    hide StringEnd, PrimEnd, LastOpen, LastOpenContainer, OpenKinds, Bump;
    var c := js[p.pos];
    if c == 123 || c == 91 {
      AllocKinds(p, Tok(if c == 123 then OBJECT else ARRAY, p.pos, -1, 0));
    } else if c == 125 || c == 93 {
      LastOpenIsTop(p.toks, p.pos + 1);
    } else if c == 34 {
      var e := StringEnd(js, p.pos + 1);
      if e.Some? { AllocKinds(p, Tok(STRING, p.pos + 1, e.value, 0)); }
    } else if !Delimiter(c) {
      var e := PrimEnd(js, p.pos);
      if e.Some? { AllocKinds(p, Tok(PRIMITIVE, p.pos, e.value, 0)); }
    }
  }

  lemma {:induction false} ScanBalanced(js: Bytes, p: Parser, cap: nat)
    requires p.Ok() && CountFrom(js, p.pos).Some? && |p.toks| + CountFrom(js, p.pos).value <= cap
    ensures Scan(js, p, cap).Some? <==> Balanced(js, p.pos, OpenKinds(p.toks))
    decreases if p.pos < |js| then |js| - p.pos else 0
  {
    hide *;
    TurnStep(js, p, cap);
    if Done(js, p.pos) {
      EndBalanced(js, p);
    } else {
      TurnBalances(js, p, cap);
      if Turn(js, p, cap).Some? {
        TurnCounts(js, p, cap);
        MoreCounts(js, p, Turn(js, p, cap).value);
        ScanBalanced(js, Turn(js, p, cap).value, cap);
      }
    }
  }

  lemma EndBalanced(js: Bytes, p: Parser)
    requires Done(js, p.pos)
    ensures LastOpen(p.toks) == -1 <==> Balanced(js, p.pos, OpenKinds(p.toks))
  {
    LastOpenIsTop(p.toks, 0);
    hide OpenKinds, LastOpen;
  }

  lemma MoreCounts(js: Bytes, p: Parser, q: Parser)
    requires |q.toks| >= |p.toks| && CountFrom(js, p.pos).Some?
    requires CountFrom(js, p.pos) == Plus(|q.toks| - |p.toks|, CountFrom(js, q.pos))
    ensures CountFrom(js, q.pos).Some?
    ensures |p.toks| + CountFrom(js, p.pos).value == |q.toks| + CountFrom(js, q.pos).value
  {
    hide CountFrom;
  }

  /** Main result: the tokenizer accepts exactly the texts with at least one token, whose
      strings and words end and whose brackets match by kind. */
  lemma AcceptsExactly(js: Bytes)
    ensures Tokenize(js) != [] <==> CountFrom(js, 0).Some? && CountFrom(js, 0).value > 0 && Balanced(js, 0, [])
  {
    var n := CountFrom(js, 0);
    if n.Some? {
      ScanBalanced(js, START, n.value);
      if Scan(js, START, n.value).Some? { CountIsExact(js, START, n.value); }
    }
    hide CountFrom, Scan, Balanced;
  }

  // ------------------------------------------------------- the loops

  /** `jsmn_parse_string`, from behind the opening quote. */
  method ParseString(js: Bytes, start: nat) returns (r: Option<nat>)
    ensures r == StringEnd(js, start)
  {
    var pos := start;
    while !Done(js, pos)
      invariant StringEnd(js, start) == StringEnd(js, pos)
      decreases if pos < |js| then |js| - pos else 0
    {
      if js[pos] == 34 { return Some(pos); }
      if js[pos] == 92 && pos + 1 < |js| {
        if Escapable(js[pos + 1]) {
          pos := pos + 2;
        } else if js[pos + 1] == 117 {
          var h := ParseHex(js, pos + 2);
          if h.None? { return None; }
          pos := h.value;
        } else {
          return None;
        }
      } else {
        pos := pos + 1;
      }
    }
    return None;
  }

  method ParseHex(js: Bytes, start: nat) returns (r: Option<nat>)
    ensures r == HexEnd(js, start, 4)
  {
    var pos, i := start, 0;
    while i < 4 && !Done(js, pos)
      invariant 0 <= i <= 4 && start <= pos
      invariant HexEnd(js, start, 4) == HexEnd(js, pos, 4 - i)
    {
      if !Hex(js[pos]) { return None; }
      pos, i := pos + 1, i + 1;
    }
    return Some(pos);
  }

  /** `jsmn_parse_primitive`. */
  method ParsePrimitive(js: Bytes, start: nat) returns (r: Option<nat>)
    requires start <= |js|
    ensures r == PrimEnd(js, start)
  {
    var pos := start;
    while !Done(js, pos) && !Delimiter(js[pos])
      invariant pos <= |js| && PrimEnd(js, start) == PrimEnd(js, pos)
      decreases |js| - pos
    {
      if js[pos] < 32 || js[pos] >= 127 { return None; }
      pos := pos + 1;
    }
    return Some(pos);
  }

  /** `jsmn_parse` without an array: only count. */
  method CountTokens(js: Bytes) returns (r: Option<nat>)
    ensures r == CountFrom(js, 0)
  {
    hide StringEnd, PrimEnd;
    var pos, count: nat := 0, 0;
    while !Done(js, pos)
      invariant CountFrom(js, 0) == Plus(count, CountFrom(js, pos))
      decreases if pos < |js| then |js| - pos else 0
    {
      if js[pos] == 34 {
        var e := ParseString(js, pos + 1);
        if e.None? { return None; }
        pos, count := e.value + 1, count + 1;
      } else if js[pos] == 123 || js[pos] == 91 {
        pos, count := pos + 1, count + 1;
      } else if Delimiter(js[pos]) {
        pos := pos + 1;
      } else {
        var e := ParsePrimitive(js, pos);
        if e.None? { return None; }
        pos, count := e.value, count + 1;
      }
    }
    return Some(count);
  }

  /** The backward search for an open token below `n`. */
  method FindOpen(tokens: array<Tok>, n: nat) returns (i: int)
    requires n <= tokens.Length
    ensures i == LastOpen(tokens[..n])
  {
    i := n - 1;
    assert tokens[..i + 1] == tokens[..n];
    while i >= 0 && tokens[i].end != -1
      invariant -1 <= i < n && LastOpen(tokens[..n]) == LastOpen(tokens[..i + 1])
    {
      assert tokens[..i + 1][..i] == tokens[..i];
      i := i - 1;
    }
  }

  method FindOpenContainer(tokens: array<Tok>, n: nat) returns (i: int)
    requires n <= tokens.Length
    ensures i == LastOpenContainer(tokens[..n])
  {
    i := n - 1;
    assert tokens[..i + 1] == tokens[..n];
    while i >= 0 && !(Container(tokens[i].kind) && tokens[i].end == -1)
      invariant -1 <= i < n && LastOpenContainer(tokens[..n]) == LastOpenContainer(tokens[..i + 1])
    {
      assert tokens[..i + 1][..i] == tokens[..i];
      i := i - 1;
    }
  }

  /** Take the next token of the array, and count it for `super`. */
  method AllocToken(tokens: array<Tok>, next: nat, super: int, t: Tok) returns (ok: bool)
    requires next <= tokens.Length && -1 <= super < next
    modifies tokens
    ensures ok == (next < tokens.Length)
    ensures !ok ==> tokens[..] == old(tokens[..])
    ensures ok ==> tokens[..next + 1] == Bump(old(tokens[..next]), super) + [t]
  {
    if next >= tokens.Length { return false; }
    tokens[next] := t;
    if super != -1 {
      tokens[super] := tokens[super].(size := tokens[super].size + 1);
    }
    return true;
  }

  /** A closing bracket: close the last open token, if it is of that kind. */
  method CloseToken(tokens: array<Tok>, next: nat, kind: Kind, pos: nat) returns (ok: bool, super: int)
    requires next <= tokens.Length
    modifies tokens
    ensures var r := Close(Parser(pos, old(tokens[..next]), -1), kind);
      ok == r.Some? && (ok ==> r == Some(Parser(pos + 1, tokens[..next], super)))
  {
    hide LastOpen;
    var i := FindOpen(tokens, next);
    if i == -1 || tokens[i].kind != kind { return false, -1; }
    ghost var was := tokens[..next];
    tokens[i] := tokens[i].(end := pos + 1);
    assert tokens[..i] == was[..i];
    assert tokens[..next] == was[i := was[i].(end := pos + 1)];
    super := FindOpen(tokens, i);
    ok := true;
  }

  /** One turn of the main loop of `jsmn_parse`. */
  method FillTurn(js: Bytes, tokens: array<Tok>, pos: nat, next: nat, super: int)
    returns (ok: bool, pos': nat, next': nat, super': int)
    requires next <= tokens.Length && -1 <= super < next && !Done(js, pos)
    modifies tokens
    ensures next' <= tokens.Length
    ensures var r := Turn(js, Parser(pos, old(tokens[..next]), super), tokens.Length);
      ok == r.Some? && (ok ==> r == Some(Parser(pos', tokens[..next'], super')))
  {
    hide StringEnd, PrimEnd, LastOpen, LastOpenContainer, Bump;
    pos', next', super' := pos + 1, next, super;
    var c := js[pos];
    if c == 123 || c == 91 {
      ok := AllocToken(tokens, next, super, Tok(if c == 123 then OBJECT else ARRAY, pos, -1, 0));
      if ok { next', super' := next + 1, next; }
    } else if c == 125 || c == 93 {
      ok, super' := CloseToken(tokens, next, if c == 125 then OBJECT else ARRAY, pos);
    } else if c == 34 {
      var e := ParseString(js, pos + 1);
      if e.None? { return false, pos, next, super; }
      ok := AllocToken(tokens, next, super, Tok(STRING, pos + 1, e.value, 0));
      if ok { pos', next' := e.value + 1, next + 1; }
    } else if Blank(c) {
      ok := true;
    } else if c == 58 {
      ok, super' := true, next - 1;
    } else if c == 44 {
      ok := true;
      if super != -1 && !Container(tokens[super].kind) {
        var i := FindOpenContainer(tokens, next);
        if i != -1 { super' := i; }
      }
    } else {
      var e := ParsePrimitive(js, pos);
      if e.None? { return false, pos, next, super; }
      ok := AllocToken(tokens, next, super, Tok(PRIMITIVE, pos, e.value, 0));
      if ok { pos', next' := e.value, next + 1; }
    }
  }

  /** `jsmn_parse` into an array: the number of tokens filled, or an error. */
  method FillTokens(js: Bytes, tokens: array<Tok>) returns (r: Option<nat>)
    modifies tokens
    ensures var ts := Scan(js, START, tokens.Length);
      r.Some? == ts.Some? && (r.Some? ==> r.value <= tokens.Length && ts == Some(tokens[..r.value]))
  {
    hide Turn, Scan, LastOpen;
    var pos: nat, next: nat, super := 0, 0, -1;
    assert Parser(pos, tokens[..next], super) == START;
    while !Done(js, pos)
      invariant next <= tokens.Length && -1 <= super < next
      invariant Scan(js, START, tokens.Length) == Scan(js, Parser(pos, tokens[..next], super), tokens.Length)
      decreases if pos < |js| then |js| - pos else 0
    {
      TurnStep(js, Parser(pos, tokens[..next], super), tokens.Length);
      var ok;
      ok, pos, next, super := FillTurn(js, tokens, pos, next, super);
      if !ok { return None; }
    }
    TurnStep(js, Parser(pos, tokens[..next], super), tokens.Length);
    var i := FindOpen(tokens, next);
    return if i == -1 then Some(next) else None;
  }
}
