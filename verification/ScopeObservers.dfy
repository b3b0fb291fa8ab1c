/**
  Scope observers: notification that tolerates adding, removing and notifying again from
  within a callback. While a notification runs, removals leave tombstones; the outermost
  one clears them away.
 */
module ScopeObservers {
  import opened Bytes
  import opened Wrappers

  type Id = nat
  type Slots = seq<Option<Id>>

  // ------------------------------------------------------- the array of observers

  /** The observers in the slots, in order. */
  function Live(s: Slots): seq<Id> {
    if s == [] then [] else (if s[0].Some? then [s[0].value] else []) + Live(s[1..])
  }

  /** The slots without tombstones. */
  function Compact(s: Slots): Slots {
    if s == [] then [] else (if s[0].Some? then [s[0]] else []) + Compact(s[1..])
  }

  /** Where `x` is, or the length. */
  function IndexOf(s: Slots, x: Id): (k: nat)
    ensures k <= |s| && (forall i :: 0 <= i < k ==> s[i] != Some(x)) && (k < |s| ==> s[k] == Some(x))
  {
    if s == [] || s[0] == Some(x) then 0 else 1 + IndexOf(s[1..], x)
  }

  function Remove(s: Slots, x: Id, notifying: bool): Slots {
    var k := IndexOf(s, x);
    if k == |s| then s else if notifying then s[k := None] else s[..k] + s[k + 1..]
  }

  // ------------------------------------------------------- interleavings

  /** A notification that is running: its bound and its index; and for the record, who
      was registered when it began, whom it called, and who was removed before that. */
  datatype Frame = Frame(end: nat, i: nat, snapshot: seq<Id>, called: seq<Id>, dropped: set<Id>)

  /** Notifications nest, so those that are running form a stack, innermost last.
      `registered` are the registrations minus the removals, in order. */
  datatype State = State(slots: Slots, stack: seq<Frame>, pending: bool, registered: seq<Id>, flushes: nat)

  datatype Event = Add(x: Id) | Drop(y: Id) | Begin | Next | End | Unlock(flush: bool)

  function Init(): State { State([], [], false, [], 0) }

  function Without(s: seq<Id>, xs: set<Id>): seq<Id> {
    if s == [] then [] else (if s[0] in xs then [] else [s[0]]) + Without(s[1..], xs)
  }

  /** A removal, in the record of a notification that has not called `x` yet. */
  function NoteDrop(f: Frame, x: Id): Frame {
    if x in f.called then f else f.(dropped := f.dropped + {x})
  }

  function NoteDrops(fs: seq<Frame>, x: Id): (r: seq<Frame>)
    ensures |r| == |fs| && forall k :: 0 <= k < |fs| ==> r[k] == NoteDrop(fs[k], x)
  {
    if fs == [] then [] else [NoteDrop(fs[0], x)] + NoteDrops(fs[1..], x)
  }

  function Top(s: State): Frame
    requires s.stack != []
  {
    s.stack[|s.stack| - 1]
  }

  /** The loop of a notification goes on. */
  predicate Loops(s: State) { s.stack != [] && Top(s).i < Top(s).end && Top(s).i < |s.slots| }

  /** What callbacks and their callers do, one operation at a time. Only the innermost
      notification can go on or end. */
  function Do(s: State, e: Event): State {
    match e
    case Add(x) =>
      if x in s.registered then s
      else s.(slots := s.slots + [Some(x)], registered := s.registered + [x])
    case Drop(x) =>
      if x !in s.registered then s
      else
        s.(slots := Remove(s.slots, x, s.stack != []), stack := NoteDrops(s.stack, x),
           registered := Without(s.registered, {x}))
    case Begin =>
      s.(stack := s.stack + [Frame(|s.slots|, 0, s.registered, [], {})])
    case Next =>
      if !Loops(s) then s
      else
        var f := Top(s);
        var visited := if s.slots[f.i].Some? then f.called + [s.slots[f.i].value] else f.called;
        s.(stack := s.stack[..|s.stack| - 1] + [f.(i := f.i + 1, called := visited)])
    case End =>
      if s.stack == [] || Loops(s) then s
      else
        var rest := s.stack[..|s.stack| - 1];
        s.(stack := rest, slots := if rest == [] then Compact(s.slots) else s.slots)
    case Unlock(flush) =>
      if s.stack != [] then s.(pending := flush || s.pending)
      else s.(pending := false, flushes := s.flushes + if flush || s.pending then 1 else 0)
  }

  function Run(s: State, es: seq<Event>): State
    decreases |es|
  {
    if es == [] then s else Run(Do(s, es[0]), es[1..])
  }

  // ------------------------------------------------------- invariant

  predicate NoRepeats(s: seq<Id>) { forall i, j :: 0 <= i < j < |s| ==> s[i] != s[j] }

  /** What the notification called and what it will call are those registered when it
      began, without those removed before their turn. */
  ghost predicate FrameOk(slots: Slots, f: Frame) {
    && f.i <= f.end <= |slots|
    && NoRepeats(f.snapshot)
    && f.called + Live(slots[f.i..f.end]) == Without(f.snapshot, f.dropped)
  }

  ghost predicate Inv(s: State) {
    && s.registered == Live(s.slots) && NoRepeats(s.registered)
    && (forall k :: 0 <= k < |s.stack| ==> FrameOk(s.slots, s.stack[k]))
    && (s.stack == [] ==> Compact(s.slots) == s.slots)
  }

  // ------------------------------------------------------- slots

  lemma Assoc<T>(a: seq<T>, b: seq<T>, c: seq<T>)
    ensures a + b + c == a + (b + c)
  {
  }

  lemma {:induction false} LiveConcat(a: Slots, b: Slots)
    ensures Live(a + b) == Live(a) + Live(b)
  {
    if a == [] {
      assert a + b == b;
    } else {
      assert (a + b)[0] == a[0] && (a + b)[1..] == a[1..] + b;
      LiveConcat(a[1..], b);
      var first := if a[0].Some? then [a[0].value] else [];
      assert Live(a) == first + Live(a[1..]) && Live(a + b) == first + Live(a[1..] + b);
      hide Live;
      Assoc(first, Live(a[1..]), Live(b));
    }
  }

  lemma {:induction false} CompactConcat(a: Slots, b: Slots)
    ensures Compact(a + b) == Compact(a) + Compact(b)
  {
    if a == [] {
      assert a + b == b;
    } else {
      assert (a + b)[0] == a[0] && (a + b)[1..] == a[1..] + b;
      CompactConcat(a[1..], b);
      var first := if a[0].Some? then [a[0]] else [];
      assert Compact(a) == first + Compact(a[1..]) && Compact(a + b) == first + Compact(a[1..] + b);
      hide Compact;
      Assoc(first, Compact(a[1..]), Compact(b));
    }
  }

  lemma {:induction false} CompactKeepsLive(s: Slots)
    ensures Live(Compact(s)) == Live(s) && Compact(Compact(s)) == Compact(s)
  {
    if s != [] {
      CompactKeepsLive(s[1..]);
      if s[0].Some? { assert Compact(s)[1..] == Compact(s[1..]); } else { assert Compact(s) == Compact(s[1..]); }
    }
  }

  lemma {:induction false} CompactHasNoTombstones(s: Slots)
    ensures forall k :: 0 <= k < |Compact(s)| ==> Compact(s)[k].Some?
  {
    if s != [] { CompactHasNoTombstones(s[1..]); }
  }

  lemma {:induction false} WithoutConcat(a: seq<Id>, b: seq<Id>, xs: set<Id>)
    ensures Without(a + b, xs) == Without(a, xs) + Without(b, xs)
  {
    if a == [] {
      assert a + b == b;
    } else {
      assert (a + b)[0] == a[0] && (a + b)[1..] == a[1..] + b;
      WithoutConcat(a[1..], b, xs);
      var first := if a[0] in xs then [] else [a[0]];
      assert Without(a, xs) == first + Without(a[1..], xs) && Without(a + b, xs) == first + Without(a[1..] + b, xs);
      hide Without;
      Assoc(first, Without(a[1..], xs), Without(b, xs));
    }
  }

  lemma {:induction false} WithoutTwice(s: seq<Id>, xs: set<Id>, x: Id)
    ensures Without(s, xs + {x}) == Without(Without(s, xs), {x})
  {
    if s != [] {
      WithoutTwice(s[1..], xs, x);
      WithoutConcat(if s[0] in xs then [] else [s[0]], Without(s[1..], xs), {x});
    }
  }

  lemma {:induction false} WithoutNothing(s: seq<Id>, xs: set<Id>)
    requires forall k :: 0 <= k < |s| ==> s[k] !in xs
    ensures Without(s, xs) == s
  {
    if s != [] { WithoutNothing(s[1..], xs); }
  }

  lemma {:induction false} WithoutIs(s: seq<Id>, xs: set<Id>)
    ensures forall x :: x in Without(s, xs) <==> x in s && x !in xs
    ensures NoRepeats(s) ==> NoRepeats(Without(s, xs))
  {
    if s != [] {
      WithoutIs(s[1..], xs);
      assert forall x :: x in s <==> x == s[0] || x in s[1..];
    }
  }

  // ------------------------------------------------------- removal

  /** Every slot of `x` made a tombstone. */
  function Tomb(s: Slots, x: Id): (r: Slots)
    ensures |r| == |s| && forall k :: 0 <= k < |s| ==> r[k] == if s[k] == Some(x) then None else s[k]
  {
    if s == [] then [] else [if s[0] == Some(x) then None else s[0]] + Tomb(s[1..], x)
  }

  lemma {:induction false} TombDrops(s: Slots, x: Id)
    ensures Live(Tomb(s, x)) == Without(Live(s), {x})
  {
    if s != [] {
      assert Tomb(s, x)[1..] == Tomb(s[1..], x);
      TombDrops(s[1..], x);
      WithoutConcat(if s[0].Some? then [s[0].value] else [], Live(s[1..]), {x});
    }
  }

  lemma {:induction false} LiveAt(s: Slots, k: nat)
    requires k < |s| && s[k].Some?
    ensures s[k].value in Live(s)
  {
    if k > 0 { LiveAt(s[1..], k - 1); }
  }

  lemma {:induction false} LiveIsSomewhere(s: Slots, x: Id)
    ensures x in Live(s) <==> Some(x) in s
  {
    if s != [] {
      LiveIsSomewhere(s[1..], x);
      assert s == [s[0]] + s[1..];
    }
  }

  /** An observer that is registered once has one slot. */
  lemma OneSlot(s: Slots, x: Id, k: nat)
    requires NoRepeats(Live(s)) && k < |s| && s[k] == Some(x)
    ensures s[k := None] == Tomb(s, x)
    ensures x !in Live(s[..k]) && x !in Live(s[k + 1..])
  {
    var a, b := s[..k], s[k + 1..];
    assert s == a + [s[k]] + b;
    LiveConcat(a + [s[k]], b);
    LiveConcat(a, [s[k]]);
    assert Live([s[k]]) == [x];
    assert Live(s)[|Live(a)|] == x;
    Apart(Live(a), x, Live(b));
    LiveIsSomewhere(a, x);
    LiveIsSomewhere(b, x);
    forall i | 0 <= i < |s| && i != k ensures s[i] != Some(x) {
      if i < k { assert s[i] == a[i]; } else { assert s[i] == b[i - k - 1]; }
    }
  }

  lemma Apart(a: seq<Id>, x: Id, b: seq<Id>)
    requires NoRepeats(a + [x] + b)
    ensures x !in a && x !in b
  {
    var s := a + [x] + b;
    assert s[|a|] == x;
    forall i | 0 <= i < |a| ensures a[i] != x { assert s[i] == a[i]; }
    forall i | 0 <= i < |b| ensures b[i] != x { assert s[|a| + 1 + i] == b[i]; }
  }

  lemma {:induction false} AllSome(s: Slots)
    requires forall k :: 0 <= k < |s| ==> s[k].Some?
    ensures Compact(s) == s
  {
    if s != [] { AllSome(s[1..]); }
  }

  lemma RemoveDrops(s: Slots, x: Id, notifying: bool)
    requires NoRepeats(Live(s)) && x in Live(s)
    ensures Live(Remove(s, x, notifying)) == Without(Live(s), {x})
    ensures notifying ==> Remove(s, x, notifying) == Tomb(s, x)
    ensures !notifying && Compact(s) == s ==> Compact(Remove(s, x, notifying)) == Remove(s, x, notifying)
  {
    var k := IndexOf(s, x);
    LiveIsSomewhere(s, x);
    OneSlot(s, x, k);
    TombDrops(s, x);
    ShiftOrTomb(s, k);
    if Compact(s) == s {
      CompactHasNoTombstones(s);
      AllSome(s[..k] + s[k + 1..]);
    }
    hide Live, Compact, Without, NoRepeats;
  }

  /** Closing the gap is as good as leaving a tombstone. */
  lemma ShiftOrTomb(s: Slots, k: nat)
    requires k < |s|
    ensures Live(s[..k] + s[k + 1..]) == Live(s[k := None])
  {
    var a, b, gap: Slots := s[..k], s[k + 1..], [None];
    assert s[k := None] == a + gap + b;
    LiveConcat(a + gap, b);
    LiveConcat(a, gap);
    LiveConcat(a, b);
    assert Live(gap) == [];
  }

  // ------------------------------------------------------- frames

  lemma FrameDrop(slots: Slots, f: Frame, x: Id)
    requires FrameOk(slots, f)
    ensures FrameOk(Tomb(slots, x), NoteDrop(f, x))
  {
    var todo := slots[f.i..f.end];
    assert Tomb(slots, x)[f.i..f.end] == Tomb(todo, x);
    TombDrops(todo, x);
    WithoutIs(f.snapshot, f.dropped);
    if x in f.called {
      InFirst(f.called, Live(todo), x);
      WithoutNothing(Live(todo), {x});
    } else {
      WithoutTwice(f.snapshot, f.dropped, x);
      WithoutConcat(f.called, Live(todo), {x});
      WithoutNothing(f.called, {x});
    }
  }

  lemma InFirst(a: seq<Id>, b: seq<Id>, x: Id)
    requires NoRepeats(a + b) && x in a
    ensures x !in b
  {
    var i :| 0 <= i < |a| && a[i] == x;
    assert (a + b)[i] == x;
    forall j | 0 <= j < |b| ensures b[j] != x { assert (a + b)[|a| + j] == b[j]; }
  }

  lemma FrameNext(slots: Slots, f: Frame)
    requires FrameOk(slots, f) && f.i < f.end
    ensures
      var visited := if slots[f.i].Some? then f.called + [slots[f.i].value] else f.called;
      FrameOk(slots, f.(i := f.i + 1, called := visited))
  {
    var todo := slots[f.i..f.end];
    assert todo == [slots[f.i]] + slots[f.i + 1..f.end];
    LiveConcat([slots[f.i]], slots[f.i + 1..f.end]);
    if slots[f.i].Some? { assert Live([slots[f.i]]) == [slots[f.i].value]; }
  }

  lemma FrameGrows(slots: Slots, f: Frame, more: Slots)
    requires FrameOk(slots, f)
    ensures FrameOk(slots + more, f)
  {
    assert (slots + more)[f.i..f.end] == slots[f.i..f.end];
  }

  // ------------------------------------------------------- every step keeps the invariant

  lemma AddInv(s: State, x: Id)
    requires Inv(s)
    ensures Inv(Do(s, Add(x)))
  {
    var more: Slots := [Some(x)];
    LiveConcat(s.slots, more);
    CompactConcat(s.slots, more);
    assert Live(more) == [x] && Compact(more) == more;
    forall k | 0 <= k < |s.stack| ensures FrameOk(s.slots + more, s.stack[k]) { FrameGrows(s.slots, s.stack[k], more); }
    hide FrameOk, Live, Compact;
  }

  lemma DropInv(s: State, x: Id)
    requires Inv(s)
    ensures Inv(Do(s, Drop(x)))
  {
    if x in s.registered {
      RemoveDrops(s.slots, x, s.stack != []);
      WithoutIs(s.registered, {x});
      forall k | 0 <= k < |s.stack| ensures FrameOk(Tomb(s.slots, x), NoteDrop(s.stack[k], x)) {
        FrameDrop(s.slots, s.stack[k], x);
      }
      hide FrameOk, Live, Compact, Remove, Without, NoteDrop, NoRepeats;
    }
  }

  lemma BeginInv(s: State)
    requires Inv(s)
    ensures Inv(Do(s, Begin))
  {
    WithoutNothing(s.registered, {});
    assert s.slots[0..|s.slots|] == s.slots;
    assert FrameOk(s.slots, Frame(|s.slots|, 0, s.registered, [], {})) by {
      assert [] + Live(s.slots) == s.registered;
    }
    hide FrameOk;
  }

  lemma NextInv(s: State)
    requires Inv(s)
    ensures Inv(Do(s, Next))
  {
    if Loops(s) { FrameNext(s.slots, Top(s)); }
    hide FrameOk;
  }

  lemma EndInv(s: State)
    requires Inv(s)
    ensures Inv(Do(s, End))
  {
    CompactKeepsLive(s.slots);
    hide FrameOk, Live, Compact;
  }

  lemma StepInv(s: State, e: Event)
    requires Inv(s)
    ensures Inv(Do(s, e))
  {
    match e
    case Add(x) => AddInv(s, x);
    case Drop(x) => DropInv(s, x);
    case Begin => BeginInv(s);
    case Next => NextInv(s);
    case End => EndInv(s);
    case Unlock(_) =>
  }

  lemma {:induction false} InvAfter(s: State, es: seq<Event>)
    requires Inv(s)
    ensures Inv(Run(s, es))
    decreases |es|
  {
    if es != [] {
      StepInv(s, es[0]);
      hide Inv;
      InvAfter(Do(s, es[0]), es[1..]);
    }
  }

  // ------------------------------------------------------- main results

  /** Whenever a notification ends, however callbacks have added, removed and notified
      meanwhile, it has called exactly those registered when it began and not removed
      before their turn, in the order of registration, and each once. */
  lemma NotificationIsExact(es: seq<Event>)
    ensures
      var s := Run(Init(), es);
      s.stack != [] && !Loops(s) ==>
        Top(s).called == Without(Top(s).snapshot, Top(s).dropped) && NoRepeats(Top(s).called)
  {
    var s := Run(Init(), es);
    InvAfter(Init(), es);
    if s.stack != [] && !Loops(s) {
      var f := Top(s);
      assert s.slots[f.i..f.end] == [];
      assert f.called + [] == f.called;
      WithoutIs(f.snapshot, f.dropped);
    }
  }

  /** And at any time, what it has called so far is a part of that from the start. */
  lemma NotificationIsInOrder(es: seq<Event>, k: nat)
    ensures
      var s := Run(Init(), es);
      k < |s.stack| ==> s.stack[k].called <= Without(s.stack[k].snapshot, s.stack[k].dropped)
  {
    InvAfter(Init(), es);
  }

  /** The slots always hold the registrations minus the removals, in order; outside of
      notifications there is nothing else in them. */
  lemma LiveListIsExact(es: seq<Event>)
    ensures
      var s := Run(Init(), es);
      && Live(s.slots) == s.registered
      && (s.stack == [] ==>
            |s.slots| == |s.registered| && forall k :: 0 <= k < |s.slots| ==> s.slots[k] == Some(s.registered[k]))
  {
    var s := Run(Init(), es);
    InvAfter(Init(), es);
    if s.stack == [] {
      CompactHasNoTombstones(s.slots);
      LiveOfSome(s.slots);
    }
  }

  lemma {:induction false} LiveOfSome(s: Slots)
    requires forall k :: 0 <= k < |s| ==> s[k].Some?
    ensures |Live(s)| == |s| && forall k :: 0 <= k < |s| ==> s[k] == Some(Live(s)[k])
  {
    if s != [] { LiveOfSome(s[1..]); }
  }

  /** No unlock in `es` comes while nothing is notifying. */
  predicate OnlyReentrant(s: State, es: seq<Event>)
    decreases |es|
  {
    es == [] || ((es[0].Unlock? ==> s.stack != []) && OnlyReentrant(Do(s, es[0]), es[1..]))
  }

  /** Flush requests made while notifying are not lost: the next unlock outside of
      notifications flushes, once, exactly if it or any of them asked for it. */
  lemma {:induction false} FlushesAreCoalesced(s: State, es: seq<Event>, flush: bool)
    requires OnlyReentrant(s, es) && Run(s, es).stack == []
    ensures
      var s' := Do(Run(s, es), Unlock(flush));
      s'.flushes == s.flushes + (if s.pending || flush || Unlock(true) in es then 1 else 0) && !s'.pending
    decreases |es|
  {
    if es != [] {
      assert es == [es[0]] + es[1..];
      FlushesAreCoalesced(Do(s, es[0]), es[1..], flush);
    }
  }
}
