/**
  Reclamation of batchers behind a `sentry_batcher_ref_t`: acquire, pin, unpin, swap
  and release, with any number of threads of control. Each atomic operation is a step.
  An actor is one thread of control with at most one reference in its hands; a thread
  that holds several is several actors.
 */
module BatcherRef {
  import opened Wrappers

  datatype Pc =
    | Idle
    | AcquireLock | AcquireLoad | AcquireCount(b: nat) | AcquireUnlock(got: Option<nat>)
    | Owns(b: nat)
    | PinAdd | PinLoad | PinUndo | Pinned(b: nat)
    | SwapLock(next: Option<nat>) | SwapExchange(next: Option<nat>) | SwapUnlock(prev: Option<nat>) | SwapWait(b: nat)

  /** `freed` counts how often `sentry__batcher_release` freed the batcher. */
  datatype Batcher = Batcher(refcount: int, freed: nat)

  datatype State = State(ptr: Option<nat>, lock: Option<nat>, pins: int,
                         batchers: map<nat, Batcher>, actors: map<nat, Pc>)

  /** What an actor that can choose may start. */
  datatype Choice = Acquire | Pin | SwapIn | Release | Make(b: nat)

  function Move(s: State, a: nat, p: Pc): State { s.(actors := s.actors[a := p]) }

  function Count(s: State, b: nat, k: int): State
    requires b in s.batchers
  {
    s.(batchers := s.batchers[b := s.batchers[b].(refcount := s.batchers[b].refcount + k)])
  }

  /** `sentry__batcher_release`: drop a reference, and free on the last one. */
  function Drop(s: State, b: nat): State
    requires b in s.batchers
  {
    var old_ := s.batchers[b].refcount;
    var s1 := Count(s, b, -1);
    if old_ != 1 then s1
    else s1.(batchers := s1.batchers[b := s1.batchers[b].(freed := s1.batchers[b].freed + 1)])
  }

  function Start(s: State, a: nat, c: Choice): State
    requires a in s.actors
    requires s.actors[a].Owns? ==> s.actors[a].b in s.batchers
  {
    match s.actors[a]
    case Idle =>
      (match c
       case Acquire => Move(s, a, AcquireLock)
       case Pin => Move(s, a, PinAdd)
       case SwapIn => Move(s, a, SwapLock(None))
       case Make(b) =>
         if b in s.batchers then s else Move(s, a, Owns(b)).(batchers := s.batchers[b := Batcher(1, 0)])
       case Release => s)
    case Owns(b) =>
      (match c
       case SwapIn => Move(s, a, SwapLock(Some(b)))
       case Release => Move(Drop(s, b), a, Idle)
       case _ => s)
    case _ => s
  }

  /** One step of whatever actor `a` is in the middle of. */
  function Continue(s: State, a: nat): State
    requires a in s.actors
    requires s.actors[a].AcquireCount? ==> s.actors[a].b in s.batchers
  {
    match s.actors[a]
    case Idle => s
    case Owns(_) => s
    case AcquireLock => if s.lock == None then Move(s, a, AcquireLoad).(lock := Some(a)) else s
    case AcquireLoad => Move(s, a, if s.ptr.Some? then AcquireCount(s.ptr.value) else AcquireUnlock(None))
    case AcquireCount(b) => Move(Count(s, b, 1), a, AcquireUnlock(Some(b)))
    case AcquireUnlock(got) => Move(s, a, if got.Some? then Owns(got.value) else Idle).(lock := None)
    case PinAdd => Move(s, a, PinLoad).(pins := s.pins + 1)
    case PinLoad => Move(s, a, if s.ptr.Some? then Pinned(s.ptr.value) else PinUndo)
    case PinUndo => Move(s, a, Idle).(pins := s.pins - 1)
    case Pinned(_) => Move(s, a, Idle).(pins := s.pins - 1)
    case SwapLock(next) => if s.lock == None then Move(s, a, SwapExchange(next)).(lock := Some(a)) else s
    case SwapExchange(next) => Move(s, a, SwapUnlock(s.ptr)).(ptr := next)
    case SwapUnlock(prev) => Move(s, a, if prev.Some? then SwapWait(prev.value) else Idle).(lock := None)
    case SwapWait(b) => if s.pins > 0 then s else Move(s, a, Owns(b))
  }

  datatype Action = Spawn(a: nat) | Starts(a: nat, c: Choice) | Continues(a: nat)

  ghost predicate Step(s: State, s': State, act: Action) {
    match act
    case Spawn(a) => a !in s.actors && s' == Move(s, a, Idle)
    case Starts(a, c) => Start.requires(s, a, c) && s' == Start(s, a, c)
    case Continues(a) => Continue.requires(s, a) && s' == Continue(s, a)
  }

  ghost predicate Init(s: State) { s == State(None, None, 0, map[], map[]) }

  ghost predicate Run(run: seq<State>, acts: seq<Action>) {
    && |run| == |acts| + 1
    && Init(run[0])
    && forall i :: 0 <= i < |acts| ==> Step(run[i], run[i + 1], acts[i])
  }

  // ------------------------------------------------------- invariant

  /** The actor holds a reference counted in `refcount` of `b`. */
  predicate Counted(p: Pc, b: nat) {
    match p
    case Owns(x) => x == b
    case AcquireUnlock(got) => got == Some(b)
    case SwapLock(next) => next == Some(b)
    case SwapExchange(next) => next == Some(b)
    case SwapUnlock(prev) => prev == Some(b)
    case SwapWait(x) => x == b
    case _ => false
  }

  predicate Pinning(p: Pc) { p.PinLoad? || p.PinUndo? || p.Pinned? }

  predicate Locked(p: Pc) { p.AcquireLoad? || p.AcquireCount? || p.AcquireUnlock? || p.SwapExchange? || p.SwapUnlock? }

  /** A swapper took `b` out of the slot and has not yet seen `pins == 0`. */
  predicate Awaiting(p: Pc, b: nat) { p == SwapUnlock(Some(b)) || p == SwapWait(b) }

  function Owners(s: State, b: nat): set<nat> { set a | a in s.actors && Counted(s.actors[a], b) }

  function Pinners(s: State): set<nat> { set a | a in s.actors && Pinning(s.actors[a]) }

  ghost predicate Guarded(s: State, b: nat) {
    s.ptr == Some(b) || exists a :: a in s.actors && Awaiting(s.actors[a], b)
  }

  ghost predicate BatcherOk(s: State, b: nat)
    requires b in s.batchers
  {
    && s.batchers[b].refcount == |Owners(s, b)| + (if s.ptr == Some(b) then 1 else 0)
    && s.batchers[b].freed == (if s.batchers[b].refcount == 0 then 1 else 0)
  }

  ghost predicate ActorOk(s: State, a: nat)
    requires a in s.actors
  {
    var p := s.actors[a];
    && (forall b :: Counted(p, b) ==> b in s.batchers)
    && (Locked(p) <==> s.lock == Some(a))
    && (p.AcquireCount? ==> s.ptr == Some(p.b))
    && (p.Pinned? ==> Guarded(s, p.b))
  }

  ghost predicate Inv(s: State) {
    && (s.ptr.Some? ==> s.ptr.value in s.batchers)
    && (s.lock.Some? ==> s.lock.value in s.actors)
    && s.pins == |Pinners(s)|
    && (forall b :: b in s.batchers ==> BatcherOk(s, b))
    && (forall a :: a in s.actors ==> ActorOk(s, a))
  }

  // ------------------------------------------------------- preservation

  function Unit(x: bool): int { if x then 1 else 0 }

  lemma OwnersMove(s: State, s': State, a: nat, b: nat)
    requires a in s.actors && a in s'.actors && s'.actors == s.actors[a := s'.actors[a]]
    ensures |Owners(s', b)| == |Owners(s, b)| + Unit(Counted(s'.actors[a], b)) - Unit(Counted(s.actors[a], b))
  {
    hide Counted;
    assert a in Owners(s, b) <==> Counted(s.actors[a], b);
    assert Owners(s', b) == if Counted(s'.actors[a], b) then Owners(s, b) + {a} else Owners(s, b) - {a};
  }

  lemma PinnersMove(s: State, s': State, a: nat)
    requires a in s.actors && a in s'.actors && s'.actors == s.actors[a := s'.actors[a]]
    ensures |Pinners(s')| == |Pinners(s)| + Unit(Pinning(s'.actors[a])) - Unit(Pinning(s.actors[a]))
  {
    hide Pinning;
    assert a in Pinners(s) <==> Pinning(s.actors[a]);
    assert Pinners(s') == if Pinning(s'.actors[a]) then Pinners(s) + {a} else Pinners(s) - {a};
  }

  /** What every step of actor `a` does to the lock, the pins and the slot. */
  ghost predicate Control(s: State, s': State, a: nat) {
    && a in s.actors && a in s'.actors
    && s'.actors == s.actors[a := s'.actors[a]]
    && var p, p' := s.actors[a], s'.actors[a];
    && (Locked(p) == Locked(p') ==> s'.lock == s.lock)
    && (Locked(p) && !Locked(p') ==> s'.lock == None)
    && (!Locked(p) && Locked(p') ==> s.lock == None && s'.lock == Some(a))
    && s'.pins == s.pins + Unit(Pinning(p')) - Unit(Pinning(p))
    && (s'.ptr != s.ptr ==> Locked(p) && p' == SwapUnlock(s.ptr))
    && (p'.AcquireCount? ==> s'.ptr == Some(p'.b))
    && (p'.Pinned? ==> s'.ptr == Some(p'.b))
    && (forall b :: Awaiting(p, b) && !Awaiting(p', b) ==> s.pins <= 0)
  }

  /** What it does to the references to `b`: `refcount` follows them, and dropping the
      last one frees; a count is only ever added to a live batcher. */
  ghost predicate Counts(s: State, s': State, a: nat, b: nat)
    requires a in s.actors && a in s'.actors && b in s.batchers && b in s'.batchers
  {
    var p, p' := s.actors[a], s'.actors[a];
    var k := Unit(Counted(p', b)) + Unit(s'.ptr == Some(b)) - Unit(Counted(p, b)) - Unit(s.ptr == Some(b));
    && s'.batchers[b].refcount == s.batchers[b].refcount + k
    && s'.batchers[b].freed == s.batchers[b].freed + Unit(k == -1 && s.batchers[b].refcount == 1)
    && -1 <= k <= 1
    && (k == 1 ==> s.batchers[b].refcount >= 1)
  }

  ghost predicate Effect(s: State, s': State, a: nat) {
    && Control(s, s', a)
    && (s'.ptr.Some? ==> s'.ptr.value in s'.batchers)
    && s.batchers.Keys <= s'.batchers.Keys
    && (forall b :: Counted(s'.actors[a], b) ==> b in s'.batchers)
    && (forall b :: b in s.batchers ==> Counts(s, s', a, b))
    && (forall b :: b in s'.batchers && b !in s.batchers ==>
          s'.batchers[b] == Batcher(1, 0) && Counted(s'.actors[a], b) && s'.ptr == s.ptr)
  }

  lemma SlotIsCounted(s: State)
    requires Inv(s)
    ensures s.ptr.Some? ==> s.ptr.value in s.batchers && s.batchers[s.ptr.value].refcount >= 1
  {
    hide Owners, ActorOk;
    if s.ptr.Some? { assert BatcherOk(s, s.ptr.value); }
  }

  lemma ContinueControls(s: State, a: nat)
    requires Continue.requires(s, a)
    requires s.actors[a].AcquireCount? ==> s.ptr == Some(s.actors[a].b)
    requires Locked(s.actors[a]) ==> s.lock == Some(a)
    ensures Control(s, Continue(s, a), a)
  {
    hide Counted;
    match s.actors[a]
    case Idle => case Owns(_) =>
    case AcquireLock => case AcquireLoad => case AcquireCount(_) => case AcquireUnlock(_) =>
    case PinAdd => case PinLoad => case PinUndo => case Pinned(_) =>
    case SwapLock(_) => case SwapExchange(_) => case SwapUnlock(_) => case SwapWait(_) =>
  }

  lemma ContinueCounts(s: State, a: nat, b: nat)
    requires Continue.requires(s, a) && b in s.batchers
    requires s.actors[a].AcquireCount? ==> s.ptr == Some(s.actors[a].b)
    requires s.ptr == Some(b) ==> s.batchers[b].refcount >= 1
    ensures b in Continue(s, a).batchers && Counts(s, Continue(s, a), a, b)
  {
    match s.actors[a]
    case Idle => case Owns(_) =>
    case AcquireLock => case AcquireLoad => case AcquireCount(_) => case AcquireUnlock(_) =>
    case PinAdd => case PinLoad => case PinUndo => case Pinned(_) =>
    case SwapLock(_) => case SwapExchange(_) => case SwapUnlock(_) => case SwapWait(_) =>
  }

  lemma ContinueKeys(s: State, a: nat)
    requires Continue.requires(s, a) && (s.ptr.Some? ==> s.ptr.value in s.batchers)
    requires forall b :: Counted(s.actors[a], b) ==> b in s.batchers
    ensures var s' := Continue(s, a);
      && s'.batchers.Keys == s.batchers.Keys && (s'.ptr.Some? ==> s'.ptr.value in s'.batchers)
      && forall b :: Counted(s'.actors[a], b) ==> b in s'.batchers
  {
    match s.actors[a]
    case SwapExchange(next) => if next.Some? { assert Counted(s.actors[a], next.value); }
    case _ =>
  }

  lemma ContinueDoes(s: State, a: nat)
    requires Inv(s) && Continue.requires(s, a)
    ensures Effect(s, Continue(s, a), a)
  {
    var s' := Continue(s, a);
    assert ActorOk(s, a);
    SlotIsCounted(s);
    hide Continue, Counts, Control, Guarded, Owners, Pinners, BatcherOk;
    ContinueControls(s, a);
    ContinueKeys(s, a);
    forall b | b in s.batchers ensures Counts(s, s', a, b) { ContinueCounts(s, a, b); }
  }

  lemma StartIdle(s: State, a: nat, c: Choice)
    requires Start.requires(s, a, c) && s.actors[a].Idle? && (s.ptr.Some? ==> s.ptr.value in s.batchers)
    ensures Start(s, a, c) == s || Effect(s, Start(s, a, c), a)
  {
    match c
    case Acquire => case Pin => case SwapIn => case Release => case Make(_) =>
  }

  lemma StartOwner(s: State, a: nat, c: Choice)
    requires Start.requires(s, a, c) && s.actors[a].Owns? && (s.ptr.Some? ==> s.ptr.value in s.batchers)
    ensures Start(s, a, c) == s || Effect(s, Start(s, a, c), a)
  {
    match c
    case Acquire => case Pin => case SwapIn => case Release => case Make(_) =>
  }

  lemma StartDoes(s: State, a: nat, c: Choice)
    requires Start.requires(s, a, c) && (s.ptr.Some? ==> s.ptr.value in s.batchers)
    ensures Start(s, a, c) == s || Effect(s, Start(s, a, c), a)
  {
    hide Effect;
    if s.actors[a].Idle? { StartIdle(s, a, c); }
    else if s.actors[a].Owns? { StartOwner(s, a, c); }
  }

  lemma EffectBatcher(s: State, s': State, a: nat, b: nat)
    requires Inv(s) && Effect(s, s', a) && b in s'.batchers
    ensures BatcherOk(s', b)
  {
    OwnersMove(s, s', a, b);
    if b in s.batchers {
      assert BatcherOk(s, b) && Counts(s, s', a, b);
    } else {
      assert Owners(s, b) == {} by {
        forall x | x in s.actors ensures !Counted(s.actors[x], b) { assert ActorOk(s, x); }
      }
    }
    hide Inv, Owners;
  }

  lemma EffectActor(s: State, s': State, a: nat, x: nat)
    requires Inv(s) && Effect(s, s', a) && x in s'.actors
    ensures ActorOk(s', x)
  {
    hide Owners, BatcherOk, Counts;
    assert ActorOk(s, x) && ActorOk(s, a);
    var p := s'.actors[x];
    if x != a && p.Pinned? {
      assert x in Pinners(s);
      assert s.pins > 0;
      if s.ptr == Some(p.b) {
        if s'.ptr != s.ptr { assert Awaiting(s'.actors[a], p.b); }
      } else {
        var y :| y in s.actors && Awaiting(s.actors[y], p.b);
        assert Awaiting(s'.actors[y], p.b);
      }
      assert Guarded(s', p.b);
    }
  }

  lemma EffectInv(s: State, s': State, a: nat)
    requires Inv(s) && Effect(s, s', a)
    ensures Inv(s')
  {
    PinnersMove(s, s', a);
    assert ActorOk(s, a);
    hide BatcherOk, ActorOk, Pinners, Counts;
    forall b | b in s'.batchers ensures BatcherOk(s', b) { EffectBatcher(s, s', a, b); }
    forall x | x in s'.actors ensures ActorOk(s', x) { EffectActor(s, s', a, x); }
  }

  lemma StepInv(s: State, s': State, act: Action)
    requires Inv(s) && Step(s, s', act)
    ensures Inv(s')
  {
    match act
    case Spawn(a) => SpawnInv(s, a);
    case Starts(a, c) =>
      StartDoes(s, a, c);
      if s' != s { hide *; EffectInv(s, s', a); }
    case Continues(a) =>
      ContinueDoes(s, a);
      hide *;
      EffectInv(s, s', a);
  }

  lemma SpawnInv(s: State, a: nat)
    requires Inv(s) && a !in s.actors
    ensures Inv(Move(s, a, Idle))
  {
    var s' := Move(s, a, Idle);
    assert Pinners(s') == Pinners(s);
    forall b | b in s'.batchers ensures BatcherOk(s', b) {
      assert Owners(s', b) == Owners(s, b);
      assert BatcherOk(s, b);
    }
    forall x | x in s'.actors ensures ActorOk(s', x) {
      if x != a {
        assert ActorOk(s, x);
        if s.actors[x].Pinned? && s.ptr != Some(s.actors[x].b) {
          var y :| y in s.actors && Awaiting(s.actors[y], s.actors[x].b);
          assert Awaiting(s'.actors[y], s.actors[x].b);
        }
      }
    }
  }

  lemma {:induction false} RunInv(run: seq<State>, acts: seq<Action>, i: nat)
    requires Run(run, acts) && i < |run|
    ensures Inv(run[i])
  {
    if i == 0 {
      assert Pinners(run[0]) == {};
    } else {
      hide Inv, Step;
      RunInv(run, acts, i - 1);
      StepInv(run[i - 1], run[i], acts[i - 1]);
    }
  }

  // ------------------------------------------------------- main results

  /** `refcount` is exactly the slot's reference plus those in the hands of swappers and
      acquirers, and a batcher is freed once, when that number reaches zero. */
  lemma RefcountExact(run: seq<State>, acts: seq<Action>, i: nat, b: nat)
    requires Run(run, acts) && i < |run| && b in run[i].batchers
    ensures var s := run[i];
      && s.batchers[b].refcount == |Owners(s, b)| + (if s.ptr == Some(b) then 1 else 0)
      && s.batchers[b].freed <= 1
      && (s.batchers[b].freed == 1 <==> s.batchers[b].refcount == 0)
  {
    RunInv(run, acts, i);
    hide ActorOk, Owners;
    assert BatcherOk(run[i], b);
  }

  /** Nobody can touch a freed batcher: not through a pin, not through a counted
      reference, not through the slot, and not in the window where `acquire` has loaded
      the pointer but not yet counted it. */
  lemma NeverFreedWhileUsed(run: seq<State>, acts: seq<Action>, i: nat, a: nat, b: nat)
    requires Run(run, acts) && i < |run| && a in run[i].actors
    requires var p := run[i].actors[a];
      p == Pinned(b) || p == AcquireCount(b) || Counted(p, b) || run[i].ptr == Some(b)
    ensures b in run[i].batchers && run[i].batchers[b].freed == 0
  {
    RunInv(run, acts, i);
    var s := run[i];
    var x := a;
    if s.ptr != Some(b) {
      assert ActorOk(s, a);
      if s.actors[a] == Pinned(b) {
        var y :| y in s.actors && Awaiting(s.actors[y], b);
        x := y;
      }
      assert ActorOk(s, x) && Counted(s.actors[x], b);
      assert x in Owners(s, b);
    }
    assert BatcherOk(s, b);
    hide ActorOk;
  }

  /** Once a batcher is freed it stays freed, and its memory is never handed out again. */
  lemma {:induction false} FreedForever(run: seq<State>, acts: seq<Action>, i: nat, j: nat, b: nat)
    requires Run(run, acts) && i <= j < |run| && b in run[i].batchers && run[i].batchers[b].freed == 1
    ensures b in run[j].batchers && run[j].batchers[b].freed == 1
    decreases j
  {
    hide Inv, Step;
    if i < j {
      FreedForever(run, acts, i, j - 1, b);
      RunInv(run, acts, j - 1);
      RunInv(run, acts, j);
      StepKeepsFreed(run[j - 1], run[j], acts[j - 1], b);
    }
  }

  lemma StepKeepsFreed(s: State, s': State, act: Action, b: nat)
    requires Inv(s) && Inv(s') && Step(s, s', act) && b in s.batchers && s.batchers[b].freed == 1
    ensures b in s'.batchers && s'.batchers[b].freed == 1
  {
    assert BatcherOk(s, b);
    match act
    case Spawn(a) =>
    case Starts(a, c) => StartDoes(s, a, c); assert s' == s || Counts(s, s', a, b);
    case Continues(a) => ContinueDoes(s, a); assert Counts(s, s', a, b);
  }

  /** No actor is ever stuck: what its steps take for granted holds in every state. */
  lemma ActorsAreNeverStuck(run: seq<State>, acts: seq<Action>, i: nat, a: nat, c: Choice)
    requires Run(run, acts) && i < |run| && a in run[i].actors
    ensures Start.requires(run[i], a, c) && Continue.requires(run[i], a)
  {
    RunInv(run, acts, i);
    var s := run[i];
    var p := s.actors[a];
    assert ActorOk(s, a);
    if p.Owns? { assert Counted(p, p.b); }
    hide BatcherOk, Pinners;
  }

  // ------------------------------------------------------- what the calls answer

  /** Until `acquire` gives the lock back, the slot holds what it found there. */
  lemma {:induction false} AcquireHoldsSlot(run: seq<State>, acts: seq<Action>, i: nat, a: nat)
    requires Run(run, acts) && i < |run| && a in run[i].actors && run[i].actors[a].AcquireUnlock?
    ensures run[i].ptr == run[i].actors[a].got
    decreases i
  {
    hide Inv, Step;
    if i > 0 {
      RunInv(run, acts, i - 1);
      if a in run[i - 1].actors && run[i - 1].actors[a].AcquireUnlock? { AcquireHoldsSlot(run, acts, i - 1, a); }
      StepHoldsSlot(run[i - 1], run[i], acts[i - 1], a);
    }
  }

  lemma StepHoldsSlot(s: State, s': State, act: Action, a: nat)
    requires Inv(s) && Step(s, s', act) && a in s'.actors && s'.actors[a].AcquireUnlock?
    requires a in s.actors && s.actors[a].AcquireUnlock? ==> s.ptr == s.actors[a].got
    ensures s'.ptr == s'.actors[a].got
  {
    hide *;
    match act
    case Spawn(b) => SpawnIs(s, s', b);
    case Starts(b, c) => StartAnswers(s, s', b, c);
    case Continues(b) =>
      ContinueIs(s, s', b);
      LockHolder(s, a, b);
      if a == b { OwnAnswer(s, a); } else { OtherAnswer(s, b); }
  }

  lemma SpawnIs(s: State, s': State, b: nat)
    requires Step(s, s', Spawn(b))
    ensures s' == s.(actors := s.actors[b := Idle]) && b !in s.actors
  {
  }

  lemma StartAnswers(s: State, s': State, b: nat, c: Choice)
    requires Step(s, s', Starts(b, c))
    ensures s'.ptr == s.ptr && b in s.actors && b in s'.actors && s'.actors == s.actors[b := s'.actors[b]]
    ensures s'.actors[b].AcquireUnlock? ==> s'.actors[b] == s.actors[b]
  {
  }

  lemma ContinueIs(s: State, s': State, b: nat)
    requires Step(s, s', Continues(b))
    ensures Continue.requires(s, b) && s' == Continue(s, b)
  {
    hide Continue;
  }

  /** Only one actor is in the section that the lock guards. */
  lemma LockHolder(s: State, a: nat, b: nat)
    requires Inv(s)
    ensures a in s.actors && b in s.actors && a != b && s.actors[a].AcquireUnlock? ==> !s.actors[b].SwapExchange?
    ensures a in s.actors && s.actors[a].AcquireCount? ==> s.ptr == Some(s.actors[a].b)
  {
    if a in s.actors && b in s.actors { assert ActorOk(s, a) && ActorOk(s, b); }
    hide BatcherOk, Pinners;
  }

  lemma OwnAnswer(s: State, a: nat)
    requires Continue.requires(s, a) && (s.actors[a].AcquireCount? ==> s.ptr == Some(s.actors[a].b))
    ensures var s' := Continue(s, a); a in s'.actors && (s'.actors[a].AcquireUnlock? ==> s'.ptr == s'.actors[a].got)
  {
  }

  lemma OtherAnswer(s: State, b: nat)
    requires Continue.requires(s, b)
    ensures var s' := Continue(s, b);
      && b in s'.actors && s'.actors == s.actors[b := s'.actors[b]] && (!s.actors[b].SwapExchange? ==> s'.ptr == s.ptr)
  {
  }

  /** The answers, by the slot at the moment they are given: `acquire` and `pin` return the
      batcher in the slot, and nothing exactly if there is none; `swap` puts the new batcher
      there and takes the old one, which it hands over once nobody is pinned. */
  lemma SlotAnswers(run: seq<State>, acts: seq<Action>, i: nat, a: nat)
    requires Run(run, acts) && i + 1 < |run| && a in run[i].actors && a in run[i + 1].actors
    requires run[i + 1].actors[a] != run[i].actors[a]
    ensures var s, s', p, p' := run[i], run[i + 1], run[i].actors[a], run[i + 1].actors[a];
      && (p.AcquireUnlock? ==> p' == if s.ptr.Some? then Owns(s.ptr.value) else Idle)
      && (p.PinLoad? ==> p' == if s.ptr.Some? then Pinned(s.ptr.value) else PinUndo)
      && (p.SwapExchange? ==> s'.ptr == p.next && p' == SwapUnlock(s.ptr))
      && (p.SwapUnlock? ==> p' == if p.prev.Some? then SwapWait(p.prev.value) else Idle)
      && (p.SwapWait? ==> p' == Owns(p.b) && s.pins <= 0)
  {
    hide Inv, Start, Continue;
    assert Step(run[i], run[i + 1], acts[i]);
    if run[i].actors[a].AcquireUnlock? { AcquireHoldsSlot(run, acts, i, a); }
    OwnMove(run[i], run[i + 1], acts[i], a);
    if !run[i].actors[a].Idle? && !run[i].actors[a].Owns? { MoveAnswers(run[i], a); }
  }

  /** A step that moves an actor in the middle of something is its own next one. */
  lemma OwnMove(s: State, s': State, act: Action, a: nat)
    requires Step(s, s', act) && a in s.actors && a in s'.actors && s'.actors[a] != s.actors[a]
    ensures s.actors[a].Idle? || s.actors[a].Owns? || (Continue.requires(s, a) && s' == Continue(s, a))
  {
    hide Continue;
    if act.Continues? { hide Start; OtherAnswer(s, act.a); }
  }

  lemma MoveAnswers(s: State, a: nat)
    requires Continue.requires(s, a) && a in Continue(s, a).actors && Continue(s, a).actors[a] != s.actors[a]
    ensures var s', p := Continue(s, a), s.actors[a]; var p' := s'.actors[a];
      && (p.AcquireUnlock? ==> p' == if p.got.Some? then Owns(p.got.value) else Idle)
      && (p.PinLoad? ==> p' == if s.ptr.Some? then Pinned(s.ptr.value) else PinUndo)
      && (p.SwapExchange? ==> s'.ptr == p.next && p' == SwapUnlock(s.ptr))
      && (p.SwapUnlock? ==> p' == if p.prev.Some? then SwapWait(p.prev.value) else Idle)
      && (p.SwapWait? ==> p' == Owns(p.b) && s.pins <= 0)
  {
  }
}
