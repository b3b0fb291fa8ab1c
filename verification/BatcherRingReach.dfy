/** How far a flush gets. */
module BatcherRingReach {
  import opened Wrappers
  import opened BatcherRing
  import opened BatcherRingInv
  import opened BatcherRingFlush
  import opened BatcherRingTheorems

  /** The flush is past its load of the active buffer and has not decided to end. */
  predicate InLoop(p: FPc) { !p.Try? && !p.LoadFlush? && !p.Unlock? && !p.Finished? }

  /** The step by which flush `f` gives up on generation `g`: its rotation of the buffer
      that holds it returned false. */
  ghost predicate Refuses(s: State, s': State, f: nat, g: nat) {
    && f in s.flushers && f in s'.flushers
    && s.flushers[f].Rotating? && s'.flushers[f] == Unlock && s.h.D == g
  }

  /** What flush `f` has left to do when the queue ended at `e` as it loaded the active
      buffer. Until generation `e.gen` is drained, it knows the buffer that holds it. */
  ghost predicate Goal(c: Config, s: State, f: nat, e: Pos, refused: bool)
    requires Shape(c, s) && f in s.flushers
  {
    var p, D := s.flushers[f], s.h.D;
    && e.gen <= A(s) && e.slot <= |s.h.log[e.gen]|
    && (InLoop(p) || p.Unlock?)
    && (InLoop(p) ==> !refused && (D <= e.gen ==> p.f < c.B && s.h.gens[p.f] == e.gen))
    && ((p.LoadIndex? && p.act == p.from) || p.Rotating? || p.Unlock? ==> e.gen <= D)
    && (p.Unlock? ==> if refused then D == e.gen else D > e.gen || e.slot == 0)
  }

  // ------------------------------------------------------- steps of others

  /** What the goal of `f` rests on, besides the log. */
  ghost predicate Untouched(s: State, s': State, f: nat) {
    f in s'.flushers && f in s.flushers && s'.flushers[f] == s.flushers[f] && s'.h.D == s.h.D && s'.h.gens == s.h.gens
  }

  lemma CallLeaves(c: Config, s: State, t: Ticket, f: nat)
    requires Shape(c, s) && t in s.calls && f in s.flushers
    ensures Untouched(s, CallStep(c, s, t), f)
  {
  }

  lemma FlushLeaves(c: Config, s: State, o: nat, g: bool, f: nat)
    requires Inv(c, s) && o in s.flushers && f in s.flushers && o != f && Critical(s.flushers[f])
    ensures Untouched(s, FlushStep(c, s, o, g), f)
  {
    hide Ring, BufOk, CallOk, LogOk, RotateStep;
    assert !Critical(s.flushers[o]) by { OnlyOwner(c, s, o, f); }
  }

  lemma OnlyOwner(c: Config, s: State, o: nat, f: nat)
    requires Inv(c, s) && o in s.flushers && f in s.flushers && o != f && Critical(s.flushers[f])
    ensures !Critical(s.flushers[o])
  {
    hide Ring, BufOk, CallOk, LogOk;
  }

  lemma GoalStays(c: Config, s: State, s': State, f: nat, e: Pos, refused: bool)
    requires Shape(c, s) && Shape(c, s') && Untouched(s, s', f) && Goal(c, s, f, e, refused) && Grows(s, s')
    ensures Goal(c, s', f, e, refused)
  {
  }

  // ------------------------------------------------------- its own steps

  lemma GoalLoads(c: Config, s: State, f: nat, g: bool, e: Pos)
    requires Inv(c, s) && f in s.flushers && Crit(s) == s.flushers[f] && Goal(c, s, f, e, false)
    requires var p := s.flushers[f]; p.LoadDrain? || p.LoadOldSealed? || p.LoadActiveAgain? || p.Advance? || p.Wait?
    requires Shape(c, FlushStep(c, s, f, g)) && f in FlushStep(c, s, f, g).flushers
    ensures Goal(c, FlushStep(c, s, f, g), f, e, false)
  {
    hide BufOk, CallOk, LogOk, RotateStep;
  }

  lemma GoalDrains(c: Config, s: State, f: nat, g: bool, e: Pos)
    requires Inv(c, s) && f in s.flushers && Crit(s) == s.flushers[f] && Goal(c, s, f, e, false)
    requires var p := s.flushers[f]; p.Take? || p.Copy? || p.Hand? || p.Unseal?
    requires Shape(c, FlushStep(c, s, f, g)) && f in FlushStep(c, s, f, g).flushers
    ensures Goal(c, FlushStep(c, s, f, g), f, e, false)
  {
    hide BufOk, CallOk, LogOk, RotateStep;
  }

  /** The decision to stop: nothing in the buffer, or one that this flush need not take. */
  lemma GoalIndex(c: Config, s: State, f: nat, g: bool, e: Pos)
    requires Inv(c, s) && f in s.flushers && Crit(s) == s.flushers[f] && Goal(c, s, f, e, false)
    requires s.flushers[f].LoadIndex?
    requires Shape(c, FlushStep(c, s, f, g)) && f in FlushStep(c, s, f, g).flushers
    ensures Goal(c, FlushStep(c, s, f, g), f, e, false)
  {
    assert BufOk(c, s, s.flushers[f].from);
    hide CallOk, LogOk, RotateStep, Written, Holders, Sealing;
  }

  lemma GoalRotates(c: Config, s: State, f: nat, g: bool, e: Pos)
    requires Inv(c, s) && f in s.flushers && Crit(s) == s.flushers[f] && Goal(c, s, f, e, false)
    requires s.flushers[f].Rotating?
    requires Shape(c, FlushStep(c, s, f, g)) && f in FlushStep(c, s, f, g).flushers
    ensures var s' := FlushStep(c, s, f, g); Goal(c, s', f, e, Refuses(s, s', f, e.gen))
  {
    hide Ring, FlushOk, BufOk, CallOk, LogOk;
  }

  lemma GoalOwnStep(c: Config, s: State, f: nat, g: bool, e: Pos, refused: bool)
    requires Inv(c, s) && f in s.flushers && Goal(c, s, f, e, refused) && InLoop(s.flushers[f])
    requires Inv(c, FlushStep(c, s, f, g)) && f in FlushStep(c, s, f, g).flushers
    ensures var s' := FlushStep(c, s, f, g); Goal(c, s', f, e, Refuses(s, s', f, e.gen))
  {
    var p := s.flushers[f];
    OwnerIs(c, s, f);
    assert !refused;
    hide Ring, BufOk, CallOk, LogOk, FlushOk, Goal, FlushStep;
    if p.Rotating? { GoalRotates(c, s, f, g, e); }
    else if p.LoadIndex? { GoalIndex(c, s, f, g, e); }
    else if p.Take? || p.Copy? || p.Hand? || p.Unseal? { GoalDrains(c, s, f, g, e); }
    else { GoalLoads(c, s, f, g, e); }
  }

  /** A step of anybody, while `f` is at it: `f` has its goal afterwards, or has returned. */
  lemma GoalStep(c: Config, s: State, s': State, act: Action, f: nat, e: Pos, refused: bool)
    requires Inv(c, s) && Inv(c, s') && Step(c, s, s', act) && Shape(c, s) && Shape(c, s')
    requires f in s.flushers && Goal(c, s, f, e, refused)
    ensures f in s'.flushers
    ensures s'.flushers[f] == Finished(true) || Goal(c, s', f, e, refused || Refuses(s, s', f, e.gen))
  {
    hide *;
    GoalCritical(c, s, f, e, refused);
    StepGrows(c, s, s', act);
    if act.Flush? && act.f == f {
      FlushIsStep(c, s, s', f, act.giveUp);
      if s.flushers[f].Unlock? {
        UnlockReturns(c, s, f, act.giveUp);
      } else {
        FlushStays(c, s, f, act.giveUp);
        GoalOwnStep(c, s, f, act.giveUp, e, refused);
        GoalNotRefused(c, s, f, e, refused);
      }
    } else {
      OthersLeave(c, s, s', act, f);
      GoalStays(c, s, s', f, e, refused);
      NothingRefused(s, s', f, e.gen);
    }
  }

  lemma GoalCritical(c: Config, s: State, f: nat, e: Pos, refused: bool)
    requires Shape(c, s) && f in s.flushers && Goal(c, s, f, e, refused)
    ensures var p := s.flushers[f]; Critical(p) && (p.Unlock? || InLoop(p))
  {
  }

  lemma OthersLeave(c: Config, s: State, s': State, act: Action, f: nat)
    requires Inv(c, s) && Step(c, s, s', act) && f in s.flushers && Critical(s.flushers[f])
    requires !(act.Flush? && act.f == f)
    ensures Untouched(s, s', f) && f in s'.flushers
  {
    hide Inv, CallStep, FlushStep, Critical;
    match act
    case Begin(_) =>
    case Produce(t) => CallLeaves(c, s, t, f);
    case BeginFlush(_, _) =>
    case Flush(o, g) => FlushLeaves(c, s, o, g, f);
  }

  lemma NothingRefused(s: State, s': State, f: nat, g: nat)
    requires Untouched(s, s', f)
    ensures !Refuses(s, s', f, g)
  {
  }

  lemma UnlockReturns(c: Config, s: State, f: nat, g: bool)
    requires Shape(c, s) && f in s.flushers && s.flushers[f].Unlock?
    ensures var s' := FlushStep(c, s, f, g); f in s'.flushers && s'.flushers[f] == Finished(true)
  {
  }

  lemma FlushStays(c: Config, s: State, f: nat, g: bool)
    requires Shape(c, s) && f in s.flushers
    ensures f in FlushStep(c, s, f, g).flushers
  {
    hide RotateStep;
  }

  lemma GoalNotRefused(c: Config, s: State, f: nat, e: Pos, refused: bool)
    requires Shape(c, s) && f in s.flushers && Goal(c, s, f, e, refused) && InLoop(s.flushers[f])
    ensures !refused
  {
  }

  // ------------------------------------------------------- whole runs

  /** Between states `i` and `j`, flush `f` gave up on generation `g`. */
  ghost predicate GaveUp(run: seq<State>, i: nat, j: nat, f: nat, g: nat)
    requires j < |run|
  {
    exists k :: i <= k < j && Refuses(run[k], run[k + 1], f, g)
  }

  lemma {:induction false} GoalOnRun(c: Config, run: seq<State>, acts: seq<Action>, i: nat, j: nat, f: nat, g: bool)
    requires Run(c, run, acts) && i < j < |run| && f in run[i].flushers && run[i].flushers[f] == LoadFlush
    requires acts[i] == Flush(f, g)
    ensures Shape(c, run[j]) && |run[i].h.log| > 0 && f in run[j].flushers
    ensures run[j].flushers[f].Finished? || Goal(c, run[j], f, End(run[i]), GaveUp(run, i, j, f, A(run[i])))
    decreases j
  {
    hide *;
    RunInv(c, run, acts, i);
    RunInv(c, run, acts, j);
    InvShape(c, run[i]);
    InvShape(c, run[j]);
    var e := End(run[i]);
    EndIs(run[i]);
    if j == i + 1 {
      RunStep(c, run, acts, i);
      FlushIsStep(c, run[i], run[j], f, g);
      GoalBegins(c, run[i], f, g);
      NotYet(run, i, f, e.gen);
    } else {
      RunInv(c, run, acts, j - 1);
      RunStep(c, run, acts, j - 1);
      GoalOnRun(c, run, acts, i, j - 1, f, g);
      GaveUpStep(run, i, j, f, e.gen);
      if run[j - 1].flushers[f].Finished? {
        FinishedStays(c, run[j - 1], run[j], acts[j - 1], f);
      } else {
        GoalStep(c, run[j - 1], run[j], acts[j - 1], f, e, GaveUp(run, i, j - 1, f, e.gen));
      }
    }
  }

  lemma EndIs(s: State)
    requires |s.h.log| > 0
    ensures End(s).gen == A(s)
  {
  }

  lemma FlushIsStep(c: Config, s: State, s': State, f: nat, g: bool)
    requires Step(c, s, s', Flush(f, g))
    ensures Shape(c, s) && f in s.flushers && s' == FlushStep(c, s, f, g)
  {
    hide Shape, FlushStep;
  }

  lemma NotYet(run: seq<State>, i: nat, f: nat, g: nat)
    requires i + 1 < |run| && f in run[i].flushers && run[i].flushers[f] == LoadFlush
    ensures !GaveUp(run, i, i + 1, f, g)
  {
  }

  lemma InvShape(c: Config, s: State)
    requires Inv(c, s)
    ensures Shape(c, s) && |s.h.log| > 0
  {
    hide Ring, BufOk, CallOk, LogOk, FlushOk;
  }

  lemma GoalBegins(c: Config, s: State, f: nat, g: bool)
    requires Inv(c, s) && f in s.flushers && s.flushers[f] == LoadFlush
    ensures var s' := FlushStep(c, s, f, g);
      Shape(c, s') && f in s'.flushers && Goal(c, s', f, End(s), false)
  {
    hide BufOk, CallOk, LogOk, FlushOk, RotateStep;
  }

  lemma GaveUpStep(run: seq<State>, i: nat, j: nat, f: nat, g: nat)
    requires i < j < |run| && 0 < j
    ensures GaveUp(run, i, j, f, g) <==> GaveUp(run, i, j - 1, f, g) || Refuses(run[j - 1], run[j], f, g)
  {
    hide Refuses;
    if Refuses(run[j - 1], run[j - 1 + 1], f, g) { assert GaveUp(run, i, j, f, g); }
  }

  lemma FinishedStays(c: Config, s: State, s': State, act: Action, f: nat)
    requires Inv(c, s) && Step(c, s, s', act) && f in s.flushers && s.flushers[f].Finished?
    ensures f in s'.flushers && s'.flushers[f].Finished?
  {
    hide Ring, BufOk, CallOk, LogOk, FlushOk, RotateStep;
    match act
    case Begin(_) =>
    case Produce(t) => CallLeaves(c, s, t, f); hide CallStep;
    case BeginFlush(_, _) =>
    case Flush(o, g) => if o != f { OtherFlusherStays(c, s, o, g, f); }
  }

  lemma OtherFlusherStays(c: Config, s: State, o: nat, g: bool, f: nat)
    requires Shape(c, s) && o in s.flushers && f in s.flushers && o != f
    ensures var s' := FlushStep(c, s, o, g); f in s'.flushers && s'.flushers[f] == s.flushers[f]
  {
    if s.flushers[o].Rotating? { RotateLeaves(c, s, s.flushers[o].from, s.flushers[o].r); }
    hide RotateStep;
  }

  lemma RotateLeaves(c: Config, s: State, from: nat, r: Rot)
    requires c.B > 0 && from < c.B && |s.bufs| == c.B
    ensures RotateStep(c, s, from, r).0.flushers == s.flushers
  {
  }

  ghost predicate InBatch(s: State, t: Ticket) {
    exists b, k :: 0 <= b < |s.batches| && 0 <= k < |s.batches[b]| && s.batches[b][k] == t
  }

  /** A placed item is batched exactly if its generation has been handed over. */
  lemma BatchedIff(c: Config, s: State, t: Ticket)
    requires Inv(c, s) && t in s.calls && s.calls[t].place.Some?
    ensures InBatch(s, t) <==> s.calls[t].place.value.gen < BatchedUpTo(s)
  {
    var p := PlacedItem(c, s, t);
    if b, k :| 0 <= b < |s.batches| && 0 <= k < |s.batches[b]| && s.batches[b][k] == t {
      var q := BatchedItem(c, s, t, b, k);
    }
    if p.gen < BatchedUpTo(s) {
      BatchesAre(c, s);
      BatchOfGen(c.Q, s.h.log, BatchedUpTo(s), p.gen);
      var b := |Batches(c.Q, s.h.log, p.gen)|;
      assert s.batches[b][p.slot] == t;
    }
    hide *;
  }

  lemma BatchesAre(c: Config, s: State)
    requires Inv(c, s)
    ensures BatchedUpTo(s) <= |s.h.log| && s.batches == Batches(c.Q, s.h.log, BatchedUpTo(s))
  {
    hide BufOk, CallOk, LogOk;
  }

  /** Main result. When a flush is about to return true, a call that had returned true before
      the flush loaded the active buffer has its item in a batch, if and only if it is not
      one of the buffer active then whose rotation returned false. */
  lemma FlushReaches(c: Config, run: seq<State>, acts: seq<Action>, i: nat, j: nat, f: nat, g: bool, t: Ticket)
    requires Run(c, run, acts) && i < j < |run| && f in run[i].flushers && f in run[j].flushers
    requires run[i].flushers[f] == LoadFlush && acts[i] == Flush(f, g) && run[j].flushers[f] == Unlock
    requires t in run[i].calls && run[i].calls[t].pc == Returned(true)
    ensures |run[i].h.log| > 0 && run[i].calls[t].place.Some?
    ensures InBatch(run[j], t)
       <==> !(GaveUp(run, i, j, f, A(run[i])) && run[i].calls[t].place.value.gen == A(run[i]))
  {
    hide *;
    RunInv(c, run, acts, i);
    RunInv(c, run, acts, j);
    InvShape(c, run[i]);
    InvShape(c, run[j]);
    ReturnedIsPlaced(c, run[i], t);
    var p := PlacedItem(c, run[i], t);
    UnlockOwns(c, run[j], f);
    RunGrows(c, run, acts, i, j);
    GoalOnRun(c, run, acts, i, j, f, g);
    KeepsPlace(run[i], run[j], t);
    BatchedIff(c, run[j], t);
    BeforeEnd(run[i], p);
    GoalMet(c, run[j], f, End(run[i]), GaveUp(run, i, j, f, A(run[i])));
  }

  lemma KeepsPlace(s: State, s': State, t: Ticket)
    requires Grows(s, s') && t in s.calls && s.calls[t].place.Some?
    ensures t in s'.calls && s'.calls[t].place == s.calls[t].place
  {
  }

  lemma GoalMet(c: Config, s: State, f: nat, e: Pos, refused: bool)
    requires Shape(c, s) && f in s.flushers && s.flushers[f] == Unlock && Goal(c, s, f, e, refused)
    ensures e.gen <= s.h.D && if refused then s.h.D == e.gen else s.h.D > e.gen || e.slot == 0
  {
  }

  lemma BeforeEnd(s: State, p: Pos)
    requires |s.h.log| > 0 && p.gen < |s.h.log| && p.slot < |s.h.log[p.gen]|
    ensures End(s).gen == A(s) && (p.gen < End(s).gen || (p.gen == End(s).gen && p.slot < End(s).slot))
  {
  }

  lemma ReturnedIsPlaced(c: Config, s: State, t: Ticket)
    requires Inv(c, s) && t in s.calls && s.calls[t].pc == Returned(true)
    ensures s.calls[t].place.Some?
  {
    assert CallOk(c, s, t);
    hide BufOk, LogOk, Ring, FlushOk;
  }

  lemma UnlockOwns(c: Config, s: State, f: nat)
    requires Inv(c, s) && f in s.flushers && s.flushers[f] == Unlock
    ensures BatchedUpTo(s) == s.h.D
  {
    OwnerIs(c, s, f);
  }

  /** Why a rotation is refused: of the buffer that comes next, a flush that holds the active
      one can find nothing but `adding` in its way, and then some call is in it that loaded
      `active_idx` a lap ago and has yet to notice. */
  lemma RefusedByAStaleCall(c: Config, run: seq<State>, acts: seq<Action>, i: nat)
    requires Run(c, run, acts) && i < |run| && Crit(run[i]).Rotating? && run[i].active == Crit(run[i]).from
    ensures Shape(c, run[i])
    ensures var s := run[i]; var next := Next(c, s.active);
      && !s.bufs[next].sealed && s.bufs[next].index == 0
      && (s.bufs[next].adding != 0 ==> exists t :: t in s.calls && HoldsAt(s.calls[t].pc, next))
      && (forall t :: t in s.calls && HoldsAt(s.calls[t].pc, next) ==> !Bound(s.calls[t].pc))
  {
    RunInv(c, run, acts, i);
    var s := run[i];
    var next := Next(c, s.active);
    NextIs(c, s.active);
    NextGen(c, s);
    assert BufOk(c, s, next);
    forall t | t in s.calls && HoldsAt(s.calls[t].pc, next) ensures !Bound(s.calls[t].pc) {
      assert CallOk(c, s, t);
    }
    if s.bufs[next].adding != 0 {
      var t :| t in Holders(s.calls, next);
      assert t in s.calls && HoldsAt(s.calls[t].pc, next);
    }
    hide Written, Sealing, Ring, FlushOk, LogOk;
  }

  /** The buffer after the active one is free when the oldest generation is the active one. */
  lemma NextGen(c: Config, s: State)
    requires Inv(c, s) && Crit(s).Rotating? && s.active == Crit(s).from
    ensures s.h.gens[Next(c, s.active)] == A(s) + 1
  {
    NextIs(c, s.active);
    hide BufOk, CallOk, LogOk;
  }

  // ------------------------------------------------------- when a flush stops

  /** A step that moves flush `f` is its own. */
  lemma OwnTurn(c: Config, s: State, s': State, act: Action, f: nat)
    requires Inv(c, s) && Step(c, s, s', act) && f in s.flushers && f in s'.flushers && s'.flushers[f] != s.flushers[f]
    ensures act.Flush? && act.f == f && Shape(c, s) && s' == FlushStep(c, s, f, act.giveUp)
  {
    hide *;
    if !(act.Flush? && act.f == f) { FlusherStays(c, s, s', act, f); }
    FlushIs(c, s, s', act);
  }

  lemma FlushIs(c: Config, s: State, s': State, act: Action)
    requires Step(c, s, s', act)
    ensures act.Flush? ==> Shape(c, s) && act.f in s.flushers && s' == FlushStep(c, s, act.f, act.giveUp)
  {
    hide FlushStep, CallStep, Shape;
  }

  lemma FlusherStays(c: Config, s: State, s': State, act: Action, f: nat)
    requires Inv(c, s) && Step(c, s, s', act) && f in s.flushers && !(act.Flush? && act.f == f)
    ensures f in s'.flushers && s'.flushers[f] == s.flushers[f]
  {
    hide Inv, FlushStep, CallStep;
    match act
    case Begin(_) =>
    case Produce(t) => CallLeaves(c, s, t, f);
    case BeginFlush(_, _) =>
    case Flush(o, g) => OtherFlusherStays(c, s, o, g, f);
  }

  /** The turn of the loop at which a flush has read the index of the oldest buffer: it goes
      on to rotate, or stops, by how many slots of the oldest generation are claimed. The
      buffer that was active when the flush began is taken unless it is empty, a later one
      only when it is full. */
  lemma FlushDecides(c: Config, run: seq<State>, acts: seq<Action>, i: nat, f: nat)
    requires Run(c, run, acts) && i + 1 < |run| && f in run[i].flushers && f in run[i + 1].flushers
    requires run[i].flushers[f].LoadIndex? && run[i + 1].flushers[f] != run[i].flushers[f]
    ensures run[i].h.D < |run[i].h.log|
    ensures var p, q, n := run[i].flushers[f], run[i + 1].flushers[f], |run[i].h.log[run[i].h.D]|;
      && (q.Unlock? <==> p.act == p.from && (n == 0 || (p.from != p.f && n < c.Q)))
      && (q.Rotating? <==> p.act == p.from && n != 0 && (p.from == p.f || n >= c.Q))
      && (q.Wait? <==> p.act != p.from)
  {
    hide *;
    RunInv(c, run, acts, i);
    RunStep(c, run, acts, i);
    OwnTurn(c, run[i], run[i + 1], acts[i], f);
    OldestIndex(c, run[i], f);
    IndexTurn(c, run[i], f, acts[i].giveUp);
  }

  lemma OldestIndex(c: Config, s: State, f: nat)
    requires Inv(c, s) && f in s.flushers && s.flushers[f].LoadIndex?
    ensures s.h.D < |s.h.log| && s.flushers[f].from < |s.bufs| && s.bufs[s.flushers[f].from].index == |s.h.log[s.h.D]|
  {
    OwnerIs(c, s, f);
    assert BufOk(c, s, s.flushers[f].from);
    hide CallOk, LogOk, Written, Holders, Sealing;
  }

  lemma IndexTurn(c: Config, s: State, f: nat, g: bool)
    requires Shape(c, s) && f in s.flushers && s.flushers[f].LoadIndex?
    ensures f in FlushStep(c, s, f, g).flushers && s.flushers[f].from < |s.bufs|
    ensures var p, q, n := s.flushers[f], FlushStep(c, s, f, g).flushers[f], s.bufs[s.flushers[f].from].index;
      && (q.Unlock? <==> p.act == p.from && (n == 0 || (p.from != p.f && n < c.Q)))
      && (q.Rotating? <==> p.act == p.from && n != 0 && (p.from == p.f || n >= c.Q))
      && (q.Wait? <==> p.act != p.from)
  {
    hide RotateStep;
  }

  /** A flush that returns without draining found another one at it, and on the crash path
      it ran out of time besides. */
  lemma FlushGivesWay(c: Config, run: seq<State>, acts: seq<Action>, i: nat, f: nat)
    requires Run(c, run, acts) && i + 1 < |run| && f in run[i].flushers && f in run[i + 1].flushers
    requires run[i].flushers[f].Try? && run[i + 1].flushers[f].Finished?
    ensures var o := run[i].h.owner;
      && run[i].flushing && o != f && o in run[i].flushers && Critical(run[i].flushers[o])
      && run[i + 1].flushers[f] == Finished(false)
      && (run[i].flushers[f].crashSafe ==> i < |acts| && acts[i] == Action.Flush(f, true))
  {
    hide *;
    RunInv(c, run, acts, i);
    RunStep(c, run, acts, i);
    OwnTurn(c, run[i], run[i + 1], acts[i], f);
    TryTurn(c, run[i], f, acts[i].giveUp);
    OwnerWorks(c, run[i], f);
  }

  lemma TryTurn(c: Config, s: State, f: nat, g: bool)
    requires Shape(c, s) && f in s.flushers && s.flushers[f].Try?
    ensures var s' := FlushStep(c, s, f, g);
      f in s'.flushers && (s'.flushers[f].Finished? ==>
        s.flushing && s'.flushers[f] == Finished(false) && (s.flushers[f].crashSafe ==> g))
  {
    hide RotateStep;
  }

  lemma OwnerWorks(c: Config, s: State, f: nat)
    requires Inv(c, s) && s.flushing && f in s.flushers && s.flushers[f].Try?
    ensures s.h.owner in s.flushers && Critical(s.flushers[s.h.owner]) && s.h.owner != f
  {
    hide BufOk, CallOk, LogOk;
  }
}
