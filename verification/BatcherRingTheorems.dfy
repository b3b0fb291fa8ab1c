/** What the ring promises its callers, over every run. */
module BatcherRingTheorems {
  import opened Wrappers
  import opened BatcherRing
  import opened BatcherRingInv
  import opened BatcherRingFlush

  /** Every state of every run satisfies the invariant. */
  lemma {:induction false} RunInv(c: Config, run: seq<State>, acts: seq<Action>, i: nat)
    requires Run(c, run, acts) && i < |run|
    ensures Inv(c, run[i])
  {
    hide Inv, Init, Step;
    if i == 0 {
      InitInv(c, run[0]);
    } else {
      RunInv(c, run, acts, i - 1);
      StepInv(c, run[i - 1], run[i], acts[i - 1]);
    }
  }

  // ------------------------------------------------------- the ring

  /** A drained-but-unreset generation is sealed, a later one is empty and writable, and
      the active one is writable unless somebody is just swapping away from it. */
  ghost predicate InOrder(c: Config, s: State, b: nat)
    requires Shape(c, s) && b < c.B
  {
    var g := s.h.gens[b];
    && s.h.D <= g < s.h.D + c.B
    && (g < A(s) ==> s.bufs[b].sealed)
    && (g == A(s) && s.bufs[b].sealed ==> Sealing(s, b))
    && (g > A(s) ==> !s.bufs[b].sealed && s.bufs[b].index == 0)
  }

  lemma RingOrder(c: Config, run: seq<State>, acts: seq<Action>, i: nat)
    requires Run(c, run, acts) && i < |run|
    ensures Shape(c, run[i])
    ensures var s := run[i]; s.h.D <= A(s) < s.h.D + c.B && s.h.gens[s.active] == A(s)
    ensures forall b :: 0 <= b < c.B ==> InOrder(c, run[i], b)
  {
    RunInv(c, run, acts, i);
    var s := run[i];
    hide CallOk, LogOk, FlushOk, Written, Holders, Sealing, Run;
    forall b | 0 <= b < c.B ensures InOrder(c, s, b) { assert BufOk(c, s, b); }
  }

  /** From the flusher's `adding == 0` until it unseals the buffer, no call is bound to
      the buffer, and every slot below min(index, Q) holds the item that claimed it. */
  lemma DrainIsQuiet(c: Config, run: seq<State>, acts: seq<Action>, i: nat)
    requires Run(c, run, acts) && i < |run| && Quiet(Crit(run[i]))
    ensures Inv(c, run[i])
    ensures var s := run[i]; var b := Crit(s).from;
      && s.bufs[b].sealed && s.h.gens[b] == s.h.D < A(s)
      && NoneBoundAt(s, b)
      && (forall k :: 0 <= k < |s.h.log[s.h.D]| && k < c.Q ==> s.bufs[b].items[k] == s.h.log[s.h.D][k])
  {
    RunInv(c, run, acts, i);
    var s := run[i];
    SealedBelowActive(c, s);
    QuietMeansNoneBound(c, s);
    forall k | 0 <= k < |s.h.log[s.h.D]| && k < c.Q
      ensures s.bufs[Crit(s).from].items[k] == s.h.log[s.h.D][k]
    {
      AllWritten(c, s, k);
    }
    hide CallOk, LogOk, BufOk;
  }

  /** A slow rotator is harmless: its compare-and-swap can succeed only while the
      generation it is bound to is the active one (no ABA on the index), and its seal
      store hits a buffer that is active or already sealed. */
  lemma StaleRotatorsHarmless(c: Config, run: seq<State>, acts: seq<Action>, i: nat, t: Ticket)
    requires Run(c, run, acts) && i < |run|
    requires t in run[i].calls && run[i].calls[t].pc.Rotate?
    ensures Inv(c, run[i])
    ensures var s := run[i]; var call := s.calls[t]; var a := call.pc.a;
      && s.h.gens[a] == call.gen
      && (s.active == a <==> call.gen == A(s))
      && (s.active == a || s.bufs[a].sealed)
      && (s.active == a && call.pc.r == RSwap ==>
            !s.bufs[Next(c, a)].sealed && s.bufs[Next(c, a)].index == 0 && s.h.gens[Next(c, a)] == A(s) + 1)
  {
    RunInv(c, run, acts, i);
    var s := run[i];
    var a := s.calls[t].pc.a;
    assert CallOk(c, s, t);
    NextIs(c, a);
    assert BufOk(c, s, Next(c, a)) && BufOk(c, s, a);
    hide LogOk, FlushOk, CallOk, Written, Holders, Sealing;
  }

  // ------------------------------------------------------- where items are

  /** The places an item can be: a written slot of a buffer, the hands of the flusher
      that emptied a buffer, or a batch given to `process_batch`. */
  datatype Place = Slot(i: nat, k: nat) | Taken(k: nat) | Batched(b: nat, k: nat)

  ghost predicate Pending(s: State, i: nat, k: nat) {
    exists t :: t in s.calls && s.calls[t].pc == Store(i, k)
  }

  ghost predicate At(c: Config, s: State, pl: Place, t: Ticket)
    requires Shape(c, s)
  {
    match pl
    case Slot(i, k) =>
      i < c.B && k < s.bufs[i].index && k < c.Q && s.bufs[i].items[k] == t && !Pending(s, i, k)
    case Taken(k) =>
      var p := Crit(s);
      if p.Copy? then k < p.n && s.bufs[p.from].items[k] == t
      else p.Hand? && k < |p.got| && p.got[k] == t
    case Batched(b, k) =>
      b < |s.batches| && k < |s.batches[b]| && s.batches[b][k] == t
  }

  /** The generation of the `b`-th batch. */
  function GenOf(q: nat, log: seq<seq<Ticket>>, d: nat, b: nat): (g: nat)
    requires d <= |log| && b < |Batches(q, log, d)|
    ensures g < d && Trunc(q, log[g]) != [] && |Batches(q, log, g)| == b
    ensures Batches(q, log, d)[b] == Trunc(q, log[g])
  {
    if Trunc(q, log[d - 1]) != [] && b == |Batches(q, log, d - 1)| then d - 1
    else GenOf(q, log, d - 1, b)
  }

  lemma {:induction false} BatchOfGen(q: nat, log: seq<seq<Ticket>>, d: nat, g: nat)
    requires g < d <= |log| && Trunc(q, log[g]) != []
    ensures |Batches(q, log, g)| < |Batches(q, log, d)|
    ensures Batches(q, log, d)[|Batches(q, log, g)|] == Trunc(q, log[g])
  {
    if g < d - 1 { BatchOfGen(q, log, d - 1, g); }
  }

  lemma {:induction false} BatchCountMonotone(q: nat, log: seq<seq<Ticket>>, d: nat, g: nat)
    requires g <= d <= |log|
    ensures |Batches(q, log, g)| <= |Batches(q, log, d)|
  {
    if g < d { BatchCountMonotone(q, log, d - 1, g); }
  }

  ghost function PosOf(c: Config, s: State, pl: Place, t: Ticket): Pos
    requires Shape(c, s) && Ring(c, s) && FlushOk(c, s) && At(c, s, pl, t)
  {
    match pl
    case Slot(i, k) => Pos(s.h.gens[i], k)
    case Taken(k) => Pos(s.h.D, k)
    case Batched(b, k) => Pos(GenOf(c.Q, s.h.log, BatchedUpTo(s), b), k)
  }

  /** An item found anywhere belongs to a call that claimed exactly that position. */
  lemma FoundAtPlace(c: Config, s: State, pl: Place, t: Ticket)
    requires Inv(c, s) && At(c, s, pl, t)
    ensures t in s.calls && s.calls[t].place == Some(PosOf(c, s, pl, t))
  {
    var p := PosOf(c, s, pl, t);
    hide CallOk, Holders, Sealing;
    match pl {
      case Slot(i, k) =>
        assert BufOk(c, s, i) && Written(c, s, i, p.gen);
        assert !StillStoring(s, s.h.log[p.gen][k], i, k);
      case Taken(k) =>
        if Crit(s).Copy? { AllWritten(c, s, k); }
        hide BufOk;
      case Batched(b, k) =>
        hide BufOk;
    }
    assert s.h.log[p.gen][p.slot] == t;
  }

  lemma PlacesDiffer(c: Config, s: State, pl: Place, pl': Place, t: Ticket)
    requires Inv(c, s) && At(c, s, pl, t) && At(c, s, pl', t)
    requires PosOf(c, s, pl, t) == PosOf(c, s, pl', t)
    ensures pl == pl'
  {
    SlotGen(c, s, pl, t);
    SlotGen(c, s, pl', t);
    hide CallOk, BufOk, LogOk;
  }

  /** A slot's generation has not been emptied; the flusher's is `D`; a batch's is below. */
  lemma SlotGen(c: Config, s: State, pl: Place, t: Ticket)
    requires Inv(c, s) && At(c, s, pl, t)
    ensures var g := PosOf(c, s, pl, t).gen;
      match pl
      case Slot(_, _) => g >= s.h.D && (Emptied(Crit(s)) ==> g > s.h.D)
      case Taken(_) => g == s.h.D && (Crit(s).Copy? || Crit(s).Hand?)
      case Batched(_, _) => g < s.h.D || (g == s.h.D && Crit(s).Unseal?)
  {
    if pl.Slot? {
      assert BufOk(c, s, pl.i);
    }
    hide CallOk, LogOk, Holders, Sealing, Written;
  }

  /** For every generation in `[D, A]` some buffer holds it. */
  lemma {:induction false} SomeBufferHolds(c: Config, s: State, g: nat) returns (i: nat)
    requires Shape(c, s) && Ring(c, s) && s.h.D <= g <= A(s)
    ensures i < c.B && s.h.gens[i] == g
    decreases A(s) - g
  {
    if g == A(s) { return s.active; }
    var j := SomeBufferHolds(c, s, g + 1);
    i := if j == 0 then c.B - 1 else j - 1;
    NextIs(c, i);
  }

  /** A call that has returned true has its item somewhere. */
  lemma StoredSomewhere(c: Config, s: State, t: Ticket) returns (pl: Place)
    requires Inv(c, s) && t in s.calls && s.calls[t].pc == Returned(true)
    ensures At(c, s, pl, t)
  {
    hide BufOk, LogOk;
    assert CallOk(c, s, t);
    var p := s.calls[t].place.value;
    if p.gen < BatchedUpTo(s) {
      pl := BatchHolds(c, s, t, p);
    } else if p.gen == s.h.D && Emptied(Crit(s)) {
      AllWritten(c, s, p.slot);
      pl := Taken(p.slot);
      hide CallOk;
    } else {
      hide FlushOk, CallOk, At;
      var i := SomeBufferHolds(c, s, p.gen);
      SlotHolds(c, s, t, i);
      pl := Slot(i, p.slot);
    }
  }

  lemma BatchHolds(c: Config, s: State, t: Ticket, p: Pos) returns (pl: Place)
    requires Shape(c, s) && Ring(c, s) && FlushOk(c, s) && p.gen < BatchedUpTo(s)
    requires p.slot < c.Q && p.slot < |s.h.log[p.gen]| && s.h.log[p.gen][p.slot] == t
    ensures At(c, s, pl, t)
  {
    BatchOfGen(c.Q, s.h.log, BatchedUpTo(s), p.gen);
    pl := Batched(|Batches(c.Q, s.h.log, p.gen)|, p.slot);
  }

  lemma SlotHolds(c: Config, s: State, t: Ticket, i: nat)
    requires Inv(c, s) && t in s.calls && s.calls[t].pc == Returned(true) && i < c.B
    requires s.calls[t].place.Some? && s.h.gens[i] == s.calls[t].place.value.gen
    requires !(Emptied(Crit(s)) && s.h.gens[i] == s.h.D)
    ensures At(c, s, Slot(i, s.calls[t].place.value.slot), t)
  {
    hide Holders, Sealing, FlushOk;
    var p := s.calls[t].place.value;
    assert CallOk(c, s, t) && BufOk(c, s, i) && Written(c, s, i, p.gen);
    assert Emptied(Crit(s)) ==> Crit(s).from != i by { EmptiedIsD(c, s); }
    forall u | u in s.calls ensures s.calls[u].pc != Store(i, p.slot) {
      assert CallOk(c, s, u);
    }
  }

  lemma EmptiedIsD(c: Config, s: State)
    requires Shape(c, s) && Ring(c, s) && FlushOk(c, s)
    ensures Emptied(Crit(s)) ==> s.h.gens[Crit(s).from] == s.h.D
  {
  }

  /** An accepted item is in exactly one place, a rejected one nowhere, and whatever is
      found anywhere was put there by the call it is attributed to. */
  ghost predicate PlacedOnce(c: Config, s: State, t: Ticket)
    requires Shape(c, s)
  {
    && (t in s.calls && s.calls[t].pc == Returned(true) ==> exists pl :: At(c, s, pl, t))
    && (t in s.calls && s.calls[t].pc == Returned(false) ==> forall pl :: !At(c, s, pl, t))
    && (forall pl :: At(c, s, pl, t) ==> t in s.calls && s.calls[t].place.Some?)
    && (forall pl, pl' :: At(c, s, pl, t) && At(c, s, pl', t) ==> pl == pl')
  }

  lemma InvPlacedOnce(c: Config, s: State, t: Ticket)
    requires Inv(c, s)
    ensures Shape(c, s) && PlacedOnce(c, s, t)
    ensures s.discards == |Dropped(s.calls)|
  {
    hide Shape, BufOk, LogOk, FlushOk, Ring, CallOk, At;
    if t in s.calls && s.calls[t].pc == Returned(true) { var pl := StoredSomewhere(c, s, t); }
    forall pl, pl' | At(c, s, pl, t) && At(c, s, pl', t) ensures pl == pl' { OnePlace(c, s, pl, pl', t); }
    forall pl | At(c, s, pl, t)
      ensures t in s.calls && s.calls[t].place.Some? && s.calls[t].pc != Returned(false)
    {
      PlacedCall(c, s, pl, t);
    }
  }

  /** Main result, over every state of every run; the overflow counter counts exactly
      the rejected calls. */
  lemma ExactlyOnePlace(c: Config, run: seq<State>, acts: seq<Action>, i: nat, t: Ticket)
    requires Run(c, run, acts) && i < |run|
    ensures Shape(c, run[i]) && PlacedOnce(c, run[i], t)
    ensures run[i].discards == |Dropped(run[i].calls)|
  {
    hide *;
    RunInv(c, run, acts, i);
    InvPlacedOnce(c, run[i], t);
  }

  lemma OnePlace(c: Config, s: State, pl: Place, pl': Place, t: Ticket)
    requires Inv(c, s) && At(c, s, pl, t) && At(c, s, pl', t)
    ensures pl == pl'
  {
    hide BufOk, LogOk, FlushOk, Ring, CallOk, At, PosOf;
    FoundAtPlace(c, s, pl, t);
    FoundAtPlace(c, s, pl', t);
    PlacesDiffer(c, s, pl, pl', t);
  }

  lemma PlacedCall(c: Config, s: State, pl: Place, t: Ticket)
    requires Inv(c, s) && At(c, s, pl, t)
    ensures t in s.calls && s.calls[t].place.Some? && s.calls[t].pc != Returned(false)
  {
    hide BufOk, LogOk, FlushOk, Ring, At, PosOf;
    FoundAtPlace(c, s, pl, t);
    assert CallOk(c, s, t);
  }

  // ------------------------------------------------------- first in, first out

  /** The log only grows, and what a call has recorded about itself stays. */
  ghost predicate Grows(s: State, s': State) {
    && 0 < |s.h.log| <= |s'.h.log|
    && (forall g :: 0 <= g < |s.h.log| ==> s.h.log[g] <= s'.h.log[g])
    && (forall t :: t in s.calls ==>
          t in s'.calls && s'.calls[t].start == s.calls[t].start
          && (s.calls[t].place.Some? ==> s'.calls[t].place == s.calls[t].place))
  }

  function End(s: State): Pos
    requires |s.h.log| > 0
  {
    Pos(|s.h.log| - 1, |s.h.log[|s.h.log| - 1]|)
  }

  lemma CallGrows(c: Config, s: State, t: Ticket)
    requires Shape(c, s) && t in s.calls && CallOk(c, s, t)
    ensures Grows(s, CallStep(c, s, t)) && CallStep(c, s, t).calls.Keys == s.calls.Keys
  {
    var s', call := CallStep(c, s, t), s.calls[t];
    CallLogs(c, s, t);
    hide CallStep, CallOk;
  }

  /** What a step of a call does to the log, and to what the call has recorded. */
  lemma CallLogs(c: Config, s: State, t: Ticket)
    requires Shape(c, s) && t in s.calls && CallOk(c, s, t)
    ensures var s', call := CallStep(c, s, t), s.calls[t];
      && t in s'.calls && s'.calls == s.calls[t := s'.calls[t]]
      && s'.calls[t].start == call.start && (call.place.Some? ==> s'.calls[t].place == call.place)
      && (|| s'.h.log == s.h.log || s'.h.log == s.h.log + [[]]
          || (call.gen < |s.h.log| && s'.h.log == s.h.log[call.gen := s.h.log[call.gen] + [t]]))
  {
    var call := s.calls[t];
    assert call.pc.Claim? ==> call.place == None;
    hide CallOk;
  }

  lemma StepGrows(c: Config, s: State, s': State, act: Action)
    requires Inv(c, s) && Step(c, s, s', act)
    ensures Grows(s, s')
    ensures forall t :: t in s'.calls && t !in s.calls ==> s'.calls[t].start == End(s)
  {
    hide BufOk, LogOk, FlushOk, Ring, CallOk;
    match act
    case Begin(t) =>
    case Produce(t) => hide CallStep; CallGrows(c, s, t);
    case BeginFlush(f, cs) =>
    case Flush(f, g) => hide FlushStep; FlushGrows(c, s, f, g);
  }

  lemma FlushGrows(c: Config, s: State, f: nat, g: bool)
    requires Shape(c, s) && f in s.flushers
    ensures Grows(s, FlushStep(c, s, f, g)) && FlushStep(c, s, f, g).calls == s.calls
  {
  }

  lemma {:induction false} RunGrows(c: Config, run: seq<State>, acts: seq<Action>, i: nat, j: nat)
    requires Run(c, run, acts) && i <= j < |run|
    ensures Grows(run[i], run[j])
    ensures forall t :: t in run[j].calls && t !in run[i].calls ==> End(run[i]).AtMost(run[j].calls[t].start)
    decreases j
  {
    hide *;
    if i == j {
      RunInv(c, run, acts, i);
      GrowsSelf(c, run[i]);
    } else {
      RunInv(c, run, acts, j - 1);
      RunStep(c, run, acts, j - 1);
      RunGrows(c, run, acts, i, j - 1);
      StepGrows(c, run[j - 1], run[j], acts[j - 1]);
      GrowsTrans(run[i], run[j - 1], run[j]);
      StartsLater(run[i], run[j - 1], run[j]);
    }
  }

  lemma GrowsSelf(c: Config, s: State)
    requires Inv(c, s)
    ensures Grows(s, s)
  {
    hide Ring, BufOk, CallOk, LogOk, FlushOk;
  }

  lemma RunStep(c: Config, run: seq<State>, acts: seq<Action>, i: nat)
    requires Run(c, run, acts) && i + 1 < |run|
    ensures |run| == |acts| + 1 && Step(c, run[i], run[i + 1], acts[i])
  {
    hide Step, Init;
  }

  lemma StartsLater(s: State, s1: State, s2: State)
    requires Grows(s, s1) && Grows(s1, s2)
    requires forall t :: t in s1.calls && t !in s.calls ==> End(s).AtMost(s1.calls[t].start)
    requires forall t :: t in s2.calls && t !in s1.calls ==> s2.calls[t].start == End(s1)
    ensures forall t :: t in s2.calls && t !in s.calls ==> End(s).AtMost(s2.calls[t].start)
  {
    GrowsTrans(s, s1, s2);
  }

  lemma GrowsTrans(s: State, s1: State, s2: State)
    requires Grows(s, s1) && Grows(s1, s2)
    ensures Grows(s, s2) && End(s).AtMost(End(s1))
  {
    var g := |s.h.log| - 1;
    assert s.h.log[g] <= s1.h.log[g];
  }

  /** If one accepted `enqueue` returned before another began, the first item's
      position in the queue is strictly smaller. */
  lemma FifoPositions(c: Config, run: seq<State>, acts: seq<Action>, i: nat, j: nat, t1: Ticket, t2: Ticket)
    requires Run(c, run, acts) && i <= j < |run|
    requires t1 in run[i].calls && run[i].calls[t1].pc == Returned(true) && t2 !in run[i].calls
    requires t2 in run[j].calls && run[j].calls[t2].place.Some?
    ensures t1 in run[j].calls && run[j].calls[t1].place.Some?
    ensures run[j].calls[t1].place.value.Before(run[j].calls[t2].place.value)
  {
    hide *;
    RunInv(c, run, acts, i);
    RunInv(c, run, acts, j);
    ReturnedBeforeEnd(c, run[i], t1);
    PlacedFromStart(c, run[j], t2);
    RunGrows(c, run, acts, i, j);
    StartedLater(run[i], run[j], t1, t2);
  }

  /** An accepted item lies below the end of the queue. */
  lemma ReturnedBeforeEnd(c: Config, s: State, t: Ticket)
    requires Inv(c, s) && t in s.calls && s.calls[t].pc == Returned(true)
    ensures |s.h.log| > 0 && s.calls[t].place.Some? && s.calls[t].place.value.Before(End(s))
  {
    hide Inv, Shape, Bound;
    InvCall(c, s, t);
  }

  lemma InvCall(c: Config, s: State, t: Ticket)
    requires Inv(c, s) && t in s.calls
    ensures Shape(c, s) && |s.h.log| > 0 && CallOk(c, s, t)
  {
    hide Ring, BufOk, LogOk, FlushOk, CallOk;
  }

  lemma PlacedFromStart(c: Config, s: State, t: Ticket)
    requires Inv(c, s) && t in s.calls && s.calls[t].place.Some?
    ensures s.calls[t].start.AtMost(s.calls[t].place.value)
  {
    hide Inv, Shape, Bound;
    InvCall(c, s, t);
  }

  lemma StartedLater(s: State, s': State, t1: Ticket, t2: Ticket)
    requires Grows(s, s') && |s.h.log| > 0 && t1 in s.calls && s.calls[t1].place.Some?
    requires s.calls[t1].place.value.Before(End(s))
    requires t2 in s'.calls && s'.calls[t2].place.Some? && End(s).AtMost(s'.calls[t2].start)
    requires s'.calls[t2].start.AtMost(s'.calls[t2].place.value)
    ensures t1 in s'.calls && s'.calls[t1].place.Some?
    ensures s'.calls[t1].place.value.Before(s'.calls[t2].place.value)
  {
  }

  /** Real-time FIFO of batches: if the later item has been batched, so has the earlier
      one, in an earlier batch or earlier in the same batch. */
  lemma Fifo(c: Config, run: seq<State>, acts: seq<Action>, i: nat, j: nat, t1: Ticket, t2: Ticket, b2: nat, k2: nat)
    returns (b1: nat, k1: nat)
    requires Run(c, run, acts) && i <= j < |run|
    requires t1 in run[i].calls && run[i].calls[t1].pc == Returned(true) && t2 !in run[i].calls
    requires b2 < |run[j].batches| && k2 < |run[j].batches[b2]| && run[j].batches[b2][k2] == t2
    ensures b1 < |run[j].batches| && k1 < |run[j].batches[b1]| && run[j].batches[b1][k1] == t1
    ensures b1 < b2 || (b1 == b2 && k1 < k2)
  {
    var s := run[j];
    RunInv(c, run, acts, j);
    var p2 := BatchedItem(c, s, t2, b2, k2);
    FifoPositions(c, run, acts, i, j, t1, t2);
    var p1 := PlacedItem(c, s, t1);
    hide *;
    b1, k1 := EarlierBatch(c, s, p1, p2, t1, b2, k2);
  }

  /** A batched item has a position in the log, of the generation of its batch. */
  lemma BatchedItem(c: Config, s: State, t: Ticket, b: nat, k: nat) returns (p: Pos)
    requires Inv(c, s) && b < |s.batches| && k < |s.batches[b]| && s.batches[b][k] == t
    ensures t in s.calls && s.calls[t].place == Some(p) && p.slot == k
    ensures p.gen < BatchedUpTo(s) <= |s.h.log| && s.batches == Batches(c.Q, s.h.log, BatchedUpTo(s))
    ensures |Batches(c.Q, s.h.log, p.gen)| == b
  {
    FoundAtPlace(c, s, Batched(b, k), t);
    hide BufOk, CallOk, LogOk;
    p := Pos(GenOf(c.Q, s.h.log, BatchedUpTo(s), b), k);
  }

  lemma PlacedItem(c: Config, s: State, t: Ticket) returns (p: Pos)
    requires Inv(c, s) && t in s.calls && s.calls[t].place.Some?
    ensures s.calls[t].place == Some(p) && p.gen < |s.h.log| && p.slot < c.Q
    ensures p.slot < |s.h.log[p.gen]| && s.h.log[p.gen][p.slot] == t
  {
    assert CallOk(c, s, t);
    hide BufOk, LogOk, Ring, FlushOk;
    p := s.calls[t].place.value;
  }

  lemma EarlierBatch(c: Config, s: State, p1: Pos, p2: Pos, t1: Ticket, b2: nat, k2: nat) returns (b1: nat, k1: nat)
    requires p2.gen < BatchedUpTo(s) <= |s.h.log| && s.batches == Batches(c.Q, s.h.log, BatchedUpTo(s))
    requires |Batches(c.Q, s.h.log, p2.gen)| == b2 && p2.slot == k2 && p1.Before(p2)
    requires p1.gen < |s.h.log| && p1.slot < c.Q && p1.slot < |s.h.log[p1.gen]| && s.h.log[p1.gen][p1.slot] == t1
    ensures b1 < |s.batches| && k1 < |s.batches[b1]| && s.batches[b1][k1] == t1
    ensures b1 < b2 || (b1 == b2 && k1 < k2)
  {
    BatchOfGen(c.Q, s.h.log, BatchedUpTo(s), p1.gen);
    if p1.gen < p2.gen { BatchOfGen(c.Q, s.h.log, p2.gen, p1.gen); }
    hide Batches, BatchedUpTo;
    b1, k1 := |Batches(c.Q, s.h.log, p1.gen)|, p1.slot;
  }
}
