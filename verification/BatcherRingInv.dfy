/** The inductive invariant of the batcher ring and its preservation by every step. */
module BatcherRingInv {
  import opened Wrappers
  import opened BatcherRing

  function A(s: State): int { |s.h.log| - 1 }

  /** The call holds a unit of `adding` of buffer `i`. */
  predicate HoldsAt(p: Pc, i: nat) {
    (p.CheckActive? || p.CheckSealed? || p.BackOut? || p.Claim? || p.Store? || p.Rotate? || p.Leave?) && p.a == i
  }

  /** The call has passed its `active_idx` check while holding `adding`: it is tied
      to the generation that was active then. */
  predicate Bound(p: Pc) {
    (p.CheckSealed? && p.same) || p.Claim? || p.Store? || p.Rotate? || p.Leave?
  }

  function Holders(calls: map<Ticket, Call>, i: nat): set<Ticket> {
    set t | t in calls && HoldsAt(calls[t].pc, i)
  }

  predicate Critical(p: FPc) { !p.Try? && !p.Finished? }

  /** Where the flush that owns the `flushing` flag is. */
  function Crit(s: State): FPc {
    if s.flushing && s.h.owner in s.flushers then s.flushers[s.h.owner] else Finished(false)
  }

  /** The flusher has seen `adding == 0` on the buffer and not yet unsealed it. */
  predicate Quiet(p: FPc) { p.Take? || p.Copy? || p.Hand? || p.Unseal? }

  predicate Emptied(p: FPc) { p.Copy? || p.Hand? || p.Unseal? }

  function Trunc(q: nat, xs: seq<Ticket>): seq<Ticket> { if |xs| <= q then xs else xs[..q] }

  /** The batches that generations below `d` amount to. */
  function Batches(q: nat, log: seq<seq<Ticket>>, d: nat): seq<seq<Ticket>>
    requires d <= |log|
  {
    if d == 0 then [] else
      var x := Trunc(q, log[d - 1]);
      if x == [] then Batches(q, log, d - 1) else Batches(q, log, d - 1) + [x]
  }

  ghost predicate Ring(c: Config, s: State)
    requires Shape(c, s)
  {
    var g, D := s.h.gens, s.h.D;
    && D <= A(s) < D + c.B
    && (forall i :: 0 <= i < c.B ==> D <= g[i] < D + c.B)
    && (forall i, j :: 0 <= i < j < c.B ==> g[i] != g[j])
    && g[s.active] == A(s)
    && (forall i :: 0 <= i < c.B ==> g[Next(c, i)] == g[i] + 1 || (g[i] == D + c.B - 1 && g[Next(c, i)] == D))
  }

  /** Someone is between sealing buffer `i` and swapping `active_idx` away from it. */
  ghost predicate Sealing(s: State, i: nat) {
    || (exists t :: t in s.calls && Seals(s.calls[t].pc, i))
    || (Crit(s).Rotating? && Crit(s).from == i && Crit(s).r == RSwap)
  }

  ghost predicate BufOk(c: Config, s: State, i: nat)
    requires Shape(c, s) && i < c.B
  {
    var b, g := s.bufs[i], s.h.gens[i];
    && b.adding == |Holders(s.calls, i)|
    && (g > A(s) ==> !b.sealed && b.index == 0)
    && (g < A(s) ==> b.sealed)
    && (g == A(s) && b.sealed ==> Sealing(s, i))
    && (g <= A(s) ==>
          && b.index == (if Emptied(Crit(s)) && Crit(s).from == i then 0 else |s.h.log[g]|)
          && Written(c, s, i, g))
  }

  /** Every claimed slot is written, except the one its caller is about to write. */
  ghost predicate Written(c: Config, s: State, i: nat, g: nat)
    requires Shape(c, s) && i < c.B && g < |s.h.log|
  {
    forall k :: 0 <= k < |s.h.log[g]| && k < c.Q ==>
      s.bufs[i].items[k] == s.h.log[g][k] || StillStoring(s, s.h.log[g][k], i, k)
  }

  predicate StillStoring(s: State, t: Ticket, i: nat, k: nat) {
    t in s.calls && s.calls[t].pc == Store(i, k)
  }

  ghost predicate PlaceOk(c: Config, s: State, t: Ticket, call: Call)
    requires Shape(c, s)
  {
    && (match call.pc
        case Store(a, slot) => call.place == Some(Pos(call.gen, slot))
        case Rotate(a, slot, _) => call.place == if slot < c.Q then Some(Pos(call.gen, slot)) else None
        case Leave(a, slot, _) => call.place == if slot < c.Q then Some(Pos(call.gen, slot)) else None
        case Returned(ok) => call.place.Some? == ok
        case _ => call.place == None)
    && (call.place.Some? ==>
          var p := call.place.value;
          p.gen <= A(s) && p.slot < c.Q && p.slot < |s.h.log[p.gen]| && s.h.log[p.gen][p.slot] == t
          && call.start.AtMost(p))
  }

  ghost predicate CallOk(c: Config, s: State, t: Ticket)
    requires Shape(c, s) && t in s.calls
  {
    var call := s.calls[t];
    && call.start.gen <= A(s) && call.start.slot <= |s.h.log[call.start.gen]|
    && (Bound(call.pc) ==>
          && s.h.gens[call.pc.a] == call.gen
          && call.start.gen <= call.gen
          && !(Quiet(Crit(s)) && Crit(s).from == call.pc.a))
    && (call.pc.Rotate? ==>
          && (call.pc.r in {RIndex, RAdding, RSeal, RSwap} && call.gen == A(s) ==>
                s.h.gens[Next(c, call.pc.a)] == A(s) + 1)
          && (call.pc.r == RSwap ==> s.bufs[call.pc.a].sealed))
    && PlaceOk(c, s, t, call)
  }

  ghost predicate LogOk(c: Config, s: State) {
    forall g, k :: 0 <= g < |s.h.log| && 0 <= k < |s.h.log[g]| && k < c.Q ==>
      s.h.log[g][k] in s.calls && s.calls[s.h.log[g][k]].place == Some(Pos(g, k))
  }

  ghost predicate FlushOk(c: Config, s: State)
    requires Shape(c, s) && Ring(c, s)
  {
    var p, D := Crit(s), s.h.D;
    && (forall f :: f in s.flushers && Critical(s.flushers[f]) ==> s.flushing && f == s.h.owner)
    && (s.flushing ==> s.h.owner in s.flushers && Critical(s.flushers[s.h.owner]))
    && (if p.Advance? then s.drain == p.from && s.h.gens[p.from] == D + c.B - 1
        else s.h.gens[s.drain] == D)
    && (Quiet(p) || p.Wait? || p.Rotating? || p.LoadIndex? || p.LoadActiveAgain? || p.LoadOldSealed? ==>
          p.from == s.drain && s.h.gens[p.from] == D)
    && (p.LoadIndex? && p.act != p.from ==> A(s) > D)
    && (p.Wait? || (p.Rotating? && p.r == RSwap) ==> s.bufs[p.from].sealed)
    && (Quiet(p) ==> A(s) > D)
    && (p.Copy? ==> p.n == |Trunc(c.Q, s.h.log[D])| > 0 && p.got == s.h.log[D][..|p.got|])
    && (p.Hand? ==> p.got == Trunc(c.Q, s.h.log[D]) && |p.got| > 0)
    && s.batches == Batches(c.Q, s.h.log, BatchedUpTo(s))
  }

  /** Generations below this have been handed to `process_batch`. */
  function BatchedUpTo(s: State): (d: nat)
  {
    if Crit(s).Unseal? then s.h.D + 1 else s.h.D
  }

  function Dropped(calls: map<Ticket, Call>): set<Ticket> {
    set t | t in calls && calls[t].pc == Returned(false)
  }

  ghost predicate Inv(c: Config, s: State) {
    && Shape(c, s)
    && Ring(c, s)
    && (forall i :: 0 <= i < c.B ==> BufOk(c, s, i))
    && (forall t :: t in s.calls ==> CallOk(c, s, t))
    && LogOk(c, s)
    && FlushOk(c, s)
    && s.discards == |Dropped(s.calls)|
  }

  // ------------------------------------------------------- bookkeeping lemmas

  lemma HoldersUpdate(calls: map<Ticket, Call>, t: Ticket, call: Call, i: nat)
    ensures Holders(calls[t := call], i)
         == if HoldsAt(call.pc, i) then Holders(calls, i) + {t} else Holders(calls, i) - {t}
  {
  }

  lemma DroppedUpdate(calls: map<Ticket, Call>, t: Ticket, call: Call)
    ensures Dropped(calls[t := call])
         == if call.pc == Returned(false) then Dropped(calls) + {t} else Dropped(calls) - {t}
  {
  }

  lemma BatchesFrame(q: nat, log: seq<seq<Ticket>>, log': seq<seq<Ticket>>, d: nat)
    requires d <= |log| && d <= |log'|
    requires forall g :: 0 <= g < d ==> log[g] == log'[g]
    ensures Batches(q, log, d) == Batches(q, log', d)
  {
  }

  lemma InitInv(c: Config, s: State)
    requires Init(c, s)
    ensures Inv(c, s)
  {
    forall i | 0 <= i < c.B
      ensures s.h.gens[Next(c, i)] == s.h.gens[i] + 1 || (s.h.gens[i] == c.B - 1 && s.h.gens[Next(c, i)] == 0)
    {
      NextIs(c, i);
    }
    assert forall i :: Holders(s.calls, i) == {};
    assert Dropped(s.calls) == {};
  }

  // ------------------------------------------------------- frame lemmas

  /** A step of call `t` that changes no more than `t`'s record, `adding`, the drop
      counter, and a seal that `t` sets just before it swaps `active_idx`. */
  ghost predicate CallOnly(c: Config, s: State, s': State, t: Ticket) {
    && t in s.calls && t in s'.calls
    && s'.calls == s.calls[t := s'.calls[t]]
    && s' == s.(calls := s'.calls, bufs := s'.bufs, discards := s'.discards)
    && |s'.bufs| == |s.bufs| == |s.h.gens|
    && (forall i :: 0 <= i < |s.bufs| ==>
          && s'.bufs[i] == s.bufs[i].(adding := s'.bufs[i].adding, sealed := s'.bufs[i].sealed)
          && (s.bufs[i].sealed ==> s'.bufs[i].sealed)
          && (s'.bufs[i].sealed && !s.bufs[i].sealed ==> Seals(s'.calls[t].pc, i) && s.h.gens[i] < |s.h.log|))
  }

  predicate Seals(p: Pc, i: nat) { p.Rotate? && p.a == i && p.r == RSwap }

  ghost predicate AddingMoves(s: State, s': State, t: Ticket, i: nat)
    requires i < |s.bufs| && i < |s'.bufs| && t in s.calls && t in s'.calls
  {
    s'.bufs[i].adding == s.bufs[i].adding
    + (if HoldsAt(s'.calls[t].pc, i) then 1 else 0)
    - (if HoldsAt(s.calls[t].pc, i) then 1 else 0)
  }

  lemma OtherCallFrame(c: Config, s: State, s': State, t: Ticket, u: Ticket)
    requires Shape(c, s) && Shape(c, s') && CallOnly(c, s, s', t)
    requires u in s.calls && u != t && CallOk(c, s, u)
    ensures CallOk(c, s', u)
  {
    assert s'.calls[u] == s.calls[u];
    assert Crit(s') == Crit(s);
  }

  lemma SealingFrame(s: State, s': State, t: Ticket, i: nat)
    requires t in s.calls && t in s'.calls && s'.calls == s.calls[t := s'.calls[t]]
    requires Crit(s') == Crit(s)
    requires !Seals(s.calls[t].pc, i)
    requires Sealing(s, i)
    ensures Sealing(s', i)
  {
    if u :| u in s.calls && Seals(s.calls[u].pc, i) {
      assert s'.calls[u].pc == s.calls[u].pc;
    }
  }

  lemma AddingFrame(s: State, s': State, t: Ticket, i: nat)
    requires t in s.calls && t in s'.calls && s'.calls == s.calls[t := s'.calls[t]]
    ensures |Holders(s'.calls, i)| == |Holders(s.calls, i)|
              + (if HoldsAt(s'.calls[t].pc, i) then 1 else 0) - (if HoldsAt(s.calls[t].pc, i) then 1 else 0)
  {
    HoldersUpdate(s.calls, t, s'.calls[t], i);
  }

  lemma BufFrame(c: Config, s: State, s': State, t: Ticket, i: nat)
    requires Shape(c, s) && Shape(c, s') && CallOnly(c, s, s', t) && i < c.B && BufOk(c, s, i)
    requires AddingMoves(s, s', t, i)
    requires !s.calls[t].pc.Store? && (Seals(s.calls[t].pc, i) ==> s.h.gens[i] != A(s))
    ensures BufOk(c, s', i)
  {
    AddingFrame(s, s', t, i);
    var g := s.h.gens[i];
    if g == A(s) && s.bufs[i].sealed { SealingFrame(s, s', t, i); }
    if Seals(s'.calls[t].pc, i) { assert Sealing(s', i); }
    if g <= A(s) {
      forall k | 0 <= k < |s.h.log[g]| && k < c.Q && StillStoring(s, s.h.log[g][k], i, k)
        ensures StillStoring(s', s.h.log[g][k], i, k)
      {
        assert s.h.log[g][k] != t;
      }
    }
  }

  /** `t` moved on its own: what `CallOnlyInv` needs to know about the step. */
  ghost predicate Moved(c: Config, s: State, s': State, t: Ticket)
    requires Shape(c, s)
  {
    && Shape(c, s')
    && CallOnly(c, s, s', t)
    && (forall i :: 0 <= i < c.B ==> AddingMoves(s, s', t, i))
    && s'.calls[t].place == s.calls[t].place
    && s'.discards == s.discards + (if s'.calls[t].pc == Returned(false) then 1 else 0)
    && CallOk(c, s', t)
  }

  lemma CallOnlyInv(c: Config, s: State, s': State, t: Ticket)
    requires Inv(c, s) && Moved(c, s, s', t)
    requires var p := s.calls[t].pc; !p.Store? && !p.Returned? && (p.Rotate? && Seals(p, p.a) ==> s.h.gens[p.a] != A(s))
    ensures Inv(c, s')
  {
    hide BufOk, CallOk, LogOk, FlushOk, Ring, AddingMoves, Holders;
    forall i | 0 <= i < c.B ensures BufOk(c, s', i) { BufFrame(c, s, s', t, i); }
    forall u | u in s'.calls ensures CallOk(c, s', u) {
      if u != t { OtherCallFrame(c, s, s', t, u); }
    }
    DroppedUpdate(s.calls, t, s'.calls[t]);
    FlushFrame(c, s, s', t);
    LogFrame(c, s, s', t);
  }

  lemma FlushFrame(c: Config, s: State, s': State, t: Ticket)
    requires Shape(c, s) && Shape(c, s') && CallOnly(c, s, s', t) && Ring(c, s) && FlushOk(c, s)
    ensures Ring(c, s') && FlushOk(c, s')
  {
  }

  lemma LogFrame(c: Config, s: State, s': State, t: Ticket)
    requires CallOnly(c, s, s', t) && LogOk(c, s) && s'.calls[t].place == s.calls[t].place
    ensures LogOk(c, s')
  {
  }

  // ------------------------------------------------------- steps of a call

  lemma LoadMoves(c: Config, s: State, t: Ticket)
    requires Shape(c, s) && t in s.calls && CallOk(c, s, t)
    requires var p := s.calls[t].pc; p.LoadActive? || p.LoadSealed?
    ensures Moved(c, s, CallStep(c, s, t), t)
  {
    var p, s' := s.calls[t].pc, CallStep(c, s, t);
    assert s' == SetCall(s, t, if p.LoadActive? then LoadSealed(s.active)
                               else if s.bufs[p.a].sealed then LoadActive else Enter(p.a));
    hide CallStep;
  }

  lemma CheckSealedMoves(c: Config, s: State, t: Ticket)
    requires Shape(c, s) && t in s.calls && CallOk(c, s, t)
    requires var p := s.calls[t].pc; p.CheckSealed? || p.Recheck?
    ensures Moved(c, s, CallStep(c, s, t), t)
  {
    hide RotateStep, ClaimStep;
  }

  lemma EnterMoves(c: Config, s: State, t: Ticket)
    requires Shape(c, s) && t in s.calls && CallOk(c, s, t)
    requires var p := s.calls[t].pc; p.Enter? || p.BackOut?
    ensures Moved(c, s, CallStep(c, s, t), t)
  {
    var p, s' := s.calls[t].pc, CallStep(c, s, t);
    assert s' == SetCall(SetBuf(s, p.a, AddTo(s.bufs[p.a], if p.Enter? then 1 else -1)), t,
                         if p.Enter? then CheckActive(p.a) else LoadActive);
    hide CallStep;
  }

  lemma LeaveMoves(c: Config, s: State, t: Ticket)
    requires Shape(c, s) && t in s.calls && CallOk(c, s, t)
    requires var p := s.calls[t].pc; p.Leave? || p.Drop?
    ensures Moved(c, s, CallStep(c, s, t), t)
  {
    hide RotateStep, ClaimStep;
    if s.calls[t].pc.Drop? { DropMoves(c, s, t); hide CallStep, CallOk, AddingMoves, Moved; }
  }

  lemma DropMoves(c: Config, s: State, t: Ticket)
    requires Shape(c, s) && t in s.calls && CallOk(c, s, t) && s.calls[t].pc.Drop?
    ensures Moved(c, s, CallStep(c, s, t), t)
  {
    assert CallStep(c, s, t) == SetCall(s, t, Returned(false)).(discards := s.discards + 1);
    hide CallStep;
  }

  lemma CheckActiveMoves(c: Config, s: State, t: Ticket)
    requires Shape(c, s) && t in s.calls && CallOk(c, s, t) && Ring(c, s) && FlushOk(c, s)
    requires s.calls[t].pc.CheckActive?
    ensures Moved(c, s, CallStep(c, s, t), t)
  {
  }

  lemma RotateReadMoves(c: Config, s: State, t: Ticket)
    requires Shape(c, s) && t in s.calls && CallOk(c, s, t) && Ring(c, s)
    requires var p := s.calls[t].pc; p.Rotate? && (p.r == RSealed || p.r == RIndex || p.r == RAdding)
    requires BufOk(c, s, Next(c, s.calls[t].pc.a))
    ensures Moved(c, s, CallStep(c, s, t), t)
  {
    hide *;
    if s.calls[t].pc.r == RAdding { AddingRead(c, s, t); } else { EarlyRead(c, s, t); }
  }

  /** Reading the next buffer changes the program counter alone. */
  lemma RotateReads(c: Config, s: State, t: Ticket)
    requires Shape(c, s) && t in s.calls
    requires var p := s.calls[t].pc; p.Rotate? && (p.r == RSealed || p.r == RIndex || p.r == RAdding)
    ensures var p, n := s.calls[t].pc, s.bufs[Next(c, s.calls[t].pc.a)];
      CallStep(c, s, t) == SetCall(s, t, Rotate(p.a, p.slot,
        match p.r
        case RSealed => if n.sealed then RConfirm else RIndex
        case RIndex => if n.index != 0 then RConfirm else RAdding
        case _ => if n.adding != 0 then RConfirm else RSeal))
  {
  }

  lemma EarlyRead(c: Config, s: State, t: Ticket)
    requires Shape(c, s) && t in s.calls && CallOk(c, s, t) && Ring(c, s)
    requires var p := s.calls[t].pc; p.Rotate? && (p.r == RSealed || p.r == RIndex)
    requires BufOk(c, s, Next(c, s.calls[t].pc.a))
    ensures Moved(c, s, CallStep(c, s, t), t)
  {
    hide Written, Holders;
    RotateReads(c, s, t);
    hide CallStep;
    NextIs(c, s.calls[t].pc.a);
  }

  lemma AddingRead(c: Config, s: State, t: Ticket)
    requires Shape(c, s) && t in s.calls && CallOk(c, s, t) && Ring(c, s)
    requires s.calls[t].pc.Rotate? && s.calls[t].pc.r == RAdding
    ensures Moved(c, s, CallStep(c, s, t), t)
  {
    RotateReads(c, s, t);
    hide CallStep;
    NextIs(c, s.calls[t].pc.a);
  }

  lemma RotateEndMoves(c: Config, s: State, t: Ticket)
    requires Shape(c, s) && t in s.calls && CallOk(c, s, t)
    requires var p := s.calls[t].pc; p.Rotate? && (p.r == RConfirm || (p.r == RSwap && s.active != p.a))
    ensures Moved(c, s, CallStep(c, s, t), t)
  {
  }

  lemma SealMoves(c: Config, s: State, t: Ticket)
    requires Shape(c, s) && t in s.calls && CallOk(c, s, t)
    requires var p := s.calls[t].pc; p.Rotate? && p.r == RSeal
    ensures Moved(c, s, CallStep(c, s, t), t)
  {
  }

  // ------------------------------------------------------- swapping active_idx

  /** `active_idx` and the log after a successful compare-and-swap. */
  function Swapped(c: Config, s: State): State
    requires c.B > 0
  {
    s.(active := Next(c, s.active), h := s.h.(log := s.h.log + [[]]))
  }

  lemma SwapRing(c: Config, s: State)
    requires Shape(c, s) && Ring(c, s) && s.h.gens[Next(c, s.active)] == A(s) + 1
    ensures Shape(c, Swapped(c, s)) && Ring(c, Swapped(c, s))
  {
    NextIs(c, s.active);
  }

  lemma SwapBuf(c: Config, s: State, i: nat)
    requires Shape(c, s) && Ring(c, s) && Shape(c, Swapped(c, s)) && i < c.B && BufOk(c, s, i)
    requires s.bufs[s.active].sealed
    ensures BufOk(c, Swapped(c, s), i)
  {
    var s' := Swapped(c, s);
    assert Crit(s') == Crit(s);
    if s.h.gens[i] == A(s) { assert i == s.active; }
    if s.h.gens[i] <= A(s) { assert Written(c, s, i, s.h.gens[i]); }
  }

  lemma SwapCall(c: Config, s: State, t: Ticket)
    requires Shape(c, s) && Shape(c, Swapped(c, s)) && t in s.calls && CallOk(c, s, t)
    ensures CallOk(c, Swapped(c, s), t)
  {
    assert Crit(Swapped(c, s)) == Crit(s);
  }

  lemma SwapFlush(c: Config, s: State)
    requires Shape(c, s) && Ring(c, s) && Shape(c, Swapped(c, s)) && Ring(c, Swapped(c, s)) && FlushOk(c, s)
    ensures FlushOk(c, Swapped(c, s))
  {
    BatchesFrame(c.Q, s.h.log, Swapped(c, s).h.log, BatchedUpTo(s));
  }

  lemma SwapInv(c: Config, s: State)
    requires Inv(c, s) && s.bufs[s.active].sealed && s.h.gens[Next(c, s.active)] == A(s) + 1
    ensures Inv(c, Swapped(c, s))
  {
    SwapRing(c, s);
    hide Ring, BufOk, CallOk, FlushOk;
    forall i | 0 <= i < c.B ensures BufOk(c, Swapped(c, s), i) { SwapBuf(c, s, i); }
    forall t | t in s.calls ensures CallOk(c, Swapped(c, s), t) { SwapCall(c, s, t); }
    SwapFlush(c, s);
  }

  lemma SwapReturns(c: Config, s: State, t: Ticket)
    requires Inv(c, s) && t in s.calls
    requires var p := s.calls[t].pc; p.Rotate? && p.r == RSwap && p.a == s.active
    ensures Inv(c, CallStep(c, s, t))
  {
    hide BufOk, FlushOk, LogOk;
    assert CallOk(c, s, t);
    SwapInv(c, s);
    var s1, s' := Swapped(c, s), CallStep(c, s, t);
    assert CallOk(c, s1, t);
    SwappedMoves(c, s, t);
    hide CallOk, Moved, Ring;
    CallOnlyInv(c, s1, s', t);
  }

  lemma SwappedMoves(c: Config, s: State, t: Ticket)
    requires Shape(c, s) && t in s.calls && Shape(c, Swapped(c, s)) && CallOk(c, Swapped(c, s), t)
    requires var p := s.calls[t].pc; p.Rotate? && p.r == RSwap && p.a == s.active
    ensures Moved(c, Swapped(c, s), CallStep(c, s, t), t)
  {
  }

  // ------------------------------------------------------- claiming and storing

  lemma ClaimBuf(c: Config, s: State, t: Ticket, i: nat)
    requires Shape(c, s) && Ring(c, s) && t in s.calls && s.calls[t].pc.Claim? && CallOk(c, s, t)
    requires i < c.B && BufOk(c, s, i) && Shape(c, CallStep(c, s, t))
    ensures BufOk(c, CallStep(c, s, t), i)
  {
    var s', a := CallStep(c, s, t), s.calls[t].pc.a;
    assert s' == ClaimStep(c, s, t, a);
    hide CallStep;
    assert Crit(s') == Crit(s);
    AddingFrame(s, s', t, i);
    var g := s.h.gens[i];
    if g == A(s) && s.bufs[i].sealed { SealingFrame(s, s', t, i); }
    if g <= A(s) { ClaimWritten(c, s, t, i); }
    hide Written, Holders, Sealing;
  }

  lemma ClaimWritten(c: Config, s: State, t: Ticket, i: nat)
    requires Shape(c, s) && Ring(c, s) && t in s.calls && s.calls[t].pc.Claim? && CallOk(c, s, t)
    requires i < c.B && BufOk(c, s, i) && s.h.gens[i] <= A(s) && Shape(c, ClaimStep(c, s, t, s.calls[t].pc.a))
    ensures s.calls[t].gen < |s.h.log| && Written(c, ClaimStep(c, s, t, s.calls[t].pc.a), i, s.h.gens[i])
  {
    var a, g := s.calls[t].pc.a, s.h.gens[i];
    var s' := ClaimStep(c, s, t, a);
    assert Written(c, s, i, g);
    if i == a && |s.h.log[g]| < c.Q { assert StillStoring(s', t, a, |s.h.log[g]|); }
    hide Holders, Sealing;
  }

  lemma ClaimSelf(c: Config, s: State, t: Ticket)
    requires Shape(c, s) && t in s.calls && s.calls[t].pc.Claim? && CallOk(c, s, t)
    requires BufOk(c, s, s.calls[t].pc.a)
    ensures Shape(c, CallStep(c, s, t)) && CallOk(c, CallStep(c, s, t), t)
  {
    hide Written, Holders, Sealing;
  }

  lemma ClaimOther(c: Config, s: State, t: Ticket, u: Ticket)
    requires Shape(c, s) && t in s.calls && s.calls[t].pc.Claim? && Shape(c, CallStep(c, s, t))
    requires u in s.calls && u != t && CallOk(c, s, u)
    ensures CallOk(c, CallStep(c, s, t), u)
  {
    var s' := CallStep(c, s, t);
    assert s'.calls[u] == s.calls[u] && Crit(s') == Crit(s);
  }

  lemma ClaimLog(c: Config, s: State, t: Ticket)
    requires Shape(c, s) && t in s.calls && s.calls[t].pc.Claim? && CallOk(c, s, t) && LogOk(c, s)
    requires BufOk(c, s, s.calls[t].pc.a)
    ensures LogOk(c, CallStep(c, s, t))
  {
    hide Written, Holders, Sealing;
  }

  lemma ClaimFlush(c: Config, s: State, t: Ticket)
    requires Shape(c, s) && Ring(c, s) && FlushOk(c, s)
    requires t in s.calls && s.calls[t].pc.Claim? && CallOk(c, s, t) && Shape(c, CallStep(c, s, t))
    ensures Ring(c, CallStep(c, s, t)) && FlushOk(c, CallStep(c, s, t))
  {
    var s' := CallStep(c, s, t);
    assert s' == ClaimStep(c, s, t, s.calls[t].pc.a);
    hide CallStep;
    assert Crit(s') == Crit(s);
    BatchesFrame(c.Q, s.h.log, s'.h.log, BatchedUpTo(s));
  }

  lemma ClaimInv(c: Config, s: State, t: Ticket)
    requires Inv(c, s) && t in s.calls && s.calls[t].pc.Claim?
    ensures Inv(c, CallStep(c, s, t))
  {
    hide Ring, BufOk, CallOk, FlushOk, LogOk;
    var s' := CallStep(c, s, t);
    ClaimSelf(c, s, t);
    forall i | 0 <= i < c.B ensures BufOk(c, s', i) { ClaimBuf(c, s, t, i); }
    forall u | u in s'.calls ensures CallOk(c, s', u) { if u != t { ClaimOther(c, s, t, u); } }
    ClaimLog(c, s, t);
    ClaimFlush(c, s, t);
    DroppedUpdate(s.calls, t, s'.calls[t]);
  }

  lemma StoreBuf(c: Config, s: State, t: Ticket, i: nat)
    requires Shape(c, s) && Ring(c, s) && t in s.calls && s.calls[t].pc.Store? && CallOk(c, s, t)
    requires i < c.B && BufOk(c, s, i) && Shape(c, CallStep(c, s, t))
    ensures BufOk(c, CallStep(c, s, t), i)
  {
    var s', a := CallStep(c, s, t), s.calls[t].pc.a;
    assert Crit(s') == Crit(s);
    AddingFrame(s, s', t, i);
    var g := s.h.gens[i];
    if g == A(s) && s.bufs[i].sealed { SealingFrame(s, s', t, i); }
    if g <= A(s) {
      assert Written(c, s, i, g);
      forall k | 0 <= k < |s.h.log[g]| && k < c.Q
        ensures s'.bufs[i].items[k] == s'.h.log[g][k] || StillStoring(s', s'.h.log[g][k], i, k)
      {
        if s.bufs[i].items[k] != s.h.log[g][k] { assert StillStoring(s, s.h.log[g][k], i, k); }
      }
    }
  }

  lemma StoreCalls(c: Config, s: State, t: Ticket, u: Ticket)
    requires Shape(c, s) && t in s.calls && s.calls[t].pc.Store? && CallOk(c, s, t)
    requires u in s.calls && CallOk(c, s, u)
    ensures Shape(c, CallStep(c, s, t)) && CallOk(c, CallStep(c, s, t), u)
  {
    var s' := CallStep(c, s, t);
    assert u != t ==> s'.calls[u] == s.calls[u];
    assert Crit(s') == Crit(s);
  }

  lemma StoreFlush(c: Config, s: State, t: Ticket)
    requires Shape(c, s) && Ring(c, s) && FlushOk(c, s) && LogOk(c, s)
    requires t in s.calls && s.calls[t].pc.Store? && Shape(c, CallStep(c, s, t))
    ensures var s' := CallStep(c, s, t); Ring(c, s') && FlushOk(c, s') && LogOk(c, s')
  {
  }

  lemma StoreInv(c: Config, s: State, t: Ticket)
    requires Inv(c, s) && t in s.calls && s.calls[t].pc.Store?
    ensures Inv(c, CallStep(c, s, t))
  {
    hide Ring, BufOk, CallOk, FlushOk, LogOk;
    var s' := CallStep(c, s, t);
    forall u | u in s'.calls ensures Shape(c, s') && CallOk(c, s', u) { StoreCalls(c, s, t, u); }
    assert t in s'.calls;
    forall i | 0 <= i < c.B ensures BufOk(c, s', i) { StoreBuf(c, s, t, i); }
    StoreFlush(c, s, t);
    DroppedUpdate(s.calls, t, s'.calls[t]);
  }

  lemma BeginInv(c: Config, s: State, t: Ticket)
    requires Inv(c, s) && t !in s.calls
    ensures Inv(c, BeginCall(s, t))
  {
    hide Ring, LogOk, FlushOk, BufOk, CallOk;
    var s' := BeginCall(s, t);
    assert Shape(c, s');
    forall i | 0 <= i < c.B ensures BufOk(c, s', i) { BeginBuf(c, s, t, i); }
    forall u | u in s'.calls ensures CallOk(c, s', u) { BeginCalls(c, s, t, u); }
    BeginFlushFrame(c, s, t);
    DroppedUpdate(s.calls, t, s'.calls[t]);
  }

  lemma BeginCalls(c: Config, s: State, t: Ticket, u: Ticket)
    requires Shape(c, s) && t !in s.calls && Shape(c, BeginCall(s, t))
    requires u in s.calls ==> CallOk(c, s, u)
    requires u in BeginCall(s, t).calls
    ensures CallOk(c, BeginCall(s, t), u)
  {
    var s' := BeginCall(s, t);
    if u != t { assert s'.calls[u] == s.calls[u] && Crit(s') == Crit(s); }
  }

  lemma BeginBuf(c: Config, s: State, t: Ticket, i: nat)
    requires Shape(c, s) && t !in s.calls && Shape(c, BeginCall(s, t)) && i < c.B && BufOk(c, s, i)
    ensures BufOk(c, BeginCall(s, t), i)
  {
    var s' := BeginCall(s, t);
    assert Crit(s') == Crit(s);
    HoldersUpdate(s.calls, t, s'.calls[t], i);
    assert Holders(s'.calls, i) == Holders(s.calls, i);
    hide Holders;
    if Sealing(s, i) { BeginSealing(s, t, i); }
    if s.h.gens[i] <= A(s) { BeginWritten(c, s, t, i, s.h.gens[i]); }
    hide Sealing, Written, Shape;
  }

  lemma BeginWritten(c: Config, s: State, t: Ticket, i: nat, g: nat)
    requires Shape(c, s) && t !in s.calls && Shape(c, BeginCall(s, t))
    requires i < c.B && g < |s.h.log| && Written(c, s, i, g)
    ensures Written(c, BeginCall(s, t), i, g)
  {
    hide Shape;
  }

  lemma BeginSealing(s: State, t: Ticket, i: nat)
    requires |s.h.log| > 0 && t !in s.calls && Sealing(s, i)
    ensures Sealing(BeginCall(s, t), i)
  {
    var s' := BeginCall(s, t);
    if u :| u in s.calls && Seals(s.calls[u].pc, i) { assert s'.calls[u] == s.calls[u]; }
  }

  lemma BeginFlushFrame(c: Config, s: State, t: Ticket)
    requires Shape(c, s) && t !in s.calls && Shape(c, BeginCall(s, t)) && Ring(c, s) && LogOk(c, s) && FlushOk(c, s)
    ensures var s' := BeginCall(s, t); Ring(c, s') && LogOk(c, s') && FlushOk(c, s')
  {
  }

  lemma CallStepInv(c: Config, s: State, t: Ticket)
    requires Inv(c, s) && t in s.calls
    ensures Inv(c, CallStep(c, s, t))
  {
    hide Ring, BufOk, LogOk, FlushOk;
    var s', p := CallStep(c, s, t), s.calls[t].pc;
    assert CallOk(c, s, t);
    if p.Claim? { ClaimInv(c, s, t); }
    else if p.Store? { StoreInv(c, s, t); }
    else if p.Rotate? && p.r == RSwap && p.a == s.active { SwapReturns(c, s, t); }
    else if !p.Returned? {
      if p.Rotate? && p.r == RSwap { SwapStale(c, s, t); }
      hide CallOk;
      StepMoves(c, s, t);
      hide Moved;
      CallOnlyInv(c, s, s', t);
    }
  }

  lemma SwapStale(c: Config, s: State, t: Ticket)
    requires Inv(c, s) && t in s.calls
    requires var p := s.calls[t].pc; p.Rotate? && p.r == RSwap && p.a != s.active
    ensures s.h.gens[s.calls[t].pc.a] != A(s)
  {
    hide BufOk, LogOk, FlushOk, CallOk;
  }

  lemma StepMoves(c: Config, s: State, t: Ticket)
    requires Inv(c, s) && t in s.calls
    requires var p := s.calls[t].pc;
      !p.Claim? && !p.Store? && !p.Returned? && (p.Rotate? && p.r == RSwap ==> p.a != s.active)
    ensures Moved(c, s, CallStep(c, s, t), t)
  {
    hide Ring, BufOk, LogOk, FlushOk, CallOk, Moved, CallStep;
    match s.calls[t].pc
    case LoadActive => LoadMoves(c, s, t);
    case LoadSealed(_) => LoadMoves(c, s, t);
    case Enter(_) => EnterMoves(c, s, t);
    case CheckActive(_) => CheckActiveMoves(c, s, t);
    case CheckSealed(_, _) => CheckSealedMoves(c, s, t);
    case BackOut(_) => EnterMoves(c, s, t);
    case Rotate(a, _, r) =>
      if r == RSeal { SealMoves(c, s, t); }
      else if r == RConfirm || r == RSwap { RotateEndMoves(c, s, t); }
      else { NextIs(c, a); RotateReadMoves(c, s, t); }
    case Leave(_, _, _) => LeaveMoves(c, s, t);
    case Recheck(_) => CheckSealedMoves(c, s, t);
    case Drop => LeaveMoves(c, s, t);
  }
}
