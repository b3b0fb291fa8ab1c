/** Preservation of the ring invariant by every step of `sentry__batcher_flush`. */
module BatcherRingFlush {
  import opened Wrappers
  import opened BatcherRing
  import opened BatcherRingInv

  /** A flusher step that changes no more than the flushers' own variables and
      `index` and `sealed` of buffer `d`. */
  ghost predicate FlusherOnly(c: Config, s: State, s': State, d: nat)
    requires Shape(c, s)
  {
    && Shape(c, s') && d < c.B
    && s' == s.(flushers := s'.flushers, flushing := s'.flushing, drain := s'.drain,
                batches := s'.batches, bufs := s'.bufs, h := s.h.(owner := s'.h.owner))
    && (forall i :: 0 <= i < c.B && i != d ==> s'.bufs[i] == s.bufs[i])
    && (s.bufs[d].sealed ==> s'.bufs[d].sealed)
    && (Emptied(Crit(s')) ==> Crit(s').from == d)
    && (Emptied(Crit(s)) ==> Crit(s).from == d)
    && (AtSwap(s) ==> Crit(s).from == d)
  }

  predicate AtSwap(s: State) { Crit(s).Rotating? && Crit(s).r == RSwap }

  ghost predicate NoneBoundAt(s: State, i: nat) {
    forall t :: t in s.calls && Bound(s.calls[t].pc) ==> s.calls[t].pc.a != i
  }

  lemma KeepSealing(s: State, s': State, i: nat)
    requires s'.calls == s.calls && Sealing(s, i)
    requires AtSwap(s) && Crit(s).from == i ==> AtSwap(s') && Crit(s').from == i
    ensures Sealing(s', i)
  {
    if t :| t in s.calls && Seals(s.calls[t].pc, i) { assert s'.calls[t] == s.calls[t]; }
  }

  lemma KeepBuf(c: Config, s: State, s': State, i: nat)
    requires Shape(c, s) && Shape(c, s') && i < c.B && BufOk(c, s, i)
    requires s'.calls == s.calls && s'.bufs[i] == s.bufs[i] && s'.h == s.h.(owner := s'.h.owner)
    requires (Emptied(Crit(s)) && Crit(s).from == i) <==> (Emptied(Crit(s')) && Crit(s').from == i)
    requires AtSwap(s) && Crit(s).from == i ==> s.h.gens[i] != A(s)
    ensures BufOk(c, s', i)
  {
    if Sealing(s, i) && s.h.gens[i] == A(s) { KeepSealing(s, s', i); }
    hide Sealing, Holders;
    assert s.h.gens[i] <= A(s) ==> Written(c, s, i, s.h.gens[i]) && Written(c, s', i, s.h.gens[i]);
  }

  lemma KeepCall(c: Config, s: State, s': State, d: nat, t: Ticket)
    requires Shape(c, s) && FlusherOnly(c, s, s', d) && t in s.calls && CallOk(c, s, t)
    requires Quiet(Crit(s')) ==> NoneBoundAt(s, Crit(s').from)
    ensures CallOk(c, s', t)
  {
  }

  lemma FlusherOnlyInv(c: Config, s: State, s': State, d: nat)
    requires Inv(c, s) && FlusherOnly(c, s, s', d) && BufOk(c, s', d)
    requires Ring(c, s') && FlushOk(c, s')
    requires Quiet(Crit(s')) ==> NoneBoundAt(s, Crit(s').from)
    ensures Inv(c, s')
  {
    hide BufOk, CallOk, Ring, FlushOk, NoneBoundAt;
    forall i | 0 <= i < c.B ensures BufOk(c, s', i) { if i != d { KeepBuf(c, s, s', i); } }
    forall t | t in s'.calls ensures CallOk(c, s', t) { KeepCall(c, s, s', d, t); }
    assert LogOk(c, s');
  }

  /** While a flusher is past its `adding == 0` observation, nobody is bound to the buffer. */
  lemma QuietMeansNoneBound(c: Config, s: State)
    requires Inv(c, s) && Quiet(Crit(s))
    ensures NoneBoundAt(s, Crit(s).from)
  {
    hide BufOk, Ring, FlushOk, LogOk;
    forall t | t in s.calls && Bound(s.calls[t].pc) ensures s.calls[t].pc.a != Crit(s).from {
      assert CallOk(c, s, t);
    }
  }

  /** A step that only moves the owner's program counter (and `drain` or `batches`). */
  ghost predicate PcMoves(c: Config, s: State, s': State, f: nat) {
    && s.flushing && s.h.owner == f && f in s.flushers && f in s'.flushers
    && s' == s.(flushers := s.flushers[f := s'.flushers[f]], drain := s'.drain, batches := s'.batches)
    && Critical(s'.flushers[f])
  }

  lemma PcMovesInv(c: Config, s: State, s': State, f: nat)
    requires Inv(c, s) && PcMoves(c, s, s', f) && Shape(c, s')
    requires Ring(c, s') && FlushOk(c, s')
    requires var p, p' := Crit(s), Crit(s');
      && (Emptied(p') <==> Emptied(p)) && (Emptied(p) ==> p.from == p'.from)
      && (Quiet(p') ==> NoneBoundAt(s, p'.from))
      && (AtSwap(s) ==> s.h.gens[p.from] != A(s))
    ensures Inv(c, s')
  {
    hide BufOk, CallOk, Ring, FlushOk, NoneBoundAt, LogOk;
    var p := Crit(s);
    var d := if Emptied(p) || AtSwap(s) then p.from else s.active;
    assert BufOk(c, s, d);
    KeepBuf(c, s, s', d);
    FlusherOnlyInv(c, s, s', d);
  }

  // ------------------------------------------------------- the steps

  ghost predicate Owns(c: Config, s: State, f: nat) { f in s.flushers && Critical(s.flushers[f]) }

  lemma OwnerIs(c: Config, s: State, f: nat)
    requires Shape(c, s) && Ring(c, s) && FlushOk(c, s) && Owns(c, s, f)
    ensures s.flushing && s.h.owner == f && Crit(s) == s.flushers[f]
  {
  }

  predicate Loading(p: FPc) {
    p.LoadFlush? || p.LoadDrain? || p.LoadOldSealed? || p.LoadActiveAgain? || p.LoadIndex?
  }

  /** Loads, and the wait for `adding == 0`. */
  lemma LoadStep(c: Config, s: State, f: nat, g: bool)
    requires Shape(c, s) && Ring(c, s) && FlushOk(c, s) && Owns(c, s, f)
    requires Loading(s.flushers[f])
    requires forall i :: 0 <= i < c.B && s.h.gens[i] < A(s) ==> s.bufs[i].sealed
    ensures var s' := FlushStep(c, s, f, g); Shape(c, s') && PcMoves(c, s, s', f) && Ring(c, s') && FlushOk(c, s')
  {
    OwnerIs(c, s, f);
    LoadMoves(c, s, f, g);
    hide FlushStep;
    LoadRing(c, s, FlushStep(c, s, f, g), f);
  }

  lemma LoadMoves(c: Config, s: State, f: nat, g: bool)
    requires Shape(c, s) && s.flushing && s.h.owner == f && f in s.flushers
    requires Loading(s.flushers[f])
    ensures var s' := FlushStep(c, s, f, g);
      && Shape(c, s') && PcMoves(c, s, s', f) && s'.drain == s.drain && s'.batches == s.batches
      && LoadNext(c, s, s.flushers[f], s'.flushers[f])
  {
    hide RotateStep;
  }

  /** Where a load leads to. */
  ghost predicate LoadNext(c: Config, s: State, p: FPc, p': FPc)
    requires Shape(c, s)
  {
    match p
    case LoadFlush => p'.LoadDrain?
    case LoadDrain(_) => p'.LoadOldSealed? && p'.from == s.drain
    case LoadOldSealed(_, from) =>
      && from < c.B
      && (if s.bufs[from].sealed then p'.Wait? && p'.from == from else p'.LoadActiveAgain? && p'.from == from)
    case LoadActiveAgain(_, from) => p'.LoadIndex? && p'.from == from && p'.act == s.active
    case LoadIndex(_, from, act) =>
      if act != from then p'.Wait? && p'.from == from
      else p' == Unlock || (p'.Rotating? && p'.from == from && p'.r == RSealed)
    case _ => false
  }

  lemma LoadRing(c: Config, s: State, s': State, f: nat)
    requires Shape(c, s) && Ring(c, s) && FlushOk(c, s) && Shape(c, s')
    requires PcMoves(c, s, s', f) && Crit(s) == s.flushers[f]
    requires s'.drain == s.drain && s'.batches == s.batches && LoadNext(c, s, s.flushers[f], s'.flushers[f])
    requires forall i :: 0 <= i < c.B && s.h.gens[i] < A(s) ==> s.bufs[i].sealed
    ensures Ring(c, s') && FlushOk(c, s')
  {
    assert Crit(s') == s'.flushers[f];
    hide Batches, Trunc;
  }

  lemma SealedBelowActive(c: Config, s: State)
    requires Inv(c, s)
    ensures forall i :: 0 <= i < c.B && s.h.gens[i] < A(s) ==> s.bufs[i].sealed
  {
    hide CallOk, LogOk, FlushOk, Ring, Holders, Written, Sealing;
    forall i | 0 <= i < c.B && s.h.gens[i] < A(s) ensures s.bufs[i].sealed { assert BufOk(c, s, i); }
  }

  lemma LoadInv(c: Config, s: State, f: nat, g: bool)
    requires Inv(c, s) && Owns(c, s, f)
    requires Loading(s.flushers[f])
    ensures Inv(c, FlushStep(c, s, f, g))
  {
    OwnerIs(c, s, f);
    SealedBelowActive(c, s);
    hide Ring, FlushOk, BufOk, CallOk, LogOk;
    LoadStep(c, s, f, g);
    PcMovesInv(c, s, FlushStep(c, s, f, g), f);
  }

  lemma RotatingReadStep(c: Config, s: State, f: nat, g: bool)
    requires Shape(c, s) && Ring(c, s) && FlushOk(c, s) && Owns(c, s, f)
    requires var p := s.flushers[f]; p.Rotating? && p.r != RSeal && (p.r == RSwap ==> s.active != p.from)
    requires forall i :: 0 <= i < c.B && s.h.gens[i] < A(s) ==> s.bufs[i].sealed
    ensures var s' := FlushStep(c, s, f, g); Shape(c, s') && PcMoves(c, s, s', f) && Ring(c, s') && FlushOk(c, s')
    ensures AtSwap(s) ==> s.h.gens[Crit(s).from] != A(s)
  {
    OwnerIs(c, s, f);
    RotatingMoves(c, s, f, g);
    hide FlushStep;
    RotatingRing(c, s, FlushStep(c, s, f, g), f);
  }

  /** A rotation that reads stays at its buffer, or ends; after it has ended well, another
      buffer is active. */
  lemma RotatingMoves(c: Config, s: State, f: nat, g: bool)
    requires Shape(c, s) && s.flushing && s.h.owner == f && f in s.flushers
    requires var p := s.flushers[f]; p.Rotating? && p.r != RSeal && (p.r == RSwap ==> s.active != p.from)
    ensures var s' := FlushStep(c, s, f, g);
      && Shape(c, s') && PcMoves(c, s, s', f) && s'.drain == s.drain && s'.batches == s.batches
      && var p, p' := s.flushers[f], s'.flushers[f];
      && (p'.Unlock? || ((p'.Rotating? || p'.Wait?) && p'.from == p.from))
      && (p'.Wait? ==> s.active != p.from)
      && (p'.Rotating? ==> p'.r != RSwap)
  {
  }

  lemma RotatingRing(c: Config, s: State, s': State, f: nat)
    requires Shape(c, s) && Ring(c, s) && FlushOk(c, s) && Shape(c, s') && PcMoves(c, s, s', f)
    requires Crit(s) == s.flushers[f] && s'.drain == s.drain && s'.batches == s.batches
    requires forall i :: 0 <= i < c.B && s.h.gens[i] < A(s) ==> s.bufs[i].sealed
    requires var p, p' := s.flushers[f], s'.flushers[f];
      && p.Rotating? && (p.r == RSwap ==> s.active != p.from)
      && (p'.Unlock? || ((p'.Rotating? || p'.Wait?) && p'.from == p.from))
      && (p'.Wait? ==> s.active != p.from)
      && (p'.Rotating? ==> p'.r != RSwap)
    ensures Ring(c, s') && FlushOk(c, s')
    ensures AtSwap(s) ==> s.h.gens[Crit(s).from] != A(s)
  {
    assert Crit(s') == s'.flushers[f];
    hide Batches, Trunc;
  }

  lemma RotatingReadInv(c: Config, s: State, f: nat, g: bool)
    requires Inv(c, s) && Owns(c, s, f)
    requires var p := s.flushers[f]; p.Rotating? && p.r != RSeal && (p.r == RSwap ==> s.active != p.from)
    ensures Inv(c, FlushStep(c, s, f, g))
  {
    OwnerIs(c, s, f);
    SealedBelowActive(c, s);
    hide Ring, FlushOk, BufOk, CallOk, LogOk;
    RotatingReadStep(c, s, f, g);
    PcMovesInv(c, s, FlushStep(c, s, f, g), f);
  }

  lemma RotatingSealInv(c: Config, s: State, f: nat, g: bool)
    requires Inv(c, s) && Owns(c, s, f)
    requires var p := s.flushers[f]; p.Rotating? && p.r == RSeal
    ensures Inv(c, FlushStep(c, s, f, g))
  {
    OwnerIs(c, s, f);
    var s', d := FlushStep(c, s, f, g), s.flushers[f].from;
    assert Crit(s') == s'.flushers[f];
    assert Sealing(s', d);
    assert BufOk(c, s, d);
    hide CallOk, LogOk, Holders;
    assert FlusherOnly(c, s, s', d);
    assert BufOk(c, s', d) by { hide FlushOk; SealedBuf(c, s, s', d); }
    hide BufOk, Sealing;
    FlusherOnlyInv(c, s, s', d);
  }

  lemma SealedBuf(c: Config, s: State, s': State, d: nat)
    requires Shape(c, s) && Shape(c, s') && d < c.B && BufOk(c, s, d) && s.h.gens[d] <= A(s)
    requires s'.calls == s.calls && s'.h == s.h && s'.bufs[d] == s.bufs[d].(sealed := true)
    requires !Emptied(Crit(s)) && !Emptied(Crit(s')) && Sealing(s', d)
    ensures BufOk(c, s', d)
  {
    hide Sealing, Holders;
    assert Written(c, s, d, s.h.gens[d]) && Written(c, s', d, s.h.gens[d]);
  }

  lemma RotatingSwapInv(c: Config, s: State, f: nat, g: bool)
    requires Inv(c, s) && Owns(c, s, f)
    requires var p := s.flushers[f]; p.Rotating? && p.r == RSwap && s.active == p.from
    ensures Inv(c, FlushStep(c, s, f, g))
  {
    OwnerIs(c, s, f);
    NextIs(c, s.active);
    hide BufOk, CallOk, LogOk;
    var s1, s' := Swapped(c, s), FlushStep(c, s, f, g);
    SwapInv(c, s);
    assert Crit(s') == s'.flushers[f];
    assert Shape(c, s') && Ring(c, s') && FlushOk(c, s');
    assert AtSwap(s1) ==> s1.h.gens[Crit(s1).from] != A(s1);
    hide Ring, FlushOk;
    PcMovesInv(c, s1, s', f);
  }

  /** The observation `adding == 0` on a sealed buffer: the buffer is no longer
      active, and no call is bound to it. */
  lemma WaitObserves(c: Config, s: State)
    requires Inv(c, s) && Crit(s).Wait? && s.bufs[Crit(s).from].adding <= 0
    ensures A(s) > s.h.D && NoneBoundAt(s, Crit(s).from)
  {
    hide CallOk, LogOk, Written;
    var d := Crit(s).from;
    assert BufOk(c, s, d);
    assert Holders(s.calls, d) == {};
    forall t | t in s.calls ensures !HoldsAt(s.calls[t].pc, d) {
      assert t !in Holders(s.calls, d);
    }
  }

  lemma WaitInv(c: Config, s: State, f: nat, g: bool)
    requires Inv(c, s) && Owns(c, s, f) && s.flushers[f].Wait?
    ensures Inv(c, FlushStep(c, s, f, g))
  {
    OwnerIs(c, s, f);
    hide BufOk, CallOk, LogOk, Ring, FlushOk;
    if s.bufs[s.flushers[f].from].adding <= 0 {
      WaitObserves(c, s);
      WaitEnds(c, s, f, g);
      hide NoneBoundAt, FlushStep;
      PcMovesInv(c, s, FlushStep(c, s, f, g), f);
    }
  }

  lemma WaitEnds(c: Config, s: State, f: nat, g: bool)
    requires Shape(c, s) && Ring(c, s) && FlushOk(c, s) && Owns(c, s, f) && s.flushers[f].Wait? && A(s) > s.h.D
    requires s.bufs[s.flushers[f].from].adding <= 0
    ensures var s' := FlushStep(c, s, f, g);
      && Shape(c, s') && PcMoves(c, s, s', f) && Ring(c, s') && FlushOk(c, s')
      && Crit(s') == s'.flushers[f] && s'.flushers[f] == Take(s.flushers[f].f, s.flushers[f].from)
  {
    OwnerIs(c, s, f);
    assert Crit(FlushStep(c, s, f, g)) == FlushStep(c, s, f, g).flushers[f];
    hide RotateStep, Batches, Trunc;
  }

  lemma TakeFlush(c: Config, s: State, f: nat, g: bool)
    requires Shape(c, s) && Ring(c, s) && FlushOk(c, s) && Owns(c, s, f) && s.flushers[f].Take?
    requires BufOk(c, s, s.flushers[f].from)
    ensures var s', d := FlushStep(c, s, f, g), s.flushers[f].from;
      FlusherOnly(c, s, s', d) && Ring(c, s') && FlushOk(c, s') && BufOk(c, s', d)
  {
    OwnerIs(c, s, f);
    var s', d := FlushStep(c, s, f, g), s.flushers[f].from;
    assert Crit(s') == s'.flushers[f];
    assert Written(c, s, d, s.h.gens[d]) && Written(c, s', d, s.h.gens[d]);
    hide Written, Sealing, Holders;
    assert |Trunc(c.Q, s.h.log[s.h.D])| == if s.bufs[d].index > c.Q then c.Q else s.bufs[d].index;
  }

  lemma TakeInv(c: Config, s: State, f: nat, g: bool)
    requires Inv(c, s) && Owns(c, s, f) && s.flushers[f].Take?
    ensures Inv(c, FlushStep(c, s, f, g))
  {
    OwnerIs(c, s, f);
    hide BufOk, CallOk, LogOk, Ring, FlushOk, NoneBoundAt;
    QuietMeansNoneBound(c, s);
    TakeFlush(c, s, f, g);
    var s', d := FlushStep(c, s, f, g), s.flushers[f].from;
    assert Crit(s').from == d;
    FlusherOnlyInv(c, s, s', d);
  }

  /** With nobody bound to the buffer, every claimed slot has been written. */
  lemma AllWritten(c: Config, s: State, k: nat)
    requires Inv(c, s) && Quiet(Crit(s)) && k < |s.h.log[s.h.D]| && k < c.Q
    ensures s.bufs[Crit(s).from].items[k] == s.h.log[s.h.D][k]
  {
    QuietMeansNoneBound(c, s);
    hide CallOk, LogOk, Holders, Sealing;
    var d := Crit(s).from;
    assert BufOk(c, s, d) && Written(c, s, d, s.h.D);
    assert !StillStoring(s, s.h.log[s.h.D][k], d, k);
  }

  lemma CopyInv(c: Config, s: State, f: nat, g: bool)
    requires Inv(c, s) && Owns(c, s, f) && (s.flushers[f].Copy? || s.flushers[f].Hand?)
    ensures Inv(c, FlushStep(c, s, f, g))
  {
    OwnerIs(c, s, f);
    var s', p := FlushStep(c, s, f, g), s.flushers[f];
    QuietMeansNoneBound(c, s);
    if p.Copy? && |p.got| < p.n { AllWritten(c, s, |p.got|); }
    hide BufOk, CallOk, LogOk, NoneBoundAt;
    CopyFlush(c, s, f, g);
    hide Ring, FlushOk;
    PcMovesInv(c, s, s', f);
  }

  lemma CopyFlush(c: Config, s: State, f: nat, g: bool)
    requires Shape(c, s) && Ring(c, s) && FlushOk(c, s) && Owns(c, s, f) && (s.flushers[f].Copy? || s.flushers[f].Hand?)
    requires var p := s.flushers[f];
      p.Copy? && |p.got| < p.n ==> s.bufs[p.from].items[|p.got|] == s.h.log[s.h.D][|p.got|]
    ensures var s' := FlushStep(c, s, f, g);
      && Shape(c, s') && PcMoves(c, s, s', f) && Ring(c, s') && FlushOk(c, s') && Crit(s') == s'.flushers[f]
  {
    OwnerIs(c, s, f);
    var s' := FlushStep(c, s, f, g);
    assert Crit(s') == s'.flushers[f];
  }

  lemma UnsealRing(c: Config, s: State, f: nat, g: bool)
    requires Shape(c, s) && Ring(c, s) && FlushOk(c, s) && Owns(c, s, f) && s.flushers[f].Unseal?
    ensures var s' := FlushStep(c, s, f, g); Shape(c, s') && Ring(c, s') && FlushOk(c, s')
  {
    OwnerIs(c, s, f);
    var s', d := FlushStep(c, s, f, g), s.flushers[f].from;
    assert Crit(s') == s'.flushers[f];
    hide RotateStep, Trunc, Batches;
    forall i | 0 <= i < c.B
      ensures s'.h.gens[Next(c, i)] == s'.h.gens[i] + 1
           || (s'.h.gens[i] == s'.h.D + c.B - 1 && s'.h.gens[Next(c, i)] == s'.h.D)
    {
      NextIs(c, i);
    }
  }

  lemma UnsealBuf(c: Config, s: State, f: nat, g: bool, i: nat)
    requires Shape(c, s) && Ring(c, s) && FlushOk(c, s) && Owns(c, s, f) && s.flushers[f].Unseal?
    requires i < c.B && BufOk(c, s, i) && Shape(c, FlushStep(c, s, f, g))
    ensures BufOk(c, FlushStep(c, s, f, g), i)
  {
    OwnerIs(c, s, f);
    var s', d := FlushStep(c, s, f, g), s.flushers[f].from;
    assert Crit(s') == s'.flushers[f];
    if i != d {
      if Sealing(s, i) && s.h.gens[i] == A(s) { KeepSealing(s, s', i); }
      hide Sealing, Holders;
      assert s.h.gens[i] <= A(s) ==> Written(c, s, i, s.h.gens[i]) && Written(c, s', i, s.h.gens[i]);
    }
  }

  lemma UnsealCall(c: Config, s: State, f: nat, g: bool, t: Ticket)
    requires Shape(c, s) && Ring(c, s) && FlushOk(c, s) && Owns(c, s, f) && s.flushers[f].Unseal?
    requires t in s.calls && CallOk(c, s, t) && Shape(c, FlushStep(c, s, f, g))
    ensures CallOk(c, FlushStep(c, s, f, g), t)
  {
    OwnerIs(c, s, f);
    var s' := FlushStep(c, s, f, g);
    assert Crit(s') == s'.flushers[f];
    assert s'.calls[t] == s.calls[t];
    if s.calls[t].pc.Rotate? { NextIs(c, s.calls[t].pc.a); }
  }

  lemma UnsealInv(c: Config, s: State, f: nat, g: bool)
    requires Inv(c, s) && Owns(c, s, f) && s.flushers[f].Unseal?
    ensures Inv(c, FlushStep(c, s, f, g))
  {
    hide BufOk, CallOk, Ring, FlushOk;
    var s' := FlushStep(c, s, f, g);
    UnsealRing(c, s, f, g);
    forall i | 0 <= i < c.B ensures BufOk(c, s', i) { UnsealBuf(c, s, f, g, i); }
    forall t | t in s'.calls ensures CallOk(c, s', t) { UnsealCall(c, s, f, g, t); }
    assert LogOk(c, s');
  }

  lemma AdvanceInv(c: Config, s: State, f: nat, g: bool)
    requires Inv(c, s) && Owns(c, s, f) && s.flushers[f].Advance?
    ensures Inv(c, FlushStep(c, s, f, g))
  {
    OwnerIs(c, s, f);
    var s' := FlushStep(c, s, f, g);
    NextIs(c, s.flushers[f].from);
    hide BufOk, CallOk, LogOk;
    assert Crit(s') == s'.flushers[f];
    assert Shape(c, s') && Ring(c, s') && FlushOk(c, s');
    hide Ring, FlushOk;
    PcMovesInv(c, s, s', f);
  }

  /** Entering and leaving the section guarded by `flushing`, and giving up on it. */
  lemma LockInv(c: Config, s: State, f: nat, g: bool)
    requires Inv(c, s) && f in s.flushers && (s.flushers[f].Try? || s.flushers[f].Unlock?)
    ensures Inv(c, FlushStep(c, s, f, g))
  {
    hide BufOk, CallOk, LogOk, Ring, FlushOk;
    if s.flushers[f].Try? { TryStep(c, s, f, g); } else { UnlockStep(c, s, f, g); }
    LockFrame(c, s, FlushStep(c, s, f, g));
  }

  lemma TryStep(c: Config, s: State, f: nat, g: bool)
    requires Shape(c, s) && Ring(c, s) && FlushOk(c, s) && f in s.flushers && s.flushers[f].Try?
    ensures var s' := FlushStep(c, s, f, g);
      && Shape(c, s') && Ring(c, s') && FlushOk(c, s')
      && (Crit(s') == Crit(s) || (!Quiet(Crit(s)) && !Quiet(Crit(s')) && !AtSwap(s)))
  {
    hide Shape, Ring, FlushOk, FlushStep;
    if !s.flushing { Acquire(c, s, f, g); } else { FailToAcquire(c, s, f, g); }
  }

  lemma Acquire(c: Config, s: State, f: nat, g: bool)
    requires Shape(c, s) && Ring(c, s) && FlushOk(c, s) && f in s.flushers && s.flushers[f].Try? && !s.flushing
    ensures var s' := FlushStep(c, s, f, g);
      Shape(c, s') && Ring(c, s') && FlushOk(c, s') && Crit(s') == LoadFlush
  {
  }

  lemma FailToAcquire(c: Config, s: State, f: nat, g: bool)
    requires Shape(c, s) && Ring(c, s) && FlushOk(c, s) && f in s.flushers && s.flushers[f].Try? && s.flushing
    ensures var s' := FlushStep(c, s, f, g);
      Shape(c, s') && Ring(c, s') && FlushOk(c, s') && Crit(s') == Crit(s)
  {
    var s' := FlushStep(c, s, f, g);
    assert s' == s || s' == SetFlusher(s, f, Finished(false));
    hide FlushStep, Batches, Trunc;
    assert Crit(s') == Crit(s);
  }

  lemma UnlockStep(c: Config, s: State, f: nat, g: bool)
    requires Shape(c, s) && Ring(c, s) && FlushOk(c, s) && f in s.flushers && s.flushers[f].Unlock?
    ensures var s' := FlushStep(c, s, f, g);
      && Shape(c, s') && Ring(c, s') && FlushOk(c, s')
      && !Quiet(Crit(s)) && !Quiet(Crit(s')) && !AtSwap(s)
  {
    OwnerIs(c, s, f);
  }

  lemma LockFrame(c: Config, s: State, s': State)
    requires Inv(c, s) && Shape(c, s') && Ring(c, s') && FlushOk(c, s')
    requires s' == s.(flushers := s'.flushers, flushing := s'.flushing, h := s.h.(owner := s'.h.owner))
    requires Crit(s') == Crit(s) || (!Quiet(Crit(s)) && !Quiet(Crit(s')) && !AtSwap(s))
    ensures Inv(c, s')
  {
    hide BufOk, Ring, FlushOk, LogOk, CallOk;
    if Quiet(Crit(s)) { QuietMeansNoneBound(c, s); }
    forall i | 0 <= i < c.B ensures BufOk(c, s', i) { LockBuf(c, s, s', i); }
    forall t | t in s'.calls ensures CallOk(c, s', t) { LockCall(c, s, s', t); }
    assert LogOk(c, s') by { LockLog(c, s, s'); }
  }

  lemma LockLog(c: Config, s: State, s': State)
    requires LogOk(c, s) && s'.h.log == s.h.log && s'.calls == s.calls
    ensures LogOk(c, s')
  {
  }

  lemma LockBuf(c: Config, s: State, s': State, i: nat)
    requires Shape(c, s) && Shape(c, s') && i < c.B && BufOk(c, s, i)
    requires s' == s.(flushers := s'.flushers, flushing := s'.flushing, h := s.h.(owner := s'.h.owner))
    requires Crit(s') == Crit(s) || (!Quiet(Crit(s)) && !Quiet(Crit(s')) && !AtSwap(s))
    ensures BufOk(c, s', i)
  {
    if Sealing(s, i) { KeepSealing(s, s', i); }
    hide Sealing, Holders;
    assert s.h.gens[i] <= A(s) ==> Written(c, s, i, s.h.gens[i]) && Written(c, s', i, s.h.gens[i]);
  }

  lemma LockCall(c: Config, s: State, s': State, t: Ticket)
    requires Shape(c, s) && Shape(c, s') && t in s.calls && CallOk(c, s, t)
    requires s' == s.(flushers := s'.flushers, flushing := s'.flushing, h := s.h.(owner := s'.h.owner))
    requires Crit(s') == Crit(s) || !Quiet(Crit(s'))
    ensures CallOk(c, s', t)
  {
  }

  lemma BeginFlushInv(c: Config, s: State, f: nat, cs: bool)
    requires Inv(c, s) && f !in s.flushers
    ensures Inv(c, SetFlusher(s, f, Try(cs)))
  {
    var s' := SetFlusher(s, f, Try(cs));
    hide BufOk, CallOk, LogOk;
    assert Crit(s') == Crit(s);
    assert Shape(c, s') && Ring(c, s') && FlushOk(c, s');
    hide Ring, FlushOk;
    LockFrame(c, s, s');
  }

  lemma FlushStepInv(c: Config, s: State, f: nat, g: bool)
    requires Inv(c, s) && f in s.flushers
    ensures Inv(c, FlushStep(c, s, f, g))
  {
    hide Ring, BufOk, CallOk, LogOk, FlushOk;
    var p := s.flushers[f];
    if p.Try? || p.Unlock? { hide FlushStep; LockInv(c, s, f, g); }
    else if Loading(p) { hide FlushStep; LoadInv(c, s, f, g); }
    else if p.Rotating? {
      hide FlushStep;
      if p.r == RSeal { RotatingSealInv(c, s, f, g); }
      else if p.r == RSwap && s.active == p.from { RotatingSwapInv(c, s, f, g); }
      else { RotatingReadInv(c, s, f, g); }
    }
    else if p.Wait? { hide FlushStep; WaitInv(c, s, f, g); }
    else if p.Take? { hide FlushStep; TakeInv(c, s, f, g); }
    else if p.Copy? || p.Hand? { hide FlushStep; CopyInv(c, s, f, g); }
    else if p.Unseal? { hide FlushStep; UnsealInv(c, s, f, g); }
    else if p.Advance? { hide FlushStep; AdvanceInv(c, s, f, g); }
  }

  lemma StepInv(c: Config, s: State, s': State, act: Action)
    requires Inv(c, s) && Step(c, s, s', act)
    ensures Inv(c, s')
  {
    hide Inv, CallStep, FlushStep;
    match act
    case Begin(t) => BeginInv(c, s, t);
    case Produce(t) => CallStepInv(c, s, t);
    case BeginFlush(f, cs) => BeginFlushInv(c, s, f, cs);
    case Flush(f, g) => FlushStepInv(c, s, f, g);
  }
}
