/** When an enqueue may be refused, and when it must try again. */
module BatcherRingRefusal {
  import opened Wrappers
  import opened BatcherRing
  import opened BatcherRingInv
  import opened BatcherRingFlush
  import opened BatcherRingTheorems
  import BatcherRingReach

  /** A buffer that cannot be made the active one. */
  predicate Blocked(b: Buffer) { b.sealed || b.index != 0 || b.adding != 0 }

  /** Call `t`, about to rotate, has every reason not to: buffer `a` is active, all slots of
      its generation are claimed, and the buffer after it is blocked. */
  ghost predicate NoRoom(c: Config, s: State, t: Ticket, a: nat) {
    && Shape(c, s) && t in s.calls && s.calls[t].pc.Rotate? && s.calls[t].pc.a == a
    && s.active == a && |s.h.log[A(s)]| >= c.Q && Blocked(s.bufs[Next(c, a)])
  }

  /** The call is on its way out of buffer `a`, and has not rotated it. */
  predicate Ending(p: Pc, a: nat) {
    (p.Rotate? && p.a == a) || (p.Leave? && p.a == a && !p.rotated) || (p.Recheck? && p.a == a)
  }

  /** It found no room in a state of the run since it came to buffer `a` last. */
  ghost predicate FoundNoRoom(c: Config, run: seq<State>, i: nat, t: Ticket, a: nat)
    requires i < |run|
  {
    exists j :: 0 <= j <= i && NoRoom(c, run[j], t, a) && StaysEnding(run, j, i, t, a)
  }

  ghost predicate StaysEnding(run: seq<State>, j: nat, i: nat, t: Ticket, a: nat)
    requires i < |run|
  {
    forall k :: j <= k <= i ==> t in run[k].calls && Ending(run[k].calls[t].pc, a)
  }

  /** The slot a call has drawn is one of its generation, and it rotates for the last slot
      or none. */
  ghost predicate Drew(c: Config, s: State, t: Ticket)
    requires t in s.calls
  {
    var call := s.calls[t];
    && (call.pc.Rotate? || call.pc.Leave? ==> call.gen < |s.h.log| && call.pc.slot < |s.h.log[call.gen]|)
    && (call.pc.Rotate? ==> call.pc.slot >= c.Q - 1)
  }

  ghost predicate Justified(c: Config, run: seq<State>, i: nat, t: Ticket)
    requires i < |run| && t in run[i].calls
  {
    var s, call := run[i], run[i].calls[t];
    match call.pc
    case Rotate(a, slot, r) => r == RConfirm ==> A(s) > call.gen || FoundNoRoom(c, run, i, t, a)
    case Leave(a, slot, rotated) =>
      if rotated then A(s) > call.gen else slot >= c.Q - 1 ==> FoundNoRoom(c, run, i, t, a)
    case Recheck(a) => FoundNoRoom(c, run, i, t, a)
    case _ => true
  }

  // ------------------------------------------------------- one step of the call

  /** Before it has drawn a slot, a step brings a call nowhere near its end. */
  lemma StepsIn(c: Config, s: State, t: Ticket)
    requires Shape(c, s) && t in s.calls
    requires var p := s.calls[t].pc; !p.Claim? && !p.Store? && !p.Rotate? && !p.Leave? && !p.Recheck?
    ensures var s' := CallStep(c, s, t);
      && t in s'.calls && var q := s'.calls[t].pc;
      && !q.Rotate? && !q.Leave? && !q.Recheck? && !q.Drop?
      && (q == Returned(false) ==> s.calls[t].pc.Drop? || s.calls[t].pc == q)
  {
    hide *;
    if s.calls[t].pc.LoadActive? || s.calls[t].pc.LoadSealed? || s.calls[t].pc.Enter? || s.calls[t].pc.CheckActive? {
      StepsEnter(c, s, t);
    } else {
      StepsBack(c, s, t);
    }
  }

  lemma StepsEnter(c: Config, s: State, t: Ticket)
    requires Shape(c, s) && t in s.calls
    requires var p := s.calls[t].pc; p.LoadActive? || p.LoadSealed? || p.Enter? || p.CheckActive?
    ensures var s' := CallStep(c, s, t);
      && t in s'.calls && var q := s'.calls[t].pc;
      && !q.Rotate? && !q.Leave? && !q.Recheck? && !q.Drop?
      && !q.Returned?
  {
    hide RotateStep, ClaimStep;
  }

  lemma StepsBack(c: Config, s: State, t: Ticket)
    requires Shape(c, s) && t in s.calls
    requires var p := s.calls[t].pc; p.CheckSealed? || p.BackOut? || p.Drop? || p.Returned?
    ensures var s' := CallStep(c, s, t);
      && t in s'.calls && var q := s'.calls[t].pc;
      && !q.Rotate? && !q.Leave? && !q.Recheck? && !q.Drop?
      && (q == Returned(false) ==> s.calls[t].pc.Drop? || s.calls[t].pc == q)
  {
    hide RotateStep, ClaimStep;
  }

  lemma StepsClaim(c: Config, s: State, t: Ticket)
    requires Inv(c, s) && t in s.calls && s.calls[t].pc.Claim?
    ensures var s' := CallStep(c, s, t);
      && t in s'.calls && var call := s'.calls[t];
      && (call.pc.Store? || (call.pc.Rotate? && call.pc.r == RSealed)) && (call.pc.Rotate? ==> call.pc.slot >= c.Q - 1)
      && call.gen < |s'.h.log| && call.pc.slot < |s'.h.log[call.gen]|
  {
    assert CallOk(c, s, t);
    assert BufOk(c, s, s.calls[t].pc.a);
    hide Written, Holders, Sealing, LogOk, FlushOk, RotateStep;
  }

  lemma StepsStore(c: Config, s: State, t: Ticket)
    requires Shape(c, s) && t in s.calls && s.calls[t].pc.Store?
    ensures var s', p := CallStep(c, s, t), s.calls[t].pc;
      && s'.h == s.h && s'.active == s.active && t in s'.calls && s'.calls[t].gen == s.calls[t].gen
      && s'.calls[t].pc == if p.slot == c.Q - 1 then Rotate(p.a, p.slot, RSealed) else Leave(p.a, p.slot, false)
  {
    hide RotateStep, ClaimStep;
  }

  /** A turn of the rotation: one more look at the next buffer, which may be blocked; the
      swap; or the look at `active_idx` that decides whether somebody else has rotated. */
  lemma StepsRotate(c: Config, s: State, t: Ticket)
    requires Shape(c, s) && t in s.calls && s.calls[t].pc.Rotate?
    ensures var s', p := CallStep(c, s, t), s.calls[t].pc;
      && t in s'.calls && s'.calls[t].gen == s.calls[t].gen
      && var q := s'.calls[t].pc;
      && ((q.Rotate? && q.a == p.a && q.slot == p.slot) || (q.Leave? && q.a == p.a && q.slot == p.slot))
      && (q.Rotate? && q.r == RConfirm ==> Blocked(s.bufs[Next(c, p.a)]) || s.active != p.a)
      && (q.Leave? && q.rotated ==> s.active != p.a || A(s') > A(s))
      && (q.Leave? && !q.rotated ==> p.r == RConfirm && s.active == p.a)
      && A(s') >= A(s) && (forall g :: 0 <= g < |s.h.log| ==> s'.h.log[g] == s.h.log[g])
  {
    hide ClaimStep;
  }

  lemma StepsLeave(c: Config, s: State, t: Ticket)
    requires Shape(c, s) && t in s.calls && s.calls[t].pc.Leave?
    ensures var s', p := CallStep(c, s, t), s.calls[t].pc;
      && s'.h == s.h && t in s'.calls && s'.calls[t].gen == s.calls[t].gen
      && s'.calls[t].pc == if p.slot < c.Q then Returned(true) else if p.rotated then LoadActive else Recheck(p.a)
  {
    hide RotateStep, ClaimStep;
  }

  lemma StepsRecheck(c: Config, s: State, t: Ticket)
    requires Shape(c, s) && t in s.calls && s.calls[t].pc.Recheck?
    ensures var s' := CallStep(c, s, t);
      && s'.h == s.h && t in s'.calls && s'.calls[t].gen == s.calls[t].gen
      && s'.calls[t].pc == if s.active != s.calls[t].pc.a then LoadActive else Drop
  {
    hide RotateStep, ClaimStep;
  }

  lemma DrawsSlot(c: Config, s: State, t: Ticket)
    requires Inv(c, s) && t in s.calls && Drew(c, s, t)
    ensures t in CallStep(c, s, t).calls && Drew(c, CallStep(c, s, t), t)
  {
    hide CallStep, Inv, Shape;
    var p := s.calls[t].pc;
    BatcherRingReach.InvShape(c, s);
    if p.Claim? { StepsClaim(c, s, t); }
    else if p.Store? { StoreDrew(c, s, t); StepsStore(c, s, t); }
    else if p.Rotate? { StepsRotate(c, s, t); }
    else if p.Leave? { StepsLeave(c, s, t); }
    else if p.Recheck? { StepsRecheck(c, s, t); }
    else { StepsIn(c, s, t); }
  }

  lemma StoreDrew(c: Config, s: State, t: Ticket)
    requires Inv(c, s) && t in s.calls && s.calls[t].pc.Store?
    ensures s.calls[t].gen < |s.h.log| && s.calls[t].pc.slot < |s.h.log[s.calls[t].gen]|
  {
    assert CallOk(c, s, t);
    hide BufOk, LogOk, FlushOk, Ring;
  }

  /** While a call is bound to the active buffer, its generation is the active one. */
  lemma BoundToActive(c: Config, s: State, t: Ticket)
    requires Inv(c, s) && t in s.calls && s.calls[t].pc.Rotate?
    ensures s.calls[t].gen <= A(s) && (s.active == s.calls[t].pc.a <==> s.calls[t].gen == A(s))
  {
    assert CallOk(c, s, t);
    hide BufOk, LogOk, FlushOk, PlaceOk;
  }

  // ------------------------------------------------------- whole runs

  lemma {:induction false} AllJustified(c: Config, run: seq<State>, acts: seq<Action>, i: nat, t: Ticket)
    requires Run(c, run, acts) && i < |run| && t in run[i].calls
    ensures Drew(c, run[i], t) && Justified(c, run, i, t)
    decreases i
  {
    hide *;
    if i == 0 {
      NoCallsYet(c, run, acts, t);
    } else {
      RunInv(c, run, acts, i - 1);
      RunInv(c, run, acts, i);
      RunStep(c, run, acts, i - 1);
      StepGrows(c, run[i - 1], run[i], acts[i - 1]);
      if t !in run[i - 1].calls {
        CallBegins(c, run[i - 1], run[i], acts[i - 1], t);
        BeginsJustified(c, run, i, t);
      } else {
        AllJustified(c, run, acts, i - 1, t);
        StepJustified(c, run, acts[i - 1], i, t);
      }
    }
  }

  lemma NoCallsYet(c: Config, run: seq<State>, acts: seq<Action>, t: Ticket)
    requires Run(c, run, acts)
    ensures |run| > 0 && t !in run[0].calls
  {
    hide Step;
  }

  lemma StepJustified(c: Config, run: seq<State>, act: Action, i: nat, t: Ticket)
    requires 0 < i < |run| && t in run[i - 1].calls && t in run[i].calls
    requires Drew(c, run[i - 1], t) && Justified(c, run, i - 1, t)
    requires Grows(run[i - 1], run[i]) && Inv(c, run[i - 1]) && Step(c, run[i - 1], run[i], act)
    ensures Drew(c, run[i], t) && Justified(c, run, i, t)
  {
    hide *;
    if act == Produce(t) {
      ProduceIs(c, run[i - 1], run[i], t);
      DrawsSlot(c, run[i - 1], t);
      OwnJustified(c, run, i, t);
    } else {
      OthersKeep(c, run[i - 1], run[i], act, t);
      StillJustified(c, run, i, t);
    }
  }

  lemma ProduceIs(c: Config, s: State, s': State, t: Ticket)
    requires Step(c, s, s', Produce(t))
    ensures Shape(c, s) && t in s.calls && s' == CallStep(c, s, t)
  {
    hide Shape, CallStep;
  }

  lemma CallBegins(c: Config, s: State, s': State, act: Action, t: Ticket)
    requires Inv(c, s) && Step(c, s, s', act) && t !in s.calls && t in s'.calls
    ensures s'.calls[t].pc == LoadActive
  {
    hide Inv, CallStep, FlushStep;
    match act
    case Begin(_) =>
    case Produce(u) => assert Inv(c, s); CallOnlyOwn(c, s, u, t);
    case BeginFlush(_, _) =>
    case Flush(f, g) => FlushKeepsCalls(c, s, f, g);
  }

  lemma CallOnlyOwn(c: Config, s: State, u: Ticket, t: Ticket)
    requires Shape(c, s) && u in s.calls && u != t
    ensures t in CallStep(c, s, u).calls <==> t in s.calls
    ensures t in s.calls ==> CallStep(c, s, u).calls[t] == s.calls[t]
  {
    if s.calls[u].pc.Rotate? { RotateKeepsAll(c, s, s.calls[u].pc.a, s.calls[u].pc.r); }
    hide RotateStep;
  }

  lemma RotateKeepsAll(c: Config, s: State, a: nat, r: Rot)
    requires c.B > 0 && a < c.B && |s.bufs| == c.B
    ensures RotateStep(c, s, a, r).0.calls == s.calls
  {
  }

  lemma FlushKeepsCalls(c: Config, s: State, f: nat, g: bool)
    requires Shape(c, s) && f in s.flushers
    ensures FlushStep(c, s, f, g).calls == s.calls
  {
    FlushGrows(c, s, f, g);
    hide FlushStep;
  }

  lemma OthersKeep(c: Config, s: State, s': State, act: Action, t: Ticket)
    requires Inv(c, s) && Step(c, s, s', act) && t in s.calls && act != Produce(t)
    ensures t in s'.calls && s'.calls[t] == s.calls[t]
  {
    hide Inv, CallStep, FlushStep;
    match act
    case Begin(_) =>
    case Produce(u) => CallOnlyOwn(c, s, u, t);
    case BeginFlush(_, _) =>
    case Flush(f, g) => FlushKeepsCalls(c, s, f, g);
  }

  lemma BeginsJustified(c: Config, run: seq<State>, i: nat, t: Ticket)
    requires i < |run| && t in run[i].calls && run[i].calls[t].pc == LoadActive
    ensures Drew(c, run[i], t) && Justified(c, run, i, t)
  {
  }

  /** What was found stays found, while the call is on its way out. */
  lemma FoundLater(c: Config, run: seq<State>, i: nat, t: Ticket, a: nat)
    requires 0 < i < |run| && FoundNoRoom(c, run, i - 1, t, a)
    requires t in run[i].calls && Ending(run[i].calls[t].pc, a)
    ensures FoundNoRoom(c, run, i, t, a)
  {
    hide NoRoom, Ending;
    var j :| 0 <= j <= i - 1 && NoRoom(c, run[j], t, a) && StaysEnding(run, j, i - 1, t, a);
    assert StaysEnding(run, j, i, t, a);
  }

  lemma StillJustified(c: Config, run: seq<State>, i: nat, t: Ticket)
    requires 0 < i < |run| && t in run[i - 1].calls && t in run[i].calls && run[i].calls[t] == run[i - 1].calls[t]
    requires Grows(run[i - 1], run[i]) && Drew(c, run[i - 1], t) && Justified(c, run, i - 1, t)
    ensures Drew(c, run[i], t) && Justified(c, run, i, t)
  {
    var p := run[i].calls[t].pc;
    if (p.Rotate? || p.Leave? || p.Recheck?) && FoundNoRoom(c, run, i - 1, t, p.a) && Ending(p, p.a) {
      FoundLater(c, run, i, t, p.a);
    }
    hide FoundNoRoom;
  }

  lemma OwnJustified(c: Config, run: seq<State>, i: nat, t: Ticket)
    requires 0 < i < |run| && t in run[i - 1].calls && t in run[i].calls
    requires Drew(c, run[i - 1], t) && Justified(c, run, i - 1, t)
    requires Shape(c, run[i - 1]) && run[i] == CallStep(c, run[i - 1], t) && Inv(c, run[i - 1])
    ensures Justified(c, run, i, t)
  {
    var s := run[i - 1];
    var p := s.calls[t].pc;
    hide Inv, CallStep, FoundNoRoom;
    if p.Claim? { StepsClaim(c, s, t); }
    else if p.Store? { StepsStore(c, s, t); }
    else if p.Rotate? { RotateJustified(c, run, i, t); }
    else if p.Leave? {
      StepsLeave(c, s, t);
      if run[i].calls[t].pc.Recheck? { FoundLater(c, run, i, t, p.a); }
    }
    else if p.Recheck? { StepsRecheck(c, s, t); }
    else { StepsIn(c, s, t); }
  }

  lemma RotateJustified(c: Config, run: seq<State>, i: nat, t: Ticket)
    requires 0 < i < |run| && t in run[i - 1].calls && t in run[i].calls
    requires Drew(c, run[i - 1], t) && Justified(c, run, i - 1, t)
    requires Shape(c, run[i - 1]) && run[i] == CallStep(c, run[i - 1], t) && Inv(c, run[i - 1])
    requires run[i - 1].calls[t].pc.Rotate?
    ensures Justified(c, run, i, t)
  {
    hide *;
    var s, p := run[i - 1], run[i - 1].calls[t].pc;
    BatcherRingReach.InvShape(c, s);
    StepsRotate(c, s, t);
    BoundToActive(c, s, t);
    if run[i].calls[t].pc.Rotate? && run[i].calls[t].pc.r == RConfirm && s.active == p.a {
      NoRoomHere(c, s, t);
      EndingIs(run[i].calls[t].pc);
      FindsNoRoom(c, run, i, t, p.a);
    } else if run[i].calls[t].pc.Leave? && !run[i].calls[t].pc.rotated {
      ConfirmFound(c, run, i - 1, t);
      EndingIs(run[i].calls[t].pc);
      FoundLater(c, run, i, t, p.a);
    }
    RotatedJustified(c, run, i, t);
  }

  lemma EndingIs(p: Pc)
    requires p.Rotate? || (p.Leave? && !p.rotated) || p.Recheck?
    ensures Ending(p, p.a)
  {
  }

  lemma ConfirmFound(c: Config, run: seq<State>, i: nat, t: Ticket)
    requires i < |run| && t in run[i].calls && Justified(c, run, i, t)
    requires run[i].calls[t].pc.Rotate? && run[i].calls[t].pc.r == RConfirm && A(run[i]) == run[i].calls[t].gen
    ensures FoundNoRoom(c, run, i, t, run[i].calls[t].pc.a)
  {
    hide FoundNoRoom;
  }

  lemma NoRoomHere(c: Config, s: State, t: Ticket)
    requires Shape(c, s) && t in s.calls && s.calls[t].pc.Rotate? && Drew(c, s, t)
    requires s.active == s.calls[t].pc.a && s.calls[t].gen == A(s) && Blocked(s.bufs[Next(c, s.active)])
    ensures NoRoom(c, s, t, s.active)
  {
    hide Blocked, Next;
  }

  lemma FindsNoRoom(c: Config, run: seq<State>, i: nat, t: Ticket, a: nat)
    requires 0 < i < |run| && NoRoom(c, run[i - 1], t, a)
    requires t in run[i].calls && Ending(run[i].calls[t].pc, a)
    ensures FoundNoRoom(c, run, i, t, a)
  {
    hide Blocked, Next, Shape;
    assert StaysEnding(run, i - 1, i, t, a);
  }

  lemma RotatedJustified(c: Config, run: seq<State>, i: nat, t: Ticket)
    requires i < |run| && t in run[i].calls
    requires var q := run[i].calls[t].pc; q.Rotate? || q.Leave?
    requires var call, q := run[i].calls[t], run[i].calls[t].pc;
      && (q.Rotate? && q.r == RConfirm ==> A(run[i]) > call.gen || FoundNoRoom(c, run, i, t, q.a))
      && (q.Leave? && q.rotated ==> A(run[i]) > call.gen)
      && (q.Leave? && !q.rotated ==> FoundNoRoom(c, run, i, t, q.a))
    ensures Justified(c, run, i, t)
  {
    hide FoundNoRoom;
  }

  // ------------------------------------------------------- the theorems

  /** A step that decides to refuse is the call's own. */
  lemma OwnDecision(c: Config, s: State, s': State, act: Action, t: Ticket)
    requires Inv(c, s) && Step(c, s, s', act) && t in s.calls && t in s'.calls && s'.calls[t].pc != s.calls[t].pc
    ensures act == Produce(t) && Shape(c, s) && s' == CallStep(c, s, t)
  {
    hide *;
    if act != Produce(t) { OthersKeep(c, s, s', act, t); }
    ProduceIs(c, s, s', t);
  }

  lemma OnlyRecheckDrops(c: Config, s: State, t: Ticket)
    requires Inv(c, s) && Shape(c, s) && t in s.calls && t in CallStep(c, s, t).calls
    requires CallStep(c, s, t).calls[t].pc.Drop?
    ensures s.calls[t].pc.Recheck? && s.active == s.calls[t].pc.a
  {
    hide *;
    var p := s.calls[t].pc;
    if p.Claim? { StepsClaim(c, s, t); }
    else if p.Store? { StepsStore(c, s, t); }
    else if p.Rotate? { StepsRotate(c, s, t); }
    else if p.Leave? { StepsLeave(c, s, t); }
    else if p.Recheck? { StepsRecheck(c, s, t); }
    else { StepsIn(c, s, t); }
  }

  /** Refused at step `i`: the call had seen buffer `a` active and full with the next buffer
      blocked, has not rotated since, and `a` is the active buffer again or still. */
  ghost predicate RefusedAt(c: Config, run: seq<State>, i: nat, t: Ticket, a: nat) {
    && i + 1 < |run| && t in run[i].calls && t in run[i + 1].calls
    && !run[i].calls[t].pc.Drop? && run[i + 1].calls[t].pc.Drop?
    && run[i].active == a && FoundNoRoom(c, run, i, t, a)
  }

  lemma DropNeedsNoRoom(c: Config, run: seq<State>, acts: seq<Action>, i: nat, t: Ticket)
    requires Run(c, run, acts) && i + 1 < |run| && t in run[i].calls && t in run[i + 1].calls
    requires !run[i].calls[t].pc.Drop? && run[i + 1].calls[t].pc.Drop?
    ensures RefusedAt(c, run, i, t, run[i].active)
  {
    hide *;
    RunInv(c, run, acts, i);
    RunStep(c, run, acts, i);
    OwnDecision(c, run[i], run[i + 1], acts[i], t);
    OnlyRecheckDrops(c, run[i], t);
    AllJustified(c, run, acts, i, t);
    RecheckIs(c, run, i, t);
  }

  lemma RecheckIs(c: Config, run: seq<State>, i: nat, t: Ticket)
    requires i + 1 < |run| && t in run[i].calls && t in run[i + 1].calls && run[i].calls[t].pc.Recheck?
    requires Justified(c, run, i, t) && run[i + 1].calls[t].pc.Drop? && run[i].active == run[i].calls[t].pc.a
    ensures RefusedAt(c, run, i, t, run[i].active)
  {
    hide FoundNoRoom;
  }

  /** Over every run, a call that is refused was refused for want of room. */
  lemma {:induction false} RefusedForWantOfRoom(c: Config, run: seq<State>, acts: seq<Action>, i: nat, t: Ticket)
    requires Run(c, run, acts) && i < |run| && t in run[i].calls
    requires run[i].calls[t].pc == Drop || run[i].calls[t].pc == Returned(false)
    ensures exists j, a :: 0 <= j < i && RefusedAt(c, run, j, t, a)
    decreases i
  {
    hide *;
    if i == 0 {
      NoCallsYet(c, run, acts, t);
    } else {
      RunInv(c, run, acts, i - 1);
      RunStep(c, run, acts, i - 1);
      RefusalContinues(c, run[i - 1], run[i], acts[i - 1], t);
      if run[i - 1].calls[t].pc == Drop || run[i - 1].calls[t].pc == Returned(false) {
        RefusedForWantOfRoom(c, run, acts, i - 1, t);
      } else {
        DropNeedsNoRoom(c, run, acts, i - 1, t);
      }
    }
  }

  lemma RefusalContinues(c: Config, s: State, s': State, act: Action, t: Ticket)
    requires Inv(c, s) && Step(c, s, s', act) && t in s'.calls
    requires s'.calls[t].pc == Drop || s'.calls[t].pc == Returned(false)
    ensures t in s.calls && (s.calls[t].pc == Drop || s.calls[t].pc == Returned(false) || s'.calls[t].pc == Drop)
  {
    hide *;
    if t !in s.calls {
      CallBegins(c, s, s', act, t);
    } else if s.calls[t].pc != s'.calls[t].pc && s'.calls[t].pc != Drop {
      OwnDecision(c, s, s', act, t);
      ReturnsFalse(c, s, t);
    }
  }

  lemma ReturnsFalse(c: Config, s: State, t: Ticket)
    requires Inv(c, s) && Shape(c, s) && t in s.calls && t in CallStep(c, s, t).calls
    requires CallStep(c, s, t).calls[t].pc == Returned(false)
    ensures s.calls[t].pc == Drop || s.calls[t].pc == Returned(false)
  {
    hide *;
    var p := s.calls[t].pc;
    if p.Claim? { StepsClaim(c, s, t); }
    else if p.Store? { StepsStore(c, s, t); }
    else if p.Rotate? { StepsRotate(c, s, t); }
    else if p.Leave? { StepsLeave(c, s, t); }
    else if p.Recheck? { StepsRecheck(c, s, t); }
    else { StepsIn(c, s, t); }
  }

  /** A call that took the last slot of a buffer leaves it rotated, or found no room to. */
  lemma LastSlotRotates(c: Config, run: seq<State>, acts: seq<Action>, i: nat, t: Ticket)
    requires Run(c, run, acts) && i < |run| && t in run[i].calls
    requires run[i].calls[t].pc.Leave? && run[i].calls[t].pc.slot >= c.Q - 1
    ensures A(run[i]) > run[i].calls[t].gen || FoundNoRoom(c, run, i, t, run[i].calls[t].pc.a)
  {
    AllJustified(c, run, acts, i, t);
    hide FoundNoRoom, Run;
  }

  // ------------------------------------------------------- trying again

  lemma ActiveFixed(c: Config, s: State, s': State, act: Action)
    requires Shape(c, s) && Step(c, s, s', act)
    ensures A(s') >= A(s) && (A(s') == A(s) ==> s'.active == s.active)
  {
    match act
    case Begin(_) => hide Shape;
    case Produce(t) => CallActive(c, s, t); hide CallStep, Shape;
    case BeginFlush(_, _) => hide Shape;
    case Flush(f, g) => FlushActive(c, s, f, g); hide FlushStep, Shape;
  }

  lemma CallActive(c: Config, s: State, t: Ticket)
    requires Shape(c, s) && t in s.calls
    ensures var s' := CallStep(c, s, t); A(s') >= A(s) && (A(s') == A(s) ==> s'.active == s.active)
  {
    if s.calls[t].pc.Rotate? { RotateActive(c, s, s.calls[t].pc.a, s.calls[t].pc.r); }
    hide RotateStep;
  }

  lemma FlushActive(c: Config, s: State, f: nat, g: bool)
    requires Shape(c, s) && f in s.flushers
    ensures var s' := FlushStep(c, s, f, g); A(s') >= A(s) && (A(s') == A(s) ==> s'.active == s.active)
  {
    if s.flushers[f].Rotating? { RotateActive(c, s, s.flushers[f].from, s.flushers[f].r); }
    hide RotateStep;
  }

  lemma RotateActive(c: Config, s: State, a: nat, r: Rot)
    requires c.B > 0 && a < c.B && |s.bufs| == c.B
    ensures var s' := RotateStep(c, s, a, r).0; A(s') >= A(s) && (A(s') == A(s) ==> s'.active == s.active)
  {
  }

  /** The buffer a call came from is the active one, or its generation is over. */
  ghost predicate Behind(s: State, t: Ticket)
    requires t in s.calls
  {
    var call := s.calls[t];
    (call.pc.Rotate? || call.pc.Leave? || call.pc.Recheck?) && s.active != call.pc.a ==> A(s) > call.gen
  }

  lemma {:induction false} AllBehind(c: Config, run: seq<State>, acts: seq<Action>, i: nat, t: Ticket)
    requires Run(c, run, acts) && i < |run| && t in run[i].calls
    ensures Behind(run[i], t)
    decreases i
  {
    hide *;
    RunInv(c, run, acts, i);
    if !run[i].calls[t].pc.Recheck? {
      BoundBehind(c, run[i], t);
    } else if i == 0 {
      NoCallsYet(c, run, acts, t);
    } else {
      RunInv(c, run, acts, i - 1);
      RunStep(c, run, acts, i - 1);
      if t !in run[i - 1].calls {
        CallBegins(c, run[i - 1], run[i], acts[i - 1], t);
      } else {
        AllBehind(c, run, acts, i - 1, t);
        StaysBehind(c, run[i - 1], run[i], acts[i - 1], t);
      }
    }
  }

  lemma BoundBehind(c: Config, s: State, t: Ticket)
    requires Inv(c, s) && t in s.calls && !s.calls[t].pc.Recheck?
    ensures Behind(s, t)
  {
    assert CallOk(c, s, t);
    hide BufOk, LogOk, FlushOk, PlaceOk;
  }

  lemma StaysBehind(c: Config, s: State, s': State, act: Action, t: Ticket)
    requires Inv(c, s) && Step(c, s, s', act) && t in s.calls && t in s'.calls
    requires Behind(s, t) && s'.calls[t].pc.Recheck?
    ensures Behind(s', t)
  {
    hide *;
    BatcherRingReach.InvShape(c, s);
    ActiveFixed(c, s, s', act);
    ToRecheck(c, s, s', act, t);
    BehindKept(c, s, s', t);
  }

  lemma ToRecheck(c: Config, s: State, s': State, act: Action, t: Ticket)
    requires Inv(c, s) && Step(c, s, s', act) && t in s.calls && t in s'.calls && s'.calls[t].pc.Recheck?
    ensures s'.calls[t].gen == s.calls[t].gen
    ensures var p := s.calls[t].pc; (p.Rotate? || p.Leave? || p.Recheck?) && p.a == s'.calls[t].pc.a
  {
    hide *;
    if act == Produce(t) {
      ProduceIs(c, s, s', t);
      ComesToRecheck(c, s, t);
    } else {
      OthersKeep(c, s, s', act, t);
    }
  }

  lemma ComesToRecheck(c: Config, s: State, t: Ticket)
    requires Inv(c, s) && Shape(c, s) && t in s.calls && t in CallStep(c, s, t).calls
    requires CallStep(c, s, t).calls[t].pc.Recheck?
    ensures s.calls[t].pc.Leave? && s.calls[t].pc.a == CallStep(c, s, t).calls[t].pc.a
    ensures CallStep(c, s, t).calls[t].gen == s.calls[t].gen
  {
    hide *;
    var p := s.calls[t].pc;
    if p.Claim? { StepsClaim(c, s, t); }
    else if p.Store? { StepsStore(c, s, t); }
    else if p.Rotate? { StepsRotate(c, s, t); }
    else if p.Leave? { StepsLeave(c, s, t); }
    else if p.Recheck? { StepsRecheck(c, s, t); }
    else { StepsIn(c, s, t); }
  }

  lemma BehindKept(c: Config, s: State, s': State, t: Ticket)
    requires Shape(c, s) && t in s.calls && t in s'.calls && Behind(s, t)
    requires A(s') >= A(s) && (A(s') == A(s) ==> s'.active == s.active)
    requires s'.calls[t].gen == s.calls[t].gen && s'.calls[t].pc.Recheck?
    requires var p := s.calls[t].pc; (p.Rotate? || p.Leave? || p.Recheck?) && p.a == s'.calls[t].pc.a
    ensures Behind(s', t)
  {
  }

  /** A call on its way out tries again only when its generation is over: every retry is
      paid for by a rotation since the call came to its buffer. */
  lemma RetriesForRoom(c: Config, run: seq<State>, acts: seq<Action>, i: nat, t: Ticket)
    requires Run(c, run, acts) && i + 1 < |run| && t in run[i].calls && t in run[i + 1].calls
    requires run[i].calls[t].pc.Leave? || run[i].calls[t].pc.Recheck?
    requires run[i + 1].calls[t].pc == LoadActive
    ensures A(run[i]) > run[i].calls[t].gen
  {
    hide *;
    RunInv(c, run, acts, i);
    RunStep(c, run, acts, i);
    OwnDecision(c, run[i], run[i + 1], acts[i], t);
    AllJustified(c, run, acts, i, t);
    AllBehind(c, run, acts, i, t);
    if run[i].calls[t].pc.Leave? { StepsLeave(c, run[i], t); } else { StepsRecheck(c, run[i], t); }
    RetryIs(c, run, i, t);
  }

  lemma RetryIs(c: Config, run: seq<State>, i: nat, t: Ticket)
    requires i < |run| && t in run[i].calls && Justified(c, run, i, t) && Behind(run[i], t)
    requires var p := run[i].calls[t].pc; (p.Leave? && p.rotated) || (p.Recheck? && run[i].active != p.a)
    ensures A(run[i]) > run[i].calls[t].gen
  {
    hide FoundNoRoom;
  }
}
