/** A run in which a flush returns true and leaves an accepted item behind. */
module BatcherRingShort {
  import opened Wrappers
  import opened BatcherRing
  import opened BatcherRingInv
  import opened BatcherRingFlush
  import opened BatcherRingTheorems
  import opened BatcherRingReach

  /** Two buffers of one slot. */
  const C := Config(2, 1)

  // ------------------------------------------------------- runs through two states

  ghost predicate Via(s: State, s': State) {
    exists run, acts, i :: Run(C, run, acts) && 0 <= i < |run| && run[i] == s && run[|run| - 1] == s'
  }

  ghost predicate Reach(s: State) { exists s0 :: Via(s0, s) }

  lemma ViaShape(s: State, s': State)
    requires Via(s, s')
    ensures Shape(C, s')
  {
    hide Run;
    var run, acts, i :| Run(C, run, acts) && 0 <= i < |run| && run[i] == s && run[|run| - 1] == s';
    RunInv(C, run, acts, |run| - 1);
    InvShape(C, s');
  }

  lemma ViaSelf(s: State)
    requires Reach(s)
    ensures Via(s, s)
  {
    hide Run;
    var s0 :| Via(s0, s);
    var run, acts, i :| Run(C, run, acts) && 0 <= i < |run| && run[i] == s0 && run[|run| - 1] == s;
    assert run[|run| - 1] == s;
  }

  lemma Then(s: State, s1: State, s2: State, act: Action)
    requires Via(s, s1) && Step(C, s1, s2, act)
    ensures Via(s, s2)
  {
    hide Step, Init;
    var run, acts, i :| Run(C, run, acts) && 0 <= i < |run| && run[i] == s && run[|run| - 1] == s1;
    var run', acts' := run + [s2], acts + [act];
    assert forall k :: 0 <= k < |acts'| ==> Step(C, run'[k], run'[k + 1], acts'[k]);
    assert Run(C, run', acts') && run'[i] == s && run'[|run'| - 1] == s2;
  }

  /** One more step of call `t`, or of flush `f`. */
  lemma Calls(s: State, s1: State, s2: State, t: Ticket)
    requires Via(s, s1) && t in s1.calls
    requires Shape(C, s1) ==> s2 == CallStep(C, s1, t)
    ensures Via(s, s2)
  {
    ViaShape(s, s1);
    hide *;
    CallIsStep(s1, s2, t);
    Then(s, s1, s2, Produce(t));
  }

  lemma CallIsStep(s1: State, s2: State, t: Ticket)
    requires Shape(C, s1) && t in s1.calls && s2 == CallStep(C, s1, t)
    ensures Step(C, s1, s2, Produce(t))
  {
    hide CallStep;
  }

  lemma Flushes(s: State, s1: State, s2: State, f: nat)
    requires Via(s, s1) && f in s1.flushers
    requires Shape(C, s1) ==> s2 == FlushStep(C, s1, f, false)
    ensures Via(s, s2)
  {
    ViaShape(s, s1);
    hide *;
    FlushStepIs(s1, s2, f);
    Then(s, s1, s2, Flush(f, false));
  }

  lemma FlushStepIs(s1: State, s2: State, f: nat)
    requires Shape(C, s1) && f in s1.flushers && s2 == FlushStep(C, s1, f, false)
    ensures Step(C, s1, s2, Flush(f, false))
  {
    hide FlushStep;
  }

  // ------------------------------------------------------- steps of a call

  lemma Begins(s0: State, s: State, t: Ticket)
    requires Via(s0, s) && t !in s.calls && |s.h.log| > 0
    ensures Via(s0, BeginCall(s, t))
  {
    ViaShape(s0, s);
    Then(s0, s, BeginCall(s, t), Begin(t));
    hide Via, Shape;
  }

  lemma Loads(s0: State, s: State, t: Ticket)
    requires Via(s0, s) && t in s.calls && s.calls[t].pc == LoadActive
    ensures Via(s0, SetCall(s, t, LoadSealed(s.active)))
  {
    hide Via, Shape, RotateStep;
    Calls(s0, s, SetCall(s, t, LoadSealed(s.active)), t);
  }

  lemma FindsOpen(s0: State, s: State, t: Ticket, a: nat)
    requires Via(s0, s) && t in s.calls && s.calls[t].pc == LoadSealed(a) && a < |s.bufs| && !s.bufs[a].sealed
    ensures Via(s0, SetCall(s, t, Enter(a)))
  {
    hide Via, Shape, RotateStep;
    Calls(s0, s, SetCall(s, t, Enter(a)), t);
  }

  function Entered(s: State, t: Ticket, a: nat): State
    requires t in s.calls && a < |s.bufs|
  {
    SetCall(SetBuf(s, a, AddTo(s.bufs[a], 1)), t, CheckActive(a))
  }

  lemma Enters(s0: State, s: State, t: Ticket, a: nat)
    requires Via(s0, s) && t in s.calls && s.calls[t].pc == Enter(a) && a < |s.bufs|
    ensures Via(s0, Entered(s, t, a))
  {
    hide Via, Shape, RotateStep;
    Calls(s0, s, Entered(s, t, a), t);
  }

  function Checked(s: State, t: Ticket, p: Pc): State
    requires t in s.calls && |s.h.log| > 0
  {
    s.(calls := s.calls[t := s.calls[t].(pc := p, gen := |s.h.log| - 1)])
  }

  lemma Checks(s0: State, s: State, t: Ticket)
    requires Via(s0, s) && t in s.calls && s.calls[t].pc == CheckActive(s.active) && |s.h.log| > 0
    ensures Via(s0, Checked(s, t, CheckSealed(s.active, true)))
  {
    hide Via, Shape, RotateStep;
    Calls(s0, s, Checked(s, t, CheckSealed(s.active, true)), t);
  }

  lemma Passes(s0: State, s: State, t: Ticket, a: nat)
    requires Via(s0, s) && t in s.calls && s.calls[t].pc == CheckSealed(a, true) && a < |s.bufs| && !s.bufs[a].sealed
    ensures Via(s0, SetCall(s, t, Claim(a)))
  {
    hide Via, Shape, RotateStep;
    Calls(s0, s, SetCall(s, t, Claim(a)), t);
  }

  lemma Claims(s0: State, s: State, t: Ticket, a: nat)
    requires Via(s0, s) && t in s.calls && s.calls[t].pc == Claim(a) && a < |s.bufs| && s.calls[t].gen < |s.h.log|
    ensures Via(s0, ClaimStep(C, s, t, a))
  {
    hide Via, Shape, RotateStep, ClaimStep;
    Calls(s0, s, ClaimStep(C, s, t, a), t);
  }

  function Stored(s: State, t: Ticket, a: nat): State
    requires t in s.calls && a < |s.bufs| && |s.bufs[a].items| == 1
  {
    SetCall(SetBuf(s, a, s.bufs[a].(items := s.bufs[a].items[0 := t])), t, Rotate(a, 0, RSealed))
  }

  lemma Stores(s0: State, s: State, t: Ticket, a: nat)
    requires Via(s0, s) && t in s.calls && s.calls[t].pc == Store(a, 0) && a < |s.bufs| && |s.bufs[a].items| == 1
    ensures Via(s0, Stored(s, t, a))
  {
    hide Via, Shape, RotateStep;
    Calls(s0, s, Stored(s, t, a), t);
  }

  // ------------------------------------------------------- an enqueue

  /** Call `t` has claimed and filled the one slot of the active buffer, and is to rotate. */
  function Filled(s: State, t: Ticket): State
    requires s.active < |s.bufs| && |s.h.log| > 0
  {
    var a, b, g := s.active, s.bufs[s.active], |s.h.log| - 1;
    s.(bufs := s.bufs[a := Buffer([t], 1, b.adding + 1, false)],
       calls := s.calls[t := Call(Rotate(a, 0, RSealed), Pos(g, |s.h.log[g]|), g, Some(Pos(g, 0)))],
       h := s.h.(log := s.h.log[g := s.h.log[g] + [t]]))
  }

  /** Call `t` at `p`, in the active buffer and with nothing claimed. */
  function Inside(s: State, t: Ticket, p: Pc): State
    requires s.active < |s.bufs| && |s.h.log| > 0
  {
    var g := |s.h.log| - 1;
    s.(bufs := s.bufs[s.active := AddTo(s.bufs[s.active], 1)],
       calls := s.calls[t := Call(p, Pos(g, |s.h.log[g]|), g, None)])
  }

  lemma Twice<K, V>(m: map<K, V>, k: K, x: V, y: V)
    ensures m[k := x][k := y] == m[k := y]
  {
  }

  lemma GoesInside(s0: State, s: State, t: Ticket)
    requires Via(s0, s) && t !in s.calls && s.active < |s.bufs| && |s.h.log| > 0 && !s.bufs[s.active].sealed
    ensures Via(s0, Inside(s, t, CheckActive(s.active)))
  {
    hide Via;
    var a := s.active;
    var s1 := BeginCall(s, t);
    Begins(s0, s, t);
    var s2 := SetCall(s1, t, LoadSealed(a));
    Loads(s0, s1, t);
    Twice(s.calls, t, s1.calls[t], s2.calls[t]);
    var s3 := SetCall(s2, t, Enter(a));
    FindsOpen(s0, s2, t, a);
    Twice(s.calls, t, s2.calls[t], s3.calls[t]);
    Enters(s0, s3, t, a);
    Twice(s.calls, t, s3.calls[t], Entered(s3, t, a).calls[t]);
  }

  lemma GoesClaiming(s0: State, s: State, t: Ticket)
    requires s.active < |s.bufs| && |s.h.log| > 0 && !s.bufs[s.active].sealed
    requires Via(s0, Inside(s, t, CheckActive(s.active)))
    ensures Via(s0, Inside(s, t, Claim(s.active)))
  {
    hide Via;
    var a := s.active;
    var s1 := Inside(s, t, CheckActive(a));
    Checks(s0, s1, t);
    var s2 := Checked(s1, t, CheckSealed(a, true));
    Twice(s.calls, t, s1.calls[t], s2.calls[t]);
    Passes(s0, s2, t, a);
    Twice(s.calls, t, s2.calls[t], SetCall(s2, t, Claim(a)).calls[t]);
  }

  lemma GoesStoring(s0: State, s: State, t: Ticket)
    requires s.active < |s.bufs| && |s.h.log| > 0 && Via(s0, Inside(s, t, Claim(s.active)))
    requires var b := s.bufs[s.active]; |b.items| == 1 && !b.sealed && b.index == 0
    ensures Via(s0, Filled(s, t))
  {
    hide Via;
    var a := s.active;
    var s1 := Inside(s, t, Claim(a));
    Claims(s0, s1, t, a);
    var s2 := ClaimStep(C, s1, t, a);
    Twice(s.calls, t, s1.calls[t], s2.calls[t]);
    Stores(s0, s2, t, a);
    Twice(s.calls, t, s2.calls[t], Stored(s2, t, a).calls[t]);
    assert s.bufs[a].items[0 := t] == [t];
    assert Stored(s2, t, a).bufs == Filled(s, t).bufs;
  }

  lemma Fills(s0: State, s: State, t: Ticket)
    requires Via(s0, s) && t !in s.calls && s.active < |s.bufs| && |s.h.log| > 0
    requires var b := s.bufs[s.active]; |b.items| == 1 && !b.sealed && b.index == 0
    ensures Via(s0, Filled(s, t))
  {
    hide *;
    GoesInside(s0, s, t);
    GoesClaiming(s0, s, t);
    GoesStoring(s0, s, t);
  }

  // ------------------------------------------------------- its rotation

  /** Call `t` of state `s`, which filled buffer `a`, has returned true. */
  function Done(s: State, t: Ticket, a: nat): State
    requires t in s.calls && a < |s.bufs|
  {
    SetCall(SetBuf(s, a, AddTo(s.bufs[a], -1)), t, Returned(true))
  }

  lemma Turns(s0: State, s: State, t: Ticket, a: nat, r: Rot)
    requires Via(s0, s) && t in s.calls && s.calls[t].pc == Rotate(a, 0, r) && a < 2 == |s.bufs|
    ensures
      var (s1, res) := RotateStep(C, s, a, r);
      t in s1.calls && Via(s0, SetCall(s1, t, if res.Goto? then Rotate(a, 0, res.r) else Leave(a, 0, res.rotated)))
  {
    RotateKeepsCalls(s, a, r);
    hide Via, Shape, RotateStep;
    var (s1, res) := RotateStep(C, s, a, r);
    Calls(s0, s, SetCall(s1, t, if res.Goto? then Rotate(a, 0, res.r) else Leave(a, 0, res.rotated)), t);
  }

  lemma RotateKeepsCalls(s: State, a: nat, r: Rot)
    requires a < 2 == |s.bufs|
    ensures RotateStep(C, s, a, r).0.calls == s.calls
  {
  }

  lemma Leaves(s0: State, s: State, t: Ticket, a: nat, rotated: bool)
    requires Via(s0, s) && t in s.calls && s.calls[t].pc == Leave(a, 0, rotated) && a < |s.bufs|
    ensures Via(s0, Done(s, t, a))
  {
    hide Via, Shape, RotateStep;
    Calls(s0, s, Done(s, t, a), t);
  }

  /** The other buffer is not free, so the call gives up rotating, and returns true. */
  lemma GivesUp(s0: State, s: State, t: Ticket)
    requires Via(s0, s) && t in s.calls && s.active < 2 == |s.bufs| && s.calls[t].pc == Rotate(s.active, 0, RSealed)
    requires var n := s.bufs[1 - s.active]; n.sealed || (n.index == 0 && n.adding != 0)
    ensures Via(s0, Done(s, t, s.active))
  {
    hide Via;
    var a := s.active;
    Turns(s0, s, t, a, RSealed);
    if !s.bufs[1 - a].sealed {
      var s1 := SetCall(s, t, Rotate(a, 0, RIndex));
      Turns(s0, s1, t, a, RIndex);
      var s2 := SetCall(s1, t, Rotate(a, 0, RAdding));
      Twice(s.calls, t, s1.calls[t], s2.calls[t]);
      Turns(s0, s2, t, a, RAdding);
      Twice(s.calls, t, s2.calls[t], s.calls[t].(pc := Rotate(a, 0, RConfirm)));
    }
    Confirms(s0, s, t);
  }

  lemma Confirms(s0: State, s: State, t: Ticket)
    requires t in s.calls && s.active < 2 == |s.bufs| && Via(s0, SetCall(s, t, Rotate(s.active, 0, RConfirm)))
    ensures Via(s0, Done(s, t, s.active))
  {
    hide Via;
    var a := s.active;
    var s1 := SetCall(s, t, Rotate(a, 0, RConfirm));
    Turns(s0, s1, t, a, RConfirm);
    var s2 := SetCall(s1, t, Leave(a, 0, false));
    Twice(s.calls, t, s1.calls[t], s2.calls[t]);
    Leaves(s0, s2, t, a, false);
    Twice(s.calls, t, s2.calls[t], s.calls[t].(pc := Returned(true)));
  }

  /** Sealing the active buffer and making the other one active. */
  function Rotated(s: State): State
    requires s.active < 2 == |s.bufs|
  {
    s.(bufs := s.bufs[s.active := s.bufs[s.active].(sealed := true)], active := 1 - s.active,
       h := s.h.(log := s.h.log + [[]]))
  }

  predicate Free(b: Buffer) { !b.sealed && b.index == 0 && b.adding == 0 }

  lemma Rotates(s0: State, s: State, t: Ticket)
    requires Via(s0, s) && t in s.calls && s.active < 2 == |s.bufs| && s.calls[t].pc == Rotate(s.active, 0, RSealed)
    requires Free(s.bufs[1 - s.active])
    ensures Via(s0, SetCall(Rotated(s), t, Leave(s.active, 0, true)))
  {
    hide Via;
    var a := s.active;
    Turns(s0, s, t, a, RSealed);
    var s1 := SetCall(s, t, Rotate(a, 0, RIndex));
    Turns(s0, s1, t, a, RIndex);
    var s2 := SetCall(s, t, Rotate(a, 0, RAdding));
    Twice(s.calls, t, s1.calls[t], s2.calls[t]);
    Turns(s0, s2, t, a, RAdding);
    var s3 := SetCall(s, t, Rotate(a, 0, RSeal));
    Twice(s.calls, t, s2.calls[t], s3.calls[t]);
    Swaps(s0, s, t);
  }

  lemma Swaps(s0: State, s: State, t: Ticket)
    requires t in s.calls && s.active < 2 == |s.bufs| && Via(s0, SetCall(s, t, Rotate(s.active, 0, RSeal)))
    ensures Via(s0, SetCall(Rotated(s), t, Leave(s.active, 0, true)))
  {
    hide Via;
    var a := s.active;
    var s1 := SetCall(s, t, Rotate(a, 0, RSeal));
    Turns(s0, s1, t, a, RSeal);
    var s2 := SetCall(SetBuf(s, a, s.bufs[a].(sealed := true)), t, Rotate(a, 0, RSwap));
    Twice(s.calls, t, s1.calls[t], s2.calls[t]);
    Turns(s0, s2, t, a, RSwap);
    Twice(s.calls, t, s2.calls[t], s.calls[t].(pc := Leave(a, 0, true)));
  }

  // ------------------------------------------------------- steps of a flush

  function Started(s: State, f: nat): State {
    s.(flushers := s.flushers[f := LoadFlush], flushing := true, h := s.h.(owner := f))
  }

  lemma Starts(s0: State, s: State, f: nat)
    requires Via(s0, s) && f !in s.flushers && !s.flushing
    ensures Via(s0, Started(s, f))
  {
    var s1 := SetFlusher(s, f, Try(false));
    Then(s0, s, s1, BeginFlush(f, false));
    hide Via, Shape, RotateStep;
    Twice(s.flushers, f, Try(false), LoadFlush);
    Flushes(s0, s1, Started(s, f), f);
  }

  lemma LoadsBoth(s0: State, s: State, f: nat)
    requires Via(s0, s) && f in s.flushers && s.flushers[f] == LoadFlush
    ensures Via(s0, SetFlusher(s, f, LoadDrain(s.active)))
  {
    hide Via, Shape, RotateStep;
    Flushes(s0, s, SetFlusher(s, f, LoadDrain(s.active)), f);
  }

  lemma LoadsDrain(s0: State, s: State, f: nat, fi: nat)
    requires Via(s0, SetFlusher(s, f, LoadDrain(fi)))
    ensures Via(s0, SetFlusher(s, f, LoadOldSealed(fi, s.drain)))
  {
    hide Via, Shape, RotateStep;
    Twice(s.flushers, f, LoadDrain(fi), LoadOldSealed(fi, s.drain));
    Flushes(s0, SetFlusher(s, f, LoadDrain(fi)), SetFlusher(s, f, LoadOldSealed(fi, s.drain)), f);
  }

  lemma FindsSealed(s0: State, s: State, f: nat, fi: nat, from: nat)
    requires from < |s.bufs| && s.bufs[from].sealed && Via(s0, SetFlusher(s, f, LoadOldSealed(fi, from)))
    ensures Via(s0, SetFlusher(s, f, Wait(fi, from)))
  {
    hide Via, Shape, RotateStep;
    Twice(s.flushers, f, LoadOldSealed(fi, from), Wait(fi, from));
    Flushes(s0, SetFlusher(s, f, LoadOldSealed(fi, from)), SetFlusher(s, f, Wait(fi, from)), f);
  }

  lemma FindsActive(s0: State, s: State, f: nat, fi: nat, from: nat)
    requires from < |s.bufs| && !s.bufs[from].sealed && Via(s0, SetFlusher(s, f, LoadOldSealed(fi, from)))
    ensures Via(s0, SetFlusher(s, f, LoadIndex(fi, from, s.active)))
  {
    hide Via, Shape, RotateStep;
    var p1, p2, p3 := LoadOldSealed(fi, from), LoadActiveAgain(fi, from), LoadIndex(fi, from, s.active);
    Twice(s.flushers, f, p1, p2);
    Flushes(s0, SetFlusher(s, f, p1), SetFlusher(s, f, p2), f);
    Twice(s.flushers, f, p2, p3);
    Flushes(s0, SetFlusher(s, f, p2), SetFlusher(s, f, p3), f);
  }

  /** With nothing in the active buffer the flush ends; its own buffer it rotates. */
  lemma Decides(s0: State, s: State, f: nat, fi: nat, from: nat)
    requires from < |s.bufs| && (s.bufs[from].index == 0 || from == fi)
    requires Via(s0, SetFlusher(s, f, LoadIndex(fi, from, from)))
    ensures Via(s0, SetFlusher(s, f, if s.bufs[from].index == 0 then Unlock else Rotating(fi, from, RSealed)))
  {
    hide Via, Shape, RotateStep;
    var p1, p2 := LoadIndex(fi, from, from), if s.bufs[from].index == 0 then Unlock else Rotating(fi, from, RSealed);
    Twice(s.flushers, f, p1, p2);
    Flushes(s0, SetFlusher(s, f, p1), SetFlusher(s, f, p2), f);
  }

  lemma Unlocks(s0: State, s: State, f: nat)
    requires Via(s0, SetFlusher(s, f, Unlock))
    ensures Via(s0, SetFlusher(s, f, Finished(true)).(flushing := false))
  {
    hide Via, Shape, RotateStep;
    Twice(s.flushers, f, Unlock, Finished(true));
    Flushes(s0, SetFlusher(s, f, Unlock), SetFlusher(s, f, Finished(true)).(flushing := false), f);
  }

  lemma FlushTurns(s0: State, s: State, f: nat, fi: nat, from: nat, r: Rot)
    requires from < 2 == |s.bufs| && Via(s0, SetFlusher(s, f, Rotating(fi, from, r)))
    ensures
      var (s1, res) := RotateStep(C, s, from, r);
      Via(s0, SetFlusher(s1, f, if res.Goto? then Rotating(fi, from, res.r)
                                else if res.rotated then Wait(fi, from) else Unlock))
  {
    var (s1, res) := RotateStep(C, s, from, r);
    var p := Rotating(fi, from, r);
    var p' := if res.Goto? then Rotating(fi, from, res.r) else if res.rotated then Wait(fi, from) else Unlock;
    RotateOfFlusher(s, f, p, p', from, r);
    hide Via, Shape, RotateStep;
    Flushes(s0, SetFlusher(s, f, p), SetFlusher(s1, f, p'), f);
  }

  lemma RotateOfFlusher(s: State, f: nat, p: FPc, p': FPc, from: nat, r: Rot)
    requires from < 2 == |s.bufs|
    ensures
      var (s1, res) := RotateStep(C, SetFlusher(s, f, p), from, r);
      RotateStep(C, s, from, r).1 == res && SetFlusher(s1, f, p') == SetFlusher(RotateStep(C, s, from, r).0, f, p')
  {
    Twice(s.flushers, f, p, p');
  }

  lemma FlushRotates(s0: State, s: State, f: nat, fi: nat)
    requires s.active < 2 == |s.bufs| && Free(s.bufs[1 - s.active])
    requires Via(s0, SetFlusher(s, f, Rotating(fi, s.active, RSealed)))
    ensures Via(s0, SetFlusher(Rotated(s), f, Wait(fi, s.active)))
  {
    hide Via;
    FlushTurns(s0, s, f, fi, s.active, RSealed);
    FlushTurns(s0, s, f, fi, s.active, RIndex);
    FlushTurns(s0, s, f, fi, s.active, RAdding);
    FlushTurns(s0, s, f, fi, s.active, RSeal);
    FlushTurns(s0, SetBuf(s, s.active, s.bufs[s.active].(sealed := true)), f, fi, s.active, RSwap);
  }

  lemma FlushRefused(s0: State, s: State, f: nat, fi: nat)
    requires s.active < 2 == |s.bufs|
    requires var n := s.bufs[1 - s.active]; !n.sealed && n.index == 0 && n.adding != 0
    requires Via(s0, SetFlusher(s, f, Rotating(fi, s.active, RSealed)))
    ensures Via(s0, SetFlusher(s, f, Unlock))
  {
    hide Via;
    FlushTurns(s0, s, f, fi, s.active, RSealed);
    FlushTurns(s0, s, f, fi, s.active, RIndex);
    FlushTurns(s0, s, f, fi, s.active, RAdding);
    FlushTurns(s0, s, f, fi, s.active, RConfirm);
  }

  /** Flush `f` has put the one item of buffer `d` into a batch and given the buffer back. */
  function Drained(s: State, f: nat, fi: nat, d: nat): State
    requires d < 2 == |s.bufs| == |s.h.gens| && |s.bufs[d].items| == 1
  {
    s.(bufs := s.bufs[d := s.bufs[d].(index := 0, sealed := false)], batches := s.batches + [[s.bufs[d].items[0]]],
       drain := 1 - d, flushers := s.flushers[f := LoadDrain(fi)],
       h := s.h.(D := s.h.D + 1, gens := s.h.gens[d := s.h.gens[d] + 2]))
  }

  lemma Takes(s0: State, s: State, f: nat, fi: nat, d: nat)
    requires d < 2 == |s.bufs| && s.bufs[d].index == 1 && s.bufs[d].adding == 0 && |s.bufs[d].items| == 1
    requires Via(s0, SetFlusher(s, f, Wait(fi, d)))
    ensures Via(s0, SetFlusher(SetBuf(s, d, s.bufs[d].(index := 0)), f, Hand(fi, d, [s.bufs[d].items[0]])))
  {
    hide Via, Shape, RotateStep;
    var x := s.bufs[d].items[0];
    var p1, p2, p3, p4, p5 := Wait(fi, d), Take(fi, d), Copy(fi, d, 1, []), Copy(fi, d, 1, [x]), Hand(fi, d, [x]);
    Twice(s.flushers, f, p1, p2);
    Flushes(s0, SetFlusher(s, f, p1), SetFlusher(s, f, p2), f);
    var s1 := SetBuf(s, d, s.bufs[d].(index := 0));
    Twice(s.flushers, f, p2, p3);
    Flushes(s0, SetFlusher(s, f, p2), SetFlusher(s1, f, p3), f);
    Copies(s0, s1, f, fi, d, x);
  }

  lemma Copies(s0: State, s: State, f: nat, fi: nat, d: nat, x: Ticket)
    requires d < 2 == |s.bufs| && s.bufs[d].items == [x]
    requires Via(s0, SetFlusher(s, f, Copy(fi, d, 1, [])))
    ensures Via(s0, SetFlusher(s, f, Hand(fi, d, [x])))
  {
    hide Via, Shape, RotateStep;
    var none: seq<Ticket> := [];
    var p1, p2, p3 := Copy(fi, d, 1, none), Copy(fi, d, 1, [x]), Hand(fi, d, [x]);
    assert none + [x] == [x];
    Twice(s.flushers, f, p1, p2);
    Flushes(s0, SetFlusher(s, f, p1), SetFlusher(s, f, p2), f);
    Twice(s.flushers, f, p2, p3);
    Flushes(s0, SetFlusher(s, f, p2), SetFlusher(s, f, p3), f);
  }

  lemma HandsOver(s0: State, s: State, f: nat, fi: nat, d: nat, x: Ticket)
    requires d < 2 == |s.bufs| == |s.h.gens| && Via(s0, SetFlusher(s, f, Hand(fi, d, [x])))
    ensures Via(s0, SetFlusher(s, f, LoadDrain(fi)).(
      bufs := s.bufs[d := s.bufs[d].(sealed := false)], batches := s.batches + [[x]], drain := 1 - d,
      h := s.h.(D := s.h.D + 1, gens := s.h.gens[d := s.h.gens[d] + 2])))
  {
    hide Via, Shape, RotateStep;
    var p1, p2, p3, p4 := Hand(fi, d, [x]), Unseal(fi, d), Advance(fi, d), LoadDrain(fi);
    var s1 := SetFlusher(s, f, p2).(batches := s.batches + [[x]]);
    Twice(s.flushers, f, p1, p2);
    Flushes(s0, SetFlusher(s, f, p1), s1, f);
    var s2 := SetBuf(s1, d, s.bufs[d].(sealed := false)).(
      flushers := s.flushers[f := p3], h := s.h.(D := s.h.D + 1, gens := s.h.gens[d := s.h.gens[d] + 2]));
    Twice(s.flushers, f, p2, p3);
    Flushes(s0, s1, s2, f);
    Twice(s.flushers, f, p3, p4);
    NextIs(C, d);
    Flushes(s0, s2, s2.(flushers := s.flushers[f := p4], drain := 1 - d), f);
  }

  lemma Drains(s0: State, s: State, f: nat, fi: nat, d: nat)
    requires d < 2 == |s.bufs| == |s.h.gens| && s.bufs[d].index == 1 && s.bufs[d].adding == 0 && |s.bufs[d].items| == 1
    requires Via(s0, SetFlusher(s, f, Wait(fi, d)))
    ensures Via(s0, Drained(s, f, fi, d))
  {
    hide Via;
    Takes(s0, s, f, fi, d);
    HandsOver(s0, SetBuf(s, d, s.bufs[d].(index := 0)), f, fi, d, s.bufs[d].items[0]);
    var b, b' := s.bufs[d].(index := 0), s.bufs[d].(index := 0, sealed := false);
    assert s.bufs[d := b][d := b'] == s.bufs[d := b'];
  }

  // ------------------------------------------------------- the run

  /** A state of the run: two buffers, which one is active and drained, and the rest. */
  function At(b0: Buffer, b1: Buffer, active: nat, drain: nat, flushing: bool, calls: map<Ticket, Call>,
              flushers: map<nat, FPc>, batches: seq<seq<Ticket>>, h: History): State {
    State([b0, b1], active, drain, flushing, 0, calls, flushers, batches, h)
  }

  function Empty(x: Ticket): Buffer { Buffer([x], 0, 0, false) }

  function Full(x: Ticket, sealed: bool): Buffer { Buffer([x], 1, 0, sealed) }

  function Accepted(gen: nat): Call { Call(Returned(true), Pos(gen, 0), gen, Some(Pos(gen, 0))) }

  /** Call 2, which has loaded buffer 1 as the active one and found it open. */
  function Stale(p: Pc): Call { Call(p, Pos(1, 0), 1, None) }

  /** What the calls of an item do to the buffer they fill. */
  lemma FilledAndRotated(s0: State, s: State, t: Ticket)
    requires Via(s0, s) && t !in s.calls && s.active < 2 == |s.bufs| && |s.h.log| > 0
    requires Free(s.bufs[s.active]) && |s.bufs[s.active].items| == 1 && Free(s.bufs[1 - s.active])
    ensures Via(s0, Done(SetCall(Rotated(Filled(s, t)), t, Leave(s.active, 0, true)), t, s.active))
  {
    hide Via;
    Fills(s0, s, t);
    Rotates(s0, Filled(s, t), t);
    Leaves(s0, SetCall(Rotated(Filled(s, t)), t, Leave(s.active, 0, true)), t, s.active, true);
  }

  lemma FilledOnly(s0: State, s: State, t: Ticket)
    requires Via(s0, s) && t !in s.calls && s.active < 2 == |s.bufs| && |s.h.log| > 0
    requires Free(s.bufs[s.active]) && |s.bufs[s.active].items| == 1
    requires var n := s.bufs[1 - s.active]; n.sealed || (n.index == 0 && n.adding != 0)
    ensures Via(s0, Done(Filled(s, t), t, s.active))
  {
    hide Via;
    Fills(s0, s, t);
    GivesUp(s0, Filled(s, t), t);
  }

  // The states at the turning points of the run.

  const S0 := At(Empty(0), Empty(0), 0, 0, false, map[], map[], [], History(0, [0, 1], [[]], 0))

  /** Item 1 fills buffer 0, whose rotation succeeds. */
  const S1 := At(Full(1, true), Empty(0), 1, 0, false, map[1 := Accepted(0)], map[], [],
                 History(0, [0, 1], [[1], []], 0))

  /** Call 2 loads buffer 1 and is held up there. */
  const S2 := S1.(calls := map[1 := Accepted(0), 2 := Stale(Enter(1))])

  /** Item 3 fills buffer 1, whose rotation is refused, since buffer 0 is sealed. */
  const S3 := At(Full(1, true), Full(3, false), 1, 0, false,
                 map[1 := Accepted(0), 2 := Stale(Enter(1)), 3 := Accepted(1)], map[], [],
                 History(0, [0, 1], [[1], [3]], 0))

  /** A first flush drains both buffers; buffer 0 is active again. */
  const S4 := At(Empty(1), Empty(3), 0, 0, false, S3.calls, map[10 := Finished(true)], [[1], [3]],
                 History(2, [2, 3], [[1], [3], []], 10))

  /** Call 2 goes on, and raises `adding` of buffer 1. */
  const S5 := S4.(bufs := [Empty(1), Buffer([3], 0, 1, false)], calls := S3.calls[2 := Stale(CheckActive(1))])

  /** Item 4 fills buffer 0, whose rotation is refused, and is accepted. */
  const S6 := S5.(bufs := [Full(4, false), Buffer([3], 0, 1, false)], calls := S5.calls[4 := Accepted(2)],
                  h := History(2, [2, 3], [[1], [3], [4]], 10))

  /** A second flush begins and is refused too. */
  const S7 := Started(S6, 11)

  lemma ToS1()
    ensures Via(S0, S1)
  {
    assert S0.h.gens == seq(2, i requires 0 <= i => i);
    assert Run(C, [S0], []) && [S0][0] == S0;
    assert Via(S0, S0);
    hide Via;
    FilledAndRotated(S0, S0, 1);
    S1Is();
  }

  lemma S1Is()
    ensures Done(SetCall(Rotated(Filled(S0, 1)), 1, Leave(0, 0, true)), 1, 0) == S1
  {
    var s := Done(SetCall(Rotated(Filled(S0, 1)), 1, Leave(0, 0, true)), 1, 0);
    assert S0.h.log[0] + [1] == [1];
    assert s.bufs == S1.bufs && s.calls == S1.calls && s.h.log == S1.h.log;
  }

  lemma ToS3()
    ensures Via(S0, S3)
  {
    ToS1();
    hide Via;
    Begins(S0, S1, 2);
    var s1 := BeginCall(S1, 2);
    Loads(S0, s1, 2);
    FindsOpen(S0, SetCall(s1, 2, LoadSealed(1)), 2, 1);
    assert SetCall(SetCall(s1, 2, LoadSealed(1)), 2, Enter(1)) == S2;
    FilledOnly(S0, S2, 3);
    S3Is();
  }

  lemma S3Is()
    ensures Done(Filled(S2, 3), 3, 1) == S3
  {
    var s := Done(Filled(S2, 3), 3, 1);
    assert S2.h.log[1] + [3] == [3];
    assert s.bufs == S3.bufs && s.calls == S3.calls && s.h.log == S3.h.log;
  }

  /** The first flush, when it has drained buffer 0, and when it has drained buffer 1. */
  const S31 := At(Empty(1), Full(3, false), 1, 1, true, S3.calls, map[10 := LoadDrain(1)], [[1]],
                  History(1, [2, 1], [[1], [3]], 10))
  const S32 := At(Empty(1), Empty(3), 0, 0, true, S3.calls, map[10 := LoadDrain(1)], [[1], [3]],
                  History(2, [2, 3], [[1], [3], []], 10))

  lemma ToS31()
    ensures Via(S0, S31)
  {
    ToS3();
    hide Via;
    var s := Started(S3, 10);
    Starts(S0, S3, 10);
    LoadsBoth(S0, s, 10);
    LoadsDrain(S0, s, 10, 1);
    FindsSealed(S0, s, 10, 1, 0);
    Drains(S0, s, 10, 1, 0);
    S31Is();
  }

  lemma S31Is()
    ensures Drained(Started(S3, 10), 10, 1, 0) == S31
  {
    var s := Drained(Started(S3, 10), 10, 1, 0);
    assert s.bufs == S31.bufs && s.flushers == S31.flushers && s.batches == S31.batches && s.h.gens == S31.h.gens;
  }

  lemma ToS32()
    ensures Via(S0, S32)
  {
    ToS31();
    hide Via;
    assert SetFlusher(S31, 10, LoadDrain(1)) == S31;
    LoadsDrain(S0, S31, 10, 1);
    FindsActive(S0, S31, 10, 1, 1);
    Decides(S0, S31, 10, 1, 1);
    FlushRotates(S0, S31, 10, 1);
    Drains(S0, Rotated(S31), 10, 1, 1);
    S32Is();
  }

  lemma S32Is()
    ensures Drained(Rotated(S31), 10, 1, 1) == S32
  {
    var s := Drained(Rotated(S31), 10, 1, 1);
    assert s.bufs == S32.bufs && s.flushers == S32.flushers && s.batches == S32.batches;
    assert s.h.gens == S32.h.gens && s.h.log == S32.h.log;
  }

  lemma ToS5()
    ensures Via(S0, S5)
  {
    ToS32();
    hide Via;
    assert SetFlusher(S32, 10, LoadDrain(1)) == S32;
    LoadsDrain(S0, S32, 10, 1);
    FindsActive(S0, S32, 10, 1, 0);
    Decides(S0, S32, 10, 1, 0);
    Unlocks(S0, S32, 10);
    assert SetFlusher(S32, 10, Finished(true)).(flushing := false) == S4;
    Enters(S0, S4, 2, 1);
    assert Entered(S4, 2, 1).bufs == S5.bufs && Entered(S4, 2, 1).calls == S5.calls;
  }

  lemma ToS7()
    ensures Via(S0, S7)
  {
    ToS5();
    hide Via;
    FilledOnly(S0, S5, 4);
    S6Is();
    Starts(S0, S6, 11);
  }

  lemma S6Is()
    ensures Done(Filled(S5, 4), 4, 0) == S6
  {
    var s := Done(Filled(S5, 4), 4, 0);
    assert S5.h.log[2] + [4] == [4];
    assert s.bufs == S6.bufs && s.calls == S6.calls && s.h.log == S6.h.log;
  }

  /** Item 4 has been accepted before the flush loads the active buffer, the flush is about
      to return true, and item 4 is in no batch: call 2, which loaded `active_idx` a lap
      ago, was in the way of the rotation. */
  lemma FlushFallsShort()
    ensures Via(S7, SetFlusher(S7, 11, Unlock)) && S7.flushers[11] == LoadFlush && S7.calls[4].pc == Returned(true)
    ensures !InBatch(SetFlusher(S7, 11, Unlock), 4)
  {
    ToS7();
    assert Reach(S7);
    ViaSelf(S7);
    hide Via;
    LoadsBoth(S7, S7, 11);
    LoadsDrain(S7, S7, 11, 0);
    FindsActive(S7, S7, 11, 0, 0);
    Decides(S7, S7, 11, 0, 0);
    FlushRefused(S7, S7, 11, 0);
    NotBatched(SetFlusher(S7, 11, Unlock));
  }

  lemma NotBatched(s: State)
    requires s.batches == [[1], [3]]
    ensures !InBatch(s, 4)
  {
  }
}
