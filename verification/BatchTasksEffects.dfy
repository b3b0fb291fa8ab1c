/** What becomes of a batch, what a dump leaves behind and what a wait has waited for. */
module BatchTasksEffects {
  import opened Wrappers
  import opened BatchTasks
  import opened BatchTasksInv

  // ------------------------------------------------------- where a batch goes

  /** Nothing, or one disposal more: to disk if a dump makes it or the process is crashing,
      and otherwise to the transport if uploads are allowed. `refused` is their lack. */
  ghost predicate DisposedAs(before: seq<Disposal>, after: seq<Disposal>, byDump: bool, crash: bool, refused: bool) {
    || after == before
    || (after == before + [Disk] && (byDump || crash))
    || (after == before + [Transport] && !byDump && !crash && !refused)
    || (after == before + [Skipped] && !byDump && !crash && refused)
  }

  /** Every disposal of every run goes where it should, and only the thread of the task, or
      a dump, makes one. */
  lemma DisposedRightly(run: seq<State>, acts: seq<Action>, i: nat, t: nat)
    requires Run(run, acts) && i + 1 < |run| && t in run[i].tasks
    ensures t in run[i + 1].tasks
    ensures
      var a, crash, k, k' := acts[i], run[i].crashFlush, run[i].tasks[t], run[i + 1].tasks[t];
      match a
      case Dump(_, _) => DisposedAs(k.disposals, k'.disposals, true, crash, false) && k'.redisposals == k.redisposals
      case Work(u, refused) =>
        if u != t then k'.disposals == k.disposals && k'.redisposals == k.redisposals
        else
          && DisposedAs(k.disposals, k'.disposals, false, crash, refused)
          && DisposedAs(k.redisposals, k'.redisposals, false, crash, refused)
      case _ => k'.disposals == k.disposals && k'.redisposals == k.redisposals
  {
    var s, a := run[i], acts[i];
    assert Step(s, run[i + 1], a);
    RunInv(run, acts, i);
    assert a.Work? ==> TaskOk(s.tasks[a.t]);
    hide Inv, DisposedAs, Run;
    match a
    case Work(u, refused) =>
      hide WorkerStep, LockMoves, HasLock, HasMutex, InList, TaskOk;
      WorkerDoes(s, u, refused);
      if u == t { WorkerDisposes(s, t, refused); }
    case Dump(d, again) =>
      hide DumpStep;
      DumpDisposes(s, d, again, t);
    case WaitOn(w) => WaitDoes(s, w); hide WaitStep;
    case _ =>
  }

  lemma WorkerDisposes(s: State, t: nat, refused: bool)
    requires t in s.tasks
    ensures
      var s' := WorkerStep(s, t, refused);
      && t in s'.tasks
      && DisposedAs(s.tasks[t].disposals, s'.tasks[t].disposals, false, s.crashFlush, refused)
      && DisposedAs(s.tasks[t].redisposals, s'.tasks[t].redisposals, false, s.crashFlush, refused)
  {
    hide LinkStep, ExecStep, CompleteStep, UnlinkStep, SyncStep;
    match s.tasks[t].pc
    case Link(p) => LinkDisposes(s, t, p, refused);
    case Exec(p) => ExecDisposes(s, t, p);
    case Complete(p) => CompleteDisposes(s, t, p, refused);
    case Unlink(p, r) => UnlinkDisposes(s, t, p, r);
    case Sync(p) => SyncDisposes(s, t, p, refused);
    case Free =>
    case Finished(_) =>
  }

  lemma LinkDisposes(s: State, t: nat, p: LinkPc, refused: bool)
    requires t in s.tasks
    ensures var s' := LinkStep(s, t, p, refused);
      && t in s'.tasks && s'.tasks[t].disposals == s.tasks[t].disposals
      && s'.tasks[t].redisposals == s.tasks[t].redisposals
  {
  }

  lemma ExecDisposes(s: State, t: nat, p: ExecPc)
    requires t in s.tasks
    ensures var s' := ExecStep(s, t, p);
      && t in s'.tasks && s'.tasks[t].disposals == s.tasks[t].disposals
      && s'.tasks[t].redisposals == s.tasks[t].redisposals
  {
  }

  lemma CompleteDisposes(s: State, t: nat, p: CompletePc, refused: bool)
    requires t in s.tasks
    ensures var s' := CompleteStep(s, t, p, refused);
      && t in s'.tasks && s'.tasks[t].redisposals == s.tasks[t].redisposals
      && DisposedAs(s.tasks[t].disposals, s'.tasks[t].disposals, false, s.crashFlush, refused)
  {
  }

  lemma UnlinkDisposes(s: State, t: nat, p: UnlinkPc, refused: bool)
    requires t in s.tasks
    ensures var s' := UnlinkStep(s, t, p, refused);
      && t in s'.tasks && s'.tasks[t].disposals == s.tasks[t].disposals
      && s'.tasks[t].redisposals == s.tasks[t].redisposals
  {
    hide Without, Woken;
  }

  lemma SyncDisposes(s: State, t: nat, p: SyncPc, refused: bool)
    requires t in s.tasks
    ensures var s' := SyncStep(s, t, p, refused);
      && t in s'.tasks && s'.tasks[t].disposals == s.tasks[t].disposals
      && DisposedAs(s.tasks[t].redisposals, s'.tasks[t].redisposals, false, s.crashFlush, refused)
  {
  }

  lemma DumpDisposes(s: State, d: nat, again: bool, t: nat)
    requires DumpStep.requires(s, d, again) && t in s.tasks
    ensures var s' := DumpStep(s, d, again);
      && t in s'.tasks && s'.tasks[t].redisposals == s.tasks[t].redisposals
      && DisposedAs(s.tasks[t].disposals, s'.tasks[t].disposals, true, s.crashFlush, false)
  {
    if s.dumpers[d].DumpWrite? { DumpWrites(s, d, again, t); } else { DumpScans(s, d, again, t); }
    hide DumpStep;
  }

  lemma DumpWrites(s: State, d: nat, again: bool, t: nat)
    requires DumpStep.requires(s, d, again) && t in s.tasks && s.dumpers[d].DumpWrite?
    ensures var s' := DumpStep(s, d, again);
      && t in s'.tasks && s'.tasks[t].redisposals == s.tasks[t].redisposals
      && (s'.tasks[t].disposals == s.tasks[t].disposals || s'.tasks[t].disposals == s.tasks[t].disposals + [Disk])
  {
  }

  lemma DumpScans(s: State, d: nat, again: bool, t: nat)
    requires DumpStep.requires(s, d, again) && t in s.tasks && !s.dumpers[d].DumpWrite?
    ensures var s' := DumpStep(s, d, again);
      && t in s'.tasks && s'.tasks[t].redisposals == s.tasks[t].redisposals
      && s'.tasks[t].disposals == s.tasks[t].disposals
  {
  }

  /** The crash flag, once set, stays. */
  lemma CrashStays(run: seq<State>, acts: seq<Action>, i: nat)
    requires Run(run, acts) && i + 1 < |run|
    ensures run[i + 1].crashFlush == (run[i].crashFlush || acts[i] == Crash)
  {
    var s, a := run[i], acts[i];
    assert Step(s, run[i + 1], a);
    RunInv(run, acts, i);
    assert a.Work? ==> TaskOk(s.tasks[a.t]);
    hide Inv, Run;
    match a
    case Work(u, choice) =>
      hide WorkerStep, LockMoves, HasLock, HasMutex, InList, TaskOk;
      WorkerDoes(s, u, choice);
    case Dump(d, again) => DumpKeepsFlag(s, d, again); hide DumpStep;
    case WaitOn(w) => WaitDoes(s, w); hide WaitStep;
    case _ =>
  }

  lemma DumpKeepsFlag(s: State, d: nat, again: bool)
    requires DumpStep.requires(s, d, again)
    ensures DumpStep(s, d, again).crashFlush == s.crashFlush
  {
  }

  // ------------------------------------------------------- what a dump leaves behind

  predicate Takeable(k: Task) { k.state == Pending || k.state == Ready }

  /** Of the first `n` tasks on the list, none is for a dump to take. */
  ghost predicate NoneLeft(s: State, n: nat) {
    n <= |s.list| && forall i :: 0 <= i < n ==> s.list[i] in s.tasks && !Takeable(s.tasks[s.list[i]])
  }

  ghost predicate Scanned(s: State, p: DumpPc) {
    match p
    case Scan(k) => k == 0 || NoneLeft(s, k)
    case ScanUnlock(claim) => claim == None ==> NoneLeft(s, |s.list|)
    case _ => true
  }

  ghost predicate ScansOk(s: State) { forall d :: d in s.dumpers ==> Scanned(s, s.dumpers[d]) }

  /** Without the lock, a worker changes neither the list nor what a task is for a dump. */
  lemma WorkerNeedsLock(s: State, t: nat, choice: bool)
    requires t in s.tasks && !HasLock(s.tasks[t].pc)
    ensures var s' := WorkerStep(s, t, choice);
      s'.list == s.list && t in s'.tasks && s'.tasks[t].state == s.tasks[t].state
  {
    hide LinkStep, ExecStep, CompleteStep, UnlinkStep, SyncStep;
    match s.tasks[t].pc
    case Link(p) => assert p == LLock; hide *; LinkWaits(s, t, choice);
    case Exec(p) => ExecUnlocked(s, t, p);
    case Complete(p) => CompleteUnlocked(s, t, p, choice);
    case Unlink(p, r) => UnlinkUnlocked(s, t, p, r);
    case Sync(p) => SyncUnlocked(s, t, p, choice);
    case Free =>
    case Finished(_) =>
  }

  lemma LinkWaits(s: State, t: nat, refused: bool)
    requires t in s.tasks
    ensures var s' := LinkStep(s, t, LLock, refused);
      s'.list == s.list && t in s'.tasks && s'.tasks[t].state == s.tasks[t].state
  {
  }

  lemma ExecUnlocked(s: State, t: nat, p: ExecPc)
    requires t in s.tasks && !HasLock(Exec(p))
    ensures var s' := ExecStep(s, t, p);
      s'.list == s.list && t in s'.tasks && s'.tasks[t].state == s.tasks[t].state
  {
  }

  lemma CompleteUnlocked(s: State, t: nat, p: CompletePc, skip: bool)
    requires t in s.tasks && !HasLock(Complete(p))
    ensures var s' := CompleteStep(s, t, p, skip);
      s'.list == s.list && t in s'.tasks && s'.tasks[t].state == s.tasks[t].state
  {
  }

  lemma UnlinkUnlocked(s: State, t: nat, p: UnlinkPc, refused: bool)
    requires t in s.tasks && !HasLock(Unlink(p, refused))
    ensures var s' := UnlinkStep(s, t, p, refused);
      s'.list == s.list && t in s'.tasks && s'.tasks[t].state == s.tasks[t].state
  {
    hide Without, Woken;
  }

  lemma SyncUnlocked(s: State, t: nat, p: SyncPc, skip: bool)
    requires t in s.tasks
    ensures var s' := SyncStep(s, t, p, skip);
      s'.list == s.list && t in s'.tasks && s'.tasks[t].state == s.tasks[t].state
  {
  }

  /** A step that keeps the list and the states keeps what scans have found. */
  ghost predicate SameForDumps(s: State, s': State) {
    && s'.list == s.list
    && forall t :: t in s.tasks ==> t in s'.tasks && s'.tasks[t].state == s.tasks[t].state
  }

  lemma ScannedStays(s: State, s': State, p: DumpPc)
    requires Scanned(s, p) && SameForDumps(s, s')
    ensures Scanned(s', p)
  {
  }

  lemma WorkScans(s: State, t: nat, choice: bool)
    requires Inv(s) && ScansOk(s) && t in s.tasks
    ensures ScansOk(WorkerStep(s, t, choice))
  {
    var s' := WorkerStep(s, t, choice);
    assert TaskOk(s.tasks[t]);
    WorkerDoes(s, t, choice);
    assert s'.dumpers == s.dumpers;
    forall d | d in s.dumpers ensures Scanned(s', s.dumpers[d]) {
      var p := s.dumpers[d];
      if DumpHasLock(p) {
        assert InLock(s, Dumper(d)) && !InLock(s, Worker(t));
        WorkerNeedsLock(s, t, choice);
        assert SameForDumps(s, s');
        ScannedStays(s, s', p);
      }
    }
    hide *;
  }

  lemma DumpScansOn(s: State, d: nat, again: bool)
    requires Inv(s) && ScansOk(s) && d in s.dumpers && DumpStep.requires(s, d, again)
    ensures ScansOk(DumpStep(s, d, again))
  {
    hide Inv, DumpStep, Scanned;
    var s' := DumpStep(s, d, again);
    SameDumpers(s, d, again);
    OwnScan(s, d, again);
    forall e | e in s'.dumpers && e != d ensures Scanned(s', s'.dumpers[e]) {
      OtherScan(s, d, again, e);
    }
  }

  lemma SameDumpers(s: State, d: nat, again: bool)
    requires DumpStep.requires(s, d, again)
    ensures DumpStep(s, d, again).dumpers.Keys == s.dumpers.Keys
  {
  }

  lemma OwnScan(s: State, d: nat, again: bool)
    requires d in s.dumpers && DumpStep.requires(s, d, again) && Scanned(s, s.dumpers[d])
    ensures var s' := DumpStep(s, d, again); d in s'.dumpers && Scanned(s', s'.dumpers[d])
  {
    if s.dumpers[d].Scan? { ScansNext(s, d, again); hide DumpStep, Scanned; }
  }

  /** One task further, or at the end, or with a claim. */
  lemma ScansNext(s: State, d: nat, again: bool)
    requires d in s.dumpers && DumpStep.requires(s, d, again) && Scanned(s, s.dumpers[d]) && s.dumpers[d].Scan?
    ensures var s' := DumpStep(s, d, again); d in s'.dumpers && Scanned(s', s'.dumpers[d])
  {
    var s', k := DumpStep(s, d, again), s.dumpers[d].k;
    if k >= |s.list| {
      assert s' == s.(dumpers := s.dumpers[d := ScanUnlock(None)]);
      hide DumpStep;
      assert NoneLeft(s', |s.list|);
    } else if Takeable(s.tasks[s.list[k]]) {
      assert s'.dumpers[d].ScanUnlock? && s'.dumpers[d].claim.Some?;
      hide DumpStep;
    } else {
      assert s' == s.(dumpers := s.dumpers[d := Scan(k + 1)]);
      hide DumpStep;
      assert NoneLeft(s', k + 1);
    }
  }

  lemma OtherScan(s: State, d: nat, again: bool, e: nat)
    requires Inv(s) && DumpStep.requires(s, d, again) && e in s.dumpers && e != d && Scanned(s, s.dumpers[e])
    ensures var s' := DumpStep(s, d, again); e in s'.dumpers && Scanned(s', s'.dumpers[e])
  {
    var s' := DumpStep(s, d, again);
    OtherDumperStays(s, d, again, e);
    if DumpHasLock(s.dumpers[e]) {
      assert InLock(s, Dumper(e)) && !InLock(s, Dumper(d));
      hide Inv;
      DumpNeedsLock(s, d, again);
      ScannedStays(s, s', s.dumpers[e]);
    }
  }

  lemma OtherDumperStays(s: State, d: nat, again: bool, e: nat)
    requires DumpStep.requires(s, d, again) && e in s.dumpers && e != d
    ensures var s' := DumpStep(s, d, again); e in s'.dumpers && s'.dumpers[e] == s.dumpers[e]
  {
  }

  lemma DumpNeedsLock(s: State, d: nat, again: bool)
    requires DumpStep.requires(s, d, again) && !DumpHasLock(s.dumpers[d])
    ensures SameForDumps(s, DumpStep(s, d, again))
  {
  }

  lemma {:induction false} RunScans(run: seq<State>, acts: seq<Action>, i: nat)
    requires Run(run, acts) && i < |run|
    ensures ScansOk(run[i])
  {
    if i > 0 {
      RunScans(run, acts, i - 1);
      RunInv(run, acts, i - 1);
      var s, s', a := run[i - 1], run[i], acts[i - 1];
      assert Step(s, s', a);
      hide Inv, Run, Scanned, ScansOk;
      match a
      case Work(t, choice) => WorkScans(s, t, choice); hide WorkerStep;
      case Dump(d, again) => DumpScansOn(s, d, again); hide DumpStep;
      case _ => QuietScans(s, s', a);
    }
  }

  lemma QuietScans(s: State, s': State, a: Action)
    requires ScansOk(s) && Step(s, s', a) && !a.Work? && !a.Dump?
    ensures ScansOk(s')
  {
    if a.WaitOn? { WaitDoes(s, a.w); }
    hide WaitStep;
    assert SameForDumps(s, s');
    forall d | d in s.dumpers ensures Scanned(s', s.dumpers[d]) { ScannedStays(s, s', s.dumpers[d]); }
  }

  /** A dump that has come to the end of the list without a claim leaves no task there that
      is pending or ready: only tasks that a worker or a dump is at, or that are dumped. */
  lemma DumpLeavesNothing(run: seq<State>, acts: seq<Action>, i: nat, d: nat, t: nat)
    requires Run(run, acts) && i < |run| && d in run[i].dumpers && run[i].dumpers[d] == ScanUnlock(None)
    requires t in run[i].list
    ensures t in run[i].tasks && run[i].tasks[t].state in {Running, Completing, Dumped}
  {
    RunScans(run, acts, i);
    var s := run[i];
    assert Scanned(s, s.dumpers[d]);
    var k :| 0 <= k < |s.list| && s.list[k] == t;
    hide Run;
  }

  // ------------------------------------------------------- what a wait has waited for

  /** The waiter has seen the list empty. */
  predicate SawEmpty(p: WaitPc) { p == WaitUnlock(true) || p == WaitDecide(true) || p == WaitRelease || p == WaitDone }

  /** A caller of `batch_task_wait_all` that is through has found the list empty meanwhile. */
  lemma {:induction false} WaitEndsOnEmptyList(run: seq<State>, acts: seq<Action>, i: nat, w: nat)
    requires Run(run, acts) && i < |run| && w in run[i].waiters && SawEmpty(run[i].waiters[w])
    ensures exists j :: 0 <= j < i && w in run[j].waiters && run[j].waiters[w] == WaitRead && run[j].list == []
  {
    var s, s', a := run[i - 1], run[i], acts[i - 1];
    assert Step(s, s', a);
    RunInv(run, acts, i - 1);
    assert a.Work? ==> TaskOk(s.tasks[a.t]);
    WaiterCameFrom(s, s', a, w);
    hide Step, Inv, TaskOk;
    if SawEmpty(s.waiters[w]) {
      WaitEndsOnEmptyList(run, acts, i - 1, w);
    }
  }

  lemma WaiterCameFrom(s: State, s': State, a: Action, w: nat)
    requires Step(s, s', a) && w in s'.waiters && SawEmpty(s'.waiters[w])
    requires a.Work? ==> TaskOk(s.tasks[a.t])
    ensures w in s.waiters && (SawEmpty(s.waiters[w]) || (s.waiters[w] == WaitRead && s.list == []))
  {
    if a.Work? {
      hide WorkerStep, TaskOk, Without, LockMoves, HasLock, HasMutex, InList;
      WorkerDoes(s, a.t, a.choice);
      assert s'.waiters == s.waiters || s'.waiters == Woken(s.waiters);
    } else if a.Dump? {
      DumpKeepsWaiters(s, a.d, a.again);
      hide DumpStep;
    } else {
      OthersWait(s, s', a, w);
    }
  }

  lemma OthersWait(s: State, s': State, a: Action, w: nat)
    requires Step(s, s', a) && !a.Work? && !a.Dump? && w in s'.waiters && SawEmpty(s'.waiters[w])
    ensures w in s.waiters && (SawEmpty(s.waiters[w]) || (s.waiters[w] == WaitRead && s.list == []))
  {
    hide WorkerStep, DumpStep, WaitStep;
    if a.WaitOn? { OneWaits(s, a.w); }
  }

  lemma OneWaits(s: State, w: nat)
    requires w in s.waiters
    ensures var s' := WaitStep(s, w); w in s'.waiters && s'.waiters == s.waiters[w := s'.waiters[w]]
    ensures SawEmpty(WaitStep(s, w).waiters[w]) ==>
      SawEmpty(s.waiters[w]) || (s.waiters[w] == WaitRead && s.list == [])
  {
    WaitMoves(s, w);
    WaitSees(s, w);
    hide WaitStep;
  }

  lemma WaitMoves(s: State, w: nat)
    requires w in s.waiters
    ensures var s' := WaitStep(s, w); w in s'.waiters && s'.waiters == s.waiters[w := s'.waiters[w]]
  {
    assert s.waiters == s.waiters[w := s.waiters[w]];
  }

  lemma WaitSees(s: State, w: nat)
    requires w in s.waiters && w in WaitStep(s, w).waiters
    ensures SawEmpty(WaitStep(s, w).waiters[w]) ==>
      SawEmpty(s.waiters[w]) || (s.waiters[w] == WaitRead && s.list == [])
  {
  }

  lemma DumpKeepsWaiters(s: State, d: nat, again: bool)
    requires DumpStep.requires(s, d, again)
    ensures DumpStep(s, d, again).waiters == s.waiters
  {
  }
}
