/** Ownership invariant of the batch-task protocol and what it promises over every run. */
module BatchTasksInv {
  import opened Wrappers
  import opened BatchTasks

  predicate InList(p: Pc) {
    match p
    case Link(l) => l == LUnlock
    case Exec(_) | Complete(_) => true
    case Unlink(u, _) => u.UMutex? || u.ULock? || u.URemove?
    case _ => false
  }

  predicate HasLock(p: Pc) {
    match p
    case Link(l) => !l.LLock?
    case Exec(e) => e.ESwap? || e.EUnlock? || e.EReady? || e.EReadyUnlock?
    case Complete(c) => c.CRead? || c.CUnlock?
    case Unlink(u, _) => u.URemove? || u.UUnlock?
    case _ => false
  }

  predicate HasMutex(p: Pc) { p.Unlink? && !p.u.UMutex? }

  predicate DumpHasLock(p: DumpPc) { p.Scan? || p.ScanUnlock? }

  predicate WaitHasLock(p: WaitPc) { p.WaitRead? || p.WaitUnlock? }

  predicate WaitHasMutex(p: WaitPc) { p.WaitLock? || p.WaitRead? || p.WaitUnlock? || p.WaitDecide? || p.WaitRelease? }

  function ClaimOf(p: DumpPc): Option<Claim> {
    match p
    case ScanUnlock(c) => c
    case DumpSerialize(c) => Some(c)
    case DumpWrite(c) => Some(c)
    case _ => None
  }

  predicate InLock(s: State, a: Actor) {
    match a
    case Worker(t) => t in s.tasks && HasLock(s.tasks[t].pc)
    case Dumper(d) => d in s.dumpers && DumpHasLock(s.dumpers[d])
    case Waiter(w) => w in s.waiters && WaitHasLock(s.waiters[w])
  }

  predicate InMutex(s: State, a: Actor) {
    match a
    case Worker(t) => t in s.tasks && HasMutex(s.tasks[t].pc)
    case Dumper(d) => false
    case Waiter(w) => w in s.waiters && WaitHasMutex(s.waiters[w])
  }

  /** Both locks are held exactly by the actor inside their critical section. */
  ghost predicate LocksOk(s: State) {
    && (forall a :: InLock(s, a) <==> s.lock == Some(a))
    && (forall a :: InMutex(s, a) <==> s.mutex == Some(a))
  }

  /** How a step of actor `a` may change a lock: take it when free, or give its own up. */
  predicate LockMoves(before: bool, after: bool, l: Option<Actor>, l': Option<Actor>, a: Actor) {
    if before == after then l' == l
    else if before then l' == None
    else l == None && l' == Some(a)
  }

  lemma LockFrame(s: State, s': State, a: Actor)
    requires LocksOk(s)
    requires forall b :: b != a ==> InLock(s', b) == InLock(s, b) && InMutex(s', b) == InMutex(s, b)
    requires LockMoves(InLock(s, a), InLock(s', a), s.lock, s'.lock, a)
    requires LockMoves(InMutex(s, a), InMutex(s', a), s.mutex, s'.mutex, a)
    ensures LocksOk(s')
  {
    hide InLock, InMutex;
  }

  ghost predicate ListOk(s: State) {
    && Distinct(s.list)
    && (forall t :: t in s.list <==> t in s.tasks && InList(s.tasks[t].pc))
  }

  /** The worker owns the batch at this point, so no dump may have claimed it. */
  predicate WorkerOwns(p: Pc) {
    match p
    case Exec(e) => e == EUnlock(true) || e.ESerialize? || e.EDrop? || e.EReadyLock? || e.EReady?
    case Complete(c) => c == CUnlock(false) || c.CDispose? || c.CClear?
    case _ => false
  }

  /** What a task nobody has dumped looks like when its worker is at `p`. */
  datatype Snapshot = Snapshot(state: TaskState, items: bool, envelope: bool, serialized: nat, disposed: nat)

  function Untouched(): Snapshot { Snapshot(Pending, true, true, 0, 0) }

  function Settled(): Snapshot { Snapshot(Completing, false, false, 1, 1) }

  function Undumped(p: Pc): Snapshot {
    match p
    case Link(_) => Snapshot(Pending, true, true, 0, 0)
    case Exec(e) =>
      if e.ELock? || e.ESwap? then Snapshot(Pending, true, true, 0, 0)
      else if e.EUnlock? || e.ESerialize? then Snapshot(Running, true, true, 0, 0)
      else if e.EDrop? then Snapshot(Running, true, true, 1, 0)
      else Snapshot(if e.EReadyUnlock? then Ready else Running, false, true, 1, 0)
    case Complete(c) =>
      if c.CLock? || c.CRead? then Snapshot(Ready, false, true, 1, 0)
      else Snapshot(Completing, false, true, 1, if c.CClear? then 1 else 0)
    case Unlink(_, refused) => if refused then Untouched() else Settled()
    case Sync(_) => Untouched()
    case Free => Settled()
    case Finished(refused) => if refused then Untouched() else Settled()
  }

  /** The pool has refused the task. */
  predicate Refused(p: Pc) { (p.Unlink? && p.refused) || p.Sync? || p == Finished(true) }

  ghost predicate TaskOk(k: Task) {
    && k.freed == (if k.pc.Finished? then 1 else 0)
    && k.resumed == (if k.pc in {Sync(SDispose), Sync(SFree), Finished(true)} then 1 else 0)
    && |k.redisposals| == (if k.pc in {Sync(SFree), Finished(true)} then 1 else 0)
    && (k.claimant.Some? ==> k.state == Dumped)
    && (if k.state == Dumped then
          && !k.items && !k.envelope && !WorkerOwns(k.pc)
          && (k.claimant == None ==> k.serialized == 1 && |k.disposals| == 1)
        else
          && k.pc != Exec(EUnlock(false)) && k.pc != Complete(CUnlock(true))
          && Snapshot(k.state, k.items, k.envelope, k.serialized, |k.disposals|) == Undumped(k.pc))
  }

  /** A dump that has claimed a task is the only one that still owes it anything. */
  ghost predicate ClaimOk(s: State, d: nat)
    requires d in s.dumpers
  {
    var c := ClaimOf(s.dumpers[d]);
    && (c.Some? ==>
          && c.value.task in s.tasks
          && var k := s.tasks[c.value.task];
          && k.claimant == Some(d) && k.disposals == []
          && k.serialized == (if c.value.serialize && !s.dumpers[d].DumpWrite? then 0 else 1))
    && (s.dumpers[d].DumpSerialize? ==> c.value.serialize)
  }

  ghost predicate ClaimantsOk(s: State) {
    forall t :: t in s.tasks && s.tasks[t].claimant.Some? ==>
      var d := s.tasks[t].claimant.value;
      d in s.dumpers && ClaimOf(s.dumpers[d]).Some? && ClaimOf(s.dumpers[d]).value.task == t
  }

  predicate Waking(p: Pc) { p.Unlink? && (p.u == UUnlock(true) || p.u == UWake) }

  /** A worker emptied the list and has not yet woken the waiters. */
  ghost predicate WakePending(s: State) {
    exists t :: t in s.tasks && Waking(s.tasks[t].pc)
  }

  ghost predicate WaitersOk(s: State) {
    && (forall w :: w in s.waiters && s.waiters[w] == Sleeping ==> s.list != [] || WakePending(s))
    && (forall w :: w in s.waiters && (s.waiters[w] == WaitUnlock(false) || s.waiters[w] == WaitDecide(false)) ==>
          s.list != [])
  }

  ghost predicate Inv(s: State) {
    && LocksOk(s)
    && ListOk(s)
    && (forall t :: t in s.tasks ==> TaskOk(s.tasks[t]))
    && (forall d :: d in s.dumpers ==> ClaimOk(s, d))
    && ClaimantsOk(s)
    && WaitersOk(s)
  }

  // ------------------------------------------------------- worker steps

  /** Summary of a worker step: its own task, and who takes or gives up what. */
  ghost predicate WorkerEffect(s: State, s': State, t: nat) {
    && t in s.tasks && t in s'.tasks
    && s' == s.(tasks := s.tasks[t := s'.tasks[t]], list := s'.list, lock := s'.lock, mutex := s'.mutex,
                waiters := s'.waiters)
    && var k, k' := s.tasks[t], s'.tasks[t];
    && k'.claimant == k.claimant
    && (k.state == Dumped ==> k'.state == Dumped && k'.serialized == k.serialized && k'.disposals == k.disposals)
    && LockMoves(HasLock(k.pc), HasLock(k'.pc), s.lock, s'.lock, Worker(t))
    && LockMoves(HasMutex(k.pc), HasMutex(k'.pc), s.mutex, s'.mutex, Worker(t))
    && (if InList(k.pc) == InList(k'.pc) then s'.list == s.list
        else if InList(k.pc) then
          s'.list == Without(s.list, t) && k'.pc.Unlink? && k'.pc.u == UUnlock(t in s.list && s'.list == [])
        else s'.list == [t] + s.list)
    && (if k.pc.Unlink? && k.pc.u == UWake then s'.waiters == Woken(s.waiters)
        else s'.waiters == s.waiters && (Waking(k.pc) ==> Waking(k'.pc)))
  }

  /** A worker that finds a lock taken stays where it is. */
  lemma StaysPut(s: State, t: nat)
    requires t in s.tasks && !(s.tasks[t].pc.Unlink? && s.tasks[t].pc.u == UWake)
    ensures WorkerEffect(s, s, t)
  {
    assert s.tasks == s.tasks[t := s.tasks[t]];
  }

  lemma LinkDoes(s: State, t: nat, p: LinkPc, refused: bool)
    requires t in s.tasks && TaskOk(s.tasks[t]) && s.tasks[t].pc == Link(p)
    ensures WorkerEffect(s, LinkStep(s, t, p, refused), t)
  {
    hide Without, Woken, Undumped;
    match p
    case LLock =>
    case LPush =>
    case LUnlock =>
  }

  lemma LinkKeeps(s: State, t: nat, p: LinkPc, refused: bool)
    requires t in s.tasks && TaskOk(s.tasks[t]) && s.tasks[t].pc == Link(p)
    ensures TaskOk(LinkStep(s, t, p, refused).tasks[t])
  {
    hide Without, Woken;
    match p
    case LLock =>
    case LPush =>
    case LUnlock =>
  }

  lemma ExecDoes(s: State, t: nat, p: ExecPc)
    requires t in s.tasks && TaskOk(s.tasks[t]) && s.tasks[t].pc == Exec(p)
    ensures WorkerEffect(s, ExecStep(s, t, p), t)
  {
    hide WorkerEffect, ExecStep;
    if p.ELock? || p.EReadyLock? { ExecLocks(s, t, p); }
    else if p.EUnlock? || p.EReadyUnlock? { ExecUnlocks(s, t, p); }
    else { ExecWorks(s, t, p); }
  }

  lemma ExecLocks(s: State, t: nat, p: ExecPc)
    requires t in s.tasks && s.tasks[t].pc == Exec(p) && (p.ELock? || p.EReadyLock?)
    ensures WorkerEffect(s, ExecStep(s, t, p), t)
  {
    hide Without, Woken;
    if s.lock != None {
      StaysPut(s, t);
      hide WorkerEffect;
    }
  }

  lemma ExecUnlocks(s: State, t: nat, p: ExecPc)
    requires t in s.tasks && s.tasks[t].pc == Exec(p) && (p.EUnlock? || p.EReadyUnlock?)
    ensures WorkerEffect(s, ExecStep(s, t, p), t)
  {
    hide Without, Woken;
  }

  lemma ExecWorks(s: State, t: nat, p: ExecPc)
    requires t in s.tasks && TaskOk(s.tasks[t]) && s.tasks[t].pc == Exec(p)
    requires p.ESwap? || p.ESerialize? || p.EDrop? || p.EReady?
    ensures WorkerEffect(s, ExecStep(s, t, p), t)
  {
    hide Without, Woken, Undumped;
  }

  lemma ExecKeeps(s: State, t: nat, p: ExecPc)
    requires t in s.tasks && TaskOk(s.tasks[t]) && s.tasks[t].pc == Exec(p)
    ensures t in ExecStep(s, t, p).tasks && TaskOk(ExecStep(s, t, p).tasks[t])
  {
    if p.ELock? || p.EUnlock? || p.EReadyLock? || p.EReadyUnlock? {
      ExecLocksKeep(s, t, p);
    } else {
      ExecWorksKeep(s, t, p);
    }
    hide TaskOk, ExecStep;
  }

  lemma ExecLocksKeep(s: State, t: nat, p: ExecPc)
    requires t in s.tasks && TaskOk(s.tasks[t]) && s.tasks[t].pc == Exec(p)
    requires p.ELock? || p.EUnlock? || p.EReadyLock? || p.EReadyUnlock?
    ensures t in ExecStep(s, t, p).tasks && TaskOk(ExecStep(s, t, p).tasks[t])
  {
  }

  lemma ExecWorksKeep(s: State, t: nat, p: ExecPc)
    requires t in s.tasks && TaskOk(s.tasks[t]) && s.tasks[t].pc == Exec(p)
    requires p.ESwap? || p.ESerialize? || p.EDrop? || p.EReady?
    ensures t in ExecStep(s, t, p).tasks && TaskOk(ExecStep(s, t, p).tasks[t])
  {
  }

  lemma CompleteDoes(s: State, t: nat, p: CompletePc, skip: bool)
    requires t in s.tasks && TaskOk(s.tasks[t]) && s.tasks[t].pc == Complete(p)
    ensures WorkerEffect(s, CompleteStep(s, t, p, skip), t)
  {
    hide Without, Woken, Undumped;
    match p
    case CLock =>
    case CRead =>
    case CUnlock(_) =>
    case CDispose =>
    case CClear =>
  }

  lemma CompleteKeeps(s: State, t: nat, p: CompletePc, skip: bool)
    requires t in s.tasks && TaskOk(s.tasks[t]) && s.tasks[t].pc == Complete(p)
    ensures TaskOk(CompleteStep(s, t, p, skip).tasks[t])
  {
    hide Without, Woken;
    match p
    case CLock =>
    case CRead =>
    case CUnlock(_) =>
    case CDispose =>
    case CClear =>
  }

  lemma UnlinkDoes(s: State, t: nat, p: UnlinkPc, refused: bool)
    requires t in s.tasks && s.tasks[t].pc == Unlink(p, refused)
    ensures WorkerEffect(s, UnlinkStep(s, t, p, refused), t)
  {
    hide WorkerEffect, UnlinkStep;
    if p.UMutex? || p.URelease? { UnlinkMutex(s, t, p, refused); }
    else if p.ULock? { UnlinkLock(s, t, refused); }
    else { UnlinkWorks(s, t, p, refused); }
  }

  lemma UnlinkMutex(s: State, t: nat, p: UnlinkPc, refused: bool)
    requires t in s.tasks && s.tasks[t].pc == Unlink(p, refused) && (p.UMutex? || p.URelease?)
    ensures WorkerEffect(s, UnlinkStep(s, t, p, refused), t)
  {
    hide Without, Woken;
    if p.UMutex? && s.mutex != None {
      StaysPut(s, t);
      hide WorkerEffect;
    }
  }

  lemma UnlinkLock(s: State, t: nat, refused: bool)
    requires t in s.tasks && s.tasks[t].pc == Unlink(ULock, refused)
    ensures WorkerEffect(s, UnlinkStep(s, t, ULock, refused), t)
  {
    hide Without, Woken;
    if s.lock != None {
      StaysPut(s, t);
      hide WorkerEffect;
    }
  }

  lemma UnlinkWorks(s: State, t: nat, p: UnlinkPc, refused: bool)
    requires t in s.tasks && s.tasks[t].pc == Unlink(p, refused) && (p.URemove? || p.UUnlock? || p.UWake?)
    ensures WorkerEffect(s, UnlinkStep(s, t, p, refused), t)
  {
    hide Without, Woken;
  }

  lemma UnlinkKeeps(s: State, t: nat, p: UnlinkPc, refused: bool)
    requires t in s.tasks && TaskOk(s.tasks[t]) && s.tasks[t].pc == Unlink(p, refused)
    ensures TaskOk(UnlinkStep(s, t, p, refused).tasks[t])
  {
    hide Without, Woken;
    match p
    case UMutex =>
    case ULock =>
    case URemove =>
    case UUnlock(_) =>
    case UWake =>
    case URelease =>
  }

  lemma SyncDoes(s: State, t: nat, p: SyncPc, skip: bool)
    requires t in s.tasks && TaskOk(s.tasks[t]) && s.tasks[t].pc == Sync(p)
    ensures WorkerEffect(s, SyncStep(s, t, p, skip), t) && TaskOk(SyncStep(s, t, p, skip).tasks[t])
  {
    hide Without, Woken;
    match p
    case SSerialize =>
    case SDispose =>
    case SFree =>
  }

  lemma WorkerDoes(s: State, t: nat, choice: bool)
    requires t in s.tasks && TaskOk(s.tasks[t])
    ensures WorkerEffect(s, WorkerStep(s, t, choice), t) && TaskOk(WorkerStep(s, t, choice).tasks[t])
  {
    match s.tasks[t].pc
    case Link(p) => LinkDoes(s, t, p, choice); LinkKeeps(s, t, p, choice); hide LinkStep, TaskOk, WorkerEffect;
    case Exec(p) => ExecDoes(s, t, p); ExecKeeps(s, t, p); hide ExecStep, TaskOk, WorkerEffect;
    case Complete(p) =>
      CompleteDoes(s, t, p, choice);
      CompleteKeeps(s, t, p, choice);
      hide CompleteStep, TaskOk, WorkerEffect;
    case Unlink(p, refused) =>
      UnlinkDoes(s, t, p, refused);
      UnlinkKeeps(s, t, p, refused);
      hide UnlinkStep, TaskOk, WorkerEffect;
    case Sync(p) => SyncDoes(s, t, p, choice); hide SyncStep, TaskOk, WorkerEffect;
    case Free =>
    case Finished(_) =>
  }

  lemma WorkerLocks(s: State, s': State, t: nat)
    requires LocksOk(s) && WorkerEffect(s, s', t)
    ensures LocksOk(s')
  {
    hide LocksOk, Without, InList, HasLock, HasMutex, LockMoves;
    forall b | b != Worker(t) ensures InLock(s', b) == InLock(s, b) && InMutex(s', b) == InMutex(s, b) {
      assert b.Waiter? && b.w in s.waiters ==>
        && WaitHasLock(s.waiters[b.w]) == WaitHasLock(s'.waiters[b.w])
        && WaitHasMutex(s.waiters[b.w]) == WaitHasMutex(s'.waiters[b.w]);
    }
    LockFrame(s, s', Worker(t));
  }

  lemma WorkerList(s: State, s': State, t: nat)
    requires ListOk(s) && WorkerEffect(s, s', t)
    ensures ListOk(s')
  {
    hide HasLock, HasMutex, Without;
    WithoutRemoves(s.list, t);
  }

  lemma WorkerClaims(s: State, s': State, t: nat, d: nat)
    requires WorkerEffect(s, s', t) && TaskOk(s.tasks[t]) && d in s.dumpers && ClaimOk(s, d)
    ensures ClaimOk(s', d)
  {
    hide HasLock, HasMutex, Without, InList;
  }

  lemma WorkerWaiters(s: State, s': State, t: nat)
    requires WorkerEffect(s, s', t) && LocksOk(s) && ListOk(s) && WaitersOk(s)
    ensures WaitersOk(s')
  {
    WithoutRemoves(s.list, t);
    forall w | w in s.waiters && (s.waiters[w] == WaitUnlock(false) || s.waiters[w] == WaitDecide(false))
      ensures s'.list != []
    {
      assert InMutex(s, Waiter(w)) && s.mutex != Some(Worker(t));
      assert !InMutex(s, Worker(t));
    }
    hide Without, HasLock, LocksOk;
    if WakePending(s) && !(s.tasks[t].pc.Unlink? && s.tasks[t].pc.u == UWake) {
      var u :| u in s.tasks && Waking(s.tasks[u].pc);
      assert Waking(s'.tasks[u].pc);
    }
    if Waking(s'.tasks[t].pc) { assert WakePending(s'); }
  }

  lemma WorkerInv(s: State, t: nat, choice: bool)
    requires Inv(s) && t in s.tasks
    ensures Inv(WorkerStep(s, t, choice))
  {
    hide WorkerStep, LocksOk, ListOk, WaitersOk, ClaimOk, TaskOk, HasLock, HasMutex, InList;
    var s' := WorkerStep(s, t, choice);
    WorkerDoes(s, t, choice);
    WorkerLocks(s, s', t);
    WorkerList(s, s', t);
    forall d | d in s'.dumpers ensures ClaimOk(s', d) { WorkerClaims(s, s', t, d); }
    WorkerWaiters(s, s', t);
  }

  // ------------------------------------------------------- dump and wait steps

  ghost predicate CanDump(s: State, d: nat) { Inv(s) && d in s.dumpers }

  lemma DumpDefined(s: State, d: nat, again: bool)
    requires CanDump(s, d)
    ensures DumpStep.requires(s, d, again)
  {
    assert ClaimOk(s, d);
    hide LocksOk, TaskOk, WaitersOk, ClaimantsOk;
  }

  /** Summary of a dump step that leaves all tasks alone. */
  ghost predicate DumpIdle(s: State, s': State, d: nat) {
    && d in s.dumpers && d in s'.dumpers
    && s' == s.(dumpers := s.dumpers[d := s'.dumpers[d]], lock := s'.lock)
    && LockMoves(DumpHasLock(s.dumpers[d]), DumpHasLock(s'.dumpers[d]), s.lock, s'.lock, Dumper(d))
    && ClaimOf(s'.dumpers[d]) == ClaimOf(s.dumpers[d])
    && (ClaimOf(s.dumpers[d]).Some? ==> s.dumpers[d].ScanUnlock?)
    && (s'.dumpers[d].DumpSerialize? ==> s.dumpers[d].ScanUnlock? && ClaimOf(s.dumpers[d]).value.serialize)
    && (s'.dumpers[d].DumpWrite? ==> s.dumpers[d].ScanUnlock? && !ClaimOf(s.dumpers[d]).value.serialize)
  }

  /** Summary of a dump step that changes task `t`, which it has or takes a claim on. */
  ghost predicate DumpTouches(s: State, s': State, d: nat, t: nat) {
    && d in s.dumpers && d in s'.dumpers && t in s.tasks && t in s'.tasks
    && s' == s.(dumpers := s.dumpers[d := s'.dumpers[d]], tasks := s.tasks[t := s'.tasks[t]])
    && DumpHasLock(s.dumpers[d]) == DumpHasLock(s'.dumpers[d])
    && s'.tasks[t].pc == s.tasks[t].pc
    && (s.tasks[t].claimant == None || s.tasks[t].claimant == Some(d))
    && (ClaimOf(s.dumpers[d]).Some? ==> ClaimOf(s.dumpers[d]).value.task == t)
    && TaskOk(s'.tasks[t]) && ClaimOk(s', d)
    && s'.tasks[t].claimant == (if ClaimOf(s'.dumpers[d]).Some? then Some(d) else None)
    && (ClaimOf(s'.dumpers[d]).Some? ==> ClaimOf(s'.dumpers[d]).value.task == t)
  }

  lemma DumpIdles(s: State, d: nat, again: bool)
    requires DumpStep.requires(s, d, again)
    requires !s.dumpers[d].DumpSerialize? && !s.dumpers[d].DumpWrite?
    requires s.dumpers[d].Scan? && s.dumpers[d].k < |s.list| ==>
      s.tasks[s.list[s.dumpers[d].k]].state !in {Pending, Ready}
    ensures DumpIdle(s, DumpStep(s, d, again), d)
  {
  }

  lemma DumpClaimsTask(s: State, d: nat, again: bool)
    requires DumpStep.requires(s, d, again) && s.dumpers[d].Scan? && s.dumpers[d].k < |s.list|
    requires var k := s.tasks[s.list[s.dumpers[d].k]]; k.state in {Pending, Ready} && TaskOk(k)
    ensures DumpTouches(s, DumpStep(s, d, again), d, s.list[s.dumpers[d].k])
  {
  }

  lemma DumpSettles(s: State, d: nat, again: bool)
    requires DumpStep.requires(s, d, again) && (s.dumpers[d].DumpSerialize? || s.dumpers[d].DumpWrite?)
    requires ClaimOk(s, d) && TaskOk(s.tasks[s.dumpers[d].c.task])
    ensures DumpTouches(s, DumpStep(s, d, again), d, s.dumpers[d].c.task)
  {
  }

  lemma SamePcs(s: State, s': State)
    requires ListOk(s) && WaitersOk(s) && s'.list == s.list && s'.waiters == s.waiters
    requires s'.tasks.Keys == s.tasks.Keys && forall t :: t in s.tasks ==> s'.tasks[t].pc == s.tasks[t].pc
    ensures ListOk(s') && WaitersOk(s')
  {
    if WakePending(s) {
      var u :| u in s.tasks && Waking(s.tasks[u].pc);
      assert s'.tasks[u].pc == s.tasks[u].pc;
    }
  }

  lemma IdleInv(s: State, s': State, d: nat)
    requires Inv(s) && DumpIdle(s, s', d)
    ensures Inv(s')
  {
    hide TaskOk, HasLock, HasMutex, WaitersOk, ListOk, LocksOk, LockMoves;
    SamePcs(s, s');
    assert InLock(s, Dumper(d)) == DumpHasLock(s.dumpers[d]) && InLock(s', Dumper(d)) == DumpHasLock(s'.dumpers[d]);
    LockFrame(s, s', Dumper(d)) by {
      assert LockMoves(false, false, s.mutex, s'.mutex, Dumper(d)) by { SameLock(s.mutex, Dumper(d)); }
    }
    forall e | e in s'.dumpers ensures ClaimOk(s', e) { assert ClaimOk(s, e); }
  }

  lemma SameLock(l: Option<Actor>, a: Actor)
    ensures LockMoves(false, false, l, l, a)
  {
  }

  lemma TouchInv(s: State, s': State, d: nat, t: nat)
    requires Inv(s) && DumpTouches(s, s', d, t)
    ensures Inv(s')
  {
    hide TaskOk, HasLock, HasMutex, WaitersOk, ListOk, DumpHasLock;
    SamePcs(s, s');
    assert LocksOk(s') by { hide ClaimOk, ClaimantsOk; }
    hide LocksOk;
    forall e | e in s'.dumpers ensures ClaimOk(s', e) { assert ClaimOk(s, e); }
    assert ClaimOk(s, d);
    assert ClaimantsOk(s');
  }

  lemma DumpInv(s: State, d: nat, again: bool)
    requires CanDump(s, d) && DumpStep.requires(s, d, again)
    ensures Inv(DumpStep(s, d, again))
  {
    var s', p := DumpStep(s, d, again), s.dumpers[d];
    assert ClaimOk(s, d);
    hide LocksOk, WaitersOk, ListOk, ClaimantsOk, DumpStep, TaskOk, DumpIdle, DumpTouches;
    if p.DumpSerialize? || p.DumpWrite? {
      DumpSettles(s, d, again);
      TouchInv(s, s', d, p.c.task);
    } else if p.Scan? && p.k < |s.list| && s.tasks[s.list[p.k]].state in {Pending, Ready} {
      DumpClaimsTask(s, d, again);
      TouchInv(s, s', d, s.list[p.k]);
    } else {
      DumpIdles(s, d, again);
      IdleInv(s, s', d);
    }
  }

  ghost predicate WaitEffect(s: State, s': State, w: nat) {
    && w in s.waiters && w in s'.waiters
    && s' == s.(waiters := s.waiters[w := s'.waiters[w]], lock := s'.lock, mutex := s'.mutex)
    && LockMoves(WaitHasLock(s.waiters[w]), WaitHasLock(s'.waiters[w]), s.lock, s'.lock, Waiter(w))
    && LockMoves(WaitHasMutex(s.waiters[w]), WaitHasMutex(s'.waiters[w]), s.mutex, s'.mutex, Waiter(w))
    && (s'.waiters[w] == WaitUnlock(false) || s'.waiters[w] == WaitDecide(false) || s'.waiters[w] == Sleeping ==>
          || s.list != [] || s.waiters[w] == WaitUnlock(false)
          || s.waiters[w] == WaitDecide(false) || s.waiters[w] == Sleeping)
    && (s'.waiters[w] == WaitUnlock(false) || s'.waiters[w] == WaitDecide(false) ==> s.waiters[w] != Sleeping)
  }

  lemma WaitDoes(s: State, w: nat)
    requires w in s.waiters
    ensures WaitEffect(s, WaitStep(s, w), w)
  {
    match s.waiters[w]
    case WaitMutex => case WaitLock => case WaitRead => case WaitUnlock(_) => case WaitDecide(_) =>
    case Sleeping => case Awake => case WaitRelease => case WaitDone =>
  }

  lemma WaitInv(s: State, w: nat)
    requires Inv(s) && w in s.waiters
    ensures Inv(WaitStep(s, w))
  {
    var s' := WaitStep(s, w);
    WaitDoes(s, w);
    hide WaitStep, TaskOk, HasLock, HasMutex, LocksOk, LockMoves;
    assert WakePending(s') <==> WakePending(s);
    LockFrame(s, s', Waiter(w));
    forall d | d in s'.dumpers ensures ClaimOk(s', d) { assert ClaimOk(s, d); }
    assert WaitersOk(s');
  }

  lemma BeginInv(s: State, s': State, a: Action)
    requires Inv(s) && Step(s, s', a) && (a.BeginDump? || a.BeginWait? || a.Spurious? || a.Crash? || a.Submit?)
    ensures Inv(s')
  {
    hide LocksOk, ListOk, WaitersOk, WorkerStep, DumpStep, WaitStep;
    BeginLocks(s, s', a);
    BeginLists(s, s', a);
    forall d | d in s'.dumpers ensures ClaimOk(s', d) { if d in s.dumpers { assert ClaimOk(s, d); } }
  }

  lemma BeginLists(s: State, s': State, a: Action)
    requires ListOk(s) && WaitersOk(s)
    requires Step(s, s', a) && (a.BeginDump? || a.BeginWait? || a.Spurious? || a.Crash? || a.Submit?)
    ensures ListOk(s') && WaitersOk(s')
  {
    hide WorkerStep, DumpStep, WaitStep;
    if WakePending(s) {
      var u :| u in s.tasks && Waking(s.tasks[u].pc);
      assert s'.tasks[u].pc == s.tasks[u].pc;
    }
    hide WakePending;
  }

  lemma BeginLocks(s: State, s': State, a: Action)
    requires LocksOk(s) && Step(s, s', a) && (a.BeginDump? || a.BeginWait? || a.Spurious? || a.Crash? || a.Submit?)
    ensures LocksOk(s')
  {
    forall b ensures InLock(s', b) == InLock(s, b) && InMutex(s', b) == InMutex(s, b) {}
  }

  lemma StepInv(s: State, s': State, a: Action)
    requires Inv(s) && Step(s, s', a)
    ensures Inv(s')
  {
    hide Inv, WorkerStep, DumpStep, WaitStep;
    match a
    case Work(t, choice) => WorkerInv(s, t, choice);
    case Dump(d, again) => DumpInv(s, d, again);
    case WaitOn(w) => WaitInv(s, w);
    case _ => BeginInv(s, s', a);
  }

  lemma {:induction false} RunInv(run: seq<State>, acts: seq<Action>, i: nat)
    requires Run(run, acts) && i < |run|
    ensures Inv(run[i])
  {
    if i == 0 {
      assert Inv(run[0]);
    } else {
      hide Inv, Step;
      RunInv(run, acts, i - 1);
      StepInv(run[i - 1], run[i], acts[i - 1]);
    }
  }

  // ------------------------------------------------------- main results

  /** Somebody holds a claim on task `t` and will serialize (if needed) and write it. */
  ghost predicate Owed(s: State, t: nat) {
    exists d :: d in s.dumpers && ClaimOf(s.dumpers[d]).Some? && ClaimOf(s.dumpers[d]).value.task == t
  }

  /** In every interleaving of workers, dumps and waits, of a task that the pool accepted
      or that ran inline: its batch is never serialized or disposed of twice, never
      disposed of unserialized, and once the task is freed and no dump still owes it
      anything, both have happened exactly once. Whoever serializes or disposes has the
      items and the envelope to do it with, and the release finds neither left over. */
  lemma EachBatchExactlyOnce(run: seq<State>, acts: seq<Action>, i: nat, t: nat)
    requires Run(run, acts) && i < |run| && t in run[i].tasks
    ensures var k := run[i].tasks[t];
      && k.serialized <= 1 && |k.disposals| <= 1
      && (|k.disposals| == 1 ==> k.serialized == 1)
      && (k.freed >= 1 && !Refused(k.pc) && !Owed(run[i], t) ==> k.serialized == 1 && |k.disposals| == 1)
      && (!Refused(k.pc) ==> k.resumed == 0 && k.redisposals == [])
      && (k.pc == Exec(ESerialize) ==> k.items && k.envelope)
      && (k.pc == Complete(CDispose) ==> k.envelope)
      && (k.pc == Free || k.pc == Finished(false) ==> !k.items && !k.envelope)
  {
    RunInv(run, acts, i);
    var s := run[i];
    assert TaskOk(s.tasks[t]);
    if s.tasks[t].claimant.Some? {
      var d := s.tasks[t].claimant.value;
      assert d in s.dumpers && ClaimOf(s.dumpers[d]).value.task == t;
      assert ClaimOk(s, d);
    }
    hide LocksOk, ListOk, WaitersOk;
  }

  /** Of a task that the pool refused: once it is freed and no dump owes it anything, its
      batch has been serialized and disposed of exactly once if and only if no dump claimed
      it before the submitter took it off the list; otherwise twice, since the submitter
      goes on with the envelope and the items it still knows. */
  lemma RefusedExactlyOnce(run: seq<State>, acts: seq<Action>, i: nat, t: nat)
    requires Run(run, acts) && i < |run| && t in run[i].tasks
    ensures var k := run[i].tasks[t];
      Refused(k.pc) && k.freed >= 1 && !Owed(run[i], t) ==>
        && (k.serialized + k.resumed == 1 && |k.disposals| + |k.redisposals| == 1 <==> k.state != Dumped)
        && (k.state == Dumped ==> k.serialized + k.resumed == 2 && |k.disposals| + |k.redisposals| == 2)
  {
    RunInv(run, acts, i);
    var s := run[i];
    assert TaskOk(s.tasks[t]);
    if s.tasks[t].claimant.Some? {
      var d := s.tasks[t].claimant.value;
      assert d in s.dumpers && ClaimOf(s.dumpers[d]).value.task == t;
    }
    hide LocksOk, ListOk, WaitersOk;
  }

  /** Once the submitter has taken the task off the list, no dump claims it any more: the
      condition is settled by then. */
  lemma OffListIsOutOfReach(run: seq<State>, acts: seq<Action>, i: nat, t: nat)
    requires Run(run, acts) && i + 1 < |run| && t in run[i].tasks && t !in run[i].list
    requires run[i].tasks[t].state != Dumped
    ensures t in run[i + 1].tasks && run[i + 1].tasks[t].state != Dumped
  {
    RunInv(run, acts, i);
    var s, s', a := run[i], run[i + 1], acts[i];
    assert Step(s, s', a);
    assert TaskOk(s.tasks[t]);
    hide LocksOk, WaitersOk, ListOk, ClaimantsOk, TaskOk, LockMoves, HasLock, HasMutex, InList;
    match a
    case Work(u, choice) =>
      hide WorkerStep;
      assert TaskOk(s.tasks[u]);
      WorkerDoes(s, u, choice);
      if u == t { WorkerNeverDumps(s, t, choice); }
    case Dump(d, again) => hide DumpStep; DumpsListed(s, d, again, t);
    case WaitOn(w) => WaitDoes(s, w); hide WaitStep;
    case _ =>
  }

  lemma WorkerNeverDumps(s: State, t: nat, choice: bool)
    requires t in s.tasks && s.tasks[t].state != Dumped
    ensures var s' := WorkerStep(s, t, choice); t in s'.tasks && s'.tasks[t].state != Dumped
  {
    hide LinkStep, ExecStep, CompleteStep, UnlinkStep, SyncStep;
    match s.tasks[t].pc
    case Link(p) => LinkNeverDumps(s, t, p, choice);
    case Exec(p) => ExecNeverDumps(s, t, p);
    case Complete(p) => CompleteNeverDumps(s, t, p, choice);
    case Unlink(p, refused) => UnlinkNeverDumps(s, t, p, refused);
    case Sync(p) => SyncNeverDumps(s, t, p, choice);
    case Free =>
    case Finished(_) =>
  }

  lemma LinkNeverDumps(s: State, t: nat, p: LinkPc, refused: bool)
    requires t in s.tasks && s.tasks[t].state != Dumped
    ensures var s' := LinkStep(s, t, p, refused); t in s'.tasks && s'.tasks[t].state != Dumped
  {
  }

  lemma ExecNeverDumps(s: State, t: nat, p: ExecPc)
    requires t in s.tasks && s.tasks[t].state != Dumped
    ensures var s' := ExecStep(s, t, p); t in s'.tasks && s'.tasks[t].state != Dumped
  {
  }

  lemma CompleteNeverDumps(s: State, t: nat, p: CompletePc, skip: bool)
    requires t in s.tasks && s.tasks[t].state != Dumped
    ensures var s' := CompleteStep(s, t, p, skip); t in s'.tasks && s'.tasks[t].state != Dumped
  {
  }

  lemma UnlinkNeverDumps(s: State, t: nat, p: UnlinkPc, refused: bool)
    requires t in s.tasks && s.tasks[t].state != Dumped
    ensures var s' := UnlinkStep(s, t, p, refused); t in s'.tasks && s'.tasks[t].state != Dumped
  {
    hide Without, Woken;
  }

  lemma SyncNeverDumps(s: State, t: nat, p: SyncPc, skip: bool)
    requires t in s.tasks && s.tasks[t].state != Dumped
    ensures var s' := SyncStep(s, t, p, skip); t in s'.tasks && s'.tasks[t].state != Dumped
  {
  }

  lemma DumpsListed(s: State, d: nat, again: bool, t: nat)
    requires DumpStep.requires(s, d, again) && t in s.tasks && t !in s.list && s.tasks[t].state != Dumped
    ensures var s' := DumpStep(s, d, again); t in s'.tasks && s'.tasks[t].state != Dumped
  {
  }

  /** No dump is ever stuck: what its step takes for granted holds in every state. */
  lemma DumpsAreNeverStuck(run: seq<State>, acts: seq<Action>, i: nat, d: nat, again: bool)
    requires Run(run, acts) && i < |run| && d in run[i].dumpers
    ensures DumpStep.requires(run[i], d, again)
  {
    hide Inv;
    RunInv(run, acts, i);
    DumpDefined(run[i], d, again);
  }

  /** A task is freed at most once, only when it is off the list, and neither its worker
      nor a scanning dump can touch it afterwards. */
  lemma FreedTasksUnreachable(run: seq<State>, acts: seq<Action>, i: nat, t: nat)
    requires Run(run, acts) && i < |run| && t in run[i].tasks
    ensures var s := run[i]; var k := s.tasks[t];
      && k.freed <= 1
      && (k.freed == 1 <==> k.pc.Finished?)
      && (k.freed == 1 ==> t !in s.list)
      && (forall d :: d in s.dumpers && s.dumpers[d].Scan? && s.dumpers[d].k < |s.list| ==>
            s.list[s.dumpers[d].k] in s.tasks && s.tasks[s.list[s.dumpers[d].k]].freed == 0)
  {
    RunInv(run, acts, i);
    var s := run[i];
    assert TaskOk(s.tasks[t]);
    forall d | d in s.dumpers && s.dumpers[d].Scan? && s.dumpers[d].k < |s.list|
      ensures s.list[s.dumpers[d].k] in s.tasks && s.tasks[s.list[s.dumpers[d].k]].freed == 0
    {
      var u := s.list[s.dumpers[d].k];
      assert u in s.list && TaskOk(s.tasks[u]);
    }
    hide LocksOk, WaitersOk;
  }

  /** No lost wake-up: a caller of `batch_task_wait_all` sleeps only while there are
      tasks, or while the worker that removed the last one is about to wake it. */
  lemma NeverSleepsOnEmptyList(run: seq<State>, acts: seq<Action>, i: nat, w: nat)
    requires Run(run, acts) && i < |run| && w in run[i].waiters && run[i].waiters[w] == Sleeping
    ensures run[i].list != [] || WakePending(run[i])
  {
    RunInv(run, acts, i);
    hide LocksOk, ListOk, TaskOk;
  }

  // ------------------------------------------------------- a batch processed twice

  ghost predicate Reachable(s: State) { exists run, acts :: Run(run, acts) && run[|run| - 1] == s }

  lemma ReachStep(s: State, s': State, a: Action)
    requires Reachable(s) && Step(s, s', a)
    ensures Reachable(s')
  {
    hide Step, Init;
    var run, acts :| Run(run, acts) && run[|run| - 1] == s;
    var run', acts' := run + [s'], acts + [a];
    assert forall i :: 0 <= i < |acts'| ==> Step(run'[i], run'[i + 1], acts'[i]);
    assert Run(run', acts');
    assert run'[|run'| - 1] == s';
  }

  /** Task 0 of `s` and dump 0, moved on. */
  function At(k: Task, list: seq<nat>, lock: Option<Actor>, mutex: Option<Actor>, dump: map<nat, DumpPc>): State {
    State(map[0 := k], list, lock, mutex, false, dump, map[])
  }

  /** The submitter links its task and the pool refuses it; a dump is about to begin. */
  lemma LinkedAndRefused()
    ensures Reachable(At(NewTask().(pc := Unlink(UMutex, true)), [0], None, None, map[0 := DumpLock]))
  {
    var k := NewTask();
    var s0 := State(map[], [], None, None, false, map[], map[]);
    assert Run([s0], []) && [s0][|[s0]| - 1] == s0;
    assert Reachable(s0);
    var s1 := At(k, [], None, None, map[]);
    ReachStep(s0, s1, Submit(0));
    var s2 := At(k.(pc := Link(LPush)), [], Some(Worker(0)), None, map[]);
    ReachStep(s1, s2, Work(0, false));
    var s3 := At(k.(pc := Link(LUnlock)), [0], Some(Worker(0)), None, map[]);
    ReachStep(s2, s3, Work(0, false));
    var s4 := At(k.(pc := Unlink(UMutex, true)), [0], None, None, map[]);
    ReachStep(s3, s4, Work(0, true));
    ReachStep(s4, At(k.(pc := Unlink(UMutex, true)), [0], None, None, map[0 := DumpLock]), BeginDump(0));
  }

  /** The task of that run, as the dump leaves it. */
  function DumpedTask(): Task {
    NewTask().(items := false, envelope := false, state := Dumped, serialized := 1, disposals := [Disk])
  }

  lemma ClaimedAndDumped()
    ensures Reachable(At(DumpedTask().(pc := Unlink(UMutex, true)), [0], None, None, map[0 := DumpLock]))
  {
    LinkedAndRefused();
    hide Reachable;
    var k := NewTask().(pc := Unlink(UMutex, true));
    var s0 := At(k, [0], None, None, map[0 := DumpLock]);
    var s1 := At(k, [0], Some(Dumper(0)), None, map[0 := Scan(0)]);
    ReachStep(s0, s1, Dump(0, false));
    var claim := Claim(0, true);
    var k2 := k.(items := false, envelope := false, state := Dumped, claimant := Some(0));
    var s2 := At(k2, [0], Some(Dumper(0)), None, map[0 := ScanUnlock(Some(claim))]);
    ReachStep(s1, s2, Dump(0, false));
    var s3 := At(k2, [0], None, None, map[0 := DumpSerialize(claim)]);
    ReachStep(s2, s3, Dump(0, false));
    var s4 := At(k2.(serialized := 1), [0], None, None, map[0 := DumpWrite(claim)]);
    ReachStep(s3, s4, Dump(0, false));
    assert NewTask().disposals + [Disk] == [Disk];
    ReachStep(s4, At(DumpedTask().(pc := Unlink(UMutex, true)), [0], None, None, map[0 := DumpLock]), Dump(0, false));
  }

  lemma TakenOffTheList()
    ensures Reachable(At(DumpedTask().(pc := Sync(SSerialize)), [], None, None, map[0 := DumpLock]))
  {
    ClaimedAndDumped();
    hide Reachable;
    var k, w, d := DumpedTask(), Some(Worker(0)), map[0 := DumpLock];
    var s0 := At(k.(pc := Unlink(UMutex, true)), [0], None, None, d);
    var s1 := At(k.(pc := Unlink(ULock, true)), [0], None, w, d);
    ReachStep(s0, s1, Work(0, false));
    var s2 := At(k.(pc := Unlink(URemove, true)), [0], w, w, d);
    ReachStep(s1, s2, Work(0, false));
    var s3 := At(k.(pc := Unlink(UUnlock(true), true)), [], w, w, d);
    ReachStep(s2, s3, Work(0, false));
    var s4 := At(k.(pc := Unlink(UWake, true)), [], None, w, d);
    ReachStep(s3, s4, Work(0, false));
    var s5 := At(k.(pc := Unlink(URelease, true)), [], None, w, d);
    assert Woken(s4.waiters) == map[];
    ReachStep(s4, s5, Work(0, false));
    ReachStep(s5, At(k.(pc := Sync(SSerialize)), [], None, None, d), Work(0, false));
  }

  /** The claim can fall into that window: a run that ends with one batch serialized twice
      and disposed of twice, to disk by the dump and to the transport by the submitter. */
  lemma RefusedTwice() returns (s: State)
    ensures Reachable(s) && 0 in s.tasks && s.tasks[0].freed == 1
    ensures s.tasks[0].serialized + s.tasks[0].resumed == 2
    ensures s.tasks[0].disposals + s.tasks[0].redisposals == [Disk, Transport]
  {
    TakenOffTheList();
    hide Reachable;
    var k, d := DumpedTask(), map[0 := DumpLock];
    var s0 := At(k.(pc := Sync(SSerialize)), [], None, None, d);
    var s1 := At(k.(pc := Sync(SDispose), resumed := 1), [], None, None, d);
    ReachStep(s0, s1, Work(0, false));
    assert k.redisposals + [Transport] == [Transport];
    var s2 := At(k.(pc := Sync(SFree), resumed := 1, redisposals := [Transport]), [], None, None, d);
    ReachStep(s1, s2, Work(0, false));
    s := At(k.(pc := Finished(true), resumed := 1, redisposals := [Transport], freed := 1), [], None, None, d);
    ReachStep(s2, s, Work(0, false));
  }
}
