/**
  In-flight batch tasks of the batcher: the pool worker (or the inline caller) that
  serializes and disposes of a batch, the submitter that takes a batch back when the pool
  refuses it, the crash handler that claims and dumps pending ones, and the callers that
  wait for the list of tasks to drain. Every lock operation and every access outside a
  lock is its own step; any number of tasks, dumps and waits interleave.

  `serialized`, `disposals`, `claimant` and `freed` are history variables, as are
  `resumed` and `redisposals`, which count what a submitter did with a batch it took back.
 */
module BatchTasks {
  import opened Wrappers

  datatype TaskState = Pending | Running | Ready | Completing | Dumped

  datatype Disposal = Disk | Transport | Skipped

  /** Program counters of the thread working on a task, one per function it runs. */
  datatype LinkPc = LLock | LPush | LUnlock
  datatype ExecPc = ELock | ESwap | EUnlock(won: bool) | ESerialize | EDrop | EReadyLock | EReady | EReadyUnlock
  datatype CompletePc = CLock | CRead | CUnlock(dumped: bool) | CDispose | CClear
  datatype UnlinkPc = UMutex | ULock | URemove | UUnlock(drained: bool) | UWake | URelease

  /** The submitter serializes and sends the batch itself. It waits for the other tasks
      before that, which changes no task and is left to chance here. */
  datatype SyncPc = SSerialize | SDispose | SFree

  /** `refused` marks the path of a task that the pool did not accept. */
  datatype Pc =
    | Link(l: LinkPc) | Exec(e: ExecPc) | Complete(c: CompletePc)
    | Unlink(u: UnlinkPc, refused: bool) | Sync(y: SyncPc) | Free | Finished(wasRefused: bool)

  /** What a dump takes out of a task under the lock; it keeps no pointer to the task. */
  datatype Claim = Claim(task: nat, serialize: bool)

  datatype DumpPc =
    | DumpLock
    | Scan(k: nat)
    | ScanUnlock(claim: Option<Claim>)
    | DumpSerialize(c: Claim)
    | DumpWrite(c: Claim)
    | DumpDone

  datatype WaitPc =
    | WaitMutex | WaitLock | WaitRead | WaitUnlock(done: bool) | WaitDecide(done: bool)
    | Sleeping | Awake | WaitRelease | WaitDone

  datatype Task = Task(state: TaskState, items: bool, envelope: bool, pc: Pc,
                       serialized: nat, disposals: seq<Disposal>, claimant: Option<nat>, freed: nat,
                       resumed: nat, redisposals: seq<Disposal>)

  datatype Actor = Worker(t: nat) | Dumper(d: nat) | Waiter(w: nat)

  datatype State = State(tasks: map<nat, Task>, list: seq<nat>, lock: Option<Actor>, mutex: Option<Actor>,
                         crashFlush: bool, dumpers: map<nat, DumpPc>, waiters: map<nat, WaitPc>)

  ghost predicate Distinct(xs: seq<nat>) {
    forall i, j :: 0 <= i < j < |xs| ==> xs[i] != xs[j]
  }

  /** The list after `batch_task_unlink_locked`: the first occurrence is unlinked. */
  function Without(xs: seq<nat>, t: nat): (ys: seq<nat>) {
    if xs == [] then [] else if xs[0] == t then xs[1..] else [xs[0]] + Without(xs[1..], t)
  }

  lemma {:induction false} WithoutRemoves(xs: seq<nat>, t: nat)
    requires Distinct(xs)
    ensures Distinct(Without(xs, t))
    ensures forall u :: u in Without(xs, t) <==> u in xs && u != t
  {
    if xs != [] {
      var ys := Without(xs[1..], t);
      assert xs == [xs[0]] + xs[1..];
      WithoutRemoves(xs[1..], t);
      assert xs[0] !in xs[1..];
      if xs[0] != t {
        forall i, j | 0 <= i < j < |[xs[0]] + ys| ensures ([xs[0]] + ys)[i] != ([xs[0]] + ys)[j] {
          if i == 0 { assert ys[j - 1] in ys; }
        }
      }
    }
  }

  function SetTask(s: State, t: nat, task: Task): State { s.(tasks := s.tasks[t := task]) }

  function Goto(s: State, t: nat, pc: Pc): State
    requires t in s.tasks
  {
    SetTask(s, t, s.tasks[t].(pc := pc))
  }

  /** Take the spin lock if it is free, and move on. */
  function TryLock(s: State, t: nat, pc: Pc): State
    requires t in s.tasks
  {
    if s.lock == None then Goto(s, t, pc).(lock := Some(Worker(t))) else s
  }

  /** `batch_task_link`, and then the pool's answer. */
  function LinkStep(s: State, t: nat, p: LinkPc, refused: bool): State
    requires t in s.tasks
  {
    match p
    case LLock => TryLock(s, t, Link(LPush))
    case LPush => Goto(s, t, Link(LUnlock)).(list := [t] + s.list)
    case LUnlock => Goto(s, t, if refused then Unlink(UMutex, true) else Exec(ELock)).(lock := None)
  }

  /** `batch_task_exec` */
  function ExecStep(s: State, t: nat, p: ExecPc): State
    requires t in s.tasks
  {
    var k := s.tasks[t];
    match p
    case ELock => TryLock(s, t, Exec(ESwap))
    case ESwap =>
      if k.state == Pending then SetTask(s, t, k.(state := Running, pc := Exec(EUnlock(true))))
      else Goto(s, t, Exec(EUnlock(false)))
    case EUnlock(won) => Goto(s, t, if won then Exec(ESerialize) else Complete(CLock)).(lock := None)
    case ESerialize => SetTask(s, t, k.(serialized := k.serialized + 1, pc := Exec(EDrop)))
    case EDrop => SetTask(s, t, k.(items := false, pc := Exec(EReadyLock)))
    case EReadyLock => TryLock(s, t, Exec(EReady))
    case EReady => SetTask(s, t, k.(state := Ready, pc := Exec(EReadyUnlock)))
    case EReadyUnlock => Goto(s, t, Complete(CLock)).(lock := None)
  }

  function How(s: State, skip: bool): Disposal { if s.crashFlush then Disk else if !skip then Transport else Skipped }

  /** `batch_task_complete`; `skip` is the upload-consent test. */
  function CompleteStep(s: State, t: nat, p: CompletePc, skip: bool): State
    requires t in s.tasks
  {
    var k := s.tasks[t];
    match p
    case CLock => TryLock(s, t, Complete(CRead))
    case CRead =>
      if k.state == Dumped then Goto(s, t, Complete(CUnlock(true)))
      else SetTask(s, t, k.(state := Completing, pc := Complete(CUnlock(false))))
    case CUnlock(dumped) => Goto(s, t, if dumped then Unlink(UMutex, false) else Complete(CDispose)).(lock := None)
    case CDispose => SetTask(s, t, k.(disposals := k.disposals + [How(s, skip)], pc := Complete(CClear)))
    case CClear => SetTask(s, t, k.(envelope := false, pc := Unlink(UMutex, false)))
  }

  /** `batch_task_unlink` */
  function UnlinkStep(s: State, t: nat, p: UnlinkPc, refused: bool): State
    requires t in s.tasks
  {
    match p
    case UMutex => if s.mutex == None then Goto(s, t, Unlink(ULock, refused)).(mutex := Some(Worker(t))) else s
    case ULock => TryLock(s, t, Unlink(URemove, refused))
    case URemove =>
      var rest := Without(s.list, t);
      Goto(s, t, Unlink(UUnlock(t in s.list && rest == []), refused)).(list := rest)
    case UUnlock(drained) => Goto(s, t, Unlink(if drained then UWake else URelease, refused)).(lock := None)
    case UWake => Goto(s, t, Unlink(URelease, refused)).(waiters := Woken(s.waiters))
    case URelease => Goto(s, t, if refused then Sync(SSerialize) else Free).(mutex := None)
  }

  /** `process_batch_sync` with the envelope and the items that the submitter still knows,
      and the release of the task alone. */
  function SyncStep(s: State, t: nat, p: SyncPc, skip: bool): State
    requires t in s.tasks
  {
    var k := s.tasks[t];
    match p
    case SSerialize => SetTask(s, t, k.(resumed := k.resumed + 1, pc := Sync(SDispose)))
    case SDispose => SetTask(s, t, k.(redisposals := k.redisposals + [How(s, skip)], pc := Sync(SFree)))
    case SFree => SetTask(s, t, k.(freed := k.freed + 1, pc := Finished(true)))
  }

  /** `sentry__cond_wake_all` */
  function Woken(ws: map<nat, WaitPc>): map<nat, WaitPc> {
    map w | w in ws :: if ws[w] == Sleeping then Awake else ws[w]
  }

  /** One step of the thread that works on task `t`; `choice` is the pool's refusal, or
      the lack of upload consent. */
  function WorkerStep(s: State, t: nat, choice: bool): State
    requires t in s.tasks
  {
    var k := s.tasks[t];
    match k.pc
    case Link(p) => LinkStep(s, t, p, choice)
    case Exec(p) => ExecStep(s, t, p)
    case Complete(p) => CompleteStep(s, t, p, choice)
    case Unlink(p, refused) => UnlinkStep(s, t, p, refused)
    case Sync(p) => SyncStep(s, t, p, choice)
    case Free => SetTask(s, t, k.(freed := k.freed + 1, pc := Finished(false)))
    case Finished(_) => s
  }

  /** One step of a crash dump; `again` resolves its bounded retries and lock timeout. */
  function DumpStep(s: State, d: nat, again: bool): State
    requires d in s.dumpers
    requires forall i :: 0 <= i < |s.list| ==> s.list[i] in s.tasks
    requires match s.dumpers[d]
      case DumpSerialize(c) => c.task in s.tasks
      case DumpWrite(c) => c.task in s.tasks
      case _ => true
  {
    match s.dumpers[d]
    case DumpLock =>
      if s.lock == None then s.(dumpers := s.dumpers[d := Scan(0)], lock := Some(Dumper(d)))
      else if again then s else s.(dumpers := s.dumpers[d := DumpDone])
    case Scan(i) =>
      if i >= |s.list| then s.(dumpers := s.dumpers[d := ScanUnlock(None)])
      else
        var t := s.list[i];
        var k := s.tasks[t];
        if k.state == Pending then
          SetTask(s, t, k.(items := false, envelope := false, state := Dumped, claimant := Some(d))).(
            dumpers := s.dumpers[d := ScanUnlock(Some(Claim(t, true)))])
        else if k.state == Ready then
          SetTask(s, t, k.(envelope := false, state := Dumped, claimant := Some(d))).(
            dumpers := s.dumpers[d := ScanUnlock(Some(Claim(t, false)))])
        else s.(dumpers := s.dumpers[d := Scan(i + 1)])
    case ScanUnlock(claim) =>
      s.(lock := None,
         dumpers := s.dumpers[d := if claim.Some? then
                                     if claim.value.serialize then DumpSerialize(claim.value)
                                     else DumpWrite(claim.value)
                                   else if again then DumpLock else DumpDone])
    case DumpSerialize(c) =>
      SetTask(s, c.task, s.tasks[c.task].(serialized := s.tasks[c.task].serialized + 1)).(
        dumpers := s.dumpers[d := DumpWrite(c)])
    case DumpWrite(c) =>
      SetTask(s, c.task, s.tasks[c.task].(disposals := s.tasks[c.task].disposals + [Disk], claimant := None)).(
        dumpers := s.dumpers[d := DumpLock])
    case DumpDone => s
  }

  /** One step of `batch_task_wait_all`. */
  function WaitStep(s: State, w: nat): State
    requires w in s.waiters
  {
    match s.waiters[w]
    case WaitMutex => if s.mutex == None then s.(waiters := s.waiters[w := WaitLock], mutex := Some(Waiter(w))) else s
    case WaitLock => if s.lock == None then s.(waiters := s.waiters[w := WaitRead], lock := Some(Waiter(w))) else s
    case WaitRead => s.(waiters := s.waiters[w := WaitUnlock(s.list == [])])
    case WaitUnlock(done) => s.(waiters := s.waiters[w := WaitDecide(done)], lock := None)
    case WaitDecide(done) =>
      if done then s.(waiters := s.waiters[w := WaitRelease])
      else s.(waiters := s.waiters[w := Sleeping], mutex := None)
    case Sleeping => s
    case Awake => if s.mutex == None then s.(waiters := s.waiters[w := WaitLock], mutex := Some(Waiter(w))) else s
    case WaitRelease => s.(waiters := s.waiters[w := WaitDone], mutex := None)
    case WaitDone => s
  }

  datatype Action =
    | Submit(t: nat) | Work(t: nat, choice: bool)
    | BeginDump(d: nat) | Dump(d: nat, again: bool)
    | BeginWait(w: nat) | WaitOn(w: nat) | Spurious(w: nat)
    | Crash

  function NewTask(): Task { Task(Pending, true, true, Link(LLock), 0, [], None, 0, 0, []) }

  ghost predicate Step(s: State, s': State, a: Action) {
    match a
    case Submit(t) => t !in s.tasks && s' == SetTask(s, t, NewTask())
    case Work(t, choice) => t in s.tasks && s' == WorkerStep(s, t, choice)
    case BeginDump(d) => d !in s.dumpers && s' == s.(dumpers := s.dumpers[d := DumpLock])
    case Dump(d, again) => DumpStep.requires(s, d, again) && s' == DumpStep(s, d, again)
    case BeginWait(w) => w !in s.waiters && s' == s.(waiters := s.waiters[w := WaitMutex])
    case WaitOn(w) => w in s.waiters && s' == WaitStep(s, w)
    case Spurious(w) => w in s.waiters && s.waiters[w] == Sleeping && s' == s.(waiters := s.waiters[w := Awake])
    case Crash => s' == s.(crashFlush := true)
  }

  ghost predicate Init(s: State) {
    s == State(map[], [], None, None, false, map[], map[])
  }

  ghost predicate Run(run: seq<State>, acts: seq<Action>) {
    && |run| == |acts| + 1
    && Init(run[0])
    && forall i :: 0 <= i < |acts| ==> Step(run[i], run[i + 1], acts[i])
  }
}
