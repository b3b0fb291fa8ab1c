/**
  Scheduling of the retry poll: any number of enqueues, the poll task on its worker,
  shutdown and seal, interleaved at every atomic operation. A call to enqueue is named
  by the retry file it writes.
 */
module RetryPoll {
  datatype Life = Startup | Running | Sealed
  datatype Flag = Idle | Scheduled | Shutdown

  /** Where an enqueue stands: the operation it does next. */
  datatype Call = Lock | Check | Write | Unlock | Refuse | Promote | Arm | Submit | Done(ok: bool)

  /** Where the poll task stands. `all` tells a scan of every file from the startup scan,
      which considers only files older than the session; a scan lists what was there
      when it opened the directory, and possibly more. */
  datatype Poll =
    | Resting
    | Entered
    | Reset(all: bool)
    | Open(all: bool)
    | Listing(all: bool, todo: set<nat>, seen: set<nat>)
    | Sending(seen: set<nat>)
    | Rearm
    | Resubmit
    | Finish

  datatype Holder = Nobody | Enqueue(i: nat) | Sealer

  datatype Stopping = Up | Dropped | Stopped | Flushed

  datatype Sealing = Before | Holding | Marked | Over

  /** `prior` are the files of earlier sessions that still carry an old time stamp, and
      `stale` those that do not, or to which a triggered pass gave a new one before the
      first poll; `missed` remembers the files whose enqueue found a poll scheduled when that poll had already
      chosen the startup scan. */
  datatype State = State(
    life: Life, flag: Flag, queued: nat, calls: map<nat, Call>, poll: Poll, files: set<nat>,
    prior: set<nat>, holder: Holder, stopping: Stopping, sealing: Sealing, missed: set<nat>,
    stale: set<nat>)

  /** A session that finds files of earlier ones: with an old time stamp, or, after a change
      of the clock, with one that is not before its own start. */
  function Init(prior: set<nat>, late: set<nat>): State {
    State(Startup, Scheduled, 1, map[], Resting, prior + late, prior, Nobody, Up, Before, {}, late - prior)
  }

  // ------------------------------------------------------- enqueue

  function Start(s: State, i: nat): State {
    if i in s.calls || i in s.prior + s.stale then s else s.(calls := s.calls[i := Lock])
  }

  /** One operation of enqueue `i`; `ok` is whether a write succeeds. */
  function EnqueueStep(s: State, i: nat, ok: bool): State {
    if i !in s.calls then s
    else
      match s.calls[i]
      case Lock => if s.holder != Nobody then s else s.(holder := Enqueue(i), calls := s.calls[i := Check])
      case Check => s.(calls := s.calls[i := if s.life == Sealed then Refuse else Write])
      case Write =>
        if ok then s.(files := s.files + {i}, calls := s.calls[i := Unlock])
        else s.(calls := s.calls[i := Refuse])
      case Unlock => s.(holder := Nobody, calls := s.calls[i := Promote])
      case Refuse => s.(holder := Nobody, calls := s.calls[i := Done(false)])
      case Promote => s.(life := if s.life == Startup then Running else s.life, calls := s.calls[i := Arm])
      case Arm =>
        if s.flag == Idle then s.(flag := Scheduled, calls := s.calls[i := Submit])
        else
          s.(missed := if s.poll == Reset(false) then s.missed + {i} else s.missed,
             calls := s.calls[i := Done(true)])
      case Submit => s.(queued := s.queued + 1, calls := s.calls[i := Done(true)])
      case Done(_) => s
  }

  // ------------------------------------------------------- the poll task

  function Considers(s: State, all: bool): set<nat> { if all then s.files else s.files * s.prior }

  datatype Choice = Go | Skip | See(f: nat) | Resolve(g: nat) | Restamp(h: nat)

  /** One operation of the worker. `Skip` is a scan without upload consent, which reports
      one file; `Resolve` takes a file out of retry form, by sending it or giving up. Between
      polls the worker runs triggered passes, which resolve files too, and `Restamp` those
      that the network fails: while the session starts up, that is what makes a file of an
      earlier session look like one of this session. */
  function PollStep(s: State, c: Choice): State {
    match s.poll
    case Resting =>
      if c.Resolve? then s.(files := s.files - {c.g})
      else if c.Restamp? then
        if s.life == Startup && c.h in s.files * s.prior then s.(prior := s.prior - {c.h}, stale := s.stale + {c.h})
        else s
      else if s.queued == 0 then s else s.(queued := s.queued - 1, poll := Entered)
    case Entered => s.(poll := Reset(s.life != Startup))
    case Reset(all) => s.(flag := if s.flag == Scheduled then Idle else s.flag, poll := Open(all))
    case Open(all) => s.(poll := if c == Skip then Rearm else Listing(all, Considers(s, all), {}))
    case Listing(all, todo, seen) =>
      if c.See? && c.f in Considers(s, all) then s.(poll := Listing(all, todo, seen + {c.f}))
      else if c == Go && todo <= seen then s.(poll := Sending(seen))
      else s
    case Sending(seen) =>
      if c.Resolve? && c.g in seen then s.(files := s.files - {c.g}, poll := Sending(seen - {c.g}))
      else if c == Go then s.(poll := if seen != {} then Rearm else Finish)
      else s
    case Rearm =>
      if s.flag == Idle then s.(flag := Scheduled, poll := Resubmit) else s.(poll := Finish)
    case Resubmit => s.(queued := s.queued + 1, poll := Finish)
    case Finish => s.(life := if s.life == Startup then Running else s.life, poll := Resting)
  }

  // ------------------------------------------------------- shutdown and seal

  function ShutdownStep(s: State): State {
    match s.stopping
    case Up => s.(queued := 0, stopping := Dropped)
    case Dropped => s.(flag := Shutdown, stopping := Stopped)
    case _ => s.(stopping := Flushed)
  }

  function SealStep(s: State): State {
    match s.sealing
    case Before => if s.holder != Nobody then s else s.(holder := Sealer, sealing := Holding)
    case Holding => s.(life := Sealed, sealing := Marked)
    case Marked => s.(holder := Nobody, sealing := Over)
    case Over => s
  }

  // ------------------------------------------------------- runs

  datatype Event = Begin(i: nat) | OfCall(j: nat, ok: bool) | OfPoll(c: Choice) | OfShutdown | OfSeal

  function Do(s: State, e: Event): State {
    match e
    case Begin(i) => Start(s, i)
    case OfCall(i, ok) => EnqueueStep(s, i, ok)
    case OfPoll(c) => PollStep(s, c)
    case OfShutdown => ShutdownStep(s)
    case OfSeal => SealStep(s)
  }

  function Run(s: State, es: seq<Event>): State
    decreases |es|
  {
    if es == [] then s else Run(Do(s, es[0]), es[1..])
  }

  // ------------------------------------------------------- the poll in existence

  /** The poll task itself still stands for the scheduled poll, or is about to submit one. */
  predicate AtPoll(s: State) { s.poll == Resubmit || s.poll == Entered || s.poll.Reset? }

  /** Enqueue `i` has scheduled a poll that it has yet to submit. */
  predicate Submits(s: State, i: nat) { i in s.calls && s.calls[i] == Submit }

  /** A scheduled poll is in one place only, and none is scheduled while the flag is idle. */
  ghost predicate OnePoll(s: State) {
    && s.queued <= 1
    && (s.queued == 1 ==> s.flag != Idle && !AtPoll(s))
    && (AtPoll(s) ==> s.flag != Idle)
    && (forall i :: Submits(s, i) ==> s.flag != Idle && s.queued == 0 && !AtPoll(s))
    && (forall i, j :: Submits(s, i) && Submits(s, j) ==> i == j)
    && (s.flag == Scheduled && s.stopping == Up ==> Pending(s) || AtPoll(s))
  }

  /** A poll is in the worker's queue, or an enqueue is about to put it there. */
  ghost predicate Pending(s: State) { s.queued == 1 || exists i :: Submits(s, i) }

  predicate InFlight(s: State, i: nat) {
    i in s.calls && s.calls[i] in {Unlock, Promote, Arm, Submit}
  }

  predicate HoldsLock(c: Call) { c in {Check, Write, Unlock, Refuse} }

  ghost predicate LockOk(s: State) {
    && (forall i :: i in s.calls && HoldsLock(s.calls[i]) ==> s.holder == Enqueue(i))
    && (s.sealing in {Holding, Marked} <==> s.holder == Sealer)
    && (s.life == Sealed <==> s.sealing in {Marked, Over})
    && (forall i :: i in s.calls && s.calls[i] in {Write} ==> s.life != Sealed)
  }

  /** Which files exist, and when the session is still in its startup phase. */
  ghost predicate FilesOk(s: State) {
    && (forall i :: i in s.calls ==> i !in s.prior && i !in s.stale)
    && s.prior !! s.stale
    && (forall f :: f in s.files ==>
          f in s.prior || f in s.stale || (f in s.calls && s.calls[f] !in {Lock, Check, Write, Refuse, Done(false)}))
    && (s.life == Startup ==>
          forall f :: f in s.files && f !in s.prior && f !in s.stale ==> s.calls[f] in {Unlock, Promote})
  }

  predicate ScanOk(s: State) {
    match s.poll
    case Listing(all, todo, seen) => todo <= s.files && seen <= s.files
    case Sending(seen) => seen <= s.files
    case _ => true
  }

  /** A scan that is under way, or about to be, takes `f` into account. */
  predicate Scans(s: State, f: nat) {
    match s.poll
    case Reset(all) => all || f in s.prior
    case Open(all) => all || f in s.prior
    case Listing(all, todo, seen) => f in todo || f in seen
    case Sending(seen) => f in seen
    case Rearm => true
    case _ => false
  }

  ghost predicate Watched(s: State) {
    s.stopping == Up ==> forall f :: f in s.files && !InFlight(s, f) && f !in s.missed && f !in s.stale ==>
      if s.poll.Reset? then Scans(s, f) else s.flag == Scheduled || Scans(s, f)
  }

  ghost predicate Inv(s: State) {
    && OnePoll(s) && LockOk(s) && FilesOk(s) && ScanOk(s) && Watched(s)
    && (s.flag == Shutdown <==> s.stopping in {Stopped, Flushed})
  }
}
