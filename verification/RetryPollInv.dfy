/** What every interleaving of enqueues, polls, shutdown and seal keeps. */
module RetryPollInv {
  import opened RetryPoll

  // ------------------------------------------------------- one step

  lemma EnqueueOnePoll(s: State, i: nat, ok: bool)
    requires OnePoll(s)
    ensures OnePoll(EnqueueStep(s, i, ok))
  {
    var s' := EnqueueStep(s, i, ok);
    assert forall j :: j != i ==> Submits(s', j) == Submits(s, j);
    assert Submits(s, i) || Submits(s', i) || Submits(s, i) == Submits(s', i);
    assert Pending(s) ==> Pending(s') by {
      if j :| Submits(s, j) { assert j == i || Submits(s', j); }
    }
  }

  lemma EnqueueLockOk(s: State, i: nat, ok: bool)
    requires LockOk(s)
    ensures LockOk(EnqueueStep(s, i, ok))
  {
  }

  lemma EnqueueFilesOk(s: State, i: nat, ok: bool)
    requires FilesOk(s)
    ensures FilesOk(EnqueueStep(s, i, ok))
  {
  }

  lemma EnqueueWatched(s: State, i: nat, ok: bool)
    requires Inv(s)
    ensures Watched(EnqueueStep(s, i, ok))
  {
    var s' := EnqueueStep(s, i, ok);
    assert Submits(s, i) ==> s.flag != Idle && !s.poll.Reset?;
    assert forall f :: f != i ==> InFlight(s', f) == InFlight(s, f);
    assert forall f :: Scans(s', f) == Scans(s, f);
  }

  lemma EnqueueInv(s: State, i: nat, ok: bool)
    requires Inv(s)
    ensures Inv(EnqueueStep(s, i, ok))
  {
    hide OnePoll, LockOk, FilesOk, ScanOk, Watched, EnqueueStep;
    EnqueueOnePoll(s, i, ok);
    EnqueueLockOk(s, i, ok);
    EnqueueFilesOk(s, i, ok);
    EnqueueWatched(s, i, ok);
    EnqueueScanOk(s, i, ok);
  }

  lemma EnqueueScanOk(s: State, i: nat, ok: bool)
    requires ScanOk(s)
    ensures var s' := EnqueueStep(s, i, ok);
      ScanOk(s') && s'.stopping == s.stopping && (s'.flag == Shutdown <==> s.flag == Shutdown)
  {
  }

  lemma PollOnePoll(s: State, c: Choice)
    requires OnePoll(s)
    ensures OnePoll(PollStep(s, c))
  {
    var s' := PollStep(s, c);
    assert forall j :: Submits(s', j) == Submits(s, j);
  }

  lemma PollLockOk(s: State, c: Choice)
    requires LockOk(s)
    ensures LockOk(PollStep(s, c))
  {
  }

  lemma PollFilesOk(s: State, c: Choice)
    requires FilesOk(s)
    ensures FilesOk(PollStep(s, c))
  {
  }

  lemma PollWatched(s: State, c: Choice)
    requires Inv(s)
    ensures Watched(PollStep(s, c))
  {
    if s.poll.Resting? || s.poll.Listing? || s.poll.Sending? { ScanWatched(s, c); } else { ArmWatched(s, c); }
  }

  lemma ScanWatched(s: State, c: Choice)
    requires ScanOk(s) && Watched(s) && (s.poll.Resting? || s.poll.Listing? || s.poll.Sending?)
    ensures Watched(PollStep(s, c))
  {
  }

  lemma ArmWatched(s: State, c: Choice)
    requires Inv(s) && !s.poll.Resting? && !s.poll.Listing? && !s.poll.Sending?
    ensures Watched(PollStep(s, c))
  {
    hide LockOk;
  }

  lemma PollInv(s: State, c: Choice)
    requires Inv(s)
    ensures Inv(PollStep(s, c))
  {
    PollOnePoll(s, c);
    PollLockOk(s, c);
    PollFilesOk(s, c);
    PollWatched(s, c);
    assert ScanOk(PollStep(s, c));
    hide OnePoll, LockOk, FilesOk, ScanOk, Watched;
  }

  lemma StartInv(s: State, i: nat)
    requires Inv(s)
    ensures Inv(Start(s, i))
  {
    assert forall j :: Submits(Start(s, i), j) == Submits(s, j);
  }

  lemma ShutdownInv(s: State)
    requires Inv(s)
    ensures Inv(ShutdownStep(s))
  {
    assert forall j :: Submits(ShutdownStep(s), j) == Submits(s, j);
  }

  lemma SealInv(s: State)
    requires Inv(s)
    ensures Inv(SealStep(s))
  {
    assert forall j :: Submits(SealStep(s), j) == Submits(s, j);
  }

  lemma StepInv(s: State, e: Event)
    requires Inv(s)
    ensures Inv(Do(s, e))
  {
    hide Inv;
    match e
    case Begin(i) => StartInv(s, i);
    case OfCall(i, ok) => EnqueueInv(s, i, ok);
    case OfPoll(c) => PollInv(s, c);
    case OfShutdown => ShutdownInv(s);
    case OfSeal => SealInv(s);
  }

  lemma {:induction false} InvAfter(s: State, es: seq<Event>)
    requires Inv(s)
    ensures Inv(Run(s, es))
    decreases |es|
  {
    if es != [] {
      StepInv(s, es[0]);
      InvAfter(Do(s, es[0]), es[1..]);
    }
  }

  lemma RunInv(prior: set<nat>, late: set<nat>, es: seq<Event>)
    ensures Inv(Run(Init(prior, late), es))
  {
    assert Inv(Init(prior, late));
    InvAfter(Init(prior, late), es);
  }

  // ------------------------------------------------------- safety over whole runs

  /** At most one poll is in existence: in the queue, on its way there, or entered and
      not yet reset. While the flag is idle there is none. */
  lemma AtMostOnePoll(prior: set<nat>, late: set<nat>, es: seq<Event>)
    ensures var s := Run(Init(prior, late), es);
      && s.queued <= 1
      && (forall i, j :: Submits(s, i) && Submits(s, j) ==> i == j)
      && (forall i :: Submits(s, i) ==> s.queued == 0 && !AtPoll(s))
      && (AtPoll(s) ==> s.queued == 0)
      && (s.flag == Idle ==> !Pending(s) && !AtPoll(s))
      && (s.flag == Scheduled && s.stopping == Up ==> Pending(s) || AtPoll(s))
  {
    RunInv(prior, late, es);
  }

  /** Once stored, the shutdown flag stays, no poll is armed any more, and a poll that is
      in existence is the last one. */
  lemma {:induction false} ShutdownAbsorbs(s: State, es: seq<Event>)
    requires s.flag == Shutdown
    ensures var s' := Run(s, es);
      && s'.flag == Shutdown
      && (s'.poll == Resubmit ==> s.poll == Resubmit)
      && (forall i :: Submits(s', i) ==> Submits(s, i))
      && (!Pending(s) && s.queued == 0 && !AtPoll(s) ==> !Pending(s') && s'.queued == 0 && !AtPoll(s'))
    decreases |es|
  {
    if es != [] {
      ShutdownStays(s, es[0]);
      ShutdownAbsorbs(Do(s, es[0]), es[1..]);
    }
  }

  lemma ShutdownStays(s: State, e: Event)
    requires s.flag == Shutdown
    ensures var s' := Do(s, e);
      && s'.flag == Shutdown
      && (s'.poll == Resubmit ==> s.poll == Resubmit)
      && (forall i :: Submits(s', i) ==> Submits(s, i))
      && (!Pending(s) && s.queued == 0 && !AtPoll(s) ==> !Pending(s') && s'.queued == 0 && !AtPoll(s'))
  {
    if e.OfCall? && e.j in s.calls { assert s.calls[e.j] == Submit ==> Submits(s, e.j); }
  }

  /** Once the session is sealed it stays so, and no enqueue writes a file any more. */
  lemma {:induction false} SealAbsorbs(s: State, es: seq<Event>)
    requires Inv(s) && s.life == Sealed
    ensures Run(s, es).life == Sealed && Run(s, es).files <= s.files
    decreases |es|
  {
    if es != [] {
      StepInv(s, es[0]);
      SealStays(s, es[0]);
      SealAbsorbs(Do(s, es[0]), es[1..]);
    }
  }

  lemma SealStays(s: State, e: Event)
    requires LockOk(s) && s.life == Sealed
    ensures Do(s, e).life == Sealed && Do(s, e).files <= s.files
  {
  }

  // ------------------------------------------------------- no lost wakeup

  /** Something will look at `f`: its own enqueue, which has yet to try to arm; a pending
      poll; or a running poll that scans `f`, or arms the next one. */
  ghost predicate Guarded(s: State, f: nat) {
    || InFlight(s, f) || Pending(s) || s.poll == Resubmit || Scans(s, f)
    || (s.poll == Entered && (s.life != Startup || f in s.prior))
  }

  /** Of this session's files those in `missed`, and of earlier ones those in `stale`, are
      the only ones that may be left to nobody. */
  lemma NoLostWakeup(prior: set<nat>, late: set<nat>, es: seq<Event>, f: nat)
    ensures var s := Run(Init(prior, late), es);
      s.stopping == Up && f in s.files && f !in s.missed && f !in s.stale ==> Guarded(s, f)
  {
    RunInv(prior, late, es);
  }

  /** Nothing is under way. */
  ghost predicate Quiet(s: State) {
    s.poll == Resting && forall i :: i in s.calls ==> s.calls[i].Done?
  }

  /** So a poll is pending whenever a session at rest has files to retry. */
  lemma QuietIsArmed(prior: set<nat>, late: set<nat>, es: seq<Event>)
    ensures var s := Run(Init(prior, late), es);
      Quiet(s) && s.stopping == Up && !(s.files <= s.missed + s.stale) ==> s.queued == 1
  {
    var s := Run(Init(prior, late), es);
    RunInv(prior, late, es);
    if Quiet(s) && s.stopping == Up && !(s.files <= s.missed + s.stale) {
      var f :| f in s.files && f !in s.missed && f !in s.stale;
      assert s.flag == Scheduled;
      forall i ensures !Submits(s, i) { }
    }
  }

  /** Enqueue runs on the worker, never while the poll task does. */
  predicate Serial(s: State, es: seq<Event>)
    decreases |es|
  {
    es == [] || ((es[0].OfCall? ==> s.poll == Resting) && Serial(Do(s, es[0]), es[1..]))
  }

  lemma {:induction false} SerialMissesNothing(s: State, es: seq<Event>)
    requires Serial(s, es)
    ensures Run(s, es).missed == s.missed
    decreases |es|
  {
    if es != [] { SerialMissesNothing(Do(s, es[0]), es[1..]); }
  }

  /** No triggered pass meets a network failure before the session is past its startup. */
  predicate Untriggered(s: State, es: seq<Event>)
    decreases |es|
  {
    es == []
    || ((es[0].OfPoll? && es[0].c.Restamp? ==> s.life != Startup) && Untriggered(Do(s, es[0]), es[1..]))
  }

  lemma {:induction false} UntriggeredStalesNothing(s: State, es: seq<Event>)
    requires Untriggered(s, es)
    ensures Run(s, es).stale == s.stale
    decreases |es|
  {
    if es != [] { UntriggeredStalesNothing(Do(s, es[0]), es[1..]); }
  }

  /** The transport enqueues from its own worker, and then no file of this session is left
      to nobody, and none of an earlier one that still has an old time stamp. */
  lemma SerialNeverLoses(prior: set<nat>, late: set<nat>, es: seq<Event>, f: nat)
    requires Serial(Init(prior, late), es)
    ensures var s := Run(Init(prior, late), es);
      && (s.stopping == Up && f in s.files && f !in s.stale ==> Guarded(s, f))
      && (s.stopping == Up && Quiet(s) && !(s.files <= s.stale) ==> s.queued == 1)
      && (Untriggered(Init(prior, late), es) ==> s.stale == late - prior)
  {
    SerialMissesNothing(Init(prior, late), es);
    if Untriggered(Init(prior, late), es) { UntriggeredStalesNothing(Init(prior, late), es); }
    NoLostWakeup(prior, late, es, f);
    QuietIsArmed(prior, late, es);
  }

  /** Exactly when a wakeup is lost, at the step that loses it: an enqueue that has written
      its file tries to arm a poll, and leaves the file to nobody if and only if the poll
      task has chosen the startup scan and not yet reset the flag. */
  lemma LostAtArm(prior: set<nat>, late: set<nat>, es: seq<Event>, i: nat, ok: bool)
    ensures var s := Run(Init(prior, late), es);
      s.stopping == Up && i in s.files && i in s.calls && s.calls[i] == Arm ==>
        (!Guarded(EnqueueStep(s, i, ok), i) <==> s.poll == Reset(false))
  {
    var s := Run(Init(prior, late), es);
    RunInv(prior, late, es);
    if s.stopping == Up && i in s.files && i in s.calls && s.calls[i] == Arm {
      ArmGuards(s, i, ok);
    }
  }

  lemma ArmGuards(s: State, i: nat, ok: bool)
    requires Inv(s) && s.stopping == Up && i in s.files && i in s.calls && s.calls[i] == Arm
    ensures !Guarded(EnqueueStep(s, i, ok), i) <==> s.poll == Reset(false)
  {
    var s' := EnqueueStep(s, i, ok);
    EnqueueInv(s, i, ok);
    assert i !in s.prior && i !in s.stale;
    assert forall j :: j != i ==> Submits(s', j) == Submits(s, j);
    hide LockOk, FilesOk, ScanOk;
  }

  /** And for a file whose enqueue is over, at the step at which a poll decides: the poll
      leaves it to nobody if and only if it chooses the startup scan and the file is of an
      earlier session but does not look so. */
  lemma LostAtChoice(prior: set<nat>, late: set<nat>, es: seq<Event>, f: nat, c: Choice)
    ensures var s := Run(Init(prior, late), es);
      s.stopping == Up && s.poll == Entered && f in s.files && !InFlight(s, f) ==>
        (!Guarded(PollStep(s, c), f) <==> s.life == Startup && f in s.stale)
  {
    var s := Run(Init(prior, late), es);
    RunInv(prior, late, es);
    if s.stopping == Up && s.poll == Entered && f in s.files && !InFlight(s, f) {
      var s' := PollStep(s, c);
      assert forall j :: Submits(s', j) == Submits(s, j);
      hide LockOk, ScanOk, Watched;
    }
  }

  /** The rest of a scan that has done its sending. */
  function EndOfPoll(s: State): State
    decreases match s.poll case Sending(_) => 4 case Rearm => 3 case Resubmit => 2 case Finish => 1 case _ => 0
  {
    if s.poll.Sending? || s.poll.Rearm? || s.poll.Resubmit? || s.poll.Finish? then EndOfPoll(PollStep(s, Go)) else s
  }

  /** What then becomes of it: a scan ends with files and nothing to wake up for them if
      and only if it kept none of those it listed, nobody armed a poll meanwhile, and a
      file was lost in that way. */
  lemma LostExactlyWhen(prior: set<nat>, late: set<nat>, es: seq<Event>)
    ensures var s := Run(Init(prior, late), es);
      s.stopping == Up && s.poll.Sending? && (forall i :: i in s.calls ==> s.calls[i].Done?) ==>
        && EndOfPoll(s).files == s.files && EndOfPoll(s).poll == Resting
        && (s.files != {} && EndOfPoll(s).queued == 0
            <==> s.poll.seen == {} && s.flag == Idle && s.files * (s.missed + s.stale) != {})
  {
    var s := Run(Init(prior, late), es);
    RunInv(prior, late, es);
    if s.stopping == Up && s.poll.Sending? && (forall i :: i in s.calls ==> s.calls[i].Done?) {
      forall i ensures !Submits(s, i) { }
      assert s.flag == Scheduled <==> s.queued == 1;
      PollEnds(s);
      assert s.poll.seen == {} && s.flag == Idle ==> s.files <= s.missed + s.stale;
    }
  }

  lemma PollEnds(s: State)
    requires s.poll.Sending?
    ensures var s' := EndOfPoll(s);
      && s'.files == s.files && s'.poll == Resting
      && s'.queued == s.queued + if s.poll.seen != {} && s.flag == Idle then 1 else 0
  {
    var a := PollStep(s, Go);
    var b := PollStep(a, Go);
    var c := PollStep(b, Go);
    assert EndOfPoll(s) == EndOfPoll(a) == EndOfPoll(b);
    var d := PollStep(c, Go);
    if a.poll == Rearm {
      assert EndOfPoll(b) == EndOfPoll(c);
      if b.poll == Resubmit { assert EndOfPoll(c) == EndOfPoll(d) == d; }
    }
  }

  function LosingRun(): seq<Event> {
    [OfPoll(Go), OfPoll(Go), Begin(7)] + Times(OfCall(7, true), 6) + Times(OfPoll(Go), 5)
  }

  function Times(e: Event, n: nat): seq<Event> { if n == 0 then [] else [e] + Times(e, n - 1) }

  function Repeat(s: State, e: Event, n: nat): State
    decreases n
  {
    if n == 0 then s else Repeat(Do(s, e), e, n - 1)
  }

  lemma {:induction false} RunTimes(s: State, e: Event, n: nat, es: seq<Event>)
    ensures Run(s, Times(e, n) + es) == Run(Repeat(s, e, n), es)
    decreases n
  {
    if n == 0 {
      assert Times(e, n) + es == es;
    } else {
      assert (Times(e, n) + es)[1..] == Times(e, n - 1) + es;
      RunTimes(Do(s, e), e, n - 1, es);
    }
  }

  const Chosen := Init({}, {}).(queued := 0, poll := Reset(false), calls := map[7 := Lock])
  const Entered7 := Chosen.(life := Running, calls := map[7 := Done(true)], files := {7}, missed := {7})
  const Lost := Entered7.(flag := Idle, poll := Resting)

  lemma LosingSplit()
    ensures LosingRun() == [OfPoll(Go), OfPoll(Go), Begin(7)] + (Times(OfCall(7, true), 6) + Times(OfPoll(Go), 5))
    ensures Times(OfPoll(Go), 5) + [] == Times(OfPoll(Go), 5)
  {
    hide Times;
  }

  lemma LostIsQuiet()
    ensures Run(Lost, []) == Lost && Quiet(Lost)
    ensures Lost.stopping == Up && Lost.life == Running && Lost.files == {7} && Lost.queued == 0
  {
  }

  lemma LosingStart(es: seq<Event>)
    ensures Run(Init({}, {}), [OfPoll(Go), OfPoll(Go), Begin(7)] + es) == Run(Chosen, es)
  {
    var all := [OfPoll(Go), OfPoll(Go), Begin(7)] + es;
    assert all[1..][1..][1..] == es;
    assert all[0] == OfPoll(Go) && all[1..][0] == OfPoll(Go) && all[1..][1..][0] == Begin(7);
    hide Run;
    var a := Do(Init({}, {}), OfPoll(Go));
    var b := Do(a, OfPoll(Go));
    assert Do(b, Begin(7)) == Chosen;
    RunFirst(Init({}, {}), all);
    RunFirst(a, all[1..]);
    RunFirst(b, all[1..][1..]);
  }

  lemma RunFirst(s: State, es: seq<Event>)
    requires es != []
    ensures Run(s, es) == Run(Do(s, es[0]), es[1..])
  {
  }

  lemma LosingEnqueue()
    ensures Repeat(Chosen, OfCall(7, true), 6) == Entered7
  {
    var e := OfCall(7, true);
    var s2 := Do(Do(Chosen, e), e);
    var s4 := Do(Do(s2, e), e);
    assert s2.calls == map[7 := Write] && s2.holder == Enqueue(7);
    assert s4.calls == map[7 := Promote] && s4.holder == Nobody && s4.files == {7};
    assert Do(Do(s4, e), e) == Entered7;
    assert Repeat(Chosen, e, 6) == Repeat(s2, e, 4) == Repeat(s4, e, 2);
  }

  lemma LosingPoll()
    ensures Repeat(Entered7, OfPoll(Go), 5) == Lost
  {
    var e := OfPoll(Go);
    var s2 := Do(Do(Entered7, e), e);
    assert s2.poll == Listing(false, {}, {});
    var s4 := Do(Do(s2, e), e);
    assert s4.poll == Finish;
    assert Repeat(Entered7, e, 5) == Repeat(s2, e, 3) == Repeat(s4, e, 1);
  }

  /** Such a run exists: the first poll chooses the startup scan, an enqueue goes all the
      way through, and the poll then resets the flag and finds nothing it may consider. */
  lemma StartupWindowLoses()
    ensures var s := Run(Init({}, {}), LosingRun());
      Quiet(s) && s.stopping == Up && s.life == Running && s.files == {7} && s.queued == 0
  {
    hide *;
    var enqueue, poll := OfCall(7, true), OfPoll(Go);
    LosingSplit();
    LosingStart(Times(enqueue, 6) + Times(poll, 5));
    LosingEnqueue();
    LosingPoll();
    RunTimes(Chosen, enqueue, 6, Times(poll, 5));
    RunTimes(Entered7, poll, 5, []);
    LostIsQuiet();
  }

  // ------------------------------------------------------- a restamped file

  /** Such a run exists, with no enqueue at all: a triggered pass restamps the one file of an
      earlier session, and the first poll finds nothing it may consider. */
  lemma RestampLoses()
    ensures var s := Run(Init({5}, {}), [OfPoll(Restamp(5))] + Times(OfPoll(Go), 7));
      Quiet(s) && s.stopping == Up && s.life == Running && s.files == {5} && s.queued == 0 && s.missed == {}
  {
    var go := OfPoll(Go);
    var es := [OfPoll(Restamp(5))] + Times(go, 7);
    var s0 := Init({5}, {}).(prior := {}, stale := {5});
    assert es[0] == OfPoll(Restamp(5)) && es[1..] == Times(go, 7);
    assert Do(Init({5}, {}), es[0]) == s0;
    assert Run(Init({5}, {}), es) == Run(s0, Times(go, 7));
    assert Times(go, 7) + [] == Times(go, 7);
    RunTimes(s0, go, 7, []);
    RestampedPoll(s0);
  }

  /** The first poll, after that. */
  lemma RestampedPoll(s: State)
    requires s == Init({5}, {}).(prior := {}, stale := {5})
    ensures Run(Repeat(s, OfPoll(Go), 7), [])
         == s.(life := Running, flag := Idle, queued := 0, poll := Resting)
  {
    var go := OfPoll(Go);
    var s2 := Do(Do(s, go), go);
    assert s2 == s.(queued := 0, poll := Reset(false));
    assert s2.files * s2.prior == {};
    var s4 := Do(Do(s2, go), go);
    assert s4 == s2.(flag := Idle, poll := Listing(false, {}, {}));
    var s6 := Do(Do(s4, go), go);
    assert s6 == s4.(poll := Finish);
    assert Repeat(s, go, 7) == Repeat(s2, go, 5) == Repeat(s4, go, 3) == Repeat(s6, go, 1);
  }

  // ------------------------------------------------------- what an enqueue answers

  /** The call has written its file. */
  predicate HasWritten(s: State, i: nat) {
    i in s.calls && s.calls[i] in {Unlock, Promote, Arm, Submit, Done(true)}
  }

  predicate HasRefused(s: State, i: nat) { i in s.calls && s.calls[i] in {Refuse, Done(false)} }

  /** An accepted envelope is on disk until the worker resolves it, and one is refused only
      when the session is sealed or its write fails. */
  lemma EnqueueAnswers(prior: set<nat>, late: set<nat>, es: seq<Event>, i: nat)
    ensures var s := Run(Init(prior, late), es);
      && (HasWritten(s, i) && OfPoll(Resolve(i)) !in es ==> i in s.files)
      && (HasRefused(s, i) && OfCall(i, false) !in es ==> s.life == Sealed)
  {
    AnswersAfter(Init(prior, late), es, i);
  }

  lemma {:induction false} AnswersAfter(s: State, es: seq<Event>, i: nat)
    ensures var s' := Run(s, es);
      && ((HasWritten(s, i) ==> i in s.files) && OfPoll(Resolve(i)) !in es && HasWritten(s', i) ==> i in s'.files)
      && ((HasRefused(s, i) ==> s.life == Sealed) && OfCall(i, false) !in es && HasRefused(s', i) ==> s'.life == Sealed)
    decreases |es|
  {
    if es != [] {
      AnswersStep(s, es[0], i);
      AnswersAfter(Do(s, es[0]), es[1..], i);
      hide Do, HasWritten, HasRefused;
    }
  }

  lemma AnswersStep(s: State, e: Event, i: nat)
    ensures var s' := Do(s, e);
      && ((HasWritten(s, i) ==> i in s.files) && e != OfPoll(Resolve(i)) && HasWritten(s', i) ==> i in s'.files)
      && ((HasRefused(s, i) ==> s.life == Sealed) && e != OfCall(i, false) && HasRefused(s', i) ==> s'.life == Sealed)
  {
    hide Considers;
    match e
    case OfPoll(c) => PollAnswers(s, c, i); hide PollStep;
    case _ =>
  }

  lemma PollAnswers(s: State, c: Choice, i: nat)
    ensures PollStep(s, c).calls == s.calls && (s.life == Sealed ==> PollStep(s, c).life == Sealed)
    ensures c != Resolve(i) && i in s.files ==> i in PollStep(s, c).files
  {
    hide Considers;
  }
}
