/** Attempts over any number of passes, as the file names remember them. */
module RetryHistory {
  import opened Bytes
  import opened Wrappers
  import CacheName
  import Decimal
  import opened RetryPass

  /** An attempt to send an envelope: in a pass that started at `began`, and that stamped
      failures with `stamped`. */
  datatype Attempt = Attempt(uuid: Bytes, count: int, began: nat, stamped: nat, byBackoff: bool)

  datatype World = World(files: set<Bytes>, log: seq<Attempt>)

  function AttemptOf(p: Pass, it: Item): Attempt { Attempt(it.uuid, it.count, p.now, p.stamp, p.before == 0) }

  /** The attempts of a pass: corrupt files are removed, not sent. */
  function Attempts(p: Pass, sent: seq<Item>, outcome: Item -> Outcome): seq<Attempt> {
    if sent == [] then []
    else
      var it := sent[|sent| - 1];
      Attempts(p, sent[..|sent| - 1], outcome) + if outcome(it).Corrupt? then [] else [AttemptOf(p, it)]
  }

  // ------------------------------------------------------- steps of the world

  /** An envelope that was never queued before is written with a count of 0. */
  ghost predicate Enqueues(w: World, w': World, ts: nat, uuid: Bytes) {
    && ts < Decimal.U64 && |uuid| == CacheName.UUID
    && !InQueue(Queue(w.files), uuid) && CountOf(w.log, uuid) == 0
    && w' == World(w.files + {CacheName.Build(ts, 0, uuid)}, w.log)
  }

  /** A pass, as the contract of `Send` describes it. */
  ghost predicate Passes(w: World, w': World, p: Pass, listing: seq<Bytes>, outcome: Item -> Outcome, sent: seq<Item>) {
    && p.stamp < Decimal.U64 && NoRepeats(listing) && Names(listing) == w.files
    && EndsAtFailure(sent, Sort(EligibleItems(p, listing)), outcome)
    && Queue(w'.files) == QueueAfter(p, Queue(w.files), sent, outcome)
    && w'.log == w.log + Attempts(p, sent, outcome)
  }

  ghost predicate Step(w: World, w': World) {
    || (exists ts, uuid :: Enqueues(w, w', ts, uuid))
    || (exists p, listing, outcome, sent :: Passes(w, w', p, listing, outcome, sent))
  }

  /** A run from any directory in which no envelope is queued twice. */
  ghost predicate IsRun(ws: seq<World>) {
    && ws != [] && Distinct(Queue(ws[0].files)) && ws[0].log == []
    && forall i :: 0 <= i < |ws| - 1 ==> Step(ws[i], ws[i + 1])
  }

  // ------------------------------------------------------- what the log keeps

  function CountOf(log: seq<Attempt>, u: Bytes): nat {
    if log == [] then 0
    else CountOf(log[..|log| - 1], u) + if log[|log| - 1].uuid == u then 1 else 0
  }

  /** The latest attempt for `u`. */
  function LastOf(log: seq<Attempt>, u: Bytes): (r: Option<Attempt>)
    ensures r.Some? <==> CountOf(log, u) > 0
  {
    if log == [] then None
    else if log[|log| - 1].uuid == u then Some(log[|log| - 1])
    else LastOf(log[..|log| - 1], u)
  }

  /** Attempt `a` after `log`: no more attempts came before it than it counts; and if one
      did, it counts one more, at most 5, and by backoff it keeps its distance. */
  predicate Follows(log: seq<Attempt>, a: Attempt) {
    && CountOf(log, a.uuid) <= a.count
    && var l := LastOf(log, a.uuid);
       l.Some? ==>
         && a.count == l.value.count + 1 <= 5
         && (a.byBackoff ==> a.began >= l.value.stamped + Backoff(a.count))
  }

  predicate LogOk(log: seq<Attempt>) {
    log == [] || (LogOk(log[..|log| - 1]) && Follows(log[..|log| - 1], log[|log| - 1]))
  }

  /** A queued envelope carries its history in its name. */
  ghost predicate Remembers(log: seq<Attempt>, it: Item) {
    && it.count >= 0 && CountOf(log, it.uuid) <= it.count
    && var l := LastOf(log, it.uuid);
       l.Some? ==> it.ts == l.value.stamped && it.count == l.value.count + 1 <= 5
  }

  ghost predicate QueueOk(log: seq<Attempt>, q: set<Item>) {
    Distinct(q) && forall it :: it in q ==> Remembers(log, it)
  }

  // ------------------------------------------------------- one attempt

  lemma Append(log: seq<Attempt>, a: Attempt, u: Bytes)
    ensures CountOf(log + [a], u) == CountOf(log, u) + if a.uuid == u then 1 else 0
    ensures LastOf(log + [a], u) == if a.uuid == u then Some(a) else LastOf(log, u)
    ensures LogOk(log + [a]) <==> LogOk(log) && Follows(log, a)
  {
    assert (log + [a])[..|log|] == log;
    hide Follows;
  }

  function Logged(p: Pass, log: seq<Attempt>, it: Item, o: Outcome): seq<Attempt> {
    log + if o.Corrupt? then [] else [AttemptOf(p, it)]
  }

  lemma AttemptKeeps(p: Pass, log: seq<Attempt>, q: set<Item>, it: Item, o: Outcome)
    requires LogOk(log) && QueueOk(log, q) && it in q
    requires p.before == 0 ==> it.ts <= p.now && p.now - it.ts >= Backoff(it.count)
    ensures LogOk(Logged(p, log, it, o)) && QueueOk(Logged(p, log, it, o), SettleQueue(p, q, it, o))
  {
    var log' := Logged(p, log, it, o);
    var q' := SettleQueue(p, q, it, o);
    hide Backoff, LogOk, CountOf, LastOf;
    if o.Corrupt? {
      assert log' == log;
    } else {
      Append(log, AttemptOf(p, it), it.uuid);
      assert Follows(log, AttemptOf(p, it));
      forall b | b in q' ensures Remembers(log', b) {
        Append(log, AttemptOf(p, it), b.uuid);
        assert b in q ==> Remembers(log, b);
      }
    }
  }

  // ------------------------------------------------------- one step

  ghost predicate InTime(p: Pass, items: seq<Item>) {
    p.before == 0 ==> forall i :: 0 <= i < |items| ==>
      items[i].ts <= p.now && p.now - items[i].ts >= Backoff(items[i].count)
  }

  /** Sending the first `k` items, of which only the last may fail. */
  lemma {:induction false} SendingKeeps(p: Pass, log: seq<Attempt>, q: set<Item>, items: seq<Item>,
                                        outcome: Item -> Outcome, k: nat)
    requires LogOk(log) && QueueOk(log, q) && k <= |items|
    requires NoRepeats(items) && Elements(items) <= q && InTime(p, items)
    requires forall j :: 0 <= j < k - 1 ==> !NetworkFailure(outcome(items[j]))
    ensures var log' := log + Attempts(p, items[..k], outcome);
      LogOk(log') && QueueOk(log', QueueAfter(p, q, items[..k], outcome))
    decreases k
  {
    hide *;
    AttemptsGrow(p, log, items, k, outcome);
    if k == 0 {
      NothingSent(p, q, q, items, outcome);
    } else {
      var it := items[k - 1];
      var log1 := log + Attempts(p, items[..k - 1], outcome);
      var q1 := QueueAfter(p, q, items[..k - 1], outcome);
      SendingKeeps(p, log, q, items, outcome, k - 1);
      SentOneMore(p, q, items, k - 1, outcome);
      AttemptInTime(p, log1, q1, items, k - 1, outcome(it));
    }
  }

  lemma AttemptInTime(p: Pass, log: seq<Attempt>, q: set<Item>, items: seq<Item>, i: nat, o: Outcome)
    requires i < |items| && InTime(p, items) && LogOk(log) && QueueOk(log, q) && items[i] in q
    ensures LogOk(Logged(p, log, items[i], o)) && QueueOk(Logged(p, log, items[i], o), SettleQueue(p, q, items[i], o))
  {
    assert p.before == 0 ==> items[i].ts <= p.now && p.now - items[i].ts >= Backoff(items[i].count);
    hide *;
    AttemptKeeps(p, log, q, items[i], o);
  }

  lemma AttemptsGrow(p: Pass, log: seq<Attempt>, items: seq<Item>, k: nat, outcome: Item -> Outcome)
    requires k <= |items|
    ensures log + Attempts(p, items[..k], outcome)
         == if k == 0 then log
            else Logged(p, log + Attempts(p, items[..k - 1], outcome), items[k - 1], outcome(items[k - 1]))
  {
    if k > 0 { assert items[..k][..k - 1] == items[..k - 1]; }
  }

  lemma EligibleInTime(p: Pass, listing: seq<Bytes>)
    ensures InTime(p, Sort(EligibleItems(p, listing)))
  {
    var items := Sort(EligibleItems(p, listing));
    hide CacheName.Parse, Backoff, Sorted, NoRepeats;
    forall i | 0 <= i < |items| ensures Eligible(p, items[i].path) && ItemOf(items[i].path) == items[i] {
      assert items[i] in multiset(items);
      assert items[i] in EligibleItems(p, listing);
    }
  }

  lemma PassKeeps(w: World, w': World, p: Pass, listing: seq<Bytes>, outcome: Item -> Outcome, sent: seq<Item>)
    requires LogOk(w.log) && QueueOk(w.log, Queue(w.files)) && Passes(w, w', p, listing, outcome, sent)
    ensures LogOk(w'.log) && QueueOk(w'.log, Queue(w'.files))
  {
    var items := Sort(EligibleItems(p, listing));
    assert sent == items[..|sent|];
    assert forall j :: 0 <= j < |sent| - 1 ==> items[j] == sent[j];
    hide LogOk, QueueOk, Queue, QueueAfter, Attempts, Sort, EligibleItems, InTime, Names, Elements;
    hide NoRepeats, ConsideredItems, Sorted;
    ItemsAreQueued(p, listing);
    EligibleInTime(p, listing);
    SendingKeeps(p, w.log, Queue(w.files), items, outcome, |sent|);
  }

  lemma JoinsQueue(log: seq<Attempt>, q: set<Item>, it: Item)
    requires QueueOk(log, q) && !InQueue(q, it.uuid) && CountOf(log, it.uuid) == 0 && it.count == 0
    ensures QueueOk(log, q + {it})
  {
  }

  lemma EnqueueKeeps(w: World, w': World, ts: nat, uuid: Bytes)
    requires QueueOk(w.log, Queue(w.files)) && Enqueues(w, w', ts, uuid)
    ensures QueueOk(w'.log, Queue(w'.files))
  {
    var name := CacheName.Build(ts, 0, uuid);
    CacheName.ParseBuild(ts, 0, uuid);
    assert IsRetry(name);
    hide CacheName.Build, CacheName.Parse, Queue, QueueOk, CountOf;
    QueueAdds(w.files, name);
    JoinsQueue(w.log, Queue(w.files), ItemOf(name));
  }

  lemma StepKeeps(w: World, w': World)
    requires LogOk(w.log) && QueueOk(w.log, Queue(w.files)) && Step(w, w')
    ensures LogOk(w'.log) && QueueOk(w'.log, Queue(w'.files))
  {
    assert forall ts, uuid :: Enqueues(w, w', ts, uuid) ==> w'.log == w.log;
    hide LogOk, QueueOk, Enqueues, Queue, Passes;
    if ts, uuid :| Enqueues(w, w', ts, uuid) {
      EnqueueKeeps(w, w', ts, uuid);
    } else {
      var p, listing, outcome, sent :| Passes(w, w', p, listing, outcome, sent);
      PassKeeps(w, w', p, listing, outcome, sent);
    }
  }

  // ------------------------------------------------------- whole runs

  lemma {:induction false} RunKeeps(ws: seq<World>)
    requires IsRun(ws)
    ensures var w := ws[|ws| - 1]; LogOk(w.log) && QueueOk(w.log, Queue(w.files))
    decreases |ws|
  {
    if |ws| == 1 {
      forall it | it in Queue(ws[0].files) ensures Remembers([], it) { }
    } else {
      var init := ws[..|ws| - 1];
      RunKeeps(init);
      assert ws[|ws| - 2] == init[|init| - 1];
      assert Step(ws[|ws| - 2], ws[|ws| - 2 + 1]);
      StepKeeps(ws[|ws| - 2], ws[|ws| - 1]);
    }
  }

  lemma {:induction false} CountBound(log: seq<Attempt>, u: Bytes)
    requires LogOk(log)
    ensures CountOf(log, u) > 0 ==>
      CountOf(log, u) <= LastOf(log, u).value.count + 1 && (CountOf(log, u) > 1 ==> LastOf(log, u).value.count <= 5)
  {
    if log != [] { CountBound(log[..|log| - 1], u); }
  }

  lemma {:induction false} EveryAttemptFollows(log: seq<Attempt>, j: nat)
    requires LogOk(log) && j < |log|
    ensures Follows(log[..j], log[j])
  {
    if j < |log| - 1 {
      var init := log[..|log| - 1];
      assert init[..j] == log[..j];
      EveryAttemptFollows(init, j);
    }
  }

  /** Over all passes, whatever their kind and outcome, an envelope is attempted at most
      six times. */
  lemma AtMostSixAttempts(ws: seq<World>, u: Bytes)
    requires IsRun(ws)
    ensures CountOf(ws[|ws| - 1].log, u) <= ATTEMPTS
  {
    RunKeeps(ws);
    CountBound(ws[|ws| - 1].log, u);
  }

  /** Each attempt counts one more than the previous one for the same envelope, and in a
      pass by backoff it comes no sooner than 15 minutes, doubled per attempt, after it. */
  lemma AttemptsAreSpaced(ws: seq<World>, j: nat)
    requires IsRun(ws) && j < |ws[|ws| - 1].log|
    ensures
      var log := ws[|ws| - 1].log;
      var l := LastOf(log[..j], log[j].uuid);
      l.Some? ==>
        && log[j].count == l.value.count + 1
        && (log[j].byBackoff ==> log[j].began >= l.value.stamped + Backoff(log[j].count))
  {
    RunKeeps(ws);
    EveryAttemptFollows(ws[|ws| - 1].log, j);
  }
}
