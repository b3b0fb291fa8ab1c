/**
  The discard counters, one per reason and category, under any interleaving of discards,
  saves and restores. A save takes the counters one by one, a restore puts them back one
  by one; between the two a report is out, and it may be delivered.
 */
module ClientReport {
  const REASONS := 7
  const CATEGORIES := 8
  const CELLS := 56

  /** Where a report stands. `at` is the next cell; `counts` are those it took. */
  datatype Phase =
    | Saving(counts: seq<nat>)
    | Out(counts: seq<nat>)
    | Restoring(counts: seq<nat>, at: nat)
    | Over

  datatype State = State(counters: seq<nat>, reports: seq<Phase>, discarded: seq<nat>, delivered: seq<nat>)

  datatype Event =
    | Discard(reason: int, category: int, quantity: int)
    | Save
    | SaveCell(i: nat)
    | Deliver(j: nat)
    | Restore(k: nat)
    | RestoreCell(l: nat)

  function Zeros(n: nat): (s: seq<nat>)
    ensures |s| == n && forall k :: 0 <= k < n ==> s[k] == 0
  {
    if n == 0 then [] else Zeros(n - 1) + [0]
  }

  function Init(): State { State(Zeros(CELLS), [], Zeros(CELLS), Zeros(CELLS)) }

  predicate Shaped(s: State) {
    && |s.counters| == |s.discarded| == |s.delivered| == CELLS
    && forall i :: 0 <= i < |s.reports| ==> PhaseOk(s.reports[i])
  }

  predicate PhaseOk(p: Phase) {
    match p
    case Saving(counts) => |counts| < CELLS
    case Out(counts) => |counts| == CELLS
    case Restoring(counts, at) => |counts| == CELLS && at < CELLS
    case Over => true
  }

  function Cell(reason: nat, category: nat): (k: nat)
    requires reason < REASONS && category < CATEGORIES
    ensures k < CELLS
  {
    reason * CATEGORIES + category
  }

  function Add(xs: seq<nat>, k: nat, n: nat): (r: seq<nat>)
    requires k < |xs|
    ensures |r| == |xs|
  {
    xs[k := xs[k] + n]
  }

  function AddAll(xs: seq<nat>, ys: seq<nat>): (r: seq<nat>)
    requires |xs| == |ys|
    ensures |r| == |xs| && forall k :: 0 <= k < |r| ==> r[k] == xs[k] + ys[k]
  {
    if xs == [] then [] else [xs[0] + ys[0]] + AddAll(xs[1..], ys[1..])
  }

  /** One atomic operation; out of range discards and those of nothing are ignored. */
  function Do(s: State, e: Event): (s': State)
    requires Shaped(s)
    ensures Shaped(s')
  {
    match e
    case Discard(r, c, q) =>
      if r < 0 || r >= REASONS || c < 0 || c >= CATEGORIES || q <= 0 then s
      else s.(counters := Add(s.counters, Cell(r, c), q), discarded := Add(s.discarded, Cell(r, c), q))
    case Save => s.(reports := s.reports + [Saving([])])
    case SaveCell(i) =>
      if i >= |s.reports| || !s.reports[i].Saving? then s
      else
        var taken := s.reports[i].counts;
        var counts := taken + [s.counters[|taken|]];
        s.(counters := s.counters[|taken| := 0],
           reports := s.reports[i := if |counts| == CELLS then Out(counts) else Saving(counts)])
    case Deliver(i) =>
      if i >= |s.reports| || !s.reports[i].Out? then s
      else s.(delivered := AddAll(s.delivered, s.reports[i].counts), reports := s.reports[i := Over])
    case Restore(i) =>
      if i >= |s.reports| || !s.reports[i].Out? then s
      else s.(reports := s.reports[i := Restoring(s.reports[i].counts, 0)])
    case RestoreCell(i) =>
      if i >= |s.reports| || !s.reports[i].Restoring? then s
      else
        var Restoring(counts, at) := s.reports[i];
        s.(counters := if counts[at] > 0 then Add(s.counters, at, counts[at]) else s.counters,
           reports := s.reports[i := if at + 1 == CELLS then Over else Restoring(counts, at + 1)])
  }

  function Run(s: State, es: seq<Event>): (s': State)
    requires Shaped(s)
    ensures Shaped(s')
    decreases |es|
  {
    if es == [] then s else Run(Do(s, es[0]), es[1..])
  }

  // ------------------------------------------------------- conservation

  /** What a report holds of cell `k`. */
  function Held(p: Phase, k: nat): nat {
    match p
    case Saving(counts) => if k < |counts| then counts[k] else 0
    case Out(counts) => if k < |counts| then counts[k] else 0
    case Restoring(counts, at) => if at <= k < |counts| then counts[k] else 0
    case Over => 0
  }

  function Outstanding(reports: seq<Phase>, k: nat): nat {
    if reports == [] then 0 else Held(reports[0], k) + Outstanding(reports[1..], k)
  }

  ghost predicate Conserved(s: State) {
    Shaped(s) && forall k :: 0 <= k < CELLS ==>
      s.counters[k] + Outstanding(s.reports, k) + s.delivered[k] == s.discarded[k]
  }

  lemma {:induction false} OutstandingUpdate(reports: seq<Phase>, i: nat, p: Phase, k: nat)
    requires i < |reports|
    ensures Outstanding(reports[i := p], k) + Held(reports[i], k) == Outstanding(reports, k) + Held(p, k)
  {
    if i == 0 {
      assert reports[0 := p][1..] == reports[1..];
    } else {
      assert reports[i := p][1..] == reports[1..][i - 1 := p];
      OutstandingUpdate(reports[1..], i - 1, p, k);
    }
  }

  lemma {:induction false} OutstandingAppend(reports: seq<Phase>, p: Phase, k: nat)
    ensures Outstanding(reports + [p], k) == Outstanding(reports, k) + Held(p, k)
  {
    if reports == [] {
      assert reports + [p] == [p] && [p][1..] == [];
    } else {
      assert (reports + [p])[1..] == reports[1..] + [p];
      OutstandingAppend(reports[1..], p, k);
    }
  }

  /** Cell `k` over a step that changes report `i`. */
  lemma ReportStep(s: State, e: Event, i: nat, k: nat)
    requires Conserved(s) && k < CELLS && i < |s.reports|
    requires e == SaveCell(i) || e == Deliver(i) || e == Restore(i) || e == RestoreCell(i)
    ensures var s' := Do(s, e);
      s'.counters[k] + Outstanding(s'.reports, k) + s'.delivered[k] == s'.discarded[k]
  {
    var s' := Do(s, e);
    OutstandingUpdate(s.reports, i, s'.reports[i], k);
    assert s.counters[k] + Outstanding(s.reports, k) + s.delivered[k] == s.discarded[k];
    hide Outstanding, Conserved;
    match e
    case SaveCell(_) =>
    case Deliver(_) =>
    case Restore(_) =>
    case RestoreCell(_) =>
  }

  lemma StepConserves(s: State, e: Event)
    requires Conserved(s)
    ensures Conserved(Do(s, e))
  {
    var s' := Do(s, e);
    hide Outstanding, Held;
    forall k | 0 <= k < CELLS
      ensures s'.counters[k] + Outstanding(s'.reports, k) + s'.delivered[k] == s'.discarded[k]
    {
      match e
      case Discard(_, _, _) =>
      case Save => OutstandingAppend(s.reports, Saving([]), k); assert Held(Saving([]), k) == 0 by { NothingHeld(k); }
      case SaveCell(i) => if i < |s.reports| { ReportStep(s, e, i, k); }
      case Deliver(i) => if i < |s.reports| { ReportStep(s, e, i, k); }
      case Restore(i) => if i < |s.reports| { ReportStep(s, e, i, k); }
      case RestoreCell(i) => if i < |s.reports| { ReportStep(s, e, i, k); }
    }
  }

  lemma NothingHeld(k: nat)
    ensures Held(Saving([]), k) == 0
  {
  }

  /** In every interleaving, and for every counter, what was discarded is what is still
      counted, held by a report, or delivered. */
  lemma {:induction false} ConservedAfter(s: State, es: seq<Event>)
    requires Conserved(s)
    ensures Conserved(Run(s, es))
    decreases |es|
  {
    if es != [] {
      StepConserves(s, es[0]);
      ConservedAfter(Do(s, es[0]), es[1..]);
    }
  }

  lemma RunConserves(es: seq<Event>)
    ensures Conserved(Run(Init(), es))
  {
    ConservedAfter(Init(), es);
  }

  /** So a failed send loses nothing: with no report out, the counters hold all that was
      not delivered. */
  lemma AllRestored(es: seq<Event>, k: nat)
    requires k < CELLS
    ensures var s := Run(Init(), es);
      (forall i :: 0 <= i < |s.reports| ==> s.reports[i] == Over) ==> s.counters[k] + s.delivered[k] == s.discarded[k]
  {
    var s := Run(Init(), es);
    RunConserves(es);
    if forall i :: 0 <= i < |s.reports| ==> s.reports[i] == Over { NoneOutstanding(s.reports, k); }
  }

  lemma {:induction false} NoneOutstanding(reports: seq<Phase>, k: nat)
    requires forall i :: 0 <= i < |reports| ==> reports[i] == Over
    ensures Outstanding(reports, k) == 0
  {
    if reports != [] { NoneOutstanding(reports[1..], k); }
  }

  // ------------------------------------------------------- the counters in place

  /** The matrix of counters, as one thread changes it. */
  class Counters {
    const counts: array2<int>

    ghost predicate Valid()
      reads this
    {
      counts.Length0 == REASONS && counts.Length1 == CATEGORIES
    }

    constructor ()
      ensures Valid() && fresh(counts)
      ensures forall r, c :: 0 <= r < REASONS && 0 <= c < CATEGORIES ==> counts[r, c] == 0
    {
      counts := new int[REASONS, CATEGORIES]((_, _) => 0);
    }

    method Discard(reason: nat, category: nat, quantity: int)
      requires Valid()
      modifies counts
      ensures forall r, c :: 0 <= r < REASONS && 0 <= c < CATEGORIES ==>
        counts[r, c] == old(counts[r, c]) + if r == reason && c == category && quantity > 0 then quantity else 0
    {
      if reason >= REASONS || category >= CATEGORIES || quantity <= 0 { return; }
      counts[reason, category] := counts[reason, category] + quantity;
    }

    /** Move all counts into the report, and tell whether there were any. */
    method Save(report: array2<int>) returns (pending: bool)
      requires Valid() && report != counts && report.Length0 == REASONS && report.Length1 == CATEGORIES
      modifies counts, report
      ensures forall r, c :: 0 <= r < REASONS && 0 <= c < CATEGORIES ==>
        report[r, c] == old(counts[r, c]) && counts[r, c] == 0
      ensures pending == exists r, c :: 0 <= r < REASONS && 0 <= c < CATEGORIES && old(counts[r, c]) > 0
    {
      pending := false;
      var r := 0;
      while r < REASONS
        invariant 0 <= r <= REASONS
        invariant forall i, j :: 0 <= i < REASONS && 0 <= j < CATEGORIES ==>
          if i < r then report[i, j] == old(counts[i, j]) && counts[i, j] == 0 else counts[i, j] == old(counts[i, j])
        invariant pending <==> exists i, j :: 0 <= i < r && 0 <= j < CATEGORIES && old(counts[i, j]) > 0
      {
        var c := 0;
        while c < CATEGORIES
          invariant 0 <= c <= CATEGORIES
          invariant forall i, j :: 0 <= i < REASONS && 0 <= j < CATEGORIES ==>
            if Earlier(i, j, r, c) then report[i, j] == old(counts[i, j]) && counts[i, j] == 0
            else counts[i, j] == old(counts[i, j])
          invariant pending <==> exists i, j ::
            0 <= i < REASONS && 0 <= j < CATEGORIES && Earlier(i, j, r, c) && old(counts[i, j]) > 0
        {
          report[r, c], counts[r, c] := counts[r, c], 0;
          if report[r, c] > 0 { pending := true; }
          c := c + 1;
        }
        r := r + 1;
      }
    }

    /** Add the counts of a report back, and clear it. */
    method Restore(report: array2<int>)
      requires Valid() && report != counts && report.Length0 == REASONS && report.Length1 == CATEGORIES
      modifies counts, report
      ensures forall r, c :: 0 <= r < REASONS && 0 <= c < CATEGORIES ==>
        && counts[r, c] == old(counts[r, c]) + (if old(report[r, c]) > 0 then old(report[r, c]) else 0)
        && report[r, c] == 0
    {
      var r := 0;
      while r < REASONS
        invariant 0 <= r <= REASONS
        invariant forall i, j :: 0 <= i < REASONS && 0 <= j < CATEGORIES ==> report[i, j] == old(report[i, j])
        invariant forall i, j :: 0 <= i < REASONS && 0 <= j < CATEGORIES ==>
          counts[i, j] == old(counts[i, j]) + if i < r && old(report[i, j]) > 0 then old(report[i, j]) else 0
      {
        var c := 0;
        while c < CATEGORIES
          invariant 0 <= c <= CATEGORIES
          invariant forall i, j :: 0 <= i < REASONS && 0 <= j < CATEGORIES ==> report[i, j] == old(report[i, j])
          invariant forall i, j :: 0 <= i < REASONS && 0 <= j < CATEGORIES ==>
            counts[i, j] == old(counts[i, j])
              + if Earlier(i, j, r, c) && old(report[i, j]) > 0 then old(report[i, j]) else 0
        {
          if report[r, c] > 0 { counts[r, c] := counts[r, c] + report[r, c]; }
          c := c + 1;
        }
        r := r + 1;
      }
      forall i, j | 0 <= i < REASONS && 0 <= j < CATEGORIES { report[i, j] := 0; }
    }
  }

  predicate Earlier(i: int, j: int, r: int, c: int) { i < r || (i == r && j < c) }
}
