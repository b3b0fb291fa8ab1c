/** Pruning the envelope cache by age, total size and number of entries. */
module CachePrune {
  import Decimal
  import Sorting

  datatype Entry = Entry(id: nat, mtime: int, size: nat)

  /** A limit of 0 does not apply. */
  datatype Limits = Limits(maxAge: int, maxSize: nat, maxItems: nat)

  predicate Aged(e: Entry, l: Limits, now: int) { l.maxAge > 0 && e.mtime < now - l.maxAge }

  /** The order the entries are sorted in; ties may come in any order. */
  predicate NewestFirst(es: seq<Entry>) { forall i, j :: 0 <= i < j < |es| ==> es[i].mtime >= es[j].mtime }

  function Total(es: seq<Entry>): nat {
    if es == [] then 0 else Total(es[..|es| - 1]) + es[|es| - 1].size
  }

  /** Entry `k` is young enough, and it and all newer ones are within the limits. */
  predicate Within(es: seq<Entry>, k: nat, l: Limits, now: int)
    requires k < |es|
  {
    && !Aged(es[k], l, now)
    && (l.maxSize > 0 ==> Total(es[..k + 1]) <= l.maxSize)
    && (l.maxItems > 0 ==> k < l.maxItems)
  }

  /** `n` is the length of the longest prefix that is within the limits throughout. */
  ghost predicate LongestPrefix(es: seq<Entry>, n: nat, l: Limits, now: int) {
    && n <= |es|
    && (forall k :: 0 <= k < n ==> Within(es, k, l, now))
    && (n < |es| ==> !Within(es, n, l, now))
  }

  /** `m` is where the aged entries begin. */
  ghost predicate AgedFrom(es: seq<Entry>, m: nat, l: Limits, now: int) {
    m <= |es| && forall k :: 0 <= k < |es| ==> (Aged(es[k], l, now) <==> m <= k)
  }

  lemma {:induction false} TotalMonotone(es: seq<Entry>, i: nat, j: nat)
    requires i <= j <= |es|
    ensures Total(es[..i]) <= Total(es[..j])
  {
    if i < j {
      assert es[..j][..j - 1] == es[..j - 1];
      TotalMonotone(es, i, j - 1);
    }
  }

  /** Once past the limits, always past them. */
  lemma WithinIsPrefix(es: seq<Entry>, i: nat, j: nat, l: Limits, now: int)
    requires NewestFirst(es) && i <= j < |es| && Within(es, j, l, now)
    ensures Within(es, i, l, now)
  {
    TotalMonotone(es, i + 1, j + 1);
  }

  /** The length of that prefix. */
  ghost function KeptCount(es: seq<Entry>, l: Limits, now: int): (n: nat)
    ensures LongestPrefix(es, n, l, now)
  {
    Leading(es, 0, l, now)
  }

  ghost function Leading(es: seq<Entry>, k: nat, l: Limits, now: int): (n: nat)
    requires k <= |es| && forall i :: 0 <= i < k ==> Within(es, i, l, now)
    ensures LongestPrefix(es, n, l, now)
    decreases |es| - k
  {
    if k < |es| && Within(es, k, l, now) then Leading(es, k + 1, l, now) else k
  }

  /** The number of entries that are not aged: all of them precede the aged ones. */
  ghost function YoungCount(es: seq<Entry>, l: Limits, now: int): (m: nat)
    requires NewestFirst(es)
    ensures AgedFrom(es, m, l, now)
  {
    if es == [] || !Aged(es[|es| - 1], l, now) then |es|
    else
      var init := es[..|es| - 1];
      var m := YoungCount(init, l, now);
      assert forall k :: 0 <= k < |init| ==> init[k] == es[k];
      m
  }

  // ------------------------------------------------------- the loop

  /** Addition of type `size_t`. */
  function AddSize(a: nat, b: nat): nat { (a + b) % Decimal.U64 }

  datatype Verdict = Keep | Expire | Overflow

  /** What becomes of entry `i`, given the size accumulated with it. */
  function Judge(e: Entry, i: nat, size: nat, l: Limits, now: int): Verdict {
    if Aged(e, l, now) then Expire
    else if (l.maxSize > 0 && size > l.maxSize) || (l.maxItems > 0 && i >= l.maxItems) then Overflow
    else Keep
  }

  /** The size accumulated over the first `k` entries: aged ones are not added. */
  function Running(es: seq<Entry>, k: nat, l: Limits, now: int): nat
    requires k <= |es|
  {
    if k == 0 then 0
    else if Aged(es[k - 1], l, now) then Running(es, k - 1, l, now)
    else AddSize(Running(es, k - 1, l, now), es[k - 1].size)
  }

  function VerdictAt(es: seq<Entry>, i: nat, l: Limits, now: int): Verdict
    requires i < |es|
  {
    Judge(es[i], i, Running(es, i + 1, l, now), l, now)
  }

  /** Those of the first `k` entries that get one of these verdicts. */
  function Select(es: seq<Entry>, k: nat, l: Limits, now: int, vs: set<Verdict>): seq<Entry>
    requires k <= |es|
  {
    if k == 0 then []
    else Select(es, k - 1, l, now, vs) + if VerdictAt(es, k - 1, l, now) in vs then [es[k - 1]] else []
  }

  /** The loop over the sorted entries, with its 64-bit running size. */
  method Prune(es: seq<Entry>, l: Limits, now: int)
    returns (kept: seq<Entry>, removed: seq<Entry>, overflow: seq<Entry>)
    ensures kept == Select(es, |es|, l, now, {Keep})
    ensures removed == Select(es, |es|, l, now, {Expire, Overflow})
    ensures overflow == Select(es, |es|, l, now, {Overflow})
  {
    kept, removed, overflow := [], [], [];
    var size: nat, i := 0, 0;
    while i < |es|
      invariant i <= |es| && size == Running(es, i, l, now)
      invariant kept == Select(es, i, l, now, {Keep})
      invariant removed == Select(es, i, l, now, {Expire, Overflow})
      invariant overflow == Select(es, i, l, now, {Overflow})
    {
      hide AddSize;
      var prune, over := false, false;
      if l.maxAge > 0 && es[i].mtime < now - l.maxAge {
        prune := true;
      } else {
        size := AddSize(size, es[i].size);
        if l.maxSize > 0 && size > l.maxSize { prune, over := true, true; }
        if l.maxItems > 0 && i >= l.maxItems { prune, over := true, true; }
      }
      assert VerdictAt(es, i, l, now) == if over then Overflow else if prune then Expire else Keep;
      hide VerdictAt;
      if prune {
        if over { overflow := overflow + [es[i]]; }
        removed := removed + [es[i]];
      } else {
        kept := kept + [es[i]];
      }
      i := i + 1;
    }
  }

  // ------------------------------------------------------- what it amounts to

  /** The running size has wrapped around to within the limit at an entry that is beyond
      it, young, and within the limit on the number of entries. */
  predicate WrapsAt(es: seq<Entry>, i: nat, l: Limits, now: int)
    requires i < |es|
  {
    && !Aged(es[i], l, now) && l.maxSize > 0 && (l.maxItems > 0 ==> i < l.maxItems)
    && Total(es[..i + 1]) > l.maxSize && Total(es[..i + 1]) % Decimal.U64 <= l.maxSize
  }

  ghost predicate Wraps(es: seq<Entry>, l: Limits, now: int) { exists i :: 0 <= i < |es| && WrapsAt(es, i, l, now) }

  /** What pruning is meant to do: keep the longest newest-first prefix within the limits,
      remove all others, and count as overflow those removed that are not aged. */
  ghost predicate Exact(es: seq<Entry>, l: Limits, now: int)
    requires NewestFirst(es)
  {
    var n, m := KeptCount(es, l, now), YoungCount(es, l, now);
    && n <= m
    && Select(es, |es|, l, now, {Keep}) == es[..n]
    && Select(es, |es|, l, now, {Expire, Overflow}) == es[n..]
    && Select(es, |es|, l, now, {Overflow}) == es[n..m]
  }

  lemma {:induction false} RunningIs(es: seq<Entry>, k: nat, l: Limits, now: int)
    requires k <= |es| && forall i :: 0 <= i < k ==> !Aged(es[i], l, now)
    ensures Running(es, k, l, now) == Total(es[..k]) % Decimal.U64
  {
    if k > 0 {
      RunningIs(es, k - 1, l, now);
      RunningTotal(es, k - 1);
      hide Total, Aged;
      AddWraps(Total(es[..k - 1]), es[k - 1].size);
    }
  }

  lemma AddWraps(a: nat, b: nat)
    ensures AddSize(a % Decimal.U64, b) == (a + b) % Decimal.U64
  {
    var q, r := a / Decimal.U64, a % Decimal.U64;
    assert a + b == r + b + q * Decimal.U64;
    SkipMultiples(r + b, q);
  }

  lemma {:induction false} SkipMultiples(x: nat, q: nat)
    ensures (x + q * Decimal.U64) % Decimal.U64 == x % Decimal.U64
  {
    if q > 0 { SkipMultiples(x, q - 1); }
  }

  lemma RunningTotal(es: seq<Entry>, i: nat)
    requires i < |es|
    ensures Total(es[..i + 1]) == Total(es[..i]) + es[i].size
  {
    assert es[..i + 1][..i] == es[..i];
  }

  /** The verdict on entry `i` is what the limits say, unless the size wraps there. */
  lemma VerdictIs(es: seq<Entry>, i: nat, l: Limits, now: int)
    requires NewestFirst(es) && i < |es|
    ensures VerdictAt(es, i, l, now)
      == if Aged(es[i], l, now) then Expire
         else if Within(es, i, l, now) || WrapsAt(es, i, l, now) then Keep
         else Overflow
    ensures WrapsAt(es, i, l, now) ==> !Within(es, i, l, now)
  {
    if !Aged(es[i], l, now) {
      forall j | 0 <= j < i + 1 ensures !Aged(es[j], l, now) { }
      RunningIs(es, i + 1, l, now);
      var t := Total(es[..i + 1]);
      SmallMod(t);
      hide Running, Total;
    }
  }

  lemma SmallMod(t: nat)
    ensures t % Decimal.U64 <= t
  {
  }

  /** If exactly the entries from `a` to `b` get one of these verdicts, they are selected. */
  lemma {:induction false} SelectRange(es: seq<Entry>, k: nat, l: Limits, now: int, vs: set<Verdict>, a: nat, b: nat)
    requires k <= |es| && a <= b <= |es|
    requires forall i :: 0 <= i < k ==> (VerdictAt(es, i, l, now) in vs <==> a <= i < b)
    ensures Select(es, k, l, now, vs) == es[Least(a, k)..Least(b, k)]
  {
    hide VerdictAt;
    if k > 0 {
      SelectRange(es, k - 1, l, now, vs, a, b);
      assert VerdictAt(es, k - 1, l, now) in vs <==> a <= k - 1 < b;
    }
  }

  function Least(a: nat, b: nat): nat { if a < b then a else b }

  lemma {:induction false} SelectGrows(es: seq<Entry>, j: nat, k: nat, l: Limits, now: int, vs: set<Verdict>)
    requires j <= k <= |es|
    ensures |Select(es, j, l, now, vs)| <= |Select(es, k, l, now, vs)|
  {
    hide VerdictAt;
    if j < k { SelectGrows(es, j, k - 1, l, now, vs); }
  }

  lemma AgedFromIs(es: seq<Entry>, l: Limits, now: int)
    requires NewestFirst(es)
    ensures var n, m := KeptCount(es, l, now), YoungCount(es, l, now);
      && n <= m <= |es|
      && (forall i :: 0 <= i < |es| ==> (Aged(es[i], l, now) <==> m <= i) && (Within(es, i, l, now) <==> i < n))
  {
    var n, m := KeptCount(es, l, now), YoungCount(es, l, now);
    var atM := m < |es| && Aged(es[m], l, now) && Within(es, m, l, now);
    forall i | 0 <= i < |es| ensures Within(es, i, l, now) <==> i < n {
      if n <= i && Within(es, i, l, now) { WithinIsPrefix(es, n, i, l, now); }
    }
  }

  lemma ExactWithoutWraps(es: seq<Entry>, l: Limits, now: int)
    requires NewestFirst(es) && !Wraps(es, l, now)
    ensures Exact(es, l, now)
  {
    var n, m := KeptCount(es, l, now), YoungCount(es, l, now);
    AgedFromIs(es, l, now);
    forall i | 0 <= i < |es|
      ensures VerdictAt(es, i, l, now) == if i < n then Keep else if i < m then Overflow else Expire
    {
      VerdictIs(es, i, l, now);
    }
    hide VerdictAt, KeptCount, YoungCount, Wraps, Within, Aged, Select;
    SelectRange(es, |es|, l, now, {Keep}, 0, n);
    SelectRange(es, |es|, l, now, {Expire, Overflow}, n, |es|);
    SelectRange(es, |es|, l, now, {Overflow}, n, m);
  }

  /** An entry at which the size wraps is kept, and so are all that should be. */
  lemma WrapsKeepsMore(es: seq<Entry>, i: nat, l: Limits, now: int)
    requires NewestFirst(es) && i < |es| && WrapsAt(es, i, l, now)
    ensures |Select(es, |es|, l, now, {Keep})| > KeptCount(es, l, now)
  {
    var n := KeptCount(es, l, now);
    AgedFromIs(es, l, now);
    VerdictIs(es, i, l, now);
    forall j | 0 <= j < n ensures VerdictAt(es, j, l, now) == Keep { VerdictIs(es, j, l, now); }
    hide VerdictAt, KeptCount, YoungCount, Within, Aged, WrapsAt;
    SelectRange(es, n, l, now, {Keep}, 0, n);
    SelectGrows(es, n, i, l, now, {Keep});
    SelectGrows(es, i + 1, |es|, l, now, {Keep});
  }

  /** Main result: pruning does what it is meant to, if and only if the running size does
      not wrap around to within its limit. */
  lemma PruneIsExact(es: seq<Entry>, l: Limits, now: int)
    requires NewestFirst(es)
    ensures Exact(es, l, now) <==> !Wraps(es, l, now)
  {
    if i :| 0 <= i < |es| && WrapsAt(es, i, l, now) {
      WrapsKeepsMore(es, i, l, now);
    } else {
      ExactWithoutWraps(es, l, now);
    }
    hide WrapsAt, Select;
  }

  /** It does not without a size limit, nor when the young entries add up to less than
      2^64 bytes. */
  lemma NoWrap(es: seq<Entry>, l: Limits, now: int)
    requires NewestFirst(es)
    requires l.maxSize == 0 || Total(es[..YoungCount(es, l, now)]) < Decimal.U64
    ensures !Wraps(es, l, now)
  {
    forall i | 0 <= i < |es| ensures !WrapsAt(es, i, l, now) {
      var m := YoungCount(es, l, now);
      if i < m { TotalMonotone(es, i + 1, m); }
    }
  }

  /** It can: a limit of 10 bytes, and two entries of 20 and of 2^64 - 15 bytes, of which
      the second is kept. */
  lemma SizeCanWrap()
    ensures var es, l := [Entry(0, 1, 20), Entry(1, 0, Decimal.U64 - 15)], Limits(0, 10, 0);
      NewestFirst(es) && WrapsAt(es, 1, l, 0) && !Exact(es, l, 0)
  {
    var es, l := [Entry(0, 1, 20), Entry(1, 0, Decimal.U64 - 15)], Limits(0, 10, 0);
    assert es[..0] == [];
    RunningTotal(es, 0);
    RunningTotal(es, 1);
    assert Total(es[..2]) == Decimal.U64 + 5;
    assert WrapsAt(es, 1, l, 0);
    PruneIsExact(es, l, 0);
  }

  // ------------------------------------------------------- from the directory

  predicate Newer(a: Entry, b: Entry) { a.mtime >= b.mtime }

  /** `qsort` by time of modification. */
  function Sort(es: seq<Entry>): (r: seq<Entry>)
    ensures NewestFirst(r) && multiset(r) == multiset(es)
  {
    Sorting.SortSorts(Newer, es);
    SortedIsNewestFirst(Sorting.Sort(Newer, es));
    Sorting.Sort(Newer, es)
  }

  lemma SortedIsNewestFirst(es: seq<Entry>)
    requires Sorting.Sorted(Newer, es)
    ensures NewestFirst(es)
  {
    forall i, j | 0 <= i < j < |es| ensures es[i].mtime >= es[j].mtime { assert Newer(es[i], es[j]); }
  }

  // ------------------------------------------------------- each entry is kept or removed

  ghost predicate Split(a: seq<Entry>, b: seq<Entry>, c: seq<Entry>) { multiset(a) + multiset(b) == multiset(c) }

  lemma SplitNothing(c: seq<Entry>)
    requires c == []
    ensures Split([], [], c)
  {
  }

  lemma SplitOneMore(a: seq<Entry>, b: seq<Entry>, c: seq<Entry>, e: Entry)
    requires Split(a, b, c)
    ensures Split(a + [e], b, c + [e]) && Split(a, b + [e], c + [e])
  {
  }

  lemma SelectStep(es: seq<Entry>, k: nat, l: Limits, now: int, vs: set<Verdict>)
    requires k <= |es|
    ensures Select(es, k, l, now, vs)
         == if k == 0 then []
            else if VerdictAt(es, k - 1, l, now) in vs then Select(es, k - 1, l, now, vs) + [es[k - 1]]
            else Select(es, k - 1, l, now, vs)
  {
    hide VerdictAt;
    if k > 0 { assert Select(es, k - 1, l, now, vs) + [] == Select(es, k - 1, l, now, vs); }
  }

  lemma PrefixStep(es: seq<Entry>, k: nat)
    requires 0 < k <= |es|
    ensures es[..k] == es[..k - 1] + [es[k - 1]]
  {
  }

  lemma {:induction false} KeptOrRemoved(es: seq<Entry>, k: nat, l: Limits, now: int)
    requires k <= |es|
    ensures Split(Select(es, k, l, now, {Keep}), Select(es, k, l, now, {Expire, Overflow}), es[..k])
  {
    hide *;
    SelectStep(es, k, l, now, {Keep});
    SelectStep(es, k, l, now, {Expire, Overflow});
    if k == 0 {
      SplitNothing(es[..k]);
    } else {
      KeptOrRemoved(es, k - 1, l, now);
      PrefixStep(es, k);
      var kept, removed := Select(es, k - 1, l, now, {Keep}), Select(es, k - 1, l, now, {Expire, Overflow});
      SplitOneMore(kept, removed, es[..k - 1], es[k - 1]);
      match VerdictAt(es, k - 1, l, now)
      case Keep =>
      case Expire =>
      case Overflow =>
    }
  }

  /** `sentry__cleanup_cache` on the entries of the directory, in whatever order they come:
      each is kept or removed, and unless the running size wraps around, those kept are the
      longest prefix of the newest ones that is within the limits. */
  method Cleanup(es: seq<Entry>, l: Limits, now: int)
    returns (kept: seq<Entry>, removed: seq<Entry>, overflow: seq<Entry>)
    ensures multiset(kept) + multiset(removed) == multiset(es)
    ensures var sorted := Sort(es);
      !Wraps(sorted, l, now) ==>
        var n, m := KeptCount(sorted, l, now), YoungCount(sorted, l, now);
        n <= m && kept == sorted[..n] && removed == sorted[n..] && overflow == sorted[n..m]
  {
    var sorted := Sort(es);
    kept, removed, overflow := Prune(sorted, l, now);
    PruneIsExact(sorted, l, now);
    KeptOrRemoved(sorted, |sorted|, l, now);
    assert sorted[..|sorted|] == sorted;
    hide Select, Wraps;
  }
}
