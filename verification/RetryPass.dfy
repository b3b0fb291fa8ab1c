/**
  One pass over the retry files of the cache directory: select, sort, send until the
  network fails. The number of attempts an envelope has had is kept in its file name.
 */
module RetryPass {
  import opened Bytes
  import opened Wrappers
  import CacheName
  import Decimal
  import Sorting

  const ATTEMPTS := 6
  const INTERVAL := 15 * 60 * 1000

  datatype Keep = Never | Offline | Always

  datatype Item = Item(path: Bytes, ts: nat, count: int, uuid: Bytes)

  /** What became of sending an item: its file was not an envelope, or there was a status,
      negative for a network failure. `stored` is whether it could be put into the cache. */
  datatype Outcome = Corrupt | Reply(status: int, stored: bool)

  /** The circumstances of a pass: the age filter, or 0 for a pass by backoff; the time it
      starts; the time a failed item is stamped with. */
  datatype Pass = Pass(before: nat, now: nat, stamp: nat, keep: Keep)

  function Pow2(k: nat): nat { if k == 0 then 1 else 2 * Pow2(k - 1) }

  /** The interval, shifted left by the count within limits. */
  function Backoff(count: int): nat { INTERVAL * Pow2(if count < 0 then 0 else if count > 5 then 5 else count) }

  /** 15 minutes at first, doubled with each attempt, up to 8 hours. */
  lemma BackoffDoubles(count: int)
    ensures count <= 0 ==> Backoff(count) == 15 * 60 * 1000
    ensures 0 <= count < 5 ==> Backoff(count + 1) == 2 * Backoff(count)
    ensures count >= 5 ==> Backoff(count) == 8 * 60 * 60 * 1000
  {
    if 0 <= count < 5 { assert Pow2(count + 1) == 2 * Pow2(count); }
    if count >= 5 { assert Pow2(5) == 2 * Pow2(4) && Pow2(4) == 2 * Pow2(3) && Pow2(3) == 2 * Pow2(2); }
  }

  // ------------------------------------------------------- names

  predicate IsRetry(name: Bytes) {
    CacheName.Parse(name).Some? && CacheName.Parse(name).value.count >= 0
  }

  function ItemOf(name: Bytes): Item
    requires IsRetry(name)
  {
    var n := CacheName.Parse(name).value;
    Item(name, n.ts, n.count, n.uuid)
  }

  predicate Considered(p: Pass, name: Bytes) {
    IsRetry(name) && (p.before > 0 ==> ItemOf(name).ts < p.before)
  }

  predicate Eligible(p: Pass, name: Bytes) {
    && Considered(p, name)
    && (p.before == 0 ==> var it := ItemOf(name); it.ts <= p.now && p.now - it.ts >= Backoff(it.count))
  }

  // ------------------------------------------------------- order

  /** `strcmp` */
  function Compare(a: Bytes, b: Bytes): int {
    if a == [] then (if b == [] then 0 else -1)
    else if b == [] then 1
    else if a[0] != b[0] then (if a[0] < b[0] then -1 else 1)
    else Compare(a[1..], b[1..])
  }

  /** Older first, then fewer attempts, then by uuid. */
  predicate Precedes(a: Item, b: Item) {
    if a.ts != b.ts then a.ts < b.ts
    else if a.count != b.count then a.count < b.count
    else Compare(a.uuid, b.uuid) <= 0
  }

  lemma {:induction false} CompareOrder(a: Bytes, b: Bytes, c: Bytes)
    ensures Compare(b, a) == -Compare(a, b)
    ensures Compare(a, b) <= 0 && Compare(b, c) <= 0 ==> Compare(a, c) <= 0
    ensures Compare(a, b) == 0 ==> a == b
    decreases |a|
  {
    if a != [] && b != [] {
      CompareOrder(a[1..], b[1..], if c == [] then [] else c[1..]);
      assert a == [a[0]] + a[1..] && b == [b[0]] + b[1..];
    }
  }

  /** Items are totally ordered by time, count and uuid; equals agree in all three. */
  lemma PrecedesOrder(a: Item, b: Item, c: Item)
    ensures Precedes(a, b) || Precedes(b, a)
    ensures Precedes(a, b) && Precedes(b, c) ==> Precedes(a, c)
    ensures Precedes(a, b) && Precedes(b, a) ==> a.ts == b.ts && a.count == b.count && a.uuid == b.uuid
  {
    CompareOrder(a.uuid, b.uuid, c.uuid);
    CompareOrder(b.uuid, a.uuid, c.uuid);
    hide Compare;
  }

  ghost predicate Sorted(s: seq<Item>) { Sorting.Sorted(Precedes, s) }

  /** `qsort` by that order. */
  function Sort(s: seq<Item>): (r: seq<Item>)
    ensures Sorted(r) && multiset(r) == multiset(s)
  {
    PrecedesIsOrder();
    Sorting.SortSorts(Precedes, s);
    Sorting.Sort(Precedes, s)
  }

  lemma PrecedesIsOrder()
    ensures Sorting.IsOrder(Precedes)
  {
    forall a, b, c ensures Precedes(a, b) || Precedes(b, a)
      ensures Precedes(a, b) && Precedes(b, c) ==> Precedes(a, c)
    {
      PrecedesOrder(a, b, c);
    }
    hide Precedes;
  }

  // ------------------------------------------------------- what one result does

  predicate NetworkFailure(o: Outcome) { o.Reply? && o.status < 0 }

  predicate StaysQueued(it: Item, o: Outcome) { it.count + 1 < ATTEMPTS && NetworkFailure(o) }

  function Renamed(p: Pass, it: Item): Bytes { CacheName.Build(p.stamp, it.count + 1, it.uuid) }

  function Bare(it: Item): Bytes { CacheName.Build(0, -1, it.uuid) }

  function Settle(p: Pass, files: set<Bytes>, it: Item, o: Outcome): set<Bytes> {
    if o.Corrupt? then files - {it.path}
    else if it.count + 1 < ATTEMPTS && o.status < 0 then files - {it.path} + {Renamed(p, it)}
    else if it.count + 1 >= ATTEMPTS && p.keep != Never && o.status < 0 then
      if p.keep == Always && Bare(it) in files then files - {it.path}
      else if o.stored then files - {it.path} + {Bare(it)}
      else files - {it.path}
    else if p.keep == Always && o.stored then files - {it.path} + {Bare(it)}
    else files - {it.path}
  }

  // ------------------------------------------------------- the queue that the names hold

  /** The envelopes that wait for a retry. */
  ghost function Queue(files: set<Bytes>): set<Item> { set a | a in files && IsRetry(a) :: ItemOf(a) }

  /** No two retry files are for the same envelope. */
  ghost predicate Distinct(q: set<Item>) { forall a, b :: a in q && b in q && a.uuid == b.uuid ==> a == b }

  function Bumped(p: Pass, it: Item): Item { Item(Renamed(p, it), p.stamp, it.count + 1, it.uuid) }

  /** What a result does to the queue: the envelope leaves it, or is in it with one more
      attempt on its count. */
  ghost function SettleQueue(p: Pass, q: set<Item>, it: Item, o: Outcome): set<Item> {
    q - {it} + if StaysQueued(it, o) then {Bumped(p, it)} else {}
  }

  /** The count survives in the file name. */
  lemma SettleIsQueued(p: Pass, files: set<Bytes>, it: Item, o: Outcome)
    requires p.stamp < Decimal.U64 && it in Queue(files)
    ensures Queue(Settle(p, files, it, o)) == SettleQueue(p, Queue(files), it, o)
  {
    SettleForm(p, files, it, o);
    QueuedForms(p, files, it, o);
    hide Queue, Settle, StaysQueued, IsRetry, ItemOf, Renamed, Bare, Bumped;
    QueueLoses(files, it.path);
    if StaysQueued(it, o) {
      QueueAdds(files - {it.path}, Renamed(p, it));
    } else {
      QueueAdds(files - {it.path}, Bare(it));
    }
  }

  /** The file goes, and at most one comes in its place. */
  lemma SettleForm(p: Pass, files: set<Bytes>, it: Item, o: Outcome)
    ensures var files', rest := Settle(p, files, it, o), files - {it.path};
      if StaysQueued(it, o) then files' == rest + {Renamed(p, it)} else files' == rest || files' == rest + {Bare(it)}
  {
    hide Renamed, Bare;
  }

  lemma QueuedForms(p: Pass, files: set<Bytes>, it: Item, o: Outcome)
    requires p.stamp < Decimal.U64 && it in Queue(files)
    ensures IsRetry(it.path) && ItemOf(it.path) == it && !IsRetry(Bare(it))
    ensures StaysQueued(it, o) ==> IsRetry(Renamed(p, it)) && ItemOf(Renamed(p, it)) == Bumped(p, it)
  {
    CacheName.ParseBuild(0, -1, it.uuid);
    if StaysQueued(it, o) { CacheName.ParseBuild(p.stamp, it.count + 1, it.uuid); }
    hide CacheName.Parse, CacheName.Build;
  }

  lemma QueueAdds(files: set<Bytes>, a: Bytes)
    ensures Queue(files + {a}) == Queue(files) + if IsRetry(a) then {ItemOf(a)} else {}
  {
    hide CacheName.Parse;
  }

  lemma QueueLoses(files: set<Bytes>, a: Bytes)
    requires IsRetry(a)
    ensures Queue(files - {a}) == Queue(files) - {ItemOf(a)}
  {
    hide CacheName.Parse;
    forall b | IsRetry(b) && ItemOf(b) == ItemOf(a) ensures b == a { }
  }

  // ------------------------------------------------------- the cache beside the queue

  /** The other files: envelopes kept in the cache, which no pass considers. */
  ghost function Cached(files: set<Bytes>): set<Bytes> { set a | a in files && !IsRetry(a) }

  /** An envelope that leaves the queue is kept always, or if it could not be sent, or
      never. */
  predicate IsKept(p: Pass, it: Item, o: Outcome) {
    && o.Reply? && o.stored && !StaysQueued(it, o)
    && (p.keep == Always || (p.keep == Offline && NetworkFailure(o)))
  }

  lemma SettleIsCached(p: Pass, files: set<Bytes>, it: Item, o: Outcome)
    requires p.stamp < Decimal.U64 && it in Queue(files)
    ensures Cached(Settle(p, files, it, o)) == Cached(files) + if IsKept(p, it, o) then {Bare(it)} else {}
  {
    QueuedForms(p, files, it, o);
    SettleKeeps(p, files, it, o);
    hide Queue, Settle, StaysQueued, IsKept, IsRetry, ItemOf, Renamed, Bare, Bumped, Cached;
    var rest := files - {it.path};
    CachedChanges(files, it.path);
    CachedChanges(rest, Renamed(p, it));
    CachedChanges(rest, Bare(it));
    CachedHas(files, Bare(it));
  }

  lemma SettleKeeps(p: Pass, files: set<Bytes>, it: Item, o: Outcome)
    ensures var files', rest := Settle(p, files, it, o), files - {it.path};
      if StaysQueued(it, o) then files' == rest + {Renamed(p, it)} && !IsKept(p, it, o)
      else if IsKept(p, it, o) then files' == rest + {Bare(it)} || (files' == rest && Bare(it) in files)
      else files' == rest
  {
    hide Renamed, Bare;
  }

  lemma CachedChanges(files: set<Bytes>, a: Bytes)
    ensures IsRetry(a) ==> Cached(files - {a}) == Cached(files)
    ensures Cached(files + {a}) == Cached(files) + if IsRetry(a) then {} else {a}
  {
    hide IsRetry;
  }

  lemma CachedHas(files: set<Bytes>, a: Bytes)
    requires !IsRetry(a)
    ensures a in files ==> Cached(files) + {a} == Cached(files)
  {
    hide IsRetry;
  }

  ghost function CachedAfter(p: Pass, cached: set<Bytes>, sent: seq<Item>, outcome: Item -> Outcome): set<Bytes> {
    cached + set it | it in sent && IsKept(p, it, outcome(it)) :: Bare(it)
  }

  lemma CachedOneMore(p: Pass, cached: set<Bytes>, items: seq<Item>, i: nat, outcome: Item -> Outcome)
    requires i < |items|
    ensures CachedAfter(p, cached, items[..i + 1], outcome)
         == CachedAfter(p, cached, items[..i], outcome)
            + if IsKept(p, items[i], outcome(items[i])) then {Bare(items[i])} else {}
  {
    hide IsKept, Bare;
    assert items[..i + 1] == items[..i] + [items[i]];
  }

  // ------------------------------------------------------- the pass

  function Names(listing: seq<Bytes>): set<Bytes> { set a | a in listing }

  predicate NoRepeats<T(==)>(s: seq<T>) { forall i, j :: 0 <= i < j < |s| ==> s[i] != s[j] }

  function EligibleItems(p: Pass, listing: seq<Bytes>): (r: seq<Item>)
    ensures forall it :: it in r <==> it.path in listing && Eligible(p, it.path) && ItemOf(it.path) == it
    ensures NoRepeats(listing) ==> NoRepeats(r)
  {
    if listing == [] then []
    else
      var init, a := listing[..|listing| - 1], listing[|listing| - 1];
      assert listing == init + [a];
      var r := EligibleItems(p, init);
      if Eligible(p, a) then r + [ItemOf(a)] else r
  }

  ghost function ConsideredItems(p: Pass, listing: seq<Bytes>): set<Item> {
    set a | a in listing && Considered(p, a) :: ItemOf(a)
  }

  /** Those of `c` that are still in retry form. */
  ghost function Still(c: set<Item>, q: set<Item>): set<Item> { set it | it in c && InQueue(q, it.uuid) }

  ghost predicate InQueue(q: set<Item>, u: Bytes) { exists b :: b in q && b.uuid == u }

  ghost function Elements(s: seq<Item>): set<Item> { set it | it in s }

  /** What is left of the queue when `sent` were sent, the last of which may have failed. */
  ghost function QueueAfter(p: Pass, q: set<Item>, sent: seq<Item>, outcome: Item -> Outcome): set<Item> {
    q - Elements(sent)
    + if sent != [] && StaysQueued(Last(sent), outcome(Last(sent))) then {Bumped(p, Last(sent))} else {}
  }

  function Last(s: seq<Item>): Item
    requires s != []
  {
    s[|s| - 1]
  }

  /** The first network failure ends the pass, and nothing else does. */
  ghost predicate EndsAtFailure(sent: seq<Item>, all: seq<Item>, outcome: Item -> Outcome) {
    && sent <= all
    && (forall k :: 0 <= k < |sent| - 1 ==> !NetworkFailure(outcome(sent[k])))
    && (sent < all ==> sent != [] && NetworkFailure(outcome(Last(sent))))
  }

  // ------------------------------------------------------- what is sent, and when

  /** The uuids agree, or the first is smaller at the first byte where they differ. */
  ghost predicate NotLarger(a: Bytes, b: Bytes) {
    a == b || exists k :: 0 <= k < |a| && k < |b| && a[..k] == b[..k] && a[k] < b[k]
  }

  ghost predicate OlderFirst(a: Item, b: Item) {
    || a.ts < b.ts
    || (a.ts == b.ts && a.count < b.count)
    || (a.ts == b.ts && a.count == b.count && NotLarger(a.uuid, b.uuid))
  }

  ghost predicate SendsInOrder(sent: seq<Item>) {
    forall i, j :: 0 <= i < j < |sent| ==> OlderFirst(sent[i], sent[j])
  }

  /** A name that a pass is to send: by age at startup or when triggered, else by backoff. */
  ghost predicate Due(p: Pass, n: CacheName.Name) {
    n.count >= 0 && if p.before > 0 then n.ts < p.before else n.ts + Backoff(n.count) <= p.now
  }

  ghost predicate SendsOnlyDue(p: Pass, listing: seq<Bytes>, sent: seq<Item>) {
    forall it :: it in sent ==>
      var n := CacheName.Name(it.ts, it.count, it.uuid);
      it.path in listing && CacheName.Parse(it.path) == Some(n) && Due(p, n)
  }

  /** Whatever is due is sent, unless the network failed on something before it. */
  ghost predicate SendsAllDue(p: Pass, listing: seq<Bytes>, sent: seq<Item>, outcome: Item -> Outcome) {
    forall a :: a in listing && CacheName.Parse(a).Some? && Due(p, CacheName.Parse(a).value) ==>
      var n := CacheName.Parse(a).value;
      var it := Item(a, n.ts, n.count, n.uuid);
      it in sent || (sent != [] && NetworkFailure(outcome(Last(sent))) && OlderFirst(Last(sent), it))
  }

  lemma {:induction false} CompareMeans(a: Bytes, b: Bytes)
    requires |a| == |b|
    ensures Compare(a, b) <= 0 <==> NotLarger(a, b)
    decreases |a|
  {
    if a != [] && a[0] == b[0] {
      CompareMeans(a[1..], b[1..]);
      assert a == [a[0]] + a[1..] && b == [b[0]] + b[1..];
      if k :| 0 <= k < |a[1..]| && a[1..][..k] == b[1..][..k] && a[1..][k] < b[1..][k] {
        assert a[..k + 1] == [a[0]] + a[1..][..k] && b[..k + 1] == [b[0]] + b[1..][..k];
        assert a[k + 1] < b[k + 1];
      }
      if k :| 0 <= k < |a| && k < |b| && a[..k] == b[..k] && a[k] < b[k] {
        assert k > 0;
        assert a[1..][..k - 1] == a[..k][1..] && b[1..][..k - 1] == b[..k][1..];
        assert a[1..][k - 1] < b[1..][k - 1];
      }
    } else if a != [] {
      assert a[..0] == b[..0];
      forall k | 0 < k <= |a| ensures a[..k] != b[..k] { assert a[..k][0] == a[0] && b[..k][0] == b[0]; }
    }
  }

  lemma PrecedesMeans(a: Item, b: Item)
    requires |a.uuid| == |b.uuid|
    ensures Precedes(a, b) <==> OlderFirst(a, b)
  {
    CompareMeans(a.uuid, b.uuid);
    hide Compare, NotLarger;
  }

  lemma EligibleMeans(p: Pass, a: Bytes)
    ensures Eligible(p, a) <==> CacheName.Parse(a).Some? && Due(p, CacheName.Parse(a).value)
    ensures Eligible(p, a) ==> |ItemOf(a).uuid| == CacheName.UUID
  {
    hide CacheName.Parse, Backoff;
  }

  /** What the sorted items and the end of the pass amount to. */
  lemma SendsRight(p: Pass, listing: seq<Bytes>, sent: seq<Item>, outcome: Item -> Outcome)
    requires EndsAtFailure(sent, Sort(EligibleItems(p, listing)), outcome)
    ensures SendsInOrder(sent) && SendsOnlyDue(p, listing, sent) && SendsAllDue(p, listing, sent, outcome)
  {
    var found := EligibleItems(p, listing);
    var items := Sort(found);
    forall it ensures it in items <==> it in found { assert it in items <==> it in multiset(items); }
    forall a, b | a in items && b in items ensures |a.uuid| == |b.uuid| {
      EligibleMeans(p, a.path);
      EligibleMeans(p, b.path);
    }
    InOrder(items);
    OnlyDue(p, listing, items);
    hide CacheName.Parse, Backoff, EligibleItems, Sort, Due, OlderFirst, Eligible, IsRetry;
    forall it | it in sent ensures it in items { }
    assert forall i :: 0 <= i < |sent| ==> sent[i] == items[i];
    AllDue(p, listing, items, sent, outcome);
  }

  lemma InOrder(items: seq<Item>)
    requires Sorted(items) && forall a, b :: a in items && b in items ==> |a.uuid| == |b.uuid|
    ensures SendsInOrder(items)
  {
    forall i, j | 0 <= i < j < |items| ensures OlderFirst(items[i], items[j]) {
      assert items[i] in items && items[j] in items;
      PrecedesMeans(items[i], items[j]);
    }
    hide OlderFirst, Precedes;
  }

  lemma OnlyDue(p: Pass, listing: seq<Bytes>, items: seq<Item>)
    requires forall it :: it in items ==> it in EligibleItems(p, listing)
    ensures SendsOnlyDue(p, listing, items)
  {
    forall it | it in items
      ensures it.path in listing && Eligible(p, it.path) && ItemOf(it.path) == it
      ensures CacheName.Parse(it.path).Some? && Due(p, CacheName.Parse(it.path).value)
    {
      EligibleMeans(p, it.path);
    }
    hide CacheName.Parse, Backoff, Due;
  }

  lemma AllDue(p: Pass, listing: seq<Bytes>, items: seq<Item>, sent: seq<Item>, outcome: Item -> Outcome)
    requires EndsAtFailure(sent, items, outcome) && SendsInOrder(items)
    requires forall it :: it in items <==> it in EligibleItems(p, listing)
    ensures SendsAllDue(p, listing, sent, outcome)
  {
    forall a | a in listing && CacheName.Parse(a).Some? && Due(p, CacheName.Parse(a).value)
      ensures
        var n := CacheName.Parse(a).value;
        var it := Item(a, n.ts, n.count, n.uuid);
        it in sent || (sent != [] && NetworkFailure(outcome(Last(sent))) && OlderFirst(Last(sent), it))
    {
      EligibleMeans(p, a);
      var it := ItemOf(a);
      assert it in EligibleItems(p, listing);
      var j :| 0 <= j < |items| && items[j] == it;
      hide CacheName.Parse, Due, Eligible, OlderFirst;
      if j < |sent| {
        assert sent[j] == it;
      } else {
        assert sent < items;
        assert items[|sent| - 1] == Last(sent);
      }
    }
  }

  /** What the pass returns: those it considered, less those it sent, but for the last one
      if that is to be tried again. */
  function Remaining(considered: nat, sent: seq<Item>, outcome: Item -> Outcome): int {
    considered - |sent| + if sent != [] && StaysQueued(Last(sent), outcome(Last(sent))) then 1 else 0
  }

  /** `sentry__retry_send`, with the state of the directory and what was sent as results.
      If no two retry files are for one envelope, the return value is the number of
      considered envelopes that are still in retry form. */
  method Send(p: Pass, listing: seq<Bytes>, consent: bool, outcome: Item -> Outcome)
    returns (total: nat, sent: seq<Item>, files: set<Bytes>)
    requires p.stamp < Decimal.U64 && NoRepeats(listing)
    ensures !consent ==> total == 1 && sent == [] && files == Names(listing)
    ensures consent ==> EndsAtFailure(sent, Sort(EligibleItems(p, listing)), outcome)
    ensures SendsInOrder(sent) && SendsOnlyDue(p, listing, sent)
    ensures consent ==> SendsAllDue(p, listing, sent, outcome)
    ensures Queue(files) == QueueAfter(p, Queue(Names(listing)), sent, outcome)
    ensures Cached(files) == CachedAfter(p, Cached(Names(listing)), sent, outcome)
    ensures consent ==> total == Remaining(|ConsideredItems(p, listing)|, sent, outcome)
    ensures consent && Distinct(Queue(Names(listing))) ==> total == |Still(ConsideredItems(p, listing), Queue(files))|
  {
    if !consent {
      assert Elements([]) == {};
      NothingCached(p, Cached(Names(listing)), [], outcome);
      return 1, [], Names(listing);
    }
    hide *;
    var items;
    total, items := Collect(p, listing);
    ItemsAreQueued(p, listing);
    ghost var c := ConsideredItems(p, listing);
    total, sent, files := SendSorted(p, Names(listing), Sort(items), c, total, outcome);
    SendsRight(p, listing, sent, outcome);
  }

  /** The loop over the directory. */
  method Collect(p: Pass, listing: seq<Bytes>) returns (total: nat, items: seq<Item>)
    requires NoRepeats(listing)
    ensures items == EligibleItems(p, listing) && total == |ConsideredItems(p, listing)| && |items| <= total
  {
    hide *;
    total, items := 0, [];
    var i := 0;
    NothingCollected(p, listing);
    while i < |listing|
      invariant i <= |listing|
      invariant items == EligibleItems(p, listing[..i]) && |items| <= total
      invariant total == |ConsideredItems(p, listing[..i])|
    {
      ConsideredGrows(p, listing, i);
      if Considered(p, listing[i]) {
        total := total + 1;
        if Eligible(p, listing[i]) { items := items + [ItemOf(listing[i])]; }
      }
      i := i + 1;
    }
    assert listing[..|listing|] == listing;
  }

  /** The loop over the sorted items. */
  method SendSorted(p: Pass, before: set<Bytes>, items: seq<Item>, ghost c: set<Item>, considered: nat,
                    outcome: Item -> Outcome)
    returns (total: nat, sent: seq<Item>, files: set<Bytes>)
    requires p.stamp < Decimal.U64 && NoRepeats(items)
    requires Elements(items) <= c <= Queue(before) && |items| <= considered == |c|
    ensures EndsAtFailure(sent, items, outcome)
    ensures Queue(files) == QueueAfter(p, Queue(before), sent, outcome)
    ensures Cached(files) == CachedAfter(p, Cached(before), sent, outcome)
    ensures total == Remaining(considered, sent, outcome)
    ensures Distinct(Queue(before)) ==> total == |Still(c, Queue(files))|
  {
    hide *;
    var i, failed := 0, false;
    files, total := before, considered;
    ghost var q := Queue(before);
    NothingSent(p, q, c, items, outcome);
    NothingCached(p, Cached(before), items, outcome);
    RemainingStarts(considered, items, outcome);
    while i < |items| && !failed
      invariant i <= |items| && (failed ==> i > 0 && NetworkFailure(outcome(items[i - 1])))
      invariant forall k :: 0 <= k < (if failed then i - 1 else i) ==> !NetworkFailure(outcome(items[k]))
      invariant Queue(files) == QueueAfter(p, q, items[..i], outcome)
      invariant Cached(files) == CachedAfter(p, Cached(before), items[..i], outcome)
      invariant total == Remaining(considered, items[..i], outcome)
      invariant Distinct(q) ==> total == |Still(c, QueueAfter(p, q, items[..i], outcome))|
    {
      var it, o := items[i], outcome(items[i]);
      SentOneMore(p, q, items, i, outcome);
      if Distinct(q) { StillOneMore(p, q, c, items, i, outcome); }
      RemainingSteps(considered, items, i, outcome);
      SettleIsQueued(p, files, it, o);
      SettleIsCached(p, files, it, o);
      CachedOneMore(p, Cached(before), items, i, outcome);
      files := Settle(p, files, it, o);
      if !StaysQueued(it, o) { total := total - 1; }
      failed := NetworkFailure(o);
      i := i + 1;
    }
    sent := items[..i];
    EndsHere(items, i, failed, outcome);
  }

  lemma RemainingStarts(considered: nat, items: seq<Item>, outcome: Item -> Outcome)
    ensures Remaining(considered, items[..0], outcome) == considered
  {
  }

  lemma RemainingSteps(considered: nat, items: seq<Item>, i: nat, outcome: Item -> Outcome)
    requires i < |items| <= considered
    requires forall k :: 0 <= k < i ==> !NetworkFailure(outcome(items[k]))
    ensures Remaining(considered, items[..i + 1], outcome)
         == Remaining(considered, items[..i], outcome) - (if StaysQueued(items[i], outcome(items[i])) then 0 else 1)
    ensures Remaining(considered, items[..i], outcome) >= 1
  {
    hide NetworkFailure;
    if i > 0 { assert Last(items[..i]) == items[i - 1]; }
    assert Last(items[..i + 1]) == items[i];
  }

  lemma NothingCached(p: Pass, cached: set<Bytes>, items: seq<Item>, outcome: Item -> Outcome)
    ensures CachedAfter(p, cached, items[..0], outcome) == cached
  {
    hide IsKept, Bare;
  }

  lemma EndsHere(items: seq<Item>, i: nat, failed: bool, outcome: Item -> Outcome)
    requires i <= |items| && (failed || i == |items|)
    requires failed ==> i > 0 && NetworkFailure(outcome(items[i - 1]))
    requires forall k :: 0 <= k < (if failed then i - 1 else i) ==> !NetworkFailure(outcome(items[k]))
    ensures EndsAtFailure(items[..i], items, outcome)
  {
    hide NetworkFailure;
  }

  lemma ItemsAreQueued(p: Pass, listing: seq<Bytes>)
    requires NoRepeats(listing)
    ensures var items := Sort(EligibleItems(p, listing));
      NoRepeats(items) && Elements(items) <= ConsideredItems(p, listing) <= Queue(Names(listing))
  {
    hide CacheName.Parse, Backoff, NoRepeats, Sorted;
    var found := EligibleItems(p, listing);
    var items := Sort(found);
    Permuted(found, items);
    forall it | it in items ensures it in ConsideredItems(p, listing) {
      assert it in multiset(items) && it in found && Considered(p, it.path);
    }
  }

  lemma Permuted(s: seq<Item>, r: seq<Item>)
    requires NoRepeats(s) && multiset(s) == multiset(r)
    ensures NoRepeats(r)
  {
    Multiplicity(s);
    forall i, j | 0 <= i < j < |r| ensures r[i] != r[j] {
      assert r == r[..i] + [r[i]] + r[i + 1..];
      assert r[j] == r[i + 1..][j - i - 1];
      assert multiset(r)[r[i]] <= 1;
    }
  }

  lemma {:induction false} Multiplicity(s: seq<Item>)
    requires NoRepeats(s)
    ensures forall x :: multiset(s)[x] <= 1
  {
    if s != [] {
      var init, last := s[..|s| - 1], s[|s| - 1];
      assert s == init + [last];
      Multiplicity(init);
      assert last !in multiset(init);
    }
  }

  lemma NothingSent(p: Pass, q: set<Item>, c: set<Item>, items: seq<Item>, outcome: Item -> Outcome)
    requires c <= q
    ensures q == QueueAfter(p, q, items[..0], outcome) && c == Still(c, q)
  {
  }

  /** Sending the next item, no earlier one having failed. */
  lemma SentOneMore(p: Pass, q: set<Item>, items: seq<Item>, i: nat, outcome: Item -> Outcome)
    requires NoRepeats(items) && Elements(items) <= q && i < |items|
    requires forall k :: 0 <= k < i ==> !NetworkFailure(outcome(items[k]))
    ensures
      var q0, q1 := QueueAfter(p, q, items[..i], outcome), QueueAfter(p, q, items[..i + 1], outcome);
      items[i] in q0 && q0 <= q && q1 == SettleQueue(p, q0, items[i], outcome(items[i]))
  {
    var it, o := items[i], outcome(items[i]);
    var q0, q1 := QueueAfter(p, q, items[..i], outcome), QueueAfter(p, q, items[..i + 1], outcome);
    assert it in items;
    assert items[..i + 1] == items[..i] + [it];
    assert Elements(items[..i + 1]) == Elements(items[..i]) + {it};
    assert q0 == q - Elements(items[..i]);
    assert it in q0;
    assert q1 == SettleQueue(p, q0, it, o);
    hide QueueAfter, NetworkFailure;
  }

  lemma StillOneMore(p: Pass, q: set<Item>, c: set<Item>, items: seq<Item>, i: nat, outcome: Item -> Outcome)
    requires Distinct(q) && NoRepeats(items) && Elements(items) <= c <= q && i < |items|
    requires forall k :: 0 <= k < i ==> !NetworkFailure(outcome(items[k]))
    ensures
      var q0, q1 := QueueAfter(p, q, items[..i], outcome), QueueAfter(p, q, items[..i + 1], outcome);
      |Still(c, q1)| == |Still(c, q0)| - (if StaysQueued(items[i], outcome(items[i])) then 0 else 1)
  {
    SentOneMore(p, q, items, i, outcome);
    assert items[i] in Elements(items);
    var q0 := QueueAfter(p, q, items[..i], outcome);
    assert Distinct(c) && Distinct(q0);
    hide *;
    SettleStill(p, c, q0, items[i], outcome(items[i]));
  }

  /** A result takes its envelope, and no other, out of what is still queued. */
  lemma SettleStill(p: Pass, c: set<Item>, q: set<Item>, it: Item, o: Outcome)
    requires Distinct(c) && Distinct(q) && it in c && it in q
    ensures var q' := SettleQueue(p, q, it, o);
      && |Still(c, q')| == |Still(c, q)| - (if StaysQueued(it, o) then 0 else 1)
      && |Still(c, q)| >= 1
  {
    var q' := SettleQueue(p, q, it, o);
    if StaysQueued(it, o) { assert Bumped(p, it) in q' && InQueue(q', it.uuid); }
    StillAfter(c, q, q', it);
    assert InQueue(q', it.uuid) <==> StaysQueued(it, o);
    hide SettleQueue, StaysQueued, Bumped, InQueue, Distinct;
    StillCount(c, q, q', it);
  }

  lemma StillCount(c: set<Item>, q: set<Item>, q': set<Item>, it: Item)
    requires it in c && it in Still(c, q)
    requires forall a :: a in c && a != it ==> (a in Still(c, q') <==> a in Still(c, q))
    ensures |Still(c, q')| == |Still(c, q)| - if InQueue(q', it.uuid) then 0 else 1
  {
    hide InQueue;
    if InQueue(q', it.uuid) {
      assert Still(c, q') == Still(c, q);
    } else {
      assert Still(c, q') == Still(c, q) - {it};
    }
  }

  lemma StillAfter(c: set<Item>, q0: set<Item>, q1: set<Item>, it: Item)
    requires Distinct(c) && Distinct(q0) && it in c && it in q0
    requires forall b :: b in q1 && b.uuid != it.uuid <==> b in q0 && b.uuid != it.uuid
    ensures it in Still(c, q0)
    ensures forall a :: a in c && a != it ==> (a in Still(c, q1) <==> a in Still(c, q0))
  {
    forall a | a in c && a != it ensures InQueue(q1, a.uuid) <==> InQueue(q0, a.uuid) {
      assert a.uuid != it.uuid;
    }
  }

  lemma NothingCollected(p: Pass, listing: seq<Bytes>)
    ensures EligibleItems(p, listing[..0]) == [] && ConsideredItems(p, listing[..0]) == {}
  {
    hide Considered, Eligible;
  }

  lemma ConsideredGrows(p: Pass, listing: seq<Bytes>, i: nat)
    requires NoRepeats(listing) && i < |listing|
    ensures Eligible(p, listing[i]) ==> Considered(p, listing[i])
    ensures Considered(p, listing[i]) ==> IsRetry(listing[i])
    ensures |ConsideredItems(p, listing[..i + 1])|
         == |ConsideredItems(p, listing[..i])| + if Considered(p, listing[i]) then 1 else 0
    ensures EligibleItems(p, listing[..i + 1])
         == EligibleItems(p, listing[..i]) + if Eligible(p, listing[i]) then [ItemOf(listing[i])] else []
  {
    assert listing[..i + 1][..i] == listing[..i];
    hide CacheName.Parse, Backoff;
    var c, c' := ConsideredItems(p, listing[..i]), ConsideredItems(p, listing[..i + 1]);
    assert listing[..i + 1] == listing[..i] + [listing[i]];
    if Considered(p, listing[i]) {
      assert c' == c + {ItemOf(listing[i])};
      assert ItemOf(listing[i]) !in c;
    } else {
      assert c' == c;
    }
  }
}
