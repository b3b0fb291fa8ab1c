/** Sorting by a comparison, as the C library's `qsort` does it. */
module Sorting {
  ghost predicate IsOrder<T(!new)>(le: (T, T) -> bool) {
    && (forall a, b :: le(a, b) || le(b, a))
    && (forall a, b, c :: le(a, b) && le(b, c) ==> le(a, c))
  }

  ghost predicate Sorted<T>(le: (T, T) -> bool, s: seq<T>) { forall i, j :: 0 <= i < j < |s| ==> le(s[i], s[j]) }

  function Insert<T>(le: (T, T) -> bool, x: T, s: seq<T>): (r: seq<T>)
    ensures multiset(r) == multiset(s) + multiset{x}
  {
    if s == [] || le(x, s[0]) then [x] + s
    else
      assert s == [s[0]] + s[1..];
      [s[0]] + Insert(le, x, s[1..])
  }

  lemma {:induction false} InsertSorts<T(!new)>(le: (T, T) -> bool, x: T, s: seq<T>)
    requires IsOrder(le) && Sorted(le, s)
    ensures Sorted(le, Insert(le, x, s))
  {
    hide *;
    if s == [] {
      InsertFirst(le, x, s);
      SortedCons(le, x, s);
    } else if le(x, s[0]) {
      InsertFirst(le, x, s);
      FirstIsLeast(le, x, s);
      SortedCons(le, x, s);
    } else {
      InsertLater(le, x, s);
      SortedTail(le, s);
      InsertSorts(le, x, s[1..]);
      LeastOfInsert(le, x, s);
      SortedCons(le, s[0], Insert(le, x, s[1..]));
    }
  }

  lemma InsertFirst<T>(le: (T, T) -> bool, x: T, s: seq<T>)
    requires s == [] || le(x, s[0])
    ensures Insert(le, x, s) == [x] + s
  {
  }

  lemma InsertLater<T>(le: (T, T) -> bool, x: T, s: seq<T>)
    requires s != [] && !le(x, s[0])
    ensures Insert(le, x, s) == [s[0]] + Insert(le, x, s[1..])
  {
  }

  lemma SortedTail<T>(le: (T, T) -> bool, s: seq<T>)
    requires s != [] && Sorted(le, s)
    ensures Sorted(le, s[1..])
  {
  }

  lemma SortedCons<T>(le: (T, T) -> bool, x: T, s: seq<T>)
    requires Sorted(le, s) && forall k :: 0 <= k < |s| ==> le(x, s[k])
    ensures Sorted(le, [x] + s)
  {
  }

  lemma FirstIsLeast<T(!new)>(le: (T, T) -> bool, x: T, s: seq<T>)
    requires IsOrder(le) && Sorted(le, s) && s != [] && le(x, s[0])
    ensures forall k :: 0 <= k < |s| ==> le(x, s[k])
  {
  }

  lemma LeastOfInsert<T(!new)>(le: (T, T) -> bool, x: T, s: seq<T>)
    requires IsOrder(le) && Sorted(le, s) && s != [] && !le(x, s[0])
    ensures var r := Insert(le, x, s[1..]); forall k :: 0 <= k < |r| ==> le(s[0], r[k])
  {
    var r := Insert(le, x, s[1..]);
    hide Insert;
    forall k | 0 <= k < |r| ensures le(s[0], r[k]) {
      assert r[k] in multiset(r);
      assert r[k] == x || r[k] in s[1..];
    }
  }

  function Sort<T(!new)>(le: (T, T) -> bool, s: seq<T>): (r: seq<T>)
    ensures multiset(r) == multiset(s)
  {
    if s == [] then []
    else
      assert s == s[..|s| - 1] + [s[|s| - 1]];
      Insert(le, s[|s| - 1], Sort(le, s[..|s| - 1]))
  }

  lemma {:induction false} SortSorts<T(!new)>(le: (T, T) -> bool, s: seq<T>)
    requires IsOrder(le)
    ensures Sorted(le, Sort(le, s))
  {
    if s != [] {
      SortSorts(le, s[..|s| - 1]);
      InsertSorts(le, s[|s| - 1], Sort(le, s[..|s| - 1]));
    }
  }
}
