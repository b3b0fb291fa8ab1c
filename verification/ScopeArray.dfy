/** The observer array of a scope, updated in place. */
module ScopeArray {
  import opened Bytes
  import opened Wrappers
  import opened ScopeObservers

  class Scope {
    var observers: array?<Option<Id>>
    var count: nat
    var notifying: nat
    var pendingFlush: bool

    ghost predicate Valid()
      reads this, observers
    {
      if observers == null then count == 0 else count <= observers.Length
    }

    ghost function Contents(): Slots
      requires Valid()
      reads this, observers
    {
      if observers == null then [] else observers[..count]
    }

    /** The scope is in the state that the interleavings call `s`. */
    ghost predicate Mirrors(s: State)
      reads this, observers
    {
      Valid() && Contents() == s.slots && notifying == |s.stack| && pendingFlush == s.pending
    }

    constructor ()
      ensures Mirrors(Init())
    {
      observers, count, notifying, pendingFlush := null, 0, 0, false;
    }

    /** Append to a fresh copy of the array. */
    method AddObserver(observer: Option<Id>, ghost s: State) returns (ok: bool)
      requires Valid()
      modifies this
      ensures Valid() && ok == observer.Some?
      ensures Contents() == if ok then old(Contents()) + [observer] else old(Contents())
      ensures notifying == old(notifying) && pendingFlush == old(pendingFlush)
      ensures ok && old(Mirrors(s)) && observer.value !in s.registered ==> Mirrors(Do(s, Add(observer.value)))
    {
      if observer.None? { return false; }
      var bigger := new Option<Id>[count + 1](_ => None);
      if observers != null {
        forall k | 0 <= k < count { bigger[k] := observers[k]; }
      }
      bigger[count] := observer;
      assert bigger[..count] == Contents();
      observers, count := bigger, count + 1;
      return true;
    }

    /** Find the observer; leave a tombstone while notifying, close the gap otherwise. */
    method RemoveObserver(x: Id, ghost s: State)
      requires Valid()
      modifies this, observers
      ensures Valid()
      ensures Contents() == Remove(old(Contents()), x, old(notifying) > 0)
      ensures notifying == old(notifying) && pendingFlush == old(pendingFlush)
      ensures old(Mirrors(s)) && Inv(s) ==> Mirrors(Do(s, Drop(x)))
    {
      if Inv(s) { DropsAsRemove(s, x); }
      hide Inv, Do;
      if observers == null { return; }
      var i := Find(observers, count, x);
      if i == count { return; }
      if notifying > 0 {
        observers[i] := None;
        assert Contents() == old(Contents())[i := None];
        return;
      }
      ghost var was := Contents();
      assert observers[..i] == was[..i] && observers[i + 1..count] == was[i + 1..];
      CloseGap(observers, i, count);
      count := count - 1;
      if count == 0 { observers := null; }
    }

    method BeginNotify(ghost s: State) returns (end: nat)
      requires Valid()
      modifies this
      ensures Valid() && Contents() == old(Contents()) && end == |Contents()|
      ensures notifying == old(notifying) + 1 && pendingFlush == old(pendingFlush)
      ensures old(Mirrors(s)) ==> Mirrors(Do(s, Begin)) && Top(Do(s, Begin)).end == end && Top(Do(s, Begin)).i == 0
    {
      notifying := notifying + 1;
      return count;
    }

    /** One turn of the loop that notifies: whether it goes on, and whom it calls. */
    method Visit(end: nat, i: nat, ghost s: State) returns (more: bool, observer: Option<Id>)
      requires Valid()
      ensures more == (i < end && i < |Contents()|)
      ensures more ==> observer == Contents()[i]
      ensures Mirrors(s) && s.stack != [] && Top(s).end == end && Top(s).i == i ==>
        && more == Loops(s)
        && Mirrors(Do(s, Next))
        && (more ==> var f := Top(Do(s, Next));
            f.end == end && f.i == i + 1
            && f.called == Top(s).called + if observer.Some? then [observer.value] else [])
    {
      if i < end && i < count {
        return true, observers[i];
      }
      return false, None;
    }

    /** The outermost notification clears the tombstones away. */
    method EndNotify(ghost s: State)
      requires Valid() && notifying > 0
      modifies this, observers
      ensures Valid() && notifying == old(notifying) - 1 && pendingFlush == old(pendingFlush)
      ensures Contents() == if notifying > 0 then old(Contents()) else Compact(old(Contents()))
      ensures old(Mirrors(s)) && !Loops(s) ==> Mirrors(Do(s, End))
    {
      notifying := notifying - 1;
      if notifying > 0 || observers == null { return; }
      count := Squeeze(observers, count);
      if count == 0 { observers := null; }
    }

    /** Whether the caller is to flush, now that the scope is unlocked. */
    method Unlock(flush: bool, ghost s: State) returns (flushNow: bool)
      modifies this
      ensures observers == old(observers) && count == old(count) && notifying == old(notifying)
      ensures if notifying > 0 then !flushNow && pendingFlush == (flush || old(pendingFlush))
        else flushNow == (flush || old(pendingFlush)) && !pendingFlush
      ensures old(Mirrors(s)) ==> Mirrors(Do(s, Event.Unlock(flush)))
      ensures old(Mirrors(s)) ==> Do(s, Event.Unlock(flush)).flushes == s.flushes + if flushNow then 1 else 0
    {
      if notifying > 0 {
        pendingFlush := flush || pendingFlush;
        return false;
      }
      flushNow := flush || pendingFlush;
      pendingFlush := false;
    }
  }

  /** Move everything after position `i` one down. */
  method CloseGap(a: array<Option<Id>>, i: nat, count: nat)
    requires i < count <= a.Length
    modifies a
    ensures a[..count - 1] == old(a[..i]) + old(a[i + 1..count])
  {
    var j := i + 1;
    while j < count
      invariant i < j <= count
      invariant forall k :: 0 <= k < i ==> a[k] == old(a[k])
      invariant forall k :: i < k < j ==> a[k - 1] == old(a[k])
      invariant forall k :: j <= k < count ==> a[k] == old(a[k])
    {
      a[j - 1] := a[j];
      j := j + 1;
    }
    forall k | i <= k < count - 1 ensures a[k] == old(a[k + 1]) { assert a[(k + 1) - 1] == old(a[k + 1]); }
  }

  method Find(a: array<Option<Id>>, count: nat, x: Id) returns (i: nat)
    requires count <= a.Length
    ensures i == IndexOf(a[..count], x)
  {
    i := 0;
    while i < count && a[i] != Some(x)
      invariant i <= count && forall k :: 0 <= k < i ==> a[k] != Some(x)
    {
      i := i + 1;
    }
  }

  /** Move everything that is not a tombstone down. */
  method Squeeze(a: array<Option<Id>>, count: nat) returns (j: nat)
    requires count <= a.Length
    modifies a
    ensures j <= count && a[..j] == Compact(old(a[..count]))
  {
    ghost var s := a[..count];
    var i := 0;
    j := 0;
    while i < count
      invariant j <= i <= count
      invariant a[..j] == Compact(s[..i])
      invariant forall k :: i <= k < count ==> a[k] == s[k]
    {
      CompactNext(s, i);
      hide Compact;
      if a[i].Some? {
        a[j] := a[i];
        j := j + 1;
      }
      i := i + 1;
    }
    assert s[..count] == s;
  }

  lemma CompactNext(s: Slots, i: nat)
    requires i < |s|
    ensures Compact(s[..i + 1]) == Compact(s[..i]) + if s[i].Some? then [s[i]] else []
  {
    assert s[..i + 1] == s[..i] + [s[i]];
    CompactConcat(s[..i], [s[i]]);
  }

  /** Removing is a step of the interleavings, also for an observer that is not there. */
  lemma DropsAsRemove(s: State, x: Id)
    requires Inv(s)
    ensures var s' := Do(s, Drop(x));
      s'.slots == Remove(s.slots, x, |s.stack| > 0) && |s'.stack| == |s.stack| && s'.pending == s.pending
  {
    LiveIsSomewhere(s.slots, x);
    hide Live, Compact;
  }
}
