/** Counting the items of an envelope that are not sent, each exactly once. */
module EnvelopeDiscard {
  import opened Bytes
  import opened Wrappers
  import opened JsonValue
  import opened EnvelopeCodec
  import JsonTokens
  import opened Envelope
  import opened ClientReport

  const RATELIMIT_BACKOFF: nat := 2

  /** Rate limit categories; internal items bypass rate limits. */
  datatype Limit = OnError | OnSession | OnTransaction | OnReplay | Internal

  /** The rate limiter's verdict by category; there may be no rate limiter. */
  type Limiter = Option<Limit -> bool>

  /** "type" */
  function TypeKey(): Bytes { [116, 121, 112, 101] }

  /** The `type` header, as a string. */
  function TypeOf(it: Item): Bytes {
    if !it.headers.Object? then []
    else
      match JsonTokens.Lookup(it.headers.fields, TypeKey())
      case Some(Str(s)) => s
      case _ => []
  }

  datatype Kind =
    | OfSession | OfTransaction | OfAttachment | OfLog | OfFeedback | OfMetric | OfReplay | OfReport | OfOther

  function KindOf(it: Item): Kind {
    var ty := TypeOf(it);
    if Spells(ty, "session") then OfSession
    else if Spells(ty, "transaction") then OfTransaction
    else if Spells(ty, "attachment") then OfAttachment
    else if Spells(ty, "log") then OfLog
    else if Spells(ty, "feedback") then OfFeedback
    else if Spells(ty, "trace_metric") then OfMetric
    else if Spells(ty, "replay_video") then OfReplay
    else if Spells(ty, "client_report") then OfReport
    else OfOther
  }

  function LimitOf(it: Item): Limit {
    match KindOf(it)
    case OfSession => OnSession
    case OfTransaction => OnTransaction
    case OfReplay => OnReplay
    case OfReport => Internal
    case _ => OnError
  }

  /** The data category: errors, sessions, transactions, attachments, logs, feedback,
      trace metrics and replays, in this order. */
  function CategoryOf(it: Item): nat {
    match KindOf(it)
    case OfSession => 1
    case OfTransaction => 2
    case OfAttachment => 3
    case OfLog => 4
    case OfFeedback => 5
    case OfMetric => 6
    case OfReplay => 7
    case _ => 0
  }

  predicate IsLimited(rl: Limiter, it: Item) { rl.Some? && LimitOf(it) != Internal && rl.value(LimitOf(it)) }

  // ------------------------------------------------------- what the types mean

  /** The category and the limit of each type of item; any other type, or none, is an error. */
  lemma TypeDecides(it: Item, ty: Bytes)
    requires it.headers.Object?
    requires ty == match FirstNamed(it.headers.fields, "type") case Some(Str(s)) => s case _ => []
    ensures Spells(ty, "session") ==> CategoryOf(it) == 1 && LimitOf(it) == OnSession
    ensures Spells(ty, "transaction") ==> CategoryOf(it) == 2 && LimitOf(it) == OnTransaction
    ensures Spells(ty, "attachment") ==> CategoryOf(it) == 3 && LimitOf(it) == OnError
    ensures Spells(ty, "log") ==> CategoryOf(it) == 4 && LimitOf(it) == OnError
    ensures Spells(ty, "feedback") ==> CategoryOf(it) == 5 && LimitOf(it) == OnError
    ensures Spells(ty, "trace_metric") ==> CategoryOf(it) == 6 && LimitOf(it) == OnError
    ensures Spells(ty, "replay_video") ==> CategoryOf(it) == 7 && LimitOf(it) == OnReplay
    ensures Spells(ty, "client_report") ==> LimitOf(it) == Internal
    ensures CategoryOf(it) != 0 || LimitOf(it) != OnError ==>
      || Spells(ty, "session") || Spells(ty, "transaction") || Spells(ty, "attachment") || Spells(ty, "log")
      || Spells(ty, "feedback") || Spells(ty, "trace_metric") || Spells(ty, "replay_video")
      || Spells(ty, "client_report")
  {
    TypeMeans(it.headers.fields);
    assert TypeOf(it) == ty;
    KindMeans(it, ty);
    hide TypeOf, KindOf, Spells, FirstNamed;
  }

  lemma KindMeans(it: Item, ty: Bytes)
    requires TypeOf(it) == ty
    ensures Spells(ty, "session") <==> KindOf(it) == OfSession
    ensures Spells(ty, "transaction") <==> KindOf(it) == OfTransaction
    ensures Spells(ty, "attachment") <==> KindOf(it) == OfAttachment
    ensures Spells(ty, "log") <==> KindOf(it) == OfLog
    ensures Spells(ty, "feedback") <==> KindOf(it) == OfFeedback
    ensures Spells(ty, "trace_metric") <==> KindOf(it) == OfMetric
    ensures Spells(ty, "replay_video") <==> KindOf(it) == OfReplay
    ensures Spells(ty, "client_report") <==> KindOf(it) == OfReport
  {
    hide TypeOf;
    SameLength(ty);
  }

  /** The two names of one length. */
  lemma SameLength(ty: Bytes)
    ensures !(Spells(ty, "trace_metric") && Spells(ty, "replay_video"))
  {
    if Spells(ty, "trace_metric") { assert ty[0] == 't' as int; }
  }

  lemma {:induction false} TypeMeans(fs: Fields)
    ensures JsonTokens.Lookup(fs, TypeKey()) == FirstNamed(fs, "type")
  {
    if fs.Field? {
      TypeMeans(fs.rest);
      SpellsType(fs.key);
      hide Spells, TypeKey;
    }
  }

  lemma SpellsType(k: Bytes)
    ensures Spells(k, "type") <==> k == TypeKey()
  {
    if Spells(k, "type") { assert forall i :: 0 <= i < 4 ==> k[i] == TypeKey()[i]; }
  }

  /** An internal item is sent whatever the limiter says. */
  lemma InternalPasses(rl: Limiter, items: seq<Item>, it: Item)
    requires it in items && LimitOf(it) == Internal
    ensures it in Unlimited(rl, items)
  {
    PassedAreSerialized(rl, items, it);
    hide LimitOf, Unlimited;
  }

  // ------------------------------------------------------- shares of an envelope

  /** The items that count, and the two shares they fall into. */
  datatype Share = External | Held | Passed

  predicate In(share: Share, rl: Limiter, it: Item) {
    && LimitOf(it) != Internal
    && match share case External => true case Held => IsLimited(rl, it) case Passed => !IsLimited(rl, it)
  }

  /** How many items of category `c` are in a share. */
  function Tally(share: Share, rl: Limiter, items: seq<Item>, c: nat): nat {
    if items == [] then 0
    else
      var it := items[|items| - 1];
      Tally(share, rl, items[..|items| - 1], c) + if In(share, rl, it) && CategoryOf(it) == c then 1 else 0
  }

  lemma TallyNext(share: Share, rl: Limiter, items: seq<Item>, i: nat, c: nat)
    requires i < |items|
    ensures Tally(share, rl, items[..i + 1], c)
         == Tally(share, rl, items[..i], c) + if In(share, rl, items[i]) && CategoryOf(items[i]) == c then 1 else 0
  {
    assert items[..i + 1][..i] == items[..i];
    hide In, CategoryOf;
  }

  /** The items that pass the limiter, internal ones included. */
  function Unlimited(rl: Limiter, items: seq<Item>): seq<Item> {
    if items == [] then []
    else
      var it := items[|items| - 1];
      Unlimited(rl, items[..|items| - 1]) + if IsLimited(rl, it) then [] else [it]
  }

  lemma {:induction false} SharesAddUp(rl: Limiter, items: seq<Item>, c: nat)
    ensures Tally(External, rl, items, c) == Tally(Held, rl, items, c) + Tally(Passed, rl, items, c)
  {
    hide LimitOf, CategoryOf, IsLimited;
    if items != [] { SharesAddUp(rl, items[..|items| - 1], c); }
  }

  // ------------------------------------------------------- the operations

  /** Serialize what passes the limiter, and count the rest as rate limited; an envelope
      of which nothing passes is not sent at all. */
  method SerializeRatelimited(contents: Contents, rl: Limiter, counters: Counters) returns (text: Option<Bytes>)
    requires counters.Valid()
    modifies counters.counts
    ensures forall r, c :: 0 <= r < REASONS && 0 <= c < CATEGORIES ==>
      counters.counts[r, c] == old(counters.counts[r, c])
        + if r == RATELIMIT_BACKOFF && contents.Structured? then Tally(Held, rl, contents.items, c) else 0
    ensures text == match contents
      case Raw(payload) => Some(payload)
      case Structured(h, items) =>
        if Unlimited(rl, items) == [] then None else Some(Serialize(Parts(h, Unlimited(rl, items))))
  {
    assert counters.counts.Length0 == REASONS && counters.counts.Length1 == CATEGORIES;
    if contents.Raw? { return Some(contents.payload); }
    assert Unlimited(rl, contents.items[..0]) == [];
    assert forall c: nat :: Tally(Held, rl, contents.items[..0], c) == 0;
    hide *;
    var items := contents.items;
    var sb := HeaderText(contents.headers);
    var serialized, i := 0, 0;
    NoItems(contents.headers);
    while i < |items|
      invariant i <= |items|
      invariant sb == Serialize(Parts(contents.headers, Unlimited(rl, items[..i])))
      invariant serialized == |Unlimited(rl, items[..i])|
      invariant forall r, c :: 0 <= r < REASONS && 0 <= c < CATEGORIES ==>
        counters.counts[r, c] == old(counters.counts[r, c])
          + if r == RATELIMIT_BACKOFF then Tally(Held, rl, items[..i], c) else 0
    {
      UnlimitedNext(rl, contents.headers, items, i);
      forall c: nat { HeldNext(rl, items, i, c); }
      if IsLimited(rl, items[i]) {
        counters.Discard(RATELIMIT_BACKOFF, CategoryOf(items[i]), 1);
      } else {
        sb := sb + ([NEWLINE] + ItemText(items[i]));
        serialized := serialized + 1;
      }
      i := i + 1;
    }
    assert items[..|items|] == items;
    return if serialized == 0 then None else Some(sb);
  }

  lemma NoItems(h: Value)
    ensures Serialize(Parts(h, [])) == HeaderText(h)
  {
    assert HeaderText(h) + [] == HeaderText(h);
  }

  lemma HeldNext(rl: Limiter, items: seq<Item>, i: nat, c: nat)
    requires i < |items|
    ensures Tally(Held, rl, items[..i + 1], c)
         == Tally(Held, rl, items[..i], c) + if IsLimited(rl, items[i]) && CategoryOf(items[i]) == c then 1 else 0
  {
    TallyNext(Held, rl, items, i, c);
    hide Tally, CategoryOf, LimitOf;
  }

  lemma UnlimitedNext(rl: Limiter, h: Value, items: seq<Item>, i: nat)
    requires i < |items|
    ensures
      var u, u' := Unlimited(rl, items[..i]), Unlimited(rl, items[..i + 1]);
      if IsLimited(rl, items[i]) then u' == u
      else |u'| == |u| + 1 && Serialize(Parts(h, u')) == Serialize(Parts(h, u)) + ([NEWLINE] + ItemText(items[i]))
  {
    assert items[..i + 1][..i] == items[..i];
    hide IsLimited;
    if !IsLimited(rl, items[i]) { SerializeOneMore(h, Unlimited(rl, items[..i]), items[i]); }
  }

  lemma {:induction false} ItemsTextAppend(items: seq<Item>, it: Item)
    ensures ItemsText(items + [it]) == ItemsText(items) + ([NEWLINE] + ItemText(it))
  {
    hide ItemText;
    if items == [] {
      assert items + [it] == [it] && [it][1..] == [];
    } else {
      assert (items + [it])[1..] == items[1..] + [it];
      ItemsTextAppend(items[1..], it);
    }
  }

  lemma SerializeOneMore(h: Value, items: seq<Item>, it: Item)
    ensures Serialize(Parts(h, items + [it])) == Serialize(Parts(h, items)) + ([NEWLINE] + ItemText(it))
  {
    ItemsTextAppend(items, it);
    hide ItemsText, HeaderText, ItemText;
  }

  lemma PassedWhen(rl: Limiter, it: Item)
    ensures In(Passed, rl, it) <==> LimitOf(it) != Internal && !(rl.Some? && rl.value(LimitOf(it)))
  {
    hide LimitOf;
  }

  lemma PassedNext(rl: Limiter, items: seq<Item>, i: nat, c: nat)
    requires i < |items|
    ensures
      var l := LimitOf(items[i]);
      Tally(Passed, rl, items[..i + 1], c) == Tally(Passed, rl, items[..i], c)
        + if l != Internal && !(rl.Some? && rl.value(l)) && CategoryOf(items[i]) == c then 1 else 0
  {
    TallyNext(Passed, rl, items, i, c);
    PassedWhen(rl, items[i]);
    hide *;
  }

  /** Count what passed the limiter but could not be sent, for the given reason. */
  method Discard(contents: Contents, reason: nat, rl: Limiter, counters: Counters)
    requires counters.Valid()
    modifies counters.counts
    ensures forall r, c :: 0 <= r < REASONS && 0 <= c < CATEGORIES ==>
      counters.counts[r, c] == old(counters.counts[r, c])
        + if r == reason && contents.Structured? then Tally(Passed, rl, contents.items, c) else 0
  {
    if contents.Raw? { return; }
    assert counters.counts.Length0 == REASONS && counters.counts.Length1 == CATEGORIES;
    assert forall c: nat :: Tally(Passed, rl, contents.items[..0], c) == 0;
    hide *;
    var items, i := contents.items, 0;
    while i < |items|
      invariant i <= |items|
      invariant forall r, c :: 0 <= r < REASONS && 0 <= c < CATEGORIES ==>
        counters.counts[r, c] == old(counters.counts[r, c])
          + if r == reason then Tally(Passed, rl, items[..i], c) else 0
    {
      forall c: nat { PassedNext(rl, items, i, c); }
      if LimitOf(items[i]) != Internal && !(rl.Some? && rl.value(LimitOf(items[i]))) {
        counters.Discard(reason, CategoryOf(items[i]), 1);
      }
      i := i + 1;
    }
    assert items[..|items|] == items;
  }

  /** A client report may be added exactly if some item that is not internal will be sent. */
  method CanAddClientReport(contents: Contents, rl: Limiter) returns (ok: bool)
    ensures ok == (contents.Structured? && exists i :: 0 <= i < |contents.items| && In(Passed, rl, contents.items[i]))
  {
    if contents.Raw? { return false; }
    hide *;
    var items, i := contents.items, 0;
    while i < |items|
      invariant i <= |items| && forall k :: 0 <= k < i ==> !In(Passed, rl, items[k])
    {
      if LimitOf(items[i]) != Internal && (rl.None? || !rl.value(LimitOf(items[i]))) {
        PassedWhen(rl, items[i]);
        return true;
      }
      PassedWhen(rl, items[i]);
      i := i + 1;
    }
    return false;
  }

  lemma {:induction false} PassedAreSerialized(rl: Limiter, items: seq<Item>, it: Item)
    ensures it in Unlimited(rl, items) <==> it in items && !IsLimited(rl, it)
  {
    hide IsLimited;
    if items != [] {
      var init := items[..|items| - 1];
      assert items == init + [items[|items| - 1]];
      PassedAreSerialized(rl, init, it);
    }
  }

  /** Sending with a fixed verdict of the limiter and then failing, for whatever reason:
      each item that is not internal is counted exactly once, an internal one never. */
  method SendAndFail(contents: Contents, reason: nat, rl: Limiter, counters: Counters) returns (text: Option<Bytes>)
    requires counters.Valid() && reason < REASONS
    modifies counters.counts
    ensures forall c :: 0 <= c < CATEGORIES ==>
      Total(Rows(counters.counts), c) == old(Total(Rows(counters.counts), c))
        + if contents.Structured? then Tally(External, rl, contents.items, c) else 0
  {
    assert counters.counts.Length0 == REASONS && counters.counts.Length1 == CATEGORIES;
    hide *;
    ghost var before := Rows(counters.counts);
    text := SerializeRatelimited(contents, rl, counters);
    ghost var between := Rows(counters.counts);
    Discard(contents, reason, rl, counters);
    ghost var after := Rows(counters.counts);
    forall c: nat | c < CATEGORIES
      ensures Total(after, c) == Total(before, c)
        + if contents.Structured? then Tally(External, rl, contents.items, c) else 0
    {
      var held := if contents.Structured? then Tally(Held, rl, contents.items, c) else 0;
      var passed := if contents.Structured? then Tally(Passed, rl, contents.items, c) else 0;
      OneReason(before, between, RATELIMIT_BACKOFF, c, held);
      OneReason(between, after, reason, c, passed);
      if contents.Structured? { SharesAddUp(rl, contents.items, c); }
    }
  }

  /** The counters as a value. */
  function Rows(counts: array2<int>): (m: seq<seq<int>>)
    requires counts.Length0 == REASONS && counts.Length1 == CATEGORIES
    reads counts
    ensures |m| == REASONS && forall r :: 0 <= r < REASONS ==> |m[r]| == CATEGORIES
    ensures forall r, c :: 0 <= r < REASONS && 0 <= c < CATEGORIES ==> m[r][c] == counts[r, c]
  {
    seq(REASONS, r requires 0 <= r < REASONS reads counts =>
      seq(CATEGORIES, c requires 0 <= c < CATEGORIES reads counts => counts[r, c]))
  }

  /** Category `c`, over all reasons. */
  function Total(m: seq<seq<int>>, c: nat): int
    requires forall r :: 0 <= r < |m| ==> c < |m[r]|
  {
    if m == [] then 0 else m[0][c] + Total(m[1..], c)
  }

  /** Adding to one reason adds to the total. */
  lemma {:induction false} OneReason(m: seq<seq<int>>, m': seq<seq<int>>, reason: nat, c: nat, n: int)
    requires |m| == |m'| && forall r :: 0 <= r < |m| ==> c < |m[r]| && c < |m'[r]|
    requires forall r :: 0 <= r < |m| ==> m'[r][c] == m[r][c] + if r == reason then n else 0
    ensures Total(m', c) == Total(m, c) + if reason < |m| then n else 0
  {
    if m != [] {
      if reason == 0 {
        Unchanged(m[1..], m'[1..], c);
      } else {
        OneReason(m[1..], m'[1..], reason - 1, c, n);
      }
    }
  }

  lemma {:induction false} Unchanged(m: seq<seq<int>>, m': seq<seq<int>>, c: nat)
    requires |m| == |m'| && forall r :: 0 <= r < |m| ==> c < |m[r]| && c < |m'[r]| && m'[r][c] == m[r][c]
    ensures Total(m', c) == Total(m, c)
  {
    if m != [] { Unchanged(m[1..], m'[1..], c); }
  }
}
