/**
  The telemetry batcher's ring of buffers: a lock-free, multi-producer,
  single-flusher queue. Every atomic operation of the program is one step, and
  any number of `enqueue` and `flush` calls are in flight at once.

  An item is identified with the `enqueue` call (the ticket) that brought it.
  The component `h` of a state holds history variables: no step reads them to
  decide what the program does. Generations count rotations: `gens[i]` is the
  generation that buffer `i` holds (or will hold next), and `log[g]` lists the
  calls that claimed a slot of generation `g`, in slot order, forever.
 */
module BatcherRing {
  import opened Wrappers

  type Ticket = nat

  datatype Config = Config(B: nat, Q: nat) {
    ghost predicate Valid() { B >= 2 && Q >= 1 }
  }

  datatype Buffer = Buffer(items: seq<Ticket>, index: nat, adding: int, sealed: bool)

  /** Program counter inside `rotate_buffer`. */
  datatype Rot = RSealed | RIndex | RAdding | RSeal | RSwap | RConfirm

  datatype RotResult = Goto(r: Rot) | Return(rotated: bool)

  /** Program counter inside `sentry__batcher_enqueue`. */
  datatype Pc =
    | LoadActive
    | LoadSealed(a: nat)
    | Enter(a: nat)
    | CheckActive(a: nat)
    | CheckSealed(a: nat, same: bool)
    | BackOut(a: nat)
    | Claim(a: nat)
    | Store(a: nat, slot: nat)
    | Rotate(a: nat, slot: nat, r: Rot)
    | Leave(a: nat, slot: nat, rotated: bool)
    | Recheck(a: nat)
    | Drop
    | Returned(ok: bool)

  datatype Pos = Pos(gen: nat, slot: nat) {
    predicate Before(p: Pos) { gen < p.gen || (gen == p.gen && slot < p.slot) }
    predicate AtMost(p: Pos) { gen < p.gen || (gen == p.gen && slot <= p.slot) }
  }

  /** `start`, `gen` and `place` are history: where the queue ended when the call
      began, the generation it is bound to, and the slot its item went to. */
  datatype Call = Call(pc: Pc, start: Pos, gen: nat, place: Option<Pos>)

  /** Program counter inside `sentry__batcher_flush`; `f` is its `flush_idx`. */
  datatype FPc =
    | Try(crashSafe: bool)
    | LoadFlush
    | LoadDrain(f: nat)
    | LoadOldSealed(f: nat, from: nat)
    | LoadActiveAgain(f: nat, from: nat)
    | LoadIndex(f: nat, from: nat, act: nat)
    | Rotating(f: nat, from: nat, r: Rot)
    | Wait(f: nat, from: nat)
    | Take(f: nat, from: nat)
    | Copy(f: nat, from: nat, n: nat, got: seq<Ticket>)
    | Hand(f: nat, from: nat, got: seq<Ticket>)
    | Unseal(f: nat, from: nat)
    | Advance(f: nat, from: nat)
    | Unlock
    | Finished(done: bool)

  datatype History = History(D: nat, gens: seq<nat>, log: seq<seq<Ticket>>, owner: nat)

  datatype State = State(
    bufs: seq<Buffer>, active: nat, drain: nat, flushing: bool, discards: nat,
    calls: map<Ticket, Call>, flushers: map<nat, FPc>,
    batches: seq<seq<Ticket>>, h: History)

  function Next(c: Config, i: nat): nat
    requires c.B > 0
  {
    (i + 1) % c.B
  }

  lemma NextIs(c: Config, i: nat)
    requires i < c.B
    ensures Next(c, i) == if i + 1 == c.B then 0 else i + 1
  {
    if i + 1 < c.B {
      assert (i + 1) % c.B == i + 1;
    } else {
      assert (i + 1) % c.B == 0;
    }
  }

  // ---------------------------------------------------------------- steps

  /** Indices held in local variables are buffer indices. */
  ghost predicate Shape(c: Config, s: State) {
    && c.Valid()
    && |s.bufs| == |s.h.gens| == c.B
    && s.active < c.B && s.drain < c.B
    && |s.h.log| > 0
    && (forall i :: 0 <= i < c.B ==> |s.bufs[i].items| == c.Q)
    && (forall t :: t in s.calls ==> PcShape(c, s.calls[t].pc) && s.calls[t].gen < |s.h.log|)
    && (forall f :: f in s.flushers ==> FPcShape(c, s.flushers[f]))
  }

  predicate PcShape(c: Config, p: Pc) {
    match p
    case LoadActive | Drop | Returned(_) => true
    case Store(a, slot) => a < c.B && slot < c.Q
    case _ => p.a < c.B
  }

  predicate FPcShape(c: Config, p: FPc) {
    match p
    case Try(_) | LoadFlush | LoadDrain(_) | Unlock | Finished(_) => true
    case Copy(_, from, n, got) => from < c.B && |got| <= n <= c.Q
    case _ => p.from < c.B
  }

  function SetBuf(s: State, i: nat, b: Buffer): State
    requires i < |s.bufs|
  {
    s.(bufs := s.bufs[i := b])
  }

  function SetCall(s: State, t: Ticket, p: Pc): State
    requires t in s.calls
  {
    s.(calls := s.calls[t := s.calls[t].(pc := p)])
  }

  function SetFlusher(s: State, f: nat, p: FPc): State {
    s.(flushers := s.flushers[f := p])
  }

  /** One step of `rotate_buffer(batcher, from)`. */
  function RotateStep(c: Config, s: State, from: nat, r: Rot): (State, RotResult)
    requires c.B > 0 && from < c.B && |s.bufs| == c.B
  {
    var new_ := Next(c, from);
    match r
    case RSealed => (s, Goto(if s.bufs[new_].sealed then RConfirm else RIndex))
    case RIndex => (s, Goto(if s.bufs[new_].index != 0 then RConfirm else RAdding))
    case RAdding => (s, Goto(if s.bufs[new_].adding != 0 then RConfirm else RSeal))
    case RSeal => (SetBuf(s, from, s.bufs[from].(sealed := true)), Goto(RSwap))
    case RSwap =>
      if s.active == from then
        (s.(active := new_, h := s.h.(log := s.h.log + [[]])), Return(true))
      else
        (s, Goto(RConfirm))
    case RConfirm => (s, Return(s.active != from))
  }

  function AddTo(b: Buffer, k: int): Buffer { b.(adding := b.adding + k) }

  /** A new `enqueue` call; `start` records the current end of the queue. */
  function BeginCall(s: State, t: Ticket): State
    requires |s.h.log| > 0
  {
    var A := |s.h.log| - 1;
    s.(calls := s.calls[t := Call(LoadActive, Pos(A, |s.h.log[A]|), A, None)])
  }

  /** One step of enqueue call `t`. */
  function CallStep(c: Config, s: State, t: Ticket): State
    requires Shape(c, s) && t in s.calls
  {
    var call := s.calls[t];
    match call.pc
    case LoadActive => SetCall(s, t, LoadSealed(s.active))
    case LoadSealed(a) => SetCall(s, t, if s.bufs[a].sealed then LoadActive else Enter(a))
    case Enter(a) => SetCall(SetBuf(s, a, AddTo(s.bufs[a], 1)), t, CheckActive(a))
    case CheckActive(a) =>
      s.(calls := s.calls[t := call.(pc := CheckSealed(a, s.active == a), gen := |s.h.log| - 1)])
    case CheckSealed(a, same) =>
      SetCall(s, t, if !same || s.bufs[a].sealed then BackOut(a) else Claim(a))
    case BackOut(a) => SetCall(SetBuf(s, a, AddTo(s.bufs[a], -1)), t, LoadActive)
    case Claim(a) => ClaimStep(c, s, t, a)
    case Store(a, slot) =>
      SetCall(SetBuf(s, a, s.bufs[a].(items := s.bufs[a].items[slot := t])), t,
              if slot == c.Q - 1 then Rotate(a, slot, RSealed) else Leave(a, slot, false))
    case Rotate(a, slot, r) =>
      var (s1, res) := RotateStep(c, s, a, r);
      SetCall(s1, t, if res.Goto? then Rotate(a, slot, res.r) else Leave(a, slot, res.rotated))
    case Leave(a, slot, rotated) =>
      SetCall(SetBuf(s, a, AddTo(s.bufs[a], -1)), t,
              if slot < c.Q then Returned(true) else if rotated then LoadActive else Recheck(a))
    case Recheck(a) => SetCall(s, t, if s.active != a then LoadActive else Drop)
    case Drop => SetCall(s, t, Returned(false)).(discards := s.discards + 1)
    case Returned(_) => s
  }

  function ClaimStep(c: Config, s: State, t: Ticket, a: nat): State
    requires a < |s.bufs| && t in s.calls && s.calls[t].gen < |s.h.log|
  {
    var call := s.calls[t];
    var slot := s.bufs[a].index;
    var next := if slot < c.Q
                then call.(pc := Store(a, slot), place := Some(Pos(call.gen, slot)))
                else call.(pc := Rotate(a, slot, RSealed));
    SetBuf(s, a, s.bufs[a].(index := slot + 1)).(
      calls := s.calls[t := next],
      h := s.h.(log := s.h.log[call.gen := s.h.log[call.gen] + [t]]))
  }

  /** One step of flush call `f`; `giveUp` resolves the crash path's timeout. */
  function FlushStep(c: Config, s: State, f: nat, giveUp: bool): State
    requires Shape(c, s) && f in s.flushers
  {
    match s.flushers[f]
    case Try(crashSafe) =>
      if !s.flushing then
        SetFlusher(s, f, LoadFlush).(flushing := true, h := s.h.(owner := f))
      else if crashSafe && !giveUp then s
      else SetFlusher(s, f, Finished(false))
    case LoadFlush => SetFlusher(s, f, LoadDrain(s.active))
    case LoadDrain(fi) => SetFlusher(s, f, LoadOldSealed(fi, s.drain))
    case LoadOldSealed(fi, from) =>
      SetFlusher(s, f, if s.bufs[from].sealed then Wait(fi, from) else LoadActiveAgain(fi, from))
    case LoadActiveAgain(fi, from) => SetFlusher(s, f, LoadIndex(fi, from, s.active))
    case LoadIndex(fi, from, act) =>
      var count := s.bufs[from].index;
      SetFlusher(s, f,
                 if act != from then Wait(fi, from)
                 else if count <= 0 || (from != fi && count < c.Q) then Unlock
                 else Rotating(fi, from, RSealed))
    case Rotating(fi, from, r) =>
      var (s1, res) := RotateStep(c, s, from, r);
      SetFlusher(s1, f, if res.Goto? then Rotating(fi, from, res.r)
                        else if res.rotated then Wait(fi, from) else Unlock)
    case Wait(fi, from) => if s.bufs[from].adding > 0 then s else SetFlusher(s, f, Take(fi, from))
    case Take(fi, from) =>
      var n := if s.bufs[from].index > c.Q then c.Q else s.bufs[from].index;
      SetFlusher(SetBuf(s, from, s.bufs[from].(index := 0)), f,
                 if n > 0 then Copy(fi, from, n, []) else Unseal(fi, from))
    case Copy(fi, from, n, got) =>
      SetFlusher(s, f, if |got| < n then Copy(fi, from, n, got + [s.bufs[from].items[|got|]])
                       else Hand(fi, from, got))
    case Hand(fi, from, got) => SetFlusher(s, f, Unseal(fi, from)).(batches := s.batches + [got])
    case Unseal(fi, from) =>
      SetFlusher(SetBuf(s, from, s.bufs[from].(sealed := false)), f, Advance(fi, from)).(
        h := s.h.(D := s.h.D + 1, gens := s.h.gens[from := s.h.gens[from] + c.B]))
    case Advance(fi, from) => SetFlusher(s, f, LoadDrain(fi)).(drain := Next(c, from))
    case Unlock => SetFlusher(s, f, Finished(true)).(flushing := false)
    case Finished(_) => s
  }

  datatype Action =
    | Begin(t: Ticket)
    | Produce(t: Ticket)
    | BeginFlush(f: nat, crashSafe: bool)
    | Flush(f: nat, giveUp: bool)

  ghost predicate Step(c: Config, s: State, s': State, act: Action) {
    match act
    case Begin(t) => Shape(c, s) && t !in s.calls && s' == BeginCall(s, t)
    case Produce(t) => Shape(c, s) && t in s.calls && s' == CallStep(c, s, t)
    case BeginFlush(f, cs) => f !in s.flushers && s' == SetFlusher(s, f, Try(cs))
    case Flush(f, g) => Shape(c, s) && f in s.flushers && s' == FlushStep(c, s, f, g)
  }

  ghost predicate Init(c: Config, s: State) {
    && c.Valid()
    && |s.bufs| == c.B
    && (forall i :: 0 <= i < c.B ==>
          |s.bufs[i].items| == c.Q && s.bufs[i].index == 0 && s.bufs[i].adding == 0 && !s.bufs[i].sealed)
    && s.active == s.drain == s.discards == 0 && !s.flushing
    && s.calls == map[] && s.flushers == map[] && s.batches == []
    && s.h == History(0, seq(c.B, i requires 0 <= i => i), [[]], 0)
  }

  /** Every interleaving: a run is any sequence of steps from an initial state. */
  ghost predicate Run(c: Config, run: seq<State>, acts: seq<Action>) {
    && |run| == |acts| + 1
    && Init(c, run[0])
    && forall i :: 0 <= i < |acts| ==> Step(c, run[i], run[i + 1], acts[i])
  }
}
