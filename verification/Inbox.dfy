/** A service's inbox under concurrency: every atomic load, atomic store and slot access of src/queue.c is a step of
    its own, and so is every signal and every wake-up of src/service.c. Pushes to one inbox are serialized, as
    src/queue.h requires; signals of different senders are not. */
module Inbox {
  import opened Bits
  import opened Ring

  type Msg = nat

  /** Where the current push is: queue_push_ptr between its loads and stores. */
  datatype Writer =
    | NoPush
    | LoadTail(v: Msg)
    | LoadHead(v: Msg, t: nat)
    | StoreSlot(v: Msg, t: nat)
    | AssertTail(v: Msg, t: nat)
    | StoreTail(v: Msg, t: nat)

  /** Where the consumer is: asleep in the event loop, inside service_recv, handling a message, or on its way out
      of the drain. `sure` says that queue_length has just seen a message. */
  datatype Reader =
    | Asleep
    | Length
    | LengthHasTail(t: nat)
    | LengthHasHead(h: nat)
    | PopHead(sure: bool)
    | PopTail(sure: bool, h: nat)
    | ReadSlot(h: nat)
    | AssertHead(h: nat, v: Msg)
    | StoreHead(h: nat, v: Msg)
    | Handling(v: Msg)
    | Leaving

  /** The shared memory, the two program counters, the one pending flag of the async handle, and the number of senders
      that have finished their push but not yet signalled. The last four fields record what has happened: messages
      sent, stored, refused by a full ring, and delivered. */
  datatype State = State(
    k: nat, head: nat, tail: nat, data: seq<Msg>,
    writer: Writer, reader: Reader,
    pending: bool, unsignalled: nat, crashed: bool,
    sent: seq<Msg>, stored: seq<Msg>, refused: seq<Msg>, delivered: seq<Msg>)

  datatype Action =
    | Send(v: Msg)
    | WriterStep
    | Signal
    | Wake
    | ReaderStep(tailFirst: bool)

  /** What a step means for an observer who sees only a bounded queue. */
  datatype Event = Silent | Pushed(v: Msg) | Refused(v: Msg) | Popped(v: Msg) | FoundEmpty

  function Init(k: nat, memory: seq<Msg>): State
  {
    State(k, 0, 0, memory, NoPush, Asleep, false, 0, false, [], [], [], [])
  }

  predicate Enabled(s: State, a: Action)
  {
    match a
    case Send(_) => s.writer.NoPush?
    case WriterStep => !s.writer.NoPush?
    case Signal => s.unsignalled > 0
    case Wake => s.pending && s.reader.Asleep?
    case ReaderStep(_) => !s.reader.Asleep?
  }

  /** queue_push_open, the store, and queue_push_close. A refused push is signalled like any other. */
  function WriterNext(s: State): (State, Event)
  {
    match s.writer
    case NoPush => (s, Silent)
    case LoadTail(v) => (s.(writer := LoadHead(v, s.tail)), Silent)
    case LoadHead(v, t) =>
      if Position(t + 1, s.k) == s.head then
        (s.(writer := NoPush, unsignalled := s.unsignalled + 1, refused := s.refused + [v]), Refused(v))
      else (s.(writer := StoreSlot(v, t)), Silent)
    case StoreSlot(v, t) =>
      if t < |s.data| then (s.(writer := AssertTail(v, t), data := s.data[t := v]), Silent)
      else (s.(crashed := true), Silent)
    case AssertTail(v, t) =>
      if s.tail == t then (s.(writer := StoreTail(v, t)), Silent) else (s.(crashed := true), Silent)
    case StoreTail(v, t) =>
      (s.(writer := NoPush, tail := Position(t + 1, s.k), unsignalled := s.unsignalled + 1, stored := s.stored + [v]),
       Pushed(v))
  }

  /** The pop that service_recv makes after queue_length. */
  function AfterLength(s: State, t: nat, h: nat): State
  {
    s.(reader := PopHead(Distance(h, t, |s.data|) > 0))
  }

  /** service_recv around queue_length and queue_pop_ptr, and the dispatch loop around service_recv. The two loads of
      queue_length may come in either order. */
  function ReaderNext(s: State, tailFirst: bool): (State, Event)
  {
    match s.reader
    case Asleep => (s, Silent)
    case Length => (s.(reader := if tailFirst then LengthHasTail(s.tail) else LengthHasHead(s.head)), Silent)
    case LengthHasTail(t) => (AfterLength(s, t, s.head), Silent)
    case LengthHasHead(h) => (AfterLength(s, s.tail, h), Silent)
    case PopHead(sure) => (s.(reader := PopTail(sure, s.head)), Silent)
    case PopTail(sure, h) =>
      if h == s.tail then (s.(reader := if sure then PopHead(false) else Leaving), FoundEmpty)
      else (s.(reader := ReadSlot(h)), Silent)
    case ReadSlot(h) =>
      if h < |s.data| then (s.(reader := AssertHead(h, s.data[h])), Silent) else (s.(crashed := true), Silent)
    case AssertHead(h, v) =>
      if s.head == h then (s.(reader := StoreHead(h, v)), Silent) else (s.(crashed := true), Silent)
    case StoreHead(h, v) =>
      (s.(reader := Handling(v), head := Position(h + 1, s.k), delivered := s.delivered + [v]), Popped(v))
    case Handling(_) => (s.(reader := Length), Silent)
    case Leaving => (s.(reader := Asleep), Silent)
  }

  /** uv_async_send sets the flag, however often; the event loop clears it and then runs the handler. */
  function Next(s: State, a: Action): (State, Event)
  {
    match a
    case Send(v) => (s.(writer := LoadTail(v), sent := s.sent + [v]), Silent)
    case WriterStep => WriterNext(s)
    case Signal => (s.(pending := true, unsignalled := if s.unsignalled > 0 then s.unsignalled - 1 else 0), Silent)
    case Wake => (s.(pending := false, reader := Length), Silent)
    case ReaderStep(tailFirst) => ReaderNext(s, tailFirst)
  }

  // ---------- the invariant ----------

  /** The messages in the ring: stored and not yet delivered. */
  function Queued(s: State): seq<Msg>
  {
    if |s.delivered| <= |s.stored| then s.stored[|s.delivered|..] else []
  }

  /** The computation of queue_length. */
  function Distance(h: int, t: int, size: nat): int
  {
    if t - h < 0 then t - h + size else t - h
  }

  ghost predicate WriterOk(w: Writer, tail: nat, data: seq<Msg>, q: seq<Msg>)
  {
    match w
    case NoPush => true
    case LoadTail(_) => true
    case LoadHead(_, t) => t == tail
    case StoreSlot(_, t) => t == tail && |q| + 1 < |data|
    case AssertTail(v, t) => t == tail && |q| + 1 < |data| && t < |data| && data[t] == v
    case StoreTail(v, t) => t == tail && |q| + 1 < |data| && t < |data| && data[t] == v
  }

  ghost predicate ReaderOk(r: Reader, head: nat, size: nat, q: seq<Msg>)
  {
    match r
    case LengthHasTail(t) => t < size && Distance(head, t, size) <= |q|
    case LengthHasHead(h) => h == head
    case PopHead(sure) => sure ==> q != []
    case PopTail(sure, h) => h == head && (sure ==> q != [])
    case ReadSlot(h) => h == head && q != []
    case AssertHead(h, v) => h == head && q != [] && v == q[0]
    case StoreHead(h, v) => h == head && q != [] && v == q[0]
    case _ => true
  }

  /** The consumer will look at the ring again before it sleeps. */
  predicate WillLook(r: Reader) { !r.Asleep? && !r.Leaving? }

  /** The push under way, if any. */
  function InFlight(w: Writer): multiset<Msg>
  {
    if w.NoPush? then multiset{} else multiset{w.v}
  }

  ghost predicate Inv(s: State)
  {
    && |s.data| == Pow2(s.k) && s.delivered <= s.stored && !s.crashed
    && var q := Queued(s);
    && Holds(s.data, s.head, s.tail, q)
    && WriterOk(s.writer, s.tail, s.data, q) && ReaderOk(s.reader, s.head, |s.data|, q)
    && (q != [] ==> s.pending || s.unsignalled > 0 || WillLook(s.reader))
  }

  /** Every message sent has been stored, has been refused by a full ring, or is being pushed. */
  ghost predicate Conserved(s: State)
  {
    multiset(s.sent) == Accounted(s.stored, s.refused, s.writer)
  }

  function Accounted(stored: seq<Msg>, refused: seq<Msg>, w: Writer): multiset<Msg>
  {
    multiset(stored) + multiset(refused) + InFlight(w)
  }

  lemma InitInv(k: nat, memory: seq<Msg>)
    requires |memory| == Pow2(k)
    ensures Inv(Init(k, memory)) && Conserved(Init(k, memory))
  {
  }

  // ---------- every step ----------

  /** A queue of bounded capacity: the specification the ring is held against. */
  predicate Fifo(q: seq<Msg>, e: Event, q': seq<Msg>, capacity: int)
  {
    match e
    case Silent => q' == q
    case Pushed(v) => |q| < capacity && q' == q + [v]
    case Refused(_) => |q| == capacity && q' == q
    case Popped(v) => q != [] && v == q[0] && q' == q[1..]
    case FoundEmpty => q == [] && q' == q
  }

  lemma StoredMore(s: State, v: Msg)
    requires s.delivered <= s.stored
    ensures (s.stored + [v])[|s.delivered|..] == Queued(s) + [v] && s.delivered <= s.stored + [v]
  {
  }

  lemma DeliveredMore(s: State)
    requires s.delivered <= s.stored && Queued(s) != []
    ensures s.delivered + [Queued(s)[0]] <= s.stored
    ensures s.stored[|s.delivered| + 1..] == Queued(s)[1..]
  {
  }

  ghost predicate StepOk(s: State, s': State, e: Event)
  {
    Inv(s') && Fifo(Queued(s), e, Queued(s'), Pow2(s.k) - 1)
  }

  lemma SlotStored(s: State)
    requires Inv(s) && s.writer.StoreSlot?
    ensures StepOk(s, WriterNext(s).0, WriterNext(s).1)
  {
    hide Pow2, Position;
    HoldsPushed(s.data, s.head, s.tail, Queued(s), s.writer.v, s.k);
    SlotApart(s);
  }

  /** While the consumer is between its loads and its store of the head, the slot it reads is not the one the writer
      fills. */
  lemma SlotApart(s: State)
    requires Inv(s)
    ensures Queued(s) != [] && |Queued(s)| + 1 < |s.data| ==> s.tail != s.head
  {
  }

  lemma TailStored(s: State)
    requires Inv(s) && s.writer.StoreTail?
    ensures StepOk(s, WriterNext(s).0, WriterNext(s).1)
  {
    hide Pow2, Position;
    var v := s.writer.v;
    HoldsPushed(s.data, s.head, s.tail, Queued(s), v, s.k);
    assert s.data[s.tail := v] == s.data;
    StoredMore(s, v);
    PositionWrapsTail(s);
  }

  lemma PositionWrapsTail(s: State)
    requires Inv(s)
    ensures Position(s.tail + 1, s.k) == Wrap(s.tail + 1, |s.data|)
    ensures Position(s.head + 1, s.k) == Wrap(s.head + 1, |s.data|)
  {
    PositionWraps(s.tail + 1, s.k);
    PositionWraps(s.head + 1, s.k);
  }

  lemma WriterInv(s: State)
    requires Inv(s) && Enabled(s, WriterStep)
    ensures StepOk(s, WriterNext(s).0, WriterNext(s).1)
  {
    if s.writer.StoreSlot? {
      SlotStored(s);
    } else if s.writer.StoreTail? {
      TailStored(s);
    } else {
      WriterLooks(s);
    }
  }

  lemma WriterLooks(s: State)
    requires Inv(s) && (s.writer.LoadTail? || s.writer.LoadHead? || s.writer.AssertTail?)
    ensures StepOk(s, WriterNext(s).0, WriterNext(s).1)
  {
    FullAndEmpty(s.data, s.head, s.tail, Queued(s), s.k);
    hide Pow2, Position, Holds, ReaderOk;
  }

  lemma HeadStored(s: State)
    requires Inv(s) && s.reader.StoreHead?
    ensures StepOk(s, ReaderNext(s, true).0, ReaderNext(s, true).1)
  {
    hide Pow2, Position;
    var q := Queued(s);
    HoldsPopped(s.data, s.head, s.tail, q, s.k);
    DeliveredMore(s);
    assert Queued(ReaderNext(s, true).0) == q[1..];
    hide Holds, Queued;
  }

  lemma LengthLoaded(s: State, tailFirst: bool)
    requires Inv(s) && (s.reader.Length? || s.reader.LengthHasTail? || s.reader.LengthHasHead?)
    ensures StepOk(s, ReaderNext(s, tailFirst).0, ReaderNext(s, tailFirst).1)
  {
    assert Distance(s.head, s.tail, |s.data|) == |Queued(s)| && s.tail < |s.data|;
    hide Pow2, Position, Holds, WriterOk;
  }

  lemma SlotRead(s: State)
    requires Inv(s) && (s.reader.ReadSlot? || s.reader.AssertHead?)
    ensures StepOk(s, ReaderNext(s, true).0, ReaderNext(s, true).1)
  {
    HoldsPopped(s.data, s.head, s.tail, Queued(s), s.k);
    assert s.head < |s.data|;
    hide Pow2, Position, Holds, WriterOk;
  }

  lemma ReaderLooks(s: State)
    requires Inv(s) && (s.reader.PopHead? || s.reader.PopTail? || s.reader.Handling? || s.reader.Leaving?)
    ensures StepOk(s, ReaderNext(s, true).0, ReaderNext(s, true).1)
  {
    FullAndEmpty(s.data, s.head, s.tail, Queued(s), s.k);
    hide Pow2, Position, Holds, WriterOk;
  }

  lemma ReaderInv(s: State, tailFirst: bool)
    requires Inv(s) && Enabled(s, ReaderStep(tailFirst))
    ensures StepOk(s, ReaderNext(s, tailFirst).0, ReaderNext(s, tailFirst).1)
  {
    hide StepOk, Inv;
    match s.reader
    case StoreHead(_, _) => HeadStored(s);
    case ReadSlot(_) => SlotRead(s);
    case AssertHead(_, _) => SlotRead(s);
    case PopHead(_) => ReaderLooks(s);
    case PopTail(_, _) => ReaderLooks(s);
    case Handling(_) => ReaderLooks(s);
    case Leaving => ReaderLooks(s);
    case _ => LengthLoaded(s, tailFirst);
  }

  lemma PushSettled(stored: seq<Msg>, refused: seq<Msg>, w: Writer)
    requires !w.NoPush?
    ensures Accounted(stored, refused + [w.v], NoPush) == Accounted(stored, refused, w)
    ensures Accounted(stored + [w.v], refused, NoPush) == Accounted(stored, refused, w)
  {
  }

  lemma PushStarted(sent: seq<Msg>, stored: seq<Msg>, refused: seq<Msg>, v: Msg)
    requires multiset(sent) == Accounted(stored, refused, NoPush)
    ensures multiset(sent + [v]) == Accounted(stored, refused, LoadTail(v))
  {
  }

  lemma SamePush(stored: seq<Msg>, refused: seq<Msg>, w: Writer, w': Writer)
    requires !w.NoPush? && !w'.NoPush? && w.v == w'.v
    ensures Accounted(stored, refused, w) == Accounted(stored, refused, w')
  {
  }

  lemma StepConserves(s: State, a: Action)
    requires Conserved(s) && Enabled(s, a)
    ensures Conserved(Next(s, a).0)
  {
    hide Position, Accounted;
    var s' := Next(s, a).0;
    if a.Send? {
      PushStarted(s.sent, s.stored, s.refused, a.v);
    } else if a.WriterStep? {
      PushSettled(s.stored, s.refused, s.writer);
      if !s'.writer.NoPush? {
        SamePush(s.stored, s.refused, s.writer, s'.writer);
      }
    }
  }

  /** Every step keeps the invariant and is a step of the bounded queue. */
  lemma StepRefines(s: State, a: Action)
    requires Inv(s) && Enabled(s, a)
    ensures StepOk(s, Next(s, a).0, Next(s, a).1)
  {
    hide Pow2, Position, Holds, ReaderOk, WriterNext, ReaderNext;
    match a
    case WriterStep => WriterInv(s);
    case ReaderStep(tailFirst) => ReaderInv(s, tailFirst);
    case Send(v) =>
    case Signal =>
    case Wake => NotInUse(s);
  }

  lemma NotInUse(s: State)
    ensures ReaderOk(Length, s.head, |s.data|, Queued(s))
  {
  }

  // ---------- whole runs ----------

  /** A run of the system: any interleaving of the writer, the reader, the signals and the wake-ups. */
  ghost predicate Run(states: seq<State>, actions: seq<Action>)
  {
    && |states| == |actions| + 1
    && (exists k, memory :: |memory| == Pow2(k) && states[0] == Init(k, memory))
    && forall i :: 0 <= i < |actions| ==>
         Enabled(states[i], actions[i]) && states[i + 1] == Next(states[i], actions[i]).0
  }

  /** What a reachable state guarantees: the delivered messages are a prefix of the stored ones, both assertions
      have held, nothing sent is lost or duplicated, and a message in the ring is never left with no signal coming. */
  ghost predicate Safe(s: State)
  {
    && s.delivered <= s.stored
    && !s.crashed
    && Conserved(s)
    && |Queued(s)| <= Pow2(s.k) - 1
    && (Queued(s) != [] ==> s.pending || s.unsignalled > 0 || WillLook(s.reader))
  }

  lemma {:induction false} RunInvariant(states: seq<State>, actions: seq<Action>, i: nat)
    requires Run(states, actions) && i < |states|
    ensures Inv(states[i]) && Conserved(states[i])
  {
    if i == 0 {
      var k, memory :| |memory| == Pow2(k) && states[0] == Init(k, memory);
      InitInv(k, memory);
    } else {
      RunInvariant(states, actions, i - 1);
      StepRefines(states[i - 1], actions[i - 1]);
      StepConserves(states[i - 1], actions[i - 1]);
    }
  }

  /** In every run every state is safe and every step is a step of the bounded queue of capacity 2^k - 1. */
  lemma RunRefines(states: seq<State>, actions: seq<Action>)
    requires Run(states, actions)
    ensures forall i :: 0 <= i < |states| ==> Safe(states[i])
    ensures forall i :: 0 <= i < |actions| ==>
              Fifo(Queued(states[i]), Next(states[i], actions[i]).1, Queued(states[i + 1]), Pow2(states[i].k) - 1)
  {
    forall i | 0 <= i < |states| ensures Safe(states[i]) {
      RunInvariant(states, actions, i);
    }
    forall i | 0 <= i < |actions|
      ensures Fifo(Queued(states[i]), Next(states[i], actions[i]).1, Queued(states[i + 1]), Pow2(states[i].k) - 1) {
      RunInvariant(states, actions, i);
      StepRefines(states[i], actions[i]);
    }
  }

  /** No lost wake-up: once every sender has signalled and the consumer sleeps with nothing pending, everything stored
      has been delivered, in order. */
  lemma NothingLeftBehind(states: seq<State>, actions: seq<Action>, i: nat)
    requires Run(states, actions) && i < |states|
    requires states[i].reader.Asleep? && !states[i].pending && states[i].unsignalled == 0
    ensures states[i].delivered == states[i].stored
  {
    RunInvariant(states, actions, i);
  }

  /** Once queue_length has seen a message the pop that follows does not find the ring empty. */
  lemma LengthIsHonest(states: seq<State>, actions: seq<Action>, i: nat)
    requires Run(states, actions) && i < |actions| && actions[i].ReaderStep?
    requires states[i].reader.PopTail? && states[i].reader.sure
    ensures states[i + 1].reader == ReadSlot(states[i].head) && Next(states[i], actions[i]).1 == Silent
  {
    RunInvariant(states, actions, i);
    FullAndEmpty(states[i].data, states[i].head, states[i].tail, Queued(states[i]), states[i].k);
  }

  /** The writer never stores into the slot the reader has opened and not yet closed. */
  lemma OpenSlotKept(states: seq<State>, actions: seq<Action>, i: nat)
    requires Run(states, actions) && i < |states|
    requires states[i].writer.StoreSlot?
    requires states[i].reader.ReadSlot? || states[i].reader.AssertHead? || states[i].reader.StoreHead?
    ensures states[i].writer.t != states[i].reader.h
  {
    RunInvariant(states, actions, i);
    SlotApart(states[i]);
  }

  // ---------- signals and wake-ups ----------

  /** How many of the first i actions are signals, and how many are wake-ups. */
  function Counts(actions: seq<Action>, i: nat): (nat, nat)
    requires i <= |actions|
  {
    if i == 0 then (0, 0)
    else
      var (signals, wakes) := Counts(actions, i - 1);
      (signals + if actions[i - 1].Signal? then 1 else 0, wakes + if actions[i - 1].Wake? then 1 else 0)
  }

  /** Every push, refused or not, is signalled once, and a wake-up uses up at least one signal. */
  lemma {:induction false} WakesAreSignalled(states: seq<State>, actions: seq<Action>, i: nat)
    requires Run(states, actions) && i < |states|
    ensures var s := states[i];
            var (signals, wakes) := Counts(actions, i);
            && signals + s.unsignalled == |s.stored| + |s.refused|
            && wakes + (if s.pending then 1 else 0) <= signals
            && (signals > 0 ==> s.pending || wakes > 0)
  {
    hide Next, Enabled;
    if i > 0 {
      WakesAreSignalled(states, actions, i - 1);
      StepCounts(states[i - 1], actions[i - 1]);
    } else {
      var k, memory :| |memory| == Pow2(k) && states[0] == Init(k, memory);
    }
  }

  lemma StepCounts(s: State, a: Action)
    requires Enabled(s, a)
    ensures var s' := Next(s, a).0;
            && |s'.stored| + |s'.refused| - s'.unsignalled
               == |s.stored| + |s.refused| - s.unsignalled + (if a.Signal? then 1 else 0)
            && (a.Signal? ==> s'.pending) && (a.Wake? ==> s.pending && !s'.pending)
            && (!a.Signal? && !a.Wake? ==> s'.pending == s.pending)
  {
  }

  /** Between two wake-ups there is a signal. */
  lemma {:induction false} WakeNeedsSignal(states: seq<State>, actions: seq<Action>, i: nat, j: nat) returns (k: nat)
    requires Run(states, actions) && i < j < |actions| && actions[i].Wake? && actions[j].Wake?
    ensures i < k < j && actions[k].Signal?
  {
    k := SignalBefore(states, actions, i + 1, j);
  }

  lemma {:induction false} SignalBefore(states: seq<State>, actions: seq<Action>, i: nat, j: nat) returns (k: nat)
    requires Run(states, actions) && i <= j < |states| && !states[i].pending && states[j].pending
    ensures i <= k < j && actions[k].Signal?
    decreases j - i
  {
    if actions[i].Signal? {
      k := i;
    } else {
      k := SignalBefore(states, actions, i + 1, j);
    }
  }
}
