/** The ticket queue keeps its invariant, step by step and over every run. */
module TicketQueueSafety {
  import opened Common
  import opened TicketQueue

  lemma InitInv(cap: nat, threads: set<Thread>)
    requires 0 < cap < WORD
    ensures Inv(Init(cap, threads))
  {
    var s := Init(cap, threads);
    forall k | 0 <= k < cap ensures SlotOk(s, k) {
      SlotOf(cap, 0, k, k);
    }
    assert Flying(s) == {};
  }

  /** The full test of `tryPush`, on wrapping words and possibly stale reads: it refuses exactly when
      `cap` tickets lie between the two counters, or when head has already passed t. */
  lemma FullGuard(t: nat, h: nat, cap: nat)
    requires t + cap < WORD && h + cap < WORD
    ensures WordSub(t, h) >= cap <==> t >= h + cap || t < h
  {
    if t >= h {
      assert WordSub(t, h) == t - h;
    } else {
      SlotOf(WORD, -1, t - h + WORD, t - h);
    }
  }

  // ------------------------------------------------ tickets and slots, step by step

  /** Producers other than p do not notice a step that leaves the counters and p's entries in place. */
  lemma OthersOk(s: State, s': State, p: Thread)
    requires ProducersOk(s) && s'.producers.Keys == s.producers.Keys
    requires forall q | q in s.producers && q != p :: s'.producers[q] == s.producers[q]
    requires s'.cap == s.cap && s.tail <= s'.tail && s.head <= s'.head
    requires Oldest(s') == Oldest(s) && s.reserved <= s'.reserved
    requires p in s.producers ==> ProducerOk(s', p)
    ensures ProducersOk(s')
  {
    forall q | q in s'.producers && q != p ensures ProducerOk(s', q) {
      assert ProducerOk(s, q);
    }
  }

  lemma ProducersUnmoved(s: State, s': State)
    requires ProducersOk(s) && s'.producers == s.producers
    requires s'.cap == s.cap && s.tail == s'.tail && s.head <= s'.head
    requires Oldest(s') == Oldest(s) && s.reserved == s'.reserved
    ensures ProducersOk(s')
  {
    forall q | q in s'.producers ensures ProducerOk(s', q) {
      assert ProducerOk(s, q);
    }
  }

  /** Slots stay right when only ticket t's slot is rewritten, to what t's phase asks for. */
  lemma SlotsRewritten(s: State, s': State, t: nat, c: Cell)
    requires SlotsOk(s) && WellFormed(s) && WellFormed(s')
    requires s'.cap == s.cap && s'.cells == SetCell(s, t, c) && Oldest(s') == Oldest(s) <= t < Oldest(s) + s.cap
    requires Expected(s', t) == c
    requires forall k | Oldest(s) <= k < Oldest(s) + s.cap && k != t :: Expected(s', k) == Expected(s, k)
    ensures SlotsOk(s')
  {
    OnlyItsSlot(s.cap, Oldest(s), t);
    forall k | Oldest(s') <= k < Oldest(s') + s'.cap ensures SlotOk(s', k) {
      assert SlotOk(s, k);
    }
  }

  lemma SlotsUntouched(s: State, s': State)
    requires SlotsOk(s) && WellFormed(s) && WellFormed(s')
    requires s'.cap == s.cap && s'.cells == s.cells && Oldest(s') == Oldest(s)
    requires forall k | Oldest(s) <= k < Oldest(s) + s.cap :: Expected(s', k) == Expected(s, k)
    ensures SlotsOk(s')
  {
    forall k | Oldest(s') <= k < Oldest(s') + s'.cap ensures SlotOk(s', k) {
      assert SlotOk(s, k);
    }
  }

  /** A ticket's expected slot depends on its own producer's program point only. */
  lemma SamePhase(s: State, s': State, p: Thread, t: nat)
    requires s'.consumer == s.consumer && s'.producers.Keys == s.producers.Keys
    requires forall q | q in s.producers && q != p :: s'.producers[q] == s.producers[q]
    requires p in s.producers
    requires Unpublished(s.producers[p]) ==> s.producers[p].t == t
    requires Unpublished(s'.producers[p]) ==> s'.producers[p].t == t
    requires s'.reserved == s.reserved || (|s.reserved| == t == |s'.reserved| - 1 && s.reserved <= s'.reserved)
    ensures forall k: nat | k != t :: Expected(s', k) == Expected(s, k)
  {
  }

  /** A producer moving between program points that share nothing new. */
  lemma CoreLocal(s: State, p: Thread, pc: Producer)
    requires Core(s) && p in s.producers
    requires !Unpublished(s.producers[p]) && !Unpublished(pc)
    requires ProducerOk(At(s, p, pc), p)
    ensures Core(At(s, p, pc))
  {
    var s' := At(s, p, pc);
    SamePhase(s, s', p, s.tail);
    SlotsUntouched(s, s');
    OthersOk(s, s', p);
  }

  /** A step that keeps counters, entries won and the consumer, up to one more ticket at the end,
      keeps what the consumer and the counters promise. */
  lemma ShapeKept(s: State, s': State, p: Thread)
    requires Shape(s) && ConsumerOk(s) && WellFormed(s') && TicketsLeft(s')
    requires s'.cap == s.cap && s'.head == s.head && s'.consumer == s.consumer && s'.batch == s.batch
    requires s'.producers.Keys == s.producers.Keys && p in s.producers
    requires forall q | q in s.producers && q != p :: s'.producers[q] == s.producers[q]
    requires Unpublished(s'.producers[p]) ==>
               s'.producers[p].t == s.tail || (Unpublished(s.producers[p]) && s'.producers[p].t == s.producers[p].t)
    requires s.reserved <= s'.reserved && |s'.reserved| == s'.tail <= s.head + s.cap
    requires forall k | |s.reserved| <= k < |s'.reserved| :: s'.reserved[k].thread in s.producers
    ensures Shape(s') && ConsumerOk(s')
  {
  }

  lemma CoreReserve(s: State, s': State, p: Thread, e: Entry)
    requires Core(s) && p in s.producers && !s.producers[p].Holding? && e.thread == p
    requires s.tail < s.head + s.cap && TicketsLeft(s')
    requires s' == At(s, p, Holding(e, s.tail, AwaitSlot)).(tail := s.tail + 1, reserved := s.reserved + [e])
    ensures Core(s')
  {
    ShapeKept(s, s', p);
    SamePhase(s, s', p, s.tail);
    SlotsUntouched(s, s');
    OthersOk(s, s', p);
  }

  /** The wait of `tryPush` for its slot never spins: the slot is already free for it. */
  lemma SlotAlreadyFree(s: State, p: Thread)
    requires Core(s) && p in s.producers && Unpublished(s.producers[p])
    ensures CellOf(s, s.producers[p].t).number == s.producers[p].t
  {
    assert ProducerOk(s, p);
    assert SlotOk(s, s.producers[p].t);
  }

  lemma CoreFill(s: State, p: Thread)
    requires Core(s) && p in s.producers && Unpublished(s.producers[p])
    requires ProducerEnabled(s, p)
    ensures Core(StepProducer(s, p))
  {
    assert ProducerOk(s, p);
    var s', t := StepProducer(s, p), s.producers[p].t;
    assert SlotOk(s, t);
    assert s.cells == SetCell(s, t, CellOf(s, t));
    ShapeKept(s, s', p);
    SamePhase(s, s', p, t);
    SlotsRewritten(s, s', t, Expected(s', t));
    OthersOk(s, s', p);
  }

  lemma CoreCount(s: State, p: Thread)
    requires Core(s) && p in s.producers && s.producers[p].Holding? && s.producers[p].phase == Count
    ensures Core(StepProducer(s, p))
  {
    CoreLocal(s, p, Idle);
    CoreSilent(At(s, p, Idle), StepProducer(s, p));
  }

  lemma CoreLoadHead(s: State, p: Thread)
    requires Core(s) && p in s.producers && s.producers[p].LoadHead?
    ensures Core(StepProducer(s, p))
  {
    assert ProducerOk(s, p);
    var e, t := s.producers[p].entry, s.producers[p].t;
    FullGuard(t, s.head, s.cap);
    CoreLocal(s, p, if WordSub(t, s.head) >= s.cap then Idle else Reserve(e, t, s.head));
  }

  lemma CoreProducer(s: State, p: Thread)
    requires Core(s) && ProducerEnabled(s, p)
    requires TicketsLeft(StepProducer(s, p))
    ensures Core(StepProducer(s, p))
  {
    assert ProducerOk(s, p);
    match s.producers[p]
    case LoadTail(e) => CoreLocal(s, p, LoadHead(e, s.tail));
    case LoadHead(_, _) => CoreLoadHead(s, p);
    case Reserve(e, t, _) =>
      if s.tail == t { CoreReserve(s, StepProducer(s, p), p, e); } else { CoreLocal(s, p, LoadTail(e)); }
    case Holding(_, _, phase) =>
      if phase == Count { CoreCount(s, p); } else { CoreFill(s, p); }
  }

  /** The size counter and the history are no part of the ticket protocol. */
  lemma CoreSilent(s: State, s': State)
    requires Core(s) && WellFormed(s')
    requires s' == s.(size := s'.size, returned := s'.returned, delivered := s'.delivered)
    ensures Core(s')
  {
    SlotsUntouched(s, s');
    ProducersUnmoved(s, s');
  }

  /** Steps of the consumer that touch no slot. */
  lemma CoreConsumerReads(s: State)
    requires Core(s) && ConsumerEnabled(s)
    requires s.consumer.Drain? ==> s.consumer.step == AwaitEntry
    ensures Core(StepConsumer(s))
  {
    var s' := StepConsumer(s);
    assert Oldest(s) < s.tail ==> SlotOk(s, Oldest(s));
    SlotsUntouched(s, s');
    ProducersUnmoved(s, s');
  }

  lemma CoreTake(s: State)
    requires Core(s) && s.consumer.Drain? && s.consumer.step == TakeEntry
    ensures Core(StepConsumer(s))
  {
    var s', k0 := StepConsumer(s), Oldest(s);
    assert SlotOk(s, k0);
    OnlyItsSlot(s.cap, k0, k0);
    forall k | Oldest(s') <= k < Oldest(s') + s'.cap ensures SlotOk(s', k) {
      assert SlotOk(s, k);
    }
    ProducersUnmoved(s, s');
    assert s.reserved[s.head..k0] + [s.reserved[k0]] == s.reserved[s.head..k0 + 1];
  }

  lemma CoreFree(s: State)
    requires Core(s) && s.consumer.Drain? && s.consumer.step == FreeSlot
    ensures Core(StepConsumer(s))
  {
    var s', k0 := StepConsumer(s), Oldest(s);
    assert SlotOk(s, k0);
    OnlyItsSlot(s.cap, k0, k0);
    SlotRecurs(s.cap, k0);
    forall k | Oldest(s') <= k < Oldest(s') + s'.cap ensures SlotOk(s', k) {
      if k < k0 + s.cap {
        assert SlotOk(s, k);
      }
    }
    forall q | q in s'.producers ensures ProducerOk(s', q) {
      assert ProducerOk(s, q);
    }
  }

  lemma CoreStep(s: State, a: Action, s': State)
    requires Core(s) && Step(s, a, s')
    ensures Core(s')
  {
    match a
    case Call(p, text) => CoreLocal(s, p, LoadTail(Entry(p, text)));
    case ProducerStep(p) => CoreProducer(s, p);
    case SpuriousFailure(p) =>
      assert ProducerOk(s, p);
      CoreLocal(s, p, LoadTail(s.producers[p].entry));
    case ConsumerStep =>
      if s.consumer.Drain? && s.consumer.step == TakeEntry { CoreTake(s); }
      else if s.consumer.Drain? && s.consumer.step == FreeSlot { CoreFree(s); }
      else { CoreConsumerReads(s); }
    case Stutter =>
  }

  // ------------------------------------------------ history and size, step by step

  /** Steps that neither hand out, count nor discount a ticket leave the ledger alone. */
  lemma LedgerUntouched(s: State, s': State)
    requires Ledger(s)
    requires s'.head == s.head && s'.tail == s.tail && s'.size == s.size && s'.reserved == s.reserved
    requires s'.returned == s.returned && s'.producers.Keys == s.producers.Keys
    requires forall q | q in s.producers ::
        s'.producers[q].Holding? == s.producers[q].Holding? && Pending(s', q) == Pending(s, q)
    requires Drained(s') == Drained(s) && Discounted(s') == Discounted(s)
    ensures Ledger(s')
  {
    forall q | q in s'.producers ensures OrderOk(s', q) {
      assert OrderOk(s, q);
    }
    assert Flying(s') == Flying(s);
  }

  lemma LedgerReserve(s: State, s': State, p: Thread, e: Entry)
    requires Ledger(s) && p in s.producers && !s.producers[p].Holding?
    requires s' == At(s, p, Holding(e, s.tail, AwaitSlot)).(tail := s.tail + 1, reserved := s.reserved + [e])
    requires e.thread == p
    ensures Ledger(s')
  {
    assert s'.reserved[..s'.head] == s.reserved[..s.head];
    forall q | q in s'.producers ensures OrderOk(s', q) {
      assert OrderOk(s, q);
      ByThreadAppend(s.reserved, e, q);
    }
    assert Flying(s') == Flying(s) + {p};
  }

  lemma WrapAdd(x: int, y: int)
    ensures (x % WORD + y) % WORD == (x + y) % WORD
  {
    var q := x / WORD;
    assert x % WORD + y == x + y - q * WORD;
    var z := x + y;
    SlotOf(WORD, z / WORD - q, z % WORD, x % WORD + y);
  }

  lemma SizeCounted(s: State, s': State, p: Thread)
    requires SizeOk(s) && p in s.producers && s.producers[p].Holding?
    requires s'.producers == s.producers[p := Idle] && s'.size == (s.size + 1) % WORD
    requires s'.tail == s.tail && s'.head == s.head && s'.consumer == s.consumer
    ensures SizeOk(s')
  {
    assert Flying(s) == Flying(s') + {p};
    WrapAdd(s.tail - |Flying(s)| - Discounted(s), 1);
  }

  lemma LedgerCount(s: State, s': State, p: Thread)
    requires Ledger(s) && p in s.producers && s.producers[p].Holding? && p in s.returned
    requires s' == At(s, p, Idle).(size := (s.size + 1) % WORD,
                     returned := s.returned[p := s.returned[p] + [s.producers[p].entry]])
    ensures Ledger(s')
  {
    forall q | q in s'.producers ensures OrderOk(s', q) {
      assert OrderOk(s, q);
    }
    SizeCounted(s, s', p);
  }

  lemma LedgerStoreHead(s: State, s': State, n: nat)
    requires Ledger(s) && !s.consumer.Discount? && s.head + n <= |s.reserved|
    requires s.batch == s.reserved[s.head..s.head + n]
    requires s' == s.(consumer := Discount(n), head := s.head + n)
    ensures Ledger(s')
  {
    forall q | q in s'.producers ensures OrderOk(s', q) {
      assert OrderOk(s, q);
    }
    assert Flying(s') == Flying(s);
    assert s.reserved[..s.head] + s.batch == s.reserved[..s'.head];
  }

  lemma LedgerDiscount(s: State, s': State)
    requires Ledger(s) && s.consumer.Discount?
    requires s' == s.(consumer := Resting, size := WordSub(s.size, s.consumer.n),
                      delivered := s.delivered + s.batch, batch := [])
    ensures Ledger(s')
  {
    forall q | q in s'.producers ensures OrderOk(s', q) {
      assert OrderOk(s, q);
    }
    assert Flying(s') == Flying(s);
    WrapAdd(s.tail - |Flying(s)| - Discounted(s), 0 - s.consumer.n);
  }

  lemma LedgerConsumer(s: State)
    requires Inv(s) && ConsumerEnabled(s)
    ensures Ledger(StepConsumer(s))
  {
    var s' := StepConsumer(s);
    match s.consumer
    case Discount(_) => LedgerDiscount(s, s');
    case Drain(h, n, i, AwaitEntry) =>
      if i < n { LedgerUntouched(s, s'); } else { LedgerStoreHead(s, s', n); }
    case _ => LedgerUntouched(s, s');
  }

  lemma LedgerHolding(s: State, p: Thread)
    requires Inv(s) && ProducerEnabled(s, p) && s.producers[p].Holding?
    ensures Ledger(StepProducer(s, p))
  {
    if s.producers[p].phase == Count {
      LedgerCount(s, StepProducer(s, p), p);
    } else {
      LedgerUntouched(s, StepProducer(s, p));
    }
  }

  lemma LedgerLocal(s: State, p: Thread, pc: Producer)
    requires Ledger(s) && p in s.producers && !s.producers[p].Holding? && !pc.Holding?
    ensures Ledger(At(s, p, pc))
  {
    LedgerUntouched(s, At(s, p, pc));
  }

  lemma LedgerProducer(s: State, p: Thread)
    requires Inv(s) && ProducerEnabled(s, p) && TicketsLeft(StepProducer(s, p))
    ensures Ledger(StepProducer(s, p))
  {
    match s.producers[p]
    case LoadTail(e) => LedgerLocal(s, p, LoadHead(e, s.tail));
    case LoadHead(e, t) =>
      LedgerLocal(s, p, if WordSub(t, s.head) >= s.cap then Idle else Reserve(e, t, s.head));
    case Reserve(e, t, _) =>
      assert ProducerOk(s, p);
      if t == s.tail { LedgerReserve(s, StepProducer(s, p), p, e); } else { LedgerLocal(s, p, LoadTail(e)); }
    case Holding(_, _, _) => LedgerHolding(s, p);
  }

  lemma LedgerStep(s: State, a: Action, s': State)
    requires Inv(s) && Step(s, a, s')
    ensures Ledger(s')
  {
    match a
    case Call(p, text) => LedgerLocal(s, p, LoadTail(Entry(p, text)));
    case SpuriousFailure(p) => LedgerLocal(s, p, LoadTail(s.producers[p].entry));
    case ConsumerStep => LedgerConsumer(s);
    case ProducerStep(p) => LedgerProducer(s, p);
    case Stutter =>
  }

  /** Every step that leaves tickets to hand out keeps the invariant. */
  lemma StepKeepsInv(s: State, a: Action, s': State)
    requires Inv(s) && Step(s, a, s')
    ensures Inv(s')
  {
    CoreStep(s, a, s');
    LedgerStep(s, a, s');
  }

  lemma StepKeepsParties(s: State, a: Action, s': State)
    requires Step(s, a, s')
    ensures s'.cap == s.cap && s'.producers.Keys == s.producers.Keys
  {
  }

  lemma {:induction false} RunKeepsInv(cap: nat, threads: set<Thread>, states: seq<State>, acts: seq<Action>, i: nat)
    requires Run(cap, threads, states, acts) && i < |states|
    ensures Inv(states[i]) && states[i].cap == cap && states[i].producers.Keys == threads
  {
    if i == 0 {
      InitInv(cap, threads);
    } else {
      RunKeepsInv(cap, threads, states, acts, i - 1);
      assert Step(states[i - 1], acts[i - 1], states[i]);
      StepKeepsInv(states[i - 1], acts[i - 1], states[i]);
      StepKeepsParties(states[i - 1], acts[i - 1], states[i]);
    }
  }

  // ---------------------------------------------------------------- reachable states

  ghost predicate EndsAt(cap: nat, threads: set<Thread>, states: seq<State>, acts: seq<Action>, s: State) {
    Run(cap, threads, states, acts) && states[|acts|] == s
  }

  /** Some run of a queue of this capacity with these producers ends in s. */
  ghost predicate Reachable(cap: nat, threads: set<Thread>, s: State) {
    exists states, acts :: EndsAt(cap, threads, states, acts, s)
  }

  lemma ReachableInv(cap: nat, threads: set<Thread>, s: State)
    requires Reachable(cap, threads, s)
    ensures Inv(s) && s.cap == cap && s.producers.Keys == threads
  {
    var states, acts :| EndsAt(cap, threads, states, acts, s);
    RunKeepsInv(cap, threads, states, acts, |acts|);
  }

  lemma ReachInit(cap: nat, threads: set<Thread>)
    requires 0 < cap < WORD
    ensures Reachable(cap, threads, Init(cap, threads))
  {
    assert EndsAt(cap, threads, [Init(cap, threads)], [], Init(cap, threads));
  }

  lemma ReachStep(cap: nat, threads: set<Thread>, s: State, a: Action, s': State)
    requires Reachable(cap, threads, s) && Step(s, a, s')
    ensures Reachable(cap, threads, s')
  {
    var states, acts :| EndsAt(cap, threads, states, acts, s);
    var states', acts' := states + [s'], acts + [a];
    forall i {:trigger acts'[i]} | 0 <= i < |acts'| ensures Step(states'[i], acts'[i], states'[i + 1]) {
      if i < |acts| {
        assert acts'[i] == acts[i];
      }
    }
    assert EndsAt(cap, threads, states', acts', s');
  }
}
