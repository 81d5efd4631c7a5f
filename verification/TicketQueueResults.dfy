/** What the ticket queue promises in every reachable state. */
module TicketQueueResults {
  import opened Common
  import opened TicketQueue
  import opened TicketQueueSafety

  /** Capacity safety: stale, separately read counters never let more than `cap` tickets out. */
  lemma CapacityNeverExceeded(cap: nat, threads: set<Thread>, s: State)
    requires Reachable(cap, threads, s)
    ensures s.head <= s.tail <= s.head + cap
  {
    ReachableInv(cap, threads, s);
  }

  /** Slot ownership: live tickets use different slots, and a ticket has one producer. */
  lemma TicketsAreExclusive(cap: nat, threads: set<Thread>, s: State)
    requires Reachable(cap, threads, s)
    ensures forall j, k | Oldest(s) <= j < k < s.tail :: j % cap != k % cap
    ensures forall p, q | p in s.producers && q in s.producers && p != q
                            && s.producers[p].Holding? && s.producers[q].Holding? ::
                        s.producers[p].t != s.producers[q].t
  {
    ReachableInv(cap, threads, s);
    forall j, k | Oldest(s) <= j < k < s.tail ensures j % cap != k % cap {
      SlotsDiffer(cap, j, k);
    }
    forall p | p in s.producers ensures ProducerOk(s, p) {
    }
  }

  /** The slot of every ticket in the window shows exactly how far that ticket has come: free for
      it, filled, published, or taken; a published one offers its producer's entry. */
  lemma SlotShowsPhase(cap: nat, threads: set<Thread>, s: State, k: nat)
    requires Reachable(cap, threads, s) && Oldest(s) <= k < Oldest(s) + cap
    ensures WellFormed(s) && |s.reserved| == s.tail
    ensures k >= s.tail ==> CellOf(s, k) == Cell(k, None)
    ensures k < s.tail && HeldUnpublished(s, k) ==>
              var pc := s.producers[s.reserved[k].thread];
              pc.entry == s.reserved[k] &&
              CellOf(s, k) == Cell(k, if pc.phase == Publish then Some(pc.entry) else None)
    ensures k < s.tail && !HeldUnpublished(s, k) ==>
              var taken := s.consumer.Drain? && s.consumer.step == FreeSlot && k == Oldest(s);
              CellOf(s, k) == Cell(k + 1, if taken then None else Some(s.reserved[k]))
  {
    ReachableInv(cap, threads, s);
    assert SlotOk(s, k);
    if k < s.tail && HeldUnpublished(s, k) {
      assert ProducerOk(s, s.reserved[k].thread);
    }
  }

  /** The wait of `tryPush` for its slot is over before it begins, whatever the capacity. */
  lemma ProducerNeverSpins(cap: nat, threads: set<Thread>, s: State, p: Thread)
    requires Reachable(cap, threads, s)
    requires p in s.producers && s.producers[p].Holding?
    ensures WellFormed(s) && ProducerEnabled(s, p)
  {
    ReachableInv(cap, threads, s);
    if Unpublished(s.producers[p]) {
      SlotAlreadyFree(s, p);
    }
  }

  /** Nothing lost, duplicated or reordered: what the finished and finishing calls of `popAll`
      returned is the entries of tickets 0..head-1 in ticket order, and per thread a prefix of
      the entries it pushed, in push order. */
  lemma DeliveredInTicketOrder(cap: nat, threads: set<Thread>, s: State, p: Thread)
    requires Reachable(cap, threads, s) && p in threads
    ensures s.head <= |s.reserved| == s.tail && Drained(s) == s.reserved[..s.head]
    ensures p in s.producers && p in s.returned
    ensures ByThread(Drained(s), p) <= s.returned[p] + Pending(s, p)
    ensures ByThread(s.delivered, p) <= s.returned[p] + Pending(s, p)
  {
    ReachableInv(cap, threads, s);
    assert OrderOk(s, p);
    ByThreadPrefix(s.reserved, s.head, p);
    assert s.delivered == s.reserved[..|s.delivered|];
    ByThreadPrefix(s.reserved, |s.delivered|, p);
  }

  /** When nobody is inside the queue and it has been drained, each thread's delivered entries
      are exactly those its calls of `tryPush` returned true for. */
  lemma NothingLostAtRest(cap: nat, threads: set<Thread>, s: State, p: Thread)
    requires Reachable(cap, threads, s) && p in threads
    requires s.consumer.Resting? && s.head == s.tail
    requires p in s.producers && s.producers[p].Idle?
    ensures p in s.returned && ByThread(s.delivered, p) == s.returned[p]
  {
    ReachableInv(cap, threads, s);
    assert OrderOk(s, p);
    assert s.reserved[..s.head] == s.reserved;
  }

  // ---------------------------------------------------------------- refinement

  /** The queue as its users see it: what waits, and what has been taken. */
  datatype Fifo = Fifo(waiting: seq<Entry>, taken: seq<Entry>)

  /** The first ticket no call of `popAll` has claimed: a call claims every ticket there is when it
      loads the tail. */
  function Claimed(s: State): nat {
    if s.consumer.Drain? then s.consumer.h + s.consumer.n else s.head
  }

  function Abstract(s: State): Fifo
    requires Claimed(s) <= |s.reserved|
  {
    Fifo(s.reserved[Claimed(s)..], s.reserved[..Claimed(s)])
  }

  predicate Appends(cap: nat, a: Fifo, b: Fifo, e: Entry) {
    |a.waiting| < cap && b == Fifo(a.waiting + [e], a.taken)
  }

  predicate TakesAll(a: Fifo, b: Fifo) {
    b == Fifo([], a.taken + a.waiting)
  }

  lemma ClaimedIsReserved(s: State)
    requires Inv(s)
    ensures s.head <= Claimed(s) <= |s.reserved| == s.tail <= s.head + s.cap
  {
  }

  /** A compare-exchange that succeeds finds room, whatever was read before it. */
  lemma WinsBelowCapacity(s: State, p: Thread)
    requires Inv(s) && p in s.producers && s.producers[p].Reserve? && s.producers[p].t == s.tail
    ensures s.tail < s.head + s.cap
  {
    assert ProducerOk(s, p);
  }

  lemma ProducerEffect(s: State, p: Thread)
    requires WellFormed(s) && ProducerEnabled(s, p) && s.tail + 1 < WORD
    ensures var s' := StepProducer(s, p);
      && Claimed(s') == Claimed(s)
      && (s'.tail == s.tail ==> s'.reserved == s.reserved)
      && (s'.tail != s.tail ==>
            && s.producers[p].Reserve? && s.producers[p].t == s.tail
            && s'.reserved == s.reserved + [s.producers[p].entry])
  {
  }

  lemma AppendedAtEnd(cap: nat, s: State, s': State, e: Entry)
    requires s.head <= Claimed(s) == Claimed(s') <= |s.reserved| < s.head + cap && s'.reserved == s.reserved + [e]
    ensures Appends(cap, Abstract(s), Abstract(s'), e)
  {
    assert s'.reserved[..Claimed(s)] == s.reserved[..Claimed(s)];
  }

  lemma ProducerRefinesFifo(s: State, p: Thread)
    requires Inv(s) && ProducerEnabled(s, p) && TicketsLeft(StepProducer(s, p))
    ensures var s' := StepProducer(s, p);
      && Claimed(s) <= |s.reserved| && Claimed(s') <= |s'.reserved|
      && if s'.tail != s.tail then Appends(s.cap, Abstract(s), Abstract(s'), s.producers[p].entry)
         else Abstract(s') == Abstract(s)
  {
    ClaimedIsReserved(s);
    ProducerEffect(s, p);
    if StepProducer(s, p).tail != s.tail {
      WinsBelowCapacity(s, p);
      AppendedAtEnd(s.cap, s, StepProducer(s, p), s.producers[p].entry);
    }
  }

  lemma TailLoadTakesAll(s: State)
    requires WellFormed(s) && s.consumer.ReadTail? && s.consumer.h == s.head <= |s.reserved| == s.tail
    ensures ConsumerEnabled(s)
    ensures var s' := StepConsumer(s); Claimed(s') == |s'.reserved| && TakesAll(Abstract(s), Abstract(s'))
  {
    assert s.reserved[..s.head] + s.reserved[s.head..] == s.reserved;
    assert s.reserved[..s.tail] == s.reserved;
  }

  lemma ConsumerRefinesFifo(s: State)
    requires Inv(s) && ConsumerEnabled(s)
    ensures var s' := StepConsumer(s);
      && s'.tail == s.tail
      && Claimed(s) <= |s.reserved| && Claimed(s') <= |s'.reserved|
      && if s.consumer.ReadTail? then TakesAll(Abstract(s), Abstract(s')) else Abstract(s') == Abstract(s)
  {
    ClaimedIsReserved(s);
    if s.consumer.ReadTail? {
      TailLoadTakesAll(s);
    }
  }

  /** What a step means to the users of the queue. */
  predicate FifoStep(cap: nat, s: State, a: Action, s': State)
    requires Claimed(s) <= |s.reserved| && Claimed(s') <= |s'.reserved|
    requires a.ProducerStep? ==> a.p in s.producers && !s.producers[a.p].Idle?
  {
    if a.ProducerStep? && s'.tail != s.tail then Appends(cap, Abstract(s), Abstract(s'), s.producers[a.p].entry)
    else if a.ConsumerStep? && s.consumer.ReadTail? then TakesAll(Abstract(s), Abstract(s'))
    else Abstract(s') == Abstract(s)
  }

  /** Refinement: every atomic step of the protocol is a step of the bounded FIFO in which `popAll`
      is atomic. Winning a ticket appends that producer's entry below capacity, the load of tail
      takes all that waits, and no other step is seen. */
  lemma StepRefinesFifo(cap: nat, threads: set<Thread>, s: State, a: Action, s': State)
    requires Reachable(cap, threads, s) && Step(s, a, s')
    ensures Claimed(s) <= |s.reserved| && Claimed(s') <= |s'.reserved|
    ensures s'.tail != s.tail ==> a.ProducerStep?
    ensures FifoStep(cap, s, a, s')
  {
    ReachableInv(cap, threads, s);
    ClaimedIsReserved(s);
    match a
    case ProducerStep(p) => ProducerRefinesFifo(s, p);
    case ConsumerStep => ConsumerRefinesFifo(s);
    case _ =>
  }

  /** And what `popAll` took it returns: when it stores the new head its result is, in order, the
      entries it claimed and no other call did. */
  lemma ReturnsWhatItClaimed(cap: nat, threads: set<Thread>, s: State, s': State)
    requires Reachable(cap, threads, s) && Step(s, ConsumerStep, s')
    requires s.consumer.Drain? && s'.consumer.Discount?
    ensures s.head <= Claimed(s) <= |s.reserved| && s'.batch == s.reserved[s.head..Claimed(s)]
    ensures s'.head == Claimed(s') == Claimed(s) && s'.reserved == s.reserved
  {
    ReachableInv(cap, threads, s);
  }

  // ---------------------------------------------------------------- refusals

  /** When `tryPush` refuses: exactly when the queue is full at the moment head is loaded, or
      head has overtaken the tail this producer read. */
  lemma RefusesExactlyWhen(cap: nat, threads: set<Thread>, s: State, p: Thread)
    requires Reachable(cap, threads, s) && p in s.producers && s.producers[p].LoadHead?
    ensures WellFormed(s) && ProducerEnabled(s, p)
    ensures StepProducer(s, p).producers[p].Idle?
       <==> s.producers[p].t == s.tail == s.head + cap || s.producers[p].t < s.head
  {
    ReachableInv(cap, threads, s);
    assert ProducerOk(s, p);
    FullGuard(s.producers[p].t, s.head, cap);
  }

  ghost predicate Reach(s: State) {
    Reachable(1, {0, 1}, s)
  }

  lemma Then(s: State, a: Action, s': State)
    requires Reach(s) && Step(s, a, s')
    ensures Reach(s')
  {
    ReachStep(1, {0, 1}, s, a, s');
  }

  const early := Entry(0, "early")
  const late := Entry(1, "late")

  /** Producer 0 has read tail 0 and dawdles while producer 1 pushes a complete entry. */
  lemma OnePushBehindAStaleTail() returns (s: State)
    ensures Reach(s) && s.consumer.Resting? && s.head == 0 && s.tail == 1 && s.cap == 1
    ensures s.producers == map[0 := LoadHead(early, 0), 1 := Idle]
    ensures s.cells == [Cell(1, Some(late))]
  {
    s := DawdlingProducer();
    s := WinTicket(s);
    s := FinishPush(s);
  }

  lemma DawdlingProducer() returns (s: State)
    ensures Reach(s) && WellFormed(s) && s.cap == 1 && s.consumer.Resting? && s.head == 0 && s.tail == 0
    ensures s.producers == map[0 := LoadHead(early, 0), 1 := LoadTail(late)]
    ensures s.cells == [Cell(0, None)]
  {
    s := Init(1, {0, 1});
    ReachInit(1, {0, 1});
    var s1 := Do(s, Call(0, "early")); Then(s, Call(0, "early"), s1);
    var s2 := Do(s1, ProducerStep(0)); Then(s1, ProducerStep(0), s2);
    s := Do(s2, Call(1, "late")); Then(s2, Call(1, "late"), s);
  }

  lemma WinTicket(s: State) returns (s': State)
    requires Reach(s) && WellFormed(s) && s.cap == 1 && s.consumer.Resting? && s.head == 0 && s.tail == 0
    requires s.producers == map[0 := LoadHead(early, 0), 1 := LoadTail(late)]
    requires s.cells == [Cell(0, None)]
    ensures Reach(s') && WellFormed(s') && s'.cap == 1 && s'.consumer.Resting? && s'.head == 0 && s'.tail == 1
    ensures s'.producers == map[0 := LoadHead(early, 0), 1 := Holding(late, 0, AwaitSlot)]
    ensures s'.cells == [Cell(0, None)]
  {
    var s1 := Do(s, ProducerStep(1)); Then(s, ProducerStep(1), s1);
    var s2 := Do(s1, ProducerStep(1)); Then(s1, ProducerStep(1), s2);
    s' := Do(s2, ProducerStep(1)); Then(s2, ProducerStep(1), s');
  }

  lemma FinishPush(s: State) returns (s': State)
    requires Reach(s) && WellFormed(s) && s.cap == 1 && s.consumer.Resting? && s.head == 0 && s.tail == 1
    requires s.producers == map[0 := LoadHead(early, 0), 1 := Holding(late, 0, AwaitSlot)]
    requires s.cells == [Cell(0, None)]
    ensures Reach(s') && s'.consumer.Resting? && s'.head == 0 && s'.tail == 1 && s'.cap == 1
    ensures s'.producers == map[0 := LoadHead(early, 0), 1 := Idle]
    ensures s'.cells == [Cell(1, Some(late))]
  {
    var s1 := Do(s, ProducerStep(1)); Then(s, ProducerStep(1), s1);
    var s2 := Do(s1, ProducerStep(1)); Then(s1, ProducerStep(1), s2);
    var s3 := Do(s2, ProducerStep(1)); Then(s2, ProducerStep(1), s3);
    s' := Do(s3, ProducerStep(1)); Then(s3, ProducerStep(1), s');
  }

  /** Refused though empty: with one slot and two producers, a producer that read the tail before
      another's entry was pushed and popped is turned away from an empty queue. */
  lemma RefusedThoughEmpty() returns (s: State)
    ensures Reachable(1, {0, 1}, s) && WellFormed(s) && s.consumer.Resting? && s.head == s.tail
    ensures ProducerEnabled(s, 0) && s.producers[0] == LoadHead(early, 0)
    ensures StepProducer(s, 0).producers[0].Idle?
  {
    s := OnePushBehindAStaleTail();
    ReachableInv(1, {0, 1}, s);
    var s1 := Do(s, ConsumerStep); Then(s, ConsumerStep, s1);
    var s2 := Do(s1, ConsumerStep); Then(s1, ConsumerStep, s2);
    var s3 := Do(s2, ConsumerStep); Then(s2, ConsumerStep, s3);
    var s4 := Do(s3, ConsumerStep); Then(s3, ConsumerStep, s4);
    var s5 := Do(s4, ConsumerStep); Then(s4, ConsumerStep, s5);
    var s6 := Do(s5, ConsumerStep); Then(s5, ConsumerStep, s6);
    s := Do(s6, ConsumerStep); Then(s6, ConsumerStep, s);
    RefusesExactlyWhen(1, {0, 1}, s, 0);
  }

  // ---------------------------------------------------------------- the size counter

  /** The number of entries counted and not yet discounted, as an unbounded integer. */
  function TrueSize(s: State): int {
    s.tail - |Flying(s)| - Discounted(s)
  }

  /** The counter is right modulo 2^64, may dip below zero by the producers still in flight, and
      equals tail - head when nobody is inside. */
  lemma SizeAccounting(cap: nat, threads: set<Thread>, s: State)
    requires Reachable(cap, threads, s)
    ensures s.size == TrueSize(s) % WORD
    ensures -|Flying(s)| <= TrueSize(s)
    ensures Flying(s) == {} && !s.consumer.Discount? ==> s.size == s.tail - s.head <= cap
  {
    ReachableInv(cap, threads, s);
    if Flying(s) == {} && !s.consumer.Discount? {
      assert TrueSize(s) == s.tail - s.head;
      SlotOf(WORD, 0, s.tail - s.head, s.tail - s.head);
    }
  }
}
