/**
 The bounded multi-producer, single-consumer ticket queue, as a transition system over
 sequentially consistent atomic steps. Any number of producers run `tryPush`, one consumer
 runs `popAll`; every shared load, store, compare-exchange or fetch-add is one step.
 */
module TicketQueue {
  import opened Common

  /** One slot of the buffer: its sequence number and its optional entry. */
  datatype Cell = Cell(number: nat, storage: Option<Entry>)

  /** The steps left to a producer that has won a ticket, by the next one. */
  datatype Phase = AwaitSlot | FillSlot | Publish | Count

  /** Where a producer stands in `tryPush(entry)`: about to load tail, about to load head
      having read tail t, about to reserve having read t and h, or holding ticket t. */
  datatype Producer =
    | Idle
    | LoadTail(entry: Entry)
    | LoadHead(entry: Entry, t: nat)
    | Reserve(entry: Entry, t: nat, h: nat)
    | Holding(entry: Entry, t: nat, phase: Phase)

  datatype DrainPhase = AwaitEntry | TakeEntry | FreeSlot

  /** Where the consumer stands in `popAll`: h and n are the head and the number of entries
      it read, i its loop index; `Discount` follows the store of the new head. */
  datatype Consumer =
    | Resting
    | ReadTail(h: nat)
    | Drain(h: nat, n: nat, i: nat, step: DrainPhase)
    | Discount(n: nat)

  /** Shared memory, local state, and history.
      `reserved[k]` is the entry of the producer that won ticket k, `returned[p]` what p's calls
      of `tryPush` returned true for, `delivered` the concatenated results of `popAll`. */
  datatype State = State(
    cap: nat, head: nat, tail: nat, size: nat, cells: seq<Cell>,
    producers: map<Thread, Producer>, consumer: Consumer, batch: seq<Entry>,
    reserved: seq<Entry>, returned: map<Thread, seq<Entry>>, delivered: seq<Entry>)

  datatype Action =
    | Call(p: Thread, text: string)
    | ProducerStep(p: Thread)
    | SpuriousFailure(p: Thread)
    | ConsumerStep
    | Stutter

  function Init(cap: nat, threads: set<Thread>): State {
    State(cap, 0, 0, 0, seq(cap, (i: nat) => Cell(i, None)), map p | p in threads :: Idle,
          Resting, [], [], map p | p in threads :: [], [])
  }

  predicate WellFormed(s: State) {
    && 0 < s.cap == |s.cells|
    && s.returned.Keys == s.producers.Keys
  }

  function CellOf(s: State, k: nat): Cell
    requires WellFormed(s)
  {
    s.cells[k % s.cap]
  }

  function SetCell(s: State, k: nat, c: Cell): seq<Cell>
    requires WellFormed(s)
  {
    s.cells[k % s.cap := c]
  }

  /** The spin loops are left only when the slot shows the awaited number. */
  predicate ProducerEnabled(s: State, p: Thread)
    requires WellFormed(s)
  {
    && p in s.producers
    && !s.producers[p].Idle?
    && (s.producers[p].Holding? && s.producers[p].phase == AwaitSlot ==>
          CellOf(s, s.producers[p].t).number == s.producers[p].t)
  }

  predicate ConsumerEnabled(s: State)
    requires WellFormed(s)
  {
    s.consumer.Drain? && s.consumer.step == AwaitEntry && s.consumer.i < s.consumer.n ==>
      CellOf(s, s.consumer.h + s.consumer.i).number == s.consumer.h + s.consumer.i + 1
  }

  predicate Enabled(s: State, a: Action)
    requires WellFormed(s)
  {
    match a
    case Call(p, _) => p in s.producers && s.producers[p].Idle?
    case ProducerStep(p) => ProducerEnabled(s, p)
    case SpuriousFailure(p) => p in s.producers && s.producers[p].Reserve?
    case ConsumerStep => ConsumerEnabled(s)
    case Stutter => true
  }

  function At(s: State, p: Thread, pc: Producer): State {
    s.(producers := s.producers[p := pc])
  }

  /** One step of `tryPush` by producer p. */
  function StepProducer(s: State, p: Thread): (s': State)
    requires WellFormed(s) && ProducerEnabled(s, p)
  {
    match s.producers[p]
    case LoadTail(e) => At(s, p, LoadHead(e, s.tail))
    case LoadHead(e, t) =>
      if WordSub(t, s.head) >= s.cap then At(s, p, Idle) else At(s, p, Reserve(e, t, s.head))
    case Reserve(e, t, _) =>
      if s.tail == t then
        At(s, p, Holding(e, t, AwaitSlot)).(tail := WordAdd(t, 1), reserved := s.reserved + [e])
      else
        At(s, p, LoadTail(e))
    case Holding(e, t, AwaitSlot) => At(s, p, Holding(e, t, FillSlot))
    case Holding(e, t, FillSlot) =>
      At(s, p, Holding(e, t, Publish)).(cells := SetCell(s, t, CellOf(s, t).(storage := Some(e))))
    case Holding(e, t, Publish) =>
      At(s, p, Holding(e, t, Count)).(cells := SetCell(s, t, CellOf(s, t).(number := t + 1)))
    case Holding(e, t, Count) =>
      At(s, p, Idle).(size := WordAdd(s.size, 1), returned := s.returned[p := s.returned[p] + [e]])
  }

  /** One step of `popAll`; `Resting` starts the next call, a finished loop stores the head. */
  function StepConsumer(s: State): (s': State)
    requires WellFormed(s) && ConsumerEnabled(s)
  {
    match s.consumer
    case Resting => s.(consumer := ReadTail(s.head), batch := [])
    case ReadTail(h) =>
      var n := if s.tail >= h then s.tail - h else 0;
      s.(consumer := if n == 0 then Resting else Drain(h, n, 0, AwaitEntry))
    case Drain(h, n, i, AwaitEntry) =>
      if i < n then s.(consumer := Drain(h, n, i, TakeEntry))
      else s.(consumer := Discount(n), head := h + n)
    case Drain(h, n, i, TakeEntry) =>
      var c := CellOf(s, h + i);
      s.(consumer := Drain(h, n, i, FreeSlot),
         batch := if c.storage.Some? then s.batch + [c.storage.value] else s.batch,
         cells := SetCell(s, h + i, c.(storage := None)))
    case Drain(h, n, i, FreeSlot) =>
      s.(consumer := Drain(h, n, i + 1, AwaitEntry),
         cells := SetCell(s, h + i, CellOf(s, h + i).(number := h + i + s.cap)))
    case Discount(n) =>
      s.(consumer := Resting, size := WordSub(s.size, n), delivered := s.delivered + s.batch, batch := [])
  }

  function Do(s: State, a: Action): (s': State)
    requires WellFormed(s) && Enabled(s, a)
  {
    match a
    case Call(p, text) => At(s, p, LoadTail(Entry(p, text)))
    case ProducerStep(p) => StepProducer(s, p)
    case SpuriousFailure(p) => At(s, p, LoadTail(s.producers[p].entry))
    case ConsumerStep => StepConsumer(s)
    case Stutter => s
  }

  /** Fewer than 2^64 - capacity tickets have been handed out. */
  predicate TicketsLeft(s: State) {
    s.tail + s.cap < WORD
  }

  predicate Step(s: State, a: Action, s': State) {
    WellFormed(s) && Enabled(s, a) && s' == Do(s, a) && TicketsLeft(s')
  }

  /** A finite run: the states visited and the actions between them. */
  ghost predicate Run(cap: nat, threads: set<Thread>, states: seq<State>, acts: seq<Action>) {
    && 0 < cap < WORD
    && |states| == |acts| + 1
    && states[0] == Init(cap, threads)
    && forall i {:trigger acts[i]} | 0 <= i < |acts| :: Step(states[i], acts[i], states[i + 1])
  }

  // ---------------------------------------------------------------- the invariant

  /** Between winning a ticket and publishing its slot. */
  predicate Unpublished(pc: Producer) {
    pc.Holding? && pc.phase != Count
  }

  /** The first ticket whose slot the consumer has not yet handed back. */
  function Oldest(s: State): nat {
    if s.consumer.Drain? then s.consumer.h + s.consumer.i else s.head
  }

  /** The producer of ticket k has won it and not yet published it. */
  predicate HeldUnpublished(s: State, k: nat) {
    && k < |s.reserved|
    && s.reserved[k].thread in s.producers
    && Unpublished(s.producers[s.reserved[k].thread])
    && s.producers[s.reserved[k].thread].t == k
  }

  /** The slot contents determined by the phase of ticket k. */
  function Expected(s: State, k: nat): Cell {
    if k >= |s.reserved| then
      Cell(k, None)
    else if HeldUnpublished(s, k) then
      Cell(k, if s.producers[s.reserved[k].thread].phase == Publish then Some(s.reserved[k]) else None)
    else if s.consumer.Drain? && s.consumer.step == FreeSlot && k == s.consumer.h + s.consumer.i then
      Cell(k + 1, None)
    else
      Cell(k + 1, Some(s.reserved[k]))
  }

  predicate SlotOk(s: State, k: nat) {
    WellFormed(s) && CellOf(s, k) == Expected(s, k)
  }

  predicate ProducerOk(s: State, p: Thread) {
    p in s.producers &&
    match s.producers[p]
    case Idle => true
    case LoadTail(e) => e.thread == p
    case LoadHead(e, t) => e.thread == p && t <= s.tail
    case Reserve(e, t, h) => e.thread == p && t <= s.tail && h <= s.head && t < h + s.cap
    case Holding(e, t, phase) =>
      e.thread == p && t < |s.reserved| && s.reserved[t] == e && (phase != Count ==> Oldest(s) <= t)
  }

  predicate ConsumerOk(s: State) {
    match s.consumer
    case Resting => s.batch == []
    case ReadTail(h) => h == s.head && s.batch == []
    case Drain(h, n, i, step) =>
      && h == s.head && i <= n && h + n <= |s.reserved|
      && (step != AwaitEntry ==> i < n && !HeldUnpublished(s, h + i))
      && s.batch == s.reserved[h..if step == FreeSlot then h + i + 1 else h + i]
    case Discount(n) => n <= s.head <= |s.reserved| && s.batch == s.reserved[s.head - n..s.head]
  }

  function Flying(s: State): set<Thread> {
    set p | p in s.producers && s.producers[p].Holding?
  }

  /** The entries already subtracted from the size counter. */
  function Discounted(s: State): int {
    if s.consumer.Discount? then s.head - s.consumer.n else s.head
  }

  /** The entry producer p has a ticket for but has not returned from. */
  function Pending(s: State, p: Thread): seq<Entry>
    requires p in s.producers
  {
    if s.producers[p].Holding? then [s.producers[p].entry] else []
  }

  /** Entries taken off the queue by calls that have stored the new head. */
  function Drained(s: State): seq<Entry> {
    if s.consumer.Discount? then s.delivered + s.batch else s.delivered
  }

  predicate Shape(s: State) {
    && WellFormed(s)
    && |s.reserved| == s.tail
    && TicketsLeft(s)
    && s.head <= Oldest(s) <= s.tail <= s.head + s.cap
    && forall k | 0 <= k < |s.reserved| :: s.reserved[k].thread in s.producers
  }

  ghost predicate SlotsOk(s: State) {
    forall k | Oldest(s) <= k < Oldest(s) + s.cap :: SlotOk(s, k)
  }

  ghost predicate ProducersOk(s: State) {
    forall p | p in s.producers :: ProducerOk(s, p)
  }

  ghost predicate OrderOk(s: State, p: Thread) {
    && p in s.producers && p in s.returned
    && ByThread(s.reserved, p) == s.returned[p] + Pending(s, p)
  }

  ghost predicate HistoryOk(s: State) {
    && s.head <= |s.reserved|
    && Drained(s) == s.reserved[..s.head]
    && forall p | p in s.producers :: OrderOk(s, p)
  }

  predicate SizeOk(s: State) {
    s.size == (s.tail - |Flying(s)| - Discounted(s)) % WORD
  }

  /** Who owns which ticket and what every slot holds. */
  ghost predicate Core(s: State) {
    Shape(s) && SlotsOk(s) && ProducersOk(s) && ConsumerOk(s)
  }

  /** What the history and the size counter record. */
  ghost predicate Ledger(s: State) {
    HistoryOk(s) && SizeOk(s)
  }

  ghost predicate Inv(s: State) {
    Core(s) && Ledger(s)
  }
}
