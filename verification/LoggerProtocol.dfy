/**
 The asynchronous logger as a step protocol: logging threads, the background writer and the
 thread that shuts the logger down, over a queue, an overflow ring and a semaphore.
 Operations of the queue and of the ring are single steps; a flush is not: its two drains and
 every write are separate steps, and only flushes exclude one another.
 */
module LoggerProtocol {
  import opened Common

  /** The num-th message of a thread that passed the level check. */
  datatype Message = Message(thread: Thread, num: nat)

  /** Where a thread stands in `log` or `flush`, by its next step. */
  datatype Caller =
    | Idle
    | Offer(m: Message)
    | Signal
    | Spill(m: Message)
    | Flushing

  /** The writer's loop: test stop, acquire, test stop again, flush. */
  datatype Writer = Check | Acquire | Recheck | WriterFlush(last: bool) | Done

  /** `deinitialize`: request stop, release, join, last flush. */
  datatype Closer = Open | Stopping | Joining | LastFlush | Closed

  datatype Party = Logging(t: Thread) | TheWriter | TheCloser

  /** The flush in progress, if any, and the entries it has taken and not yet written. */
  datatype Flush = NoFlush | QueueTaken(who: Party, batch: seq<Message>) | Writing(who: Party, batch: seq<Message>)

  datatype State = State(
    cap: nat, semMax: nat, queue: seq<Message>, ring: seq<Message>, sem: nat,
    callers: map<Thread, Caller>, issued: map<Thread, nat>, writer: Writer, closer: Closer,
    flush: Flush, file: seq<Message>, dropped: seq<Message>, lateAcquires: nat)

  function Init(cap: nat, semMax: nat, threads: set<Thread>): State {
    State(cap, semMax, [], [], 0, map t | t in threads :: Idle, map t | t in threads :: 0,
          Check, Open, NoFlush, [], [], 0)
  }

  datatype Action =
    | Log(t: Thread)
    | CallFlush(t: Thread)
    | PushQueue(t: Thread)
    | RefuseQueue(t: Thread)
    | Release(t: Thread)
    | PushRing(t: Thread)
    | WriterStep
    | CloserStep
    | TakeQueue(who: Party)
    | TakeRing
    | WriteOne
    | EndFlush

  predicate Stop(s: State) {
    !s.closer.Open?
  }

  predicate WantsFlush(s: State, who: Party) {
    match who
    case Logging(t) => t in s.callers && s.callers[t].Flushing?
    case TheWriter => s.writer.WriterFlush?
    case TheCloser => s.closer.LastFlush?
  }

  /** The queue may refuse even when it is not full: a stale tail makes it do so. */
  predicate Enabled(s: State, a: Action) {
    s.callers.Keys == s.issued.Keys &&
    match a
    case Log(t) => t in s.callers && s.callers[t].Idle? && !s.closer.Closed?
    case CallFlush(t) => t in s.callers && s.callers[t].Idle?
    case PushQueue(t) => t in s.callers && s.callers[t].Offer? && |s.queue| < s.cap
    case RefuseQueue(t) => t in s.callers && s.callers[t].Offer?
    case Release(t) => t in s.callers && s.callers[t].Signal?
    case PushRing(t) => t in s.callers && s.callers[t].Spill?
    case WriterStep =>
      s.writer.Check? || s.writer.Recheck? || (s.writer.Acquire? && s.sem > 0)
    case CloserStep =>
      s.closer.Open? || s.closer.Stopping? || (s.closer.Joining? && s.writer.Done?)
    case TakeQueue(who) => s.flush.NoFlush? && WantsFlush(s, who)
    case TakeRing => s.flush.QueueTaken?
    case WriteOne => s.flush.Writing? && s.flush.batch != []
    case EndFlush => s.flush.Writing? && s.flush.batch == []
  }

  function At(s: State, t: Thread, pc: Caller): State {
    s.(callers := s.callers[t := pc])
  }

  /** The semaphore count saturates at its maximum. */
  function Released(s: State): nat {
    if s.sem < s.semMax then s.sem + 1 else s.sem
  }

  function Do(s: State, a: Action): State
    requires Enabled(s, a)
  {
    match a
    case Log(t) =>
      At(s, t, Offer(Message(t, s.issued[t]))).(issued := s.issued[t := s.issued[t] + 1])
    case CallFlush(t) => At(s, t, Flushing)
    case PushQueue(t) => At(s, t, Signal).(queue := s.queue + [s.callers[t].m])
    case RefuseQueue(t) => At(s, t, Spill(s.callers[t].m))
    case Release(t) => At(s, t, Idle).(sem := Released(s))
    case PushRing(t) =>
      if |s.ring| < s.cap then At(s, t, Flushing).(ring := s.ring + [s.callers[t].m])
      else At(s, t, Idle).(dropped := s.dropped + [s.callers[t].m])
    case WriterStep => DoWriter(s)
    case CloserStep => DoCloser(s)
    case TakeQueue(who) => s.(flush := QueueTaken(who, s.queue), queue := [])
    case TakeRing => s.(flush := Writing(s.flush.who, s.flush.batch + s.ring), ring := [])
    case WriteOne =>
      s.(flush := Writing(s.flush.who, s.flush.batch[1..]), file := s.file + [s.flush.batch[0]])
    case EndFlush => DoEndFlush(s, s.flush.who)
  }

  function DoWriter(s: State): State {
    match s.writer
    case Check => s.(writer := if Stop(s) then Done else Acquire)
    case Acquire =>
      s.(writer := Recheck, sem := if s.sem > 0 then s.sem - 1 else 0,
         lateAcquires := s.lateAcquires + if Stop(s) then 1 else 0)
    case Recheck => s.(writer := WriterFlush(Stop(s)))
    case _ => s
  }

  function DoCloser(s: State): State {
    match s.closer
    case Open => s.(closer := Stopping)
    case Stopping => s.(closer := Joining, sem := Released(s))
    case Joining => s.(closer := LastFlush)
    case _ => s
  }

  function DoEndFlush(s: State, who: Party): State {
    match who
    case Logging(t) => At(s, t, Idle).(flush := NoFlush)
    case TheWriter =>
      s.(flush := NoFlush, writer := if s.writer == WriterFlush(true) then Done else Check)
    case TheCloser => s.(flush := NoFlush, closer := Closed)
  }

  predicate Step(s: State, a: Action, s': State) {
    Enabled(s, a) && s' == Do(s, a)
  }

  ghost predicate Run(cap: nat, semMax: nat, threads: set<Thread>, states: seq<State>, acts: seq<Action>) {
    && 0 < cap && 0 < semMax
    && |states| == |acts| + 1
    && states[0] == Init(cap, semMax, threads)
    && forall i {:trigger acts[i]} | 0 <= i < |acts| :: Step(states[i], acts[i], states[i + 1])
  }

  // ---------------------------------------------------------------- vocabulary

  function Batch(s: State): seq<Message> {
    if s.flush.NoFlush? then [] else s.flush.batch
  }

  /** All accepted messages, in the order in which they will stand in the file if nothing moves. */
  function Pipeline(s: State): seq<Message> {
    s.file + Batch(s) + s.queue + s.ring
  }

  /** Thread t has m in hand, between the level check and the outcome of its pushes. */
  predicate InHand(s: State, m: Message) {
    && m.thread in s.callers
    && (s.callers[m.thread] == Offer(m) || s.callers[m.thread] == Spill(m))
  }

  predicate Issued(s: State, m: Message) {
    m.thread in s.issued && m.num < s.issued[m.thread]
  }

  /** t has called `flush` (for its own ring entry or on its own) and has not drained the ring. */
  predicate OwesRingDrain(s: State, t: Thread) {
    && t in s.callers && s.callers[t].Flushing?
    && !(s.flush.Writing? && s.flush.who == Logging(t))
  }

  // ---------------------------------------------------------------- invariants

  predicate OwnerOk(s: State) {
    !s.flush.NoFlush? ==> WantsFlush(s, s.flush.who)
  }

  /** A thread has its own latest message in hand. */
  ghost predicate HandsOk(s: State) {
    forall t | t in s.callers :: HandOk(s, t)
  }

  predicate HandOk(s: State, t: Thread) {
    && t in s.callers && t in s.issued
    && (s.callers[t].Offer? || s.callers[t].Spill? ==>
          s.callers[t].m.thread == t && s.callers[t].m.num + 1 == s.issued[t])
  }

  /** Every ring entry belongs to a thread that still owes its own ring drain, one each. */
  ghost predicate RingOk(s: State) {
    && (forall i | 0 <= i < |s.ring| :: OwesRingDrain(s, s.ring[i].thread))
    && (forall i, j | 0 <= i < j < |s.ring| :: s.ring[i].thread != s.ring[j].thread)
  }

  function Copies(s: State, m: Message): nat {
    multiset(Pipeline(s))[m] + multiset(s.dropped)[m] + if InHand(s, m) then 1 else 0
  }

  /** Each issued message is in exactly one place, and nothing else is anywhere. */
  ghost predicate ExactlyOnce(s: State) {
    forall m :: OnceOk(s, m)
  }

  predicate OnceOk(s: State, m: Message) {
    Copies(s, m) == if Issued(s, m) then 1 else 0
  }

  ghost predicate SomeoneSignals(s: State) {
    exists t :: t in s.callers && s.callers[t].Signal?
  }

  /** The writer has acquired and has not yet taken the queue. */
  predicate WriterComing(s: State) {
    || s.writer.Recheck?
    || (s.writer.WriterFlush? && !(!s.flush.NoFlush? && s.flush.who == TheWriter))
  }

  ghost predicate WakeupOk(s: State) {
    s.queue != [] ==> s.sem > 0 || SomeoneSignals(s) || WriterComing(s)
  }

  predicate ShutdownOk(s: State) {
    && s.semMax > 0
    && (s.closer.Joining? && s.writer.Acquire? ==> s.sem > 0)
    && (s.closer.LastFlush? || s.closer.Closed? ==> s.writer.Done?)
    && (s.writer.Done? || s.writer == WriterFlush(true) ==> Stop(s))
    && (s.lateAcquires > 0 ==>
          s.lateAcquires == 1 && Stop(s) && (s.writer.Recheck? || s.writer == WriterFlush(true) || s.writer.Done?))
  }

  ghost predicate Inv(s: State) {
    && s.callers.Keys == s.issued.Keys
    && OwnerOk(s) && HandsOk(s) && RingOk(s) && ExactlyOnce(s) && WakeupOk(s) && ShutdownOk(s)
  }
}
