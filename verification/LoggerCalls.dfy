/** What a call has done when it returns: a flush by anybody has written all there was. */
module LoggerCalls {
  import opened Common
  import opened LoggerProtocol
  import opened LoggerSafety

  // ---------------------------------------------------------------- flushes

  /** Somebody has begun what ends with a flush of its own, and has not ended it. */
  predicate Asks(s: State, who: Party) {
    match who
    case Logging(t) => t in s.callers && s.callers[t].Flushing?
    case TheWriter => s.writer.Recheck? || s.writer.WriterFlush?
    case TheCloser => s.closer.Stopping? || s.closer.Joining? || s.closer.LastFlush?
  }

  /** Where m may be while `who` flushes: what is left for it to write, or the file. */
  predicate Promises(s: State, who: Party, m: Message) {
    if !Asks(s, who) then m in s.file
    else if s.flush.NoFlush? || s.flush.who != who then m in Pipeline(s)
    else m in s.file || m in s.flush.batch || (s.flush.QueueTaken? && m in s.ring)
  }

  lemma PipelineKeeps(s: State, a: Action, m: Message)
    requires Enabled(s, a) && m in Pipeline(s)
    ensures m in Pipeline(Do(s, a))
  {
    PipelineAfter(s, a);
    assert m in multiset(Pipeline(s));
    assert m in multiset(Pipeline(Do(s, a)));
  }

  lemma FileIsFirst(s: State, m: Message)
    ensures m in s.file ==> m in Pipeline(s)
    ensures m in Pipeline(s) <==> m in s.file || m in Batch(s) || m in s.queue || m in s.ring
  {
  }

  lemma PromiseKept(s: State, a: Action, who: Party, m: Message)
    requires OwnerOk(s) && Enabled(s, a) && Promises(s, who, m)
    ensures Promises(Do(s, a), who, m)
  {
    var s' := Do(s, a);
    FileIsFirst(s, m);
    FileIsFirst(s', m);
    if m in Pipeline(s) {
      PipelineKeeps(s, a, m);
    }
    if a.WriteOne? {
      assert s.flush.batch == [s.flush.batch[0]] + s.flush.batch[1..];
    }
  }

  lemma {:induction false} PromiseKeptTo(cap: nat, semMax: nat, threads: set<Thread>,
                                         states: seq<State>, acts: seq<Action>, i: nat, j: nat, who: Party, m: Message)
    requires Run(cap, semMax, threads, states, acts) && i <= j < |states|
    requires Promises(states[i], who, m)
    ensures Promises(states[j], who, m)
  {
    if i < j {
      PromiseKeptTo(cap, semMax, threads, states, acts, i, j - 1, who, m);
      RunKeepsInv(cap, semMax, threads, states, acts, j - 1);
      assert Step(states[j - 1], acts[j - 1], states[j]);
      PromiseKept(states[j - 1], acts[j - 1], who, m);
    }
  }

  /** The action that commits `who` to a flush of its own. */
  predicate Begins(s: State, a: Action, who: Party) {
    match who
    case Logging(t) => a == CallFlush(t) || (a == PushRing(t) && |s.ring| < s.cap)
    case TheWriter => a == WriterStep && s.writer.Acquire?
    case TheCloser => a == CloserStep && s.closer.Open?
  }

  lemma BeginsWithPromise(s: State, a: Action, who: Party, m: Message)
    requires OwnerOk(s) && Enabled(s, a) && Begins(s, a, who) && m in Pipeline(Do(s, a))
    ensures Promises(Do(s, a), who, m)
  {
  }

  /** Whoever begins a flush - a caller of `flush`, a thread whose message went to the ring, the
      writer with a permit, or `deinitialize` with its stop request - when it is through, whatever
      the others did meanwhile, every message accepted before it began is in the file. */
  lemma FlushWritesAll(cap: nat, semMax: nat, threads: set<Thread>,
                       states: seq<State>, acts: seq<Action>, i: nat, j: nat, who: Party, m: Message)
    requires Run(cap, semMax, threads, states, acts) && i < j < |states|
    requires Begins(states[i], acts[i], who) && !Asks(states[j], who)
    requires m in Pipeline(states[i])
    ensures m in states[j].file
  {
    RunKeepsInv(cap, semMax, threads, states, acts, i);
    assert Step(states[i], acts[i], states[i + 1]);
    PipelineKeeps(states[i], acts[i], m);
    BeginsWithPromise(states[i], acts[i], who, m);
    PromiseKeptTo(cap, semMax, threads, states, acts, i + 1, j, who, m);
  }

  /** So when `flush` has returned to thread t, all that was there when t called it is written. */
  lemma CalledFlushWritesAll(cap: nat, semMax: nat, threads: set<Thread>,
                             states: seq<State>, acts: seq<Action>, i: nat, j: nat, t: Thread, m: Message)
    requires Run(cap, semMax, threads, states, acts) && i < j < |states|
    requires acts[i] == CallFlush(t) && t in states[j].callers && states[j].callers[t].Idle?
    requires m in Pipeline(states[i])
    ensures m in states[j].file
  {
    FlushWritesAll(cap, semMax, threads, states, acts, i, j, Logging(t), m);
  }

  /** And when `log` has returned to a thread whose message found room in the ring only, that message
      and all accepted before it are written. */
  lemma OverflowIsWritten(cap: nat, semMax: nat, threads: set<Thread>,
                          states: seq<State>, acts: seq<Action>, i: nat, j: nat, t: Thread, m: Message)
    requires Run(cap, semMax, threads, states, acts) && i < j < |states|
    requires acts[i] == PushRing(t) && |states[i].ring| < cap && t in states[j].callers && states[j].callers[t].Idle?
    requires t in states[i].callers && states[i].callers[t].Spill?
    requires m in Pipeline(states[i]) || m == states[i].callers[t].m
    ensures m in states[j].file
  {
    RunKeepsInv(cap, semMax, threads, states, acts, i);
    var s, s' := states[i], states[i + 1];
    assert Step(s, acts[i], s');
    FileIsFirst(s', m);
    if m in Pipeline(s) {
      PipelineKeeps(s, acts[i], m);
    }
    BeginsWithPromise(s, acts[i], Logging(t), m);
    PromiseKeptTo(cap, semMax, threads, states, acts, i + 1, j, Logging(t), m);
  }

  /** Whatever goes on around it, when `deinitialize` has returned every message accepted by the time
      of its stop request is in the file. */
  lemma ClosingWritesAll(cap: nat, semMax: nat, threads: set<Thread>,
                         states: seq<State>, acts: seq<Action>, i: nat, j: nat, m: Message)
    requires Run(cap, semMax, threads, states, acts) && i < j < |states|
    requires states[i].closer.Open? && acts[i] == CloserStep && states[j].closer.Closed?
    requires m in Pipeline(states[i])
    ensures m in states[j].file
  {
    FlushWritesAll(cap, semMax, threads, states, acts, i, j, TheCloser, m);
  }

  // ---------------------------------------------------------------- capacities

  predicate Fits(s: State) {
    |s.queue| <= s.cap && |s.ring| <= s.cap && s.sem <= s.semMax
  }

  lemma KeepsFits(s: State, a: Action)
    requires Enabled(s, a) && Fits(s)
    ensures Fits(Do(s, a))
  {
  }

  /** Queue and ring never hold more than the capacity, nor the semaphore more than its maximum. */
  lemma {:induction false} BuffersFit(cap: nat, semMax: nat, threads: set<Thread>,
                                      states: seq<State>, acts: seq<Action>, i: nat)
    requires Run(cap, semMax, threads, states, acts) && i < |states|
    ensures |states[i].queue| <= cap && |states[i].ring| <= cap && states[i].sem <= semMax
  {
    RunKeepsInv(cap, semMax, threads, states, acts, i);
    if i > 0 {
      BuffersFit(cap, semMax, threads, states, acts, i - 1);
      RunKeepsInv(cap, semMax, threads, states, acts, i - 1);
      assert Step(states[i - 1], acts[i - 1], states[i]);
      KeepsFits(states[i - 1], acts[i - 1]);
    }
  }

  // ---------------------------------------------------------------- signals

  function Count(acts: seq<Action>, a: Action): nat {
    if acts == [] then 0
    else Count(acts[..|acts| - 1], a) + if acts[|acts| - 1] == a then 1 else 0
  }

  lemma CountOneMore(acts: seq<Action>, n: nat, a: Action)
    requires n < |acts|
    ensures Count(acts[..n + 1], a) == Count(acts[..n], a) + if acts[n] == a then 1 else 0
  {
    assert acts[..n + 1][..n] == acts[..n];
  }

  predicate Signalling(s: State, t: Thread) {
    t in s.callers && s.callers[t].Signal?
  }

  lemma SignalStep(s: State, a: Action, t: Thread)
    requires OwnerOk(s) && Enabled(s, a)
    ensures a == PushQueue(t) ==> !Signalling(s, t) && Signalling(Do(s, a), t)
    ensures a == Release(t) ==> Signalling(s, t) && !Signalling(Do(s, a), t)
    ensures a != PushQueue(t) && a != Release(t) ==> (Signalling(s, t) <==> Signalling(Do(s, a), t))
  {
  }

  /** Every push to the queue is followed by exactly one release of the pushing thread, and nothing
      else makes a thread release: not a flush, and not a message that went to the ring. */
  lemma {:induction false} ReleasesMatchPushes(cap: nat, semMax: nat, threads: set<Thread>,
                                               states: seq<State>, acts: seq<Action>, n: nat, t: Thread)
    requires Run(cap, semMax, threads, states, acts) && n <= |acts|
    ensures Count(acts[..n], PushQueue(t))
         == Count(acts[..n], Release(t)) + if Signalling(states[n], t) then 1 else 0
  {
    if n == 0 {
      assert acts[..0] == [];
    } else {
      ReleasesMatchPushes(cap, semMax, threads, states, acts, n - 1, t);
      RunKeepsInv(cap, semMax, threads, states, acts, n - 1);
      assert Step(states[n - 1], acts[n - 1], states[n]);
      SignalStep(states[n - 1], acts[n - 1], t);
      CountOneMore(acts, n - 1, PushQueue(t));
      CountOneMore(acts, n - 1, Release(t));
    }
  }

  /** Permits come from releases only, of callers and of `deinitialize`, and go to the writer only,
      one for each time it leaves its wait; without one it waits. */
  lemma PermitsAccounted(s: State, a: Action)
    requires OwnerOk(s) && Enabled(s, a) && s.sem <= s.semMax
    ensures var released := a.Release? || (a == CloserStep && s.closer.Stopping?);
      var acquired := a == WriterStep && s.writer.Acquire?;
      && (acquired ==> s.sem > 0 && Do(s, a).sem == s.sem - 1)
      && (released ==> Do(s, a).sem == if s.sem < s.semMax then s.sem + 1 else s.sem)
      && (!acquired && !released ==> Do(s, a).sem == s.sem)
  {
  }
}
