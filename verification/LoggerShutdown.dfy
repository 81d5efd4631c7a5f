/** Shutting the logger down: it completes, and exactly when it loses nothing. */
module LoggerShutdown {
  import opened Common
  import opened LoggerProtocol
  import opened LoggerSafety

  // ---------------------------------------------------------------- the writer leaves

  /** Once stop is requested the writer acquires at most once more; once `deinitialize` has
      released the semaphore the writer is never blocked; it is gone when the join returns. */
  lemma WriterLeaves(cap: nat, semMax: nat, threads: set<Thread>, states: seq<State>, acts: seq<Action>, i: nat)
    requires Run(cap, semMax, threads, states, acts) && i < |states|
    ensures var s := states[i];
      && s.lateAcquires <= 1
      && (Stop(s) && !s.closer.Stopping? && !s.writer.Done? && !s.writer.WriterFlush? ==> Enabled(s, WriterStep))
      && (s.closer.LastFlush? || s.closer.Closed? ==> s.writer.Done?)
  {
    RunKeepsInv(cap, semMax, threads, states, acts, i);
  }

  // ---------------------------------------------------------------- completion

  /** The steps of the writer, of `deinitialize`, and of a flush already begun or theirs. */
  predicate ShutdownAction(a: Action) {
    match a
    case WriterStep => true
    case CloserStep => true
    case TakeQueue(who) => !who.Logging?
    case TakeRing => true
    case WriteOne => true
    case EndFlush => true
    case _ => false
  }

  function WriterLeft(w: Writer): nat {
    match w
    case Acquire => 4
    case Recheck => 3
    case WriterFlush(_) => 2
    case Check => 1
    case Done => 0
  }

  function CloserLeft(c: Closer): nat {
    match c
    case Open => 4
    case Stopping => 3
    case Joining => 2
    case LastFlush => 1
    case Closed => 0
  }

  function FlushLeft(f: Flush): nat {
    match f
    case NoFlush => 2
    case QueueTaken(_, _) => 1
    case Writing(_, _) => 0
  }

  function CallerLeft(c: Caller): nat {
    match c
    case Idle => 0
    case Signal => 1
    case Flushing => 4
    case Spill(_) => 6
    case Offer(_) => 7
  }

  /** The steps left to all callers together. */
  ghost function CallersLeft(callers: map<Thread, Caller>): nat
    decreases |callers|
  {
    if callers == map[] then 0
    else
      var t :| t in callers;
      CallerLeft(callers[t]) + CallersLeft(callers - {t})
  }

  /** Any caller can be counted first. */
  lemma {:induction false} CountFirst(callers: map<Thread, Caller>, t: Thread)
    requires t in callers
    ensures CallersLeft(callers) == CallerLeft(callers[t]) + CallersLeft(callers - {t})
    decreases |callers|
  {
    var u :| u in callers && CallersLeft(callers) == CallerLeft(callers[u]) + CallersLeft(callers - {u});
    if u != t {
      CountFirst(callers - {u}, t);
      CountFirst(callers - {t}, u);
      assert callers - {u} - {t} == callers - {t} - {u};
    }
  }

  lemma CallerMoves(callers: map<Thread, Caller>, t: Thread, pc: Caller)
    requires t in callers
    ensures CallersLeft(callers[t := pc]) + CallerLeft(callers[t]) == CallersLeft(callers) + CallerLeft(pc)
  {
    CountFirst(callers, t);
    CountFirst(callers[t := pc], t);
    assert callers[t := pc] - {t} == callers - {t};
  }

  /** Entries still to write, and steps still to take by writer, closer, flush and callers. */
  ghost function Left(s: State): nat {
    |s.queue| + |s.ring| + |Batch(s)| + 4 * (WriterLeft(s.writer) + CloserLeft(s.closer)) + FlushLeft(s.flush)
    + CallersLeft(s.callers)
  }

  /** The caller an action moves, if any. */
  function Mover(s: State, a: Action): Option<Thread> {
    match a
    case Log(t) => Some(t)
    case CallFlush(t) => Some(t)
    case PushQueue(t) => Some(t)
    case RefuseQueue(t) => Some(t)
    case Release(t) => Some(t)
    case PushRing(t) => Some(t)
    case EndFlush => if s.flush.Writing? && s.flush.who.Logging? then Some(s.flush.who.t) else None
    case _ => None
  }

  /** Unless it starts a new call, every step after a stop request brings the end nearer. */
  lemma StepDecreases(s: State, a: Action)
    requires OwnerOk(s) && Stop(s) && Enabled(s, a) && !a.Log? && !a.CallFlush?
    ensures Left(Do(s, a)) < Left(s) && Stop(Do(s, a))
  {
    var s' := Do(s, a);
    if Mover(s, a).Some? {
      var t := Mover(s, a).value;
      CallerMoves(s.callers, t, s'.callers[t]);
      assert s'.callers == s.callers[t := s'.callers[t]];
    }
  }

  /** The next step towards the end. */
  function NextStep(s: State): Action {
    if s.flush.QueueTaken? then TakeRing
    else if s.flush.Writing? then (if s.flush.batch == [] then EndFlush else WriteOne)
    else if s.writer.WriterFlush? then TakeQueue(TheWriter)
    else if s.writer.Done? then (if s.closer.LastFlush? then TakeQueue(TheCloser) else CloserStep)
    else if s.writer.Acquire? && s.sem == 0 then CloserStep
    else WriterStep
  }

  /** Until `deinitialize` returns, a step towards its return is always enabled. */
  lemma NeverStuck(s: State)
    requires Inv(s) && Stop(s) && !s.closer.Closed?
    ensures Enabled(s, NextStep(s)) && ShutdownAction(NextStep(s))
  {
  }

  /** The next step of a call in progress, or of the flush it waits for. */
  function CallerStep(s: State, t: Thread): Action
    requires t in s.callers
  {
    match s.callers[t]
    case Idle => CallFlush(t)
    case Offer(_) => RefuseQueue(t)
    case Signal => Release(t)
    case Spill(_) => PushRing(t)
    case Flushing =>
      if s.flush.NoFlush? then TakeQueue(Logging(t))
      else if s.flush.QueueTaken? then TakeRing
      else if s.flush.batch != [] then WriteOne
      else EndFlush
  }

  lemma CallerNeverStuck(s: State, t: Thread)
    requires Inv(s) && t in s.callers && !s.callers[t].Idle?
    ensures Enabled(s, CallerStep(s, t)) && !CallerStep(s, t).Log? && !CallerStep(s, t).CallFlush?
  {
  }

  ghost predicate NoNewCalls(acts: seq<Action>, i: nat, j: nat) {
    forall k | i <= k < j && k < |acts| :: !acts[k].Log? && !acts[k].CallFlush?
  }

  /** With no new `log` or `flush` call, every schedule ends, wherever the calls in progress stand:
      from a stop request at step i no run goes on for more than `Left(states[i])` steps. */
  lemma {:induction false} ShutdownIsBounded(cap: nat, semMax: nat, threads: set<Thread>,
                                             states: seq<State>, acts: seq<Action>, i: nat, j: nat)
    requires Run(cap, semMax, threads, states, acts) && i <= j < |states|
    requires Stop(states[i]) && NoNewCalls(acts, i, j)
    ensures Stop(states[j]) && Left(states[j]) + (j - i) <= Left(states[i])
    decreases j
  {
    if i < j {
      ShutdownIsBounded(cap, semMax, threads, states, acts, i, j - 1);
      RunKeepsInv(cap, semMax, threads, states, acts, j - 1);
      assert Step(states[j - 1], acts[j - 1], states[j]);
      StepDecreases(states[j - 1], acts[j - 1]);
    }
  }

  /** So a run that cannot be continued without a new call has closed the logger, and every call
      that was in progress has returned. */
  lemma MaximalRunsClose(cap: nat, semMax: nat, threads: set<Thread>,
                         states: seq<State>, acts: seq<Action>, i: nat, j: nat)
    requires Run(cap, semMax, threads, states, acts) && i <= j < |states|
    requires Stop(states[i]) && NoNewCalls(acts, i, j)
    requires forall a | Enabled(states[j], a) :: a.Log? || a.CallFlush?
    ensures states[j].closer.Closed?
    ensures forall t | t in states[j].callers :: states[j].callers[t].Idle?
  {
    RunKeepsInv(cap, semMax, threads, states, acts, j);
    ShutdownIsBounded(cap, semMax, threads, states, acts, i, j);
    if !states[j].closer.Closed? {
      NeverStuck(states[j]);
    }
    forall t | t in states[j].callers ensures states[j].callers[t].Idle? {
      if !states[j].callers[t].Idle? {
        CallerNeverStuck(states[j], t);
      }
    }
  }

  // ---------------------------------------------------------------- nothing lost

  predicate EmptyHanded(s: State) {
    forall t | t in s.callers :: !s.callers[t].Offer? && !s.callers[t].Spill?
  }

  /** How far the last flush has emptied the buffers. */
  predicate DrainedOk(s: State) {
    && EmptyHanded(s)
    && (s.closer.LastFlush? && !s.flush.NoFlush? && s.flush.who == TheCloser ==>
          s.queue == [] && (s.flush.Writing? ==> s.ring == []))
    && (s.closer.Closed? ==> s.queue == [] && s.ring == [] && Batch(s) == [])
  }

  lemma KeepsDrained(s: State, a: Action)
    requires OwnerOk(s) && Stop(s) && DrainedOk(s) && Enabled(s, a) && !a.Log?
    ensures Stop(Do(s, a)) && DrainedOk(Do(s, a))
  {
  }

  /** Stop has been requested and the last flush has not begun. */
  predicate BeforeLastFlush(s: State) {
    Stop(s) && !s.closer.Closed? && (s.flush.NoFlush? || s.flush.who != TheCloser)
  }

  ghost predicate NoNewLogs(acts: seq<Action>, i: nat, j: nat) {
    forall k | i <= k < j && k < |acts| :: !acts[k].Log?
  }

  lemma {:induction false} DrainedFromStop(cap: nat, semMax: nat, threads: set<Thread>,
                                           states: seq<State>, acts: seq<Action>, i: nat, j: nat)
    requires Run(cap, semMax, threads, states, acts) && i <= j < |states|
    requires BeforeLastFlush(states[i]) && EmptyHanded(states[i]) && NoNewLogs(acts, i, j)
    ensures Stop(states[j]) && DrainedOk(states[j])
    decreases j
  {
    RunKeepsInv(cap, semMax, threads, states, acts, i);
    if i < j {
      DrainedFromStop(cap, semMax, threads, states, acts, i, j - 1);
      RunKeepsInv(cap, semMax, threads, states, acts, j - 1);
      assert Step(states[j - 1], acts[j - 1], states[j]);
      KeepsDrained(states[j - 1], acts[j - 1]);
    }
  }

  /** Lossless shutdown: if at some moment between the stop request and the last flush no thread
      has a message in hand, and none logs from then on, then once `deinitialize` has returned both
      buffers are empty and every issued message that was not dropped stands in the file exactly
      once. */
  lemma ShutdownLosesNothing(cap: nat, semMax: nat, threads: set<Thread>,
                             states: seq<State>, acts: seq<Action>, i: nat, j: nat, m: Message)
    requires Run(cap, semMax, threads, states, acts) && i <= j < |states|
    requires BeforeLastFlush(states[i]) && EmptyHanded(states[i]) && NoNewLogs(acts, i, j)
    requires states[j].closer.Closed?
    ensures states[j].queue == [] && states[j].ring == [] && Pipeline(states[j]) == states[j].file
    ensures multiset(states[j].file)[m] + multiset(states[j].dropped)[m] == if Issued(states[j], m) then 1 else 0
  {
    DrainedFromStop(cap, semMax, threads, states, acts, i, j);
    RunKeepsInv(cap, semMax, threads, states, acts, j);
    assert OnceOk(states[j], m);
  }

  // ---------------------------------------------------------------- the converse

  /** A continuation of s: its states, the first being s, and its actions. */
  ghost predicate Continues(s: State, states: seq<State>, acts: seq<Action>) {
    && |states| == |acts| + 1 && states[0] == s
    && forall i {:trigger acts[i]} | 0 <= i < |acts| :: Step(states[i], acts[i], states[i + 1])
  }

  lemma HandUntouched(s: State, a: Action, t: Thread)
    requires OwnerOk(s) && Enabled(s, a) && ShutdownAction(a)
    requires t in s.callers && !s.callers[t].Flushing?
    ensures t in Do(s, a).callers && Do(s, a).callers[t] == s.callers[t]
  {
  }

  lemma Prepend(s: State, a: Action, s': State, states: seq<State>, acts: seq<Action>)
    requires Step(s, a, s') && Continues(s', states, acts)
    ensures Continues(s, [s] + states, [a] + acts)
  {
    var states', acts' := [s] + states, [a] + acts;
    forall i {:trigger acts'[i]} | 0 <= i < |acts'| ensures Step(states'[i], acts'[i], states'[i + 1]) {
      if i > 0 {
        assert acts'[i] == acts[i - 1];
      }
    }
  }

  lemma OneStepCloser(s: State, t: Thread) returns (a: Action, s': State)
    requires Inv(s) && Stop(s) && !s.closer.Closed? && t in s.callers && !s.callers[t].Flushing?
    ensures Step(s, a, s') && ShutdownAction(a) && Inv(s') && Stop(s') && Left(s') < Left(s)
    ensures t in s'.callers && s'.callers[t] == s.callers[t]
  {
    a := NextStep(s);
    NeverStuck(s);
    s' := Do(s, a);
    StepDecreases(s, a);
    HandUntouched(s, a, t);
    StepKeepsInv(s, a, s');
  }

  /** From any stop request `deinitialize` can return while thread t stays where it is. */
  lemma {:induction false} CanCloseAround(s: State, t: Thread) returns (states: seq<State>, acts: seq<Action>)
    requires Inv(s) && Stop(s) && t in s.callers && !s.callers[t].Flushing?
    ensures Continues(s, states, acts) && (forall k | 0 <= k < |acts| :: ShutdownAction(acts[k]))
    ensures var z := states[|acts|];
      Inv(z) && z.closer.Closed? && t in z.callers && z.callers[t] == s.callers[t]
    decreases Left(s)
  {
    if s.closer.Closed? {
      states, acts := [s], [];
    } else {
      var a, s' := OneStepCloser(s, t);
      states, acts := CanCloseAround(s', t);
      Prepend(s, a, s', states, acts);
      states, acts := [s] + states, [a] + acts;
    }
  }

  /** And the condition is needed: a message in hand at any time after a stop request, one logged
      since then included, may still be in hand, and in no file, when `deinitialize` returns. */
  lemma MessageInHandMayBeLeftBehind(cap: nat, semMax: nat, threads: set<Thread>,
                                     states: seq<State>, acts: seq<Action>, i: nat, t: Thread)
      returns (more: seq<State>, moreActs: seq<Action>)
    requires Run(cap, semMax, threads, states, acts) && i < |states|
    requires Stop(states[i]) && t in states[i].callers
    requires states[i].callers[t].Offer? || states[i].callers[t].Spill?
    ensures Continues(states[i], more, moreActs) && NoNewLogs(moreActs, 0, |moreActs|)
    ensures var m, z := states[i].callers[t].m, more[|moreActs|];
      z.closer.Closed? && Issued(z, m) && m !in z.file && m !in z.dropped
  {
    RunKeepsInv(cap, semMax, threads, states, acts, i);
    var s := states[i];
    more, moreActs := CanCloseAround(s, t);
    var m, z := s.callers[t].m, more[|moreActs|];
    assert HandOk(z, t);
    assert OnceOk(z, m);
    assert m !in multiset(Pipeline(z));
  }
}
