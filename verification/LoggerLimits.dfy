/** Runs that show where the logger's promises end. */
module LoggerLimits {
  import opened Common
  import opened LoggerProtocol
  import opened LoggerOrder

  ghost predicate EndsAt(cap: nat, semMax: nat, threads: set<Thread>, states: seq<State>, acts: seq<Action>, s: State) {
    Run(cap, semMax, threads, states, acts) && states[|acts|] == s
  }

  ghost predicate Reachable(cap: nat, semMax: nat, threads: set<Thread>, s: State) {
    exists states, acts :: EndsAt(cap, semMax, threads, states, acts, s)
  }

  lemma ReachInit(cap: nat, semMax: nat, threads: set<Thread>)
    requires 0 < cap && 0 < semMax
    ensures Reachable(cap, semMax, threads, Init(cap, semMax, threads))
  {
    assert EndsAt(cap, semMax, threads, [Init(cap, semMax, threads)], [], Init(cap, semMax, threads));
  }

  lemma Then(cap: nat, semMax: nat, threads: set<Thread>, s: State, a: Action)
    requires Reachable(cap, semMax, threads, s) && Enabled(s, a)
    ensures Reachable(cap, semMax, threads, Do(s, a))
  {
    var states, acts :| EndsAt(cap, semMax, threads, states, acts, s);
    var states', acts' := states + [Do(s, a)], acts + [a];
    forall i {:trigger acts'[i]} | 0 <= i < |acts'| ensures Step(states'[i], acts'[i], states'[i + 1]) {
      if i < |acts| {
        assert acts'[i] == acts[i];
      }
    }
    assert EndsAt(cap, semMax, threads, states', acts', Do(s, a));
  }

  // ---------------------------------------------------------------- one thread too many

  /** k messages wait in the queue, the threads in `spilled` have overflowed into the ring and are
      about to flush, and everybody else is idle. */
  predicate Crowded(s: State, cap: nat, threads: set<Thread>, k: nat, spilled: set<Thread>) {
    && s.cap == cap && |s.queue| == k && |s.ring| == |spilled| && s.closer.Open?
    && s.callers.Keys == s.issued.Keys == threads
    && forall t | t in threads :: s.callers[t] == if t in spilled then Flushing else Idle
  }

  lemma {:induction false} FillQueue(cap: nat, semMax: nat, threads: set<Thread>, k: nat) returns (s: State)
    requires 0 < semMax && 0 < cap && k <= cap && threads != {}
    ensures Reachable(cap, semMax, threads, s) && Crowded(s, cap, threads, k, {})
  {
    if k == 0 {
      s := Init(cap, semMax, threads);
      ReachInit(cap, semMax, threads);
    } else {
      s := FillQueue(cap, semMax, threads, k - 1);
      var t :| t in threads;
      Then(cap, semMax, threads, s, Log(t)); s := Do(s, Log(t));
      Then(cap, semMax, threads, s, PushQueue(t)); s := Do(s, PushQueue(t));
      Then(cap, semMax, threads, s, Release(t)); s := Do(s, Release(t));
    }
  }

  /** An idle thread finds the queue full and is about to try the ring. */
  lemma Overflow(cap: nat, semMax: nat, threads: set<Thread>, s: State, spilled: set<Thread>, t: Thread)
      returns (s': State)
    requires Reachable(cap, semMax, threads, s) && Crowded(s, cap, threads, cap, spilled)
    requires t in threads && t !in spilled
    ensures Reachable(cap, semMax, threads, s') && Enabled(s', PushRing(t))
    ensures s'.cap == cap && s'.queue == s.queue && s'.ring == s.ring && s'.closer.Open?
    ensures s'.callers == s.callers[t := s'.callers[t]] && s'.callers.Keys == s'.issued.Keys
  {
    Then(cap, semMax, threads, s, Log(t)); s' := Do(s, Log(t));
    Then(cap, semMax, threads, s', RefuseQueue(t)); s' := Do(s', RefuseQueue(t));
  }

  lemma {:induction false} FillRing(cap: nat, semMax: nat, threads: set<Thread>, k: nat)
      returns (s: State, spilled: set<Thread>)
    requires 0 < semMax && 0 < cap && k <= cap < |threads|
    ensures Reachable(cap, semMax, threads, s) && Crowded(s, cap, threads, cap, spilled)
    ensures spilled <= threads && |spilled| == k
  {
    if k == 0 {
      s := FillQueue(cap, semMax, threads, cap);
      spilled := {};
    } else {
      s, spilled := FillRing(cap, semMax, threads, k - 1);
      assert |threads - spilled| == |threads| - |spilled|;
      var t :| t in threads - spilled;
      s := Overflow(cap, semMax, threads, s, spilled, t);
      Then(cap, semMax, threads, s, PushRing(t)); s := Do(s, PushRing(t));
      spilled := spilled + {t};
    }
  }

  /** The bound of `FewThreadsDropNothing` is exact: with any more threads than the ring has
      places, some interleaving fills queue and ring and drops a message. */
  lemma OneThreadTooManyCanDrop(cap: nat, semMax: nat, threads: set<Thread>) returns (s: State)
    requires 0 < semMax && 0 < cap < |threads|
    ensures Reachable(cap, semMax, threads, s) && s.dropped != []
  {
    var spilled;
    s, spilled := FillRing(cap, semMax, threads, cap);
    assert |threads - spilled| == |threads| - |spilled|;
    var t :| t in threads - spilled;
    s := Overflow(cap, semMax, threads, s, spilled, t);
    Then(cap, semMax, threads, s, PushRing(t));
    s := Do(s, PushRing(t));
  }

  // ---------------------------------------------------------------- an overflow that overtakes

  ghost predicate Reach(s: State) {
    Reachable(1, 1, {0}, s)
  }

  lemma Next(s: State, a: Action) returns (s': State)
    requires Reach(s) && Enabled(s, a)
    ensures Reach(s') && s' == Do(s, a)
  {
    Then(1, 1, {0}, s, a);
    s' := Do(s, a);
  }

  const first := Message(0, 0)
  const second := Message(0, 1)
  const third := Message(0, 2)

  lemma FirstIsQueued() returns (s: State)
    ensures Reach(s) && s.cap == 1 && s.flush.NoFlush? && s.writer == Check && s.sem == 1
    ensures s.queue == [first] && s.ring == [] && s.file == [] && s.closer.Open?
    ensures s.callers == map[0 := Idle] && s.issued == map[0 := 1]
  {
    s := Init(1, 1, {0});
    ReachInit(1, 1, {0});
    s := Next(s, Log(0));
    s := Next(s, PushQueue(0));
    s := Next(s, Release(0));
  }

  /** The writer has taken the first message from the queue and not yet drained the ring. */
  lemma WriterTakesFirst() returns (s: State)
    ensures Reach(s) && s.cap == 1 && s.flush == QueueTaken(TheWriter, [first]) && s.writer == WriterFlush(false)
    ensures s.queue == [] && s.ring == [] && s.file == [] && s.closer.Open?
    ensures s.callers == map[0 := Idle] && s.issued == map[0 := 1]
  {
    s := FirstIsQueued();
    s := Next(s, WriterStep);
    s := Next(s, WriterStep);
    s := Next(s, WriterStep);
    s := Next(s, TakeQueue(TheWriter));
  }

  /** Meanwhile the same thread logs twice more: one message fills the queue, one overflows. */
  lemma ThirdOverflows() returns (s: State)
    ensures Reach(s) && s.flush == QueueTaken(TheWriter, [first]) && s.writer == WriterFlush(false)
    ensures s.queue == [second] && s.ring == [third] && s.file == []
    ensures s.callers == map[0 := Flushing] && s.callers.Keys == s.issued.Keys
  {
    s := WriterTakesFirst();
    s := Next(s, Log(0));
    s := Next(s, PushQueue(0));
    s := Next(s, Release(0));
    s := Next(s, Log(0));
    s := Next(s, RefuseQueue(0));
    s := Next(s, PushRing(0));
  }

  /** The writer goes on to drain the ring and writes the third message before the second. */
  lemma ThirdIsWritten() returns (s: State)
    ensures Reach(s) && s.flush.NoFlush?
    ensures s.queue == [second] && s.ring == [] && s.file == [first, third]
    ensures s.callers == map[0 := Flushing] && s.callers.Keys == s.issued.Keys
  {
    s := ThirdOverflows();
    s := Next(s, TakeRing);
    s := Next(s, WriteOne);
    s := Next(s, WriteOne);
    s := Next(s, EndFlush);
  }

  /** Program order fails when a push comes between the two drains of a flush: one thread's three
      messages reach the file as first, third, second. */
  lemma OverflowOvertakes() returns (s: State)
    ensures Reachable(1, 1, {0}, s) && s.file == [first, third, second] && !InOrder(s.file)
  {
    s := ThirdIsWritten();
    s := Next(s, TakeQueue(Logging(0)));
    s := Next(s, TakeRing);
    s := Next(s, WriteOne);
    assert s.file[1].num > s.file[2].num;
  }

  // ---------------------------------------------------------------- a message left behind

  /** One message has been logged, before the stop request or after it, and is still in hand. */
  lemma InHandAtStop(late: bool) returns (s: State)
    ensures Reach(s) && s.closer.Stopping? && s.writer.Check? && s.flush.NoFlush? && s.semMax == 1 && s.sem == 0
    ensures s.queue == [] && s.ring == [] && s.file == [] && s.dropped == []
    ensures s.callers == map[0 := Offer(first)] && s.issued == map[0 := 1]
  {
    s := Init(1, 1, {0});
    ReachInit(1, 1, {0});
    if late {
      s := Next(s, CloserStep);
      s := Next(s, Log(0));
    } else {
      s := Next(s, Log(0));
      s := Next(s, CloserStep);
    }
  }

  lemma JoinedAround(late: bool) returns (s: State)
    ensures Reach(s) && s.closer.LastFlush? && s.flush.NoFlush?
    ensures s.queue == [] && s.ring == [] && s.file == [] && s.dropped == []
    ensures s.callers == map[0 := Offer(first)] && s.issued == map[0 := 1]
  {
    s := InHandAtStop(late);
    s := Next(s, CloserStep);
    s := Next(s, WriterStep);
    s := Next(s, CloserStep);
  }

  /** Losslessness fails both ways: a message in hand at the stop request, and one logged after it,
      is in no file when `deinitialize` has returned. */
  lemma LeftBehind(late: bool) returns (s: State)
    ensures Reachable(1, 1, {0}, s) && s.closer.Closed?
    ensures Issued(s, first) && s.file == [] && s.dropped == []
  {
    s := JoinedAround(late);
    s := Next(s, TakeQueue(TheCloser));
    s := Next(s, TakeRing);
    s := Next(s, EndFlush);
  }
}
