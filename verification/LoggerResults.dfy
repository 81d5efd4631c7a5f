/** What the asynchronous logger promises about messages, order and wakeups. */
module LoggerResults {
  import opened Common
  import opened LoggerProtocol
  import opened LoggerSafety
  import opened LoggerOrder

  // ---------------------------------------------------------------- nothing dropped

  function RingThreads(ring: seq<Message>): set<Thread> {
    set i | 0 <= i < |ring| :: ring[i].thread
  }

  lemma {:induction false} OneEach(ring: seq<Message>)
    requires forall i, j | 0 <= i < j < |ring| :: ring[i].thread != ring[j].thread
    ensures |RingThreads(ring)| == |ring|
  {
    if ring != [] {
      var init, last := ring[..|ring| - 1], ring[|ring| - 1];
      OneEach(init);
      assert RingThreads(ring) == RingThreads(init) + {last.thread};
      assert last.thread !in RingThreads(init);
    }
  }

  /** A thread about to push to the ring finds a place if there are at most `cap` threads. */
  lemma RingHasRoom(s: State, t: Thread)
    requires Inv(s) && t in s.callers && s.callers[t].Spill? && |s.callers| <= s.cap
    ensures |s.ring| < s.cap
  {
    OneEach(s.ring);
    var others := s.callers.Keys - {t};
    forall r | r in RingThreads(s.ring) ensures r in others {
      var i :| 0 <= i < |s.ring| && r == s.ring[i].thread;
      assert OwesRingDrain(s, s.ring[i].thread);
    }
    assert others == others + RingThreads(s.ring);
    assert |others| == |RingThreads(s.ring)| + |others - RingThreads(s.ring)| by {
      assert others == RingThreads(s.ring) + (others - RingThreads(s.ring));
    }
    assert |s.callers.Keys| == |others| + 1;
  }

  /** With at most `cap` logging threads no message is ever dropped, in any interleaving. */
  lemma {:induction false} FewThreadsDropNothing(cap: nat, semMax: nat, threads: set<Thread>,
                                                 states: seq<State>, acts: seq<Action>, i: nat)
    requires Run(cap, semMax, threads, states, acts) && i < |states| && |threads| <= cap
    ensures states[i].dropped == []
  {
    if i > 0 {
      FewThreadsDropNothing(cap, semMax, threads, states, acts, i - 1);
      RunKeepsInv(cap, semMax, threads, states, acts, i - 1);
      var s, a := states[i - 1], acts[i - 1];
      assert Step(s, a, states[i]);
      assert |s.callers| == |s.callers.Keys|;
      if a.PushRing? {
        RingHasRoom(s, a.t);
      } else {
        OnlyRingPushesDrop(s, a);
      }
    }
  }

  lemma OnlyRingPushesDrop(s: State, a: Action)
    requires Enabled(s, a) && OwnerOk(s) && !a.PushRing?
    ensures Do(s, a).dropped == s.dropped
  {
  }

  // ---------------------------------------------------------------- exactly once

  /** In every state a message that passed the level check is in exactly one of: its thread's
      hands, the queue, the ring, the batch being written, the file, or the dropped ones; and
      nothing else is in any of them. */
  lemma EachMessageInOnePlace(cap: nat, semMax: nat, threads: set<Thread>,
                              states: seq<State>, acts: seq<Action>, i: nat, m: Message)
    requires Run(cap, semMax, threads, states, acts) && i < |states|
    ensures var s := states[i];
      (if InHand(s, m) then 1 else 0) + multiset(s.queue)[m] + multiset(s.ring)[m] + multiset(Batch(s))[m]
      + multiset(s.file)[m] + multiset(s.dropped)[m] == if Issued(s, m) then 1 else 0
  {
    RunKeepsInv(cap, semMax, threads, states, acts, i);
    assert OnceOk(states[i], m);
  }

  // ---------------------------------------------------------------- wakeups

  /** No lost wakeup: while entries wait in the queue, a permit is there, or a thread is about to
      release one, or the writer has acquired and is on its way to the queue. So a writer blocked
      in its acquire with entries waiting is about to be released. */
  lemma NoLostWakeup(cap: nat, semMax: nat, threads: set<Thread>, states: seq<State>, acts: seq<Action>, i: nat)
    requires Run(cap, semMax, threads, states, acts) && i < |states| && states[i].queue != []
    ensures states[i].sem > 0 || SomeoneSignals(states[i]) || WriterComing(states[i])
    ensures states[i].writer.Acquire? && states[i].sem == 0 ==>
              exists t :: t in threads && t in states[i].callers && Enabled(states[i], Release(t))
  {
    RunKeepsInv(cap, semMax, threads, states, acts, i);
    var s := states[i];
    if s.writer.Acquire? && s.sem == 0 {
      var t :| t in s.callers && s.callers[t].Signal?;
      assert Enabled(s, Release(t));
    }
  }

  // ---------------------------------------------------------------- order

  lemma OrderAt(cap: nat, semMax: nat, threads: set<Thread>, states: seq<State>, acts: seq<Action>, n: nat)
    requires Run(cap, semMax, threads, states, acts) && 0 < n <= |acts|
    ensures AllInOrder(states[n]) <==> AllInOrder(states[n - 1]) && Quiet(states[n - 1], acts[n - 1])
  {
    RunKeepsRingLatest(cap, semMax, threads, states, acts, n - 1);
    assert Step(states[n - 1], acts[n - 1], states[n]);
    OrderAfter(states[n - 1], acts[n - 1]);
  }

  lemma OrderAtStart(cap: nat, semMax: nat, threads: set<Thread>, states: seq<State>, acts: seq<Action>)
    requires Run(cap, semMax, threads, states, acts)
    ensures AllInOrder(states[0])
  {
    assert Pipeline(states[0]) == [];
  }

  /** Per-thread order, exactly: after n steps every thread's messages stand in program order, from
      the file back to the ring, if and only if each ring drain among those steps found no thread
      with messages in both the queue and the ring. */
  lemma {:induction false} OrderIffQuietDrains(cap: nat, semMax: nat, threads: set<Thread>,
                                               states: seq<State>, acts: seq<Action>, n: nat)
    requires Run(cap, semMax, threads, states, acts) && n <= |acts|
    ensures AllInOrder(states[n]) <==> QuietDrains(states, acts, n)
  {
    if n == 0 {
      OrderAtStart(cap, semMax, threads, states, acts);
    } else {
      OrderIffQuietDrains(cap, semMax, threads, states, acts, n - 1);
      OrderAt(cap, semMax, threads, states, acts, n);
    }
  }

  /** The same of the file: once everything accepted is written, the file has each thread's
      messages in program order if and only if every ring drain so far was quiet in that sense. */
  lemma FileOrderIffQuietDrains(cap: nat, semMax: nat, threads: set<Thread>,
                                states: seq<State>, acts: seq<Action>, n: nat)
    requires Run(cap, semMax, threads, states, acts) && n <= |acts|
    requires states[n].queue == [] && states[n].ring == [] && Batch(states[n]) == []
    ensures InOrder(states[n].file) <==> QuietDrains(states, acts, n)
  {
    OrderIffQuietDrains(cap, semMax, threads, states, acts, n);
    assert AllInOrder(states[n]) <==> InOrder(Pipeline(states[n]));
    assert Pipeline(states[n]) == states[n].file;
  }

  /** If no push lands in the queue between the two drains of a flush, the file shows every
      thread's messages in program order, overflowed ones included. */
  lemma AtomicFlushesKeepFileOrder(cap: nat, semMax: nat, threads: set<Thread>,
                                   states: seq<State>, acts: seq<Action>, n: nat)
    requires Run(cap, semMax, threads, states, acts) && n <= |acts|
    requires forall i | 0 <= i < n && acts[i].TakeRing? :: states[i].queue == []
    ensures InOrder(states[n].file)
  {
    OrderIffQuietDrains(cap, semMax, threads, states, acts, n);
    AllQuiet(states, acts, n);
    assert forall i | 0 <= i < n :: Quiet(states[i], acts[i]);
    var s := states[n];
    assert AllInOrder(s);
    assert forall i | 0 <= i < |s.file| :: s.file[i] == Pipeline(s)[i];
  }
}
