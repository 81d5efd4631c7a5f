/** The logger protocol keeps its invariants over every run. */
module LoggerSafety {
  import opened Common
  import opened LoggerProtocol

  lemma InitInv(cap: nat, semMax: nat, threads: set<Thread>)
    requires 0 < semMax
    ensures Inv(Init(cap, semMax, threads))
  {
    var s := Init(cap, semMax, threads);
    assert Pipeline(s) == [];
  }

  lemma KeepsOwner(s: State, a: Action)
    requires OwnerOk(s) && Enabled(s, a)
    ensures OwnerOk(Do(s, a))
  {
  }

  lemma KeepsHands(s: State, a: Action)
    requires OwnerOk(s) && HandsOk(s) && Enabled(s, a)
    ensures HandsOk(Do(s, a))
  {
    var s' := Do(s, a);
    forall t | t in s'.callers ensures HandOk(s', t) {
      assert HandOk(s, t);
    }
  }

  lemma KeepsRing(s: State, a: Action)
    requires OwnerOk(s) && HandsOk(s) && RingOk(s) && Enabled(s, a)
    ensures RingOk(Do(s, a))
  {
    var s' := Do(s, a);
    forall i | 0 <= i < |s'.ring| ensures OwesRingDrain(s', s'.ring[i].thread) {
      assert i < |s.ring| ==> OwesRingDrain(s, s.ring[i].thread);
      assert a.PushRing? ==> HandOk(s, a.t);
    }
    forall i, j | 0 <= i < j < |s'.ring| ensures s'.ring[i].thread != s'.ring[j].thread {
      assert OwesRingDrain(s, s.ring[i].thread);
      assert a.PushRing? ==> HandOk(s, a.t);
    }
  }

  /** The message an action moves from a hand into the pipeline. */
  predicate Accepts(s: State, a: Action) {
    a.PushQueue? || (a.PushRing? && |s.ring| < s.cap)
  }

  function Accepted(s: State, a: Action): multiset<Message>
    requires Enabled(s, a)
  {
    if Accepts(s, a) then multiset{s.callers[a.t].m} else multiset{}
  }

  lemma SamePipeline(s: State, a: Action)
    requires Enabled(s, a) && !Accepts(s, a) && !a.TakeRing? && !a.WriteOne?
    ensures Pipeline(Do(s, a)) == Pipeline(s)
  {
    assert a.TakeQueue? ==> s.file + s.queue + [] == s.file + [] + s.queue;
  }

  lemma PushPipeline(s: State, a: Action)
    requires Enabled(s, a) && Accepts(s, a)
    ensures multiset(Pipeline(Do(s, a))) == multiset(Pipeline(s)) + multiset{s.callers[a.t].m}
    ensures a.PushRing? ==> Pipeline(Do(s, a)) == Pipeline(s) + [s.callers[a.t].m]
    ensures a.PushQueue? ==> Pipeline(Do(s, a)) == s.file + Batch(s) + (s.queue + [s.callers[a.t].m]) + s.ring
  {
    SameBag(s.file + Batch(s), s.queue, [s.callers[a.t].m], s.ring);
    assert s.file + Batch(s) + s.queue + (s.ring + [s.callers[a.t].m]) == Pipeline(s) + [s.callers[a.t].m];
  }

  lemma RingDrainPipeline(s: State)
    requires Enabled(s, TakeRing)
    ensures Pipeline(Do(s, TakeRing)) == s.file + Batch(s) + s.ring + s.queue
    ensures multiset(Pipeline(Do(s, TakeRing))) == multiset(Pipeline(s))
  {
    assert s.file + (Batch(s) + s.ring) + s.queue + [] == s.file + Batch(s) + s.ring + s.queue;
    assert multiset(s.file + Batch(s) + s.ring + s.queue) == multiset(s.file + Batch(s) + s.queue + s.ring);
  }

  /** Only a push adds to the pipeline, and only the ring drain reorders it. */
  lemma PipelineAfter(s: State, a: Action)
    requires Enabled(s, a)
    ensures multiset(Pipeline(Do(s, a))) == multiset(Pipeline(s)) + Accepted(s, a)
    ensures !Accepts(s, a) && !a.TakeRing? ==> Pipeline(Do(s, a)) == Pipeline(s)
  {
    if Accepts(s, a) { PushPipeline(s, a); }
    else if a.TakeRing? { RingDrainPipeline(s); }
    else if a.WriteOne? { WritePreserves(s); }
    else { SamePipeline(s, a); }
  }

  lemma WritePreserves(s: State)
    requires Enabled(s, WriteOne)
    ensures Pipeline(Do(s, WriteOne)) == Pipeline(s)
  {
    assert s.flush.batch == [s.flush.batch[0]] + s.flush.batch[1..];
    assert s.file + s.flush.batch == (s.file + [s.flush.batch[0]]) + s.flush.batch[1..];
  }

  lemma SameBag(a: seq<Message>, b: seq<Message>, c: seq<Message>, d: seq<Message>)
    ensures multiset(a + (b + c) + d) == multiset(a + b + d + c) == multiset(a + b + d) + multiset(c)
  {
  }

  /** The message an action takes out of a hand, and the one it puts there. */
  function LetsGo(s: State, a: Action, m: Message): nat
    requires Enabled(s, a)
  {
    if (a.PushQueue? || a.PushRing?) && s.callers[a.t].m == m then 1 else 0
  }

  function TakesUp(s: State, a: Action, m: Message): nat
    requires Enabled(s, a)
  {
    if a.Log? && m == Message(a.t, s.issued[a.t]) then 1 else 0
  }

  lemma HandAfter(s: State, a: Action, m: Message)
    requires s.callers.Keys == s.issued.Keys && OwnerOk(s) && HandsOk(s) && Enabled(s, a)
    ensures (if InHand(Do(s, a), m) then 1 else 0) + LetsGo(s, a, m)
         == (if InHand(s, m) then 1 else 0) + TakesUp(s, a, m)
  {
    assert m.thread in s.callers ==> HandOk(s, m.thread);
    assert a.PushQueue? || a.PushRing? ==> HandOk(s, a.t);
  }

  lemma IssuedAfter(s: State, a: Action, m: Message)
    requires s.callers.Keys == s.issued.Keys && Enabled(s, a)
    ensures Issued(Do(s, a), m) <==> Issued(s, m) || TakesUp(s, a, m) == 1
    ensures TakesUp(s, a, m) == 1 ==> !Issued(s, m)
  {
  }

  lemma DroppedAfter(s: State, a: Action, m: Message)
    requires Enabled(s, a)
    ensures multiset(Do(s, a).dropped)[m] + Accepted(s, a)[m] == multiset(s.dropped)[m] + LetsGo(s, a, m)
  {
  }

  lemma KeepsOnce(s: State, a: Action, m: Message)
    requires s.callers.Keys == s.issued.Keys && OwnerOk(s) && HandsOk(s) && OnceOk(s, m) && Enabled(s, a)
    ensures OnceOk(Do(s, a), m)
  {
    PipelineAfter(s, a);
    HandAfter(s, a, m);
    IssuedAfter(s, a, m);
    DroppedAfter(s, a, m);
  }

  lemma KeepsWakeup(s: State, a: Action)
    requires OwnerOk(s) && WakeupOk(s) && ShutdownOk(s) && Enabled(s, a)
    ensures WakeupOk(Do(s, a))
  {
    var s' := Do(s, a);
    if a.PushQueue? {
      assert s'.callers[a.t].Signal?;
    } else if s.queue != [] && SomeoneSignals(s) && !a.Release? {
      var t :| t in s.callers && s.callers[t].Signal?;
      assert s'.callers[t].Signal? || (a.EndFlush? && s.flush.who == Logging(t));
    }
  }

  lemma KeepsShutdown(s: State, a: Action)
    requires OwnerOk(s) && ShutdownOk(s) && Enabled(s, a)
    ensures ShutdownOk(Do(s, a))
  {
  }

  lemma StepKeepsInv(s: State, a: Action, s': State)
    requires Inv(s) && Step(s, a, s')
    ensures Inv(s')
  {
    KeepsOwner(s, a);
    KeepsHands(s, a);
    KeepsRing(s, a);
    KeepsWakeup(s, a);
    KeepsShutdown(s, a);
    forall m ensures OnceOk(s', m) {
      assert OnceOk(s, m);
      KeepsOnce(s, a, m);
    }
    assert s'.callers.Keys == s'.issued.Keys;
  }

  lemma {:induction false} RunKeepsInv(cap: nat, semMax: nat, threads: set<Thread>,
                                       states: seq<State>, acts: seq<Action>, i: nat)
    requires Run(cap, semMax, threads, states, acts) && i < |states|
    ensures Inv(states[i]) && states[i].callers.Keys == threads
    ensures states[i].cap == cap && states[i].semMax == semMax
  {
    if i == 0 {
      InitInv(cap, semMax, threads);
    } else {
      RunKeepsInv(cap, semMax, threads, states, acts, i - 1);
      assert Step(states[i - 1], acts[i - 1], states[i]);
      StepKeepsInv(states[i - 1], acts[i - 1], states[i]);
      StepKeepsParties(states[i - 1], acts[i - 1]);
    }
  }

  lemma StepKeepsParties(s: State, a: Action)
    requires Enabled(s, a) && OwnerOk(s)
    ensures Do(s, a).cap == s.cap && Do(s, a).semMax == s.semMax && Do(s, a).callers.Keys == s.callers.Keys
  {
  }
}
