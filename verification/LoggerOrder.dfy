/** How each step of the logger treats the program order of every thread's messages. */
module LoggerOrder {
  import opened Common
  import opened LoggerProtocol
  import opened LoggerSafety

  predicate InOrder(ms: seq<Message>) {
    forall i, j | 0 <= i < j < |ms| && ms[i].thread == ms[j].thread :: ms[i].num < ms[j].num
  }

  /** No thread has messages in the queue and in the ring at once. */
  predicate NoStraddler(s: State) {
    forall i, j | 0 <= i < |s.queue| && 0 <= j < |s.ring| :: s.queue[i].thread != s.ring[j].thread
  }

  /** Two adjacent blocks may change places exactly when no thread has messages in both. */
  lemma SwapKeepsOrder(a: seq<Message>, q: seq<Message>, r: seq<Message>)
    requires InOrder(a + q + r)
    ensures InOrder(a + r + q)
       <==> forall i, j | 0 <= i < |q| && 0 <= j < |r| :: q[i].thread != r[j].thread
  {
    var before, after := a + q + r, a + r + q;
    if InOrder(after) {
      forall i, j | 0 <= i < |q| && 0 <= j < |r| ensures q[i].thread != r[j].thread {
        assert before[|a| + i] == q[i] && before[|a| + |q| + j] == r[j];
        assert after[|a| + j] == r[j] && after[|a| + |r| + i] == q[i];
      }
    }
    if forall i, j | 0 <= i < |q| && 0 <= j < |r| :: q[i].thread != r[j].thread {
      forall i, j | 0 <= i < j < |after| && after[i].thread == after[j].thread ensures after[i].num < after[j].num {
        var i', j' := Moved(|a|, |q|, |r|, i), Moved(|a|, |q|, |r|, j);
        assert before[i'] == after[i] && before[j'] == after[j];
      }
    }
  }

  /** Where the k-th element of a + r + q stands in a + q + r. */
  function Moved(a: nat, q: nat, r: nat, k: nat): nat {
    if k < a then k else if k < a + r then k + q else if k < a + r + q then k - r else k
  }

  lemma InsertKeepsOrder(a: seq<Message>, r: seq<Message>, m: Message)
    requires InOrder(a + r)
    requires forall i | 0 <= i < |a| && a[i].thread == m.thread :: a[i].num < m.num
    requires forall i | 0 <= i < |r| :: r[i].thread != m.thread
    ensures InOrder(a + [m] + r)
  {
    var before, after := a + r, a + [m] + r;
    assert forall k | |a| < k < |after| :: after[k] == r[k - |a| - 1];
    forall i, j | 0 <= i < j < |after| && after[i].thread == after[j].thread ensures after[i].num < after[j].num {
      if i != |a| && j != |a| {
        var i', j' := if i < |a| then i else i - 1, if j < |a| then j else j - 1;
        assert before[i'] == after[i] && before[j'] == after[j];
      }
    }
  }

  /** A message in hand is newer than every message of its thread in the pipeline. */
  lemma HandIsNewest(s: State, t: Thread, k: nat)
    requires Inv(s) && t in s.callers && (s.callers[t].Offer? || s.callers[t].Spill?)
    requires k < |Pipeline(s)| && Pipeline(s)[k].thread == t
    ensures s.callers[t].m.thread == t && Pipeline(s)[k].num < s.callers[t].m.num
  {
    assert HandOk(s, t);
    var x := Pipeline(s)[k];
    assert x in multiset(Pipeline(s));
    assert OnceOk(s, x);
    assert OnceOk(s, s.callers[t].m);
  }

  /** A thread with a message in hand has nothing in the ring. */
  lemma HandMeansNotInRing(s: State, t: Thread, k: nat)
    requires Inv(s) && t in s.callers && !s.callers[t].Flushing? && k < |s.ring|
    ensures s.ring[k].thread != t
  {
    assert OwesRingDrain(s, s.ring[k].thread);
  }

  lemma PushQueueKeepsOrder(s: State, t: Thread)
    requires Inv(s) && Enabled(s, PushQueue(t)) && InOrder(Pipeline(s))
    ensures InOrder(s.file + Batch(s) + (s.queue + [s.callers[t].m]) + s.ring)
  {
    var m, front := s.callers[t].m, s.file + Batch(s) + s.queue;
    assert HandOk(s, t);
    forall k | 0 <= k < |front| && front[k].thread == m.thread ensures front[k].num < m.num {
      assert front[k] == Pipeline(s)[k];
      HandIsNewest(s, t, k);
    }
    forall k | 0 <= k < |s.ring| ensures s.ring[k].thread != m.thread {
      HandMeansNotInRing(s, t, k);
    }
    InsertKeepsOrder(front, s.ring, m);
    assert s.file + Batch(s) + (s.queue + [m]) == front + [m];
  }

  lemma PushRingKeepsOrder(s: State, t: Thread)
    requires Inv(s) && Enabled(s, PushRing(t)) && InOrder(Pipeline(s))
    ensures InOrder(Pipeline(s) + [s.callers[t].m])
  {
    var m, all := s.callers[t].m, Pipeline(s);
    assert HandOk(s, t);
    forall k | 0 <= k < |all| && all[k].thread == m.thread ensures all[k].num < m.num {
      HandIsNewest(s, t, k);
    }
    assert all + [] == all && all + [m] + [] == all + [m];
    InsertKeepsOrder(all, [], m);
  }

  lemma PushKeepsOrder(s: State, a: Action)
    requires Inv(s) && Enabled(s, a) && Accepts(s, a) && InOrder(Pipeline(s))
    ensures InOrder(Pipeline(Do(s, a)))
  {
    PushPipeline(s, a);
    if a.PushRing? {
      PushRingKeepsOrder(s, a.t);
    } else {
      PushQueueKeepsOrder(s, a.t);
    }
  }

  /** Every step keeps each thread's messages in program order, except a ring drain, which keeps
      it exactly when no thread has messages in both the queue and the ring. */
  lemma OrderStep(s: State, a: Action)
    requires Inv(s) && Enabled(s, a) && InOrder(Pipeline(s))
    ensures InOrder(Pipeline(Do(s, a))) <==> (a.TakeRing? ==> NoStraddler(s))
  {
    if a.TakeRing? {
      RingDrainPipeline(s);
      SwapKeepsOrder(s.file + Batch(s), s.queue, s.ring);
    } else if Accepts(s, a) {
      PushKeepsOrder(s, a);
    } else {
      PipelineAfter(s, a);
    }
  }

  /** Every ring entry is the latest message of its thread. */
  ghost predicate RingIsLatest(s: State) {
    forall i | 0 <= i < |s.ring| :: Latest(s, s.ring[i])
  }

  predicate Latest(s: State, m: Message) {
    m.thread in s.issued && m.num + 1 == s.issued[m.thread]
  }

  lemma KeepsRingLatest(s: State, a: Action)
    requires Inv(s) && RingIsLatest(s) && Enabled(s, a)
    ensures RingIsLatest(Do(s, a))
  {
    var s' := Do(s, a);
    forall i | 0 <= i < |s'.ring| ensures Latest(s', s'.ring[i]) {
      if i < |s.ring| {
        assert Latest(s, s.ring[i]) && OwesRingDrain(s, s.ring[i].thread);
      } else {
        assert HandOk(s, a.t);
      }
    }
  }

  lemma {:induction false} RunKeepsRingLatest(cap: nat, semMax: nat, threads: set<Thread>,
                                              states: seq<State>, acts: seq<Action>, n: nat)
    requires Run(cap, semMax, threads, states, acts) && n <= |acts|
    ensures Inv(states[n]) && RingIsLatest(states[n])
  {
    RunKeepsInv(cap, semMax, threads, states, acts, n);
    if n > 0 {
      RunKeepsRingLatest(cap, semMax, threads, states, acts, n - 1);
      assert Step(states[n - 1], acts[n - 1], states[n]);
      KeepsRingLatest(states[n - 1], acts[n - 1]);
    }
  }

  /** So a thread's queue entries are older than its ring entry. */
  lemma QueueBeforeRing(s: State, i: nat, j: nat)
    requires Inv(s) && RingIsLatest(s) && i < |s.queue| && j < |s.ring| && s.queue[i].thread == s.ring[j].thread
    ensures s.queue[i].num < s.ring[j].num
  {
    var x, y := s.queue[i], s.ring[j];
    assert Latest(s, y);
    assert x in multiset(s.queue) && y in multiset(s.ring);
    assert multiset(Pipeline(s))[x] >= multiset(s.queue)[x] + multiset(s.ring)[x];
    assert OnceOk(s, x);
  }

  /** Elements i and j show that some thread's messages are out of order. */
  predicate Disorder(ms: seq<Message>, i: nat, j: nat) {
    i < j < |ms| && ms[i].thread == ms[j].thread && ms[i].num >= ms[j].num
  }

  lemma SomeDisorder(ms: seq<Message>) returns (i: nat, j: nat)
    requires !InOrder(ms)
    ensures Disorder(ms, i, j)
  {
    i, j :| 0 <= i < j < |ms| && ms[i].thread == ms[j].thread && ms[i].num >= ms[j].num;
  }

  lemma InsertKeepsDisorder(a: seq<Message>, r: seq<Message>, m: Message)
    requires !InOrder(a + r)
    ensures !InOrder(a + [m] + r)
  {
    var before, after := a + r, a + [m] + r;
    var i, j := SomeDisorder(before);
    var i', j' := if i < |a| then i else i + 1, if j < |a| then j else j + 1;
    assert after[i'] == before[i] && after[j'] == before[j];
    assert Disorder(after, i', j');
  }

  lemma SwapKeepsDisorder(a: seq<Message>, q: seq<Message>, r: seq<Message>)
    requires !InOrder(a + q + r)
    requires forall i, j | 0 <= i < |q| && 0 <= j < |r| && q[i].thread == r[j].thread :: q[i].num < r[j].num
    ensures !InOrder(a + r + q)
  {
    var before, after := a + q + r, a + r + q;
    var i, j := SomeDisorder(before);
    var i', j' := Moved(|a|, |r|, |q|, i), Moved(|a|, |r|, |q|, j);
    assert after[i'] == before[i] && after[j'] == before[j];
    assert |a| <= i < |a| + |q| ==> j < |a| + |q|;
    assert Disorder(after, i', j');
  }

  /** Order once lost is never regained. */
  lemma DisorderStays(s: State, a: Action)
    requires Inv(s) && RingIsLatest(s) && Enabled(s, a) && !InOrder(Pipeline(s))
    ensures !InOrder(Pipeline(Do(s, a)))
  {
    if a.TakeRing? {
      RingDrainPipeline(s);
      forall i, j | 0 <= i < |s.queue| && 0 <= j < |s.ring| && s.queue[i].thread == s.ring[j].thread
        ensures s.queue[i].num < s.ring[j].num
      {
        QueueBeforeRing(s, i, j);
      }
      SwapKeepsDisorder(s.file + Batch(s), s.queue, s.ring);
    } else if Accepts(s, a) {
      PushKeepsDisorder(s, a);
    } else {
      PipelineAfter(s, a);
    }
  }

  lemma PushKeepsDisorder(s: State, a: Action)
    requires Enabled(s, a) && Accepts(s, a) && !InOrder(Pipeline(s))
    ensures !InOrder(Pipeline(Do(s, a)))
  {
    PushPipeline(s, a);
    if a.PushRing? {
      AppendKeepsDisorder(Pipeline(s), s.callers[a.t].m);
    } else {
      QueueingKeepsDisorder(s.file + Batch(s), s.queue, s.ring, s.callers[a.t].m);
    }
  }

  lemma AppendKeepsDisorder(all: seq<Message>, m: Message)
    requires !InOrder(all)
    ensures !InOrder(all + [m])
  {
    assert all + [] == all && all + [m] + [] == all + [m];
    InsertKeepsDisorder(all, [], m);
  }

  lemma QueueingKeepsDisorder(front: seq<Message>, queue: seq<Message>, ring: seq<Message>, m: Message)
    requires !InOrder(front + queue + ring)
    ensures !InOrder(front + (queue + [m]) + ring)
  {
    assert front + (queue + [m]) + ring == front + queue + [m] + ring;
    InsertKeepsDisorder(front + queue, ring, m);
  }

  predicate AllInOrder(s: State) {
    InOrder(Pipeline(s))
  }

  predicate Quiet(s: State, a: Action) {
    a.TakeRing? ==> NoStraddler(s)
  }

  /** A step leaves all messages in order exactly if they were, and it is no unquiet ring drain. */
  lemma OrderAfter(s: State, a: Action)
    requires Inv(s) && RingIsLatest(s) && Enabled(s, a)
    ensures AllInOrder(Do(s, a)) <==> AllInOrder(s) && Quiet(s, a)
  {
    if InOrder(Pipeline(s)) {
      OrderStep(s, a);
    } else {
      DisorderStays(s, a);
    }
  }

  /** Each of the first n ring drains found no thread with messages in both queue and ring. */
  predicate QuietDrains(states: seq<State>, acts: seq<Action>, n: nat)
    requires n <= |acts| && n <= |states|
  {
    n == 0 || (QuietDrains(states, acts, n - 1) && Quiet(states[n - 1], acts[n - 1]))
  }

  lemma {:induction false} AllQuiet(states: seq<State>, acts: seq<Action>, n: nat)
    requires n <= |acts| && n <= |states|
    ensures QuietDrains(states, acts, n) <==> forall i | 0 <= i < n :: Quiet(states[i], acts[i])
  {
    if n > 0 {
      AllQuiet(states, acts, n - 1);
    }
  }
}
