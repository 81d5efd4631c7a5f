/** Calls of the logger that nobody disturbs: what the protocol comes to for a single thread. */
module LoggerAlone {
  import opened Common
  import opened LoggerProtocol

  ghost predicate Leads(states: seq<State>, acts: seq<Action>, s: State, z: State) {
    && |states| == |acts| + 1 && states[0] == s && states[|acts|] == z
    && forall i {:trigger acts[i]} | 0 <= i < |acts| :: Step(states[i], acts[i], states[i + 1])
  }

  /** Some sequence of steps leads from s to z. */
  ghost predicate Reaches(s: State, z: State) {
    exists states, acts :: Leads(states, acts, s, z)
  }

  lemma Stays(s: State)
    ensures Reaches(s, s)
  {
    assert Leads([s], [], s, s);
  }

  lemma Then(s: State, z: State, a: Action) returns (z': State)
    requires Reaches(s, z) && Enabled(z, a)
    ensures z' == Do(z, a) && Reaches(s, z')
  {
    z' := Do(z, a);
    var states, acts :| Leads(states, acts, s, z);
    var states', acts' := states + [z'], acts + [a];
    forall i {:trigger acts'[i]} | 0 <= i < |acts'| ensures Step(states'[i], acts'[i], states'[i + 1]) {
      if i < |acts| {
        assert acts'[i] == acts[i];
      }
    }
    assert Leads(states', acts', s, z');
  }

  /** Nobody is flushing, and t is idle. */
  predicate Free(s: State, t: Thread) {
    s.callers.Keys == s.issued.Keys && t in s.callers && s.callers[t].Idle? && s.flush.NoFlush?
  }

  /** All that is waiting, written. */
  function Flushed(s: State): State {
    s.(file := s.file + s.queue + s.ring, queue := [], ring := [])
  }

  lemma {:induction false} WritesBatch(s: State, z: State, t: Thread) returns (z': State)
    requires Reaches(s, z) && z.callers.Keys == z.issued.Keys && z.flush.Writing?
    ensures Reaches(s, z')
    ensures z' == z.(file := z.file + z.flush.batch, flush := Writing(z.flush.who, []))
    decreases |z.flush.batch|
  {
    var batch := z.flush.batch;
    if batch == [] {
      assert z.file + batch == z.file;
      z' := z;
    } else {
      z' := Then(s, z, WriteOne);
      z' := WritesBatch(s, z', t);
      assert z.file + [batch[0]] + batch[1..] == z.file + batch;
    }
  }

  /** From the call to the return of a flush. */
  lemma FlushRuns(s: State, z: State, t: Thread) returns (z': State)
    requires Reaches(s, z) && z.callers.Keys == z.issued.Keys && z.flush.NoFlush?
    requires t in z.callers && z.callers[t].Flushing?
    ensures Reaches(s, z') && z' == At(Flushed(z), t, Idle)
  {
    var z1 := Then(s, z, TakeQueue(Logging(t)));
    var z2 := Then(s, z1, TakeRing);
    var z3 := WritesBatch(s, z2, t);
    z' := Then(s, z3, EndFlush);
    assert z.file + (z.queue + z.ring) == z.file + z.queue + z.ring;
  }

  /** An idle thread can call `flush` at any time, and undisturbed the call writes all that waits,
      queue first, and changes nothing else. */
  lemma FlushAlone(s: State, t: Thread)
    requires Free(s, t)
    ensures Reaches(s, Flushed(s))
  {
    Stays(s);
    var z := Then(s, s, CallFlush(t));
    z := FlushRuns(s, z, t);
    assert z.callers == s.callers;
  }

  /** An idle thread can call `log` until `deinitialize` has returned. */
  lemma LogBegins(s: State, t: Thread) returns (z: State)
    requires Free(s, t) && !s.closer.Closed?
    ensures var m := Message(t, s.issued[t]);
      z == At(s, t, Offer(m)).(issued := s.issued[t := m.num + 1]) && Reaches(s, z)
  {
    Stays(s);
    z := Then(s, s, Log(t));
  }

  /** Undisturbed, and with room in the queue, the message is put there and the writer signalled. */
  lemma LogQueues(s: State, t: Thread)
    requires Free(s, t) && !s.closer.Closed? && |s.queue| < s.cap
    ensures var m := Message(t, s.issued[t]);
      Reaches(s, s.(issued := s.issued[t := m.num + 1], queue := s.queue + [m], sem := Released(s)))
  {
    var z := LogBegins(s, t);
    z := Then(s, z, PushQueue(t));
    z := Then(s, z, Release(t));
    assert z.callers == s.callers;
  }

  /** If the queue refuses it, it goes to the ring and everything is written, it last; if the ring is
      full too it is dropped, and nothing else happens. */
  lemma LogOverflows(s: State, t: Thread)
    requires Free(s, t) && !s.closer.Closed?
    ensures var m := Message(t, s.issued[t]);
      var s' := s.(issued := s.issued[t := m.num + 1]);
      Reaches(s, if |s.ring| < s.cap then Flushed(s'.(ring := s.ring + [m])) else s'.(dropped := s.dropped + [m]))
  {
    var z := LogBegins(s, t);
    z := Then(s, z, RefuseQueue(t));
    z := Then(s, z, PushRing(t));
    if |s.ring| < s.cap {
      z := FlushRuns(s, z, t);
    }
    assert z.callers == s.callers;
  }
}
