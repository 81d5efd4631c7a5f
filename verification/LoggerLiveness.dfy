/** Under weak fairness, and while nobody asks the logger to stop, every accepted message is
    eventually written. */
module LoggerLiveness {
  import opened Common
  import opened LoggerProtocol
  import opened LoggerSafety

  /** In the queue, in the ring, or taken by the flush in progress. */
  predicate Waiting(s: State, m: Message) {
    m in Batch(s) || m in s.ring || m in s.queue
  }

  function IndexOf(ms: seq<Message>, m: Message): nat {
    if ms == [] || ms[0] == m then 0 else 1 + IndexOf(ms[1..], m)
  }

  lemma {:induction false} IndexOfAppend(a: seq<Message>, b: seq<Message>, m: Message)
    requires m in a
    ensures IndexOf(a + b, m) == IndexOf(a, m)
  {
    if a[0] != m {
      assert (a + b)[1..] == a[1..] + b;
      IndexOfAppend(a[1..], b, m);
    }
  }

  /** How far the writer is from taking the queue. */
  function WriterDistance(s: State): nat {
    match s.writer
    case WriterFlush(_) => 2
    case Recheck => 3
    case Acquire => if s.sem > 0 then 4 else 5
    case Check => 6
    case Done => 7
  }

  /** Stages before m is written, and entries before it (or before the end of the flush that must
      end first). */
  function Stage(s: State, m: Message): nat {
    if m in Batch(s) then (if s.flush.QueueTaken? then 1 else 0)
    else if m in s.ring then
      match s.flush case QueueTaken(_, _) => 2 case NoFlush => 3 case Writing(_, _) => 4
    else
      match s.flush case NoFlush => WriterDistance(s) case Writing(_, _) => 8 case QueueTaken(_, _) => 9
  }

  function Ahead(s: State, m: Message): nat {
    if m in Batch(s) then IndexOf(Batch(s), m) else |Batch(s)|
  }

  /** One of the steps m waits for. */
  predicate Helps(s: State, m: Message, a: Action) {
    if s.flush.QueueTaken? then a == TakeRing
    else if s.flush.Writing? then a == if s.flush.batch == [] then EndFlush else WriteOne
    else if m in s.ring then a == TakeQueue(Logging(m.thread))
    else if s.writer.WriterFlush? then a == TakeQueue(TheWriter)
    else if s.writer.Acquire? && s.sem == 0 then a.Release? && Enabled(s, a)
    else a == WriterStep
  }

  predicate Nearer(s: State, m: Message, s': State) {
    || m in s'.file
    || (Waiting(s', m) && (Stage(s', m) < Stage(s, m) || (Stage(s', m) == Stage(s, m) && Ahead(s', m) < Ahead(s, m))))
  }

  /** While a message waits there is a step it waits for. */
  lemma SomeoneHelps(s: State, m: Message) returns (a: Action)
    requires Inv(s) && Waiting(s, m)
    ensures Helps(s, m, a)
  {
    if s.flush.QueueTaken? {
      a := TakeRing;
    } else if s.flush.Writing? {
      a := if s.flush.batch == [] then EndFlush else WriteOne;
    } else if m in s.ring {
      a := TakeQueue(Logging(m.thread));
    } else if s.writer.WriterFlush? {
      a := TakeQueue(TheWriter);
    } else if s.writer.Acquire? && s.sem == 0 {
      assert SomeoneSignals(s);
      var t :| t in s.callers && s.callers[t].Signal?;
      a := Release(t);
    } else {
      a := WriterStep;
    }
  }

  lemma HelperEnabled(s: State, m: Message, a: Action)
    requires Inv(s) && s.closer.Open? && Waiting(s, m) && Helps(s, m, a)
    ensures Enabled(s, a)
  {
    if m in s.ring {
      var i :| 0 <= i < |s.ring| && s.ring[i] == m;
      assert OwesRingDrain(s, s.ring[i].thread);
    }
  }

  /** That step brings the message nearer the file. */
  lemma HelperHelps(s: State, m: Message, a: Action)
    requires Inv(s) && s.closer.Open? && Waiting(s, m) && Helps(s, m, a) && Enabled(s, a)
    ensures Nearer(s, m, Do(s, a))
  {
    if a.TakeRing? && m in s.flush.batch {
      IndexOfAppend(s.flush.batch, s.ring, m);
    }
  }

  /** m is as far as it was, and waits for the same step. */
  predicate Stays(s: State, m: Message, s': State, a: Action) {
    Waiting(s', m) && Stage(s', m) == Stage(s, m) && Ahead(s', m) == Ahead(s, m) && Helps(s', m, a)
  }

  lemma CallersDoNotHurt(s: State, m: Message, a: Action, b: Action)
    requires Inv(s) && Waiting(s, m) && Helps(s, m, a) && Enabled(s, b) && b != a
    requires b.Log? || b.CallFlush? || b.PushQueue? || b.RefuseQueue? || b.Release? || b.PushRing?
    ensures Nearer(s, m, Do(s, b)) || Stays(s, m, Do(s, b), a)
  {
    var s' := Do(s, b);
    if b.PushRing? {
      NotInHand(s, m, b.t);
    }
    assert s'.flush == s.flush && s'.writer == s.writer && (m in s'.ring <==> m in s.ring);
  }

  lemma WriterDoesNotHurt(s: State, m: Message, a: Action)
    requires Inv(s) && s.closer.Open? && Waiting(s, m) && Helps(s, m, a) && Enabled(s, WriterStep) && a != WriterStep
    ensures Nearer(s, m, Do(s, WriterStep)) || Stays(s, m, Do(s, WriterStep), a)
  {
  }

  lemma FlushesDoNotHurt(s: State, m: Message, a: Action, b: Action)
    requires Inv(s) && Waiting(s, m) && Helps(s, m, a) && Enabled(s, b) && b != a
    requires b.TakeQueue? || b.TakeRing? || b.WriteOne? || b.EndFlush?
    ensures Nearer(s, m, Do(s, b))
  {
  }

  /** Any other step brings it nearer too, or leaves it where it was, waiting for the same step. */
  lemma OthersDoNotHurt(s: State, m: Message, a: Action, b: Action)
    requires Inv(s) && s.closer.Open? && Waiting(s, m) && Helps(s, m, a)
    requires Enabled(s, b) && b != a && Do(s, b).closer.Open?
    ensures Nearer(s, m, Do(s, b)) || Stays(s, m, Do(s, b), a)
  {
    match b
    case WriterStep => WriterDoesNotHurt(s, m, a);
    case TakeQueue(_) => FlushesDoNotHurt(s, m, a, b);
    case TakeRing => FlushesDoNotHurt(s, m, a, b);
    case WriteOne => FlushesDoNotHurt(s, m, a, b);
    case EndFlush => FlushesDoNotHurt(s, m, a, b);
    case CloserStep =>
    case _ => CallersDoNotHurt(s, m, a, b);
  }

  lemma NotInHand(s: State, m: Message, t: Thread)
    requires Inv(s) && Waiting(s, m) && t in s.callers && s.callers[t].Spill?
    ensures s.callers[t].m != m
  {
    assert OnceOk(s, m) && HandOk(s, t);
    assert m in multiset(Pipeline(s));
  }

  // ---------------------------------------------------------------- infinite fair runs

  /** An infinite run without a stop request; at step i nothing happens, or act(i). */
  ghost predicate EndlessRun(cap: nat, semMax: nat, threads: set<Thread>,
                             run: nat -> State, act: nat -> Option<Action>)
  {
    && 0 < cap && 0 < semMax
    && run(0) == Init(cap, semMax, threads)
    && (forall i: nat :: Next(run(i), act(i), run(i + 1)))
    && (forall i: nat :: Running(run(i)))
  }

  predicate Next(s: State, a: Option<Action>, s': State) {
    if a.None? then s' == s else Step(s, a.value, s')
  }

  predicate Running(s: State) {
    s.closer.Open?
  }

  predicate Served(run: nat -> State, act: nat -> Option<Action>, a: Action, j: nat) {
    act(j) == Some(a) || !Enabled(run(j), a)
  }

  ghost predicate ServedFrom(run: nat -> State, act: nat -> Option<Action>, a: Action, i: nat) {
    exists j: nat :: i <= j && Served(run, act, a, j)
  }

  /** Weak fairness: no step of the writer, of a flush, or of a thread about to release stays
      enabled for ever untaken. Nothing is asked of threads elsewhere in `log`. */
  ghost predicate Fair(run: nat -> State, act: nat -> Option<Action>) {
    forall a: Action, i: nat |
      a.WriterStep? || a.Release? || a.TakeQueue? || a.TakeRing? || a.WriteOne? || a.EndFlush? ::
      ServedFrom(run, act, a, i)
  }

  lemma {:induction false} EndlessInv(cap: nat, semMax: nat, threads: set<Thread>,
                                      run: nat -> State, act: nat -> Option<Action>, i: nat)
    requires EndlessRun(cap, semMax, threads, run, act)
    ensures Inv(run(i)) && run(i).closer.Open?
  {
    assert Running(run(i));
    if i == 0 {
      InitInv(cap, semMax, threads);
    } else {
      EndlessInv(cap, semMax, threads, run, act, i - 1);
      assert Next(run(i - 1), act(i - 1), run(i - 1 + 1));
      if act(i - 1).Some? {
        StepKeepsInv(run(i - 1), act(i - 1).value, run(i));
      }
    }
  }

  lemma NextStepHelps(s: State, m: Message, a: Action, b: Option<Action>, s': State)
    requires Inv(s) && s.closer.Open? && Waiting(s, m) && Helps(s, m, a) && Next(s, b, s') && s'.closer.Open?
    ensures b == Some(a) ==> Nearer(s, m, s')
    ensures b != Some(a) ==> Nearer(s, m, s') || Stays(s, m, s', a)
  {
    if b == Some(a) {
      HelperHelps(s, m, a);
    } else if b.Some? {
      OthersDoNotHurt(s, m, a, b.value);
    }
  }

  lemma StillNearer(s: State, m: Message, s1: State, a: Action, s2: State)
    requires Stays(s, m, s1, a) && Nearer(s1, m, s2)
    ensures Nearer(s, m, s2)
  {
  }

  /** If the step m waits for is served at j, some step no later than j brings m nearer. */
  lemma {:induction false} NearerBy(cap: nat, semMax: nat, threads: set<Thread>,
                                    run: nat -> State, act: nat -> Option<Action>,
                                    m: Message, a: Action, i: nat, j: nat)
      returns (k: nat)
    requires EndlessRun(cap, semMax, threads, run, act) && i <= j
    requires Waiting(run(i), m) && Helps(run(i), m, a) && Served(run, act, a, j)
    ensures i < k && Nearer(run(i), m, run(k))
    decreases j - i
  {
    EndlessInv(cap, semMax, threads, run, act, i);
    HelperEnabled(run(i), m, a);
    assert Next(run(i), act(i), run(i + 1)) && Running(run(i + 1));
    NextStepHelps(run(i), m, a, act(i), run(i + 1));
    k := i + 1;
    if !Nearer(run(i), m, run(i + 1)) {
      k := NearerBy(cap, semMax, threads, run, act, m, a, i + 1, j);
      StillNearer(run(i), m, run(i + 1), a, run(k));
    }
  }

  /** Liveness: on every fair run without a stop request each accepted message reaches the file. */
  lemma {:induction false} AcceptedIsWritten(cap: nat, semMax: nat, threads: set<Thread>,
                                             run: nat -> State, act: nat -> Option<Action>, m: Message, i: nat)
      returns (k: nat)
    requires EndlessRun(cap, semMax, threads, run, act) && Fair(run, act)
    requires Waiting(run(i), m)
    ensures i < k && m in run(k).file
    decreases Stage(run(i), m), Ahead(run(i), m)
  {
    EndlessInv(cap, semMax, threads, run, act, i);
    var a := SomeoneHelps(run(i), m);
    HelperEnabled(run(i), m, a);
    assert ServedFrom(run, act, a, i);
    var j: nat :| i <= j && Served(run, act, a, j);
    k := NearerBy(cap, semMax, threads, run, act, m, a, i, j);
    if m !in run(k).file {
      k := AcceptedIsWritten(cap, semMax, threads, run, act, m, k);
    }
  }
}
