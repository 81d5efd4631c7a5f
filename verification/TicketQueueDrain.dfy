/** `popAll` never deadlocks, and under weak fairness it always returns. */
module TicketQueueDrain {
  import opened Common
  import opened TicketQueue
  import opened TicketQueueSafety

  /** A call of `popAll` has begun and has not returned. */
  predicate Draining(s: State) {
    !s.consumer.Resting?
  }

  /** The step `popAll` waits for: its own, or the one of the producer of the ticket it awaits. */
  function Helper(s: State): Action
    requires WellFormed(s)
  {
    if ConsumerEnabled(s) || Oldest(s) >= |s.reserved| then ConsumerStep
    else ProducerStep(s.reserved[Oldest(s)].thread)
  }

  /** The steps ticket k still needs before it is published. */
  function Remaining(s: State, k: nat): nat {
    if !HeldUnpublished(s, k) then 0
    else match s.producers[s.reserved[k].thread].phase
      case AwaitSlot => 3
      case FillSlot => 2
      case _ => 1
  }

  /** A bound on the helpful steps left before `popAll` returns. */
  function Rank(s: State): nat {
    match s.consumer
    case Drain(h, n, i, step) =>
      var left := if i <= n then n - i else 0;
      var inner := match step case AwaitEntry => 8 case TakeEntry => 4 case FreeSlot => 3;
      16 * left + inner + if i < n then Remaining(s, h + i) else 0
    case ReadTail(_) => 16 * s.cap + 16
    case Discount(_) => 1
    case Resting => 0
  }

  /** Deadlock freedom: whenever `popAll` spins on a slot, one producer and no other holds the
      awaited ticket unpublished, and that producer can take its next step. */
  lemma AwaitedTicketIsInGoodHands(s: State)
    requires Inv(s) && !ConsumerEnabled(s)
    ensures Oldest(s) < |s.reserved| && HeldUnpublished(s, Oldest(s))
    ensures ProducerEnabled(s, s.reserved[Oldest(s)].thread)
    ensures forall q | q in s.producers && Unpublished(s.producers[q]) && s.producers[q].t == Oldest(s) ::
              q == s.reserved[Oldest(s)].thread
  {
    var k := Oldest(s);
    assert SlotOk(s, k);
    SlotAlreadyFree(s, s.reserved[k].thread);
    forall q | q in s.producers ensures ProducerOk(s, q) {
    }
  }

  lemma HelperEnabled(s: State)
    requires Inv(s)
    ensures Enabled(s, Helper(s))
  {
    if !ConsumerEnabled(s) {
      AwaitedTicketIsInGoodHands(s);
    }
  }

  /** The helper's step lowers the rank. */
  lemma HelperHelps(s: State, s': State)
    requires Inv(s) && Draining(s) && Step(s, Helper(s), s')
    ensures Rank(s') < Rank(s)
  {
    if ConsumerEnabled(s) {
      ConsumerHelps(s);
    } else {
      AwaitedTicketIsInGoodHands(s);
      ProducerHelps(s, s.reserved[Oldest(s)].thread);
    }
  }

  lemma TailLoadHelps(s: State)
    requires WellFormed(s) && s.consumer.ReadTail? && s.consumer.h == s.head && s.tail <= s.head + s.cap
    ensures ConsumerEnabled(s) && Rank(StepConsumer(s)) < Rank(s)
  {
  }

  lemma ConsumerHelps(s: State)
    requires Inv(s) && Draining(s) && ConsumerEnabled(s)
    ensures Rank(StepConsumer(s)) < Rank(s)
  {
    if s.consumer.ReadTail? {
      TailLoadHelps(s);
    } else {
      DrainStepHelps(s);
    }
  }

  lemma DrainStepHelps(s: State)
    requires WellFormed(s) && ConsumerOk(s) && (s.consumer.Drain? || s.consumer.Discount?) && ConsumerEnabled(s)
    ensures Rank(StepConsumer(s)) < Rank(s)
  {
  }

  lemma ProducerHelps(s: State, p: Thread)
    requires Inv(s) && s.consumer.Drain? && s.consumer.step == AwaitEntry && s.consumer.i < s.consumer.n
    requires Oldest(s) < |s.reserved| && s.reserved[Oldest(s)].thread == p
    requires HeldUnpublished(s, Oldest(s)) && ProducerEnabled(s, p)
    ensures Rank(StepProducer(s, p)) < Rank(s)
  {
  }

  /** A producer's step moves that producer only, and may add a ticket at the end. */
  lemma ProducerFrame(s: State, p: Thread)
    requires WellFormed(s) && |s.reserved| == s.tail && ProducerEnabled(s, p)
    ensures var s' := StepProducer(s, p);
      && s'.consumer == s.consumer && s'.head == s.head && s.reserved <= s'.reserved
      && s'.producers == s.producers[p := s'.producers[p]]
      && (Unpublished(s'.producers[p]) ==> Unpublished(s.producers[p]) || s'.producers[p].t == |s.reserved|)
      && (Unpublished(s'.producers[p]) && Unpublished(s.producers[p]) ==> s'.producers[p].t == s.producers[p].t)
  {
  }

  /** `popAll` waits exactly while the awaited ticket is unpublished. */
  lemma WaitsIffUnpublished(s: State)
    requires Core(s) && s.consumer.Drain? && s.consumer.i < s.consumer.n && s.consumer.step == AwaitEntry
    ensures ConsumerEnabled(s) <==> !HeldUnpublished(s, Oldest(s))
  {
    assert SlotOk(s, Oldest(s));
  }

  /** The awaited ticket is as far as it was, unless its producer moved. */
  lemma TicketStays(s: State, p: Thread, k: nat)
    requires Core(s) && ProducerEnabled(s, p) && k < |s.reserved|
    requires HeldUnpublished(s, k) ==> p != s.reserved[k].thread
    ensures Remaining(StepProducer(s, p), k) == Remaining(s, k)
    ensures HeldUnpublished(StepProducer(s, p), k) == HeldUnpublished(s, k)
  {
    ProducerFrame(s, p);
    assert s.reserved[k].thread in s.producers;
    assert ProducerOk(s, p);
  }

  /** Any other step leaves the rank and the helper as they are. */
  lemma OthersDoNotHurt(s: State, a: Action, s': State)
    requires Core(s) && Draining(s) && Step(s, a, s') && a != Helper(s)
    ensures Draining(s') && Rank(s') == Rank(s) && WellFormed(s') && Helper(s') == Helper(s)
  {
    CoreStep(s, a, s');
    match a
    case ProducerStep(p) => OtherProducersDoNotHurt(s, p);
    case Call(p, text) => LocalMovesDoNotHurt(s, p, LoadTail(Entry(p, text)));
    case SpuriousFailure(p) => LocalMovesDoNotHurt(s, p, LoadTail(s.producers[p].entry));
    case Stutter =>
  }

  lemma SameRank(s: State, s': State)
    requires s'.consumer == s.consumer && s'.cap == s.cap
    requires s.consumer.Drain? && s.consumer.i < s.consumer.n ==> Remaining(s', Oldest(s)) == Remaining(s, Oldest(s))
    ensures Rank(s') == Rank(s)
  {
  }

  lemma SameHelper(s: State, s': State)
    requires WellFormed(s) && WellFormed(s') && s'.consumer == s.consumer && s'.head == s.head
    requires ConsumerEnabled(s') <==> ConsumerEnabled(s)
    requires (Oldest(s) < |s.reserved| && s.reserved <= s'.reserved) || ConsumerEnabled(s)
    ensures Helper(s') == Helper(s)
  {
  }

  lemma OtherProducersDoNotHurt(s: State, p: Thread)
    requires Core(s) && Draining(s) && ProducerEnabled(s, p) && ProducerStep(p) != Helper(s)
    requires Core(StepProducer(s, p))
    ensures var s' := StepProducer(s, p); Draining(s') && Rank(s') == Rank(s) && Helper(s') == Helper(s)
  {
    var s' := StepProducer(s, p);
    ProducerFrame(s, p);
    if s.consumer.Drain? && s.consumer.i < s.consumer.n {
      if s.consumer.step == AwaitEntry {
        WaitsIffUnpublished(s);
        WaitsIffUnpublished(s');
      }
      TicketStays(s, p, Oldest(s));
    }
    SameRank(s, s');
    SameHelper(s, s');
  }

  lemma LocalMovesDoNotHurt(s: State, p: Thread, pc: Producer)
    requires Core(s) && Draining(s) && p in s.producers
    requires !Unpublished(s.producers[p]) && !Unpublished(pc)
    ensures var s' := At(s, p, pc); Draining(s') && Rank(s') == Rank(s) && Helper(s') == Helper(s)
  {
  }

  // ---------------------------------------------------------------- infinite fair runs

  ghost predicate EndlessRun(cap: nat, threads: set<Thread>, run: nat -> State, act: nat -> Action) {
    && 0 < cap < WORD
    && run(0) == Init(cap, threads)
    && forall i: nat :: Step(run(i), act(i), run(i + 1))
  }

  predicate Acts(act: nat -> Action, a: Action, j: nat) {
    act(j) == a
  }

  predicate Blocked(run: nat -> State, a: Action, j: nat) {
    WellFormed(run(j)) && !Enabled(run(j), a)
  }

  ghost predicate ServedFrom(run: nat -> State, act: nat -> Action, a: Action, i: nat) {
    exists j: nat :: i <= j && (Acts(act, a, j) || Blocked(run, a, j))
  }

  /** Weak fairness: no step of a producer or of the consumer stays enabled for ever untaken. */
  ghost predicate Fair(run: nat -> State, act: nat -> Action) {
    forall a: Action, i: nat | a.ProducerStep? || a.ConsumerStep? :: ServedFrom(run, act, a, i)
  }

  lemma {:induction false} EndlessInv(cap: nat, threads: set<Thread>, run: nat -> State, act: nat -> Action, i: nat)
    requires EndlessRun(cap, threads, run, act)
    ensures Inv(run(i))
  {
    if i == 0 {
      InitInv(cap, threads);
    } else {
      EndlessInv(cap, threads, run, act, i - 1);
      assert Step(run(i - 1), act(i - 1), run(i - 1 + 1));
      StepKeepsInv(run(i - 1), act(i - 1), run(i));
    }
  }

  /** Until its helper moves, a draining call keeps its rank and its helper; when j ends the
      wait, some step no later than j has lowered the rank. */
  lemma {:induction false} HelperMovesBy(cap: nat, threads: set<Thread>, run: nat -> State, act: nat -> Action,
                                         i: nat, j: nat)
    returns (m: nat)
    requires EndlessRun(cap, threads, run, act) && Inv(run(i)) && Draining(run(i)) && i <= j
    requires Acts(act, Helper(run(i)), j) || Blocked(run, Helper(run(i)), j)
    ensures i < m && Rank(run(m)) < Rank(run(i))
    decreases j - i
  {
    var a := Helper(run(i));
    assert Step(run(i), act(i), run(i + 1));
    HelperEnabled(run(i));
    if act(i) == a {
      HelperHelps(run(i), run(i + 1));
      m := i + 1;
    } else {
      OthersDoNotHurt(run(i), act(i), run(i + 1));
      EndlessInv(cap, threads, run, act, i + 1);
      m := HelperMovesBy(cap, threads, run, act, i + 1, j);
    }
  }

  /** Under weak fairness every call of `popAll` returns. */
  lemma {:induction false} DrainCompletes(cap: nat, threads: set<Thread>, run: nat -> State, act: nat -> Action, i: nat)
    returns (m: nat)
    requires EndlessRun(cap, threads, run, act) && Fair(run, act)
    ensures i <= m && !Draining(run(m))
    decreases Rank(run(i))
  {
    if !Draining(run(i)) {
      m := i;
    } else {
      EndlessInv(cap, threads, run, act, i);
      var a := Helper(run(i));
      assert ServedFrom(run, act, a, i);
      var j: nat :| i <= j && (Acts(act, a, j) || Blocked(run, a, j));
      m := HelperMovesBy(cap, threads, run, act, i, j);
      m := DrainCompletes(cap, threads, run, act, m);
    }
  }

  // ---------------------------------------------------------------- a consumer left alone

  /** Only the consumer moves. */
  ghost predicate ConsumerRun(states: seq<State>) {
    && states != []
    && forall i {:trigger states[i]} | 0 <= i < |states| - 1 :: Step(states[i], ConsumerStep, states[i + 1])
  }

  predicate AllPublished(s: State) {
    forall p | p in s.producers :: !Unpublished(s.producers[p])
  }

  /** Where head will be when the call returns. */
  function WillReach(s: State): nat {
    match s.consumer
    case ReadTail(_) => s.tail
    case Drain(h, n, _, _) => h + n
    case _ => s.head
  }

  lemma ConsumerMoves(s: State)
    requires Inv(s) && AllPublished(s)
    ensures ConsumerEnabled(s) && Step(s, ConsumerStep, StepConsumer(s))
  {
    if !ConsumerEnabled(s) {
      AwaitedTicketIsInGoodHands(s);
    }
  }

  lemma ConsumerReach(s: State)
    requires WellFormed(s) && ConsumerEnabled(s) && !s.consumer.Resting?
    requires s.consumer.ReadTail? ==> s.consumer.h == s.head <= s.tail
    ensures var s' := StepConsumer(s);
      WillReach(s') == WillReach(s) && s'.reserved == s.reserved && s'.producers == s.producers
  {
  }

  lemma ReadTailFacts(s: State)
    requires Inv(s)
    ensures s.consumer.ReadTail? ==> s.consumer.h == s.head <= s.tail
    ensures s.consumer.Resting? ==> s.delivered == s.reserved[..s.head]
    ensures s.head <= |s.reserved| == s.tail
  {
    assert Drained(s) == s.reserved[..s.head];
  }

  lemma {:induction false} ConsumerAlone(s: State) returns (states: seq<State>)
    requires Inv(s) && AllPublished(s) && !s.consumer.Resting?
    ensures ConsumerRun(states) && states[0] == s
    ensures var z := states[|states| - 1];
      Inv(z) && z.consumer.Resting? && z.head == WillReach(s) && z.reserved == s.reserved && z.producers == s.producers
    decreases Rank(s)
  {
    ConsumerMoves(s);
    var s' := StepConsumer(s);
    StepKeepsInv(s, ConsumerStep, s');
    ConsumerHelps(s);
    ReadTailFacts(s);
    ConsumerReach(s);
    states := [s'];
    if !s'.consumer.Resting? {
      states := ConsumerAlone(s');
    }
    states := [s] + states;
  }

  /** A whole call of `popAll` that nobody disturbs, in a queue whose entries are all published: it
      begins at once, returns, and leaves the queue empty with every entry delivered in order. */
  lemma PopAllAlone(cap: nat, threads: set<Thread>, s: State) returns (states: seq<State>)
    requires Reachable(cap, threads, s) && s.consumer.Resting? && AllPublished(s)
    ensures ConsumerRun(states) && states[0] == s
    ensures var z := states[|states| - 1];
      z.consumer.Resting? && z.head == s.tail && z.delivered == s.reserved && z.producers == s.producers
    ensures s.head <= |s.reserved| && s.delivered == s.reserved[..s.head]
  {
    ReachableInv(cap, threads, s);
    ReadTailFacts(s);
    ConsumerMoves(s);
    var s' := StepConsumer(s);
    StepKeepsInv(s, ConsumerStep, s');
    states := ConsumerAlone(s');
    ReadTailFacts(states[|states| - 1]);
    assert s.reserved[..s.tail] == s.reserved;
    states := [s] + states;
  }
}
