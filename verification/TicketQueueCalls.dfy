/** What single calls of `tryPush` and `popAll` come to, whatever the others do meanwhile. */
module TicketQueueCalls {
  import opened Common
  import opened TicketQueue
  import opened TicketQueueSafety

  // ---------------------------------------------------------------- refusals

  /** Between s and s' a call of `tryPush` by p has returned false. */
  predicate Refused(s: State, s': State, p: Thread) {
    && p in s.producers && p in s'.producers && p in s.returned && p in s'.returned
    && !s.producers[p].Idle? && s'.producers[p].Idle?
    && s'.returned[p] == s.returned[p]
  }

  /** What the invariant says of p alone: its readings are old, and the full test means what it should. */
  predicate Local(s: State, p: Thread) {
    && p in s.producers && p in s.returned
    && s.head <= s.tail <= s.head + s.cap
    && s.tail + s.cap < WORD
    && match s.producers[p]
       case LoadHead(_, t) => t <= s.tail && (WordSub(t, s.head) >= s.cap <==> t >= s.head + s.cap || t < s.head)
       case Reserve(_, t, _) => t <= s.tail && (t == s.tail ==> s.tail < s.head + s.cap)
       case _ => true
  }

  lemma LocalFacts(s: State, p: Thread)
    requires Inv(s) && p in s.producers
    ensures Local(s, p)
  {
    assert ProducerOk(s, p);
    if s.producers[p].LoadHead? {
      FullGuard(s.producers[p].t, s.head, s.cap);
    }
  }

  lemma OwnStepEnds(s: State, a: Action, s': State, p: Thread)
    requires Step(s, a, s') && Refused(s, s', p)
    ensures a == ProducerStep(p)
  {
  }

  lemma RefusedAtLoadHead(s: State, p: Thread)
    requires WellFormed(s) && ProducerEnabled(s, p) && Local(s, p) && Refused(s, StepProducer(s, p), p)
    ensures s.producers[p].LoadHead?
    ensures s.tail == s.head + s.cap || s.producers[p].t < s.head
  {
  }

  /** No call is refused but for two reasons: the queue is full at that moment, or head has passed
      the tail the producer read. */
  lemma RefusedOnlyWhen(cap: nat, threads: set<Thread>, s: State, a: Action, s': State, p: Thread)
    requires Reachable(cap, threads, s) && Step(s, a, s') && Refused(s, s', p)
    ensures a == ProducerStep(p) && s.producers[p].LoadHead?
    ensures s.tail == s.head + cap || s.producers[p].t < s.head
  {
    ReachableInv(cap, threads, s);
    LocalFacts(s, p);
    OwnStepEnds(s, a, s', p);
    RefusedAtLoadHead(s, p);
  }

  // ---------------------------------------------------------------- a producer left alone

  /** Only p moves, from a call in progress to its return. */
  ghost predicate AloneRun(states: seq<State>, p: Thread) {
    && states != []
    && (forall i {:trigger states[i]} | 0 <= i < |states| :: p in states[i].producers && p in states[i].returned)
    && (forall i {:trigger states[i]} | 0 <= i < |states| - 1 ::
          Step(states[i], ProducerStep(p), states[i + 1]) && !states[i].producers[p].Idle?)
    && states[|states| - 1].producers[p].Idle?
  }

  /** Left alone, p's call will be refused: the queue is full, or p read a tail that head has passed. */
  predicate WillRefuse(s: State, p: Thread)
    requires p in s.producers && !s.producers[p].Idle?
  {
    && !s.producers[p].Holding?
    && (s.tail == s.head + s.cap || (s.producers[p].LoadHead? && s.producers[p].t < s.head))
  }

  /** What p's call comes to. */
  predicate Outcome(s: State, z: State, p: Thread)
    requires p in s.producers && !s.producers[p].Idle? && p in s.returned && p in z.returned
  {
    if WillRefuse(s, p) then
      z.returned == s.returned && z.reserved == s.reserved && z.tail == s.tail
    else
      && z.returned[p] == s.returned[p] + [s.producers[p].entry]
      && z.reserved == (if s.producers[p].Holding? then s.reserved else s.reserved + [s.producers[p].entry])
      && z.tail == (if s.producers[p].Holding? then s.tail else s.tail + 1)
  }

  /** Steps left to p alone; a stale tail costs one more round. */
  function AloneLeft(s: State, p: Thread): nat
    requires p in s.producers
  {
    match s.producers[p]
    case Idle => 0
    case Holding(_, _, phase) => (match phase case AwaitSlot => 4 case FillSlot => 3 case Publish => 2 case Count => 1)
    case Reserve(_, t, _) => if t == s.tail then 5 else 8
    case LoadHead(_, t) => if t == s.tail then 6 else 9
    case LoadTail(_) => 7
  }

  /** There is a ticket left for p, if it still needs one. */
  predicate TicketFor(s: State, p: Thread)
    requires p in s.producers
  {
    s.producers[p].Holding? || s.producers[p].Idle? || s.tail + 1 + s.cap < WORD
  }

  lemma AloneEnabled(s: State, p: Thread)
    requires Inv(s) && p in s.producers && !s.producers[p].Idle?
    ensures ProducerEnabled(s, p)
  {
    if Unpublished(s.producers[p]) {
      SlotAlreadyFree(s, p);
    }
  }

  lemma AloneStep(s: State, p: Thread)
    requires WellFormed(s) && ProducerEnabled(s, p) && Local(s, p) && TicketFor(s, p)
    ensures var s' := StepProducer(s, p);
      && Step(s, ProducerStep(p), s')
      && p in s'.producers && p in s'.returned && AloneLeft(s', p) < AloneLeft(s, p)
      && TicketFor(s', p)
  {
  }

  lemma AloneOutcome(s: State, z: State, p: Thread)
    requires WellFormed(s) && ProducerEnabled(s, p) && Local(s, p) && TicketFor(s, p)
    requires p in StepProducer(s, p).producers && p in StepProducer(s, p).returned && p in z.returned
    requires var s' := StepProducer(s, p); if s'.producers[p].Idle? then z == s' else Outcome(s', z, p)
    ensures Outcome(s, z, p)
  {
  }

  /** `tryPush` by itself, from any point of the call in any state the invariant allows: if nobody
      else moves it returns, and it is refused exactly when the queue is full, or when head has
      passed the tail it had read; otherwise its entry is the next one in the queue and the call is
      answered with success. */
  lemma {:induction false} AloneReturns(s: State, p: Thread) returns (states: seq<State>)
    requires Inv(s) && p in s.producers && !s.producers[p].Idle? && TicketFor(s, p)
    ensures AloneRun(states, p) && states[0] == s && p in s.returned
    ensures Outcome(s, states[|states| - 1], p)
    decreases AloneLeft(s, p)
  {
    AloneEnabled(s, p);
    LocalFacts(s, p);
    AloneStep(s, p);
    var s' := StepProducer(s, p);
    StepKeepsInv(s, ProducerStep(p), s');
    states := [s'];
    if !s'.producers[p].Idle? {
      states := AloneReturns(s', p);
    }
    AloneOutcome(s, states[|states| - 1], p);
    AloneLonger(s, s', states, p);
    states := [s] + states;
  }

  lemma AloneLonger(s: State, s': State, rest: seq<State>, p: Thread)
    requires AloneRun(rest, p) && rest[0] == s' && Step(s, ProducerStep(p), s')
    requires p in s.producers && p in s.returned && !s.producers[p].Idle?
    ensures AloneRun([s] + rest, p)
  {
  }

  lemma AloneTail(states: seq<State>, p: Thread)
    requires AloneRun(states, p) && |states| > 1
    ensures AloneRun(states[1..], p)
    ensures states[1].producers[p].Idle? ==> |states| == 2
  {
    var rest := states[1..];
    forall i {:trigger rest[i]} | 0 <= i < |rest| - 1
      ensures Step(rest[i], ProducerStep(p), rest[i + 1]) && !rest[i].producers[p].Idle?
    {
      assert Step(states[i + 1], ProducerStep(p), states[i + 1 + 1]);
    }
  }

  lemma AloneFirst(states: seq<State>, p: Thread)
    requires AloneRun(states, p) && Inv(states[0]) && !states[0].producers[p].Idle? && TicketFor(states[0], p)
    ensures WellFormed(states[0]) && ProducerEnabled(states[0], p) && Local(states[0], p)
    ensures |states| > 1 && states[1] == StepProducer(states[0], p)
    ensures Inv(states[1]) && p in states[1].producers && p in states[1].returned && TicketFor(states[1], p)
  {
    LocalFacts(states[0], p);
    AloneStep(states[0], p);
    StepKeepsInv(states[0], ProducerStep(p), states[1]);
  }

  /** And it cannot come to anything else. */
  lemma {:induction false} AloneAlways(states: seq<State>, p: Thread)
    requires AloneRun(states, p) && Inv(states[0]) && !states[0].producers[p].Idle? && TicketFor(states[0], p)
    ensures Outcome(states[0], states[|states| - 1], p)
    decreases |states|
  {
    AloneFirst(states, p);
    AloneTail(states, p);
    if !states[1].producers[p].Idle? {
      AloneAlways(states[1..], p);
    }
    AloneOutcome(states[0], states[|states| - 1], p);
  }

  /** A whole call of `tryPush` by an idle thread that nobody disturbs. */
  lemma CallAlone(cap: nat, threads: set<Thread>, s: State, p: Thread, text: string) returns (states: seq<State>)
    requires Reachable(cap, threads, s) && p in s.producers && s.producers[p].Idle?
    requires s.tail + 1 + cap < WORD
    ensures states != [] && Step(s, Call(p, text), states[0]) && AloneRun(states, p) && p in s.returned
    ensures var z, e := states[|states| - 1], Entry(p, text);
      if s.tail - s.head == cap
      then z.returned == s.returned && z.reserved == s.reserved && z.tail == s.tail
      else z.returned[p] == s.returned[p] + [e] && z.reserved == s.reserved + [e] && z.tail == s.tail + 1
  {
    ReachableInv(cap, threads, s);
    var s' := Do(s, Call(p, text));
    StepKeepsInv(s, Call(p, text), s');
    states := AloneReturns(s', p);
  }

  // ---------------------------------------------------------------- what popAll brings

  /** A call of `popAll` has begun, and brings at least the first k tickets. */
  predicate Brings(s: State, k: nat) {
    match s.consumer
    case Resting => k <= |s.delivered|
    case ReadTail(_) => k <= s.tail
    case Drain(h, n, _, _) => k <= h + n
    case Discount(n) => k <= |s.delivered| + |s.batch|
  }

  /** The entries delivered, or about to be, are those below head. */
  predicate Balanced(s: State) {
    && |s.delivered| + (if s.consumer.Discount? then |s.batch| else 0) == s.head <= s.tail == |s.reserved|
    && s.tail + s.cap < WORD
    && s.delivered <= s.reserved
    && (s.consumer.ReadTail? || s.consumer.Drain? ==> s.consumer.h == s.head)
  }

  lemma InvBalanced(s: State)
    requires Inv(s)
    ensures Balanced(s)
  {
    assert Drained(s) == s.reserved[..s.head];
    assert s.delivered <= Drained(s);
  }

  lemma BeginsToBring(s: State, s': State)
    requires Balanced(s) && s.consumer.Resting? && Step(s, ConsumerStep, s')
    ensures Brings(s', s.tail) && s.reserved <= s'.reserved
  {
  }

  lemma ConsumerBrings(s: State, k: nat)
    requires WellFormed(s) && ConsumerEnabled(s) && Balanced(s) && Balanced(StepConsumer(s)) && Brings(s, k)
    ensures Brings(StepConsumer(s), k) && StepConsumer(s).reserved == s.reserved
  {
  }

  lemma OthersFrame(s: State, a: Action, s': State)
    requires Step(s, a, s') && a != ConsumerStep && Balanced(s) && Balanced(s')
    ensures s'.consumer == s.consumer && s'.delivered == s.delivered && s'.batch == s.batch
    ensures s.reserved <= s'.reserved
  {
  }

  lemma KeepsBringing(s: State, a: Action, s': State, k: nat)
    requires Balanced(s) && Balanced(s') && Step(s, a, s') && Brings(s, k)
    ensures Brings(s', k) && s.reserved <= s'.reserved
  {
    if a == ConsumerStep {
      ConsumerBrings(s, k);
    } else {
      OthersFrame(s, a, s');
    }
  }

  lemma BalancedAt(cap: nat, threads: set<Thread>, states: seq<State>, acts: seq<Action>, i: nat)
    requires Run(cap, threads, states, acts) && i < |states|
    ensures Balanced(states[i])
  {
    RunKeepsInv(cap, threads, states, acts, i);
    InvBalanced(states[i]);
  }

  lemma BeginsAt(cap: nat, threads: set<Thread>, states: seq<State>, acts: seq<Action>, i: nat)
    requires Run(cap, threads, states, acts) && i < |acts|
    requires states[i].consumer.Resting? && acts[i] == ConsumerStep
    ensures Brings(states[i + 1], states[i].tail) && states[i].reserved <= states[i + 1].reserved
  {
    BalancedAt(cap, threads, states, acts, i);
    BeginsToBring(states[i], states[i + 1]);
  }

  lemma KeepsBringingAt(cap: nat, threads: set<Thread>, states: seq<State>, acts: seq<Action>, i: nat, k: nat)
    requires Run(cap, threads, states, acts) && i < |acts| && Brings(states[i], k)
    ensures Brings(states[i + 1], k) && states[i].reserved <= states[i + 1].reserved
  {
    BalancedAt(cap, threads, states, acts, i);
    BalancedAt(cap, threads, states, acts, i + 1);
    KeepsBringing(states[i], acts[i], states[i + 1], k);
  }

  lemma {:induction false} StillBrings(cap: nat, threads: set<Thread>, states: seq<State>, acts: seq<Action>,
                                       i: nat, j: nat)
    requires Run(cap, threads, states, acts) && i < j < |states|
    requires states[i].consumer.Resting? && acts[i] == ConsumerStep
    ensures Brings(states[j], states[i].tail) && states[i].reserved <= states[j].reserved
  {
    if j == i + 1 {
      BeginsAt(cap, threads, states, acts, i);
    } else {
      StillBrings(cap, threads, states, acts, i, j - 1);
      KeepsBringingAt(cap, threads, states, acts, j - 1, states[i].tail);
    }
  }

  /** When a call of `popAll` has returned, every entry whose ticket had been won when it was called
      has been delivered, in ticket order, however late its producer published it. */
  lemma PopAllBringsAllThere(cap: nat, threads: set<Thread>, states: seq<State>, acts: seq<Action>, i: nat, j: nat)
    requires Run(cap, threads, states, acts) && i < j < |states|
    requires states[i].consumer.Resting? && acts[i] == ConsumerStep && states[j].consumer.Resting?
    ensures states[i].reserved <= states[j].delivered
  {
    StillBrings(cap, threads, states, acts, i, j);
    BalancedAt(cap, threads, states, acts, i);
    BalancedAt(cap, threads, states, acts, j);
    assert states[j].delivered == states[j].reserved[..|states[j].delivered|];
  }
}
