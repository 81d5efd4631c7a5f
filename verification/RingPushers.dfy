/**
 Pushers racing on the overflow ring between two drains, as a transition system over atomic
 steps: load size, fetch-add size, roll back, fetch-add head, store the entry.
 */
module RingPushers {
  import opened Common

  datatype Pusher =
    | Idle
    | LoadSize(entry: Entry)
    | AddSize(entry: Entry)
    | RollBack(entry: Entry)
    | AddHead(entry: Entry)
    | Store(entry: Entry, ticket: nat)

  /** Shared memory and pushers; `accepted` lists, in head order, the entries whose pusher has
      advanced head since the drain, `stored` the head values whose entries are in place. */
  datatype State = State(
    cap: nat, head: nat, tail: nat, size: int, buffer: seq<Entry>, pushers: map<Thread, Pusher>,
    accepted: seq<Entry>, stored: set<nat>)

  /** The quiet ring the pushers start from: `waiting` between tail and head, all pushers idle. */
  ghost predicate Start(s: State, waiting: seq<Entry>) {
    && 0 < s.cap == |s.buffer| && s.tail < s.cap
    && s.size == |waiting| <= s.cap
    && s.head % s.cap == (s.tail + |waiting|) % s.cap
    && (forall i | 0 <= i < |waiting| :: s.buffer[(s.tail + i) % s.cap] == waiting[i])
    && (forall p | p in s.pushers :: s.pushers[p].Idle?)
    && s.accepted == [] && s.stored == {}
  }

  datatype Action = Call(p: Thread, text: string) | Move(p: Thread)

  predicate Enabled(s: State, a: Action) {
    a.p in s.pushers && (a.Call? <==> s.pushers[a.p].Idle?)
  }

  function At(s: State, p: Thread, pc: Pusher): State {
    s.(pushers := s.pushers[p := pc])
  }

  /** One atomic step; a pusher that returns to `Idle` without storing has been refused. */
  function Do(s: State, a: Action): State
    requires s.cap > 0 && |s.buffer| == s.cap && Enabled(s, a)
  {
    match a
    case Call(p, text) => At(s, p, LoadSize(Entry(p, text)))
    case Move(p) =>
      match s.pushers[p]
      case Idle => s
      case LoadSize(e) => At(s, p, if s.size >= s.cap then Idle else AddSize(e))
      case AddSize(e) => At(s, p, if s.size >= s.cap then RollBack(e) else AddHead(e)).(size := s.size + 1)
      case RollBack(_) => At(s, p, Idle).(size := s.size - 1)
      case AddHead(e) => At(s, p, Store(e, s.head)).(head := s.head + 1, accepted := s.accepted + [e])
      case Store(e, t) => At(s, p, Idle).(buffer := s.buffer[t % s.cap := e], stored := s.stored + {t})
  }

  predicate Step(s: State, a: Action, s': State) {
    s.cap > 0 && |s.buffer| == s.cap && Enabled(s, a) && s' == Do(s, a)
  }

  ghost predicate Run(states: seq<State>, acts: seq<Action>, waiting: seq<Entry>) {
    && |states| == |acts| + 1
    && Start(states[0], waiting)
    && forall i {:trigger acts[i]} | 0 <= i < |acts| :: Step(states[i], acts[i], states[i + 1])
  }

  // ---------------------------------------------------------------- the invariant

  /** Pushers let in by their fetch-add that have not advanced head yet. */
  function Granted(s: State): set<Thread> {
    set p | p in s.pushers && s.pushers[p].AddHead?
  }

  /** Pushers whose fetch-add overshot the capacity and is to be rolled back. */
  function Overshooting(s: State): set<Thread> {
    set p | p in s.pushers && s.pushers[p].RollBack?
  }

  /** Entries in the ring or certain to get there. */
  function Taken(s: State, waiting: seq<Entry>): nat {
    |waiting| + |s.accepted| + |Granted(s)|
  }

  predicate CountOk(s: State, waiting: seq<Entry>) {
    && s.size == Taken(s, waiting) + |Overshooting(s)|
    && Taken(s, waiting) <= s.cap
    && (|Overshooting(s)| > 0 ==> Taken(s, waiting) == s.cap)
  }

  /** The i-th entry behind tail: first those waiting, then those accepted. */
  function Line(s: State, waiting: seq<Entry>): seq<Entry> {
    waiting + s.accepted
  }

  predicate PlaceOk(s: State, waiting: seq<Entry>, i: nat) {
    && 0 < s.cap == |s.buffer|
    && i < |Line(s, waiting)|
    && (i < |waiting| || First(s) + (i - |waiting|) in s.stored ==>
          s.buffer[(s.tail + i) % s.cap] == Line(s, waiting)[i])
  }

  /** The value of head at the start. */
  function First(s: State): int {
    s.head - |s.accepted|
  }

  predicate PusherOk(s: State, p: Thread) {
    p in s.pushers &&
    match s.pushers[p]
    case Store(e, t) => First(s) <= t < s.head && s.accepted[t - First(s)] == e && e.thread == p && t !in s.stored
    case Idle => true
    case _ => s.pushers[p].entry.thread == p
  }

  /** Every accepted entry is in place or still in its pusher's hands. */
  predicate TicketOk(s: State, t: nat) {
    && First(s) <= t < s.head
    && (t in s.stored
        || (s.accepted[t - First(s)].thread in s.pushers
            && s.pushers[s.accepted[t - First(s)].thread] == Store(s.accepted[t - First(s)], t)))
  }

  ghost predicate Inv(s: State, waiting: seq<Entry>) {
    && 0 < s.cap == |s.buffer| && s.tail < s.cap
    && First(s) >= 0 && First(s) % s.cap == (s.tail + |waiting|) % s.cap
    && CountOk(s, waiting)
    && (forall t | t in s.stored :: t < s.head)
    && (forall i | 0 <= i < |Line(s, waiting)| :: PlaceOk(s, waiting, i))
    && (forall p | p in s.pushers :: PusherOk(s, p))
    && (forall t | First(s) <= t < s.head :: TicketOk(s, t))
  }

  // ---------------------------------------------------------------- preservation

  lemma StartInv(s: State, waiting: seq<Entry>)
    requires Start(s, waiting)
    ensures Inv(s, waiting)
  {
    assert Granted(s) == {} && Overshooting(s) == {};
    assert Line(s, waiting) == waiting;
  }

  /** What the slots and tickets say survives any step that keeps head, buffer and history and
      moves one pusher outside `Store`. */
  lemma PlacesKept(s: State, s': State, p: Thread, waiting: seq<Entry>)
    requires Inv(s, waiting) && p in s.pushers && !s.pushers[p].Store?
    requires p in s'.pushers && s' == At(s, p, s'.pushers[p]).(size := s'.size)
    requires !s'.pushers[p].Store? && (!s'.pushers[p].Idle? ==> s'.pushers[p].entry.thread == p)
    requires CountOk(s', waiting)
    ensures Inv(s', waiting)
  {
    forall i | 0 <= i < |Line(s', waiting)| ensures PlaceOk(s', waiting, i) {
      assert PlaceOk(s, waiting, i);
    }
    forall q | q in s'.pushers ensures PusherOk(s', q) {
      assert PusherOk(s, q);
    }
    forall t | First(s') <= t < s'.head ensures TicketOk(s', t) {
      assert TicketOk(s, t);
    }
  }

  lemma GrantedAfter(s: State, s': State, p: Thread, pc: Pusher)
    requires p in s.pushers && s'.pushers == s.pushers[p := pc]
    ensures |Granted(s')| + (if s.pushers[p].AddHead? then 1 else 0) == |Granted(s)| + if pc.AddHead? then 1 else 0
  {
    var others := Granted(s) - {p};
    assert Granted(s) == if s.pushers[p].AddHead? then others + {p} else others;
    assert Granted(s') == if pc.AddHead? then others + {p} else others;
  }

  lemma OvershootingAfter(s: State, s': State, p: Thread, pc: Pusher)
    requires p in s.pushers && s'.pushers == s.pushers[p := pc]
    ensures |Overshooting(s')| + (if s.pushers[p].RollBack? then 1 else 0)
         == |Overshooting(s)| + if pc.RollBack? then 1 else 0
  {
    var others := Overshooting(s) - {p};
    assert Overshooting(s) == if s.pushers[p].RollBack? then others + {p} else others;
    assert Overshooting(s') == if pc.RollBack? then others + {p} else others;
  }

  /** The bookkeeping of size, over every move of a pusher that leaves head alone. */
  lemma CountKept(s: State, s': State, p: Thread, pc: Pusher, waiting: seq<Entry>)
    requires CountOk(s, waiting) && p in s.pushers
    requires s'.pushers == s.pushers[p := pc] && s'.accepted == s.accepted && s'.cap == s.cap
    requires var before := s.pushers[p];
      || (before.AddSize? && pc.RollBack? && s.size >= s.cap && s'.size == s.size + 1)
      || (before.AddSize? && pc.AddHead? && s.size < s.cap && s'.size == s.size + 1)
      || (before.RollBack? && pc.Idle? && s'.size == s.size - 1)
      || (!before.RollBack? && !before.AddHead? && !pc.RollBack? && !pc.AddHead? && s'.size == s.size)
    ensures CountOk(s', waiting)
  {
    GrantedAfter(s, s', p, pc);
    OvershootingAfter(s, s', p, pc);
  }

  lemma KeepsCounting(s: State, a: Action, waiting: seq<Entry>)
    requires Inv(s, waiting) && Enabled(s, a)
    requires a.Move? ==> !s.pushers[a.p].AddHead? && !s.pushers[a.p].Store?
    ensures Inv(Do(s, a), waiting)
  {
    assert PusherOk(s, a.p);
    var s' := Do(s, a);
    CountKept(s, s', a.p, s'.pushers[a.p], waiting);
    PlacesKept(s, s', a.p, waiting);
  }

  lemma AddHeadPlaces(s: State, p: Thread, waiting: seq<Entry>, i: nat)
    requires Inv(s, waiting) && p in s.pushers && s.pushers[p].AddHead?
    requires i < |Line(Do(s, Move(p)), waiting)|
    ensures PlaceOk(Do(s, Move(p)), waiting, i)
  {
    if i < |Line(s, waiting)| {
      assert PlaceOk(s, waiting, i);
    }
  }

  lemma KeepsAddHead(s: State, p: Thread, waiting: seq<Entry>)
    requires Inv(s, waiting) && p in s.pushers && s.pushers[p].AddHead?
    ensures Inv(Do(s, Move(p)), waiting)
  {
    var s' := Do(s, Move(p));
    assert PusherOk(s, p);
    GrantedAfter(s, s', p, s'.pushers[p]);
    OvershootingAfter(s, s', p, s'.pushers[p]);
    forall i | 0 <= i < |Line(s', waiting)| ensures PlaceOk(s', waiting, i) {
      AddHeadPlaces(s, p, waiting, i);
    }
    forall q | q in s'.pushers ensures PusherOk(s', q) {
      assert PusherOk(s, q);
    }
    forall t | First(s') <= t < s'.head ensures TicketOk(s', t) {
      if t < s.head {
        assert TicketOk(s, t);
      }
    }
  }

  /** Ticket t falls in the slot of its place in the line. */
  lemma TicketSlot(s: State, waiting: seq<Entry>, t: nat)
    requires Inv(s, waiting) && First(s) <= t < s.head
    ensures t % s.cap == (s.tail + |waiting| + (t - First(s))) % s.cap
  {
    SlotsAdvance(s.cap, First(s), s.tail + |waiting|, t - First(s));
  }

  lemma StorePlaces(s: State, p: Thread, waiting: seq<Entry>, i: nat)
    requires Inv(s, waiting) && p in s.pushers && s.pushers[p].Store? && i < |Line(s, waiting)|
    ensures PlaceOk(Do(s, Move(p)), waiting, i)
  {
    var t := s.pushers[p].ticket;
    assert PusherOk(s, p);
    TicketSlot(s, waiting, t);
    OnlyItsSlot(s.cap, s.tail, s.tail + |waiting| + (t - First(s)));
    assert PlaceOk(s, waiting, i);
  }

  lemma KeepsStore(s: State, p: Thread, waiting: seq<Entry>)
    requires Inv(s, waiting) && p in s.pushers && s.pushers[p].Store?
    ensures Inv(Do(s, Move(p)), waiting)
  {
    var s' := Do(s, Move(p));
    assert PusherOk(s, p);
    GrantedAfter(s, s', p, Idle);
    OvershootingAfter(s, s', p, Idle);
    forall i | 0 <= i < |Line(s', waiting)| ensures PlaceOk(s', waiting, i) {
      StorePlaces(s, p, waiting, i);
    }
    forall q | q in s'.pushers ensures PusherOk(s', q) {
      assert PusherOk(s, q);
    }
    forall u | First(s') <= u < s'.head ensures TicketOk(s', u) {
      assert TicketOk(s, u);
    }
  }

  lemma StepKeepsInv(s: State, a: Action, s': State, waiting: seq<Entry>)
    requires Inv(s, waiting) && Step(s, a, s')
    ensures Inv(s', waiting)
  {
    if a.Move? && s.pushers[a.p].AddHead? {
      KeepsAddHead(s, a.p, waiting);
    } else if a.Move? && s.pushers[a.p].Store? {
      KeepsStore(s, a.p, waiting);
    } else {
      KeepsCounting(s, a, waiting);
    }
  }

  lemma {:induction false} RunKeepsInv(states: seq<State>, acts: seq<Action>, waiting: seq<Entry>, i: nat)
    requires Run(states, acts, waiting) && i < |states|
    ensures Inv(states[i], waiting)
  {
    if i == 0 {
      StartInv(states[0], waiting);
    } else {
      RunKeepsInv(states, acts, waiting, i - 1);
      assert Step(states[i - 1], acts[i - 1], states[i]);
      StepKeepsInv(states[i - 1], acts[i - 1], states[i], waiting);
    }
  }

  // ---------------------------------------------------------------- results

  /** In every interleaving the ring never takes more than its capacity, and the size word
      overshoots by no more than the pushers about to roll back. */
  lemma AcceptedFits(states: seq<State>, acts: seq<Action>, waiting: seq<Entry>, i: nat)
    requires Run(states, acts, waiting) && i < |states|
    ensures var s := states[i];
      && |waiting| + |s.accepted| <= s.cap
      && 0 <= s.size <= s.cap + |s.pushers|
  {
    RunKeepsInv(states, acts, waiting, i);
    var s := states[i];
    SubsetSize(Overshooting(s), s.pushers.Keys);
    assert |s.pushers.Keys| == |s.pushers|;
  }

  /** So the size word, which is a machine word in the code, never wraps around. */
  lemma SizeWordNeverWraps(states: seq<State>, acts: seq<Action>, waiting: seq<Entry>, i: nat, p: Thread)
    requires Run(states, acts, waiting) && i < |states| && p in states[i].pushers
    requires states[i].cap + |states[i].pushers| + 1 < WORD
    ensures var s := states[i];
      && 0 < s.cap == |s.buffer| && 0 <= s.size < WORD
      && (s.pushers[p].AddSize? ==> Do(s, Move(p)).size == WordAdd(s.size, 1))
      && (s.pushers[p].RollBack? ==> Do(s, Move(p)).size == WordSub(s.size, 1))
  {
    RunKeepsInv(states, acts, waiting, i);
    AcceptedFits(states, acts, waiting, i);
    assert states[i].pushers[p].RollBack? ==> p in Overshooting(states[i]);
  }

  lemma SubsetSize<T>(small: set<T>, large: set<T>)
    requires small <= large
    ensures |small| <= |large|
  {
    assert large == small + (large - small);
  }

  /** A pusher at either size test is turned away exactly when `cap` entries are in the ring or
      certain to get there, whatever overshoot is in flight. */
  lemma RefusedExactlyWhenFull(states: seq<State>, acts: seq<Action>, waiting: seq<Entry>, i: nat, p: Thread)
    requires Run(states, acts, waiting) && i < |states| && p in states[i].pushers
    requires states[i].pushers[p].LoadSize? || states[i].pushers[p].AddSize?
    ensures var s := states[i];
      && 0 < s.cap == |s.buffer| && Enabled(s, Move(p))
      && (Do(s, Move(p)).pushers[p].Idle? || Do(s, Move(p)).pushers[p].RollBack?
          <==> Taken(s, waiting) == s.cap)
  {
    RunKeepsInv(states, acts, waiting, i);
  }

  /** Pushers that hold a place in the ring hold different slots, none of them a waiting entry's. */
  lemma PlacesAreExclusive(states: seq<State>, acts: seq<Action>, waiting: seq<Entry>, i: nat,
                           p: Thread, q: Thread, j: nat)
    requires Run(states, acts, waiting) && i < |states|
    requires p in states[i].pushers && q in states[i].pushers && p != q
    requires states[i].pushers[p].Store? && states[i].pushers[q].Store?
    ensures var s := states[i];
      && s.cap > 0
      && s.pushers[p].ticket % s.cap != s.pushers[q].ticket % s.cap
      && (j < |waiting| ==> s.pushers[p].ticket % s.cap != (s.tail + j) % s.cap)
  {
    RunKeepsInv(states, acts, waiting, i);
    var s := states[i];
    var t, u := s.pushers[p].ticket, s.pushers[q].ticket;
    assert PusherOk(s, p) && PusherOk(s, q);
    if t < u { SlotsDiffer(s.cap, t, u); } else { SlotsDiffer(s.cap, u, t); }
    TicketSlot(s, waiting, t);
    OnlyItsSlot(s.cap, s.tail, s.tail + |waiting| + (t - First(s)));
  }

  lemma QuietPlaces(s: State, waiting: seq<Entry>, j: nat)
    requires Inv(s, waiting) && j < |Line(s, waiting)|
    requires forall p | p in s.pushers :: s.pushers[p].Idle?
    ensures s.buffer[(s.tail + j) % s.cap] == Line(s, waiting)[j]
  {
    assert PlaceOk(s, waiting, j);
    if j >= |waiting| {
      assert TicketOk(s, First(s) + (j - |waiting|));
    }
  }

  lemma QuietCounts(s: State, waiting: seq<Entry>)
    requires Inv(s, waiting)
    requires forall p | p in s.pushers :: s.pushers[p].Idle?
    ensures s.size == |waiting| + |s.accepted| <= s.cap
    ensures s.head % s.cap == (s.tail + s.size) % s.cap
  {
    assert Granted(s) == {} && Overshooting(s) == {};
    SlotsAdvance(s.cap, First(s), s.tail + |waiting|, |s.accepted|);
  }

  lemma QuietStart(s: State, waiting: seq<Entry>)
    requires Inv(s, waiting)
    requires forall p | p in s.pushers :: s.pushers[p].Idle?
    ensures Start(s.(accepted := [], stored := {}), Line(s, waiting))
  {
    QuietCounts(s, waiting);
    var q, line := s.(accepted := [], stored := {}), Line(s, waiting);
    assert q.size == |line|;
    forall j | 0 <= j < |line| ensures q.buffer[(q.tail + j) % q.cap] == line[j] {
      QuietPlaces(s, waiting, j);
    }
  }

  /** Once the pushers are done the ring is quiet again and holds, in order, what was waiting and
      then what was accepted: nothing lost, nothing overwritten. */
  lemma QuietAgain(states: seq<State>, acts: seq<Action>, waiting: seq<Entry>, i: nat)
    requires Run(states, acts, waiting) && i < |states|
    requires forall p | p in states[i].pushers :: states[i].pushers[p].Idle?
    ensures Start(states[i].(accepted := [], stored := {}), waiting + states[i].accepted)
  {
    RunKeepsInv(states, acts, waiting, i);
    QuietStart(states[i], waiting);
  }

  // ---------------------------------------------------------------- a pusher left alone

  /** Only p moves, from a call in progress to its return. */
  ghost predicate AloneRun(states: seq<State>, p: Thread) {
    && states != []
    && (forall i {:trigger states[i]} | 0 <= i < |states| :: p in states[i].pushers)
    && (forall i {:trigger states[i]} | 0 <= i < |states| - 1 ::
          Step(states[i], Move(p), states[i + 1]) && !states[i].pushers[p].Idle?)
    && states[|states| - 1].pushers[p].Idle?
  }

  predicate WillRefuse(s: State, p: Thread)
    requires p in s.pushers
  {
    s.pushers[p].RollBack? || ((s.pushers[p].LoadSize? || s.pushers[p].AddSize?) && s.size >= s.cap)
  }

  /** What p's call comes to: nothing but an undone overshoot, or one more entry, stored in the slot
      of the head it advanced. */
  predicate Outcome(s: State, z: State, p: Thread)
    requires p in s.pushers && !s.pushers[p].Idle? && 0 < s.cap == |s.buffer|
  {
    var pc := s.pushers[p];
    if WillRefuse(s, p) then
      && z.buffer == s.buffer && z.head == s.head && z.accepted == s.accepted && z.stored == s.stored
      && z.size == s.size - if pc.RollBack? then 1 else 0
    else
      var t := if pc.Store? then pc.ticket else s.head;
      && z.buffer == s.buffer[t % s.cap := pc.entry] && z.stored == s.stored + {t}
      && z.head == (if pc.Store? then s.head else s.head + 1)
      && z.accepted == (if pc.Store? then s.accepted else s.accepted + [pc.entry])
      && z.size == s.size + if pc.LoadSize? || pc.AddSize? then 1 else 0
  }

  function AloneLeft(s: State, p: Thread): nat
    requires p in s.pushers
  {
    match s.pushers[p]
    case Idle => 0
    case LoadSize(_) => 4
    case AddSize(_) => 3
    case AddHead(_) => 2
    case Store(_, _) => 1
    case RollBack(_) => 1
  }

  /** A pusher that nobody disturbs returns, refused exactly when it finds the size at capacity. */
  lemma {:induction false} AloneReturns(s: State, p: Thread) returns (states: seq<State>)
    requires 0 < s.cap == |s.buffer| && p in s.pushers && !s.pushers[p].Idle?
    ensures AloneRun(states, p) && states[0] == s && Outcome(s, states[|states| - 1], p)
    ensures s.pushers[p].LoadSize? && WillRefuse(s, p) ==> |states| == 2
    decreases AloneLeft(s, p)
  {
    var s' := Do(s, Move(p));
    states := [s'];
    if !s'.pushers[p].Idle? {
      states := AloneReturns(s', p);
    }
    states := [s] + states;
  }

  /** So a call that nobody disturbs, in any reachable state, is refused if and only if all places
      are taken or granted, whatever overshoot is in flight, and then by a look at the size alone. */
  lemma CallAlone(states: seq<State>, acts: seq<Action>, waiting: seq<Entry>, i: nat, p: Thread, text: string)
      returns (more: seq<State>)
    requires Run(states, acts, waiting) && i < |states| && p in states[i].pushers && states[i].pushers[p].Idle?
    ensures more != [] && Step(states[i], Call(p, text), more[0]) && AloneRun(more, p)
    ensures var s, z, e := states[i], more[|more| - 1], Entry(p, text);
      && 0 < s.cap == |s.buffer|
      && if Taken(s, waiting) == s.cap
         then |more| == 2 && z == s
         else z.buffer == s.buffer[s.head % s.cap := e] && z.accepted == s.accepted + [e] && z.size == s.size + 1
  {
    RunKeepsInv(states, acts, waiting, i);
    more := AloneReturns(Do(states[i], Call(p, text)), p);
  }
}
