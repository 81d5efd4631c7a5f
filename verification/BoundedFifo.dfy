/** The bounded FIFO both buffers implement, as seen through their public calls. */
module BoundedFifo {
  import opened Common

  datatype Op = Push(entry: Entry) | PopAll | Size

  datatype Answer = Pushed(ok: bool) | Popped(entries: seq<Entry>) | Sized(n: nat)

  function Next(cap: nat, q: seq<Entry>, op: Op): seq<Entry> {
    match op
    case Push(e) => if |q| < cap then q + [e] else q
    case PopAll => []
    case Size => q
  }

  function Reply(cap: nat, q: seq<Entry>, op: Op): Answer {
    match op
    case Push(_) => Pushed(|q| < cap)
    case PopAll => Popped(q)
    case Size => Sized(|q|)
  }

  /** The answers to a sequence of calls, and what is left in the queue. */
  function Replay(cap: nat, q: seq<Entry>, ops: seq<Op>): (seq<Answer>, seq<Entry>)
    decreases |ops|
  {
    if ops == [] then ([], q)
    else
      var (answers, left) := Replay(cap, Next(cap, q, ops[0]), ops[1..]);
      ([Reply(cap, q, ops[0])] + answers, left)
  }

  lemma {:induction false} ReplayLength(cap: nat, q: seq<Entry>, ops: seq<Op>)
    ensures |Replay(cap, q, ops).0| == |ops|
    decreases |ops|
  {
    if ops != [] {
      ReplayLength(cap, Next(cap, q, ops[0]), ops[1..]);
    }
  }

  /** One more call at the end. */
  lemma {:induction false} ReplaySnoc(cap: nat, q: seq<Entry>, ops: seq<Op>, op: Op)
    ensures var (answers, left) := Replay(cap, q, ops);
      Replay(cap, q, ops + [op]) == (answers + [Reply(cap, left, op)], Next(cap, left, op))
    decreases |ops|
  {
    if ops == [] {
      assert ops + [op] == [op] && [op][1..] == [];
      assert Replay(cap, q, [op]) == ([Reply(cap, q, op)] + [], Next(cap, q, op));
      assert [Reply(cap, q, op)] + [] == [] + [Reply(cap, q, op)];
    } else {
      assert (ops + [op])[1..] == ops[1..] + [op];
      ReplaySnoc(cap, Next(cap, q, ops[0]), ops[1..], op);
      var (answers, left) := Replay(cap, Next(cap, q, ops[0]), ops[1..]);
      assert [Reply(cap, q, ops[0])] + (answers + [Reply(cap, left, op)])
          == ([Reply(cap, q, ops[0])] + answers) + [Reply(cap, left, op)];
    }
  }

  /** The entries whose push was answered with success, in call order. */
  function Accepted(ops: seq<Op>, answers: seq<Answer>): seq<Entry>
    requires |ops| == |answers|
  {
    if ops == [] then []
    else (if ops[0].Push? && answers[0] == Pushed(true) then [ops[0].entry] else [])
         + Accepted(ops[1..], answers[1..])
  }

  /** All entries returned by `popAll`, concatenated. */
  function HandedOut(answers: seq<Answer>): seq<Entry> {
    if answers == [] then []
    else (if answers[0].Popped? then answers[0].entries else []) + HandedOut(answers[1..])
  }

  lemma FirstAnswer(op: Op, ops: seq<Op>, a: Answer, answers: seq<Answer>)
    requires |ops| == |answers|
    ensures Accepted([op] + ops, [a] + answers)
         == (if op.Push? && a == Pushed(true) then [op.entry] else []) + Accepted(ops, answers)
    ensures HandedOut([a] + answers) == (if a.Popped? then a.entries else []) + HandedOut(answers)
  {
    assert ([op] + ops)[1..] == ops && ([a] + answers)[1..] == answers;
  }

  /** Conservation: over any sequence of calls, what was handed out followed by what is left is
      what was there followed by what was accepted. */
  lemma {:induction false} Conservation(cap: nat, q: seq<Entry>, ops: seq<Op>)
    ensures var (answers, left) := Replay(cap, q, ops);
      |answers| == |ops| && HandedOut(answers) + left == q + Accepted(ops, answers)
    decreases |ops|
  {
    ReplayLength(cap, q, ops);
    if ops != [] {
      var op, rest := ops[0], ops[1..];
      Conservation(cap, Next(cap, q, op), rest);
      var (answers, left) := Replay(cap, Next(cap, q, op), rest);
      FirstAnswer(op, rest, Reply(cap, q, op), answers);
      assert ops == [op] + rest;
      Rearrange(cap, q, op, HandedOut(answers), left, Accepted(rest, answers));
    }
  }

  lemma Rearrange(cap: nat, q: seq<Entry>, op: Op, out: seq<Entry>, left: seq<Entry>, later: seq<Entry>)
    requires out + left == Next(cap, q, op) + later
    ensures var a := Reply(cap, q, op);
      (if a.Popped? then a.entries else []) + out + left
      == q + ((if op.Push? && a == Pushed(true) then [op.entry] else []) + later)
  {
    match op
    case Push(e) => assert [] + out + left == out + left && q + [e] + later == q + ([e] + later);
    case PopAll => assert q + out + left == q + (out + left);
    case Size => assert [] + out + left == out + left;
  }

  /** It never holds more than its capacity. */
  lemma {:induction false} NeverOverfull(cap: nat, q: seq<Entry>, ops: seq<Op>)
    requires |q| <= cap
    ensures |Replay(cap, q, ops).1| <= cap
    decreases |ops|
  {
    if ops != [] {
      NeverOverfull(cap, Next(cap, q, ops[0]), ops[1..]);
    }
  }
}
