/** How a ring of slots holds a sequence of entries. */
module RingSlots {
  import opened Common

  ghost predicate StoredAt(slots: seq<Entry>, tail: nat, contents: seq<Entry>, i: nat)
    requires i < |contents| && slots != []
  {
    slots[(tail + i) % |slots|] == contents[i]
  }

  /** The entries lie from slot `tail` on; the ever-growing head agrees with the reduced tail. */
  ghost predicate Stored(slots: seq<Entry>, head: nat, tail: nat, contents: seq<Entry>) {
    && |contents| <= |slots|
    && (slots != [] ==>
          && tail < |slots|
          && head % |slots| == (tail + |contents|) % |slots|
          && forall i | 0 <= i < |contents| :: StoredAt(slots, tail, contents, i))
  }

  /** The slot at head is free, and filling it appends. */
  lemma Append(slots: seq<Entry>, head: nat, tail: nat, contents: seq<Entry>, e: Entry, index: nat)
    requires Stored(slots, head, tail, contents) && |contents| < |slots| && index == head % |slots|
    ensures Stored(slots[index := e], head + 1, tail, contents + [e])
  {
    var slots', all := slots[index := e], contents + [e];
    OnlyItsSlot(|slots|, tail, tail + |contents|);
    SlotsAdvance(|slots|, head, tail + |contents|, 1);
    forall i | 0 <= i < |all| ensures StoredAt(slots', tail, all, i) {
      if i < |contents| {
        assert StoredAt(slots, tail, contents, i);
      }
    }
  }

  /** Moving the tail past all entries leaves none. */
  lemma Empty(slots: seq<Entry>, head: nat, tail: nat, contents: seq<Entry>, newTail: nat)
    requires Stored(slots, head, tail, contents) && slots != [] && newTail == (tail + |contents|) % |slots|
    ensures Stored(slots, head, newTail, [])
  {
    SlotOf(|slots|, 0, newTail, newTail);
  }
}

/** The overflow ring used by one thread at a time: head only grows, tail stays reduced. */
module RingBufferClass {
  import opened Common
  import opened RingSlots

  class RingBuffer {
    const capacity: nat
    const buffer: array<Entry>
    var head: nat
    var tail: nat
    var size: nat
    ghost var contents: seq<Entry>

    ghost predicate Valid()
      reads this, buffer
    {
      && buffer.Length == capacity && head < WORD
      && size == |contents|
      && Stored(buffer[..], head, tail, contents)
    }

    constructor (capacity: nat)
      ensures Valid() && fresh(buffer) && this.capacity == capacity && contents == [] && head == 0
    {
      this.capacity := capacity;
      buffer := new Entry[capacity];
      head, tail, size := 0, 0, 0;
      contents := [];
    }

    /** A ring of capacity 0 refuses every push and never divides by its capacity. */
    method TryPush(entry: Entry) returns (ok: bool)
      requires Valid() && head + 1 < WORD
      modifies this, buffer
      ensures Valid()
      ensures ok == (|old(contents)| < capacity)
      ensures contents == if ok then old(contents) + [entry] else old(contents)
      ensures head == old(head) + if ok then 1 else 0
    {
      var currentSize := size;
      if currentSize >= capacity {
        return false;
      }
      var oldSize := size;
      size := size + 1;
      // Between the load and the increment nobody else came in, so there is nothing to roll back;
      // `RingPushers` treats the pushers that do.
      assert oldSize < capacity;
      var currentHead := head;
      head := head + 1;
      var index := currentHead % capacity;
      Append(buffer[..], currentHead, tail, contents, entry, index);
      buffer[index] := entry;
      assert buffer[..] == old(buffer[..])[index := entry];
      contents := contents + [entry];
      return true;
    }

    method PopAll() returns (entries: seq<Entry>)
      requires Valid()
      modifies this, buffer
      ensures Valid() && entries == old(contents) && contents == [] && head == old(head)
    {
      var oldSize := size;
      size := 0;
      contents := [];
      if oldSize == 0 {
        return [];
      }
      var currentTail := tail;
      var newTail := (currentTail + oldSize) % capacity;
      entries := [];
      for i := 0 to oldSize
        invariant entries == old(contents)[..i]
        invariant buffer[..] == old(buffer[..])
      {
        var index := (currentTail + i) % capacity;
        assert StoredAt(old(buffer[..]), currentTail, old(contents), i);
        entries := entries + [buffer[index]];
      }
      Empty(buffer[..], head, currentTail, old(contents), newTail);
      tail := newTail;
    }

    method Size() returns (n: nat)
      requires Valid()
      ensures n == |contents|
    {
      n := size;
    }
  }
}

/** A ticket queue and a ring of the same capacity cannot be told apart by their callers. */
module BuffersAgree {
  import opened Common
  import opened BoundedFifo
  import opened AsyncQueueClass
  import opened RingBufferClass

  method AskQueue(q: AsyncQueue, op: Op) returns (a: Answer)
    requires q.Valid() && q.tail + 1 + q.capacity < WORD
    modifies q, q.buffer
    ensures q.Valid() && q.tail <= old(q.tail) + 1
    ensures a == Reply(q.capacity, old(q.contents), op)
    ensures q.contents == Next(q.capacity, old(q.contents), op)
  {
    match op
    case Push(e) => var ok := q.TryPush(e); a := Pushed(ok);
    case PopAll => var es := q.PopAll(); a := Popped(es);
    case Size => var n := q.Size(); a := Sized(n);
  }

  method AskRing(r: RingBuffer, op: Op) returns (a: Answer)
    requires r.Valid() && r.head + 1 < WORD
    modifies r, r.buffer
    ensures r.Valid() && r.head <= old(r.head) + 1
    ensures a == Reply(r.capacity, old(r.contents), op)
    ensures r.contents == Next(r.capacity, old(r.contents), op)
  {
    match op
    case Push(e) => var ok := r.TryPush(e); a := Pushed(ok);
    case PopAll => var es := r.PopAll(); a := Popped(es);
    case Size => var n := r.Size(); a := Sized(n);
  }

  /** Both buffers answer every sequence of calls as the bounded FIFO does, hence alike. */
  method AskBoth(cap: nat, ops: seq<Op>) returns (fromQueue: seq<Answer>, fromRing: seq<Answer>)
    requires 0 < cap && |ops| + 2 * cap < WORD
    ensures fromQueue == fromRing == Replay(cap, [], ops).0
  {
    var q := new AsyncQueue(cap);
    var r := new RingBuffer(cap);
    fromQueue, fromRing := [], [];
    for i := 0 to |ops|
      invariant fresh(q) && fresh(q.buffer) && fresh(r) && fresh(r.buffer)
      invariant q.Valid() && r.Valid() && q.capacity == r.capacity == cap
      invariant q.tail <= i && r.head <= i
      invariant (fromQueue, q.contents) == (fromRing, r.contents) == Replay(cap, [], ops[..i])
    {
      var a := AskQueue(q, ops[i]);
      var b := AskRing(r, ops[i]);
      fromQueue, fromRing := fromQueue + [a], fromRing + [b];
      ReplaySnoc(cap, [], ops[..i], ops[i]);
      assert ops[..i + 1] == ops[..i] + [ops[i]];
    }
    assert ops[..|ops|] == ops;
  }
}
