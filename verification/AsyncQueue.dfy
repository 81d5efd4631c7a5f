/** What the slots of an idle ticket queue look like. */
module TicketSlots {
  import opened Common
  import opened TicketQueue

  /** What ticket k's slot holds: its entry, published, or nothing, free for k itself. */
  ghost predicate HoldsAt(cells: seq<Cell>, head: nat, contents: seq<Entry>, k: nat)
    requires head <= k < head + |cells|
  {
    cells[k % |cells|] == if k - head < |contents| then Cell(k + 1, Some(contents[k - head])) else Cell(k, None)
  }

  /** Waiting entries sit published in their tickets' slots; every other slot is free for the next
      ticket that maps to it. */
  ghost predicate Holds(cells: seq<Cell>, head: nat, contents: seq<Entry>) {
    && |contents| <= |cells|
    && forall k | head <= k < head + |cells| :: HoldsAt(cells, head, contents, k)
  }

  /** The slot of the next ticket already carries its number; publishing there adds the entry. */
  lemma PublishEntry(cells: seq<Cell>, head: nat, contents: seq<Entry>, e: Entry, t: nat, pos: nat)
    requires Holds(cells, head, contents) && |contents| < |cells|
    requires t == head + |contents| && pos == t % |cells|
    ensures cells[pos] == Cell(t, None)
    ensures Holds(cells[pos := Cell(t + 1, Some(e))], head, contents + [e])
  {
    OnlyItsSlot(|cells|, head, t);
    var published := cells[pos := Cell(t + 1, Some(e))];
    forall k | head <= k < head + |cells| ensures HoldsAt(published, head, contents + [e], k) {
      assert HoldsAt(cells, head, contents, k);
    }
    assert HoldsAt(cells, head, contents, t);
  }

  /** The slot of the oldest entry left after i is published; freeing it for its next ticket leaves
      the later ones. */
  lemma ReleaseSlot(cells: seq<Cell>, head: nat, contents: seq<Entry>, i: nat, idx: nat)
    requires i < |contents| && Holds(cells, head + i, contents[i..]) && idx == (head + i) % |cells|
    ensures cells[idx] == Cell(head + i + 1, Some(contents[i]))
    ensures Holds(cells[idx := Cell(head + i + |cells|, None)], head + i + 1, contents[i + 1..])
  {
    var left, freed := contents[i..], cells[idx := Cell(head + i + |cells|, None)];
    var next, later := head + i + 1, contents[i + 1..];
    OnlyItsSlot(|cells|, head + i, head + i);
    SlotRecurs(|cells|, head + i);
    assert HoldsAt(cells, head + i, left, head + i);
    forall k | next <= k < next + |cells| ensures HoldsAt(freed, next, later, k) {
      if k < next + |cells| - 1 {
        assert HoldsAt(cells, head + i, left, k);
      }
    }
  }
}

/** The ticket queue used by one thread at a time: an array of numbered slots in place. */
module AsyncQueueClass {
  import opened Common
  import opened TicketQueue
  import opened TicketSlots
  import TicketQueueSafety

  class AsyncQueue {
    const capacity: nat
    const buffer: array<Cell>
    var head: nat
    var tail: nat
    var size: nat
    ghost var contents: seq<Entry>

    ghost predicate Valid()
      reads this, buffer
    {
      && 0 < capacity == buffer.Length
      && tail + capacity < WORD
      && tail == head + |contents| && size == |contents|
      && Holds(buffer[..], head, contents)
    }

    constructor (capacity: nat)
      requires 0 < capacity && 2 * capacity < WORD
      ensures Valid() && fresh(buffer) && this.capacity == capacity && contents == [] && tail == 0
    {
      this.capacity := capacity;
      buffer := new Cell[capacity](_ => Cell(0, None));
      head, tail, size := 0, 0, 0;
      contents := [];
      new;
      for i := 0 to capacity
        invariant head == tail == size == 0 && contents == []
        invariant forall k | 0 <= k < i :: buffer[k] == Cell(k, None)
        invariant forall k | i <= k < capacity :: buffer[k] == Cell(0, None)
      {
        buffer[i] := Cell(i, None);
      }
      forall k | 0 <= k < capacity ensures HoldsAt(buffer[..], 0, [], k) {
        SlotOf(capacity, 0, k, k);
      }
    }

    method TryPush(entry: Entry) returns (ok: bool)
      requires Valid() && tail + 1 + capacity < WORD
      modifies this, buffer
      ensures Valid()
      ensures ok == (|old(contents)| < capacity)
      ensures contents == if ok then old(contents) + [entry] else old(contents)
      ensures tail == old(tail) + if ok then 1 else 0
    {
      var currentTail := tail;
      var currentHead := head;
      TicketQueueSafety.FullGuard(currentTail, currentHead, capacity);
      if WordSub(currentTail, currentHead) >= capacity {
        return false;
      }
      tail := WordAdd(currentTail, 1);
      var pos := currentTail % capacity;
      PublishEntry(buffer[..], currentHead, contents, entry, currentTail, pos);
      // The slot already carries this ticket's number, so the spin is over at its first test.
      assert buffer[pos].number == currentTail;
      buffer[pos] := buffer[pos].(storage := Some(entry));
      buffer[pos] := buffer[pos].(number := currentTail + 1);
      assert buffer[..] == old(buffer[..])[pos := Cell(currentTail + 1, Some(entry))];
      size := WordAdd(size, 1);
      contents := contents + [entry];
      return true;
    }

    method PopAll() returns (result: seq<Entry>)
      requires Valid()
      modifies this, buffer
      ensures Valid() && result == old(contents) && contents == [] && tail == old(tail)
    {
      result := [];
      var h := head;
      var available := if tail >= h then tail - h else 0;
      if available == 0 {
        return;
      }
      for i := 0 to available
        invariant head == old(head) && tail == old(tail) && size == old(size) && contents == old(contents)
        invariant result == contents[..i]
        invariant Holds(buffer[..], h + i, contents[i..])
      {
        var idx := (h + i) % capacity;
        ghost var cells := buffer[..];
        ReleaseSlot(cells, h, contents, i, idx);
        // Published: the spin on the slot's number is over at its first test.
        assert buffer[idx].number == h + i + 1;
        if buffer[idx].storage.Some? {
          result := result + [buffer[idx].storage.value];
          buffer[idx] := buffer[idx].(storage := None);
        }
        buffer[idx] := buffer[idx].(number := h + i + capacity);
        assert buffer[..] == cells[idx := Cell(h + i + capacity, None)];
      }
      head := h + available;
      SlotOf(WORD, 0, 0, size - available);
      size := WordSub(size, available);
      contents := [];
    }

    method Size() returns (n: nat)
      requires Valid()
      ensures n == |contents|
    {
      n := size;
    }

    method IsEmpty() returns (empty: bool)
      requires Valid()
      ensures empty <==> contents == []
    {
      empty := size == 0;
    }
  }
}
