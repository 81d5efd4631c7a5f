/** Vocabulary shared by the models: machine words, options, log entries. */
module Common {

  datatype Option<+T> = None | Some(value: T)

  /** `size_t` on the supported 64-bit platforms: arithmetic is modulo WORD. */
  const WORD: nat := 0x1_0000_0000_0000_0000

  /** Unsigned addition, as `a + b` on two `size_t` values. */
  function WordAdd(a: nat, b: nat): (r: nat) {
    if a + b < WORD then a + b else (a + b) % WORD
  }

  /** Unsigned subtraction, as `a - b` on two `size_t` values. */
  function WordSub(a: int, b: int): (r: nat) {
    if 0 <= b <= a < WORD then a - b else (a - b) % WORD
  }

  type Thread = nat

  /** A log entry: the thread that logged it, and everything else it carries. */
  datatype Entry = Entry(thread: Thread, text: string)

  /** The entries of one thread, in the order in which they occur. */
  function ByThread(entries: seq<Entry>, t: Thread): seq<Entry> {
    if entries == [] then []
    else
      var last := entries[|entries| - 1];
      ByThread(entries[..|entries| - 1], t) + if last.thread == t then [last] else []
  }

  lemma ByThreadAppend(entries: seq<Entry>, e: Entry, t: Thread)
    ensures ByThread(entries + [e], t) == ByThread(entries, t) + if e.thread == t then [e] else []
  {
    assert (entries + [e])[..|entries|] == entries;
  }

  /** What a thread finds in a prefix is a prefix of what it finds in the whole. */
  lemma {:induction false} ByThreadPrefix(entries: seq<Entry>, n: nat, t: Thread)
    requires n <= |entries|
    ensures ByThread(entries[..n], t) <= ByThread(entries, t)
  {
    if n == |entries| {
      assert entries[..n] == entries;
    } else {
      var init := entries[..|entries| - 1];
      assert init[..n] == entries[..n];
      ByThreadPrefix(init, n, t);
    }
  }

  lemma Multiple(d: int, cap: nat)
    ensures d == 0 ==> d * cap == 0
    ensures d >= 1 ==> d * cap >= cap
    ensures d <= -1 ==> d * cap + cap <= 0
  {
    if d >= 1 {
      assert d * cap == (d - 1) * cap + cap;
    } else if d <= -1 {
      assert d * cap == (d + 1) * cap - cap;
    }
  }

  /** Division is unique: a number names its slot and its lap. */
  lemma SlotOf(cap: nat, lap: int, slot: nat, x: int)
    requires slot < cap && x == lap * cap + slot
    ensures x % cap == slot && x / cap == lap
  {
    var d := x / cap - lap;
    assert d * cap == (x / cap) * cap - lap * cap;
    assert d * cap == slot - x % cap;
    Multiple(d, cap);
  }

  /** Numbers less than `cap` apart fall in different slots of a ring of `cap` slots. */
  lemma SlotsDiffer(cap: nat, a: nat, b: nat)
    requires a < b < a + cap
    ensures a % cap != b % cap
  {
    var d := b / cap - a / cap;
    assert d * cap == (b / cap) * cap - (a / cap) * cap;
    assert b - a == d * cap + (b % cap - a % cap);
    Multiple(d, cap);
  }

  /** Numbers exactly `cap` apart share a slot. */
  lemma SlotRecurs(cap: nat, a: nat)
    requires cap > 0
    ensures (a + cap) % cap == a % cap
  {
    assert a + cap == (a / cap + 1) * cap + a % cap;
    SlotOf(cap, a / cap + 1, a % cap, a + cap);
  }

  /** Equal slots stay equal when both numbers advance by the same amount. */
  lemma SlotsAdvance(cap: nat, a: nat, b: nat, n: nat)
    requires cap > 0 && a % cap == b % cap
    ensures (a + n) % cap == (b + n) % cap
  {
    var x := a % cap + n;
    var d := x / cap;
    assert (a / cap + d) * cap == (a / cap) * cap + d * cap;
    assert (b / cap + d) * cap == (b / cap) * cap + d * cap;
    SlotOf(cap, a / cap + d, x % cap, a + n);
    SlotOf(cap, b / cap + d, x % cap, b + n);
  }

  /** Within one window of `cap` tickets, only ticket t uses t's slot. */
  lemma OnlyItsSlot(cap: nat, lo: nat, t: nat)
    requires lo <= t < lo + cap
    ensures forall k | lo <= k < lo + cap && k != t :: k % cap != t % cap
  {
    forall k | lo <= k < lo + cap && k != t ensures k % cap != t % cap {
      if k < t { SlotsDiffer(cap, k, t); } else { SlotsDiffer(cap, t, k); }
    }
  }
}
