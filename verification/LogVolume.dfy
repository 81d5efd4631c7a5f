/**
 The file manager on values: a directory of named byte strings, the manager's fields, and the
 result of each call. What the operating system decides (success of a rename, an open, a write,
 a flush, the order of a directory listing) is a parameter.
 */
module LogVolume {
  import opened Common
  import opened FileNames

  type Files = map<string, string>

  /** How a manager names, numbers and recognises its files. A base with a directory part is what the
      code lists with, once it has made the base absolute; a bare one is what is meant, the base's
      file name in its own directory. */
  datatype Naming = Naming(
    live: string, ofProcess: nat -> string, name: nat -> string, number: string -> int, historical: string -> bool)

  function NamingOf(base: string): Naming {
    Naming(
      GenerateFileName(base, 0, true),
      (pid: nat) => GenerateFileName(base, pid, false),
      (n: nat) => HistoryName(base, n),
      f => ExtractSequenceNumber(f),
      f => IsListed(f, base))
  }

  /** Numbered names are recognised and read back; the live name is not taken for one. */
  ghost predicate Sound(naming: Naming) {
    && (forall n: nat | n <= INT_MAX ::
          naming.historical(naming.name(n)) && naming.number(naming.name(n)) == n)
    && !naming.historical(naming.live)
  }

  datatype Manager = Manager(
    files: Files, naming: Naming, pid: nat, current: string,
    maxSize: nat, keep: nat, size: nat, initialized: bool, open: bool)

  const MEGABYTE: nat := 1024 * 1024

  /** A directory listing: the historical files, each once, in any order. */
  ghost predicate IsListing(files: Files, naming: Naming, l: seq<string>) {
    && (forall i, j | 0 <= i < j < |l| :: l[i] != l[j])
    && (forall f :: f in l <==> f in files && naming.historical(f))
  }

  /** The sequence numbers of the listed names, in listing order. */
  function Numbers(naming: Naming, l: seq<string>): (ns: seq<int>)
    ensures |ns| == |l|
  {
    seq(|l|, i requires 0 <= i < |l| => naming.number(l[i]))
  }

  /** The highest number, but at least 0. */
  function Highest(ns: seq<int>): (h: nat)
    ensures forall n | n in ns :: n <= h
    ensures h == 0 || h in ns
  {
    if ns == [] then 0
    else
      var rest, n := Highest(ns[..|ns| - 1]), ns[|ns| - 1];
      assert ns == ns[..|ns| - 1] + [n];
      if n > rest then n else rest
  }

  function NextSequence(naming: Naming, l: seq<string>): nat {
    if l == [] then 1 else Highest(Numbers(naming, l)) + 1
  }

  /** The first position of the lowest of the first n numbers. */
  function LowestAmong(ns: seq<int>, n: nat): (i: nat)
    requires 0 < n <= |ns|
    ensures i < n && forall j | 0 <= j < n :: ns[i] <= ns[j]
    ensures forall j | 0 <= j < i :: ns[i] < ns[j]
  {
    if n == 1 then 0
    else
      var i := LowestAmong(ns, n - 1);
      if ns[n - 1] < ns[i] then n - 1 else i
  }

  function OldestOf(naming: Naming, l: seq<string>): (i: nat)
    requires l != []
    ensures i < |l|
  {
    LowestAmong(Numbers(naming, l), |l|)
  }

  function Without<T>(l: seq<T>, i: nat): seq<T>
    requires i < |l|
  {
    l[..i] + l[i + 1..]
  }

  /** What is left after deleting the oldest listed files down to `keep`. */
  function Prune(files: Files, naming: Naming, l: seq<string>, keep: nat): Files
    decreases |l|
  {
    if |l| <= keep then files
    else
      var i := OldestOf(naming, l);
      Prune(files - {l[i]}, naming, Without(l, i), keep)
  }

  /** Opening for append creates a missing file and keeps the bytes of an existing one. */
  function OpenForAppend(files: Files, name: string): Files {
    if name in files then files else files[name := ""]
  }

  function Renamed(m: Manager, n: nat): Files
    requires m.current in m.files
  {
    (m.files - {m.current})[m.naming.name(n) := m.files[m.current]]
  }

  function Initialize(m: Manager, pid: nat, dirOk: bool, firstProcess: bool, openOk: bool): (Manager, bool) {
    if m.initialized then (m, true)
    else if !dirOk then (m.(pid := pid), false)
    else
      var named := m.(pid := pid, current := if firstProcess then m.naming.live else m.naming.ofProcess(pid));
      if !openOk then (named.(open := false), false)
      else
        var files := OpenForAppend(m.files, named.current);
        (named.(files := files, size := |files[named.current]|, initialized := true, open := true), true)
  }

  function Write(m: Manager, data: string, writeOk: bool, flushOk: bool): (Manager, bool) {
    if !m.open || m.current !in m.files || !writeOk then (m, false)
    else
      var m' := m.(files := m.files[m.current := m.files[m.current] + data], size := m.size + |data|);
      (m', m'.size % MEGABYTE == 0 ==> flushOk)
  }

  function FlushFile(m: Manager, flushOk: bool): (Manager, bool) {
    (m, m.open && flushOk)
  }

  function NeedsRotation(m: Manager): bool {
    m.size >= m.maxSize
  }

  /** `Rotate`, given the two listings it reads and the fate of its rename and its open. */
  function Rotate(m: Manager, l1: seq<string>, l2: seq<string>, renameOk: bool, openOk: bool): (Manager, bool) {
    if !m.open then (m, false)
    else
      var closed := m.(open := false);
      if !renameOk || m.current !in m.files then (closed, false)
      else
        var naming := m.naming;
        var pruned := Prune(Renamed(m, NextSequence(naming, l1)), naming, l2, m.keep);
        var live := closed.(current := naming.live);
        if !openOk then (live.(files := pruned), false)
        else (live.(files := OpenForAppend(pruned, live.current), size := 0, open := true), true)
  }

  /** The listings are what the directory holds when they are read. */
  ghost predicate ListingsOf(m: Manager, l1: seq<string>, l2: seq<string>) {
    && IsListing(m.files, m.naming, l1)
    && (m.current in m.files ==> IsListing(Renamed(m, NextSequence(m.naming, l1)), m.naming, l2))
  }

  ghost predicate RotatesWith(m: Manager, l1: seq<string>, l2: seq<string>, renameOk: bool, openOk: bool,
                              m': Manager, ok: bool) {
    ListingsOf(m, l1, l2) && (m', ok) == Rotate(m, l1, l2, renameOk, openOk)
  }

  /** The possible outcomes of `Rotate`, over all listing orders. */
  ghost predicate Rotates(m: Manager, renameOk: bool, openOk: bool, m': Manager, ok: bool) {
    exists l1, l2 :: RotatesWith(m, l1, l2, renameOk, openOk, m', ok)
  }
}
