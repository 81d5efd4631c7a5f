/** Single calls of the file manager in any directory, whatever it holds. */
module LogRotation {
  import opened FileNames
  import opened FileNamesExact
  import opened LogVolume
  import opened LogRetention

  // ---------------------------------------------------------------- initialising

  /** A successful `Initialize` opens the file named after the process, creating it if need be, knows
      how long it is, and touches no other. */
  lemma InitializeOpensOwnFile(base: string, m: Manager, pid: nat, firstProcess: bool)
    requires m.naming == NamingOf(base) && !m.initialized
    ensures var (m', ok) := Initialize(m, pid, true, firstProcess, true);
      var own := GenerateFileName(base, pid, firstProcess);
      && ok && m'.initialized && m'.open && m'.pid == pid && m'.current == own
      && m'.files.Keys == m.files.Keys + {own}
      && (forall f | f in m.files :: m'.files[f] == m.files[f])
      && (own !in m.files ==> m'.files[own] == "")
      && m'.size == |m'.files[own]|
  {
  }

  /** Processes with different ids that are not the first never share a file, with each other or
      with the first, wherever and whenever each of them starts. */
  lemma ProcessesKeepApart(base: string, m: Manager, n: Manager, k: Manager, p: nat, q: nat, r: nat)
    requires m.naming == n.naming == k.naming == NamingOf(base)
    requires !m.initialized && !n.initialized && !k.initialized && p != q
    ensures var (a, b, c) := (Initialize(m, p, true, false, true).0, Initialize(n, q, true, false, true).0,
                              Initialize(k, r, true, true, true).0);
      a.current != b.current && a.current != c.current && b.current != c.current
  {
    ProcessNamesDiffer(base, p, q);
    ProcessNamesDiffer(base, p, r);
    ProcessNamesDiffer(base, q, r);
  }

  /** A failed `Initialize` leaves no trace: no file is made, the handle is closed, and the next
      attempt comes out as if it were the first. */
  lemma FailedInitializeLeavesNoTrace(m: Manager, pid: nat, dirOk: bool, firstProcess: bool, openOk: bool,
                                      pid': nat, firstProcess': bool)
    requires !m.initialized && !m.open && !(dirOk && openOk)
    ensures var (m', ok) := Initialize(m, pid, dirOk, firstProcess, openOk);
      && !ok && !m'.initialized && !m'.open && m'.files == m.files && m'.size == m.size && m'.pid == pid
      && Initialize(m', pid', true, firstProcess', true) == Initialize(m, pid', true, firstProcess', true)
  {
  }

  // ---------------------------------------------------------------- pruning

  lemma WithoutKeepsListing(files: Files, naming: Naming, l: seq<string>, i: nat)
    requires IsListing(files, naming, l) && i < |l|
    ensures IsListing(files - {l[i]}, naming, Without(l, i))
    ensures forall f :: f in l <==> f in Without(l, i) || f == l[i]
  {
    DeletingFromListing(files, naming, l, i);
    var w := Without(l, i);
    forall f | f in l ensures f in w || f == l[i] {
      var j :| 0 <= j < |l| && l[j] == f;
      assert j < i ==> w[j] == f;
      assert j > i ==> w[j - 1] == f;
    }
  }

  lemma OldestIsLeast(naming: Naming, l: seq<string>, f: string)
    requires l != [] && f in l
    ensures naming.number(l[OldestOf(naming, l)]) <= naming.number(f)
  {
    var ns, i := Numbers(naming, l), OldestOf(naming, l);
    var j :| 0 <= j < |l| && l[j] == f;
    assert ns[i] <= ns[j];
  }

  /** Nothing but listed files goes, the lowest numbers first, until `keep` are left. */
  ghost predicate Pruned(files: Files, left: Files, naming: Naming, l: seq<string>, rest: seq<string>) {
    && left.Keys <= files.Keys
    && (forall f | f in left :: left[f] == files[f])
    && (forall f | f in files && f !in l :: f in left)
    && IsListing(left, naming, rest)
    && (forall f, g | f in l && f !in left && g in rest :: naming.number(f) <= naming.number(g))
    && (forall f | f in rest :: f in l)
  }

  /** The deletion loop in any directory, whatever numbers its files have and in whatever order they
      are listed. */
  lemma {:induction false} PruneAny(files: Files, naming: Naming, l: seq<string>, keep: nat) returns (rest: seq<string>)
    requires IsListing(files, naming, l)
    ensures Pruned(files, Prune(files, naming, l, keep), naming, l, rest)
    ensures |rest| == if |l| <= keep then |l| else keep
    decreases |l|
  {
    if |l| <= keep {
      rest := l;
    } else {
      var i := OldestOf(naming, l);
      WithoutKeepsListing(files, naming, l, i);
      rest := PruneAny(files - {l[i]}, naming, Without(l, i), keep);
      forall g | g in rest ensures naming.number(l[i]) <= naming.number(g) {
        OldestIsLeast(naming, l, g);
      }
    }
  }

  // ---------------------------------------------------------------- rotating

  /** A successful rotation in any directory, for any names: the new number is one past the highest
      listed, and at least 1; the bytes of the current file go under it; apart from that only listed
      files change, by being deleted, lowest numbers first, until at most `keep` are listed; and the
      live file is open, with whatever the directory already had under its name. */
  lemma RotationOfAny(m: Manager, m': Manager) returns (n: nat, l1: seq<string>, l2: seq<string>, rest: seq<string>)
    requires Rotates(m, true, true, m', true)
    ensures m.current in m.files && IsListing(m.files, m.naming, l1)
    ensures n >= 1 && (forall f | f in l1 :: m.naming.number(f) < n)
    ensures n == 1 || exists f | f in l1 :: m.naming.number(f) == n - 1
    ensures IsListing(Renamed(m, n), m.naming, l2) && |rest| == if |l2| <= m.keep then |l2| else m.keep
    ensures Pruned(Renamed(m, n), Prune(Renamed(m, n), m.naming, l2, m.keep), m.naming, l2, rest)
    ensures m'.files == OpenForAppend(Prune(Renamed(m, n), m.naming, l2, m.keep), m.naming.live)
    ensures m'.open && m'.current == m.naming.live && m'.size == 0
  {
    l1, l2 :| RotatesWith(m, l1, l2, true, true, m', true);
    SuccessfulRotate(m, l1, l2, m');
    n := NextSequence(m.naming, l1);
    NextIsPastAll(m.naming, l1);
    rest := PruneAny(Renamed(m, n), m.naming, l2, m.keep);
  }

  lemma NextIsPastAll(naming: Naming, l: seq<string>)
    ensures var n := NextSequence(naming, l);
      && n >= 1 && (forall f | f in l :: naming.number(f) < n)
      && (n == 1 || exists f | f in l :: naming.number(f) == n - 1)
  {
    var ns, n := Numbers(naming, l), NextSequence(naming, l);
    forall f | f in l ensures naming.number(f) < n {
      var j :| 0 <= j < |l| && l[j] == f;
      assert ns[j] in ns;
    }
    if n > 1 {
      assert Highest(ns) in ns;
      var j :| 0 <= j < |ns| && ns[j] == n - 1;
      assert l[j] in l;
    }
  }

  /** A rotation spares every file that is not listed, but for the current one and those under the
      two names it writes - whether it succeeds or fails, and wherever. */
  lemma RotationSparesOthers(m: Manager, renameOk: bool, openOk: bool, m': Manager, ok: bool, f: string)
    requires Rotates(m, renameOk, openOk, m', ok)
    requires f in m.files && !m.naming.historical(f) && f != m.current && f != m.naming.live
    requires forall n: nat :: f != m.naming.name(n)
    ensures f in m'.files && m'.files[f] == m.files[f]
  {
    var l1, l2 :| RotatesWith(m, l1, l2, renameOk, openOk, m', ok);
    if m.open && renameOk && m.current in m.files {
      var renamed := Renamed(m, NextSequence(m.naming, l1));
      assert f in renamed && renamed[f] == m.files[f];
      var _ := PruneAny(renamed, m.naming, l2, m.keep);
    }
  }

  /** A rotation that fails only at the reopening has kept the bytes: they are the newest retained
      file, the oldest beyond `keep` are gone, and there is no live file. */
  lemma FailedReopenKeepsBytes(m: Manager, kept: seq<string>, top: nat, live: string, m': Manager, ok: bool)
    requires Tidy(m, kept, top, live) && top < INT_MAX
    requires Rotates(m, true, false, m', ok)
    ensures !ok && !m'.open && m.naming.live !in m'.files
    ensures m' == m.(files := m'.files, open := false)
    ensures Holds(m'.files, m.naming, LastOf(kept + [live], m.keep), top + 1)
  {
    var l1, l2 :| RotatesWith(m, l1, l2, true, false, m', ok);
    NextIsPastTop(m.files, m.naming, kept, top, l1);
    RenamingAddsNewest(m.files, m.naming, kept, top, live);
    var renamed := Renamed(m, top + 1);
    assert m.naming.live !in renamed by {
      assert m.naming.historical(m.naming.name(top + 1));
    }
    PruneKeepsNewest(renamed, m.naming, kept + [live], top + 1, l2, m.keep);
    var _ := PruneAny(renamed, m.naming, l2, m.keep);
  }
}
