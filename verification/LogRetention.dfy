/**
 Rotation and retention from a clean directory: what the numbered files hold after any run of
 successful writes and rotations, against a plain record of everything written.
 */
module LogRetention {
  import opened FileNames
  import opened LogVolume

  /** A base whose numbered names are listed, and no absurdly long one. */
  predicate SaneBase(base: string) {
    '/' !in base && !Contains(base, ".log") && |base| < 0x1_0000_0000
  }

  lemma {:induction false} DecimalIsShort(n: nat)
    ensures |Decimal(n)| <= n + 1
  {
    if n >= 10 {
      DecimalIsShort(n / 10);
    }
  }

  lemma NamesAreShort(base: string, n: nat)
    requires |base| < 0x1_0000_0000 && n <= INT_MAX
    ensures |HistoryName(base, n)| < NPOS
  {
    DecimalIsShort(n);
  }

  /** The listing serves retention exactly for sane bases. */
  lemma SoundIffSane(base: string)
    requires |base| < 0x1_0000_0000
    ensures Sound(NamingOf(base)) <==> SaneBase(base)
  {
    var naming := NamingOf(base);
    NamesAreShort(base, 0);
    ListedIffBare(base, 0);
    assert naming.historical(naming.name(0)) <==> SaneBase(base);
    if SaneBase(base) {
      forall n: nat | n <= INT_MAX
        ensures naming.historical(naming.name(n)) && naming.number(naming.name(n)) == n
      {
        NamesAreShort(base, n);
        ListedIffBare(base, n);
        ExtractReadsBack(base, n);
      }
      LiveNameNotListed(base);
    }
  }

  // ---------------------------------------------------------------- the numbered files

  /** The historical files are numbered top - |kept| + 1 to top and hold `kept`, oldest first. */
  ghost predicate Holds(files: Files, naming: Naming, kept: seq<string>, top: nat) {
    && |kept| <= top <= INT_MAX
    && (forall n | top - |kept| < n <= top :: HoldsAt(files, naming, kept, top, n))
    && (forall f | f in files && naming.historical(f) :: IsKept(naming, kept, top, f))
  }

  predicate HoldsAt(files: Files, naming: Naming, kept: seq<string>, top: nat, n: int) {
    && 0 <= top - |kept| < n <= top
    && naming.name(n) in files
    && files[naming.name(n)] == kept[n - (top - |kept|) - 1]
  }

  predicate IsKept(naming: Naming, kept: seq<string>, top: nat, f: string) {
    var n := naming.number(f);
    0 <= top - |kept| < n <= top && f == naming.name(n)
  }

  lemma {:induction false} DistinctNumbers(ns: seq<int>)
    requires forall i, j | 0 <= i < j < |ns| :: ns[i] != ns[j]
    ensures |set n | n in ns| == |ns|
  {
    if ns != [] {
      var init, last := ns[..|ns| - 1], ns[|ns| - 1];
      DistinctNumbers(init);
      assert ns == init + [last];
      assert (set n | n in ns) == (set n | n in init) + {last};
    }
  }

  function Range(lo: int, hi: int): (r: set<int>)
    requires lo <= hi
    ensures |r| == hi - lo && forall n :: n in r <==> lo < n <= hi
    decreases hi - lo
  {
    if lo == hi then {} else Range(lo, hi - 1) + {hi}
  }

  lemma NumberIsListed(naming: Naming, n: nat, l: seq<string>)
    requires Sound(naming) && n <= INT_MAX && naming.name(n) in l
    ensures n in Numbers(naming, l)
  {
    var i :| 0 <= i < |l| && l[i] == naming.name(n);
    assert Numbers(naming, l)[i] == n;
  }

  /** A listing of such a directory shows every number of the range once. */
  lemma ListingShowsRange(files: Files, naming: Naming, kept: seq<string>, top: nat, l: seq<string>)
    requires Sound(naming) && Holds(files, naming, kept, top) && IsListing(files, naming, l)
    ensures |l| == |kept|
    ensures forall n | n in Numbers(naming, l) :: top - |kept| < n <= top
    ensures forall n | top - |kept| < n <= top :: naming.name(n) in l && n in Numbers(naming, l)
  {
    forall n | top - |kept| < n <= top ensures naming.name(n) in l && n in Numbers(naming, l) {
      assert HoldsAt(files, naming, kept, top, n);
      NumberIsListed(naming, n, l);
    }
    var ns := Numbers(naming, l);
    forall i | 0 <= i < |l| ensures IsKept(naming, kept, top, l[i]) && ns[i] == naming.number(l[i]) {
      assert l[i] in l;
    }
    DistinctNumbers(ns);
    assert (set n | n in ns) == Range(top - |kept|, top);
  }

  /** The next number is one past the newest. */
  lemma NextIsPastTop(files: Files, naming: Naming, kept: seq<string>, top: nat, l: seq<string>)
    requires Sound(naming) && Holds(files, naming, kept, top) && IsListing(files, naming, l)
    requires kept == [] ==> top == 0
    ensures NextSequence(naming, l) == top + 1
  {
    ListingShowsRange(files, naming, kept, top, l);
    assert kept != [] ==> top in Numbers(naming, l);
  }

  // ---------------------------------------------------------------- deletion

  /** The last k elements, or all of them. */
  function LastOf<T>(s: seq<T>, k: nat): seq<T> {
    if |s| <= k then s else s[|s| - k..]
  }

  /** The oldest listed file is the lowest number of the range. */
  lemma OldestIsLowest(files: Files, naming: Naming, kept: seq<string>, top: nat, l: seq<string>)
    requires Sound(naming) && Holds(files, naming, kept, top) && IsListing(files, naming, l) && kept != []
    ensures |l| == |kept| && l[OldestOf(naming, l)] == naming.name(top - |kept| + 1)
  {
    ListingShowsRange(files, naming, kept, top, l);
    var f, ns := l[OldestOf(naming, l)], Numbers(naming, l);
    assert top - |kept| + 1 in ns;
    var i :| 0 <= i < |ns| && ns[i] == top - |kept| + 1;
    assert f in l && ns[OldestOf(naming, l)] <= ns[i];
    assert IsKept(naming, kept, top, f);
  }

  lemma DeletingLowest(files: Files, naming: Naming, kept: seq<string>, top: nat, gone: string)
    requires Sound(naming) && Holds(files, naming, kept, top) && kept != []
    requires gone == naming.name(top - |kept| + 1)
    ensures Holds(files - {gone}, naming, kept[1..], top)
  {
    var files', kept' := files - {gone}, kept[1..];
    forall n | top - |kept'| < n <= top ensures HoldsAt(files', naming, kept', top, n) {
      assert HoldsAt(files, naming, kept, top, n);
    }
    forall f | f in files' && naming.historical(f) ensures IsKept(naming, kept', top, f) {
      assert IsKept(naming, kept, top, f);
    }
  }

  lemma DeletingFromListing(files: Files, naming: Naming, l: seq<string>, i: nat)
    requires IsListing(files, naming, l) && i < |l|
    ensures IsListing(files - {l[i]}, naming, Without(l, i))
  {
    var l' := Without(l, i);
    forall f ensures f in l' <==> f in files - {l[i]} && naming.historical(f) {
      if f in l && f != l[i] {
        var j :| 0 <= j < |l| && l[j] == f;
        assert if j < i then l'[j] == f else l'[j - 1] == f;
      }
    }
  }

  /** b differs from a at most in historical files. */
  ghost predicate SameElsewhere(a: Files, b: Files, naming: Naming) {
    forall f | !naming.historical(f) :: (f in a <==> f in b) && (f in a ==> a[f] == b[f])
  }

  /** Retention: whatever the listing order, deletion ends and leaves exactly the newest `keep`
      files with their contents, and touches nothing that is not a historical file. */
  lemma {:induction false} PruneKeepsNewest(files: Files, naming: Naming, kept: seq<string>, top: nat,
                                            l: seq<string>, keep: nat)
    requires Sound(naming) && Holds(files, naming, kept, top) && IsListing(files, naming, l)
    ensures Holds(Prune(files, naming, l, keep), naming, LastOf(kept, keep), top)
    ensures SameElsewhere(files, Prune(files, naming, l, keep), naming)
    decreases |l|
  {
    ListingShowsRange(files, naming, kept, top, l);
    if |l| > keep {
      var i := OldestOf(naming, l);
      OldestIsLowest(files, naming, kept, top, l);
      DeletingLowest(files, naming, kept, top, l[i]);
      DeletingFromListing(files, naming, l, i);
      PruneKeepsNewest(files - {l[i]}, naming, kept[1..], top, Without(l, i), keep);
      assert LastOf(kept[1..], keep) == LastOf(kept, keep);
      assert l[i] in l;
    }
  }

  // ---------------------------------------------------------------- one rotation

  /** A first process at work on a directory it started clean: `kept` are the retained files'
      contents, `top` the newest number (0 if none), `live` the bytes of the live file. */
  ghost predicate Tidy(m: Manager, kept: seq<string>, top: nat, live: string) {
    var naming := m.naming;
    && Sound(naming)
    && m.open && m.initialized && m.current == naming.live
    && m.current in m.files && m.files[m.current] == live && m.size == |live|
    && Holds(m.files, naming, kept, top)
    && (kept == [] ==> top == 0)
    && |kept| <= m.keep
  }

  lemma RenamingAddsNewest(files: Files, naming: Naming, kept: seq<string>, top: nat, live: string)
    requires Sound(naming) && Holds(files, naming, kept, top) && top < INT_MAX
    requires naming.live in files && files[naming.live] == live
    ensures naming.name(top + 1) !in files
    ensures Holds((files - {naming.live})[naming.name(top + 1) := live], naming, kept + [live], top + 1)
  {
    var files', kept' := (files - {naming.live})[naming.name(top + 1) := live], kept + [live];
    var top' := top + 1;
    assert naming.name(top + 1) in files ==> IsKept(naming, kept, top, naming.name(top + 1));
    forall n | top' - |kept'| < n <= top' ensures HoldsAt(files', naming, kept', top', n) {
      if n <= top {
        assert HoldsAt(files, naming, kept, top, n);
      }
    }
    forall f | f in files' && naming.historical(f) ensures IsKept(naming, kept', top + 1, f) {
      if f != naming.name(top + 1) {
        assert IsKept(naming, kept, top, f);
      }
    }
  }

  /** The number of the newest retained file after a rotation: retaining none forgets it. */
  function NewTop(top: nat, keep: nat): nat {
    if keep == 0 then 0 else top + 1
  }

  lemma HoldsNothing(files: Files, naming: Naming, top: nat)
    requires Holds(files, naming, [], top)
    ensures Holds(files, naming, [], 0)
  {
    assert forall f | f in files && naming.historical(f) :: IsKept(naming, [], top, f);
  }

  lemma ReopenKeepsHistory(files: Files, naming: Naming, kept: seq<string>, top: nat)
    requires Sound(naming) && Holds(files, naming, kept, top)
    ensures Holds(OpenForAppend(files, naming.live), naming, kept, top)
  {
    var files' := OpenForAppend(files, naming.live);
    forall n | top - |kept| < n <= top ensures HoldsAt(files', naming, kept, top, n) {
      assert HoldsAt(files, naming, kept, top, n);
    }
    forall f | f in files' && naming.historical(f) ensures IsKept(naming, kept, top, f) {
      assert f in files;
    }
  }

  /** The files after a successful rotation, on any listing orders. */
  lemma RotatedFiles(files: Files, naming: Naming, kept: seq<string>, top: nat, live: string, l: seq<string>, keep: nat)
    requires Sound(naming) && Holds(files, naming, kept, top) && top < INT_MAX
    requires naming.live in files && files[naming.live] == live
    requires var renamed := (files - {naming.live})[naming.name(top + 1) := live]; IsListing(renamed, naming, l)
    ensures var renamed := (files - {naming.live})[naming.name(top + 1) := live];
      var after := OpenForAppend(Prune(renamed, naming, l, keep), naming.live);
      && naming.live in after && after[naming.live] == ""
      && Holds(after, naming, LastOf(kept + [live], keep), NewTop(top, keep))
  {
    var renamed := (files - {naming.live})[naming.name(top + 1) := live];
    RenamingAddsNewest(files, naming, kept, top, live);
    PruneKeepsNewest(renamed, naming, kept + [live], top + 1, l, keep);
    var pruned := Prune(renamed, naming, l, keep);
    assert naming.live !in pruned;
    if keep == 0 {
      HoldsNothing(pruned, naming, top + 1);
    }
    ReopenKeepsHistory(pruned, naming, LastOf(kept + [live], keep), NewTop(top, keep));
  }

  lemma SuccessfulRotate(m: Manager, l1: seq<string>, l2: seq<string>, m': Manager)
    requires RotatesWith(m, l1, l2, true, true, m', true)
    ensures m.current in m.files
    ensures var naming := m.naming;
      && IsListing(m.files, naming, l1)
      && IsListing(Renamed(m, NextSequence(naming, l1)), naming, l2)
      && m' == m.(files := OpenForAppend(Prune(Renamed(m, NextSequence(naming, l1)), naming, l2, m.keep), naming.live),
                  current := naming.live, size := 0, open := true)
  {
  }

  lemma RotationFiles(m: Manager, kept: seq<string>, top: nat, live: string,
                      l1: seq<string>, l2: seq<string>, m': Manager, naming: Naming)
    requires naming == m.naming && Sound(naming) && m.current == naming.live
    requires Holds(m.files, naming, kept, top) && (kept == [] ==> top == 0) && top < INT_MAX
    requires m.current in m.files && m.files[m.current] == live
    requires RotatesWith(m, l1, l2, true, true, m', true)
    ensures naming.live in m'.files && m'.files[naming.live] == ""
    ensures Holds(m'.files, naming, LastOf(kept + [live], m.keep), NewTop(top, m.keep))
    ensures naming.name(top + 1) !in m.files
  {
    SuccessfulRotate(m, l1, l2, m');
    NextIsPastTop(m.files, naming, kept, top, l1);
    RenamingAddsNewest(m.files, naming, kept, top, live);
    RotatedFiles(m.files, naming, kept, top, live, l2, m.keep);
  }

  lemma RotationFields(m: Manager, l1: seq<string>, l2: seq<string>, m': Manager)
    requires RotatesWith(m, l1, l2, true, true, m', true)
    ensures m'.naming == m.naming && m'.keep == m.keep && m'.maxSize == m.maxSize && m'.initialized == m.initialized
    ensures m'.open && m'.size == 0 && m'.current == m.naming.live
  {
  }

  lemma LastOfIsShort<T>(s: seq<T>, k: nat)
    ensures |LastOf(s, k)| <= k && (k > 0 && s != [] ==> LastOf(s, k) != [])
  {
  }

  lemma RotationWith(m: Manager, kept: seq<string>, top: nat, live: string,
                     l1: seq<string>, l2: seq<string>, m': Manager)
    requires Tidy(m, kept, top, live) && top < INT_MAX
    requires RotatesWith(m, l1, l2, true, true, m', true)
    ensures Tidy(m', LastOf(kept + [live], m.keep), NewTop(top, m.keep), "")
  {
    RotationFiles(m, kept, top, live, l1, l2, m', m.naming);
    RotationFields(m, l1, l2, m');
    LastOfIsShort(kept + [live], m.keep);
  }

  /** One successful rotation: the live bytes become the newest retained file under a number not
      in use, the oldest beyond `keep` go, and the live file starts empty. */
  lemma RotationOfTidy(m: Manager, kept: seq<string>, top: nat, live: string, m': Manager)
    requires Tidy(m, kept, top, live) && top < INT_MAX
    requires Rotates(m, true, true, m', true)
    ensures Tidy(m', LastOf(kept + [live], m.keep), NewTop(top, m.keep), "")
    ensures m.naming.name(top + 1) !in m.files
    ensures m'.naming == m.naming && m'.keep == m.keep && m'.maxSize == m.maxSize
  {
    var l1, l2 :| RotatesWith(m, l1, l2, true, true, m', true);
    RotationFields(m, l1, l2, m');
    RotationWith(m, kept, top, live, l1, l2, m');
    RotationFiles(m, kept, top, live, l1, l2, m', m.naming);
  }

  lemma WriteOfTidy(m: Manager, kept: seq<string>, top: nat, live: string, data: string)
    requires Tidy(m, kept, top, live)
    ensures Write(m, data, true, true).1 && Tidy(Write(m, data, true, true).0, kept, top, live + data)
    ensures var m' := Write(m, data, true, true).0;
      m'.naming == m.naming && m'.keep == m.keep && m'.maxSize == m.maxSize
  {
    var m', naming := Write(m, data, true, true).0, m.naming;
    forall n | top - |kept| < n <= top ensures HoldsAt(m'.files, naming, kept, top, n) {
      assert HoldsAt(m.files, naming, kept, top, n);
    }
    forall f | f in m'.files && naming.historical(f) ensures IsKept(naming, kept, top, f) {
      assert f in m.files;
    }
  }
}
