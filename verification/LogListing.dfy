/** Retention when the listing shows nothing: a base with a directory part, as the code lists, or
    one that contains ".log". */
module LogListing {
  import opened FileNames
  import opened LogVolume
  import opened LogRetention
  import opened LogHistory

  /** No file that the manager has or will make is listed. */
  ghost predicate Blind(files: Files, naming: Naming) {
    && naming.live != naming.name(1)
    && !naming.historical(naming.live) && !naming.historical(naming.name(1))
    && forall f | f in files :: !naming.historical(f)
  }

  lemma BaseHidesHistory(base: string, f: string)
    requires '/' in base || Contains(base, ".log")
    requires |f| < NPOS
    ensures !IsListed(f, base)
  {
    if '/' in base {
      DirectoryHidesHistory(base, FileName(f));
    } else {
      InnerExtensionHidesHistory(base, FileName(f));
    }
  }

  /** No name is recognised for a base that contains ".log". */
  lemma InnerExtensionHidesHistory(base: string, f: string)
    requires Contains(base, ".log") && |f| < NPOS
    ensures !IsHistoricalLogFile(f, base + ".")
  {
    var j :| 0 <= j <= |base| && OccursAt(base, ".log", j);
    if Find(f, base + ".") == 0 {
      assert f[0..|base| + 1] == base + ".";
      assert f[j..j + 4] == f[0..|base| + 1][j..j + 4] == (base + ".")[j..j + 4] == base[j..j + 4];
      FindNotPast(f, ".log", 0, j);
    }
  }

  /** With a base that is not sane every directory is blind. */
  lemma UnsoundBaseIsBlind(base: string, files: Files)
    requires '/' in base || Contains(base, ".log")
    requires |base| < 0x1_0000_0000 && forall f | f in files :: |f| < NPOS
    ensures Blind(files, NamingOf(base))
  {
    NamesAreShort(base, 1);
    BaseHidesHistory(base, HistoryName(base, 1));
    BaseHidesHistory(base, LiveName(base));
    forall f | f in files ensures !IsListed(f, base) {
      BaseHidesHistory(base, f);
    }
    assert |HistoryName(base, 1)| > |LiveName(base)|;
  }

  lemma FirstIsListed(files: Files, naming: Naming, l: seq<string>)
    requires IsListing(files, naming, l)
    ensures l == [] || (l[0] in files && naming.historical(l[0]))
  {
    assert l == [] || l[0] in l;
  }

  /** Every rotation takes number 1 and overwrites the previous rotation's file, whatever the
      retention count. */
  lemma BlindRotationOverwrites(m: Manager, m': Manager)
    requires m.current == m.naming.live && Blind(m.files, m.naming)
    requires Rotates(m, true, true, m', true)
    ensures m.current in m.files
    ensures m' == m.(files := (m.files - {m.current})[m.naming.name(1) := m.files[m.current]][m.current := ""],
                     size := 0, open := true)
  {
    var l1, l2 :| RotatesWith(m, l1, l2, true, true, m', true);
    SuccessfulRotate(m, l1, l2, m');
    FirstIsListed(m.files, m.naming, l1);
    FirstIsListed(Renamed(m, 1), m.naming, l2);
  }

  // ---------------------------------------------------------------- whole runs

  /** The directory a blind run leaves: what was there, the live file, and the last closed file
      under number 1. */
  function BlindFiles(start: Files, naming: Naming, r: Record): Files {
    (if r.closed == [] then start else start[naming.name(1) := r.closed[|r.closed| - 1]])[naming.live := r.live]
  }

  /** A manager at work on that directory. */
  ghost predicate AtWork(m: Manager, files: Files, live: string) {
    m.open && m.current == m.naming.live && m.files == files && m.size == |live|
  }

  lemma BlindEvent(start: Files, m: Manager, e: Event, m': Manager, r: Record)
    requires Blind(start, m.naming) && AtWork(m, BlindFiles(start, m.naming, r), r.live) && EventStep(m, e, m')
    ensures AtWork(m', BlindFiles(start, m.naming, Extend(r, e)), Extend(r, e).live)
    ensures m'.naming == m.naming && m'.keep == m.keep
  {
    match e
    case Wrote(data) =>
    case Rotated => BlindRotationOverwrites(m, m');
  }

  lemma {:induction false} BlindRun(states: seq<Manager>, events: seq<Event>, live: string, n: nat)
    requires EventRun(states, events) && n <= |events|
    requires var m := states[0];
      Blind(m.files, m.naming) && AtWork(m, m.files, live) && m.naming.live in m.files && m.files[m.naming.live] == live
    ensures var m, m' := states[0], states[n];
      && AtWork(m', BlindFiles(m.files, m.naming, Replay(live, events[..n])), Replay(live, events[..n]).live)
      && m'.naming == m.naming && m'.keep == m.keep
  {
    if n == 0 {
      assert events[..0] == [];
    } else {
      var before, e := events[..n - 1], events[n - 1];
      assert events[..n][..n - 1] == before && events[..n][n - 1] == e;
      BlindRun(states, events, live, n - 1);
      assert EventStep(states[n - 1], e, states[n - 1 + 1]);
      BlindEvent(states[0].files, states[n - 1], e, states[n], Replay(live, before));
    }
  }

  /** Where nothing is listed, after any run of writes and rotations the directory holds the live
      file and, of all that was rotated, only the last closed file, under number 1. */
  lemma BlindRunKeepsLastOnly(states: seq<Manager>, events: seq<Event>, live: string)
    requires EventRun(states, events)
    requires var m := states[0];
      Blind(m.files, m.naming) && AtWork(m, m.files, live) && m.naming.live in m.files && m.files[m.naming.live] == live
    ensures states[|events|].files == BlindFiles(states[0].files, states[0].naming, Replay(live, events))
    ensures states[|events|].naming == states[0].naming
  {
    assert events[..|events|] == events;
    BlindRun(states, events, live, |events|);
  }

  // ---------------------------------------------------------------- exactly when retention works

  /** The last `keep` closed files are there under their numbers. */
  ghost predicate KeepsNewest(files: Files, naming: Naming, closed: seq<string>, keep: nat) {
    forall n: nat | 0 < n <= |closed| && |closed| - n < keep :: KeptAs(files, naming, closed, n)
  }

  predicate KeptAs(files: Files, naming: Naming, closed: seq<string>, n: nat)
    requires 0 < n <= |closed|
  {
    naming.name(n) in files && files[naming.name(n)] == closed[n - 1]
  }

  /** A first process on its live file, in a directory in which nothing is listed. */
  ghost predicate FreshStart(m: Manager, naming: Naming, live: string) {
    && m.naming == naming && m.initialized && AtWork(m, m.files, live)
    && naming.live in m.files && m.files[naming.live] == live
    && forall f | f in m.files :: |f| < NPOS && !naming.historical(f)
  }

  /** A run from such a start, of a manager that keeps something, in a directory that has no file
      with the last number by chance. */
  ghost predicate FreshRun(states: seq<Manager>, events: seq<Event>, naming: Naming, live: string) {
    && EventRun(states, events) && FreshStart(states[0], naming, live)
    && states[0].keep > 0 && |Replay(live, events).closed| <= INT_MAX
    && naming.name(|Replay(live, events).closed|) !in states[0].files
  }

  /** Initialising a first process in a directory without files is such a start, for every base. */
  lemma InitializeIsFresh(base: string, m: Manager, pid: nat)
    requires m.naming == NamingOf(base) && |base| < 0x1_0000_0000 && m.files == map[] && !m.initialized
    ensures var (m', ok) := Initialize(m, pid, true, true, true);
      ok && FreshStart(m', NamingOf(base), "") && forall n: nat :: HistoryName(base, n) !in m'.files
  {
    LiveNameNotListed(base);
    var m' := Initialize(m, pid, true, true, true).0;
    forall n: nat ensures HistoryName(base, n) !in m'.files {
      assert |HistoryName(base, n)| > |LiveName(base)|;
    }
  }

  lemma TidyKeepsNewest(m: Manager, closed: seq<string>, live: string, keep: nat)
    requires Tidy(m, LastOf(closed, keep), |closed|, live)
    ensures KeepsNewest(m.files, m.naming, closed, keep)
  {
    forall n: nat | 0 < n <= |closed| && |closed| - n < keep ensures KeptAs(m.files, m.naming, closed, n) {
      assert HoldsAt(m.files, m.naming, LastOf(closed, keep), |closed|, n);
    }
  }

  lemma SoundKeepsNewest(states: seq<Manager>, events: seq<Event>, naming: Naming, live: string)
    requires FreshRun(states, events, naming, live) && Sound(naming)
    ensures KeepsNewest(states[|events|].files, naming, Replay(live, events).closed, states[0].keep)
  {
    EndAgreesWithRecord(states, events, live);
    var r := Replay(live, events);
    TidyKeepsNewest(states[|events|], r.closed, r.live, states[0].keep);
  }

  lemma BlindFilesKeepOne(start: Files, naming: Naming, r: Record, keep: nat)
    requires keep > 0 && naming.live != naming.name(1)
    requires |r.closed| > 1 ==>
      var newest := naming.name(|r.closed|); newest !in start && newest != naming.name(1) && newest != naming.live
    ensures KeepsNewest(BlindFiles(start, naming, r), naming, r.closed, keep) <==> |r.closed| <= 1
  {
    var files := BlindFiles(start, naming, r);
    if |r.closed| > 1 {
      assert !KeptAs(files, naming, r.closed, |r.closed|);
    }
  }

  lemma NewestNameIsNew(base: string, n: nat)
    requires |base| < 0x1_0000_0000 && n <= INT_MAX
    ensures n > 1 ==> HistoryName(base, n) != HistoryName(base, 1) && HistoryName(base, n) != LiveName(base)
  {
    if n > 1 {
      NamesAreShort(base, n);
      NamesAreShort(base, 1);
      NamesDiffer(base, n, 1);
    }
  }

  lemma BlindKeepsOne(states: seq<Manager>, events: seq<Event>, base: string, live: string)
    requires FreshRun(states, events, NamingOf(base), live) && |base| < 0x1_0000_0000
    requires '/' in base || Contains(base, ".log")
    ensures KeepsNewest(states[|events|].files, NamingOf(base), Replay(live, events).closed, states[0].keep)
       <==> |Replay(live, events).closed| <= 1
  {
    var r := Replay(live, events);
    UnsoundBaseIsBlind(base, states[0].files);
    BlindRunKeepsLastOnly(states, events, live);
    NewestNameIsNew(base, |r.closed|);
    BlindFilesKeepOne(states[0].files, NamingOf(base), r, states[0].keep);
  }

  /** Retention as promised, exactly: after a fresh run the last `keep` closed files are there under
      their numbers if and only if the base has no directory part and does not contain ".log", or
      at most one file was closed. */
  lemma RetentionIffListed(states: seq<Manager>, events: seq<Event>, base: string, live: string)
    requires FreshRun(states, events, NamingOf(base), live) && |base| < 0x1_0000_0000
    ensures KeepsNewest(states[|events|].files, NamingOf(base), Replay(live, events).closed, states[0].keep)
       <==> ('/' !in base && !Contains(base, ".log")) || |Replay(live, events).closed| <= 1
  {
    SoundIffSane(base);
    if SaneBase(base) {
      SoundKeepsNewest(states, events, NamingOf(base), live);
    } else {
      BlindKeepsOne(states, events, base, live);
    }
  }

  /** The code as it stands makes every base absolute before it lists, so it keeps the newest files
      exactly as long as there is but one. */
  lemma AbsoluteBaseKeepsOne(states: seq<Manager>, events: seq<Event>, cwd: string, base: string, live: string)
    requires var absolute := Absolute(cwd, base);
      FreshRun(states, events, NamingOf(absolute), live) && |absolute| < 0x1_0000_0000
    ensures KeepsNewest(states[|events|].files, states[0].naming, Replay(live, events).closed, states[0].keep)
       <==> |Replay(live, events).closed| <= 1
  {
    BlindKeepsOne(states, events, Absolute(cwd, base), live);
  }
}
