/** Whole runs of the file manager: content, numbering, disk use, and failure. */
module LogHistory {
  import opened FileNames
  import opened LogVolume
  import opened LogRetention

  // ---------------------------------------------------------------- runs against a plain record

  datatype Event = Wrote(data: string) | Rotated

  /** A log kept for ever: the bytes of every file closed so far, and of the live one. */
  datatype Record = Record(closed: seq<string>, live: string)

  function Extend(r: Record, e: Event): Record {
    match e
    case Wrote(data) => Record(r.closed, r.live + data)
    case Rotated => Record(r.closed + [r.live], "")
  }

  function Replay(live: string, events: seq<Event>): Record {
    if events == [] then Record([], live)
    else Extend(Replay(live, events[..|events| - 1]), events[|events| - 1])
  }

  function Written(events: seq<Event>): string {
    if events == [] then ""
    else
      Written(events[..|events| - 1])
      + match events[|events| - 1] case Wrote(data) => data case Rotated => ""
  }

  function Concat(parts: seq<string>): string {
    if parts == [] then "" else Concat(parts[..|parts| - 1]) + parts[|parts| - 1]
  }

  lemma {:induction false} ConcatSplit(a: seq<string>, b: seq<string>)
    ensures Concat(a + b) == Concat(a) + Concat(b)
  {
    if b == [] {
      assert a + b == a;
    } else {
      assert (a + b)[..|a + b| - 1] == a + b[..|b| - 1];
      ConcatSplit(a, b[..|b| - 1]);
    }
  }

  /** The record loses no byte. */
  lemma {:induction false} RecordIsComplete(live: string, events: seq<Event>)
    ensures Concat(Replay(live, events).closed) + Replay(live, events).live == live + Written(events)
  {
    if events == [] {
      assert "" + live == live + "";
    } else {
      var before, e := events[..|events| - 1], events[|events| - 1];
      RecordIsComplete(live, before);
      var r := Replay(live, before);
      match e
      case Wrote(data) =>
        assert Concat(r.closed) + (r.live + data) == (Concat(r.closed) + r.live) + data;
        assert (live + Written(before)) + data == live + (Written(before) + data);
      case Rotated =>
        assert (r.closed + [r.live])[..|r.closed|] == r.closed;
        assert Concat(r.closed + [r.live]) + "" == Concat(r.closed) + r.live;
        assert Written(events) == Written(before);
    }
  }

  ghost predicate EventStep(m: Manager, e: Event, m': Manager) {
    match e
    case Wrote(data) => (m', true) == Write(m, data, true, true)
    case Rotated => Rotates(m, true, true, m', true)
  }

  /** A run of successful writes and rotations. */
  ghost predicate EventRun(states: seq<Manager>, events: seq<Event>) {
    && |states| == |events| + 1
    && forall i {:trigger events[i]} | 0 <= i < |events| :: EventStep(states[i], events[i], states[i + 1])
  }

  /** A first process that has just opened its live file in a directory without historical files. */
  ghost predicate CleanStart(m: Manager, live: string) {
    Tidy(m, [], 0, live)
  }

  /** Initialising in such a directory is a clean start, on the bytes the live file already has. */
  lemma InitializeIsClean(base: string, m: Manager, pid: nat)
    requires SaneBase(base) && m.naming == NamingOf(base) && !m.initialized
    requires forall f | f in m.files :: !m.naming.historical(f)
    ensures var (m', ok) := Initialize(m, pid, true, true, true);
      ok && CleanStart(m', if LiveName(base) in m.files then m.files[LiveName(base)] else "")
  {
    SoundIffSane(base);
  }

  /** The newest number in use. */
  function TopOf(closed: seq<string>, keep: nat): nat {
    if keep == 0 then 0 else |closed|
  }

  lemma LastOfSnoc<T>(s: seq<T>, x: T, k: nat)
    ensures LastOf(LastOf(s, k) + [x], k) == LastOf(s + [x], k)
  {
  }

  lemma {:induction false} ReplayPrefixShorter(live: string, events: seq<Event>, n: nat)
    requires n <= |events|
    ensures |Replay(live, events[..n]).closed| <= |Replay(live, events).closed|
  {
    if n == |events| {
      assert events[..n] == events;
    } else {
      assert events[..|events| - 1][..n] == events[..n];
      ReplayPrefixShorter(live, events[..|events| - 1], n);
    }
  }

  /** The directory agrees with the record: the live file holds its live bytes, the numbered files
      its last `keep` closed ones. */
  ghost predicate Agrees(m: Manager, r: Record) {
    Tidy(m, LastOf(r.closed, m.keep), TopOf(r.closed, m.keep), r.live)
  }

  lemma EventKeepsAgreement(m: Manager, e: Event, m': Manager, r: Record)
    requires Agrees(m, r) && EventStep(m, e, m') && |Extend(r, e).closed| <= INT_MAX
    ensures Agrees(m', Extend(r, e))
    ensures m'.naming == m.naming && m'.keep == m.keep && m'.maxSize == m.maxSize
  {
    match e
    case Wrote(data) => WriteOfTidy(m, LastOf(r.closed, m.keep), TopOf(r.closed, m.keep), r.live, data);
    case Rotated =>
      RotationOfTidy(m, LastOf(r.closed, m.keep), TopOf(r.closed, m.keep), r.live, m');
      LastOfSnoc(r.closed, r.live, m.keep);
  }

  /** After any run of successful writes and rotations from a clean start the directory agrees
      with the record of that run. */
  lemma {:induction false} RunAgreesWithRecord(states: seq<Manager>, events: seq<Event>, live: string, n: nat)
    requires EventRun(states, events) && CleanStart(states[0], live) && n <= |events|
    requires |Replay(live, events[..n]).closed| <= INT_MAX
    ensures Agrees(states[n], Replay(live, events[..n]))
    ensures states[n].naming == states[0].naming && states[n].keep == states[0].keep
  {
    if n == 0 {
      assert events[..0] == [];
    } else {
      var before, e := events[..n - 1], events[n - 1];
      assert events[..n][..n - 1] == before && events[..n][n - 1] == e;
      RunAgreesWithRecord(states, events, live, n - 1);
      assert EventStep(states[n - 1], e, states[n - 1 + 1]);
      EventKeepsAgreement(states[n - 1], e, states[n], Replay(live, before));
    }
  }

  lemma EndAgreesWithRecord(states: seq<Manager>, events: seq<Event>, live: string)
    requires EventRun(states, events) && CleanStart(states[0], live)
    requires |Replay(live, events).closed| <= INT_MAX
    ensures var r, m, keep := Replay(live, events), states[|events|], states[0].keep;
      m.naming == states[0].naming && m.keep == keep && Tidy(m, LastOf(r.closed, keep), TopOf(r.closed, keep), r.live)
  {
    assert events[..|events|] == events;
    RunAgreesWithRecord(states, events, live, |events|);
  }

  // ---------------------------------------------------------------- what the files say

  /** The bytes of the `count` historical files up to number `top`, in increasing order. */
  function Retained(files: Files, naming: Naming, top: nat, count: nat): string
    decreases count
  {
    if count == 0 || top == 0 || naming.name(top) !in files then ""
    else Retained(files, naming, top - 1, count - 1) + files[naming.name(top)]
  }

  lemma {:induction false} RetainedIsConcat(files: Files, naming: Naming, kept: seq<string>, top: nat)
    requires |kept| <= top
    requires forall n | top - |kept| < n <= top :: HoldsAt(files, naming, kept, top, n)
    ensures Retained(files, naming, top, |kept|) == Concat(kept)
    decreases |kept|
  {
    if kept != [] {
      var init, below := kept[..|kept| - 1], top - 1;
      assert HoldsAt(files, naming, kept, top, top);
      forall n | below - |init| < n <= below ensures HoldsAt(files, naming, init, below, n) {
        assert HoldsAt(files, naming, kept, top, n);
      }
      RetainedIsConcat(files, naming, init, below);
    }
  }

  /** Rotated content is a suffix of history: from a clean start, after any run of successful
      writes and rotations, the retained files in increasing order followed by the live file are
      what remains of all bytes written when whole oldest files are cut off. */
  lemma RetainedIsSuffixOfHistory(states: seq<Manager>, events: seq<Event>, live: string)
    requires EventRun(states, events) && CleanStart(states[0], live)
    requires |Replay(live, events).closed| <= INT_MAX
    ensures var m, closed, keep := states[|events|], Replay(live, events).closed, states[0].keep;
      var count := if |closed| <= keep then |closed| else keep;
      && m.current in m.files
      && Concat(closed[..|closed| - count])
         + Retained(m.files, m.naming, TopOf(closed, keep), count) + m.files[m.current]
         == live + Written(events)
  {
    EndAgreesWithRecord(states, events, live);
    RecordIsComplete(live, events);
    TidyShowsSuffix(states[|events|], Replay(live, events), states[0].keep);
  }

  lemma TidyShowsSuffix(m: Manager, r: Record, keep: nat)
    requires Tidy(m, LastOf(r.closed, keep), TopOf(r.closed, keep), r.live)
    ensures var count := if |r.closed| <= keep then |r.closed| else keep;
      Concat(r.closed[..|r.closed| - count])
      + Retained(m.files, m.naming, TopOf(r.closed, keep), count) + m.files[m.current]
      == Concat(r.closed) + r.live
  {
    RetainedIsConcat(m.files, m.naming, LastOf(r.closed, keep), TopOf(r.closed, keep));
    CutAtFileBoundary(r.closed, keep);
  }

  lemma CutAtFileBoundary(closed: seq<string>, keep: nat)
    ensures var kept := LastOf(closed, keep);
      Concat(closed[..|closed| - |kept|]) + Concat(kept) == Concat(closed)
  {
    var kept := LastOf(closed, keep);
    ConcatSplit(closed[..|closed| - |kept|], kept);
    assert closed[..|closed| - |kept|] + kept == closed;
  }

  /** Retention keeps exactly the newest: after any run that rotated `total` times, with keep >= 1,
      number n names a retained file if and only if it is among the newest min(keep, total) of
      1..total, and there is no other historical file. */
  lemma RetentionKeepsNewest(states: seq<Manager>, events: seq<Event>, live: string, f: string, n: nat)
    requires EventRun(states, events) && CleanStart(states[0], live) && states[0].keep > 0 && n <= INT_MAX
    requires |Replay(live, events).closed| <= INT_MAX
    ensures var m, total, keep := states[|events|], |Replay(live, events).closed|, states[0].keep;
      var naming := m.naming;
      && (naming.name(n) in m.files <==> 0 < n <= total && total - n < keep)
      && (f in m.files && naming.historical(f) ==>
            0 < naming.number(f) <= total && f == naming.name(naming.number(f)))
  {
    EndAgreesWithRecord(states, events, live);
    var m, closed, keep := states[|events|], Replay(live, events).closed, states[0].keep;
    var naming, kept := m.naming, LastOf(closed, keep);
    assert |closed| - |kept| < n <= |closed| ==> HoldsAt(m.files, naming, kept, |closed|, n);
    assert naming.name(n) in m.files ==> IsKept(naming, kept, |closed|, naming.name(n));
    assert f in m.files && naming.historical(f) ==> IsKept(naming, kept, |closed|, f);
  }

  /** With keep = 0 numbers are reused: after any such run no historical file is left, and the next
      rotation takes number 1 again. */
  lemma KeepingNoneReusesOne(states: seq<Manager>, events: seq<Event>, live: string, l: seq<string>)
    requires EventRun(states, events) && CleanStart(states[0], live) && states[0].keep == 0
    requires |Replay(live, events).closed| <= INT_MAX
    requires IsListing(states[|events|].files, states[|events|].naming, l)
    ensures l == [] && NextSequence(states[|events|].naming, l) == 1
  {
    EndAgreesWithRecord(states, events, live);
    var m := states[|events|];
    ListingShowsRange(m.files, m.naming, [], 0, l);
  }

  lemma FreshNumberStep(m: Manager, kept: seq<string>, top: nat, live: string, m': Manager)
    requires Tidy(m, kept, top, live) && top < INT_MAX && m.keep > 0 && Rotates(m, true, true, m', true)
    ensures var newest := m.naming.name(top + 1);
      newest !in m.files && newest in m'.files && m'.files[newest] == live
  {
    RotationOfTidy(m, kept, top, live, m');
    var kept' := LastOf(kept + [live], m.keep);
    assert kept'[|kept'| - 1] == live;
    assert HoldsAt(m'.files, m'.naming, kept', top + 1, top + 1);
  }

  /** With keep >= 1 a rotation never reuses a number and never overwrites a file: the number it
      takes is the count of rotations so far plus one, and no file has that name. */
  lemma RotationTakesFreshNumber(states: seq<Manager>, events: seq<Event>, live: string, m': Manager)
    requires EventRun(states, events) && CleanStart(states[0], live) && states[0].keep > 0
    requires |Replay(live, events).closed| < INT_MAX
    requires Rotates(states[|events|], true, true, m', true)
    ensures var m, r := states[|events|], Replay(live, events);
      var newest := m.naming.name(|r.closed| + 1);
      newest !in m.files && newest in m'.files && m'.files[newest] == r.live
  {
    EndAgreesWithRecord(states, events, live);
    var r, keep := Replay(live, events), states[0].keep;
    FreshNumberStep(states[|events|], LastOf(r.closed, keep), |r.closed|, r.live, m');
  }

  // ---------------------------------------------------------------- the bridge's disk bound

  /** `speckit_logger_log` on an accepted line, all I/O succeeding: write, then rotate if due. */
  ghost predicate LineStep(m: Manager, line: string, m': Manager) {
    var (w, ok) := Write(m, line, true, true);
    ok && if NeedsRotation(w) then Rotates(w, true, true, m', true) else m' == w
  }

  ghost predicate LineRun(states: seq<Manager>, lines: seq<string>, longest: nat) {
    && |states| == |lines| + 1
    && forall i {:trigger lines[i]} | 0 <= i < |lines| ::
         |lines[i]| <= longest && LineStep(states[i], lines[i], states[i + 1])
  }

  /** Every retained file was rotated as soon as it reached the limit. */
  predicate Sized(kept: seq<string>, live: string, limit: nat, longest: nat) {
    && |live| < limit
    && forall i | 0 <= i < |kept| :: limit <= |kept[i]| <= limit - 1 + longest
  }

  lemma RotatedSizes(kept: seq<string>, live: string, keep: nat, limit: nat, longest: nat)
    requires Sized(kept, "", limit, longest) && limit <= |live| <= limit - 1 + longest
    ensures Sized(LastOf(kept + [live], keep), "", limit, longest)
  {
  }

  lemma LineOfTidy(m: Manager, kept: seq<string>, top: nat, live: string, line: string, m': Manager, longest: nat)
      returns (kept': seq<string>, top': nat, live': string)
    requires Tidy(m, kept, top, live) && top < INT_MAX && LineStep(m, line, m')
    requires Sized(kept, live, m.maxSize, longest) && |line| <= longest
    ensures Tidy(m', kept', top', live') && top' <= top + 1
    ensures m'.naming == m.naming && m'.keep == m.keep && m'.maxSize == m.maxSize
    ensures Sized(kept', live', m.maxSize, longest)
  {
    WriteOfTidy(m, kept, top, live, line);
    var w := Write(m, line, true, true).0;
    if NeedsRotation(w) {
      RotationOfTidy(w, kept, top, live + line, m');
      RotatedSizes(kept, live + line, m.keep, m.maxSize, longest);
      kept', top', live' := LastOf(kept + [live + line], m.keep), NewTop(top, m.keep), "";
    } else {
      kept', top', live' := kept, top, live + line;
    }
  }

  lemma {:induction false} LinesKeepSizes(states: seq<Manager>, lines: seq<string>, longest: nat, live: string, n: nat)
      returns (kept: seq<string>, top: nat, live': string)
    requires LineRun(states, lines, longest) && CleanStart(states[0], live)
    requires |live| < states[0].maxSize && n <= |lines| <= INT_MAX
    ensures Tidy(states[n], kept, top, live') && top <= n
    ensures Sized(kept, live', states[0].maxSize, longest)
    ensures states[n].keep == states[0].keep && states[n].maxSize == states[0].maxSize
  {
    if n == 0 {
      kept, top, live' := [], 0, live;
    } else {
      kept, top, live' := LinesKeepSizes(states, lines, longest, live, n - 1);
      LineAt(states, lines, longest, n - 1);
      kept, top, live' := LineOfTidy(states[n - 1], kept, top, live', lines[n - 1], states[n], longest);
    }
  }

  lemma LineAt(states: seq<Manager>, lines: seq<string>, longest: nat, i: nat)
    requires LineRun(states, lines, longest) && i < |lines|
    ensures |lines[i]| <= longest && LineStep(states[i], lines[i], states[i + 1])
  {
  }

  lemma {:induction false} ConcatBounded(parts: seq<string>, most: nat)
    requires forall i | 0 <= i < |parts| :: |parts[i]| <= most
    ensures |Concat(parts)| <= |parts| * most
  {
    if parts != [] {
      ConcatBounded(parts[..|parts| - 1], most);
      assert |parts| * most == (|parts| - 1) * most + most;
    }
  }

  lemma Monotone(a: nat, b: nat, x: nat)
    requires a <= b
    ensures a * x <= b * x
  {
    assert b * x == a * x + (b - a) * x;
  }

  /** The historical files are those numbered top - count + 1 to top, each of lo to hi bytes. */
  ghost predicate RetainedWithin(files: Files, naming: Naming, top: nat, count: nat, lo: int, hi: int) {
    && count <= top
    && (forall i: nat | top - count < i <= top ::
          naming.name(i) in files && lo <= |files[naming.name(i)]| <= hi)
    && (forall f | f in files && naming.historical(f) ::
          0 < naming.number(f) && top - count < naming.number(f) <= top && f == naming.name(naming.number(f)))
  }

  lemma RetainedSizes(files: Files, naming: Naming, kept: seq<string>, top: nat, live: string, limit: nat, longest: nat)
    requires Holds(files, naming, kept, top) && Sized(kept, live, limit, longest)
    ensures RetainedWithin(files, naming, top, |kept|, limit, limit - 1 + longest)
    ensures |Retained(files, naming, top, |kept|)| <= |kept| * (limit - 1 + longest)
  {
    forall i: nat | top - |kept| < i <= top
      ensures naming.name(i) in files && limit <= |files[naming.name(i)]| <= limit - 1 + longest
    {
      assert HoldsAt(files, naming, kept, top, i);
    }
    forall f | f in files && naming.historical(f) ensures IsKept(naming, kept, top, f) {
    }
    RetainedIsConcat(files, naming, kept, top);
    ConcatBounded(kept, limit - 1 + longest);
  }

  /** Disk bound: from a clean start below the limit M > 0, keeping k files, with lines of at most
      L bytes, after every line the tracked size is the live file's length and below M, every
      retained file has between M and M - 1 + L bytes, and all together take at most
      k * (M - 1 + L) + M - 1 bytes. */
  lemma DiskBound(states: seq<Manager>, lines: seq<string>, longest: nat, live: string, n: nat)
      returns (top: nat, count: nat)
    requires LineRun(states, lines, longest) && CleanStart(states[0], live)
    requires |live| < states[0].maxSize && n <= |lines| <= INT_MAX
    ensures var m, limit := states[n], states[0].maxSize;
      && m.current in m.files && m.size == |m.files[m.current]| < limit
      && count <= states[0].keep
      && RetainedWithin(m.files, m.naming, top, count, limit, limit - 1 + longest)
      && |Retained(m.files, m.naming, top, count)| + |m.files[m.current]|
         <= states[0].keep * (limit - 1 + longest) + limit - 1
  {
    var kept, live';
    kept, top, live' := LinesKeepSizes(states, lines, longest, live, n);
    count := |kept|;
    var m, limit := states[n], states[0].maxSize;
    RetainedSizes(m.files, m.naming, kept, top, live', limit, longest);
    Monotone(count, states[0].keep, limit - 1 + longest);
  }

  // ---------------------------------------------------------------- fail-stop

  datatype Call =
    | CallInitialize(pid: nat, dirOk: bool, firstProcess: bool, openOk: bool)
    | CallWrite(data: string, writeOk: bool, flushOk: bool)
    | CallFlush(flushOk: bool)
    | CallRotate(l1: seq<string>, l2: seq<string>, renameOk: bool, openOk: bool)

  function Apply(m: Manager, c: Call): (Manager, bool) {
    match c
    case CallInitialize(pid, dirOk, firstProcess, openOk) => Initialize(m, pid, dirOk, firstProcess, openOk)
    case CallWrite(data, writeOk, flushOk) => Write(m, data, writeOk, flushOk)
    case CallFlush(flushOk) => FlushFile(m, flushOk)
    case CallRotate(l1, l2, renameOk, openOk) => Rotate(m, l1, l2, renameOk, openOk)
  }

  function ApplyAll(m: Manager, cs: seq<Call>): (Manager, seq<bool>) {
    if cs == [] then (m, [])
    else
      var (m', oks) := ApplyAll(m, cs[..|cs| - 1]);
      var (m'', ok) := Apply(m', cs[|cs| - 1]);
      (m'', oks + [ok])
  }

  lemma {:induction false} ClosedStaysClosed(m: Manager, cs: seq<Call>)
    requires m.initialized && !m.open
    ensures ApplyAll(m, cs).0 == m && |ApplyAll(m, cs).1| == |cs|
    ensures forall i | 0 <= i < |cs| :: ApplyAll(m, cs).1[i] == cs[i].CallInitialize?
  {
    if cs != [] {
      ClosedStaysClosed(m, cs[..|cs| - 1]);
    }
  }

  /** Fail-stop: once a rotation of an initialised manager has failed, at whatever point, nothing
      brings it back. Whatever is called afterwards, with whatever luck, the handle stays closed, no
      file changes, and every write, flush and rotation reports failure, while `Initialize` reports
      success. A rename that failed has lost nothing. */
  lemma {:induction false} FailedRotationIsFinal(m: Manager, l1: seq<string>, l2: seq<string>,
                                                 renameOk: bool, openOk: bool, cs: seq<Call>)
    requires m.initialized && !Rotate(m, l1, l2, renameOk, openOk).1
    ensures var failed := Rotate(m, l1, l2, renameOk, openOk).0;
      && !failed.open
      && (!renameOk ==> failed == m.(open := false))
      && ApplyAll(failed, cs).0 == failed
      && |ApplyAll(failed, cs).1| == |cs|
      && forall i | 0 <= i < |cs| :: ApplyAll(failed, cs).1[i] == cs[i].CallInitialize?
  {
    ClosedStaysClosed(Rotate(m, l1, l2, renameOk, openOk).0, cs);
  }

  // ---------------------------------------------------------------- another process's file

  function SharedBytes(files: Files, name: string): string {
    if name in files then files[name] else ""
  }

  lemma {:induction false} PruneSparesUnlisted(files: Files, naming: Naming, l: seq<string>, keep: nat, f: string)
    requires f !in l
    ensures SharedBytes(Prune(files, naming, l, keep), f) == SharedBytes(files, f)
    decreases |l|
  {
    if |l| > keep {
      var i := OldestOf(naming, l);
      PruneSparesUnlisted(files - {l[i]}, naming, Without(l, i), keep, f);
    }
  }

  /** A process that started under its own name is on the shared live file after its first
      rotation, behind whatever bytes others wrote there; its tracked size is right if and only if
      there were none. */
  lemma RotationLeavesPidName(base: string, m: Manager, m': Manager)
    requires m.naming == NamingOf(base) && m.current == PidName(base, m.pid)
    requires Rotates(m, true, true, m', true)
    ensures m'.current == LiveName(base) != m.current && m'.current in m'.files
    ensures m'.files[m'.current] == SharedBytes(m.files, m'.current)
    ensures m'.size == |m'.files[m'.current]| <==> SharedBytes(m.files, m'.current) == ""
  {
    var l1, l2 :| RotatesWith(m, l1, l2, true, true, m', true);
    SuccessfulRotate(m, l1, l2, m');
    var live, n := LiveName(base), NextSequence(m.naming, l1);
    assert PidName(base, m.pid)[|base|] == '_' && live[|base|] == '.';
    LiveNameNotListed(base);
    assert |HistoryName(base, n)| > |live|;
    PruneSparesUnlisted(Renamed(m, n), m.naming, l2, m.keep, live);
  }
}
