/** The file manager as an object over a directory, proved against its description on values. */
module FileManagerClass {
  import opened Common
  import opened FileNames
  import opened FileNamesExact
  import opened LogRotation
  import opened LogVolume

  class Directory {
    var files: Files

    constructor (files: Files)
      ensures this.files == files
    {
      this.files := files;
    }
  }

  lemma HighestOfOneMore(ns: seq<int>, i: nat)
    requires i < |ns|
    ensures Highest(ns[..i + 1]) == if ns[i] > Highest(ns[..i]) then ns[i] else Highest(ns[..i])
  {
    assert ns[..i + 1][..i] == ns[..i];
  }

  /** `l` lists the historical names among `names`, each once. */
  ghost predicate ListedSoFar(names: set<string>, naming: Naming, l: seq<string>) {
    && (forall i, j | 0 <= i < j < |l| :: l[i] != l[j])
    && (forall f :: f in l <==> f in names && naming.historical(f))
  }

  lemma ListOneMore(names: set<string>, naming: Naming, l: seq<string>, f: string)
    requires ListedSoFar(names, naming, l) && f !in names
    ensures ListedSoFar(names + {f}, naming, if naming.historical(f) then l + [f] else l)
  {
  }

  /** Every directory has a listing. */
  lemma {:induction false} AnyListing(names: set<string>, naming: Naming) returns (l: seq<string>)
    ensures ListedSoFar(names, naming, l)
  {
    if names == {} {
      l := [];
    } else {
      var f :| f in names;
      l := AnyListing(names - {f}, naming);
      ListOneMore(names - {f}, naming, l, f);
      assert names - {f} + {f} == names;
      l := if naming.historical(f) then l + [f] else l;
    }
  }

  lemma AnyListings(m: Manager) returns (l1: seq<string>, l2: seq<string>)
    ensures ListingsOf(m, l1, l2)
  {
    l1 := AnyListing(m.files.Keys, m.naming);
    l2 := [];
    if m.current in m.files {
      l2 := AnyListing(Renamed(m, NextSequence(m.naming, l1)).Keys, m.naming);
    }
  }

  lemma UnnumberedSpared(files: Files, base: string, l: seq<string>, keep: nat)
    requires IsListing(files, NamingOf(base), l)
    ensures forall f | f in files && !Numbered(base, FileName(f)) ::
      var left := Prune(files, NamingOf(base), l, keep); f in left && left[f] == files[f]
  {
    var _ := PruneAny(files, NamingOf(base), l, keep);
    forall f | f in files && !Numbered(base, FileName(f)) ensures f !in l {
      ListedIsNumbered(base, f);
    }
  }

  lemma RotationSparesUnnumbered(base: string, m: Manager, renameOk: bool, openOk: bool, m': Manager, ok: bool)
    requires m.naming == NamingOf(base) && Rotates(m, renameOk, openOk, m', ok)
    ensures forall f | f in m.files && !Numbered(base, FileName(f))
              && f != m.current && f != base + ".log" && (forall n: nat :: f != HistoryName(base, n)) ::
      f in m'.files && m'.files[f] == m.files[f]
  {
    forall f | f in m.files && !Numbered(base, FileName(f))
        && f != m.current && f != base + ".log" && (forall n: nat :: f != HistoryName(base, n))
      ensures f in m'.files && m'.files[f] == m.files[f]
    {
      ListedIsNumbered(base, f);
      RotationSparesOthers(m, renameOk, openOk, m', ok, f);
    }
  }

  class FileManager {
    const baseName: string
    const dir: Directory
    var processId: nat
    var currentFileName: string
    var maxSize: nat
    var retentionCount: nat
    var currentFileSize: nat
    var initialized: bool
    var handleOpen: bool

    ghost function View(): Manager
      reads this, dir
    {
      Manager(dir.files, NamingOf(baseName), processId, currentFileName, maxSize, retentionCount,
              currentFileSize, initialized, handleOpen)
    }

    /** An open handle refers to a file that is there. */
    ghost predicate Valid()
      reads this, dir
    {
      handleOpen ==> currentFileName in dir.files
    }

    constructor (baseName: string, dir: Directory)
      ensures Valid() && this.dir == dir && this.baseName == baseName
      ensures View() == Manager(dir.files, NamingOf(baseName), 0, "", 10 * 1024 * 1024, 3, 0, false, false)
    {
      this.baseName, this.dir := baseName, dir;
      processId, currentFileName := 0, "";
      maxSize, retentionCount, currentFileSize := 10 * 1024 * 1024, 3, 0;
      initialized, handleOpen := false, false;
    }

    method SetMaxFileSize(size: nat)
      modifies this
      ensures View() == old(View()).(maxSize := size)
    {
      maxSize := size;
    }

    method SetRetentionCount(count: nat)
      modifies this
      ensures View() == old(View()).(keep := count)
    {
      retentionCount := count;
    }

    method OpenLogFile(openOk: bool) returns (ok: bool)
      modifies this, dir
      ensures ok == openOk && handleOpen == openOk
      ensures dir.files == if openOk then OpenForAppend(old(dir.files), currentFileName) else old(dir.files)
      ensures View() == old(View()).(files := dir.files, open := handleOpen)
    {
      handleOpen := openOk;
      if openOk && currentFileName !in dir.files {
        dir.files := dir.files[currentFileName := ""];
      }
      return handleOpen;
    }

    method Initialize(pid: nat, dirOk: bool, firstProcess: bool, openOk: bool) returns (ok: bool)
      requires Valid()
      modifies this, dir
      ensures Valid()
      ensures (View(), ok) == LogVolume.Initialize(old(View()), pid, dirOk, firstProcess, openOk)
      ensures ok == (old(initialized) || (dirOk && openOk))
      // A process writes to the file that bears its name, and knows how long it is.
      ensures ok && !old(initialized) ==>
        && currentFileName == baseName + (if firstProcess then "" else "_" + Decimal(pid)) + ".log"
        && processId == pid && handleOpen && currentFileName in dir.files
        && currentFileSize == |dir.files[currentFileName]|
      ensures forall f | f in old(dir.files) :: f in dir.files && dir.files[f] == old(dir.files[f])
    {
      if initialized {
        return true;
      }
      processId := pid;
      if !dirOk {
        return false;
      }
      currentFileName := GenerateFileName(baseName, processId, firstProcess);
      var isOpen := OpenLogFile(openOk);
      if !isOpen {
        return false;
      }
      if currentFileName in dir.files {
        currentFileSize := |dir.files[currentFileName]|;
      }
      initialized := true;
      return true;
    }

    method Write(data: string, writeOk: bool, flushOk: bool) returns (ok: bool)
      requires Valid()
      modifies this, dir
      ensures Valid()
      ensures (View(), ok) == LogVolume.Write(old(View()), data, writeOk, flushOk)
      // All of the data or none; a flush is tried, and may fail, at whole megabytes only.
      ensures old(handleOpen) && writeOk ==>
        && currentFileName in old(dir.files)
        && dir.files == old(dir.files)[currentFileName := old(dir.files)[currentFileName] + data]
        && currentFileSize == old(currentFileSize) + |data|
        && (ok <==> currentFileSize % 0x10_0000 != 0 || flushOk)
      ensures !old(handleOpen) || !writeOk ==>
        !ok && dir.files == old(dir.files) && currentFileSize == old(currentFileSize)
      ensures currentFileName == old(currentFileName) && handleOpen == old(handleOpen)
    {
      if !handleOpen {
        return false;
      }
      if !writeOk {
        return false;
      }
      dir.files := dir.files[currentFileName := dir.files[currentFileName] + data];
      currentFileSize := currentFileSize + |data|;
      if currentFileSize % (1024 * 1024) == 0 {
        return flushOk;
      }
      return true;
    }

    method Flush(flushOk: bool) returns (ok: bool)
      ensures ok == FlushFile(View(), flushOk).1 == (handleOpen && flushOk)
    {
      if !handleOpen {
        return false;
      }
      return flushOk;
    }

    method NeedsRotation() returns (due: bool)
      ensures due == LogVolume.NeedsRotation(View()) == (currentFileSize >= maxSize)
    {
      due := currentFileSize >= maxSize;
    }

    /** The directory is read entry by entry, in no particular order. */
    method GetHistoricalFiles() returns (l: seq<string>)
      ensures IsListing(dir.files, NamingOf(baseName), l)
    {
      l := [];
      var unread := dir.files.Keys;
      while unread != {}
        invariant unread <= dir.files.Keys
        invariant ListedSoFar(dir.files.Keys - unread, NamingOf(baseName), l)
        decreases unread
      {
        var f :| f in unread;
        ListOneMore(dir.files.Keys - unread, NamingOf(baseName), l, f);
        assert dir.files.Keys - unread + {f} == dir.files.Keys - (unread - {f});
        unread := unread - {f};
        if IsListed(f, baseName) {
          l := l + [f];
        }
      }
    }

    method CalculateNextSequenceNumber(l: seq<string>) returns (next: int)
      ensures next == NextSequence(NamingOf(baseName), l)
    {
      if l == [] {
        return 1;
      }
      ghost var ns := Numbers(NamingOf(baseName), l);
      var maxSequence := 0;
      for i := 0 to |l|
        invariant maxSequence == Highest(ns[..i])
      {
        var sequence := ExtractSequenceNumber(l[i]);
        HighestOfOneMore(ns, i);
        if sequence > maxSequence {
          maxSequence := sequence;
        }
      }
      assert ns[..|l|] == ns;
      return maxSequence + 1;
    }

    /** The first listed file with the lowest number. */
    method FindOldestHistoricalFile(l: seq<string>) returns (oldest: nat)
      requires l != []
      ensures oldest == OldestOf(NamingOf(baseName), l)
    {
      ghost var ns := Numbers(NamingOf(baseName), l);
      oldest := 0;
      var lowest := ExtractSequenceNumber(l[0]);
      for i := 1 to |l|
        invariant oldest == LowestAmong(ns, i) && lowest == ns[oldest]
      {
        var sequence := ExtractSequenceNumber(l[i]);
        assert sequence == ns[i];
        if sequence < lowest {
          oldest, lowest := i, sequence;
        }
      }
    }

    method DeleteOldestFiles() returns (ghost listing: seq<string>)
      modifies dir
      ensures IsListing(old(dir.files), NamingOf(baseName), listing)
      ensures dir.files == Prune(old(dir.files), NamingOf(baseName), listing, retentionCount)
      // Whatever is not the base, a dot, digits and a dot is left alone.
      ensures forall f | f in old(dir.files) && !Numbered(baseName, FileName(f)) ::
        f in dir.files && dir.files[f] == old(dir.files)[f]
    {
      var historicalFiles := GetHistoricalFiles();
      listing := historicalFiles;
      while |historicalFiles| > retentionCount
        invariant Prune(dir.files, NamingOf(baseName), historicalFiles, retentionCount)
               == Prune(old(dir.files), NamingOf(baseName), listing, retentionCount)
        decreases |historicalFiles|
      {
        var oldest := FindOldestHistoricalFile(historicalFiles);
        dir.files := dir.files - {historicalFiles[oldest]};
        historicalFiles := Without(historicalFiles, oldest);
      }
      UnnumberedSpared(old(dir.files), baseName, listing, retentionCount);
    }

    method RenameWithSequence(sequence: nat, renameOk: bool) returns (ok: bool)
      modifies dir
      ensures ok == (renameOk && currentFileName in old(dir.files))
      ensures dir.files == if ok then Renamed(old(View()), sequence) else old(dir.files)
    {
      if !renameOk || currentFileName !in dir.files {
        return false;
      }
      var bytes := dir.files[currentFileName];
      dir.files := (dir.files - {currentFileName})[HistoryName(baseName, sequence) := bytes];
      return true;
    }

    method Rotate(renameOk: bool, openOk: bool) returns (ok: bool)
      requires Valid()
      modifies this, dir
      ensures Valid()
      ensures Rotates(old(View()), renameOk, openOk, View(), ok)
      ensures ok == (old(handleOpen) && renameOk && openOk) == handleOpen
      ensures ok ==> currentFileName == baseName + ".log" && currentFileName in dir.files && currentFileSize == 0
      ensures !old(handleOpen) || !renameOk ==> dir.files == old(dir.files)
      // Only the current file, numbered files, and the two names that are written can change.
      ensures forall f | f in old(dir.files) && !Numbered(baseName, FileName(f))
                && f != old(currentFileName) && f != baseName + ".log"
                && (forall n: nat :: f != HistoryName(baseName, n)) ::
        f in dir.files && dir.files[f] == old(dir.files)[f]
    {
      if !handleOpen {
        ghost var l1, l2 := AnyListings(View());
        assert RotatesWith(View(), l1, l2, renameOk, openOk, View(), false);
        RotationSparesUnnumbered(baseName, old(View()), renameOk, openOk, View(), false);
        return false;
      }
      handleOpen := false;
      var historicalFiles := GetHistoricalFiles();
      var nextSequence := CalculateNextSequenceNumber(historicalFiles);
      var renamed := RenameWithSequence(nextSequence, renameOk);
      if !renamed {
        ghost var unread := AnyListing(Renamed(old(View()), nextSequence).Keys, NamingOf(baseName));
        assert RotatesWith(old(View()), historicalFiles, unread, renameOk, openOk, View(), false);
        RotationSparesUnnumbered(baseName, old(View()), renameOk, openOk, View(), false);
        return false;
      }
      ghost var listing := DeleteOldestFiles();
      currentFileName := GenerateFileName(baseName, processId, true);
      ok := OpenLogFile(openOk);
      if ok {
        currentFileSize := 0;
      }
      assert RotatesWith(old(View()), historicalFiles, listing, renameOk, openOk, View(), ok);
      RotationSparesUnnumbered(baseName, old(View()), renameOk, openOk, View(), ok);
    }
  }
}
