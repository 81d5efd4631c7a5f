/** What a sequence of entries leaves in a file, under any rendering and any luck with the disk. */
module LogBytes {
  import opened Common

  function Formatted(format: Entry -> string, entries: seq<Entry>): string {
    if entries == [] then ""
    else Formatted(format, entries[..|entries| - 1]) + format(entries[|entries| - 1])
  }

  /** The bytes left when the n-th entry's write succeeds if disk(n). */
  function Landed(format: Entry -> string, disk: nat -> bool, entries: seq<Entry>): string {
    if entries == [] then ""
    else
      var last := |entries| - 1;
      Landed(format, disk, entries[..last]) + if disk(last) then format(entries[last]) else ""
  }

  lemma LandedOneMore(format: Entry -> string, disk: nat -> bool, entries: seq<Entry>, e: Entry)
    ensures Landed(format, disk, entries + [e])
         == Landed(format, disk, entries) + if disk(|entries|) then format(e) else ""
  {
    assert (entries + [e])[..|entries|] == entries;
  }

  lemma Associates(a: string, b: string, c: string)
    ensures a + (b + c) == a + b + c
  {
  }

  /** What one more write adds to a file that held `before`. */
  lemma LandedSnoc(before: string, format: Entry -> string, disk: nat -> bool, entries: seq<Entry>, e: Entry)
    ensures before + Landed(format, disk, entries + [e])
         == before + Landed(format, disk, entries) + if disk(|entries|) then format(e) else ""
  {
    LandedOneMore(format, disk, entries, e);
    Associates(before, Landed(format, disk, entries), if disk(|entries|) then format(e) else "");
  }

  /** If no write fails, everything is there. */
  lemma {:induction false} AllLanded(format: Entry -> string, disk: nat -> bool, entries: seq<Entry>)
    requires forall n: nat | n < |entries| :: disk(n)
    ensures Landed(format, disk, entries) == Formatted(format, entries)
  {
    if entries != [] {
      AllLanded(format, disk, entries[..|entries| - 1]);
    }
  }
}

/** The logger's calls one at a time, over the real buffers and file manager, whichever writes
    succeed. `LoggerProtocol` treats their interleavings. */
module AsyncLoggerClass {
  import opened Common
  import opened AsyncQueueClass
  import opened RingBufferClass
  import opened FileManagerClass
  import opened FileNames
  import opened LogBytes

  class AsyncLogger {
    const queue: AsyncQueue
    const ring: RingBuffer
    const fm: FileManager
    const format: Entry -> string
    /** Whether the n-th write to the file succeeds; the logger never looks. */
    const disk: nat -> bool
    var writes: nat
    var minLevel: int
    var initialized: bool
    var stopRequested: bool
    var semaphore: nat
    /** What the live file held at the start, the entries handed to it since, and those accepted. */
    ghost const before: string
    ghost var written: seq<Entry>
    ghost var accepted: seq<Entry>

    ghost function Bytes(): string
      reads fm, fm.dir
      requires fm.Valid() && fm.handleOpen
    {
      fm.dir.files[fm.currentFileName]
    }

    /** The live file holds exactly the entries handed to it whose write succeeded. */
    ghost predicate FileOk()
      reads this, fm, fm.dir
    {
      && fm.Valid() && fm.handleOpen
      && writes == |written|
      && Bytes() == before + Landed(format, disk, written)
    }

    ghost predicate Ready()
      reads this, queue, queue.buffer, ring, ring.buffer, fm, fm.dir
    {
      queue.Valid() && ring.Valid() && FileOk()
    }

    /** Between calls the ring is empty, every accepted entry is handed over or waiting, in the order
        accepted, and waiting entries have left the writer a signal. */
    ghost predicate Valid()
      reads this, queue, queue.buffer, ring, ring.buffer, fm, fm.dir
    {
      && Ready()
      && ring.capacity == queue.capacity
      && queue.tail <= |accepted| && ring.head <= |accepted|
      && ring.contents == []
      && accepted == written + queue.contents
      && (queue.contents != [] ==> semaphore > 0)
    }

    constructor (base: string, queueSize: nat, dir: Directory, pid: nat, firstProcess: bool,
                 format: Entry -> string, disk: nat -> bool)
      requires 0 < queueSize && 2 * queueSize < WORD
      modifies dir
      ensures Valid() && initialized && !stopRequested && accepted == []
      ensures this.format == format && this.disk == disk
      ensures fresh(queue) && fresh(queue.buffer) && fresh(ring) && fresh(ring.buffer)
      ensures fresh(fm) && fm.dir == dir
      ensures queue.capacity == queueSize && minLevel == 0 && semaphore == 0
      // The file is that of a file manager initialised for this process.
      ensures fm.currentFileName == base + (if firstProcess then "" else "_" + Decimal(pid)) + ".log"
      ensures fm.currentFileName in dir.files && before == Bytes()
      ensures before == if fm.currentFileName in old(dir.files) then old(dir.files)[fm.currentFileName] else ""
    {
      var files := new FileManager(base, dir);
      var entries := new AsyncQueue(queueSize);
      var overflow := new RingBuffer(queueSize);
      var _ := files.Initialize(pid, true, firstProcess, true);
      fm, queue, ring := files, entries, overflow;
      this.format, this.disk, writes := format, disk, 0;
      minLevel, initialized, stopRequested, semaphore := 0, true, false, 0;
      before, written, accepted := dir.files[files.currentFileName], [], [];
    }

    method SetLogLevel(level: int)
      requires Valid()
      modifies this`minLevel
      ensures Valid() && minLevel == level
    {
      minLevel := level;
    }

    /** Every entry is handed to the file in order; a failed write is not noticed. */
    method WriteEntries(entries: seq<Entry>)
      requires FileOk()
      modifies this`written, this`writes, fm, fm.dir
      ensures FileOk() && written == old(written) + entries
    {
      for i := 0 to |entries|
        invariant FileOk() && written == old(written) + entries[..i]
      {
        var line := format(entries[i]);
        ghost var was, done := Bytes(), written;
        var _ := fm.Write(line, disk(writes), true);
        assert Bytes() == was + if disk(|done|) then line else "";
        LandedSnoc(before, format, disk, done, entries[i]);
        writes := writes + 1;
        written := written + [entries[i]];
      }
    }

    /** Queue first, then ring. */
    method Flush()
      requires Ready()
      modifies this`written, this`writes, queue, queue.buffer, ring, ring.buffer, fm, fm.dir
      ensures Ready()
      ensures queue.contents == [] && ring.contents == []
      ensures queue.tail == old(queue.tail) && ring.head == old(ring.head)
      ensures written == old(written) + (old(queue.contents) + old(ring.contents))
    {
      var queueEntries := queue.PopAll();
      var ringEntries := ring.PopAll();
      WriteEntries(queueEntries);
      WriteEntries(ringEntries);
    }

    /** Used by one thread at a time the logger drops nothing: an entry the queue has no room for is
        handed to the file, behind all earlier ones, before the call returns. */
    method Log(level: int, entry: Entry)
      requires Valid() && |accepted| + 1 + queue.capacity < WORD
      modifies this`written, this`writes, this`accepted, this`semaphore,
               queue, queue.buffer, ring, ring.buffer, fm, fm.dir
      ensures Valid()
      ensures accepted == if level >= minLevel && initialized then old(accepted) + [entry] else old(accepted)
      ensures written ==
        if level >= minLevel && initialized && old(|queue.contents|) == queue.capacity then accepted else old(written)
      // The writer is signalled once for each entry put in the queue, and for nothing else.
      ensures semaphore ==
        old(semaphore) + if level >= minLevel && initialized && old(|queue.contents|) < queue.capacity then 1 else 0
    {
      if level < minLevel || !initialized {
        return;
      }
      var queued := queue.TryPush(entry);
      assert Ready();
      if queued {
        accepted := accepted + [entry];
        semaphore := semaphore + 1;
      } else {
        var kept := ring.TryPush(entry);
        if kept {
          Flush();
          accepted := accepted + [entry];
        }
      }
    }

    /** One turn of the writer thread's loop; `running` says whether there will be another. */
    method WriterTurn() returns (running: bool)
      requires Valid() && semaphore > 0
      modifies this`written, this`writes, this`semaphore, queue, queue.buffer, ring, ring.buffer, fm, fm.dir
      ensures Valid() && accepted == old(accepted) && queue.contents == [] && semaphore == old(semaphore) - 1
      ensures running == !stopRequested
    {
      semaphore := semaphore - 1;
      if stopRequested {
        Flush();
        return false;
      }
      Flush();
      return true;
    }

    /** Shutdown, with the writer either about to test for the stop request or waiting for a signal
        when the request comes: it returns in both cases, and every accepted entry has been
        handed to the file once, in the order accepted. */
    method Deinitialize(writerWaits: bool)
      requires Valid() && (initialized ==> !stopRequested)
      modifies this`written, this`writes, this`semaphore, this`stopRequested, this`initialized,
               queue, queue.buffer, ring, ring.buffer, fm, fm.dir
      ensures Valid() && !initialized && accepted == old(accepted)
      ensures old(initialized) ==> stopRequested && written == accepted
      ensures !old(initialized) ==> written == old(written) && stopRequested == old(stopRequested)
      ensures old(initialized) ==> Bytes() == before + Landed(format, disk, accepted)
    {
      if !initialized {
        return;
      }
      stopRequested := true;
      semaphore := semaphore + 1;
      if writerWaits {
        var running := WriterTurn();
        assert !running;
      }
      Flush();
      initialized := false;
    }
  }
}
