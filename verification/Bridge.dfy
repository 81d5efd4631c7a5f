/** The C bridge: filter a message by its tag, append it as a line, rotate when the file is full. */
module BridgeClass {
  import opened Common
  import opened LogVolume
  import opened LogHistory
  import opened FileManagerClass
  import opened FileNames

  datatype ErrorCode = Success | NullPointer | FileIo

  const DEBUG: int := 0

  /** A C `int` cast to a level enumeration held in 8 signed bits. */
  function AsLevel(level: int): (l: int)
    ensures -128 <= l < 128 && (l - level) % 256 == 0
  {
    (level + 128) % 256 - 128
  }

  /** What may pass, per tag: every tag is enabled, and at debug level, until set otherwise. */
  class TagFilter {
    var enabled: map<string, bool>
    var levels: map<string, int>

    constructor ()
      ensures enabled == map[] && levels == map[]
    {
      enabled, levels := map[], map[];
    }

    method SetTagEnabled(tag: string, on: bool)
      modifies this`enabled
      ensures enabled == old(enabled)[tag := on]
    {
      enabled := enabled[tag := on];
    }

    method SetTagLevel(tag: string, level: int)
      modifies this`levels
      ensures levels == old(levels)[tag := level]
    {
      levels := levels[tag := level];
    }

    method IsTagEnabled(tag: string) returns (on: bool)
      ensures on <==> tag !in enabled || enabled[tag]
    {
      on := if tag in enabled then enabled[tag] else true;
    }

    method GetTagLevel(tag: string) returns (level: int)
      ensures level == if tag in levels then levels[tag] else 0
    {
      level := if tag in levels then levels[tag] else DEBUG;
    }
  }

  /** A line's fate in a file manager: written, and a rotation tried if and only if that made it due. */
  ghost predicate LineWritten(m: Manager, line: string, writeOk: bool, flushOk: bool, renameOk: bool, openOk: bool,
                              m': Manager, code: ErrorCode)
  {
    var (written, ok) := LogVolume.Write(m, line, writeOk, flushOk);
    && code == (if ok then Success else FileIo)
    && if ok && LogVolume.NeedsRotation(written)
       then exists rotated :: Rotates(written, renameOk, openOk, m', rotated)
       else m' == written
  }

  class SpeckitLogger {
    const fm: FileManager
    const tagFilter: TagFilter
    /** Set by `SetLogLevel`, and read by nobody. */
    var level: int

    ghost predicate Valid()
      reads this, fm, fm.dir
    {
      fm.Valid()
    }

    constructor (config: string, dir: Directory, pid: nat, dirOk: bool, firstProcess: bool, openOk: bool)
      modifies dir
      ensures Valid() && fresh(fm) && fresh(tagFilter) && fm.dir == dir && fm.baseName == config
      ensures tagFilter.enabled == map[] && tagFilter.levels == map[]
      ensures fm.View() == LogVolume.Initialize(
        Manager(old(dir.files), NamingOf(config), 0, "", 10 * MEGABYTE, 3, 0, false, false),
        pid, dirOk, firstProcess, openOk).0
    {
      var manager := new FileManager(config, dir);
      var _ := manager.Initialize(pid, dirOk, firstProcess, openOk);
      var filter := new TagFilter();
      fm, tagFilter, level := manager, filter, DEBUG;
    }

    method SetLogLevel(level: int)
      modifies this`level
      ensures this.level == AsLevel(level)
    {
      this.level := AsLevel(level);
    }

    /** A missing tag counts as the empty one. A message is filtered out if and only if its tag is
        disabled, or its level is below the tag's - debug if none was set. */
    method Log(level: int, tag: Option<string>, message: Option<string>,
               writeOk: bool, flushOk: bool, renameOk: bool, openOk: bool) returns (code: ErrorCode)
      requires Valid()
      modifies fm, fm.dir
      ensures Valid()
      ensures code == NullPointer <==> message.None?
      ensures message.None? ==> fm.View() == old(fm.View())
      // A disabled tag writes nothing.
      ensures var name := if tag.Some? then tag.value else "";
        message.Some? && name in tagFilter.enabled && !tagFilter.enabled[name] ==>
          code == Success && fm.View() == old(fm.View())
      // For any other tag a message at its level, or above, is written, and one below is not.
      ensures var name := if tag.Some? then tag.value else "";
        message.Some? && (name in tagFilter.enabled ==> tagFilter.enabled[name]) && name in tagFilter.levels ==>
          if tagFilter.levels[name] <= AsLevel(level)
          then LineWritten(old(fm.View()), message.value + "\n", writeOk, flushOk, renameOk, openOk, fm.View(), code)
          else code == Success && fm.View() == old(fm.View())
      // Where no level was set, every level from debug up is written.
      ensures var name := if tag.Some? then tag.value else "";
        message.Some? && (name in tagFilter.enabled ==> tagFilter.enabled[name]) && name !in tagFilter.levels ==>
          if 0 <= AsLevel(level)
          then LineWritten(old(fm.View()), message.value + "\n", writeOk, flushOk, renameOk, openOk, fm.View(), code)
          else code == Success && fm.View() == old(fm.View())
    {
      if message.None? {
        return NullPointer;
      }
      var name := if tag.Some? then tag.value else "";
      var on := tagFilter.IsTagEnabled(name);
      if !on {
        return Success;
      }
      var tagLevel := tagFilter.GetTagLevel(name);
      if AsLevel(level) < tagLevel {
        return Success;
      }
      var out := message.value + "\n";
      var ok := fm.Write(out, writeOk, flushOk);
      if !ok {
        return FileIo;
      }
      ghost var written := fm.View();
      var due := fm.NeedsRotation();
      if due {
        var rotated := fm.Rotate(renameOk, openOk);
      }
      return Success;
    }
  }

  /** With all I/O succeeding an accepted line is a step of the runs whose disk use is bounded. */
  lemma GoodLineIsStep(m: Manager, line: string, m': Manager, code: ErrorCode)
    requires LineWritten(m, line, true, true, true, true, m', code)
    requires m.open && m.current in m.files
    ensures code == Success && LineStep(m, line, m')
  {
    var written := LogVolume.Write(m, line, true, true).0;
    if LogVolume.NeedsRotation(written) {
      var rotated :| Rotates(written, true, true, m', rotated);
      assert rotated;
    }
  }

  /** Once a rotation has failed, every accepted line is answered with a file error. */
  lemma LinesFailWhenClosed(m: Manager, line: string, writeOk: bool, flushOk: bool, renameOk: bool, openOk: bool,
                            m': Manager, code: ErrorCode)
    requires LineWritten(m, line, writeOk, flushOk, renameOk, openOk, m', code) && !m.open
    ensures code == FileIo && m' == m
  {
  }

  /** A fresh bridge with a working disk takes every message of levels 0 to 127, whatever its tag,
      as one line behind what its file held; and that is all it does below the size limit. */
  method FirstMessage(config: string, dir: Directory, pid: nat, firstProcess: bool,
                      level: int, tag: Option<string>, message: string) returns (logger: SpeckitLogger, code: ErrorCode)
    requires 0 <= level <= 127
    modifies dir
    ensures code == Success && fresh(logger) && logger.fm.dir == dir
    ensures var name := config + (if firstProcess then "" else "_" + Decimal(pid)) + ".log";
      var before := if name in old(dir.files) then old(dir.files)[name] else "";
      |before| + |message| + 1 < 10 * 1024 * 1024 ==> dir.files == old(dir.files)[name := before + message + "\n"]
  {
    logger := new SpeckitLogger(config, dir, pid, true, firstProcess, true);
    ghost var name := config + (if firstProcess then "" else "_" + Decimal(pid)) + ".log";
    assert logger.fm.currentFileName == name by {
      assert config + "" + ".log" == LiveName(config);
      assert config + ("_" + Decimal(pid)) + ".log" == PidName(config, pid);
    }
    ghost var before := dir.files[name];
    assert before + (message + "\n") == before + message + "\n";
    code := logger.Log(level, tag, Some(message), true, true, true, true);
  }

  /** A level set for a tag is the lowest that is written. */
  method AtTheThreshold(logger: SpeckitLogger, tag: string, n: int, message: string)
      returns (below: ErrorCode, at: ErrorCode)
    requires logger.Valid() && -127 <= n <= 127 && logger.fm.handleOpen
    requires tag in logger.tagFilter.enabled ==> logger.tagFilter.enabled[tag]
    modifies logger.fm, logger.fm.dir, logger.tagFilter
    ensures below == at == Success
    ensures LineStep(old(logger.fm.View()), message + "\n", logger.fm.View())
  {
    logger.tagFilter.SetTagLevel(tag, n);
    below := logger.Log(n - 1, Some(tag), Some(message), true, true, true, true);
    assert logger.fm.View() == old(logger.fm.View());
    at := logger.Log(n, Some(tag), Some(message), true, true, true, true);
    GoodLineIsStep(old(logger.fm.View()), message + "\n", logger.fm.View(), at);
  }

  /** A tag switched off writes nothing, whatever the level and whatever was set before. */
  method SwitchedOff(logger: SpeckitLogger, tag: string, level: int, message: string) returns (code: ErrorCode)
    requires logger.Valid()
    modifies logger.fm, logger.fm.dir, logger.tagFilter
    ensures code == Success && logger.fm.View() == old(logger.fm.View())
  {
    logger.tagFilter.SetTagEnabled(tag, false);
    code := logger.Log(level, Some(tag), Some(message), true, true, true, true);
  }
}
