/**
 The configuration store as a component: the disk changes one system call at a time, and
 each operation passes through exactly the states module ConfigStore gives for it.
 */
module ConfigStoreFiles {
  import opened Options
  import opened ConfigStore

  datatype Source = None | Primary | Override

  datatype ReadFaults = ReadFaults(seesOverride: bool, seesFile: bool, opens: bool, fills: bool)

  datatype Config = Config(path: string, overridePath: Option<string>, maxSize: nat)

  const BACKUP_SUFFIX := ".bak"
  const TEMP_SUFFIX := ".new"
  const MAX_PATH := 128

  /** The suffixed name, when it and its terminator fit the path buffer. */
  function Suffixed(path: string, suffix: string): Option<string> {
    if |path| + |suffix| >= MAX_PATH then Option.None else Some(path + suffix)
  }

  function LayoutOf(cfg: Config): Layout {
    Layout(cfg.path, cfg.path + BACKUP_SUFFIX, cfg.path + TEMP_SUFFIX, cfg.maxSize)
  }

  lemma NamesDiffer(cfg: Config)
    ensures LayoutOf(cfg).Distinct()
  {
    var n := LayoutOf(cfg);
    assert n.backup[|cfg.path| + 1] == 'b' && n.temp[|cfg.path| + 1] == 'n';
    assert |n.backup| == |cfg.path| + 4 && |n.temp| == |cfg.path| + 4;
  }

  /** What a read of one file gives a caller whose buffer holds `room` bytes: the whole
      file and a terminator, or an error and nothing. */
  function FileRead(d: Disk, p: string, maxSize: nat, room: nat, f: ReadFaults): (Status, Bytes) {
    if !(p in d && f.seesFile) then (NotFound, [])
    else if maxSize != 0 && |d[p]| > maxSize then (TooLarge, [])
    else if |d[p]| + 1 > room then (TooLarge, [])
    else if !f.opens then (NotFound, [])
    else if !f.fills then (Fail, [])
    else (Ok, d[p])
  }

  /** A file is given exactly when it is seen, passes both limits, and can be opened and read;
      one that is too large is told from one that is not there. */
  lemma FileReadResult(d: Disk, p: string, maxSize: nat, room: nat, f: ReadFaults)
    ensures var (r, bytes) := FileRead(d, p, maxSize, room, f);
            var fits := p in d && |d[p]| < room && (maxSize == 0 || |d[p]| <= maxSize);
            && (r == Ok <==> p in d && f.seesFile && fits && f.opens && f.fills)
            && (r == TooLarge <==> p in d && f.seesFile && !fits)
            && (r == Fail <==> p in d && f.seesFile && fits && f.opens && !f.fills)
            && (r in {Ok, TooLarge, Fail, NotFound})
            && bytes == if r == Ok then d[p] else []
  {
  }

  /** What was written is what is read: with a buffer that leaves room for the terminator
      the file just installed comes back whole, the size limit being the same both ways. */
  lemma WriteThenRead(n: Layout, d: Disk, data: Bytes, f: WriteFaults, room: nat)
    requires n.Distinct() && WriteStates(n, d, data, f).status == Ok
    ensures FileRead(Final(d, WriteStates(n, d, data, f)), n.path, n.maxSize, room, ReadFaults(true, true, true, true))
            == if |data| < room then (Ok, data) else (TooLarge, [])
  {
    SuccessfulWrite(n, d, data, f);
  }

  lemma Glue<T>(a: seq<T>, b: seq<T>, x: T, c: seq<T>)
    ensures a + b + [x] + c == a + (b + [x] + c)
  {
  }

  class Store {
    var ready: bool
    var cfg: Config
    var disk: Disk
    /** Every state the disk has been in, oldest first. */
    ghost var history: seq<Disk>

    ghost predicate Valid()
      reads this
    {
      && |history| > 0 && history[|history| - 1] == disk
      && (ready ==> cfg.path != "" && Suffixed(cfg.path, BACKUP_SUFFIX).Some? && Suffixed(cfg.path, TEMP_SUFFIX).Some?)
    }

    constructor (disk: Disk)
      ensures Valid() && !ready && this.disk == disk && history == [disk]
    {
      ready := false;
      cfg := Config("", Option.None, 0);
      this.disk := disk;
      history := [disk];
    }

    method Init(cfg: Config) returns (r: Status)
      requires Valid()
      modifies this`ready, this`cfg
      ensures Valid()
      ensures r == Ok <==> 1 <= |cfg.path| <= 123
      ensures r == InvalidArg <==> cfg.path == ""
      ensures r in {Ok, InvalidArg, InvalidSize}
      ensures r == Ok ==> ready && this.cfg == cfg
      ensures r != Ok ==> ready == old(ready) && this.cfg == old(this.cfg)
    {
      if cfg.path == "" {
        return InvalidArg;
      }
      if Suffixed(cfg.path, BACKUP_SUFFIX).None? || Suffixed(cfg.path, TEMP_SUFFIX).None? {
        return InvalidSize;
      }
      this.cfg := cfg;
      ready := true;
      return Ok;
    }

    /** One system call's effect on the disk. */
    method SetDisk(next: Disk)
      modifies this`disk, this`history
      ensures disk == next && history == old(history) + [next]
    {
      disk := next;
      history := history + [next];
    }

    method UnlinkFile(p: string, works: bool)
      modifies this`disk, this`history
      ensures disk == Unlink(old(disk), p, works) && history == old(history) + [disk]
    {
      SetDisk(if works then disk - {p} else disk);
    }

    method RenameFile(from: string, to: string, works: bool) returns (ok: bool)
      modifies this`disk, this`history
      ensures ok == Moves(old(disk), from, works)
      ensures disk == Rename(old(disk), from, to, works) && history == old(history) + [disk]
    {
      ok := works && from in disk;
      SetDisk(if ok then disk[to := disk[from]] - {from} else disk);
    }

    method FillTemp(temp: string, scratch: seq<Bytes>)
      requires |history| > 0 && history[|history| - 1] == disk
      modifies this`disk, this`history
      ensures history == old(history) + seq(|scratch|, i requires 0 <= i < |scratch| => old(disk)[temp := scratch[i]])
      ensures disk == if scratch == [] then old(disk) else old(disk)[temp := scratch[|scratch| - 1]]
    {
      var i := 0;
      ghost var before := disk;
      while i < |scratch|
        invariant 0 <= i <= |scratch|
        invariant disk == if i == 0 then before else before[temp := scratch[i - 1]]
        invariant history == old(history) + seq(i, k requires 0 <= k < i => before[temp := scratch[k]])
      {
        SetDisk(disk[temp := scratch[i]]);
        i := i + 1;
      }
    }

    /** The new bytes go into place; failing that, the previous config is put back. */
    method Install(n: Layout, f: WriteFaults) returns (r: Status)
      modifies this`disk, this`history
      ensures var t := InstallStates(n, old(disk), f);
              r == t.status && history == old(history) + t.states && disk == Final(old(disk), t)
    {
      var installed := RenameFile(n.temp, n.path, f.installs);
      if !installed {
        var _ := RenameFile(n.backup, n.path, f.putsBack);
        UnlinkFile(n.temp, f.dropsTemp);
        return Fail;
      }
      return Ok;
    }

    method Rotate(n: Layout, f: WriteFaults) returns (r: Status)
      modifies this`disk, this`history
      ensures var t := RotateStates(n, old(disk), f);
              r == t.status && history == old(history) + t.states && disk == Final(old(disk), t)
    {
      if n.path in disk && f.seesPath {
        UnlinkFile(n.backup, f.dropsBackup);
        var rotated := RenameFile(n.path, n.backup, f.rotates);
        if !rotated {
          UnlinkFile(n.temp, f.dropsTemp);
          return Fail;
        }
      }
      r := Install(n, f);
    }

    /** A write whose temporary file could be opened. */
    method Replace(n: Layout, data: Bytes, f: WriteFaults) returns (r: Status)
      requires |history| > 0 && history[|history| - 1] == disk
      requires n.Admits(data) && f.opens
      modifies this`disk, this`history
      ensures var t := WriteStates(n, old(disk), data, f);
              r == t.status && history == old(history) + t.states && disk == Final(old(disk), t)
    {
      ghost var torn := Scratch(n, disk, f.scratch);
      FillTemp(n.temp, f.scratch);
      assert history == old(history) + torn;
      if f.stores {
        SetDisk(disk[n.temp := data]);
        ghost var stored := disk;
        assert stored == old(disk)[n.temp := data];
        r := Rotate(n, f);
        Glue(old(history), torn, stored, RotateStates(n, stored, f).states);
      } else {
        UnlinkFile(n.temp, f.dropsTemp);
        r := Fail;
      }
    }

    method Write(data: Bytes, f: WriteFaults) returns (r: Status)
      requires Valid()
      modifies this`disk, this`history
      ensures Valid()
      ensures !ready ==> r == InvalidState && history == old(history)
      ensures ready ==>
                var t := WriteStates(LayoutOf(cfg), old(disk), data, f);
                r == t.status && history == old(history) + t.states && disk == Final(old(disk), t)
    {
      if !ready {
        return InvalidState;
      }
      if cfg.maxSize != 0 && |data| > cfg.maxSize {
        return TooLarge;
      }
      var temp := Suffixed(cfg.path, TEMP_SUFFIX);
      var backup := Suffixed(cfg.path, BACKUP_SUFFIX);
      if temp.None? || backup.None? {
        assert false;
        return InvalidSize;
      }
      if !f.opens {
        return Fail;
      }
      r := Replace(Layout(cfg.path, backup.value, temp.value, cfg.maxSize), data, f);
    }

    method RestoreBackup(f: RestoreFaults) returns (r: Status)
      requires Valid()
      modifies this`disk, this`history
      ensures Valid()
      ensures !ready ==> r == InvalidState && history == old(history)
      ensures ready ==>
                var t := RestoreStates(LayoutOf(cfg), old(disk), f);
                r == t.status && history == old(history) + t.states && disk == Final(old(disk), t)
    {
      if !ready {
        return InvalidState;
      }
      var backup := Suffixed(cfg.path, BACKUP_SUFFIX);
      if backup.None? {
        assert false;
        return InvalidSize;
      }
      if !(backup.value in disk && f.seesBackup) {
        return NotFound;
      }
      UnlinkFile(cfg.path, f.dropsPath);
      var promoted := RenameFile(backup.value, cfg.path, f.promotes);
      return if promoted then Ok else Fail;
    }

    /** The override is the only file looked at once it is seen: its errors are reported,
        never hidden behind the built-in config. */
    method Read(room: nat, f: ReadFaults) returns (r: Status, contents: Bytes, source: Source)
      requires Valid()
      ensures r == InvalidState <==> !ready
      ensures r == InvalidArg <==> ready && room < 2
      ensures ready && room >= 2 ==>
                var p := if cfg.overridePath.Some? && cfg.overridePath.value in disk && f.seesOverride
                         then cfg.overridePath.value else cfg.path;
                r == FileRead(disk, p, cfg.maxSize, room, f).0
      ensures r != Ok ==> source == Source.None && contents == []
      ensures r == Ok ==> ready && 2 <= room && |contents| < room && (cfg.maxSize == 0 || |contents| <= cfg.maxSize)
      ensures r == Ok && source == Primary ==> cfg.path in disk && contents == disk[cfg.path]
      ensures r == Ok && source == Override ==>
                cfg.overridePath.Some? && cfg.overridePath.value in disk && contents == disk[cfg.overridePath.value]
      ensures r == Ok ==>
                (source == Override <==> cfg.overridePath.Some? && cfg.overridePath.value in disk && f.seesOverride)
      ensures ready && 2 <= room && f == ReadFaults(true, true, true, true) && source == Source.None ==>
                var p := if cfg.overridePath.Some? && cfg.overridePath.value in disk
                         then cfg.overridePath.value else cfg.path;
                p !in disk || |disk[p]| >= room || (cfg.maxSize != 0 && |disk[p]| > cfg.maxSize)
    {
      source := Source.None;
      contents := [];
      if !ready {
        return InvalidState, contents, source;
      }
      if room < 2 {
        return InvalidArg, contents, source;
      }
      if cfg.overridePath.Some? && cfg.overridePath.value in disk && f.seesOverride {
        var (status, bytes) := FileRead(disk, cfg.overridePath.value, cfg.maxSize, room, f);
        return status, bytes, if status == Ok then Override else Source.None;
      }
      var (status, bytes) := FileRead(disk, cfg.path, cfg.maxSize, room, f);
      return status, bytes, if status == Ok then Primary else Source.None;
    }
  }
}
