/**
 The durable configuration file: a new config is written to a temporary file, the old
 one rotated to a backup and the new one moved into place. The disk is a map from paths
 to contents; every system call may fail, and power may be lost after any of them.

 A rename is one atomic step, and a file that was closed without an error is on the disk.
 */
module ConfigStore {
  type Bytes = seq<bv8>
  type Disk = map<string, Bytes>

  datatype Status = Ok | InvalidArg | InvalidSize | InvalidState | TooLarge | NotFound | Fail

  /** The three names one store works on, and its size limit (0 for none). */
  datatype Layout = Layout(path: string, backup: string, temp: string, maxSize: nat)
  {
    predicate Distinct() {
      path != backup && path != temp && backup != temp
    }

    predicate Admits(data: Bytes) {
      maxSize == 0 || |data| <= maxSize
    }
  }

  /** What each system call of one write does: `scratch` is whatever the temporary file
      holds while it is being written, the rest are the calls' own answers. */
  datatype WriteFaults = WriteFaults(
    opens: bool, scratch: seq<Bytes>, stores: bool, seesPath: bool, dropsBackup: bool,
    rotates: bool, installs: bool, putsBack: bool, dropsTemp: bool)

  datatype RestoreFaults = RestoreFaults(seesBackup: bool, dropsPath: bool, promotes: bool)

  // ---------------------------------------------------------------- system calls

  function Unlink(d: Disk, p: string, works: bool): Disk {
    if works then d - {p} else d
  }

  predicate Moves(d: Disk, from: string, works: bool) {
    works && from in d
  }

  /** Replaces the target when there is one; a file system that refuses to is a failure. */
  function Rename(d: Disk, from: string, to: string, works: bool): Disk {
    if Moves(d, from, works) then d[to := d[from]] - {from} else d
  }

  // ---------------------------------------------------------------- operations, state by state

  datatype Trace = Trace(status: Status, states: seq<Disk>)
  {
    function After(earlier: seq<Disk>): Trace {
      Trace(status, earlier + states)
    }
  }

  function Scratch(n: Layout, d: Disk, contents: seq<Bytes>): seq<Disk> {
    seq(|contents|, i requires 0 <= i < |contents| => d[n.temp := contents[i]])
  }

  function InstallStates(n: Layout, d: Disk, f: WriteFaults): Trace {
    if Moves(d, n.temp, f.installs) then
      Trace(Ok, [Rename(d, n.temp, n.path, true)])
    else
      var back := Rename(d, n.backup, n.path, f.putsBack);
      Trace(Fail, [d, back, Unlink(back, n.temp, f.dropsTemp)])
  }

  function RotateStates(n: Layout, d: Disk, f: WriteFaults): Trace {
    if n.path in d && f.seesPath then
      var cleared := Unlink(d, n.backup, f.dropsBackup);
      if Moves(cleared, n.path, f.rotates) then
        var rotated := Rename(cleared, n.path, n.backup, true);
        InstallStates(n, rotated, f).After([cleared, rotated])
      else
        Trace(Fail, [cleared, cleared, Unlink(cleared, n.temp, f.dropsTemp)])
    else
      InstallStates(n, d, f)
  }

  /** Every state the disk passes through during one write, after the state it began in. */
  function WriteStates(n: Layout, d: Disk, data: Bytes, f: WriteFaults): Trace {
    if !n.Admits(data) then Trace(TooLarge, [])
    else if !f.opens then Trace(Fail, [])
    else
      var torn := Scratch(n, d, f.scratch);
      if f.stores then
        var stored := d[n.temp := data];
        RotateStates(n, stored, f).After(torn + [stored])
      else
        var last := if f.scratch == [] then d else torn[|torn| - 1];
        Trace(Fail, torn + [Unlink(last, n.temp, f.dropsTemp)])
  }

  function RestoreStates(n: Layout, d: Disk, f: RestoreFaults): Trace {
    if !(n.backup in d && f.seesBackup) then Trace(NotFound, [])
    else
      var cleared := Unlink(d, n.path, f.dropsPath);
      if Moves(cleared, n.backup, f.promotes) then
        Trace(Ok, [cleared, Rename(cleared, n.backup, n.path, true)])
      else
        Trace(Fail, [cleared, cleared])
  }

  // ---------------------------------------------------------------- how a call ends

  function Final(d: Disk, t: Trace): Disk {
    if t.states == [] then d else t.states[|t.states| - 1]
  }

  /** When a write succeeds: it passes the size limit, the temporary file takes it, the config
      it sees, if any, can be moved aside, and the new one into place. Whether there was a
      backup to remove, and whether removing it worked, is of no account. */
  lemma WriteStatus(n: Layout, d: Disk, data: Bytes, f: WriteFaults)
    requires n.Distinct()
    ensures var r := WriteStates(n, d, data, f).status;
            && (r == TooLarge <==> n.maxSize != 0 && |data| > n.maxSize)
            && (r == Ok <==> && (n.maxSize == 0 || |data| <= n.maxSize) && f.opens && f.stores && f.installs
                             && (n.path in d && f.seesPath ==> f.rotates))
            && (r == Ok || r == TooLarge || r == Fail)
  {
  }

  /** When a restore succeeds, and what it leaves otherwise. */
  lemma RestoreResult(n: Layout, d: Disk, f: RestoreFaults)
    requires n.Distinct()
    ensures var r := RestoreStates(n, d, f).status; var after := Final(d, RestoreStates(n, d, f));
            && (r == NotFound <==> n.backup !in d || !f.seesBackup)
            && (r == Ok <==> n.backup in d && f.seesBackup && f.promotes)
            && (r == Ok || r == NotFound || r == Fail)
            && (r == Ok ==> after == (d - {n.backup})[n.path := d[n.backup]])
            && (r == NotFound ==> after == d)
            && (r == Fail ==> after == if f.dropsPath then d - {n.path} else d)
  {
  }

  /** No write touches any other file, whatever fails; and a write that got as far as its
      temporary file removes it again, if it can. */
  lemma WriteTouchesOnly(n: Layout, d: Disk, data: Bytes, f: WriteFaults)
    requires n.Distinct()
    ensures var after := Final(d, WriteStates(n, d, data, f));
            && (forall p :: p !in {n.path, n.backup, n.temp} ==>
                  (p in after <==> p in d) && (p in d ==> after[p] == d[p]))
            && (n.Admits(data) && f.opens && f.dropsTemp ==> n.temp !in after)
            && (!n.Admits(data) || !f.opens ==> after == d)
  {
    if n.Admits(data) && f.opens && f.stores {
      var stored := d[n.temp := data];
      var t := RotateStates(n, stored, f);
      assert WriteStates(n, d, data, f) == t.After(Scratch(n, d, f.scratch) + [stored]);
      assert Final(d, WriteStates(n, d, data, f)) == t.states[|t.states| - 1];
    }
  }

  /** A write that reports success has put the new bytes in force and, when it saw a
      config, has made that one the backup; no temporary file is left. */
  lemma SuccessfulWrite(n: Layout, d: Disk, data: Bytes, f: WriteFaults)
    requires n.Distinct() && WriteStates(n, d, data, f).status == Ok
    ensures var after := Final(d, WriteStates(n, d, data, f));
            && n.Admits(data)
            && n.path in after && after[n.path] == data && n.temp !in after
            && (if n.path in d && f.seesPath
                then n.backup in after && after[n.backup] == d[n.path]
                else n.backup in after <==> n.backup in d)
            && (forall p :: p in after && p !in {n.path, n.backup} ==> p in d && after[p] == d[p])
  {
    var stored := d[n.temp := data];
    var t := RotateStates(n, stored, f);
    assert WriteStates(n, d, data, f) == t.After(Scratch(n, d, f.scratch) + [stored]);
    assert Final(d, WriteStates(n, d, data, f)) == t.states[|t.states| - 1];
  }

  /** A write that reports failure leaves the config it saw in force, unless moving it
      back failed as well, and then it is the backup. */
  lemma FailedWrite(n: Layout, d: Disk, data: Bytes, f: WriteFaults)
    requires n.Distinct() && WriteStates(n, d, data, f).status != Ok && n.path in d && f.seesPath
    ensures var after := Final(d, WriteStates(n, d, data, f));
            if f.putsBack || n.path in after then n.path in after && after[n.path] == d[n.path]
            else n.backup in after && after[n.backup] == d[n.path]
  {
    if n.Admits(data) && f.opens && f.stores {
      var stored := d[n.temp := data];
      var t := RotateStates(n, stored, f);
      assert WriteStates(n, d, data, f) == t.After(Scratch(n, d, f.scratch) + [stored]);
      assert Final(d, WriteStates(n, d, data, f)) == t.states[|t.states| - 1];
    }
  }

  /** Restoring after a successful write of a new config brings the old one back. */
  lemma RestoreUndoesWrite(n: Layout, d: Disk, data: Bytes, f: WriteFaults, g: RestoreFaults)
    requires n.Distinct() && n.path in d && f.seesPath
    requires WriteStates(n, d, data, f).status == Ok
    ensures var after := Final(d, WriteStates(n, d, data, f));
            RestoreStates(n, after, g).status == Ok <==> g.seesBackup && g.promotes
    ensures var after := Final(d, WriteStates(n, d, data, f));
            var back := Final(after, RestoreStates(n, after, g));
            RestoreStates(n, after, g).status == Ok ==>
              n.path in back && back[n.path] == d[n.path] && n.backup !in back
  {
    SuccessfulWrite(n, d, data, f);
  }
}
