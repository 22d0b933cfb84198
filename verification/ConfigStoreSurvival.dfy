/**
 Whether the config in force when a write begins is still on the disk, byte for byte, in
 every state the write passes through.
 */
module ConfigStoreSurvival {
  import opened ConfigStore

  /** `was` is still there, byte for byte. */
  predicate Kept(n: Layout, d: Disk, was: Bytes) {
    (n.path in d && d[n.path] == was) || (n.backup in d && d[n.backup] == was)
  }

  ghost predicate AllKept(n: Layout, ds: seq<Disk>, was: Bytes) {
    forall i :: 0 <= i < |ds| ==> Kept(n, ds[i], was)
  }

  ghost predicate SurvivesEvery(n: Layout, d: Disk, data: Bytes, seesPath: bool)
    requires n.path in d
  {
    forall f: WriteFaults :: f.seesPath == seesPath ==> AllKept(n, WriteStates(n, d, data, f).states, d[n.path])
  }

  lemma SeenIsKept(n: Layout, d: Disk, data: Bytes, f: WriteFaults)
    requires n.Distinct() && n.path in d && f.seesPath
    ensures AllKept(n, WriteStates(n, d, data, f).states, d[n.path])
  {
    if n.Admits(data) && f.opens && f.stores {
      var stored := d[n.temp := data];
      assert n.path in stored && stored[n.path] == d[n.path];
      RotateKeepsOld(n, stored, f);
    }
  }

  lemma RotateKeepsOld(n: Layout, d: Disk, f: WriteFaults)
    requires n.Distinct() && n.path in d && f.seesPath
    ensures AllKept(n, RotateStates(n, d, f).states, d[n.path])
  {
  }

  /** The config in force survives every write, whatever fails, exactly when the check for
      it sees it, the write is refused, or the backup is a copy of it; a write of the very
      bytes in force is safe too as long as no other backup can be put back over them. */
  lemma OldSurvives(n: Layout, d: Disk, data: Bytes, seesPath: bool)
    requires n.Distinct() && n.path in d
    ensures SurvivesEvery(n, d, data, seesPath) <==>
            || seesPath
            || !n.Admits(data)
            || (if n.backup in d then d[n.backup] == d[n.path] else data == d[n.path])
  {
    forall f: WriteFaults | f.seesPath == seesPath
      ensures seesPath ==> AllKept(n, WriteStates(n, d, data, f).states, d[n.path])
    {
      if seesPath { SeenIsKept(n, d, data, f); }
    }
    if !seesPath && n.Admits(data) {
      if if n.backup in d then d[n.backup] == d[n.path] else data == d[n.path] {
        forall f: WriteFaults | !f.seesPath
          ensures AllKept(n, WriteStates(n, d, data, f).states, d[n.path])
        {
          UnseenIsKept(n, d, data, f);
        }
      } else {
        var f := WriteFaults(true, [], true, false, true, true, data != d[n.path], true, true);
        UnseenIsLost(n, d, data, f);
      }
    }
  }

  lemma UnseenIsKept(n: Layout, d: Disk, data: Bytes, f: WriteFaults)
    requires n.Distinct() && n.path in d && !f.seesPath
    requires if n.backup in d then d[n.backup] == d[n.path] else data == d[n.path]
    ensures AllKept(n, WriteStates(n, d, data, f).states, d[n.path])
  {
    if n.Admits(data) && f.opens && f.stores {
      var stored := d[n.temp := data];
      assert RotateStates(n, stored, f) == InstallStates(n, stored, f);
      assert AllKept(n, InstallStates(n, stored, f).states, d[n.path]);
    }
  }

  lemma UnseenIsLost(n: Layout, d: Disk, data: Bytes, f: WriteFaults)
    requires n.Distinct() && n.path in d && n.Admits(data)
    requires if n.backup in d then d[n.backup] != d[n.path] else data != d[n.path]
    requires f == WriteFaults(true, [], true, false, true, true, data != d[n.path], true, true)
    ensures !AllKept(n, WriteStates(n, d, data, f).states, d[n.path])
  {
    var states := WriteStates(n, d, data, f).states;
    var stored := d[n.temp := data];
    assert states == [stored] + InstallStates(n, stored, f).states;
    assert !Kept(n, states[if f.installs then 1 else 2], d[n.path]);
  }
}
