/**
 Runs of the configuration store: writes and restores one after another, each cut short by
 a power loss at any point.
 */
module ConfigStoreRuns {
  import opened ConfigStore

  // ---------------------------------------------------------------- what every state keeps

  /** The canonical and the backup file are each whole: complete bytes somebody wrote. */
  predicate Whole(n: Layout, d: Disk, written: set<Bytes>) {
    && (n.path in d ==> d[n.path] in written)
    && (n.backup in d ==> d[n.backup] in written)
  }

  /** There is a config to boot from. */
  predicate Alive(n: Layout, d: Disk) {
    n.path in d || n.backup in d
  }

  ghost predicate AllWhole(n: Layout, ds: seq<Disk>, written: set<Bytes>) {
    forall i :: 0 <= i < |ds| ==> Whole(n, ds[i], written)
  }

  ghost predicate AllAlive(n: Layout, ds: seq<Disk>) {
    forall i :: 0 <= i < |ds| ==> Alive(n, ds[i])
  }

  lemma WriteKeeps(n: Layout, d: Disk, data: Bytes, f: WriteFaults, written: set<Bytes>)
    requires n.Distinct() && Whole(n, d, written) && (n.Admits(data) ==> data in written)
    ensures AllWhole(n, WriteStates(n, d, data, f).states, written)
    ensures Alive(n, d) ==> AllAlive(n, WriteStates(n, d, data, f).states)
  {
    if n.Admits(data) && f.opens && f.stores {
      var stored := d[n.temp := data];
      assert n.temp in stored && stored[n.temp] in written;
      RotateKeeps(n, stored, f, written);
    }
  }

  lemma RotateKeeps(n: Layout, d: Disk, f: WriteFaults, written: set<Bytes>)
    requires n.Distinct() && Whole(n, d, written) && n.temp in d && d[n.temp] in written
    ensures AllWhole(n, RotateStates(n, d, f).states, written)
    ensures Alive(n, d) ==> AllAlive(n, RotateStates(n, d, f).states)
  {
  }

  lemma RestoreKeeps(n: Layout, d: Disk, f: RestoreFaults, written: set<Bytes>)
    requires n.Distinct() && Whole(n, d, written)
    ensures AllWhole(n, RestoreStates(n, d, f).states, written)
    ensures Alive(n, d) ==> AllAlive(n, RestoreStates(n, d, f).states)
  {
  }

  // ---------------------------------------------------------------- whole runs

  /** One call, cut short by a power loss after `cut` of its disk states. */
  datatype Call = Write(data: Bytes, wf: WriteFaults, cut: nat) | Restore(rf: RestoreFaults, cut: nat)

  function CallStates(n: Layout, d: Disk, c: Call): seq<Disk> {
    var all := match c
      case Write(data, f, _) => WriteStates(n, d, data, f).states
      case Restore(f, _) => RestoreStates(n, d, f).states;
    if c.cut < |all| then all[..c.cut] else all
  }

  /** Every disk state of a run of calls, each call beginning where the last one was cut
      short or returned. */
  function RunStates(n: Layout, d: Disk, calls: seq<Call>): seq<Disk>
    decreases |calls|
  {
    if calls == [] then [d]
    else
      var states := [d] + CallStates(n, d, calls[0]);
      states + RunStates(n, states[|states| - 1], calls[1..])
  }

  /** The contents the calls offered that pass the size limit. */
  function Offered(n: Layout, calls: seq<Call>): set<Bytes>
    decreases |calls|
  {
    if calls == [] then {}
    else
      var c := calls[0];
      Offered(n, calls[1..]) + if c.Write? && n.Admits(c.data) then {c.data} else {}
  }

  lemma CallKeeps(n: Layout, d: Disk, c: Call, written: set<Bytes>)
    requires n.Distinct() && Whole(n, d, written)
    requires c.Write? && n.Admits(c.data) ==> c.data in written
    ensures AllWhole(n, CallStates(n, d, c), written)
    ensures Alive(n, d) ==> AllAlive(n, CallStates(n, d, c))
  {
    match c
    case Write(data, f, _) => WriteKeeps(n, d, data, f, written);
    case Restore(f, _) => RestoreKeeps(n, d, f, written);
  }

  /** Over every run, whatever fails and wherever power is lost: each of the two files
      that is present holds the complete bytes of a config that was there at the start or
      was offered and accepted, and once there is a config there always is one. */
  lemma {:induction false} RunsKeepAConfig(n: Layout, d: Disk, calls: seq<Call>, written: set<Bytes>)
    requires n.Distinct() && Whole(n, d, written)
    ensures AllWhole(n, RunStates(n, d, calls), written + Offered(n, calls))
    ensures forall i, j :: 0 <= i <= j < |RunStates(n, d, calls)| && Alive(n, RunStates(n, d, calls)[i]) ==>
              Alive(n, RunStates(n, d, calls)[j])
    decreases |calls|
  {
    if calls != [] {
      var all := written + Offered(n, calls);
      var states := [d] + CallStates(n, d, calls[0]);
      var rest := RunStates(n, states[|states| - 1], calls[1..]);
      CallKeeps(n, d, calls[0], all);
      AliveOnward(n, d, calls[0]);
      RunsKeepAConfig(n, states[|states| - 1], calls[1..], all);
      assert all + Offered(n, calls[1..]) == all;
      assert rest[0] == states[|states| - 1];
      JoinRuns(n, states, rest);
    }
  }

  lemma JoinRuns(n: Layout, states: seq<Disk>, rest: seq<Disk>)
    requires |states| > 0 && |rest| > 0 && rest[0] == states[|states| - 1]
    requires forall i, j :: 0 <= i <= j < |states| && Alive(n, states[i]) ==> Alive(n, states[j])
    requires forall i, j :: 0 <= i <= j < |rest| && Alive(n, rest[i]) ==> Alive(n, rest[j])
    ensures forall i, j :: 0 <= i <= j < |states + rest| && Alive(n, (states + rest)[i]) ==>
            Alive(n, (states + rest)[j])
  {
  }

  /** Without a config, a call can only end with one: no state before its last has any. */
  lemma AliveLast(n: Layout, d: Disk, c: Call)
    requires n.Distinct() && !Alive(n, d)
    ensures forall i :: 0 <= i < |CallStates(n, d, c)| - 1 ==> !Alive(n, CallStates(n, d, c)[i])
  {
    if c.Write? && n.Admits(c.data) && c.wf.opens && c.wf.stores {
      var stored := d[n.temp := c.data];
      assert RotateStates(n, stored, c.wf) == InstallStates(n, stored, c.wf);
    }
  }

  lemma AliveOnward(n: Layout, d: Disk, c: Call)
    requires n.Distinct()
    ensures var states := [d] + CallStates(n, d, c);
            forall i, j :: 0 <= i <= j < |states| && Alive(n, states[i]) ==> Alive(n, states[j])
  {
    if Alive(n, d) {
      CallKeeps(n, d, c, d.Values + if c.Write? then {c.data} else {});
    } else {
      AliveLast(n, d, c);
    }
  }
}
