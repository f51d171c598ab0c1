/**
 The search for the master of a replication topology: from replica to master, until a host replicates from no
 one. A set of visited hosts, shared by the whole recursion, makes sure that it ends.
 */
module Topology {
  import opened Wrappers

  const DetachHint := "//"

  datatype InstanceKey = InstanceKey(hostname: string, port: int) {
    predicate IsValid() {
      hostname != "_" && !(DetachHint <= hostname) && |hostname| > 0 && port > 0
    }
  }

  /** A row of SHOW SLAVE STATUS: one replication channel. */
  datatype SlaveStatus = SlaveStatus(masterLogFile: string, ioRunning: bool, sqlRunning: bool, master: InstanceKey)

  /** The hosts that can be reached, with the rows each of them shows. */
  type Hosts = map<InstanceKey, seq<SlaveStatus>>

  /** What a host says about its master: no master, or the one of its last channel, or an error. */
  function MasterOf(rows: seq<SlaveStatus>): Result<Option<InstanceKey>> {
    if rows == [] then Ok(None)
    else
      var before, row := MasterOf(rows[..|rows| - 1]), rows[|rows| - 1];
      if before.Err? || row.masterLogFile == "" then before
      else if !row.ioRunning || !row.sqlRunning then Err("replication is broken")
      else Ok(Some(row.master))
  }

  /** A channel that has a master but does not run. */
  predicate IsBroken(row: SlaveStatus) {
    row.masterLogFile != "" && !(row.ioRunning && row.sqlRunning)
  }

  /**
   Replication counts as broken exactly if some channel with a master does not run, wherever it is in the list.
   Otherwise the last channel with a master wins; without any, the host has no master.
   */
  lemma {:induction false} MasterOfMeaning(rows: seq<SlaveStatus>)
    ensures MasterOf(rows).Err? <==> exists i :: 0 <= i < |rows| && IsBroken(rows[i])
    ensures MasterOf(rows) == Ok(None) <==> forall i :: 0 <= i < |rows| ==> rows[i].masterLogFile == ""
    ensures MasterOf(rows).Ok? && MasterOf(rows).value.Some? ==>
              exists i :: 0 <= i < |rows| && rows[i].masterLogFile != "" && MasterOf(rows).value.value == rows[i].master
                          && forall j :: i < j < |rows| ==> rows[j].masterLogFile == ""
  {
    if rows != [] {
      var n := |rows| - 1;
      MasterOfMeaning(rows[..n]);
      assert forall i :: 0 <= i < n ==> rows[..n][i] == rows[i];
      assert MasterOf(rows).Err? <==> MasterOf(rows[..n]).Err? || IsBroken(rows[n]);
    }
  }

  method GetMasterKeyFromSlaveStatus(hosts: Hosts, key: InstanceKey) returns (r: Result<Option<InstanceKey>>)
    ensures r == Status(hosts, key)
  {
    if key !in hosts {
      return Err("cannot connect");
    }
    var rows := hosts[key];
    var masterKey: Option<InstanceKey> := None;
    for i := 0 to |rows|
      invariant MasterOf(rows[..i]) == Ok(masterKey)
    {
      assert rows[..i + 1][..i] == rows[..i];
      if rows[i].masterLogFile != "" {
        if !rows[i].ioRunning || !rows[i].sqlRunning {
          BrokenStays(rows, i + 1);
          return Err("replication is broken");
        }
        masterKey := Some(rows[i].master);
      }
    }
    assert rows[..|rows|] == rows;
    return Ok(masterKey);
  }

  lemma {:induction false} BrokenStays(rows: seq<SlaveStatus>, n: nat)
    requires n <= |rows| && MasterOf(rows[..n]).Err?
    ensures MasterOf(rows) == MasterOf(rows[..n])
  {
    if n < |rows| {
      assert rows[..|rows| - 1][..n] == rows[..n];
      BrokenStays(rows[..|rows| - 1], n);
    } else {
      assert rows[..n] == rows;
    }
  }

  function Status(hosts: Hosts, key: InstanceKey): Result<Option<InstanceKey>> {
    if key in hosts then MasterOf(hosts[key]) else Err("cannot connect")
  }

  /** Where a host replicates from, if from anywhere. */
  predicate Follows(hosts: Hosts, key: InstanceKey, master: InstanceKey) {
    Status(hosts, key) == Ok(Some(master)) && master.IsValid()
  }

  /** The search ends here: no master, or one that is no actual instance. */
  predicate IsRoot(hosts: Hosts, key: InstanceKey) {
    Status(hosts, key).Ok? && (Status(hosts, key).value.Some? ==> !Status(hosts, key).value.value.IsValid())
  }

  const MasterMaster := "There seems to be a master-master setup"

  /** The search as a function of the hosts visited before. */
  function Search(hosts: Hosts, key: InstanceKey, visited: set<InstanceKey>, allowMasterMaster: bool): Result<InstanceKey>
    decreases |hosts.Keys - visited|, if key in hosts then 1 else 0
  {
    match Status(hosts, key)
    case Err(message) => Err(message)
    case Ok(None) => Ok(key)
    case Ok(Some(master)) =>
      if !master.IsValid() then Ok(key)
      else if master in visited then if allowMasterMaster then Ok(key) else Err(MasterMaster)
      else
        VisitShrinks(hosts, visited, master);
        Search(hosts, master, visited + {master}, allowMasterMaster)
  }

  lemma VisitShrinks(hosts: Hosts, visited: set<InstanceKey>, master: InstanceKey)
    requires master !in visited
    ensures
      if master in hosts then |hosts.Keys - (visited + {master})| < |hosts.Keys - visited|
      else hosts.Keys - (visited + {master}) == hosts.Keys - visited
  {
    var before, after := hosts.Keys - visited, hosts.Keys - (visited + {master});
    if master in hosts {
      assert before == after + {master};
    } else {
      assert before == after;
    }
  }

  class InstanceKeyMap {
    var keys: set<InstanceKey>

    constructor ()
      ensures keys == {}
    {
      keys := {};
    }

    method AddKey(key: InstanceKey)
      modifies this
      ensures keys == old(keys) + {key}
    {
      keys := keys + {key};
    }
  }

  method GetMasterConnectionConfigSafe(hosts: Hosts, key: InstanceKey, visitedKeys: InstanceKeyMap,
                                       allowMasterMaster: bool)
    returns (r: Result<InstanceKey>)
    modifies visitedKeys
    ensures r == Search(hosts, key, old(visitedKeys.keys), allowMasterMaster)
    ensures old(visitedKeys.keys) <= visitedKeys.keys
    decreases |hosts.Keys - visitedKeys.keys|, if key in hosts then 1 else 0
  {
    var masterKey := GetMasterKeyFromSlaveStatus(hosts, key);
    if masterKey.Err? {
      return Err(masterKey.message);
    }
    if masterKey.value.None? {
      return Ok(key);
    }
    var master := masterKey.value.value;
    if !master.IsValid() {
      return Ok(key);
    }
    if master in visitedKeys.keys {
      if allowMasterMaster {
        return Ok(key);
      }
      return Err(MasterMaster);
    }
    VisitShrinks(hosts, visitedKeys.keys, master);
    visitedKeys.AddKey(master);
    r := GetMasterConnectionConfigSafe(hosts, master, visitedKeys, allowMasterMaster);
  }

  // ---- Chains ----

  /** Each host follows the next. */
  predicate Chain(hosts: Hosts, path: seq<InstanceKey>) {
    path != [] && forall i :: 0 <= i < |path| - 1 ==> Follows(hosts, path[i], path[i + 1])
  }

  predicate Distinct(path: seq<InstanceKey>) {
    forall i, j :: 0 <= i < j < |path| ==> path[i] != path[j]
  }

  function Last(path: seq<InstanceKey>): InstanceKey
    requires path != []
  {
    path[|path| - 1]
  }

  /** The hosts that have been added to the visited ones at the end of a path: all but its first. */
  function VisitedBy(path: seq<InstanceKey>): set<InstanceKey>
    requires path != []
  {
    set i | 1 <= i < |path| :: path[i]
  }

  /** Along a chain without repetition, the search goes to its end. */
  lemma {:induction false} SearchAlong(hosts: Hosts, path: seq<InstanceKey>, n: nat, allowMasterMaster: bool)
    requires Chain(hosts, path) && Distinct(path) && 1 <= n <= |path|
    ensures Search(hosts, path[0], {}, allowMasterMaster)
            == Search(hosts, path[n - 1], VisitedBy(path[..n]), allowMasterMaster)
  {
    if n == 1 {
      assert VisitedBy(path[..1]) == {};
    } else {
      SearchAlong(hosts, path, n - 1, allowMasterMaster);
      assert Follows(hosts, path[n - 2], path[n - 2 + 1]);
      assert path[n - 1] !in VisitedBy(path[..n - 1]);
      assert VisitedBy(path[..n]) == VisitedBy(path[..n - 1]) + {path[n - 1]};
    }
  }

  /** The two ways a chain without repetition can end: at a host that follows no one, or back in itself. */
  predicate EndsAtRoot(hosts: Hosts, path: seq<InstanceKey>) {
    Chain(hosts, path) && Distinct(path) && IsRoot(hosts, Last(path))
  }

  predicate EndsInCycle(hosts: Hosts, path: seq<InstanceKey>, c: nat) {
    Chain(hosts, path) && Distinct(path) && c < |path| && Follows(hosts, Last(path), path[c])
  }

  predicate EndsInError(hosts: Hosts, path: seq<InstanceKey>) {
    Chain(hosts, path) && Distinct(path) && Status(hosts, Last(path)).Err?
  }

  /** On an acyclic chain, the root is found, whether or not master-master setups are allowed. */
  lemma {:induction false} FindsRoot(hosts: Hosts, path: seq<InstanceKey>, allowMasterMaster: bool)
    requires EndsAtRoot(hosts, path)
    ensures Search(hosts, path[0], {}, allowMasterMaster) == Ok(Last(path))
  {
    SearchAlong(hosts, path, |path|, allowMasterMaster);
  }

  /**
   On a cycle, `path[c..]`, a host of the cycle is found if that is allowed, and otherwise an error. The first
   host does not count as visited, so a cycle through it is gone round once and ends back at it.
   */
  lemma {:induction false} FindsCycle(hosts: Hosts, path: seq<InstanceKey>, c: nat, allowMasterMaster: bool)
    requires EndsInCycle(hosts, path, c)
    ensures Search(hosts, path[0], {}, allowMasterMaster)
            == if allowMasterMaster then Ok(if c == 0 then path[0] else Last(path)) else Err(MasterMaster)
    ensures (if c == 0 then path[0] else Last(path)) in path[c..]
  {
    var n := |path|;
    SearchAlong(hosts, path, n, allowMasterMaster);
    assert path[..n] == path;
    var visited := VisitedBy(path);
    if c > 0 {
      assert path[c] in visited;
      assert path[c..][n - 1 - c] == Last(path);
    } else {
      assert path[0] !in visited;
      var again := visited + {path[0]};
      assert Search(hosts, path[0], {}, allowMasterMaster) == Search(hosts, path[0], again, allowMasterMaster);
      if n == 1 {
        assert path[0] in again;
      } else {
        assert Follows(hosts, path[0], path[0 + 1]) && path[1] in visited;
      }
    }
  }

  /** A host on the way that cannot be reached, or whose replication is broken, is an error. */
  lemma {:induction false} FindsError(hosts: Hosts, path: seq<InstanceKey>, allowMasterMaster: bool)
    requires EndsInError(hosts, path)
    ensures Search(hosts, path[0], {}, allowMasterMaster).Err?
  {
    SearchAlong(hosts, path, |path|, allowMasterMaster);
    assert path[..|path|] == path;
  }

  predicate WithinHosts(hosts: Hosts, path: seq<InstanceKey>) {
    forall i :: 0 <= i < |path| - 1 ==> path[i] in hosts
  }

  /** There is no other case: from every host, a chain leads to a root, a cycle or an error. */
  lemma {:induction false} EveryChainEnds(hosts: Hosts, path: seq<InstanceKey>) returns (full: seq<InstanceKey>, c: nat)
    requires Chain(hosts, path) && Distinct(path) && WithinHosts(hosts, path)
    ensures full != [] && full[0] == path[0]
    ensures EndsAtRoot(hosts, full) || EndsInCycle(hosts, full, c) || EndsInError(hosts, full)
    decreases |hosts.Keys| + 1 - |path|
  {
    BoundedPath(hosts, path);
    full, c := path, 0;
    var status := Status(hosts, Last(path));
    if status.Ok? && status.value.Some? && status.value.value.IsValid() {
      var master := status.value.value;
      if i :| 0 <= i < |path| && path[i] == master {
        c := i;
      } else {
        full, c := EveryChainEnds(hosts, path + [master]);
      }
    }
  }

  lemma BoundedPath(hosts: Hosts, path: seq<InstanceKey>)
    requires path != [] && Distinct(path) && WithinHosts(hosts, path)
    ensures |path| <= |hosts.Keys| + 1
  {
    DistinctSize(path[..|path| - 1], hosts.Keys);
  }

  lemma {:induction false} DistinctSize(path: seq<InstanceKey>, keys: set<InstanceKey>)
    requires Distinct(path) && forall i :: 0 <= i < |path| ==> path[i] in keys
    ensures |path| <= |keys|
  {
    if path != [] {
      var n := |path| - 1;
      DistinctSize(path[..n], keys - {path[n]});
    }
  }
}
