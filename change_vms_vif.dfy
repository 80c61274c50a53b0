/**
 * change_vms_vif.py: for each row of the VM list, find the VM by its
 * instance uuid and run the NIC pass on it. A reconfigure fault is not
 * caught around the call: it reaches the top-level handler, which ends the
 * whole run with -1.
 */
module ChangeVmsVif {
  import opened Wrappers
  import opened Vim
  import opened NetworkMap
  import opened Outcome
  import opened NicPass

  /** The search index of the inventory: the VM with a given instance uuid, if any. */
  type SearchIndex = Option<string> -> Option<VirtualMachine>

  /** The run over the VM-list rows, in order; a row whose VM is not found ends it with an uncaught error. */
  function RunRows(rows: seq<VmRow>, findByUuid: SearchIndex, rules: seq<Rule>, env: Env): RunState
    decreases |rows|
  {
    if rows == [] then RunState(Running, [])
    else
      var t := RunRows(rows[..|rows| - 1], findByUuid, rules, env);
      var row := rows[|rows| - 1];
      if !t.status.Running? then t
      else
        match findByUuid(row.vmInstanceUuid)
        case None => RunState(Crashed(VmNotFound(row.vmInstanceUuid)), t.log)
        case Some(vm) => AfterVm(t, vm, rules, env)
  }

  /** The environment of this script: faults abort the run. */
  function ListEnv(networks: seq<Network>, portgroups: seq<Portgroup>, faultAt: nat -> bool): Env
  {
    Env(networks, portgroups, faultAt, AbortRun)
  }

  /** Once the run has stopped, the remaining rows change nothing. */
  lemma {:induction false} RunRowsHalted(rows: seq<VmRow>, n: nat, findByUuid: SearchIndex, rules: seq<Rule>, env: Env)
    requires n <= |rows| && !RunRows(rows[..n], findByUuid, rules, env).status.Running?
    ensures RunRows(rows, findByUuid, rules, env) == RunRows(rows[..n], findByUuid, rules, env)
    decreases |rows|
  {
    if n < |rows| {
      assert rows[..|rows| - 1][..n] == rows[..n];
      RunRowsHalted(rows[..|rows| - 1], n, findByUuid, rules, env);
    } else {
      assert rows[..n] == rows;
    }
  }

  /**
   * `main` of change_vms_vif.py from the parsed inputs on: the VM rows,
   * the network map, the search index, the network and port-group views,
   * and which reconfigure tasks fault. Returns what `main` reports and every
   * reconfigure task it submitted.
   */
  method ChangeVmsVif(vmList: seq<VmRow>, networkMap: seq<Rule>, findByUuid: SearchIndex,
                      networks: seq<Network>, portgroups: seq<Portgroup>, faultAt: nat -> bool)
    returns (result: MainResult, log: seq<Submission>)
    ensures var t := RunRows(vmList, findByUuid, networkMap, ListEnv(networks, portgroups, faultAt));
            result == MainResultOf(t.status) && log == t.log
  {
    var env := ListEnv(networks, portgroups, faultAt);
    var status := Running;
    log := [];
    for n := 0 to |vmList|
      invariant status == Running
      invariant RunState(status, log) == RunRows(vmList[..n], findByUuid, networkMap, env)
    {
      assert vmList[..n + 1][..n] == vmList[..n];
      var vm := findByUuid(vmList[n].vmInstanceUuid);
      if vm.None? {
        status := Crashed(VmNotFound(vmList[n].vmInstanceUuid));
        RunRowsHalted(vmList, n + 1, findByUuid, networkMap, env);
        return Uncaught(VmNotFound(vmList[n].vmInstanceUuid)), log;
      }
      var devices, deviceChange;
      devices, deviceChange, status, log := MigrateVmNics(vm.value, networkMap, env, log);
      if status != Running {
        RunRowsHalted(vmList, n + 1, findByUuid, networkMap, env);
        return MainResultOf(status), log;
      }
    }
    assert vmList[..|vmList|] == vmList;
    result := Returned(0);
  }
}
