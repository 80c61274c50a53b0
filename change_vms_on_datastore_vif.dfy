/**
 * change_vms_on_datastore_vif.py: resolve the datacenter and then the
 * cluster by name, and run the NIC pass on every VM of the cluster. The
 * datastore test does not filter anything, and a reconfigure fault is
 * caught around the call, reported, and the run goes on.
 */
module ChangeVmsOnDatastoreVif {
  import opened Wrappers
  import opened Vim
  import opened NetworkMap
  import opened Lookup
  import opened Outcome
  import opened NicPass

  /** The VMs of a cluster visited in order, each with its own NIC pass. */
  function ProcessVms(s: RunState, vms: seq<VirtualMachine>, rules: seq<Rule>, env: Env): RunState
    decreases |vms|
  {
    if vms == [] then s
    else
      var t := ProcessVms(s, vms[..|vms| - 1], rules, env);
      if !t.status.Running? then t else AfterVm(t, vms[|vms| - 1], rules, env)
  }

  /** The environment of this script: faults are reported and the run goes on. */
  function DatastoreEnv(inv: Inventory, faultAt: nat -> bool): Env
  {
    Env(inv.networks, inv.portgroups, faultAt, ReportAndContinue)
  }

  /**
   * What `main` reports and what it submits: SystemExit(-1) with nothing
   * submitted when the datacenter or the cluster is not found, otherwise the
   * NIC pass over every VM of the cluster. The datastore name is not an
   * argument: it decides nothing.
   */
  function DatastoreRun(inv: Inventory, dcName: string, clusterName: string, rules: seq<Rule>, faultAt: nat -> bool)
    : (MainResult, seq<Submission>)
  {
    match FirstNamed(inv.datacenters, DatacenterName, Some(dcName))
    case None => (SystemExit(-1), [])
    case Some(dc) =>
      match FirstNamed(dc.computeResources, ComputeResourceName, Some(clusterName))
      case None => (SystemExit(-1), [])
      case Some(cluster) =>
        var t := ProcessVms(RunState(Running, []), cluster.vms, rules, DatastoreEnv(inv, faultAt));
        (MainResultOf(t.status), t.log)
  }

  /** Once the run has stopped, the remaining VMs change nothing. */
  lemma {:induction false} ProcessVmsHalted(s: RunState, vms: seq<VirtualMachine>, n: nat, rules: seq<Rule>, env: Env)
    requires n <= |vms| && !ProcessVms(s, vms[..n], rules, env).status.Running?
    ensures ProcessVms(s, vms, rules, env) == ProcessVms(s, vms[..n], rules, env)
    decreases |vms|
  {
    if n < |vms| {
      assert vms[..|vms| - 1][..n] == vms[..n];
      ProcessVmsHalted(s, vms[..|vms| - 1], n, rules, env);
    } else {
      assert vms[..n] == vms;
    }
  }

  /**
   * `main` of change_vms_on_datastore_vif.py from the parsed inputs on:
   * the inventory, the datacenter, cluster and datastore names, the network
   * map, and which reconfigure tasks fault.
   */
  method ChangeVmsOnDatastoreVif(inv: Inventory, dcName: string, clusterName: string, datastore: string,
                                 networkMap: seq<Rule>, faultAt: nat -> bool)
    returns (result: MainResult, log: seq<Submission>)
    ensures (result, log) == DatastoreRun(inv, dcName, clusterName, networkMap, faultAt)
  {
    var datacenter := GetObj(inv.datacenters, DatacenterName, Some(dcName));
    if datacenter.None? {
      return SystemExit(-1), [];
    }
    var cluster := GetObj(datacenter.value.computeResources, ComputeResourceName, Some(clusterName));
    if cluster.None? {
      return SystemExit(-1), [];
    }
    var env := DatastoreEnv(inv, faultAt);
    var vms := cluster.value.vms;
    var status := Running;
    log := [];
    for v := 0 to |vms|
      invariant status == Running
      invariant RunState(status, log) == ProcessVms(RunState(Running, []), vms[..v], networkMap, env)
    {
      assert vms[..v + 1][..v] == vms[..v];
      var vm := vms[v];
      // the datastore test: its `continue` only moves on to the VM's next datastore
      for d := 0 to |vm.datastores| {
        if vm.datastores[d] != datastore {
          continue;
        }
      }
      var devices, deviceChange;
      devices, deviceChange, status, log := MigrateVmNics(vm, networkMap, env, log);
      if status != Running {
        ProcessVmsHalted(RunState(Running, []), vms, v + 1, networkMap, env);
        return MainResultOf(status), log;
      }
    }
    assert vms[..|vms|] == vms;
    result := Returned(0);
  }
}
