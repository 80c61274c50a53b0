/**
 * What each script does with a reconfigure fault. change_vms_vif.py lets
 * it reach the top-level handler: the faulted task is the run's last, and
 * `main` returns -1. change_vms_on_datastore_vif.py catches it around the
 * call: the run goes on, and the tasks it submits do not depend on which of
 * them fault.
 */
module FaultPolicy {
  import opened Wrappers
  import opened Vim
  import opened NetworkMap
  import opened Outcome
  import opened NicPass
  import opened ChangeVmsVif
  import opened ChangeVmsOnDatastoreVif

  /** A property of the run's status and log. */
  type RunProperty = (Status, seq<Submission>) -> bool

  /** Every rule step keeps `P`. */
  ghost predicate KeptByStep(P: RunProperty, env: Env)
  {
    forall s: PassState, vmName: string, i: nat, r: Rule {:trigger Step(s, vmName, i, r, env)} ::
      WellFormed(s) && i < |s.devices| && P(s.status, s.log) ==>
        P(Step(s, vmName, i, r, env).status, Step(s, vmName, i, r, env).log)
  }

  lemma {:induction false} ApplyRulesKeeps(P: RunProperty, env: Env, s: PassState, vmName: string, i: nat, rules: seq<Rule>)
    requires KeptByStep(P, env) && WellFormed(s) && i < |s.devices| && P(s.status, s.log)
    ensures P(ApplyRules(s, vmName, i, rules, env).status, ApplyRules(s, vmName, i, rules, env).log)
    decreases |rules|
  {
    if rules != [] {
      ApplyRulesKeeps(P, env, s, vmName, i, rules[..|rules| - 1]);
      var t := ApplyRules(s, vmName, i, rules[..|rules| - 1], env);
      assert P(Step(t, vmName, i, rules[|rules| - 1], env).status, Step(t, vmName, i, rules[|rules| - 1], env).log);
    }
  }

  lemma {:induction false} ApplyDevicesKeeps(P: RunProperty, env: Env, s: PassState, vmName: string, rules: seq<Rule>, n: nat)
    requires KeptByStep(P, env) && WellFormed(s) && n <= |s.devices| && P(s.status, s.log)
    ensures P(ApplyDevices(s, vmName, rules, n, env).status, ApplyDevices(s, vmName, rules, n, env).log)
  {
    if n > 0 {
      ApplyDevicesKeeps(P, env, s, vmName, rules, n - 1);
      var t := ApplyDevices(s, vmName, rules, n - 1, env);
      if t.devices[n - 1].kind == EthernetCard {
        ApplyRulesKeeps(P, env, t, vmName, n - 1, rules);
      }
    }
  }

  /** No faulted task but the last, and a Faulted status exactly when the last one faulted. */
  predicate StoppedAtFirstFault(status: Status, log: seq<Submission>)
  {
    && (status == Faulted ==> |log| > 0 && log[|log| - 1].faulted)
    && (forall j :: 0 <= j < |log| && log[j].faulted ==> status == Faulted && j == |log| - 1)
  }

  lemma AbortStepKeeps(env: Env)
    requires env.policy == AbortRun
    ensures KeptByStep(StoppedAtFirstFault, env)
  {
    forall s: PassState, vmName: string, i: nat, r: Rule |
      WellFormed(s) && i < |s.devices| && StoppedAtFirstFault(s.status, s.log)
      ensures StoppedAtFirstFault(Step(s, vmName, i, r, env).status, Step(s, vmName, i, r, env).log)
    {
      var t := Step(s, vmName, i, r, env);
      if t.log != s.log {
        assert forall j :: 0 <= j < |s.log| ==> t.log[j] == s.log[j];
      }
    }
  }

  lemma {:induction false} RunRowsStopsAtFirstFault(rows: seq<VmRow>, findByUuid: SearchIndex, rules: seq<Rule>, env: Env)
    requires env.policy == AbortRun
    ensures StoppedAtFirstFault(RunRows(rows, findByUuid, rules, env).status, RunRows(rows, findByUuid, rules, env).log)
    decreases |rows|
  {
    if rows != [] {
      RunRowsStopsAtFirstFault(rows[..|rows| - 1], findByUuid, rules, env);
      var t := RunRows(rows[..|rows| - 1], findByUuid, rules, env);
      var vm := findByUuid(rows[|rows| - 1].vmInstanceUuid);
      if t.status.Running? && vm.Some? {
        AbortStepKeeps(env);
        ApplyDevicesKeeps(StoppedAtFirstFault, env, VmStart(vm.value, t.log), vm.value.name, rules, |vm.value.devices|);
      }
    }
  }

  /**
   * change_vms_vif.py: a reconfigure fault ends the run. Every task but the
   * last succeeded; `main` returns -1 exactly when the last one faulted, and
   * 0 or an uncaught error when none did.
   */
  lemma FaultEndsListRun(rows: seq<VmRow>, findByUuid: SearchIndex, rules: seq<Rule>,
                         networks: seq<Network>, portgroups: seq<Portgroup>, faultAt: nat -> bool)
    ensures var t := RunRows(rows, findByUuid, rules, ListEnv(networks, portgroups, faultAt));
      && (forall j :: 0 <= j < |t.log| - 1 ==> !t.log[j].faulted)
      && (MainResultOf(t.status) == Returned(-1) <==> |t.log| > 0 && t.log[|t.log| - 1].faulted)
  {
    RunRowsStopsAtFirstFault(rows, findByUuid, rules, ListEnv(networks, portgroups, faultAt));
  }

  /** The run never stops on a fault. */
  predicate NotFaulted(status: Status, log: seq<Submission>)
  {
    status != Faulted
  }

  lemma ContinueStepKeeps(env: Env)
    requires env.policy == ReportAndContinue
    ensures KeptByStep(NotFaulted, env)
  {
  }

  /** Two runs that differ at most in which tasks faulted. */
  predicate SameButFaults(a: PassState, b: PassState)
  {
    && a.devices == b.devices && a.deviceChange == b.deviceChange && a.status == b.status
    && |a.log| == |b.log|
    && forall j :: 0 <= j < |a.log| ==> a.log[j].vmName == b.log[j].vmName && a.log[j].deviceChange == b.log[j].deviceChange
  }

  /** Environments that differ at most in which tasks fault, both catching faults. */
  predicate FaultVariants(e1: Env, e2: Env)
  {
    e1.networks == e2.networks && e1.portgroups == e2.portgroups
    && e1.policy == ReportAndContinue && e2.policy == ReportAndContinue
  }

  lemma StepIgnoresFaults(a: PassState, b: PassState, vmName: string, i: nat, r: Rule, e1: Env, e2: Env)
    requires SameButFaults(a, b) && FaultVariants(e1, e2) && WellFormed(a) && i < |a.devices|
    ensures SameButFaults(Step(a, vmName, i, r, e1), Step(b, vmName, i, r, e2))
  {
    var a', b' := Step(a, vmName, i, r, e1), Step(b, vmName, i, r, e2);
    if |a'.log| > |a.log| {
      assert forall j :: 0 <= j < |a.log| ==> a'.log[j] == a.log[j] && b'.log[j] == b.log[j];
    }
  }

  lemma {:induction false} ApplyRulesIgnoresFaults(a: PassState, b: PassState, vmName: string, i: nat, rules: seq<Rule>, e1: Env, e2: Env)
    requires SameButFaults(a, b) && FaultVariants(e1, e2) && WellFormed(a) && i < |a.devices|
    ensures SameButFaults(ApplyRules(a, vmName, i, rules, e1), ApplyRules(b, vmName, i, rules, e2))
    decreases |rules|
  {
    if rules != [] {
      var p := rules[..|rules| - 1];
      ApplyRulesIgnoresFaults(a, b, vmName, i, p, e1, e2);
      StepIgnoresFaults(ApplyRules(a, vmName, i, p, e1), ApplyRules(b, vmName, i, p, e2), vmName, i, rules[|rules| - 1], e1, e2);
    }
  }

  lemma {:induction false} ApplyDevicesIgnoresFaults(a: PassState, b: PassState, vmName: string, rules: seq<Rule>, n: nat, e1: Env, e2: Env)
    requires SameButFaults(a, b) && FaultVariants(e1, e2) && WellFormed(a) && n <= |a.devices|
    ensures SameButFaults(ApplyDevices(a, vmName, rules, n, e1), ApplyDevices(b, vmName, rules, n, e2))
  {
    if n > 0 {
      ApplyDevicesIgnoresFaults(a, b, vmName, rules, n - 1, e1, e2);
      var s, t := ApplyDevices(a, vmName, rules, n - 1, e1), ApplyDevices(b, vmName, rules, n - 1, e2);
      assert s.devices == t.devices;
      if s.devices[n - 1].kind == EthernetCard {
        ApplyRulesIgnoresFaults(s, t, vmName, n - 1, rules, e1, e2);
        assert ApplyDevices(a, vmName, rules, n, e1) == ApplyRules(s, vmName, n - 1, rules, e1);
        assert ApplyDevices(b, vmName, rules, n, e2) == ApplyRules(t, vmName, n - 1, rules, e2);
      } else {
        assert ApplyDevices(a, vmName, rules, n, e1) == s;
        assert ApplyDevices(b, vmName, rules, n, e2) == t;
      }
    }
  }

  /** Two runs between VMs that differ at most in which tasks faulted. */
  predicate RunsSameButFaults(a: RunState, b: RunState)
  {
    SameButFaults(PassState([], [], a.status, a.log), PassState([], [], b.status, b.log))
  }

  lemma {:induction false} ProcessVmsIgnoresFaults(a: RunState, b: RunState, vms: seq<VirtualMachine>, rules: seq<Rule>, e1: Env, e2: Env)
    requires RunsSameButFaults(a, b) && FaultVariants(e1, e2)
    ensures RunsSameButFaults(ProcessVms(a, vms, rules, e1), ProcessVms(b, vms, rules, e2))
    ensures a.status != Faulted ==> ProcessVms(a, vms, rules, e1).status != Faulted
    decreases |vms|
  {
    if vms != [] {
      ProcessVmsIgnoresFaults(a, b, vms[..|vms| - 1], rules, e1, e2);
      var s, t := ProcessVms(a, vms[..|vms| - 1], rules, e1), ProcessVms(b, vms[..|vms| - 1], rules, e2);
      var vm := vms[|vms| - 1];
      if s.status.Running? {
        ApplyDevicesIgnoresFaults(VmStart(vm, s.log), VmStart(vm, t.log), vm.name, rules, |vm.devices|, e1, e2);
        ContinueStepKeeps(e1);
        ApplyDevicesKeeps(NotFaulted, e1, VmStart(vm, s.log), vm.name, rules, |vm.devices|);
      }
    }
  }

  /**
   * change_vms_on_datastore_vif.py: a reconfigure fault is caught and the
   * run goes on. `main` never returns -1, and whichever tasks fault, the
   * same tasks are submitted with the same device changes, and the run ends
   * the same way.
   */
  lemma FaultsDoNotStopDatastoreRun(inv: Inventory, dcName: string, clusterName: string, rules: seq<Rule>,
                                    faults1: nat -> bool, faults2: nat -> bool)
    ensures var (r1, log1) := DatastoreRun(inv, dcName, clusterName, rules, faults1);
            var (r2, log2) := DatastoreRun(inv, dcName, clusterName, rules, faults2);
      && r1 != Returned(-1) && r1 == r2 && |log1| == |log2|
      && forall j :: 0 <= j < |log1| ==> log1[j].vmName == log2[j].vmName && log1[j].deviceChange == log2[j].deviceChange
  {
    var e1, e2 := DatastoreEnv(inv, faults1), DatastoreEnv(inv, faults2);
    var start := RunState(Running, []);
    match Lookup.FirstNamed(inv.datacenters, DatacenterName, Some(dcName))
    case None =>
    case Some(dc) =>
      match Lookup.FirstNamed(dc.computeResources, ComputeResourceName, Some(clusterName))
      case None =>
      case Some(cluster) =>
        ProcessVmsIgnoresFaults(start, start, cluster.vms, rules, e1, e2);
  }
}
