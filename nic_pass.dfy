/**
 * The per-VM NIC pass shared by both migration scripts: walk the VM's
 * devices in order, keep the virtual Ethernet cards, test every rule of
 * the network map against the card's current backing (no stop after a
 * match), and on each match edit the card in place, append an edit spec to
 * the VM's device_change list and submit the whole list.
 *
 * A spec refers to its device rather than copying it, as `nicspec.device =
 * device` does: a DeviceSpec holds the device's position in the VM's device
 * list, and a submission carries every spec resolved against the device
 * list as it is at the moment of submitting.
 */
module NicPass {
  import opened Wrappers
  import opened Vim
  import opened NetworkMap
  import opened Lookup
  import opened Outcome
  import opened Matcher

  datatype Operation = Add | Remove | Edit

  /** A device spec of device_change: the operation and the device it shares. */
  datatype DeviceSpec = DeviceSpec(operation: Operation, device: nat)

  /** A device spec as the management plane receives it. */
  datatype SpecValue = SpecValue(operation: Operation, device: Device)

  /** One ReconfigVM_Task call, waited for: the VM, its device changes, and whether it faulted. */
  datatype Submission = Submission(vmName: string, deviceChange: seq<SpecValue>, faulted: bool)

  /** Running; stopped by a fault that reached the top-level handler; or stopped by an uncaught error. */
  datatype Status = Running | Faulted | Crashed(crash: Crash)

  /**
   * What a faulted reconfigure does: change_vms_vif.py lets the fault reach
   * its top-level handler, which ends the run; change_vms_on_datastore_vif.py
   * catches it around the call and goes on.
   */
  datatype FaultPolicy = AbortRun | ReportAndContinue

  /**
   * The run's surroundings: the network and port-group views `get_obj`
   * searches, whether the n-th reconfigure task of the run faults, and the
   * fault policy.
   */
  datatype Env = Env(networks: seq<Network>, portgroups: seq<Portgroup>, faultAt: nat -> bool, policy: FaultPolicy)

  /** The VM's device list, its device_change list, the run status, and every submission of the run so far. */
  datatype PassState = PassState(devices: seq<Device>, deviceChange: seq<DeviceSpec>, status: Status, log: seq<Submission>)

  /** Every spec refers to a device of the list. */
  predicate WellFormed(s: PassState)
  {
    forall k :: 0 <= k < |s.deviceChange| ==> s.deviceChange[k].device < |s.devices|
  }

  /** The device changes as submitted: each spec with its device as it is now. */
  function Resolve(devices: seq<Device>, changes: seq<DeviceSpec>): (r: seq<SpecValue>)
    requires forall k :: 0 <= k < |changes| ==> changes[k].device < |devices|
    ensures |r| == |changes|
    ensures forall k :: 0 <= k < |r| ==> r[k] == SpecValue(changes[k].operation, devices[changes[k].device])
  {
    seq(|changes|, k requires 0 <= k < |changes| => SpecValue(changes[k].operation, devices[changes[k].device]))
  }

  /**
   * Specs share their device: once device `i` is replaced by `d`, every spec
   * of device `i` shows `d` when submitted, and every other spec shows what
   * it showed before.
   */
  lemma ResolveShares(devices: seq<Device>, changes: seq<DeviceSpec>, i: nat, d: Device)
    requires forall k :: 0 <= k < |changes| ==> changes[k].device < |devices|
    requires i < |devices|
    ensures var before := Resolve(devices, changes);
            var after := Resolve(devices[i := d], changes);
      && |after| == |before|
      && (forall k :: 0 <= k < |changes| && changes[k].device == i ==> after[k] == SpecValue(changes[k].operation, d))
      && (forall k :: 0 <= k < |changes| && changes[k].device != i ==> after[k] == before[k])
  {
  }

  /** One rule tested against device `i` (change_vms_vif.py:113-161). */
  function Step(s: PassState, vmName: string, i: nat, r: Rule, env: Env): (t: PassState)
    requires WellFormed(s) && i < |s.devices|
    ensures WellFormed(t) && |t.devices| == |s.devices|
  {
    if !s.status.Running? || !Matches(s.devices[i], r) then s
    else
      match DestinationBacking(r, env.networks, env.portgroups)
      case Failure(crash) =>
        s.(devices := s.devices[i := s.devices[i].(wakeOnLan := true)], status := Crashed(crash))
      case Success(backing) =>
        var devices := s.devices[i := Edited(s.devices[i], backing)];
        var changes := s.deviceChange + [DeviceSpec(Edit, i)];
        var faulted := env.faultAt(|s.log|);
        PassState(devices, changes,
                  if faulted && env.policy == AbortRun then Faulted else Running,
                  s.log + [Submission(vmName, Resolve(devices, changes), faulted)])
  }

  /** The rules of the table tested in order against device `i`. */
  function ApplyRules(s: PassState, vmName: string, i: nat, rules: seq<Rule>, env: Env): (t: PassState)
    requires WellFormed(s) && i < |s.devices|
    ensures WellFormed(t) && |t.devices| == |s.devices|
    decreases |rules|
  {
    if rules == [] then s
    else Step(ApplyRules(s, vmName, i, rules[..|rules| - 1], env), vmName, i, rules[|rules| - 1], env)
  }

  /** The first `n` devices of the list visited in order; only Ethernet cards meet the rules. */
  function ApplyDevices(s: PassState, vmName: string, rules: seq<Rule>, n: nat, env: Env): (t: PassState)
    requires WellFormed(s) && n <= |s.devices|
    ensures WellFormed(t) && |t.devices| == |s.devices|
  {
    if n == 0 then s
    else
      var t := ApplyDevices(s, vmName, rules, n - 1, env);
      if t.devices[n - 1].kind == EthernetCard then ApplyRules(t, vmName, n - 1, rules, env) else t
  }

  /** The state a VM's pass starts from: its device list, an empty device_change, the run's log so far. */
  function VmStart(vm: VirtualMachine, log: seq<Submission>): PassState
  {
    PassState(vm.devices, [], Running, log)
  }

  /** The whole NIC pass of one VM. */
  function ProcessVm(vm: VirtualMachine, rules: seq<Rule>, env: Env, log: seq<Submission>): PassState
  {
    ApplyDevices(VmStart(vm, log), vm.name, rules, |vm.devices|, env)
  }

  /** The run between two VMs: its status and every submission so far. */
  datatype RunState = RunState(status: Status, log: seq<Submission>)

  /** The run after one more VM's NIC pass. */
  function AfterVm(s: RunState, vm: VirtualMachine, rules: seq<Rule>, env: Env): RunState
  {
    var p := ProcessVm(vm, rules, env, s.log);
    RunState(p.status, p.log)
  }

  /** What `main` reports once the run has ended with `status`: 0, -1 from the fault handler, or the uncaught error. */
  function MainResultOf(status: Status): MainResult
  {
    match status
    case Running => Returned(0)
    case Faulted => Returned(-1)
    case Crashed(crash) => Uncaught(crash)
  }

  /** Applying a table is applying its first part and then the rest. */
  lemma {:induction false} ApplyRulesAppend(s: PassState, vmName: string, i: nat, p: seq<Rule>, q: seq<Rule>, env: Env)
    requires WellFormed(s) && i < |s.devices|
    ensures ApplyRules(s, vmName, i, p + q, env) == ApplyRules(ApplyRules(s, vmName, i, p, env), vmName, i, q, env)
    decreases |q|
  {
    if q == [] {
      assert p + q == p;
    } else {
      var q' := q[..|q| - 1];
      assert (p + q)[..|p + q| - 1] == p + q';
      ApplyRulesAppend(s, vmName, i, p, q', env);
    }
  }

  /** Once the run has stopped, no rule changes anything. */
  lemma {:induction false} ApplyRulesHalted(s: PassState, vmName: string, i: nat, rules: seq<Rule>, env: Env)
    requires WellFormed(s) && i < |s.devices| && !s.status.Running?
    ensures ApplyRules(s, vmName, i, rules, env) == s
    decreases |rules|
  {
    if rules != [] {
      ApplyRulesHalted(s, vmName, i, rules[..|rules| - 1], env);
    }
  }

  /** Once the run has stopped, the devices left over change nothing. */
  lemma {:induction false} ApplyDevicesHalted(s: PassState, vmName: string, rules: seq<Rule>, m: nat, n: nat, env: Env)
    requires WellFormed(s) && m <= n <= |s.devices|
    requires !ApplyDevices(s, vmName, rules, m, env).status.Running?
    ensures ApplyDevices(s, vmName, rules, n, env) == ApplyDevices(s, vmName, rules, m, env)
    decreases n
  {
    if n > m {
      ApplyDevicesHalted(s, vmName, rules, m, n - 1, env);
      var t := ApplyDevices(s, vmName, rules, n - 1, env);
      if t.devices[n - 1].kind == EthernetCard {
        ApplyRulesHalted(t, vmName, n - 1, rules, env);
      }
    }
  }

  /** A rule that stops the run leaves the rest of the table with nothing to do. */
  lemma RulesStopAt(t: PassState, vmName: string, i: nat, rules: seq<Rule>, j: nat, env: Env)
    requires WellFormed(t) && i < |t.devices| && j < |rules|
    requires !ApplyRules(t, vmName, i, rules[..j + 1], env).status.Running?
    ensures ApplyRules(t, vmName, i, rules, env) == ApplyRules(t, vmName, i, rules[..j + 1], env)
  {
    ApplyRulesAppend(t, vmName, i, rules[..j + 1], rules[j + 1..], env);
    assert rules[..j + 1] + rules[j + 1..] == rules;
    ApplyRulesHalted(ApplyRules(t, vmName, i, rules[..j + 1], env), vmName, i, rules[j + 1..], env);
  }

  /** Device `i` meets the whole table when it is an Ethernet card, and is passed over otherwise. */
  lemma NextDevice(s: PassState, vmName: string, rules: seq<Rule>, i: nat, env: Env)
    requires WellFormed(s) && i < |s.devices|
    ensures var t := ApplyDevices(s, vmName, rules, i, env);
      ApplyDevices(s, vmName, rules, i + 1, env) == if t.devices[i].kind == EthernetCard then ApplyRules(t, vmName, i, rules, env) else t
  {
  }

  /** The run stops at device `i` during rule `j`: the rest of the VM's pass changes nothing. */
  lemma StoppedAtRule(start: PassState, vmName: string, rules: seq<Rule>, i: nat, j: nat, env: Env)
    requires WellFormed(start) && i < |start.devices| && j < |rules|
    requires ApplyDevices(start, vmName, rules, i, env).devices[i].kind == EthernetCard
    requires !ApplyRules(ApplyDevices(start, vmName, rules, i, env), vmName, i, rules[..j + 1], env).status.Running?
    ensures ApplyDevices(start, vmName, rules, |start.devices|, env)
            == ApplyRules(ApplyDevices(start, vmName, rules, i, env), vmName, i, rules[..j + 1], env)
  {
    var t := ApplyDevices(start, vmName, rules, i, env);
    RulesStopAt(t, vmName, i, rules, j, env);
    NextDevice(start, vmName, rules, i, env);
    ApplyDevicesHalted(start, vmName, rules, i + 1, |start.devices|, env);
  }

  /**
   * One rule against device `i`, as the body of the rule loop does it
   * (change_vms_vif.py:113-161): the source test, then the spec built on the
   * device itself, appended to device_change, and the whole list submitted.
   */
  method TryRule(vmName: string, i: nat, sw: Rule, env: Env,
                 devices0: seq<Device>, deviceChange0: seq<DeviceSpec>, log0: seq<Submission>)
    returns (devices: seq<Device>, deviceChange: seq<DeviceSpec>, status: Status, log: seq<Submission>)
    requires WellFormed(PassState(devices0, deviceChange0, Running, log0)) && i < |devices0|
    ensures PassState(devices, deviceChange, status, log)
            == Step(PassState(devices0, deviceChange0, Running, log0), vmName, i, sw, env)
  {
    devices, deviceChange, status, log := devices0, deviceChange0, Running, log0;
    if !Matches(devices[i], sw) {
      return;
    }
    // the device matches the rule's source: the spec is built on the device itself
    devices := devices[i := devices[i].(wakeOnLan := true)];
    if sw.dstType != Some("dvs") {
      var network := GetObj(env.networks, NetworkName, sw.dstNet);
      devices := devices[i := devices[i].(backing := NetworkBacking(network, sw.dstNet))];
    } else {
      var network := GetObj(env.portgroups, PortgroupName, sw.dstNet);
      if network.None? {
        status := Crashed(PortgroupNotFound(sw.dstNet));
        return;
      }
      devices := devices[i := devices[i].(backing := DvsPort(network.value.switchUuid, network.value.key))];
    }
    devices := devices[i := devices[i].(connectable := Some(ConnectInfo(true, true, None)))];
    assert DestinationBacking(sw, env.networks, env.portgroups) == Success(devices[i].backing);
    assert devices == devices0[i := Edited(devices0[i], devices[i].backing)];
    deviceChange := deviceChange + [DeviceSpec(Edit, i)];
    var config := Resolve(devices, deviceChange);
    var faulted := env.faultAt(|log|);
    log := log + [Submission(vmName, config, faulted)];
    if faulted && env.policy == AbortRun {
      status := Faulted;
    }
  }

  /**
   * The NIC pass of one VM as the scripts run it (change_vms_vif.py:108-161):
   * nested loops over devices and rules, no stop after a match. It stops
   * where the run stops: an uncaught error, or a fault under the abort policy.
   */
  method MigrateVmNics(vm: VirtualMachine, rules: seq<Rule>, env: Env, log0: seq<Submission>)
    returns (devices: seq<Device>, deviceChange: seq<DeviceSpec>, status: Status, log: seq<Submission>)
    ensures PassState(devices, deviceChange, status, log) == ProcessVm(vm, rules, env, log0)
  {
    ghost var start := VmStart(vm, log0);
    devices, deviceChange, status, log := vm.devices, [], Running, log0;
    for i := 0 to |devices|
      invariant |devices| == |vm.devices|
      invariant status == Running
      invariant PassState(devices, deviceChange, status, log) == ApplyDevices(start, vm.name, rules, i, env)
    {
      if devices[i].kind == EthernetCard {
        ghost var before := PassState(devices, deviceChange, status, log);
        for j := 0 to |rules|
          invariant |devices| == |vm.devices|
          invariant status == Running
          invariant PassState(devices, deviceChange, status, log) == ApplyRules(before, vm.name, i, rules[..j], env)
        {
          assert rules[..j + 1][..j] == rules[..j];
          devices, deviceChange, status, log := TryRule(vm.name, i, rules[j], env, devices, deviceChange, log);
          if status != Running {
            StoppedAtRule(start, vm.name, rules, i, j, env);
            return;
          }
        }
        assert rules[..|rules|] == rules;
      }
    }
  }
}
