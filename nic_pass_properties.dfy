/**
 * What the NIC pass promises about one VM: only Ethernet cards are edited,
 * device_change starts empty and grows by one edit spec per match, the
 * k-th submission of the VM carries the k specs gathered so far, every
 * submitted device has wake-on-LAN, start-connected and guest control on,
 * and the latest submission shows every spec's device as it is now.
 */
module NicPassProperties {
  import opened Wrappers
  import opened Vim
  import opened NetworkMap
  import opened Matcher
  import opened NicPass

  /** The facts the pass keeps about the state of a VM whose pass began when the log held `base` submissions. */
  predicate PassInvariant(s: PassState, vm: VirtualMachine, base: nat)
  {
    && |s.devices| == |vm.devices|
    && WellFormed(s)
    // devices keep their kind and key; devices that are not Ethernet cards are not touched
    && (forall d :: 0 <= d < |s.devices| ==> s.devices[d].kind == vm.devices[d].kind && s.devices[d].key == vm.devices[d].key)
    && (forall d :: 0 <= d < |s.devices| && vm.devices[d].kind != EthernetCard ==> s.devices[d] == vm.devices[d])
    // every spec edits an Ethernet card that carries the fixed flags
    && (forall k :: 0 <= k < |s.deviceChange| ==>
          && s.deviceChange[k].operation == Edit
          && vm.devices[s.deviceChange[k].device].kind == EthernetCard
          && ConnectFlagsSet(s.devices[s.deviceChange[k].device]))
    // one submission per spec; the k-th carries the first k specs
    && base <= |s.log| == base + |s.deviceChange|
    && (forall j :: base <= j < |s.log| ==> s.log[j].vmName == vm.name && |s.log[j].deviceChange| == j - base + 1)
    && (forall j, m :: base <= j < |s.log| && 0 <= m < |s.log[j].deviceChange| ==>
          s.log[j].deviceChange[m].operation == Edit && ConnectFlagsSet(s.log[j].deviceChange[m].device))
    && (forall j, m :: base <= j < |s.log| && 0 <= m < |s.log[j].deviceChange| ==>
          s.log[j].deviceChange[m].device.key == vm.devices[s.deviceChange[m].device].key)
    // the latest submission resolves every spec against the devices as they are now
    && (!s.status.Crashed? && |s.deviceChange| > 0 ==> s.log[|s.log| - 1].deviceChange == Resolve(s.devices, s.deviceChange))
  }

  lemma StepKeepsInvariant(s: PassState, vm: VirtualMachine, base: nat, i: nat, r: Rule, env: Env)
    requires PassInvariant(s, vm, base) && i < |s.devices| && vm.devices[i].kind == EthernetCard
    ensures PassInvariant(Step(s, vm.name, i, r, env), vm, base)
  {
    if s.status.Running? && Matches(s.devices[i], r) {
      match DestinationBacking(r, env.networks, env.portgroups)
      case Failure(_) =>
      case Success(backing) =>
        var faulted := env.faultAt(|s.log|);
        var devices := s.devices[i := Edited(s.devices[i], backing)];
        var changes := s.deviceChange + [DeviceSpec(Edit, i)];
        assert Step(s, vm.name, i, r, env) ==
          PassState(devices, changes, if faulted && env.policy == AbortRun then Faulted else Running,
                    s.log + [Submission(vm.name, Resolve(devices, changes), faulted)]);
        EditKeepsInvariant(s, vm, base, i, backing, faulted, if faulted && env.policy == AbortRun then Faulted else Running);
    }
  }

  /** Editing device `i`, appending its spec and submitting the list keeps the invariant, whatever the outcome. */
  lemma EditKeepsInvariant(s: PassState, vm: VirtualMachine, base: nat, i: nat, backing: Backing, faulted: bool, status: Status)
    requires PassInvariant(s, vm, base) && i < |s.devices| && vm.devices[i].kind == EthernetCard
    ensures var devices := s.devices[i := Edited(s.devices[i], backing)];
            var changes := s.deviceChange + [DeviceSpec(Edit, i)];
            PassInvariant(PassState(devices, changes, status, s.log + [Submission(vm.name, Resolve(devices, changes), faulted)]), vm, base)
  {
    var devices := s.devices[i := Edited(s.devices[i], backing)];
    var changes := s.deviceChange + [DeviceSpec(Edit, i)];
    var t := PassState(devices, changes, status, s.log + [Submission(vm.name, Resolve(devices, changes), faulted)]);
    var last := t.log[|t.log| - 1];
    assert last.deviceChange == Resolve(t.devices, t.deviceChange);
    assert forall j :: base <= j < |s.log| ==> t.log[j] == s.log[j];
    assert forall k :: 0 <= k < |s.deviceChange| ==> t.deviceChange[k] == s.deviceChange[k];
  }

  lemma {:induction false} ApplyRulesKeepsInvariant(s: PassState, vm: VirtualMachine, base: nat, i: nat, rules: seq<Rule>, env: Env)
    requires PassInvariant(s, vm, base) && i < |s.devices| && vm.devices[i].kind == EthernetCard
    ensures PassInvariant(ApplyRules(s, vm.name, i, rules, env), vm, base)
    decreases |rules|
  {
    if rules != [] {
      ApplyRulesKeepsInvariant(s, vm, base, i, rules[..|rules| - 1], env);
      StepKeepsInvariant(ApplyRules(s, vm.name, i, rules[..|rules| - 1], env), vm, base, i, rules[|rules| - 1], env);
    }
  }

  lemma {:induction false} ApplyDevicesKeepsInvariant(s: PassState, vm: VirtualMachine, base: nat, rules: seq<Rule>, n: nat, env: Env)
    requires PassInvariant(s, vm, base) && n <= |s.devices|
    ensures PassInvariant(ApplyDevices(s, vm.name, rules, n, env), vm, base)
  {
    var k := 0;
    while k < n
      invariant k <= n && PassInvariant(ApplyDevices(s, vm.name, rules, k, env), vm, base)
    {
      DeviceKeepsInvariant(s, vm, base, rules, k, env);
      k := k + 1;
    }
  }

  /** One turn of the device loop keeps the invariant. */
  lemma DeviceKeepsInvariant(s: PassState, vm: VirtualMachine, base: nat, rules: seq<Rule>, i: nat, env: Env)
    requires WellFormed(s) && i < |s.devices|
    requires PassInvariant(ApplyDevices(s, vm.name, rules, i, env), vm, base)
    ensures PassInvariant(ApplyDevices(s, vm.name, rules, i + 1, env), vm, base)
  {
    var t := ApplyDevices(s, vm.name, rules, i, env);
    NextDevice(s, vm.name, rules, i, env);
    if t.devices[i].kind == EthernetCard {
      ApplyRulesKeepsInvariant(t, vm, base, i, rules, env);
    }
  }

  /**
   * The NIC pass of one VM, whatever the table, the inventory and the
   * faults: only Ethernet cards are edited and other devices are left as
   * they were; device_change holds one edit spec per match; the VM's k-th
   * submission carries exactly the first k specs; every submitted device has
   * wake-on-LAN, start-connected and guest control on; and unless the run
   * crashed, the last submission shows each spec's device as it is at the
   * end, later rewrites included.
   */
  lemma ProcessVmSubmissions(vm: VirtualMachine, rules: seq<Rule>, env: Env, log0: seq<Submission>)
    ensures var s := ProcessVm(vm, rules, env, log0);
      && |s.devices| == |vm.devices|
      && (forall d :: 0 <= d < |vm.devices| && vm.devices[d].kind != EthernetCard ==> s.devices[d] == vm.devices[d])
      && (forall k :: 0 <= k < |s.deviceChange| ==>
            s.deviceChange[k].operation == Edit && s.deviceChange[k].device < |vm.devices|
            && vm.devices[s.deviceChange[k].device].kind == EthernetCard)
      && |s.log| == |log0| + |s.deviceChange|
      && s.log[..|log0|] == log0
      && (forall j :: |log0| <= j < |s.log| ==> s.log[j].vmName == vm.name && |s.log[j].deviceChange| == j - |log0| + 1)
      && (forall j, m :: |log0| <= j < |s.log| && 0 <= m < |s.log[j].deviceChange| ==>
            s.log[j].deviceChange[m].operation == Edit && ConnectFlagsSet(s.log[j].deviceChange[m].device))
      && (forall j, m :: |log0| <= j < |s.log| && 0 <= m < |s.log[j].deviceChange| ==>
            s.log[j].deviceChange[m].device.key == vm.devices[s.deviceChange[m].device].key)
      && (!s.status.Crashed? && |s.deviceChange| > 0 ==>
            forall m :: 0 <= m < |s.deviceChange| ==>
              s.log[|s.log| - 1].deviceChange[m].device == s.devices[s.deviceChange[m].device])
  {
    ApplyDevicesKeepsInvariant(VmStart(vm, log0), vm, |log0|, rules, |vm.devices|, env);
    ProcessVmExtendsLog(vm, rules, env, log0);
    InvariantGives(ProcessVm(vm, rules, env, log0), vm, log0);
  }

  /** What the invariant says about a state whose log extends `log0`, spelled out. */
  lemma InvariantGives(s: PassState, vm: VirtualMachine, log0: seq<Submission>)
    requires PassInvariant(s, vm, |log0|) && s.log[..|log0|] == log0
    ensures
      && |s.devices| == |vm.devices|
      && (forall d :: 0 <= d < |vm.devices| && vm.devices[d].kind != EthernetCard ==> s.devices[d] == vm.devices[d])
      && (forall k :: 0 <= k < |s.deviceChange| ==>
            s.deviceChange[k].operation == Edit && s.deviceChange[k].device < |vm.devices|
            && vm.devices[s.deviceChange[k].device].kind == EthernetCard)
      && |s.log| == |log0| + |s.deviceChange|
      && s.log[..|log0|] == log0
      && (forall j :: |log0| <= j < |s.log| ==> s.log[j].vmName == vm.name && |s.log[j].deviceChange| == j - |log0| + 1)
      && (forall j, m :: |log0| <= j < |s.log| && 0 <= m < |s.log[j].deviceChange| ==>
            s.log[j].deviceChange[m].operation == Edit && ConnectFlagsSet(s.log[j].deviceChange[m].device))
      && (forall j, m :: |log0| <= j < |s.log| && 0 <= m < |s.log[j].deviceChange| ==>
            s.log[j].deviceChange[m].device.key == vm.devices[s.deviceChange[m].device].key)
      && (!s.status.Crashed? && |s.deviceChange| > 0 ==>
            forall m :: 0 <= m < |s.deviceChange| ==>
              s.log[|s.log| - 1].deviceChange[m].device == s.devices[s.deviceChange[m].device])
  {
    if !s.status.Crashed? && |s.deviceChange| > 0 {
      var r := Resolve(s.devices, s.deviceChange);
      assert forall m :: 0 <= m < |s.deviceChange| ==> r[m].device == s.devices[s.deviceChange[m].device];
    }
  }

  /** The pass only appends to the run's log. */
  lemma ProcessVmExtendsLog(vm: VirtualMachine, rules: seq<Rule>, env: Env, log0: seq<Submission>)
    ensures |ProcessVm(vm, rules, env, log0).log| >= |log0|
    ensures ProcessVm(vm, rules, env, log0).log[..|log0|] == log0
  {
    ApplyDevicesExtendsLog(VmStart(vm, log0), vm.name, rules, |vm.devices|, env);
  }

  lemma {:induction false} ApplyDevicesExtendsLog(s: PassState, vmName: string, rules: seq<Rule>, n: nat, env: Env)
    requires WellFormed(s) && n <= |s.devices|
    ensures |ApplyDevices(s, vmName, rules, n, env).log| >= |s.log|
    ensures ApplyDevices(s, vmName, rules, n, env).log[..|s.log|] == s.log
  {
    if n > 0 {
      ApplyDevicesExtendsLog(s, vmName, rules, n - 1, env);
      var t := ApplyDevices(s, vmName, rules, n - 1, env);
      if t.devices[n - 1].kind == EthernetCard {
        ApplyRulesExtendsLog(t, vmName, n - 1, rules, env);
        var u := ApplyRules(t, vmName, n - 1, rules, env);
        assert ApplyDevices(s, vmName, rules, n, env) == u;
        PrefixOfPrefix(s.log, t.log, u.log);
      } else {
        assert ApplyDevices(s, vmName, rules, n, env) == t;
      }
    }
  }

  lemma {:induction false} ApplyRulesExtendsLog(s: PassState, vmName: string, i: nat, rules: seq<Rule>, env: Env)
    requires WellFormed(s) && i < |s.devices|
    ensures |ApplyRules(s, vmName, i, rules, env).log| >= |s.log|
    ensures ApplyRules(s, vmName, i, rules, env).log[..|s.log|] == s.log
    decreases |rules|
  {
    if rules != [] {
      ApplyRulesExtendsLog(s, vmName, i, rules[..|rules| - 1], env);
    }
  }

  lemma PrefixOfPrefix(a: seq<Submission>, b: seq<Submission>, c: seq<Submission>)
    requires |a| <= |b| <= |c| && b[..|a|] == a && c[..|b|] == b
    ensures c[..|a|] == a
  {
    assert c[..|a|] == c[..|b|][..|a|];
  }

  /**
   * Every rule is tested, with no stop after a match, against device `i` as
   * the rules before it left it: after the rules `p`, rule `r` changes
   * nothing when the run has stopped or the card does not match it; a match
   * with a destination edits the card in place, appends exactly one edit
   * spec for it and submits the whole list once; a match whose port group is
   * missing sets wake-on-LAN and crashes the run with nothing submitted.
   */
  lemma NextRule(s: PassState, vmName: string, i: nat, p: seq<Rule>, r: Rule, env: Env)
    requires WellFormed(s) && i < |s.devices|
    ensures var t := ApplyRules(s, vmName, i, p, env);
            var u := ApplyRules(s, vmName, i, p + [r], env);
      && (!t.status.Running? || !Matches(t.devices[i], r) ==> u == t)
      && (t.status.Running? && Matches(t.devices[i], r) ==>
            match DestinationBacking(r, env.networks, env.portgroups)
            case Success(b) =>
              && u.devices == t.devices[i := Edited(t.devices[i], b)]
              && u.deviceChange == t.deviceChange + [DeviceSpec(Edit, i)]
              && u.log == t.log + [Submission(vmName, Resolve(u.devices, u.deviceChange), env.faultAt(|t.log|))]
              && (u.status == Faulted <==> env.faultAt(|t.log|) && env.policy == AbortRun)
              && (u.status != Faulted ==> u.status == Running)
            case Failure(c) =>
              && u.status == Crashed(c)
              && u.devices == t.devices[i := t.devices[i].(wakeOnLan := true)]
              && u.deviceChange == t.deviceChange && u.log == t.log)
  {
    assert (p + [r])[..|p + [r]| - 1] == p;
  }

  /** A table none of whose rules matches device `i` leaves the state as it was. */
  lemma {:induction false} UnmatchedRulesChangeNothing(s: PassState, vmName: string, i: nat, rules: seq<Rule>, env: Env)
    requires WellFormed(s) && i < |s.devices|
    requires forall r :: r in rules ==> !Matches(s.devices[i], r)
    ensures ApplyRules(s, vmName, i, rules, env) == s
    decreases |rules|
  {
    if rules != [] {
      var p := rules[..|rules| - 1];
      assert forall r :: r in p ==> r in rules;
      UnmatchedRulesChangeNothing(s, vmName, i, p, env);
      assert rules[|rules| - 1] in rules;
    }
  }

  /** The rules tested against device `j` leave every other device as it was. */
  lemma {:induction false} ApplyRulesElsewhere(s: PassState, vmName: string, j: nat, rules: seq<Rule>, env: Env, i: nat)
    requires WellFormed(s) && j < |s.devices| && i < |s.devices| && i != j
    ensures ApplyRules(s, vmName, j, rules, env).devices[i] == s.devices[i]
    decreases |rules|
  {
    if rules != [] {
      ApplyRulesElsewhere(s, vmName, j, rules[..|rules| - 1], env, i);
    }
  }

  /** The rules tested against device `j` only append specs of device `j`. */
  lemma {:induction false} ApplyRulesAppendsSpecsOf(s: PassState, vmName: string, j: nat, rules: seq<Rule>, env: Env)
    requires WellFormed(s) && j < |s.devices|
    ensures var u := ApplyRules(s, vmName, j, rules, env);
      && |u.deviceChange| >= |s.deviceChange| && u.deviceChange[..|s.deviceChange|] == s.deviceChange
      && forall k :: |s.deviceChange| <= k < |u.deviceChange| ==> u.deviceChange[k].device == j
    decreases |rules|
  {
    if rules != [] {
      var t := ApplyRules(s, vmName, j, rules[..|rules| - 1], env);
      ApplyRulesAppendsSpecsOf(s, vmName, j, rules[..|rules| - 1], env);
      var u := Step(t, vmName, j, rules[|rules| - 1], env);
      assert u.deviceChange == t.deviceChange || u.deviceChange == t.deviceChange + [DeviceSpec(Edit, j)];
      assert u.deviceChange[..|t.deviceChange|] == t.deviceChange;
      assert u.deviceChange[..|s.deviceChange|] == u.deviceChange[..|t.deviceChange|][..|s.deviceChange|];
    }
  }

  /** Device `i` of `t` is as in `s`, and `t`'s device_change extends `s`'s with specs of other devices only. */
  predicate Untouched(s: PassState, t: PassState, i: nat)
    requires i < |s.devices| && i < |t.devices|
  {
    && t.devices[i] == s.devices[i]
    && |t.deviceChange| >= |s.deviceChange| && t.deviceChange[..|s.deviceChange|] == s.deviceChange
    && forall k :: |s.deviceChange| <= k < |t.deviceChange| ==> t.deviceChange[k].device != i
  }

  /** A device no rule matches keeps its state through the device loop, and no spec names it. */
  lemma {:induction false} UnmatchedCardUntouched(s: PassState, vmName: string, rules: seq<Rule>, n: nat, i: nat, env: Env)
    requires WellFormed(s) && n <= |s.devices| && i < |s.devices|
    requires forall r :: r in rules ==> !Matches(s.devices[i], r)
    ensures Untouched(s, ApplyDevices(s, vmName, rules, n, env), i)
  {
    if n > 0 {
      UnmatchedCardUntouched(s, vmName, rules, n - 1, i, env);
      DeviceKeepsUntouched(s, vmName, rules, n - 1, i, env);
    }
  }

  /** One turn of the device loop keeps a device no rule matches untouched. */
  lemma DeviceKeepsUntouched(s: PassState, vmName: string, rules: seq<Rule>, j: nat, i: nat, env: Env)
    requires WellFormed(s) && j < |s.devices| && i < |s.devices|
    requires forall r :: r in rules ==> !Matches(s.devices[i], r)
    requires Untouched(s, ApplyDevices(s, vmName, rules, j, env), i)
    ensures Untouched(s, ApplyDevices(s, vmName, rules, j + 1, env), i)
  {
    var t := ApplyDevices(s, vmName, rules, j, env);
    NextDevice(s, vmName, rules, j, env);
    if t.devices[j].kind == EthernetCard {
      RulesKeepUntouched(s, t, vmName, j, rules, env, i);
    }
  }

  /** The rules tested against any device keep a device no rule matches untouched. */
  lemma RulesKeepUntouched(s: PassState, t: PassState, vmName: string, j: nat, rules: seq<Rule>, env: Env, i: nat)
    requires WellFormed(t) && j < |t.devices| && i < |t.devices| && i < |s.devices|
    requires Untouched(s, t, i) && forall r :: r in rules ==> !Matches(s.devices[i], r)
    ensures Untouched(s, ApplyRules(t, vmName, j, rules, env), i)
  {
    var u := ApplyRules(t, vmName, j, rules, env);
    if j == i {
      UnmatchedRulesChangeNothing(t, vmName, i, rules, env);
    } else {
      ApplyRulesElsewhere(t, vmName, j, rules, env, i);
      ApplyRulesAppendsSpecsOf(t, vmName, j, rules, env);
      SpecsAfter(s.deviceChange, t.deviceChange, u.deviceChange, i);
    }
  }

  /** Specs appended in two rounds, none of them naming device `i`. */
  lemma SpecsAfter(a: seq<DeviceSpec>, b: seq<DeviceSpec>, c: seq<DeviceSpec>, i: nat)
    requires |a| <= |b| <= |c| && b[..|a|] == a && c[..|b|] == b
    requires forall k :: |a| <= k < |b| ==> b[k].device != i
    requires forall k :: |b| <= k < |c| ==> c[k].device != i
    ensures c[..|a|] == a
    ensures forall k :: |a| <= k < |c| ==> c[k].device != i
  {
    assert c[..|a|] == c[..|b|][..|a|];
    assert forall k :: |a| <= k < |b| ==> c[k] == b[k];
  }

  /**
   * An Ethernet card (or any device) that no rule of the table matches as the
   * pass finds it ends the VM's pass as it was, and no spec of device_change
   * names it: specs come from matches only.
   */
  lemma UnmatchedCardUnchanged(vm: VirtualMachine, rules: seq<Rule>, env: Env, log0: seq<Submission>, i: nat)
    requires i < |vm.devices| && forall r :: r in rules ==> !Matches(vm.devices[i], r)
    ensures var s := ProcessVm(vm, rules, env, log0);
      && s.devices[i] == vm.devices[i]
      && forall k :: 0 <= k < |s.deviceChange| ==> s.deviceChange[k].device != i
  {
    UnmatchedCardUntouched(VmStart(vm, log0), vm.name, rules, |vm.devices|, i, env);
  }
}
