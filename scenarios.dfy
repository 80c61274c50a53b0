/**
 * Worked cases of the NIC pass on one VM with one distributed-port NIC:
 * two chained rules that both fire, a port-group destination that does
 * not exist, and a network destination that does not exist.
 */
module Scenarios {
  import opened Wrappers
  import opened Vim
  import opened PyStr
  import opened Lookup
  import opened NetworkMap
  import opened Outcome
  import opened Matcher
  import opened NicPass

  const legacyNet := Network("LegacyNet", "vim.Network:network-7")
  const newPg := Portgroup("NewPG", "dvportgroup-9", "uuid-2")
  const adapter := Device(EthernetCard, 4000, "Network adapter 1", DvsPort("uuid-1", "pg-42"), false, None)
  const web := VirtualMachine("web01", ["ds1"], [adapter])

  /** Moves the adapter off port group pg-42 of switch uuid-1 to the standard network LegacyNet. */
  const toLegacy := Rule(Some("uuid-1"), Some("pg-42"), Some("dvs"), Some("LegacyNet"), Some("vs"))
  /** Moves "Network adapter 1" off network-7 to the distributed port group NewPG. */
  const toNewPg := Rule(Some("Network adapter 1"), Some("vim.Network:network-7"), Some("vs"), Some("NewPG"), Some("dvs"))

  function NoFaults(n: nat): bool { false }


  const env := Env([legacyNet], [newPg], NoFaults, AbortRun)

  /** The adapter after the first rule, and after both. */
  const onLegacy := Edited(adapter, NetworkBacking(Some(legacyNet), Some("LegacyNet")))
  const onNewPg := Edited(onLegacy, DvsPort("uuid-2", "dvportgroup-9"))

  /** The first rule fires on the adapter as the VM's pass finds it, and submits one spec. */
  lemma FirstRuleFires()
    ensures Step(VmStart(web, []), "web01", 0, toLegacy, env)
         == PassState([onLegacy], [DeviceSpec(Edit, 0)], Running, [Submission("web01", [SpecValue(Edit, onLegacy)], false)])
  {
    var s0 := VmStart(web, []);
    assert s0 == PassState([adapter], [], Running, []);
    assert Matches(adapter, toLegacy);
    LegacyDestination();
    assert [adapter][0 := onLegacy] == [onLegacy];
    assert [] + [DeviceSpec(Edit, 0)] == [DeviceSpec(Edit, 0)];
    assert Resolve([onLegacy], [DeviceSpec(Edit, 0)]) == [SpecValue(Edit, onLegacy)];
    assert env.faultAt(0) == false;
  }

  /** The first rule's destination is the standard network LegacyNet. */
  lemma LegacyDestination()
    ensures DestinationBacking(toLegacy, env.networks, env.portgroups) == Success(NetworkBacking(Some(legacyNet), Some("LegacyNet")))
  {
    assert FirstNamed(env.networks, NetworkName, Some("LegacyNet")) == Some(legacyNet);
  }

  /** The second rule then matches the backing the first gave, and submits both specs. */
  lemma SecondRuleFires()
    ensures var s1 := PassState([onLegacy], [DeviceSpec(Edit, 0)], Running, [Submission("web01", [SpecValue(Edit, onLegacy)], false)]);
      Step(s1, "web01", 0, toNewPg, env)
        == PassState([onNewPg], [DeviceSpec(Edit, 0), DeviceSpec(Edit, 0)], Running,
                     s1.log + [Submission("web01", [SpecValue(Edit, onNewPg), SpecValue(Edit, onNewPg)], false)])
  {
    var s1 := PassState([onLegacy], [DeviceSpec(Edit, 0)], Running, [Submission("web01", [SpecValue(Edit, onLegacy)], false)]);
    SecondRuleMatches();
    NewPgDestination();
    assert [onLegacy][0 := onNewPg] == [onNewPg];
    assert [DeviceSpec(Edit, 0)] + [DeviceSpec(Edit, 0)] == [DeviceSpec(Edit, 0), DeviceSpec(Edit, 0)];
    BothSpecsShowNewPg();
    assert env.faultAt(|s1.log|) == false;
  }

  /** The second rule's destination is the port group NewPG of switch uuid-2. */
  lemma NewPgDestination()
    ensures DestinationBacking(toNewPg, env.networks, env.portgroups) == Success(DvsPort("uuid-2", "dvportgroup-9"))
  {
    assert FirstNamed(env.portgroups, PortgroupName, Some("NewPG")) == Some(newPg);
  }

  /** Two specs sharing the one device both show it as it is at submission. */
  lemma BothSpecsShowNewPg()
    ensures Resolve([onNewPg], [DeviceSpec(Edit, 0), DeviceSpec(Edit, 0)]) == [SpecValue(Edit, onNewPg), SpecValue(Edit, onNewPg)]
  {
    var r := Resolve([onNewPg], [DeviceSpec(Edit, 0), DeviceSpec(Edit, 0)]);
    assert r[0] == SpecValue(Edit, onNewPg) && r[1] == SpecValue(Edit, onNewPg);
  }

  /** The adapter's network backing after the first rule is the second rule's source. */
  lemma SecondRuleMatches()
    ensures Matches(onLegacy, toNewPg)
  {
    StripQuotesOfQuoted(legacyNet.moRef);
    assert NetworkText(onLegacy.backing.network) == "'" + legacyNet.moRef + "'";
  }

  /**
   * No rule wins: the second rule sees the backing the first one gave, so
   * the adapter is moved twice and submitted twice; the second submission
   * carries both specs, and since both share the one device, both show
   * its final backing.
   */
  lemma ChainedRulesBothFire()
    ensures var s := ProcessVm(web, [toLegacy, toNewPg], env, []);
      && s.status == Running
      && s.devices == [onNewPg]
      && s.log == [Submission("web01", [SpecValue(Edit, onLegacy)], false),
                   Submission("web01", [SpecValue(Edit, onNewPg), SpecValue(Edit, onNewPg)], false)]
  {
    var s0 := VmStart(web, []);
    var rules := [toLegacy, toNewPg];
    assert rules[..1] == [toLegacy] && [toLegacy][..0] == [];
    FirstRuleFires();
    SecondRuleFires();
    assert ApplyRules(s0, "web01", 0, [toLegacy], env) == Step(s0, "web01", 0, toLegacy, env);
    assert ApplyDevices(s0, "web01", rules, 0, env) == s0;
    assert ProcessVm(web, rules, env, []) == ApplyRules(s0, "web01", 0, rules, env);
  }

  /** A `dvs` destination naming no port group: the adapter gets wake-on-LAN, nothing is submitted, the run crashes. */
  lemma MissingPortgroupCrashes()
    ensures var s := ProcessVm(web, [toLegacy.(dstNet := Some("Ghost"), dstType := Some("dvs"))], env, []);
      && s.status == Crashed(PortgroupNotFound(Some("Ghost")))
      && s.log == []
      && s.devices == [adapter.(wakeOnLan := true)]
  {
    var r := toLegacy.(dstNet := Some("Ghost"), dstType := Some("dvs"));
    assert [r][..0] == [];
    assert Matches(adapter, r);
    assert DestinationBacking(r, env.networks, env.portgroups) == Failure(PortgroupNotFound(Some("Ghost")));
    var s0 := VmStart(web, []);
    assert ApplyRules(s0, "web01", 0, [r], env) == Step(s0, "web01", 0, r, env);
    assert ApplyDevices(s0, "web01", [r], 0, env) == s0;
    assert ProcessVm(web, [r], env, []) == ApplyRules(s0, "web01", 0, [r], env);
  }

  /** A `vs` destination naming no network: the adapter is submitted with no network and the name as device name. */
  lemma MissingNetworkStoresNone()
    ensures var s := ProcessVm(web, [toLegacy.(dstNet := Some("Nowhere"))], env, []);
      var moved := Edited(adapter, NetworkBacking(None, Some("Nowhere")));
      && s.status == Running
      && s.log == [Submission("web01", [SpecValue(Edit, moved)], false)]
  {
    var r := toLegacy.(dstNet := Some("Nowhere"));
    assert [r][..0] == [];
    assert Matches(adapter, r);
    assert DestinationBacking(r, env.networks, env.portgroups) == Success(NetworkBacking(None, Some("Nowhere")));
    var moved := Edited(adapter, NetworkBacking(None, Some("Nowhere")));
    assert env.faultAt(0) == false;
    assert Resolve([moved], [DeviceSpec(Edit, 0)]) == [SpecValue(Edit, moved)];
    var s0 := VmStart(web, []);
    assert s0 == PassState([adapter], [], Running, []);
    assert [adapter][0 := moved] == [moved];
    assert Step(s0, "web01", 0, r, env) == PassState([moved], [DeviceSpec(Edit, 0)], Running, [Submission("web01", [SpecValue(Edit, moved)], false)]);
    assert ApplyRules(s0, "web01", 0, [r], env) == Step(s0, "web01", 0, r, env);
    assert ApplyDevices(s0, "web01", [r], 0, env) == s0;
    assert ProcessVm(web, [r], env, []) == ApplyRules(s0, "web01", 0, [r], env);
  }
}
