/**
 * The per-rule decisions of the NIC pass: whether a rule's source matches
 * a device's current backing, and which backing the rule's destination
 * gives it.
 */
module Matcher {
  import opened Wrappers
  import opened Vim
  import opened NetworkMap
  import opened PyStr
  import opened Lookup
  import opened Outcome

  /**
   * The source test of one rule against a device, branch for branch: a
   * `dvs` rule against a distributed-port backing compares the switch
   * uuid and the port-group key; a `vs` rule against a network backing
   * compares the device label with the src_dvs_uuid column and the
   * quote-stripped string of the network with the src_dpg_key column;
   * anything else is skipped.
   */
  predicate Matches(d: Device, r: Rule)
  {
    if r.srcType == Some("dvs") && d.backing.DvsPort? then
      Some(d.backing.switchUuid) == r.srcDvsUuid && Some(d.backing.portgroupKey) == r.srcDpgKey
    else if r.srcType == Some("vs") && d.backing.NetworkBacking? then
      Some(d.deviceLabel) == r.srcDvsUuid && Some(StripQuotes(NetworkText(d.backing.network))) == r.srcDpgKey
    else
      false
  }

  /**
   * A rule matches only a backing of its own source type: `dvs` a
   * distributed-port backing with the same switch uuid and port-group key,
   * `vs` a network backing; any other source type, and any other backing,
   * never matches.
   */
  lemma OnlyLikeKindsMatch(d: Device, r: Rule)
    ensures Matches(d, r) && d.backing.DvsPort? <==>
              r.srcType == Some("dvs") && d.backing.DvsPort?
              && r.srcDvsUuid == Some(d.backing.switchUuid) && r.srcDpgKey == Some(d.backing.portgroupKey)
    ensures Matches(d, r) && d.backing.NetworkBacking? ==> r.srcType == Some("vs")
    ensures Matches(d, r) ==> !d.backing.OtherBacking?
    ensures r.srcType != Some("dvs") && r.srcType != Some("vs") ==> !Matches(d, r)
  {
  }

  /**
   * A `vs` rule matches a device attached to a network object exactly when
   * the label is the src_dvs_uuid column and the network's reference is the
   * src_dpg_key column; a device whose network is None matches only the key
   * "None".
   */
  lemma VsMatchIsByReference(d: Device, r: Rule)
    requires r.srcType == Some("vs") && d.backing.NetworkBacking?
    requires d.backing.network.Some? ==> Unquoted(d.backing.network.value.moRef)
    ensures d.backing.network.Some? ==>
              (Matches(d, r) <==> Some(d.deviceLabel) == r.srcDvsUuid && Some(d.backing.network.value.moRef) == r.srcDpgKey)
    ensures d.backing.network.None? ==>
              (Matches(d, r) <==> Some(d.deviceLabel) == r.srcDvsUuid && r.srcDpgKey == Some("None"))
  {
    if d.backing.network.Some? {
      StripQuotesOfQuoted(d.backing.network.value.moRef);
    } else {
      assert StripLeading("None") == "None";
      assert StripTrailing("None") == "None";
    }
  }

  /** The device after the spec edits it: wake-on-LAN on, the new backing, a fresh connect info. */
  function Edited(d: Device, backing: Backing): Device
  {
    d.(wakeOnLan := true, backing := backing, connectable := Some(ConnectInfo(true, true, None)))
  }

  /** The fixed flags every edited device carries. */
  predicate ConnectFlagsSet(d: Device)
  {
    d.wakeOnLan && d.connectable.Some? && d.connectable.value.startConnected && d.connectable.value.allowGuestControl
  }

  /**
   * The backing a matched rule's destination gives: a dst_type other than
   * `dvs` (absent or unrecognised included) looks the destination up among
   * the networks and builds a network backing even when none is found; `dvs`
   * looks it up among the port groups and fails when none is found.
   */
  function DestinationBacking(r: Rule, networks: seq<Network>, portgroups: seq<Portgroup>): (b: Result<Backing, Crash>)
    ensures r.dstType != Some("dvs") ==>
              && b.Success? && b.value.NetworkBacking? && b.value.deviceName == r.dstNet
              && (b.value.network.None? <==> forall k :: 0 <= k < |networks| ==> Some(networks[k].name) != r.dstNet)
              && (b.value.network.Some? ==>
                    exists k :: 0 <= k < |networks| && networks[k] == b.value.network.value && Some(networks[k].name) == r.dstNet
                                && forall m :: 0 <= m < k ==> Some(networks[m].name) != r.dstNet)
    ensures r.dstType == Some("dvs") ==>
              && (b.Failure? <==> forall k :: 0 <= k < |portgroups| ==> Some(portgroups[k].name) != r.dstNet)
              && (b.Failure? ==> b.error == PortgroupNotFound(r.dstNet))
              && (b.Success? ==>
                    exists k :: 0 <= k < |portgroups| && Some(portgroups[k].name) == r.dstNet
                                && b.value == DvsPort(portgroups[k].switchUuid, portgroups[k].key)
                                && forall m :: 0 <= m < k ==> Some(portgroups[m].name) != r.dstNet)
  {
    if r.dstType != Some("dvs") then
      Success(NetworkBacking(FirstNamed(networks, NetworkName, r.dstNet), r.dstNet))
    else
      match FirstNamed(portgroups, PortgroupName, r.dstNet)
      case None => Failure(PortgroupNotFound(r.dstNet))
      case Some(pg) => Success(DvsPort(pg.switchUuid, pg.key))
  }
}
