/**
 * get_all_vms_vif.py: resolve the datacenter and then the cluster by name,
 * and print one comma-separated line per virtual Ethernet card of every VM
 * of the cluster, in enumeration order: `vm,label,dvs,switchUuid,portgroupKey`
 * for a distributed-port backing, `vm,label,vs,deviceName,network` for a
 * network backing, nothing for any other device or backing.
 */
module GetAllVmsVif {
  import opened Wrappers
  import opened Vim
  import opened PyStr
  import opened Lookup
  import opened NetworkMap
  import opened Outcome
  import opened Matcher

  /** What one device gives: no line, a line, or the TypeError of `+` on a None device name. */
  datatype LineOutcome = NoLine | Line(text: string) | DeviceNameNone

  /** The printed concatenation: VM name, label, the kind tag with its comma, and two more fields. */
  function LineText(vmName: string, deviceLabel: string, tag: string, x: string, y: string): string
  {
    vmName + "," + deviceLabel + "," + tag + x + "," + y
  }

  /** The line printed for one device of VM `vmName`. */
  function NicLine(vmName: string, d: Device): LineOutcome
  {
    if d.kind != EthernetCard then NoLine
    else
      match d.backing
      case DvsPort(switchUuid, portgroupKey) =>
        Line(LineText(vmName, d.deviceLabel, "dvs,", switchUuid, portgroupKey))
      case NetworkBacking(network, deviceName) =>
        var net := StripQuotes(NetworkText(network));
        if deviceName.None? then DeviceNameNone
        else Line(LineText(vmName, d.deviceLabel, "vs,", deviceName.value, net))
      case OtherBacking => NoLine
  }

  /** Lines printed so far, and the error that ended the listing, if any. */
  datatype Listing = Listing(lines: seq<string>, crash: Option<Crash>)

  /** The listing after one more device. */
  function AddDevice(acc: Listing, vmName: string, d: Device): Listing
  {
    if acc.crash.Some? then acc
    else
      match NicLine(vmName, d)
      case NoLine => acc
      case Line(text) => acc.(lines := acc.lines + [text])
      case DeviceNameNone => acc.(crash := Some(DeviceNameNotString(vmName, d.deviceLabel)))
  }

  /** The listing after the first `n` devices of `vm`. */
  function VmLines(acc: Listing, vm: VirtualMachine, n: nat): Listing
    requires n <= |vm.devices|
  {
    if n == 0 then acc else AddDevice(VmLines(acc, vm, n - 1), vm.name, vm.devices[n - 1])
  }

  /** The listing of the VMs of a cluster, in order. */
  function ClusterLines(vms: seq<VirtualMachine>): Listing
    decreases |vms|
  {
    if vms == [] then Listing([], None)
    else
      var vm := vms[|vms| - 1];
      VmLines(ClusterLines(vms[..|vms| - 1]), vm, |vm.devices|)
  }

  /** What `main` reports and prints, from the inventory and the two names on. */
  function ListRun(inv: Inventory, dcName: string, clusterName: string): (MainResult, seq<string>)
  {
    match FirstNamed(inv.datacenters, DatacenterName, Some(dcName))
    case None => (SystemExit(-1), [])
    case Some(dc) =>
      match FirstNamed(dc.computeResources, ComputeResourceName, Some(clusterName))
      case None => (SystemExit(-1), [])
      case Some(cluster) =>
        var l := ClusterLines(cluster.vms);
        (if l.crash.Some? then Uncaught(l.crash.value) else Returned(0), l.lines)
  }

  /**
   * `main` of get_all_vms_vif.py from the inventory on: returns what it
   * reports and the lines it prints, in order.
   */
  method ListNics(inv: Inventory, dcName: string, clusterName: string) returns (result: MainResult, lines: seq<string>)
    ensures (result, lines) == ListRun(inv, dcName, clusterName)
  {
    var datacenter := GetObj(inv.datacenters, DatacenterName, Some(dcName));
    if datacenter.None? {
      return SystemExit(-1), [];
    }
    var cluster := GetObj(datacenter.value.computeResources, ComputeResourceName, Some(clusterName));
    if cluster.None? {
      return SystemExit(-1), [];
    }
    var crash;
    crash, lines := ListCluster(cluster.value.vms);
    result := if crash.Some? then Uncaught(crash.value) else Returned(0);
  }

  /**
   * The loops of get_all_vms_vif.py:133-150: every device of every VM of
   * the cluster in order, printing each line; the TypeError of a None device
   * name ends the listing.
   */
  method ListCluster(vms: seq<VirtualMachine>) returns (crash: Option<Crash>, lines: seq<string>)
    ensures Listing(lines, crash) == ClusterLines(vms)
  {
    lines := [];
    for v := 0 to |vms|
      invariant ClusterLines(vms[..v]) == Listing(lines, None)
    {
      var vm := vms[v];
      for d := 0 to |vm.devices|
        invariant VmLines(ClusterLines(vms[..v]), vm, d) == Listing(lines, None)
      {
        var line := DeviceLine(vm.name, vm.devices[d]);
        match line {
          case NoLine =>
          case Line(text) =>
            lines := lines + [text];
          case DeviceNameNone =>
            ListingStops(vms, v, d);
            return Some(DeviceNameNotString(vm.name, vm.devices[d].deviceLabel)), lines;
        }
      }
      ClusterLinesOfPrefix(vms, v);
    }
    assert vms[..|vms|] == vms;
    crash := None;
  }

  /**
   * The body of the device loop of get_all_vms_vif.py for one device: the
   * line of an Ethernet card, by its backing, or the TypeError of a None
   * device name.
   */
  method DeviceLine(vmName: string, device: Device) returns (line: LineOutcome)
    ensures line == NicLine(vmName, device)
  {
    line := NoLine;
    if device.kind == EthernetCard {
      match device.backing {
        case DvsPort(switchUuid, portgroupKey) =>
          line := Line(LineText(vmName, device.deviceLabel, "dvs,", switchUuid, portgroupKey));
        case NetworkBacking(network, deviceName) =>
          var net := StripQuotes(NetworkText(network));
          if deviceName.None? {
            return DeviceNameNone;
          }
          line := Line(LineText(vmName, device.deviceLabel, "vs,", deviceName.value, net));
        case OtherBacking =>
      }
    }
  }

  /** A listing that has stopped stays as it is. */
  lemma {:induction false} VmLinesStopped(acc: Listing, vm: VirtualMachine, n: nat)
    requires n <= |vm.devices| && acc.crash.Some?
    ensures VmLines(acc, vm, n) == acc
  {
    if n > 0 {
      VmLinesStopped(acc, vm, n - 1);
    }
  }

  /** Devices after the one that stopped the listing change nothing. */
  lemma {:induction false} VmLinesStoppedAt(acc: Listing, vm: VirtualMachine, m: nat, n: nat)
    requires m <= n <= |vm.devices| && VmLines(acc, vm, m).crash.Some?
    ensures VmLines(acc, vm, n) == VmLines(acc, vm, m)
    decreases n
  {
    if n > m {
      VmLinesStoppedAt(acc, vm, m, n - 1);
    }
  }

  /** VMs after the one that stopped the listing change nothing. */
  lemma {:induction false} ClusterLinesStoppedAt(vms: seq<VirtualMachine>, m: nat)
    requires m <= |vms| && ClusterLines(vms[..m]).crash.Some?
    ensures ClusterLines(vms) == ClusterLines(vms[..m])
    decreases |vms|
  {
    if m < |vms| {
      assert vms[..|vms| - 1][..m] == vms[..m];
      ClusterLinesStoppedAt(vms[..|vms| - 1], m);
      var vm := vms[|vms| - 1];
      VmLinesStopped(ClusterLines(vms[..|vms| - 1]), vm, |vm.devices|);
    } else {
      assert vms[..m] == vms;
    }
  }

  /** The TypeError at device `d` ends the VM's part of the listing with the lines printed before it. */
  lemma VmListingStops(acc: Listing, vm: VirtualMachine, d: nat)
    requires d < |vm.devices| && NicLine(vm.name, vm.devices[d]) == DeviceNameNone
    ensures VmLines(acc, vm, d).crash.None? ==>
              VmLines(acc, vm, |vm.devices|) == Listing(VmLines(acc, vm, d).lines, Some(DeviceNameNotString(vm.name, vm.devices[d].deviceLabel)))
  {
    var prev := VmLines(acc, vm, d);
    if prev.crash.None? {
      var stopped := Listing(prev.lines, Some(DeviceNameNotString(vm.name, vm.devices[d].deviceLabel)));
      assert AddDevice(prev, vm.name, vm.devices[d]) == stopped;
      assert VmLines(acc, vm, d + 1) == stopped;
      VmLinesStoppedAt(acc, vm, d + 1, |vm.devices|);
    }
  }

  /** The TypeError at device `d` of VM `v` ends the listing with the lines printed before it. */
  lemma ListingStops(vms: seq<VirtualMachine>, v: nat, d: nat)
    requires v < |vms| && d < |vms[v].devices| && NicLine(vms[v].name, vms[v].devices[d]) == DeviceNameNone
    ensures VmLines(ClusterLines(vms[..v]), vms[v], d).crash.None? ==>
            ClusterLines(vms) == Listing(VmLines(ClusterLines(vms[..v]), vms[v], d).lines,
                                         Some(DeviceNameNotString(vms[v].name, vms[v].devices[d].deviceLabel)))
  {
    if VmLines(ClusterLines(vms[..v]), vms[v], d).crash.None? {
      VmListingStops(ClusterLines(vms[..v]), vms[v], d);
      ClusterLinesOfPrefix(vms, v);
      ClusterLinesStoppedAt(vms, v + 1);
    }
  }

  /** The listing of the first `v + 1` VMs is that of the first `v` followed by VM `v`. */
  lemma ClusterLinesOfPrefix(vms: seq<VirtualMachine>, v: nat)
    requires v < |vms|
    ensures ClusterLines(vms[..v + 1]) == VmLines(ClusterLines(vms[..v]), vms[v], |vms[v].devices|)
  {
    assert vms[..v + 1][..v] == vms[..v];
  }

  /** The lines one device contributes to the listing: none or one. */
  function LinesOf(o: LineOutcome): (lines: seq<string>)
    ensures |lines| <= 1
    ensures |lines| == 1 <==> o.Line?
  {
    if o.Line? then [o.text] else []
  }

  /** The lines of a VM's devices, device by device from the first. */
  function NicLines(vmName: string, devices: seq<Device>): seq<string>
  {
    if devices == [] then [] else LinesOf(NicLine(vmName, devices[0])) + NicLines(vmName, devices[1..])
  }

  /** The lines of a cluster's VMs, VM by VM from the first. */
  function AllLines(vms: seq<VirtualMachine>): seq<string>
  {
    if vms == [] then [] else NicLines(vms[0].name, vms[0].devices) + AllLines(vms[1..])
  }

  lemma {:induction false} NicLinesAppend(vmName: string, devices: seq<Device>, d: Device)
    ensures NicLines(vmName, devices + [d]) == NicLines(vmName, devices) + LinesOf(NicLine(vmName, d))
    decreases |devices|
  {
    if devices == [] {
      assert [d][1..] == [];
    } else {
      assert (devices + [d])[1..] == devices[1..] + [d];
      NicLinesAppend(vmName, devices[1..], d);
    }
  }

  lemma {:induction false} AllLinesAppend(vms: seq<VirtualMachine>, vm: VirtualMachine)
    ensures AllLines(vms + [vm]) == AllLines(vms) + NicLines(vm.name, vm.devices)
    decreases |vms|
  {
    if vms == [] {
      assert [vm][1..] == [];
    } else {
      assert (vms + [vm])[1..] == vms[1..] + [vm];
      AllLinesAppend(vms[1..], vm);
    }
  }

  /** One more device adds its line, or stops the listing, or does nothing. */
  lemma AddDeviceLines(acc: Listing, vmName: string, d: Device)
    ensures AddDevice(acc, vmName, d).lines <= acc.lines + LinesOf(NicLine(vmName, d))
    ensures acc.crash.None? && AddDevice(acc, vmName, d).crash.None? ==>
              AddDevice(acc, vmName, d).lines == acc.lines + LinesOf(NicLine(vmName, d))
  {
  }

  /** A VM's part of the listing is its devices' lines in device order, cut short by the TypeError. */
  lemma {:induction false} VmLinesInDeviceOrder(acc: Listing, vm: VirtualMachine, n: nat)
    requires n <= |vm.devices|
    ensures VmLines(acc, vm, n).lines <= acc.lines + NicLines(vm.name, vm.devices[..n])
    ensures acc.crash.None? && VmLines(acc, vm, n).crash.None? ==>
              VmLines(acc, vm, n).lines == acc.lines + NicLines(vm.name, vm.devices[..n])
  {
    if n == 0 {
      assert vm.devices[..0] == [];
    } else if acc.crash.Some? {
      VmLinesStopped(acc, vm, n);
    } else {
      VmLinesInDeviceOrder(acc, vm, n - 1);
      var prev := VmLines(acc, vm, n - 1);
      var dev := vm.devices[n - 1];
      assert VmLines(acc, vm, n) == AddDevice(prev, vm.name, dev);
      assert vm.devices[..n] == vm.devices[..n - 1] + [dev];
      NicLinesAppend(vm.name, vm.devices[..n - 1], dev);
      AddDeviceInOrder(acc, prev, vm.name, dev, NicLines(vm.name, vm.devices[..n - 1]));
    }
  }

  /** One more device keeps what was printed a prefix of the lines so far followed by the device's own. */
  lemma AddDeviceInOrder(acc: Listing, prev: Listing, vmName: string, dev: Device, before: seq<string>)
    requires acc.crash.None?
    requires prev.lines <= acc.lines + before
    requires prev.crash.None? ==> prev.lines == acc.lines + before
    ensures AddDevice(prev, vmName, dev).lines <= acc.lines + (before + LinesOf(NicLine(vmName, dev)))
    ensures AddDevice(prev, vmName, dev).crash.None? ==>
              AddDevice(prev, vmName, dev).lines == acc.lines + (before + LinesOf(NicLine(vmName, dev)))
  {
    var next := AddDevice(prev, vmName, dev);
    AddDeviceLines(prev, vmName, dev);
    if prev.crash.Some? {
      assert next == prev;
    }
    PrefixThenPiece(prev.lines, acc.lines, before, LinesOf(NicLine(vmName, dev)), next.lines);
  }

  /** Either `p` is all of `a + b` and `q` a prefix of `p + c`, or `q` is `p` itself: either way `q` is a prefix of `a + b + c`. */
  lemma PrefixThenPiece(p: seq<string>, a: seq<string>, b: seq<string>, c: seq<string>, q: seq<string>)
    requires p <= a + b && q <= p + c && (p == a + b || q == p)
    ensures q <= a + (b + c)
    ensures p == a + b && q == p + c ==> q == a + (b + c)
  {
    assert a + (b + c) == (a + b) + c;
    if q == p {
      assert forall k :: 0 <= k < |p| ==> p[k] == (a + b)[k] == ((a + b) + c)[k];
    }
  }

  /**
   * The listing prints the NIC lines of the VMs in enumeration order and of
   * each VM's devices in device order, each NIC at most once; a TypeError
   * cuts it short, so what was printed is always a prefix of the full listing.
   */
  lemma {:induction false} ListingInEnumerationOrder(vms: seq<VirtualMachine>)
    ensures ClusterLines(vms).lines <= AllLines(vms)
    ensures ClusterLines(vms).crash.None? ==> ClusterLines(vms).lines == AllLines(vms)
    decreases |vms|
  {
    if vms != [] {
      var pre := vms[..|vms| - 1];
      var vm := vms[|vms| - 1];
      ListingInEnumerationOrder(pre);
      assert vms == pre + [vm];
      AllLinesAppend(pre, vm);
      assert vm.devices[..|vm.devices|] == vm.devices;
      VmLinesInDeviceOrder(ClusterLines(pre), vm, |vm.devices|);
      if ClusterLines(pre).crash.Some? {
        VmLinesStopped(ClusterLines(pre), vm, |vm.devices|);
      }
    }
  }

  /**
   * A distributed-port NIC's line reads back as VM name, label, "dvs", the
   * switch uuid and the port-group KEY (not its name), when none of them
   * holds a comma.
   */
  lemma DvsLineFields(vmName: string, d: Device)
    requires d.kind == EthernetCard && d.backing.DvsPort?
    requires ',' !in vmName && ',' !in d.deviceLabel
    requires ',' !in d.backing.switchUuid && ',' !in d.backing.portgroupKey
    ensures NicLine(vmName, d).Line?
    ensures Split(NicLine(vmName, d).text) == [vmName, d.deviceLabel, "dvs", d.backing.switchUuid, d.backing.portgroupKey]
  {
    LineTextFields(vmName, d.deviceLabel, "dvs", "dvs,", d.backing.switchUuid, d.backing.portgroupKey);
  }

  /**
   * A network-backed NIC's line reads back as VM name, label, "vs", the
   * device name and the quote-stripped network string, when none of them
   * holds a comma.
   */
  lemma VsLineFields(vmName: string, d: Device)
    requires d.kind == EthernetCard && d.backing.NetworkBacking? && d.backing.deviceName.Some?
    requires ',' !in vmName && ',' !in d.deviceLabel
    requires ',' !in d.backing.deviceName.value && ',' !in StripQuotes(NetworkText(d.backing.network))
    ensures NicLine(vmName, d).Line?
    ensures Split(NicLine(vmName, d).text) ==
              [vmName, d.deviceLabel, "vs", d.backing.deviceName.value, StripQuotes(NetworkText(d.backing.network))]
  {
    LineTextFields(vmName, d.deviceLabel, "vs", "vs,", d.backing.deviceName.value, StripQuotes(NetworkText(d.backing.network)));
  }

  /**
   * Whatever the later fields hold, the third field of a printed line is
   * "dvs" for a distributed-port NIC and "vs" for a network-backed one,
   * when the VM name and the label hold no comma.
   */
  lemma KindField(vmName: string, d: Device)
    requires NicLine(vmName, d).Line?
    requires ',' !in vmName && ',' !in d.deviceLabel
    ensures var f := Split(NicLine(vmName, d).text);
      && |f| >= 4 && f[..2] == [vmName, d.deviceLabel]
      && (d.backing.DvsPort? ==> f[2] == "dvs")
      && (d.backing.NetworkBacking? ==> f[2] == "vs")
  {
    assert d.kind == EthernetCard;
    if d.backing.DvsPort? {
      DvsKindField(vmName, d);
    } else {
      assert d.backing.NetworkBacking? && d.backing.deviceName.Some?;
      VsKindField(vmName, d);
    }
  }

  lemma DvsKindField(vmName: string, d: Device)
    requires d.kind == EthernetCard && d.backing.DvsPort?
    requires ',' !in vmName && ',' !in d.deviceLabel
    ensures NicLine(vmName, d).Line?
    ensures var f := Split(NicLine(vmName, d).text); |f| >= 4 && f[..2] == [vmName, d.deviceLabel] && f[2] == "dvs"
  {
    LeadingFields(vmName, d.deviceLabel, "dvs", "dvs,", d.backing.switchUuid, d.backing.portgroupKey);
  }

  lemma VsKindField(vmName: string, d: Device)
    requires d.kind == EthernetCard && d.backing.NetworkBacking? && d.backing.deviceName.Some?
    requires ',' !in vmName && ',' !in d.deviceLabel
    ensures NicLine(vmName, d).Line?
    ensures var f := Split(NicLine(vmName, d).text); |f| >= 4 && f[..2] == [vmName, d.deviceLabel] && f[2] == "vs"
  {
    var net := StripQuotes(NetworkText(d.backing.network));
    var text := LineText(vmName, d.deviceLabel, "vs,", d.backing.deviceName.value, net);
    assert NicLine(vmName, d) == Line(text);
    LeadingFields(vmName, d.deviceLabel, "vs", "vs,", d.backing.deviceName.value, net);
  }

  /** A printed line, its kind tag carrying its own comma, reads back its first three fields. */
  lemma LeadingFields(a: string, b: string, kind: string, tag: string, x: string, y: string)
    requires ',' !in a && ',' !in b && ',' !in kind && tag == kind + ","
    ensures var f := Split(LineText(a, b, tag, x, y)); |f| >= 4 && f[..2] == [a, b] && f[2] == kind
  {
    LineTextIsJoin(a, b, kind, tag, x, y);
    SplitLeadingFields(a, b, kind, x, y);
  }

  /** A printed line of comma-free fields reads back as its five fields. */
  lemma LineTextFields(a: string, b: string, kind: string, tag: string, x: string, y: string)
    requires ',' !in a && ',' !in b && ',' !in kind && tag == kind + ","
    requires ',' !in x && ',' !in y
    ensures Split(LineText(a, b, tag, x, y)) == [a, b, kind, x, y]
  {
    LineTextIsJoin(a, b, kind, tag, x, y);
    SplitJoin([a, b, kind, x, y]);
  }

  /** The printed concatenation is the five fields joined by commas. */
  lemma LineTextIsJoin(a: string, b: string, kind: string, tag: string, x: string, y: string)
    requires tag == kind + ","
    ensures LineText(a, b, tag, x, y) == Join([a, b, kind, x, y])
  {
    var head := a + "," + b + ",";
    assert head + tag == head + kind + ",";
    assert [a, b, kind, x, y][1..] == [b, kind, x, y];
    assert [b, kind, x, y][1..] == [kind, x, y];
    assert [kind, x, y][1..] == [x, y];
    assert [x, y][1..] == [y];
    assert Join([x, y]) == x + "," + y;
    assert Join([kind, x, y]) == kind + "," + (x + "," + y);
    assert Join([b, kind, x, y]) == b + "," + (kind + "," + (x + "," + y));
  }

  /** The first three of five joined fields read back when they hold no comma, whatever the last two hold. */
  lemma SplitLeadingFields(a: string, b: string, c: string, x: string, y: string)
    requires ',' !in a && ',' !in b && ',' !in c
    ensures var f := Split(Join([a, b, c, x, y])); |f| >= 4 && f[..2] == [a, b] && f[2] == c
  {
    assert [a, b, c, x, y][1..] == [b, c, x, y];
    assert [b, c, x, y][1..] == [c, x, y];
    assert [c, x, y][1..] == [x, y];
    SplitFirstField(c, Join([x, y]));
    SplitFirstField(b, Join([c, x, y]));
    SplitFirstField(a, Join([b, c, x, y]));
  }

  /**
   * Fed back as a rule source, a distributed-port NIC's line (fields 4, 5
   * and 3 as src_dvs_uuid, src_dpg_key and src_type) matches that NIC.
   */
  lemma ListedDvsNicMatches(vmName: string, d: Device, dstNet: Option<string>, dstType: Option<string>)
    requires d.kind == EthernetCard && d.backing.DvsPort?
    requires ',' !in vmName && ',' !in d.deviceLabel
    requires ',' !in d.backing.switchUuid && ',' !in d.backing.portgroupKey
    ensures var f := Split(NicLine(vmName, d).text);
      |f| == 5 && Matches(d, Rule(Some(f[3]), Some(f[4]), Some(f[2]), dstNet, dstType))
  {
    DvsLineFields(vmName, d);
  }

  /**
   * For a network-backed NIC the line cannot be fed back the same way: the
   * matcher compares the LABEL (field 2) with src_dvs_uuid, so fields 2, 5
   * and 3 match the NIC, while fields 4, 5 and 3 match it only when the
   * device name equals the label.
   */
  lemma ListedVsNicMatches(vmName: string, d: Device, dstNet: Option<string>, dstType: Option<string>)
    requires d.kind == EthernetCard && d.backing.NetworkBacking? && d.backing.deviceName.Some?
    requires ',' !in vmName && ',' !in d.deviceLabel
    requires ',' !in d.backing.deviceName.value && ',' !in StripQuotes(NetworkText(d.backing.network))
    ensures var f := Split(NicLine(vmName, d).text);
      && |f| == 5
      && Matches(d, Rule(Some(f[1]), Some(f[4]), Some(f[2]), dstNet, dstType))
      && (Matches(d, Rule(Some(f[3]), Some(f[4]), Some(f[2]), dstNet, dstType)) <==> d.backing.deviceName == Some(d.deviceLabel))
  {
    VsLineFields(vmName, d);
  }

  /** Only Ethernet cards print, and only with a distributed-port backing or a named network backing. */
  lemma OnlyEthernetCardsPrint(vmName: string, d: Device)
    ensures NicLine(vmName, d).Line? <==>
              d.kind == EthernetCard && (d.backing.DvsPort? || (d.backing.NetworkBacking? && d.backing.deviceName.Some?))
    ensures NicLine(vmName, d).DeviceNameNone? <==>
              d.kind == EthernetCard && d.backing.NetworkBacking? && d.backing.deviceName.None?
  {
  }

  /**
   * A datacenter or cluster name that is not found ends the listing with
   * SystemExit(-1) before any line; otherwise what is printed is a prefix
   * of the full listing of the named cluster, all of it when `main` returns.
   */
  lemma ListRunOutcome(inv: Inventory, dcName: string, clusterName: string)
    ensures (forall k :: 0 <= k < |inv.datacenters| ==> inv.datacenters[k].name != dcName) ==>
              ListRun(inv, dcName, clusterName) == (SystemExit(-1), [])
    ensures forall i :: IsFirstNamed(inv.datacenters, DatacenterName, i, dcName) &&
                        (forall j :: 0 <= j < |inv.datacenters[i].computeResources| ==>
                                       inv.datacenters[i].computeResources[j].name != clusterName) ==>
              ListRun(inv, dcName, clusterName) == (SystemExit(-1), [])
    ensures ListRun(inv, dcName, clusterName).0 == SystemExit(-1) ==> ListRun(inv, dcName, clusterName).1 == []
    ensures ListRun(inv, dcName, clusterName).0 != SystemExit(-1) ==>
              exists i, j :: && IsFirstNamed(inv.datacenters, DatacenterName, i, dcName)
                             && IsFirstNamed(inv.datacenters[i].computeResources, ComputeResourceName, j, clusterName)
                             && var vms := inv.datacenters[i].computeResources[j].vms;
                                && ListRun(inv, dcName, clusterName).1 <= AllLines(vms)
                                && (ListRun(inv, dcName, clusterName).0 == Returned(0) ==>
                                      ListRun(inv, dcName, clusterName).1 == AllLines(vms))
  {
    FirstNamedIsFirst(inv.datacenters, DatacenterName, dcName);
    match FirstNamed(inv.datacenters, DatacenterName, Some(dcName))
    case None =>
    case Some(dc) =>
      FirstNamedIsFirst(dc.computeResources, ComputeResourceName, clusterName);
      match FirstNamed(dc.computeResources, ComputeResourceName, Some(clusterName))
      case None =>
      case Some(cr) =>
        ListingInEnumerationOrder(cr.vms);
  }
}
