/**
 * The management-plane objects the NIC scripts read and edit: virtual
 * devices and their backings, networks, distributed port groups, virtual
 * machines, compute resources and datacenters. Only the attributes the
 * scripts look at are kept.
 */
module Vim {
  import opened Wrappers

  /** Whether a virtual device is a virtual Ethernet card (any of its subclasses) or not. */
  datatype DeviceKind = EthernetCard | OtherDevice

  /**
   * A standard network object. `moRef` is its managed-object reference as
   * pyVmomi prints it without quotes, such as "vim.Network:network-13".
   */
  datatype Network = Network(name: string, moRef: string)

  /** A distributed virtual port group: its key and the uuid of its switch. */
  datatype Portgroup = Portgroup(name: string, key: string, switchUuid: string)

  /**
   * The backing of a device: a distributed-port backing (switch uuid and
   * port-group key of its port connection), a network backing (the network
   * object, possibly None, and the device name, possibly None), or another
   * kind of backing.
   */
  datatype Backing =
    | DvsPort(switchUuid: string, portgroupKey: string)
    | NetworkBacking(network: Option<Network>, deviceName: Option<string>)
    | OtherBacking

  /** A device's connect information; `connected` is None when unset. */
  datatype ConnectInfo = ConnectInfo(startConnected: bool, allowGuestControl: bool, connected: Option<bool>)

  /** A virtual device of a VM's hardware list. */
  datatype Device = Device(
    kind: DeviceKind,
    key: int,
    deviceLabel: string,
    backing: Backing,
    wakeOnLan: bool,
    connectable: Option<ConnectInfo>)

  datatype VirtualMachine = VirtualMachine(name: string, datastores: seq<string>, devices: seq<Device>)

  /** A compute resource (a cluster) and the VMs its view enumerates, in order. */
  datatype ComputeResource = ComputeResource(name: string, vms: seq<VirtualMachine>)

  /** A datacenter and the compute resources its recursive view enumerates, in order. */
  datatype Datacenter = Datacenter(name: string, computeResources: seq<ComputeResource>)

  /** The root-folder views the scripts enumerate. */
  datatype Inventory = Inventory(datacenters: seq<Datacenter>, networks: seq<Network>, portgroups: seq<Portgroup>)

  function DatacenterName(dc: Datacenter): string { dc.name }
  function ComputeResourceName(cr: ComputeResource): string { cr.name }
  function NetworkName(n: Network): string { n.name }
  function PortgroupName(pg: Portgroup): string { pg.name }

  /**
   * Python's `str()` of a backing's network: a managed object prints as its
   * reference between single quotes, and None prints as "None".
   */
  function NetworkText(n: Option<Network>): string
  {
    match n
    case None => "None"
    case Some(net) => "'" + net.moRef + "'"
  }
}
