/** How a script's `main` ends. */
module Outcome {
  import opened Wrappers

  /** The Python errors no handler of the scripts catches; each ends the run with a traceback. */
  datatype Crash =
      /** The search index found no VM for a row, and `vm.config` was read on None. */
    | VmNotFound(instanceUuid: Option<string>)
      /** `get_obj` found no destination port group, and `network.key` was read on None. */
    | PortgroupNotFound(dstNet: Option<string>)
      /** A network-backed NIC had no device name, and `+` was applied to None. */
    | DeviceNameNotString(vmName: string, deviceLabel: string)

  /** `main` returned a code, raised SystemExit, or let an error escape. */
  datatype MainResult = Returned(code: int) | SystemExit(code: int) | Uncaught(crash: Crash)
}
