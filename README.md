# Virtual-NIC network migration, modelled in Dafny

This project models the network-migration scripts of the `genegr-samples`
vSphere tool set. Three scripts are covered:

- `change_vms_vif.py` reads a VM list and a network map. It finds each VM by
  its instance uuid and runs the NIC pass on it.
- `change_vms_on_datastore_vif.py` resolves a datacenter and then a cluster
  by name. It runs the same NIC pass on every VM of the cluster.
- `get_all_vms_vif.py` prints one comma-separated line per virtual Ethernet
  card of a cluster.

The NIC pass works the same way in both migration scripts:

- It walks the VM's devices in order and keeps the virtual Ethernet cards.
- It tests every network-map rule in table order against the card's
  *current* backing.
- On a match it edits the card in place: wake-on-LAN, the new backing, and a
  fresh connect info with start-connected and guest control on.
- It then appends an `edit` spec that shares the device to the VM's
  `device_change` list, and submits the whole list as one reconfigure task.
- There is no stop after a match. A later rule sees the backing an earlier
  rule gave, and one card can be edited and submitted several times.

Modules, one per concern:

- `Vim`: the inventory objects (devices, backings, networks, port groups,
  VMs, clusters, datacenters) and Python's `str()` of a backing's network.
- `PyStr`: `str.strip("'")`, and splitting printed lines back into fields.
- `Lookup`: `get_obj` and the found-variable lookup loops.
- `NetworkMap`: network-map and VM-list rows read as `csv.DictReader` reads
  them.
- `Matcher`: the source test and the destination backing.
- `NicPass` and `NicPassProperties`: the per-VM pass and what it promises.
- `ChangeVmsVif` and `ChangeVmsOnDatastoreVif`: the two migration runs.
- `FaultPolicy`: what a faulted reconfigure does to each run.
- `GetAllVmsVif`: the NIC listing.
- `Scenarios`: worked cases.

Each imperative part of the scripts is a `method` proved equal to a
specification function, and the properties are proved as lemmas about those
functions. The parts are the search loops, the nested device/rule loops and
the listing loops.

## Modelling decisions

- **Aliasing.** `nicspec.device = device` makes the spec share the device. A
  `DeviceSpec` therefore holds the device's position in the VM's device list.
  A submission carries every spec resolved against the list at the moment it
  is submitted (`NicPass.Resolve`). So an earlier spec in a later submission
  shows the device's latest backing.
- **Reconfigure tasks.** Submissions are recorded in an out-parameter log.
  Each entry holds the VM name, the device changes as sent, and whether the
  task faulted. Which tasks fault is a parameter: `faultAt(n)` says whether
  the n-th submission of the run faults.
- **Fault policy.** In `change_vms_vif.py` the fault reaches the top-level
  `except vmodl.MethodFault` and `main` returns -1. In
  `change_vms_on_datastore_vif.py` it is caught around the call and the run
  goes on.
- **Errors the scripts do not catch** end the run as `Uncaught`:
  - a VM-list uuid with no VM (`None.config`);
  - a `dvs` destination with no port group (`None.key`), raised after
    wake-on-LAN was already set;
  - a listed network backing whose device name is None (`+` on None).
- **`str()` of a network.** A managed object prints as its reference between
  single quotes, such as `'vim.Network:network-7'`, and None prints as
  `None`. So the `vs` test compares the reference with `src_dpg_key`
  (`Matcher.VsMatchIsByReference`).
- **What the code does, as the model states it:**
  - The first matching rule does not win. Every rule is tested
    (`NicPassProperties.NextRule`).
  - Rule rows are not validated.
  - A missing `dvs` destination crashes, while a missing `vs` destination
    silently stores a None network.
  - The list-driven script aborts the whole run on a fault, while the
    datastore script continues.
  - The datastore test filters nothing. Its `continue` only moves on to the
    VM's next datastore, so the model's run does not depend on the datastore
    name.
  - The listing's docstring says field 5 is the port-group name, or the
    network label. The code prints the port-group key, or the stripped
    network reference (`GetAllVmsVif.DvsLineFields`,
    `GetAllVmsVif.VsLineFields`).

## Model

| member | source | states |
|---|---|---|
| Lookup.FirstNamed | genegr-samples/change_vms_on_datastore_vif.py:32-43 | None exactly when no object of the view has the name; otherwise an object of the view with that name, and no earlier object has it |
| Lookup.FirstNamedIsFirst | genegr-samples/change_vms_on_datastore_vif.py:32-43 | the lookup returns the object that is first with the name, whichever index that is |
| Lookup.GetObj | genegr-samples/change_vms_on_datastore_vif.py:32-43 | the search loop with `break` returns the first object with the name, or None |
| Vim.NetworkText | genegr-samples/change_vms_vif.py:123 | Python's `str()` of a backing's network: the reference between single quotes, or `None`; its properties are `PyStr.StripQuotesOfQuoted` and `Matcher.VsMatchIsByReference` |
| PyStr.StripLeading | genegr-samples/change_vms_vif.py:123 | the input is some quotes followed by the result, and the result does not start with a quote |
| PyStr.StripTrailing | genegr-samples/change_vms_vif.py:123 | the input is the result followed by some quotes, and the result does not end with a quote |
| PyStr.StripQuotes | genegr-samples/change_vms_vif.py:123 | `strip("'")`: the input is some quotes, then the result, then some quotes, and the result neither starts nor ends with a quote |
| PyStr.StripQuotesOfQuoted | genegr-samples/change_vms_vif.py:123 | stripping a quoted, unquoted reference gives the reference back |
| PyStr.StripQuotesIdempotent | genegr-samples/change_vms_vif.py:123 | stripping twice is stripping once |
| PyStr.Split | genegr-samples/get_all_vms_vif.py:137-150 | a split line has at least one field |
| PyStr.SplitField | genegr-samples/get_all_vms_vif.py:137-150 | a comma-free string is one field |
| PyStr.SplitFirstField | genegr-samples/get_all_vms_vif.py:137-150 | a comma-free field followed by a comma splits off as the first field |
| PyStr.SplitJoin | genegr-samples/get_all_vms_vif.py:137-150 | comma-free fields joined by commas split back into the same fields |
| NetworkMap.ReadRows | genegr-samples/change_vms_on_datastore_vif.py:87-89 | reading never yields more rows than the file has |
| NetworkMap.NetworkMapIsPositional | genegr-samples/change_vms_on_datastore_vif.py:87-89 | with no blank rows, rule k is row k read by position: columns 0-4, None past a short row, no header, no validation |
| NetworkMap.BlankRowSkipped | genegr-samples/change_vms_on_datastore_vif.py:87-89 | a blank row yields no rule and the rows around it keep their order |
| Matcher.OnlyLikeKindsMatch | genegr-samples/change_vms_vif.py:113-127 | a `dvs` rule matches a distributed-port backing exactly when the switch uuid and port-group key are equal; a matched network backing had a `vs` rule; another backing never matches, and neither does any other source type |
| Matcher.VsMatchIsByReference | genegr-samples/change_vms_vif.py:119-125 | a `vs` rule matches a network-backed card exactly when the label is src_dvs_uuid and the network reference is src_dpg_key; a None network matches only the key "None" |
| Matcher.Matches | genegr-samples/change_vms_vif.py:113-127 | the source test of a rule against a card's current backing; its properties are `Matcher.OnlyLikeKindsMatch` and `Matcher.VsMatchIsByReference` |
| Matcher.DestinationBacking | genegr-samples/change_vms_vif.py:136-151 | a dst_type other than `dvs` gives a network backing with device name dst_net, and its network is None exactly when no network has that name, and otherwise the first network with that name; `dvs` fails exactly when no port group has the name, and otherwise gives the key and switch uuid of the first port group with it |
| NicPass.ResolveShares | genegr-samples/change_vms_vif.py:131-159 | specs share their device: once a device is replaced, every spec of it shows the new device when submitted, and every other spec shows what it showed before |
| NicPass.Step | genegr-samples/change_vms_vif.py:113-161 | one rule keeps every spec pointing into the device list, and the list keeps its length |
| NicPass.ApplyRules | genegr-samples/change_vms_vif.py:112-161 | the rule loop keeps every spec pointing into the device list |
| NicPass.ApplyDevices | genegr-samples/change_vms_vif.py:110-161 | the device loop keeps every spec pointing into the device list |
| NicPass.ProcessVm | genegr-samples/change_vms_vif.py:108-161 | one VM's NIC pass from an empty device_change; no contract of its own, its properties are the NicPassProperties lemmas |
| NicPass.NextDevice | genegr-samples/change_vms_vif.py:110-112 | the next device meets the whole table when it is an Ethernet card, and is passed over otherwise |
| NicPass.ApplyRulesAppend | genegr-samples/change_vms_vif.py:112 | running two parts of the table in turn is running the whole table |
| NicPass.ApplyRulesHalted | genegr-samples/change_vms_vif.py:164-166 | after the run has stopped, further rules change nothing |
| NicPass.ApplyDevicesHalted | genegr-samples/change_vms_vif.py:164-166 | after the run has stopped, further devices change nothing |
| NicPass.RulesStopAt | genegr-samples/change_vms_vif.py:112-166 | a rule that stops the run leaves the rest of the table with nothing to do |
| NicPass.StoppedAtRule | genegr-samples/change_vms_vif.py:110-166 | a stop at device i during rule j is the end of the VM's pass |
| NicPass.TryRule | genegr-samples/change_vms_vif.py:113-161 | one pass of the rule-loop body, step by step, gives the state the rule specification gives |
| NicPass.MigrateVmNics | genegr-samples/change_vms_vif.py:108-161 | the nested device and rule loops, stopping where the run stops, give the VM's specified pass |
| NicPassProperties.StepKeepsInvariant | genegr-samples/change_vms_vif.py:113-161 | one rule keeps the pass invariant: only Ethernet cards are edited, specs are edits with the fixed flags, and submission k carries k specs |
| NicPassProperties.EditKeepsInvariant | genegr-samples/change_vms_vif.py:127-161 | editing a card, appending its spec and submitting the list keeps the pass invariant, whether or not the task faults |
| NicPassProperties.ApplyRulesKeepsInvariant | genegr-samples/change_vms_vif.py:112-161 | the rule loop keeps the pass invariant |
| NicPassProperties.ApplyDevicesKeepsInvariant | genegr-samples/change_vms_vif.py:110-161 | the device loop keeps the pass invariant |
| NicPassProperties.ProcessVmSubmissions | genegr-samples/change_vms_vif.py:108-161 | only Ethernet cards are edited and other devices stay as they were; device_change starts empty and holds edit specs only, one per submission; the VM's k-th submission carries exactly k specs, all edits, all with wake-on-LAN, start-connected and guest control on, for the same devices by key (a failed spec is resent); unless the run crashed, the last submission shows each device as it is at the end |
| NicPassProperties.NextRule | genegr-samples/change_vms_vif.py:112-161 | after any earlier rules, the next rule is tested against the card as they left it, with no stop after a match: a miss or a stopped run changes nothing; a match with a destination rewrites the card to the edited device, appends exactly one edit spec for it and adds exactly one submission carrying the whole list; a missing port group sets wake-on-LAN and crashes with nothing submitted |
| NicPassProperties.UnmatchedRulesChangeNothing | genegr-samples/change_vms_vif.py:112-127 | a table none of whose rules matches the card leaves the state as it was |
| NicPassProperties.ApplyRulesElsewhere | genegr-samples/change_vms_vif.py:112-161 | the rules tested against one device leave every other device as it was |
| NicPassProperties.ApplyRulesAppendsSpecsOf | genegr-samples/change_vms_vif.py:112-157 | the rules tested against one device only append specs of that device |
| NicPassProperties.UnmatchedCardUntouched | genegr-samples/change_vms_vif.py:110-161 | through the device loop, a device no rule matches keeps its state and no new spec names it |
| NicPassProperties.RulesKeepUntouched | genegr-samples/change_vms_vif.py:112-161 | the rules tested against any device keep a device no rule matches untouched |
| NicPassProperties.UnmatchedCardUnchanged | genegr-samples/change_vms_vif.py:108-161 | a card no rule matches as the pass finds it ends the pass as it was, and no spec of device_change names it |
| NicPassProperties.ProcessVmExtendsLog | genegr-samples/change_vms_vif.py:159-161 | a VM's pass only appends to the run's submissions |
| NicPassProperties.ApplyDevicesExtendsLog | genegr-samples/change_vms_vif.py:159-161 | the device loop only appends submissions |
| NicPassProperties.ApplyRulesExtendsLog | genegr-samples/change_vms_vif.py:159-161 | the rule loop only appends submissions |
| ChangeVmsVif.RunRows | genegr-samples/change_vms_vif.py:106-166 | the run over the VM-list rows in order, a row whose VM is not found ending it uncaught; its properties are `ChangeVmsVif.RunRowsHalted` and the FaultPolicy lemmas |
| ChangeVmsVif.RunRowsHalted | genegr-samples/change_vms_vif.py:106-166 | once the run has stopped, the remaining VM-list rows change nothing |
| ChangeVmsVif.ChangeVmsVif | genegr-samples/change_vms_vif.py:105-168 | the row loop returns what the specified run reports (0, -1 after a fault, or the uncaught error) and submits exactly its tasks |
| ChangeVmsOnDatastoreVif.DatastoreRun | genegr-samples/change_vms_on_datastore_vif.py:116-223 | what `main` reports and submits; its properties are `ChangeVmsOnDatastoreVif.ProcessVmsHalted` and `FaultPolicy.FaultsDoNotStopDatastoreRun` |
| ChangeVmsOnDatastoreVif.ProcessVmsHalted | genegr-samples/change_vms_on_datastore_vif.py:153-216 | once the run has stopped, the remaining VMs change nothing |
| ChangeVmsOnDatastoreVif.ChangeVmsOnDatastoreVif | genegr-samples/change_vms_on_datastore_vif.py:116-223 | a missing datacenter or cluster exits with -1 before anything is submitted; otherwise every VM of the cluster gets the NIC pass, whatever the datastore name |
| FaultPolicy.ApplyRulesKeeps | genegr-samples/change_vms_vif.py:112-161 | a property every rule keeps is kept by the rule loop |
| FaultPolicy.ApplyDevicesKeeps | genegr-samples/change_vms_vif.py:110-161 | a property every rule keeps is kept by the device loop |
| FaultPolicy.AbortStepKeeps | genegr-samples/change_vms_vif.py:159-166 | under the abort policy, a rule keeps "only the last submission faulted, exactly when the run is faulted" |
| FaultPolicy.RunRowsStopsAtFirstFault | genegr-samples/change_vms_vif.py:106-166 | the list-driven run stops at its first faulted task |
| FaultPolicy.FaultEndsListRun | genegr-samples/change_vms_vif.py:159-166 | no submission but the last has faulted, and `main` returns -1 exactly when the last one did |
| FaultPolicy.ContinueStepKeeps | genegr-samples/change_vms_on_datastore_vif.py:210-216 | under the continue policy a rule never leaves the run faulted |
| FaultPolicy.StepIgnoresFaults | genegr-samples/change_vms_on_datastore_vif.py:210-216 | under the continue policy, runs that differ only in which tasks fault take the same step |
| FaultPolicy.ApplyRulesIgnoresFaults | genegr-samples/change_vms_on_datastore_vif.py:163-216 | the same for the rule loop |
| FaultPolicy.ApplyDevicesIgnoresFaults | genegr-samples/change_vms_on_datastore_vif.py:161-216 | the same for the device loop |
| FaultPolicy.ProcessVmsIgnoresFaults | genegr-samples/change_vms_on_datastore_vif.py:153-216 | the same for the VM loop, which never ends faulted |
| FaultPolicy.FaultsDoNotStopDatastoreRun | genegr-samples/change_vms_on_datastore_vif.py:210-216 | the datastore run never returns -1 for a fault, and whatever tasks fault it reports the same result and submits the same device changes to the same VMs |
| GetAllVmsVif.ListNics | genegr-samples/get_all_vms_vif.py:95-150 | the lookup loops and the nested VM and device loops print exactly the specified lines and report the specified result |
| GetAllVmsVif.ListCluster | genegr-samples/get_all_vms_vif.py:133-150 | the nested VM and device loops print exactly the specified lines and stop with the specified error |
| GetAllVmsVif.DeviceLine | genegr-samples/get_all_vms_vif.py:135-150 | the loop body for one device gives the specified line, no line, or the TypeError |
| GetAllVmsVif.ListRun | genegr-samples/get_all_vms_vif.py:95-150 | what `main` reports and prints; its properties are `GetAllVmsVif.ListRunOutcome` and `GetAllVmsVif.ListingInEnumerationOrder` |
| GetAllVmsVif.ListRunOutcome | genegr-samples/get_all_vms_vif.py:95-126 | with no datacenter of that name, or when the FIRST datacenter of that name has no cluster of that name, `main` exits with -1 before any line; otherwise the lines printed are a prefix of the full listing of the first such cluster of the first such datacenter, and all of it when `main` returns 0 |
| GetAllVmsVif.NicLine | genegr-samples/get_all_vms_vif.py:135-150 | the line one device prints; its properties are `GetAllVmsVif.OnlyEthernetCardsPrint` and the field lemmas below |
| GetAllVmsVif.OnlyEthernetCardsPrint | genegr-samples/get_all_vms_vif.py:134-150 | a device prints a line exactly when it is an Ethernet card with a distributed-port backing or a network backing with a device name; the TypeError happens exactly for a network backing without one |
| GetAllVmsVif.LinesOf | genegr-samples/get_all_vms_vif.py:135-150 | a device gives at most one line, and one exactly when it prints |
| GetAllVmsVif.NicLinesAppend | genegr-samples/get_all_vms_vif.py:134 | one more device adds its line after the previous ones |
| GetAllVmsVif.AllLinesAppend | genegr-samples/get_all_vms_vif.py:133 | one more VM adds its lines after the previous ones |
| GetAllVmsVif.AddDeviceLines | genegr-samples/get_all_vms_vif.py:135-150 | a device adds its line at the end, or stops the listing |
| GetAllVmsVif.VmLinesInDeviceOrder | genegr-samples/get_all_vms_vif.py:134-150 | a VM's lines are its devices' lines in device order, cut short by the TypeError |
| GetAllVmsVif.ListingInEnumerationOrder | genegr-samples/get_all_vms_vif.py:133-150 | the output is the VMs' lines in enumeration order, each VM's in device order, one line at most per NIC; a TypeError leaves a prefix of it |
| GetAllVmsVif.VmLinesStopped | genegr-samples/get_all_vms_vif.py:147-150 | after the TypeError, further devices print nothing |
| GetAllVmsVif.VmLinesStoppedAt | genegr-samples/get_all_vms_vif.py:147-150 | after the TypeError, the rest of the VM prints nothing |
| GetAllVmsVif.ClusterLinesStoppedAt | genegr-samples/get_all_vms_vif.py:133-150 | after the TypeError, the remaining VMs print nothing |
| GetAllVmsVif.VmListingStops | genegr-samples/get_all_vms_vif.py:134-150 | reached with no earlier error, the TypeError at a device ends the VM's part of the listing with the lines printed before it |
| GetAllVmsVif.ListingStops | genegr-samples/get_all_vms_vif.py:133-150 | reached with no earlier error, the TypeError at a device ends the listing with the lines printed before it |
| GetAllVmsVif.ClusterLinesOfPrefix | genegr-samples/get_all_vms_vif.py:133 | VM v's lines follow those of the VMs before it |
| GetAllVmsVif.DvsLineFields | genegr-samples/get_all_vms_vif.py:136-142 | a distributed-port card's line reads back as VM name, label, `dvs`, switch uuid, port-group key |
| GetAllVmsVif.VsLineFields | genegr-samples/get_all_vms_vif.py:143-150 | a network-backed card's line reads back as VM name, label, `vs`, device name, stripped network string |
| GetAllVmsVif.KindField | genegr-samples/get_all_vms_vif.py:137-148 | whatever the later fields hold, a line starts with the VM name and label, and its third field is `dvs` for a distributed-port card and `vs` for a network-backed one |
| GetAllVmsVif.DvsKindField | genegr-samples/get_all_vms_vif.py:136-142 | a distributed-port card's line starts with the VM name, the label and `dvs`, whatever follows |
| GetAllVmsVif.VsKindField | genegr-samples/get_all_vms_vif.py:143-150 | a network-backed card's line starts with the VM name, the label and `vs`, whatever follows |
| GetAllVmsVif.LeadingFields | genegr-samples/get_all_vms_vif.py:137-150 | a printed line whose tag is the kind and a comma reads back its first three fields |
| GetAllVmsVif.LineTextFields | genegr-samples/get_all_vms_vif.py:137-150 | a printed line of comma-free fields reads back as its five fields |
| GetAllVmsVif.LineTextIsJoin | genegr-samples/get_all_vms_vif.py:137-150 | the printed concatenation, tag and comma included, is the five fields joined by commas |
| GetAllVmsVif.SplitLeadingFields | genegr-samples/get_all_vms_vif.py:137-150 | the first three comma-free fields of a line read back whatever follows them |
| GetAllVmsVif.ListedDvsNicMatches | genegr-samples/get_all_vms_vif.py:136-142 | fields 4, 5 and 3 of a distributed-port card's line, read as a rule source, match that card |
| GetAllVmsVif.ListedVsNicMatches | genegr-samples/get_all_vms_vif.py:143-150 | for a network-backed card, fields 2, 5 and 3 match it; fields 4, 5 and 3 match it only when the device name equals the label |
| Scenarios.FirstRuleFires | genegr-samples/change_vms_vif.py:113-161 | a `dvs` to `vs` rule moves the card to LegacyNet and submits one spec |
| Scenarios.LegacyDestination | genegr-samples/change_vms_vif.py:136-139 | the first rule's `vs` destination is the network LegacyNet |
| Scenarios.SecondRuleMatches | genegr-samples/change_vms_vif.py:119-125 | the card's new network backing matches the second rule's `vs` source, by the quoted-and-stripped reference |
| Scenarios.NewPgDestination | genegr-samples/change_vms_vif.py:141-151 | the second rule's `dvs` destination is port group NewPG of switch uuid-2 |
| Scenarios.BothSpecsShowNewPg | genegr-samples/change_vms_vif.py:157-159 | two specs sharing one card both show it as it is when submitted |
| Scenarios.SecondRuleFires | genegr-samples/change_vms_vif.py:119-161 | a `vs` rule then matches the new backing and submits both specs, both showing the final backing |
| Scenarios.ChainedRulesBothFire | genegr-samples/change_vms_vif.py:108-161 | with both rules in the table, both fire on one card, with two submissions |
| Scenarios.MissingPortgroupCrashes | genegr-samples/change_vms_vif.py:134-145 | a missing `dvs` destination sets wake-on-LAN, submits nothing, and crashes |
| Scenarios.MissingNetworkStoresNone | genegr-samples/change_vms_vif.py:136-160 | a missing `vs` destination submits a card with no network and dst_net as its device name |

## Left out

- Session setup and teardown, CLI arguments and opening the CSV files are not modelled. The rows come in already split into fields (`NetworkMap`).
- Console messages are not modelled, so the model does not capture what is printed on success or on a reported fault. The log's `faulted` flag stands in for both. The listing's printed lines are modelled.
- `ReconfigVM_Task` and `WaitForTask` are remote calls, so they are not modelled. A submission is a log entry, and whether it faults is the `faultAt` parameter.
- `searchIndex.FindByUuid` is remote, so it is a function parameter of the list-driven run.
- ChangeVmsVif.ChangeVmsVif: a completed reconfigure does not change the inventory the run reads later. The search index is a fixed function of the uuid, so a VM listed twice is seen the second time with its devices as they were before the run. The script re-reads `vm.config.hardware.device` from the server for each row, so it would see the migrated backings.
- The `vim.Network` view also holds distributed port groups. The model takes the network view and the port-group view as given sequences.
- Exceptions other than a reconfigure fault and the three uncaught errors named above are not modelled, for example a faulting view or a property read on the server.
- Process exit codes are not modelled. `main`'s return value is discarded by the scripts' entry point, so the model reports `main`'s result and not the exit status.
- Ethernet card subclasses are one device kind, and only the device attributes the scripts read are kept.
- The storage and registration scripts and the other listing scripts are outside the migration core.
