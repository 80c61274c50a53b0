/**
 * The two comma-separated inputs as `csv.DictReader` with explicit field
 * names yields them: no header, columns taken by position, a short row
 * leaves its missing columns None, columns past the named ones are not
 * looked at, and rows with no field at all are skipped. Nothing is validated.
 */
module NetworkMap {
  import opened Wrappers

  /** One network-map row: src_dvs_uuid, src_dpg_key, src_type, dst_net, dst_type. */
  datatype Rule = Rule(
    srcDvsUuid: Option<string>,
    srcDpgKey: Option<string>,
    srcType: Option<string>,
    dstNet: Option<string>,
    dstType: Option<string>)

  /** One VM-list row: vm_name, vm_i_uuid, vm_uuid. */
  datatype VmRow = VmRow(vmName: Option<string>, vmInstanceUuid: Option<string>, vmUuid: Option<string>)

  /** The value of column `k` of a row, None past its end. */
  function Column(fields: seq<string>, k: nat): Option<string>
  {
    if k < |fields| then Some(fields[k]) else None
  }

  function ReadRule(fields: seq<string>): Rule
  {
    Rule(Column(fields, 0), Column(fields, 1), Column(fields, 2), Column(fields, 3), Column(fields, 4))
  }

  function ReadVmRow(fields: seq<string>): VmRow
  {
    VmRow(Column(fields, 0), Column(fields, 1), Column(fields, 2))
  }

  /** `list(csv.DictReader(...))` over already-split rows: blank rows are skipped, the others read in order. */
  function ReadRows<R>(rows: seq<seq<string>>, read: seq<string> -> R): (table: seq<R>)
    ensures |table| <= |rows|
    decreases |rows|
  {
    if rows == [] then []
    else if rows[0] == [] then ReadRows(rows[1..], read)
    else [read(rows[0])] + ReadRows(rows[1..], read)
  }

  function ReadNetworkMap(rows: seq<seq<string>>): seq<Rule>
  {
    ReadRows(rows, ReadRule)
  }

  function ReadVmList(rows: seq<seq<string>>): seq<VmRow>
  {
    ReadRows(rows, ReadVmRow)
  }

  /**
   * Without blank rows, the k-th rule is the k-th row read by position
   * (columns past a short row's end are None): no header, no validation.
   */
  lemma {:induction false} NetworkMapIsPositional(rows: seq<seq<string>>)
    requires forall k :: 0 <= k < |rows| ==> rows[k] != []
    ensures |ReadNetworkMap(rows)| == |rows|
    ensures forall k :: 0 <= k < |rows| ==>
              ReadNetworkMap(rows)[k]
              == Rule(Column(rows[k], 0), Column(rows[k], 1), Column(rows[k], 2), Column(rows[k], 3), Column(rows[k], 4))
    decreases |rows|
  {
    if rows != [] {
      NetworkMapIsPositional(rows[1..]);
      assert forall k :: 0 < k < |rows| ==> rows[k] == rows[1..][k - 1];
    }
  }

  /** A blank row contributes nothing; the rows around it keep their order. */
  lemma {:induction false} BlankRowSkipped(before: seq<seq<string>>, after: seq<seq<string>>)
    ensures ReadNetworkMap(before + [[]] + after) == ReadNetworkMap(before) + ReadNetworkMap(after)
    decreases |before|
  {
    if before == [] {
      assert (before + [[]] + after)[1..] == after;
    } else {
      assert (before + [[]] + after)[1..] == before[1..] + [[]] + after;
      BlankRowSkipped(before[1..], after);
    }
  }
}
