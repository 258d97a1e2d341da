/** The raw block inventory: records of one device merged, locators that two devices
    report rejected, and partitions tied to their disks. */
module RawInventory {
  import opened Text
  import opened Inventory
  import opened Canonical
  import opened IssueOrder
  import opened SourceRecords

  function AddedIf(b: bool, code: BlockIssueCode, name: string, field: string): seq<BlockIssue> {
    if b then [BlockIssue(code, Some(name), field)] else []
  }

  // Merging the records of one device

  /** Every record reports `v`. */
  predicate Unanimous<T(==)>(values: seq<Option<T>>, v: T) {
    values != [] && forall i :: 0 <= i < |values| ==> values[i] == Some(v)
  }

  predicate SomeKnown<T>(values: seq<Option<T>>) {
    exists i :: 0 <= i < |values| && values[i].Some?
  }

  function Merged<T(==)>(values: seq<Option<T>>): Option<T> {
    if values != [] && values[0].Some? && Unanimous(values, values[0].value) then values[0] else None
  }

  /** The value that every record reports, and whether there is none although some
      record reports one. */
  method MergeOptional<T(==, !new)>(values: seq<Option<T>>) returns (merged: Option<T>, disagree: bool)
    ensures merged == Merged(values)
    ensures forall v :: merged == Some(v) <==> Unanimous(values, v)
    ensures disagree == (merged.None? && SomeKnown(values))
  {
    var distinct: seq<T> := [];
    var unknown := false;
    for i := 0 to |values|
      invariant unknown <==> exists j :: 0 <= j < i && values[j].None?
      invariant forall j :: 0 <= j < i && values[j].Some? ==> values[j].value in distinct
      invariant forall k :: 0 <= k < |distinct| ==> Some(distinct[k]) in values[..i]
      invariant forall k, m :: 0 <= k < m < |distinct| ==> distinct[k] != distinct[m]
    {
      unknown := unknown || values[i].None?;
      if values[i].Some? && values[i].value !in distinct {
        distinct := distinct + [values[i].value];
      }
      assert values[..i + 1] == values[..i] + [values[i]];
    }
    assert values[..|values|] == values;
    if |distinct| == 1 && !unknown {
      assert Some(distinct[0]) in values;
      return Some(distinct[0]), false;
    }
    if distinct != [] {
      assert Some(distinct[0]) in values;
      if |distinct| > 1 {
        assert Some(distinct[1]) in values;
      }
    }
    return None, distinct != [];
  }

  function KnownAs<T(==)>(values: seq<T>, unknown: T): seq<Option<T>> {
    seq(|values|, i requires 0 <= i < |values| => if values[i] == unknown then None else Some(values[i]))
  }

  /** As `MergeOptional`, with one value standing for not known. */
  method MergeEnum<T(==, !new)>(values: seq<T>, unknown: T) returns (merged: T, disagree: bool)
    ensures merged == Merged(KnownAs(values, unknown)).GetOr(unknown)
    ensures disagree == (merged == unknown && SomeKnown(KnownAs(values, unknown)))
  {
    var known: seq<Option<T>> := [];
    for i := 0 to |values|
      invariant known == KnownAs(values, unknown)[..i]
    {
      known := known + [if values[i] == unknown then None else Some(values[i])];
    }
    assert known == KnownAs(values, unknown);
    var agreed, differ := MergeOptional(known);
    merged, disagree := agreed.GetOr(unknown), differ;
  }

  function Values<T>(records: seq<Observation>, get: Observation -> T): seq<T> {
    seq(|records|, i requires 0 <= i < |records| => get(records[i]))
  }

  function DisagreeOn<T(==)>(name: string, field: string, values: seq<Option<T>>): seq<BlockIssue> {
    AddedIf(Merged(values).None? && SomeKnown(values), DuplicateRecord, name, field)
  }

  function AllIssues(records: seq<Observation>): seq<BlockIssue> {
    if records == [] then [] else AllIssues(records[..|records| - 1]) + records[|records| - 1].issues
  }

  function PathOf(o: Observation): Option<string> { o.currentPath }
  function SysfsOf(o: Observation): Option<string> { o.sysfsPath }
  function PhysicalKindOf(o: Observation): PhysicalKind { o.physicalKind }
  function TypeOf(o: Observation): NodeType { o.nodeType }
  function NumberOf(o: Observation): Option<DeviceNumber> { o.deviceNumber }
  function CapacityOf(o: Observation): Option<nat> { o.capacityBytes }
  function VendorOf(o: Observation): Option<string> { o.vendor }
  function ModelOf(o: Observation): Option<string> { o.model }
  function SerialOf(o: Observation): Option<string> { o.serial }
  function WwnOf(o: Observation): Option<string> { o.wwn }
  function EuiOf(o: Observation): Option<string> { o.nvmeEui }
  function NguidOf(o: Observation): Option<string> { o.nvmeNguid }
  function RotationalOf(o: Observation): Option<bool> { o.rotational }
  function RemovableOf(o: Observation): Option<bool> { o.removable }
  function ReadOnlyOf(o: Observation): Option<bool> { o.readOnly }
  function TransportOf(o: Observation): Option<string> { o.transport }
  function ParentOf(o: Observation): Option<string> { o.parentName }
  function OrdinalOf(o: Observation): Option<nat> { o.partitionNumber }
  function KindOf(o: Observation): ObservationKind { o.kind }

  function MergedEnum<T(==)>(values: seq<T>, unknown: T): T {
    Merged(KnownAs(values, unknown)).GetOr(unknown)
  }

  /** The issues of all records, and one for every field on which they disagree. */
  function MergedIssues(name: string, records: seq<Observation>): seq<BlockIssue> {
    AllIssues(records)
    + AddedIf(|records| > 1, DuplicateRecord, name, "kernel_name")
    + DisagreeOn(name, "current_path", Values(records, PathOf))
    + DisagreeOn(name, "sysfs_path", Values(records, SysfsOf))
    + DisagreeOn(name, "physical_kind", KnownAs(Values(records, PhysicalKindOf), UnknownPhysical))
    + DisagreeOn(name, "node_type", KnownAs(Values(records, TypeOf), UnknownNode))
    + DisagreeOn(name, "device_number", Values(records, NumberOf))
    + DisagreeOn(name, "capacity_bytes", Values(records, CapacityOf))
    + DisagreeOn(name, "vendor", Values(records, VendorOf))
    + DisagreeOn(name, "model", Values(records, ModelOf))
    + DisagreeOn(name, "serial", Values(records, SerialOf))
    + DisagreeOn(name, "wwn", Values(records, WwnOf))
    + DisagreeOn(name, "nvme_eui", Values(records, EuiOf))
    + DisagreeOn(name, "nvme_nguid", Values(records, NguidOf))
    + DisagreeOn(name, "rotational", Values(records, RotationalOf))
    + DisagreeOn(name, "removable", Values(records, RemovableOf))
    + DisagreeOn(name, "read_only", Values(records, ReadOnlyOf))
    + DisagreeOn(name, "transport", Values(records, TransportOf))
    + DisagreeOn(name, "parent_kernel_name", Values(records, ParentOf))
    + DisagreeOn(name, "partition_number", Values(records, OrdinalOf))
    + DisagreeOn(name, "observation_kind", KnownAs(Values(records, KindOf), UnknownObservation))
  }

  function MergeRecords(name: string, records: seq<Observation>): Observation {
    Observation(
      name,
      Merged(Values(records, PathOf)),
      Merged(Values(records, SysfsOf)),
      MergedEnum(Values(records, TypeOf), UnknownNode),
      Merged(Values(records, NumberOf)),
      Merged(Values(records, CapacityOf)),
      Merged(Values(records, VendorOf)),
      Merged(Values(records, ModelOf)),
      Merged(Values(records, SerialOf)),
      Merged(Values(records, WwnOf)),
      Merged(Values(records, EuiOf)),
      Merged(Values(records, NguidOf)),
      Merged(Values(records, TransportOf)),
      Merged(Values(records, RotationalOf)),
      Merged(Values(records, RemovableOf)),
      Merged(Values(records, ReadOnlyOf)),
      Merged(Values(records, ParentOf)),
      [],
      Merged(Values(records, OrdinalOf)),
      MergedEnum(Values(records, KindOf), UnknownObservation),
      MergedEnum(Values(records, PhysicalKindOf), UnknownPhysical),
      Normalize(MergedIssues(name, records), BlockIssueKey))
  }

  method MergeField<T(==, !new)>(name: string, field: string, values: seq<Option<T>>, issues: seq<BlockIssue>)
    returns (merged: Option<T>, extended: seq<BlockIssue>)
    ensures merged == Merged(values) && extended == issues + DisagreeOn(name, field, values)
  {
    var disagree;
    merged, disagree := MergeOptional(values);
    extended := issues + AddedIf(disagree, DuplicateRecord, name, field);
  }

  method MergeEnumField<T(==, !new)>(name: string, field: string, values: seq<T>, unknown: T, issues: seq<BlockIssue>)
    returns (merged: T, extended: seq<BlockIssue>)
    ensures merged == MergedEnum(values, unknown) && extended == issues + DisagreeOn(name, field, KnownAs(values, unknown))
  {
    var disagree;
    merged, disagree := MergeEnum(values, unknown);
    KnownIsNot(values, unknown);
    extended := issues + AddedIf(disagree, DuplicateRecord, name, field);
  }

  lemma KnownIsNot<T>(values: seq<T>, unknown: T)
    ensures Merged(KnownAs(values, unknown)) != Some(unknown)
  {
  }

  /** Merges all records of one device, field by field. */
  method MergeOne(name: string, records: seq<Observation>) returns (merged: Observation)
    ensures merged == MergeRecords(name, records)
  {
    hide Merged, MergedEnum, DisagreeOn, AllIssues, Normalize, KnownAs, Values;
    var issues: seq<BlockIssue> := [];
    NoIssues();
    assert records[..0] == [];
    for i := 0 to |records|
      invariant issues == AllIssues(records[..i])
    {
      AllIssuesStep(records, i);
      issues := issues + records[i].issues;
    }
    assert records[..|records|] == records;
    issues := issues + AddedIf(|records| > 1, DuplicateRecord, name, "kernel_name");
    hide AddedIf;
    var currentPath; currentPath, issues := MergeField(name, "current_path", Values(records, PathOf), issues);
    var sysfsPath; sysfsPath, issues := MergeField(name, "sysfs_path", Values(records, SysfsOf), issues);
    var physicalKind; physicalKind, issues := MergeEnumField(name, "physical_kind", Values(records, PhysicalKindOf), UnknownPhysical, issues);
    var nodeType; nodeType, issues := MergeEnumField(name, "node_type", Values(records, TypeOf), UnknownNode, issues);
    var deviceNumber; deviceNumber, issues := MergeField(name, "device_number", Values(records, NumberOf), issues);
    var capacityBytes; capacityBytes, issues := MergeField(name, "capacity_bytes", Values(records, CapacityOf), issues);
    var vendor; vendor, issues := MergeField(name, "vendor", Values(records, VendorOf), issues);
    var model; model, issues := MergeField(name, "model", Values(records, ModelOf), issues);
    var serial; serial, issues := MergeField(name, "serial", Values(records, SerialOf), issues);
    var wwn; wwn, issues := MergeField(name, "wwn", Values(records, WwnOf), issues);
    var nvmeEui; nvmeEui, issues := MergeField(name, "nvme_eui", Values(records, EuiOf), issues);
    var nvmeNguid; nvmeNguid, issues := MergeField(name, "nvme_nguid", Values(records, NguidOf), issues);
    var rotational; rotational, issues := MergeField(name, "rotational", Values(records, RotationalOf), issues);
    var removable; removable, issues := MergeField(name, "removable", Values(records, RemovableOf), issues);
    var readOnly; readOnly, issues := MergeField(name, "read_only", Values(records, ReadOnlyOf), issues);
    var transport; transport, issues := MergeField(name, "transport", Values(records, TransportOf), issues);
    var parentName; parentName, issues := MergeField(name, "parent_kernel_name", Values(records, ParentOf), issues);
    var partitionNumber; partitionNumber, issues := MergeField(name, "partition_number", Values(records, OrdinalOf), issues);
    var kind; kind, issues := MergeEnumField(name, "observation_kind", Values(records, KindOf), UnknownObservation, issues);
    merged := Observation(name, currentPath, sysfsPath, nodeType, deviceNumber, capacityBytes, vendor, model, serial, wwn, nvmeEui, nvmeNguid,
                          transport, rotational, removable, readOnly, parentName, [], partitionNumber, kind, physicalKind,
                          Normalize(issues, BlockIssueKey));
  }

  lemma NoIssues()
    ensures AllIssues([]) == []
  {
  }

  lemma AllIssuesStep(records: seq<Observation>, i: nat)
    requires i < |records|
    ensures AllIssues(records[..i + 1]) == AllIssues(records[..i]) + records[i].issues
  {
    assert records[..i + 1][..i] == records[..i];
  }

  // Locators

  datatype Locator = PathLocator | SysfsLocator | NumberLocator

  datatype Location = AtPath(path: string) | AtNumber(number: DeviceNumber)

  function Located(o: Observation, l: Locator): Option<Location> {
    match l
    case PathLocator => if o.currentPath.Some? then Some(AtPath(o.currentPath.value)) else None
    case SysfsLocator => if o.sysfsPath.Some? then Some(AtPath(o.sysfsPath.value)) else None
    case NumberLocator => if o.deviceNumber.Some? then Some(AtNumber(o.deviceNumber.value)) else None
  }

  function LocatorField(l: Locator): string {
    match l
    case PathLocator => "current_path"
    case SysfsLocator => "sysfs_path"
    case NumberLocator => "device_number"
  }

  function Reject(o: Observation, l: Locator): Observation {
    var cleared := match l
      case PathLocator => o.(currentPath := None)
      case SysfsLocator => o.(sysfsPath := None)
      case NumberLocator => o.(deviceNumber := None);
    cleared.(issues := o.issues + AddedIf(true, DuplicateRecord, o.kernelName, LocatorField(l)))
  }

  /** Another device reports the i-th device's locator. */
  predicate Collides(devices: seq<Observation>, l: Locator, i: nat)
    requires i < |devices|
  {
    Located(devices[i], l).Some? && exists j :: 0 <= j < |devices| && j != i && Located(devices[j], l) == Located(devices[i], l)
  }

  function Rejected(devices: seq<Observation>, l: Locator): seq<Observation> {
    seq(|devices|, i requires 0 <= i < |devices| => if Collides(devices, l, i) then Reject(devices[i], l) else devices[i])
  }

  predicate SameLocation(devices: seq<Observation>, l: Locator, a: nat, b: nat)
    requires a < |devices| && b < |devices|
  {
    Located(devices[a], l).Some? && Located(devices[a], l) == Located(devices[b], l)
  }

  /** Devices a < b have been compared when the search stands at the pair (i, m). */
  predicate Compared(a: nat, b: nat, i: nat, m: nat) {
    a < i || (a == i && b < m)
  }

  predicate Found(devices: seq<Observation>, l: Locator, k: nat, i: nat, m: nat)
    requires k < |devices|
  {
    exists j :: 0 <= j < |devices| && j != k && SameLocation(devices, l, k, j)
                && (if k < j then Compared(k, j, i, m) else Compared(j, k, i, m))
  }

  lemma FoundStep(devices: seq<Observation>, l: Locator, k: nat, i: nat, m: nat)
    requires k < |devices| && i < m < |devices|
    ensures Found(devices, l, k, i, m + 1) <==> Found(devices, l, k, i, m) || ((k == i || k == m) && SameLocation(devices, l, i, m))
  {
    hide Located;
    if (k == i || k == m) && SameLocation(devices, l, i, m) {
      var j := if k == i then m else i;
      assert SameLocation(devices, l, k, j);
    }
    if Found(devices, l, k, i, m) {
      var j :| 0 <= j < |devices| && j != k && SameLocation(devices, l, k, j)
        && (if k < j then Compared(k, j, i, m) else Compared(j, k, i, m));
    }
  }

  lemma FoundRow(devices: seq<Observation>, l: Locator, k: nat, i: nat)
    requires k < |devices| && i < |devices|
    ensures Found(devices, l, k, i, i + 1) <==> Found(devices, l, k, i, 0)
    ensures Found(devices, l, k, i + 1, 0) <==> Found(devices, l, k, i, |devices|)
    ensures Located(devices[i], l).None? ==> (Found(devices, l, k, i + 1, 0) <==> Found(devices, l, k, i, 0))
  {
    hide Located;
  }

  lemma FoundAll(devices: seq<Observation>, l: Locator, k: nat)
    requires k < |devices|
    ensures !Found(devices, l, k, 0, 0)
    ensures Found(devices, l, k, |devices|, 0) <==> Collides(devices, l, k)
  {
    hide Located;
    if j :| 0 <= j < |devices| && j != k && Located(devices[j], l) == Located(devices[k], l) {
      assert SameLocation(devices, l, k, j) <==> Located(devices[k], l).Some?;
    }
  }

  /** The flags when the search stands at the pair (i, m). */
  predicate Flagged(flags: seq<bool>, devices: seq<Observation>, l: Locator, i: nat, m: nat) {
    |flags| == |devices| && forall k :: 0 <= k < |flags| ==> flags[k] == Found(devices, l, k, i, m)
  }

  lemma FlagStep(flags: seq<bool>, devices: seq<Observation>, l: Locator, i: nat, m: nat)
    requires i < m < |devices| && Flagged(flags, devices, l, i, m)
    ensures Flagged(if SameLocation(devices, l, i, m) then flags[i := true][m := true] else flags, devices, l, i, m + 1)
  {
    hide Found, SameLocation;
    var next := if SameLocation(devices, l, i, m) then flags[i := true][m := true] else flags;
    forall k | 0 <= k < |next| ensures next[k] == Found(devices, l, k, i, m + 1) {
      FoundStep(devices, l, k, i, m);
    }
  }

  lemma FlagRow(flags: seq<bool>, devices: seq<Observation>, l: Locator, i: nat)
    requires i < |devices|
    ensures Flagged(flags, devices, l, i, i + 1) <==> Flagged(flags, devices, l, i, 0)
    ensures Flagged(flags, devices, l, i + 1, 0) <==> Flagged(flags, devices, l, i, |devices|)
    ensures Located(devices[i], l).None? ==> (Flagged(flags, devices, l, i + 1, 0) <==> Flagged(flags, devices, l, i, 0))
  {
    hide Found, Located;
    forall k | 0 <= k < |devices|
      ensures Found(devices, l, k, i, i + 1) <==> Found(devices, l, k, i, 0)
      ensures Found(devices, l, k, i + 1, 0) <==> Found(devices, l, k, i, |devices|)
      ensures Located(devices[i], l).None? ==> (Found(devices, l, k, i + 1, 0) <==> Found(devices, l, k, i, 0))
    {
      FoundRow(devices, l, k, i);
    }
  }

  lemma FlagAll(flags: seq<bool>, devices: seq<Observation>, l: Locator)
    requires |flags| == |devices|
    ensures (forall k :: 0 <= k < |flags| ==> !flags[k]) ==> Flagged(flags, devices, l, 0, 0)
    ensures Flagged(flags, devices, l, |devices|, 0) ==> forall k :: 0 <= k < |flags| ==> flags[k] == Collides(devices, l, k)
  {
    hide Found, Collides;
    forall k | 0 <= k < |devices|
      ensures !Found(devices, l, k, 0, 0) && (Found(devices, l, k, |devices|, 0) <==> Collides(devices, l, k))
    {
      FoundAll(devices, l, k);
    }
  }

  /** Compares all pairs, then clears whatever collided, in place. */
  method RejectLocatorCollisions(devices: array<Observation>, l: Locator)
    modifies devices
    ensures devices[..] == Rejected(old(devices[..]), l)
  {
    hide Located, Flagged, Reject, Collides;
    ghost var was := devices[..];
    var n := devices.Length;
    var conflicting := new bool[n](_ => false);
    FlagAll(conflicting[..], was, l);
    for i := 0 to n
      invariant devices[..] == was
      invariant Flagged(conflicting[..], was, l, i, 0)
    {
      FlagRow(conflicting[..], was, l, i);
      assert devices[i] == was[i];
      if Located(devices[i], l).None? {
        continue;
      }
      for j := i + 1 to n
        invariant devices[..] == was
        invariant Flagged(conflicting[..], was, l, i, j)
      {
        assert devices[i] == was[i] && devices[j] == was[j];
        FlagStep(conflicting[..], was, l, i, j);
        ghost var flags := conflicting[..];
        if Located(devices[i], l) == Located(devices[j], l) {
          conflicting[i], conflicting[j] := true, true;
          assert conflicting[..] == flags[i := true][j := true];
        }
      }
      FlagRow(conflicting[..], was, l, i);
    }
    FlagAll(conflicting[..], was, l);
    ghost var collides := conflicting[..];
    for i := 0 to n
      invariant conflicting[..] == collides
      invariant forall k :: 0 <= k < i ==> devices[k] == Rejected(was, l)[k]
      invariant forall k :: i <= k < n ==> devices[k] == was[k]
    {
      assert conflicting[i] == collides[i];
      if conflicting[i] {
        devices[i] := Reject(devices[i], l);
      }
    }
  }

  /** After rejection a locator names at most one device, and it was kept exactly
      where no other device reported it. */
  lemma RejectedLocators(devices: seq<Observation>, l: Locator, i: nat)
    requires i < |devices|
    ensures Located(Rejected(devices, l)[i], l) == if Collides(devices, l, i) then None else Located(devices[i], l)
    ensures !Collides(Rejected(devices, l), l, i)
  {
  }

  // Partitions and their disks

  function FirstNamed(devices: seq<Observation>, name: string): (i: nat)
    ensures i <= |devices|
    ensures i < |devices| ==> devices[i].kernelName == name
    ensures forall j :: 0 <= j < i ==> devices[j].kernelName != name
  {
    if devices == [] || devices[0].kernelName == name then 0 else 1 + FirstNamed(devices[1..], name)
  }

  datatype Relation = NoParent | NotPartition | NoSuchParent | NotDisk | ChildOf(parent: nat)

  function RelationOf(devices: seq<Observation>, k: nat): (r: Relation)
    requires k < |devices|
    ensures r.ChildOf? ==> r.parent < |devices|
  {
    var child := devices[k];
    if child.parentName.None? then NoParent
    else if child.nodeType != PartitionNode then NotPartition
    else
      var parent := FirstNamed(devices, child.parentName.value);
      if parent == |devices| then NoSuchParent
      else if devices[parent].nodeType != WholeDisk then NotDisk
      else ChildOf(parent)
  }

  /** What its relation does to the child itself. */
  function Related(child: Observation, r: Relation): Observation {
    var flagged := child.(issues := child.issues + AddedIf(true, InvalidRelationship, child.kernelName, "parent_kernel_name"));
    match r
    case NotPartition => flagged.(parentName := None)
    case NoSuchParent => flagged
    case NotDisk => flagged.(parentName := None)
    case _ => child
  }

  /** The names of the first n devices that are children of the p-th. */
  function ChildrenOf(devices: seq<Observation>, p: nat, n: nat): seq<string>
    requires n <= |devices|
  {
    if n == 0 then []
    else ChildrenOf(devices, p, n - 1) + if RelationOf(devices, n - 1) == ChildOf(p) then [devices[n - 1].kernelName] else []
  }

  /** The i-th device once the first n devices were related. */
  function RelatedUpTo(devices: seq<Observation>, i: nat, n: nat): Observation
    requires i < |devices| && n <= |devices|
  {
    var o := if i < n then Related(devices[i], RelationOf(devices, i)) else devices[i];
    o.(childNames := devices[i].childNames + ChildrenOf(devices, i, n))
  }

  /** Children and issues in order, each once. */
  function SortLists(o: Observation): Observation {
    o.(childNames := Normalize(o.childNames, Bytes), issues := Normalize(o.issues, BlockIssueKey))
  }

  function RelatedAll(devices: seq<Observation>): seq<Observation> {
    seq(|devices|, i requires 0 <= i < |devices| => SortLists(RelatedUpTo(devices, i, |devices|)))
  }

  method IndexNames(devices: array<Observation>) returns (indices: map<string, nat>)
    ensures forall name :: name in indices <==> FirstNamed(devices[..], name) < devices.Length
    ensures forall name :: name in indices ==> indices[name] == FirstNamed(devices[..], name)
  {
    indices := map[];
    for i := 0 to devices.Length
      invariant forall name :: name in indices <==> FirstNamed(devices[..], name) < i
      invariant forall name :: name in indices ==> indices[name] == FirstNamed(devices[..], name)
    {
      if devices[i].kernelName !in indices {
        indices := indices[devices[i].kernelName := i];
      }
    }
  }

  /** One pass of the loop: the child itself or its parent is edited. */
  function RelateOne(now: seq<Observation>, k: nat, r: Relation): (next: seq<Observation>)
    requires k < |now| && (r.ChildOf? ==> r.parent < |now|)
    ensures |next| == |now|
  {
    if r.ChildOf? then now[r.parent := now[r.parent].(childNames := now[r.parent].childNames + [now[k].kernelName])]
    else now[k := Related(now[k], r)]
  }

  lemma RelateStep(was: seq<Observation>, now: seq<Observation>, k: nat)
    requires k < |was| == |now|
    requires forall i :: 0 <= i < |was| ==> now[i] == RelatedUpTo(was, i, k)
    ensures forall i :: 0 <= i < |was| ==> RelateOne(now, k, RelationOf(was, k))[i] == RelatedUpTo(was, i, k + 1)
  {
    hide RelationOf;
    var r := RelationOf(was, k);
    forall i | 0 <= i < |was| ensures RelateOne(now, k, r)[i] == RelatedUpTo(was, i, k + 1) {
      var added := if r == ChildOf(i) then [was[k].kernelName] else [];
      assert ChildrenOf(was, i, k + 1) == ChildrenOf(was, i, k) + added;
      assert was[i].childNames + (ChildrenOf(was, i, k) + added) == was[i].childNames + ChildrenOf(was, i, k) + added;
    }
  }

  /** Relating keeps names and node types, and a device's parent until its turn. */
  lemma RelatedKeeps(was: seq<Observation>, i: nat, k: nat)
    requires i < |was| && k <= |was|
    ensures RelatedUpTo(was, i, k).kernelName == was[i].kernelName
    ensures RelatedUpTo(was, i, k).nodeType == was[i].nodeType
    ensures i >= k ==> RelatedUpTo(was, i, k) == was[i].(childNames := RelatedUpTo(was, i, k).childNames)
  {
  }

  method ConstructRelationships(devices: array<Observation>)
    modifies devices
    ensures devices[..] == RelatedAll(old(devices[..]))
  {
    hide FirstNamed;
    hide Normalize;
    hide RelatedUpTo;
    ghost var was := devices[..];
    var indices := IndexNames(devices);
    var n := devices.Length;
    RelatedNone(was);
    for k := 0 to n
      invariant forall i :: 0 <= i < n ==> devices[i] == RelatedUpTo(was, i, k)
    {
      ghost var now := devices[..];
      RelateStep(was, now, k);
      RelatedKeeps(was, k, k);
      var child := devices[k];
      if child.parentName.None? {
        assert devices[..] == RelateOne(now, k, RelationOf(was, k));
        continue;
      }
      var flagged := child.(issues := child.issues + AddedIf(true, InvalidRelationship, child.kernelName, "parent_kernel_name"));
      if child.nodeType != PartitionNode {
        devices[k] := flagged.(parentName := None);
        assert devices[..] == RelateOne(now, k, RelationOf(was, k));
        continue;
      }
      if child.parentName.value !in indices {
        devices[k] := flagged;
        assert devices[..] == RelateOne(now, k, RelationOf(was, k));
        continue;
      }
      var parent := indices[child.parentName.value];
      RelatedKeeps(was, parent, k);
      if devices[parent].nodeType != WholeDisk {
        devices[k] := flagged.(parentName := None);
      } else {
        devices[parent] := devices[parent].(childNames := devices[parent].childNames + [child.kernelName]);
      }
      assert devices[..] == RelateOne(now, k, RelationOf(was, k));
    }
    SortDevices(devices);
  }

  method SortDevices(devices: array<Observation>)
    modifies devices
    ensures forall j :: 0 <= j < devices.Length ==> devices[j] == SortLists(old(devices[j]))
  {
    hide SortLists;
    for i := 0 to devices.Length
      invariant forall j :: 0 <= j < i ==> devices[j] == SortLists(old(devices[j]))
      invariant forall j :: i <= j < devices.Length ==> devices[j] == old(devices[j])
    {
      devices[i] := SortLists(devices[i]);
    }
  }

  lemma RelatedNone(was: seq<Observation>)
    ensures forall i :: 0 <= i < |was| ==> RelatedUpTo(was, i, 0) == was[i]
  {
    assert forall i :: 0 <= i < |was| ==> was[i].childNames + [] == was[i].childNames;
  }

  // The scan

  predicate NameCharacter(c: char) {
    c as int > 32 && c as int != 127 && c != '/'
  }

  predicate ValidName(name: string) {
    name != "" && name != "." && name != ".." && forall i :: 0 <= i < |name| ==> NameCharacter(name[i])
  }

  /** The valid names reported, each once and in order. */
  function Names(records: seq<SourceRecord>): seq<string> {
    if records == [] then []
    else
      var rest := Names(records[..|records| - 1]);
      var name := Trimmed(records[|records| - 1].name);
      if ValidName(name) then Insert(name, rest, Bytes) else rest
  }

  /** The observations made under one name, in the order reported. */
  function Under(records: seq<SourceRecord>, name: string): seq<Observation> {
    if records == [] then []
    else
      var last := records[|records| - 1];
      Under(records[..|records| - 1], name) + if Trimmed(last.name) == name then [MapRecord(last, name)] else []
  }

  /** The issues of records whose name cannot be used, and one for each of these names. */
  function Discarded(records: seq<SourceRecord>): seq<BlockIssue> {
    if records == [] then []
    else
      var last := records[|records| - 1];
      var name := Trimmed(last.name);
      Discarded(records[..|records| - 1])
      + if ValidName(name) then [] else last.issues + [NameIssue(name)]
  }

  function NameIssue(name: string): BlockIssue {
    if name == "" then BlockIssue(MissingRequiredField, None, "kernel_name")
    else BlockIssue(MalformedAttribute, Some(name), "kernel_name")
  }

  function MergedAll(records: seq<SourceRecord>): seq<Observation> {
    var names := Names(records);
    seq(|names|, i requires 0 <= i < |names| => MergeRecords(names[i], Under(records, names[i])))
  }

  function Unshared(devices: seq<Observation>): seq<Observation> {
    Rejected(Rejected(Rejected(devices, PathLocator), SysfsLocator), NumberLocator)
  }

  function Scanned(records: seq<SourceRecord>): seq<Observation> {
    RelatedAll(Unshared(MergedAll(records)))
  }

  method GroupRecords(records: seq<SourceRecord>, reported: seq<BlockIssue>)
    returns (names: seq<string>, groups: map<string, seq<Observation>>, issues: seq<BlockIssue>)
    ensures names == Names(records) && Grouped(groups, records) && issues == reported + Discarded(records)
  {
    hide Insert, ValidName, Trimmed, Grouped, MapRecord;
    NoneGrouped();
    names, groups, issues := [], map[], reported;
    assert reported + [] == reported;
    for i := 0 to |records|
      invariant names == Names(records[..i]) && Grouped(groups, records[..i])
      invariant issues == reported + Discarded(records[..i])
    {
      var name := Trimmed(records[i].name);
      GroupAdded(groups, records[..i], records[i]);
      assert records[..i + 1] == records[..i] + [records[i]] && records[..i + 1][..i] == records[..i];
      if !ValidName(name) {
        issues := issues + records[i].issues + [NameIssue(name)];
        assert issues == reported + Discarded(records[..i + 1]);
        continue;
      }
      assert reported + (Discarded(records[..i]) + []) == reported + Discarded(records[..i]);
      var observation := ReadRecord(records[i], name);
      groups := groups[name := (if name in groups then groups[name] else []) + [observation]];
      names := Insert(name, names, Bytes);
    }
    assert records[..|records|] == records;
  }

  method Scan(records: seq<SourceRecord>, reported: seq<BlockIssue>) returns (devices: array<Observation>, issues: seq<BlockIssue>)
    ensures fresh(devices) && devices[..] == Scanned(records)
    ensures issues == Normalize(reported + Discarded(records), BlockIssueKey)
  {
    hide MergedAll, Rejected, RelatedAll, Normalize, Names, Grouped, Discarded;
    var names, groups, found := GroupRecords(records, reported);
    issues := Normalize(found, BlockIssueKey);
    NamesOrdered(records);
    var merged := MergeGroups(records, names, groups);
    devices := new Observation[|merged|](i requires 0 <= i < |merged| => merged[i]);
    assert devices[..] == merged;
    RejectLocatorCollisions(devices, PathLocator);
    RejectLocatorCollisions(devices, SysfsLocator);
    RejectLocatorCollisions(devices, NumberLocator);
    ConstructRelationships(devices);
  }

  /** The observations of each valid name, in the order reported. */
  predicate HoldsGroup(groups: map<string, seq<Observation>>, records: seq<SourceRecord>, name: string) {
    if ValidName(name) then (if name in groups then groups[name] else []) == Under(records, name) else name !in groups
  }

  ghost predicate Grouped(groups: map<string, seq<Observation>>, records: seq<SourceRecord>) {
    forall name :: HoldsGroup(groups, records, name)
  }

  lemma NoneGrouped()
    ensures Grouped(map[], [])
  {
  }

  lemma GroupAdded(groups: map<string, seq<Observation>>, front: seq<SourceRecord>, r: SourceRecord)
    requires Grouped(groups, front)
    ensures var name := Trimmed(r.name);
      if !ValidName(name) then Grouped(groups, front + [r])
      else Grouped(groups[name := (if name in groups then groups[name] else []) + [MapRecord(r, name)]], front + [r])
  {
    hide ValidName, Trimmed, Under, MapRecord;
    var name := Trimmed(r.name);
    var extended := if ValidName(name) then groups[name := (if name in groups then groups[name] else []) + [MapRecord(r, name)]] else groups;
    forall other ensures HoldsGroup(extended, front + [r], other) {
      UnderAdded(front, r, other);
      assert HoldsGroup(groups, front, other);
    }
  }

  lemma UnderAdded(front: seq<SourceRecord>, r: SourceRecord, name: string)
    ensures Under(front + [r], name) == if Trimmed(r.name) == name then Under(front, name) + [MapRecord(r, name)] else Under(front, name)
  {
    hide Trimmed, MapRecord;
    assert (front + [r])[..|front|] == front;
    assert Under(front, name) + [] == Under(front, name);
  }

  method MergeGroups(records: seq<SourceRecord>, names: seq<string>, groups: map<string, seq<Observation>>) returns (merged: seq<Observation>)
    requires names == Names(records) && Grouped(groups, records)
    requires forall i :: 0 <= i < |names| ==> ValidName(names[i])
    ensures merged == MergedAll(records)
  {
    hide MergeRecords, ValidName, Under, Names, MapRecord;
    merged := [];
    for i := 0 to |names|
      invariant merged == MergedAll(records)[..i]
    {
      assert HoldsGroup(groups, records, names[i]);
      var one := MergeOne(names[i], if names[i] in groups then groups[names[i]] else []);
      merged := merged + [one];
    }
  }

  lemma {:induction false} NamesOrdered(records: seq<SourceRecord>)
    ensures Ascending(Names(records), Bytes)
    ensures forall i :: 0 <= i < |Names(records)| ==> ValidName(Names(records)[i])
  {
    hide ValidName, Insert, Trimmed;
    if records != [] {
      var rest := Names(records[..|records| - 1]);
      var name := Trimmed(records[|records| - 1].name);
      NamesOrdered(records[..|records| - 1]);
      InsertKey(name, rest);
      if ValidName(name) {
        forall i | 0 <= i < |Insert(name, rest, Bytes)| ensures ValidName(Insert(name, rest, Bytes)[i]) {
          assert Insert(name, rest, Bytes)[i] in Elements(Insert(name, rest, Bytes));
        }
      }
    }
  }

  predicate Childless(devices: seq<Observation>) {
    forall i :: 0 <= i < |devices| ==> devices[i].childNames == []
  }

  lemma RejectedKeeps(devices: seq<Observation>, l: Locator)
    requires DistinctNames(devices) && Childless(devices)
    ensures DistinctNames(Rejected(devices, l)) && Childless(Rejected(devices, l))
  {
    hide Collides;
  }

  lemma MergedKeeps(records: seq<SourceRecord>)
    ensures DistinctNames(MergedAll(records)) && Childless(MergedAll(records))
  {
    NamesOrdered(records);
    forall i, j | 0 <= i < j < |Names(records)| ensures Names(records)[i] != Names(records)[j] {
      BeforeIrreflexive(Bytes(Names(records)[i]));
    }
    hide Names, Under, AllIssues, Merged, DisagreeOn, MapRecord;
  }

  /** A partition that names a disk as its parent. */
  predicate PartitionOf(child: Observation, parent: Observation) {
    child.nodeType == PartitionNode && child.parentName == Some(parent.kernelName) && parent.nodeType == WholeDisk
  }

  lemma {:induction false} ChildrenAre(devices: seq<Observation>, p: nat, n: nat)
    requires p < |devices| && n <= |devices| && DistinctNames(devices)
    ensures forall name :: name in ChildrenOf(devices, p, n) <==>
      exists c :: 0 <= c < n && devices[c].kernelName == name && PartitionOf(devices[c], devices[p])
  {
    if n > 0 {
      ChildrenAre(devices, p, n - 1);
      RelationIs(devices, n - 1, p);
      hide RelationOf, PartitionOf;
    }
  }

  lemma RelationIs(devices: seq<Observation>, c: nat, p: nat)
    requires c < |devices| && p < |devices| && DistinctNames(devices)
    ensures RelationOf(devices, c) == ChildOf(p) <==> PartitionOf(devices[c], devices[p])
  {
    var child := devices[c];
    if child.parentName.Some? {
      var parent := FirstNamed(devices, child.parentName.value);
      assert parent < |devices| && child.parentName.value == devices[p].kernelName ==> parent == p;
    }
  }

  /** Relating leaves untouched what decides whether one is a partition of the other. */
  lemma PartitionOfKept(devices: seq<Observation>, c: nat, p: nat)
    requires c < |devices| && p < |devices| && DistinctNames(devices)
    ensures PartitionOf(RelatedAll(devices)[c], RelatedAll(devices)[p]) <==> PartitionOf(devices[c], devices[p])
  {
    hide Normalize, ChildrenOf;
    RelationIs(devices, c, p);
    if devices[c].parentName == Some(devices[p].kernelName) {
      var parent := FirstNamed(devices, devices[p].kernelName);
      assert parent == p;
    }
  }

  lemma AscendingOnce(s: seq<string>, x: string)
    requires Ascending(s, Bytes)
    ensures multiset(s)[x] == if x in s then 1 else 0
  {
    if x in s {
      var i :| 0 <= i < |s| && s[i] == x;
      assert s == s[..i] + [x] + s[i + 1..];
      forall j | 0 <= j < |s| && j != i ensures s[j] != x {
        BeforeIrreflexive(Bytes(x));
      }
      assert x !in s[..i] && x !in s[i + 1..];
    }
  }

  // Main results

  /** After the raw scan: a device name appears exactly once among a device's
      children when it is that of a partition naming the device, a disk, as its
      parent, and otherwise not at all. */
  lemma ScanIsReciprocal(records: seq<SourceRecord>, p: nat, name: string)
    requires p < |Scanned(records)|
    ensures var devices := Scanned(records);
      multiset(devices[p].childNames)[name] ==
        if exists c :: 0 <= c < |devices| && devices[c].kernelName == name && PartitionOf(devices[c], devices[p]) then 1 else 0
  {
    var merged := MergedAll(records);
    MergedKeeps(records);
    RejectedKeeps(merged, PathLocator);
    RejectedKeeps(Rejected(merged, PathLocator), SysfsLocator);
    RejectedKeeps(Rejected(Rejected(merged, PathLocator), SysfsLocator), NumberLocator);
    hide MergedAll;
    RelatedReciprocal(Unshared(merged), p, name);
  }

  lemma RelatedReciprocal(located: seq<Observation>, p: nat, name: string)
    requires p < |located| && DistinctNames(located) && Childless(located)
    ensures var devices := RelatedAll(located);
      multiset(devices[p].childNames)[name] ==
        if exists c :: 0 <= c < |devices| && devices[c].kernelName == name && PartitionOf(devices[c], devices[p]) then 1 else 0
  {
    var devices := RelatedAll(located);
    forall c | 0 <= c < |devices|
      ensures devices[c].kernelName == located[c].kernelName
      ensures PartitionOf(devices[c], devices[p]) <==> PartitionOf(located[c], located[p])
    {
      PartitionOfKept(located, c, p);
    }
    var children := ChildrenOf(located, p, |located|);
    assert located[p].childNames + children == children;
    assert devices[p].childNames == Normalize(children, Bytes);
    hide RelatedAll, PartitionOf, Normalize;
    ChildrenAre(located, p, |located|);
    BytesInjective();
    NormalizeCorrect(children, Bytes);
    assert name in Elements(Normalize(children, Bytes)) <==> name in Elements(children);
    AscendingOnce(Normalize(children, Bytes), name);
  }

  /** After the raw scan no locator is shared by two devices, and each one was kept
      exactly when no other device's records reported it. */
  lemma ScannedLocators(records: seq<SourceRecord>, l: Locator, i: nat)
    requires i < |Scanned(records)|
    ensures |MergedAll(records)| == |Scanned(records)|
    ensures Located(Scanned(records)[i], l) ==
      if Collides(MergedAll(records), l, i) then None else Located(MergedAll(records)[i], l)
    ensures !Collides(Scanned(records), l, i)
  {
    hide MergedAll;
    hide Located;
    hide Collides;
    hide MergeRecords;
    var m := MergedAll(records);
    var a := Rejected(m, PathLocator);
    var b := Rejected(a, SysfsLocator);
    var c := Rejected(b, NumberLocator);
    forall k: nat | k < |m|
      ensures l != PathLocator ==> Located(a[k], l) == Located(m[k], l)
      ensures l != SysfsLocator ==> Located(b[k], l) == Located(a[k], l)
      ensures l != NumberLocator ==> Located(c[k], l) == Located(b[k], l)
      ensures Located(Scanned(records)[k], l) == Located(c[k], l)
    {
      OtherLocated(m, PathLocator, l, k);
      OtherLocated(a, SysfsLocator, l, k);
      OtherLocated(b, NumberLocator, l, k);
      RelatedLocated(c, l, k);
    }
    match l
    case PathLocator => KeptWhereUnique(m, m, Scanned(records), l, i);
    case SysfsLocator => KeptWhereUnique(m, a, Scanned(records), l, i);
    case NumberLocator => KeptWhereUnique(m, b, Scanned(records), l, i);
  }

  lemma OtherLocated(devices: seq<Observation>, pass: Locator, l: Locator, k: nat)
    requires k < |devices|
    ensures pass != l ==> Located(Rejected(devices, pass)[k], l) == Located(devices[k], l)
  {
    hide Collides;
  }

  lemma RelatedLocated(devices: seq<Observation>, l: Locator, k: nat)
    requires k < |devices|
    ensures Located(RelatedAll(devices)[k], l) == Located(devices[k], l)
  {
    hide RelationOf, Normalize, ChildrenOf;
  }

  /** The pass for one locator, between passes that leave it alone. */
  lemma KeptWhereUnique(first: seq<Observation>, before: seq<Observation>, last: seq<Observation>, l: Locator, i: nat)
    requires i < |first| == |before| == |last|
    requires forall k: nat :: k < |first| ==> Located(before[k], l) == Located(first[k], l)
    requires |Rejected(before, l)| == |first|
    requires forall k: nat :: k < |first| ==> Located(last[k], l) == Located(Rejected(before, l)[k], l)
    ensures Located(last[i], l) == if Collides(first, l, i) then None else Located(first[i], l)
    ensures !Collides(last, l, i)
  {
    hide Located, Collides, Rejected;
    RejectedLocators(before, l, i);
    RejectedLength(before, l);
    SameLocated(first, before, l, i);
    SameLocated(Rejected(before, l), last, l, i);
  }

  lemma RejectedLength(devices: seq<Observation>, l: Locator)
    ensures |Rejected(devices, l)| == |devices|
  {
  }

  lemma SameLocated(a: seq<Observation>, b: seq<Observation>, l: Locator, i: nat)
    requires i < |a| == |b| && forall k: nat :: k < |a| ==> Located(a[k], l) == Located(b[k], l)
    ensures Collides(a, l, i) <==> Collides(b, l, i)
  {
    hide Located;
    if j :| 0 <= j < |a| && j != i && Located(a[j], l) == Located(a[i], l) {
      assert Located(b[j], l) == Located(b[i], l);
    }
    if j :| 0 <= j < |a| && j != i && Located(b[j], l) == Located(b[i], l) {
      assert Located(a[j], l) == Located(a[i], l);
    }
  }
}
