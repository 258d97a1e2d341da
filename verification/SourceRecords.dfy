/** The observation made of one source record: every attribute read, or reported. */
module SourceRecords {
  import opened Text
  import opened Inventory
  import opened Canonical
  import opened IssueOrder
  import opened Identifiers
  import opened Capacity

  /** One observation of what kind of device this is, and where it was made. */
  datatype KindFact = KindFact(source: string, value: string)

  /** What the source reports of one device, as it was spelled. */
  datatype SourceRecord = SourceRecord(
    name: string,
    currentPath: Option<string>,
    sysfsPath: Option<string>,
    nodeType: Option<string>,
    majorNumber: Option<string>,
    minorNumber: Option<string>,
    capacitySectors: Option<string>,
    vendor: Option<string>,
    model: Option<string>,
    serial: Option<string>,
    wwn: Option<string>,
    nvmeEui: Option<string>,
    nvmeNguid: Option<string>,
    rotational: Option<string>,
    removable: Option<string>,
    readOnly: Option<string>,
    transport: Option<string>,
    parentName: Option<string>,
    partitionNumber: Option<string>,
    kinds: seq<KindFact>,
    kind: ObservationKind,
    issues: seq<BlockIssue>)

  type Issues = seq<BlockIssue>

  const UINT32_MAX: nat := 0xFFFF_FFFF

  /** The value read, if any, and the issues known afterwards. */
  datatype Reading<+T> = Reading(value: Option<T>, issues: Issues)

  function Report(issues: Issues, code: BlockIssueCode, name: string, field: string): Issues {
    issues + [BlockIssue(code, Some(name), field)]
  }

  predicate Spoils(issue: BlockIssue, field: string) {
    issue.field == field && issue.code in {SourceReadFailure, DeviceDisappeared, ConflictingAttribute, MalformedAttribute, CapacityOverflow}
  }

  predicate Unreliable(issues: Issues, field: string) {
    exists i :: 0 <= i < |issues| && Spoils(issues[i], field)
  }

  // Attributes

  predicate Plain(s: string) {
    s != "" && forall i :: 0 <= i < |s| ==> s[i] as int >= 32 && s[i] as int != 127
  }

  function Malformed<T>(issues: Issues, name: string, field: string): Reading<T> {
    Reading(None, Report(issues, MalformedAttribute, name, field))
  }

  function ParseText(raw: Option<string>, field: string, name: string, issues: Issues): Reading<string> {
    if raw.None? || Unreliable(issues, field) then Reading(None, issues)
    else if Plain(Trimmed(raw.value)) then Reading(Some(Trimmed(raw.value)), issues)
    else Malformed(issues, name, field)
  }

  predicate Unsigned32(s: string) {
    s != "" && AllDigits(s) && Value(s) <= UINT32_MAX
  }

  function ParseUnsigned(raw: Option<string>, field: string, name: string, issues: Issues): Reading<nat> {
    if raw.None? || Unreliable(issues, field) then Reading(None, issues)
    else if Unsigned32(Trimmed(raw.value)) then Reading(Some(Value(Trimmed(raw.value))), issues)
    else Malformed(issues, name, field)
  }

  function ParseBoolean(raw: Option<string>, field: string, name: string, issues: Issues): Reading<bool> {
    if raw.None? || Unreliable(issues, field) then Reading(None, issues)
    else if Trimmed(raw.value) == "0" then Reading(Some(false), issues)
    else if Trimmed(raw.value) == "1" then Reading(Some(true), issues)
    else Malformed(issues, name, field)
  }

  function ParseNodeType(raw: Option<string>, name: string, issues: Issues): Reading<NodeType> {
    if Unreliable(issues, "node_type") then Reading(None, issues)
    else if raw.None? then Reading(None, Report(issues, MissingRequiredField, name, "node_type"))
    else if Trimmed(raw.value) == "disk" then Reading(Some(WholeDisk), issues)
    else if Trimmed(raw.value) == "partition" then Reading(Some(PartitionNode), issues)
    else Malformed(issues, name, "node_type")
  }

  function ParseDeviceNumber(r: SourceRecord, name: string, issues: Issues): Reading<DeviceNumber> {
    if Unreliable(issues, "device_number") then Reading(None, issues)
    else if r.majorNumber.None? || r.minorNumber.None? then Reading(None, Report(issues, MissingRequiredField, name, "device_number"))
    else
      var major := ParseUnsigned(r.majorNumber, "major_number", name, issues);
      var minor := ParseUnsigned(r.minorNumber, "minor_number", name, major.issues);
      Reading(if major.value.None? || minor.value.None? then None else Some(DeviceNumber(major.value.value, minor.value.value)),
              minor.issues)
  }

  function ReadCapacity(raw: Option<string>, name: string, issues: Issues): Reading<nat> {
    match ParseCapacity(raw, Unreliable(issues, "capacity_sectors_512"))
    case Success(bytes) => Reading(Some(bytes), issues)
    case Failure(None) => Reading(None, issues)
    case Failure(Some(code)) => Reading(None, Report(issues, code, name, "capacity_sectors_512"))
  }

  /** A path in normal form below the prefix. */
  predicate PathUnder(path: string, prefix: string) {
    && prefix < path && path[|path| - 1] != '/' && !Contains(path, "//")
    && !Contains(path + "/", "/../") && !Contains(path + "/", "/./")
  }

  function ParsePath(raw: Option<string>, prefix: string, field: string, name: string, issues: Issues): Reading<string> {
    var text := ParseText(raw, field, name, issues);
    if text.value.None? || PathUnder(text.value.value, prefix) then text else Malformed(text.issues, name, field)
  }

  predicate HexCharacter(c: char) {
    IsHexDigit(LowerHex(c))
  }

  predicate HexButNotZero(s: string) {
    !Only(s, '0') && forall i :: 0 <= i < |s| ==> HexCharacter(s[i])
  }

  /** A namespace identifier in a spelling that the kernel uses, not all zeros. */
  predicate NvmeSpelling(value: string, digits: nat) {
    var compact := if Grouped(value, digits, true) then Ungrouped(value, digits) else Some(value);
    compact.Some? && |compact.value| == digits && HexButNotZero(compact.value)
  }

  function ParseNvme(raw: Option<string>, digits: nat, field: string, name: string, issues: Issues): Reading<string> {
    var text := ParseText(raw, field, name, issues);
    if text.value.None? || NvmeSpelling(text.value.value, digits) then text else Malformed(text.issues, name, field)
  }

  /** The characters of an identifier between its separators, if there are any. */
  method Compact(value: string, digits: nat) returns (laidOut: bool, compact: string)
    ensures Grouped(value, digits, true) ==> Ungrouped(value, digits) == if laidOut then Some(compact) else None
    ensures !Grouped(value, digits, true) ==> compact == value && laidOut == (|value| == digits)
  {
    hide SeparatorAt, Separator;
    laidOut, compact := |value| == digits, value;
    if Grouped(value, digits, true) {
      laidOut, compact := true, "";
      for i := 0 to |value|
        invariant Ungrouped(value[..i], digits) == if laidOut then Some(compact) else None
      {
        assert value[..i + 1][..i] == value[..i];
        if SeparatorAt(digits, i) {
          laidOut := laidOut && value[i] == Separator(digits);
        } else {
          compact := compact + [value[i]];
        }
      }
      assert value[..|value|] == value;
    }
  }

  method ReadHex(s: string) returns (ok: bool)
    ensures ok == HexButNotZero(s)
  {
    hide HexCharacter;
    var hex, zero := true, true;
    for i := 0 to |s|
      invariant hex <==> forall j :: 0 <= j < i ==> HexCharacter(s[j])
      invariant zero <==> forall j :: 0 <= j < i ==> s[j] == '0'
    {
      hex := hex && HexCharacter(s[i]);
      zero := zero && s[i] == '0';
    }
    ok := hex && !zero;
  }

  method ReadNvme(raw: Option<string>, digits: nat, field: string, name: string, issues: Issues) returns (r: Reading<string>)
    ensures r == ParseNvme(raw, digits, field, name, issues)
  {
    hide ParseText, Grouped, Ungrouped, HexButNotZero;
    r := ParseText(raw, field, name, issues);
    if r.value.None? {
      return;
    }
    var laidOut, compact := Compact(r.value.value, digits);
    var ok := ReadHex(compact);
    if !laidOut || |compact| != digits || !ok {
      r := Malformed(r.issues, name, field);
    }
  }

  // What kind of device it is

  /** The kinds that the facts read so far speak for; `unknown` once one says nothing
      that is understood. */
  datatype Kinds = Kinds(disk: bool, optical: bool, floppy: bool, nvme: bool, unknown: bool, issues: Issues)

  const SCSI_DISKS: set<nat> := {0, 14, 20}
  const SCSI_OPTICALS: set<nat> := {4, 5, 7, 15}

  function WeighType(k: Kinds, value: string, name: string): Kinds {
    var scsi := ParseUnsigned(Some(value), "physical_kind", name, k.issues);
    var read := k.(issues := scsi.issues);
    if scsi.value.None? then read.(unknown := true)
    else if scsi.value.value in SCSI_DISKS then read.(disk := true)
    else if scsi.value.value in SCSI_OPTICALS then read.(optical := true)
    else read.(unknown := true)
  }

  function WeighName(k: Kinds, value: string): Kinds {
    if value == "disk" then k.(disk := true)
    else if value == "cd" || value == "optical" then k.(optical := true)
    else if value == "floppy" then k.(floppy := true)
    else k.(unknown := true)
  }

  function WeighFlag(k: Kinds, value: string, cdrom: bool, name: string): Kinds {
    var flag := ParseBoolean(Some(value), "physical_kind", name, k.issues);
    var read := k.(issues := flag.issues);
    if flag.value.None? then read.(unknown := true)
    else if !flag.value.value then read
    else if cdrom then read.(optical := true)
    else read.(floppy := true)
  }

  /** Where a fact was observed. */
  datatype Family = ScsiType | TypeName | CdromFlag | FloppyFlag | Subsystem | Elsewhere

  function FamilyOf(source: string): Family {
    if source == "sysfs:scsi/type" then ScsiType
    else if source == "udev:ID_TYPE" || source == "udev:ID_USB_TYPE" then TypeName
    else if source == "udev:ID_CDROM" then CdromFlag
    else if source == "udev:ID_DRIVE_FLOPPY" then FloppyFlag
    else if source == "sysfs:parent/subsystem" then Subsystem
    else Elsewhere
  }

  function Weigh(k: Kinds, fact: KindFact, name: string): Kinds {
    var value := Trimmed(fact.value);
    match FamilyOf(fact.source)
    case ScsiType => WeighType(k, value, name)
    case TypeName => WeighName(k, value)
    case CdromFlag => WeighFlag(k, value, true, name)
    case FloppyFlag => WeighFlag(k, value, false, name)
    case Subsystem => if value == "nvme" then k.(nvme := true, disk := true) else k.(unknown := true)
    case Elsewhere => k.(unknown := true)
  }

  function WeighAll(facts: seq<KindFact>, name: string, issues: Issues): Kinds {
    if facts == [] then Kinds(false, false, false, false, false, issues)
    else Weigh(WeighAll(facts[..|facts| - 1], name, issues), facts[|facts| - 1], name)
  }

  function Conclude(k: Kinds, name: string): Reading<PhysicalKind> {
    if (k.optical && (k.disk || k.floppy)) || (k.nvme && k.floppy) then
      Reading(None, Report(k.issues, ConflictingAttribute, name, "physical_kind"))
    else if k.unknown || Unreliable(k.issues, "physical_kind") then Reading(None, k.issues)
    else Reading(if k.floppy then Some(FloppyKind) else if k.optical then Some(OpticalKind) else if k.disk then Some(DiskKind) else None,
                 k.issues)
  }

  method ReadPhysicalKind(facts: seq<KindFact>, name: string, issues: Issues) returns (r: Reading<PhysicalKind>)
    ensures r == Conclude(WeighAll(facts, name, issues), name)
  {
    var k := Kinds(false, false, false, false, false, issues);
    for i := 0 to |facts|
      invariant k == WeighAll(facts[..i], name, issues)
    {
      assert facts[..i + 1][..i] == facts[..i];
      k := Weigh(k, facts[i], name);
    }
    assert facts[..|facts|] == facts;
    r := Conclude(k, name);
  }

  /** What one fact says on its own. */
  datatype Vote = ForDisk | ForOptical | ForFloppy | ForNothing | NotUnderstood

  function SaysType(value: string): Vote {
    if !Unsigned32(value) then NotUnderstood
    else if Value(value) in {0, 14, 20} then ForDisk
    else if Value(value) in {4, 5, 7, 15} then ForOptical
    else NotUnderstood
  }

  function SaysName(value: string): Vote {
    if value == "disk" then ForDisk
    else if value == "cd" || value == "optical" then ForOptical
    else if value == "floppy" then ForFloppy
    else NotUnderstood
  }

  function SaysFlag(value: string, meant: Vote): Vote {
    if value == "0" then ForNothing else if value == "1" then meant else NotUnderstood
  }

  function Says(fact: KindFact): Vote {
    var value := Trimmed(fact.value);
    match FamilyOf(fact.source)
    case ScsiType => SaysType(value)
    case TypeName => SaysName(value)
    case CdromFlag => SaysFlag(value, ForOptical)
    case FloppyFlag => SaysFlag(value, ForFloppy)
    case Subsystem => if value == "nvme" then ForDisk else NotUnderstood
    case Elsewhere => NotUnderstood
  }

  predicate Voted(facts: seq<KindFact>, v: Vote) {
    exists i :: 0 <= i < |facts| && Says(facts[i]) == v
  }

  // The whole record

  /** Issues about no device in particular are this device's. */
  function Owned(issues: Issues, name: string): Issues {
    seq(|issues|, i requires 0 <= i < |issues| => if issues[i].kernelName.None? then issues[i].(kernelName := Some(name)) else issues[i])
  }

  function ParseOrdinal(raw: Option<string>, nodeType: NodeType, name: string, issues: Issues): Reading<nat> {
    var number := ParseUnsigned(raw, "partition_number", name, issues);
    if number.value.Some? && (number.value.value == 0 || nodeType != PartitionNode)
    then Reading(None, Report(number.issues, InvalidRelationship, name, "partition_number"))
    else number
  }

  /** The readings of a record's attributes, each with the issues known after it. */
  datatype Readings = Readings(
    physicalKind: Reading<PhysicalKind>,
    currentPath: Reading<string>,
    sysfsPath: Reading<string>,
    nodeType: Reading<NodeType>,
    deviceNumber: Reading<DeviceNumber>,
    capacity: Reading<nat>,
    vendor: Reading<string>,
    model: Reading<string>,
    serial: Reading<string>,
    wwn: Reading<string>,
    nvmeEui: Reading<string>,
    nvmeNguid: Reading<string>,
    rotational: Reading<bool>,
    removable: Reading<bool>,
    readOnly: Reading<bool>,
    transport: Reading<string>,
    parentName: Reading<string>,
    ordinal: Reading<nat>)

  function ReadAll(r: SourceRecord, name: string): Readings {
    var a := Conclude(WeighAll(r.kinds, name, r.issues), name);
    var b := ParsePath(r.currentPath, "/dev/", "current_path", name, Owned(a.issues, name));
    var c := ParsePath(r.sysfsPath, "/sys/", "sysfs_path", name, b.issues);
    var d := ParseNodeType(r.nodeType, name, c.issues);
    var e := ParseDeviceNumber(r, name, d.issues);
    var f := ReadCapacity(r.capacitySectors, name, e.issues);
    var g := ParseText(r.vendor, "vendor", name, f.issues);
    var h := ParseText(r.model, "model", name, g.issues);
    var i := ParseText(r.serial, "serial", name, h.issues);
    var j := ParseText(r.wwn, "wwn", name, i.issues);
    var k := ParseNvme(r.nvmeEui, 16, "nvme_eui", name, j.issues);
    var l := ParseNvme(r.nvmeNguid, 32, "nvme_nguid", name, k.issues);
    var m := ParseBoolean(r.rotational, "rotational", name, l.issues);
    var n := ParseBoolean(r.removable, "removable", name, m.issues);
    var o := ParseBoolean(r.readOnly, "read_only", name, n.issues);
    var p := ParseText(r.transport, "transport", name, o.issues);
    var q := ParseText(r.parentName, "parent_kernel_name", name, p.issues);
    var s := ParseOrdinal(r.partitionNumber, d.value.GetOr(UnknownNode), name, q.issues);
    Readings(a, b, c, d, e, f, g, h, i, j, k, l, m, n, o, p, q, s)
  }

  function MapRecord(r: SourceRecord, name: string): Observation {
    var x := ReadAll(r, name);
    Observation(name, x.currentPath.value, x.sysfsPath.value, x.nodeType.value.GetOr(UnknownNode), x.deviceNumber.value, x.capacity.value,
                x.vendor.value, x.model.value, x.serial.value, x.wwn.value, x.nvmeEui.value, x.nvmeNguid.value, x.transport.value,
                x.rotational.value, x.removable.value, x.readOnly.value, x.parentName.value, [], x.ordinal.value, r.kind,
                x.physicalKind.value.GetOr(UnknownPhysical), Normalize(x.ordinal.issues, BlockIssueKey))
  }

  /** Reads every attribute of a record in turn. */
  method ReadRecord(r: SourceRecord, name: string) returns (o: Observation)
    ensures o == MapRecord(r, name)
  {
    hide Conclude, WeighAll, ParsePath, ParseText, ParseNvme, ParseBoolean, ParseNodeType, ParseDeviceNumber, ReadCapacity, ParseOrdinal, Owned,
         Normalize;
    var physicalKind := ReadPhysicalKind(r.kinds, name, r.issues);
    var currentPath := ParsePath(r.currentPath, "/dev/", "current_path", name, Owned(physicalKind.issues, name));
    var sysfsPath := ParsePath(r.sysfsPath, "/sys/", "sysfs_path", name, currentPath.issues);
    var nodeType := ParseNodeType(r.nodeType, name, sysfsPath.issues);
    var deviceNumber := ParseDeviceNumber(r, name, nodeType.issues);
    var capacity := ReadCapacity(r.capacitySectors, name, deviceNumber.issues);
    var vendor := ParseText(r.vendor, "vendor", name, capacity.issues);
    var model := ParseText(r.model, "model", name, vendor.issues);
    var serial := ParseText(r.serial, "serial", name, model.issues);
    var wwn := ParseText(r.wwn, "wwn", name, serial.issues);
    var nvmeEui := ReadNvme(r.nvmeEui, 16, "nvme_eui", name, wwn.issues);
    var nvmeNguid := ReadNvme(r.nvmeNguid, 32, "nvme_nguid", name, nvmeEui.issues);
    var rotational := ParseBoolean(r.rotational, "rotational", name, nvmeNguid.issues);
    var removable := ParseBoolean(r.removable, "removable", name, rotational.issues);
    var readOnly := ParseBoolean(r.readOnly, "read_only", name, removable.issues);
    var transport := ParseText(r.transport, "transport", name, readOnly.issues);
    var parentName := ParseText(r.parentName, "parent_kernel_name", name, transport.issues);
    var ordinal := ParseOrdinal(r.partitionNumber, nodeType.value.GetOr(UnknownNode), name, parentName.issues);
    o := Observation(name, currentPath.value, sysfsPath.value, nodeType.value.GetOr(UnknownNode), deviceNumber.value, capacity.value,
                     vendor.value, model.value, serial.value, wwn.value, nvmeEui.value, nvmeNguid.value, transport.value,
                     rotational.value, removable.value, readOnly.value, parentName.value, [], ordinal.value, r.kind,
                     physicalKind.value.GetOr(UnknownPhysical), Normalize(ordinal.issues, BlockIssueKey));
  }

  // A disk is called a disk

  /** As long as every fact was understood the flags are the votes so far. */
  predicate Tallied(k: Kinds, facts: seq<KindFact>, issues: Issues) {
    && (k.unknown ==> Voted(facts, NotUnderstood) || Unreliable(issues, "physical_kind"))
    && (!k.unknown ==>
         && k.issues == issues && !Voted(facts, NotUnderstood)
         && (k.disk <==> Voted(facts, ForDisk)) && (k.optical <==> Voted(facts, ForOptical)) && (k.floppy <==> Voted(facts, ForFloppy)))
  }

  lemma VotedOneMore(facts: seq<KindFact>, fact: KindFact, v: Vote)
    ensures Voted(facts + [fact], v) <==> Voted(facts, v) || Says(fact) == v
  {
    hide Says;
    if i :| 0 <= i < |facts| && Says(facts[i]) == v {
      assert (facts + [fact])[i] == facts[i];
    }
    assert (facts + [fact])[|facts|] == fact;
  }

  /** `l` is `k` after a fact that says `v`. */
  predicate Counted(k: Kinds, l: Kinds, v: Vote) {
    && (k.unknown ==> l.unknown)
    && (l.unknown ==> k.unknown || v == NotUnderstood || Unreliable(k.issues, "physical_kind"))
    && (!l.unknown ==>
         && l.issues == k.issues && v != NotUnderstood
         && l.disk == (k.disk || v == ForDisk) && l.optical == (k.optical || v == ForOptical) && l.floppy == (k.floppy || v == ForFloppy))
  }

  lemma TypeCounted(k: Kinds, value: string, name: string)
    requires Trimmed(value) == value
    ensures Counted(k, WeighType(k, value, name), SaysType(value))
  {
    hide Trimmed, Unsigned32, Value, Unreliable;
  }

  lemma NameCounted(k: Kinds, value: string)
    ensures Counted(k, WeighName(k, value), SaysName(value))
  {
    hide Unreliable;
  }

  lemma FlagCounted(k: Kinds, value: string, cdrom: bool, name: string)
    requires Trimmed(value) == value
    ensures Counted(k, WeighFlag(k, value, cdrom, name), SaysFlag(value, if cdrom then ForOptical else ForFloppy))
  {
    hide Trimmed, Unreliable;
  }

  lemma WeighCounted(k: Kinds, fact: KindFact, name: string)
    ensures Counted(k, Weigh(k, fact, name), Says(fact))
  {
    hide FamilyOf, Trimmed, WeighType, WeighName, WeighFlag, SaysType, SaysName, SaysFlag, Unreliable;
    var value := Trimmed(fact.value);
    TrimmedAgain(fact.value);
    TypeCounted(k, value, name);
    NameCounted(k, value);
    FlagCounted(k, value, true, name);
    FlagCounted(k, value, false, name);
  }

  lemma WeighTallies(k: Kinds, facts: seq<KindFact>, fact: KindFact, name: string, issues: Issues)
    requires Tallied(k, facts, issues)
    ensures Tallied(Weigh(k, fact, name), facts + [fact], issues)
  {
    hide Voted, Weigh, Says, Unreliable;
    VotedOneMore(facts, fact, NotUnderstood);
    VotedOneMore(facts, fact, ForDisk);
    VotedOneMore(facts, fact, ForOptical);
    VotedOneMore(facts, fact, ForFloppy);
    WeighCounted(k, fact, name);
  }

  lemma {:induction false} WeighAllTallies(facts: seq<KindFact>, name: string, issues: Issues)
    ensures Tallied(WeighAll(facts, name, issues), facts, issues)
  {
    hide Tallied, Weigh;
    if facts == [] {
      NoVotes(issues);
    } else {
      var front := facts[..|facts| - 1];
      WeighAllTallies(front, name, issues);
      WeighTallies(WeighAll(front, name, issues), front, facts[|facts| - 1], name, issues);
      assert facts == front + [facts[|facts| - 1]];
    }
  }

  lemma NoVotes(issues: Issues)
    ensures Tallied(Kinds(false, false, false, false, false, issues), [], issues)
  {
  }

  /** A device is classified as a disk exactly when nothing reported earlier spoils the
      evidence, every fact is understood, some fact speaks for a disk, and none for an
      optical or floppy drive. */
  lemma ClassifiedAsDisk(facts: seq<KindFact>, name: string, issues: Issues)
    ensures Conclude(WeighAll(facts, name, issues), name).value == Some(DiskKind) <==>
      && !Unreliable(issues, "physical_kind") && !Voted(facts, NotUnderstood)
      && Voted(facts, ForDisk) && !Voted(facts, ForOptical) && !Voted(facts, ForFloppy)
  {
    hide Voted, Unreliable, WeighAll;
    WeighAllTallies(facts, name, issues);
  }

  /** What a record must say to be of a disk. */
  predicate EvidentDisk(r: SourceRecord) {
    && !Unreliable(r.issues, "physical_kind") && !Voted(r.kinds, NotUnderstood)
    && Voted(r.kinds, ForDisk) && !Voted(r.kinds, ForOptical) && !Voted(r.kinds, ForFloppy)
  }

  /** What a record must say to be of a whole device. */
  predicate SaidDisk(r: SourceRecord) {
    r.nodeType.Some? && Trimmed(r.nodeType.value) == "disk" && !Unreliable(r.issues, "node_type")
  }

  lemma KeepsReliable(issues: Issues, code: BlockIssueCode, name: string, field: string, other: string)
    requires other != field
    ensures Unreliable(Report(issues, code, name, field), other) == Unreliable(issues, other)
  {
    var more := Report(issues, code, name, field);
    if i :| 0 <= i < |issues| && Spoils(issues[i], other) {
      assert more[i] == issues[i];
    }
  }

  lemma WeighReliable(k: Kinds, fact: KindFact, name: string)
    ensures Unreliable(Weigh(k, fact, name).issues, "node_type") == Unreliable(k.issues, "node_type")
  {
    hide Trimmed, FamilyOf, WeighType, WeighFlag, Unreliable;
    TypeReliable(k, Trimmed(fact.value), name);
    FlagReliable(k, Trimmed(fact.value), true, name);
    FlagReliable(k, Trimmed(fact.value), false, name);
  }

  lemma TypeReliable(k: Kinds, value: string, name: string)
    ensures Unreliable(WeighType(k, value, name).issues, "node_type") == Unreliable(k.issues, "node_type")
  {
    hide Trimmed, Unsigned32, Value, Unreliable, Report;
    KeepsReliable(k.issues, MalformedAttribute, name, "physical_kind", "node_type");
  }

  lemma FlagReliable(k: Kinds, value: string, cdrom: bool, name: string)
    ensures Unreliable(WeighFlag(k, value, cdrom, name).issues, "node_type") == Unreliable(k.issues, "node_type")
  {
    hide Trimmed, Unreliable, Report;
    KeepsReliable(k.issues, MalformedAttribute, name, "physical_kind", "node_type");
  }

  lemma {:induction false} WeighAllReliable(facts: seq<KindFact>, name: string, issues: Issues)
    ensures Unreliable(WeighAll(facts, name, issues).issues, "node_type") == Unreliable(issues, "node_type")
  {
    hide Weigh, Unreliable;
    if facts != [] {
      WeighAllReliable(facts[..|facts| - 1], name, issues);
      WeighReliable(WeighAll(facts[..|facts| - 1], name, issues), facts[|facts| - 1], name);
    }
  }

  lemma OwnedReliable(issues: Issues, name: string, field: string)
    ensures Unreliable(Owned(issues, name), field) == Unreliable(issues, field)
  {
    forall i | 0 <= i < |issues| ensures Spoils(Owned(issues, name)[i], field) == Spoils(issues[i], field) {
    }
    hide Spoils;
  }

  lemma PathReliable(raw: Option<string>, prefix: string, field: string, name: string, issues: Issues)
    requires field != "node_type"
    ensures Unreliable(ParsePath(raw, prefix, field, name, issues).issues, "node_type") == Unreliable(issues, "node_type")
  {
    hide Unreliable, Plain, PathUnder, Trimmed, Report;
    KeepsReliable(issues, MalformedAttribute, name, field, "node_type");
  }

  /** Whatever else is wrong with a record, its observation has the kind reported, is of a
      whole device exactly when the record says so, and is of a disk exactly when every
      fact about that is understood and they agree. */
  lemma KindsAreRead(r: SourceRecord, name: string)
    ensures MapRecord(r, name).kind == r.kind
    ensures MapRecord(r, name).nodeType == WholeDisk <==> SaidDisk(r)
    ensures MapRecord(r, name).physicalKind == DiskKind <==> EvidentDisk(r)
  {
    hide ParseText, ParseNvme, ParseBoolean, ParseDeviceNumber, ReadCapacity, ParseOrdinal, Normalize, Voted, Unreliable, Trimmed, Owned, ParsePath,
         WeighAll, Report;
    ClassifiedAsDisk(r.kinds, name, r.issues);
    var x := ReadAll(r, name);
    var k := WeighAll(r.kinds, name, r.issues);
    WeighAllReliable(r.kinds, name, r.issues);
    KeepsReliable(k.issues, ConflictingAttribute, name, "physical_kind", "node_type");
    OwnedReliable(x.physicalKind.issues, name, "node_type");
    PathReliable(r.currentPath, "/dev/", "current_path", name, Owned(x.physicalKind.issues, name));
    PathReliable(r.sysfsPath, "/sys/", "sysfs_path", name, x.currentPath.issues);
  }

  /** Nor is a device called an optical drive unless all agree on that; where facts for an
      optical drive meet facts for another the kind is unknown, and that is reported. */
  lemma ClassifiedAsOptical(facts: seq<KindFact>, name: string, issues: Issues)
    ensures Conclude(WeighAll(facts, name, issues), name).value == Some(OpticalKind) <==>
      && !Unreliable(issues, "physical_kind") && !Voted(facts, NotUnderstood)
      && Voted(facts, ForOptical) && !Voted(facts, ForDisk) && !Voted(facts, ForFloppy)
    ensures
      && !Voted(facts, NotUnderstood) && !Unreliable(issues, "physical_kind")
      && Voted(facts, ForOptical) && (Voted(facts, ForDisk) || Voted(facts, ForFloppy)) ==>
      Unreliable(Conclude(WeighAll(facts, name, issues), name).issues, "physical_kind")
  {
    hide Voted, Unreliable, WeighAll;
    WeighAllTallies(facts, name, issues);
    var k := WeighAll(facts, name, issues);
    LastSpoils(k.issues, BlockIssue(ConflictingAttribute, Some(name), "physical_kind"), "physical_kind");
  }

  lemma LastSpoils(issues: Issues, issue: BlockIssue, field: string)
    requires Spoils(issue, field)
    ensures Unreliable(issues + [issue], field)
  {
    hide Spoils;
    assert (issues + [issue])[|issues|] == issue;
  }

  // Nothing is lost without an issue

  /** The attribute as it was spelled: some text without control characters. */
  predicate TextIs(raw: Option<string>, value: Option<string>) {
    && value == (if raw.None? then None else Some(Trimmed(raw.value)))
    && (value.Some? ==> value.value != "" && forall i :: 0 <= i < |value.value| ==> value.value[i] as int >= 32 && value.value[i] as int != 127)
  }

  predicate FlagIs(raw: Option<string>, value: Option<bool>) {
    value.Some? == raw.Some? && (raw.Some? ==> Trimmed(raw.value) == if value.value then "1" else "0")
  }

  predicate NumberIs(raw: Option<string>, value: Option<nat>) {
    value.Some? == raw.Some? && (raw.Some? ==> AllDigits(Trimmed(raw.value)) && Value(Trimmed(raw.value)) == value.value < 0x1_0000_0000)
  }

  predicate SectorsAre(raw: Option<string>, bytes: Option<nat>) {
    bytes.Some? == raw.Some? && (raw.Some? ==> AllDigits(Trimmed(raw.value)) && Value(Trimmed(raw.value)) * SECTOR == bytes.value)
  }

  /** The observation has every attribute of the record, as it was spelled. */
  predicate Whole(r: SourceRecord, o: Observation) {
    && TextIs(r.currentPath, o.currentPath) && TextIs(r.sysfsPath, o.sysfsPath)
    && (o.currentPath.Some? ==> "/dev/" < o.currentPath.value) && (o.sysfsPath.Some? ==> "/sys/" < o.sysfsPath.value)
    && r.nodeType.Some? && Trimmed(r.nodeType.value) == (if o.nodeType == WholeDisk then "disk" else "partition")
    && o.nodeType != UnknownNode && o.deviceNumber.Some?
    && NumberIs(r.majorNumber, Some(o.deviceNumber.value.major)) && NumberIs(r.minorNumber, Some(o.deviceNumber.value.minor))
    && SectorsAre(r.capacitySectors, o.capacityBytes)
    && TextIs(r.vendor, o.vendor) && TextIs(r.model, o.model) && TextIs(r.serial, o.serial) && TextIs(r.wwn, o.wwn)
    && TextIs(r.nvmeEui, o.nvmeEui) && TextIs(r.nvmeNguid, o.nvmeNguid)
    && FlagIs(r.rotational, o.rotational) && FlagIs(r.removable, o.removable) && FlagIs(r.readOnly, o.readOnly)
    && TextIs(r.transport, o.transport) && TextIs(r.parentName, o.parentName) && NumberIs(r.partitionNumber, o.partitionNumber)
    && o.kind == r.kind && (o.physicalKind == DiskKind <==> EvidentDisk(r))
  }

  lemma TextWhole(raw: Option<string>, field: string, name: string, issues: Issues)
    ensures var x := ParseText(raw, field, name, issues); x.issues == [] ==> issues == [] && TextIs(raw, x.value)
  {
    hide Trimmed;
  }

  lemma PathWhole(raw: Option<string>, prefix: string, field: string, name: string, issues: Issues)
    ensures var x := ParsePath(raw, prefix, field, name, issues);
      x.issues == [] ==> issues == [] && TextIs(raw, x.value) && (x.value.Some? ==> prefix < x.value.value)
  {
    hide ParseText, TextIs;
    TextWhole(raw, field, name, issues);
  }

  lemma NvmeWhole(raw: Option<string>, digits: nat, field: string, name: string, issues: Issues)
    ensures var x := ParseNvme(raw, digits, field, name, issues); x.issues == [] ==> issues == [] && TextIs(raw, x.value)
  {
    hide ParseText, NvmeSpelling;
    TextWhole(raw, field, name, issues);
  }

  lemma BooleanWhole(raw: Option<string>, field: string, name: string, issues: Issues)
    ensures var x := ParseBoolean(raw, field, name, issues); x.issues == [] ==> issues == [] && FlagIs(raw, x.value)
  {
    hide Trimmed;
  }

  lemma UnsignedWhole(raw: Option<string>, field: string, name: string, issues: Issues)
    ensures var x := ParseUnsigned(raw, field, name, issues); x.issues == [] ==> issues == [] && NumberIs(raw, x.value)
  {
    hide Trimmed, Value, AllDigits;
  }

  lemma NodeTypeWhole(raw: Option<string>, name: string, issues: Issues)
    ensures var x := ParseNodeType(raw, name, issues);
      x.issues == [] ==>
        && issues == [] && raw.Some? && x.value.Some? && x.value != Some(UnknownNode)
        && Trimmed(raw.value) == if x.value == Some(WholeDisk) then "disk" else "partition"
  {
    hide Trimmed;
  }

  lemma DeviceNumberWhole(r: SourceRecord, name: string, issues: Issues)
    ensures var x := ParseDeviceNumber(r, name, issues);
      x.issues == [] ==>
        && issues == [] && x.value.Some?
        && NumberIs(r.majorNumber, Some(x.value.value.major)) && NumberIs(r.minorNumber, Some(x.value.value.minor))
  {
    hide ParseUnsigned, NumberIs;
    if r.majorNumber.Some? && r.minorNumber.Some? {
      var major := ParseUnsigned(r.majorNumber, "major_number", name, issues);
      UnsignedWhole(r.majorNumber, "major_number", name, issues);
      UnsignedWhole(r.minorNumber, "minor_number", name, major.issues);
      NumberRead(r.majorNumber, major.value);
      NumberRead(r.minorNumber, ParseUnsigned(r.minorNumber, "minor_number", name, major.issues).value);
    }
  }

  lemma NumberRead(raw: Option<string>, value: Option<nat>)
    ensures NumberIs(raw, value) ==> value.Some? == raw.Some?
  {
  }

  lemma CapacityWhole(raw: Option<string>, name: string, issues: Issues)
    ensures var x := ReadCapacity(raw, name, issues); x.issues == [] ==> issues == [] && SectorsAre(raw, x.value)
  {
    hide Trimmed, Value, AllDigits;
  }

  lemma OrdinalWhole(raw: Option<string>, nodeType: NodeType, name: string, issues: Issues)
    ensures var x := ParseOrdinal(raw, nodeType, name, issues); x.issues == [] ==> issues == [] && NumberIs(raw, x.value)
  {
    hide ParseUnsigned, NumberIs;
    UnsignedWhole(raw, "partition_number", name, issues);
  }

  lemma WeighGrows(k: Kinds, fact: KindFact, name: string)
    ensures |Weigh(k, fact, name).issues| >= |k.issues|
  {
    hide Trimmed, FamilyOf, WeighType, WeighName, WeighFlag;
    TypeGrows(k, Trimmed(fact.value), name);
    NameGrows(k, Trimmed(fact.value));
    FlagGrows(k, Trimmed(fact.value), true, name);
    FlagGrows(k, Trimmed(fact.value), false, name);
  }

  lemma TypeGrows(k: Kinds, value: string, name: string)
    ensures |WeighType(k, value, name).issues| >= |k.issues|
  {
    hide Trimmed, Unsigned32, Value, Unreliable;
  }

  lemma NameGrows(k: Kinds, value: string)
    ensures WeighName(k, value).issues == k.issues
  {
  }

  lemma FlagGrows(k: Kinds, value: string, cdrom: bool, name: string)
    ensures |WeighFlag(k, value, cdrom, name).issues| >= |k.issues|
  {
    hide Trimmed, Unreliable;
  }

  lemma {:induction false} WeighAllGrows(facts: seq<KindFact>, name: string, issues: Issues)
    ensures |WeighAll(facts, name, issues).issues| >= |issues|
  {
    hide Weigh;
    if facts != [] {
      WeighAllGrows(facts[..|facts| - 1], name, issues);
      WeighGrows(WeighAll(facts[..|facts| - 1], name, issues), facts[|facts| - 1], name);
    }
  }

  lemma KindsWhole(r: SourceRecord, name: string)
    ensures var x := Conclude(WeighAll(r.kinds, name, r.issues), name); Owned(x.issues, name) == [] ==> r.issues == []
  {
    hide WeighAll;
    WeighAllGrows(r.kinds, name, r.issues);
  }

  lemma NormalizedEmpty(issues: Issues)
    ensures Normalize(issues, BlockIssueKey) == [] ==> issues == []
  {
    hide Normalize, BlockIssueKey;
    BlockIssueKeyInjective();
    NormalizeCorrect(issues, BlockIssueKey);
    ElementsEmpty(issues);
    ElementsEmpty(Normalize(issues, BlockIssueKey));
  }

  /** A record mapped without an issue came without one, and all of its attributes are
      in the observation as they were spelled: nothing unreadable is dropped in silence. */
  lemma CleanRecordIsWhole(r: SourceRecord, name: string)
    requires MapRecord(r, name).issues == []
    ensures r.issues == [] && Whole(r, MapRecord(r, name))
  {
    hide Conclude, WeighAll, ParsePath, ParseText, ParseNvme, ParseBoolean, ParseNodeType, ParseDeviceNumber, ReadCapacity, ParseOrdinal, Owned,
         Normalize, TextIs, FlagIs, NumberIs, SectorsAre, EvidentDisk;
    KindsAreRead(r, name);
    var x := ReadAll(r, name);
    NormalizedEmpty(x.ordinal.issues);
    OrdinalWhole(r.partitionNumber, x.nodeType.value.GetOr(UnknownNode), name, x.parentName.issues);
    TextWhole(r.parentName, "parent_kernel_name", name, x.transport.issues);
    TextWhole(r.transport, "transport", name, x.readOnly.issues);
    BooleanWhole(r.readOnly, "read_only", name, x.removable.issues);
    BooleanWhole(r.removable, "removable", name, x.rotational.issues);
    BooleanWhole(r.rotational, "rotational", name, x.nvmeNguid.issues);
    NvmeWhole(r.nvmeNguid, 32, "nvme_nguid", name, x.nvmeEui.issues);
    NvmeWhole(r.nvmeEui, 16, "nvme_eui", name, x.wwn.issues);
    TextWhole(r.wwn, "wwn", name, x.serial.issues);
    TextWhole(r.serial, "serial", name, x.model.issues);
    TextWhole(r.model, "model", name, x.vendor.issues);
    TextWhole(r.vendor, "vendor", name, x.capacity.issues);
    CapacityWhole(r.capacitySectors, name, x.deviceNumber.issues);
    DeviceNumberWhole(r, name, x.nodeType.issues);
    NodeTypeWhole(r.nodeType, name, x.sysfsPath.issues);
    PathWhole(r.sysfsPath, "/sys/", "sysfs_path", name, x.currentPath.issues);
    PathWhole(r.currentPath, "/dev/", "current_path", name, Owned(x.physicalKind.issues, name));
    KindsWhole(r, name);
  }
}
