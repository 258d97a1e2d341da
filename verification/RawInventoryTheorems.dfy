/** What a raw scan depends on: not the order of its records; and for a device without
    issues, one record, taken over whole. */
module RawInventoryTheorems {
  import opened Text
  import opened Inventory
  import opened Canonical
  import opened IssueOrder
  import opened SourceRecords
  import opened RawInventory

  // Merging forgets the order of records

  ghost predicate SameElements<T(!new)>(a: seq<T>, b: seq<T>) {
    |a| == |b| && Elements(a) == Elements(b)
  }

  lemma PermutedSame<T(!new)>(a: seq<T>, b: seq<T>)
    requires multiset(a) == multiset(b)
    ensures SameElements(a, b)
  {
    assert |multiset(a)| == |a| && |multiset(b)| == |b|;
    forall x ensures x in a <==> x in b {
      assert x in a <==> x in multiset(a);
    }
  }

  lemma ElementsIn<T(!new)>(a: seq<T>, b: seq<T>)
    requires SameElements(a, b)
    ensures forall x :: x in a <==> x in b
  {
    forall x ensures x in a <==> x in b {
      assert x in a <==> x in Elements(a);
    }
  }

  lemma InEither<T(!new)>(a: seq<T>, b: seq<T>)
    requires |a| == |b| && (forall x :: x in a ==> x in b) && forall x :: x in b ==> x in a
    ensures SameElements(a, b)
  {
  }

  lemma ValuesSame<T(!new)>(a: seq<Observation>, b: seq<Observation>, get: Observation -> T)
    requires SameElements(a, b)
    ensures SameElements(Values(a, get), Values(b, get))
  {
    ElementsIn(a, b);
    ValuesWithin(a, b, get);
    ValuesWithin(b, a, get);
    InEither(Values(a, get), Values(b, get));
  }

  lemma ValuesWithin<T>(a: seq<Observation>, b: seq<Observation>, get: Observation -> T)
    requires forall x :: x in a ==> x in b
    ensures forall v :: v in Values(a, get) ==> v in Values(b, get)
  {
    forall v | v in Values(a, get) ensures v in Values(b, get) {
      var i :| 0 <= i < |a| && Values(a, get)[i] == v;
      assert a[i] in b;
      var j :| 0 <= j < |b| && b[j] == a[i];
      assert Values(b, get)[j] == v;
    }
  }

  lemma KnownSame<T(!new)>(u: seq<T>, v: seq<T>, unknown: T)
    requires SameElements(u, v)
    ensures SameElements(KnownAs(u, unknown), KnownAs(v, unknown))
  {
    ElementsIn(u, v);
    KnownWithin(u, v, unknown);
    KnownWithin(v, u, unknown);
    InEither(KnownAs(u, unknown), KnownAs(v, unknown));
  }

  lemma KnownWithin<T>(u: seq<T>, v: seq<T>, unknown: T)
    requires forall x :: x in u ==> x in v
    ensures forall k :: k in KnownAs(u, unknown) ==> k in KnownAs(v, unknown)
  {
    forall k | k in KnownAs(u, unknown) ensures k in KnownAs(v, unknown) {
      var i :| 0 <= i < |u| && KnownAs(u, unknown)[i] == k;
      assert u[i] in v;
      var j :| 0 <= j < |v| && v[j] == u[i];
      assert KnownAs(v, unknown)[j] == k;
    }
  }

  /** What records agree on, and whether they disagree, is a matter of which values
      they report. */
  lemma MergedSame<T(!new)>(u: seq<Option<T>>, v: seq<Option<T>>, name: string, field: string)
    requires SameElements(u, v)
    ensures Merged(u) == Merged(v) && DisagreeOn(name, field, u) == DisagreeOn(name, field, v)
  {
    ElementsIn(u, v);
    assert u != [] ==> u[0] in v;
    assert v != [] ==> v[0] in u;
    assert forall i :: 0 <= i < |u| ==> u[i] in v;
    assert forall i :: 0 <= i < |v| ==> v[i] in u;
  }

  /** One field, as every record reports it. */
  lemma FieldSame<T(!new)>(a: seq<Observation>, b: seq<Observation>, get: Observation -> Option<T>, name: string, field: string)
    requires SameElements(a, b)
    ensures Merged(Values(a, get)) == Merged(Values(b, get))
    ensures DisagreeOn(name, field, Values(a, get)) == DisagreeOn(name, field, Values(b, get))
  {
    hide SameElements, Merged, DisagreeOn, Values;
    ValuesSame(a, b, get);
    MergedSame(Values(a, get), Values(b, get), name, field);
  }

  lemma EnumSame<T(!new)>(a: seq<Observation>, b: seq<Observation>, get: Observation -> T, unknown: T, name: string, field: string)
    requires SameElements(a, b)
    ensures MergedEnum(Values(a, get), unknown) == MergedEnum(Values(b, get), unknown)
    ensures DisagreeOn(name, field, KnownAs(Values(a, get), unknown)) == DisagreeOn(name, field, KnownAs(Values(b, get), unknown))
  {
    hide SameElements, Merged, DisagreeOn, Values, KnownAs;
    ValuesSame(a, b, get);
    KnownSame(Values(a, get), Values(b, get), unknown);
    MergedSame(KnownAs(Values(a, get), unknown), KnownAs(Values(b, get), unknown), name, field);
  }

  lemma {:induction false} AllIssuesAre(records: seq<Observation>, x: BlockIssue)
    ensures x in AllIssues(records) <==> exists o :: o in records && x in o.issues
  {
    if records != [] {
      var front, last := records[..|records| - 1], records[|records| - 1];
      AllIssuesAre(front, x);
      assert records == front + [last];
    }
  }

  lemma MergedRecordsSame(name: string, a: seq<Observation>, b: seq<Observation>)
    requires SameElements(a, b)
    ensures MergeRecords(name, a) == MergeRecords(name, b)
  {
    hide SameElements, Merged, MergedEnum, DisagreeOn, AllIssues, Normalize, KnownAs, Values, AddedIf, BlockIssueKey;
    FieldSame(a, b, PathOf, name, "current_path");
    FieldSame(a, b, SysfsOf, name, "sysfs_path");
    EnumSame(a, b, PhysicalKindOf, UnknownPhysical, name, "physical_kind");
    EnumSame(a, b, TypeOf, UnknownNode, name, "node_type");
    FieldSame(a, b, NumberOf, name, "device_number");
    FieldSame(a, b, CapacityOf, name, "capacity_bytes");
    FieldSame(a, b, VendorOf, name, "vendor");
    FieldSame(a, b, ModelOf, name, "model");
    FieldSame(a, b, SerialOf, name, "serial");
    FieldSame(a, b, WwnOf, name, "wwn");
    FieldSame(a, b, EuiOf, name, "nvme_eui");
    FieldSame(a, b, NguidOf, name, "nvme_nguid");
    FieldSame(a, b, RotationalOf, name, "rotational");
    FieldSame(a, b, RemovableOf, name, "removable");
    FieldSame(a, b, ReadOnlyOf, name, "read_only");
    FieldSame(a, b, TransportOf, name, "transport");
    FieldSame(a, b, ParentOf, name, "parent_kernel_name");
    FieldSame(a, b, OrdinalOf, name, "partition_number");
    EnumSame(a, b, KindOf, UnknownObservation, name, "observation_kind");
    SameLength(a, b);
    forall x ensures x in AllIssues(a) <==> x in AllIssues(b) {
      AllIssuesAre(a, x);
      AllIssuesAre(b, x);
      ElementsIn(a, b);
    }
    forall x ensures x in MergedIssues(name, a) <==> x in MergedIssues(name, b) {
    }
    SameNormalized(MergedIssues(name, a), MergedIssues(name, b));
  }

  lemma SameLength<T(!new)>(a: seq<T>, b: seq<T>)
    requires SameElements(a, b)
    ensures |a| == |b|
  {
  }

  lemma SameNormalized(a: seq<BlockIssue>, b: seq<BlockIssue>)
    requires forall x :: x in a <==> x in b
    ensures Normalize(a, BlockIssueKey) == Normalize(b, BlockIssueKey)
  {
    hide Normalize, BlockIssueKey;
    BlockIssueKeyInjective();
    NormalizeCanonical(a, b, BlockIssueKey);
    assert Elements(a) == Elements(b);
  }

  // The scan forgets the order of records

  lemma {:induction false} UnderConcat(a: seq<SourceRecord>, b: seq<SourceRecord>, name: string)
    ensures Under(a + b, name) == Under(a, name) + Under(b, name)
  {
    hide MapRecord, Trimmed;
    if b == [] {
      assert a + b == a && Under(a, name) + [] == Under(a, name);
    } else {
      var n := |b| - 1;
      UnderConcat(a, b[..n], name);
      assert (a + b)[..|a| + n] == a + b[..n] && (a + b)[|a| + n] == b[n];
    }
  }

  lemma Removed<T>(s: seq<T>, i: nat)
    requires i < |s|
    ensures s == s[..i] + [s[i]] + s[i + 1..]
    ensures multiset(s[..i] + s[i + 1..]) == multiset(s) - multiset{s[i]}
  {
    assert s == s[..i] + [s[i]] + s[i + 1..];
  }

  lemma UnderRemoved(s: seq<SourceRecord>, i: nat, name: string)
    requires i < |s|
    ensures multiset(Under(s, name)) == multiset(Under(s[..i] + s[i + 1..], name)) + multiset(Under([s[i]], name))
  {
    hide Under;
    Removed(s, i);
    UnderConcat(s[..i], s[i + 1..], name);
    UnderConcat(s[..i] + [s[i]], s[i + 1..], name);
    UnderConcat(s[..i], [s[i]], name);
  }

  lemma {:induction false} UnderPermuted(a: seq<SourceRecord>, b: seq<SourceRecord>, name: string)
    requires multiset(a) == multiset(b)
    ensures multiset(Under(a, name)) == multiset(Under(b, name))
  {
    hide Under;
    if a == [] {
      assert |multiset(b)| == 0;
    } else {
      var n := |a| - 1;
      assert a[n] in multiset(b);
      var i :| 0 <= i < |b| && b[i] == a[n];
      Removed(a, n);
      Removed(b, i);
      assert a[..n] + a[n + 1..] == a[..n];
      UnderPermuted(a[..n], b[..i] + b[i + 1..], name);
      UnderRemoved(a, n, name);
      UnderRemoved(b, i, name);
    }
  }

  /** Some record with this name, once trimmed. */
  predicate Reported(records: seq<SourceRecord>, name: string) {
    exists r :: r in records && Trimmed(r.name) == name
  }

  lemma {:induction false} NamesAre(records: seq<SourceRecord>, name: string)
    ensures name in Names(records) <==> ValidName(name) && Reported(records, name)
  {
    hide ValidName, Insert, Trimmed;
    if records != [] {
      var front, last := records[..|records| - 1], records[|records| - 1];
      NamesAre(front, name);
      NamesOrdered(front);
      InsertKey(Trimmed(last.name), Names(front));
      assert records == front + [last];
      InElements(Insert(Trimmed(last.name), Names(front), Bytes), name);
      InElements(Names(front), name);
    }
  }

  lemma InElements<T>(s: seq<T>, x: T)
    ensures x in Elements(s) <==> x in s
  {
  }

  lemma {:induction false} DiscardedAre(records: seq<SourceRecord>, x: BlockIssue)
    ensures x in Discarded(records) <==>
      exists r :: r in records && !ValidName(Trimmed(r.name)) && (x in r.issues || x == NameIssue(Trimmed(r.name)))
  {
    hide ValidName, Trimmed, NameIssue;
    if records != [] {
      var front, last := records[..|records| - 1], records[|records| - 1];
      DiscardedAre(front, x);
      assert records == front + [last];
    }
  }

  lemma MergedAllPermuted(a: seq<SourceRecord>, b: seq<SourceRecord>)
    requires multiset(a) == multiset(b)
    ensures MergedAll(a) == MergedAll(b)
  {
    hide Names, Under, MergeRecords, Bytes, ValidName;
    PermutedSame(a, b);
    ElementsIn(a, b);
    NamesOrdered(a);
    NamesOrdered(b);
    forall name ensures name in Names(a) <==> name in Names(b) {
      NamesAre(a, name);
      NamesAre(b, name);
    }
    assert Elements(Names(a)) == Elements(Names(b));
    AscendingUnique(Names(a), Names(b), Bytes);
    forall name ensures MergeRecords(name, Under(a, name)) == MergeRecords(name, Under(b, name)) {
      UnderPermuted(a, b, name);
      PermutedSame(Under(a, name), Under(b, name));
      MergedRecordsSame(name, Under(a, name), Under(b, name));
    }
  }

  /** A scan does not depend on the order in which the source lists its records, nor its
      issues on order or repetition: devices and issues are the same, in the same order. */
  lemma ScanOrderIndependent(a: seq<SourceRecord>, b: seq<SourceRecord>, reported: seq<BlockIssue>, again: seq<BlockIssue>)
    requires multiset(a) == multiset(b) && Elements(reported) == Elements(again)
    ensures Scanned(a) == Scanned(b)
    ensures Normalize(reported + Discarded(a), BlockIssueKey) == Normalize(again + Discarded(b), BlockIssueKey)
  {
    hide MergedAll, Discarded, Normalize, ValidName, NameIssue;
    MergedAllPermuted(a, b);
    PermutedSame(a, b);
    ElementsIn(a, b);
    forall x ensures x in Discarded(a) <==> x in Discarded(b) {
      DiscardedAre(a, x);
      DiscardedAre(b, x);
    }
    forall x ensures x in reported <==> x in again {
      InElements(reported, x);
      InElements(again, x);
    }
    SameNormalized(reported + Discarded(a), again + Discarded(b));
  }

  lemma RejectedNames(devices: seq<Observation>, l: Locator)
    ensures |Rejected(devices, l)| == |devices|
    ensures forall i :: 0 <= i < |devices| ==> Rejected(devices, l)[i].kernelName == devices[i].kernelName
  {
    hide Collides;
  }

  lemma RelatedNames(devices: seq<Observation>)
    ensures |RelatedAll(devices)| == |devices|
    ensures forall i :: 0 <= i < |devices| ==> RelatedAll(devices)[i].kernelName == devices[i].kernelName
  {
    hide Normalize, RelationOf, ChildrenOf;
  }

  /** Devices keep their names, each once and in order. */
  lemma ScannedNames(records: seq<SourceRecord>)
    ensures |Scanned(records)| == |Names(records)|
    ensures forall i :: 0 <= i < |Names(records)| ==> Scanned(records)[i].kernelName == Names(records)[i] && ValidName(Names(records)[i])
    ensures Ascending(Names(records), Bytes)
  {
    hide Names, Under, Rejected, RelatedAll, ValidName, Bytes, Merged, MergedEnum, Values, Normalize;
    var m := MergedAll(records);
    NamesOrdered(records);
    RejectedNames(m, PathLocator);
    RejectedNames(Rejected(m, PathLocator), SysfsLocator);
    RejectedNames(Rejected(Rejected(m, PathLocator), SysfsLocator), NumberLocator);
    RelatedNames(Unshared(m));
  }

  /** No name in use is empty, a dot or two, and none holds a slash, white space or a
      control character. */
  lemma NamesAreUsable(records: seq<SourceRecord>, name: string)
    requires name in Names(records)
    ensures name !in {"", ".", ".."} && forall i :: 0 <= i < |name| ==> name[i] as int > 32 && name[i] != '/' && name[i] as int != 127
  {
    hide Names;
    NamesAre(records, name);
  }

  /** The device is a partition, and a whole disk has the name that it gives as its parent's. */
  predicate HasDisk(devices: seq<Observation>, child: Observation) {
    && child.nodeType == PartitionNode
    && exists p :: 0 <= p < |devices| && Some(devices[p].kernelName) == child.parentName && devices[p].nodeType == WholeDisk
  }

  /** No device at all has the parent's name. */
  predicate Orphaned(devices: seq<Observation>, child: Observation) {
    child.nodeType == PartitionNode && forall p :: 0 <= p < |devices| ==> Some(devices[p].kernelName) != child.parentName
  }

  /** A parent's name is kept where it is a disk's, and where no device has it; in every
      other case it is dropped; and unless it is a disk's, that is reported. */
  lemma ParentsAreChecked(devices: seq<Observation>, i: nat)
    requires i < |devices| && DistinctNames(devices) && devices[i].parentName.Some?
    ensures var o, child := RelatedAll(devices)[i], devices[i];
      && o.parentName == (if HasDisk(devices, child) || Orphaned(devices, child) then child.parentName else None)
      && (!HasDisk(devices, child) ==> BlockIssue(InvalidRelationship, Some(child.kernelName), "parent_kernel_name") in o.issues)
  {
    hide Normalize, ChildrenOf, BlockIssueKey;
    var child := devices[i];
    var parent := FirstNamed(devices, child.parentName.value);
    if p :| 0 <= p < |devices| && Some(devices[p].kernelName) == child.parentName {
      assert parent == p;
    }
    var related := RelatedUpTo(devices, i, |devices|);
    BlockIssueKeyInjective();
    NormalizeCorrect(related.issues, BlockIssueKey);
    var issue := BlockIssue(InvalidRelationship, Some(child.kernelName), "parent_kernel_name");
    if !HasDisk(devices, child) {
      assert related.issues == child.issues + [issue];
      assert issue in Elements(related.issues);
      assert issue in Elements(RelatedAll(devices)[i].issues);
    }
  }

  // A device without issues

  /** Of several records one issue at least is left. */
  lemma ManyMerged(name: string, records: seq<Observation>)
    requires |records| > 1
    ensures MergedIssues(name, records) != []
  {
    hide DisagreeOn, AllIssues, KnownAs, Values;
  }

  lemma OneMerged(name: string, o: Observation)
    ensures |MergedIssues(name, [o])| >= |o.issues|
  {
    hide DisagreeOn, KnownAs, Values;
    assert [o][..0] == [];
  }

  lemma MergedClean(name: string, records: seq<Observation>)
    requires records != [] && MergeRecords(name, records).issues == []
    ensures |records| == 1 && records[0].issues == []
  {
    hide Merged, MergedEnum, MergedIssues, Normalize, Values;
    NormalizedEmpty(MergedIssues(name, records));
    if |records| > 1 {
      ManyMerged(name, records);
    } else {
      assert records == [records[0]];
      OneMerged(name, records[0]);
    }
  }

  lemma FieldOfOne<T>(o: Observation, get: Observation -> Option<T>)
    ensures Merged(Values([o], get)) == get(o)
  {
  }

  lemma EnumOfOne<T>(o: Observation, get: Observation -> T, unknown: T)
    ensures MergedEnum(Values([o], get), unknown) == get(o)
  {
  }

  lemma MergedSingle(name: string, o: Observation)
    requires o.kernelName == name && o.childNames == [] && o.issues == [] && MergeRecords(name, [o]).issues == []
    ensures MergeRecords(name, [o]) == o
  {
    hide Merged, MergedEnum, MergedIssues, Normalize, Values;
    FieldOfOne(o, PathOf);
    FieldOfOne(o, SysfsOf);
    EnumOfOne(o, PhysicalKindOf, UnknownPhysical);
    EnumOfOne(o, TypeOf, UnknownNode);
    FieldOfOne(o, NumberOf);
    FieldOfOne(o, CapacityOf);
    FieldOfOne(o, VendorOf);
    FieldOfOne(o, ModelOf);
    FieldOfOne(o, SerialOf);
    FieldOfOne(o, WwnOf);
    FieldOfOne(o, EuiOf);
    FieldOfOne(o, NguidOf);
    FieldOfOne(o, RotationalOf);
    FieldOfOne(o, RemovableOf);
    FieldOfOne(o, ReadOnlyOf);
    FieldOfOne(o, TransportOf);
    FieldOfOne(o, ParentOf);
    FieldOfOne(o, OrdinalOf);
    EnumOfOne(o, KindOf, UnknownObservation);
  }

  lemma RejectedClean(devices: seq<Observation>, l: Locator, i: nat)
    requires i < |devices| && Rejected(devices, l)[i].issues == []
    ensures Rejected(devices, l)[i] == devices[i]
  {
    hide Collides;
  }

  lemma RelatedClean(devices: seq<Observation>, i: nat)
    requires i < |devices| && RelatedAll(devices)[i].issues == []
    ensures RelatedAll(devices)[i].(childNames := []) == devices[i].(childNames := [])
  {
    hide Normalize, RelationOf, ChildrenOf;
    NormalizedEmpty(RelatedUpTo(devices, i, |devices|).issues);
  }

  /** A device that a scan leaves without issues. */
  lemma ScannedClean(records: seq<SourceRecord>, i: nat)
    requires i < |Scanned(records)| && Scanned(records)[i].issues == []
    ensures i < |Names(records)|
    ensures Scanned(records)[i].(childNames := []) == MergeRecords(Names(records)[i], Under(records, Names(records)[i]))
  {
    hide MergeRecords, Names, Under, Rejected, RelatedAll, Normalize;
    var m := MergedAll(records);
    var a, b := Rejected(m, PathLocator), Rejected(Rejected(m, PathLocator), SysfsLocator);
    ScanLength(records);
    RelatedClean(Unshared(m), i);
    RejectedClean(b, NumberLocator, i);
    RejectedClean(a, SysfsLocator, i);
    RejectedClean(m, PathLocator, i);
    MergedChildless(Names(records)[i], Under(records, Names(records)[i]));
  }

  lemma ScanLength(records: seq<SourceRecord>)
    ensures |Scanned(records)| == |MergedAll(records)| == |Names(records)| == |Unshared(MergedAll(records))|
    ensures |Rejected(Rejected(MergedAll(records), PathLocator), SysfsLocator)| == |Rejected(MergedAll(records), PathLocator)| == |Names(records)|
  {
    hide MergeRecords, Names, Under, Collides, RelatedUpTo;
  }

  lemma MergedChildless(name: string, records: seq<Observation>)
    ensures MergeRecords(name, records).childNames == []
  {
  }

  lemma {:induction false} UnderHas(records: seq<SourceRecord>, name: string)
    ensures Under(records, name) != [] <==> Reported(records, name)
    ensures forall o :: o in Under(records, name) ==> exists r :: r in records && Trimmed(r.name) == name && o == MapRecord(r, name)
  {
    hide MapRecord, Trimmed;
    if records != [] {
      var front, last := records[..|records| - 1], records[|records| - 1];
      UnderHas(front, name);
      assert records == front + [last];
    }
  }

  /** A device left without issues comes from a single record, itself without issues,
      and has every attribute of that record as it was spelled; only its children are
      known from elsewhere. */
  lemma CleanDeviceIsWhole(records: seq<SourceRecord>, i: nat)
    requires i < |Scanned(records)| && Scanned(records)[i].issues == []
    ensures var o := Scanned(records)[i];
      && |Under(records, o.kernelName)| == 1
      && exists r :: r in records && Trimmed(r.name) == o.kernelName && r.issues == [] && Whole(r, o)
  {
    hide MergeRecords, Names, Under, Scanned, MapRecord, Whole, Trimmed, ValidName;
    ScannedClean(records, i);
    var name := Names(records)[i];
    NamesAre(records, name);
    UnderHas(records, name);
    MergedClean(name, Under(records, name));
    var o := Under(records, name)[0];
    assert o in Under(records, name);
    var r :| r in records && Trimmed(r.name) == name && o == MapRecord(r, name);
    MappedName(r, name);
    assert Under(records, name) == [o];
    MergedSingle(name, o);
    CleanRecordIsWhole(r, name);
    WholeWithout(r, o, Scanned(records)[i]);
  }

  lemma MappedName(r: SourceRecord, name: string)
    ensures MapRecord(r, name).kernelName == name && MapRecord(r, name).childNames == []
  {
    hide ReadAll, Normalize;
  }

  lemma WholeWithout(r: SourceRecord, o: Observation, p: Observation)
    requires p.(childNames := []) == o && Whole(r, o)
    ensures Whole(r, p)
  {
    hide TextIs, FlagIs, NumberIs, SectorsAre, EvidentDisk;
  }

  // Every device

  /** Record `r` is of the device with this name. */
  predicate OfDevice(records: seq<SourceRecord>, r: SourceRecord, name: string) {
    r in records && Trimmed(r.name) == name
  }

  lemma {:induction false} UnderMaps(records: seq<SourceRecord>, name: string)
    ensures forall r :: OfDevice(records, r, name) ==> MapRecord(r, name) in Under(records, name)
  {
    hide MapRecord, Trimmed;
    if records != [] {
      var front, last := records[..|records| - 1], records[|records| - 1];
      UnderMaps(front, name);
      assert records == front + [last];
      forall r | OfDevice(records, r, name) ensures MapRecord(r, name) in Under(records, name) {
        assert OfDevice(front, r, name) || r == last;
      }
    }
  }

  lemma EnumMeans<T>(records: seq<Observation>, get: Observation -> T, unknown: T, v: T)
    requires records != [] && v != unknown
    ensures MergedEnum(Values(records, get), unknown) == v <==> forall o :: o in records ==> get(o) == v
  {
    var known := KnownAs(Values(records, get), unknown);
    assert forall i :: 0 <= i < |records| ==> known[i] == if get(records[i]) == unknown then None else Some(get(records[i]));
    if forall o :: o in records ==> get(o) == v {
      assert records[0] in records;
      assert known[0] == Some(v) && Unanimous(known, v);
    }
    if MergedEnum(Values(records, get), unknown) == v {
      assert Unanimous(known, v);
      forall o | o in records ensures get(o) == v {
        var i :| 0 <= i < |records| && records[i] == o;
        assert known[i] == Some(v);
      }
    }
  }

  lemma FieldMeans<T>(records: seq<Observation>, get: Observation -> Option<T>, v: T)
    requires records != []
    ensures Merged(Values(records, get)) == Some(v) <==> forall o :: o in records ==> get(o) == Some(v)
  {
    var values := Values(records, get);
    if forall o :: o in records ==> get(o) == Some(v) {
      assert records[0] in records;
      assert values[0] == Some(v) && Unanimous(values, v);
    }
    if Merged(values) == Some(v) {
      forall o | o in records ensures get(o) == Some(v) {
        var i :| 0 <= i < |records| && records[i] == o;
        assert values[i] == Some(v);
      }
    }
  }

  lemma RejectedKinds(devices: seq<Observation>, l: Locator, i: nat)
    requires i < |devices|
    ensures var o := Rejected(devices, l)[i];
      o.kind == devices[i].kind && o.nodeType == devices[i].nodeType && o.physicalKind == devices[i].physicalKind && SameHardware(o, devices[i])
  {
    hide Collides;
  }

  /** What identifies the hardware, or says whether it can be written to. */
  predicate SameHardware(a: Observation, b: Observation) {
    && a.capacityBytes == b.capacityBytes && a.vendor == b.vendor && a.model == b.model && a.serial == b.serial && a.wwn == b.wwn
    && a.nvmeEui == b.nvmeEui && a.nvmeNguid == b.nvmeNguid && a.transport == b.transport && a.readOnly == b.readOnly
  }

  lemma RelatedKinds(devices: seq<Observation>, i: nat)
    requires i < |devices|
    ensures var o := RelatedAll(devices)[i];
      o.kind == devices[i].kind && o.nodeType == devices[i].nodeType && o.physicalKind == devices[i].physicalKind && SameHardware(o, devices[i])
  {
    hide Normalize, RelationOf, ChildrenOf;
  }

  lemma ScannedIsMerged(records: seq<SourceRecord>, i: nat)
    requires i < |Scanned(records)|
    ensures i < |Names(records)| && Scanned(records)[i].kernelName == Names(records)[i]
    ensures var o, merged := Scanned(records)[i], MergeRecords(Names(records)[i], Under(records, Names(records)[i]));
      o.kind == merged.kind && o.nodeType == merged.nodeType && o.physicalKind == merged.physicalKind && SameHardware(o, merged)
  {
    hide MergeRecords, Names, Under, Rejected, RelatedAll, SameHardware, ValidName;
    var m := MergedAll(records);
    var a, b := Rejected(m, PathLocator), Rejected(Rejected(m, PathLocator), SysfsLocator);
    ScanLength(records);
    ScannedNames(records);
    RejectedKinds(m, PathLocator, i);
    RejectedKinds(a, SysfsLocator, i);
    RejectedKinds(b, NumberLocator, i);
    RelatedKinds(Unshared(m), i);
    SameAllThrough(m[i], a[i], b[i], Unshared(m)[i], Scanned(records)[i]);
  }

  lemma SameAllThrough(a: Observation, b: Observation, c: Observation, d: Observation, e: Observation)
    requires SameHardware(b, a) && SameHardware(c, b) && SameHardware(d, c) && SameHardware(e, d)
    ensures SameHardware(e, a)
  {
  }

  /** The kind of a device, from its records alone: it is virtual exactly when each of
      them reports it so, a whole device exactly when each says so, and a disk exactly
      when each gives the evidence for it. */
  lemma KindsAreUnanimous(records: seq<SourceRecord>, i: nat)
    requires i < |Scanned(records)|
    ensures var o := Scanned(records)[i];
      && (exists r :: OfDevice(records, r, o.kernelName))
      && (o.kind == VirtualOrPseudo <==> forall r :: OfDevice(records, r, o.kernelName) ==> r.kind == VirtualOrPseudo)
      && (o.nodeType == WholeDisk <==> forall r :: OfDevice(records, r, o.kernelName) ==> SaidDisk(r))
      && (o.physicalKind == DiskKind <==> forall r :: OfDevice(records, r, o.kernelName) ==> EvidentDisk(r))
  {
    hide MapRecord, Names, Under, Scanned, Merged, MergedEnum, MergedIssues, Normalize, Values;
    hide SaidDisk, EvidentDisk, SameHardware, ValidName, OfDevice;
    ScannedIsMerged(records, i);
    var name := Names(records)[i];
    var under := Under(records, name);
    DeviceHasRecords(records, i);
    EnumMeans(under, KindOf, UnknownObservation, VirtualOrPseudo);
    EnumMeans(under, TypeOf, UnknownNode, WholeDisk);
    EnumMeans(under, PhysicalKindOf, UnknownPhysical, DiskKind);
    RecordsUnder(records, name);
  }

  lemma DeviceHasRecords(records: seq<SourceRecord>, i: nat)
    requires i < |Names(records)|
    ensures Under(records, Names(records)[i]) != [] && exists r :: OfDevice(records, r, Names(records)[i])
  {
    hide Names, Under, MapRecord, Trimmed, ValidName;
    NamesAre(records, Names(records)[i]);
    UnderHas(records, Names(records)[i]);
    var r :| r in records && Trimmed(r.name) == Names(records)[i];
    assert OfDevice(records, r, Names(records)[i]);
  }

  /** What all observations of a name share is what all its records say. */
  lemma RecordsUnder(records: seq<SourceRecord>, name: string)
    ensures var under := Under(records, name);
      && ((forall o :: o in under ==> KindOf(o) == VirtualOrPseudo) <==> forall r :: OfDevice(records, r, name) ==> r.kind == VirtualOrPseudo)
      && ((forall o :: o in under ==> TypeOf(o) == WholeDisk) <==> forall r :: OfDevice(records, r, name) ==> SaidDisk(r))
      && ((forall o :: o in under ==> PhysicalKindOf(o) == DiskKind) <==> forall r :: OfDevice(records, r, name) ==> EvidentDisk(r))
  {
    hide Under, MapRecord, SaidDisk, EvidentDisk;
    UnderMaps(records, name);
    UnderHas(records, name);
    forall r ensures MapRecord(r, name).kind == r.kind
      && (MapRecord(r, name).nodeType == WholeDisk <==> SaidDisk(r)) && (MapRecord(r, name).physicalKind == DiskKind <==> EvidentDisk(r))
    {
      KindsAreRead(r, name);
    }
    forall o | o in Under(records, name) ensures exists r :: OfDevice(records, r, name) && o == MapRecord(r, name) {
      var r :| r in records && Trimmed(r.name) == name && o == MapRecord(r, name);
      assert OfDevice(records, r, name);
    }
    hide OfDevice;
  }

  /** A device has an attribute of its hardware exactly when all observations of its name
      agree on it. */
  lemma HardwareIsUnanimous(records: seq<SourceRecord>, i: nat, text: string, size: nat, flag: bool)
    requires i < |Scanned(records)|
    ensures var o, under := Scanned(records)[i], Under(records, Scanned(records)[i].kernelName);
      && (o.capacityBytes == Some(size) <==> forall x :: x in under ==> x.capacityBytes == Some(size))
      && (o.model == Some(text) <==> forall x :: x in under ==> x.model == Some(text))
      && (o.serial == Some(text) <==> forall x :: x in under ==> x.serial == Some(text))
      && (o.wwn == Some(text) <==> forall x :: x in under ==> x.wwn == Some(text))
      && (o.nvmeEui == Some(text) <==> forall x :: x in under ==> x.nvmeEui == Some(text))
      && (o.nvmeNguid == Some(text) <==> forall x :: x in under ==> x.nvmeNguid == Some(text))
      && (o.transport == Some(text) <==> forall x :: x in under ==> x.transport == Some(text))
      && (o.readOnly == Some(flag) <==> forall x :: x in under ==> x.readOnly == Some(flag))
  {
    hide Names, Under, Scanned, Merged, MergedEnum, MergedIssues, Normalize, Values, ValidName, OfDevice;
    ScannedIsMerged(records, i);
    DeviceHasRecords(records, i);
    var under := Under(records, Names(records)[i]);
    FieldMeans(under, CapacityOf, size);
    FieldMeans(under, ModelOf, text);
    FieldMeans(under, SerialOf, text);
    FieldMeans(under, WwnOf, text);
    FieldMeans(under, EuiOf, text);
    FieldMeans(under, NguidOf, text);
    FieldMeans(under, TransportOf, text);
    FieldMeans(under, ReadOnlyOf, flag);
  }
}
