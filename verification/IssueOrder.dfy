/** The orders in which inventory and discovery issues are kept. */
module IssueOrder {
  import opened Text
  import opened Inventory
  import opened Canonical

  function BlockCodeRank(c: BlockIssueCode): int {
    match c
    case MissingRequiredField => 0 case MalformedAttribute => 1 case CapacityOverflow => 2 case DuplicateRecord => 3
    case DeviceDisappeared => 4 case SourceReadFailure => 5 case ConflictingAttribute => 6 case InvalidRelationship => 7
  }

  function DiscoveryCodeRank(c: DiscoveryIssueCode): int {
    match c
    case MissingEvidence => 0 case MalformedEvidence => 1 case ReadFailure => 2 case Disappeared => 3 case Conflict => 4
    case AmbiguousIdentity => 5 case UnsupportedTopology => 6 case UncorrelatedUsage => 7 case SnapshotChanged => 8
  }

  function NameKey(name: Option<string>): seq<int> {
    if name.None? then [0] else [1] + Bytes(name.value)
  }

  function NumberKey(n: Option<int>): seq<int> {
    if n.None? then [0, 0] else [1, n.value]
  }

  function BlockIssueKey(i: BlockIssue): seq<int> {
    [BlockCodeRank(i.code)] + (NameKey(i.kernelName) + Bytes(i.field))
  }

  function DiscoveryIssueKey(i: DiscoveryIssue): seq<int> {
    [DiscoveryCodeRank(i.code)] + (Bytes(i.node) + (Bytes(i.field) + (NumberKey(i.nativeError) + NumberKey(i.mountId))))
  }

  lemma NameKeyFree(a: Option<string>, b: Option<string>, x: seq<int>, y: seq<int>)
    requires NameKey(a) + x == NameKey(b) + y
    ensures a == b && x == y
  {
    hide Bytes;
    var p, q := if a.None? then x else Bytes(a.value) + x, if b.None? then y else Bytes(b.value) + y;
    NameKeySplit(a, x);
    NameKeySplit(b, y);
    hide NameKey;
    HeadFree(if a.None? then 0 else 1, if b.None? then 0 else 1, p, q);
    if a.Some? {
      BytesPrefixFree(a.value, b.value, x, y);
    }
  }

  lemma NameKeySplit(a: Option<string>, x: seq<int>)
    ensures NameKey(a) + x == [if a.None? then 0 else 1] + if a.None? then x else Bytes(a.value) + x
  {
    hide Bytes;
    if a.Some? {
      assert [1] + Bytes(a.value) + x == [1] + (Bytes(a.value) + x);
    }
  }

  lemma NumberKeysAgree(a: Option<int>, b: Option<int>, c: Option<int>, d: Option<int>)
    requires NumberKey(a) + NumberKey(b) == NumberKey(c) + NumberKey(d)
    ensures a == c && b == d
  {
    assert (NumberKey(a) + NumberKey(b))[..2] == NumberKey(a) && (NumberKey(c) + NumberKey(d))[..2] == NumberKey(c);
    assert (NumberKey(a) + NumberKey(b))[2..] == NumberKey(b) && (NumberKey(c) + NumberKey(d))[2..] == NumberKey(d);
    assert NumberKey(a)[0] == NumberKey(c)[0] && NumberKey(a)[1] == NumberKey(c)[1];
    assert NumberKey(b)[0] == NumberKey(d)[0] && NumberKey(b)[1] == NumberKey(d)[1];
  }

  lemma BlockRankInjective(a: BlockIssueCode, b: BlockIssueCode)
    requires BlockCodeRank(a) == BlockCodeRank(b)
    ensures a == b
  {
  }

  lemma DiscoveryRankInjective(a: DiscoveryIssueCode, b: DiscoveryIssueCode)
    requires DiscoveryCodeRank(a) == DiscoveryCodeRank(b)
    ensures a == b
  {
  }

  /** The order of inventory issues tells any two of them apart. */
  lemma BlockIssueKeyInjective()
    ensures Injective(BlockIssueKey)
  {
    hide BlockCodeRank, NameKey, Bytes;
    forall a, b | BlockIssueKey(a) == BlockIssueKey(b) ensures a == b {
      HeadFree(BlockCodeRank(a.code), BlockCodeRank(b.code), NameKey(a.kernelName) + Bytes(a.field), NameKey(b.kernelName) + Bytes(b.field));
      BlockRankInjective(a.code, b.code);
      NameKeyFree(a.kernelName, b.kernelName, Bytes(a.field), Bytes(b.field));
      BytesAgree(a.field, b.field);
    }
  }

  lemma BytesAgree(a: string, b: string)
    requires Bytes(a) == Bytes(b)
    ensures a == b
  {
    hide Bytes;
    assert Bytes(a) + [] == Bytes(a) && Bytes(b) + [] == Bytes(b);
    BytesPrefixFree(a, b, [], []);
  }

  /** The order of discovery issues tells any two of them apart. */
  lemma DiscoveryIssueKeyInjective()
    ensures Injective(DiscoveryIssueKey)
  {
    hide DiscoveryCodeRank, NumberKey, Bytes;
    forall a, b | DiscoveryIssueKey(a) == DiscoveryIssueKey(b) ensures a == b {
      var p, q := NumberKey(a.nativeError) + NumberKey(a.mountId), NumberKey(b.nativeError) + NumberKey(b.mountId);
      HeadFree(DiscoveryCodeRank(a.code), DiscoveryCodeRank(b.code), Bytes(a.node) + (Bytes(a.field) + p), Bytes(b.node) + (Bytes(b.field) + q));
      DiscoveryRankInjective(a.code, b.code);
      BytesPrefixFree(a.node, b.node, Bytes(a.field) + p, Bytes(b.field) + q);
      BytesPrefixFree(a.field, b.field, p, q);
      NumberKeysAgree(a.nativeError, a.mountId, b.nativeError, b.mountId);
    }
  }
}
