/** The disk that a partition's usage counts for. */
module DiskUsage {
  import opened Text
  import opened Inventory
  import opened HostReads

  predicate RelationshipUsable(o: Observation) {
    forall i :: 0 <= i < |o.issues| ==>
      o.issues[i].code != InvalidRelationship && o.issues[i].code != DeviceDisappeared
      && o.issues[i].field != "parent_kernel_name" && o.issues[i].field != "partition_number"
  }

  predicate SoleNamed(nodes: seq<ResolvedNode>, name: string, p: nat) {
    && p < |nodes| && nodes[p].observation.kernelName == name
    && forall j :: 0 <= j < |nodes| && nodes[j].observation.kernelName == name ==> j == p
  }

  /** Node `c` is a partition whose usage counts for the disk `p`. */
  predicate Accepts(nodes: seq<ResolvedNode>, c: nat, p: nat)
    requires c < |nodes|
  {
    var child := nodes[c].observation;
    && child.nodeType == PartitionNode && child.parentName.Some? && SoleNamed(nodes, child.parentName.value, p)
    && Related(child, nodes[p])
  }

  /** A partition and the one node of its parent's name fit together. */
  predicate Related(child: Observation, parent: ResolvedNode) {
    && RelationshipUsable(child) && RelationshipUsable(parent.observation) && child.partitionNumber.Some?
    && parent.observation.nodeType == WholeDisk && parent.identity.state == Resolved
    && parent.observation.kind != VirtualOrPseudo
    && multiset(parent.observation.childNames)[child.kernelName] == 1
  }

  /** The partition counts for some disk. */
  predicate Adopted(nodes: seq<ResolvedNode>, c: nat)
    requires c < |nodes|
  {
    exists p :: 0 <= p < |nodes| && Accepts(nodes, c, p)
  }

  function Joined(disk: ResolvedNode, child: ResolvedNode): ResolvedNode {
    disk.(usageNodes := disk.usageNodes + [child.observation.kernelName], mounts := disk.mounts + child.mounts,
          swaps := disk.swaps + child.swaps)
  }

  /** The disk after the usage of its partitions among the first n nodes was added. */
  function Gathered(nodes: seq<ResolvedNode>, p: nat, n: nat): ResolvedNode
    requires p < |nodes| && n <= |nodes|
  {
    if n == 0 then nodes[p]
    else if Accepts(nodes, n - 1, p) then Joined(Gathered(nodes, p, n - 1), nodes[n - 1])
    else Gathered(nodes, p, n - 1)
  }

  function AllGathered(nodes: seq<ResolvedNode>, n: nat): (gathered: seq<ResolvedNode>)
    requires n <= |nodes|
    ensures |gathered| == |nodes|
  {
    seq(|nodes|, p requires 0 <= p < |nodes| => Gathered(nodes, p, n))
  }

  function ParentIssue(nodes: seq<ResolvedNode>, c: nat): seq<DiscoveryIssue>
    requires c < |nodes|
  {
    if nodes[c].observation.nodeType != PartitionNode || Adopted(nodes, c) then []
    else [Issue(UnsupportedTopology, nodes[c].observation.kernelName, "usage_parent")]
  }

  /** A partition that counts for no disk is reported. */
  function ParentIssues(nodes: seq<ResolvedNode>, n: nat): seq<DiscoveryIssue>
    requires n <= |nodes|
  {
    if n == 0 then [] else ParentIssues(nodes, n - 1) + ParentIssue(nodes, n - 1)
  }

  lemma {:induction false} GatheredKeeps(nodes: seq<ResolvedNode>, p: nat, n: nat)
    requires p < |nodes| && n <= |nodes|
    ensures Gathered(nodes, p, n).observation == nodes[p].observation
    ensures Gathered(nodes, p, n).identity == nodes[p].identity
    ensures Gathered(nodes, p, n).currentPath == nodes[p].currentPath
    ensures Gathered(nodes, p, n).signature == nodes[p].signature
    ensures nodes[p].observation.nodeType == PartitionNode ==> Gathered(nodes, p, n) == nodes[p]
  {
    if n > 0 {
      GatheredKeeps(nodes, p, n - 1);
    }
  }

  /** Two lists of the same devices: only what is known of their paths, signatures
      and usage may differ. */
  predicate SameNodes(a: seq<ResolvedNode>, b: seq<ResolvedNode>) {
    |a| == |b| && forall k :: 0 <= k < |a| ==> a[k].observation == b[k].observation && a[k].identity == b[k].identity
  }

  lemma AcceptsSame(a: seq<ResolvedNode>, b: seq<ResolvedNode>, c: nat, p: nat)
    requires SameNodes(a, b) && c < |a|
    ensures Accepts(a, c, p) <==> Accepts(b, c, p)
  {
    hide RelationshipUsable;
  }

  /** Looks for the one node of a name, and for how many there are. */
  method FindParent(nodes: array<ResolvedNode>, name: Option<string>) returns (parent: nat, parents: nat)
    ensures parents == 1 ==> name.Some? && SoleNamed(nodes[..], name.value, parent)
    ensures parents != 1 && name.Some? ==> forall p :: !SoleNamed(nodes[..], name.value, p)
    ensures name.None? ==> parents == 0
  {
    parent, parents := 0, 0;
    if name.None? {
      return;
    }
    for i := 0 to nodes.Length
      invariant parents == 0 ==> forall j :: 0 <= j < i ==> nodes[j].observation.kernelName != name.value
      invariant parents >= 1 ==> parent < i && nodes[parent].observation.kernelName == name.value
      invariant parents == 1 ==> forall j :: 0 <= j < i && nodes[j].observation.kernelName == name.value ==> j == parent
      invariant parents > 1 ==> exists j :: 0 <= j < i && j != parent && nodes[j].observation.kernelName == name.value
    {
      if nodes[i].observation.kernelName == name.value {
        parent := i;
        parents := parents + 1;
      }
    }
  }

  /** The disk that a node counts for, if any. */
  method FindDisk(nodes: array<ResolvedNode>, c: nat) returns (disk: Option<nat>)
    requires c < nodes.Length && nodes[c].observation.nodeType == PartitionNode
    ensures disk.Some? ==> disk.value < nodes.Length
    ensures forall p: nat :: Accepts(nodes[..], c, p) <==> disk == Some(p)
  {
    hide RelationshipUsable;
    var child := nodes[c].observation;
    var parent, parents := FindParent(nodes, child.parentName);
    if parents != 1 || !RelationshipUsable(child) || !RelationshipUsable(nodes[parent].observation) || child.partitionNumber.None?
       || nodes[parent].observation.nodeType != WholeDisk || nodes[parent].identity.state != Resolved
       || nodes[parent].observation.kind == VirtualOrPseudo
       || multiset(nodes[parent].observation.childNames)[child.kernelName] != 1 {
      return None;
    }
    return Some(parent);
  }

  /** One child's turn: at most one disk changes. */
  function Adopting(now: seq<ResolvedNode>, disk: Option<nat>, child: ResolvedNode): (next: seq<ResolvedNode>)
    requires disk.Some? ==> disk.value < |now|
    ensures |next| == |now|
  {
    if disk.None? then now else now[disk.value := Joined(now[disk.value], child)]
  }

  lemma AdoptingStep(was: seq<ResolvedNode>, c: nat, disk: Option<nat>)
    requires c < |was| && (disk.Some? ==> disk.value < |was|)
    requires forall p: nat :: Accepts(was, c, p) <==> disk == Some(p)
    ensures AllGathered(was, c + 1) == Adopting(AllGathered(was, c), disk, was[c])
    ensures ParentIssue(was, c) == if was[c].observation.nodeType != PartitionNode || disk.Some? then []
                                   else [Issue(UnsupportedTopology, was[c].observation.kernelName, "usage_parent")]
  {
    hide Accepts, Joined;
    if disk.Some? {
      assert Accepts(was, c, disk.value);
    }
    forall p | 0 <= p < |was| ensures AllGathered(was, c + 1)[p] == Adopting(AllGathered(was, c), disk, was[c])[p] {
      assert Accepts(was, c, p) <==> disk == Some(p);
    }
  }

  /** While the pass runs every node is the same device, and partitions are untouched. */
  lemma GatheredSame(was: seq<ResolvedNode>, n: nat)
    requires n <= |was|
    ensures SameNodes(was, AllGathered(was, n))
    ensures forall c :: 0 <= c < |was| && was[c].observation.nodeType == PartitionNode ==> AllGathered(was, n)[c] == was[c]
  {
    hide Gathered;
    forall p | 0 <= p < |was|
      ensures Gathered(was, p, n).observation == was[p].observation && Gathered(was, p, n).identity == was[p].identity
      ensures was[p].observation.nodeType == PartitionNode ==> Gathered(was, p, n) == was[p]
    {
      GatheredKeeps(was, p, n);
    }
  }

  lemma AcceptanceKept(was: seq<ResolvedNode>, n: nat, c: nat)
    requires n <= |was| && c < |was|
    ensures forall p: nat :: Accepts(was, c, p) <==> Accepts(AllGathered(was, n), c, p)
    ensures AllGathered(was, n)[c].observation == was[c].observation
    ensures was[c].observation.nodeType == PartitionNode ==> AllGathered(was, n)[c] == was[c]
    ensures was[c].observation.nodeType != PartitionNode ==> forall p: nat :: !Accepts(was, c, p)
  {
    hide AllGathered, Related;
    GatheredSame(was, n);
    forall p: nat ensures Accepts(was, c, p) <==> Accepts(AllGathered(was, n), c, p) {
      AcceptsSame(was, AllGathered(was, n), c, p);
    }
  }

  /** Adds each accepted partition's usage to its disk. */
  method AggregateUsage(nodes: array<ResolvedNode>) returns (issues: seq<DiscoveryIssue>)
    modifies nodes
    ensures nodes[..] == AllGathered(old(nodes[..]), nodes.Length)
    ensures issues == ParentIssues(old(nodes[..]), nodes.Length)
  {
    hide AllGathered, Accepts, Joined, ParentIssue;
    ghost var was := nodes[..];
    issues := [];
    NothingGathered(was);
    for c := 0 to nodes.Length
      invariant nodes[..] == AllGathered(was, c)
      invariant issues == ParentIssues(was, c)
    {
      ghost var now := nodes[..];
      AcceptanceKept(was, c, c);
      var child := nodes[c];
      assert child == now[c];
      if child.observation.nodeType != PartitionNode {
        AdoptingStep(was, c, None);
        continue;
      }
      var disk := FindDisk(nodes, c);
      AdoptingStep(was, c, disk);
      if disk.None? {
        issues := issues + [Issue(UnsupportedTopology, child.observation.kernelName, "usage_parent")];
        continue;
      }
      nodes[disk.value] := Joined(nodes[disk.value], child);
      assert nodes[..] == Adopting(now, disk, child);
    }
  }

  lemma NothingGathered(nodes: seq<ResolvedNode>)
    ensures AllGathered(nodes, 0) == nodes
  {
  }
}
