/** What the ownership graph is, record by record and edge by edge. */
module GraphTheorems {
  import opened Inventory
  import opened Canonical
  import opened Backing
  import opened BackingTheory
  import opened Ownership

  /** `a` is a numbered partition, its relations undisputed, and the whole disk `b` that
      it names as its parent lists it exactly once. */
  predicate PartOf(blocks: map<Key, ResolvedNode>, a: Key, b: Key) {
    && a in blocks && b in blocks
    && blocks[a].observation.nodeType == PartitionNode
    && blocks[a].observation.partitionNumber.Some?
    && b == "block:" + blocks[a].observation.parentName.GetOr("")
    && blocks[b].observation.nodeType == WholeDisk
    && (exists i :: 0 <= i < |blocks[b].observation.childNames| && OnlyAt(blocks[b].observation.childNames, i, blocks[a].observation.kernelName))
    && (forall i :: 0 <= i < |blocks[a].observation.issues| ==>
          blocks[a].observation.issues[i].code !in {InvalidRelationship, DeviceDisappeared})
  }

  /** A reported edge, or that of a partition to its disk. */
  ghost predicate Linked(inv: Snapshot, ev: Evidence, a: Key, b: Key) {
    (exists e :: e in ev.edges && e.consumer == a && e.provider == b) || PartOf(Blocks(inv.nodes), a, b)
  }

  /** A whole disk that is not virtual: traces end there. */
  predicate IsEndpoint(blocks: map<Key, ResolvedNode>, k: Key) {
    k in blocks && blocks[k].observation.nodeType == WholeDisk && blocks[k].observation.kind != VirtualOrPseudo
  }

  /** Some record, reported or of an inventory node, has the key. */
  predicate Known(inv: Snapshot, ev: Evidence, k: Key) {
    || (exists r :: r in ev.nodes && r.key == k)
    || (exists b :: b in inv.nodes && "block:" + b.observation.kernelName == k)
  }

  /** Record `i` is the only one of its key. */
  predicate SoleRecord(records: seq<NodeRecord>, i: nat)
    requires i < |records|
  {
    forall j :: 0 <= j < |records| && records[j].key == records[i].key ==> j == i
  }

  /** One record has the key, declared complete; no reported issue names it; a partition
      is part of its disk; every edge at it has both ends known; and out of an endpoint
      there is none. */
  ghost predicate Undisputed(inv: Snapshot, ev: Evidence, k: Key) {
    var blocks, records := Blocks(inv.nodes), Records(inv, ev);
    && (exists i :: 0 <= i < |records| && records[i].key == k && records[i].complete && SoleRecord(records, i))
    && (forall r :: r in ev.issues ==> r.node != k)
    && (k in blocks && blocks[k].observation.nodeType == PartitionNode ==> exists b :: PartOf(blocks, k, b))
    && (forall a, b :: Linked(inv, ev, a, b) && k in {a, b} ==> Known(inv, ev, a) && Known(inv, ev, b))
    && (IsEndpoint(blocks, k) ==> forall b :: !Linked(inv, ev, k, b))
  }

  /** A key stands for the first node that has it. */
  lemma {:induction false} BlocksAreFirst(nodes: seq<ResolvedNode>, i: nat)
    requires i < |nodes| && forall j :: 0 <= j < i ==> nodes[j].observation.kernelName != nodes[i].observation.kernelName
    ensures var k := "block:" + nodes[i].observation.kernelName; k in Blocks(nodes) && Blocks(nodes)[k] == nodes[i]
  {
    var n := |nodes| - 1;
    if i < n {
      BlocksAreFirst(nodes[..n], i);
    } else {
      NotAmong(nodes[..n], nodes[i].observation.kernelName);
    }
  }

  lemma {:induction false} NotAmong(nodes: seq<ResolvedNode>, name: string)
    requires forall j :: 0 <= j < |nodes| ==> nodes[j].observation.kernelName != name
    ensures "block:" + name !in Blocks(nodes)
  {
    if nodes != [] {
      var last := nodes[|nodes| - 1].observation.kernelName;
      NotAmong(nodes[..|nodes| - 1], name);
      assert ("block:" + name)[6..] == name && BlockKey(last)[6..] == last;
    }
  }

  // Partitions

  lemma PartOfIs(blocks: map<Key, ResolvedNode>, a: Key, b: Key)
    requires a in blocks && IsPartition(blocks[a])
    ensures PartOf(blocks, a, b) <==> Reciprocal(blocks, blocks[a]) && b == ParentKey(blocks[a])
  {
    if ParentKey(blocks[a]) in blocks {
      OnceIs(blocks[ParentKey(blocks[a])].observation.childNames, blocks[a].observation.kernelName);
    }
    hide OnlyAt;
  }

  // Edges

  lemma LinkedIs(inv: Snapshot, ev: Evidence, a: Key, b: Key)
    ensures Linked(inv, ev, a, b) <==> exists e :: e in Edges(inv, ev) && e.consumer == a && e.provider == b
  {
    hide Blocks, PartOf, Reciprocal;
    var blocks := Blocks(inv.nodes);
    if a in blocks && IsPartition(blocks[a]) {
      PartOfIs(blocks, a, b);
      if PartOf(blocks, a, b) {
        assert PartitionEdge(a, blocks[a]) in PartitionEdges(blocks);
      }
    } else {
      NotPart(blocks, a, b);
    }
    if e :| e in Edges(inv, ev) && e.consumer == a && e.provider == b {
      assert e in ev.edges || e in PartitionEdges(blocks);
    }
    if e :| e in ev.edges && e.consumer == a && e.provider == b {
      assert e in Edges(inv, ev);
    }
  }

  lemma NotPart(blocks: map<Key, ResolvedNode>, a: Key, b: Key)
    requires !(a in blocks && IsPartition(blocks[a]))
    ensures !PartOf(blocks, a, b)
  {
  }

  lemma ProvidersAre(inv: Snapshot, ev: Evidence, a: Key)
    ensures forall b :: b in OwnershipGraph(inv, ev).ProvidersOf(a) <==> Linked(inv, ev, a, b)
    ensures OwnershipGraph(inv, ev).ProvidersOf(a) == [] <==> forall b :: !Linked(inv, ev, a, b)
  {
    hide Edges, Linked, Issues, Records, Blocks, NodeComplete;
    forall b ensures Linked(inv, ev, a, b) <==> exists e :: e in Edges(inv, ev) && e.consumer == a && e.provider == b {
      LinkedIs(inv, ev, a, b);
    }
    ProvidersOn(Blocks(inv.nodes), multiset(Records(inv, ev)), Edges(inv, ev), Issues(inv, ev), a);
  }

  lemma ProvidersOn(blocks: map<Key, ResolvedNode>, records: multiset<NodeRecord>, edges: set<Edge>, issues: set<Reason>, a: Key)
    ensures var ks := GraphOf(blocks, records, edges, issues).ProvidersOf(a);
      && (forall b :: b in ks <==> exists e :: e in edges && e.consumer == a && e.provider == b)
      && (ks != [] ==> ks[0] in ks)
  {
    hide NodeComplete;
    var g := GraphOf(blocks, records, edges, issues);
    if a in g.providers {
      assert g.providers[a] == AscendingKeys(ProviderSet(edges, a));
      forall b ensures b in g.providers[a] <==> b in ProviderSet(edges, a) {
        assert b in g.providers[a] <==> b in Elements(g.providers[a]);
      }
    }
  }

  /** A backing edge is followed exactly from a node that is no endpoint to one that it
      is linked to. */
  lemma FollowsIs(inv: Snapshot, ev: Evidence, a: Key, b: Key)
    ensures Follows(OwnershipGraph(inv, ev), a, b) <==> !IsEndpoint(Blocks(inv.nodes), a) && Linked(inv, ev, a, b)
  {
    hide Linked, Edges, Issues, Records;
    ProvidersAre(inv, ev, a);
    EndpointIs(inv, ev, a);
    hide OwnershipGraph, IsEndpoint, Blocks;
  }

  lemma EndpointIs(inv: Snapshot, ev: Evidence, k: Key)
    ensures k in OwnershipGraph(inv, ev).physical <==> IsEndpoint(Blocks(inv.nodes), k)
  {
    hide Blocks, Edges, Issues, Records;
  }

  // Nodes

  lemma KnownIs(inv: Snapshot, ev: Evidence, k: Key)
    ensures Known(inv, ev, k) <==> k in Keys(multiset(Records(inv, ev)))
  {
    hide Known;
    var records := Records(inv, ev);
    if Known(inv, ev, k) {
      var i := KnownRecord(inv, ev, k);
      assert records[i] in multiset(records);
    }
    if k in Keys(multiset(records)) {
      var r :| r in multiset(records) && r.key == k;
      assert r in records;
      var i :| 0 <= i < |records| && records[i] == r;
      RecordKnown(inv, ev, i);
    }
  }

  lemma KnownRecord(inv: Snapshot, ev: Evidence, k: Key) returns (i: nat)
    requires Known(inv, ev, k)
    ensures i < |Records(inv, ev)| && Records(inv, ev)[i].key == k
  {
    if r :| r in ev.nodes && r.key == k {
      i :| 0 <= i < |ev.nodes| && ev.nodes[i] == r;
    } else {
      var b :| b in inv.nodes && "block:" + b.observation.kernelName == k;
      var j :| 0 <= j < |inv.nodes| && inv.nodes[j] == b;
      i := |ev.nodes| + j;
      assert Records(inv, ev)[i] == BlockRecord(b);
    }
  }

  lemma RecordKnown(inv: Snapshot, ev: Evidence, i: nat)
    requires i < |Records(inv, ev)|
    ensures Known(inv, ev, Records(inv, ev)[i].key)
  {
    if i >= |ev.nodes| {
      assert Records(inv, ev)[i] == BlockRecord(inv.nodes[i - |ev.nodes|]);
      assert inv.nodes[i - |ev.nodes|] in inv.nodes;
    } else {
      assert ev.nodes[i] in ev.nodes;
    }
  }

  lemma SoleRecordIs(records: seq<NodeRecord>, k: Key)
    ensures (exists i :: 0 <= i < |records| && records[i].key == k && records[i].complete && SoleRecord(records, i)) <==>
      k in Keys(multiset(records)) && !Duplicated(multiset(records), k) && DeclaredComplete(multiset(records), k)
  {
    var m := multiset(records);
    if i :| 0 <= i < |records| && records[i].key == k && records[i].complete && SoleRecord(records, i) {
      assert records[i] in m;
      forall r | r in m && r.key == k ensures r == records[i] && m[r] == 1 {
        assert r in records;
        if m[r] >= 2 {
          ListedTwice(records, r);
        }
      }
    }
    if k in Keys(m) && !Duplicated(m, k) && DeclaredComplete(m, k) {
      var r :| r in m && r.key == k;
      assert r in records;
      var i :| 0 <= i < |records| && records[i] == r;
      forall j | 0 <= j < |records| && records[j].key == k ensures j == i {
        assert records[j] in m && records[j] == r;
        if j != i {
          TwiceListed(records, if i < j then i else j, if i < j then j else i);
        }
      }
      assert SoleRecord(records, i);
    }
  }

  /** A node of the graph is complete exactly when nothing is disputed about it. */
  lemma CompleteIs(inv: Snapshot, ev: Evidence, k: Key)
    ensures k in OwnershipGraph(inv, ev).nodes <==> Known(inv, ev, k)
    ensures OwnershipGraph(inv, ev).Complete(k) <==> Undisputed(inv, ev, k)
  {
    hide Blocks, Records, Edges, Linked, PartOf, Duplicated, DeclaredComplete, Known, Keys, PartitionIssues, SoleRecord;
    var records := multiset(Records(inv, ev));
    var blocks, edges := Blocks(inv.nodes), Edges(inv, ev);
    KnownIs(inv, ev, k);
    SoleRecordIs(Records(inv, ev), k);
    assert OwnershipGraph(inv, ev).Complete(k) <==> k in Keys(records) && NodeComplete(records, edges, Issues(inv, ev), k);
    PartitionIssueIs(blocks, k);
    DanglingIs(inv, ev, k);
    BackedIs(inv, ev, k);
    IssuesNaming(blocks, records, edges, Elements(ev.issues), k);
    hide NodeComplete, Issues, IssuesOf, Dangling, ProviderSet;
    assert (forall r :: r in Elements(ev.issues) ==> r.node != k) <==> (forall r :: r in ev.issues ==> r.node != k);
  }

  /** What raises an issue that names `k`. */
  lemma IssuesNaming(blocks: map<Key, ResolvedNode>, records: multiset<NodeRecord>, edges: set<Edge>, reported: set<Reason>, k: Key)
    ensures (forall r :: r in IssuesOf(blocks, records, edges, reported) ==> r.node != k) <==>
      && (forall r :: r in reported ==> r.node != k)
      && !(k in Keys(records) && Duplicated(records, k))
      && (forall r :: r in PartitionIssues(blocks) ==> r.node != k)
      && (forall e :: e in edges && e.consumer == k ==> !Dangling(Keys(records), e))
      && !(k in blocks && IsPhysical(blocks[k]) && ProviderSet(edges, k) != {})
  {
    hide Duplicated, PartitionIssues, Dangling, ProviderSet, Keys;
    var issues := IssuesOf(blocks, records, edges, reported);
    assert k in Keys(records) && Duplicated(records, k) ==> DuplicateIssue(k) in issues;
    assert k in blocks && IsPhysical(blocks[k]) && ProviderSet(edges, k) != {} ==> BackedEndpointIssue(k) in issues;
    forall e | e in edges && Dangling(Keys(records), e) ensures DanglingIssue(e) in issues {
    }
    assert PartitionIssues(blocks) <= issues && reported <= issues;
  }

  lemma PartitionIssueIs(blocks: map<Key, ResolvedNode>, k: Key)
    ensures (forall r :: r in PartitionIssues(blocks) ==> r.node != k) <==>
      (k in blocks && blocks[k].observation.nodeType == PartitionNode ==> exists b :: PartOf(blocks, k, b))
  {
    hide PartOf, Reciprocal;
    if k in blocks && IsPartition(blocks[k]) {
      forall b ensures PartOf(blocks, k, b) <==> Reciprocal(blocks, blocks[k]) && b == ParentKey(blocks[k]) {
        PartOfIs(blocks, k, b);
      }
      if !Reciprocal(blocks, blocks[k]) {
        assert PartitionIssue(k) in PartitionIssues(blocks);
      } else {
        assert PartOf(blocks, k, ParentKey(blocks[k]));
      }
    }
  }

  lemma DanglingIs(inv: Snapshot, ev: Evidence, k: Key)
    ensures (forall e :: e in Edges(inv, ev) && k in {e.consumer, e.provider} ==> !Dangling(Keys(multiset(Records(inv, ev))), e)) <==>
      (forall a, b :: Linked(inv, ev, a, b) && k in {a, b} ==> Known(inv, ev, a) && Known(inv, ev, b))
  {
    hide Edges, Records, Linked, Known, Keys;
    forall a, b ensures Linked(inv, ev, a, b) <==> exists e :: e in Edges(inv, ev) && e.consumer == a && e.provider == b {
      LinkedIs(inv, ev, a, b);
    }
    forall a ensures Known(inv, ev, a) <==> a in Keys(multiset(Records(inv, ev))) {
      KnownIs(inv, ev, a);
    }
    forall e | e in Edges(inv, ev) ensures Linked(inv, ev, e.consumer, e.provider) {
    }
  }

  lemma BackedIs(inv: Snapshot, ev: Evidence, k: Key)
    ensures ProviderSet(Edges(inv, ev), k) == {} <==> forall b :: !Linked(inv, ev, k, b)
  {
    hide Edges, Linked;
    forall b ensures Linked(inv, ev, k, b) <==> b in ProviderSet(Edges(inv, ev), k) {
      LinkedIs(inv, ev, k, b);
    }
  }
}
