/** How the ownership graph is computed: loops that fill the node table, the edge
    list and the issue list, proved to produce the specified graph. */
module GraphBuilder {
  import opened Text
  import opened Inventory
  import opened Canonical
  import opened Backing
  import opened Ownership

  // Node table

  method ListBlocks(nodes: seq<ResolvedNode>) returns (blocks: map<Key, ResolvedNode>)
    ensures blocks == Blocks(nodes)
  {
    blocks := map[];
    for i := 0 to |nodes|
      invariant blocks == Blocks(nodes[..i])
    {
      assert nodes[..i + 1][..i] == nodes[..i];
      var key := BlockKey(nodes[i].observation.kernelName);
      if key !in blocks {
        blocks := blocks[key := nodes[i]];
      }
    }
    assert nodes[..|nodes|] == nodes;
  }

  /** The first record of each key, and the keys that more than one record carries. */
  method ListNodes(records: seq<NodeRecord>) returns (nodes: map<Key, NodeRecord>, duplicates: set<Key>)
    ensures nodes.Keys == Keys(multiset(records))
    ensures forall k :: FirstOf(records, k) == if k in nodes then Some(nodes[k]) else None
    ensures forall k :: k in duplicates <==> k in nodes && Duplicated(multiset(records), k)
    ensures forall k :: k in nodes && k !in duplicates ==> (nodes[k].complete <==> DeclaredComplete(multiset(records), k))
  {
    hide Recorded, FirstOf;
    nodes, duplicates := map[], {};
    NoRecords();
    for i := 0 to |records|
      invariant Recorded(nodes, duplicates, records[..i])
    {
      var r := records[i];
      assert records[..i + 1] == records[..i] + [r];
      RecordStep(nodes, duplicates, records[..i], r);
      if r.key in nodes {
        duplicates := duplicates + {r.key};
      } else {
        nodes := nodes[r.key := r];
      }
    }
    assert records[..|records|] == records;
    RecordedAll(nodes, duplicates, records);
  }

  ghost predicate Recorded(nodes: map<Key, NodeRecord>, duplicates: set<Key>, records: seq<NodeRecord>) {
    var m := multiset(records);
    && nodes.Keys == Keys(m)
    && (forall k :: FirstOf(records, k) == if k in nodes then Some(nodes[k]) else None)
    && (forall k :: k in duplicates <==> k in nodes && Duplicated(m, k))
    && (forall k :: k in nodes && k !in duplicates ==> (nodes[k].complete <==> DeclaredComplete(m, k)))
  }

  lemma NoRecords()
    ensures Recorded(map[], {}, [])
  {
  }

  lemma RecordedAll(nodes: map<Key, NodeRecord>, duplicates: set<Key>, records: seq<NodeRecord>)
    requires Recorded(nodes, duplicates, records)
    ensures nodes.Keys == Keys(multiset(records))
    ensures forall k :: FirstOf(records, k) == if k in nodes then Some(nodes[k]) else None
    ensures forall k :: k in duplicates <==> k in nodes && Duplicated(multiset(records), k)
    ensures forall k :: k in nodes && k !in duplicates ==> (nodes[k].complete <==> DeclaredComplete(multiset(records), k))
  {
    hide Keys, Duplicated, DeclaredComplete, FirstOf;
  }

  lemma RecordStep(nodes: map<Key, NodeRecord>, duplicates: set<Key>, records: seq<NodeRecord>, r: NodeRecord)
    requires Recorded(nodes, duplicates, records)
    ensures if r.key in nodes then Recorded(nodes, duplicates + {r.key}, records + [r])
            else Recorded(nodes[r.key := r], duplicates, records + [r])
  {
    hide Keys, Duplicated, DeclaredComplete, FirstOf;
    assert multiset(records + [r]) == multiset(records) + multiset{r};
    RecordAdded(multiset(records), r);
    forall k ensures FirstOf(records + [r], k) ==
      if FirstOf(records, k).Some? then FirstOf(records, k) else if r.key == k then Some(r) else None
    {
      FirstAdded(records, r, k);
    }
  }

  lemma FirstAdded(records: seq<NodeRecord>, r: NodeRecord, k: Key)
    ensures FirstOf(records + [r], k) ==
      if FirstOf(records, k).Some? then FirstOf(records, k) else if r.key == k then Some(r) else None
  {
    assert (records + [r])[..|records|] == records;
  }

  /** The effect of one more record on what is known of each key. */
  lemma RecordAdded(m: multiset<NodeRecord>, r: NodeRecord)
    ensures var n := m + multiset{r};
      && Keys(n) == Keys(m) + {r.key}
      && (forall k :: k != r.key ==> (Duplicated(n, k) <==> Duplicated(m, k)))
      && (forall k :: k != r.key ==> (DeclaredComplete(n, k) <==> DeclaredComplete(m, k)))
      && (Duplicated(n, r.key) <==> r.key in Keys(m))
      && (r.key !in Keys(m) ==> (DeclaredComplete(n, r.key) <==> r.complete))
  {
    var n := m + multiset{r};
    forall s ensures s in n <==> s in m || s == r {
    }
    forall k | k != r.key ensures Duplicated(n, k) <==> Duplicated(m, k) {
      forall s | s in n && s.key == k ensures n[s] == m[s] {
      }
    }
    if r.key in Keys(m) {
      var s :| s in m && s.key == r.key;
      assert s in n && r in n;
      if s == r {
        assert n[r] >= 2;
      }
    }
  }

  /** Clears the completeness flag of `key`, where there is one. */
  method Taint(nodes: map<Key, bool>, key: Key) returns (tainted: map<Key, bool>)
    ensures tainted.Keys == nodes.Keys
    ensures forall k :: k in nodes ==> tainted[k] == (nodes[k] && k != key)
  {
    tainted := if key in nodes then nodes[key := false] else nodes;
  }

  method TaintEnds(nodes: map<Key, bool>, edge: Edge) returns (tainted: map<Key, bool>)
    ensures tainted.Keys == nodes.Keys
    ensures forall k :: k in nodes ==> tainted[k] == (nodes[k] && k != edge.consumer && k != edge.provider)
  {
    tainted := Taint(nodes, edge.consumer);
    tainted := Taint(tainted, edge.provider);
  }

  method MarkDuplicates(nodes: map<Key, bool>, duplicates: set<Key>, issues: seq<Reason>)
    returns (marked: map<Key, bool>, reported: seq<Reason>)
    ensures marked.Keys == nodes.Keys
    ensures forall k :: k in nodes ==> marked[k] == (nodes[k] && k !in duplicates)
    ensures Elements(reported) == Elements(issues) + set k | k in duplicates :: DuplicateIssue(k)
  {
    marked, reported := nodes, issues;
    var rest := duplicates;
    while rest != {}
      invariant rest <= duplicates
      invariant marked.Keys == nodes.Keys
      invariant forall k :: k in nodes ==> marked[k] == (nodes[k] && k !in duplicates - rest)
      invariant Elements(reported) == Elements(issues) + set k | k in duplicates - rest :: DuplicateIssue(k)
    {
      var key :| key in rest;
      rest := rest - {key};
      assert duplicates - rest == duplicates - (rest + {key}) + {key};
      marked := Taint(marked, key);
      ElementsAppend(reported, DuplicateIssue(key));
      reported := reported + [DuplicateIssue(key)];
    }
  }

  // Edges

  predicate Linked(blocks: map<Key, ResolvedNode>, k: Key) {
    k in blocks && IsPartition(blocks[k]) && Reciprocal(blocks, blocks[k])
  }

  predicate Orphaned(blocks: map<Key, ResolvedNode>, k: Key) {
    k in blocks && IsPartition(blocks[k]) && !Reciprocal(blocks, blocks[k])
  }

  /** Adds a partition edge for every reciprocal partition, and an issue for every other. */
  method LinkPartitions(blocks: map<Key, ResolvedNode>, nodes: map<Key, bool>, edges: seq<Edge>, issues: seq<Reason>)
    returns (marked: map<Key, bool>, linked: seq<Edge>, reported: seq<Reason>)
    ensures marked.Keys == nodes.Keys
    ensures forall k :: k in nodes ==> marked[k] == (nodes[k] && !Orphaned(blocks, k))
    ensures Elements(linked) == Elements(edges) + PartitionEdges(blocks)
    ensures Elements(reported) == Elements(issues) + PartitionIssues(blocks)
  {
    marked, linked, reported := nodes, edges, issues;
    var rest := blocks.Keys;
    ghost var done: set<Key> := {};
    while rest != {}
      invariant rest + done == blocks.Keys
      invariant marked.Keys == nodes.Keys
      invariant forall k :: k in nodes ==> marked[k] == (nodes[k] && !(k in done && Orphaned(blocks, k)))
      invariant forall e :: e in linked <==> e in edges || IsPartitionEdge(blocks, done, e)
      invariant forall r :: r in reported <==> r in issues || IsPartitionIssue(blocks, done, r)
      decreases rest
    {
      var key :| key in rest;
      var b := blocks[key];
      rest, done := rest - {key}, done + {key};
      hide Reciprocal;
      if IsPartition(b) {
        if Reciprocal(blocks, b) {
          linked := linked + [PartitionEdge(key, b)];
        } else {
          marked := Taint(marked, key);
          reported := reported + [PartitionIssue(key)];
        }
      }
    }
    assert done == blocks.Keys;
    hide Reciprocal;
    assert forall e :: e in PartitionEdges(blocks) <==> IsPartitionEdge(blocks, done, e);
    assert forall r :: r in PartitionIssues(blocks) <==> IsPartitionIssue(blocks, done, r);
  }

  predicate IsPartitionEdge(blocks: map<Key, ResolvedNode>, done: set<Key>, e: Edge) {
    e.consumer in done && Linked(blocks, e.consumer) && e == PartitionEdge(e.consumer, blocks[e.consumer])
  }

  predicate IsPartitionIssue(blocks: map<Key, ResolvedNode>, done: set<Key>, r: Reason) {
    r.node in done && Orphaned(blocks, r.node) && r == PartitionIssue(r.node)
  }

  /** Collects each consumer's providers, in order, and reports the edges with a missing end. */
  method IndexEdges(edges: seq<Edge>, nodes: map<Key, bool>, issues: seq<Reason>)
    returns (marked: map<Key, bool>, parents: map<Key, seq<Key>>, reported: seq<Reason>)
    ensures marked.Keys == nodes.Keys
    ensures forall k :: k in nodes ==>
      marked[k] == (nodes[k] && !Touched(edges, nodes.Keys, k))
    ensures Indexed(edges, parents)
    ensures Elements(reported) == Elements(issues) + set e | e in edges && Dangling(nodes.Keys, e) :: DanglingIssue(e)
  {
    marked, parents, reported := nodes, map[], issues;
    assert edges[..0] == [];
    assert Indexed([], map[]);
    assert forall k :: !Touched([], nodes.Keys, k);
    assert forall r :: !IsDanglingIssue([], nodes.Keys, r);
    hide Indexed;
    hide Touched;
    hide IsDanglingIssue;
    hide Insert;
    hide ProviderSet;
    hide Lists;
    for i := 0 to |edges|
      invariant marked.Keys == nodes.Keys
      invariant forall k :: k in nodes ==> marked[k] == (nodes[k] && !Touched(edges[..i], nodes.Keys, k))
      invariant Indexed(edges[..i], parents)
      invariant forall r :: r in reported <==> r in issues || IsDanglingIssue(edges[..i], nodes.Keys, r)
    {
      assert edges[..i + 1] == edges[..i] + [edges[i]];
      marked, reported := ReportDangling(edges[..i], edges[i], nodes, marked, issues, reported);
      parents := AddProvider(edges[..i], edges[i], parents);
    }
    assert edges[..|edges|] == edges;
    DanglingReported(edges, nodes.Keys, issues, reported);
  }

  method ReportDangling(ghost done: seq<Edge>, edge: Edge, nodes: map<Key, bool>, flags: map<Key, bool>,
                        ghost issues: seq<Reason>, known: seq<Reason>)
    returns (marked: map<Key, bool>, reported: seq<Reason>)
    requires flags.Keys == nodes.Keys
    requires forall k :: k in nodes ==> flags[k] == (nodes[k] && !Touched(done, nodes.Keys, k))
    requires forall r :: r in known <==> r in issues || IsDanglingIssue(done, nodes.Keys, r)
    ensures marked.Keys == nodes.Keys
    ensures forall k :: k in nodes ==> marked[k] == (nodes[k] && !Touched(done + [edge], nodes.Keys, k))
    ensures forall r :: r in reported <==> r in issues || IsDanglingIssue(done + [edge], nodes.Keys, r)
  {
    marked, reported := flags, known;
    DanglingAdded(done, edge, nodes.Keys);
    hide Touched;
    hide IsDanglingIssue;
    if edge.consumer !in nodes || edge.provider !in nodes {
      marked := TaintEnds(marked, edge);
      reported := reported + [DanglingIssue(edge)];
    }
  }

  method AddProvider(ghost done: seq<Edge>, edge: Edge, parents: map<Key, seq<Key>>) returns (extended: map<Key, seq<Key>>)
    requires Indexed(done, parents)
    ensures Indexed(done + [edge], extended)
  {
    var known := if edge.consumer in parents then parents[edge.consumer] else [];
    ProviderAdded(done, edge, parents, known);
    hide Indexed;
    extended := parents[edge.consumer := Insert(edge.provider, known, Bytes)];
  }

  lemma DanglingAdded(edges: seq<Edge>, edge: Edge, keys: set<Key>)
    ensures forall k :: Touched(edges + [edge], keys, k) <==>
      Touched(edges, keys, k) || (Dangling(keys, edge) && (k == edge.consumer || k == edge.provider))
    ensures forall r :: IsDanglingIssue(edges + [edge], keys, r) <==>
      IsDanglingIssue(edges, keys, r) || (Dangling(keys, edge) && r == DanglingIssue(edge))
  {
    assert forall e :: e in edges + [edge] <==> e in edges || e == edge;
  }

  lemma DanglingReported(edges: seq<Edge>, keys: set<Key>, issues: seq<Reason>, reported: seq<Reason>)
    requires forall r :: r in reported <==> r in issues || IsDanglingIssue(edges, keys, r)
    ensures Elements(reported) == Elements(issues) + set e | e in edges && Dangling(keys, e) :: DanglingIssue(e)
  {
  }

  predicate Touched(edges: seq<Edge>, keys: set<Key>, k: Key) {
    exists e :: e in edges && Dangling(keys, e) && (e.consumer == k || e.provider == k)
  }

  predicate IsDanglingIssue(edges: seq<Edge>, keys: set<Key>, r: Reason) {
    exists e :: e in edges && Dangling(keys, e) && r == DanglingIssue(e)
  }

  /** `parents` lists, in order, the providers of every consumer in `edges`. */
  ghost predicate Indexed(edges: seq<Edge>, parents: map<Key, seq<Key>>) {
    && parents.Keys == (set e | e in edges :: e.consumer)
    && forall k :: k in parents ==> Lists(parents[k], ProviderSet(Elements(edges), k), Bytes)
  }

  lemma ProviderAdded(edges: seq<Edge>, edge: Edge, parents: map<Key, seq<Key>>, known: seq<Key>)
    requires Indexed(edges, parents)
    requires known == if edge.consumer in parents then parents[edge.consumer] else []
    ensures Indexed(edges + [edge], parents[edge.consumer := Insert(edge.provider, known, Bytes)])
  {
    var before, after := Elements(edges), Elements(edges + [edge]);
    var inserted := Insert(edge.provider, known, Bytes);
    ElementsAppend(edges, edge);
    assert Elements(known) == ProviderSet(before, edge.consumer) && Ascending(known, Bytes) by {
      if edge.consumer !in parents {
        assert forall e :: e in before ==> e.consumer != edge.consumer;
        assert Elements<Key>([]) == ProviderSet(before, edge.consumer);
      }
    }
    InsertKey(edge.provider, known);
    hide Insert;
    hide Ascending;
    assert ProviderSet(after, edge.consumer) == ProviderSet(before, edge.consumer) + {edge.provider};
    forall k | k != edge.consumer ensures ProviderSet(after, k) == ProviderSet(before, k) {
    }
  }

  // Issues and endpoints

  method ApplyIssues(nodes: map<Key, bool>, issues: seq<Reason>) returns (marked: map<Key, bool>)
    ensures marked.Keys == nodes.Keys
    ensures forall k :: k in nodes ==> marked[k] == (nodes[k] && forall r :: r in issues ==> r.node != k)
  {
    marked := nodes;
    for i := 0 to |issues|
      invariant marked.Keys == nodes.Keys
      invariant forall k :: k in nodes ==> marked[k] == (nodes[k] && forall r :: r in issues[..i] ==> r.node != k)
    {
      assert issues[..i + 1] == issues[..i] + [issues[i]];
      marked := Taint(marked, issues[i].node);
    }
    assert issues[..|issues|] == issues;
  }

  predicate Disputed(blocks: map<Key, ResolvedNode>, parents: map<Key, seq<Key>>, k: Key) {
    k in blocks && IsPhysical(blocks[k]) && k in parents && parents[k] != []
  }

  /** Finds the physical endpoints, and disputes those that have backing of their own. */
  method ListEndpoints(blocks: map<Key, ResolvedNode>, parents: map<Key, seq<Key>>, nodes: map<Key, bool>, issues: seq<Reason>)
    returns (physical: map<Key, Endpoint>, marked: map<Key, bool>, reported: seq<Reason>)
    ensures physical == Physical(blocks)
    ensures marked.Keys == nodes.Keys
    ensures forall k :: k in nodes ==> marked[k] == (nodes[k] && !Disputed(blocks, parents, k))
    ensures Elements(reported) == Elements(issues) + set k | k in blocks && Disputed(blocks, parents, k) :: BackedEndpointIssue(k)
  {
    physical, marked, reported := map[], nodes, issues;
    var rest := blocks.Keys;
    while rest != {}
      invariant rest <= blocks.Keys
      invariant forall k :: k in physical <==> k in blocks && k !in rest && IsPhysical(blocks[k])
      invariant forall k :: k in physical ==> physical[k] == EndpointOf(blocks[k])
      invariant marked.Keys == nodes.Keys
      invariant forall k :: k in nodes ==> marked[k] == (nodes[k] && (k in rest || !Disputed(blocks, parents, k)))
      invariant forall r :: r in reported <==> r in issues || IsBackedIssue(blocks, parents, rest, r)
    {
      var key :| key in rest;
      rest := rest - {key};
      hide EndpointOf;
      hide IsPhysical;
      if IsPhysical(blocks[key]) {
        physical := physical[key := EndpointOf(blocks[key])];
        if key in parents && parents[key] != [] {
          marked := Taint(marked, key);
          reported := reported + [BackedEndpointIssue(key)];
        }
      }
    }
    BackedIssues(blocks, parents, issues, reported);
    hide Disputed;
    hide IsPhysical;
    hide EndpointOf;
  }

  predicate IsBackedIssue(blocks: map<Key, ResolvedNode>, parents: map<Key, seq<Key>>, rest: set<Key>, r: Reason) {
    r.node !in rest && Disputed(blocks, parents, r.node) && r == BackedEndpointIssue(r.node)
  }

  lemma BackedIssues(blocks: map<Key, ResolvedNode>, parents: map<Key, seq<Key>>, issues: seq<Reason>, reported: seq<Reason>)
    requires forall r :: r in reported <==> r in issues || IsBackedIssue(blocks, parents, {}, r)
    ensures Elements(reported) == Elements(issues) + set k | k in blocks && Disputed(blocks, parents, k) :: BackedEndpointIssue(k)
  {
    hide IsPhysical;
  }

  // The graph as a whole

  ghost predicate FirstsOf(listed: map<Key, NodeRecord>, records: seq<NodeRecord>) {
    forall k :: FirstOf(records, k) == if k in listed then Some(listed[k]) else None
  }

  /** The records with the flags that they end up with. */
  function Flagged(listed: map<Key, NodeRecord>, flags: map<Key, bool>): map<Key, NodeRecord> {
    map k | k in listed && k in flags :: listed[k].(complete := flags[k])
  }

  lemma FlaggedLists(listed: map<Key, NodeRecord>, inv: Snapshot, ev: Evidence, flags: map<Key, bool>)
    requires listed.Keys == flags.Keys && FirstsOf(listed, Sort(Records(inv, ev), RecordKey))
    ensures ListsNodes(Flagged(listed, flags), inv, ev, flags)
  {
    hide FirstOf, Sort, Records;
  }

  /** The table of nodes, from the records in sorted order. */
  method SortNodes(inv: Snapshot, ev: Evidence) returns (listed: map<Key, NodeRecord>, flags: map<Key, bool>, duplicates: set<Key>)
    ensures FirstsOf(listed, Sort(Records(inv, ev), RecordKey))
    ensures listed.Keys == flags.Keys == Keys(multiset(Records(inv, ev)))
    ensures forall k :: k in duplicates <==> k in flags && Duplicated(multiset(Records(inv, ev)), k)
    ensures forall k :: k in flags && k !in duplicates ==> (flags[k] <==> DeclaredComplete(multiset(Records(inv, ev)), k))
  {
    hide FirstOf, Sort, Records, Keys, Duplicated, DeclaredComplete, Ordered, RecordKey;
    var sorted := Sort(Records(inv, ev), RecordKey);
    SortCorrect(Records(inv, ev), RecordKey);
    listed, duplicates := ListNodes(sorted);
    flags := map k | k in listed :: listed[k].complete;
  }

  method BuildGraph(inv: Snapshot, ev: Evidence)
    returns (graph: Graph, nodes: map<Key, NodeRecord>, blocks: map<Key, ResolvedNode>, edges: seq<Edge>, issues: seq<Reason>)
    ensures blocks == Blocks(inv.nodes)
    ensures graph == OwnershipGraph(inv, ev)
    ensures ListsNodes(nodes, inv, ev, graph.nodes)
    ensures Lists(edges, Edges(inv, ev), EdgeKey)
    ensures Elements(issues) == Issues(inv, ev)
  {
    hide Duplicated;
    hide DeclaredComplete;
    hide NodeComplete;
    hide Indexed;
    hide Disputed;
    hide Orphaned;
    hide Touched;
    hide Records;
    hide Blocks;
    hide Physical;
    hide PartitionEdges;
    hide PartitionIssues;
    hide IssuesOf;
    hide Dangling;
    hide ProviderSet;
    hide FirstsOf, Flagged, ListsNodes, Keys;
    ghost var records := multiset(Records(inv, ev));
    blocks := ListBlocks(inv.nodes);
    var listed, flags, duplicates := SortNodes(inv, ev);
    var n1, i1 := MarkDuplicates(flags, duplicates, ev.issues);
    var n2, linked, i2 := LinkPartitions(blocks, n1, ev.edges, i1);
    edges := SortEdges(linked);
    var n3, parents, i3 := IndexEdges(edges, n2, i2);
    var n4 := ApplyIssues(n3, i3);
    var physical, n5, i5 := ListEndpoints(blocks, parents, n4, i3);
    issues := i5;
    graph := Graph(n5, parents, physical, Elements(issues));
    nodes := Flagged(listed, n5);

    DisputedEndpoints(blocks, edges, parents);
    IndexedProviders(edges, parents);
    IssuesCollected(blocks, records, Elements(edges), ev.issues, duplicates, i1, i2, i3, i5, parents);
    FlagsComplete(blocks, records, duplicates, edges, parents, i3, issues, n5);
    FlaggedLists(listed, inv, ev, n5);
  }

  lemma IssuesCollected(blocks: map<Key, ResolvedNode>, records: multiset<NodeRecord>, edges: set<Edge>,
                        reported: seq<Reason>, duplicates: set<Key>, i1: seq<Reason>, i2: seq<Reason>, i3: seq<Reason>,
                        issues: seq<Reason>, parents: map<Key, seq<Key>>)
    requires forall k :: k in duplicates <==> k in Keys(records) && Duplicated(records, k)
    requires Elements(i1) == Elements(reported) + set k | k in duplicates :: DuplicateIssue(k)
    requires Elements(i2) == Elements(i1) + PartitionIssues(blocks)
    requires Elements(i3) == Elements(i2) + set e | e in edges && Dangling(Keys(records), e) :: DanglingIssue(e)
    requires Elements(issues) == Elements(i3) + set k | k in blocks && Disputed(blocks, parents, k) :: BackedEndpointIssue(k)
    requires forall k :: Disputed(blocks, parents, k) <==> k in blocks && IsPhysical(blocks[k]) && ProviderSet(edges, k) != {}
    ensures Elements(issues) == IssuesOf(blocks, records, edges, Elements(reported))
  {
    hide Duplicated;
    hide Disputed;
    hide PartitionIssues;
  }

  method SortEdges(linked: seq<Edge>) returns (edges: seq<Edge>)
    ensures Lists(edges, Elements(linked), EdgeKey)
  {
    EdgeKeyInjective();
    NormalizeCorrect(linked, EdgeKey);
    edges := Normalize(linked, EdgeKey);
  }

  lemma IndexedProviders(edges: seq<Edge>, parents: map<Key, seq<Key>>)
    requires Indexed(edges, parents)
    ensures parents == map k | k in (set e | e in Elements(edges) :: e.consumer) :: AscendingKeys(ProviderSet(Elements(edges), k))
  {
    forall k | k in parents ensures parents[k] == AscendingKeys(ProviderSet(Elements(edges), k)) {
      AscendingUnique(parents[k], AscendingKeys(ProviderSet(Elements(edges), k)), Bytes);
    }
  }

  lemma DisputedEndpoints(blocks: map<Key, ResolvedNode>, edges: seq<Edge>, parents: map<Key, seq<Key>>)
    requires Indexed(edges, parents)
    ensures forall k :: Disputed(blocks, parents, k) <==>
      k in blocks && IsPhysical(blocks[k]) && ProviderSet(Elements(edges), k) != {}
  {
    forall k ensures k in parents && parents[k] != [] <==> ProviderSet(Elements(edges), k) != {} {
      if k in parents {
        ElementsEmpty(parents[k]);
      } else {
        assert forall e :: e in Elements(edges) ==> e.consumer != k;
      }
    }
  }

  /** The flags cleared along the way are exactly those of incomplete nodes. */
  lemma FlagsComplete(blocks: map<Key, ResolvedNode>, records: multiset<NodeRecord>, duplicates: set<Key>,
                      edges: seq<Edge>, parents: map<Key, seq<Key>>, early: seq<Reason>, issues: seq<Reason>,
                      nodes: map<Key, bool>)
    requires nodes.Keys == Keys(records)
    requires (set k | k in duplicates :: DuplicateIssue(k)) <= Elements(early)
    requires PartitionIssues(blocks) <= Elements(early)
    requires (set e | e in Elements(edges) && Dangling(Keys(records), e) :: DanglingIssue(e)) <= Elements(early)
    requires Elements(issues) == Elements(early) + set k | k in blocks && Disputed(blocks, parents, k) :: BackedEndpointIssue(k)
    requires forall k :: k in nodes ==>
      (nodes[k] <==> && k !in duplicates && !Orphaned(blocks, k) && !Touched(edges, Keys(records), k)
                     && (forall r :: r in early ==> r.node != k) && !Disputed(blocks, parents, k)
                     && DeclaredComplete(records, k))
    ensures nodes == map k | k in Keys(records) :: NodeComplete(records, Elements(edges), Elements(issues), k)
  {
    forall k | k in nodes ensures nodes[k] <==> NodeComplete(records, Elements(edges), Elements(issues), k) {
      if Touched(edges, Keys(records), k) {
        var e :| e in edges && Dangling(Keys(records), e) && (e.consumer == k || e.provider == k);
        assert DanglingIssue(e) in Elements(issues) && e in Elements(edges);
      }
      hide DeclaredComplete;
      hide Orphaned;
      hide Disputed;
      assert forall r :: r in Elements(issues) <==> r in issues;
      if k in duplicates {
        assert DuplicateIssue(k) in Elements(issues);
      } else if Orphaned(blocks, k) {
        assert PartitionIssue(k) in Elements(issues);
      } else if Disputed(blocks, parents, k) {
        assert BackedEndpointIssue(k) in Elements(issues);
      } else if !Touched(edges, Keys(records), k) {
        assert forall e :: e in Elements(edges) && e.provider == k ==> !Dangling(Keys(records), e);
        assert (forall r :: r in Elements(issues) ==> r.node != k) <==> (forall r :: r in early ==> r.node != k);
      }
    }
  }
}
