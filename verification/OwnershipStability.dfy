/** How an assessment responds to changed evidence: more issues, and the same
    evidence in another order. */
module OwnershipStability {
  import opened Inventory
  import opened Canonical
  import opened Backing
  import opened Ownership

  // More issues

  /** `more` reports every issue `ev` does, and differs in nothing else. */
  ghost predicate MoreIssues(ev: Evidence, more: Evidence) {
    more == ev.(issues := more.issues) && Elements(ev.issues) <= Elements(more.issues)
  }

  /** The same edges and endpoints, with at least the doubts of `g`. */
  ghost predicate Doubtful(g: Graph, h: Graph) {
    && h.nodes.Keys == g.nodes.Keys
    && h.providers == g.providers
    && h.physical == g.physical
    && g.issues <= h.issues
    && forall k :: h.Complete(k) ==> g.Complete(k)
  }

  ghost predicate DoubtfulWalk(w: Walk, x: Walk) {
    && x.visited == w.visited
    && x.owners == w.owners
    && (x.structural ==> w.structural)
    && w.reasons <= x.reasons
  }

  lemma EnterDoubtful(g: Graph, h: Graph, k: Key, w: Walk, x: Walk)
    requires Doubtful(g, h) && DoubtfulWalk(w, x)
    ensures DoubtfulWalk(Enter(g, k, w), Enter(h, k, x))
  {
    assert g.ProvidersOf(k) == h.ProvidersOf(k);
    assert g.LocalReasons(k) <= h.LocalReasons(k);
  }

  lemma {:induction false} VisitDoubtful(g: Graph, h: Graph, k: Key, depth: nat, active: set<Key>, w: Walk, x: Walk)
    requires depth <= DEPTH_LIMIT + 1 && Doubtful(g, h) && DoubtfulWalk(w, x)
    ensures DoubtfulWalk(Visit(g, k, depth, active, w), Visit(h, k, depth, active, x))
    decreases DEPTH_LIMIT + 1 - depth, 0, 0
  {
    if depth <= DEPTH_LIMIT && k !in active && k !in w.visited {
      EnterDoubtful(g, h, k, w, x);
      if k !in g.physical {
        assert g.ProvidersOf(k) == h.ProvidersOf(k);
        VisitAllDoubtful(g, h, g.ProvidersOf(k), depth + 1, active + {k}, Enter(g, k, w), Enter(h, k, x));
      }
    }
  }

  lemma {:induction false} VisitAllDoubtful(g: Graph, h: Graph, ks: seq<Key>, depth: nat, active: set<Key>, w: Walk, x: Walk)
    requires depth <= DEPTH_LIMIT + 1 && Doubtful(g, h) && DoubtfulWalk(w, x)
    ensures DoubtfulWalk(VisitAll(g, ks, depth, active, w), VisitAll(h, ks, depth, active, x))
    decreases DEPTH_LIMIT + 1 - depth, 1, |ks|
  {
    if ks != [] {
      VisitDoubtful(g, h, ks[0], depth, active, w, x);
      VisitAllDoubtful(g, h, ks[1..], depth, active,
                       Visit(g, ks[0], depth, active, w), Visit(h, ks[0], depth, active, x));
    }
  }

  ghost predicate DoubtfulTraces(ts: map<Key, Walk>, us: map<Key, Walk>) {
    us.Keys == ts.Keys && forall k :: k in ts ==> DoubtfulWalk(ts[k], us[k])
  }

  lemma TracesDoubtful(g: Graph, h: Graph)
    requires Doubtful(g, h)
    ensures DoubtfulTraces(Traces(g), Traces(h))
  {
    forall k | k in g.nodes ensures DoubtfulWalk(Trace(g, k), Trace(h, k)) {
      VisitDoubtful(g, h, k, 0, {}, NOTHING, NOTHING);
    }
  }

  lemma GraphDoubtful(inv: Snapshot, ev: Evidence, more: Evidence)
    requires MoreIssues(ev, more)
    ensures Doubtful(OwnershipGraph(inv, ev), OwnershipGraph(inv, more))
  {
    assert Records(inv, ev) == Records(inv, more);
    assert Edges(inv, ev) == Edges(inv, more);
    assert Issues(inv, ev) <= Issues(inv, more);
  }

  /** Doubt never separates a node from a device it was not separate from. */
  lemma SeparateShrinks(ts: map<Key, Walk>, us: map<Key, Walk>)
    requires DoubtfulTraces(ts, us)
    ensures forall k, d :: Separate(us, k, d) ==> Separate(ts, k, d)
    ensures forall k, d :: Owns(us, k, d) <==> Owns(ts, k, d)
  {
  }

  lemma LocalDoubtGrows(ev: Evidence, more: Evidence, ts: map<Key, Walk>, us: map<Key, Walk>, d: Key)
    requires MoreIssues(ev, more) && DoubtfulTraces(ts, us) && d in ts
    ensures LocalUnknown(ev.signatures, ts, d) ==> LocalUnknown(more.signatures, us, d)
  {
    SeparateShrinks(ts, us);
    if Incomplete(ts, d) {
      var k :| Owns(ts, k, d) && OwnerReasons(ts, k, d) != {};
      var r :| r in OwnerReasons(ts, k, d);
      assert r in OwnerReasons(us, k, d);
      assert Owns(us, k, d);
    }
  }

  /** The same claims and mount coverage. */
  lemma ClaimsUnmoved(inv: Snapshot, ev: Evidence, more: Evidence)
    requires MoreIssues(ev, more)
    ensures Claims(inv, more) == Claims(inv, ev)
    ensures forall i :: 0 <= i < |inv.mounts| ==> MountCovered(inv, more, i) == MountCovered(inv, ev, i)
  {
    hide Blocks, FreshClaims, MountClaims, SwapClaims;
    assert InitialClaims(inv, more) == InitialClaims(inv, ev);
    hide InitialClaims;
  }

  lemma UsageShrinks(inv: Snapshot, ev: Evidence, more: Evidence, ts: map<Key, Walk>, us: map<Key, Walk>)
    requires MoreIssues(ev, more) && DoubtfulTraces(ts, us) && !UnknownUsage(inv, more, us)
    ensures !UnknownUsage(inv, ev, ts)
  {
    ClaimsUnmoved(inv, ev, more);
    hide Claims, MountCovered, HarmlessMount;
    forall k | k in ts ensures us[k].structural ==> ts[k].structural {
      assert DoubtfulWalk(ts[k], us[k]);
    }
  }

  lemma CoverageShrinks(inv: Snapshot, ev: Evidence, more: Evidence, issues: set<Reason>, moreIssues: set<Reason>,
                        ts: map<Key, Walk>, us: map<Key, Walk>, d: Key)
    requires MoreIssues(ev, more) && issues <= moreIssues && DoubtfulTraces(ts, us)
    requires CoverageComplete(inv, more, moreIssues, us, d)
    ensures CoverageComplete(inv, ev, issues, ts, d)
  {
    SeparateShrinks(ts, us);
    hide DoubtfulTraces, Separate, HarmlessMountIssue, Superseded, HostCoverage;
    assert Coverage(inv, ev) == Coverage(inv, more);
    hide Coverage;
    assert ScopedGaps(ev.gaps, ts, d) <= ScopedGaps(more.gaps, us, d);
  }

  lemma SignaturesShrink(blocks: map<Key, ResolvedNode>, signatures: map<Key, Fresh>, ts: map<Key, Walk>, us: map<Key, Walk>, d: Key)
    requires DoubtfulTraces(ts, us) && SignaturesComplete(blocks, signatures, us, d)
    ensures SignaturesComplete(blocks, signatures, ts, d)
  {
    SeparateShrinks(ts, us);
    hide DoubtfulTraces, Owns, FreshlyClear;
  }

  lemma ChecksShrink(inv: Snapshot, ev: Evidence, more: Evidence, issues: set<Reason>, moreIssues: set<Reason>,
                     ts: map<Key, Walk>, us: map<Key, Walk>, d: Key)
    requires MoreIssues(ev, more) && issues <= moreIssues && DoubtfulTraces(ts, us)
    requires d in Blocks(inv.nodes)
    requires ChecksOf(inv, more, moreIssues, us, d).Pass()
    ensures ChecksOf(inv, ev, issues, ts, d).Pass()
  {
    hide Blocks, UnknownUsage, CoverageComplete, SignaturesComplete, CleanDevice, DoubtfulTraces;
    UsageShrinks(inv, ev, more, ts, us);
    CoverageShrinks(inv, ev, more, issues, moreIssues, ts, us, d);
    SignaturesShrink(Blocks(inv.nodes), ev.signatures, ts, us, d);
  }

  lemma UsesUnmoved(claims: set<Claim>, ts: map<Key, Walk>, us: map<Key, Walk>, d: Key)
    requires DoubtfulTraces(ts, us)
    ensures ProtectedUse(claims, us, d) == ProtectedUse(claims, ts, d) && BusyUse(claims, us, d) == BusyUse(claims, ts, d)
  {
    hide Owns;
    SeparateShrinks(ts, us);
  }

  lemma StatusDoubtful(inv: Snapshot, ev: Evidence, more: Evidence, issues: set<Reason>, moreIssues: set<Reason>,
                       ts: map<Key, Walk>, us: map<Key, Walk>, d: Key)
    requires MoreIssues(ev, more) && issues <= moreIssues && DoubtfulTraces(ts, us)
    requires d in ts && d in Blocks(inv.nodes)
    ensures var after := StatusOf(inv, more, moreIssues, us, d);
      after == StatusOf(inv, ev, issues, ts, d) || after == Unknown
  {
    hide Blocks, Claims, LocalUnknown, ProtectedUse, BusyUse, ChecksOf, Elements;
    ClaimsUnmoved(inv, ev, more);
    UsesUnmoved(Claims(inv, ev), ts, us, d);
    LocalDoubtGrows(ev, more, ts, us, d);
    if ChecksOf(inv, more, moreIssues, us, d).Pass() {
      ChecksShrink(inv, ev, more, issues, moreIssues, ts, us, d);
    }
  }

  /** Issues fail closed: reporting more of them leaves a device's status as it
      was or makes it Unknown, and never anything else. */
  lemma IssuesFailClosed(inv: Snapshot, ev: Evidence, more: Evidence, d: Key)
    requires MoreIssues(ev, more) && d in Blocks(inv.nodes)
    ensures Status(inv, more, d) == Status(inv, ev, d) || Status(inv, more, d) == Unknown
  {
    var g, h := OwnershipGraph(inv, ev), OwnershipGraph(inv, more);
    GraphDoubtful(inv, ev, more);
    TracesDoubtful(g, h);
    BlocksAreNodes(inv, ev, d);
    StatusDoubtful(inv, ev, more, Issues(inv, ev), Issues(inv, more), Traces(g), Traces(h), d);
  }

  // The same evidence in another order

  /** `a` and `b` carry the same evidence: nodes up to order; edges, claims, issues,
      mounts, loops and gaps up to order and repetition. */
  ghost predicate SameEvidence(a: Evidence, b: Evidence) {
    && multiset(a.nodes) == multiset(b.nodes)
    && Elements(a.edges) == Elements(b.edges)
    && Elements(a.claims) == Elements(b.claims)
    && Elements(a.issues) == Elements(b.issues)
    && Elements(a.inactiveLoops) == Elements(b.inactiveLoops)
    && a.signatures == b.signatures
    && Elements(a.namespaceMounts) == Elements(b.namespaceMounts)
    && a.coverage == b.coverage
    && a.gaps.Keys == b.gaps.Keys
    && forall s :: s in a.gaps ==> Elements(a.gaps[s]) == Elements(b.gaps[s])
  }

  lemma SameGraph(inv: Snapshot, a: Evidence, b: Evidence)
    requires SameEvidence(a, b)
    ensures OwnershipGraph(inv, a) == OwnershipGraph(inv, b)
    ensures Edges(inv, a) == Edges(inv, b)
    ensures Issues(inv, a) == Issues(inv, b)
    ensures InitialClaims(inv, a) == InitialClaims(inv, b)
    ensures Claims(inv, a) == Claims(inv, b)
  {
    hide IssuesOf;
    hide GraphOf;
    hide PartitionEdges;
    hide FreshClaims;
    hide MountClaims;
    hide SwapClaims;
    hide Blocks;
    assert multiset(Records(inv, a)) == multiset(a.nodes) + multiset(BlockRecords(inv.nodes));
    assert multiset(Records(inv, b)) == multiset(b.nodes) + multiset(BlockRecords(inv.nodes));
  }

  lemma SameGapLists(a: Evidence, b: Evidence)
    requires SameEvidence(a, b)
    ensures a.gaps.Keys == b.gaps.Keys
    ensures forall s, r :: s in a.gaps ==> (r in a.gaps[s] <==> r in b.gaps[s])
    ensures forall s :: s in a.gaps ==> (a.gaps[s] == [] <==> b.gaps[s] == [])
  {
    forall s, r | s in a.gaps ensures r in a.gaps[s] <==> r in b.gaps[s] {
      assert r in Elements(a.gaps[s]) <==> r in Elements(b.gaps[s]);
    }
    forall s | s in a.gaps ensures a.gaps[s] == [] <==> b.gaps[s] == [] {
      ElementsEmpty(a.gaps[s]);
      ElementsEmpty(b.gaps[s]);
    }
  }

  lemma SameCoverage(inv: Snapshot, a: Evidence, b: Evidence, issues: set<Reason>, traces: map<Key, Walk>, d: Key)
    requires SameEvidence(a, b)
    ensures ScopedGaps(a.gaps, traces, d) == ScopedGaps(b.gaps, traces, d)
    ensures CoverageComplete(inv, a, issues, traces, d) <==> CoverageComplete(inv, b, issues, traces, d)
  {
    hide Separate, HarmlessMountIssue, Superseded;
    SameGapLists(a, b);
    assert Coverage(inv, a) == Coverage(inv, b);
    hide SameEvidence, Coverage;
    assert a.gaps.Keys == b.gaps.Keys;
    assert ScopedGaps(a.gaps, traces, d) == ScopedGaps(b.gaps, traces, d);
  }

  lemma SameUsage(inv: Snapshot, a: Evidence, b: Evidence, traces: map<Key, Walk>)
    requires SameEvidence(a, b)
    requires Claims(inv, a) == Claims(inv, b) && InitialClaims(inv, a) == InitialClaims(inv, b)
    ensures UnknownUsage(inv, a, traces) <==> UnknownUsage(inv, b, traces)
  {
    hide Claims, InitialClaims, HarmlessMount;
    forall k ensures k in a.inactiveLoops <==> k in b.inactiveLoops {
      assert k in Elements(a.inactiveLoops) <==> k in Elements(b.inactiveLoops);
    }
    forall i | 0 <= i < |inv.mounts| ensures MountCovered(inv, a, i) <==> MountCovered(inv, b, i) {
    }
    hide MountCovered, SameEvidence;
  }

  /** The parts of a decision that read evidence directly agree. */
  lemma SameChecks(inv: Snapshot, a: Evidence, b: Evidence, issues: set<Reason>, traces: map<Key, Walk>, d: Key)
    requires SameEvidence(a, b)
    requires Claims(inv, a) == Claims(inv, b) && InitialClaims(inv, a) == InitialClaims(inv, b)
    ensures ScopedGaps(a.gaps, traces, d) == ScopedGaps(b.gaps, traces, d)
    ensures CoverageComplete(inv, a, issues, traces, d) <==> CoverageComplete(inv, b, issues, traces, d)
    ensures UnknownUsage(inv, a, traces) <==> UnknownUsage(inv, b, traces)
  {
    hide CoverageComplete, UnknownUsage, ScopedGaps, Claims, InitialClaims, SameEvidence;
    SameCoverage(inv, a, b, issues, traces, d);
    SameUsage(inv, a, b, traces);
  }

  /** A decision reads the evidence only through these parts. */
  lemma DecisionDepends(inv: Snapshot, a: Evidence, b: Evidence, issues: set<Reason>, traces: map<Key, Walk>, d: Key)
    requires d in traces && d in Blocks(inv.nodes)
    requires a.signatures == b.signatures && Claims(inv, a) == Claims(inv, b)
    requires ScopedGaps(a.gaps, traces, d) == ScopedGaps(b.gaps, traces, d)
    requires ChecksOf(inv, a, issues, traces, d) == ChecksOf(inv, b, issues, traces, d)
    ensures StatusOf(inv, a, issues, traces, d) == StatusOf(inv, b, issues, traces, d)
    ensures DecisionReasons(inv, a, issues, traces, d) == DecisionReasons(inv, b, issues, traces, d)
  {
    hide ScopedGaps;
    hide ChecksOf;
    hide Claims;
    hide LocalUnknown;
    hide Attributed;
    hide ConflictReasons;
    hide ChildSignatureReasons;
    hide ProtectedUse;
    hide BusyUse;
    hide CheckReasons;
  }

  lemma SameDecision(inv: Snapshot, a: Evidence, b: Evidence, issues: set<Reason>, traces: map<Key, Walk>, d: Key)
    requires SameEvidence(a, b) && d in traces && d in Blocks(inv.nodes)
    requires Claims(inv, a) == Claims(inv, b) && InitialClaims(inv, a) == InitialClaims(inv, b)
    ensures StatusOf(inv, a, issues, traces, d) == StatusOf(inv, b, issues, traces, d)
    ensures DecisionReasons(inv, a, issues, traces, d) == DecisionReasons(inv, b, issues, traces, d)
  {
    SameChecks(inv, a, b, issues, traces, d);
    hide StatusOf;
    hide DecisionReasons;
    hide CoverageComplete;
    hide UnknownUsage;
    hide SignaturesComplete;
    DecisionDepends(inv, a, b, issues, traces, d);
  }

  lemma SameTrace(t: OwnershipTrace, u: OwnershipTrace, g: Graph, w: Walk)
    requires RepresentsTrace(t, g, w) && RepresentsTrace(u, g, w)
    ensures t == u
  {
    AscendingUnique(t.owners, u.owners, OwnerKey);
    AscendingUnique(t.reasons, u.reasons, ReasonKey);
  }

  lemma SameTraces(g: Graph, x: map<Key, OwnershipTrace>, y: map<Key, OwnershipTrace>)
    requires x.Keys == y.Keys
    requires forall k :: k in x ==> RepresentsTrace(x[k], g, Trace(g, k))
    requires forall k :: k in y ==> RepresentsTrace(y[k], g, Trace(g, k))
    ensures x == y
  {
    forall k | k in x ensures x[k] == y[k] {
      SameTrace(x[k], y[k], g, Trace(g, k));
    }
  }

  lemma SameGaps(a: map<string, seq<Reason>>, b: map<string, seq<Reason>>,
                 x: map<string, seq<Reason>>, y: map<string, seq<Reason>>)
    requires x.Keys == a.Keys && y.Keys == b.Keys && a.Keys == b.Keys
    requires forall s :: s in a ==> Elements(a[s]) == Elements(b[s])
    requires forall s :: s in x ==> Lists(x[s], Elements(a[s]), ReasonKey)
    requires forall s :: s in y ==> Lists(y[s], Elements(b[s]), ReasonKey)
    ensures x == y
  {
    forall s | s in x ensures x[s] == y[s] {
      AscendingUnique(x[s], y[s], ReasonKey);
    }
  }

  lemma SameDevices(inv: Snapshot, a: Evidence, b: Evidence, scope: AssessmentScope, issues: set<Reason>,
                    traces: map<Key, Walk>, x: map<Key, Decision>, y: map<Key, Decision>)
    requires SameEvidence(a, b)
    requires Claims(inv, a) == Claims(inv, b) && InitialClaims(inv, a) == InitialClaims(inv, b)
    requires RepresentsDevices(x, inv, a, scope, issues, traces)
    requires RepresentsDevices(y, inv, b, scope, issues, traces)
    ensures x == y
  {
    hide StatusOf;
    hide DecisionReasons;
    hide Candidate;
    assert x.Keys == y.Keys;
    forall d | d in x ensures x[d] == y[d] {
      SameDecision(inv, a, b, issues, traces, d);
      AscendingUnique(x[d].reasons, y[d].reasons, ReasonKey);
    }
  }

  lemma SameNodeLists(inv: Snapshot, a: Evidence, b: Evidence, flags: map<Key, bool>, x: map<Key, NodeRecord>, y: map<Key, NodeRecord>)
    requires multiset(a.nodes) == multiset(b.nodes)
    requires ListsNodes(x, inv, a, flags) && ListsNodes(y, inv, b, flags)
    ensures x == y
  {
    hide Sort, FirstOf, RecordKey, Ordered;
    var r, s := Records(inv, a), Records(inv, b);
    assert multiset(r) == multiset(s);
    RecordKeyInjective();
    SortCorrect(r, RecordKey);
    SortCorrect(s, RecordKey);
    OrderedUnique(Sort(r, RecordKey), Sort(s, RecordKey), RecordKey);
  }

  /** Assessments of the same evidence are equal, field by field and in order,
      however the evidence was ordered or repeated. */
  lemma OrderIndependent(inv: Snapshot, a: Evidence, b: Evidence, scope: AssessmentScope, x: Assessment, y: Assessment)
    requires SameEvidence(a, b)
    requires Represents(x, inv, a, scope) && Represents(y, inv, b, scope)
    ensures x == y
  {
    hide GraphOf, Issues, Edges, Claims, InitialClaims, RepresentsTrace, RepresentsDevices, ListsNodes, Ascending, Blocks, Trace,
         Traces, NamespaceMountKey, EdgeKey, ClaimKey, ReasonKey;
    SameGraph(inv, a, b);
    var g := OwnershipGraph(inv, a);
    AscendingUnique(x.edges, y.edges, EdgeKey);
    AscendingUnique(x.claims, y.claims, ClaimKey);
    AscendingUnique(x.issues, y.issues, ReasonKey);
    AscendingUnique(x.namespaceMounts, y.namespaceMounts, NamespaceMountKey);
    SameNodeLists(inv, a, b, g.nodes, x.nodes, y.nodes);
    SameGaps(a.gaps, b.gaps, x.gaps, y.gaps);
    SameTraces(g, x.traces, y.traces);
    SameDevices(inv, a, b, scope, Issues(inv, a), Traces(g), x.devices, y.devices);
  }
}
