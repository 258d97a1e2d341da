/** The decision about each physical device as it is computed, and the assessment
    as a whole. */
module Classifier {
  import opened Text
  import opened Inventory
  import opened Canonical
  import opened Backing
  import opened Ownership
  import opened Assessor
  import opened GraphBuilder

  // Evidence read per device

  ghost predicate GapIn(gaps: map<string, seq<Reason>>, traces: map<Key, Walk>, done: set<string>, d: Key, r: Reason) {
    exists s :: s in done && s in gaps && r in gaps[s] && !Separate(traces, r.node, d)
  }

  lemma GapDone(gaps: map<string, seq<Reason>>, traces: map<Key, Walk>, done: set<string>, s: string, d: Key)
    requires s in gaps
    ensures forall r :: GapIn(gaps, traces, done + {s}, d, r) <==>
      GapIn(gaps, traces, done, d, r) || (r in gaps[s] && !Separate(traces, r.node, d))
  {
    hide Separate;
  }

  lemma GapsAll(gaps: map<string, seq<Reason>>, traces: map<Key, Walk>, d: Key)
    ensures forall r :: !GapIn(gaps, traces, {}, d, r)
    ensures forall r :: r in ScopedGaps(gaps, traces, d) <==> GapIn(gaps, traces, gaps.Keys, d, r)
  {
    hide Separate;
  }

  lemma ApartMeans(g: Graph, traces: map<Key, OwnershipTrace>, structural: map<Key, bool>)
    requires Traced(g, traces, structural)
    ensures traces.Keys == structural.Keys == Traces(g).Keys
    ensures forall k, d :: Apart(traces, structural, k, d) <==> Separate(Traces(g), k, d)
    ensures forall k, d :: Owning(traces, k, d) <==> Owns(Traces(g), k, d)
  {
    TracedMeans(g, traces, structural);
  }

  /** The coverage gaps that may concern `d`. */
  method CollectGaps(ghost g: Graph, traces: map<Key, OwnershipTrace>, structural: map<Key, bool>,
                     gaps: map<string, seq<Reason>>, d: Key)
    returns (found: seq<Reason>)
    requires Traced(g, traces, structural)
    ensures Elements(found) == ScopedGaps(gaps, Traces(g), d)
  {
    hide Traced;
    hide Traces;
    hide Apart;
    hide Separate;
    hide GapIn;
    hide ScopedGaps;
    ApartMeans(g, traces, structural);
    ghost var ts := Traces(g);
    GapsAll(gaps, ts, d);
    found := [];
    var rest := gaps.Keys;
    ghost var done: set<string> := {};
    while rest != {}
      invariant done + rest == gaps.Keys
      invariant forall r :: r in found <==> GapIn(gaps, ts, done, d, r)
      decreases rest
    {
      var s :| s in rest;
      GapDone(gaps, ts, done, s, d);
      rest, done := rest - {s}, done + {s};
      var relevant := Relevant(traces, structural, gaps[s], d);
      found := found + relevant;
    }
    assert done == gaps.Keys;
  }

  predicate IsConflict(signatures: map<Key, Fresh>, traces: map<Key, OwnershipTrace>, rest: set<Key>, d: Key, r: Reason) {
    var k := r.node;
    k in signatures && k !in rest && Disturbed(signatures[k]) && Owning(traces, k, d) && r == ConflictReason(k, signatures[k])
  }

  /** Signature reads on top of `d` that vanished or conflicted while being taken. */
  method CollectConflicts(ghost g: Graph, traces: map<Key, OwnershipTrace>, ghost structural: map<Key, bool>,
                          signatures: map<Key, Fresh>, d: Key)
    returns (found: seq<Reason>)
    requires Traced(g, traces, structural)
    ensures Elements(found) == ConflictReasons(signatures, Traces(g), d)
    ensures found != [] <==> FreshConflict(signatures, Traces(g), d)
  {
    hide Traced;
    hide Traces;
    hide Owning;
    hide Owns;
    ApartMeans(g, traces, structural);
    found := [];
    var rest := signatures.Keys;
    while rest != {}
      invariant rest <= signatures.Keys
      invariant forall r :: r in found <==> IsConflict(signatures, traces, rest, d, r)
    {
      var key :| key in rest;
      rest := rest - {key};
      if Disturbed(signatures[key]) && Owning(traces, key, d) {
        found := found + [ConflictReason(key, signatures[key])];
      }
    }
    assert forall r :: r in ConflictReasons(signatures, Traces(g), d) <==> IsConflict(signatures, traces, {}, d, r);
    ConflictsFound(signatures, Traces(g), d, found);
  }

  lemma ConflictsFound(signatures: map<Key, Fresh>, traces: map<Key, Walk>, d: Key, found: seq<Reason>)
    requires Elements(found) == ConflictReasons(signatures, traces, d)
    ensures found != [] <==> FreshConflict(signatures, traces, d)
  {
    ElementsEmpty(found);
    if FreshConflict(signatures, traces, d) {
      var k :| k in signatures && Disturbed(signatures[k]) && Owns(traces, k, d);
      assert ConflictReason(k, signatures[k]) in ConflictReasons(signatures, traces, d);
    }
    if found != [] {
      assert found[0] in ConflictReasons(signatures, traces, d);
    }
  }

  predicate IssueClears(traces: map<Key, OwnershipTrace>, structural: map<Key, bool>, r: Reason, d: Key)
    requires traces.Keys == structural.Keys
  {
    r.source == "inactive_membership" || Apart(traces, structural, r.node, d)
  }

  predicate RawIssueClears(traces: map<Key, OwnershipTrace>, structural: map<Key, bool>, r: BlockIssue, d: Key)
    requires traces.Keys == structural.Keys
  {
    r.kernelName.Some? && Apart(traces, structural, BlockKey(r.kernelName.value), d)
  }

  predicate DiscoveryClears(inv: Snapshot, signatures: map<Key, Fresh>, traces: map<Key, OwnershipTrace>,
                            structural: map<Key, bool>, r: DiscoveryIssue, d: Key)
    requires traces.Keys == structural.Keys
  {
    HarmlessMountIssue(inv, r) || Superseded(signatures, r) || Apart(traces, structural, BlockKey(r.node), d)
  }

  /** Whether host coverage, scoped gaps and every recorded issue leave `d` clear. */
  method CheckCoverage(inv: Snapshot, signatures: map<Key, Fresh>, issues: seq<Reason>, traces: map<Key, OwnershipTrace>,
                       structural: map<Key, bool>, covered: bool, d: Key)
    returns (complete: bool)
    requires traces.Keys == structural.Keys
    ensures complete <==>
      && covered
      && (forall i :: 0 <= i < |issues| ==> IssueClears(traces, structural, issues[i], d))
      && (forall i :: 0 <= i < |inv.inventoryIssues| ==> RawIssueClears(traces, structural, inv.inventoryIssues[i], d))
      && (forall i :: 0 <= i < |inv.issues| ==> DiscoveryClears(inv, signatures, traces, structural, inv.issues[i], d))
  {
    hide IssueClears;
    hide RawIssueClears;
    hide DiscoveryClears;
    complete := covered;
    for i := 0 to |issues|
      invariant complete <==> covered && forall j :: 0 <= j < i ==> IssueClears(traces, structural, issues[j], d)
    {
      if !IssueClears(traces, structural, issues[i], d) {
        complete := false;
      }
    }
    ghost var first := complete;
    for i := 0 to |inv.inventoryIssues|
      invariant complete <==> first && forall j :: 0 <= j < i ==> RawIssueClears(traces, structural, inv.inventoryIssues[j], d)
    {
      if !RawIssueClears(traces, structural, inv.inventoryIssues[i], d) {
        complete := false;
      }
    }
    ghost var second := complete;
    for i := 0 to |inv.issues|
      invariant complete <==> second && forall j :: 0 <= j < i ==> DiscoveryClears(inv, signatures, traces, structural, inv.issues[j], d)
    {
      if !DiscoveryClears(inv, signatures, traces, structural, inv.issues[i], d) {
        complete := false;
      }
    }
  }

  /** The loops' verdict on coverage is the specified one. */
  lemma CoverageMeans(inv: Snapshot, ev: Evidence, g: Graph, issues: seq<Reason>, traces: map<Key, OwnershipTrace>,
                      structural: map<Key, bool>, d: Key)
    requires Traced(g, traces, structural) && traces.Keys == structural.Keys
    ensures CoverageComplete(inv, ev, Elements(issues), Traces(g), d) <==>
      && HostCoverage(Coverage(inv, ev), ev.gaps)
      && ScopedGaps(ev.gaps, Traces(g), d) == {}
      && (forall i :: 0 <= i < |issues| ==> IssueClears(traces, structural, issues[i], d))
      && (forall i :: 0 <= i < |inv.inventoryIssues| ==> RawIssueClears(traces, structural, inv.inventoryIssues[i], d))
      && (forall i :: 0 <= i < |inv.issues| ==> DiscoveryClears(inv, ev.signatures, traces, structural, inv.issues[i], d))
  {
    hide Traced;
    hide Traces;
    hide Apart;
    hide Separate;
    hide HarmlessMountIssue;
    hide Superseded;
    hide HostCoverage;
    hide ScopedGaps;
    ApartMeans(g, traces, structural);
    var ts := Traces(g);
    assert (forall r :: r in Elements(issues) && r.source != "inactive_membership" ==> Separate(ts, r.node, d)) <==>
      (forall i :: 0 <= i < |issues| ==> IssueClears(traces, structural, issues[i], d)) by {
      forall i | 0 <= i < |issues| ensures issues[i] in Elements(issues) {
      }
    }
  }

  predicate IsChildReason(blocks: map<Key, ResolvedNode>, signatures: map<Key, Fresh>, traces: map<Key, OwnershipTrace>,
                          rest: set<Key>, d: Key, r: Reason) {
    var k := r.node;
    && k in blocks && k !in rest && Owning(traces, k, d) && k in signatures && !SignatureComplete(signatures[k])
    && r == ChildSignatureReason(k, signatures[k])
  }

  /** Whether every block on top of `d` was freshly read as clear, and the failed reads. */
  method CheckSignatures(ghost g: Graph, traces: map<Key, OwnershipTrace>, ghost structural: map<Key, bool>,
                         blocks: map<Key, ResolvedNode>, signatures: map<Key, Fresh>, d: Key)
    returns (complete: bool, found: seq<Reason>)
    requires Traced(g, traces, structural)
    ensures complete <==> SignaturesComplete(blocks, signatures, Traces(g), d)
    ensures Elements(found) == ChildSignatureReasons(blocks, signatures, Traces(g), d)
  {
    hide Traced;
    hide Traces;
    hide Owning;
    hide Owns;
    hide FreshlyClear;
    ApartMeans(g, traces, structural);
    complete, found := true, [];
    var rest := blocks.Keys;
    while rest != {}
      invariant rest <= blocks.Keys
      invariant complete <==> forall k :: k in blocks && k !in rest && Owning(traces, k, d) ==> FreshlyClear(signatures, k, blocks[k])
      invariant forall r :: r in found <==> IsChildReason(blocks, signatures, traces, rest, d, r)
    {
      var key :| key in rest;
      rest := rest - {key};
      if Owning(traces, key, d) {
        if !FreshlyClear(signatures, key, blocks[key]) {
          complete := false;
        }
        if key in signatures && !SignatureComplete(signatures[key]) {
          found := found + [ChildSignatureReason(key, signatures[key])];
        }
      }
    }
    assert forall r :: r in ChildSignatureReasons(blocks, signatures, Traces(g), d) <==>
      IsChildReason(blocks, signatures, traces, {}, d, r);
  }

  // Decisions

  /** What the earlier phases leave for the decisions. */
  ghost predicate Prepared(inv: Snapshot, ev: Evidence, g: Graph, blocks: map<Key, ResolvedNode>, issues: seq<Reason>,
                           traces: map<Key, OwnershipTrace>, structural: map<Key, bool>, charges: Charges,
                           hostCovered: bool, unknownUsage: bool) {
    && blocks == Blocks(inv.nodes)
    && Traced(g, traces, structural)
    && (forall d :: d in charges.incomplete <==> Incomplete(Traces(g), d))
    && (forall d :: d in charges.protectedUse <==> ProtectedUse(Claims(inv, ev), Traces(g), d))
    && (forall d :: d in charges.busyUse <==> BusyUse(Claims(inv, ev), Traces(g), d))
    && (forall d :: Elements(charges.ReasonsOf(d)) == Attributed(Claims(inv, ev), Traces(g), d))
    && (hostCovered <==> HostCoverage(Coverage(inv, ev), ev.gaps))
    && (unknownUsage <==> UnknownUsage(inv, ev, Traces(g)))
  }

  /** The final checks of a device with no local doubt and no known use. */
  method RunChecks(inv: Snapshot, ev: Evidence, ghost g: Graph, blocks: map<Key, ResolvedNode>, issues: seq<Reason>,
                   traces: map<Key, OwnershipTrace>, structural: map<Key, bool>, charges: Charges,
                   hostCovered: bool, scopedCovered: bool, unknownUsage: bool, d: Key)
    returns (checks: Checks, found: seq<Reason>)
    requires Prepared(inv, ev, g, blocks, issues, traces, structural, charges, hostCovered, unknownUsage)
    requires d in blocks && traces.Keys == structural.Keys
    requires scopedCovered <==> ScopedGaps(ev.gaps, Traces(g), d) == {}
    ensures d in Blocks(inv.nodes) && checks == ChecksOf(inv, ev, Elements(issues), Traces(g), d)
    ensures Elements(found) == ChildSignatureReasons(blocks, ev.signatures, Traces(g), d) + CheckReasons(checks, d)
  {
    hide Traced;
    hide Traces;
    hide CoverageComplete;
    hide SignaturesComplete;
    hide UnknownUsage;
    hide HostCoverage;
    hide ScopedGaps;
    hide ProtectedUse;
    hide BusyUse;
    hide Incomplete;
    hide Attributed;
    hide Claims;
    hide IssueClears;
    hide RawIssueClears;
    hide DiscoveryClears;
    hide ChildSignatureReasons;
    hide CleanDevice;
    var covered := CheckCoverage(inv, ev.signatures, issues, traces, structural, hostCovered && scopedCovered, d);
    CoverageMeans(inv, ev, g, issues, traces, structural, d);
    var signed, children := CheckSignatures(g, traces, structural, blocks, ev.signatures, d);
    checks := Checks(covered, !unknownUsage, signed, CleanDevice(ev.signatures, blocks[d]), blocks[d].identity.scope);
    found := ListFailures(checks, children, d);
  }

  method ListFailures(checks: Checks, children: seq<Reason>, d: Key) returns (found: seq<Reason>)
    ensures Elements(found) == Elements(children) + CheckReasons(checks, d)
  {
    hide Elements;
    hide When;
    hide CoverageReason;
    hide SignatureReason;
    hide CleanReason;
    hide ScopeReason;
    hide ReadyReason;
    found := children + Flagged(!checks.coverage || !checks.attributed, CoverageReason(d));
    FlaggedAdds(children, !checks.coverage || !checks.attributed, CoverageReason(d));
    FlaggedAdds(found, !checks.signatures, SignatureReason(d));
    found := found + Flagged(!checks.signatures, SignatureReason(d));
    FlaggedAdds(found, !checks.clean, CleanReason(d));
    found := found + Flagged(!checks.clean, CleanReason(d));
    FlaggedAdds(found, checks.scope == IdentityScope.NvmeNamespace, ScopeReason(d));
    found := found + Flagged(checks.scope == IdentityScope.NvmeNamespace, ScopeReason(d));
    FlaggedAdds(found, checks.Pass(), ReadyReason(d));
    found := found + Flagged(checks.Pass(), ReadyReason(d));
  }

  function Flagged(b: bool, r: Reason): seq<Reason> {
    if b then [r] else []
  }

  lemma FlaggedAdds(s: seq<Reason>, b: bool, r: Reason)
    ensures Elements(s + Flagged(b, r)) == Elements(s) + When(b, r)
  {
    ElementsConcat(s, Flagged(b, r));
  }

  method DecideDevice(inv: Snapshot, ev: Evidence, ghost g: Graph, blocks: map<Key, ResolvedNode>, issues: seq<Reason>,
                      traces: map<Key, OwnershipTrace>, structural: map<Key, bool>, charges: Charges,
                      hostCovered: bool, unknownUsage: bool, d: Key)
    returns (decision: Decision)
    requires Prepared(inv, ev, g, blocks, issues, traces, structural, charges, hostCovered, unknownUsage)
    requires d in blocks && d in traces && traces.Keys == structural.Keys
    ensures d in Traces(g) && d in Blocks(inv.nodes)
    ensures RepresentsDecision(decision, inv, ev, Elements(issues), Traces(g), d)
  {
    hide Traced;
    hide Traces;
    hide ChecksOf;
    hide UnknownUsage;
    hide HostCoverage;
    hide ScopedGaps;
    hide ProtectedUse;
    hide BusyUse;
    hide Incomplete;
    hide Attributed;
    hide Claims;
    hide FreshConflict;
    hide ConflictReasons;
    hide ChildSignatureReasons;
    hide CheckReasons;
    hide Elements;
    hide Ascending;
    ApartMeans(g, traces, structural);
    TraceOf(g, traces, structural, d);
    var reasons := charges.ReasonsOf(d);
    var gaps := CollectGaps(g, traces, structural, ev.gaps, d);
    ElementsEmpty(gaps);
    var conflicts := CollectConflicts(g, traces, structural, ev.signatures, d);
    ElementsConcat(reasons, gaps);
    ElementsConcat(reasons + gaps, conflicts);
    reasons := reasons + gaps + conflicts;
    var readOnly := blocks[d].observation.readOnly == Some(true);
    var status, more: seq<Reason>;
    if d in charges.incomplete || !traces[d].complete || conflicts != [] {
      status, more := Unknown, traces[d].reasons;
    } else if d in charges.protectedUse || readOnly {
      status, more := Protected, if readOnly then [ReadOnlyReason(d)] else [];
      ElementsOne(ReadOnlyReason(d));
    } else if d in charges.busyUse {
      status, more := Busy, [];
      ElementsOne(ReadOnlyReason(d));
    } else {
      var checks, found := RunChecks(inv, ev, g, blocks, issues, traces, structural, charges, hostCovered, gaps == [], unknownUsage, d);
      status, more := if checks.Pass() then Ready else Unknown, found;
    }
    ElementsConcat(reasons, more);
    reasons := reasons + more;
    ElementsEmpty(reasons);
    if reasons == [] {
      ElementsOne(NoEvidenceReason(d));
      reasons := [NoEvidenceReason(d)];
    }
    reasons := SortReasons(reasons);
    decision := Decision(blocks[d].identity.id, status, reasons);
  }

  lemma ElementsOne(r: Reason)
    ensures Elements([r]) == {r} && Elements<Reason>([]) == {}
  {
  }

  lemma TraceOf(g: Graph, traces: map<Key, OwnershipTrace>, structural: map<Key, bool>, d: Key)
    requires Traced(g, traces, structural) && d in traces
    ensures d in Traces(g) && traces[d].complete == (Traces(g)[d].reasons == {})
    ensures Elements(traces[d].reasons) == Traces(g)[d].reasons
  {
    hide Trace;
  }

  method DecideAll(inv: Snapshot, ev: Evidence, scope: AssessmentScope, g: Graph, blocks: map<Key, ResolvedNode>,
                   issues: seq<Reason>, traces: map<Key, OwnershipTrace>, structural: map<Key, bool>, charges: Charges,
                   hostCovered: bool, unknownUsage: bool)
    returns (devices: map<Key, Decision>)
    requires Prepared(inv, ev, g, blocks, issues, traces, structural, charges, hostCovered, unknownUsage)
    requires g.physical == Physical(blocks) && traces.Keys == structural.Keys
    requires forall k :: k in blocks ==> k in traces
    ensures RepresentsDevices(devices, inv, ev, scope, Elements(issues), Traces(g))
  {
    hide Prepared, Traces, Decided, Blocks, RepresentsDevices, Candidate;
    BlocksPrepared(inv, ev, g, blocks, issues, traces, structural, charges, hostCovered, unknownUsage);
    devices := map[];
    var rest := g.physical.Keys;
    NoneDecided(inv, ev, scope, Elements(issues), Traces(g), rest);
    while rest != {}
      invariant rest <= g.physical.Keys
      invariant Decided(devices, inv, ev, scope, Elements(issues), Traces(g), rest)
    {
      var d :| d in rest;
      OneDecided(devices, inv, ev, scope, Elements(issues), Traces(g), rest, d);
      CandidateIs(inv, scope, d);
      rest := rest - {d};
      if scope == Disks && blocks[d].observation.physicalKind != DiskKind {
        continue;
      }
      var decision := DecideDevice(inv, ev, g, blocks, issues, traces, structural, charges, hostCovered, unknownUsage, d);
      devices := devices[d := decision];
    }
    AllDecided(devices, inv, ev, scope, Elements(issues), Traces(g));
  }

  /** Every candidate outside `rest` has its decision. */
  ghost predicate Decided(devices: map<Key, Decision>, inv: Snapshot, ev: Evidence, scope: AssessmentScope,
                          issues: set<Reason>, traces: map<Key, Walk>, rest: set<Key>) {
    && (forall d :: d in devices <==> d !in rest && Candidate(inv, scope, d))
    && (forall d :: d in devices ==> d in traces && d in Blocks(inv.nodes)
                                     && RepresentsDecision(devices[d], inv, ev, issues, traces, d))
  }

  lemma CandidateIs(inv: Snapshot, scope: AssessmentScope, d: Key)
    requires d in Physical(Blocks(inv.nodes))
    ensures Candidate(inv, scope, d) <==> scope != Disks || Blocks(inv.nodes)[d].observation.physicalKind == DiskKind
  {
    hide Blocks;
  }

  lemma NoneDecided(inv: Snapshot, ev: Evidence, scope: AssessmentScope, issues: set<Reason>, traces: map<Key, Walk>, rest: set<Key>)
    requires rest == Physical(Blocks(inv.nodes)).Keys
    ensures Decided(map[], inv, ev, scope, issues, traces, rest)
  {
    hide Blocks;
  }

  lemma OneDecided(devices: map<Key, Decision>, inv: Snapshot, ev: Evidence, scope: AssessmentScope,
                   issues: set<Reason>, traces: map<Key, Walk>, rest: set<Key>, d: Key)
    requires Decided(devices, inv, ev, scope, issues, traces, rest) && d in rest
    ensures !Candidate(inv, scope, d) ==> Decided(devices, inv, ev, scope, issues, traces, rest - {d})
    ensures d in traces && d in Blocks(inv.nodes) && Candidate(inv, scope, d) ==>
      forall decision :: RepresentsDecision(decision, inv, ev, issues, traces, d) ==>
        Decided(devices[d := decision], inv, ev, scope, issues, traces, rest - {d})
  {
    hide Blocks, RepresentsDecision, Candidate;
  }

  lemma AllDecided(devices: map<Key, Decision>, inv: Snapshot, ev: Evidence, scope: AssessmentScope, issues: set<Reason>,
                   traces: map<Key, Walk>)
    requires Decided(devices, inv, ev, scope, issues, traces, {})
    ensures RepresentsDevices(devices, inv, ev, scope, issues, traces)
  {
    hide Blocks, RepresentsDecision, Candidate;
  }

  lemma BlocksPrepared(inv: Snapshot, ev: Evidence, g: Graph, blocks: map<Key, ResolvedNode>, issues: seq<Reason>,
                       traces: map<Key, OwnershipTrace>, structural: map<Key, bool>, charges: Charges,
                       hostCovered: bool, unknownUsage: bool)
    requires Prepared(inv, ev, g, blocks, issues, traces, structural, charges, hostCovered, unknownUsage)
    ensures blocks == Blocks(inv.nodes)
  {
  }

  // The assessment as a whole

  method SortGaps(gaps: map<string, seq<Reason>>) returns (sorted: map<string, seq<Reason>>)
    ensures sorted.Keys == gaps.Keys
    ensures forall s :: s in sorted ==> Lists(sorted[s], Elements(gaps[s]), ReasonKey)
  {
    sorted := map[];
    var rest := gaps.Keys;
    hide Lists;
    while rest != {}
      invariant rest <= gaps.Keys
      invariant sorted.Keys == gaps.Keys - rest
      invariant forall s :: s in sorted ==> Lists(sorted[s], Elements(gaps[s]), ReasonKey)
    {
      var s :| s in rest;
      rest := rest - {s};
      var reasons := SortReasons(gaps[s]);
      sorted := sorted[s := reasons];
    }
  }

  method FillCoverage(inv: Snapshot, ev: Evidence) returns (coverage: map<string, bool>)
    ensures coverage == Coverage(inv, ev)
  {
    coverage := ev.coverage["mountinfo" := inv.mountinfoComplete]["swaps" := inv.swapsComplete];
    ghost var reported := coverage;
    var rest := REQUIRED_SOURCES;
    while rest != {}
      invariant rest <= REQUIRED_SOURCES
      invariant forall s :: s in coverage <==> s in reported || s in REQUIRED_SOURCES - rest
      invariant forall s :: s in coverage ==> coverage[s] == (s in reported && reported[s])
    {
      var s :| s in rest;
      rest := rest - {s};
      if s !in coverage {
        coverage := coverage[s := false];
      }
    }
    assert coverage == (map s | s in REQUIRED_SOURCES :: false) + reported;
  }

  /** A sorted copy of the gaps explains the same sources and raises the same doubts. */
  lemma SortedGaps(gaps: map<string, seq<Reason>>, sorted: map<string, seq<Reason>>, coverage: map<string, bool>)
    requires sorted.Keys == gaps.Keys
    requires forall s :: s in sorted ==> Lists(sorted[s], Elements(gaps[s]), ReasonKey)
    ensures HostCoverage(coverage, sorted) <==> HostCoverage(coverage, gaps)
  {
    forall s | s in gaps ensures sorted[s] == [] <==> gaps[s] == [] {
      ElementsEmpty(sorted[s]);
      ElementsEmpty(gaps[s]);
    }
  }

  lemma ChargesPrepared(claims: set<Claim>, traces: map<Key, Walk>, charges: Charges)
    requires forall d, r :: charges.Charged(d, r) <==> ReasonIn(traces, traces.Keys, d, r) || ClaimedBy(claims, traces, d, r)
    ensures forall d :: Elements(charges.ReasonsOf(d)) == Attributed(claims, traces, d)
  {
    forall d ensures Elements(charges.ReasonsOf(d)) == Attributed(claims, traces, d) {
      forall r ensures r in Elements(charges.ReasonsOf(d)) <==> r in Attributed(claims, traces, d) {
        assert r in Elements(charges.ReasonsOf(d)) <==> charges.Charged(d, r);
        AttributedMeans(claims, traces, d, r);
      }
    }
  }

  lemma AttributedMeans(claims: set<Claim>, traces: map<Key, Walk>, d: Key, r: Reason)
    ensures r in Attributed(claims, traces, d) <==> ReasonIn(traces, traces.Keys, d, r) || ClaimedBy(claims, traces, d, r)
  {
    hide OwnerReasons;
    hide ClaimReason;
  }

  lemma UsagePrepared(inv: Snapshot, ev: Evidence, g: Graph, traces: map<Key, OwnershipTrace>, structural: map<Key, bool>,
                      unattributed: bool)
    requires Traced(g, traces, structural) && traces.Keys == structural.Keys
    requires unattributed <==>
      || (exists i :: 0 <= i < |inv.mounts| && inv.mounts[i].node.None? && !MountCovered(inv, ev, i) && !HarmlessMount(inv.mounts[i]))
      || (exists i :: 0 <= i < |inv.swaps| && inv.swaps[i].node.None?)
    ensures UnknownUsage(inv, ev, Traces(g)) <==>
      || unattributed
      || (exists k :: k in traces && !structural[k] && k !in ev.inactiveLoops)
      || Ungrounded(Claims(inv, ev), Traces(g))
  {
    hide MountCovered;
    hide HarmlessMount;
    hide Claims;
    hide Traced;
    hide Traces;
    var ts := Traces(g);
    forall k ensures k in traces <==> k in ts ensures k in traces ==> structural[k] == ts[k].structural {
      TracedStructural(g, traces, structural, k);
    }
  }

  lemma AssessmentBlocks(inv: Snapshot, ev: Evidence, g: Graph, traces: map<Key, OwnershipTrace>, structural: map<Key, bool>)
    requires g == OwnershipGraph(inv, ev) && Traced(g, traces, structural)
    ensures g.physical == Physical(Blocks(inv.nodes)) && traces.Keys == structural.Keys
    ensures forall k :: k in Blocks(inv.nodes) ==> k in traces
    ensures traces.Keys == g.nodes.Keys
    ensures forall k :: k in traces ==> RepresentsTrace(traces[k], g, Trace(g, k))
    ensures g.issues == Issues(inv, ev)
  {
    forall k | k in Blocks(inv.nodes) ensures k in g.nodes {
      BlocksAreNodes(inv, ev, k);
    }
  }

  /** Traces, claims and decisions over a finished graph. */
  method AssessGraph(inv: Snapshot, ev: Evidence, scope: AssessmentScope, hostCovered: bool, graph: Graph,
                     blocks: map<Key, ResolvedNode>, issues: seq<Reason>)
    returns (claims: seq<Claim>, traces: map<Key, OwnershipTrace>, devices: map<Key, Decision>)
    requires blocks == Blocks(inv.nodes) && graph == OwnershipGraph(inv, ev) && Elements(issues) == Issues(inv, ev)
    requires hostCovered <==> HostCoverage(Coverage(inv, ev), ev.gaps)
    ensures Lists(claims, Claims(inv, ev), ClaimKey)
    ensures traces.Keys == graph.nodes.Keys
    ensures forall k :: k in traces ==> RepresentsTrace(traces[k], graph, Trace(graph, k))
    ensures RepresentsDevices(devices, inv, ev, scope, Issues(inv, ev), Traces(graph))
  {
    hide OwnershipGraph;
    hide Issues;
    hide Blocks;
    hide Claims;
    hide Coverage;
    hide Physical;
    hide HostCoverage;
    hide UnknownUsage;
    hide Traced;
    hide Traces;
    hide Trace;
    hide RepresentsTrace;
    hide RepresentsDevices;
    hide Incomplete;
    hide ProtectedUse;
    hide BusyUse;
    hide Attributed;
    hide ReasonIn;
    hide ClaimedBy;
    hide Ungrounded;
    hide MountCovered;
    hide HarmlessMount;
    hide Charges.Charged;
    hide Charges.ReasonsOf;
    hide Ascending;
    GraphIssues(inv, ev);
    var structural;
    traces, structural := TraceAll(graph, issues);
    AssessmentBlocks(inv, ev, graph, traces, structural);
    var unattributed;
    claims, unattributed := CollectClaims(inv, ev, blocks);
    var charges := ChargeTraces(graph, traces, structural);
    var charged, ungrounded := ChargeClaims(graph, traces, structural, claims, charges);
    ChargesPrepared(Elements(claims), Traces(graph), charged);
    var untraced := exists k :: k in traces && !structural[k] && k !in ev.inactiveLoops;
    var unknownUsage := unattributed || untraced || ungrounded;
    UsagePrepared(inv, ev, graph, traces, structural, unattributed);
    devices := DecideAll(inv, ev, scope, graph, blocks, issues, traces, structural, charged, hostCovered, unknownUsage);
  }

  method SortMounts(mounts: seq<NamespaceMount>) returns (sorted: seq<NamespaceMount>)
    ensures Lists(sorted, Elements(mounts), NamespaceMountKey)
  {
    NamespaceMountKeyInjective();
    NormalizeCorrect(mounts, NamespaceMountKey);
    sorted := Normalize(mounts, NamespaceMountKey);
  }

  /** The ownership assessment of a snapshot. */
  method AssessOwnership(inv: Snapshot, ev: Evidence, scope: AssessmentScope) returns (out: Assessment)
    ensures Represents(out, inv, ev, scope)
  {
    hide OwnershipGraph;
    hide Issues;
    hide Edges;
    hide Blocks;
    hide Claims;
    hide Coverage;
    hide HostCoverage;
    hide Traces;
    hide Trace;
    hide RepresentsTrace;
    hide RepresentsDevices;
    hide Ascending, ListsNodes, NamespaceMountKey;
    var coverage := FillCoverage(inv, ev);
    var gaps := SortGaps(ev.gaps);
    SortedGaps(ev.gaps, gaps, coverage);
    var graph, nodes, blocks, edges, issues := BuildGraph(inv, ev);
    var claims, traces, devices := AssessGraph(inv, ev, scope, HostCoverage(coverage, gaps), graph, blocks, issues);
    var sorted := SortReasons(issues);
    var mounts := SortMounts(ev.namespaceMounts);
    out := Assessment(coverage, gaps, ev.signatures, mounts, nodes, edges, claims, traces, devices, sorted);
  }

  lemma GraphIssues(inv: Snapshot, ev: Evidence)
    ensures OwnershipGraph(inv, ev).issues == Issues(inv, ev)
  {
  }
}
