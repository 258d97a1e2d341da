/** What a decision says for itself, and what READY says of partitions. */
module DecisionTheorems {
  import opened Text
  import opened Inventory
  import opened Canonical
  import opened Backing
  import opened BackingTheory
  import opened Ownership
  import opened OwnershipTheorems
  import opened GraphTheorems
  import opened StatusTheorems

  // Partitions of a READY disk

  lemma UnlinkedIsReported(inv: Snapshot, ev: Evidence, k: Key, d: Key)
    requires k in Blocks(inv.nodes) && IsPartition(Blocks(inv.nodes)[k]) && ParentKey(Blocks(inv.nodes)[k]) == d
    requires !PartOf(Blocks(inv.nodes), k, d)
    ensures PartitionIssue(k) in Issues(inv, ev)
  {
    hide Blocks, Duplicated, Dangling, ProviderSet, Edges, PartOf, Reciprocal;
    PartOfIs(Blocks(inv.nodes), k, d);
    assert PartitionIssue(k) in PartitionIssues(Blocks(inv.nodes));
  }

  lemma ReadyIssuesApart(inv: Snapshot, ev: Evidence, d: Key, r: Reason)
    requires Candidate(inv, AllPhysical, d) && Status(inv, ev, d) == Ready
    requires r in Issues(inv, ev) && r.source != "inactive_membership"
    ensures SoundBacking(OwnershipGraph(inv, ev), r.node) && r.node in OwnershipGraph(inv, ev).nodes
  {
    hide OwnershipGraph, Blocks, LocalUnknown, Claims, UnknownUsage, SignaturesComplete, CleanDevice, Trace, Issues, HostCoverage, ScopedGaps;
    BlocksAreNodes(inv, ev, d);
    StructuralTraceIsExact(OwnershipGraph(inv, ev), r.node);
  }

  /** Every partition that names a READY disk as its parent is one that the disk lists,
      and its backing is the disk: nothing on it escapes what READY promises. */
  lemma ReadyPartitions(inv: Snapshot, ev: Evidence, k: Key, d: Key)
    requires Candidate(inv, AllPhysical, d) && Status(inv, ev, d) == Ready
    requires k in Blocks(inv.nodes) && Blocks(inv.nodes)[k].observation.nodeType == PartitionNode
    requires "block:" + Blocks(inv.nodes)[k].observation.parentName.GetOr("") == d
    ensures PartOf(Blocks(inv.nodes), k, d)
    ensures Reaches(OwnershipGraph(inv, ev), k, d)
  {
    hide OwnershipGraph, Status, Issues, SoundBacking, Reaches, PartOf, Undisputed;
    var g := OwnershipGraph(inv, ev);
    if !PartOf(Blocks(inv.nodes), k, d) {
      UnlinkedIsReported(inv, ev, k, d);
      ReadyIssuesApart(inv, ev, d, PartitionIssue(k));
      NamedIsIncomplete(inv, ev, PartitionIssue(k));
      BrokenIsUnsound(g, k);
      assert false;
    }
    assert !IsEndpoint(Blocks(inv.nodes), k);
    hide Blocks, Candidate;
    FollowsIs(inv, ev, k, d);
    ReachesSelf(g, d);
    ReachesStep(g, k, d, d);
  }

  lemma NamedIsIncomplete(inv: Snapshot, ev: Evidence, r: Reason)
    requires r in Issues(inv, ev)
    ensures OwnershipGraph(inv, ev).Defective(r.node)
  {
    hide Issues, Edges, Blocks, Records, DeclaredComplete, Dangling, ProviderSet;
  }

  // Reasons

  /** Evidence that concerns `d`: a failure on the way down to it, a claim that rests on
      it, a gap that may hide something of it, or a signature above it that would not
      hold still. */
  ghost predicate Cited(inv: Snapshot, ev: Evidence, g: Graph, d: Key, r: Reason) {
    || (exists k :: Names(g, k, d) && r in Trace(g, k).reasons && !Apart(g, r.node, d))
    || (exists c :: c in Claims(inv, ev) && Names(g, c.consumer, d) && r == ClaimReason(c))
    || (exists s :: s in ev.gaps && r in ev.gaps[s] && !Apart(g, r.node, d))
    || (exists k :: k in ev.signatures && Unsteady(ev.signatures[k]) && Names(g, k, d) && r == ConflictReason(k, ev.signatures[k]))
  }

  lemma AttributedAre(claims: set<Claim>, g: Graph, d: Key, r: Reason)
    ensures r in Attributed(claims, Traces(g), d) <==>
      || (exists k :: Names(g, k, d) && r in Trace(g, k).reasons && !Apart(g, r.node, d))
      || (exists c :: c in claims && Names(g, c.consumer, d) && r == ClaimReason(c))
  {
    hide Trace, ClaimReason;
    var traces := Traces(g);
    forall n ensures Separate(traces, n, d) == Apart(g, n, d) {
    }
    forall k ensures Owns(traces, k, d) == Names(g, k, d) {
    }
    forall k | Names(g, k, d) ensures k in traces && (r in OwnerReasons(traces, k, d) <==> r in Trace(g, k).reasons && !Apart(g, r.node, d)) {
    }
    if k :| Names(g, k, d) && r in Trace(g, k).reasons && !Apart(g, r.node, d) {
      assert k in traces && d in traces[k].owners && r in OwnerReasons(traces, k, d);
    }
    hide Apart, Separate, OwnerReasons;
  }

  lemma CitedIs(inv: Snapshot, ev: Evidence, g: Graph, d: Key, r: Reason)
    ensures Cited(inv, ev, g, d, r) <==>
      r in Attributed(Claims(inv, ev), Traces(g), d) + ScopedGaps(ev.gaps, Traces(g), d) + ConflictReasons(ev.signatures, Traces(g), d)
  {
    hide Trace, ClaimReason, Claims, Attributed;
    AttributedAre(Claims(inv, ev), g, d, r);
    forall n ensures Separate(Traces(g), n, d) == Apart(g, n, d) {
    }
    forall k ensures Owns(Traces(g), k, d) == Names(g, k, d) {
    }
    hide Apart, Separate, Names, Owns, Traces;
  }

  lemma ReadyCitesNothing(inv: Snapshot, ev: Evidence, issues: set<Reason>, g: Graph, d: Key)
    requires d in g.nodes && d in g.physical && d in Blocks(inv.nodes)
    requires StatusOf(inv, ev, issues, Traces(g), d) == Ready
    ensures forall r :: r !in Attributed(Claims(inv, ev), Traces(g), d)
    ensures ScopedGaps(ev.gaps, Traces(g), d) == {} && ConflictReasons(ev.signatures, Traces(g), d) == {}
    ensures ChildSignatureReasons(Blocks(inv.nodes), ev.signatures, Traces(g), d) == {}
    ensures CheckReasons(ChecksOf(inv, ev, issues, Traces(g), d), d) == {ReadyReason(d)}
  {
    hide Trace, Blocks, UnknownUsage, CleanDevice, ClaimReason, ConflictReason, ChildSignatureReason, HostCoverage, Claims;
    assert SignaturesComplete(Blocks(inv.nodes), ev.signatures, Traces(g), d);
    hide Traces, Separate, SettledIssues;
  }

  lemma UsesAreListed(claims: set<Claim>, traces: map<Key, Walk>, d: Key)
    requires ProtectedUse(claims, traces, d) || BusyUse(claims, traces, d)
    ensures Attributed(claims, traces, d) != {}
  {
    hide ClaimReason, OwnerReasons;
    var c :| c in claims && Owns(traces, c.consumer, d);
    assert ClaimReason(c) in Attributed(claims, traces, d);
  }

  lemma ReasonsAre(inv: Snapshot, ev: Evidence, d: Key)
    requires Candidate(inv, AllPhysical, d)
    ensures d in Traces(OwnershipGraph(inv, ev)) && d in Blocks(inv.nodes)
    ensures Explains(inv, ev, d, DecisionReasons(inv, ev, Issues(inv, ev), Traces(OwnershipGraph(inv, ev)), d))
  {
    hide OwnershipGraph, Blocks, LocalUnknown, Claims, ProtectedUse, BusyUse, Cited, Attributed, ScopedGaps, ConflictReasons,
         ChildSignatureReasons, CheckReasons, ChecksOf, Issues, Trace, Suspect, Objected;
    BlocksAreNodes(inv, ev, d);
    GraphOfBlocks(inv, ev, d);
    var g := OwnershipGraph(inv, ev);
    SuspectIs(ev, g, d);
    SomethingObjected(inv, ev, g, d);
    forall r ensures var checks := ChecksOf(inv, ev, Issues(inv, ev), Traces(g), d);
      !checks.Pass() ==>
        (Objected(inv, ev, g, d, r) <==>
          r in ChildSignatureReasons(Blocks(inv.nodes), ev.signatures, Traces(g), d) + CheckReasons(checks, d))
    {
      ObjectedIs(inv, ev, g, d, r);
    }
    forall r ensures Cited(inv, ev, g, d, r) <==>
      r in Attributed(Claims(inv, ev), Traces(g), d) + ScopedGaps(ev.gaps, Traces(g), d) + ConflictReasons(ev.signatures, Traces(g), d)
    {
      CitedIs(inv, ev, g, d, r);
    }
    if Status(inv, ev, d) == Ready {
      ReadyCitesNothing(inv, ev, Issues(inv, ev), g, d);
    }
    if ProtectedUse(Claims(inv, ev), Traces(g), d) || BusyUse(Claims(inv, ev), Traces(g), d) {
      UsesAreListed(Claims(inv, ev), Traces(g), d);
    }
    hide Traces;
  }

  /** What concerns the device is among the reasons; a Protected or Busy decision has no
      other than that and the read-only flag; and READY is given for one reason alone. */
  ghost predicate Explains(inv: Snapshot, ev: Evidence, d: Key, reasons: set<Reason>)
    requires Candidate(inv, AllPhysical, d)
  {
    var g, status, readOnly := OwnershipGraph(inv, ev), Status(inv, ev, d), Blocks(inv.nodes)[d].observation.readOnly == Some(true);
    && reasons != {}
    && (forall r :: Cited(inv, ev, g, d, r) ==> r in reasons)
    && (status == Protected ==> forall r :: r in reasons <==> Cited(inv, ev, g, d, r) || (readOnly && r == ReadOnlyReason(d)))
    && (status == Busy ==> forall r :: r in reasons <==> Cited(inv, ev, g, d, r))
    && (status == Ready ==> reasons == {ReadyReason(d)})
    && (status == Unknown && !Suspect(ev, g, d) ==> forall r :: r in reasons <==> Cited(inv, ev, g, d, r) || Objected(inv, ev, g, d, r))
  }

  /** What kept an unused device, about which there is no doubt, from being READY. */
  ghost predicate Objected(inv: Snapshot, ev: Evidence, g: Graph, d: Key, r: Reason)
    requires d in Blocks(inv.nodes)
  {
    var blocks, traces := Blocks(inv.nodes), Traces(g);
    || (exists k :: k in blocks && Names(g, k, d) && k in ev.signatures && ev.signatures[k].state !in {NoSignature, Filesystem, Membership}
                    && r == ChildSignatureReason(k, ev.signatures[k]))
    || (r == Reason(IncompleteCoverage, d, "host", "host coverage")
        && !(CoverageComplete(inv, ev, Issues(inv, ev), traces, d) && !UnknownUsage(inv, ev, traces)))
    || (r == Reason(SignatureUnavailable, d, "signature", "descendants") && !SignaturesComplete(blocks, ev.signatures, traces, d))
    || (r == Reason(ConflictingEvidence, d, "inventory", "observation") && !CleanDevice(ev.signatures, blocks[d]))
    || (r == Reason(NamespaceScope, d, "identity", "controller") && blocks[d].identity.scope == IdentityScope.NvmeNamespace)
  }

  lemma ObjectedIs(inv: Snapshot, ev: Evidence, g: Graph, d: Key, r: Reason)
    requires d in Blocks(inv.nodes)
    ensures var checks := ChecksOf(inv, ev, Issues(inv, ev), Traces(g), d);
      !checks.Pass() ==>
        (Objected(inv, ev, g, d, r) <==>
          r in ChildSignatureReasons(Blocks(inv.nodes), ev.signatures, Traces(g), d) + CheckReasons(checks, d))
  {
    hide Trace, Blocks, CoverageComplete, UnknownUsage, SignaturesComplete, CleanDevice, Issues, ChildSignatureReason;
    forall k ensures Owns(Traces(g), k, d) == Names(g, k, d) {
    }
    hide Names, Owns, Traces;
  }

  lemma SomethingObjected(inv: Snapshot, ev: Evidence, g: Graph, d: Key)
    requires d in Blocks(inv.nodes)
    ensures var checks := ChecksOf(inv, ev, Issues(inv, ev), Traces(g), d); !checks.Pass() ==> CheckReasons(checks, d) != {}
  {
    hide Trace, Blocks, CoverageComplete, UnknownUsage, SignaturesComplete, CleanDevice, Issues, Traces;
    var checks := ChecksOf(inv, ev, Issues(inv, ev), Traces(g), d);
    hide ChecksOf;
    if !checks.coverage || !checks.attributed {
      assert CoverageReason(d) in CheckReasons(checks, d);
    } else if !checks.signatures {
      assert SignatureReason(d) in CheckReasons(checks, d);
    } else if !checks.clean {
      assert CleanReason(d) in CheckReasons(checks, d);
    } else if checks.scope != WholeDevice {
      assert ScopeReason(d) in CheckReasons(checks, d);
    }
  }

  /** So it is in every assessment, for every device it decides about. */
  lemma DecisionsExplain(out: Assessment, inv: Snapshot, ev: Evidence, scope: AssessmentScope, d: Key)
    requires Represents(out, inv, ev, scope) && d in out.devices
    ensures Candidate(inv, AllPhysical, d)
    ensures out.devices[d].id == Blocks(inv.nodes)[d].identity.id && out.devices[d].status == Status(inv, ev, d)
    ensures Explains(inv, ev, d, Elements(out.devices[d].reasons))
  {
    hide RepresentsTrace, OwnershipGraph, Trace, Coverage, Blocks, StatusOf, Issues, Traces, DecisionReasons, Edges, Claims, Explains, ListsNodes;
    ReasonsAre(inv, ev, d);
  }

  // What a use is called

  /** The words for a mount, by where it is. */
  function WordFor(mountPoint: string): Code {
    if mountPoint == "/" then SystemRoot
    else if mountPoint == "/boot" || "/boot/" <= mountPoint then BootFilesystem
    else if mountPoint == "/home" || "/home/" <= mountPoint then HomeFilesystem
    else Mount
  }

  lemma ClaimIsTold(out: Assessment, inv: Snapshot, ev: Evidence, scope: AssessmentScope, c: Claim, d: Key)
    requires Represents(out, inv, ev, scope) && d in out.devices && c in Claims(inv, ev) && Names(OwnershipGraph(inv, ev), c.consumer, d)
    ensures Candidate(inv, AllPhysical, d) && ClaimReason(c) in Elements(out.devices[d].reasons)
  {
    hide Represents, OwnershipGraph, Claims, Candidate, Names, Apart, Trace;
    DecisionsExplain(out, inv, ev, scope, d);
    assert Cited(inv, ev, OwnershipGraph(inv, ev), d, ClaimReason(c));
  }

  /** A decision about a device says of every mount that rests on it what and where it is,
      and is Protected or, in doubt, Unknown. */
  lemma MountIsTold(out: Assessment, inv: Snapshot, ev: Evidence, scope: AssessmentScope, i: nat, k: Key, d: Key)
    requires Represents(out, inv, ev, scope) && d in out.devices
    requires i < |inv.mounts| && inv.mounts[i].node.Some? && k == "block:" + inv.mounts[i].node.value
    requires RestsOn(inv, OwnershipGraph(inv, ev), k, d)
    ensures out.devices[d].status in {Protected, Unknown}
    ensures var m := inv.mounts[i];
      Reason(WordFor(m.mountPoint), k, "mountinfo:" + Decimal(m.mountId), m.mountPoint) in Elements(out.devices[d].reasons)
  {
    hide Represents, OwnershipGraph, InitialClaims, Candidate, RestsOn, Names, Explains, Status, Suspect;
    DecisionsExplain(out, inv, ev, scope, d);
    NamedWhereSeen(inv, ev, k, d);
    MountedIsNotFree(inv, ev, i, k, d);
    ClaimIsTold(out, inv, ev, scope, MountClaim(inv.mounts[i]), d);
  }

  lemma SwapIsTold(out: Assessment, inv: Snapshot, ev: Evidence, scope: AssessmentScope, i: nat, k: Key, d: Key)
    requires Represents(out, inv, ev, scope) && d in out.devices
    requires i < |inv.swaps| && inv.swaps[i].node.Some? && k == "block:" + inv.swaps[i].node.value
    requires RestsOn(inv, OwnershipGraph(inv, ev), k, d)
    ensures out.devices[d].status in {Protected, Unknown}
    ensures Reason(ActiveSwap, k, "swaps", inv.swaps[i].path) in Elements(out.devices[d].reasons)
  {
    hide Represents, OwnershipGraph, InitialClaims, Candidate, RestsOn, Names, Explains, Status, Suspect;
    DecisionsExplain(out, inv, ev, scope, d);
    NamedWhereSeen(inv, ev, k, d);
    SwappedIsNotFree(inv, ev, i, k, d);
    ClaimIsTold(out, inv, ev, scope, SwapClaim(inv.swaps[i]), d);
  }

  /** And of every block on it that was freshly read as a member what it is a member of. */
  lemma MembershipIsTold(out: Assessment, inv: Snapshot, ev: Evidence, scope: AssessmentScope, k: Key, d: Key)
    requires Represents(out, inv, ev, scope) && d in out.devices
    requires k in ev.signatures && k in Blocks(inv.nodes) && ev.signatures[k].state == Membership
    requires RestsOn(inv, OwnershipGraph(inv, ev), k, d)
    ensures out.devices[d].status in {Protected, Unknown}
    ensures var signature := ev.signatures[k].signature;
      Reason(if signature == "LVM2_member" then LvmMember else if signature == "zfs_member" then ZfsMember else RaidMember,
             k, "libblkid:fresh", "membership: " + signature) in Elements(out.devices[d].reasons)
  {
    hide Represents, OwnershipGraph, MountClaims, SwapClaims, Candidate, RestsOn, Names, Explains, Status, Suspect, Blocks;
    DecisionsExplain(out, inv, ev, scope, d);
    NamedWhereSeen(inv, ev, k, d);
    var c := FreshClaim(k, ev.signatures[k]);
    assert c in FreshClaims(Blocks(inv.nodes), ev.signatures);
    assert c in Claims(inv, ev);
    ClaimIsTold(out, inv, ev, scope, c, d);
    hide Claims;
    StatusByTraces(inv, ev, d);
    assert Engaged(Claims(inv, ev), OwnershipGraph(inv, ev), d);
  }
}
