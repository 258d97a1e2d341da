/** READY, to the letter: when a device is decided READY, and what else then holds. */
module ReadyTheorems {
  import opened Text
  import opened Inventory
  import opened Backing
  import opened BackingTheory
  import opened Ownership
  import opened OwnershipTheorems
  import opened StatusTheorems

  ghost predicate AllSeen(g: Graph) {
    forall k :: k in g.nodes ==> SeenWhole(g, k)
  }

  /** All that backs `n` is known and sound, and `d` is not part of it. */
  ghost predicate Elsewhere(g: Graph, n: Key, d: Key) {
    n in g.nodes && SoundBacking(g, n) && (exists e :: Backs(g, e, n)) && !Reaches(g, n, d)
  }

  ghost predicate Grounded(g: Graph, k: Key) {
    k in g.nodes && SoundBacking(g, k)
  }

  predicate GapsGiven(ev: Evidence, source: string) {
    source in ev.gaps && ev.gaps[source] != []
  }

  /** Every source was read completely or says what it could not read. */
  predicate SourcesRead(inv: Snapshot, ev: Evidence) {
    && (forall s :: s in {"sysfs", "zfs", "proxmox", "processes"} ==> (s in ev.coverage && ev.coverage[s]) || GapsGiven(ev, s))
    && (inv.mountinfoComplete || GapsGiven(ev, "mountinfo"))
    && (inv.swapsComplete || GapsGiven(ev, "swaps"))
    && (forall s :: s in ev.coverage && s !in {"mountinfo", "swaps", "inactive_membership"} ==> ev.coverage[s] || GapsGiven(ev, s))
  }

  /** A gap in the signature cache that a fresh read of the same node fills. */
  predicate Refreshed(ev: Evidence, issue: DiscoveryIssue) {
    && issue.field == "signature" && issue.code == MissingEvidence
    && "block:" + issue.node in ev.signatures
    && ev.signatures["block:" + issue.node].state in {NoSignature, Filesystem, Membership}
  }

  /** The mount is of the kernel's own making: it has no block device behind it, and its
      source is none, but for the one through which Proxmox keeps its configuration. */
  predicate OfKernel(m: MountEvidence) {
    && m.device.major == 0
    && (|| (m.filesystem == "fuse.lxcfs" && m.source == "lxcfs")
        || (m.filesystem == "fuse" && m.source == "/dev/fuse" && m.mountPoint == "/etc/pve" && m.root == "/")
        || (!("/dev/" <= m.source)
            && m.filesystem in {"proc", "sysfs", "devtmpfs", "devpts", "tmpfs", "ramfs", "cgroup", "cgroup2", "securityfs", "debugfs", "tracefs",
                                "configfs", "pstore", "efivarfs", "hugetlbfs", "mqueue", "bpf", "fusectl", "binfmt_misc", "rpc_pipefs", "autofs"}))
  }

  lemma OfKernelIs(m: MountEvidence)
    ensures HarmlessMount(m) <==> OfKernel(m)
  {
  }

  /** The issue is that a mount has no node; and the one row of its id is indeed without
      one, of the kernel's making, and of a number that no device has. */
  predicate NotedHarmless(inv: Snapshot, issue: DiscoveryIssue) {
    && issue.mountId.Some? && issue == DiscoveryIssue(UncorrelatedUsage, "", "mountinfo", None, issue.mountId)
    && exists i :: 0 <= i < |inv.mounts| && SoleOfKernel(inv, i, issue.mountId.value)
  }

  predicate SoleOfKernel(inv: Snapshot, i: nat, id: nat)
    requires i < |inv.mounts|
  {
    && inv.mounts[i].mountId == id && inv.mounts[i].node.None? && OfKernel(inv.mounts[i])
    && (forall j :: 0 <= j < |inv.mounts| && inv.mounts[j].mountId == id ==> j == i)
    && (forall b :: b in inv.nodes ==> b.observation.deviceNumber != Some(inv.mounts[i].device))
  }

  lemma NotedHarmlessIs(inv: Snapshot, issue: DiscoveryIssue)
    ensures HarmlessMountIssue(inv, issue) <==> NotedHarmless(inv, issue)
  {
    hide HarmlessMount, OfKernel;
    forall i: nat, id: nat | i < |inv.mounts| ensures SoleHarmlessMount(inv, i, id) <==> SoleOfKernel(inv, i, id) {
      OfKernelIs(inv.mounts[i]);
      if SoleHarmlessMount(inv, i, id) {
        forall b | b in inv.nodes ensures b.observation.deviceNumber != Some(inv.mounts[i].device) {
          var j :| 0 <= j < |inv.nodes| && inv.nodes[j] == b;
        }
      }
      if SoleOfKernel(inv, i, id) {
        assert forall j :: 0 <= j < |inv.nodes| ==> inv.nodes[j] in inv.nodes;
      }
    }
    hide SoleHarmlessMount, SoleOfKernel;
  }

  /** Whatever could not be read or was found inconsistent lies elsewhere. */
  ghost predicate TroubleElsewhere(inv: Snapshot, ev: Evidence, g: Graph, d: Key) {
    && (forall s, r :: s in ev.gaps && r in ev.gaps[s] ==> Elsewhere(g, r.node, d))
    && (forall r :: r in g.issues && r.source != "inactive_membership" ==> Elsewhere(g, r.node, d))
    && (forall i :: 0 <= i < |inv.inventoryIssues| ==>
          inv.inventoryIssues[i].kernelName.Some? && Elsewhere(g, "block:" + inv.inventoryIssues[i].kernelName.value, d))
    && (forall i :: 0 <= i < |inv.issues| ==>
          NotedHarmless(inv, inv.issues[i]) || Refreshed(ev, inv.issues[i]) || Elsewhere(g, "block:" + inv.issues[i].node, d))
  }

  /** A mount without a node is harmless, or a reported claim or an earlier row of the
      same id accounts for it. */
  predicate Accounted(inv: Snapshot, ev: Evidence, i: nat)
    requires i < |inv.mounts|
  {
    || OfKernel(inv.mounts[i])
    || (exists c :: c in ev.claims && c.source == "mountinfo:" + Decimal(inv.mounts[i].mountId))
    || (exists j :: 0 <= j < i && inv.mounts[j].node.Some? && Decimal(inv.mounts[j].mountId) == Decimal(inv.mounts[i].mountId))
  }

  /** Nothing that uses storage is without known and sound backing. */
  ghost predicate AllAttributed(inv: Snapshot, ev: Evidence, g: Graph) {
    && (forall k :: k in g.nodes && k !in ev.inactiveLoops ==> SoundBacking(g, k))
    && (forall c :: c in ev.claims ==> Grounded(g, c.consumer))
    && (forall k :: k in ev.signatures && k in Blocks(inv.nodes) && ev.signatures[k].state == Membership ==> Grounded(g, k))
    && (forall i :: 0 <= i < |inv.mounts| ==>
          if inv.mounts[i].node.Some? then Grounded(g, "block:" + inv.mounts[i].node.value) else Accounted(inv, ev, i))
    && (forall i :: 0 <= i < |inv.swaps| ==> inv.swaps[i].node.Some? && Grounded(g, "block:" + inv.swaps[i].node.value))
  }

  /** The block was freshly read as carrying no membership, and no observation of it is open. */
  predicate ReadClear(ev: Evidence, k: Key, b: ResolvedNode) {
    && k in ev.signatures && ev.signatures[k].state in {NoSignature, Filesystem}
    && b.observation.issues == [] && AllRefreshed(ev, b)
  }

  predicate AllRefreshed(ev: Evidence, b: ResolvedNode) {
    forall i :: 0 <= i < |b.issues| ==> Refreshed(ev, b.issues[i])
  }

  ghost predicate BlocksClear(inv: Snapshot, ev: Evidence, g: Graph, d: Key) {
    forall k :: k in Blocks(inv.nodes) && Reaches(g, k, d) ==> ReadClear(ev, k, Blocks(inv.nodes)[k])
  }

  predicate Usable(ev: Evidence, b: ResolvedNode) {
    && b.identity.scope == WholeDevice
    && b.observation.capacityBytes.Some? && b.observation.capacityBytes.value > 0
    && b.observation.readOnly == Some(false)
    && AllRefreshed(ev, b)
  }

  lemma ElsewhereIs(g: Graph, n: Key, d: Key)
    requires AllSeen(g) && d in g.physical
    ensures Separate(Traces(g), n, d) <==> Elsewhere(g, n, d)
  {
    hide Trace, Bounded, SoundBacking, Reaches;
    if n in g.nodes {
      ExactWhereSeen(g, n);
      if Trace(g, n).owners != {} {
        var e :| e in Trace(g, n).owners;
        assert Backs(g, e, n);
      }
    }
  }

  lemma ExactWhereSeen(g: Graph, k: Key)
    requires SeenWhole(g, k)
    ensures Trace(g, k).structural <==> SoundBacking(g, k)
    ensures forall d :: d in Trace(g, k).owners <==> Backs(g, d, k)
  {
    hide Trace, Bounded, SoundBacking, Reaches;
    if Bounded(g, k) {
      BoundedTraceIsExact(g, k);
    } else {
      StructuralTraceIsExact(g, k);
    }
  }

  lemma SourcesReadIs(inv: Snapshot, ev: Evidence)
    ensures HostCoverage(Coverage(inv, ev), ev.gaps) <==> SourcesRead(inv, ev)
  {
    CoverageHolds(inv, ev);
    var coverage := Coverage(inv, ev);
    hide Coverage;
    if HostCoverage(coverage, ev.gaps) {
      forall s | s in {"sysfs", "zfs", "proxmox", "processes"} ensures (s in ev.coverage && ev.coverage[s]) || GapsGiven(ev, s) {
        assert s in coverage && s != "mountinfo" && s != "swaps" && s != "inactive_membership";
      }
      assert "mountinfo" in coverage && "swaps" in coverage;
    }
    if SourcesRead(inv, ev) {
      forall s | s in coverage && s != "inactive_membership" ensures coverage[s] || GapsGiven(ev, s) {
      }
    }
  }

  lemma CoverageHolds(inv: Snapshot, ev: Evidence)
    ensures var coverage := Coverage(inv, ev);
      && "mountinfo" in coverage && coverage["mountinfo"] == inv.mountinfoComplete
      && "swaps" in coverage && coverage["swaps"] == inv.swapsComplete
      && forall s :: s != "mountinfo" && s != "swaps" ==>
           && (s in coverage <==> s in ev.coverage || s in {"sysfs", "zfs", "proxmox", "processes", "inactive_membership"})
           && (s in coverage ==> coverage[s] == (s in ev.coverage && ev.coverage[s]))
  {
  }

  lemma RefreshedIs(ev: Evidence, issue: DiscoveryIssue)
    ensures Superseded(ev.signatures, issue) <==> Refreshed(ev, issue)
  {
  }

  lemma SettledIs(ev: Evidence, b: ResolvedNode)
    ensures SettledIssues(ev.signatures, b) <==> AllRefreshed(ev, b)
  {
    hide Superseded, Refreshed;
    forall issue ensures Superseded(ev.signatures, issue) <==> Refreshed(ev, issue) {
      RefreshedIs(ev, issue);
    }
  }

  lemma CoverageIs(inv: Snapshot, ev: Evidence, g: Graph, d: Key)
    requires AllSeen(g) && d in g.physical
    ensures CoverageComplete(inv, ev, g.issues, Traces(g), d) <==> SourcesRead(inv, ev) && TroubleElsewhere(inv, ev, g, d)
  {
    hide Trace, Separate, Elsewhere, Superseded, Refreshed, HostCoverage, SourcesRead, HarmlessMountIssue, Coverage, Traces;
    SourcesReadIs(inv, ev);
    forall n ensures Separate(Traces(g), n, d) <==> Elsewhere(g, n, d) {
      ElsewhereIs(g, n, d);
    }
    forall issue ensures Superseded(ev.signatures, issue) <==> Refreshed(ev, issue) {
      RefreshedIs(ev, issue);
    }
    forall issue ensures HarmlessMountIssue(inv, issue) <==> NotedHarmless(inv, issue) {
      NotedHarmlessIs(inv, issue);
    }
    hide NotedHarmless;
    GapsElsewhere(ev, g, d);
    hide ScopedGaps, AllSeen;
  }

  lemma GapsElsewhere(ev: Evidence, g: Graph, d: Key)
    requires forall n :: Separate(Traces(g), n, d) <==> Elsewhere(g, n, d)
    ensures ScopedGaps(ev.gaps, Traces(g), d) == {} <==> forall s, r :: s in ev.gaps && r in ev.gaps[s] ==> Elsewhere(g, r.node, d)
  {
    hide Separate, Elsewhere, Traces;
    forall s, r | s in ev.gaps && r in ev.gaps[s] && !Elsewhere(g, r.node, d) ensures r in ScopedGaps(ev.gaps, Traces(g), d) {
    }
    if ScopedGaps(ev.gaps, Traces(g), d) != {} {
      var r :| r in ScopedGaps(ev.gaps, Traces(g), d);
    }
  }

  lemma AccountedIs(inv: Snapshot, ev: Evidence, i: nat)
    requires i < |inv.mounts|
    ensures MountCovered(inv, ev, i) || HarmlessMount(inv.mounts[i]) <==> Accounted(inv, ev, i)
  {
    hide HarmlessMount, OfKernel, Blocks, Decimal;
    OfKernelIs(inv.mounts[i]);
    var source := MountSource(inv.mounts[i]);
    forall k, f ensures FreshClaim(k, f).source != source {
      assert FreshClaim(k, f).source[0] == 'l' && source[0] == 'm';
    }
    forall c ensures c in InitialClaims(inv, ev) && c.source == source <==> c in ev.claims && c.source == source {
    }
    forall j: nat | j < i ensures MountSource(inv.mounts[j]) == source <==> Decimal(inv.mounts[j].mountId) == Decimal(inv.mounts[i].mountId) {
      var a, b := Decimal(inv.mounts[j].mountId), Decimal(inv.mounts[i].mountId);
      assert ("mountinfo:" + a)[10..] == a && ("mountinfo:" + b)[10..] == b;
    }
    hide InitialClaims, MountSource;
  }

  lemma GroundedIs(g: Graph, k: Key)
    requires AllSeen(g)
    ensures k in Traces(g) && Traces(g)[k].structural <==> Grounded(g, k)
  {
    hide Trace, SeenWhole, SoundBacking;
    if k in g.nodes {
      ExactWhereSeen(g, k);
    }
  }

  lemma AttributedIs(inv: Snapshot, ev: Evidence, g: Graph)
    requires AllSeen(g)
    ensures !UnknownUsage(inv, ev, Traces(g)) <==> AllAttributed(inv, ev, g)
  {
    hide Trace, SoundBacking, Blocks, HarmlessMount, MountCovered, Accounted, Claims, AllSeen;
    var traces := Traces(g);
    forall k ensures k in traces && traces[k].structural <==> Grounded(g, k) {
      GroundedIs(g, k);
    }
    assert forall k :: k in traces <==> k in g.nodes;
    hide Traces;
    forall i: nat | i < |inv.mounts| ensures MountCovered(inv, ev, i) || HarmlessMount(inv.mounts[i]) <==> Accounted(inv, ev, i) {
      AccountedIs(inv, ev, i);
    }
    ClaimsGrounded(inv, ev, g);
  }

  /** Claims are grounded exactly when what they stand for is. */
  lemma ClaimsGrounded(inv: Snapshot, ev: Evidence, g: Graph)
    ensures (forall c :: c in Claims(inv, ev) ==> Grounded(g, c.consumer)) <==>
      && (forall c :: c in ev.claims ==> Grounded(g, c.consumer))
      && (forall k :: k in ev.signatures && k in Blocks(inv.nodes) && ev.signatures[k].state == Membership ==> Grounded(g, k))
      && (forall i :: 0 <= i < |inv.mounts| && inv.mounts[i].node.Some? ==> Grounded(g, "block:" + inv.mounts[i].node.value))
      && (forall i :: 0 <= i < |inv.swaps| && inv.swaps[i].node.Some? ==> Grounded(g, "block:" + inv.swaps[i].node.value))
  {
    hide Grounded, Blocks, Claims;
    ClaimsAre(inv, ev);
    if forall c :: c in Claims(inv, ev) ==> Grounded(g, c.consumer) {
      forall c | c in ev.claims ensures Grounded(g, c.consumer) {
        assert ClaimedBy(inv, ev, c);
      }
      forall k | k in ev.signatures && k in Blocks(inv.nodes) && ev.signatures[k].state == Membership ensures Grounded(g, k) {
        assert ClaimedBy(inv, ev, FreshClaim(k, ev.signatures[k]));
      }
      forall i | 0 <= i < |inv.mounts| && inv.mounts[i].node.Some? ensures Grounded(g, "block:" + inv.mounts[i].node.value) {
        assert ClaimedBy(inv, ev, MountClaim(inv.mounts[i]));
      }
      forall i | 0 <= i < |inv.swaps| && inv.swaps[i].node.Some? ensures Grounded(g, "block:" + inv.swaps[i].node.value) {
        assert ClaimedBy(inv, ev, SwapClaim(inv.swaps[i]));
      }
    }
  }

  lemma SignaturesAre(inv: Snapshot, ev: Evidence, g: Graph, d: Key)
    requires AllSeen(g) && d in g.physical && forall k :: k in Blocks(inv.nodes) ==> k in g.nodes
    ensures SignaturesComplete(Blocks(inv.nodes), ev.signatures, Traces(g), d) <==> BlocksClear(inv, ev, g, d)
  {
    hide Trace, Blocks, Reaches, SeenWhole;
    forall k | k in Blocks(inv.nodes) ensures Owns(Traces(g), k, d) <==> Reaches(g, k, d) {
      ExactWhereSeen(g, k);
    }
    hide Traces, Owns;
    forall k, b: ResolvedNode ensures FreshlyClear(ev.signatures, k, b) <==> ReadClear(ev, k, b) {
      SettledIs(ev, b);
      hide SettledIssues, AllRefreshed;
    }
    hide FreshlyClear, ReadClear;
  }

  lemma UsableIs(ev: Evidence, b: ResolvedNode)
    ensures CleanDevice(ev.signatures, b) && b.identity.scope == WholeDevice <==> Usable(ev, b)
  {
    hide SettledIssues, AllRefreshed;
    SettledIs(ev, b);
  }

  lemma IssuesOfGraph(inv: Snapshot, ev: Evidence)
    ensures OwnershipGraph(inv, ev).issues == Issues(inv, ev)
  {
    hide Blocks, Issues, Edges;
  }

  /** Wherever the walk sees every node whole, a device is decided READY exactly when
      nothing about it is in doubt, nothing uses it or holds it open, it is a writable
      whole device with a size, every source was read or its gaps explained, all trouble
      lies elsewhere, everything that uses storage is attributed to sound backing, and
      every block on the device was freshly read as carrying no membership. */
  lemma ReadyIsExact(inv: Snapshot, ev: Evidence, d: Key)
    requires Candidate(inv, AllPhysical, d) && AllSeen(OwnershipGraph(inv, ev))
    ensures var g, b := OwnershipGraph(inv, ev), Blocks(inv.nodes)[d];
      Status(inv, ev, d) == Ready <==>
        && !Doubtful(ev, g, b, d) && !InUse(inv, ev, g, d) && !HeldOpen(ev, g, d) && Usable(ev, b)
        && SourcesRead(inv, ev) && TroubleElsewhere(inv, ev, g, d)
        && AllAttributed(inv, ev, g) && BlocksClear(inv, ev, g, d)
  {
    hide OwnershipGraph, Blocks, Doubtful, InUse, HeldOpen, SourcesRead, TroubleElsewhere, AllAttributed, BlocksClear, SeenWhole;
    hide Claims, LocalUnknown, ProtectedUse, BusyUse, CoverageComplete, SignaturesComplete, SettledIssues, AllRefreshed;
    hide UnknownUsage, Issues;
    var g := OwnershipGraph(inv, ev);
    BlocksAreNodes(inv, ev, d);
    GraphOfBlocks(inv, ev, d);
    SuspectIsDoubtful(inv, ev, g, d);
    SuspectIs(ev, g, d);
    UsesByPaths(inv, ev, g, d);
    UsesAre(Claims(inv, ev), g, d);
    CoverageIs(inv, ev, g, d);
    AttributedIs(inv, ev, g);
    SignaturesAre(inv, ev, g, d);
    UsableIs(ev, Blocks(inv.nodes)[d]);
    IssuesOfGraph(inv, ev);
  }
}
