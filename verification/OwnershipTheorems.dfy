/** What a reader of an assessment may rely on. */
module OwnershipTheorems {
  import opened Text
  import opened Inventory
  import opened Backing
  import opened BackingTheory
  import opened Ownership

  // Shared disks do not share identity failures

  lemma EndpointTrace(g: Graph, d: Key)
    requires d in g.physical
    ensures Trace(g, d).owners == {d} && Trace(g, d).visited == {d}
    ensures Trace(g, d).reasons == g.LocalReasons(d)
    ensures Trace(g, d).structural <==> g.Complete(d)
  {
  }

  /** For a consumer whose backing is structurally complete, the failures charged
      to one of its disks are that disk's own: present exactly when the disk itself
      lacks a resolved id or a path, whatever the state of the others. */
  lemma IdentityFailuresAreIsolated(g: Graph, k: Key, d: Key)
    requires k in g.nodes && Trace(g, k).structural && d in Trace(g, k).owners
    ensures d in g.physical
    ensures OwnerReasons(Traces(g), k, d) == g.EndpointReasons(d)
    ensures OwnerReasons(Traces(g), k, d) != {} <==>
      !(g.physical[d].resolved && g.physical[d].id.Some? && g.physical[d].hasPath)
  {
    var t := Trace(g, k);
    TraceBasics(g, k);
    StructuralTraceIsExact(g, k);
    forall r | r in t.reasons ensures r.node in g.physical && r in g.EndpointReasons(r.node) && (Separate(Traces(g), r.node, d) <==> r.node != d) {
      assert Explained(g, t, r);
      assert !g.Defective(r.node);
      EndpointTrace(g, r.node);
    }
    LocalReasonsNamed(g, d);
    assert g.EndpointReasons(d) <= g.LocalReasons(d) <= t.reasons;
    assert NoIdentity(d) in g.EndpointReasons(d) <==> !(g.physical[d].resolved && g.physical[d].id.Some?);
    assert NoPath(d) in g.EndpointReasons(d) <==> !g.physical[d].hasPath;
  }

  // READY is sound

  /** `d` is a physical device that is decided READY. */
  ghost predicate IsReady(inv: Snapshot, ev: Evidence, d: Key) {
    Candidate(inv, AllPhysical, d) && Status(inv, ev, d) == Ready
  }

  /** What READY promises of the device itself. */
  predicate SoundDevice(b: ResolvedNode) {
    && b.identity.state == Resolved
    && b.identity.id.Some?
    && b.identity.scope == WholeDevice
    && b.currentPath.Some?
    && b.observation.capacityBytes.GetOr(0) > 0
    && b.observation.readOnly == Some(false)
  }

  /** No claim, attributed mount or swap rests on `d`. */
  ghost predicate Unused(inv: Snapshot, ev: Evidence, g: Graph, d: Key) {
    && (forall c :: c in Claims(inv, ev) ==> !Reaches(g, c.consumer, d))
    && (forall i :: 0 <= i < |inv.mounts| && inv.mounts[i].node.Some? ==>
          !Reaches(g, BlockKey(inv.mounts[i].node.value), d))
    && (forall i :: 0 <= i < |inv.swaps| ==>
          inv.swaps[i].node.Some? && !Reaches(g, BlockKey(inv.swaps[i].node.value), d))
  }

  /** Every node backed by `d` has sound backing, and every such block was freshly
      read as carrying no membership. A detached loop device is excused from the
      first, and from the second only if a path from it exceeds the depth limit. */
  ghost predicate ClearAbove(inv: Snapshot, ev: Evidence, g: Graph, d: Key) {
    var blocks := Blocks(inv.nodes);
    && (forall k :: k in g.nodes && Reaches(g, k, d) && k !in ev.inactiveLoops ==> SoundBacking(g, k))
    && (forall k :: k in blocks && Reaches(g, k, d) && (k !in ev.inactiveLoops || Bounded(g, k)) ==>
          FreshlyClear(ev.signatures, k, blocks[k]))
  }

  ghost predicate MountsExplained(inv: Snapshot, ev: Evidence) {
    forall i :: 0 <= i < |inv.mounts| && inv.mounts[i].node.None? ==>
      HarmlessMount(inv.mounts[i]) || exists c :: c in Claims(inv, ev) && c.source == MountSource(inv.mounts[i])
  }

  /** A READY device has a resolved whole-device identity, a path, a size and a
      writable flag; no claim, attributed mount or swap rests on it; every block
      it backs was freshly read as carrying no membership; and no mount of the
      host is left unexplained. */
  lemma ReadyIsSound(inv: Snapshot, ev: Evidence, d: Key)
    requires Candidate(inv, AllPhysical, d) && Status(inv, ev, d) == Ready
    ensures SoundDevice(Blocks(inv.nodes)[d])
    ensures Unused(inv, ev, OwnershipGraph(inv, ev), d)
    ensures ClearAbove(inv, ev, OwnershipGraph(inv, ev), d)
    ensures MountsExplained(inv, ev)
  {
    GraphOfBlocks(inv, ev, d);
    ReadySoundOn(inv, ev, Issues(inv, ev), OwnershipGraph(inv, ev), d);
  }

  lemma GraphOfBlocks(inv: Snapshot, ev: Evidence, d: Key)
    requires Candidate(inv, AllPhysical, d)
    ensures var g := OwnershipGraph(inv, ev);
      && (forall k :: k in Blocks(inv.nodes) ==> k in g.nodes)
      && d in g.physical && g.physical[d] == EndpointOf(Blocks(inv.nodes)[d])
  {
    forall k | k in Blocks(inv.nodes) ensures k in OwnershipGraph(inv, ev).nodes {
      BlocksAreNodes(inv, ev, k);
    }
  }

  lemma ReadySoundOn(inv: Snapshot, ev: Evidence, issues: set<Reason>, g: Graph, d: Key)
    requires ReadyOn(inv, ev, issues, g, d)
    requires d in g.physical && g.physical[d] == EndpointOf(Blocks(inv.nodes)[d])
    requires forall k :: k in Blocks(inv.nodes) ==> k in g.nodes
    ensures SoundDevice(Blocks(inv.nodes)[d])
    ensures Unused(inv, ev, g, d) && ClearAbove(inv, ev, g, d) && MountsExplained(inv, ev)
  {
    ReadyDevice(inv, ev, issues, g, d);
    ReadyUnused(inv, ev, issues, g, d);
    ReadyClearAbove(inv, ev, issues, g, d);
    ReadyMounts(inv, ev, Traces(g));
  }

  /** `d` was decided READY over the graph `g`. */
  ghost predicate ReadyOn(inv: Snapshot, ev: Evidence, issues: set<Reason>, g: Graph, d: Key) {
    && d in g.nodes && d in Blocks(inv.nodes)
    && StatusOf(inv, ev, issues, Traces(g), d) == Ready
  }

  lemma ReadyDevice(inv: Snapshot, ev: Evidence, issues: set<Reason>, g: Graph, d: Key)
    requires ReadyOn(inv, ev, issues, g, d)
    requires d in g.physical && g.physical[d] == EndpointOf(Blocks(inv.nodes)[d])
    ensures SoundDevice(Blocks(inv.nodes)[d])
  {
    EndpointTrace(g, d);
    assert g.LocalReasons(d) == {};
    assert NoIdentity(d) !in g.LocalReasons(d) && NoPath(d) !in g.LocalReasons(d);
  }

  lemma ReadyUnused(inv: Snapshot, ev: Evidence, issues: set<Reason>, g: Graph, d: Key)
    requires ReadyOn(inv, ev, issues, g, d) && d in g.physical
    ensures Unused(inv, ev, g, d)
  {
    hide Reaches, Trace, Blocks, LocalUnknown, CoverageComplete, SignaturesComplete, CleanDevice, InitialClaims, MountCovered;
    var claims := Claims(inv, ev);
    forall c | c in claims ensures !Reaches(g, c.consumer, d) {
      StructuralTraceIsExact(g, c.consumer);
      assert !Owns(Traces(g), c.consumer, d);
    }
    forall i | 0 <= i < |inv.mounts| && inv.mounts[i].node.Some? ensures MountClaim(inv.mounts[i]) in claims {
    }
    forall i | 0 <= i < |inv.swaps| ensures inv.swaps[i].node.Some? && SwapClaim(inv.swaps[i]) in claims {
    }
  }

  lemma ReadyClearAbove(inv: Snapshot, ev: Evidence, issues: set<Reason>, g: Graph, d: Key)
    requires ReadyOn(inv, ev, issues, g, d) && d in g.physical
    requires forall k :: k in Blocks(inv.nodes) ==> k in g.nodes
    ensures ClearAbove(inv, ev, g, d)
  {
    hide Reaches, SoundBacking, Bounded, Trace, Blocks, Claims, LocalUnknown, CoverageComplete, FreshlyClear, CleanDevice;
    forall k | k in g.nodes && Reaches(g, k, d) && k !in ev.inactiveLoops
      ensures SoundBacking(g, k) && Owns(Traces(g), k, d)
    {
      StructuralTraceIsExact(g, k);
    }
    forall k | k in g.nodes && Reaches(g, k, d) && Bounded(g, k) ensures Owns(Traces(g), k, d) {
      BoundedTraceIsExact(g, k);
    }
  }

  lemma ReadyMounts(inv: Snapshot, ev: Evidence, traces: map<Key, Walk>)
    requires !UnknownUsage(inv, ev, traces)
    ensures MountsExplained(inv, ev)
  {
    var claims := Claims(inv, ev);
    forall i | 0 <= i < |inv.mounts| && inv.mounts[i].node.None? && !HarmlessMount(inv.mounts[i])
      ensures exists c :: c in claims && c.source == MountSource(inv.mounts[i])
    {
      assert MountCovered(inv, ev, i);
      if j :| 0 <= j < i && inv.mounts[j].node.Some? && MountSource(inv.mounts[j]) == MountSource(inv.mounts[i]) {
        assert MountClaim(inv.mounts[j]) in claims;
      }
    }
  }
}
