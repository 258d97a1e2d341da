/** Which use of a device gives it which status, stated on backing paths. */
module StatusTheorems {
  import opened Text
  import opened Inventory
  import opened Canonical
  import opened Backing
  import opened BackingTheory
  import opened Ownership
  import opened OwnershipTheorems
  import opened GraphTheorems

  // In terms of traces, for every graph

  /** The trace of `k` names `d` among the endpoints that back it. */
  ghost predicate Names(g: Graph, k: Key, d: Key) {
    k in g.nodes && d in Trace(g, k).owners
  }

  /** All that backs `n` is known, and `d` is not part of it. */
  ghost predicate Apart(g: Graph, n: Key, d: Key) {
    n in g.nodes && Trace(g, n).structural && Trace(g, n).owners != {} && d !in Trace(g, n).owners
  }

  predicate Unsteady(f: Fresh) {
    f.state in {Vanished, Conflicting}
  }

  /** A failure met on the way down from a consumer of `d`, other than on a branch apart
      from it, or a signature above `d` that would not hold still. */
  ghost predicate Suspect(ev: Evidence, g: Graph, d: Key) {
    || (exists k, r :: Names(g, k, d) && r in Trace(g, k).reasons && !Apart(g, r.node, d))
    || (exists k :: k in ev.signatures && Unsteady(ev.signatures[k]) && Names(g, k, d))
  }

  /** A use that shows the device open, without saying what for. */
  predicate OpenOnly(u: Use) {
    u in {Held, BlockHandle, FileHandle}
  }

  ghost predicate Opened(claims: set<Claim>, g: Graph, d: Key) {
    exists c :: c in claims && OpenOnly(c.use) && Names(g, c.consumer, d)
  }

  ghost predicate Engaged(claims: set<Claim>, g: Graph, d: Key) {
    exists c :: c in claims && !OpenOnly(c.use) && Names(g, c.consumer, d)
  }

  /** For every snapshot and evidence: doubt leaves a device Unknown; else a use other
      than open makes it Protected, and so does a read-only flag; else an open use makes
      it Busy. */
  lemma StatusByTraces(inv: Snapshot, ev: Evidence, d: Key)
    requires Candidate(inv, AllPhysical, d)
    ensures var g, claims, readOnly := OwnershipGraph(inv, ev), Claims(inv, ev), Blocks(inv.nodes)[d].observation.readOnly == Some(true);
      && (Status(inv, ev, d) == Protected <==> !Suspect(ev, g, d) && (readOnly || Engaged(claims, g, d)))
      && (Status(inv, ev, d) == Busy <==> !Suspect(ev, g, d) && !readOnly && !Engaged(claims, g, d) && Opened(claims, g, d))
      && (Suspect(ev, g, d) ==> Status(inv, ev, d) == Unknown)
  {
    hide OwnershipGraph, Claims, Blocks, Trace, Issues;
    BlocksAreNodes(inv, ev, d);
    GraphOfBlocks(inv, ev, d);
    StatusOnTraces(inv, ev, Issues(inv, ev), OwnershipGraph(inv, ev), d);
  }

  lemma StatusOnTraces(inv: Snapshot, ev: Evidence, issues: set<Reason>, g: Graph, d: Key)
    requires d in g.nodes && d in g.physical && d in Blocks(inv.nodes)
    ensures var claims, readOnly := Claims(inv, ev), Blocks(inv.nodes)[d].observation.readOnly == Some(true);
      var status := StatusOf(inv, ev, issues, Traces(g), d);
      && (status == Protected <==> !Suspect(ev, g, d) && (readOnly || Engaged(claims, g, d)))
      && (status == Busy <==> !Suspect(ev, g, d) && !readOnly && !Engaged(claims, g, d) && Opened(claims, g, d))
      && (Suspect(ev, g, d) ==> status == Unknown)
  {
    hide Claims, Blocks, Trace, ChecksOf;
    SuspectIs(ev, g, d);
    UsesAre(Claims(inv, ev), g, d);
    hide LocalUnknown, Suspect, ProtectedUse, BusyUse, Engaged, Opened;
  }

  lemma UsesAre(claims: set<Claim>, g: Graph, d: Key)
    ensures ProtectedUse(claims, Traces(g), d) <==> Engaged(claims, g, d)
    ensures BusyUse(claims, Traces(g), d) <==> Opened(claims, g, d)
  {
    hide Trace;
    forall k ensures Owns(Traces(g), k, d) == Names(g, k, d) {
    }
  }

  lemma SuspectIs(ev: Evidence, g: Graph, d: Key)
    requires d in g.nodes && d in g.physical
    ensures LocalUnknown(ev.signatures, Traces(g), d) <==> Suspect(ev, g, d)
  {
    FailuresAre(g, d);
    hide Trace, Apart, Incomplete;
    forall k ensures Owns(Traces(g), k, d) == Names(g, k, d) {
    }
    hide Names, Traces;
    if k :| k in ev.signatures && Unsteady(ev.signatures[k]) && Names(g, k, d) {
      assert Disturbed(ev.signatures[k]) && Owns(Traces(g), k, d);
    }
    if k :| k in ev.signatures && Disturbed(ev.signatures[k]) && Owns(Traces(g), k, d) {
      assert Unsteady(ev.signatures[k]) && Names(g, k, d);
    }
  }

  lemma FailuresAre(g: Graph, d: Key)
    requires d in g.nodes && d in g.physical
    ensures (Incomplete(Traces(g), d) || Traces(g)[d].reasons != {}) <==>
      exists k, r :: Names(g, k, d) && r in Trace(g, k).reasons && !Apart(g, r.node, d)
  {
    EndpointTrace(g, d);
    LocalReasonsNamed(g, d);
    hide Trace;
    var traces := Traces(g);
    forall n ensures Separate(traces, n, d) == Apart(g, n, d) {
    }
    forall k ensures Owns(traces, k, d) == Names(g, k, d) {
    }
    assert Names(g, d, d) && traces[d].reasons == Trace(g, d).reasons;
    forall r | r in traces[d].reasons ensures !Apart(g, r.node, d) {
    }
    forall k, r | Names(g, k, d) && r in Trace(g, k).reasons && !Apart(g, r.node, d) ensures r in OwnerReasons(traces, k, d) {
    }
    forall k, r | Owns(traces, k, d) && r in OwnerReasons(traces, k, d)
      ensures Names(g, k, d) && r in Trace(g, k).reasons && !Apart(g, r.node, d)
    {
    }
    hide Names, Apart, Owns, OwnerReasons;
  }

  // In terms of backing paths

  /** The walk sees all that backs `k`. */
  ghost predicate SeenWhole(g: Graph, k: Key) {
    Bounded(g, k) || Trace(g, k).structural
  }

  /** `k` is a node that rests on `d`. */
  ghost predicate Above(g: Graph, k: Key, d: Key) {
    k in g.nodes && Reaches(g, k, d)
  }

  ghost predicate SeenAbove(g: Graph, d: Key) {
    forall k :: Above(g, k, d) ==> SeenWhole(g, k)
  }

  predicate Identified(b: ResolvedNode) {
    b.identity.state == Resolved && b.identity.id.Some? && b.currentPath.Some?
  }

  /** Something that rests on the device is missing, incomplete, unbacked or on a cycle;
      or the device lacks its identity or path; or a signature above it would not hold
      still. */
  ghost predicate Doubtful(ev: Evidence, g: Graph, b: ResolvedNode, d: Key) {
    || (exists k :: Above(g, k, d) && !SoundBacking(g, k))
    || !Identified(b)
    || (exists k :: k in ev.signatures && Unsteady(ev.signatures[k]) && Above(g, k, d))
  }

  /** What is known of `d` holds more than an open handle: a claim to that effect, a
      membership read afresh, a mount or a swap above it. */
  ghost predicate InUse(inv: Snapshot, ev: Evidence, g: Graph, d: Key) {
    || (exists c :: c in ev.claims && !OpenOnly(c.use) && Above(g, c.consumer, d))
    || (exists k :: k in ev.signatures && k in Blocks(inv.nodes) && ev.signatures[k].state == Membership && Above(g, k, d))
    || (exists i :: 0 <= i < |inv.mounts| && inv.mounts[i].node.Some? && Above(g, "block:" + inv.mounts[i].node.value, d))
    || (exists i :: 0 <= i < |inv.swaps| && inv.swaps[i].node.Some? && Above(g, "block:" + inv.swaps[i].node.value, d))
  }

  ghost predicate HeldOpen(ev: Evidence, g: Graph, d: Key) {
    exists c :: c in ev.claims && OpenOnly(c.use) && Above(g, c.consumer, d)
  }

  lemma NamesIsAbove(g: Graph, k: Key, d: Key)
    requires d in g.physical && SeenAbove(g, d)
    ensures Names(g, k, d) <==> Above(g, k, d)
  {
    hide Trace, Reaches, Bounded;
    TraceBasics(g, k);
    if Above(g, k, d) {
      if Bounded(g, k) {
        BoundedTraceIsExact(g, k);
      } else {
        StructuralTraceIsExact(g, k);
      }
      assert Backs(g, d, k);
    }
  }

  // Every break of a trace is reported where the break is

  /** A walk that is not structurally complete reports a node that is defective or on
      a cycle. */
  ghost predicate BreakSeen(g: Graph, w: Walk) {
    !w.structural ==> exists r :: r in w.reasons && (g.Defective(r.node) || OnCycle(g, r.node))
  }

  lemma BreakStays(g: Graph, w: Walk, to: Walk)
    requires BreakSeen(g, w) && w.reasons <= to.reasons && to.structural == w.structural
    ensures BreakSeen(g, to)
  {
  }

  lemma EnterBreaks(g: Graph, k: Key, w: Walk)
    requires BreakSeen(g, w)
    ensures BreakSeen(g, Enter(g, k, w))
  {
    LocalReasonsNamed(g, k);
    if g.Defective(k) {
      var r :| r in g.LocalReasons(k);
      assert r in Enter(g, k, w).reasons && g.Defective(r.node);
    } else {
      BreakStays(g, w, Enter(g, k, w));
    }
  }

  lemma {:induction false} VisitBreaks(g: Graph, root: Key, k: Key, stack: seq<Key>, w: Walk)
    requires |stack| <= DEPTH_LIMIT + 1 && Stack(g, root, stack, k)
    requires Bounded(g, root) && BreakSeen(g, w)
    ensures BreakSeen(g, Visit(g, k, |stack|, Elements(stack), w))
    decreases DEPTH_LIMIT + 1 - |stack|, 0, 0
  {
    hide Visit, BreakSeen, Bounded, Stack;
    if k in stack {
      CycleBreaks(g, root, k, stack, w);
    } else {
      BoundedStack(g, root, stack, k);
      if k !in w.visited {
        EnterBreaks(g, k, w);
        if k !in g.physical {
          StackPushAll(g, root, stack, k);
          VisitAllBreaks(g, root, g.ProvidersOf(k), stack + [k], Enter(g, k, w));
        }
        VisitedSame(g, k, |stack|, Elements(stack), w);
      } else {
        SeenBefore(g, k, |stack|, Elements(stack), w);
      }
    }
  }

  lemma CycleBreaks(g: Graph, root: Key, k: Key, stack: seq<Key>, w: Walk)
    requires |stack| <= DEPTH_LIMIT + 1 && Stack(g, root, stack, k) && k in stack
    ensures BreakSeen(g, Visit(g, k, |stack|, Elements(stack), w))
  {
    hide OnCycle;
    StackReaches(g, root, stack, k);
    hide Stack;
    assert CycleAt(k) in Visit(g, k, |stack|, Elements(stack), w).reasons && CycleAt(k).node == k;
  }

  lemma SeenBefore(g: Graph, k: Key, depth: nat, active: set<Key>, w: Walk)
    requires depth <= DEPTH_LIMIT && k !in active && k in w.visited && BreakSeen(g, w)
    ensures BreakSeen(g, Visit(g, k, depth, active, w))
  {
    hide BreakSeen;
  }

  lemma VisitedSame(g: Graph, k: Key, depth: nat, active: set<Key>, w: Walk)
    requires depth <= DEPTH_LIMIT && k !in active && k !in w.visited
    requires BreakSeen(g, if k in g.physical then Enter(g, k, w) else VisitAll(g, g.ProvidersOf(k), depth + 1, active + {k}, Enter(g, k, w)))
    ensures BreakSeen(g, Visit(g, k, depth, active, w))
  {
    hide Enter, VisitAll, OnCycle;
  }

  lemma {:induction false} VisitAllBreaks(g: Graph, root: Key, ks: seq<Key>, stack: seq<Key>, w: Walk)
    requires |stack| <= DEPTH_LIMIT + 1 && forall k :: k in ks ==> Stack(g, root, stack, k)
    requires Bounded(g, root) && BreakSeen(g, w)
    ensures BreakSeen(g, VisitAll(g, ks, |stack|, Elements(stack), w))
    decreases DEPTH_LIMIT + 1 - |stack|, 1, |ks|
  {
    if ks != [] {
      VisitBreaks(g, root, ks[0], stack, w);
      VisitAllBreaks(g, root, ks[1..], stack, Visit(g, ks[0], |stack|, Elements(stack), w));
    }
  }

  /** The failure that makes a backing unsound is reported at a node whose own backing
      is unsound, so that no device is excused from it. */
  lemma BreakIsReported(g: Graph, k: Key)
    requires Bounded(g, k) && !SoundBacking(g, k)
    ensures exists r :: r in Trace(g, k).reasons && !SoundBacking(g, r.node)
  {
    BoundedTraceIsExact(g, k);
    assert Elements<Key>([]) == {};
    assert Stack(g, k, [], k) by { assert Connects(g, [] + [k], k, k); }
    VisitBreaks(g, k, k, [], NOTHING);
    hide SoundBacking, Visit, OnCycle;
    var r :| r in Trace(g, k).reasons && (g.Defective(r.node) || OnCycle(g, r.node));
    BrokenIsUnsound(g, r.node);
  }

  lemma BrokenIsUnsound(g: Graph, k: Key)
    requires g.Defective(k) || OnCycle(g, k)
    ensures !SoundBacking(g, k)
  {
    ReachesSelf(g, k);
  }

  lemma SoundReasons(g: Graph, k: Key, d: Key)
    requires Trace(g, k).structural && Names(g, k, d) && d in g.physical
    ensures (exists r :: r in Trace(g, k).reasons && !Apart(g, r.node, d)) <==>
      !(g.physical[d].resolved && g.physical[d].id.Some? && g.physical[d].hasPath)
  {
    IdentityFailuresAreIsolated(g, k, d);
    hide Trace;
    var traces := Traces(g);
    forall n ensures Separate(traces, n, d) == Apart(g, n, d) {
    }
    assert OwnerReasons(traces, k, d) == set r | r in Trace(g, k).reasons && !Apart(g, r.node, d);
    if r :| r in Trace(g, k).reasons && !Apart(g, r.node, d) {
      assert r in OwnerReasons(traces, k, d);
    }
    if OwnerReasons(traces, k, d) != {} {
      var r :| r in OwnerReasons(traces, k, d);
    }
  }

  /** Where the walk sees all that rests on `d`, its suspicions are exactly the doubts
      that the backing paths give. */
  lemma SuspectIsDoubtful(inv: Snapshot, ev: Evidence, g: Graph, d: Key)
    requires d in Blocks(inv.nodes) && d in g.nodes && d in g.physical && g.physical[d] == EndpointOf(Blocks(inv.nodes)[d])
    requires SeenAbove(g, d)
    ensures Suspect(ev, g, d) <==> Doubtful(ev, g, Blocks(inv.nodes)[d], d)
  {
    hide Trace, Reaches, SoundBacking, Bounded, Blocks, Apart;
    forall k ensures Names(g, k, d) <==> Above(g, k, d) {
      NamesIsAbove(g, k, d);
    }
    if k :| Above(g, k, d) && !SoundBacking(g, k) {
      UnsoundIsSuspect(ev, g, k, d);
    }
    if k, r :| Names(g, k, d) && r in Trace(g, k).reasons && !Apart(g, r.node, d) {
      if SoundBacking(g, k) {
        SoundIsStructural(g, k);
        SoundReasons(g, k, d);
      }
    }
    if !Identified(Blocks(inv.nodes)[d]) {
      UnidentifiedIsSuspect(ev, g, d);
    }
  }

  lemma SoundIsStructural(g: Graph, k: Key)
    requires SeenWhole(g, k) && SoundBacking(g, k)
    ensures Trace(g, k).structural
  {
    hide Trace, Bounded, SoundBacking;
    if Bounded(g, k) {
      BoundedTraceIsExact(g, k);
    }
  }

  lemma UnsoundIsSuspect(ev: Evidence, g: Graph, k: Key, d: Key)
    requires Names(g, k, d) && SeenWhole(g, k) && !SoundBacking(g, k)
    ensures Suspect(ev, g, d)
  {
    hide Trace, Bounded, SoundBacking;
    if Trace(g, k).structural {
      StructuralTraceIsExact(g, k);
      assert false;
    }
    BreakIsReported(g, k);
    var r :| r in Trace(g, k).reasons && !SoundBacking(g, r.node);
    if Apart(g, r.node, d) {
      StructuralTraceIsExact(g, r.node);
      assert false;
    }
  }

  lemma UnidentifiedIsSuspect(ev: Evidence, g: Graph, d: Key)
    requires d in g.nodes && d in g.physical
    requires !(g.physical[d].resolved && g.physical[d].id.Some? && g.physical[d].hasPath)
    ensures Suspect(ev, g, d)
  {
    EndpointTrace(g, d);
    hide Trace;
    var r := if !g.physical[d].hasPath then NoPath(d) else NoIdentity(d);
    assert r in g.LocalReasons(d) && r.node == d;
    assert Names(g, d, d) && r in Trace(g, d).reasons && !Apart(g, r.node, d);
  }

  // The status of a device

  lemma UsesByPaths(inv: Snapshot, ev: Evidence, g: Graph, d: Key)
    requires d in g.physical && SeenAbove(g, d)
    ensures Engaged(Claims(inv, ev), g, d) <==> InUse(inv, ev, g, d)
    ensures Opened(Claims(inv, ev), g, d) <==> HeldOpen(ev, g, d)
  {
    hide Trace, Reaches, Bounded, Blocks, SeenAbove, Names, Above, Claims, ClaimedBy, InUse;
    forall k ensures Names(g, k, d) <==> Above(g, k, d) {
      NamesIsAbove(g, k, d);
    }
    ClaimsAre(inv, ev);
    forall c | ClaimedBy(inv, ev, c) && Above(g, c.consumer, d) ensures if OpenOnly(c.use) then c in ev.claims else InUse(inv, ev, g, d) {
      ClaimUses(inv, ev, g, d, c);
    }
    if InUse(inv, ev, g, d) {
      var c := UseClaims(inv, ev, g, d);
    }
    if c :| c in ev.claims && OpenOnly(c.use) && Above(g, c.consumer, d) {
      assert ClaimedBy(inv, ev, c) by {
        ReportedIsClaimed(inv, ev, c);
      }
    }
  }

  lemma ReportedIsClaimed(inv: Snapshot, ev: Evidence, c: Claim)
    requires c in ev.claims
    ensures ClaimedBy(inv, ev, c)
  {
    hide Blocks, FreshClaim, MountClaim, SwapClaim;
  }

  /** A claim that is not reported stands for a use that is not an open handle. */
  lemma ClaimUses(inv: Snapshot, ev: Evidence, g: Graph, d: Key, c: Claim)
    requires ClaimedBy(inv, ev, c) && Above(g, c.consumer, d)
    ensures if OpenOnly(c.use) then c in ev.claims else InUse(inv, ev, g, d)
  {
    hide Above, Blocks;
  }

  /** And each such use is claimed. */
  lemma UseClaims(inv: Snapshot, ev: Evidence, g: Graph, d: Key) returns (c: Claim)
    requires InUse(inv, ev, g, d)
    ensures ClaimedBy(inv, ev, c) && !OpenOnly(c.use) && Above(g, c.consumer, d)
  {
    hide Above, Blocks;
    if r :| r in ev.claims && !OpenOnly(r.use) && Above(g, r.consumer, d) {
      c := r;
    } else if k :| k in ev.signatures && k in Blocks(inv.nodes) && ev.signatures[k].state == Membership && Above(g, k, d) {
      c := FreshClaim(k, ev.signatures[k]);
    } else if i :| 0 <= i < |inv.mounts| && inv.mounts[i].node.Some? && Above(g, "block:" + inv.mounts[i].node.value, d) {
      c := MountClaim(inv.mounts[i]);
    } else {
      var i :| 0 <= i < |inv.swaps| && inv.swaps[i].node.Some? && Above(g, "block:" + inv.swaps[i].node.value, d);
      c := SwapClaim(inv.swaps[i]);
    }
  }

  ghost predicate ClaimedBy(inv: Snapshot, ev: Evidence, c: Claim) {
    || c in ev.claims
    || (exists k :: k in ev.signatures && k in Blocks(inv.nodes) && ev.signatures[k].state == Membership && c == FreshClaim(k, ev.signatures[k]))
    || (exists i :: 0 <= i < |inv.mounts| && inv.mounts[i].node.Some? && c == MountClaim(inv.mounts[i]))
    || (exists i :: 0 <= i < |inv.swaps| && inv.swaps[i].node.Some? && c == SwapClaim(inv.swaps[i]))
  }

  lemma ClaimsAre(inv: Snapshot, ev: Evidence)
    ensures forall c :: c in Claims(inv, ev) <==> ClaimedBy(inv, ev, c)
  {
    hide Blocks, FreshClaim, MountClaim, SwapClaim;
  }

  /** Wherever the walk sees all that rests on a device, its status is this: Unknown in
      doubt; else Protected exactly when it is read-only or in use; else Busy exactly when
      it is held open; else Ready or Unknown, as the checks come out. */
  lemma StatusIsExact(inv: Snapshot, ev: Evidence, d: Key)
    requires Candidate(inv, AllPhysical, d) && SeenAbove(OwnershipGraph(inv, ev), d)
    ensures var g, b := OwnershipGraph(inv, ev), Blocks(inv.nodes)[d];
      var doubt, kept := Doubtful(ev, g, b, d), b.observation.readOnly == Some(true) || InUse(inv, ev, g, d);
      && (Status(inv, ev, d) == Protected <==> !doubt && kept)
      && (Status(inv, ev, d) == Busy <==> !doubt && !kept && HeldOpen(ev, g, d))
      && (doubt ==> Status(inv, ev, d) == Unknown)
  {
    hide OwnershipGraph, Status, Suspect, Doubtful, Engaged, Opened, InUse, HeldOpen, Claims, Blocks;
    StatusByTraces(inv, ev, d);
    BlocksAreNodes(inv, ev, d);
    GraphOfBlocks(inv, ev, d);
    SuspectIsDoubtful(inv, ev, OwnershipGraph(inv, ev), d);
    UsesByPaths(inv, ev, OwnershipGraph(inv, ev), d);
  }

  // A node directly on a device

  lemma VisitEndpoint(g: Graph, d: Key, depth: nat, active: set<Key>, w: Walk)
    requires d in g.physical && depth <= DEPTH_LIMIT && d !in active && OwnersMatch(g, w)
    ensures d in Visit(g, d, depth, active, w).owners
  {
  }

  lemma {:induction false} VisitAllEndpoint(g: Graph, ks: seq<Key>, d: Key, depth: nat, active: set<Key>, w: Walk)
    requires d in ks && d in g.physical && depth <= DEPTH_LIMIT && d !in active && OwnersMatch(g, w)
    ensures d in VisitAll(g, ks, depth, active, w).owners
    decreases |ks|
  {
    hide Visit;
    var w1 := Visit(g, ks[0], depth, active, w);
    VisitContinues(g, ks[0], depth, active, w);
    if ks[0] == d {
      VisitEndpoint(g, d, depth, active, w);
      VisitAllContinues(g, ks[1..], depth, active, w1);
    } else {
      VisitAllEndpoint(g, ks[1..], d, depth, active, w1);
    }
  }

  /** Cycles and depth cannot hide an endpoint from a node that is linked to it. */
  lemma DirectlyNamed(g: Graph, k: Key, d: Key)
    requires k in g.nodes && d in g.physical && (k == d || Follows(g, k, d))
    ensures Names(g, k, d)
  {
    EndpointTrace(g, d);
    if k != d {
      assert OwnersMatch(g, Enter(g, k, NOTHING));
      VisitAllEndpoint(g, g.ProvidersOf(k), d, 1, {k}, Enter(g, k, NOTHING));
      assert {} + {k} == {k};
    }
  }

  /** `k` is the device or a partition of it. */
  predicate OnDevice(inv: Snapshot, k: Key, d: Key) {
    k in Blocks(inv.nodes) && (k == d || PartOf(Blocks(inv.nodes), k, d))
  }

  /** It is, or it rests on the device and the walk sees all that backs it. */
  ghost predicate RestsOn(inv: Snapshot, g: Graph, k: Key, d: Key) {
    OnDevice(inv, k, d) || (Above(g, k, d) && SeenWhole(g, k))
  }

  lemma OnDeviceNamed(inv: Snapshot, ev: Evidence, k: Key, d: Key)
    requires Candidate(inv, AllPhysical, d) && OnDevice(inv, k, d)
    ensures Names(OwnershipGraph(inv, ev), k, d)
  {
    BlocksAreNodes(inv, ev, k);
    GraphOfBlocks(inv, ev, d);
    if k != d {
      FollowsIs(inv, ev, k, d);
    }
    DirectlyNamed(OwnershipGraph(inv, ev), k, d);
  }

  /** Whatever else is known, a mount attributed to a device or to one of its partitions
      leaves it Protected or, in doubt, Unknown: never Busy, never Ready. The same holds
      of whatever else rests on the device where the walk sees all that backs it. */
  lemma MountedIsNotFree(inv: Snapshot, ev: Evidence, i: nat, k: Key, d: Key)
    requires Candidate(inv, AllPhysical, d) && i < |inv.mounts| && inv.mounts[i].node.Some?
    requires k == "block:" + inv.mounts[i].node.value
    requires RestsOn(inv, OwnershipGraph(inv, ev), k, d)
    ensures Status(inv, ev, d) in {Protected, Unknown}
    ensures Status(inv, ev, d) == Protected <==> !Suspect(ev, OwnershipGraph(inv, ev), d)
  {
    hide OwnershipGraph, Status, Suspect, Claims, Blocks, Candidate;
    NamedWhereSeen(inv, ev, k, d);
    StatusByTraces(inv, ev, d);
    MountIsClaimed(inv, ev, i);
    assert Engaged(Claims(inv, ev), OwnershipGraph(inv, ev), d);
  }

  lemma SwappedIsNotFree(inv: Snapshot, ev: Evidence, i: nat, k: Key, d: Key)
    requires Candidate(inv, AllPhysical, d) && i < |inv.swaps| && inv.swaps[i].node.Some?
    requires k == "block:" + inv.swaps[i].node.value
    requires RestsOn(inv, OwnershipGraph(inv, ev), k, d)
    ensures Status(inv, ev, d) in {Protected, Unknown}
    ensures Status(inv, ev, d) == Protected <==> !Suspect(ev, OwnershipGraph(inv, ev), d)
  {
    hide OwnershipGraph, Status, Suspect, Claims, Blocks, Candidate;
    NamedWhereSeen(inv, ev, k, d);
    StatusByTraces(inv, ev, d);
    SwapIsClaimed(inv, ev, i);
    assert Engaged(Claims(inv, ev), OwnershipGraph(inv, ev), d);
  }

  lemma NamedWhereSeen(inv: Snapshot, ev: Evidence, k: Key, d: Key)
    requires Candidate(inv, AllPhysical, d)
    requires RestsOn(inv, OwnershipGraph(inv, ev), k, d)
    ensures Names(OwnershipGraph(inv, ev), k, d)
  {
    hide OwnershipGraph, Blocks, Trace, Bounded, Reaches;
    var g := OwnershipGraph(inv, ev);
    GraphOfBlocks(inv, ev, d);
    if OnDevice(inv, k, d) {
      OnDeviceNamed(inv, ev, k, d);
    } else if Bounded(g, k) {
      BoundedTraceIsExact(g, k);
      assert Backs(g, d, k);
    } else {
      StructuralTraceIsExact(g, k);
      assert Backs(g, d, k);
    }
  }

  lemma MountIsClaimed(inv: Snapshot, ev: Evidence, i: nat)
    requires i < |inv.mounts| && inv.mounts[i].node.Some?
    ensures exists c :: c in Claims(inv, ev) && c.consumer == "block:" + inv.mounts[i].node.value && !OpenOnly(c.use)
  {
    hide InitialClaims, SwapClaims;
    assert MountClaim(inv.mounts[i]) in Claims(inv, ev);
  }

  lemma SwapIsClaimed(inv: Snapshot, ev: Evidence, i: nat)
    requires i < |inv.swaps| && inv.swaps[i].node.Some?
    ensures exists c :: c in Claims(inv, ev) && c.consumer == "block:" + inv.swaps[i].node.value && !OpenOnly(c.use)
  {
    hide InitialClaims, MountClaims;
    assert SwapClaim(inv.swaps[i]) in Claims(inv, ev);
  }

  // What traces report

  /** What is wrong at `m` itself. */
  ghost predicate FailsAt(g: Graph, m: Key, r: Reason) {
    || (!(m in g.nodes && g.nodes[m]) && (r == Reason(MissingRelationship, m, "graph", "incomplete node") || (r in g.issues && r.node == m)))
    || (m in g.physical && !(g.physical[m].resolved && g.physical[m].id.Some?) && r == Reason(IdentityUnavailable, m, "identity", "no stable id"))
    || (m in g.physical && !g.physical[m].hasPath && r == Reason(PathUnavailable, m, "identity", "no path"))
    || (m !in g.physical && g.ProvidersOf(m) == [] && r == Reason(MissingRelationship, m, "graph", "no backing"))
  }

  lemma FailsAtIs(g: Graph, m: Key, r: Reason)
    ensures FailsAt(g, m, r) <==> r in g.LocalReasons(m)
  {
  }

  /** Where the walk sees all that backs a node, its trace names exactly the endpoints that
      back it, and reports everything wrong with anything that does; beyond that it
      reports cycles only, and only if the backing is not sound. */
  lemma TracesReport(g: Graph, k: Key)
    requires SeenWhole(g, k)
    ensures forall d :: d in Trace(g, k).owners <==> Backs(g, d, k)
    ensures forall m, r :: Reaches(g, k, m) && FailsAt(g, m, r) ==> r in Trace(g, k).reasons
    ensures forall r :: r in Trace(g, k).reasons ==>
      (Reaches(g, k, r.node) && FailsAt(g, r.node, r)) || (!SoundBacking(g, k) && r == Reason(Cycle, r.node, "graph", "cycle or depth"))
    ensures Trace(g, k).reasons == {} <==> SoundBacking(g, k) && forall d :: Backs(g, d, k) ==> g.EndpointReasons(d) == {}
  {
    hide Trace, Reaches, Bounded, SoundBacking, OnCycle, FailsAt;
    TraceBasics(g, k);
    ExactOwners(g, k);
    forall m, r ensures FailsAt(g, m, r) <==> r in g.LocalReasons(m) {
      FailsAtIs(g, m, r);
    }
    forall r | r in Trace(g, k).reasons
      ensures (Reaches(g, k, r.node) && FailsAt(g, r.node, r)) || (!SoundBacking(g, k) && r == Reason(Cycle, r.node, "graph", "cycle or depth"))
    {
      assert Explained(g, Trace(g, k), r);
    }
    hide Explained;
    QuietIsSound(g, k);
  }

  lemma ExactOwners(g: Graph, k: Key)
    requires SeenWhole(g, k)
    ensures Trace(g, k).structural <==> SoundBacking(g, k)
    ensures forall d :: d in Trace(g, k).owners <==> Backs(g, d, k)
    ensures forall v :: v in Trace(g, k).visited <==> Reaches(g, k, v)
  {
    hide Trace, Bounded, SoundBacking, Reaches;
    if Bounded(g, k) {
      BoundedTraceIsExact(g, k);
    } else {
      StructuralTraceIsExact(g, k);
    }
  }

  lemma QuietIsSound(g: Graph, k: Key)
    requires SeenWhole(g, k)
    ensures Trace(g, k).reasons == {} <==> SoundBacking(g, k) && forall d :: Backs(g, d, k) ==> g.EndpointReasons(d) == {}
  {
    hide Trace, Reaches, Bounded, OnCycle;
    TraceBasics(g, k);
    ExactOwners(g, k);
    forall d | Backs(g, d, k) ensures g.EndpointReasons(d) <= Trace(g, k).reasons {
      assert g.EndpointReasons(d) <= g.LocalReasons(d) <= Trace(g, k).reasons;
    }
    if !SoundBacking(g, k) {
      assert !Trace(g, k).structural;
    }
    forall r | r in Trace(g, k).reasons ensures !SoundBacking(g, k) || (Backs(g, r.node, k) && g.EndpointReasons(r.node) != {}) {
      ReasonMeans(g, k, r);
    }
  }

  lemma ReasonMeans(g: Graph, k: Key, r: Reason)
    requires SeenWhole(g, k) && r in Trace(g, k).reasons
    ensures !SoundBacking(g, k) || (Backs(g, r.node, k) && g.EndpointReasons(r.node) != {})
  {
    hide Trace, Reaches, Bounded, OnCycle;
    TraceBasics(g, k);
    ExactOwners(g, k);
    assert Explained(g, Trace(g, k), r);
  }

  /** The recorded trace of a node says the same. */
  lemma TracesTell(out: Assessment, inv: Snapshot, ev: Evidence, scope: AssessmentScope, k: Key)
    requires Represents(out, inv, ev, scope) && k in out.traces && SeenWhole(OwnershipGraph(inv, ev), k)
    ensures var g := OwnershipGraph(inv, ev);
      && (forall o :: o in out.traces[k].owners ==>
           o.node in g.physical && Backs(g, o.node, k) && o.id == g.physical[o.node].id && o.scope == g.physical[o.node].scope)
      && (forall d :: Backs(g, d, k) ==> exists o :: o in out.traces[k].owners && o.node == d)
      && (out.traces[k].complete <==> SoundBacking(g, k) && forall d :: Backs(g, d, k) ==> g.EndpointReasons(d) == {})
      && Elements(out.traces[k].reasons) == Trace(g, k).reasons
  {
    hide OwnershipGraph, Trace, Reaches, Bounded, SoundBacking, ListsNodes, RepresentsDevices, Coverage, Edges, Claims, Issues;
    var g := OwnershipGraph(inv, ev);
    ExactOwners(g, k);
    QuietIsSound(g, k);
    assert RepresentsTrace(out.traces[k], g, Trace(g, k));
    OwnersListed(out.traces[k], g, Trace(g, k));
  }

  lemma OwnersListed(t: OwnershipTrace, g: Graph, w: Walk)
    requires RepresentsTrace(t, g, w)
    ensures forall o :: o in t.owners ==>
      && o.node in w.owners && o.node in g.physical
      && o.id == g.physical[o.node].id && o.scope == g.physical[o.node].scope
    ensures forall d :: d in w.owners ==> exists o :: o in t.owners && o.node == d
  {
    hide Ascending;
    forall o | o in t.owners ensures o in Elements(t.owners) {
    }
    forall d | d in w.owners ensures exists o :: o in t.owners && o.node == d {
      assert OwnerOf(g, d) in Elements(t.owners);
      assert OwnerOf(g, d) in t.owners;
    }
  }
}
