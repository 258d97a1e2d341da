/** The assessment as it is computed from the graph: traces, claims, the use
    charged to each device, and the decisions. Every loop is proved to produce
    its part of the specification in `Ownership`. */
module Assessor {
  import opened Inventory
  import opened Canonical
  import opened Backing
  import opened BackingTheory
  import opened Ownership
  import opened Tracing

  // Traces

  /** The recorded traces are those of the graph. */
  ghost predicate Traced(g: Graph, traces: map<Key, OwnershipTrace>, structural: map<Key, bool>) {
    && traces.Keys == structural.Keys == g.nodes.Keys
    && (forall k :: k in traces ==> RepresentsTrace(traces[k], g, Trace(g, k)))
    && (forall k :: k in traces ==> structural[k] == Trace(g, k).structural)
  }

  method SortReasons(found: seq<Reason>) returns (sorted: seq<Reason>)
    ensures Lists(sorted, Elements(found), ReasonKey)
  {
    ReasonKeyInjective();
    NormalizeCorrect(found, ReasonKey);
    sorted := Normalize(found, ReasonKey);
  }

  method SortClaims(found: seq<Claim>) returns (sorted: seq<Claim>)
    ensures Lists(sorted, Elements(found), ClaimKey)
  {
    ClaimKeyInjective();
    NormalizeCorrect(found, ClaimKey);
    sorted := Normalize(found, ClaimKey);
  }

  method ListOwners(g: Graph, keys: seq<Key>) returns (owners: seq<PhysicalOwner>)
    requires Ascending(keys, Bytes) && forall k :: k in keys ==> k in g.physical
    ensures Lists(owners, set k | k in Elements(keys) :: OwnerOf(g, k), OwnerKey)
  {
    owners := [];
    for i := 0 to |keys|
      invariant |owners| == i && forall j :: 0 <= j < i ==> owners[j] == OwnerOf(g, keys[j])
    {
      owners := owners + [OwnerOf(g, keys[i])];
    }
    forall k | k in Elements(keys) ensures OwnerOf(g, k) in owners {
      var j :| 0 <= j < |keys| && keys[j] == k;
      assert owners[j] == OwnerOf(g, k);
    }
    forall o | o in owners ensures o.node in Elements(keys) && o == OwnerOf(g, o.node) {
      var j :| 0 <= j < |owners| && owners[j] == o;
      assert keys[j] in keys;
    }
  }

  method TraceNode(g: Graph, issues: seq<Reason>, key: Key) returns (trace: OwnershipTrace, structural: bool)
    requires Elements(issues) == g.issues
    ensures RepresentsTrace(trace, g, Trace(g, key)) && structural == Trace(g, key).structural
  {
    var tracer := new Tracer(g, issues);
    tracer.Follow(key, 0);
    TraceBasics(g, key);
    assert forall o :: o in tracer.owners <==> o in Elements(tracer.owners);
    var owners := ListOwners(g, tracer.owners);
    var reasons := SortReasons(tracer.reasons);
    ElementsEmpty(tracer.reasons);
    trace := OwnershipTrace(owners, tracer.complete, reasons);
    structural := tracer.structural;
  }

  method TraceAll(g: Graph, issues: seq<Reason>)
    returns (traces: map<Key, OwnershipTrace>, structural: map<Key, bool>)
    requires Elements(issues) == g.issues
    ensures Traced(g, traces, structural)
  {
    traces, structural := map[], map[];
    var rest := g.nodes.Keys;
    hide RepresentsTrace;
    hide Trace;
    hide Elements;
    while rest != {}
      invariant rest <= g.nodes.Keys
      invariant traces.Keys == structural.Keys == g.nodes.Keys - rest
      invariant forall k :: k in traces ==> RepresentsTrace(traces[k], g, Trace(g, k))
      invariant forall k :: k in traces ==> structural[k] == Trace(g, k).structural
    {
      var key :| key in rest;
      rest := rest - {key};
      var t, s := TraceNode(g, issues, key);
      traces, structural := traces[key := t], structural[key := s];
    }
  }

  // Reading recorded traces

  predicate Owned(trace: OwnershipTrace, owner: Key) {
    exists i :: 0 <= i < |trace.owners| && trace.owners[i].node == owner
  }

  predicate Owning(traces: map<Key, OwnershipTrace>, node: Key, owner: Key) {
    node in traces && Owned(traces[node], owner)
  }

  predicate Apart(traces: map<Key, OwnershipTrace>, structural: map<Key, bool>, node: Key, owner: Key)
    requires traces.Keys == structural.Keys
  {
    node in traces && structural[node] && traces[node].owners != [] && !Owned(traces[node], owner)
  }

  lemma OwnedMeans(t: OwnershipTrace, g: Graph, w: Walk)
    requires RepresentsTrace(t, g, w)
    ensures forall d :: Owned(t, d) <==> d in w.owners
    ensures t.owners == [] <==> w.owners == {}
    ensures t.reasons == [] <==> w.reasons == {}
    ensures forall r :: r in t.reasons <==> r in w.reasons
  {
    ElementsEmpty(t.owners);
    ElementsEmpty(t.reasons);
    assert forall r :: r in t.reasons <==> r in Elements(t.reasons);
    forall d | d in w.owners ensures Owned(t, d) {
      assert OwnerOf(g, d) in Elements(t.owners);
    }
    forall d | Owned(t, d) ensures d in w.owners {
      var i :| 0 <= i < |t.owners| && t.owners[i].node == d;
      assert t.owners[i] in Elements(t.owners);
    }
    if d :| d in w.owners {
      assert OwnerOf(g, d) in Elements(t.owners);
    }
  }

  lemma TracedMeans(g: Graph, traces: map<Key, OwnershipTrace>, structural: map<Key, bool>)
    requires Traced(g, traces, structural)
    ensures forall k, d :: Owning(traces, k, d) <==> Owns(Traces(g), k, d)
    ensures forall k, d :: Apart(traces, structural, k, d) <==> Separate(Traces(g), k, d)
    ensures forall k :: k in traces ==> (traces[k].complete <==> Traces(g)[k].reasons == {})
  {
    hide Trace;
    forall k | k in traces
      ensures forall d :: Owned(traces[k], d) <==> d in Trace(g, k).owners
      ensures traces[k].owners == [] <==> Trace(g, k).owners == {}
      ensures traces[k].complete <==> Trace(g, k).reasons == {}
    {
      OwnedMeans(traces[k], g, Trace(g, k));
    }
    hide Owned;
    hide RepresentsTrace;
  }

  /** The reasons of a shared consumer that may concern one owner. */
  method ReasonsFor(ghost g: Graph, traces: map<Key, OwnershipTrace>, structural: map<Key, bool>, key: Key, owner: Key)
    returns (relevant: seq<Reason>)
    requires Traced(g, traces, structural) && key in traces
    ensures Elements(relevant) == OwnerReasons(Traces(g), key, owner)
  {
    relevant := Relevant(traces, structural, traces[key].reasons, owner);
    TracedMeans(g, traces, structural);
    OwnedMeans(traces[key], g, Trace(g, key));
    hide Trace;
    hide Apart;
    hide Separate;
  }

  method Relevant(traces: map<Key, OwnershipTrace>, structural: map<Key, bool>, reasons: seq<Reason>, owner: Key)
    returns (relevant: seq<Reason>)
    requires traces.Keys == structural.Keys
    ensures forall r :: r in relevant <==> r in reasons && !Apart(traces, structural, r.node, owner)
  {
    hide Apart;
    relevant := [];
    for i := 0 to |reasons|
      invariant forall r :: r in relevant <==> r in reasons[..i] && !Apart(traces, structural, r.node, owner)
    {
      assert reasons[..i + 1] == reasons[..i] + [reasons[i]];
      if !Apart(traces, structural, reasons[i].node, owner) {
        relevant := relevant + [reasons[i]];
      }
    }
    assert reasons[..|reasons|] == reasons;
  }

  // Claims

  /** Adds a claim for every inactive or active membership read fresh from a known block. */
  method ClaimMemberships(blocks: map<Key, ResolvedNode>, signatures: map<Key, Fresh>, reported: seq<Claim>)
    returns (claims: seq<Claim>)
    ensures Elements(claims) == Elements(reported) + FreshClaims(blocks, signatures)
  {
    claims := reported;
    var rest := signatures.Keys;
    while rest != {}
      invariant rest <= signatures.Keys
      invariant forall c :: c in claims <==> c in reported || IsFreshClaim(blocks, signatures, rest, c)
    {
      var key :| key in rest;
      rest := rest - {key};
      if signatures[key].state == Membership && key in blocks {
        claims := claims + [FreshClaim(key, signatures[key])];
      }
    }
    assert forall c :: c in FreshClaims(blocks, signatures) <==> IsFreshClaim(blocks, signatures, {}, c);
  }

  predicate IsFreshClaim(blocks: map<Key, ResolvedNode>, signatures: map<Key, Fresh>, rest: set<Key>, c: Claim) {
    var k := c.consumer;
    k in signatures && k !in rest && k in blocks && signatures[k].state == Membership && c == FreshClaim(k, signatures[k])
  }

  /** Adds a claim for every attributed mount, and reports whether some other mount is unexplained. */
  method ClaimMounts(mounts: seq<MountEvidence>, initial: seq<Claim>)
    returns (claims: seq<Claim>, unexplained: bool)
    ensures Elements(claims) == Elements(initial) + MountClaims(mounts)
    ensures unexplained <==> exists i :: 0 <= i < |mounts| && Unexplained(mounts, initial, i)
  {
    claims, unexplained := initial, false;
    hide HarmlessMount;
    hide MountClaim;
    hide MountSource;
    var sources := set c | c in initial :: c.source;
    for i := 0 to |mounts|
      invariant forall c :: c in claims <==> c in initial || IsMountClaim(mounts, i, c)
      invariant forall s :: s in sources <==> IsSource(mounts, initial, i, s)
      invariant unexplained <==> exists j :: 0 <= j < i && Unexplained(mounts, initial, j)
    {
      assert Unexplained(mounts, initial, i) <==>
        mounts[i].node.None? && MountSource(mounts[i]) !in sources && !HarmlessMount(mounts[i]);
      MountRow(mounts, initial, i);
      hide Unexplained;
      hide IsMountClaim;
      hide IsSource;
      if mounts[i].node.None? {
        if MountSource(mounts[i]) !in sources && !HarmlessMount(mounts[i]) {
          unexplained := true;
        }
      } else {
        claims := claims + [MountClaim(mounts[i])];
        sources := sources + {MountSource(mounts[i])};
      }
    }
    assert forall c :: c in MountClaims(mounts) <==> IsMountClaim(mounts, |mounts|, c);
  }

  /** What row `i` adds to the claims and sources seen so far. */
  lemma MountRow(mounts: seq<MountEvidence>, initial: seq<Claim>, i: nat)
    requires i < |mounts|
    ensures forall c :: IsMountClaim(mounts, i + 1, c) <==>
      IsMountClaim(mounts, i, c) || (mounts[i].node.Some? && c == MountClaim(mounts[i]))
    ensures forall s :: IsSource(mounts, initial, i + 1, s) <==>
      IsSource(mounts, initial, i, s) || (mounts[i].node.Some? && s == MountSource(mounts[i]))
  {
    hide MountClaim;
    hide MountSource;
    if mounts[i].node.Some? {
      assert IsMountClaim(mounts, i + 1, MountClaim(mounts[i]));
      assert IsSource(mounts, initial, i + 1, MountSource(mounts[i]));
    }
  }

  predicate IsMountClaim(mounts: seq<MountEvidence>, n: nat, c: Claim)
    requires n <= |mounts|
  {
    exists i :: 0 <= i < n && mounts[i].node.Some? && c == MountClaim(mounts[i])
  }

  /** Some claim known before row `n` carries this source. */
  predicate IsSource(mounts: seq<MountEvidence>, initial: seq<Claim>, n: nat, s: string)
    requires n <= |mounts|
  {
    || (exists c :: c in initial && c.source == s)
    || (exists j :: 0 <= j < n && mounts[j].node.Some? && MountSource(mounts[j]) == s)
  }

  predicate Unexplained(mounts: seq<MountEvidence>, initial: seq<Claim>, i: nat)
    requires i < |mounts|
  {
    mounts[i].node.None? && !IsSource(mounts, initial, i, MountSource(mounts[i])) && !HarmlessMount(mounts[i])
  }

  method ClaimSwaps(swaps: seq<SwapEvidence>, initial: seq<Claim>)
    returns (claims: seq<Claim>, unattributed: bool)
    ensures Elements(claims) == Elements(initial) + SwapClaims(swaps)
    ensures unattributed <==> exists i :: 0 <= i < |swaps| && swaps[i].node.None?
  {
    claims, unattributed := initial, false;
    for i := 0 to |swaps|
      invariant forall c :: c in claims <==> c in initial || IsSwapClaim(swaps, i, c)
      invariant unattributed <==> exists j :: 0 <= j < i && swaps[j].node.None?
    {
      if swaps[i].node.None? {
        unattributed := true;
      } else {
        claims := claims + [SwapClaim(swaps[i])];
      }
    }
    assert forall c :: c in SwapClaims(swaps) <==> IsSwapClaim(swaps, |swaps|, c);
  }

  predicate IsSwapClaim(swaps: seq<SwapEvidence>, n: nat, c: Claim)
    requires n <= |swaps|
  {
    exists i :: 0 <= i < n && swaps[i].node.Some? && c == SwapClaim(swaps[i])
  }

  /** All claims, in order, and whether a mount or swap could not be attributed. */
  method CollectClaims(inv: Snapshot, ev: Evidence, blocks: map<Key, ResolvedNode>)
    returns (claims: seq<Claim>, unattributed: bool)
    requires blocks == Blocks(inv.nodes)
    ensures Lists(claims, Claims(inv, ev), ClaimKey)
    ensures unattributed <==>
      || (exists i :: 0 <= i < |inv.mounts| && inv.mounts[i].node.None? && !MountCovered(inv, ev, i) && !HarmlessMount(inv.mounts[i]))
      || (exists i :: 0 <= i < |inv.swaps| && inv.swaps[i].node.None?)
  {
    var initial := ClaimMemberships(blocks, ev.signatures, ev.claims);
    assert Elements(initial) == InitialClaims(inv, ev);
    SourcesCover(inv, ev, initial);
    hide InitialClaims;
    hide Unexplained;
    hide HarmlessMount;
    hide MountClaims;
    hide SwapClaims;
    hide Elements;
    var mounted, unexplained := ClaimMounts(inv.mounts, initial);
    var all, unswapped := ClaimSwaps(inv.swaps, mounted);
    claims := SortClaims(all);
    unattributed := unexplained || unswapped;
  }

  lemma SourcesCover(inv: Snapshot, ev: Evidence, initial: seq<Claim>)
    requires Elements(initial) == InitialClaims(inv, ev)
    ensures forall i :: 0 <= i < |inv.mounts| ==>
      (Unexplained(inv.mounts, initial, i) <==>
        inv.mounts[i].node.None? && !MountCovered(inv, ev, i) && !HarmlessMount(inv.mounts[i]))
  {
    hide InitialClaims;
    hide HarmlessMount;
    hide MountSource;
    assert forall c :: c in initial <==> c in InitialClaims(inv, ev) by {
      assert forall c :: c in initial <==> c in Elements(initial);
    }
  }

  // Use charged to each owner

  /** Flags and reasons per physical owner, filled in as traces and claims are read. */
  datatype Charges = Charges(
    incomplete: set<Key>,
    protectedUse: set<Key>,
    busyUse: set<Key>,
    reasons: map<Key, seq<Reason>>)
  {
    function ReasonsOf(d: Key): seq<Reason> {
      if d in reasons then reasons[d] else []
    }

    function Charge(d: Key, more: seq<Reason>): Charges {
      this.(reasons := reasons[d := ReasonsOf(d) + more])
    }

    predicate Charged(d: Key, r: Reason) {
      r in ReasonsOf(d)
    }

    lemma ChargeAdds(d: Key, more: seq<Reason>)
      ensures forall e, r :: Charge(d, more).Charged(e, r) <==> Charged(e, r) || (e == d && r in more)
    {
    }
  }

  /** Charges one trace's failures to each of its owners that they may concern. */
  method ChargeTrace(ghost g: Graph, traces: map<Key, OwnershipTrace>, structural: map<Key, bool>, key: Key, before: Charges)
    returns (after: Charges)
    requires Traced(g, traces, structural) && key in traces
    ensures after.protectedUse == before.protectedUse && after.busyUse == before.busyUse
    ensures forall d :: d in after.incomplete <==>
      d in before.incomplete || (Owning(traces, key, d) && OwnerReasons(Traces(g), key, d) != {})
    ensures forall d, r :: after.Charged(d, r) <==>
      before.Charged(d, r) || (Owning(traces, key, d) && r in OwnerReasons(Traces(g), key, d))
  {
    hide Traced;
    hide Traces;
    hide OwnerReasons;
    hide Owning;
    hide Among;
    after := before;
    TracedHas(g, traces, structural, key);
    if traces[key].complete {
      return;
    }
    var owners := traces[key].owners;
    AmongAll(traces, key);
    AmongNone(owners);
    for i := 0 to |owners|
      invariant after.protectedUse == before.protectedUse && after.busyUse == before.busyUse
      invariant forall d :: d in after.incomplete <==>
        d in before.incomplete || (Among(owners, i, d) && OwnerReasons(Traces(g), key, d) != {})
      invariant forall d, r :: after.Charged(d, r) <==>
        before.Charged(d, r) || (Among(owners, i, d) && r in OwnerReasons(Traces(g), key, d))
    {
      OwnerRow(owners, i);
      after := ChargeOwner(g, traces, structural, key, owners[i].node, after);
    }
  }

  method ChargeOwner(ghost g: Graph, traces: map<Key, OwnershipTrace>, structural: map<Key, bool>, key: Key, owner: Key,
                     before: Charges)
    returns (after: Charges)
    requires Traced(g, traces, structural) && key in traces
    ensures after.protectedUse == before.protectedUse && after.busyUse == before.busyUse
    ensures forall d :: d in after.incomplete <==>
      d in before.incomplete || (d == owner && OwnerReasons(Traces(g), key, owner) != {})
    ensures forall d, r :: after.Charged(d, r) <==>
      before.Charged(d, r) || (d == owner && r in OwnerReasons(Traces(g), key, owner))
  {
    hide Traced;
    hide Traces;
    hide OwnerReasons;
    after := before;
    TracedHas(g, traces, structural, key);
    var relevant := ReasonsFor(g, traces, structural, key, owner);
    ElementsEmpty(relevant);
    assert forall r :: r in relevant <==> r in Elements(relevant);
    if relevant != [] {
      after := after.(incomplete := after.incomplete + {owner});
    }
    after.ChargeAdds(owner, relevant);
    after := after.Charge(owner, relevant);
  }

  lemma TracedHas(g: Graph, traces: map<Key, OwnershipTrace>, structural: map<Key, bool>, key: Key)
    requires Traced(g, traces, structural) && key in traces
    ensures key in Traces(g)
    ensures traces[key].complete ==> forall d :: OwnerReasons(Traces(g), key, d) == {}
  {
    TracedMeans(g, traces, structural);
  }

  lemma AmongNone(owners: seq<PhysicalOwner>)
    ensures forall d :: !Among(owners, 0, d)
  {
  }

  lemma OwnerRow(owners: seq<PhysicalOwner>, i: nat)
    requires i < |owners|
    ensures forall d :: Among(owners, i + 1, d) <==> Among(owners, i, d) || d == owners[i].node
  {
    assert Among(owners, i + 1, owners[i].node);
  }

  lemma AmongAll(traces: map<Key, OwnershipTrace>, key: Key)
    requires key in traces
    ensures forall d :: Among(traces[key].owners, |traces[key].owners|, d) <==> Owning(traces, key, d)
  {
    var owners := traces[key].owners;
    forall d ensures Among(owners, |owners|, d) <==> Owned(traces[key], d) {
      if Among(owners, |owners|, d) {
        var i :| 0 <= i < |owners| && owners[i].node == d;
        assert traces[key].owners[i].node == d;
      }
      if Owned(traces[key], d) {
        var i :| 0 <= i < |traces[key].owners| && traces[key].owners[i].node == d;
        assert owners[i].node == d;
      }
    }
  }

  predicate Among(owners: seq<PhysicalOwner>, n: nat, d: Key)
    requires n <= |owners|
  {
    exists i :: 0 <= i < n && owners[i].node == d
  }

  /** Some trace among `done` raises doubt about `d`. */
  ghost predicate DoubtIn(traces: map<Key, Walk>, done: set<Key>, d: Key) {
    exists k :: k in done && Owns(traces, k, d) && OwnerReasons(traces, k, d) != {}
  }

  ghost predicate ReasonIn(traces: map<Key, Walk>, done: set<Key>, d: Key, r: Reason) {
    exists k :: k in done && Owns(traces, k, d) && r in OwnerReasons(traces, k, d)
  }

  lemma DoneGrows(traces: map<Key, Walk>, done: set<Key>, key: Key)
    requires key in traces
    ensures forall d :: DoubtIn(traces, done + {key}, d) <==>
      DoubtIn(traces, done, d) || (Owns(traces, key, d) && OwnerReasons(traces, key, d) != {})
    ensures forall d, r :: ReasonIn(traces, done + {key}, d, r) <==>
      ReasonIn(traces, done, d, r) || (Owns(traces, key, d) && r in OwnerReasons(traces, key, d))
  {
    hide Owns;
    hide OwnerReasons;
  }

  lemma DoneNone(traces: map<Key, Walk>)
    ensures forall d :: !DoubtIn(traces, {}, d)
    ensures forall d, r :: !ReasonIn(traces, {}, d, r)
    ensures forall d :: DoubtIn(traces, traces.Keys, d) <==> Incomplete(traces, d)
  {
  }

  /** Charges every trace's failures. */
  method ChargeTraces(ghost g: Graph, traces: map<Key, OwnershipTrace>, structural: map<Key, bool>) returns (after: Charges)
    requires Traced(g, traces, structural)
    ensures after.protectedUse == {} && after.busyUse == {}
    ensures forall d :: d in after.incomplete <==> Incomplete(Traces(g), d)
    ensures forall d, r :: after.Charged(d, r) <==> ReasonIn(Traces(g), Traces(g).Keys, d, r)
  {
    hide Traced;
    hide Traces;
    hide OwnerReasons;
    hide Owning;
    hide Owns;
    hide DoubtIn;
    hide ReasonIn;
    hide Incomplete;
    TracedKeys(g, traces, structural);
    DoneNone(Traces(g));
    after := Charges({}, {}, {}, map[]);
    var rest := traces.Keys;
    ghost var done: set<Key> := {};
    while rest != {}
      invariant done + rest == traces.Keys
      invariant after.protectedUse == {} && after.busyUse == {}
      invariant forall d :: d in after.incomplete <==> DoubtIn(Traces(g), done, d)
      invariant forall d, r :: after.Charged(d, r) <==> ReasonIn(Traces(g), done, d, r)
      decreases rest
    {
      var key :| key in rest;
      DoneGrows(Traces(g), done, key);
      rest, done := rest - {key}, done + {key};
      after := ChargeTrace(g, traces, structural, key, after);
    }
    assert done == traces.Keys;
  }

  lemma TracedKeys(g: Graph, traces: map<Key, OwnershipTrace>, structural: map<Key, bool>)
    requires Traced(g, traces, structural)
    ensures traces.Keys == Traces(g).Keys
    ensures forall k, d :: Owning(traces, k, d) <==> Owns(Traces(g), k, d)
    ensures forall k, d :: Owning(traces, k, d) ==> k in traces
  {
    TracedMeans(g, traces, structural);
  }

  /** Charges one claim to every owner its consumer rests on. */
  method ChargeClaim(ghost g: Graph, traces: map<Key, OwnershipTrace>, structural: map<Key, bool>, claim: Claim, before: Charges)
    returns (after: Charges)
    requires Traced(g, traces, structural) && claim.consumer in traces
    requires forall d :: d in before.incomplete <==> Incomplete(Traces(g), d)
    ensures after.incomplete == before.incomplete
    ensures forall d :: d in after.protectedUse <==>
      d in before.protectedUse || (Protects(claim.use) && Owning(traces, claim.consumer, d))
    ensures forall d :: d in after.busyUse <==>
      d in before.busyUse || (!Protects(claim.use) && Owning(traces, claim.consumer, d))
    ensures forall d, r :: after.Charged(d, r) <==>
      before.Charged(d, r) || (Owning(traces, claim.consumer, d) && r == ClaimReason(claim))
  {
    hide Traced;
    hide Traces;
    hide Owning;
    hide Among;
    hide Incomplete;
    hide ClaimReason;
    hide Charges.Charged;
    after := before;
    var owners := traces[claim.consumer].owners;
    AmongAll(traces, claim.consumer);
    AmongNone(owners);
    for i := 0 to |owners|
      invariant after.incomplete == before.incomplete
      invariant forall d :: d in after.protectedUse <==> d in before.protectedUse || (Protects(claim.use) && Among(owners, i, d))
      invariant forall d :: d in after.busyUse <==> d in before.busyUse || (!Protects(claim.use) && Among(owners, i, d))
      invariant forall d, r :: after.Charged(d, r) <==> before.Charged(d, r) || (Among(owners, i, d) && r == ClaimReason(claim))
    {
      OwnerRow(owners, i);
      AmongSome(traces, claim.consumer, i);
      after := ChargeUse(g, traces, structural, claim, owners[i].node, after);
    }
  }

  method ChargeUse(ghost g: Graph, traces: map<Key, OwnershipTrace>, structural: map<Key, bool>, claim: Claim, owner: Key,
                   before: Charges)
    returns (after: Charges)
    requires Traced(g, traces, structural) && Owning(traces, claim.consumer, owner)
    requires forall d :: d in before.incomplete <==> Incomplete(Traces(g), d)
    ensures after.incomplete == before.incomplete
    ensures after.protectedUse == if Protects(claim.use) then before.protectedUse + {owner} else before.protectedUse
    ensures after.busyUse == if Protects(claim.use) then before.busyUse else before.busyUse + {owner}
    ensures forall d, r :: after.Charged(d, r) <==> before.Charged(d, r) || (d == owner && r == ClaimReason(claim))
  {
    hide Traced;
    hide Traces;
    hide Owns;
    hide Incomplete;
    hide OwnerReasons;
    hide ClaimReason;
    TracedKeys(g, traces, structural);
    before.ChargeAdds(owner, [ClaimReason(claim)]);
    after := before.Charge(owner, [ClaimReason(claim)]);
    if Protects(claim.use) {
      after := after.(protectedUse := after.protectedUse + {owner});
    } else {
      after := after.(busyUse := after.busyUse + {owner});
    }
    var relevant := ReasonsFor(g, traces, structural, claim.consumer, owner);
    if relevant != [] {
      ElementsEmpty(relevant);
      IncompleteBy(Traces(g), claim.consumer, owner);
      after := after.(incomplete := after.incomplete + {owner});
    }
  }

  lemma AmongSome(traces: map<Key, OwnershipTrace>, key: Key, i: nat)
    requires key in traces && i < |traces[key].owners|
    ensures Owning(traces, key, traces[key].owners[i].node)
  {
  }

  lemma IncompleteBy(traces: map<Key, Walk>, key: Key, owner: Key)
    requires Owns(traces, key, owner) && OwnerReasons(traces, key, owner) != {}
    ensures Incomplete(traces, owner)
  {
  }

  ghost predicate ClaimedBy(claims: set<Claim>, traces: map<Key, Walk>, d: Key, r: Reason) {
    exists c :: c in claims && Owns(traces, c.consumer, d) && r == ClaimReason(c)
  }

  ghost predicate Ungrounded(claims: set<Claim>, traces: map<Key, Walk>) {
    exists c :: c in claims && (c.consumer !in traces || !traces[c.consumer].structural)
  }

  /** What one more claim adds. */
  lemma ClaimAdded(claims: set<Claim>, c: Claim, traces: map<Key, Walk>)
    ensures forall d :: ProtectedUse(claims + {c}, traces, d) <==>
      ProtectedUse(claims, traces, d) || (Protects(c.use) && Owns(traces, c.consumer, d))
    ensures forall d :: BusyUse(claims + {c}, traces, d) <==>
      BusyUse(claims, traces, d) || (!Protects(c.use) && Owns(traces, c.consumer, d))
    ensures forall d, r :: ClaimedBy(claims + {c}, traces, d, r) <==>
      ClaimedBy(claims, traces, d, r) || (Owns(traces, c.consumer, d) && r == ClaimReason(c))
    ensures Ungrounded(claims + {c}, traces) <==>
      Ungrounded(claims, traces) || c.consumer !in traces || !traces[c.consumer].structural
  {
    hide Owns;
    hide ClaimReason;
  }

  lemma ClaimsNone(traces: map<Key, Walk>)
    ensures forall d :: !ProtectedUse({}, traces, d) && !BusyUse({}, traces, d)
    ensures forall d, r :: !ClaimedBy({}, traces, d, r)
    ensures !Ungrounded({}, traces)
  {
  }

  /** Charges every claim, and reports whether one rests on unknown ground. */
  method ChargeClaims(ghost g: Graph, traces: map<Key, OwnershipTrace>, structural: map<Key, bool>, claims: seq<Claim>,
                      before: Charges)
    returns (after: Charges, ungrounded: bool)
    requires Traced(g, traces, structural)
    requires before.protectedUse == {} && before.busyUse == {}
    requires forall d :: d in before.incomplete <==> Incomplete(Traces(g), d)
    ensures after.incomplete == before.incomplete
    ensures forall d :: d in after.protectedUse <==> ProtectedUse(Elements(claims), Traces(g), d)
    ensures forall d :: d in after.busyUse <==> BusyUse(Elements(claims), Traces(g), d)
    ensures forall d, r :: after.Charged(d, r) <==> before.Charged(d, r) || ClaimedBy(Elements(claims), Traces(g), d, r)
    ensures ungrounded <==> Ungrounded(Elements(claims), Traces(g))
  {
    hide Traced;
    hide Traces;
    hide Owning;
    hide Owns;
    hide Incomplete;
    hide ClaimReason;
    hide ProtectedUse;
    hide BusyUse;
    hide ClaimedBy;
    hide Ungrounded;
    hide Protects;
    hide Charges.Charged;
    ghost var ts := Traces(g);
    TracedKeys(g, traces, structural);
    ClaimsNone(ts);
    after, ungrounded := before, false;
    assert Elements(claims[..0]) == {};
    for i := 0 to |claims|
      invariant after.incomplete == before.incomplete
      invariant forall d :: d in after.protectedUse <==> ProtectedUse(Elements(claims[..i]), ts, d)
      invariant forall d :: d in after.busyUse <==> BusyUse(Elements(claims[..i]), ts, d)
      invariant forall d, r :: after.Charged(d, r) <==> before.Charged(d, r) || ClaimedBy(Elements(claims[..i]), ts, d, r)
      invariant ungrounded <==> Ungrounded(Elements(claims[..i]), ts)
    {
      var claim := claims[i];
      assert claims[..i + 1] == claims[..i] + [claim];
      ElementsAppend(claims[..i], claim);
      ClaimAdded(Elements(claims[..i]), claim, ts);
      TracedStructural(g, traces, structural, claim.consumer);
      if claim.consumer !in traces || !structural[claim.consumer] {
        ungrounded := true;
      }
      if claim.consumer in traces {
        after := ChargeClaim(g, traces, structural, claim, after);
      }
    }
    assert claims[..|claims|] == claims;
  }

  lemma TracedStructural(g: Graph, traces: map<Key, OwnershipTrace>, structural: map<Key, bool>, key: Key)
    requires Traced(g, traces, structural)
    ensures traces.Keys == structural.Keys == Traces(g).Keys
    ensures key in traces ==> structural[key] == Traces(g)[key].structural
    ensures key !in traces ==> forall d :: !Owns(Traces(g), key, d)
  {
    hide Trace;
  }
}
