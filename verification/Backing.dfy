/** The ownership graph and the trace walk over it.

    Edges point from a consumer towards what backs it. A walk follows them from
    one node to the physical endpoints, records which endpoints it meets, and
    reports whether the structure it saw is complete. */
module Backing {
  import opened Text
  import opened Inventory

  type Key = string

  datatype Code =
    | ChecksComplete | IdentityUnavailable | PathUnavailable | ReadOnly | Mount
    | SystemRoot | BootFilesystem | HomeFilesystem | ActiveSwap | Holder | LvmMember
    | RaidMember | ZfsMember | ConfiguredStorage | GuestAssignment | OpenBlockHandle | OpenFileHandle
    | MissingSource | MissingRelationship | AsymmetricRelationship | DuplicateNode
    | Cycle | UnsupportedTopology | ConflictingEvidence | SnapshotChanged
    | IncompleteCoverage | SignatureUnavailable | NamespaceScope

  datatype Reason = Reason(code: Code, node: Key, source: string, detail: string)

  /** What the classifier knows of a physical endpoint. */
  datatype Endpoint = Endpoint(id: Option<DriveId>, scope: IdentityScope, resolved: bool, hasPath: bool)

  /** `nodes` maps each key to its completeness flag; `providers` lists each
      consumer's backing nodes in key order. */
  datatype Graph = Graph(
    nodes: map<Key, bool>,
    providers: map<Key, seq<Key>>,
    physical: map<Key, Endpoint>,
    issues: set<Reason>)
  {
    function ProvidersOf(k: Key): seq<Key> {
      if k in providers then providers[k] else []
    }

    predicate Complete(k: Key) {
      k in nodes && nodes[k]
    }

    function IssuesAt(k: Key): set<Reason> {
      set r | r in issues && r.node == k
    }

    /** The identity and path failures of one physical endpoint. */
    function EndpointReasons(k: Key): (r: set<Reason>)
      requires k in physical
    {
      (if physical[k].resolved && physical[k].id.Some? then {} else {NoIdentity(k)})
      + (if physical[k].hasPath then {} else {NoPath(k)})
    }

    /** A node whose own record breaks a trace. */
    predicate Defective(k: Key) {
      !Complete(k) || (k !in physical && ProvidersOf(k) == [])
    }

    /** Everything the walk reports about `k` itself, before following its edges. */
    function LocalReasons(k: Key): set<Reason> {
      (if Complete(k) then {} else {IncompleteNode(k)} + IssuesAt(k))
      + (if k in physical then EndpointReasons(k)
         else if ProvidersOf(k) == [] then {NoBacking(k)} else {})
    }
  }

  function NoIdentity(k: Key): Reason {
    Reason(IdentityUnavailable, k, "identity", "no stable id")
  }

  function NoPath(k: Key): Reason {
    Reason(PathUnavailable, k, "identity", "no path")
  }

  function IncompleteNode(k: Key): Reason {
    Reason(MissingRelationship, k, "graph", "incomplete node")
  }

  function NoBacking(k: Key): Reason {
    Reason(MissingRelationship, k, "graph", "no backing")
  }

  function CycleAt(k: Key): Reason {
    Reason(Cycle, k, "graph", "cycle or depth")
  }

  const DEPTH_LIMIT: nat := 256

  /** What a walk has recorded so far. `structural` is the topology flag: it
      drops on cycles, missing nodes and missing backing, but not on endpoint
      identity or path failures. */
  datatype Walk = Walk(visited: set<Key>, owners: set<Key>, structural: bool, reasons: set<Reason>)

  const NOTHING: Walk := Walk({}, {}, true, {})

  /** One call of the recursive walk. `active` holds the nodes still being expanded. */
  function Visit(g: Graph, k: Key, depth: nat, active: set<Key>, w: Walk): Walk
    requires depth <= DEPTH_LIMIT + 1
    decreases DEPTH_LIMIT + 1 - depth, 0, 0
  {
    if depth > DEPTH_LIMIT || k in active then
      w.(structural := false, reasons := w.reasons + {CycleAt(k)})
    else if k in w.visited then
      w
    else
      var w1 := Enter(g, k, w);
      var w2 := if k in g.physical then w1 else VisitAll(g, g.ProvidersOf(k), depth + 1, active + {k}, w1);
      w2.(visited := w2.visited + {k})
  }

  function Enter(g: Graph, k: Key, w: Walk): Walk {
    Walk(w.visited,
         if k in g.physical then w.owners + {k} else w.owners,
         w.structural && !g.Defective(k),
         w.reasons + g.LocalReasons(k))
  }

  function VisitAll(g: Graph, ks: seq<Key>, depth: nat, active: set<Key>, w: Walk): Walk
    requires depth <= DEPTH_LIMIT + 1
    decreases DEPTH_LIMIT + 1 - depth, 1, |ks|
  {
    if ks == [] then w
    else VisitAll(g, ks[1..], depth, active, Visit(g, ks[0], depth, active, w))
  }

  /** The trace of one consumer. */
  function Trace(g: Graph, k: Key): Walk {
    Visit(g, k, 0, {}, NOTHING)
  }
}
