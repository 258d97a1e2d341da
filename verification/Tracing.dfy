/** The recursive trace walk as it is computed, updating its owners, flags and
    reasons in place, and proved to produce what `Visit` specifies. */
module Tracing {
  import opened Canonical
  import opened Backing

  /** The state the recursive trace walk updates in place. */
  class Tracer {
    const graph: Graph
    const issues: seq<Reason>
    var active: set<Key>
    var visited: set<Key>
    var owners: seq<Key>
    var structural: bool
    var complete: bool
    var reasons: seq<Reason>

    ghost predicate Valid()
      reads this
    {
      Elements(issues) == graph.issues && Ascending(owners, Bytes) && complete == (reasons == [])
    }

    ghost function State(): Walk
      reads this
    {
      Walk(visited, Elements(owners), structural, Elements(reasons))
    }

    constructor (graph: Graph, issues: seq<Reason>)
      requires Elements(issues) == graph.issues
      ensures Valid() && this.graph == graph && active == {} && State() == NOTHING
    {
      this.graph := graph;
      this.issues := issues;
      active, visited, owners, reasons := {}, {}, [], [];
      structural, complete := true, true;
    }

    method Report(reason: Reason)
      requires Valid()
      modifies `complete, `reasons
      ensures Valid() && State() == old(State()).(reasons := old(State()).reasons + {reason})
    {
      complete := false;
      ElementsAppend(reasons, reason);
      reasons := reasons + [reason];
    }

    /** Follows backing edges from `current`, with the result `Visit` specifies. */
    method Follow(current: Key, depth: nat)
      requires Valid() && depth <= DEPTH_LIMIT + 1
      modifies this
      ensures Valid() && active == old(active)
      ensures State() == Visit(graph, current, depth, active, old(State()))
      decreases DEPTH_LIMIT + 1 - depth, 1
    {
      if depth > DEPTH_LIMIT || current in active {
        structural := false;
        Report(CycleAt(current));
        return;
      }
      if current in visited {
        return;
      }
      Arrive(current);
      hide Enter;
      if current !in graph.physical {
        Expand(current, depth);
      }
      visited := visited + {current};
    }

    /** Follows every backing edge of `current`, holding it active meanwhile. */
    method Expand(current: Key, depth: nat)
      requires Valid() && depth <= DEPTH_LIMIT && current !in active
      modifies this
      ensures Valid() && active == old(active)
      ensures State() == VisitAll(graph, graph.ProvidersOf(current), depth + 1, old(active) + {current}, old(State()))
      decreases DEPTH_LIMIT + 1 - depth, 0
    {
      var parents := graph.ProvidersOf(current);
      ghost var below := active + {current};
      ghost var goal := VisitAll(graph, parents, depth + 1, below, State());
      active := active + {current};
      hide Visit;
      for i := 0 to |parents|
        invariant Valid() && active == below
        invariant VisitAll(graph, parents[i..], depth + 1, below, State()) == goal
      {
        assert parents[i..][0] == parents[i] && parents[i..][1..] == parents[i + 1..];
        Follow(parents[i], depth + 1);
      }
      active := active - {current};
    }

    /** Records what `current` itself contributes. */
    method Arrive(current: Key)
      requires Valid()
      modifies `owners, `structural, `complete, `reasons
      ensures Valid() && State() == Enter(graph, current, old(State()))
    {
      if !graph.Complete(current) {
        structural := false;
        Report(IncompleteNode(current));
        ReportIssues(current);
      }
      if current in graph.physical {
        ReportEndpoint(current);
      } else if graph.ProvidersOf(current) == [] {
        structural := false;
        Report(NoBacking(current));
      }
      assert State().reasons == old(State()).reasons + graph.LocalReasons(current);
    }

    method ReportEndpoint(current: Key)
      requires Valid() && current in graph.physical
      modifies `owners, `complete, `reasons
      ensures Valid()
      ensures State() == old(State()).(owners := old(State()).owners + {current},
                                       reasons := old(State()).reasons + graph.EndpointReasons(current))
    {
      InsertKey(current, owners);
      hide Insert;
      hide Ascending;
      owners := Insert(current, owners, Bytes);
      var endpoint := graph.physical[current];
      if !endpoint.resolved || endpoint.id.None? {
        Report(NoIdentity(current));
      }
      if !endpoint.hasPath {
        Report(NoPath(current));
      }
    }

    method ReportIssues(current: Key)
      requires Valid() && reasons != []
      modifies `complete, `reasons
      ensures Valid()
      ensures State() == old(State()).(reasons := old(State()).reasons + graph.IssuesAt(current))
    {
      for i := 0 to |issues|
        invariant complete == old(complete) && reasons != []
        invariant forall r :: r in reasons <==> r in old(reasons) || (r in issues[..i] && r.node == current)
      {
        assert issues[..i + 1] == issues[..i] + [issues[i]];
        if issues[i].node == current {
          reasons := reasons + [issues[i]];
        }
      }
      assert issues[..|issues|] == issues;
      assert forall r :: r in graph.issues <==> r in issues by {
        assert forall r :: r in Elements(issues) <==> r in issues;
      }
      assert Elements(reasons) == old(Elements(reasons)) + graph.IssuesAt(current);
    }
  }
}
