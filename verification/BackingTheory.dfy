/** Backing paths, and what the trace walk finds on them. */
module BackingTheory {
  import opened Canonical
  import opened Backing

  /** A backing edge that traces follow: nothing is followed out of a physical endpoint. */
  predicate Follows(g: Graph, a: Key, b: Key) {
    a !in g.physical && b in g.ProvidersOf(a)
  }

  ghost predicate IsPath(g: Graph, p: seq<Key>) {
    p != [] && forall i :: 0 <= i < |p| - 1 ==> Follows(g, p[i], p[i + 1])
  }

  ghost predicate Connects(g: Graph, p: seq<Key>, a: Key, b: Key) {
    IsPath(g, p) && p[0] == a && p[|p| - 1] == b
  }

  ghost predicate Reaches(g: Graph, a: Key, b: Key) {
    exists p :: Connects(g, p, a, b)
  }

  /** `k` backs itself. */
  ghost predicate OnCycle(g: Graph, k: Key) {
    exists m :: Follows(g, k, m) && Reaches(g, m, k)
  }

  ghost predicate Simple(p: seq<Key>) {
    forall i, j :: 0 <= i < j < |p| ==> p[i] != p[j]
  }

  ghost predicate SimpleFrom(g: Graph, p: seq<Key>, k: Key) {
    IsPath(g, p) && p[0] == k && Simple(p)
  }

  /** No simple backing path from `k` has more than the 256 edges that a walk follows. */
  ghost predicate Bounded(g: Graph, k: Key) {
    forall p :: SimpleFrom(g, p, k) ==> |p| - 1 <= 256
  }

  /** Nothing reachable from `k` is missing, incomplete, unbacked or on a cycle. */
  ghost predicate SoundBacking(g: Graph, k: Key) {
    forall m :: Reaches(g, k, m) ==> !g.Defective(m) && !OnCycle(g, m)
  }

  /** The physical endpoints that back `k`. */
  ghost predicate Backs(g: Graph, d: Key, k: Key) {
    d in g.physical && Reaches(g, k, d)
  }

  // Paths

  lemma ReachesSelf(g: Graph, a: Key)
    ensures Reaches(g, a, a)
  {
    assert Connects(g, [a], a, a);
  }

  lemma PathReaches(g: Graph, p: seq<Key>, i: nat, j: nat)
    requires IsPath(g, p) && i <= j < |p|
    ensures Reaches(g, p[i], p[j])
  {
    assert Connects(g, p[i..j + 1], p[i], p[j]);
  }

  lemma ReachesTransitive(g: Graph, a: Key, b: Key, c: Key)
    requires Reaches(g, a, b) && Reaches(g, b, c)
    ensures Reaches(g, a, c)
  {
    var p :| Connects(g, p, a, b);
    var q :| Connects(g, q, b, c);
    assert Connects(g, p + q[1..], a, c);
  }

  lemma ReachesStep(g: Graph, a: Key, b: Key, c: Key)
    requires Follows(g, a, b) && Reaches(g, b, c)
    ensures Reaches(g, a, c)
  {
    assert Connects(g, [a, b], a, b);
    ReachesTransitive(g, a, b, c);
  }

  /** Every edge out of `s` leads back into `s` or into `open`. */
  ghost predicate Closed(g: Graph, s: set<Key>, open: set<Key>) {
    forall v, m :: v in s && Follows(g, v, m) ==> m in s || m in open
  }

  lemma ClosedReaches(g: Graph, s: set<Key>, a: Key, b: Key)
    requires Closed(g, s, {}) && a in s && Reaches(g, a, b)
    ensures b in s
  {
    var p :| Connects(g, p, a, b);
    ClosedPath(g, s, p, |p| - 1);
  }

  lemma {:induction false} ClosedPath(g: Graph, s: set<Key>, p: seq<Key>, i: nat)
    requires Closed(g, s, {}) && IsPath(g, p) && p[0] in s && i < |p|
    ensures p[i] in s
  {
    if i > 0 {
      ClosedPath(g, s, p, i - 1);
      assert Follows(g, p[i - 1], p[i - 1 + 1]);
    }
  }

  // What one call of the walk keeps

  /** The owners are exactly the visited endpoints. */
  ghost predicate OwnersMatch(g: Graph, w: Walk) {
    forall o :: o in w.owners <==> o in w.visited && o in g.physical
  }

  /** `to` continues `from`: nothing is forgotten, whatever is new lies below one
      of `roots` and outside `active`, and every new reason is explained. */
  ghost predicate Continues(g: Graph, roots: seq<Key>, active: set<Key>, from: Walk, to: Walk) {
    && from.visited <= to.visited
    && from.owners <= to.owners
    && from.reasons <= to.reasons
    && (to.structural ==> from.structural)
    && (from.structural && !to.structural ==> to.reasons != {})
    && (OwnersMatch(g, from) ==> OwnersMatch(g, to))
    && (forall v :: v in to.visited && v !in from.visited ==> v !in active && Below(g, roots, v))
    && (forall v :: v in to.visited && v !in from.visited ==> g.LocalReasons(v) <= to.reasons)
    && (forall r :: r in to.reasons && r !in from.reasons ==> Explained(g, to, r))
  }

  ghost predicate Below(g: Graph, roots: seq<Key>, v: Key) {
    exists k :: k in roots && Reaches(g, k, v)
  }

  ghost predicate Explained(g: Graph, w: Walk, r: Reason) {
    (r.node in w.visited && r in g.LocalReasons(r.node)) || (!w.structural && r == CycleAt(r.node))
  }

  lemma LocalReasonsNamed(g: Graph, k: Key)
    ensures forall r :: r in g.LocalReasons(k) ==> r.node == k
    ensures g.Defective(k) ==> g.LocalReasons(k) != {}
  {
    if !g.Complete(k) {
      assert IncompleteNode(k) in g.LocalReasons(k);
    } else if k !in g.physical && g.ProvidersOf(k) == [] {
      assert NoBacking(k) in g.LocalReasons(k);
    }
  }

  /** Visiting `k` itself, then everything below it, then marking it visited. */
  lemma ContinuesThrough(g: Graph, k: Key, active: set<Key>, w: Walk, below: Walk)
    requires k !in active && k !in w.visited
    requires if k in g.physical then below == Enter(g, k, w)
             else Continues(g, g.ProvidersOf(k), active + {k}, Enter(g, k, w), below)
    ensures Continues(g, [k], active, w, below.(visited := below.visited + {k}))
  {
    LocalReasonsNamed(g, k);
    ReachesSelf(g, k);
    assert k in [k];
    forall v | v in below.visited && v !in w.visited ensures Reaches(g, k, v) {
      var m :| m in g.ProvidersOf(k) && Reaches(g, m, v);
      ReachesStep(g, k, m, v);
    }
  }

  lemma ContinuesTransitive(g: Graph, ks: seq<Key>, active: set<Key>, w: Walk, x: Walk, y: Walk)
    requires ks != [] && Continues(g, [ks[0]], active, w, x) && Continues(g, ks[1..], active, x, y)
    ensures Continues(g, ks, active, w, y)
  {
    forall v | Below(g, [ks[0]], v) || Below(g, ks[1..], v) ensures Below(g, ks, v) {
    }
  }

  lemma {:induction false} VisitContinues(g: Graph, k: Key, depth: nat, active: set<Key>, w: Walk)
    requires depth <= DEPTH_LIMIT + 1
    ensures Continues(g, [k], active, w, Visit(g, k, depth, active, w))
    decreases DEPTH_LIMIT + 1 - depth, 0, 0
  {
    if depth > DEPTH_LIMIT || k in active {
      assert CycleAt(k) in Visit(g, k, depth, active, w).reasons;
    } else if k !in w.visited {
      var w1 := Enter(g, k, w);
      if k in g.physical {
        ContinuesThrough(g, k, active, w, w1);
      } else {
        VisitAllContinues(g, g.ProvidersOf(k), depth + 1, active + {k}, w1);
        ContinuesThrough(g, k, active, w, VisitAll(g, g.ProvidersOf(k), depth + 1, active + {k}, w1));
      }
      hide Continues;
      hide Enter;
    }
  }

  lemma {:induction false} VisitAllContinues(g: Graph, ks: seq<Key>, depth: nat, active: set<Key>, w: Walk)
    requires depth <= DEPTH_LIMIT + 1
    ensures Continues(g, ks, active, w, VisitAll(g, ks, depth, active, w))
    decreases DEPTH_LIMIT + 1 - depth, 1, |ks|
  {
    if ks != [] {
      var w1 := Visit(g, ks[0], depth, active, w);
      VisitContinues(g, ks[0], depth, active, w);
      VisitAllContinues(g, ks[1..], depth, active, w1);
      ContinuesTransitive(g, ks, active, w, w1, VisitAll(g, ks[1..], depth, active, w1));
      hide Continues;
      hide Visit;
    }
  }

  /** While the topology flag stands, the visited set is closed, defect-free and acyclic. */
  ghost predicate Verified(g: Graph, w: Walk) {
    w.structural ==>
      && Closed(g, w.visited, {})
      && forall v :: v in w.visited ==> !g.Defective(v) && !OnCycle(g, v)
  }

  lemma {:induction false} VisitVerified(g: Graph, k: Key, depth: nat, active: set<Key>, w: Walk)
    requires depth <= DEPTH_LIMIT + 1
    requires Verified(g, w) && w.visited !! active
    ensures var to := Visit(g, k, depth, active, w);
      Verified(g, to) && to.visited !! active && (to.structural ==> k in to.visited)
    decreases DEPTH_LIMIT + 1 - depth, 0, 0
  {
    if depth <= DEPTH_LIMIT && k !in active && k !in w.visited {
      var w1 := Enter(g, k, w);
      if k in g.physical {
        NotOnCycle(g, w.visited, k);
      } else {
        var ks := g.ProvidersOf(k);
        VisitAllVerified(g, ks, depth + 1, active + {k}, w1);
        var w2 := VisitAll(g, ks, depth + 1, active + {k}, w1);
        assert w2.structural ==> w1.structural by {
          VisitAllContinues(g, ks, depth + 1, active + {k}, w1);
        }
        if w2.structural {
          NotOnCycle(g, w2.visited, k);
        }
      }
    }
  }

  lemma NotOnCycle(g: Graph, s: set<Key>, k: Key)
    requires k in g.physical || (Closed(g, s, {}) && k !in s && forall m :: m in g.ProvidersOf(k) ==> m in s)
    ensures !OnCycle(g, k)
  {
    if OnCycle(g, k) {
      var m :| Follows(g, k, m) && Reaches(g, m, k);
      ClosedReaches(g, s, m, k);
    }
  }

  lemma {:induction false} VisitAllVerified(g: Graph, ks: seq<Key>, depth: nat, active: set<Key>, w: Walk)
    requires depth <= DEPTH_LIMIT + 1
    requires Verified(g, w) && w.visited !! active
    ensures var to := VisitAll(g, ks, depth, active, w);
      Verified(g, to) && to.visited !! active && (to.structural ==> forall k :: k in ks ==> k in to.visited)
    decreases DEPTH_LIMIT + 1 - depth, 1, |ks|
  {
    if ks != [] {
      var w1 := Visit(g, ks[0], depth, active, w);
      VisitVerified(g, ks[0], depth, active, w);
      VisitAllVerified(g, ks[1..], depth, active, w1);
      VisitAllContinues(g, ks[1..], depth, active, w1);
    }
  }

  // The stack of nodes under expansion is a simple path from the root

  ghost predicate Stack(g: Graph, root: Key, stack: seq<Key>, k: Key) {
    Simple(stack) && Connects(g, stack + [k], root, k)
  }

  lemma StackPush(g: Graph, root: Key, stack: seq<Key>, k: Key, m: Key)
    requires Stack(g, root, stack, k) && k !in stack && Follows(g, k, m)
    ensures Stack(g, root, stack + [k], m) && Elements(stack + [k]) == Elements(stack) + {k}
  {
    var p := stack + [k] + [m];
    assert p[..|p| - 1] == stack + [k];
    forall i | 0 <= i < |p| - 1 ensures Follows(g, p[i], p[i + 1]) {
      if i < |stack| {
        assert (stack + [k])[i] == p[i] && (stack + [k])[i + 1] == p[i + 1];
      }
    }
  }

  lemma StackPushAll(g: Graph, root: Key, stack: seq<Key>, k: Key)
    requires Stack(g, root, stack, k) && k !in stack && k !in g.physical
    ensures forall m :: m in g.ProvidersOf(k) ==> Stack(g, root, stack + [k], m)
    ensures Elements(stack + [k]) == Elements(stack) + {k}
  {
    forall m | m in g.ProvidersOf(k) ensures Stack(g, root, stack + [k], m) {
      StackPush(g, root, stack, k, m);
    }
    ElementsAppend(stack, k);
  }

  lemma StackReaches(g: Graph, root: Key, stack: seq<Key>, k: Key)
    requires Stack(g, root, stack, k)
    ensures Reaches(g, root, k)
    ensures k in stack ==> OnCycle(g, k)
  {
    var p := stack + [k];
    PathReaches(g, p, 0, |stack|);
    if k in stack {
      var i :| 0 <= i < |stack| && stack[i] == k;
      assert p[i] == k && Follows(g, p[i], p[i + 1]);
      PathReaches(g, p, i + 1, |stack|);
    }
  }

  /** The depth limit cannot be what stops a walk whose simple paths are short. */
  lemma BoundedStack(g: Graph, root: Key, stack: seq<Key>, k: Key)
    requires Stack(g, root, stack, k) && k !in stack && Bounded(g, root)
    ensures |stack| <= DEPTH_LIMIT
  {
    assert SimpleFrom(g, stack + [k], root);
  }

  lemma ClosedExtend(g: Graph, s: set<Key>, open: set<Key>, k: Key)
    requires Closed(g, s, open + {k})
    requires forall m :: m in g.ProvidersOf(k) ==> m in s || m in open || m == k
    ensures Closed(g, s + {k}, open)
  {
  }

  lemma {:induction false} VisitClosed(g: Graph, root: Key, k: Key, stack: seq<Key>, w: Walk)
    requires |stack| <= DEPTH_LIMIT + 1 && Stack(g, root, stack, k)
    requires Closed(g, w.visited, Elements(stack))
    requires Bounded(g, root)
    ensures var to := Visit(g, k, |stack|, Elements(stack), w);
      Closed(g, to.visited, Elements(stack)) && (k in to.visited || k in stack)
    decreases DEPTH_LIMIT + 1 - |stack|, 0, 0
  {
    if k !in stack {
      BoundedStack(g, root, stack, k);
      if k !in w.visited && k !in g.physical {
        var w1 := Enter(g, k, w);
        var ks := g.ProvidersOf(k);
        StackPushAll(g, root, stack, k);
        hide Stack;
        assert Closed(g, w1.visited, Elements(stack) + {k});
        VisitAllClosed(g, root, ks, stack + [k], w1);
        ClosedExtend(g, VisitAll(g, ks, |stack| + 1, Elements(stack + [k]), w1).visited, Elements(stack), k);
        hide Closed;
      }
    }
  }

  lemma {:induction false} VisitAllClosed(g: Graph, root: Key, ks: seq<Key>, stack: seq<Key>, w: Walk)
    requires |stack| <= DEPTH_LIMIT + 1 && forall k :: k in ks ==> Stack(g, root, stack, k)
    requires Closed(g, w.visited, Elements(stack))
    requires Bounded(g, root)
    ensures var to := VisitAll(g, ks, |stack|, Elements(stack), w);
      Closed(g, to.visited, Elements(stack)) && forall k :: k in ks ==> k in to.visited || k in stack
    decreases DEPTH_LIMIT + 1 - |stack|, 1, |ks|
  {
    if ks != [] {
      var w1 := Visit(g, ks[0], |stack|, Elements(stack), w);
      VisitClosed(g, root, ks[0], stack, w);
      VisitAllClosed(g, root, ks[1..], stack, w1);
      VisitAllContinues(g, ks[1..], |stack|, Elements(stack), w1);
    }
  }

  lemma {:induction false} VisitStructural(g: Graph, root: Key, k: Key, stack: seq<Key>, w: Walk)
    requires |stack| <= DEPTH_LIMIT + 1 && Stack(g, root, stack, k)
    requires Bounded(g, root) && SoundBacking(g, root) && w.structural
    ensures Visit(g, k, |stack|, Elements(stack), w).structural
    decreases DEPTH_LIMIT + 1 - |stack|, 0, 0
  {
    StackReaches(g, root, stack, k);
    BoundedStack(g, root, stack, k);
    if k !in w.visited && k !in g.physical {
      StackPushAll(g, root, stack, k);
      hide Stack;
      VisitAllStructural(g, root, g.ProvidersOf(k), stack + [k], Enter(g, k, w));
    }
  }

  lemma {:induction false} VisitAllStructural(g: Graph, root: Key, ks: seq<Key>, stack: seq<Key>, w: Walk)
    requires |stack| <= DEPTH_LIMIT + 1 && forall k :: k in ks ==> Stack(g, root, stack, k)
    requires Bounded(g, root) && SoundBacking(g, root) && w.structural
    ensures VisitAll(g, ks, |stack|, Elements(stack), w).structural
    decreases DEPTH_LIMIT + 1 - |stack|, 1, |ks|
  {
    if ks != [] {
      VisitStructural(g, root, ks[0], stack, w);
      VisitAllStructural(g, root, ks[1..], stack, Visit(g, ks[0], |stack|, Elements(stack), w));
    }
  }

  // The trace of one consumer

  /** Facts that hold of every trace, cyclic and over-deep graphs included. */
  lemma TraceBasics(g: Graph, k: Key)
    ensures var t := Trace(g, k);
      && (forall o :: o in t.owners ==> Backs(g, o, k))
      && (forall v :: v in t.visited ==> Reaches(g, k, v) && g.LocalReasons(v) <= t.reasons)
      && (forall r :: r in t.reasons ==> Explained(g, t, r))
      && (!t.structural ==> t.reasons != {})
  {
    hide Visit;
    VisitContinues(g, k, 0, {}, NOTHING);
    assert OwnersMatch(g, NOTHING);
  }

  /** A trace reported structurally complete is exact, whatever the depth of the graph. */
  lemma StructuralTraceIsExact(g: Graph, k: Key)
    requires Trace(g, k).structural
    ensures SoundBacking(g, k)
    ensures forall d :: d in Trace(g, k).owners <==> Backs(g, d, k)
    ensures forall v :: v in Trace(g, k).visited <==> Reaches(g, k, v)
  {
    hide Visit;
    var t := Trace(g, k);
    VisitContinues(g, k, 0, {}, NOTHING);
    VisitVerified(g, k, 0, {}, NOTHING);
    assert OwnersMatch(g, t) by { assert OwnersMatch(g, NOTHING); }
    forall m | Reaches(g, k, m) ensures m in t.visited {
      ClosedReaches(g, t.visited, k, m);
    }
  }

  /** When no simple backing path is longer than the depth limit, the walk decides
      structural completeness exactly, and its owners are exactly the endpoints
      that back the consumer, cycles or not. */
  lemma BoundedTraceIsExact(g: Graph, k: Key)
    requires Bounded(g, k)
    ensures Trace(g, k).structural <==> SoundBacking(g, k)
    ensures forall d :: d in Trace(g, k).owners <==> Backs(g, d, k)
    ensures forall v :: v in Trace(g, k).visited <==> Reaches(g, k, v)
  {
    hide Visit;
    var t := Trace(g, k);
    assert Elements<Key>([]) == {};
    assert Stack(g, k, [], k) by { assert Connects(g, [] + [k], k, k); }
    VisitContinues(g, k, 0, {}, NOTHING);
    VisitClosed(g, k, k, [], NOTHING);
    assert OwnersMatch(g, t) by { assert OwnersMatch(g, NOTHING); }
    forall m | Reaches(g, k, m) ensures m in t.visited {
      ClosedReaches(g, t.visited, k, m);
    }
    if t.structural {
      StructuralTraceIsExact(g, k);
    }
    if SoundBacking(g, k) {
      VisitStructural(g, k, k, [], NOTHING);
    }
  }
}
