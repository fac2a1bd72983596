/** Bounded traversals of the relationship graph (apps/api/internal/storage/context_engine.go).
    Every `range` over a Go map is a loop over a set in whatever order. */
module RelationshipGraph {
  import opened Common

  type NodeId = string

  datatype Confidence = Authoritative | Derived | Potential | Unknown

  datatype Edge = Edge(etype: string, from: NodeId, to: NodeId, confidence: Confidence)

  /** Which way edges are followed: from a resource to what depends on it, to what backs it, or both. */
  datatype Direction = Dependents | Backing | Undirected

  const MAX_NODES: nat := 200
  const MAX_IMPACT: nat := 500

  function Rank(c: Confidence): nat {
    match c case Authoritative => 0 case Derived => 1 case Potential => 2 case Unknown => 3
  }

  function Weaker(a: Confidence, b: Confidence): (r: Confidence)
    ensures Rank(r) == if Rank(a) >= Rank(b) then Rank(a) else Rank(b)
  {
    if Rank(b) > Rank(a) then b else a
  }

  predicate Joins(d: Direction, e: Edge, x: NodeId, y: NodeId) {
    (d != Backing && e.to == x && e.from == y) || (d != Dependents && e.from == x && e.to == y)
  }

  ghost predicate Adjacent(edges: set<Edge>, d: Direction, x: NodeId, y: NodeId) {
    exists e :: e in edges && Joins(d, e, x, y)
  }

  /** Where one edge leads from the set. */
  function Step(edges: set<Edge>, d: Direction, s: set<NodeId>): set<NodeId> {
    (set e | e in edges && d != Backing && e.to in s :: e.from)
    + (set e | e in edges && d != Dependents && e.from in s :: e.to)
  }

  lemma StepIn(edges: set<Edge>, d: Direction, s: set<NodeId>, e: Edge, x: NodeId, y: NodeId)
    requires e in edges && Joins(d, e, x, y) && x in s
    ensures y in Step(edges, d, s)
  {}

  lemma StepOut(edges: set<Edge>, d: Direction, s: set<NodeId>, y: NodeId) returns (e: Edge, x: NodeId)
    requires y in Step(edges, d, s)
    ensures e in edges && Joins(d, e, x, y) && x in s
  {
    if d != Backing && exists f :: f in edges && f.to in s && f.from == y {
      e :| e in edges && e.to in s && e.from == y;
      x := e.to;
    } else {
      e :| e in edges && d != Dependents && e.from in s && e.to == y;
      x := e.from;
    }
  }

  /** The nodes within distance k of the seeds. */
  function Reach(edges: set<Edge>, d: Direction, seeds: set<NodeId>, k: nat): set<NodeId> {
    if k == 0 then seeds
    else Reach(edges, d, seeds, k - 1) + Step(edges, d, Reach(edges, d, seeds, k - 1))
  }

  lemma {:induction false} ReachGrows(edges: set<Edge>, d: Direction, seeds: set<NodeId>, j: nat, k: nat)
    requires j <= k
    ensures Reach(edges, d, seeds, j) <= Reach(edges, d, seeds, k)
  {
    if j < k { ReachGrows(edges, d, seeds, j, k - 1); }
  }

  lemma Absorb(r: set<NodeId>, s: set<NodeId>)
    requires s <= r
    ensures r + s == r
  {}

  /** Once a level adds nothing, no later level does. */
  lemma {:induction false} ReachClosed(edges: set<Edge>, d: Direction, seeds: set<NodeId>, j: nat, k: nat)
    requires j <= k && Step(edges, d, Reach(edges, d, seeds, j)) <= Reach(edges, d, seeds, j)
    ensures Reach(edges, d, seeds, k) == Reach(edges, d, seeds, j)
  {
    if j < k {
      ReachClosed(edges, d, seeds, j, k - 1);
      Absorb(Reach(edges, d, seeds, k - 1), Step(edges, d, Reach(edges, d, seeds, k - 1)));
    }
  }

  ghost predicate IsWalk(edges: set<Edge>, d: Direction, p: seq<NodeId>) {
    p != [] && forall i :: 0 <= i < |p| - 1 ==> Adjacent(edges, d, p[i], p[i + 1])
  }

  /** Reach is distance: a node is in it exactly when a walk of at most k edges leads to it. */
  lemma {:induction false} ReachIsDistance(edges: set<Edge>, d: Direction, seeds: set<NodeId>, k: nat, x: NodeId)
    ensures x in Reach(edges, d, seeds, k) <==>
      exists p :: IsWalk(edges, d, p) && |p| <= k + 1 && p[0] in seeds && p[|p| - 1] == x
  {
    if x in Reach(edges, d, seeds, k) {
      var p := WalkTo(edges, d, seeds, k, x);
    }
    if p :| IsWalk(edges, d, p) && |p| <= k + 1 && p[0] in seeds && p[|p| - 1] == x {
      WalkStays(edges, d, seeds, p);
      ReachGrows(edges, d, seeds, |p| - 1, k);
    }
  }

  lemma {:induction false} WalkTo(edges: set<Edge>, d: Direction, seeds: set<NodeId>, k: nat, x: NodeId) returns (p: seq<NodeId>)
    requires x in Reach(edges, d, seeds, k)
    ensures IsWalk(edges, d, p) && |p| <= k + 1 && p[0] in seeds && p[|p| - 1] == x
  {
    if k == 0 {
      p := [x];
    } else if x in Reach(edges, d, seeds, k - 1) {
      p := WalkTo(edges, d, seeds, k - 1, x);
    } else {
      var e, w := StepOut(edges, d, Reach(edges, d, seeds, k - 1), x);
      assert Adjacent(edges, d, w, x);
      var q := WalkTo(edges, d, seeds, k - 1, w);
      p := q + [x];
    }
  }

  lemma {:induction false} WalkStays(edges: set<Edge>, d: Direction, seeds: set<NodeId>, p: seq<NodeId>)
    requires IsWalk(edges, d, p) && p[0] in seeds
    ensures p[|p| - 1] in Reach(edges, d, seeds, |p| - 1)
    decreases |p|
  {
    if |p| > 1 {
      var n := |p| - 1;
      assert Adjacent(edges, d, p[n - 1], p[n - 1 + 1]);
      WalkStays(edges, d, seeds, p[..n]);
      var e :| e in edges && Joins(d, e, p[n - 1], p[n]);
      StepIn(edges, d, Reach(edges, d, seeds, n - 1), e, p[n - 1], p[n]);
    }
  }

  // ---------- expandGraph ----------

  /** Exactly the nodes within distance r of the seeds, with r short of the depth only when that changes
      nothing or the node bound is reached. */
  ghost predicate Expanded(edges: set<Edge>, seeds: set<NodeId>, depth: nat, r: nat, selected: set<NodeId>) {
    && r <= depth && selected == Reach(edges, Undirected, seeds, r)
    && (r == depth || |selected| >= MAX_NODES || selected == Reach(edges, Undirected, seeds, depth))
  }

  /** Expansion goes by whole levels: it returns everything within some distance r, and stops short of
      the depth only when nothing is left or the node bound is reached. */
  method ExpandGraph(edges: set<Edge>, seeds: set<NodeId>, depth: nat) returns (selected: set<NodeId>)
    ensures exists r: nat :: Expanded(edges, seeds, depth, r, selected)
  {
    selected := seeds;
    var frontier := seeds;
    var level := 0;
    while level < depth
      invariant 0 <= level <= depth
      invariant selected == Reach(edges, Undirected, seeds, level)
      invariant frontier <= selected
      invariant Step(edges, Undirected, selected) <= selected + Step(edges, Undirected, frontier)
    {
      ghost var reached := selected;
      ghost var before := frontier;
      selected, frontier := ExpandLevel(edges, frontier, selected);
      NextLevel(edges, Undirected, seeds, level, reached, before, selected, frontier);
      level := level + 1;
      if frontier == {} {
        NothingNew(edges, Undirected, seeds, level, depth);
        break;
      }
      if |selected| >= MAX_NODES { break; }
    }
    assert Expanded(edges, seeds, depth, level, selected);
  }

  /** A level that adds exactly what the frontier leads to is the next distance. */
  lemma NextLevel(edges: set<Edge>, d: Direction, seeds: set<NodeId>, k: nat, reached: set<NodeId>,
                  frontier: set<NodeId>, seen: set<NodeId>, next: set<NodeId>)
    requires reached == Reach(edges, d, seeds, k) && frontier <= reached
    requires Step(edges, d, reached) <= reached + Step(edges, d, frontier)
    requires seen == reached + Step(edges, d, frontier) && next == seen - reached
    ensures seen == Reach(edges, d, seeds, k + 1)
    ensures Step(edges, d, seen) <= seen + Step(edges, d, next)
  {
    StepMonotone(edges, d, frontier, reached);
    StepAdds(edges, d, reached, next, seen);
  }

  lemma NothingNew(edges: set<Edge>, d: Direction, seeds: set<NodeId>, k: nat, depth: nat)
    requires k <= depth
    requires Step(edges, d, Reach(edges, d, seeds, k)) <= Reach(edges, d, seeds, k) + Step(edges, d, {})
    ensures Reach(edges, d, seeds, depth) == Reach(edges, d, seeds, k)
  {
    assert Step(edges, d, {}) == {};
    ReachClosed(edges, d, seeds, k, depth);
  }

  /** One level: the edges that touch the frontier bring in both of their ends. */
  method ExpandLevel(edges: set<Edge>, frontier: set<NodeId>, selected0: set<NodeId>)
    returns (selected: set<NodeId>, next: set<NodeId>)
    requires frontier <= selected0
    ensures selected == selected0 + Step(edges, Undirected, frontier) && next == selected - selected0
  {
    selected, next := selected0, {};
    var todo := edges;
    while todo != {}
      invariant todo <= edges
      invariant selected == selected0 + next && next !! selected0
      invariant next <= Step(edges, Undirected, frontier)
      invariant forall e :: e in edges && e !in todo && (e.from in frontier || e.to in frontier) ==>
        e.from in selected && e.to in selected
      decreases |todo|
    {
      var e :| e in todo;
      todo := todo - {e};
      if e.from !in frontier && e.to !in frontier { continue; }
      if e.from !in selected { selected, next := selected + {e.from}, next + {e.from}; }
      if e.to !in selected { selected, next := selected + {e.to}, next + {e.to}; }
    }
    FrontierComplete(edges, frontier, selected);
  }

  lemma FrontierComplete(edges: set<Edge>, frontier: set<NodeId>, selected: set<NodeId>)
    requires forall e :: e in edges && (e.from in frontier || e.to in frontier) ==> e.from in selected && e.to in selected
    ensures Step(edges, Undirected, frontier) <= selected
  {
    forall y | y in Step(edges, Undirected, frontier) ensures y in selected {
      var e, x := StepOut(edges, Undirected, frontier, y);
    }
  }

  /** The edges shown are exactly those between visible nodes. */
  method InducedEdges(edges: set<Edge>, visible: set<NodeId>) returns (shown: set<Edge>)
    ensures shown == set e | e in edges && e.from in visible && e.to in visible
  {
    shown := {};
    var todo := edges;
    while todo != {}
      invariant todo <= edges
      invariant shown == set e | e in edges - todo && e.from in visible && e.to in visible
      decreases |todo|
    {
      var e :| e in todo;
      todo := todo - {e};
      if e.from !in visible || e.to !in visible { continue; }
      shown := shown + {e};
    }
  }

  lemma StepUnion(edges: set<Edge>, d: Direction, s: set<NodeId>, x: NodeId)
    ensures Step(edges, d, s + {x}) == Step(edges, d, s) + Step(edges, d, {x})
  {
    forall y | y in Step(edges, d, s + {x}) ensures y in Step(edges, d, s) + Step(edges, d, {x}) {
      var e, w := StepOut(edges, d, s + {x}, y);
      if w in s { StepIn(edges, d, s, e, w, y); } else { StepIn(edges, d, {x}, e, w, y); }
    }
    StepMonotone(edges, d, s, s + {x});
    StepMonotone(edges, d, {x}, s + {x});
  }

  lemma StepMonotone(edges: set<Edge>, d: Direction, s: set<NodeId>, t: set<NodeId>)
    requires s <= t
    ensures Step(edges, d, s) <= Step(edges, d, t)
  {}

  /** What the next level can add comes from the nodes this level added. */
  lemma StepAdds(edges: set<Edge>, d: Direction, reached: set<NodeId>, next: set<NodeId>, seen: set<NodeId>)
    requires Step(edges, d, reached) <= seen && reached <= seen && next == seen - reached
    ensures Step(edges, d, seen) <= seen + Step(edges, d, next)
  {
    forall y | y in Step(edges, d, seen) ensures y in seen + Step(edges, d, next) {
      var e, x := StepOut(edges, d, seen, y);
      if x in reached { StepIn(edges, d, reached, e, x, y); } else { StepIn(edges, d, next, e, x, y); }
    }
  }
}
