/** Which confidence impact analysis may report for a resource, and when the order of Go's map iteration
    decides it (apps/api/internal/storage/context_engine.go). */
module ImpactConfidence {
  import opened Common
  import opened RelationshipGraph
  import opened ImpactSearch

  /** Some order of the edges makes the search report f. */
  ghost predicate MayReport(edges: set<Edge>, d: Direction, target: NodeId, depth: nat, f: Found) {
    exists schedule, results :: Yields(edges, d, target, depth, schedule, results) && f in results
  }

  /** The search cannot be cut off. */
  ghost predicate Fits(edges: set<Edge>, d: Direction, target: NodeId, depth: nat) {
    |Reach(edges, d, {target}, depth)| <= MAX_IMPACT
  }

  // ---------- every shortest path can be reported ----------

  /** Before the depth there is room for more. */
  lemma RoomLeft(edges: set<Edge>, d: Direction, target: NodeId, depth: nat, k: nat, s: State)
    requires Fits(edges, d, target, depth) && k <= depth && AtLevel(edges, d, target, k, s)
    ensures |s.results| < MAX_IMPACT
  {
    DistinctCount(s.results);
    ReachGrows(edges, d, {target}, k, depth);
    Subset(s.seen, Reach(edges, d, {target}, depth));
    assert NodesOf(s.results) == s.seen - {target};
    Subset(s.seen - {target}, s.seen);
  }

  /** Visiting only appends. */
  ghost predicate Extended(s: State, t: State) { s.next <= t.next && s.results <= t.results }

  lemma {:induction false} ScanExtends(s: State, d: Direction, from: Found, order: seq<Edge>, i: nat, n: nat)
    requires i <= n <= |order|
    ensures Extended(Scan(s, d, from, order, i), Scan(s, d, from, order, n))
  {
    if i < n { ScanExtends(s, d, from, order, i, n - 1); }
  }

  lemma {:induction false} VisitsExtend(s: State, d: Direction, frontier: seq<Found>, orders: seq<seq<Edge>>, i: nat, n: nat)
    requires i <= n <= |frontier| && n <= |orders|
    ensures Extended(Visits(s, d, frontier, orders, i), Visits(s, d, frontier, orders, n))
  {
    if i < n {
      VisitsExtend(s, d, frontier, orders, i, n - 1);
      ScanExtends(Visits(s, d, frontier, orders, n - 1), d, frontier[n - 1], orders[n - 1], 0, |orders[n - 1]|);
    }
  }

  /** An order in which the given edge comes up first. */
  lemma FirstOrder(edges: set<Edge>, e: Edge) returns (order: seq<Edge>)
    requires e in edges
    ensures Enumerates(order, edges) && order != [] && order[0] == e
  {
    var rest := SomeOrder(edges - {e});
    order := [e] + rest;
    assert multiset(edges) == multiset{e} + multiset(edges - {e});
  }

  lemma AnyOrders(edges: set<Edge>, frontier: seq<Found>, first: seq<Edge>) returns (orders: seq<seq<Edge>>)
    requires Enumerates(first, edges)
    ensures Orders(edges, orders, frontier) && (frontier != [] ==> orders[0] == first)
  {
    orders := seq(|frontier|, _ => first);
  }

  /** The first edge of the first resource of a level decides what comes first in the next level. */
  lemma FirstFound(s: State, d: Direction, orders: seq<seq<Edge>>, e: Edge)
    requires s.next != [] && |orders| == |s.next| && orders[0] != [] && orders[0][0] == e
    requires |s.results| < MAX_IMPACT && Near(d, e) == s.next[0].node && Far(d, e) !in s.seen
    ensures var t := Advance(s, d, orders);
      t.next != [] && t.next[0] == Onward(d, s.next[0], e) && t.next[0] in t.results && s.results <= t.results
  {
    var start := State([], s.seen, s.results);
    var one := Scan(start, d, s.next[0], orders[0], 1);
    assert Scan(start, d, s.next[0], orders[0], 0) == start && one == Take(start, d, s.next[0], e);
    ScanExtends(start, d, s.next[0], orders[0], 1, |orders[0]|);
    assert Visits(start, d, s.next, orders, 0) == start;
    assert Visits(start, d, s.next, orders, 1) == Scan(Visits(start, d, s.next, orders, 0), d, s.next[0], orders[0], |orders[0]|);
    VisitsExtend(start, d, s.next, orders, 1, |s.next|);
    assert one.results[|s.results|] == Onward(d, s.next[0], e);
  }

  lemma AdvanceExtends(s: State, d: Direction, orders: seq<seq<Edge>>)
    ensures s.results <= Advance(s, d, orders).results
  {
    if |orders| == |s.next| { VisitsExtend(State([], s.seen, s.results), d, s.next, orders, 0, |s.next|); }
  }

  /** The first j steps of a path, found along the given edges. */
  function Along(path: seq<NodeId>, es: seq<Edge>, j: nat): Found
    requires j <= |es| && |es| + 1 == |path|
  {
    Found(path[j], Weakest(es[..j]), path[..j + 1])
  }

  /** A schedule under which, after j levels, that is the first thing found. */
  lemma {:induction false} Lead(edges: set<Edge>, d: Direction, target: NodeId, depth: nat, path: seq<NodeId>, es: seq<Edge>, j: nat)
    returns (schedule: Schedule)
    requires d != Undirected && Fits(edges, d, target, depth) && Realizes(edges, d, path, es) && path[0] == target
    requires j <= |es| <= depth && forall i :: 0 <= i < |path| ==> Exactly(edges, d, target, i, path[i])
    ensures |schedule| == j && Scheduled(edges, schedule, j, d, target)
    ensures var s := After(schedule, j, d, target);
      s.next != [] && s.next[0] == Along(path, es, j) && (j > 0 ==> s.next[0] in s.results)
  {
    if j == 0 {
      schedule := [];
      assert path[..1] == [target];
    } else {
      var before := Lead(edges, d, target, depth, path, es, j - 1);
      schedule := LeadStep(edges, d, target, depth, before, Along(path, es, j - 1), es[j - 1], path[j]) by {
        assert Joins(d, es[j - 1], path[j - 1], path[j - 1 + 1]);
        assert Exactly(edges, d, target, j, path[j]);
      }
      OnwardAlong(d, path, es, j - 1) by { assert Joins(d, es[j - 1], path[j - 1], path[j - 1 + 1]); }
    }
  }

  lemma OnwardAlong(d: Direction, path: seq<NodeId>, es: seq<Edge>, j: nat)
    requires j < |es| && |es| + 1 == |path| && d != Undirected && Joins(d, es[j], path[j], path[j + 1])
    ensures Onward(d, Along(path, es, j), es[j]) == Along(path, es, j + 1)
  {
    assert es[..j + 1][..j] == es[..j];
    assert path[..j + 1] + [path[j + 1]] == path[..j + 2];
  }

  lemma LeadStep(edges: set<Edge>, d: Direction, target: NodeId, depth: nat, before: Schedule, from: Found, e: Edge, x: NodeId)
    returns (schedule: Schedule)
    requires d != Undirected && Fits(edges, d, target, depth) && |before| < depth && Scheduled(edges, before, |before|, d, target)
    requires After(before, |before|, d, target).next != [] && After(before, |before|, d, target).next[0] == from
    requires e in edges && Joins(d, e, from.node, x) && Exactly(edges, d, target, |before| + 1, x)
    ensures |schedule| == |before| + 1 && Scheduled(edges, schedule, |schedule|, d, target)
    ensures var s := After(schedule, |schedule|, d, target); s.next != [] && s.next[0] == Onward(d, from, e) && s.next[0] in s.results
  {
    var s := After(before, |before|, d, target);
    AfterIsSound(edges, before, |before|, d, target);
    RoomLeft(edges, d, target, depth, |before|, s);
    var first := FirstOrder(edges, e);
    var orders := AnyOrders(edges, s.next, first);
    FirstFound(s, d, orders, e);
    AfterNext(edges, before, orders, d, target);
    schedule := before + [orders];
  }

  /** Any schedule can be carried on to the depth, and keeps what it found. */
  lemma {:induction false} CarryOn(edges: set<Edge>, d: Direction, target: NodeId, depth: nat, schedule: Schedule) returns (full: Schedule)
    requires |schedule| <= depth && Scheduled(edges, schedule, |schedule|, d, target)
    ensures |full| == depth && Scheduled(edges, full, depth, d, target)
    ensures After(schedule, |schedule|, d, target).results <= After(full, depth, d, target).results
    ensures Yields(edges, d, target, depth, full, After(full, depth, d, target).results)
    decreases depth - |schedule|
  {
    if |schedule| == depth {
      full := schedule;
    } else {
      var s := After(schedule, |schedule|, d, target);
      var order := SomeOrder(edges);
      var orders := AnyOrders(edges, s.next, order);
      AfterNext(edges, schedule, orders, d, target);
      AdvanceExtends(s, d, orders);
      full := CarryOn(edges, d, target, depth, schedule + [orders]);
    }
  }

  /** Exactly the real shortest paths within the depth can be reported, each with its weakest edge. */
  lemma MayReportExactly(edges: set<Edge>, d: Direction, target: NodeId, depth: nat, f: Found)
    requires d != Undirected && Fits(edges, d, target, depth)
    ensures MayReport(edges, d, target, depth, f) <==> FoundOK(edges, d, target, f) && 1 < |f.path| <= depth + 1
  {
    if FoundOK(edges, d, target, f) && 1 < |f.path| <= depth + 1 {
      ShortestIsReported(edges, d, target, depth, f);
    }
    if schedule, results :| Yields(edges, d, target, depth, schedule, results) && f in results {
      SearchAnswers(edges, d, target, depth, schedule, results);
    }
  }

  lemma ShortestIsReported(edges: set<Edge>, d: Direction, target: NodeId, depth: nat, f: Found)
    requires d != Undirected && Fits(edges, d, target, depth) && FoundOK(edges, d, target, f) && 1 < |f.path| <= depth + 1
    ensures MayReport(edges, d, target, depth, f)
  {
    var es :| Realizes(edges, d, f.path, es) && f.confidence == Weakest(es);
    assert es[..|es|] == es && f.path[..|es| + 1] == f.path;
    AlongIsReported(edges, d, target, depth, f.path, es);
  }

  lemma AlongIsReported(edges: set<Edge>, d: Direction, target: NodeId, depth: nat, path: seq<NodeId>, es: seq<Edge>)
    requires d != Undirected && Fits(edges, d, target, depth) && Realizes(edges, d, path, es) && path[0] == target
    requires 0 < |es| <= depth && forall i :: 0 <= i < |path| ==> Exactly(edges, d, target, i, path[i])
    ensures MayReport(edges, d, target, depth, Along(path, es, |es|))
  {
    var schedule := Lead(edges, d, target, depth, path, es, |es|);
    var full := CarryOn(edges, d, target, depth, schedule);
    Reported(edges, d, target, depth, full, After(full, depth, d, target).results, Along(path, es, |es|));
  }

  lemma Reported(edges: set<Edge>, d: Direction, target: NodeId, depth: nat, schedule: Schedule, results: seq<Found>, f: Found)
    requires Yields(edges, d, target, depth, schedule, results) && f in results
    ensures MayReport(edges, d, target, depth, f)
  {}

  // ---------- when the order decides ----------

  /** Whatever the order, each resource is reported with the same confidence. */
  ghost predicate OrderFree(edges: set<Edge>, d: Direction, target: NodeId, depth: nat) {
    forall f, g :: MayReport(edges, d, target, depth, f) && MayReport(edges, d, target, depth, g) && f.node == g.node ==>
      f.confidence == g.confidence
  }

  /** The edge leads from level k to level k + 1. */
  ghost predicate Leads(edges: set<Edge>, d: Direction, target: NodeId, k: nat, e: Edge, x: NodeId, y: NodeId) {
    e in edges && Joins(d, e, x, y) && Exactly(edges, d, target, k, x) && Exactly(edges, d, target, k + 1, y)
  }

  /** A mark for every node with which all edges from one level to the next agree. */
  ghost predicate Agreed(edges: set<Edge>, d: Direction, target: NodeId, depth: nat, mark: NodeId -> Confidence) {
    && mark(target) == Authoritative
    && forall k: nat, e, x, y :: k < depth && Leads(edges, d, target, k, e, x, y) ==> mark(y) == Weaker(mark(x), e.confidence)
  }

  lemma {:induction false} MarkAlong(edges: set<Edge>, d: Direction, target: NodeId, depth: nat, mark: NodeId -> Confidence,
                                      path: seq<NodeId>, es: seq<Edge>, j: nat)
    requires Agreed(edges, d, target, depth, mark) && Realizes(edges, d, path, es) && path[0] == target
    requires j <= |es| <= depth && forall i :: 0 <= i < |path| ==> Exactly(edges, d, target, i, path[i])
    ensures Weakest(es[..j]) == mark(path[j])
  {
    if j > 0 {
      MarkAlong(edges, d, target, depth, mark, path, es, j - 1);
      assert es[..j][..j - 1] == es[..j - 1];
      assert Joins(d, es[j - 1], path[j - 1], path[j - 1 + 1]);
      assert Leads(edges, d, target, j - 1, es[j - 1], path[j - 1], path[j]);
    }
  }

  /** The mark is the confidence reported. */
  lemma MarkIsReported(edges: set<Edge>, d: Direction, target: NodeId, depth: nat, mark: NodeId -> Confidence, f: Found)
    requires d != Undirected && Agreed(edges, d, target, depth, mark) && MayReport(edges, d, target, depth, f)
    ensures f.confidence == mark(f.node)
  {
    var schedule, results :| Yields(edges, d, target, depth, schedule, results) && f in results;
    SearchAnswers(edges, d, target, depth, schedule, results);
    var es :| Realizes(edges, d, f.path, es) && f.confidence == Weakest(es);
    MarkAlong(edges, d, target, depth, mark, f.path, es, |es|);
    assert es[..|es|] == es;
  }

  lemma WholeAnswer(edges: set<Edge>, d: Direction, target: NodeId, depth: nat) returns (results: seq<Found>)
    requires d != Undirected && Fits(edges, d, target, depth)
    ensures NodesOf(results) == Reach(edges, d, {target}, depth) - {target} && AllOK(edges, d, target, results)
  {
    var schedule := CarryOn(edges, d, target, depth, []);
    results := After(schedule, depth, d, target).results;
    AfterIsSound(edges, schedule, depth, d, target);
    RoomLeft(edges, d, target, depth, depth, After(schedule, depth, d, target));
    SearchAnswers(edges, d, target, depth, schedule, results);
  }

  lemma Pick(found: seq<Found>, x: NodeId) returns (f: Found)
    requires x in NodesOf(found)
    ensures f in found && f.node == x
  {
    f :| f in found && f.node == x;
  }

  /** Every node within the depth has a shortest path. */
  lemma SomePath(edges: set<Edge>, d: Direction, target: NodeId, depth: nat, k: nat, x: NodeId) returns (f: Found)
    requires d != Undirected && Fits(edges, d, target, depth) && 0 < k <= depth && Exactly(edges, d, target, k, x)
    ensures f.node == x && FoundOK(edges, d, target, f) && |f.path| == k + 1
  {
    var results := WholeAnswer(edges, d, target, depth);
    ReachGrows(edges, d, {target}, k, depth);
    NotTarget(edges, d, target, k, x);
    f := Pick(results, x);
    SameLevel(edges, d, target, f, k);
  }

  lemma NotTarget(edges: set<Edge>, d: Direction, target: NodeId, k: nat, x: NodeId)
    requires 0 < k && Exactly(edges, d, target, k, x)
    ensures x != target
  {
    ReachGrows(edges, d, {target}, 0, k - 1);
  }

  lemma SameLevel(edges: set<Edge>, d: Direction, target: NodeId, f: Found, k: nat)
    requires FoundOK(edges, d, target, f) && Exactly(edges, d, target, k, f.node)
    ensures |f.path| == k + 1
  {
    var j := |f.path| - 1;
    if j < k {
      LevelsApart(edges, d, target, j, k, f.node, f.node);
    } else if k < j {
      LevelsApart(edges, d, target, k, j, f.node, f.node);
    }
  }

  /** What is reported of a node under some order; the target counts as certain. */
  ghost function MarkOf(edges: set<Edge>, d: Direction, target: NodeId, depth: nat, x: NodeId): Confidence {
    if f :| MayReport(edges, d, target, depth, f) && f.node == x then f.confidence else Authoritative
  }

  lemma MarkIsConfidence(edges: set<Edge>, d: Direction, target: NodeId, depth: nat, f: Found)
    requires d != Undirected && Fits(edges, d, target, depth) && OrderFree(edges, d, target, depth)
    requires FoundOK(edges, d, target, f) && 1 < |f.path| <= depth + 1
    ensures MarkOf(edges, d, target, depth, f.node) == f.confidence
  {
    ShortestIsReported(edges, d, target, depth, f);
  }

  /** The start of the search, or a path to a node further on. */
  lemma Source(edges: set<Edge>, d: Direction, target: NodeId, depth: nat, k: nat, x: NodeId) returns (f: Found)
    requires d != Undirected && Fits(edges, d, target, depth) && OrderFree(edges, d, target, depth)
    requires k <= depth && Exactly(edges, d, target, k, x)
    ensures f.node == x && FoundOK(edges, d, target, f) && |f.path| == k + 1
    ensures MarkOf(edges, d, target, depth, x) == f.confidence
  {
    if k == 0 {
      f := Found(target, Authoritative, [target]);
      StartAtLevel(edges, d, target);
      TargetIsNotReported(edges, d, target, depth);
      assert f in Start(target).next;
    } else {
      f := SomePath(edges, d, target, depth, k, x);
      MarkIsConfidence(edges, d, target, depth, f);
    }
  }

  lemma EdgeAgrees(edges: set<Edge>, d: Direction, target: NodeId, depth: nat, k: nat, e: Edge, x: NodeId, y: NodeId)
    requires d != Undirected && Fits(edges, d, target, depth) && OrderFree(edges, d, target, depth)
    requires k < depth && Leads(edges, d, target, k, e, x, y)
    ensures MarkOf(edges, d, target, depth, y) == Weaker(MarkOf(edges, d, target, depth, x), e.confidence)
  {
    var f := Source(edges, d, target, depth, k, x);
    var g := Found(y, Weaker(f.confidence, e.confidence), f.path + [y]);
    ExtendFound(edges, d, target, k, f, g);
    MarkIsConfidence(edges, d, target, depth, g);
  }

  lemma TargetIsNotReported(edges: set<Edge>, d: Direction, target: NodeId, depth: nat)
    requires d != Undirected
    ensures MarkOf(edges, d, target, depth, target) == Authoritative
  {
    forall f | MayReport(edges, d, target, depth, f) ensures f.node != target {
      var schedule, results :| Yields(edges, d, target, depth, schedule, results) && f in results;
      SearchAnswers(edges, d, target, depth, schedule, results);
      assert f.node in NodesOf(results);
    }
  }

  /** The order of Go's iteration does not show exactly when all edges from one level to the next agree on
      what they lead to. */
  lemma OrderFreeExactly(edges: set<Edge>, d: Direction, target: NodeId, depth: nat)
    requires d != Undirected && Fits(edges, d, target, depth)
    ensures OrderFree(edges, d, target, depth) <==> exists mark :: Agreed(edges, d, target, depth, mark)
  {
    if OrderFree(edges, d, target, depth) {
      var mark := x => MarkOf(edges, d, target, depth, x);
      TargetIsNotReported(edges, d, target, depth);
      forall k: nat, e, x, y | k < depth && Leads(edges, d, target, k, e, x, y)
        ensures mark(y) == Weaker(mark(x), e.confidence)
      {
        EdgeAgrees(edges, d, target, depth, k, e, x, y);
      }
      assert Agreed(edges, d, target, depth, mark);
    }
    if mark :| Agreed(edges, d, target, depth, mark) {
      forall f, g | MayReport(edges, d, target, depth, f) && MayReport(edges, d, target, depth, g) && f.node == g.node
        ensures f.confidence == g.confidence
      {
        MarkIsReported(edges, d, target, depth, mark, f);
        MarkIsReported(edges, d, target, depth, mark, g);
      }
    }
  }
}
