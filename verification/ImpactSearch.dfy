/** The breadth-first search behind impact analysis (apps/api/internal/storage/context_engine.go). Go
    ranges over the edge map anew for every resource it visits, in any order; a schedule says which. */
module ImpactSearch {
  import opened Common
  import opened RelationshipGraph

  // ---------- what a result should be ----------

  /** A resource found by the traversal and the path it was found on. */
  datatype Found = Found(node: NodeId, confidence: Confidence, path: seq<NodeId>)

  /** x is at distance exactly k. */
  ghost predicate Exactly(edges: set<Edge>, d: Direction, target: NodeId, k: nat, x: NodeId) {
    x in Reach(edges, d, {target}, k) && (k > 0 ==> x !in Reach(edges, d, {target}, k - 1))
  }

  function Weakest(es: seq<Edge>): Confidence {
    if es == [] then Authoritative else Weaker(Weakest(es[..|es| - 1]), es[|es| - 1].confidence)
  }

  /** The edges lead along the path, one for each step. */
  ghost predicate Realizes(edges: set<Edge>, d: Direction, path: seq<NodeId>, es: seq<Edge>) {
    |es| + 1 == |path| && forall i :: 0 <= i < |es| ==> es[i] in edges && Joins(d, es[i], path[i], path[i + 1])
  }

  /** The path starts at the target and is realized by edges whose weakest confidence is the given one. */
  ghost predicate PathWith(edges: set<Edge>, d: Direction, target: NodeId, path: seq<NodeId>, confidence: Confidence) {
    path != [] && path[0] == target && exists es :: Realizes(edges, d, path, es) && confidence == Weakest(es)
  }

  /** A real, repeat-free, shortest path with its weakest edge's confidence. */
  ghost predicate FoundOK(edges: set<Edge>, d: Direction, target: NodeId, f: Found) {
    && PathWith(edges, d, target, f.path, f.confidence)
    && f.path[|f.path| - 1] == f.node
    && forall i :: 0 <= i < |f.path| ==> Exactly(edges, d, target, i, f.path[i])
  }

  lemma FoundIsShortest(edges: set<Edge>, d: Direction, target: NodeId, f: Found)
    requires FoundOK(edges, d, target, f)
    ensures IsWalk(edges, d, f.path) && f.path[0] == target && Distinct(f.path)
    ensures forall p :: IsWalk(edges, d, p) && p[0] == target && p[|p| - 1] == f.node ==> |p| >= |f.path|
  {
    var es :| Realizes(edges, d, f.path, es) && f.confidence == Weakest(es);
    forall i | 0 <= i < |f.path| - 1 ensures Adjacent(edges, d, f.path[i], f.path[i + 1]) {
      assert es[i] in edges && Joins(d, es[i], f.path[i], f.path[i + 1]);
    }
    forall i, j | 0 <= i < j < |f.path| ensures f.path[i] != f.path[j] {
      LevelsApart(edges, d, target, i, j, f.path[i], f.path[j]);
    }
    forall p | IsWalk(edges, d, p) && p[0] == target && p[|p| - 1] == f.node ensures |p| >= |f.path| {
      WalkStays(edges, d, {target}, p);
      NotNearer(edges, d, target, |f.path| - 1, f.node, |p| - 1);
    }
  }

  lemma {:induction false} NotNearer(edges: set<Edge>, d: Direction, target: NodeId, k: nat, x: NodeId, j: nat)
    requires Exactly(edges, d, target, k, x) && x in Reach(edges, d, {target}, j)
    ensures j >= k
  {
    if j < k { ReachGrows(edges, d, {target}, j, k - 1); }
  }

  lemma LevelsApart(edges: set<Edge>, d: Direction, target: NodeId, i: nat, j: nat, x: NodeId, y: NodeId)
    requires i < j && Exactly(edges, d, target, i, x) && Exactly(edges, d, target, j, y)
    ensures x != y
  {
    ReachGrows(edges, d, {target}, i, j - 1);
  }

  function NodesOf(found: seq<Found>): set<NodeId> {
    set f | f in found :: f.node
  }

  lemma NodesAppend(a: seq<Found>, b: seq<Found>)
    ensures NodesOf(a + b) == NodesOf(a) + NodesOf(b)
  {}

  predicate NodesDistinct(found: seq<Found>) {
    forall i, j :: 0 <= i < j < |found| ==> found[i].node != found[j].node
  }

  /** All of them are good and at distance k. */
  ghost predicate Layer(edges: set<Edge>, d: Direction, target: NodeId, k: nat, found: seq<Found>) {
    forall f :: f in found ==> FoundOK(edges, d, target, f) && |f.path| == k + 1
  }

  ghost predicate AllOK(edges: set<Edge>, d: Direction, target: NodeId, found: seq<Found>) {
    forall f :: f in found ==> FoundOK(edges, d, target, f)
  }

  /** f is state one edge further. */
  ghost predicate Extends(edges: set<Edge>, d: Direction, state: Found, f: Found) {
    f.path == state.path + [f.node] &&
    exists e :: e in edges && Joins(d, e, state.node, f.node) && f.confidence == Weaker(state.confidence, e.confidence)
  }

  lemma ExtendFound(edges: set<Edge>, d: Direction, target: NodeId, k: nat, state: Found, f: Found)
    requires FoundOK(edges, d, target, state) && |state.path| == k + 1
    requires Extends(edges, d, state, f) && f.node !in Reach(edges, d, {target}, k)
    ensures FoundOK(edges, d, target, f)
  {
    var e :| e in edges && Joins(d, e, state.node, f.node) && f.confidence == Weaker(state.confidence, e.confidence);
    NextDistance(edges, d, target, k, state, e, f.node);
    PathSnoc(edges, d, target, state.path, state.confidence, e, f.node);
    LevelsSnoc(edges, d, target, state.path, f.node);
  }

  lemma LevelsSnoc(edges: set<Edge>, d: Direction, target: NodeId, path: seq<NodeId>, x: NodeId)
    requires forall i :: 0 <= i < |path| ==> Exactly(edges, d, target, i, path[i])
    requires Exactly(edges, d, target, |path|, x)
    ensures forall i :: 0 <= i < |path + [x]| ==> Exactly(edges, d, target, i, (path + [x])[i])
  {}

  lemma NextDistance(edges: set<Edge>, d: Direction, target: NodeId, k: nat, state: Found, e: Edge, x: NodeId)
    requires FoundOK(edges, d, target, state) && |state.path| == k + 1
    requires e in edges && Joins(d, e, state.node, x) && x !in Reach(edges, d, {target}, k)
    ensures Exactly(edges, d, target, k + 1, x)
  {
    assert Exactly(edges, d, target, k, state.path[k]);
    StepIn(edges, d, Reach(edges, d, {target}, k), e, state.node, x);
  }

  lemma PathSnoc(edges: set<Edge>, d: Direction, target: NodeId, path: seq<NodeId>, c: Confidence, e: Edge, x: NodeId)
    requires PathWith(edges, d, target, path, c) && e in edges && Joins(d, e, path[|path| - 1], x)
    ensures PathWith(edges, d, target, path + [x], Weaker(c, e.confidence))
  {
    var es :| Realizes(edges, d, path, es) && c == Weakest(es);
    var more := es + [e];
    assert more[..|more| - 1] == es;
    assert Realizes(edges, d, path + [x], more);
  }

  lemma LayerInReach(edges: set<Edge>, d: Direction, target: NodeId, k: nat, frontier: seq<Found>)
    requires Layer(edges, d, target, k, frontier)
    ensures NodesOf(frontier) <= Reach(edges, d, {target}, k)
  {
    forall f | f in frontier ensures f.node in Reach(edges, d, {target}, k) {
      assert FoundOK(edges, d, target, f);
      assert Exactly(edges, d, target, k, f.path[k]);
    }
  }

  // ---------- the search under a schedule ----------

  /** Every edge once: one way the edges can come up. */
  ghost predicate Enumerates(order: seq<Edge>, edges: set<Edge>) { multiset(order) == multiset(edges) }

  lemma InOrder(order: seq<Edge>, edges: set<Edge>, e: Edge)
    requires Enumerates(order, edges)
    ensures e in order <==> e in edges
  {
    assert e in multiset(order) <==> e in multiset(edges);
  }

  /** The next level as far as it has been found, everything seen, and the results. */
  datatype State = State(next: seq<Found>, seen: set<NodeId>, results: seq<Found>)

  function Near(d: Direction, e: Edge): NodeId { if d == Dependents then e.to else e.from }

  function Far(d: Direction, e: Edge): NodeId { if d == Dependents then e.from else e.to }

  function Onward(d: Direction, from: Found, e: Edge): Found {
    Found(Far(d, e), Weaker(from.confidence, e.confidence), from.path + [Far(d, e)])
  }

  /** One edge comes up while a resource is visited; at the bound nothing more is taken in. */
  function Take(s: State, d: Direction, from: Found, e: Edge): State {
    if |s.results| >= MAX_IMPACT || Near(d, e) != from.node || Far(d, e) in s.seen then s
    else State(s.next + [Onward(d, from, e)], s.seen + {Far(d, e)}, s.results + [Onward(d, from, e)])
  }

  /** The first n edges come up in this order. */
  function Scan(s: State, d: Direction, from: Found, order: seq<Edge>, n: nat): State
    requires n <= |order|
  {
    if n == 0 then s else Take(Scan(s, d, from, order, n - 1), d, from, order[n - 1])
  }

  /** The first n resources of the frontier are visited, orders[i] being the order for frontier[i]. */
  function Visits(s: State, d: Direction, frontier: seq<Found>, orders: seq<seq<Edge>>, n: nat): State
    requires n <= |frontier| && n <= |orders|
  {
    if n == 0 then s
    else Scan(Visits(s, d, frontier, orders, n - 1), d, frontier[n - 1], orders[n - 1], |orders[n - 1]|)
  }

  /** One level of the search. */
  function Advance(s: State, d: Direction, orders: seq<seq<Edge>>): State {
    if |orders| != |s.next| then s else Visits(State([], s.seen, s.results), d, s.next, orders, |s.next|)
  }

  function Start(target: NodeId): State { State([Found(target, Authoritative, [target])], {target}, []) }

  type Schedule = seq<seq<seq<Edge>>>

  /** The search after the first n levels of the schedule. */
  function After(schedule: Schedule, n: nat, d: Direction, target: NodeId): State
    requires n <= |schedule|
  {
    if n == 0 then Start(target) else Advance(After(schedule, n - 1, d, target), d, schedule[n - 1])
  }

  /** One order of all edges for every resource of the frontier. */
  ghost predicate Orders(edges: set<Edge>, orders: seq<seq<Edge>>, frontier: seq<Found>) {
    |orders| == |frontier| && forall i :: 0 <= i < |orders| ==> Enumerates(orders[i], edges)
  }

  /** Each of the first n levels has orders for its resources. */
  ghost predicate Scheduled(edges: set<Edge>, schedule: Schedule, n: nat, d: Direction, target: NodeId)
    requires n <= |schedule|
  {
    n > 0 ==> Scheduled(edges, schedule, n - 1, d, target) && Orders(edges, schedule[n - 1], After(schedule, n - 1, d, target).next)
  }

  /** The search stops here: at the depth, with nothing left to visit, or at the bound. */
  ghost predicate Stops(schedule: Schedule, d: Direction, target: NodeId, depth: nat) {
    |schedule| <= depth &&
    var s := After(schedule, |schedule|, d, target);
    |schedule| == depth || s.next == [] || |s.results| >= MAX_IMPACT
  }

  /** Under this schedule the search returns these results. */
  ghost predicate Yields(edges: set<Edge>, d: Direction, target: NodeId, depth: nat, schedule: Schedule, results: seq<Found>) {
    && Scheduled(edges, schedule, |schedule|, d, target) && Stops(schedule, d, target, depth)
    && results == After(schedule, |schedule|, d, target).results
  }

  // ---------- what the search finds ----------

  /** What is known while level k is visited. */
  ghost predicate Sound(edges: set<Edge>, d: Direction, target: NodeId, k: nat, s: State) {
    && target in s.seen && s.seen <= Reach(edges, d, {target}, k + 1)
    && Layer(edges, d, target, k + 1, s.next)
    && AllOK(edges, d, target, s.results) && NodesDistinct(s.results) && NodesOf(s.results) == s.seen - {target}
    && (forall f :: f in s.results ==> 1 < |f.path| <= k + 2)
    && |s.results| <= MAX_IMPACT
    && (|s.results| < MAX_IMPACT ==>
          Reach(edges, d, {target}, k) <= s.seen && NodesOf(s.next) == s.seen - Reach(edges, d, {target}, k))
  }

  lemma Append(found: seq<Found>, f: Found)
    ensures NodesOf(found + [f]) == NodesOf(found) + {f.node}
    ensures NodesDistinct(found) && f.node !in NodesOf(found) ==> NodesDistinct(found + [f])
  {
    NodesAppend(found, [f]);
    assert NodesOf([f]) == {f.node};
    assert forall i :: 0 <= i < |found| ==> found[i].node in NodesOf(found);
  }

  lemma OnwardOK(edges: set<Edge>, d: Direction, target: NodeId, k: nat, from: Found, e: Edge)
    requires d != Undirected && FoundOK(edges, d, target, from) && |from.path| == k + 1
    requires e in edges && Near(d, e) == from.node && Far(d, e) !in Reach(edges, d, {target}, k)
    ensures FoundOK(edges, d, target, Onward(d, from, e)) && Far(d, e) in Reach(edges, d, {target}, k + 1)
  {
    assert Joins(d, e, from.node, Far(d, e));
    ExtendFound(edges, d, target, k, from, Onward(d, from, e));
    assert Exactly(edges, d, target, k + 1, Onward(d, from, e).path[k + 1]);
  }

  lemma TakeIsSound(edges: set<Edge>, d: Direction, target: NodeId, k: nat, s: State, from: Found, e: Edge)
    requires d != Undirected && Sound(edges, d, target, k, s)
    requires FoundOK(edges, d, target, from) && |from.path| == k + 1 && e in edges
    ensures Sound(edges, d, target, k, Take(s, d, from, e)) && s.seen <= Take(s, d, from, e).seen
    ensures var s' := Take(s, d, from, e);
      |s'.results| < MAX_IMPACT ==> |s.results| < MAX_IMPACT && (Near(d, e) == from.node ==> Far(d, e) in s'.seen)
  {
    if Take(s, d, from, e) != s {
      var f := Onward(d, from, e);
      OnwardOK(edges, d, target, k, from, e);
      Append(s.next, f);
      Append(s.results, f);
    }
  }

  /** Everything the first n edges lead to is seen. */
  ghost predicate Covers(order: seq<Edge>, n: nat, d: Direction, from: Found, seen: set<NodeId>)
    requires n <= |order|
  {
    forall i :: 0 <= i < n && Near(d, order[i]) == from.node ==> Far(d, order[i]) in seen
  }

  lemma {:induction false} ScanIsSound(edges: set<Edge>, d: Direction, target: NodeId, k: nat, s: State, from: Found, order: seq<Edge>, n: nat)
    requires d != Undirected && Sound(edges, d, target, k, s) && Enumerates(order, edges) && n <= |order|
    requires FoundOK(edges, d, target, from) && |from.path| == k + 1
    ensures var s' := Scan(s, d, from, order, n);
      && Sound(edges, d, target, k, s') && s.seen <= s'.seen
      && (|s'.results| < MAX_IMPACT ==> |s.results| < MAX_IMPACT && Covers(order, n, d, from, s'.seen))
  {
    if n > 0 {
      ScanIsSound(edges, d, target, k, s, from, order, n - 1);
      InOrder(order, edges, order[n - 1]);
      TakeIsSound(edges, d, target, k, Scan(s, d, from, order, n - 1), from, order[n - 1]);
    }
  }

  /** With all edges scanned every neighbour is seen. */
  lemma ScanIsComplete(edges: set<Edge>, order: seq<Edge>, d: Direction, from: Found, seen: set<NodeId>)
    requires d != Undirected && Enumerates(order, edges) && Covers(order, |order|, d, from, seen)
    ensures Step(edges, d, {from.node}) <= seen
  {
    forall y | y in Step(edges, d, {from.node}) ensures y in seen {
      var e, x := StepOut(edges, d, {from.node}, y);
      InOrder(order, edges, e);
    }
  }

  lemma FrontierSnoc(edges: set<Edge>, d: Direction, frontier: seq<Found>, n: nat)
    requires n < |frontier|
    ensures Step(edges, d, NodesOf(frontier[..n + 1])) == Step(edges, d, NodesOf(frontier[..n])) + Step(edges, d, {frontier[n].node})
  {
    assert frontier[..n + 1] == frontier[..n] + [frontier[n]];
    Append(frontier[..n], frontier[n]);
    StepUnion(edges, d, NodesOf(frontier[..n]), frontier[n].node);
  }

  lemma WholeScan(edges: set<Edge>, d: Direction, target: NodeId, k: nat, s: State, from: Found, order: seq<Edge>)
    requires d != Undirected && Sound(edges, d, target, k, s) && Enumerates(order, edges)
    requires FoundOK(edges, d, target, from) && |from.path| == k + 1
    ensures var s' := Scan(s, d, from, order, |order|);
      && Sound(edges, d, target, k, s') && s.seen <= s'.seen
      && (|s'.results| < MAX_IMPACT ==> |s.results| < MAX_IMPACT && Step(edges, d, {from.node}) <= s'.seen)
  {
    ScanIsSound(edges, d, target, k, s, from, order, |order|);
    var s' := Scan(s, d, from, order, |order|);
    if |s'.results| < MAX_IMPACT { ScanIsComplete(edges, order, d, from, s'.seen); }
  }

  lemma {:induction false} VisitsAreSound(edges: set<Edge>, d: Direction, target: NodeId, k: nat, s: State, frontier: seq<Found>,
                                          orders: seq<seq<Edge>>, n: nat)
    requires d != Undirected && Sound(edges, d, target, k, s) && Orders(edges, orders, frontier) && n <= |frontier|
    requires Layer(edges, d, target, k, frontier)
    ensures var s' := Visits(s, d, frontier, orders, n);
      && Sound(edges, d, target, k, s') && s.seen <= s'.seen
      && (|s'.results| < MAX_IMPACT ==> |s.results| < MAX_IMPACT && Step(edges, d, NodesOf(frontier[..n])) <= s'.seen)
  {
    if n == 0 {
      assert Step(edges, d, NodesOf(frontier[..0])) == {};
    } else {
      var before, from := Visits(s, d, frontier, orders, n - 1), frontier[n - 1];
      VisitsAreSound(edges, d, target, k, s, frontier, orders, n - 1);
      assert from in frontier;
      WholeScan(edges, d, target, k, before, from, orders[n - 1]);
      FrontierSnoc(edges, d, frontier, n - 1);
    }
  }

  /** Where the search stands after k whole levels. */
  ghost predicate AtLevel(edges: set<Edge>, d: Direction, target: NodeId, k: nat, s: State) {
    && Layer(edges, d, target, k, s.next)
    && Sound(edges, d, target, k, State([], s.seen, s.results))
    && s.seen <= Reach(edges, d, {target}, k)
    && (forall f :: f in s.results ==> |f.path| <= k + 1)
    && (|s.results| < MAX_IMPACT ==>
          s.seen == Reach(edges, d, {target}, k) && Step(edges, d, s.seen) <= s.seen + Step(edges, d, NodesOf(s.next)))
  }

  lemma StartAtLevel(edges: set<Edge>, d: Direction, target: NodeId)
    ensures AtLevel(edges, d, target, 0, Start(target))
  {
    var start := Found(target, Authoritative, [target]);
    assert Realizes(edges, d, start.path, []);
    assert FoundOK(edges, d, target, start);
    assert NodesOf([start]) == {target} && NodesOf([]) == {};
    ReachGrows(edges, d, {target}, 0, 1);
  }

  /** A whole level was visited. */
  lemma WholeLevel(edges: set<Edge>, d: Direction, target: NodeId, k: nat, s: State, s': State)
    requires AtLevel(edges, d, target, k, s) && |s.results| < MAX_IMPACT
    requires Sound(edges, d, target, k, s') && |s'.results| < MAX_IMPACT
    requires s.seen <= s'.seen && Step(edges, d, NodesOf(s.next)) <= s'.seen
    ensures s'.seen == Reach(edges, d, {target}, k + 1)
    ensures Step(edges, d, s'.seen) <= s'.seen + Step(edges, d, NodesOf(s'.next))
  {
    LayerInReach(edges, d, target, k, s.next);
    assert s'.seen == s.seen + Step(edges, d, NodesOf(s.next));
    NextLevel(edges, d, {target}, k, s.seen, NodesOf(s.next), s'.seen, NodesOf(s'.next));
  }

  lemma LevelEnds(edges: set<Edge>, d: Direction, target: NodeId, k: nat, s': State)
    requires Sound(edges, d, target, k, s')
    requires |s'.results| < MAX_IMPACT ==>
      s'.seen == Reach(edges, d, {target}, k + 1) && Step(edges, d, s'.seen) <= s'.seen + Step(edges, d, NodesOf(s'.next))
    ensures AtLevel(edges, d, target, k + 1, s')
  {
    ReachGrows(edges, d, {target}, k + 1, k + 2);
    assert NodesOf([]) == {};
  }

  lemma AdvanceIsSound(edges: set<Edge>, d: Direction, target: NodeId, k: nat, s: State, orders: seq<seq<Edge>>)
    requires d != Undirected && AtLevel(edges, d, target, k, s) && Orders(edges, orders, s.next)
    ensures AtLevel(edges, d, target, k + 1, Advance(s, d, orders))
  {
    var s' := Advance(s, d, orders);
    VisitsAreSound(edges, d, target, k, State([], s.seen, s.results), s.next, orders, |s.next|);
    assert s.next[..|s.next|] == s.next;
    if |s'.results| < MAX_IMPACT { WholeLevel(edges, d, target, k, s, s'); }
    LevelEnds(edges, d, target, k, s');
  }

  lemma {:induction false} AfterIsSound(edges: set<Edge>, schedule: Schedule, k: nat, d: Direction, target: NodeId)
    requires d != Undirected && k <= |schedule| && Scheduled(edges, schedule, k, d, target)
    ensures AtLevel(edges, d, target, k, After(schedule, k, d, target))
  {
    if k == 0 {
      StartAtLevel(edges, d, target);
    } else {
      AfterIsSound(edges, schedule, k - 1, d, target);
      AdvanceIsSound(edges, d, target, k - 1, After(schedule, k - 1, d, target), schedule[k - 1]);
    }
  }

  /** Every result is good and no node is named twice; unless the search was cut off at the bound, the
      results name exactly the nodes at distance 1 to depth. */
  ghost predicate Answer(edges: set<Edge>, d: Direction, target: NodeId, depth: nat, results: seq<Found>, truncated: bool) {
    && AllOK(edges, d, target, results) && NodesDistinct(results)
    && |results| <= MAX_IMPACT && (truncated <==> |results| == MAX_IMPACT)
    && NodesOf(results) <= Reach(edges, d, {target}, depth) - {target}
    && (!truncated ==> NodesOf(results) == Reach(edges, d, {target}, depth) - {target})
  }

  /** As many resources as the bound, or more, are within the depth, not counting the target. */
  ghost predicate CutOff(edges: set<Edge>, d: Direction, target: NodeId, depth: nat) {
    |Reach(edges, d, {target}, depth)| > MAX_IMPACT
  }

  lemma {:induction false} DistinctCount(found: seq<Found>)
    requires NodesDistinct(found)
    ensures |NodesOf(found)| == |found|
  {
    if found != [] {
      var n := |found| - 1;
      DistinctCount(found[..n]);
      assert found == found[..n] + [found[n]];
      Append(found[..n], found[n]);
      forall f | f in found[..n] ensures f.node != found[n].node {
        var i :| 0 <= i < n && found[i] == f;
      }
    }
  }

  /** A search is cut off exactly when there are as many resources as the bound. */
  lemma CutOffExactly(edges: set<Edge>, d: Direction, target: NodeId, depth: nat, results: seq<Found>, truncated: bool)
    requires Answer(edges, d, target, depth, results, truncated)
    ensures truncated <==> CutOff(edges, d, target, depth)
  {
    var reached := Reach(edges, d, {target}, depth);
    ReachGrows(edges, d, {target}, 0, depth);
    DistinctCount(results);
    Subset(NodesOf(results), reached - {target});
    assert |reached - {target}| == |reached| - 1;
  }

  /** Whatever the order, the search is sound and, unless cut off, complete. */
  lemma SearchAnswers(edges: set<Edge>, d: Direction, target: NodeId, depth: nat, schedule: Schedule, results: seq<Found>)
    requires d != Undirected && Yields(edges, d, target, depth, schedule, results)
    ensures Answer(edges, d, target, depth, results, |results| == MAX_IMPACT)
    ensures forall f :: f in results ==> 1 < |f.path| <= depth + 1
  {
    var k, s := |schedule|, After(schedule, |schedule|, d, target);
    AfterIsSound(edges, schedule, k, d, target);
    ReachGrows(edges, d, {target}, k, depth);
    if |results| < MAX_IMPACT && k < depth {
      assert NodesOf(s.next) == {};
      NothingNew(edges, d, {target}, k, depth);
    }
  }

  // ---------- the loops ----------

  lemma {:induction false} SomeOrder(edges: set<Edge>) returns (order: seq<Edge>)
    ensures Enumerates(order, edges)
  {
    order := [];
    if edges != {} {
      var e :| e in edges;
      var rest := SomeOrder(edges - {e});
      order := rest + [e];
      assert multiset(edges) == multiset(edges - {e}) + multiset{e};
    }
  }

  lemma OrderNext(order: seq<Edge>, edges: set<Edge>, todo: set<Edge>, e: Edge)
    requires todo <= edges && e in todo && Enumerates(order, edges - todo)
    ensures Enumerates(order + [e], edges - (todo - {e}))
  {
    assert edges - (todo - {e}) == edges - todo + {e};
    assert multiset(edges - todo + {e}) == multiset(edges - todo) + multiset{e};
  }

  lemma OrderRest(order: seq<Edge>, edges: set<Edge>, todo: set<Edge>) returns (rest: seq<Edge>)
    requires todo <= edges && Enumerates(order, edges - todo)
    ensures Enumerates(order + rest, edges)
  {
    rest := SomeOrder(todo);
    assert multiset(edges) == multiset(edges - todo) + multiset(todo);
  }

  lemma {:induction false} ScanPrefix(s: State, d: Direction, from: Found, order: seq<Edge>, more: seq<Edge>, n: nat)
    requires n <= |order| && order <= more
    ensures Scan(s, d, from, more, n) == Scan(s, d, from, order, n)
  {
    if n > 0 { ScanPrefix(s, d, from, order, more, n - 1); }
  }

  lemma {:induction false} ScanFull(s: State, d: Direction, from: Found, order: seq<Edge>, i: nat, n: nat)
    requires i <= n <= |order| && |Scan(s, d, from, order, i).results| >= MAX_IMPACT
    ensures Scan(s, d, from, order, n) == Scan(s, d, from, order, i)
  {
    if i < n { ScanFull(s, d, from, order, i, n - 1); }
  }

  lemma {:induction false} VisitsPrefix(s: State, d: Direction, frontier: seq<Found>, orders: seq<seq<Edge>>, more: seq<seq<Edge>>, n: nat)
    requires n <= |orders| && n <= |frontier| && orders <= more
    ensures Visits(s, d, frontier, more, n) == Visits(s, d, frontier, orders, n)
  {
    if n > 0 { VisitsPrefix(s, d, frontier, orders, more, n - 1); }
  }

  lemma {:induction false} VisitsFull(s: State, d: Direction, frontier: seq<Found>, orders: seq<seq<Edge>>, i: nat, n: nat)
    requires i <= n <= |orders| && n <= |frontier| && |Visits(s, d, frontier, orders, i).results| >= MAX_IMPACT
    ensures Visits(s, d, frontier, orders, n) == Visits(s, d, frontier, orders, i)
  {
    if i < n {
      VisitsFull(s, d, frontier, orders, i, n - 1);
      ScanFull(Visits(s, d, frontier, orders, n - 1), d, frontier[n - 1], orders[n - 1], 0, |orders[n - 1]|);
    }
  }

  lemma VisitsNext(s: State, d: Direction, frontier: seq<Found>, orders: seq<seq<Edge>>, more: seq<seq<Edge>>, n: nat)
    requires n == |orders| < |more| && n < |frontier| && orders <= more
    ensures Visits(s, d, frontier, more, n + 1) == Scan(Visits(s, d, frontier, orders, n), d, frontier[n], more[n], |more[n]|)
  {
    VisitsPrefix(s, d, frontier, orders, more, n);
  }

  lemma VisitsPadded(edges: set<Edge>, s: State, d: Direction, frontier: seq<Found>, orders: seq<seq<Edge>>) returns (padded: seq<seq<Edge>>)
    requires 0 < |orders| <= |frontier| && forall j :: 0 <= j < |orders| ==> Enumerates(orders[j], edges)
    requires |Visits(s, d, frontier, orders, |orders|).results| >= MAX_IMPACT
    ensures Orders(edges, padded, frontier)
    ensures Visits(s, d, frontier, padded, |frontier|) == Visits(s, d, frontier, orders, |orders|)
  {
    padded := orders + seq(|frontier| - |orders|, _ => orders[0]);
    VisitsPrefix(s, d, frontier, orders, padded, |orders|);
    VisitsFull(s, d, frontier, padded, |orders|, |frontier|);
  }

  lemma {:induction false} AfterPrefix(edges: set<Edge>, schedule: Schedule, more: Schedule, n: nat, d: Direction, target: NodeId)
    requires n <= |schedule| && schedule <= more
    ensures After(more, n, d, target) == After(schedule, n, d, target)
    ensures Scheduled(edges, more, n, d, target) == Scheduled(edges, schedule, n, d, target)
  {
    if n > 0 { AfterPrefix(edges, schedule, more, n - 1, d, target); }
  }

  lemma AfterNext(edges: set<Edge>, schedule: Schedule, orders: seq<seq<Edge>>, d: Direction, target: NodeId)
    requires Scheduled(edges, schedule, |schedule|, d, target) && Orders(edges, orders, After(schedule, |schedule|, d, target).next)
    ensures Scheduled(edges, schedule + [orders], |schedule| + 1, d, target)
    ensures After(schedule + [orders], |schedule| + 1, d, target) == Advance(After(schedule, |schedule|, d, target), d, orders)
  {
    AfterPrefix(edges, schedule, schedule + [orders], |schedule|, d, target);
  }

  /** The resources one visited resource leads to that were not seen yet, in the order its edges come
      up; the loop ends early at the bound. */
  method Visit(edges: set<Edge>, d: Direction, from: Found, s0: State) returns (s: State, truncated: bool, ghost order: seq<Edge>)
    requires |s0.results| < MAX_IMPACT
    ensures Enumerates(order, edges) && s == Scan(s0, d, from, order, |order|)
    ensures truncated <==> |s.results| >= MAX_IMPACT
  {
    s, truncated, order := s0, false, [];
    var todo := edges;
    while todo != {}
      invariant todo <= edges && !truncated && |s.results| < MAX_IMPACT
      invariant Enumerates(order, edges - todo) && s == Scan(s0, d, from, order, |order|)
      decreases |todo|
    {
      var e :| e in todo;
      OrderNext(order, edges, todo, e);
      ScanPrefix(s0, d, from, order, order + [e], |order|);
      order := order + [e];
      todo := todo - {e};
      var near, far := if d == Dependents then e.to else e.from, if d == Dependents then e.from else e.to;
      if near != from.node || far in s.seen { continue; }
      var f := Found(far, Weaker(from.confidence, e.confidence), from.path + [far]);
      s := State(s.next + [f], s.seen + {far}, s.results + [f]);
      if |s.results| >= MAX_IMPACT {
        truncated := true;
        ghost var rest := OrderRest(order, edges, todo);
        ScanPrefix(s0, d, from, order, order + rest, |order|);
        ScanFull(s0, d, from, order + rest, |order|, |order + rest|);
        order := order + rest;
        return;
      }
    }
    assert edges - todo == edges;
  }

  /** One level of the search: the resources of the frontier in turn. */
  method VisitLevel(edges: set<Edge>, d: Direction, s0: State) returns (s: State, truncated: bool, ghost orders: seq<seq<Edge>>)
    requires |s0.results| < MAX_IMPACT
    ensures Orders(edges, orders, s0.next) && s == Advance(s0, d, orders)
    ensures truncated <==> |s.results| >= MAX_IMPACT
  {
    var frontier := s0.next;
    s, truncated, orders := State([], s0.seen, s0.results), false, [];
    for i := 0 to |frontier|
      invariant !truncated && |s.results| < MAX_IMPACT
      invariant |orders| == i && forall j :: 0 <= j < i ==> Enumerates(orders[j], edges)
      invariant s == Visits(State([], s0.seen, s0.results), d, frontier, orders, i)
    {
      ghost var order;
      s, truncated, order := Visit(edges, d, frontier[i], s);
      VisitsNext(State([], s0.seen, s0.results), d, frontier, orders, orders + [order], i);
      orders := orders + [order];
      if truncated {
        orders := VisitsPadded(edges, State([], s0.seen, s0.results), d, frontier, orders);
        return;
      }
    }
  }

  /** The breadth-first search from the target. */
  method Search(edges: set<Edge>, d: Direction, target: NodeId, depth: nat)
    returns (results: seq<Found>, truncated: bool, ghost schedule: Schedule)
    ensures Yields(edges, d, target, depth, schedule, results) && (truncated <==> |results| >= MAX_IMPACT)
  {
    var s := State([Found(target, Authoritative, [target])], {target}, []);
    truncated, schedule := false, [];
    var level := 0;
    while level < depth && s.next != []
      invariant level == |schedule| <= depth && !truncated && |s.results| < MAX_IMPACT
      invariant Scheduled(edges, schedule, level, d, target) && After(schedule, level, d, target) == s
    {
      ghost var orders;
      s, truncated, orders := VisitLevel(edges, d, s);
      AfterNext(edges, schedule, orders, d, target);
      schedule := schedule + [orders];
      level := level + 1;
      if truncated { break; }
    }
    results := s.results;
  }

  method Traverse(edges: set<Edge>, d: Direction, target: NodeId, depth: nat)
    returns (results: seq<Found>, truncated: bool, ghost schedule: Schedule)
    requires d != Undirected
    ensures Yields(edges, d, target, depth, schedule, results)
    ensures Answer(edges, d, target, depth, results, truncated)
  {
    results, truncated, schedule := Search(edges, d, target, depth);
    SearchAnswers(edges, d, target, depth, schedule, results);
  }

  // ---------- the impact result ----------

  datatype Impact = Impact(
    confirmed: seq<Found>, potential: seq<Found>, unknown: seq<Found>, backedBy: seq<Found>, incomplete: bool)

  /** Impact analysis for one target. Unless the result says it is incomplete, its three lists together
      hold exactly the resources that depend on the target within the depth, each once, and BackedBy
      exactly those that back it; every entry is a real shortest path with its weakest confidence. */
  method AnalyzeImpact(edges: set<Edge>, target: NodeId, depth: nat, sourcesIncomplete: bool) returns (r: Impact)
    ensures forall f :: f in r.confirmed ==> Rank(f.confidence) <= 1
    ensures forall f :: f in r.potential ==> f.confidence == Potential
    ensures forall f :: f in r.unknown ==> f.confidence == Unknown
    ensures AllOK(edges, Dependents, target, r.confirmed + r.potential + r.unknown)
    ensures AllOK(edges, Backing, target, r.backedBy)
    ensures NodesDistinct(r.confirmed + r.potential + r.unknown) && NodesDistinct(r.backedBy)
    ensures r.incomplete <==> sourcesIncomplete || CutOff(edges, Dependents, target, depth) || CutOff(edges, Backing, target, depth)
    ensures !r.incomplete ==>
      NodesOf(r.confirmed + r.potential + r.unknown) == Reach(edges, Dependents, {target}, depth) - {target}
    ensures !r.incomplete ==> NodesOf(r.backedBy) == Reach(edges, Backing, {target}, depth) - {target}
  {
    var results, truncated, s := Traverse(edges, Dependents, target, depth);
    var backing, backingTruncated, t := Traverse(edges, Backing, target, depth);
    var confirmed, potential, unknown := Classify(results);
    r := Impact(confirmed, potential, unknown, backing, sourcesIncomplete || truncated || backingTruncated);
    SameNodes(confirmed + potential + unknown, results);
    CutOffExactly(edges, Dependents, target, depth, results, truncated);
    CutOffExactly(edges, Backing, target, depth, backing, backingTruncated);
  }

  /** Every result goes into one of the three lists. */
  method Classify(results: seq<Found>) returns (confirmed: seq<Found>, potential: seq<Found>, unknown: seq<Found>)
    requires NodesDistinct(results)
    ensures forall f :: f in confirmed ==> Rank(f.confidence) <= 1
    ensures forall f :: f in potential ==> f.confidence == Potential
    ensures forall f :: f in unknown ==> f.confidence == Unknown
    ensures SameMembers(confirmed + potential + unknown, results)
    ensures NodesDistinct(confirmed + potential + unknown)
  {
    confirmed, potential, unknown := [], [], [];
    var i := 0;
    while i < |results|
      invariant 0 <= i <= |results|
      invariant forall f :: f in confirmed ==> Rank(f.confidence) <= 1
      invariant forall f :: f in potential ==> f.confidence == Potential
      invariant forall f :: f in unknown ==> f.confidence == Unknown
      invariant SameMembers(confirmed + potential + unknown, results[..i])
      invariant NodesDistinct(confirmed + potential + unknown)
    {
      var f := results[i];
      assert results[..i + 1] == results[..i] + [f];
      NewNode(results, i, confirmed + potential + unknown);
      InsertAll(confirmed, potential, unknown, f);
      match f.confidence {
        case Authoritative | Derived => confirmed := confirmed + [f];
        case Potential => potential := potential + [f];
        case Unknown => unknown := unknown + [f];
      }
      i := i + 1;
    }
    assert results[..|results|] == results;
  }

  /** Appending a new node to any one of three lists keeps their concatenation free of repetition. */
  lemma InsertAll(a: seq<Found>, b: seq<Found>, c: seq<Found>, f: Found)
    requires NodesDistinct(a + b + c) && forall j :: 0 <= j < |a + b + c| ==> (a + b + c)[j].node != f.node
    ensures NodesDistinct((a + [f]) + b + c) && NodesDistinct(a + (b + [f]) + c) && NodesDistinct(a + b + (c + [f]))
    ensures forall g :: g in (a + [f]) + b + c <==> g in a + b + c || g == f
    ensures forall g :: g in a + (b + [f]) + c <==> g in a + b + c || g == f
    ensures forall g :: g in a + b + (c + [f]) <==> g in a + b + c || g == f
  {
    assert a + (b + c) == a + b + c && (a + b + c) + [] == a + b + c;
    InsertAt(a, f, b + c);
    InsertAt(a + b, f, c);
    InsertAt(a + b + c, f, []);
    assert a + [f] + (b + c) == (a + [f]) + b + c;
    assert (a + b) + [f] + c == a + (b + [f]) + c;
    assert (a + b + c) + [f] + [] == a + b + (c + [f]);
  }

  ghost predicate SameMembers(a: seq<Found>, b: seq<Found>) { forall f :: f in a <==> f in b }

  lemma SameNodes(a: seq<Found>, b: seq<Found>)
    requires SameMembers(a, b)
    ensures NodesOf(a) == NodesOf(b)
  {}

  lemma NewNode(results: seq<Found>, i: nat, sorted: seq<Found>)
    requires i < |results| && NodesDistinct(results) && SameMembers(sorted, results[..i])
    ensures forall j :: 0 <= j < |sorted| ==> sorted[j].node != results[i].node
  {
    forall j | 0 <= j < |sorted| ensures sorted[j].node != results[i].node {
      assert sorted[j] in results[..i];
      var k :| 0 <= k < i && results[k] == sorted[j];
    }
  }

  lemma InsertAt(a: seq<Found>, f: Found, b: seq<Found>)
    requires NodesDistinct(a + b) && forall j :: 0 <= j < |a + b| ==> (a + b)[j].node != f.node
    ensures NodesDistinct(a + [f] + b)
    ensures forall g :: g in a + [f] + b <==> g in a + b || g == f
  {
    var s, t := a + b, a + [f] + b;
    assert forall j :: 0 <= j < |a| ==> t[j] == s[j];
    assert forall j :: |a| < j < |t| ==> t[j] == s[j - 1];
  }
}
