/** Why the order in which Go visits edges does not show in the graphs the engine builds
    (apps/api/internal/storage/context_engine.go): the kind of a resource and its distance from the target
    decide its confidence. */
module ImpactOrder {
  import opened Common
  import opened GraphBuild
  import opened GraphIds
  import opened VolumeImpact
  import opened ImpactConfidence
  import opened ImpactSearch
  import Graph = RelationshipGraph
  import Names = ProviderNames

  type Confidence = Graph.Confidence

  // ---------- a grading of the graph gives a mark ----------

  /** Where a step along the link begins and ends. */
  function Begin(d: Graph.Direction, l: Link): NodeId { if d == Graph.Dependents then l.to else l.from }
  function End(d: Graph.Direction, l: Link): NodeId { if d == Graph.Dependents then l.from else l.to }

  /** `at` says what may be found at which distance, `value` with which confidence, and every edge agrees. */
  ghost predicate Graded(edges: map<Link, Confidence>, d: Graph.Direction, t: NodeId,
                         at: (NodeId, nat) -> bool, value: (NodeId, nat) -> Confidence) {
    && at(t, 0) && value(t, 0) == Graph.Authoritative
    && forall l, k: nat :: l in edges && at(Begin(d, l), k) ==>
         at(End(d, l), k + 1) && value(End(d, l), k + 1) == Graph.Weaker(value(Begin(d, l), k), edges[l])
  }

  /** All edges join these nodes, which have different ids. */
  ghost predicate Written(edges: map<Link, Confidence>, nodes: set<NodeId>, id: NodeId -> string) {
    TellsApart(id, nodes) && forall l :: l in edges ==> l.from in nodes && l.to in nodes
  }

  lemma StepAlong(edges: map<Link, Confidence>, id: NodeId -> string, d: Graph.Direction, e: Graph.Edge, x: string, y: string)
    returns (l: Link)
    requires d != Graph.Undirected && e in EdgesOf(edges, id) && Graph.Joins(d, e, x, y)
    ensures l in edges && id(Begin(d, l)) == x && id(End(d, l)) == y && edges[l] == e.confidence
  {
    l :| l in edges && e == Graph.Edge(TypeName(l.relation), id(l.from), id(l.to), edges[l]);
  }

  lemma StepsFurther(edges: set<Graph.Edge>, d: Graph.Direction, target: string, k: nat, e: Graph.Edge, x: string, y: string)
    requires e in edges && Graph.Joins(d, e, x, y)
    ensures x in Graph.Reach(edges, d, {target}, k) ==> y in Graph.Reach(edges, d, {target}, k + 1)
  {}

  /** What is found one level further is one edge from something at the level. */
  lemma PreviousLevel(edges: set<Graph.Edge>, d: Graph.Direction, target: string, k: nat, y: string) returns (e: Graph.Edge, x: string)
    requires Exactly(edges, d, target, k + 1, y)
    ensures e in edges && Graph.Joins(d, e, x, y) && Exactly(edges, d, target, k, x)
  {
    e, x := Graph.StepOut(edges, d, Graph.Reach(edges, d, {target}, k), y);
    if k > 0 { StepsFurther(edges, d, target, k - 1, e, x, y); }
  }

  /** A node at that level, and how it is graded. */
  ghost predicate Stands(edges: map<Link, Confidence>, nodes: set<NodeId>, id: NodeId -> string, d: Graph.Direction, t: NodeId,
                         at: (NodeId, nat) -> bool, k: nat, n: NodeId) {
    n in nodes && at(n, k) && Exactly(EdgesOf(edges, id), d, id(t), k, id(n))
  }

  lemma NextGraded(edges: map<Link, Confidence>, nodes: set<NodeId>, id: NodeId -> string, d: Graph.Direction, t: NodeId,
                   at: (NodeId, nat) -> bool, value: (NodeId, nat) -> Confidence, k: nat, m: NodeId, e: Graph.Edge, y: string)
    returns (n: NodeId)
    requires d != Graph.Undirected && Written(edges, nodes, id) && Graded(edges, d, t, at, value)
    requires m in nodes && at(m, k) && e in EdgesOf(edges, id) && Graph.Joins(d, e, id(m), y)
    ensures id(n) == y && n in nodes && at(n, k + 1) && value(n, k + 1) == Graph.Weaker(value(m, k), e.confidence)
  {
    var l := StepAlong(edges, id, d, e, id(m), y);
    assert Begin(d, l) == m;
    n := End(d, l);
  }

  /** A property of nodes and distances that every edge carries on. */
  ghost predicate Carried(edges: set<Graph.Edge>, d: Graph.Direction, holds: (string, nat) -> bool) {
    forall e, x, y, k: nat :: e in edges && Graph.Joins(d, e, x, y) && holds(x, k) ==> holds(y, k + 1)
  }

  lemma {:induction false} LevelHolds(edges: set<Graph.Edge>, d: Graph.Direction, target: string, holds: (string, nat) -> bool, k: nat, y: string)
    requires Carried(edges, d, holds) && holds(target, 0) && Exactly(edges, d, target, k, y)
    ensures holds(y, k)
  {
    if k > 0 {
      var e, x := PreviousLevel(edges, d, target, k - 1, y);
      LevelHolds(edges, d, target, holds, k - 1, x);
    }
  }

  lemma LevelIsGraded(edges: map<Link, Confidence>, nodes: set<NodeId>, id: NodeId -> string, d: Graph.Direction, t: NodeId,
                      at: (NodeId, nat) -> bool, value: (NodeId, nat) -> Confidence, k: nat, y: string) returns (n: NodeId)
    requires d != Graph.Undirected && Written(edges, nodes, id) && t in nodes && Graded(edges, d, t, at, value)
    requires Exactly(EdgesOf(edges, id), d, id(t), k, y)
    ensures id(n) == y && n in nodes && at(n, k)
  {
    var holds := (y: string, k: nat) => exists n :: n in nodes && id(n) == y && at(n, k);
    forall e, x, y, k: nat | e in EdgesOf(edges, id) && Graph.Joins(d, e, x, y) && holds(x, k)
      ensures holds(y, k + 1)
    {
      var m :| m in nodes && id(m) == x && at(m, k);
      var n := NextGraded(edges, nodes, id, d, t, at, value, k, m, e, y);
    }
    LevelHolds(EdgesOf(edges, id), d, id(t), holds, k, y);
    n :| n in nodes && id(n) == y && at(n, k);
  }

  /** The grade of the node with that id, at its level. */
  ghost function Grade(edges: map<Link, Confidence>, nodes: set<NodeId>, id: NodeId -> string, d: Graph.Direction, t: NodeId,
                       at: (NodeId, nat) -> bool, value: (NodeId, nat) -> Confidence, y: string): Confidence {
    if n, k: nat :| id(n) == y && Stands(edges, nodes, id, d, t, at, k, n) then value(n, k) else Graph.Authoritative
  }

  lemma OneLevel(edges: set<Graph.Edge>, d: Graph.Direction, target: string, j: nat, k: nat, y: string)
    requires Exactly(edges, d, target, j, y) && Exactly(edges, d, target, k, y)
    ensures j == k
  {
    if j < k {
      LevelsApart(edges, d, target, j, k, y, y);
    } else if k < j {
      LevelsApart(edges, d, target, k, j, y, y);
    }
  }

  lemma GradeOf(edges: map<Link, Confidence>, nodes: set<NodeId>, id: NodeId -> string, d: Graph.Direction, t: NodeId,
                at: (NodeId, nat) -> bool, value: (NodeId, nat) -> Confidence, n: NodeId, k: nat)
    requires Written(edges, nodes, id) && Stands(edges, nodes, id, d, t, at, k, n)
    ensures Grade(edges, nodes, id, d, t, at, value, id(n)) == value(n, k)
  {
    var m, j: nat :| id(m) == id(n) && Stands(edges, nodes, id, d, t, at, j, m)
      && Grade(edges, nodes, id, d, t, at, value, id(n)) == value(m, j);
    assert Stands(edges, nodes, id, d, t, at, j, m) && id(m) == id(n);
    OneLevel(EdgesOf(edges, id), d, id(t), j, k, id(n));
  }

  lemma GradedAgrees(edges: map<Link, Confidence>, nodes: set<NodeId>, id: NodeId -> string, d: Graph.Direction, t: NodeId,
                     at: (NodeId, nat) -> bool, value: (NodeId, nat) -> Confidence, depth: nat)
    requires d != Graph.Undirected && Written(edges, nodes, id) && t in nodes && Graded(edges, d, t, at, value)
    ensures Agrees(edges, id, d, t, depth)
  {
    var E, target := EdgesOf(edges, id), id(t);
    var mark := y => Grade(edges, nodes, id, d, t, at, value, y);
    GradeOf(edges, nodes, id, d, t, at, value, t, 0);
    forall k: nat, e, x, y | k < depth && Leads(E, d, target, k, e, x, y)
      ensures mark(y) == Graph.Weaker(mark(x), e.confidence)
    {
      GradesAgree(edges, nodes, id, d, t, at, value, k, e, x, y);
    }
    assert Agreed(E, d, target, depth, mark);
  }

  lemma GradesAgree(edges: map<Link, Confidence>, nodes: set<NodeId>, id: NodeId -> string, d: Graph.Direction, t: NodeId,
                    at: (NodeId, nat) -> bool, value: (NodeId, nat) -> Confidence, k: nat, e: Graph.Edge, x: string, y: string)
    requires d != Graph.Undirected && Written(edges, nodes, id) && t in nodes && Graded(edges, d, t, at, value)
    requires Leads(EdgesOf(edges, id), d, id(t), k, e, x, y)
    ensures Grade(edges, nodes, id, d, t, at, value, y) == Graph.Weaker(Grade(edges, nodes, id, d, t, at, value, x), e.confidence)
  {
    var m := LevelIsGraded(edges, nodes, id, d, t, at, value, k, x);
    var n := NextGraded(edges, nodes, id, d, t, at, value, k, m, e, y);
    GradeOf(edges, nodes, id, d, t, at, value, m, k);
    GradeOf(edges, nodes, id, d, t, at, value, n, k + 1);
  }

  /** Some mark agrees with all edges from one level to the next. */
  ghost predicate Agrees(edges: map<Link, Confidence>, id: NodeId -> string, d: Graph.Direction, t: NodeId, depth: nat) {
    exists mark :: Agreed(EdgesOf(edges, id), d, id(t), depth, mark)
  }

  // ---------- what the edges join ----------

  /** The kinds of backends that hold volumes: everything an adapter's reference names. */
  predicate Holds(k: Kind) { k.Other? || k in {Image, Subvolume} }

  /** References name such backends, and operations with the same id work on the same thing. */
  ghost predicate Conventional(found: Inventory) {
    && (forall v :: v in found.volumes && v.provider == found.provider && Refers(v) ==> Holds(v.ref.value.kind))
    && (forall o, p :: Works(found, o) && Works(found, p) && OperationId(o) == OperationId(p) ==> TargetOf(o) == TargetOf(p))
  }

  predicate Works(found: Inventory, o: Operation) {
    found.operations.Some? && o in found.operations.value && o.provider == found.provider
  }

  predicate Shaped(l: Link) {
    match l.relation
    case ManagedBy => l.from.kind == CsiDriver && l.to.kind == Provider
    case Provisions => (l.from.kind == StorageClass && l.to.kind == CsiDriver) || (l.from.kind == Pv && l.to.kind == StorageClass)
    case BackedBy => (l.from.kind == Pv && Holds(l.to.kind)) || (l.from.kind == VolumeSnapshot && l.to.kind in {Pvc, Pv})
    case Uses =>
      || (l.from.kind == Pvc && l.to.kind == StorageClass) || (l.from.kind == Pod && l.to.kind == Pvc)
      || (l.from.kind == Owner && l.to.kind == Pod)
    case Binds => l.from.kind == Pvc && l.to.kind == Pv
    case Attaches => (l.from.kind == Pod && l.to.kind == Machine) || (l.from.kind == VolumeAttachment && l.to.kind in {Pv, Machine})
    case OwnedBy => l.from.kind == Pod && l.to.kind == Owner
    case BelongsToPool => l.from.kind == Image && l.to.kind == BlockPool
    case BelongsToFilesystem => l.from.kind == Subvolume && l.to.kind == CephFilesystem
    case Affects => l.from.kind == StorageOperation
    case AffectedBy => l.from.kind == BlockPool && l.to.kind == Osd
  }

  lemma {:induction false} ClaimLinksAreShaped(claims: seq<Claim>, n: nat, provider: string, l: Link)
    requires n <= |claims| && OfClaims(claims, n, provider, l)
    ensures Shaped(l)
  {
    if OfClaims(claims, n - 1, provider, l) { ClaimLinksAreShaped(claims, n - 1, provider, l); }
  }

  lemma ExplainedIsShaped(found: Inventory, l: Link)
    requires Conventional(found) && Explained(found, l)
    ensures Shaped(l)
    ensures l.relation == Affects ==> exists o :: Works(found, o) && l == Link(Affects, OperationId(o), TargetOf(o))
  {
    if OfClaims(found.claims, |found.claims|, found.provider, l) {
      ClaimLinksAreShaped(found.claims, |found.claims|, found.provider, l);
      ClaimLinksFromUsers(found.claims, |found.claims|, found.provider, l);
    }
  }

  /** What an operation with this id works on. */
  ghost function Goal(found: Inventory, n: NodeId): NodeId {
    if o :| Works(found, o) && OperationId(o) == n then TargetOf(o) else n
  }

  /** A built graph: its edges are shaped, have the confidence of their kind, and those of operations lead
      to what they work on. */
  ghost predicate Regular(found: Inventory, edges: map<Link, Confidence>) {
    forall l :: l in edges ==> Shaped(l) && edges[l] == ConfidenceOf(l) && (l.relation == Affects ==> l.to == Goal(found, l.from))
  }

  lemma BuiltIsRegular(found: Inventory, nodes: map<NodeId, Details>, edges: map<Link, Confidence>)
    requires Conventional(found) && Closed(nodes, edges) && forall l :: l in edges ==> Explained(found, l)
    ensures Regular(found, edges)
  {
    forall l | l in edges
      ensures Shaped(l) && (l.relation == Affects ==> l.to == Goal(found, l.from))
    {
      ExplainedIsShaped(found, l);
      if l.relation == Affects {
        var o :| Works(found, o) && l == Link(Affects, OperationId(o), TargetOf(o));
        assert Works(found, o) && OperationId(o) == l.from;
      }
    }
  }

  // ---------- towards dependents ----------

  /** Backends, classes, volumes, claims and pods stand in storeys. */
  function Height(k: Kind): nat {
    match k
    case Osd | Provider => 0
    case BlockPool | CephFilesystem | CsiDriver => 1
    case Image | Subvolume | Other(_) | StorageClass => 2
    case Pv => 3
    case Pvc => 4
    case Pod | Machine | Owner => 5
    case VolumeAttachment | VolumeSnapshot | StorageOperation => 6
  }

  /** What may depend on something of kind t at distance k. Claims come at most one step apart, by their
      class or by their volume, and it takes two steps over an owner from one pod to another. */
  predicate MayDepend(t: Kind, y: Kind, k: nat) {
    var storey := k + Height(t);
    match y
    case Provider | Machine | CephFilesystem | Osd | Other(_) => false
    case CsiDriver => t == Provider && storey == 1
    case StorageClass => t in {Provider, CsiDriver} && storey == 2
    case BlockPool => t == Osd && storey == 1
    case Image => t in {Osd, BlockPool} && storey == 2
    case Subvolume => t == CephFilesystem && storey == 2
    case Pv => storey == 3
    case Pvc => storey == 3 || storey == 4
    case Pod => storey >= 4
    case Owner => storey >= 5
    case VolumeAttachment | VolumeSnapshot | StorageOperation => true
  }

  /** The confidence of whatever is not a pod or an owner. */
  function Usual(t: Kind): Confidence {
    if t == Osd then Graph.Potential else if t == BlockPool then Graph.Derived else Graph.Authoritative
  }

  function DependentValue(t: Kind, y: Kind, k: nat): Confidence {
    if k == 0 then Graph.Authoritative
    else if y == Owner || (y == Pod && k + Height(t) > 5) then Graph.Weaker(Usual(t), Graph.Derived)
    else Usual(t)
  }

  predicate AtDependent(t: NodeId, n: NodeId, k: nat) { if k == 0 then n == t else MayDepend(t.kind, n.kind, k) }

  lemma DependentStep(t: NodeId, l: Link, k: nat)
    requires Shaped(l) && l.relation != Affects && AtDependent(t, l.to, k)
    ensures AtDependent(t, l.from, k + 1)
    ensures DependentValue(t.kind, l.from.kind, k + 1) == Graph.Weaker(DependentValue(t.kind, l.to.kind, k), ConfidenceOf(l))
    ensures l.from.kind != StorageOperation && l.to.kind != StorageOperation
  {
    match l.relation
    case ManagedBy =>
    case Provisions =>
    case BackedBy =>
    case Uses =>
    case Binds =>
    case Attaches =>
    case OwnedBy =>
    case BelongsToPool =>
    case BelongsToFilesystem =>
    case AffectedBy =>
  }

  /** An operation is as certain as what it works on. */
  ghost function DependentMark(found: Inventory, t: NodeId, n: NodeId, k: nat): Confidence
    decreases k
  {
    if k > 0 && n.kind == StorageOperation then DependentMark(found, t, Goal(found, n), k - 1)
    else DependentValue(t.kind, n.kind, k)
  }

  lemma DependentsGraded(found: Inventory, edges: map<Link, Confidence>, t: NodeId)
    requires Regular(found, edges)
    ensures Graded(edges, Graph.Dependents, t, (n: NodeId, k: nat) => AtDependent(t, n, k), (n: NodeId, k: nat) => DependentMark(found, t, n, k))
  {
    forall l, k: nat | l in edges && AtDependent(t, l.to, k)
      ensures AtDependent(t, l.from, k + 1)
      ensures DependentMark(found, t, l.from, k + 1) == Graph.Weaker(DependentMark(found, t, l.to, k), edges[l])
    {
      if l.relation != Affects { DependentStep(t, l, k); }
    }
  }

  // ---------- towards what backs the target ----------

  /** How far from a pod something still comes by the pod's own claims. */
  function OwnReach(y: Kind): nat {
    match y
    case Pvc => 1
    case Pv => 2
    case StorageClass | Image | Subvolume | Other(_) => 3
    case CsiDriver | CephFilesystem => 4
    case _ => 5
  }

  /** What may back something of kind t at distance k. From a pod, what comes over its owner's other pods
      is at least two steps further than what comes by its own claims. */
  predicate MayBack(t: Kind, y: Kind, k: nat) {
    match y
    case Pod => t == Owner || (t == Pod && k >= 2)
    case Owner => t in {Pod, Owner}
    case Machine => t in {Pod, Owner, VolumeAttachment}
    case VolumeAttachment | VolumeSnapshot | StorageOperation => false
    case Pvc | Pv | Image | Subvolume | Other(_) | CephFilesystem => t == Pod ==> k != OwnReach(y) + 1
    case _ => true
  }

  function BackingValue(t: Kind, y: Kind, k: nat): Confidence {
    if k == 0 then Graph.Authoritative
    else match y
      case Osd => Graph.Potential
      case BlockPool | Pod | Owner => Graph.Derived
      case Machine => if t == VolumeAttachment then Graph.Authoritative else Graph.Derived
      case _ => if t == Owner || (t == Pod && k > OwnReach(y)) then Graph.Derived else Graph.Authoritative
  }

  predicate AtBacking(t: NodeId, n: NodeId, k: nat) { if k == 0 then n == t else MayBack(t.kind, n.kind, k) }

  lemma BackingStep(t: NodeId, l: Link, k: nat)
    requires Shaped(l) && t.kind != StorageOperation && AtBacking(t, l.from, k)
    ensures AtBacking(t, l.to, k + 1)
    ensures BackingValue(t.kind, l.to.kind, k + 1) == Graph.Weaker(BackingValue(t.kind, l.from.kind, k), ConfidenceOf(l))
  {
    match l.relation
    case ManagedBy =>
    case Provisions =>
    case BackedBy =>
    case Uses =>
    case Binds =>
    case Attaches =>
    case OwnedBy =>
    case BelongsToPool =>
    case BelongsToFilesystem =>
    case Affects =>
    case AffectedBy =>
  }

  lemma BackingGraded(found: Inventory, edges: map<Link, Confidence>, t: NodeId)
    requires Regular(found, edges) && t.kind != StorageOperation
    ensures Graded(edges, Graph.Backing, t, (n: NodeId, k: nat) => AtBacking(t, n, k), (n: NodeId, k: nat) => BackingValue(t.kind, n.kind, k))
  {
    forall l, k: nat | l in edges && AtBacking(t, l.from, k)
      ensures AtBacking(t, l.to, k + 1)
      ensures BackingValue(t.kind, l.to.kind, k + 1) == Graph.Weaker(BackingValue(t.kind, l.from.kind, k), edges[l])
    {
      BackingStep(t, l, k);
    }
  }

  // ---------- operations lead to one thing only ----------

  lemma EdgeInto(edges: map<Link, Confidence>, id: NodeId -> string, l: Link)
    requires l in edges
    ensures Graph.Edge(TypeName(l.relation), id(l.from), id(l.to), edges[l]) in EdgesOf(edges, id)
  {}

  /** Where a search for what backs an operation gets with its first step. */
  lemma OperationStep(edges: map<Link, Confidence>, nodes: set<NodeId>, id: NodeId -> string, t: NodeId, l: Link)
    requires Written(edges, nodes, id) && l in edges && l.from == t && forall m :: m in edges && m.from == t ==> m.to == l.to
    ensures Graph.Step(EdgesOf(edges, id), Graph.Backing, {id(t)}) == {id(l.to)}
  {
    var E := EdgesOf(edges, id);
    forall y | y in Graph.Step(E, Graph.Backing, {id(t)})
      ensures y == id(l.to)
    {
      var e, x := Graph.StepOut(E, Graph.Backing, {id(t)}, y);
      var m := StepAlong(edges, id, Graph.Backing, e, x, y);
    }
    EdgeInto(edges, id, l);
    Graph.StepIn(E, Graph.Backing, {id(t)}, Graph.Edge(TypeName(l.relation), id(t), id(l.to), edges[l]), id(t), id(l.to));
  }

  lemma {:induction false} ShiftReach(edges: set<Graph.Edge>, d: Graph.Direction, target: string, goal: string, k: nat)
    requires Graph.Step(edges, d, {target}) == {goal} && k > 0
    ensures Graph.Reach(edges, d, {target}, k) == Graph.Reach(edges, d, {goal}, k - 1) + {target}
  {
    if k == 1 {
      assert Graph.Reach(edges, d, {target}, 0) == {target} && Graph.Reach(edges, d, {goal}, 0) == {goal};
    } else {
      ShiftReach(edges, d, target, goal, k - 1);
      Graph.ReachGrows(edges, d, {goal}, 0, k - 2);
      ShiftNext(edges, d, target, goal, Graph.Reach(edges, d, {goal}, k - 2));
    }
  }

  lemma ShiftNext(edges: set<Graph.Edge>, d: Graph.Direction, target: string, goal: string, near: set<string>)
    requires Graph.Step(edges, d, {target}) == {goal} && goal in near
    ensures (near + {target}) + Graph.Step(edges, d, near + {target}) == (near + Graph.Step(edges, d, near)) + {target}
  {
    Graph.StepUnion(edges, d, near, target);
  }

  /** Everything but the target is one step nearer to what the target leads to. */
  lemma ShiftLevel(edges: set<Graph.Edge>, d: Graph.Direction, target: string, goal: string, k: nat, y: string)
    requires Graph.Step(edges, d, {target}) == {goal} && Exactly(edges, d, target, k + 1, y)
    ensures Exactly(edges, d, goal, k, y) && y != target
  {
    ShiftReach(edges, d, target, goal, k + 1);
    if k > 0 { ShiftReach(edges, d, target, goal, k); }
    Graph.ReachGrows(edges, d, {target}, 0, k);
  }

  lemma ShiftMark(edges: set<Graph.Edge>, d: Graph.Direction, target: string, goal: string, depth: nat, mark: string -> Confidence)
    requires Graph.Step(edges, d, {target}) == {goal} && goal != target && Agreed(edges, d, goal, depth, mark)
    requires forall e, y :: e in edges && Graph.Joins(d, e, target, y) ==> e.confidence == Graph.Authoritative
    ensures Agreed(edges, d, target, depth + 1, y => if y == target then Graph.Authoritative else mark(y))
  {
    forall k: nat, e, x, y | k < depth + 1 && Leads(edges, d, target, k, e, x, y)
      ensures y != target && mark(y) == Graph.Weaker(if x == target then Graph.Authoritative else mark(x), e.confidence)
    {
      ShiftLead(edges, d, target, goal, depth, mark, k, e, x, y);
    }
  }

  lemma ShiftLead(edges: set<Graph.Edge>, d: Graph.Direction, target: string, goal: string, depth: nat, mark: string -> Confidence,
                  k: nat, e: Graph.Edge, x: string, y: string)
    requires Graph.Step(edges, d, {target}) == {goal} && Agreed(edges, d, goal, depth, mark) && k <= depth
    requires Leads(edges, d, target, k, e, x, y) && (x == target ==> e.confidence == Graph.Authoritative)
    ensures y != target && mark(y) == Graph.Weaker(if x == target then Graph.Authoritative else mark(x), e.confidence)
  {
    ShiftLevel(edges, d, target, goal, k, y);
    if k == 0 {
      TargetOnly(edges, d, target, x);
      TargetOnly(edges, d, goal, y);
    } else {
      ShiftLevel(edges, d, target, goal, k - 1, x);
      assert Leads(edges, d, goal, k - 1, e, x, y);
    }
  }

  lemma TargetOnly(edges: set<Graph.Edge>, d: Graph.Direction, target: string, y: string)
    requires Exactly(edges, d, target, 0, y)
    ensures y == target
  {}

  lemma NowhereAgrees(edges: map<Link, Confidence>, nodes: set<NodeId>, id: NodeId -> string, t: NodeId, depth: nat)
    requires Written(edges, nodes, id) && t in nodes && forall l :: l in edges ==> l.from != t
    ensures Agrees(edges, id, Graph.Backing, t, depth)
  {
    var at := (n: NodeId, k: nat) => n == t && k == 0;
    GradedAgrees(edges, nodes, id, Graph.Backing, t, at, (n: NodeId, k: nat) => Graph.Authoritative, depth);
  }

  lemma OperationAgrees(found: Inventory, edges: map<Link, Confidence>, nodes: set<NodeId>, id: NodeId -> string, t: NodeId, l: Link, depth: nat)
    requires Regular(found, edges) && Written(edges, nodes, id) && l in edges && l.from == t && l.from != l.to
    requires t.kind == StorageOperation && depth > 0 && Agrees(edges, id, Graph.Backing, l.to, depth - 1)
    ensures Agrees(edges, id, Graph.Backing, t, depth)
  {
    var E := EdgesOf(edges, id);
    var mark :| Agreed(E, Graph.Backing, id(l.to), depth - 1, mark);
    OneGoal(found, edges, t, l);
    OperationStep(edges, nodes, id, t, l);
    forall e, y | e in E && Graph.Joins(Graph.Backing, e, id(t), y)
      ensures e.confidence == Graph.Authoritative
    {
      var m := StepAlong(edges, id, Graph.Backing, e, id(t), y);
    }
    ShiftMark(E, Graph.Backing, id(t), id(l.to), depth - 1, mark);
    assert Agreed(E, Graph.Backing, id(t), depth, y => if y == id(t) then Graph.Authoritative else mark(y));
  }

  lemma PlainBackingAgrees(found: Inventory, edges: map<Link, Confidence>, nodes: set<NodeId>, id: NodeId -> string, t: NodeId, depth: nat)
    requires Regular(found, edges) && Written(edges, nodes, id) && t in nodes && t.kind != StorageOperation
    ensures Agrees(edges, id, Graph.Backing, t, depth)
  {
    BackingGraded(found, edges, t);
    GradedAgrees(edges, nodes, id, Graph.Backing, t, (n: NodeId, k: nat) => AtBacking(t, n, k),
      (n: NodeId, k: nat) => BackingValue(t.kind, n.kind, k), depth);
  }

  lemma AtOnceAgrees(edges: map<Link, Confidence>, id: NodeId -> string, t: NodeId)
    ensures Agrees(edges, id, Graph.Backing, t, 0)
  {
    assert Agreed(EdgesOf(edges, id), Graph.Backing, id(t), 0, y => Graph.Authoritative);
  }

  lemma OneGoal(found: Inventory, edges: map<Link, Confidence>, t: NodeId, l: Link)
    requires Regular(found, edges) && l in edges && l.from == t && t.kind == StorageOperation
    ensures forall m :: m in edges && m.from == t ==> m.to == l.to && edges[m] == Graph.Authoritative
  {
    forall m | m in edges && m.from == t
      ensures m.relation == Affects && m.to == Goal(found, t) && edges[m] == Graph.Authoritative
    {}
  }

  lemma {:induction false} BackingAgrees(found: Inventory, edges: map<Link, Confidence>, nodes: set<NodeId>, id: NodeId -> string, t: NodeId, depth: nat)
    requires Regular(found, edges) && Written(edges, nodes, id) && t in nodes && forall l :: l in edges ==> l.from != l.to
    ensures Agrees(edges, id, Graph.Backing, t, depth)
    decreases depth
  {
    if t.kind != StorageOperation {
      PlainBackingAgrees(found, edges, nodes, id, t, depth);
    } else if depth == 0 {
      AtOnceAgrees(edges, id, t);
    } else if l :| l in edges && l.from == t {
      BackingAgrees(found, edges, nodes, id, l.to, depth - 1);
      OperationAgrees(found, edges, nodes, id, t, l, depth);
    } else {
      NowhereAgrees(edges, nodes, id, t, depth);
    }
  }

  // ---------- every graph the engine builds ----------

  /** Whatever the target, the depth and the direction, a mark exists: no two shortest paths to a resource
      differ in confidence. */
  lemma BuiltGraphAgrees(found: Inventory, nodes: map<NodeId, Details>, edges: map<Link, Confidence>, id: NodeId -> string,
                         d: Graph.Direction, t: NodeId, depth: nat)
    requires Conventional(found) && Closed(nodes, edges) && TellsApart(id, nodes.Keys) && forall l :: l in edges ==> Explained(found, l)
    requires t in nodes && d != Graph.Undirected
    ensures Agrees(edges, id, d, t, depth)
  {
    BuiltIsRegular(found, nodes, edges);
    if d == Graph.Backing {
      BackingAgrees(found, edges, nodes.Keys, id, t, depth);
    } else {
      DependentsGraded(found, edges, t);
      GradedAgrees(edges, nodes.Keys, id, d, t, (n: NodeId, k: nat) => AtDependent(t, n, k),
        (n: NodeId, k: nat) => DependentMark(found, t, n, k), depth);
    }
  }

  lemma AgreesIsOrderFree(edges: map<Link, Confidence>, id: NodeId -> string, d: Graph.Direction, t: NodeId, depth: nat)
    requires d != Graph.Undirected && Agrees(edges, id, d, t, depth)
    ensures OrderFree(EdgesOf(edges, id), d, id(t), depth)
  {
    var E := EdgesOf(edges, id);
    var mark :| Agreed(E, d, id(t), depth, mark);
    forall f, g | MayReport(E, d, id(t), depth, f) && MayReport(E, d, id(t), depth, g) && f.node == g.node
      ensures f.confidence == g.confidence
    {
      MarkIsReported(E, d, id(t), depth, mark, f);
      MarkIsReported(E, d, id(t), depth, mark, g);
    }
  }

  // ---------- what the adapters produce ----------

  /** Every reference is of one of the adapters, every list one that the engine reads, and operations have
      ids of their own. */
  ghost predicate FromAdapters(found: Inventory) {
    && (forall v :: v in found.volumes && Refers(v) ==> ReferenceKind(v.ref.value.kind))
    && (forall list :: list in found.resources ==> ListKind(list.0))
    && (forall o, p :: Works(found, o) && Works(found, p) && OperationId(o) == OperationId(p) ==> o == p)
  }

  predicate ReferenceKind(k: Kind) { k in {Image, Subvolume} || (k.Other? && k.name in HOLDERS) }

  predicate ListKind(k: Kind) { k in {BlockPool, CephFilesystem, Osd, Image} || (k.Other? && k.name in LISTED) }

  lemma AdaptersAreConventional(found: Inventory)
    requires FromAdapters(found)
    ensures Conventional(found) && OwnKinds(found)
  {
    forall k: Kind | ReferenceKind(k) || ListKind(k)
      ensures OwnKind(k)
    {
      if k.Other? { AdapterKindsAreOwn(k.name); }
    }
  }

  // ---------- the build ----------

  /** For every target, depth and direction. */
  ghost predicate OrderNeverShows(nodes: set<NodeId>, edges: map<Link, Confidence>, id: NodeId -> string) {
    forall t, d, depth :: t in nodes && d != Graph.Undirected ==> OrderFree(EdgesOf(edges, id), d, id(t), depth)
  }

  lemma BuiltGraphIsOrderFree(found: Inventory, nodes: map<NodeId, Details>, edges: map<Link, Confidence>, id: NodeId -> string)
    requires Conventional(found) && Closed(nodes, edges) && TellsApart(id, nodes.Keys) && forall l :: l in edges ==> Explained(found, l)
    ensures OrderNeverShows(nodes.Keys, edges, id)
  {
    forall t, d, depth | t in nodes && d != Graph.Undirected
      ensures OrderFree(EdgesOf(edges, id), d, id(t), depth)
    {
      BuiltGraphAgrees(found, nodes, edges, id, d, t, depth);
      AgreesIsOrderFree(edges, id, d, t, depth);
    }
  }

  /** The build, and the engine's ids: whatever the adapters produce, no confidence in an impact analysis of
      the graph depends on the order in which Go visits its edges, cut off or not. */
  method BuildOrderFree(found: Inventory) returns (b: Build?)
    ensures b == null <==> Names.Trim(found.provider) == ""
    ensures b != null && (FromAdapters(found) || (Conventional(found) && OwnKinds(found))) ==>
      OrderNeverShows(b.nodes.Keys, b.edges, n => CanonicalID(found.provider, n))
  {
    var built := BuildGraph(found);
    b := built;
    if FromAdapters(found) { AdaptersAreConventional(found); }
    if b != null && Conventional(found) && OwnKinds(found) {
      ItemsToldApart(found);
      BuiltGraphIsOrderFree(found, b.nodes, b.edges, n => CanonicalID(found.provider, n));
    }
  }
}
