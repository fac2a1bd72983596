/** What a complete impact analysis of a pool is sure to name: its images, the volumes they back, and
    whatever depends on those (apps/api/internal/storage/context_engine.go). */
module PoolImpact {
  import opened Common
  import opened GraphBuild
  import opened GraphIds
  import opened VolumeImpact
  import opened GraphJoins
  import Graph = RelationshipGraph
  import Impact = ImpactSearch
  import Names = ProviderNames

  // ---------- who depends on a pool ----------

  /** The images of the pool and the operations on it; the volumes its images back; and whatever depends on
      those volumes. */
  ghost predicate DependsOnPool(found: Inventory, pool: NodeId, n: NodeId, distance: nat) {
    || (distance == 1 && InPool(found, n, pool))
    || (distance == 1 && exists o :: AffectsPool(found, o, pool) && n == OperationId(o))
    || (distance == 2 && exists v :: BackedFrom(found, v, pool) && n == PvId(v.name))
    || (distance > 2 && exists v :: BackedFrom(found, v, pool) && DependsOn(found, v, n, distance - 2))
  }

  ghost predicate BackedFrom(found: Inventory, v: Volume, pool: NodeId) {
    exists image :: BackedByImage(found, v, image) && InPool(found, image, pool)
  }

  /** Pools are named by their namespace and name. */
  predicate AffectsPool(found: Inventory, o: Operation, pool: NodeId) {
    && found.operations.Some? && o in found.operations.value && o.provider == found.provider
    && o.targetKind == BlockPool && pool == NodeId(BlockPool, o.namespace, o.namespace + "/" + o.targetName)
  }

  /** What is near something near is not far. */
  lemma {:induction false} NearThrough(edges: set<Graph.Edge>, d: Graph.Direction, target: string, a: nat, x: string, b: nat, c: nat)
    requires x in Graph.Reach(edges, d, {target}, a) && c == a + b
    ensures Graph.Reach(edges, d, {x}, b) <= Graph.Reach(edges, d, {target}, c)
  {
    if b > 0 {
      NearThrough(edges, d, target, a, x, b - 1, c - 1);
      NextReach(edges, d, {x}, b, {target}, c);
    }
  }

  lemma NextReach(edges: set<Graph.Edge>, d: Graph.Direction, s: set<string>, j: nat, t: set<string>, k: nat)
    requires j > 0 && k > 0 && Graph.Reach(edges, d, s, j - 1) <= Graph.Reach(edges, d, t, k - 1)
    ensures Graph.Reach(edges, d, s, j) <= Graph.Reach(edges, d, t, k)
  {
    Graph.StepMonotone(edges, d, Graph.Reach(edges, d, s, j - 1), Graph.Reach(edges, d, t, k - 1));
  }

  lemma BackedIsNear(found: Inventory, edges: map<Link, Graph.Confidence>, id: NodeId -> string, pool: NodeId, v: Volume)
    requires Linked(found, edges.Keys) && BackedFrom(found, v, pool)
    ensures Within(edges, id, pool, 2, PvId(v.name)) && v in found.volumes && v.provider == found.provider
  {
    var image :| BackedByImage(found, v, image) && InPool(found, image, pool);
    MemberIsJoined(found, edges.Keys, image, pool);
    VolumeIsBacked(found, edges.Keys, v, image);
    UserIsOneFurther(edges, id, pool, 0, Link(BelongsToPool, image, pool));
    UserIsOneFurther(edges, id, pool, 1, Link(BackedBy, PvId(v.name), image));
  }

  lemma OperationIsNear(found: Inventory, edges: map<Link, Graph.Confidence>, id: NodeId -> string, pool: NodeId, o: Operation)
    requires Linked(found, edges.Keys) && AffectsPool(found, o, pool) && pool in Listed(found, BlockPool)
    ensures Within(edges, id, pool, 1, OperationId(o))
  {
    assert pool in Targets(found) && OperationLinked(o, Targets(found), edges.Keys);
    UserIsOneFurther(edges, id, pool, 0, Link(Affects, OperationId(o), pool));
  }

  lemma ImageIsNear(found: Inventory, edges: map<Link, Graph.Confidence>, id: NodeId -> string, pool: NodeId, image: NodeId)
    requires Linked(found, edges.Keys) && InPool(found, image, pool)
    ensures Within(edges, id, pool, 1, image) && image.kind == Image
  {
    MemberIsJoined(found, edges.Keys, image, pool);
    UserIsOneFurther(edges, id, pool, 0, Link(BelongsToPool, image, pool));
  }

  lemma FurtherIsNear(found: Inventory, edges: map<Link, Graph.Confidence>, id: NodeId -> string, pool: NodeId, v: Volume, n: NodeId, distance: nat)
    requires Linked(found, edges.Keys) && BackedFrom(found, v, pool) && DependsOn(found, v, n, distance)
    ensures Within(edges, id, pool, distance + 2, n) && IsUser(n.kind)
  {
    BackedIsNear(found, edges, id, pool, v);
    FurtherFromVolume(found, edges, id, pool, v, n, distance);
  }

  lemma FurtherFromVolume(found: Inventory, edges: map<Link, Graph.Confidence>, id: NodeId -> string, pool: NodeId, v: Volume, n: NodeId, distance: nat)
    requires Linked(found, edges.Keys) && v in found.volumes && v.provider == found.provider
    requires Within(edges, id, pool, 2, PvId(v.name)) && DependsOn(found, v, n, distance)
    ensures Within(edges, id, pool, distance + 2, n) && IsUser(n.kind)
  {
    DependentsAreNear(found, edges, id, v, n, distance);
    WithinThrough(edges, id, pool, 2, PvId(v.name), distance, n);
  }

  lemma WithinThrough(edges: map<Link, Graph.Confidence>, id: NodeId -> string, target: NodeId, a: nat, x: NodeId, b: nat, n: NodeId)
    requires Within(edges, id, target, a, x) && Within(edges, id, x, b, n)
    ensures Within(edges, id, target, b + a, n)
  {
    NearThrough(EdgesOf(edges, id), Graph.Dependents, id(target), a, id(x), b, b + a);
  }

  /** Whoever depends on the pool is as near as it should be, and is no pool. */
  lemma PoolDependentsAreNear(found: Inventory, edges: map<Link, Graph.Confidence>, id: NodeId -> string, pool: NodeId, n: NodeId, distance: nat)
    requires Linked(found, edges.Keys) && pool in Listed(found, BlockPool) && DependsOnPool(found, pool, n, distance)
    ensures Within(edges, id, pool, distance, n) && n.kind != BlockPool && !n.kind.Other?
  {
    if distance == 1 && InPool(found, n, pool) {
      ImageIsNear(found, edges, id, pool, n);
    } else if distance == 1 {
      var o :| AffectsPool(found, o, pool) && n == OperationId(o);
      OperationIsNear(found, edges, id, pool, o);
    } else if distance == 2 {
      var v :| BackedFrom(found, v, pool) && n == PvId(v.name);
      BackedIsNear(found, edges, id, pool, v);
    } else {
      var v :| BackedFrom(found, v, pool) && DependsOn(found, v, n, distance - 2);
      FurtherIsNear(found, edges, id, pool, v, n, distance - 2);
    }
  }

  lemma PoolDependentsAreNamed(found: Inventory, edges: map<Link, Graph.Confidence>, pool: NodeId, n: NodeId, distance: nat, depth: nat)
    requires Linked(found, edges.Keys) && pool in Listed(found, BlockPool) && pool.kind == BlockPool
    requires DependsOnPool(found, pool, n, distance) && distance <= depth
    ensures CanonicalID(found.provider, n) != CanonicalID(found.provider, pool)
    ensures Within(edges, m => CanonicalID(found.provider, m), pool, depth, n)
  {
    var id := m => CanonicalID(found.provider, m);
    PoolDependentsAreNear(found, edges, id, pool, n, distance);
    Graph.ReachGrows(EdgesOf(edges, id), Graph.Dependents, {id(pool)}, distance, depth);
    if CanonicalID(found.provider, n) == CanonicalID(found.provider, pool) { OwnKindsDiffer(found.provider, n, pool); }
  }

  /** A pool that the provider lists. */
  ghost predicate IsPool(found: Inventory, pool: NodeId) {
    exists p :: Lists(found, (BlockPool, p)) && pool == EntryId((BlockPool, p))
  }

  /** Build, the engine's ids and search: unless the analysis of a listed pool says it is incomplete, it names
      everything that depends on the pool within the depth. */
  method AnalyzePool(found: Inventory, pool: NodeId, depth: nat) returns (r: Option<Impact.Impact>)
    requires IsPool(found, pool)
    ensures r == None <==> Names.Trim(found.provider) == ""
    ensures r.Some? && !r.value.incomplete ==>
      forall n, distance: nat :: DependsOnPool(found, pool, n, distance) && distance <= depth ==>
        CanonicalID(found.provider, n) in VolumeImpact.Named(r.value)
  {
    ListedExactly(found, BlockPool, pool);
    var b := BuildGraph(found);
    if b == null {
      return None;
    }
    var id := n => CanonicalID(found.provider, n);
    var impact := Impact.AnalyzeImpact(EdgesOf(b.edges, id), id(pool), depth, b.incomplete);
    if !impact.incomplete {
      forall n, distance: nat | DependsOnPool(found, pool, n, distance) && distance <= depth
        ensures id(n) in VolumeImpact.Named(impact)
      {
        PoolDependentsAreNamed(found, b.edges, pool, n, distance, depth);
      }
    }
    return Some(impact);
  }
}
