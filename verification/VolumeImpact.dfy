/** The build and the search together: what a complete impact analysis of a volume is sure to name
    (apps/api/internal/storage/context_engine.go). */
module VolumeImpact {
  import opened GraphBuild
  import opened GraphIds
  import opened Common
  import Graph = RelationshipGraph
  import Impact = ImpactSearch
  import Names = ProviderNames

  function TypeName(r: Relation): string {
    match r
    case ManagedBy => "managed-by"
    case Provisions => "provisions"
    case BackedBy => "backed-by"
    case Uses => "uses"
    case Binds => "binds"
    case Attaches => "attaches"
    case OwnedBy => "owned-by"
    case BelongsToPool => "belongs-to-pool"
    case BelongsToFilesystem => "belongs-to-filesystem"
    case Affects => "affects"
    case AffectedBy => "affected-by"
  }

  /** The graph as the search sees it; `id` writes node ids down. */
  function EdgesOf(edges: map<Link, Graph.Confidence>, id: NodeId -> string): set<Graph.Edge> {
    set l | l in edges :: Graph.Edge(TypeName(l.relation), id(l.from), id(l.to), edges[l])
  }

  function Named(r: Impact.Impact): set<string> { Impact.NodesOf(r.confirmed + r.potential + r.unknown) }

  // ---------- who uses a volume ----------

  /** The claim is bound to the volume. */
  predicate Bound(found: Inventory, v: Volume, c: Claim) {
    c in found.claims && c.provider == found.provider && c.volume == v.name
  }

  /** One step from the volume: its claims and attachments, the snapshots taken of it and not of a claim,
      and the operations on it. */
  ghost predicate UsesVolume(found: Inventory, v: Volume, n: NodeId) {
    || (exists c :: Bound(found, v, c) && n == PvcId(c))
    || (exists a :: a in found.attachments && a.provider == found.provider && a.volume == v.name && n == AttachmentId(a))
    || (exists x :: OfVolume(found, v, x) && n == SnapshotId(x))
    || (exists o :: Affecting(found, o, Pv, "", v.name) && n == OperationId(o))
  }

  /** The provider's operation works on what has this kind, namespace and name. */
  predicate Affecting(found: Inventory, o: Operation, kind: Kind, namespace: string, name: string) {
    && found.operations.Some? && o in found.operations.value && o.provider == found.provider
    && o.targetKind == kind && o.namespace == namespace && o.targetName == name
  }

  /** The snapshot was taken of the claim. */
  predicate TakenOf(found: Inventory, c: Claim, x: Snapshot) {
    && found.snapshots.Some? && x in found.snapshots.value && x.provider == found.provider
    && x.namespace == c.namespace && x.claim == c.name
  }

  /** The snapshot was taken of no known claim, and the volume is the last one with its handle. */
  predicate OfVolume(found: Inventory, v: Volume, x: Snapshot) {
    && found.snapshots.Some? && x in found.snapshots.value && x.provider == found.provider && (x.namespace, x.claim) !in ClaimNames(found)
    && x.handle in Handles(found) && Handles(found)[x.handle] == PvId(v.name)
  }

  /** One step from a claim: its pods, the snapshots taken of it, and the operations on it. */
  ghost predicate UsesClaim(found: Inventory, c: Claim, n: NodeId) {
    || (exists w :: w in c.workloads && n == PodId(w))
    || (exists x :: TakenOf(found, c, x) && n == SnapshotId(x))
    || (exists o :: Affecting(found, o, Pvc, c.namespace, c.name) && n == OperationId(o))
  }

  /** n uses the volume over at most so many steps. */
  ghost predicate DependsOn(found: Inventory, v: Volume, n: NodeId, distance: nat) {
    || (distance == 1 && UsesVolume(found, v, n))
    || (distance == 2 && exists c :: Bound(found, v, c) && UsesClaim(found, c, n))
    || (distance == 3 && exists c, w :: Bound(found, v, c) && w in c.workloads && Owned(w) && n == NodeId(Owner, w.namespace, w.kind + "/" + w.name))
  }

  /** The pod has an owner other than itself. */
  predicate Owned(w: Workload) { w.kind !in {"", "Pod"} && w.name != "" }

  /** Of several volumes with a handle the last one counts. */
  lemma {:induction false} LastWithHandle(found: Inventory, i: nat)
    requires i < |found.volumes| && found.volumes[i].provider == found.provider && found.volumes[i].handle != ""
    requires forall j :: i < j < |found.volumes| && found.volumes[j].provider == found.provider ==>
      found.volumes[j].handle != found.volumes[i].handle
    ensures found.volumes[i].handle in Handles(found) && Handles(found)[found.volumes[i].handle] == PvId(found.volumes[i].name)
  {
    LastUpTo(found, i, |found.volumes|);
  }

  lemma {:induction false} LastUpTo(found: Inventory, i: nat, n: nat)
    requires i < n <= |found.volumes| && found.volumes[i].provider == found.provider && found.volumes[i].handle != ""
    requires forall j :: i < j < n && found.volumes[j].provider == found.provider ==> found.volumes[j].handle != found.volumes[i].handle
    ensures var handles, v := HandleIndex(map[], found.volumes, n, found.provider), found.volumes[i];
      v.handle in handles && handles[v.handle] == PvId(v.name)
  {
    if i < n - 1 { LastUpTo(found, i, n - 1); }
  }

  // ---------- they are near ----------

  /** Within so many steps from the target along dependents. */
  ghost predicate Within(edges: map<Link, Graph.Confidence>, id: NodeId -> string, target: NodeId, distance: nat, n: NodeId) {
    id(n) in Graph.Reach(EdgesOf(edges, id), Graph.Dependents, {id(target)}, distance)
  }

  lemma UserIsOneFurther(edges: map<Link, Graph.Confidence>, id: NodeId -> string, target: NodeId, distance: nat, l: Link)
    requires l in edges && Within(edges, id, target, distance, l.to)
    ensures Within(edges, id, target, distance + 1, l.from)
  {
    var e := Graph.Edge(TypeName(l.relation), id(l.from), id(l.to), edges[l]);
    var reached := Graph.Reach(EdgesOf(edges, id), Graph.Dependents, {id(target)}, distance);
    Graph.StepIn(EdgesOf(edges, id), Graph.Dependents, reached, e, id(l.to), id(l.from));
  }

  lemma VolumeUsersAreNear(found: Inventory, edges: map<Link, Graph.Confidence>, id: NodeId -> string, v: Volume, n: NodeId)
    requires Linked(found, edges.Keys) && v in found.volumes && v.provider == found.provider && UsesVolume(found, v, n)
    ensures Within(edges, id, PvId(v.name), 1, n) && IsUser(n.kind)
  {
    var l := VolumeUserLink(found, edges.Keys, v, n);
    UserIsOneFurther(edges, id, PvId(v.name), 0, l);
  }

  lemma VolumeUserLink(found: Inventory, links: set<Link>, v: Volume, n: NodeId) returns (l: Link)
    requires Linked(found, links) && v in found.volumes && v.provider == found.provider && UsesVolume(found, v, n)
    ensures l in links && l.from == n && l.to == PvId(v.name) && IsUser(n.kind)
  {
    assert v.name in VolumeNames(found) && PvId(v.name) in Targets(found);
    if c :| Bound(found, v, c) && n == PvcId(c) {
      assert ClaimLinked(c, VolumeNames(found), ClassNames(found), links);
      l := Link(Binds, n, PvId(v.name));
    } else if a :| a in found.attachments && a.provider == found.provider && a.volume == v.name && n == AttachmentId(a) {
      assert AttachmentLinks(a, VolumeNames(found)) <= links;
      l := Link(Attaches, n, PvId(v.name));
    } else if x :| OfVolume(found, v, x) && n == SnapshotId(x) {
      assert SnapshotLinked(x, ClaimNames(found), Handles(found), links);
      l := Link(BackedBy, n, PvId(v.name));
    } else {
      var o :| Affecting(found, o, Pv, "", v.name) && n == OperationId(o);
      assert OperationLinked(o, Targets(found), links);
      l := Link(Affects, n, PvId(v.name));
    }
  }

  lemma ClaimUserLink(found: Inventory, links: set<Link>, c: Claim, n: NodeId) returns (l: Link)
    requires Linked(found, links) && c in found.claims && c.provider == found.provider && UsesClaim(found, c, n)
    ensures l in links && l.from == n && l.to == PvcId(c) && IsUser(n.kind)
  {
    assert PvcId(c) in Targets(found);
    NamedClaim(found, c);
    if w :| w in c.workloads && n == PodId(w) {
      assert ClaimLinked(c, VolumeNames(found), ClassNames(found), links) && WorkloadLinks(c, w) <= links;
      l := Link(Uses, n, PvcId(c));
    } else if x :| TakenOf(found, c, x) && n == SnapshotId(x) {
      assert SnapshotLinked(x, ClaimNames(found), Handles(found), links);
      l := Link(BackedBy, n, PvcId(c));
    } else {
      var o :| Affecting(found, o, Pvc, c.namespace, c.name) && n == OperationId(o);
      assert OperationLinked(o, Targets(found), links);
      l := Link(Affects, n, PvcId(c));
    }
  }

  lemma NamedClaim(found: Inventory, c: Claim)
    requires c in found.claims && c.provider == found.provider
    ensures (c.namespace, c.name) in ClaimNames(found)
  {
    var i :| 0 <= i < |found.claims| && found.claims[i] == c;
    NamedUpTo(found, i, |found.claims|);
  }

  lemma {:induction false} NamedUpTo(found: Inventory, i: nat, n: nat)
    requires i < n <= |found.claims| && found.claims[i].provider == found.provider
    ensures (found.claims[i].namespace, found.claims[i].name) in NamesOf({}, found.claims, n, found.provider)
  {
    if i < n - 1 { NamedUpTo(found, i, n - 1); }
  }

  lemma ClaimUsersAreNear(found: Inventory, edges: map<Link, Graph.Confidence>, id: NodeId -> string, v: Volume, c: Claim, n: NodeId)
    requires Linked(found, edges.Keys) && v in found.volumes && v.provider == found.provider
    requires Bound(found, v, c) && UsesClaim(found, c, n)
    ensures Within(edges, id, PvId(v.name), 2, n) && IsUser(n.kind)
  {
    VolumeUsersAreNear(found, edges, id, v, PvcId(c));
    var l := ClaimUserLink(found, edges.Keys, c, n);
    UserIsOneFurther(edges, id, PvId(v.name), 1, l);
  }

  lemma OwnersAreNear(found: Inventory, edges: map<Link, Graph.Confidence>, id: NodeId -> string, v: Volume, c: Claim, w: Workload)
    requires Linked(found, edges.Keys) && v in found.volumes && v.provider == found.provider
    requires Bound(found, v, c) && w in c.workloads && HasOwner(w)
    ensures Within(edges, id, PvId(v.name), 3, OwnerId(w))
  {
    ClaimUsersAreNear(found, edges, id, v, c, PodId(w));
    assert ClaimLinked(c, VolumeNames(found), ClassNames(found), edges.Keys) && WorkloadLinks(c, w) <= edges.Keys;
    UserIsOneFurther(edges, id, PvId(v.name), 2, Link(Uses, OwnerId(w), PodId(w)));
  }

  /** Whoever depends on the volume is as near as it should be. */
  lemma DependentsAreNear(found: Inventory, edges: map<Link, Graph.Confidence>, id: NodeId -> string, v: Volume, n: NodeId, distance: nat)
    requires Linked(found, edges.Keys) && v in found.volumes && v.provider == found.provider && DependsOn(found, v, n, distance)
    ensures Within(edges, id, PvId(v.name), distance, n) && IsUser(n.kind)
  {
    if distance == 1 {
      VolumeUsersAreNear(found, edges, id, v, n);
    } else if distance == 2 {
      var c :| Bound(found, v, c) && UsesClaim(found, c, n);
      ClaimUsersAreNear(found, edges, id, v, c, n);
    } else {
      var c, w :| Bound(found, v, c) && w in c.workloads && Owned(w) && n == NodeId(Owner, w.namespace, w.kind + "/" + w.name);
      OwnersAreNear(found, edges, id, v, c, w);
    }
  }

  /** Whoever depends on the volume within the depth is named by a complete answer. */
  lemma DependentsAreNamed(found: Inventory, edges: map<Link, Graph.Confidence>, id: NodeId -> string, v: Volume, n: NodeId,
                           distance: nat, depth: nat, named: set<string>)
    requires Separates(id) && Linked(found, edges.Keys) && v in found.volumes && v.provider == found.provider
    requires DependsOn(found, v, n, distance) && distance <= depth
    requires named == Graph.Reach(EdgesOf(edges, id), Graph.Dependents, {id(PvId(v.name))}, depth) - {id(PvId(v.name))}
    ensures id(n) in named
  {
    DependentsAreNear(found, edges, id, v, n, distance);
    Graph.ReachGrows(EdgesOf(edges, id), Graph.Dependents, {id(PvId(v.name))}, distance, depth);
  }

  // ---------- the whole analysis ----------

  /** Whatever the inventory, and for every way of writing ids that tells users from volumes: unless the
      analysis of a volume says it is incomplete, it names everything that depends on the volume within
      the depth. So nothing that still uses it is missed by whoever wants to delete it. */
  method Analyze(found: Inventory, id: NodeId -> string, v: Volume, depth: nat) returns (r: Option<Impact.Impact>)
    requires Separates(id) && v in found.volumes && v.provider == found.provider
    ensures r == None <==> Names.Trim(found.provider) == ""
    ensures r.Some? && !r.value.incomplete ==>
      forall n, distance: nat :: DependsOn(found, v, n, distance) && distance <= depth ==> id(n) in Named(r.value)
  {
    var b := BuildGraph(found);
    if b == null {
      return None;
    }
    var impact := Impact.AnalyzeImpact(EdgesOf(b.edges, id), id(PvId(v.name)), depth, b.incomplete);
    if !impact.incomplete {
      forall n, distance: nat | DependsOn(found, v, n, distance) && distance <= depth
        ensures id(n) in Named(impact)
      {
        DependentsAreNamed(found, b.edges, id, v, n, distance, depth, Named(impact));
      }
    }
    return Some(impact);
  }

  /** In particular with the ids the engine uses. */
  method AnalyzeVolume(found: Inventory, v: Volume, depth: nat) returns (r: Option<Impact.Impact>)
    requires v in found.volumes && v.provider == found.provider
    ensures r == None <==> Names.Trim(found.provider) == ""
    ensures r.Some? && !r.value.incomplete ==>
      forall n, distance: nat :: DependsOn(found, v, n, distance) && distance <= depth ==>
        CanonicalID(found.provider, n) in Named(r.value)
  {
    CanonicalIDSeparates(found.provider);
    r := Analyze(found, n => CanonicalID(found.provider, n), v, depth);
  }
}
