/** An inventory whose graph makes the reported confidence depend on iteration order
    (apps/api/internal/storage/context_engine.go). */
module ImpactTie {
  import opened Common
  import opened GraphBuild
  import opened GraphIds
  import opened VolumeImpact
  import opened ImpactConfidence
  import opened ImpactSearch
  import Graph = RelationshipGraph
  import Names = ProviderNames

  /** The names in the example. */
  datatype Example = Example(provider: string, namespace: string, volume: string, machine: string,
                             kind: string, owner: string, near: string, far: string, free: string, bound: string)

  predicate Proper(x: Example) {
    && Names.Trim(x.provider) != "" && x.machine != "" && x.owner != "" && x.kind != "" && x.kind != "Pod"
    && x.near != x.far && x.free != x.bound
  }

  // One owner has two pods. The near one is on the machine; the far one uses the claim of a local volume
  // that names the machine as its backend.

  function NearPod(x: Example): Workload { Workload(x.namespace, x.near, x.machine, x.kind, x.owner) }
  function FarPod(x: Example): Workload { Workload(x.namespace, x.far, "", x.kind, x.owner) }
  function FreeClaim(x: Example): Claim { Claim(x.provider, x.namespace, x.free, "", x.volume + "-", [NearPod(x)]) }
  function BoundClaim(x: Example): Claim { Claim(x.provider, x.namespace, x.bound, "", x.volume, [FarPod(x)]) }
  function LocalVolume(x: Example): Volume {
    Volume(x.provider, x.volume, "", "", Some(Reference(Machine, x.machine)), false, "", "")
  }

  function Cluster(x: Example): Inventory {
    Inventory(x.provider, true, [], [], [], [LocalVolume(x)], [FreeClaim(x), BoundClaim(x)], [], Some([]), Some([]))
  }

  /** The nodes of its graph. */
  function Eight(x: Example): set<NodeId> {
    {NodeId(Provider, "", x.provider), MachineId(x.machine), PvId(x.volume), PvcId(FreeClaim(x)), PvcId(BoundClaim(x)), PodId(NearPod(x)), PodId(FarPod(x)), OwnerId(FarPod(x))}
  }

  lemma ItemsAreEight(x: Example)
    ensures Items(Cluster(x)) <= Eight(x)
  {
    var found := Cluster(x);
    assert AllVolumeIds(found.volumes, 1, x.provider) == AllVolumeIds(found.volumes, 0, x.provider) + VolumeIds(LocalVolume(x), x.provider);
    assert AllClaimIds(found.claims, 2, x.provider) == AllClaimIds(found.claims, 1, x.provider) + ClaimIds(BoundClaim(x), x.provider);
    assert AllClaimIds(found.claims, 1, x.provider) == AllClaimIds(found.claims, 0, x.provider) + ClaimIds(FreeClaim(x), x.provider);
    OneWorkload(NearPod(x));
    OneWorkload(FarPod(x));
    assert AllAttachmentIds(found.attachments, 0, x.provider) == {};
    assert SnapshotIds(found.snapshots, x.provider) == {} && OperationIds(found.operations, x.provider) == {};
    assert ProviderItems(found) == {};
  }

  lemma OneWorkload(w: Workload)
    ensures AllWorkloadIds({}, [w], 1) == WorkloadIds(w)
  {
    assert AllWorkloadIds({}, [w], 0) == {};
  }

  /** Where the edges of the far pod, the owner and the bound claim lead. */
  lemma LeadsTo(x: Example, l: Link)
    requires Proper(x) && OfClaims(Cluster(x).claims, 2, x.provider, l)
    ensures l.from == PodId(FarPod(x)) ==> l.to in {PvcId(BoundClaim(x)), OwnerId(FarPod(x))}
    ensures l.from == OwnerId(FarPod(x)) ==> l.to.kind == Pod
    ensures l.from == PvcId(BoundClaim(x)) ==> l.to.kind in {StorageClass, Pv}
  {
    var found := Cluster(x);
    assert OfClaims(found.claims, 1, x.provider, l) || OfClaim(BoundClaim(x), l);
    assert !OfClaims(found.claims, 0, x.provider, l);
    assert OfClaims(found.claims, 1, x.provider, l) ==> OfClaim(FreeClaim(x), l);
    assert FreeClaim(x).workloads == [NearPod(x)] && BoundClaim(x).workloads == [FarPod(x)];
  }

  // ---------- levels ----------

  /** The graph of the example: its edges, written down. */
  ghost predicate GraphOf(x: Example, edges: map<Link, Graph.Confidence>, id: NodeId -> string) {
    && (forall l :: l in edges ==> l.from in Eight(x) && l.to in Eight(x) && edges[l] == ConfidenceOf(l))
    && (forall l :: l in edges && FromUser(l) ==> OfClaims(Cluster(x).claims, 2, x.provider, l))
    && TellsApart(id, Eight(x))
  }

  lemma StepLink(edges: map<Link, Graph.Confidence>, id: NodeId -> string, s: set<string>, y: string) returns (l: Link)
    requires y in Graph.Step(EdgesOf(edges, id), Graph.Dependents, s)
    ensures l in edges && id(l.from) == y && id(l.to) in s
  {
    var e, w := Graph.StepOut(EdgesOf(edges, id), Graph.Dependents, s, y);
    l :| l in edges && e == Graph.Edge(TypeName(l.relation), id(l.from), id(l.to), edges[l]);
  }

  /** A node whose edges lead nowhere into the set is not one step from it. */
  lemma NoStep(x: Example, edges: map<Link, Graph.Confidence>, id: NodeId -> string, m: NodeId, s: set<string>)
    requires GraphOf(x, edges, id) && m in Eight(x)
    requires forall l :: l in edges && l.from == m ==> id(l.to) !in s
    ensures id(m) !in Graph.Step(EdgesOf(edges, id), Graph.Dependents, s)
  {
    if id(m) in Graph.Step(EdgesOf(edges, id), Graph.Dependents, s) {
      var l := StepLink(edges, id, s, id(m));
    }
  }

  function Target(x: Example): NodeId { MachineId(x.machine) }

  ghost function Near(x: Example, edges: map<Link, Graph.Confidence>, id: NodeId -> string, k: nat): set<string> {
    Graph.Reach(EdgesOf(edges, id), Graph.Dependents, {id(Target(x))}, k)
  }

  lemma NotNearer(x: Example, edges: map<Link, Graph.Confidence>, id: NodeId -> string)
    requires Proper(x) && GraphOf(x, edges, id)
    ensures id(PvcId(BoundClaim(x))) !in Near(x, edges, id, 1)
    ensures id(OwnerId(FarPod(x))) !in Near(x, edges, id, 1)
    ensures id(PodId(FarPod(x))) !in Near(x, edges, id, 2)
  {
    var claim, owner, pod := PvcId(BoundClaim(x)), OwnerId(FarPod(x)), PodId(FarPod(x));
    assert Near(x, edges, id, 0) == {id(Target(x))};
    forall l | l in edges && l.from in {claim, owner, pod}
      ensures id(l.to) !in Near(x, edges, id, 0)
      ensures l.from == pod ==> l.to in {claim, owner}
    {
      LeadsTo(x, l);
      assert l.to != Target(x) && Target(x) in Eight(x);
    }
    NoStep(x, edges, id, claim, Near(x, edges, id, 0));
    NoStep(x, edges, id, owner, Near(x, edges, id, 0));
    NoStep(x, edges, id, pod, Near(x, edges, id, 0));
    NoStep(x, edges, id, pod, Near(x, edges, id, 1));
  }

  /** One edge further along dependents. */
  lemma OneFurther(x: Example, edges: map<Link, Graph.Confidence>, id: NodeId -> string, k: nat, l: Link)
    requires l in edges && id(l.to) in Near(x, edges, id, k)
    ensures id(l.from) in Near(x, edges, id, k + 1)
  {
    UserIsOneFurther(edges, id, Target(x), k, l);
  }

  // ---------- the two paths ----------

  function ByVolume(x: Example): seq<Link> {
    [Link(BackedBy, PvId(x.volume), Target(x)), Link(Binds, PvcId(BoundClaim(x)), PvId(x.volume)),
     Link(Uses, PodId(FarPod(x)), PvcId(BoundClaim(x)))]
  }

  function ByOwner(x: Example): seq<Link> {
    [Link(Attaches, PodId(NearPod(x)), Target(x)), Link(Uses, OwnerId(FarPod(x)), PodId(NearPod(x))),
     Link(OwnedBy, PodId(FarPod(x)), OwnerId(FarPod(x)))]
  }

  ghost predicate HasPaths(x: Example, edges: map<Link, Graph.Confidence>) {
    (forall i :: 0 <= i < 3 ==> ByVolume(x)[i] in edges) && (forall i :: 0 <= i < 3 ==> ByOwner(x)[i] in edges)
  }

  function Written(edges: map<Link, Graph.Confidence>, id: NodeId -> string, l: Link): Graph.Edge
    requires l in edges
  {
    Graph.Edge(TypeName(l.relation), id(l.from), id(l.to), edges[l])
  }

  function FoundBy(links: seq<Link>, id: NodeId -> string, c: Graph.Confidence): Found
    requires |links| == 3
  {
    Found(id(links[2].from), c, [id(links[0].to), id(links[0].from), id(links[1].from), id(links[2].from)])
  }

  /** Three links in a row from the target, each to a node that is no nearer, are a shortest path. */
  lemma PathIsShortest(x: Example, edges: map<Link, Graph.Confidence>, id: NodeId -> string, a: Link, b: Link, c: Link, weakest: Graph.Confidence)
    requires a in edges && b in edges && c in edges && a.to == Target(x) && b.to == a.from && c.to == b.from
    requires id(a.from) !in Near(x, edges, id, 0) && id(b.from) !in Near(x, edges, id, 1) && id(c.from) !in Near(x, edges, id, 2)
    requires weakest == Graph.Weaker(Graph.Weaker(edges[a], edges[b]), edges[c])
    ensures FoundOK(EdgesOf(edges, id), Graph.Dependents, id(Target(x)), FoundBy([a, b, c], id, weakest))
  {
    var E, f := EdgesOf(edges, id), FoundBy([a, b, c], id, weakest);
    OneFurther(x, edges, id, 0, a);
    OneFurther(x, edges, id, 1, b);
    OneFurther(x, edges, id, 2, c);
    var es := [Written(edges, id, a), Written(edges, id, b), Written(edges, id, c)];
    assert Realizes(E, Graph.Dependents, f.path, es);
    WeakestOfThree(es[0], es[1], es[2]);
    assert PathWith(E, Graph.Dependents, id(Target(x)), f.path, weakest);
  }

  lemma WeakestOfThree(a: Graph.Edge, b: Graph.Edge, c: Graph.Edge)
    ensures Weakest([a, b, c]) == Graph.Weaker(Graph.Weaker(a.confidence, b.confidence), c.confidence)
  {
    assert [a, b, c][..2] == [a, b] && [a, b][..1] == [a] && [a][..0] == [];
    assert Weakest([a]) == a.confidence;
    assert Weakest([a, b]) == Graph.Weaker(Weakest([a]), b.confidence);
  }

  lemma VolumeLinksAreCertain(x: Example, edges: map<Link, Graph.Confidence>, id: NodeId -> string)
    requires Proper(x) && GraphOf(x, edges, id) && HasPaths(x, edges)
    ensures var v := ByVolume(x); v[0] in edges && v[1] in edges && v[2] in edges
    ensures var v := ByVolume(x); Graph.Weaker(Graph.Weaker(edges[v[0]], edges[v[1]]), edges[v[2]]) == Graph.Authoritative
    ensures id(PvId(x.volume)) !in Near(x, edges, id, 0)
  {
    var v := ByVolume(x);
    assert v[0] in edges && v[1] in edges && v[2] in edges;
    assert v[0].from != Target(x) && v[0].from in Eight(x) && Target(x) in Eight(x);
  }

  lemma PathByVolume(x: Example, edges: map<Link, Graph.Confidence>, id: NodeId -> string)
    requires Proper(x) && GraphOf(x, edges, id) && HasPaths(x, edges)
    ensures FoundOK(EdgesOf(edges, id), Graph.Dependents, id(Target(x)), FoundBy(ByVolume(x), id, Graph.Authoritative))
  {
    NotNearer(x, edges, id);
    VolumeLinksAreCertain(x, edges, id);
    var a := Link(BackedBy, PvId(x.volume), Target(x));
    var b := Link(Binds, PvcId(BoundClaim(x)), PvId(x.volume));
    var c := Link(Uses, PodId(FarPod(x)), PvcId(BoundClaim(x)));
    assert ByVolume(x) == [a, b, c];
    PathIsShortest(x, edges, id, a, b, c, Graph.Authoritative);
  }

  lemma OwnerLinksAreDerived(x: Example, edges: map<Link, Graph.Confidence>, id: NodeId -> string)
    requires Proper(x) && GraphOf(x, edges, id) && HasPaths(x, edges)
    ensures var o := ByOwner(x); o[0] in edges && o[1] in edges && o[2] in edges
    ensures var o := ByOwner(x); Graph.Weaker(Graph.Weaker(edges[o[0]], edges[o[1]]), edges[o[2]]) == Graph.Derived
    ensures id(PodId(NearPod(x))) !in Near(x, edges, id, 0)
  {
    var o := ByOwner(x);
    assert o[0] in edges && o[1] in edges && o[2] in edges;
    assert o[0].from != Target(x) && o[0].from in Eight(x) && Target(x) in Eight(x);
  }

  lemma PathByOwner(x: Example, edges: map<Link, Graph.Confidence>, id: NodeId -> string)
    requires Proper(x) && GraphOf(x, edges, id) && HasPaths(x, edges)
    ensures FoundOK(EdgesOf(edges, id), Graph.Dependents, id(Target(x)), FoundBy(ByOwner(x), id, Graph.Derived))
  {
    NotNearer(x, edges, id);
    OwnerLinksAreDerived(x, edges, id);
    var a := Link(Attaches, PodId(NearPod(x)), Target(x));
    var b := Link(Uses, OwnerId(FarPod(x)), PodId(NearPod(x)));
    var c := Link(OwnedBy, PodId(FarPod(x)), OwnerId(FarPod(x)));
    assert ByOwner(x) == [a, b, c];
    PathIsShortest(x, edges, id, a, b, c, Graph.Derived);
  }

  // ---------- the search fits ----------

  lemma {:induction false} NearIsSmall(x: Example, edges: map<Link, Graph.Confidence>, id: NodeId -> string, k: nat)
    requires GraphOf(x, edges, id)
    ensures Near(x, edges, id, k) <= set n | n in Eight(x) :: id(n)
  {
    if k > 0 {
      NearIsSmall(x, edges, id, k - 1);
      forall y | y in Near(x, edges, id, k) && y !in Near(x, edges, id, k - 1)
        ensures y in set n | n in Eight(x) :: id(n)
      {
        var l := StepLink(edges, id, Near(x, edges, id, k - 1), y);
      }
    }
  }

  lemma {:induction false} Image(s: set<NodeId>, id: NodeId -> string)
    ensures |set n | n in s :: id(n)| <= |s|
    decreases |s|
  {
    if s != {} {
      var m :| m in s;
      Image(s - {m}, id);
      assert (set n | n in s :: id(n)) == (set n | n in s - {m} :: id(n)) + {id(m)};
    } else {
      assert (set n | n in s :: id(n)) == {};
    }
  }

  lemma EightAreFew(x: Example, id: NodeId -> string)
    ensures |set n | n in Eight(x) :: id(n)| <= 8
  {
    Image(Eight(x), id);
  }

  lemma SearchFits(x: Example, edges: map<Link, Graph.Confidence>, id: NodeId -> string, depth: nat)
    requires GraphOf(x, edges, id)
    ensures Fits(EdgesOf(edges, id), Graph.Dependents, id(Target(x)), depth)
  {
    NearIsSmall(x, edges, id, depth);
    EightAreFew(x, id);
    Subset(Near(x, edges, id, depth), set n | n in Eight(x) :: id(n));
  }

  // ---------- the ids ----------

  lemma EightAreNamed(x: Example, n: NodeId)
    requires n in Eight(x)
    ensures OwnKind(n.kind)
  {}

  /** The engine's ids tell the nodes of the example apart. */
  lemma IdsDiffer(x: Example)
    ensures TellsApart(n => CanonicalID(x.provider, n), Eight(x))
  {
    forall m, n | m in Eight(x) && n in Eight(x) && CanonicalID(x.provider, m) == CanonicalID(x.provider, n)
      ensures m == n
    {
      EightAreNamed(x, m);
      EightAreNamed(x, n);
      OwnKindsDiffer(x.provider, m, n);
    }
  }

  /** Both confidences may be reported. */
  ghost predicate Tied(edges: set<Graph.Edge>, target: string, depth: nat) {
    exists f, g :: MayReport(edges, Graph.Dependents, target, depth, f) && MayReport(edges, Graph.Dependents, target, depth, g)
      && f.node == g.node && f.confidence == Graph.Authoritative && g.confidence == Graph.Derived
  }

  lemma GraphIsTied(x: Example, edges: map<Link, Graph.Confidence>, id: NodeId -> string, depth: nat)
    requires Proper(x) && GraphOf(x, edges, id) && HasPaths(x, edges) && depth >= 3
    ensures Tied(EdgesOf(edges, id), id(Target(x)), depth)
  {
    PathByVolume(x, edges, id);
    PathByOwner(x, edges, id);
    SearchFits(x, edges, id, depth);
    var f, g := FoundBy(ByVolume(x), id, Graph.Authoritative), FoundBy(ByOwner(x), id, Graph.Derived);
    ShortestIsReported(EdgesOf(edges, id), Graph.Dependents, id(Target(x)), depth, f);
    ShortestIsReported(EdgesOf(edges, id), Graph.Dependents, id(Target(x)), depth, g);
  }

  /** The build of this inventory, under whatever ids that tell its nodes apart. */
  method BuildTied(x: Example, id: NodeId -> string, depth: nat) returns (b: Build)
    requires Proper(x) && depth >= 3 && TellsApart(id, Eight(x))
    ensures Tied(EdgesOf(b.edges, id), id(Target(x)), depth)
  {
    var built := BuildGraph(Cluster(x));
    b := built;
    ItemsAreEight(x);
    PathsAreBuilt(x, b.edges);
    GraphIsTied(x, b.edges, id, depth);
  }

  /** The build of this inventory and the search of its graph: the far pod may be reported as certain or as
      derived, by the order in which Go's maps are iterated. */
  method TieInBuiltGraph(x: Example, depth: nat) returns (b: Build)
    requires Proper(x) && depth >= 3
    ensures var edges, target := EdgesOf(b.edges, n => CanonicalID(x.provider, n)), CanonicalID(x.provider, Target(x));
      Tied(edges, target, depth) && !OrderFree(edges, Graph.Dependents, target, depth)
  {
    IdsDiffer(x);
    b := BuildTied(x, n => CanonicalID(x.provider, n), depth);
    TiedIsNotOrderFree(EdgesOf(b.edges, n => CanonicalID(x.provider, n)), CanonicalID(x.provider, Target(x)), depth);
  }

  lemma TiedIsNotOrderFree(edges: set<Graph.Edge>, target: string, depth: nat)
    requires Tied(edges, target, depth)
    ensures !OrderFree(edges, Graph.Dependents, target, depth)
  {}

  lemma PathsAreBuilt(x: Example, edges: map<Link, Graph.Confidence>)
    requires Proper(x) && Linked(Cluster(x), edges.Keys)
    ensures HasPaths(x, edges)
  {
    var found := Cluster(x);
    assert LocalVolume(x) in found.volumes && FreeClaim(x) in found.claims && BoundClaim(x) in found.claims;
    assert ListedStock(found) == NOTHING_LISTED;
    assert VolumeLinks(LocalVolume(x), map[], ClassNames(found)) <= edges.Keys;
    assert x.volume in VolumeNames(found);
    assert ClaimLinked(BoundClaim(x), VolumeNames(found), ClassNames(found), edges.Keys);
    assert ClaimLinked(FreeClaim(x), VolumeNames(found), ClassNames(found), edges.Keys);
    assert NearPod(x) in FreeClaim(x).workloads && FarPod(x) in BoundClaim(x).workloads;
    assert WorkloadLinks(FreeClaim(x), NearPod(x)) <= edges.Keys && WorkloadLinks(BoundClaim(x), FarPod(x)) <= edges.Keys;
  }
}
