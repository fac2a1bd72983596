/** When the bound on potential edges hides pairs of a pool and an OSD
    (apps/api/internal/storage/context_engine.go). */
module GraphTopology {
  import opened Common
  import opened GraphBuild
  import Names = ProviderNames

  /** Some listed pool is not joined to some listed OSD. */
  ghost predicate MissesPair(found: Inventory, links: set<Link>) {
    exists pool, osd :: pool in Listed(found, BlockPool) && osd in Listed(found, Osd) && Link(AffectedBy, pool, osd) !in links
  }

  /** No list names the same pool or OSD twice. */
  ghost predicate UniqueIds(found: Inventory) { Distinct(Listed(found, BlockPool)) && Distinct(Listed(found, Osd)) }

  function PairCount(found: Inventory): nat { |Listed(found, BlockPool)| * |Listed(found, Osd)| }

  /** Everything could be read, and there are more pairs than the bound, which falls between two pools. */
  predicate HidesPairs(found: Inventory) {
    !Gaps(found) && PairCount(found) > MAX_POTENTIAL && MAX_POTENTIAL % |Listed(found, Osd)| == 0
  }

  lemma {:induction false} IdsInKind(before: seq<NodeId>, want: Kind, kind: Kind, listed: seq<Resource>, n: nat)
    requires n <= |listed| && forall id :: id in before ==> id.kind == want
    ensures forall id :: id in IdsIn(before, want, kind, listed, n) ==> id.kind == want
  {
    if n > 0 { IdsInKind(before, want, kind, listed, n - 1); }
  }

  lemma {:induction false} IdsOfKind(want: Kind, found: seq<(Kind, Option<seq<Resource>>)>, n: nat)
    requires n <= |found|
    ensures forall id :: id in IdsOf(want, found, n) ==> id.kind == want
  {
    if n > 0 {
      IdsOfKind(want, found, n - 1);
      var (kind, listed) := found[n - 1];
      if listed.Some? { IdsInKind(IdsOf(want, found, n - 1), want, kind, listed.value, |listed.value|); }
    }
  }

  lemma ListedKind(found: Inventory, kind: Kind)
    ensures forall id :: id in Listed(found, kind) ==> id.kind == kind
  {
    IdsOfKind(kind, found.resources, |found.resources|);
  }

  /** A pair is missing exactly when there are more than the bound; the last one is. */
  lemma MissesPairExactly(found: Inventory, links: set<Link>)
    requires UniqueIds(found) && Topology(found) <= links
    requires forall l :: l in links && l.relation == AffectedBy ==> l in Topology(found)
    ensures MissesPair(found, links) <==> PairCount(found) > MAX_POTENTIAL
  {
    var pools, osds := Listed(found, BlockPool), Listed(found, Osd);
    ListedKind(found, BlockPool);
    ListedKind(found, Osd);
    if MissesPair(found, links) {
      var pool, osd :| pool in pools && osd in osds && Link(AffectedBy, pool, osd) !in links;
      var i :| 0 <= i < |pools| && pools[i] == pool;
      var j :| 0 <= j < |osds| && osds[j] == osd;
      JoinedExactly(pools, osds, MAX_POTENTIAL, i, j);
      PlaceFits(i, j, |pools|, |osds|);
    }
    if PairCount(found) > MAX_POTENTIAL {
      LastPair(pools, osds);
      assert Link(AffectedBy, pools[|pools| - 1], osds[|osds| - 1]) !in links;
    }
  }

  lemma LastPair(pools: seq<NodeId>, osds: seq<NodeId>)
    requires Distinct(pools) && Distinct(osds) && |pools| * |osds| > MAX_POTENTIAL
    requires forall p, o :: p in pools && o in osds ==> p != o
    ensures pools != [] && osds != [] && Link(AffectedBy, pools[|pools| - 1], osds[|osds| - 1]) !in Pairs(pools, osds, MAX_POTENTIAL)
  {
    NotEmpty(|pools|, |osds|);
    assert pools[|pools| - 1] in pools && osds[|osds| - 1] in osds;
    JoinedExactly(pools, osds, MAX_POTENTIAL, |pools| - 1, |osds| - 1);
    NextRow(|pools| - 1, |osds|);
  }

  lemma NotEmpty(rows: nat, width: nat)
    requires rows * width > 0
    ensures rows > 0 && width > 0
  {}

  /** The build misses a pair and does not say that it is incomplete exactly when it could read everything,
      there are more pairs than the bound, and the bound is a multiple of the number of OSDs. */
  lemma MissingPairHiddenExactly(found: Inventory, links: set<Link>, incomplete: bool)
    requires UniqueIds(found) && Topology(found) <= links
    requires forall l :: l in links && l.relation == AffectedBy ==> l in Topology(found)
    requires incomplete <==> Gaps(found) || CutInside(|Listed(found, BlockPool)|, |Listed(found, Osd)|)
    ensures MissesPair(found, links) && !incomplete <==> HidesPairs(found)
  {
    MissesPairExactly(found, links);
    if PairCount(found) > MAX_POTENTIAL { NotEmpty(|Listed(found, BlockPool)|, |Listed(found, Osd)|); }
  }

  method BuildHiding(found: Inventory) returns (b: Build?)
    requires UniqueIds(found)
    ensures b == null <==> Names.Trim(found.provider) == ""
    ensures b != null ==> (MissesPair(found, b.edges.Keys) && !b.incomplete <==> HidesPairs(found))
  {
    b := BuildGraph(found);
    if b != null {
      MissingPairHiddenExactly(found, b.edges.Keys, b.incomplete);
    }
  }

  // ---------- an example ----------

  function Named(i: nat): Resource { Resource(seq(i + 1, _ => 'x'), "", "", "", "") }

  function Batch(n: nat): seq<Resource> { seq(n, i requires 0 <= i < n => Named(i)) }

  /** A provider with so many pools and OSDs, and nothing else. */
  function Rack(provider: string, pools: nat, osds: nat): Inventory {
    Inventory(provider, true, [], [], [(BlockPool, Some(Batch(pools))), (Osd, Some(Batch(osds)))], [], [], [], Some([]), Some([]))
  }

  function BatchIds(kind: Kind, n: nat): seq<NodeId> { seq(n, i requires 0 <= i < n => NodeId(kind, "", Named(i).id)) }

  lemma {:induction false} BatchIn(kind: Kind, n: nat, k: nat)
    requires k <= n
    ensures IdsIn([], kind, kind, Batch(n), k) == BatchIds(kind, k)
  {
    if k > 0 {
      BatchIn(kind, n, k - 1);
      assert Batch(n)[k - 1] == Named(k - 1);
      assert BatchIds(kind, k) == BatchIds(kind, k - 1) + [NodeId(kind, "", Named(k - 1).id)];
    }
  }

  lemma {:induction false} OtherKindIn(before: seq<NodeId>, want: Kind, kind: Kind, listed: seq<Resource>, n: nat)
    requires n <= |listed| && want != kind
    ensures IdsIn(before, want, kind, listed, n) == before
  {
    if n > 0 { OtherKindIn(before, want, kind, listed, n - 1); }
  }

  lemma IdsOfTwo(want: Kind, a: (Kind, Option<seq<Resource>>), b: (Kind, Option<seq<Resource>>))
    requires a.1.Some? && b.1.Some?
    ensures IdsOf(want, [a, b], 2) ==
      IdsIn(IdsIn([], want, a.0, a.1.value, |a.1.value|), want, b.0, b.1.value, |b.1.value|)
  {
    assert IdsOf(want, [a, b], 0) == [];
    assert IdsOf(want, [a, b], 1) == IdsIn([], want, a.0, a.1.value, |a.1.value|);
  }

  lemma RackLists(provider: string, pools: nat, osds: nat)
    ensures Listed(Rack(provider, pools, osds), BlockPool) == BatchIds(BlockPool, pools)
    ensures Listed(Rack(provider, pools, osds), Osd) == BatchIds(Osd, osds)
  {
    IdsOfTwo(BlockPool, (BlockPool, Some(Batch(pools))), (Osd, Some(Batch(osds))));
    IdsOfTwo(Osd, (BlockPool, Some(Batch(pools))), (Osd, Some(Batch(osds))));
    BatchIn(BlockPool, pools, pools);
    BatchIn(Osd, osds, osds);
    OtherKindIn([], Osd, BlockPool, Batch(pools), pools);
    OtherKindIn(BatchIds(BlockPool, pools), BlockPool, Osd, Batch(osds), osds);
  }

  lemma BatchDistinct(kind: Kind, n: nat)
    ensures Distinct(BatchIds(kind, n))
  {
    forall i, j | 0 <= i < j < n
      ensures BatchIds(kind, n)[i] != BatchIds(kind, n)[j]
    {
      assert |Named(i).id| != |Named(j).id|;
    }
  }

  lemma RackHides(provider: string, pools: nat, osds: nat)
    requires osds > 0 && pools * osds > MAX_POTENTIAL && MAX_POTENTIAL % osds == 0
    ensures UniqueIds(Rack(provider, pools, osds)) && HidesPairs(Rack(provider, pools, osds))
  {
    var found := Rack(provider, pools, osds);
    RackLists(provider, pools, osds);
    BatchDistinct(BlockPool, pools);
    BatchDistinct(Osd, osds);
    assert !Unreadable(found.resources, 0);
    assert !Unreadable(found.resources, 1);
  }

  /** 51 pools and 40 OSDs: the graph lacks pairs and does not say so. */
  method HiddenExample(provider: string) returns (b: Build?)
    requires Names.Trim(provider) != ""
    ensures b != null && !b.incomplete && MissesPair(Rack(provider, 51, 40), b.edges.Keys)
  {
    RackHides(provider, 51, 40);
    b := BuildHiding(Rack(provider, 51, 40));
  }
}
