/** Which edges every built graph has and when it says it is incomplete, in terms of the inventory alone
    (apps/api/internal/storage/context_engine.go). */
module GraphJoins {
  import opened Common
  import opened GraphBuild
  import opened VolumeImpact

  // ---------- what the lists say ----------

  type Entry = (Kind, Resource)

  function EntryId(e: Entry): NodeId { NodeId(e.0, e.1.namespace, e.1.id) }

  /** The resources of the lists that could be read, with their kinds. */
  ghost predicate Lists(found: Inventory, e: Entry) {
    found.configured && e.1.id != "" &&
    exists i :: 0 <= i < |found.resources| && found.resources[i].0 == e.0 && found.resources[i].1.Some? && e.1 in found.resources[i].1.value
  }

  /** The first n resources of a list, and those there were. */
  function SeenIn(before: set<Entry>, kind: Kind, listed: seq<Resource>, n: nat): set<Entry>
    requires n <= |listed|
  {
    if n == 0 then before else SeenIn(before, kind, listed, n - 1) + {(kind, listed[n - 1])}
  }

  function SeenOf(found: seq<(Kind, Option<seq<Resource>>)>, n: nat): set<Entry>
    requires n <= |found|
  {
    if n == 0 then {}
    else if found[n - 1].1 == None then SeenOf(found, n - 1)
    else SeenIn(SeenOf(found, n - 1), found[n - 1].0, found[n - 1].1.value, |found[n - 1].1.value|)
  }

  lemma {:induction false} SeenInExactly(before: set<Entry>, kind: Kind, listed: seq<Resource>, n: nat, e: Entry)
    requires n <= |listed|
    ensures e in SeenIn(before, kind, listed, n) <==> e in before || (e.0 == kind && e.1 in listed[..n])
  {
    if n > 0 {
      SeenInExactly(before, kind, listed, n - 1, e);
      assert listed[..n] == listed[..n - 1] + [listed[n - 1]];
    }
  }

  lemma {:induction false} SeenOfExactly(found: seq<(Kind, Option<seq<Resource>>)>, n: nat, e: Entry)
    requires n <= |found|
    ensures e in SeenOf(found, n) <==> exists i :: 0 <= i < n && found[i].0 == e.0 && found[i].1.Some? && e.1 in found[i].1.value
  {
    if n > 0 {
      SeenOfExactly(found, n - 1, e);
      if found[n - 1].1.Some? {
        var listed := found[n - 1].1.value;
        SeenInExactly(SeenOf(found, n - 1), found[n - 1].0, listed, |listed|, e);
        assert listed[..|listed|] == listed;
      }
    }
  }

  // ---------- what is remembered of them ----------

  /** Everything seen is remembered. */
  ghost predicate Complete(s: Stock, seen: set<Entry>) {
    forall e :: e in seen && e.1.id != "" ==>
      && (e.0, e.1.id) in s.backends
      && (e.0 == BlockPool ==> e.1.name in s.poolNames) && (e.0 == CephFilesystem ==> e.1.name in s.filesystems)
      && (IsMember(e.0) ==> EntryId(e) in s.details)
  }

  /** And nothing else is. */
  ghost predicate Genuine(s: Stock, seen: set<Entry>) {
    && (forall k :: k in s.backends ==> Backs(seen, k, s.backends[k]))
    && (forall name :: name in s.poolNames ==> CalledIn(seen, BlockPool, name, s.poolNames[name]))
    && (forall name :: name in s.filesystems ==> CalledIn(seen, CephFilesystem, name, s.filesystems[name]))
    && (forall id :: id in s.details ==> Says(seen, id, s.details[id]))
  }

  ghost predicate Backs(seen: set<Entry>, k: (Kind, string), id: NodeId) {
    exists e :: e in seen && e.1.id != "" && e.0 == k.0 && e.1.id == k.1 && id == EntryId(e)
  }

  ghost predicate CalledIn(seen: set<Entry>, home: Kind, name: string, id: NodeId) {
    exists e :: e in seen && e.1.id != "" && e.0 == home && e.1.name == name && id == EntryId(e)
  }

  ghost predicate Says(seen: set<Entry>, id: NodeId, note: Details) {
    exists e :: e in seen && e.1.id != "" && id == EntryId(e) && note == Details(e.1.pool, e.1.filesystem)
  }

  lemma ResourceRemembered(s: Stock, seen: set<Entry>, kind: Kind, item: Resource)
    requires Complete(s, seen)
    ensures Complete(WithResource(s, kind, item), seen + {(kind, item)})
  {}

  lemma ResourceGenuine(s: Stock, seen: set<Entry>, kind: Kind, item: Resource)
    requires Genuine(s, seen)
    ensures Genuine(WithResource(s, kind, item), seen + {(kind, item)})
  {
    var t, more, e := WithResource(s, kind, item), seen + {(kind, item)}, (kind, item);
    assert e in more;
    forall k | k in t.backends ensures Backs(more, k, t.backends[k]) {
      if k in s.backends { assert Backs(seen, k, s.backends[k]); }
    }
    forall name | name in t.poolNames ensures CalledIn(more, BlockPool, name, t.poolNames[name]) {
      if name in s.poolNames { assert CalledIn(seen, BlockPool, name, s.poolNames[name]); }
    }
    forall name | name in t.filesystems ensures CalledIn(more, CephFilesystem, name, t.filesystems[name]) {
      if name in s.filesystems { assert CalledIn(seen, CephFilesystem, name, s.filesystems[name]); }
    }
    forall id | id in t.details ensures Says(more, id, t.details[id]) {
      if id in s.details { assert Says(seen, id, s.details[id]); }
    }
  }

  lemma {:induction false} ListRemembered(s: Stock, seen: set<Entry>, kind: Kind, listed: seq<Resource>, n: nat)
    requires n <= |listed| && Complete(s, seen) && Genuine(s, seen)
    ensures Complete(WithList(s, kind, listed, n), SeenIn(seen, kind, listed, n))
    ensures Genuine(WithList(s, kind, listed, n), SeenIn(seen, kind, listed, n))
  {
    if n > 0 {
      ListRemembered(s, seen, kind, listed, n - 1);
      ResourceRemembered(WithList(s, kind, listed, n - 1), SeenIn(seen, kind, listed, n - 1), kind, listed[n - 1]);
      ResourceGenuine(WithList(s, kind, listed, n - 1), SeenIn(seen, kind, listed, n - 1), kind, listed[n - 1]);
    }
  }

  lemma {:induction false} ListsRemembered(found: seq<(Kind, Option<seq<Resource>>)>, n: nat)
    requires n <= |found|
    ensures Complete(StockOf(found, n), SeenOf(found, n)) && Genuine(StockOf(found, n), SeenOf(found, n))
  {
    if n > 0 {
      ListsRemembered(found, n - 1);
      if found[n - 1].1.Some? {
        ListRemembered(StockOf(found, n - 1), SeenOf(found, n - 1), found[n - 1].0, found[n - 1].1.value, |found[n - 1].1.value|);
      }
    }
  }

  ghost function Seen(found: Inventory): set<Entry> { if found.configured then SeenOf(found.resources, |found.resources|) else {} }

  lemma StockIsOfLists(found: Inventory)
    ensures Complete(ListedStock(found), Seen(found)) && Genuine(ListedStock(found), Seen(found))
    ensures forall e :: Lists(found, e) <==> e in Seen(found) && e.1.id != ""
  {
    if found.configured {
      ListsRemembered(found.resources, |found.resources|);
      forall e ensures Lists(found, e) <==> e in Seen(found) && e.1.id != "" {
        SeenOfExactly(found.resources, |found.resources|, e);
      }
    }
  }

  // ---------- which pools and OSDs are listed ----------

  /** These are the ids of the entries of that kind. */
  ghost predicate AreIds(ids: seq<NodeId>, want: Kind, seen: set<Entry>) {
    && (forall e :: e in seen && e.0 == want && e.1.id != "" ==> EntryId(e) in ids)
    && forall id :: id in ids ==> IdFrom(seen, want, id)
  }

  ghost predicate IdFrom(seen: set<Entry>, want: Kind, id: NodeId) {
    exists e :: e in seen && e.0 == want && e.1.id != "" && id == EntryId(e)
  }

  lemma ResourceListed(ids: seq<NodeId>, want: Kind, seen: set<Entry>, kind: Kind, item: Resource)
    requires AreIds(ids, want, seen)
    ensures AreIds(ids + IdIf(want, NodeId(kind, item.namespace, item.id)), want, seen + {(kind, item)})
  {
    var more, e := seen + {(kind, item)}, (kind, item);
    assert e in more;
    forall id | id in ids + IdIf(want, EntryId(e)) ensures IdFrom(more, want, id) {
      if id in ids { assert IdFrom(seen, want, id); }
    }
  }

  lemma {:induction false} ListListed(ids: seq<NodeId>, want: Kind, seen: set<Entry>, kind: Kind, listed: seq<Resource>, n: nat)
    requires n <= |listed| && AreIds(ids, want, seen)
    ensures AreIds(IdsIn(ids, want, kind, listed, n), want, SeenIn(seen, kind, listed, n))
  {
    if n > 0 {
      ListListed(ids, want, seen, kind, listed, n - 1);
      ResourceListed(IdsIn(ids, want, kind, listed, n - 1), want, SeenIn(seen, kind, listed, n - 1), kind, listed[n - 1]);
    }
  }

  lemma {:induction false} ListsListed(want: Kind, found: seq<(Kind, Option<seq<Resource>>)>, n: nat)
    requires n <= |found|
    ensures AreIds(IdsOf(want, found, n), want, SeenOf(found, n))
  {
    if n > 0 {
      ListsListed(want, found, n - 1);
      if found[n - 1].1.Some? {
        ListListed(IdsOf(want, found, n - 1), want, SeenOf(found, n - 1), found[n - 1].0, found[n - 1].1.value, |found[n - 1].1.value|);
      }
    }
  }

  /** The pools and OSDs that the topology joins are those of the lists. */
  lemma ListedExactly(found: Inventory, kind: Kind, id: NodeId)
    ensures id in Listed(found, kind) <==> exists x :: Lists(found, (kind, x)) && id == EntryId((kind, x))
  {
    StockIsOfLists(found);
    if found.configured { ListsListed(kind, found.resources, |found.resources|); }
    assert AreIds(Listed(found, kind), kind, Seen(found));
    if id in Listed(found, kind) {
      assert IdFrom(Seen(found), kind, id);
      var e :| e in Seen(found) && e.0 == kind && e.1.id != "" && id == EntryId(e);
      assert e == (kind, e.1);
    }
    if x :| Lists(found, (kind, x)) && id == EntryId((kind, x)) { assert (kind, x) in Seen(found); }
  }

  // ---------- what belongs to a pool or a filesystem ----------

  /** Images belong to pools, subvolumes to filesystems. */
  function HomeKind(member: Kind): Kind { if member == Image then BlockPool else CephFilesystem }

  /** The name of the home in what a resource or a volume says. */
  function HomeIn(member: Kind, pool: string, filesystem: string): string { if member == Image then pool else filesystem }

  function HomesOf(s: Stock, member: Kind): map<string, NodeId> { if member == Image then s.poolNames else s.filesystems }

  /** A pool, or a filesystem, is listed under this name, and no other. */
  ghost predicate HomeCalled(found: Inventory, kind: Kind, name: string, home: NodeId) {
    && (exists p :: Lists(found, (kind, p)) && p.name == name && EntryId((kind, p)) == home)
    && forall p :: Lists(found, (kind, p)) && p.name == name ==> EntryId((kind, p)) == home
  }

  /** The member is listed, and says that it is in the home of this name. */
  ghost predicate ListedMember(found: Inventory, m: NodeId, name: string) {
    && (exists x :: Lists(found, (m.kind, x)) && EntryId((m.kind, x)) == m)
    && forall x :: Lists(found, (m.kind, x)) && EntryId((m.kind, x)) == m ==> HomeIn(m.kind, x.pool, x.filesystem) == name
  }

  /** The member is not listed, but a volume is backed by it and says so. */
  ghost predicate DescribedMember(found: Inventory, m: NodeId, name: string) {
    && m.namespace == "" && !(exists x :: Lists(found, (m.kind, x)) && x.id == m.name)
    && (exists v :: RefersTo(found, v, m.kind, m.name))
    && forall v :: RefersTo(found, v, m.kind, m.name) ==> HomeIn(m.kind, v.pool, v.filesystem) == name
  }

  /** The provider's volume refers to a backend of this kind and id. */
  predicate RefersTo(found: Inventory, v: Volume, kind: Kind, id: string) {
    v in found.volumes && v.provider == found.provider && id != "" && v.ref == Some(Reference(kind, id))
  }

  ghost predicate BelongsTo(found: Inventory, m: NodeId, home: NodeId) {
    && m.kind in {Image, Subvolume}
    && exists name :: HomeCalled(found, HomeKind(m.kind), name, home) && (ListedMember(found, m, name) || DescribedMember(found, m, name))
  }

  ghost predicate InPool(found: Inventory, image: NodeId, pool: NodeId) { image.kind == Image && BelongsTo(found, image, pool) }

  /** The volume is backed by the image: the only listed one with the id it refers to, or one that is not
      listed. */
  ghost predicate BackedByImage(found: Inventory, v: Volume, image: NodeId) {
    && RefersTo(found, v, Image, image.name) && image.kind == Image
    && (if exists x :: Lists(found, (Image, x)) && x.id == image.name
        then forall x :: Lists(found, (Image, x)) && x.id == image.name ==> EntryId((Image, x)) == image
        else image.namespace == "")
  }

  lemma HomeIsRemembered(found: Inventory, member: Kind, name: string, home: NodeId)
    requires IsMember(member) && HomeCalled(found, HomeKind(member), name, home)
    ensures home.kind == HomeKind(member)
    ensures var homes := HomesOf(ListedStock(found), member); name in homes && homes[name] == home
  {
    StockIsOfLists(found);
    var kind := HomeKind(member);
    var p :| Lists(found, (kind, p)) && p.name == name && EntryId((kind, p)) == home;
    var homes := HomesOf(ListedStock(found), member);
    assert (kind, p) in Seen(found);
    assert CalledIn(Seen(found), kind, name, homes[name]);
    var e :| e in Seen(found) && e.1.id != "" && e.0 == kind && e.1.name == name && homes[name] == EntryId(e);
    assert e == (kind, e.1) && Lists(found, (kind, e.1));
  }

  /** What volumes say of unlisted backends does not touch listed ones. */
  lemma {:induction false} ListedStays(details: map<NodeId, Details>, found: seq<Volume>, n: nat, provider: string, observed: set<(Kind, string)>, id: NodeId)
    requires n <= |found| && id in details && (id.kind, id.name) in observed
    ensures var after := DescribedBy(details, found, n, provider, observed); id in after && after[id] == details[id]
  {
    if n > 0 { ListedStays(details, found, n - 1, provider, observed, id); }
  }

  lemma {:induction false} DescribedIsNoted(details: map<NodeId, Details>, found: seq<Volume>, n: nat, provider: string, observed: set<(Kind, string)>,
                                            m: NodeId, name: string)
    requires n <= |found| && IsMember(m.kind) && (m.kind, m.name) !in observed && m.name != "" && m.namespace == ""
    requires forall v :: v in found && v.provider == provider && v.ref == Some(Reference(m.kind, m.name)) ==>
      HomeIn(m.kind, v.pool, v.filesystem) == name
    ensures var after := DescribedBy(details, found, n, provider, observed);
      (exists v :: v in found[..n] && v.provider == provider && v.ref == Some(Reference(m.kind, m.name))) ==>
        m in after && HomeIn(m.kind, after[m].pool, after[m].filesystem) == name
  {
    if n > 0 {
      DescribedIsNoted(details, found, n - 1, provider, observed, m, name);
      assert found[..n] == found[..n - 1] + [found[n - 1]];
    }
  }

  lemma ListedMemberNoted(found: Inventory, m: NodeId, name: string)
    requires IsMember(m.kind) && ListedMember(found, m, name)
    ensures m in Notes(found) && HomeIn(m.kind, Notes(found)[m].pool, Notes(found)[m].filesystem) == name
  {
    StockIsOfLists(found);
    var x :| Lists(found, (m.kind, x)) && EntryId((m.kind, x)) == m;
    var s := ListedStock(found);
    assert (m.kind, x) in Seen(found);
    assert Says(Seen(found), m, s.details[m]);
    var e :| e in Seen(found) && e.1.id != "" && m == EntryId(e) && s.details[m] == Details(e.1.pool, e.1.filesystem);
    assert e == (m.kind, e.1) && Lists(found, (m.kind, e.1));
    ListedStays(s.details, found.volumes, |found.volumes|, found.provider, Observed(found), m);
  }

  lemma Unlisted(found: Inventory, kind: Kind, id: string)
    requires !exists x :: Lists(found, (kind, x)) && x.id == id
    ensures (kind, id) !in Observed(found)
  {
    if (kind, id) in Observed(found) {
      var x := ObservedIsListed(found, kind, id);
    }
  }

  lemma ObservedIsListed(found: Inventory, kind: Kind, id: string) returns (x: Resource)
    requires (kind, id) in Observed(found)
    ensures Lists(found, (kind, x)) && x.id == id
  {
    StockIsOfLists(found);
    assert Backs(Seen(found), (kind, id), ListedStock(found).backends[(kind, id)]);
    var e :| e in Seen(found) && e.1.id != "" && e.0 == kind && e.1.id == id;
    assert e == (kind, e.1);
    x := e.1;
  }

  lemma DescribedMemberNoted(found: Inventory, m: NodeId, name: string)
    requires IsMember(m.kind) && DescribedMember(found, m, name)
    ensures m in Notes(found) && HomeIn(m.kind, Notes(found)[m].pool, Notes(found)[m].filesystem) == name
  {
    Unlisted(found, m.kind, m.name);
    var v :| RefersTo(found, v, m.kind, m.name);
    DescribedIsNoted(ListedStock(found).details, found.volumes, |found.volumes|, found.provider, Observed(found), m, name);
    assert found.volumes[..|found.volumes|] == found.volumes;
  }

  /** In every built graph each image is joined to the pool it is in, and each subvolume to its filesystem. */
  lemma MemberIsJoined(found: Inventory, links: set<Link>, m: NodeId, home: NodeId)
    requires Linked(found, links) && BelongsTo(found, m, home)
    ensures home.kind == HomeKind(m.kind)
    ensures Link(if m.kind == Image then BelongsToPool else BelongsToFilesystem, m, home) in links
  {
    var name :| HomeCalled(found, HomeKind(m.kind), name, home) && (ListedMember(found, m, name) || DescribedMember(found, m, name));
    HomeIsRemembered(found, m.kind, name, home);
    if ListedMember(found, m, name) { ListedMemberNoted(found, m, name); } else { DescribedMemberNoted(found, m, name); }
    MemberLinkIsThere(found, links, m, home, name);
  }

  lemma MemberLinkIsThere(found: Inventory, links: set<Link>, m: NodeId, home: NodeId, name: string)
    requires Linked(found, links) && IsMember(m.kind) && home.kind == HomeKind(m.kind)
    requires m in Notes(found) && HomeIn(m.kind, Notes(found)[m].pool, Notes(found)[m].filesystem) == name
    requires var homes := HomesOf(ListedStock(found), m.kind); name in homes && homes[name] == home
    ensures Link(if m.kind == Image then BelongsToPool else BelongsToFilesystem, m, home) in links
  {
    var s := ListedStock(found);
    assert MemberLinks(m, Notes(found)[m], s.poolNames, s.filesystems) <= links;
  }

  /** Each volume is joined to the image that backs it. */
  lemma VolumeIsBacked(found: Inventory, links: set<Link>, v: Volume, image: NodeId)
    requires Linked(found, links) && BackedByImage(found, v, image)
    ensures Link(BackedBy, PvId(v.name), image) in links
  {
    var s, ref := ListedStock(found), v.ref.value;
    if exists x :: Lists(found, (Image, x)) && x.id == image.name {
      ListedBackend(found, image);
    } else {
      Unlisted(found, Image, image.name);
    }
    assert BackendOf(s.backends, ref) == image;
    assert VolumeLinks(v, s.backends, ClassNames(found)) <= links;
  }

  lemma ListedBackend(found: Inventory, image: NodeId)
    requires image.kind == Image && exists x :: Lists(found, (Image, x)) && x.id == image.name
    requires forall x :: Lists(found, (Image, x)) && x.id == image.name ==> EntryId((Image, x)) == image
    ensures (Image, image.name) in ListedStock(found).backends && ListedStock(found).backends[(Image, image.name)] == image
  {
    StockIsOfLists(found);
    var x :| Lists(found, (Image, x)) && x.id == image.name;
    assert (Image, x) in Seen(found);
    var k, s := (Image, image.name), ListedStock(found);
    assert Backs(Seen(found), k, s.backends[k]);
    var e :| e in Seen(found) && e.1.id != "" && e.0 == Image && e.1.id == image.name && s.backends[k] == EntryId(e);
    assert e == (Image, e.1) && Lists(found, (Image, e.1));
  }

  // ---------- the other joins, in terms of the inventory ----------

  /** Drivers are joined to the provider, classes to their drivers, volumes and claims to their classes. */
  lemma ClassesAreJoined(found: Inventory, links: set<Link>, d: Driver, c: Class)
    requires Linked(found, links) && c in found.classes && c.provider == found.provider
    requires d in found.drivers && d.provider == found.provider
    ensures found.configured ==> Link(ManagedBy, DriverId(d.name), NodeId(Provider, "", found.provider)) in links
    ensures c.provisioner == d.name ==> Link(Provisions, ClassId(c.name), DriverId(d.name)) in links
    ensures forall v :: v in found.volumes && v.provider == found.provider && v.storageClass == c.name ==>
      Link(Provisions, PvId(v.name), ClassId(c.name)) in links
    ensures forall p :: p in found.claims && p.provider == found.provider && p.storageClass == c.name ==>
      Link(Uses, PvcId(p), ClassId(c.name)) in links
  {
    assert found.drivers[..|found.drivers|] == found.drivers && found.classes[..|found.classes|] == found.classes;
    EachDriverName(found.drivers, |found.drivers|, found.provider, d);
    EachClassName(found.classes, |found.classes|, found.provider, c);
    var i :| 0 <= i < |found.classes| && found.classes[i] == c;
    var j :| 0 <= j < |found.drivers| && found.drivers[j] == d;
    forall v | v in found.volumes && v.provider == found.provider && v.storageClass == c.name
      ensures Link(Provisions, PvId(v.name), ClassId(c.name)) in links
    {
      assert VolumeLinks(v, ListedStock(found).backends, ClassNames(found)) <= links;
    }
    forall p | p in found.claims && p.provider == found.provider && p.storageClass == c.name
      ensures Link(Uses, PvcId(p), ClassId(c.name)) in links
    {
      assert ClaimLinked(p, VolumeNames(found), ClassNames(found), links);
    }
  }

  /** A claim is joined to its volume, and each of its pods to the claim, to the machine it runs on, and,
      both ways, to its owner. */
  lemma ClaimIsJoined(found: Inventory, links: set<Link>, c: Claim)
    requires Linked(found, links) && c in found.claims && c.provider == found.provider
    ensures forall v :: Bound(found, v, c) && v in found.volumes && v.provider == found.provider ==> Link(Binds, PvcId(c), PvId(v.name)) in links
    ensures forall w :: w in c.workloads ==>
      && Link(Uses, PodId(w), PvcId(c)) in links
      && (w.node != "" ==> Link(Attaches, PodId(w), NodeId(Machine, "", w.node)) in links)
    ensures forall w :: w in c.workloads && Owned(w) ==>
      var owner := NodeId(Owner, w.namespace, w.kind + "/" + w.name);
      Link(OwnedBy, PodId(w), owner) in links && Link(Uses, owner, PodId(w)) in links
  {
    assert ClaimLinked(c, VolumeNames(found), ClassNames(found), links);
    forall w | w in c.workloads
      ensures && Link(Uses, PodId(w), PvcId(c)) in links && (w.node != "" ==> Link(Attaches, PodId(w), NodeId(Machine, "", w.node)) in links)
    {
      assert WorkloadLinks(c, w) <= links;
    }
    forall w | w in c.workloads && Owned(w)
      ensures Link(OwnedBy, PodId(w), OwnerId(w)) in links && Link(Uses, OwnerId(w), PodId(w)) in links
    {
      assert WorkloadLinks(c, w) <= links;
    }
  }

  /** An attachment is joined to its volume and its machine. */
  lemma AttachmentIsJoined(found: Inventory, links: set<Link>, a: Attachment)
    requires Linked(found, links) && a in found.attachments && a.provider == found.provider
    ensures forall v :: v in found.volumes && v.provider == found.provider && v.name == a.volume ==>
      Link(Attaches, AttachmentId(a), PvId(v.name)) in links
    ensures a.node != "" ==> Link(Attaches, AttachmentId(a), NodeId(Machine, "", a.node)) in links
  {
    assert AttachmentLinks(a, VolumeNames(found)) <= links;
  }

  // ---------- when the graph says it is incomplete ----------

  /** A volume's backend is not known: it names one that is not listed, or is Ceph's and names none. */
  ghost predicate BackendUnknown(found: Inventory, v: Volume) {
    if v.ref.Some? && v.ref.value.id != "" then !exists x :: Lists(found, (v.ref.value.kind, x)) && x.id == v.ref.value.id else v.ceph
  }

  lemma {:induction false} UnreadableExactly(found: seq<(Kind, Option<seq<Resource>>)>, n: nat)
    requires n <= |found|
    ensures Unreadable(found, n) <==> exists i :: 0 <= i < n && found[i].1 == None
  {
    if n > 0 { UnreadableExactly(found, n - 1); }
  }

  lemma {:induction false} GapInExactly(volumes: seq<Volume>, provider: string, observed: set<(Kind, string)>, n: nat)
    requires n <= |volumes|
    ensures GapIn(volumes, provider, observed, n) <==> exists i :: 0 <= i < n && volumes[i].provider == provider && Gap(volumes[i], observed)
  {
    if n > 0 { GapInExactly(volumes, provider, observed, n - 1); }
  }

  lemma GapIsUnknown(found: Inventory, v: Volume)
    ensures Gap(v, Observed(found)) <==> BackendUnknown(found, v)
  {
    if Refers(v) {
      var kind, id := v.ref.value.kind, v.ref.value.id;
      StockIsOfLists(found);
      if x :| Lists(found, (kind, x)) && x.id == id { assert (kind, x) in Seen(found); }
      if (kind, id) in Observed(found) { var x := ObservedIsListed(found, kind, id); }
    }
  }

  /** The inventory has a gap exactly when a list, the snapshots or the operations could not be read, or the
      backend of a volume is not known. */
  lemma GapsExactly(found: Inventory)
    ensures Gaps(found) <==>
      || found.snapshots == None || found.operations == None
      || (found.configured && exists i :: 0 <= i < |found.resources| && found.resources[i].1 == None)
      || exists v :: v in found.volumes && v.provider == found.provider && BackendUnknown(found, v)
  {
    UnreadableExactly(found.resources, |found.resources|);
    GapInExactly(found.volumes, found.provider, Observed(found), |found.volumes|);
    forall v ensures Gap(v, Observed(found)) <==> BackendUnknown(found, v) { GapIsUnknown(found, v); }
  }
}
