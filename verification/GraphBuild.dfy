/** How the relationship graph is built from an inventory
    (apps/api/internal/storage/context_engine.go). Node ids are kept as the parts they encode, which
    they determine. */
module GraphBuild {
  import opened Common
  import opened RelationshipGraph
  import opened ProviderNames

  /** Normalized kinds. */
  datatype Kind =
    | Provider | CsiDriver | StorageClass | Pv | Pvc | Pod | Machine | Owner | VolumeAttachment | VolumeSnapshot
    | StorageOperation | BlockPool | Osd | Image | CephFilesystem | Subvolume | Other(name: string)

  datatype NodeId = NodeId(kind: Kind, namespace: string, name: string)

  /** The attributes of a node that the build reads. */
  datatype Details = Details(pool: string, filesystem: string)

  const NO_DETAILS := Details("", "")

  datatype Relation =
    | ManagedBy | Provisions | BackedBy | Uses | Binds | Attaches | OwnedBy | BelongsToPool | BelongsToFilesystem
    | Affects | AffectedBy

  datatype Link = Link(relation: Relation, from: NodeId, to: NodeId)

  datatype Driver = Driver(provider: string, name: string)
  datatype Class = Class(provider: string, name: string, provisioner: string)
  datatype Resource = Resource(id: string, namespace: string, name: string, pool: string, filesystem: string)
  datatype Reference = Reference(kind: Kind, id: string)
  datatype Volume = Volume(provider: string, name: string, handle: string, storageClass: string,
                           ref: Option<Reference>, ceph: bool, pool: string, filesystem: string)
  datatype Workload = Workload(namespace: string, pod: string, node: string, kind: string, name: string)
  datatype Claim = Claim(provider: string, namespace: string, name: string, storageClass: string, volume: string,
                         workloads: seq<Workload>)
  datatype Attachment = Attachment(provider: string, name: string, volume: string, node: string)
  datatype Snapshot = Snapshot(provider: string, namespace: string, name: string, claim: string, handle: string)
  datatype Operation = Operation(provider: string, namespace: string, id: string, targetKind: Kind, targetName: string)

  /** What can be read of a cluster; None is a list that could not be read. */
  datatype Inventory = Inventory(provider: string, configured: bool, drivers: seq<Driver>, classes: seq<Class>,
    resources: seq<(Kind, Option<seq<Resource>>)>, volumes: seq<Volume>, claims: seq<Claim>,
    attachments: seq<Attachment>, snapshots: Option<seq<Snapshot>>, operations: Option<seq<Operation>>)

  const MAX_POTENTIAL: nat := 2000

  // ---------- ids ----------

  function DriverId(name: string): NodeId { NodeId(CsiDriver, "", name) }
  function ClassId(name: string): NodeId { NodeId(StorageClass, "", name) }
  function PvId(name: string): NodeId { NodeId(Pv, "", name) }
  function ClaimId(namespace: string, name: string): NodeId { NodeId(Pvc, namespace, name) }
  function PvcId(c: Claim): NodeId { ClaimId(c.namespace, c.name) }
  function PodId(w: Workload): NodeId { NodeId(Pod, w.namespace, w.pod) }
  function MachineId(name: string): NodeId { NodeId(Machine, "", name) }
  function OwnerId(w: Workload): NodeId { NodeId(Owner, w.namespace, w.kind + "/" + w.name) }
  function AttachmentId(a: Attachment): NodeId { NodeId(VolumeAttachment, "", a.name) }
  function SnapshotId(x: Snapshot): NodeId { NodeId(VolumeSnapshot, x.namespace, x.name) }
  function OperationId(o: Operation): NodeId { NodeId(StorageOperation, o.namespace, o.id) }

  /** What an operation says it works on. */
  function TargetOf(o: Operation): NodeId {
    NodeId(o.targetKind, o.namespace, if o.targetKind == BlockPool then o.namespace + "/" + o.targetName else o.targetName)
  }

  predicate HasOwner(w: Workload) { w.kind != "" && w.kind != "Pod" && w.name != "" }

  predicate Refers(v: Volume) { v.ref.Some? && v.ref.value.id != "" }

  /** The backend a reference names: the observed resource, or a node made for it. */
  function BackendOf(backends: map<(Kind, string), NodeId>, ref: Reference): NodeId {
    if (ref.kind, ref.id) in backends then backends[(ref.kind, ref.id)] else NodeId(ref.kind, "", ref.id)
  }

  function ConfidenceOf(l: Link): Confidence {
    match l.relation
    case Uses => if l.from.kind == Owner then Derived else Authoritative
    case Attaches => if l.from.kind == Pod then Derived else Authoritative
    case OwnedBy => Derived
    case BelongsToPool => Derived
    case AffectedBy => Potential
    case _ => Authoritative
  }

  // ---------- what must be in the graph ----------

  function DriverNames(found: seq<Driver>, n: nat, provider: string): set<string>
    requires n <= |found|
  {
    if n == 0 then {} else DriverNames(found, n - 1, provider) + if found[n - 1].provider == provider then {found[n - 1].name} else {}
  }

  /** The provider's first n drivers are joined to it. */
  predicate DriversJoined(found: seq<Driver>, n: nat, provider: string, links: set<Link>)
    requires n <= |found|
  {
    forall k :: 0 <= k < n && found[k].provider == provider ==>
      Link(ManagedBy, DriverId(found[k].name), NodeId(Provider, "", provider)) in links
  }

  lemma NextDriver(found: seq<Driver>, n: nat, provider: string, links: set<Link>, more: set<Link>)
    requires n < |found| && DriversJoined(found, n, provider, links) && links <= more
    requires found[n].provider == provider ==> Link(ManagedBy, DriverId(found[n].name), NodeId(Provider, "", provider)) in more
    ensures DriversJoined(found, n + 1, provider, more)
  {}

  function NamesOfClasses(found: seq<Class>, n: nat, provider: string): set<string>
    requires n <= |found|
  {
    if n == 0 then {} else NamesOfClasses(found, n - 1, provider) + if found[n - 1].provider == provider then {found[n - 1].name} else {}
  }

  /** The provider's first n classes are joined to their drivers. */
  predicate ClassesJoined(found: seq<Class>, n: nat, provider: string, drivers: set<string>, links: set<Link>)
    requires n <= |found|
  {
    forall k :: 0 <= k < n && found[k].provider == provider && found[k].provisioner in drivers ==>
      Link(Provisions, ClassId(found[k].name), DriverId(found[k].provisioner)) in links
  }

  lemma NextClass(found: seq<Class>, n: nat, provider: string, drivers: set<string>, links: set<Link>, more: set<Link>)
    requires n < |found| && ClassesJoined(found, n, provider, drivers, links) && links <= more
    requires found[n].provider == provider && found[n].provisioner in drivers ==>
      Link(Provisions, ClassId(found[n].name), DriverId(found[n].provisioner)) in more
    ensures ClassesJoined(found, n + 1, provider, drivers, more)
  {}

  lemma {:induction false} EachDriverName(found: seq<Driver>, n: nat, provider: string, d: Driver)
    requires n <= |found| && d in found[..n] && d.provider == provider
    ensures d.name in DriverNames(found, n, provider)
  {
    if d != found[n - 1] { EachDriverName(found, n - 1, provider, d); }
  }

  lemma {:induction false} EachClassName(found: seq<Class>, n: nat, provider: string, c: Class)
    requires n <= |found| && c in found[..n] && c.provider == provider
    ensures c.name in NamesOfClasses(found, n, provider)
  {
    if c != found[n - 1] { EachClassName(found, n - 1, provider, c); }
  }

  /** The volume is of its class, if the graph has it, and backed by what its reference names. */
  function VolumeLinks(v: Volume, backends: map<(Kind, string), NodeId>, classes: set<string>): set<Link> {
    (if v.storageClass in classes then {Link(Provisions, PvId(v.name), ClassId(v.storageClass))} else {})
    + if Refers(v) then NewLink(BackedBy, PvId(v.name), BackendOf(backends, v.ref.value)) else {}
  }

  /** What the provider's first n volumes are called and backed by. */
  function AllVolumeLinks(found: seq<Volume>, n: nat, provider: string, backends: map<(Kind, string), NodeId>, classes: set<string>): set<Link>
    requires n <= |found|
  {
    if n == 0 then {}
    else
      AllVolumeLinks(found, n - 1, provider, backends, classes)
      + if found[n - 1].provider == provider then VolumeLinks(found[n - 1], backends, classes) else {}
  }

  function AllVolumeNames(found: seq<Volume>, n: nat, provider: string): set<string>
    requires n <= |found|
  {
    if n == 0 then {} else AllVolumeNames(found, n - 1, provider) + if found[n - 1].provider == provider then {found[n - 1].name} else {}
  }

  lemma {:induction false} EachVolume(found: seq<Volume>, n: nat, provider: string, backends: map<(Kind, string), NodeId>, classes: set<string>, v: Volume)
    requires n <= |found| && v in found[..n] && v.provider == provider
    ensures v.name in AllVolumeNames(found, n, provider) && VolumeLinks(v, backends, classes) <= AllVolumeLinks(found, n, provider, backends, classes)
  {
    if v != found[n - 1] { EachVolume(found, n - 1, provider, backends, classes, v); }
  }

  /** The pod uses the claim and is on its machine; its owner, if there is one, uses the pod. */
  function WorkloadLinks(c: Claim, w: Workload): set<Link> {
    {Link(Uses, PodId(w), PvcId(c))}
    + (if w.node == "" then {} else {Link(Attaches, PodId(w), MachineId(w.node))})
    + if HasOwner(w) then {Link(OwnedBy, PodId(w), OwnerId(w)), Link(Uses, OwnerId(w), PodId(w))} else {}
  }

  function LinksOfWorkloads(before: set<Link>, c: Claim, n: nat): set<Link>
    requires n <= |c.workloads|
  {
    if n == 0 then before else LinksOfWorkloads(before, c, n - 1) + WorkloadLinks(c, c.workloads[n - 1])
  }

  lemma {:induction false} LinksOfEach(before: set<Link>, c: Claim, n: nat, w: Workload)
    requires n <= |c.workloads| && w in c.workloads[..n]
    ensures WorkloadLinks(c, w) <= LinksOfWorkloads(before, c, n)
  {
    if w != c.workloads[n - 1] { LinksOfEach(before, c, n - 1, w); }
  }

  lemma {:induction false} LinksOfSome(before: set<Link>, c: Claim, n: nat, l: Link)
    requires n <= |c.workloads|
    ensures l in before ==> l in LinksOfWorkloads(before, c, n)
    ensures l in LinksOfWorkloads(before, c, n) && l !in before ==> exists w :: w in c.workloads && l in WorkloadLinks(c, w)
  {
    if n > 0 {
      LinksOfSome(before, c, n - 1, l);
      assert c.workloads[n - 1] in c.workloads;
    }
  }

  predicate ClaimBound(c: Claim, volumes: set<string>, classes: set<string>, links: set<Link>) {
    && (c.storageClass in classes ==> Link(Uses, PvcId(c), ClassId(c.storageClass)) in links)
    && (c.volume in volumes ==> Link(Binds, PvcId(c), PvId(c.volume)) in links)
  }

  lemma ClaimIsLinked(c: Claim, volumes: set<string>, classes: set<string>, bound: set<Link>, links: set<Link>)
    requires ClaimBound(c, volumes, classes, bound) && bound <= links && forall w :: w in c.workloads ==> WorkloadLinks(c, w) <= links
    ensures ClaimLinked(c, volumes, classes, links)
  {}

  /** The claim is of its class and bound to its volume, if the graph has them, and its workloads are joined
      to it. */
  predicate ClaimLinked(c: Claim, volumes: set<string>, classes: set<string>, links: set<Link>) {
    && ClaimBound(c, volumes, classes, links)
    && forall w :: w in c.workloads ==> WorkloadLinks(c, w) <= links
  }

  /** The provider's first n claims are, and are in the graph. */
  predicate ClaimsAdded(found: seq<Claim>, n: nat, provider: string, volumes: set<string>, classes: set<string>, nodes: set<NodeId>, links: set<Link>)
    requires n <= |found|
  {
    n > 0 ==>
      && ClaimsAdded(found, n - 1, provider, volumes, classes, nodes, links)
      && (found[n - 1].provider == provider ==> PvcId(found[n - 1]) in nodes && ClaimLinked(found[n - 1], volumes, classes, links))
  }

  lemma {:induction false} ClaimsStay(found: seq<Claim>, n: nat, provider: string, volumes: set<string>, classes: set<string>,
                                      nodes: set<NodeId>, nodes': set<NodeId>, links: set<Link>, links': set<Link>)
    requires n <= |found| && nodes <= nodes' && links <= links' && ClaimsAdded(found, n, provider, volumes, classes, nodes, links)
    ensures ClaimsAdded(found, n, provider, volumes, classes, nodes', links')
  {
    if n > 0 { ClaimsStay(found, n - 1, provider, volumes, classes, nodes, nodes', links, links'); }
  }

  lemma {:induction false} EachClaim(found: seq<Claim>, n: nat, provider: string, volumes: set<string>, classes: set<string>, nodes: set<NodeId>,
                                     links: set<Link>, c: Claim)
    requires n <= |found| && ClaimsAdded(found, n, provider, volumes, classes, nodes, links) && c in found[..n] && c.provider == provider
    ensures PvcId(c) in nodes && ClaimLinked(c, volumes, classes, links)
  {
    if c != found[n - 1] { EachClaim(found, n - 1, provider, volumes, classes, nodes, links, c); }
  }

  function AttachmentLinks(a: Attachment, volumes: set<string>): set<Link> {
    (if a.volume in volumes then {Link(Attaches, AttachmentId(a), PvId(a.volume))} else {})
    + if a.node == "" then {} else {Link(Attaches, AttachmentId(a), MachineId(a.node))}
  }

  /** The provider's first n attachments are joined. */
  predicate AttachmentsLinked(found: seq<Attachment>, n: nat, provider: string, volumes: set<string>, links: set<Link>)
    requires n <= |found|
  {
    forall k :: 0 <= k < n && found[k].provider == provider ==> AttachmentLinks(found[k], volumes) <= links
  }

  lemma NextAttachment(found: seq<Attachment>, n: nat, provider: string, volumes: set<string>, start: set<Link>, links: set<Link>, more: set<Link>)
    requires n < |found| && AttachmentsLinked(found, n, provider, volumes, links) && Grows(start, links)
    requires more == links + if found[n].provider == provider then AttachmentLinks(found[n], volumes) else {}
    ensures AttachmentsLinked(found, n + 1, provider, volumes, more) && Grows(start, more)
  {}

  /** The snapshot is joined to the claim it was taken of, or else to the volume with its handle. */
  predicate SnapshotLinked(x: Snapshot, claims: set<(string, string)>, handles: map<string, NodeId>, links: set<Link>) {
    if (x.namespace, x.claim) in claims then Link(BackedBy, SnapshotId(x), ClaimId(x.namespace, x.claim)) in links
    else x.handle in handles ==> Link(BackedBy, SnapshotId(x), handles[x.handle]) in links
  }

  /** The provider's first n snapshots are. */
  predicate SnapshotsLinked(found: seq<Snapshot>, n: nat, provider: string, claims: set<(string, string)>, handles: map<string, NodeId>,
                            links: set<Link>)
    requires n <= |found|
  {
    n > 0 ==>
      && SnapshotsLinked(found, n - 1, provider, claims, handles, links)
      && (found[n - 1].provider == provider ==> SnapshotLinked(found[n - 1], claims, handles, links))
  }

  lemma {:induction false} SnapshotsStay(found: seq<Snapshot>, n: nat, provider: string, claims: set<(string, string)>,
                                         handles: map<string, NodeId>, links: set<Link>, more: set<Link>)
    requires n <= |found| && links <= more && SnapshotsLinked(found, n, provider, claims, handles, links)
    ensures SnapshotsLinked(found, n, provider, claims, handles, more)
  {
    if n > 0 { SnapshotsStay(found, n - 1, provider, claims, handles, links, more); }
  }

  lemma {:induction false} EachSnapshot(found: seq<Snapshot>, n: nat, provider: string, claims: set<(string, string)>,
                                        handles: map<string, NodeId>, links: set<Link>, x: Snapshot)
    requires n <= |found| && SnapshotsLinked(found, n, provider, claims, handles, links) && x in found[..n] && x.provider == provider
    ensures SnapshotLinked(x, claims, handles, links)
  {
    if x != found[n - 1] { EachSnapshot(found, n - 1, provider, claims, handles, links, x); }
  }

  /** The operation affects its target if that is one of the users or volumes in the graph. */
  predicate OperationLinked(o: Operation, nodes: set<NodeId>, links: set<Link>) {
    TargetOf(o) in nodes && o.targetKind != StorageOperation ==> Link(Affects, OperationId(o), TargetOf(o)) in links
  }

  /** The provider's first n operations do. */
  predicate OperationsLinked(found: seq<Operation>, n: nat, provider: string, nodes: set<NodeId>, links: set<Link>)
    requires n <= |found|
  {
    forall k :: 0 <= k < n && found[k].provider == provider ==> OperationLinked(found[k], nodes, links)
  }

  lemma NextOperation(found: seq<Operation>, n: nat, provider: string, nodes: set<NodeId>, links: set<Link>, now: set<NodeId>, more: set<Link>)
    requires n < |found| && OperationsLinked(found, n, provider, nodes, links) && nodes <= now && links <= more
    requires found[n].provider == provider ==> OperationLinked(found[n], now, more)
    ensures OperationsLinked(found, n + 1, provider, nodes, more)
  {
    forall k | 0 <= k < n && found[k].provider == provider
      ensures OperationLinked(found[k], nodes, more)
    {}
  }

  // ---------- what may be in the graph ----------

  predicate OfClaim(c: Claim, l: Link) {
    || l == Link(Uses, PvcId(c), ClassId(c.storageClass))
    || l == Link(Binds, PvcId(c), PvId(c.volume))
    || exists w :: w in c.workloads && l in WorkloadLinks(c, w)
  }

  /** Pods, claims and workload owners are the ends of edges from claims only. */
  predicate FromUser(l: Link) { l.from.kind in {Pod, Pvc, Owner} }

  /** What the edges that are of no claim join. References to backends name only these kinds, and what
      operations and the topology join is given. */
  predicate Ordinary(l: Link, refs: set<Kind>, others: set<Link>) {
    match l.relation
    case ManagedBy => l.from.kind == CsiDriver && l.to.kind == Provider
    case Provisions =>
      (l.from.kind == StorageClass && l.to.kind == CsiDriver) || (l.from.kind == Pv && l.to.kind == StorageClass)
    case BackedBy => (l.from.kind == Pv && l.to.kind in refs) || (l.from.kind == VolumeSnapshot && l.to.kind in {Pvc, Pv})
    case Attaches => l.from.kind == VolumeAttachment && l.to.kind in {Pv, Machine}
    case BelongsToPool => l.from.kind == Image && l.to.kind == BlockPool
    case BelongsToFilesystem => l.from.kind == Subvolume && l.to.kind == CephFilesystem
    case Affects => l in others && l.from.kind == StorageOperation
    case AffectedBy => l in others && l.from.kind == BlockPool && l.to.kind == Osd
    case _ => false
  }

  /** More links, none of them of a claim. */
  ghost predicate GrowsAs(before: set<Link>, after: set<Link>, refs: set<Kind>, others: set<Link>) {
    before <= after && forall l :: l in after && l !in before ==> Ordinary(l, refs, others)
  }

  /** Neither references nor operations nor the topology. */
  ghost predicate Grows(before: set<Link>, after: set<Link>) { GrowsAs(before, after, {}, {}) }

  lemma GrowsThen(a: set<Link>, b: set<Link>, c: set<Link>, refs: set<Kind>, others: set<Link>, refs': set<Kind>, others': set<Link>,
                  refs'': set<Kind>, others'': set<Link>)
    requires GrowsAs(a, b, refs, others) && GrowsAs(b, c, refs', others')
    requires refs <= refs'' && refs' <= refs'' && others <= others'' && others' <= others''
    ensures GrowsAs(a, c, refs'', others'')
  {}

  /** More links, all of the claim. */
  ghost predicate GrowsBy(before: set<Link>, after: set<Link>, c: Claim) {
    before <= after && forall l :: l in after && l !in before ==> OfClaim(c, l)
  }

  function NameOf(c: Claim, provider: string): set<(string, string)> {
    if c.provider == provider then {(c.namespace, c.name)} else {}
  }

  function NamesOf(before: set<(string, string)>, claims: seq<Claim>, n: nat, provider: string): set<(string, string)>
    requires n <= |claims|
  {
    if n == 0 then before else NamesOf(before, claims, n - 1, provider) + NameOf(claims[n - 1], provider)
  }

  lemma WorkloadsLinked(c: Claim, before: set<Link>, after: set<Link>)
    requires after == LinksOfWorkloads(before, c, |c.workloads|)
    ensures GrowsBy(before, after, c) && forall w :: w in c.workloads ==> WorkloadLinks(c, w) <= after
  {
    forall w | w in c.workloads ensures WorkloadLinks(c, w) <= after {
      assert c.workloads[..|c.workloads|] == c.workloads;
      LinksOfEach(before, c, |c.workloads|, w);
    }
    forall l ensures (l in before ==> l in after) && (l in after && l !in before ==> OfClaim(c, l)) {
      LinksOfSome(before, c, |c.workloads|, l);
    }
  }

  /** One of the provider's first n claims has it. */
  predicate OfClaims(claims: seq<Claim>, n: nat, provider: string, l: Link)
    requires n <= |claims|
  {
    n > 0 && (OfClaims(claims, n - 1, provider, l) || (claims[n - 1].provider == provider && OfClaim(claims[n - 1], l)))
  }

  /** The kinds that the references of the provider's volumes name. */
  function RefKinds(found: seq<Volume>, provider: string): set<Kind> {
    set v | v in found && v.provider == provider && Refers(v) :: v.ref.value.kind
  }

  /** What the provider's operations work on. */
  function WorkLinks(found: Option<seq<Operation>>, provider: string): set<Link> {
    if found == None then {} else set o | o in found.value && o.provider == provider :: Link(Affects, OperationId(o), TargetOf(o))
  }

  // ---------- what was observed ----------

  function IdIf(want: Kind, id: NodeId): seq<NodeId> { if id.kind == want && id.name != "" then [id] else [] }

  /** The nodes of one kind among the first n resources of a list, after those there were. */
  function IdsIn(before: seq<NodeId>, want: Kind, kind: Kind, listed: seq<Resource>, n: nat): seq<NodeId>
    requires n <= |listed|
  {
    if n == 0 then before
    else IdsIn(before, want, kind, listed, n - 1) + IdIf(want, NodeId(kind, listed[n - 1].namespace, listed[n - 1].id))
  }

  /** Those in the first n lists, in order. */
  function IdsOf(want: Kind, found: seq<(Kind, Option<seq<Resource>>)>, n: nat): seq<NodeId>
    requires n <= |found|
  {
    if n == 0 then []
    else IdsAfter(IdsOf(want, found, n - 1), want, found[n - 1].0, found[n - 1].1)
  }

  function IdsAfter(before: seq<NodeId>, want: Kind, kind: Kind, listed: Option<seq<Resource>>): seq<NodeId> {
    if listed == None then before else IdsIn(before, want, kind, listed.value, |listed.value|)
  }

  /** What the resource lists are remembered for: backends by kind and id, pools and filesystems by name, and
      what images and subvolumes say they belong to. */
  datatype Stock = Stock(backends: map<(Kind, string), NodeId>, poolNames: map<string, NodeId>, filesystems: map<string, NodeId>,
                         details: map<NodeId, Details>)

  const NOTHING_LISTED := Stock(map[], map[], map[], map[])

  /** The kinds that belong to a pool or a filesystem. */
  predicate IsMember(kind: Kind) { kind in {Image, Subvolume} }

  function Noted(details: map<NodeId, Details>, id: NodeId, note: Details): map<NodeId, Details> {
    if IsMember(id.kind) then details[id := note] else details
  }

  function WithResource(s: Stock, kind: Kind, item: Resource): Stock {
    var id := NodeId(kind, item.namespace, item.id);
    if item.id == "" then s
    else Stock(
      s.backends[(kind, item.id) := id],
      if kind == BlockPool then s.poolNames[item.name := id] else s.poolNames,
      if kind == CephFilesystem then s.filesystems[item.name := id] else s.filesystems,
      Noted(s.details, id, Details(item.pool, item.filesystem)))
  }

  function WithList(s: Stock, kind: Kind, listed: seq<Resource>, n: nat): Stock
    requires n <= |listed|
  {
    if n == 0 then s else WithResource(WithList(s, kind, listed, n - 1), kind, listed[n - 1])
  }

  function WithListed(s: Stock, kind: Kind, listed: Option<seq<Resource>>): Stock {
    if listed == None then s else WithList(s, kind, listed.value, |listed.value|)
  }

  function StockOf(found: seq<(Kind, Option<seq<Resource>>)>, n: nat): Stock
    requires n <= |found|
  {
    if n == 0 then NOTHING_LISTED else WithListed(StockOf(found, n - 1), found[n - 1].0, found[n - 1].1)
  }

  /** What a volume says of a backend that was not listed. */
  function Described(details: map<NodeId, Details>, v: Volume, provider: string, observed: set<(Kind, string)>): map<NodeId, Details> {
    if v.provider == provider && Refers(v) && (v.ref.value.kind, v.ref.value.id) !in observed
    then Noted(details, NodeId(v.ref.value.kind, "", v.ref.value.id), Details(v.pool, v.filesystem))
    else details
  }

  function DescribedBy(details: map<NodeId, Details>, found: seq<Volume>, n: nat, provider: string, observed: set<(Kind, string)>): map<NodeId, Details>
    requires n <= |found|
  {
    if n == 0 then details else Described(DescribedBy(details, found, n - 1, provider, observed), found[n - 1], provider, observed)
  }

  /** What an image or a subvolume is joined to. */
  function MemberLinks(id: NodeId, note: Details, poolNames: map<string, NodeId>, filesystems: map<string, NodeId>): set<Link> {
    if id.kind == Image && note.pool in poolNames then NewLink(BelongsToPool, id, poolNames[note.pool])
    else if id.kind == Subvolume && note.filesystem in filesystems then NewLink(BelongsToFilesystem, id, filesystems[note.filesystem])
    else {}
  }

  predicate MembersJoined(details: map<NodeId, Details>, poolNames: map<string, NodeId>, filesystems: map<string, NodeId>, links: set<Link>) {
    forall id :: id in details ==> MemberLinks(id, details[id], poolNames, filesystems) <= links
  }

  /** One of the first n lists could not be read. */
  predicate Unreadable(found: seq<(Kind, Option<seq<Resource>>)>, n: nat)
    requires n <= |found|
  {
    n > 0 && (Unreadable(found, n - 1) || found[n - 1].1 == None)
  }

  /** The volume's backend is not among the observed resources, or a Ceph volume names none. */
  predicate Gap(v: Volume, observed: set<(Kind, string)>) {
    if Refers(v) then (v.ref.value.kind, v.ref.value.id) !in observed else v.ceph
  }

  /** One of the provider's first n volumes has a gap. */
  predicate GapIn(volumes: seq<Volume>, provider: string, observed: set<(Kind, string)>, n: nat)
    requires n <= |volumes|
  {
    n > 0 && (GapIn(volumes, provider, observed, n - 1) || (volumes[n - 1].provider == provider && Gap(volumes[n - 1], observed)))
  }

  function Handled(handles: map<string, NodeId>, v: Volume, provider: string): map<string, NodeId> {
    if v.provider == provider && v.handle != "" then handles[v.handle := PvId(v.name)] else handles
  }

  /** Volumes by handle; the last one counts. */
  function HandleIndex(handles: map<string, NodeId>, volumes: seq<Volume>, n: nat, provider: string): map<string, NodeId>
    requires n <= |volumes|
  {
    if n == 0 then handles else Handled(HandleIndex(handles, volumes, n - 1, provider), volumes[n - 1], provider)
  }

  // ---------- which nodes there can be ----------

  /** More nodes, but only these. */
  predicate Adds(before: set<NodeId>, after: set<NodeId>, ids: set<NodeId>) { before <= after <= before + ids }

  function DriverIds(found: seq<Driver>, provider: string): set<NodeId> {
    set d | d in found && d.provider == provider :: DriverId(d.name)
  }

  function ClassIds(found: seq<Class>, provider: string): set<NodeId> {
    set c | c in found && c.provider == provider :: ClassId(c.name)
  }

  function ListedIds(kind: Kind, listed: seq<Resource>): set<NodeId> {
    set item | item in listed :: NodeId(kind, item.namespace, item.id)
  }

  function ResourceIds(found: seq<(Kind, Option<seq<Resource>>)>): set<NodeId> {
    set list, id | list in found && list.1.Some? && id in ListedIds(list.0, list.1.value) :: id
  }

  function ListIds(kind: Kind, listed: Option<seq<Resource>>): set<NodeId> {
    if listed == None then {} else ListedIds(kind, listed.value)
  }

  lemma ListedInResources(found: seq<(Kind, Option<seq<Resource>>)>, i: nat)
    requires i < |found|
    ensures ListIds(found[i].0, found[i].1) <= ResourceIds(found)
  {
    if found[i].1.Some? { assert found[i] in found; }
  }

  function BackendIds(v: Volume): set<NodeId> { if Refers(v) then {NodeId(v.ref.value.kind, "", v.ref.value.id)} else {} }

  function VolumeIds(v: Volume, provider: string): set<NodeId> {
    if v.provider == provider then {PvId(v.name)} + BackendIds(v) else {}
  }

  function AllVolumeIds(found: seq<Volume>, n: nat, provider: string): set<NodeId>
    requires n <= |found|
  {
    if n == 0 then {} else AllVolumeIds(found, n - 1, provider) + VolumeIds(found[n - 1], provider)
  }

  function WorkloadIds(w: Workload): set<NodeId> {
    {PodId(w)} + (if w.node == "" then {} else {MachineId(w.node)}) + if HasOwner(w) then {OwnerId(w)} else {}
  }

  function AllWorkloadIds(before: set<NodeId>, found: seq<Workload>, n: nat): set<NodeId>
    requires n <= |found|
  {
    if n == 0 then before else AllWorkloadIds(before, found, n - 1) + WorkloadIds(found[n - 1])
  }

  lemma {:induction false} MoreWorkloadIds(before: set<NodeId>, found: seq<Workload>, n: nat)
    requires n <= |found|
    ensures AllWorkloadIds(before, found, n) == before + AllWorkloadIds({}, found, n)
  {
    if n > 0 { MoreWorkloadIds(before, found, n - 1); }
  }

  function ClaimIds(c: Claim, provider: string): set<NodeId> {
    if c.provider == provider then {PvcId(c)} + AllWorkloadIds({}, c.workloads, |c.workloads|) else {}
  }

  function AllClaimIds(found: seq<Claim>, n: nat, provider: string): set<NodeId>
    requires n <= |found|
  {
    if n == 0 then {} else AllClaimIds(found, n - 1, provider) + ClaimIds(found[n - 1], provider)
  }

  function AttachmentIds(a: Attachment, provider: string): set<NodeId> {
    if a.provider != provider then {} else {AttachmentId(a)} + if a.node == "" then {} else {MachineId(a.node)}
  }

  function AllAttachmentIds(found: seq<Attachment>, n: nat, provider: string): set<NodeId>
    requires n <= |found|
  {
    if n == 0 then {} else AllAttachmentIds(found, n - 1, provider) + AttachmentIds(found[n - 1], provider)
  }

  function SnapshotIds(found: Option<seq<Snapshot>>, provider: string): set<NodeId> {
    if found == None then {} else set x | x in found.value && x.provider == provider :: SnapshotId(x)
  }

  function OperationIds(found: Option<seq<Operation>>, provider: string): set<NodeId> {
    if found == None then {} else set o | o in found.value && o.provider == provider :: OperationId(o)
  }

  /** Every node is an item of the inventory or a backend one of its volumes names. */
  function Items(found: Inventory): set<NodeId> { StockItems(found) + OtherItems(found) }

  function StockItems(found: Inventory): set<NodeId> {
    (if found.configured then {NodeId(Provider, "", found.provider)} else {}) + ProviderItems(found)
    + AllVolumeIds(found.volumes, |found.volumes|, found.provider) + UserItems(found)
  }

  function ProviderItems(found: Inventory): set<NodeId> {
    DriverIds(found.drivers, found.provider) + ClassIds(found.classes, found.provider)
    + if found.configured then ResourceIds(found.resources) else {}
  }

  function UserItems(found: Inventory): set<NodeId> {
    AllClaimIds(found.claims, |found.claims|, found.provider) + AllAttachmentIds(found.attachments, |found.attachments|, found.provider)
  }

  function OtherItems(found: Inventory): set<NodeId> {
    SnapshotIds(found.snapshots, found.provider) + OperationIds(found.operations, found.provider)
  }

  // ---------- the build ----------

  /** Every edge joins two different nodes of the graph and has the confidence of its kind. */
  ghost predicate Closed(nodes: map<NodeId, Details>, edges: map<Link, Confidence>) {
    forall l :: l in edges ==> l.from in nodes && l.to in nodes && l.from != l.to && edges[l] == ConfidenceOf(l)
  }

  ghost predicate KnownAs(index: map<string, NodeId>, nodes: map<NodeId, Details>, kind: Kind) {
    forall k :: k in index ==> index[k] in nodes && index[k].kind == kind
  }

  ghost predicate KnownBackends(backends: map<(Kind, string), NodeId>, nodes: map<NodeId, Details>) {
    forall k :: k in backends ==> backends[k] in nodes && backends[k].kind == k.0
  }

  ghost predicate AllKnown(ids: seq<NodeId>, nodes: map<NodeId, Details>, kind: Kind) {
    forall k :: 0 <= k < |ids| ==> ids[k] in nodes && ids[k].kind == kind
  }

  ghost predicate Indexed(drivers: map<string, NodeId>, backends: map<(Kind, string), NodeId>, nodes: map<NodeId, Details>) {
    (forall k :: k in drivers ==> drivers[k] == DriverId(k) && drivers[k] in nodes) && KnownBackends(backends, nodes)
  }

  ghost predicate Found(poolNames: map<string, NodeId>, filesystems: map<string, NodeId>, pools: seq<NodeId>, osds: seq<NodeId>,
                        nodes: map<NodeId, Details>) {
    KnownAs(poolNames, nodes, BlockPool) && KnownAs(filesystems, nodes, CephFilesystem) && AllKnown(pools, nodes, BlockPool) && AllKnown(osds, nodes, Osd)
  }

  /** What these indexes say follows from what they are asked. */
  ghost predicate Named(classes: map<string, NodeId>, volumes: map<string, NodeId>, handles: map<string, NodeId>, claims: map<(string, string), NodeId>,
                        nodes: map<NodeId, Details>) {
    && (forall k :: k in classes ==> classes[k] == ClassId(k) && classes[k] in nodes)
    && (forall k :: k in volumes ==> volumes[k] == PvId(k) && volumes[k] in nodes)
    && (forall k :: k in handles ==> handles[k].kind == Pv && handles[k] in nodes)
    && (forall k :: k in claims ==> claims[k] == ClaimId(k.0, k.1) && claims[k] in nodes)
  }

  class Build {
    const provider: string
    const configured: bool
    var nodes: map<NodeId, Details>
    var edges: map<Link, Confidence>
    var drivers: map<string, NodeId>
    var classes: map<string, NodeId>
    var backends: map<(Kind, string), NodeId>
    var poolNames: map<string, NodeId>
    var filesystems: map<string, NodeId>
    var volumes: map<string, NodeId>
    var handles: map<string, NodeId>
    var claims: map<(string, string), NodeId>
    var pools: seq<NodeId>
    var osds: seq<NodeId>
    var incomplete: bool
    ghost var details: map<NodeId, Details>

    function ProviderNode(): NodeId { NodeId(Provider, "", provider) }

    /** Edges join nodes, and what was noted of images and subvolumes is still there. */
    ghost predicate Sound()
      reads this`nodes, this`edges, this`details
    {
      Closed(nodes, edges) && forall id :: id in details ==> IsMember(id.kind) && id in nodes && nodes[id] == details[id]
    }

    ghost function Listing(): Stock
      reads this`backends, this`poolNames, this`filesystems, this`details
    {
      Stock(backends, poolNames, filesystems, details)
    }

    ghost predicate Valid()
      reads this
    {
      && Sound() && Indexed(drivers, backends, nodes) && Found(poolNames, filesystems, pools, osds, nodes)
      && Named(classes, volumes, handles, claims, nodes) && (configured ==> ProviderNode() in nodes)
    }

    /** Nothing has been added yet. */
    predicate Fresh()
      reads this`edges, this`drivers, this`classes, this`volumes, this`handles, this`claims
    {
      edges == map[] && drivers == map[] && classes == map[] && volumes == map[] && handles == map[] && claims == map[]
    }

    /** The part of it that listing resources touches. */
    ghost predicate Stocked()
      reads this`nodes, this`edges, this`backends, this`poolNames, this`filesystems, this`pools, this`osds, this`details
    {
      Sound() && KnownBackends(backends, nodes) && Found(poolNames, filesystems, pools, osds, nodes)
    }

    constructor (provider: string, configured: bool)
      ensures Valid() && edges == map[] && this.provider == provider && this.configured == configured
      ensures nodes.Keys == if configured then {NodeId(Provider, "", provider)} else {}
      ensures !incomplete && pools == [] && osds == [] && Listing() == NOTHING_LISTED && Fresh()
    {
      this.provider, this.configured := provider, configured;
      edges, incomplete := map[], false;
      drivers, classes, backends, poolNames, filesystems := map[], map[], map[], map[], map[];
      volumes, handles, claims, pools, osds := map[], map[], map[], [], [];
      details := map[];
      nodes := if configured then map[NodeId(Provider, "", provider) := NO_DETAILS] else map[];
    }

    method AddNode(id: NodeId)
      requires Sound() && !IsMember(id.kind)
      modifies this`nodes
      ensures Sound() && nodes == old(nodes)[id := NO_DETAILS]
    {
      nodes := nodes[id := NO_DETAILS];
    }

    /** A backend and what it belongs to. */
    method AddBackend(id: NodeId, note: Details)
      requires Sound()
      modifies this`nodes, this`details
      ensures Sound() && nodes == old(nodes)[id := note] && details == Noted(old(details), id, note)
    {
      nodes := nodes[id := note];
      details := Noted(details, id, note);
    }

    method AddEdge(relation: Relation, from: NodeId, to: NodeId, confidence: Confidence)
      requires Closed(nodes, edges) && from in nodes && to in nodes && confidence == ConfidenceOf(Link(relation, from, to))
      modifies this`edges
      ensures Closed(nodes, edges) && edges.Keys == old(edges).Keys + NewLink(relation, from, to)
    {
      if from == to {
        return;
      }
      edges := edges[Link(relation, from, to) := confidence];
    }

    /** A node without details. */
    method AddItem(id: NodeId)
      requires Valid() && !IsMember(id.kind)
      modifies this`nodes
      ensures Valid() && nodes.Keys == old(nodes).Keys + {id}
    {
      AddNode(id);
    }

    /** An edge of no claim. */
    method AddOrdinary(relation: Relation, from: NodeId, to: NodeId, confidence: Confidence, ghost others: set<Link>)
      requires Valid() && from in nodes && to in nodes && confidence == ConfidenceOf(Link(relation, from, to))
      requires Ordinary(Link(relation, from, to), {}, others)
      modifies this`edges
      ensures Valid() && GrowsAs(old(edges).Keys, edges.Keys, {}, others) && edges.Keys == old(edges).Keys + NewLink(relation, from, to)
    {
      AddEdge(relation, from, to, confidence);
    }

    method AddDrivers(found: seq<Driver>)
      requires Valid() && drivers == map[]
      modifies this`nodes, this`edges, this`drivers
      ensures Valid() && Grows(old(edges).Keys, edges.Keys) && Adds(old(nodes).Keys, nodes.Keys, DriverIds(found, provider))
      ensures drivers.Keys == DriverNames(found, |found|, provider)
      ensures configured ==> DriversJoined(found, |found|, provider, edges.Keys)
    {
      for i := 0 to |found|
        invariant Valid() && Grows(old(edges).Keys, edges.Keys) && Adds(old(nodes).Keys, nodes.Keys, DriverIds(found, provider))
        invariant drivers.Keys == DriverNames(found, i, provider)
        invariant configured ==> DriversJoined(found, i, provider, edges.Keys)
      {
        ghost var before := edges.Keys;
        if found[i].provider == provider {
          AddDriver(found[i].name);
        }
        if configured { NextDriver(found, i, provider, before, edges.Keys); }
      }
    }

    method AddDriver(name: string)
      requires Valid()
      modifies this`nodes, this`edges, this`drivers
      ensures Valid() && Grows(old(edges).Keys, edges.Keys) && nodes.Keys == old(nodes).Keys + {DriverId(name)}
      ensures drivers.Keys == old(drivers).Keys + {name}
      ensures configured ==> Link(ManagedBy, DriverId(name), ProviderNode()) in edges
    {
      var id := DriverId(name);
      AddItem(id);
      drivers := drivers[name := id];
      if configured {
        AddOrdinary(ManagedBy, id, ProviderNode(), Authoritative, {});
      }
    }

    method AddClasses(found: seq<Class>)
      requires Valid() && classes == map[]
      modifies this`nodes, this`edges, this`classes
      ensures Valid() && Grows(old(edges).Keys, edges.Keys) && Adds(old(nodes).Keys, nodes.Keys, ClassIds(found, provider))
      ensures classes.Keys == NamesOfClasses(found, |found|, provider)
      ensures ClassesJoined(found, |found|, provider, drivers.Keys, edges.Keys)
    {
      for i := 0 to |found|
        invariant Valid() && Grows(old(edges).Keys, edges.Keys) && Adds(old(nodes).Keys, nodes.Keys, ClassIds(found, provider))
        invariant classes.Keys == NamesOfClasses(found, i, provider)
        invariant ClassesJoined(found, i, provider, drivers.Keys, edges.Keys)
      {
        ghost var before := edges.Keys;
        if found[i].provider == provider {
          AddClass(found[i]);
        }
        NextClass(found, i, provider, drivers.Keys, before, edges.Keys);
      }
    }

    method AddClass(c: Class)
      requires Valid()
      modifies this`nodes, this`edges, this`classes
      ensures Valid() && Grows(old(edges).Keys, edges.Keys) && nodes.Keys == old(nodes).Keys + {ClassId(c.name)}
      ensures classes.Keys == old(classes).Keys + {c.name}
      ensures c.provisioner in drivers ==> Link(Provisions, ClassId(c.name), DriverId(c.provisioner)) in edges
    {
      var id := ClassId(c.name);
      AddItem(id);
      classes := classes[c.name := id];
      if c.provisioner in drivers {
        AddOrdinary(Provisions, id, drivers[c.provisioner], Authoritative, {});
      }
    }

    method AddResources(found: seq<(Kind, Option<seq<Resource>>)>)
      requires Valid() && Listing() == NOTHING_LISTED && pools == osds == []
      modifies this`nodes, this`backends, this`poolNames, this`filesystems, this`pools, this`osds, this`details, this`incomplete
      ensures Valid() && Adds(old(nodes).Keys, nodes.Keys, ResourceIds(found)) && Listing() == StockOf(found, |found|)
      ensures incomplete <==> old(incomplete) || Unreadable(found, |found|)
      ensures pools == IdsOf(BlockPool, found, |found|) && osds == IdsOf(Osd, found, |found|)
    {
      AddLists(found);
    }

    method AddLists(found: seq<(Kind, Option<seq<Resource>>)>)
      requires Stocked() && Listing() == NOTHING_LISTED && pools == osds == []
      modifies this`nodes, this`backends, this`poolNames, this`filesystems, this`pools, this`osds, this`details, this`incomplete
      ensures Stocked() && Adds(old(nodes).Keys, nodes.Keys, ResourceIds(found)) && Listing() == StockOf(found, |found|)
      ensures incomplete <==> old(incomplete) || Unreadable(found, |found|)
      ensures pools == IdsOf(BlockPool, found, |found|) && osds == IdsOf(Osd, found, |found|)
    {
      for i := 0 to |found|
        invariant Stocked() && Adds(old(nodes).Keys, nodes.Keys, ResourceIds(found)) && Listing() == StockOf(found, i)
        invariant pools == IdsOf(BlockPool, found, i) && osds == IdsOf(Osd, found, i)
        invariant incomplete <==> old(incomplete) || Unreadable(found, i)
      {
        ListedInResources(found, i);
        AddListed(found[i].0, found[i].1);
      }
    }

    /** One list, if it could be read. */
    method AddListed(kind: Kind, listed: Option<seq<Resource>>)
      requires Stocked()
      modifies this`nodes, this`backends, this`poolNames, this`filesystems, this`pools, this`osds, this`details, this`incomplete
      ensures Stocked() && (incomplete <==> old(incomplete) || listed == None)
      ensures Adds(old(nodes).Keys, nodes.Keys, ListIds(kind, listed)) && Listing() == WithListed(old(Listing()), kind, listed)
      ensures pools == IdsAfter(old(pools), BlockPool, kind, listed) && osds == IdsAfter(old(osds), Osd, kind, listed)
    {
      if listed == None {
        incomplete := true;
      } else {
        AddList(kind, listed.value);
      }
    }

    method AddList(kind: Kind, listed: seq<Resource>)
      requires Stocked()
      modifies this`nodes, this`backends, this`poolNames, this`filesystems, this`pools, this`osds, this`details
      ensures Stocked() && Adds(old(nodes).Keys, nodes.Keys, ListedIds(kind, listed)) && Listing() == WithList(old(Listing()), kind, listed, |listed|)
      ensures pools == IdsIn(old(pools), BlockPool, kind, listed, |listed|) && osds == IdsIn(old(osds), Osd, kind, listed, |listed|)
    {
      for j := 0 to |listed|
        invariant pools == IdsIn(old(pools), BlockPool, kind, listed, j) && osds == IdsIn(old(osds), Osd, kind, listed, j)
        invariant Stocked() && Adds(old(nodes).Keys, nodes.Keys, ListedIds(kind, listed)) && Listing() == WithList(old(Listing()), kind, listed, j)
      {
        AddResource(kind, listed[j]);
      }
    }

    method AddResource(kind: Kind, item: Resource)
      requires Stocked()
      modifies this`nodes, this`backends, this`poolNames, this`filesystems, this`pools, this`osds, this`details
      ensures Stocked() && Adds(old(nodes).Keys, nodes.Keys, {NodeId(kind, item.namespace, item.id)}) && Listing() == WithResource(old(Listing()), kind, item)
      ensures pools == old(pools) + IdIf(BlockPool, NodeId(kind, item.namespace, item.id))
      ensures osds == old(osds) + IdIf(Osd, NodeId(kind, item.namespace, item.id))
    {
      if item.id == "" {
        return;
      }
      var id := NodeId(kind, item.namespace, item.id);
      AddBackend(id, Details(item.pool, item.filesystem));
      backends := backends[(kind, item.id) := id];
      Classify(id, item.name);
    }

    /** Pools, filesystems and OSDs are remembered for later. */
    method Classify(id: NodeId, name: string)
      requires Found(poolNames, filesystems, pools, osds, nodes) && id in nodes && id.name != ""
      modifies this`poolNames, this`filesystems, this`pools, this`osds
      ensures Found(poolNames, filesystems, pools, osds, nodes)
      ensures poolNames == if id.kind == BlockPool then old(poolNames)[name := id] else old(poolNames)
      ensures filesystems == if id.kind == CephFilesystem then old(filesystems)[name := id] else old(filesystems)
      ensures pools == old(pools) + IdIf(BlockPool, id) && osds == old(osds) + IdIf(Osd, id)
    {
      if id.kind == BlockPool {
        poolNames := poolNames[name := id];
        pools := pools + [id];
      } else if id.kind == CephFilesystem {
        filesystems := filesystems[name := id];
      } else if id.kind == Osd {
        osds := osds + [id];
      }
    }

    method AddVolumes(found: seq<Volume>)
      requires Valid()
      modifies this`nodes, this`edges, this`volumes, this`handles, this`details, this`incomplete
      ensures Valid() && GrowsAs(old(edges).Keys, edges.Keys, RefKinds(found, provider), {}) && Adds(old(nodes).Keys, nodes.Keys, AllVolumeIds(found, |found|, provider))
      ensures AllVolumeNames(found, |found|, provider) <= volumes.Keys && AllVolumeLinks(found, |found|, provider, backends, classes.Keys) <= edges.Keys
      ensures incomplete <==> old(incomplete) || GapIn(found, provider, backends.Keys, |found|)
      ensures handles == HandleIndex(old(handles), found, |found|, provider)
      ensures details == DescribedBy(old(details), found, |found|, provider, backends.Keys)
    {
      for i := 0 to |found|
        invariant Valid() && GrowsAs(old(edges).Keys, edges.Keys, RefKinds(found, provider), {}) && Adds(old(nodes).Keys, nodes.Keys, AllVolumeIds(found, i, provider))
        invariant AllVolumeNames(found, i, provider) <= volumes.Keys && AllVolumeLinks(found, i, provider, backends, classes.Keys) <= edges.Keys
        invariant incomplete <==> old(incomplete) || GapIn(found, provider, backends.Keys, i)
        invariant handles == HandleIndex(old(handles), found, i, provider)
        invariant details == DescribedBy(old(details), found, i, provider, backends.Keys)
      {
        AddVolume(found[i], RefKinds(found, provider));
      }
    }

    method AddVolume(v: Volume, ghost refs: set<Kind>)
      requires Valid() && (v.provider == provider && Refers(v) ==> v.ref.value.kind in refs)
      modifies this`nodes, this`edges, this`volumes, this`handles, this`details, this`incomplete
      ensures Valid() && Adds(old(nodes).Keys, nodes.Keys, VolumeIds(v, provider)) && GrowsAs(old(edges).Keys, edges.Keys, refs, {}) && volumes.Keys == old(volumes).Keys + (if v.provider == provider then {v.name} else {})
      ensures v.provider == provider ==> VolumeLinks(v, backends, classes.Keys) <= edges.Keys
      ensures incomplete <==> old(incomplete) || (v.provider == provider && Gap(v, backends.Keys))
      ensures handles == Handled(old(handles), v, provider) && details == Described(old(details), v, provider, backends.Keys)
    {
      if v.provider != provider {
        return;
      }
      RegisterVolume(v);
      JoinVolume(v, refs);
    }

    method RegisterVolume(v: Volume)
      requires Valid() && v.provider == provider
      modifies this`nodes, this`volumes, this`handles
      ensures Valid() && nodes.Keys == old(nodes).Keys + {PvId(v.name)} && volumes.Keys == old(volumes).Keys + {v.name}
      ensures handles == Handled(old(handles), v, provider)
    {
      var id := PvId(v.name);
      AddNode(id);
      volumes := volumes[v.name := id];
      if v.handle != "" {
        handles := handles[v.handle := id];
      }
    }

    /** Joins a volume to its class and to the backend its reference names. */
    method JoinVolume(v: Volume, ghost refs: set<Kind>)
      requires Refers(v) ==> v.ref.value.kind in refs
      requires Sound() && PvId(v.name) in nodes && v.provider == provider && KnownBackends(backends, nodes)
      requires forall k :: k in classes ==> classes[k] == ClassId(k) && classes[k] in nodes
      modifies this`nodes, this`edges, this`details, this`incomplete
      ensures details == Described(old(details), v, provider, backends.Keys)
      ensures Sound() && Adds(old(nodes).Keys, nodes.Keys, BackendIds(v))
      ensures GrowsAs(old(edges).Keys, edges.Keys, refs, {}) && VolumeLinks(v, backends, classes.Keys) <= edges.Keys
      ensures incomplete <==> old(incomplete) || Gap(v, backends.Keys)
    {
      if v.storageClass in classes {
        AddEdge(Provisions, PvId(v.name), classes[v.storageClass], Authoritative);
      }
      if Refers(v) {
        AddBacking(v);
      } else if v.ceph {
        incomplete := true;
      }
    }

    /** The backend is the observed resource, or a node made for the reference. */
    method AddBacking(v: Volume)
      requires Sound() && PvId(v.name) in nodes && v.provider == provider && Refers(v) && KnownBackends(backends, nodes)
      modifies this`nodes, this`edges, this`details, this`incomplete
      ensures details == Described(old(details), v, provider, backends.Keys)
      ensures Sound() && Adds(old(nodes).Keys, nodes.Keys, BackendIds(v))
      ensures edges.Keys == old(edges).Keys + NewLink(BackedBy, PvId(v.name), BackendOf(backends, v.ref.value))
      ensures incomplete <==> old(incomplete) || (v.ref.value.kind, v.ref.value.id) !in backends
    {
      var ref := v.ref.value;
      var backend := NodeId(ref.kind, "", ref.id);
      if (ref.kind, ref.id) in backends {
        backend := backends[(ref.kind, ref.id)];
      } else {
        AddBackend(backend, Details(v.pool, v.filesystem));
        incomplete := true;
      }
      AddEdge(BackedBy, PvId(v.name), backend, Authoritative);
    }

    method AddClaims(found: seq<Claim>)
      requires Valid()
      modifies this`nodes, this`edges, this`claims
      ensures Valid() && old(edges).Keys <= edges.Keys && Adds(old(nodes).Keys, nodes.Keys, AllClaimIds(found, |found|, provider))
      ensures claims.Keys == NamesOf(old(claims).Keys, found, |found|, provider)
      ensures ClaimsAdded(found, |found|, provider, volumes.Keys, classes.Keys, nodes.Keys, edges.Keys)
      ensures forall l :: l in edges && l !in old(edges) ==> OfClaims(found, |found|, provider, l)
    {
      for i := 0 to |found|
        invariant Valid() && old(edges).Keys <= edges.Keys && Adds(old(nodes).Keys, nodes.Keys, AllClaimIds(found, i, provider))
        invariant claims.Keys == NamesOf(old(claims).Keys, found, i, provider)
        invariant ClaimsAdded(found, i, provider, volumes.Keys, classes.Keys, nodes.Keys, edges.Keys)
        invariant forall l :: l in edges && l !in old(edges) ==> OfClaims(found, i, provider, l)
      {
        ghost var there, before := nodes.Keys, edges.Keys;
        AddClaim(found[i]);
        ClaimsStay(found, i, provider, volumes.Keys, classes.Keys, there, nodes.Keys, before, edges.Keys);
      }
    }

    method AddClaim(c: Claim)
      requires Valid()
      modifies this`nodes, this`edges, this`claims
      ensures Valid() && Adds(old(nodes).Keys, nodes.Keys, ClaimIds(c, provider))
      ensures claims.Keys == old(claims).Keys + NameOf(c, provider)
      ensures c.provider == provider ==> PvcId(c) in nodes && ClaimLinked(c, volumes.Keys, classes.Keys, edges.Keys)
      ensures if c.provider == provider then GrowsBy(old(edges).Keys, edges.Keys, c) else edges == old(edges)
    {
      if c.provider != provider {
        return;
      }
      var id := PvcId(c);
      AddNode(id);
      claims := claims[(c.namespace, c.name) := id];
      AddBinding(c);
      ghost var bound, there := edges.Keys, nodes.Keys;
      AddWorkloads(c);
      MoreWorkloadIds(there, c.workloads, |c.workloads|);
      WorkloadsLinked(c, bound, edges.Keys);
      ClaimIsLinked(c, volumes.Keys, classes.Keys, bound, edges.Keys);
    }

    method AddBinding(c: Claim)
      requires Valid() && PvcId(c) in nodes
      modifies this`edges
      ensures Valid() && GrowsBy(old(edges).Keys, edges.Keys, c)
      ensures ClaimBound(c, volumes.Keys, classes.Keys, edges.Keys)
    {
      if c.storageClass in classes {
        AddEdge(Uses, PvcId(c), classes[c.storageClass], Authoritative);
      }
      if c.volume in volumes {
        AddEdge(Binds, PvcId(c), volumes[c.volume], Authoritative);
      }
    }

    method AddWorkloads(c: Claim)
      requires Sound() && PvcId(c) in nodes
      modifies this`nodes, this`edges
      ensures Sound() && nodes.Keys == AllWorkloadIds(old(nodes).Keys, c.workloads, |c.workloads|)
      ensures edges.Keys == LinksOfWorkloads(old(edges).Keys, c, |c.workloads|)
    {
      for i := 0 to |c.workloads|
        invariant Sound() && PvcId(c) in nodes && nodes.Keys == AllWorkloadIds(old(nodes).Keys, c.workloads, i)
        invariant edges.Keys == LinksOfWorkloads(old(edges).Keys, c, i)
      {
        AddWorkload(c, c.workloads[i]);
      }
    }

    method AddPod(c: Claim, w: Workload)
      requires Sound() && PvcId(c) in nodes
      modifies this`nodes, this`edges
      ensures Sound() && nodes.Keys == old(nodes).Keys + {PodId(w)}
      ensures edges.Keys == old(edges).Keys + {Link(Uses, PodId(w), PvcId(c))}
    {
      AddNode(PodId(w));
      AddEdge(Uses, PodId(w), PvcId(c), Authoritative);
    }

    method AddWorkload(c: Claim, w: Workload)
      requires Sound() && PvcId(c) in nodes
      modifies this`nodes, this`edges
      ensures Sound() && nodes.Keys == old(nodes).Keys + WorkloadIds(w)
      ensures edges.Keys == old(edges).Keys + WorkloadLinks(c, w)
    {
      AddPod(c, w);
      AddMachine(w);
      AddOwner(w);
    }

    method AddMachine(w: Workload)
      requires Sound() && PodId(w) in nodes
      modifies this`nodes, this`edges
      ensures Sound() && nodes.Keys == old(nodes).Keys + if w.node == "" then {} else {MachineId(w.node)}
      ensures edges.Keys == old(edges).Keys + if w.node == "" then {} else {Link(Attaches, PodId(w), MachineId(w.node))}
    {
      if w.node != "" {
        AddPlacement(PodId(w), w.node, Derived);
      }
    }

    /** Joins a pod or an attachment to the machine it is on. */
    method AddPlacement(id: NodeId, machine: string, confidence: Confidence)
      requires Sound() && id in nodes && id.kind != Machine
      requires confidence == ConfidenceOf(Link(Attaches, id, MachineId(machine)))
      modifies this`nodes, this`edges
      ensures Sound() && nodes.Keys == old(nodes).Keys + {MachineId(machine)}
      ensures edges.Keys == old(edges).Keys + {Link(Attaches, id, MachineId(machine))}
    {
      AddNode(MachineId(machine));
      AddEdge(Attaches, id, MachineId(machine), confidence);
    }

    method AddOwner(w: Workload)
      requires Sound() && PodId(w) in nodes
      modifies this`nodes, this`edges
      ensures Sound() && nodes.Keys == old(nodes).Keys + if HasOwner(w) then {OwnerId(w)} else {}
      ensures edges.Keys == old(edges).Keys
        + if HasOwner(w) then {Link(OwnedBy, PodId(w), OwnerId(w)), Link(Uses, OwnerId(w), PodId(w))} else {}
    {
      if !HasOwner(w) {
        return;
      }
      AddNode(OwnerId(w));
      AddEdge(OwnedBy, PodId(w), OwnerId(w), Derived);
      AddEdge(Uses, OwnerId(w), PodId(w), Derived);
    }

    method AddAttachments(found: seq<Attachment>)
      requires Valid()
      modifies this`nodes, this`edges
      ensures Valid() && Grows(old(edges).Keys, edges.Keys) && Adds(old(nodes).Keys, nodes.Keys, AllAttachmentIds(found, |found|, provider))
      ensures AttachmentsLinked(found, |found|, provider, volumes.Keys, edges.Keys)
    {
      for i := 0 to |found|
        invariant Valid() && Grows(old(edges).Keys, edges.Keys) && Adds(old(nodes).Keys, nodes.Keys, AllAttachmentIds(found, i, provider))
        invariant AttachmentsLinked(found, i, provider, volumes.Keys, edges.Keys)
      {
        ghost var before := edges.Keys;
        AddAttachment(found[i]);
        NextAttachment(found, i, provider, volumes.Keys, old(edges).Keys, before, edges.Keys);
      }
    }

    method AddAttachment(a: Attachment)
      requires Valid()
      modifies this`nodes, this`edges
      ensures Valid() && Adds(old(nodes).Keys, nodes.Keys, AttachmentIds(a, provider))
      ensures edges.Keys == old(edges).Keys + if a.provider == provider then AttachmentLinks(a, volumes.Keys) else {}
    {
      if a.provider == provider {
        JoinAttachment(a);
      }
    }

    method JoinAttachment(a: Attachment)
      requires Sound() && a.provider == provider && forall k :: k in volumes ==> volumes[k] == PvId(k) && volumes[k] in nodes
      modifies this`nodes, this`edges
      ensures Sound() && nodes.Keys == old(nodes).Keys + AttachmentIds(a, provider)
      ensures edges.Keys == old(edges).Keys + AttachmentLinks(a, volumes.Keys)
    {
      var id := AttachmentId(a);
      AddNode(id);
      if a.volume in volumes {
        AddEdge(Attaches, id, volumes[a.volume], Authoritative);
      }
      if a.node != "" {
        AddPlacement(id, a.node, Authoritative);
      }
    }

    method AddSnapshots(found: Option<seq<Snapshot>>)
      requires Valid()
      modifies this`nodes, this`edges, this`incomplete
      ensures Valid() && Grows(old(edges).Keys, edges.Keys) && Adds(old(nodes).Keys, nodes.Keys, SnapshotIds(found, provider))
      ensures incomplete <==> old(incomplete) || found == None
      ensures found.Some? ==> SnapshotsLinked(found.value, |found.value|, provider, claims.Keys, handles, edges.Keys)
    {
      if found == None {
        incomplete := true;
        return;
      }
      for i := 0 to |found.value|
        invariant Valid() && Grows(old(edges).Keys, edges.Keys)
        invariant Adds(old(nodes).Keys, nodes.Keys, SnapshotIds(found, provider)) && incomplete == old(incomplete)
        invariant SnapshotsLinked(found.value, i, provider, claims.Keys, handles, edges.Keys)
      {
        ghost var before := edges.Keys;
        AddSnapshot(found.value[i]);
        SnapshotsStay(found.value, i, provider, claims.Keys, handles, before, edges.Keys);
      }
    }

    method AddSnapshot(x: Snapshot)
      requires Valid()
      modifies this`nodes, this`edges
      ensures Valid() && Grows(old(edges).Keys, edges.Keys) && Adds(old(nodes).Keys, nodes.Keys, if x.provider == provider then {SnapshotId(x)} else {})
      ensures x.provider == provider ==> SnapshotLinked(x, claims.Keys, handles, edges.Keys)
    {
      if x.provider != provider {
        return;
      }
      var id := SnapshotId(x);
      AddItem(id);
      var backing :=
        if (x.namespace, x.claim) in claims then Some(claims[(x.namespace, x.claim)])
        else if x.handle in handles then Some(handles[x.handle])
        else None;
      if backing.Some? {
        AddOrdinary(BackedBy, id, backing.value, Authoritative, {});
      }
    }

    /** Images and subvolumes are joined to the pool or filesystem they name; the nodes are visited in
        any order. */
    method AddMembership()
      requires Valid()
      modifies this`edges
      ensures Valid() && Grows(old(edges).Keys, edges.Keys) && MembersJoined(details, poolNames, filesystems, edges.Keys)
    {
      var left := nodes.Keys;
      while left != {}
        invariant Sound() && left <= nodes.Keys && Grows(old(edges).Keys, edges.Keys)
        invariant forall id :: id in details && id !in left ==> MemberLinks(id, details[id], poolNames, filesystems) <= edges.Keys
        decreases |left|
      {
        var id :| id in left;
        left := left - {id};
        JoinMember(id);
      }
    }

    method JoinMember(id: NodeId)
      requires Sound() && KnownAs(poolNames, nodes, BlockPool) && KnownAs(filesystems, nodes, CephFilesystem) && id in nodes
      modifies this`edges
      ensures Sound() && Grows(old(edges).Keys, edges.Keys) && MemberLinks(id, nodes[id], poolNames, filesystems) <= edges.Keys
    {
      if id.kind == Image && nodes[id].pool in poolNames {
        AddEdge(BelongsToPool, id, poolNames[nodes[id].pool], Derived);
      } else if id.kind == Subvolume && nodes[id].filesystem in filesystems {
        AddEdge(BelongsToFilesystem, id, filesystems[nodes[id].filesystem], Authoritative);
      }
    }

    method AddOperations(found: Option<seq<Operation>>)
      requires Valid() && provider != ""
      modifies this`nodes, this`edges, this`incomplete
      ensures Valid() && GrowsAs(old(edges).Keys, edges.Keys, {}, WorkLinks(found, provider)) && Adds(old(nodes).Keys, nodes.Keys, OperationIds(found, provider))
      ensures incomplete <==> old(incomplete) || found == None
      ensures found.Some? ==> OperationsLinked(found.value, |found.value|, provider, old(nodes).Keys, edges.Keys)
    {
      if found == None {
        incomplete := true;
        return;
      }
      for i := 0 to |found.value|
        invariant Valid() && GrowsAs(old(edges).Keys, edges.Keys, {}, WorkLinks(found, provider))
        invariant Adds(old(nodes).Keys, nodes.Keys, OperationIds(found, provider)) && incomplete == old(incomplete)
        invariant OperationsLinked(found.value, i, provider, old(nodes).Keys, edges.Keys)
      {
        ghost var there, before := nodes.Keys, edges.Keys;
        AddOperation(found.value[i], WorkLinks(found, provider));
        NextOperation(found.value, i, provider, old(nodes).Keys, before, there, edges.Keys);
      }
    }

    method AddOperation(o: Operation, ghost works: set<Link>)
      requires Valid() && provider != "" && (o.provider == provider ==> Link(Affects, OperationId(o), TargetOf(o)) in works)
      modifies this`nodes, this`edges
      ensures Valid() && GrowsAs(old(edges).Keys, edges.Keys, {}, works) && Adds(old(nodes).Keys, nodes.Keys, if o.provider == provider then {OperationId(o)} else {})
      ensures o.provider == provider ==> OperationLinked(o, old(nodes).Keys, edges.Keys)
    {
      if o.provider == "" || o.provider != provider {
        return;
      }
      var id := OperationId(o);
      AddItem(id);
      var target := TargetOf(o);
      if target in nodes {
        AddOrdinary(Affects, id, target, Authoritative, works);
      }
    }

    /** Joins every pool to every OSD until the bound is reached. The graph is marked incomplete when
        the bound falls within the OSDs of one pool, but not when it falls between two pools. */
    method AddTopology()
      requires Valid()
      modifies this`edges, this`incomplete
      ensures Valid()
      ensures edges.Keys == old(edges).Keys + Pairs(pools, osds, MAX_POTENTIAL)
      ensures incomplete <==> old(incomplete) || CutInside(|pools|, |osds|)
    {
      AddRows();
    }

    method AddRows()
      requires Closed(nodes, edges) && AllKnown(pools, nodes, BlockPool) && AllKnown(osds, nodes, Osd)
      modifies this`edges, this`incomplete
      ensures Closed(nodes, edges)
      ensures edges.Keys == old(edges).Keys + Pairs(pools, osds, MAX_POTENTIAL)
      ensures incomplete <==> old(incomplete) || CutInside(|pools|, |osds|)
    {
      var potential := 0;
      for i := 0 to |pools|
        invariant Closed(nodes, edges) && incomplete == old(incomplete)
        invariant potential == i * |osds| < MAX_POTENTIAL
        invariant edges.Keys == old(edges).Keys + Pairs(pools, osds, potential)
      {
        potential := AddPool(i, potential, old(edges).Keys);
        if potential >= MAX_POTENTIAL {
          return;
        }
      }
      AllPairs(pools, osds);
    }

    /** One turn of the outer loop; `base` are the links that were there before the loops. */
    method AddPool(i: nat, start: nat, ghost base: set<Link>) returns (potential: nat)
      requires Closed(nodes, edges) && AllKnown(pools, nodes, BlockPool) && AllKnown(osds, nodes, Osd)
      requires i < |pools| && start == i * |osds| < MAX_POTENTIAL && edges.Keys == base + Pairs(pools, osds, start)
      modifies this`edges, this`incomplete
      ensures Closed(nodes, edges) && potential <= MAX_POTENTIAL && edges.Keys == base + Pairs(pools, osds, potential)
      ensures potential < MAX_POTENTIAL ==> potential == (i + 1) * |osds| && incomplete == old(incomplete)
      ensures potential == MAX_POTENTIAL ==> (incomplete <==> old(incomplete) || CutInside(|pools|, |osds|))
    {
      var cut;
      potential, cut := AddRow(pools[i], start);
      RowDone(pools, osds, i, start, potential, cut);
      if cut {
        incomplete := true;
      }
    }

    /** The inner loop: one pool with every OSD, as far as the bound allows. */
    method AddRow(pool: NodeId, start: nat) returns (potential: nat, cut: bool)
      requires Closed(nodes, edges) && AllKnown(osds, nodes, Osd) && pool in nodes && start < MAX_POTENTIAL
      modifies this`edges
      ensures Closed(nodes, edges) && start <= potential <= start + |osds|
      ensures edges.Keys == old(edges).Keys + Row(pool, osds, potential - start)
      ensures if cut then potential == MAX_POTENTIAL < start + |osds| else potential == start + |osds| <= MAX_POTENTIAL
    {
      potential := start;
      for j := 0 to |osds|
        invariant Closed(nodes, edges) && potential == start + j <= MAX_POTENTIAL
        invariant edges.Keys == old(edges).Keys + Row(pool, osds, j)
      {
        if potential >= MAX_POTENTIAL {
          return potential, true;
        }
        AddEdge(AffectedBy, pool, osds[j], Potential);
        potential := potential + 1;
      }
      return potential, false;
    }

    method AddProviders(found: Inventory)
      requires Valid() && Fresh() && Listing() == NOTHING_LISTED && !incomplete && pools == osds == []
      requires found.provider == provider && found.configured == configured
      modifies this
      ensures pools == Listed(found, BlockPool) && osds == Listed(found, Osd)
      ensures Valid() && claims == map[] && handles == map[] && volumes == map[] && Grows({}, edges.Keys)
      ensures Listing() == ListedStock(found) && (incomplete <==> configured && Unreadable(found.resources, |found.resources|))
      ensures Adds(old(nodes).Keys, nodes.Keys, ProviderItems(found))
      ensures classes.Keys == ClassNames(found) && ProvidersJoined(found, edges.Keys)
    {
      AddClassified(found);
      if configured {
        AddResources(found.resources);
      }
    }

    /** The drivers, and the classes that they provision. */
    method AddClassified(found: Inventory)
      requires Valid() && drivers == classes == map[] && edges == map[]
      requires found.provider == provider && found.configured == configured
      modifies this`nodes, this`edges, this`drivers, this`classes
      ensures Valid() && Grows({}, edges.Keys)
      ensures Adds(old(nodes).Keys, nodes.Keys, DriverIds(found.drivers, provider) + ClassIds(found.classes, provider))
      ensures classes.Keys == ClassNames(found) && ProvidersJoined(found, edges.Keys)
    {
      AddDrivers(found.drivers);
      ghost var managed := edges.Keys;
      AddClasses(found.classes);
      AllProvidersJoined(found, managed, edges.Keys);
    }

    /** What there is to use. */
    method AddStorage(found: Inventory)
      requires Valid() && Fresh() && Listing() == NOTHING_LISTED && !incomplete && pools == osds == []
      requires found.provider == provider && found.configured == configured
      modifies this
      ensures pools == Listed(found, BlockPool) && osds == Listed(found, Osd)
      ensures Valid() && claims == map[] && GrowsAs({}, edges.Keys, RefKinds(found.volumes, provider), {})
      ensures Listing() == ListedStock(found).(details := Notes(found)) && handles == Handles(found) && classes.Keys == ClassNames(found)
      ensures VolumesAdded(found, volumes.Keys, edges.Keys) && ProvidersJoined(found, edges.Keys)
      ensures incomplete <==> StorageGap(found)
      ensures Adds(old(nodes).Keys, nodes.Keys, ProviderItems(found) + AllVolumeIds(found.volumes, |found.volumes|, provider))
    {
      AddProviders(found);
      ghost var provided := edges.Keys;
      AddVolumes(found.volumes);
      GrowsThen({}, provided, edges.Keys, {}, {}, RefKinds(found.volumes, provider), {}, RefKinds(found.volumes, provider), {});
      AllVolumesAdded(found, volumes.Keys, edges.Keys);
      ProvidersStay(found, provided, edges.Keys);
    }

    /** What uses it. */
    method AddUsers(found: Inventory)
      requires Valid() && found.provider == provider && claims == map[]
      modifies this`nodes, this`edges, this`claims
      ensures Valid() && old(edges).Keys <= edges.Keys && Adds(old(nodes).Keys, nodes.Keys, UserItems(found))
      ensures UsersAdded(found, volumes.Keys, classes.Keys, nodes.Keys, edges.Keys) && claims.Keys == ClaimNames(found)
      ensures forall l :: l in edges && l !in old(edges) ==> OfClaims(found.claims, |found.claims|, provider, l) || Ordinary(l, {}, {})
    {
      assert claims.Keys == {};
      AddClaims(found.claims);
      AllClaimsAdded(found, volumes.Keys, classes.Keys, nodes.Keys, edges.Keys);
      AddAttachments(found.attachments);
    }

    /** The snapshots, and what images and subvolumes belong to. */
    method AddTaken(found: Inventory)
      requires Valid() && found.provider == provider
      modifies this`nodes, this`edges, this`incomplete
      ensures Valid() && Grows(old(edges).Keys, edges.Keys) && Adds(old(nodes).Keys, nodes.Keys, SnapshotIds(found.snapshots, provider))
      ensures SnapshotsAdded(found, claims.Keys, handles, edges.Keys) && MembersJoined(details, poolNames, filesystems, edges.Keys)
      ensures incomplete <==> old(incomplete) || found.snapshots == None
    {
      AddSnapshots(found.snapshots);
      ghost var taken := edges.Keys;
      AllSnapshotsAdded(found, claims.Keys, handles, taken);
      AddMembership();
    }

    /** What is known of it besides. */
    method AddRest(found: Inventory)
      requires Valid() && found.provider == provider && provider != ""
      modifies this`nodes, this`edges, this`incomplete
      ensures Valid() && Adds(old(nodes).Keys, nodes.Keys, OtherItems(found))
      ensures GrowsAs(old(edges).Keys, edges.Keys, {}, WorkLinks(found.operations, provider) + Pairs(pools, osds, MAX_POTENTIAL))
      ensures Pairs(pools, osds, MAX_POTENTIAL) <= edges.Keys
      ensures RestAdded(found, claims.Keys, handles, old(nodes).Keys, edges.Keys)
      ensures MembersJoined(details, poolNames, filesystems, edges.Keys)
      ensures incomplete <==> old(incomplete) || found.snapshots == None || found.operations == None || CutInside(|pools|, |osds|)
    {
      AddTaken(found);
      ghost var taken := edges.Keys;
      AddOperations(found.operations);
      ghost var worked := edges.Keys;
      AddTopology();
      TopologyGrows(pools, osds, nodes, worked);
      RestAddedAfter(found, claims.Keys, handles, old(nodes).Keys, taken, worked, edges.Keys);
      RestGrowsAs(old(edges).Keys, taken, worked, edges.Keys, WorkLinks(found.operations, provider), Pairs(pools, osds, MAX_POTENTIAL));
    }

    /** What there is to use and what uses it. */
    method AddStock(found: Inventory)
      requires Valid() && Fresh() && Listing() == NOTHING_LISTED && !incomplete
      requires nodes.Keys == if configured then {NodeId(Provider, "", provider)} else {}
      requires found.provider == provider && found.configured == configured && pools == osds == []
      modifies this
      ensures Valid() && pools == Listed(found, BlockPool) && osds == Listed(found, Osd)
      ensures nodes.Keys <= StockItems(found) && Listing() == ListedStock(found).(details := Notes(found)) && handles == Handles(found)
      ensures claims.Keys == ClaimNames(found) && (incomplete <==> StorageGap(found))
      ensures StockAdded(found, volumes.Keys, nodes.Keys, edges.Keys)
      ensures forall v :: v in found.volumes && v.provider == provider ==> PvId(v.name) in nodes
      ensures forall l :: l in edges ==> Explained(found, l)
    {
      AddStorage(found);
      ghost var stored := edges.Keys;
      AddUsers(found);
      VolumesStay(found, volumes.Keys, stored, edges.Keys);
      ProvidersStay(found, stored, edges.Keys);
      StockExplained(found, stored, edges.Keys);
    }

    /** The whole build on an empty graph. */
    method Fill(found: Inventory)
      requires Valid() && Fresh() && Listing() == NOTHING_LISTED && !incomplete
      requires nodes.Keys == if configured then {NodeId(Provider, "", provider)} else {}
      requires found.provider == provider && found.configured == configured && provider != "" && pools == osds == []
      modifies this
      ensures Valid() && Linked(found, edges.Keys) && nodes.Keys <= Items(found)
      ensures forall l :: l in edges ==> Explained(found, l)
      ensures incomplete <==> Gaps(found) || CutInside(|Listed(found, BlockPool)|, |Listed(found, Osd)|)
      ensures Topology(found) <= edges.Keys
    {
      AddStock(found);
      ghost var stocked, there := edges.Keys, nodes.Keys;
      AddRest(found);
      StockStays(found, volumes.Keys, there, stocked, edges.Keys);
      AllLinked(found, volumes.Keys, there, edges.Keys);
      AllExplained(found, stocked, edges.Keys);
    }
  }

  // ---------- what the whole build promises ----------

  /** The pools or OSDs the provider lists. */
  function Listed(found: Inventory, kind: Kind): seq<NodeId> {
    if found.configured then IdsOf(kind, found.resources, |found.resources|) else []
  }

  /** The edges of operations and of the topology. */
  function OtherLinks(found: Inventory): set<Link> {
    WorkLinks(found.operations, found.provider) + Topology(found)
  }

  function Topology(found: Inventory): set<Link> { Pairs(Listed(found, BlockPool), Listed(found, Osd), MAX_POTENTIAL) }

  /** An edge that the inventory gives rise to. */
  predicate Explained(found: Inventory, l: Link) {
    OfClaims(found.claims, |found.claims|, found.provider, l) || Ordinary(l, RefKinds(found.volumes, found.provider), OtherLinks(found))
  }

  lemma StockExplained(found: Inventory, stored: set<Link>, used: set<Link>)
    requires GrowsAs({}, stored, RefKinds(found.volumes, found.provider), {})
    requires forall l :: l in used && l !in stored ==> OfClaims(found.claims, |found.claims|, found.provider, l) || Ordinary(l, {}, {})
    ensures forall l :: l in used ==> Explained(found, l)
  {}

  lemma AllExplained(found: Inventory, used: set<Link>, links: set<Link>)
    requires forall l :: l in used ==> Explained(found, l)
    requires GrowsAs(used, links, {}, OtherLinks(found))
    ensures forall l :: l in links ==> Explained(found, l)
  {}

  lemma {:induction false} ClaimLinksFromUsers(claims: seq<Claim>, n: nat, provider: string, l: Link)
    requires n <= |claims| && OfClaims(claims, n, provider, l)
    ensures FromUser(l) && l.relation != AffectedBy
  {
    if OfClaims(claims, n - 1, provider, l) { ClaimLinksFromUsers(claims, n - 1, provider, l); }
  }

  /** So users lead nowhere but where a claim says, and pools are joined to OSDs by the topology only. */
  lemma OnlyExplained(found: Inventory, links: set<Link>)
    requires forall l :: l in links ==> Explained(found, l)
    ensures forall l :: l in links && FromUser(l) ==> OfClaims(found.claims, |found.claims|, found.provider, l)
    ensures forall l :: l in links && l.relation == AffectedBy ==> l in Topology(found)
  {
    forall l | l in links && l.relation == AffectedBy
      ensures l in Topology(found)
    {
      if OfClaims(found.claims, |found.claims|, found.provider, l) {
        ClaimLinksFromUsers(found.claims, |found.claims|, found.provider, l);
      }
    }
  }

  /** The graph says it is incomplete exactly then. */
  predicate Gaps(found: Inventory) { StorageGap(found) || found.snapshots == None || found.operations == None }

  /** Everything of the inventory is joined to what it uses, is of, or belongs to; operations are joined to the
      volumes, claims and pools they work on. */
  ghost predicate Linked(found: Inventory, links: set<Link>) {
    && ProvidersJoined(found, links)
    && (forall v :: v in found.volumes && v.provider == found.provider ==>
          VolumeLinks(v, ListedStock(found).backends, ClassNames(found)) <= links)
    && MembersJoined(Notes(found), ListedStock(found).poolNames, ListedStock(found).filesystems, links)
    && (forall c :: c in found.claims && c.provider == found.provider ==> ClaimLinked(c, VolumeNames(found), ClassNames(found), links))
    && (forall a :: a in found.attachments && a.provider == found.provider ==> AttachmentLinks(a, VolumeNames(found)) <= links)
    && RestAdded(found, ClaimNames(found), Handles(found), Targets(found), links)
  }

  function VolumeNames(found: Inventory): set<string> {
    set v | v in found.volumes && v.provider == found.provider :: v.name
  }

  function ClaimNames(found: Inventory): set<(string, string)> {
    NamesOf({}, found.claims, |found.claims|, found.provider)
  }

  function Targets(found: Inventory): set<NodeId> {
    (set c | c in found.claims && c.provider == found.provider :: PvcId(c))
    + (set v | v in found.volumes && v.provider == found.provider :: PvId(v.name))
    + (set id | id in Listed(found, BlockPool))
  }

  function ClassNames(found: Inventory): set<string> { NamesOfClasses(found.classes, |found.classes|, found.provider) }

  /** What the lists are remembered for. */
  function ListedStock(found: Inventory): Stock {
    if found.configured then StockOf(found.resources, |found.resources|) else NOTHING_LISTED
  }

  /** What images and subvolumes, listed or named by a volume, say they belong to. */
  function Notes(found: Inventory): map<NodeId, Details> {
    DescribedBy(ListedStock(found).details, found.volumes, |found.volumes|, found.provider, Observed(found))
  }

  /** Drivers are joined to the provider, classes to their drivers. */
  ghost predicate ProvidersJoined(found: Inventory, links: set<Link>) {
    && (found.configured ==> DriversJoined(found.drivers, |found.drivers|, found.provider, links))
    && ClassesJoined(found.classes, |found.classes|, found.provider, DriverNames(found.drivers, |found.drivers|, found.provider), links)
  }

  lemma AllProvidersJoined(found: Inventory, managed: set<Link>, links: set<Link>)
    requires managed <= links && (found.configured ==> DriversJoined(found.drivers, |found.drivers|, found.provider, managed))
    requires ClassesJoined(found.classes, |found.classes|, found.provider, DriverNames(found.drivers, |found.drivers|, found.provider), links)
    ensures ProvidersJoined(found, links)
  {}

  lemma ProvidersStay(found: Inventory, links: set<Link>, more: set<Link>)
    requires ProvidersJoined(found, links) && links <= more
    ensures ProvidersJoined(found, more)
  {}

  /** What the first steps ensure. */
  ghost predicate StockAdded(found: Inventory, volumes: set<string>, nodes: set<NodeId>, links: set<Link>) {
    VolumesAdded(found, volumes, links) && UsersAdded(found, volumes, ClassNames(found), nodes, links) && ProvidersJoined(found, links)
  }

  lemma StockStays(found: Inventory, volumes: set<string>, nodes: set<NodeId>, links: set<Link>, more: set<Link>)
    requires StockAdded(found, volumes, nodes, links) && links <= more
    ensures StockAdded(found, volumes, nodes, more)
  {
    VolumesStay(found, volumes, links, more);
    UsersStay(found, volumes, ClassNames(found), nodes, links, more);
    ProvidersStay(found, links, more);
  }

  /** The whole build; without a provider there is none. Whatever the inventory, every edge joins two
      different nodes and is one that the inventory gives rise to, nothing that uses a volume is left
      unjoined, pods, claims and owners lead nowhere but where a claim says, and pools are joined to exactly
      the OSDs of the first pairs. */
  method BuildGraph(found: Inventory) returns (b: Build?)
    ensures b == null <==> Trim(found.provider) == ""
    ensures b != null ==> Closed(b.nodes, b.edges) && b.nodes.Keys <= Items(found) && Linked(found, b.edges.Keys)
    ensures b != null ==> forall l :: l in b.edges && FromUser(l) ==> OfClaims(found.claims, |found.claims|, found.provider, l)
    ensures b != null ==> forall l :: l in b.edges ==> Explained(found, l)
    ensures b != null ==> (b.incomplete <==> Gaps(found) || CutInside(|Listed(found, BlockPool)|, |Listed(found, Osd)|))
    ensures b != null ==> Topology(found) <= b.edges.Keys && forall l :: l in b.edges && l.relation == AffectedBy ==> l in Topology(found)
  {
    if Trim(found.provider) == "" {
      return null;
    }
    b := new Build(found.provider, found.configured);
    b.Fill(found);
    OnlyExplained(found, b.edges.Keys);
  }

  function Observed(found: Inventory): set<(Kind, string)> { ListedStock(found).backends.Keys }

  function Handles(found: Inventory): map<string, NodeId> {
    HandleIndex(map[], found.volumes, |found.volumes|, found.provider)
  }

  /** A resource list could not be read, or a volume's backend is not known. */
  predicate StorageGap(found: Inventory) {
    || (found.configured && Unreadable(found.resources, |found.resources|))
    || GapIn(found.volumes, found.provider, Observed(found), |found.volumes|)
  }

  ghost predicate VolumesAdded(found: Inventory, volumes: set<string>, links: set<Link>) {
    forall v :: v in found.volumes && v.provider == found.provider ==>
      v.name in volumes && VolumeLinks(v, ListedStock(found).backends, ClassNames(found)) <= links
  }

  ghost predicate UsersAdded(found: Inventory, volumes: set<string>, classes: set<string>, nodes: set<NodeId>, links: set<Link>) {
    && (forall c :: c in found.claims && c.provider == found.provider ==>
          PvcId(c) in nodes && ClaimLinked(c, volumes, classes, links))
    && (forall a :: a in found.attachments && a.provider == found.provider ==> AttachmentLinks(a, volumes) <= links)
  }

  ghost predicate SnapshotsAdded(found: Inventory, claims: set<(string, string)>, handles: map<string, NodeId>, links: set<Link>) {
    found.snapshots.Some? ==> forall x :: x in found.snapshots.value && x.provider == found.provider ==> SnapshotLinked(x, claims, handles, links)
  }

  lemma AllSnapshotsAdded(found: Inventory, claims: set<(string, string)>, handles: map<string, NodeId>, links: set<Link>)
    requires found.snapshots.Some? ==>
      SnapshotsLinked(found.snapshots.value, |found.snapshots.value|, found.provider, claims, handles, links)
    ensures SnapshotsAdded(found, claims, handles, links)
  {
    forall x | found.snapshots.Some? && x in found.snapshots.value && x.provider == found.provider
      ensures SnapshotLinked(x, claims, handles, links)
    {
      assert found.snapshots.value[..|found.snapshots.value|] == found.snapshots.value;
      EachSnapshot(found.snapshots.value, |found.snapshots.value|, found.provider, claims, handles, links, x);
    }
  }

  ghost predicate RestAdded(found: Inventory, claims: set<(string, string)>, handles: map<string, NodeId>, nodes: set<NodeId>, links: set<Link>) {
    && SnapshotsAdded(found, claims, handles, links)
    && (found.operations.Some? ==> forall o :: o in found.operations.value && o.provider == found.provider ==>
          OperationLinked(o, nodes, links))
  }

  lemma AllVolumesAdded(found: Inventory, volumes: set<string>, links: set<Link>)
    requires AllVolumeNames(found.volumes, |found.volumes|, found.provider) <= volumes
    requires AllVolumeLinks(found.volumes, |found.volumes|, found.provider, ListedStock(found).backends, ClassNames(found)) <= links
    ensures VolumesAdded(found, volumes, links)
  {
    forall v | v in found.volumes && v.provider == found.provider
      ensures v.name in volumes && VolumeLinks(v, ListedStock(found).backends, ClassNames(found)) <= links
    {
      assert found.volumes[..|found.volumes|] == found.volumes;
      EachVolume(found.volumes, |found.volumes|, found.provider, ListedStock(found).backends, ClassNames(found), v);
    }
  }

  lemma VolumesStay(found: Inventory, volumes: set<string>, links: set<Link>, more: set<Link>)
    requires VolumesAdded(found, volumes, links) && links <= more
    ensures VolumesAdded(found, volumes, more)
  {}

  lemma AllClaimsAdded(found: Inventory, volumes: set<string>, classes: set<string>, nodes: set<NodeId>, links: set<Link>)
    requires ClaimsAdded(found.claims, |found.claims|, found.provider, volumes, classes, nodes, links)
    ensures forall c :: c in found.claims && c.provider == found.provider ==> PvcId(c) in nodes && ClaimLinked(c, volumes, classes, links)
  {
    forall c | c in found.claims && c.provider == found.provider
      ensures PvcId(c) in nodes && ClaimLinked(c, volumes, classes, links)
    {
      assert found.claims[..|found.claims|] == found.claims;
      EachClaim(found.claims, |found.claims|, found.provider, volumes, classes, nodes, links, c);
    }
  }

  lemma UsersStay(found: Inventory, volumes: set<string>, classes: set<string>, nodes: set<NodeId>, links: set<Link>, more: set<Link>)
    requires UsersAdded(found, volumes, classes, nodes, links) && links <= more
    ensures UsersAdded(found, volumes, classes, nodes, more)
  {}

  /** What the steps ensured, in terms of the inventory alone. */
  lemma AllLinked(found: Inventory, volumes: set<string>, nodes: set<NodeId>, links: set<Link>)
    requires StockAdded(found, volumes, nodes, links) && RestAdded(found, ClaimNames(found), Handles(found), nodes, links)
    requires MembersJoined(Notes(found), ListedStock(found).poolNames, ListedStock(found).filesystems, links)
    requires forall v :: v in found.volumes && v.provider == found.provider ==> PvId(v.name) in nodes
    requires forall id :: id in Listed(found, BlockPool) ==> id in nodes
    ensures Linked(found, links)
  {
    assert VolumeNames(found) <= volumes;
    assert Targets(found) <= nodes;
  }
  lemma RestAddedAfter(found: Inventory, claims: set<(string, string)>, handles: map<string, NodeId>, nodes: set<NodeId>,
                       taken: set<Link>, worked: set<Link>, links: set<Link>)
    requires SnapshotsAdded(found, claims, handles, taken) && taken <= worked <= links
    requires found.operations.Some? ==>
      exists there :: nodes <= there && OperationsLinked(found.operations.value, |found.operations.value|, found.provider, there, worked)
    ensures RestAdded(found, claims, handles, nodes, links)
  {}

  lemma RestGrowsAs(start: set<Link>, taken: set<Link>, worked: set<Link>, links: set<Link>, works: set<Link>, topology: set<Link>)
    requires Grows(start, taken) && GrowsAs(taken, worked, {}, works) && GrowsAs(worked, links, {}, topology)
    ensures GrowsAs(start, links, {}, works + topology)
  {
    GrowsThen(start, taken, worked, {}, {}, {}, works, {}, works);
    GrowsThen(start, worked, links, {}, works, {}, topology, {}, works + topology);
  }

  lemma TopologyGrows(pools: seq<NodeId>, osds: seq<NodeId>, nodes: map<NodeId, Details>, links: set<Link>)
    requires AllKnown(pools, nodes, BlockPool) && AllKnown(osds, nodes, Osd)
    ensures GrowsAs(links, links + Pairs(pools, osds, MAX_POTENTIAL), {}, Pairs(pools, osds, MAX_POTENTIAL))
  {}

  /** The bound is exceeded and does not fall between the OSDs of two pools. */
  predicate CutInside(pools: nat, osds: nat) {
    pools * osds > MAX_POTENTIAL && osds > 0 && MAX_POTENTIAL % osds != 0
  }

  /** The first n pairs in the order of the two loops, without self-edges. */
  function Pairs(pools: seq<NodeId>, osds: seq<NodeId>, n: nat): set<Link> {
    set i, j | 0 <= i < |pools| && 0 <= j < |osds| && Place(i, j, |osds|) < n && pools[i] != osds[j] ::
      Link(AffectedBy, pools[i], osds[j])
  }

  function NewLink(relation: Relation, from: NodeId, to: NodeId): set<Link> {
    if from == to then {} else {Link(relation, from, to)}
  }

  function Place(i: nat, j: nat, width: nat): nat { i * width + j }

  lemma {:induction false} Monotone(a: nat, b: nat, width: nat)
    requires a <= b
    ensures a * width <= b * width
    decreases b - a
  {
    if a < b {
      NextRow(b - 1, width);
      Monotone(a, b - 1, width);
    }
  }

  lemma PlaceBelow(i: nat, j: nat, i': nat, width: nat)
    requires j < width && i < i'
    ensures Place(i, j, width) < i' * width
  {
    NextRow(i, width);
    Monotone(i + 1, i', width);
  }

  lemma PlaceUnique(i: nat, j: nat, i': nat, j': nat, width: nat)
    requires j < width && j' < width && Place(i, j, width) == Place(i', j', width)
    ensures i == i' && j == j'
  {
    if i < i' {
      PlaceBelow(i, j, i', width);
    } else if i' < i {
      PlaceBelow(i', j', i, width);
    }
  }

  lemma NextRow(i: nat, width: nat)
    ensures (i + 1) * width == i * width + width
  {}

  lemma PlaceFits(i: nat, j: nat, rows: nat, width: nat)
    requires i < rows && j < width
    ensures Place(i, j, width) < rows * width
  {
    PlaceBelow(i, j, rows, width);
  }

  lemma StopsInside(i: nat, j: nat, rows: nat, width: nat)
    requires i < rows && j < width && Place(i, j, width) == MAX_POTENTIAL && i * width < MAX_POTENTIAL
    ensures CutInside(rows, width)
  {
    PlaceFits(i, j, rows, width);
    PlaceUnique(i, j, MAX_POTENTIAL / width, MAX_POTENTIAL % width, width);
  }

  lemma StopsBetween(i: nat, width: nat)
    requires i * width == MAX_POTENTIAL
    ensures width > 0 && MAX_POTENTIAL % width == 0
  {
    assert width > 0;
    PlaceUnique(i, 0, MAX_POTENTIAL / width, MAX_POTENTIAL % width, width);
  }

  lemma PairsGrow(pools: seq<NodeId>, osds: seq<NodeId>, i: nat, j: nat)
    requires i < |pools| && j < |osds|
    ensures Pairs(pools, osds, Place(i, j, |osds|) + 1) == Pairs(pools, osds, Place(i, j, |osds|))
      + NewLink(AffectedBy, pools[i], osds[j])
  {
    var n, w := Place(i, j, |osds|), |osds|;
    forall i', j' | 0 <= i' < |pools| && 0 <= j' < |osds| && Place(i', j', w) == n
      ensures i' == i && j' == j
    {
      PlaceUnique(i, j, i', j', w);
    }
  }

  /** The first j links of one pool. */
  function Row(pool: NodeId, osds: seq<NodeId>, j: nat): set<Link>
    requires j <= |osds|
  {
    if j == 0 then {} else Row(pool, osds, j - 1) + NewLink(AffectedBy, pool, osds[j - 1])
  }

  lemma {:induction false} RowExtends(pools: seq<NodeId>, osds: seq<NodeId>, i: nat, j: nat)
    requires i < |pools| && j <= |osds|
    ensures Pairs(pools, osds, i * |osds| + j) == Pairs(pools, osds, i * |osds|) + Row(pools[i], osds, j)
  {
    if j > 0 {
      RowExtends(pools, osds, i, j - 1);
      PairsGrow(pools, osds, i, j - 1);
      assert Place(i, j - 1, |osds|) + 1 == i * |osds| + j;
    }
  }

  /** What the bound means for one pool. */
  lemma {:induction false} RowDone(pools: seq<NodeId>, osds: seq<NodeId>, i: nat, start: nat, stop: nat, cut: bool)
    requires i < |pools| && start == i * |osds| < MAX_POTENTIAL && start <= stop <= start + |osds|
    requires if cut then stop == MAX_POTENTIAL < start + |osds| else stop == start + |osds| <= MAX_POTENTIAL
    ensures Pairs(pools, osds, stop) == Pairs(pools, osds, start) + Row(pools[i], osds, stop - start)
    ensures !cut ==> stop == (i + 1) * |osds|
    ensures stop == MAX_POTENTIAL ==> (cut <==> CutInside(|pools|, |osds|))
  {
    NextRow(i, |osds|);
    RowExtends(pools, osds, i, stop - start);
    if cut {
      StopsInside(i, stop - start, |pools|, |osds|);
    } else if stop == MAX_POTENTIAL {
      StopsBetween(i + 1, |osds|);
    }
  }

  lemma AllPairs(pools: seq<NodeId>, osds: seq<NodeId>)
    requires |pools| * |osds| < MAX_POTENTIAL
    ensures Pairs(pools, osds, MAX_POTENTIAL) == Pairs(pools, osds, |pools| * |osds|)
  {
    forall i, j | 0 <= i < |pools| && 0 <= j < |osds|
      ensures Place(i, j, |osds|) < |pools| * |osds|
    {
      PlaceFits(i, j, |pools|, |osds|);
    }
  }

  /** Among distinct pools and OSDs, a pair is joined exactly when its place is below the bound. */
  lemma JoinedExactly(pools: seq<NodeId>, osds: seq<NodeId>, n: nat, i: nat, j: nat)
    requires Distinct(pools) && Distinct(osds) && i < |pools| && j < |osds| && pools[i] != osds[j]
    ensures Link(AffectedBy, pools[i], osds[j]) in Pairs(pools, osds, n) <==> Place(i, j, |osds|) < n
  {}
}
