/** The ids the engine gives to the nodes of the graph: the kind, and the UTF-8 bytes of provider,
    namespace and name in base64url (apps/api/internal/storage/context_engine.go). */
module GraphIds {
  import opened ProviderNames
  import opened Identities
  import opened GraphKinds
  import opened GraphBuild

  // ---------- strings as bytes, section 3 of RFC 3629 ----------

  function Tail(x: int): byte { (0x80 + x % 64) as byte }

  function Utf8Char(c: char): (b: seq<byte>)
    ensures b != []
  {
    var x := c as int;
    if x < 0x80 then [x as byte]
    else if x < 0x800 then [(0xC0 + x / 64) as byte, Tail(x)]
    else if x < 0x1_0000 then [(0xE0 + x / 4096) as byte, Tail(x / 64), Tail(x)]
    else [(0xF0 + x / 262144) as byte, Tail(x / 4096), Tail(x / 64), Tail(x)]
  }

  function Utf8(s: string): seq<byte> { if s == "" then [] else Utf8Char(s[0]) + Utf8(s[1..]) }

  /** How long a character is follows from its first byte. */
  function Length(first: byte): nat { if first < 0x80 then 1 else if first < 0xE0 then 2 else if first < 0xF0 then 3 else 4 }

  lemma LengthOfChar(c: char)
    ensures |Utf8Char(c)| == Length(Utf8Char(c)[0])
  {}

  lemma CharInjective(c: char, d: char)
    requires Utf8Char(c) == Utf8Char(d)
    ensures c == d
  {
    var x, y := c as int, d as int;
    assert |Utf8Char(c)| == |Utf8Char(d)|;
    TailsDetermine(x, y);
  }

  /** The low six bits and the rest determine a number. */
  lemma TailsDetermine(x: int, y: int)
    requires x >= 0 && y >= 0
    ensures x / 64 == y / 64 && Tail(x) == Tail(y) ==> x == y
    ensures x / 4096 == y / 4096 && Tail(x / 64) == Tail(y / 64) && Tail(x) == Tail(y) ==> x == y
    ensures x / 262144 == y / 262144 && Tail(x / 4096) == Tail(y / 4096) && Tail(x / 64) == Tail(y / 64) && Tail(x) == Tail(y) ==> x == y
  {
    LastDigit(x, y);
    LastDigit(x / 64, y / 64);
    LastDigit(x / 4096, y / 4096);
    assert x / 64 / 64 == x / 4096 && y / 64 / 64 == y / 4096;
    assert x / 4096 / 64 == x / 262144 && y / 4096 / 64 == y / 262144;
  }

  lemma LastDigit(x: int, y: int)
    requires x >= 0 && y >= 0
    ensures x / 64 == y / 64 && Tail(x) == Tail(y) ==> x == y
  {
    assert x == x / 64 * 64 + x % 64 && y == y / 64 * 64 + y % 64;
  }

  /** Nothing is lost in the bytes. */
  lemma {:induction false} Utf8Injective(s: string, t: string)
    requires Utf8(s) == Utf8(t)
    ensures s == t
  {
    if s != "" && t != "" {
      var a, b := Utf8Char(s[0]), Utf8Char(t[0]);
      var u, v := a + Utf8(s[1..]), b + Utf8(t[1..]);
      assert u[0] == a[0] && v[0] == b[0] && u == v;
      LengthOfChar(s[0]);
      LengthOfChar(t[0]);
      assert a == u[..|a|] && b == v[..|b|];
      CharInjective(s[0], t[0]);
      assert Utf8(s[1..]) == u[|a|..] && Utf8(t[1..]) == v[|b|..];
      Utf8Injective(s[1..], t[1..]);
      assert s == [s[0]] + s[1..] && t == [t[0]] + t[1..];
    }
  }

  // ---------- node ids ----------

  function KindName(k: Kind): string {
    match k
    case Provider => "provider"
    case CsiDriver => "csidriver"
    case StorageClass => "storageclass"
    case Pv => "pv"
    case Pvc => "pvc"
    case Pod => "pod"
    case Machine => "node"
    case Owner => "workload"
    case VolumeAttachment => "volumeattachment"
    case VolumeSnapshot => "volumesnapshot"
    case StorageOperation => "storage-operation"
    case BlockPool => "ceph-block-pool"
    case Osd => "osd"
    case Image => "rbd-image"
    case CephFilesystem => "ceph-filesystem"
    case Subvolume => "cephfs-subvolume"
    case Other(name) => name
  }

  function CanonicalID(provider: string, n: NodeId): string {
    GraphID(KindName(n.kind), Utf8(provider), Utf8(n.namespace), Utf8(n.name))
  }

  /** Nodes have the same id exactly when their kinds are aliases and namespace and name agree. */
  lemma CanonicalIDExactly(provider: string, n: NodeId, m: NodeId)
    ensures CanonicalID(provider, n) == CanonicalID(provider, m) <==>
      NormalizeKind(KindName(n.kind)) == NormalizeKind(KindName(m.kind)) && n.namespace == m.namespace && n.name == m.name
  {
    GraphIDInjective(KindName(n.kind), Utf8(provider), Utf8(n.namespace), Utf8(n.name),
      KindName(m.kind), Utf8(provider), Utf8(m.namespace), Utf8(m.name));
    if Utf8(n.namespace) == Utf8(m.namespace) { Utf8Injective(n.namespace, m.namespace); }
    if Utf8(n.name) == Utf8(m.name) { Utf8Injective(n.name, m.name); }
  }

  /** The kinds of what can use a volume. */
  predicate IsUser(k: Kind) { k in {Pvc, Pod, Owner, VolumeAttachment, VolumeSnapshot, StorageOperation} }

  /** These kinds are normalized and differ from that of volumes. */
  lemma UserKindsAreNormal(k: Kind)
    requires IsUser(k)
    ensures NormalizeKind(KindName(k)) == KindName(k) != "pv"
  {
    NamedKindsAreNormal(k);
    TraitIsOf(k);
  }

  lemma Normal(kind: string)
    requires Stable(kind)
    ensures NormalizeKind(kind) == kind
  {
    PlainFixed(kind);
  }

  /** No user of a volume has the id of a volume. */
  ghost predicate Separates(id: NodeId -> string) {
    forall n: NodeId, name: string :: IsUser(n.kind) ==> id(n) != id(PvId(name))
  }

  lemma UserKindSeparates(k: Kind)
    requires IsUser(k)
    ensures NormalizeKind(KindName(k)) != NormalizeKind("pv")
  {
    UserKindsAreNormal(k);
    VolumeKindIsNormal();
  }

  lemma UserIsNoVolume(provider: string, n: NodeId, name: string)
    requires IsUser(n.kind)
    ensures CanonicalID(provider, n) != CanonicalID(provider, PvId(name))
  {
    UserKindSeparates(n.kind);
    CanonicalIDExactly(provider, n, PvId(name));
  }

  lemma VolumeKindIsNormal()
    ensures NormalizeKind("pv") == "pv"
  {
    NamedKindsAreNormal(Pv);
  }

  lemma CanonicalIDSeparates(provider: string)
    ensures Separates(n => CanonicalID(provider, n))
  {
    forall n: NodeId, name: string | IsUser(n.kind)
      ensures CanonicalID(provider, n) != CanonicalID(provider, PvId(name))
    {
      UserIsNoVolume(provider, n, name);
    }
  }

  ghost predicate TellsApart(id: NodeId -> string, s: set<NodeId>) {
    forall m, n :: m in s && n in s && id(m) == id(n) ==> m == n
  }

  /** A kind that is not written like one of the others, and not an alias. */
  ghost predicate OwnKind(k: Kind) {
    k.Other? ==> NormalizeKind(k.name) == k.name && forall other: Kind :: !other.Other? ==> KindName(other) != k.name
  }

  lemma NamedKindsAreNormal(k: Kind)
    requires !k.Other?
    ensures NormalizeKind(KindName(k)) == KindName(k)
  {
    StorageKindsAreStable();
    ClusterKindsAreStable();
    CephKindsAreStable();
    BackendKindsAreStable();
    Normal(KindName(k));
  }

  /** The length of a kind's name and one of its characters tell it from the others. */
  function Trait(name: string): (nat, char) {
    (|name|, if |name| == 3 then name[1] else if |name| > 5 then name[5] else ' ')
  }

  function TraitOf(k: Kind): (nat, char)
    requires !k.Other?
  {
    match k
    case Provider => (8, 'd')
    case CsiDriver => (9, 'i')
    case StorageClass => (12, 'g')
    case Pv => (2, ' ')
    case Pvc => (3, 'v')
    case Pod => (3, 'o')
    case Machine => (4, ' ')
    case Owner => (8, 'o')
    case VolumeAttachment => (16, 'e')
    case VolumeSnapshot => (14, 'e')
    case StorageOperation => (17, 'g')
    case BlockPool => (15, 'b')
    case Osd => (3, 's')
    case Image => (9, 'm')
    case CephFilesystem => (15, 'f')
    case Subvolume => (16, 's')
  }

  lemma TraitIsOf(k: Kind)
    requires !k.Other?
    ensures Trait(KindName(k)) == TraitOf(k)
  {}

  /** What the adapters other than Ceph's call their backends. */
  const HOLDERS: set<string> := {
    "linstor-resource", "longhorn-volume", "openebs-hostpath-volume", "openebs-lvm-volume", "openebs-zfs-volume" }

  /** The other kinds that are listed and have no name of their own here. */
  const LISTED: set<string> := {"ceph-cluster", "ceph-rbd-mirror", "linstor-resource"}

  lemma AdapterKindsAreNormal(name: string)
    requires name in HOLDERS || name in LISTED
    ensures NormalizeKind(name) == name
  {
    AdapterKindsAreStable();
    OpenebsKindsAreStable();
    CephKindsAreStable();
    Normal(name);
  }

  lemma AdapterTraits(name: string)
    requires name in HOLDERS || name in LISTED
    ensures Trait(name) in {(16, 'o'), (15, 'o'), (23, 'b'), (18, 'b'), (12, 'c'), (15, 'r')}
  {}

  lemma AdapterKindsAreOwn(name: string)
    requires name in HOLDERS || name in LISTED
    ensures OwnKind(Other(name))
  {
    AdapterKindsAreNormal(name);
    forall other: Kind | !other.Other?
      ensures KindName(other) != name
    {
      AdapterKindIsNew(name, other);
    }
  }

  lemma AdapterKindIsNew(name: string, k: Kind)
    requires (name in HOLDERS || name in LISTED) && !k.Other?
    ensures KindName(k) != name
  {
    AdapterTraits(name);
    TraitIsOf(k);
  }

  lemma TraitsDiffer(k: Kind, k': Kind)
    requires !k.Other? && !k'.Other? && TraitOf(k) == TraitOf(k')
    ensures k == k'
  {}

  lemma NamedKindsDiffer(k: Kind, k': Kind)
    requires !k.Other? && !k'.Other? && KindName(k) == KindName(k')
    ensures k == k'
  {
    TraitIsOf(k);
    TraitIsOf(k');
    TraitsDiffer(k, k');
  }

  lemma KindNamesDiffer(k: Kind, k': Kind)
    requires OwnKind(k) && OwnKind(k') && KindName(k) == KindName(k')
    ensures k == k'
  {
    if !k.Other? && !k'.Other? { NamedKindsDiffer(k, k'); }
  }

  lemma OwnKindIsNormal(k: Kind)
    requires OwnKind(k)
    ensures NormalizeKind(KindName(k)) == KindName(k)
  {
    if !k.Other? { NamedKindsAreNormal(k); }
  }

  /** Among nodes of such kinds the engine's ids are unique. */
  lemma OwnKindsDiffer(provider: string, n: NodeId, m: NodeId)
    requires OwnKind(n.kind) && OwnKind(m.kind) && CanonicalID(provider, n) == CanonicalID(provider, m)
    ensures n == m
  {
    CanonicalIDExactly(provider, n, m);
    OwnKindIsNormal(n.kind);
    OwnKindIsNormal(m.kind);
    KindNamesDiffer(n.kind, m.kind);
  }

  /** The kinds that resource lists and references name are not written like one of the others. */
  ghost predicate OwnKinds(found: Inventory) {
    && (forall list :: list in found.resources ==> OwnKind(list.0))
    && (forall v :: v in found.volumes && Refers(v) ==> OwnKind(v.ref.value.kind))
  }

  lemma OneVolumeOwn(v: Volume, provider: string)
    requires Refers(v) ==> OwnKind(v.ref.value.kind)
    ensures forall id :: id in VolumeIds(v, provider) ==> OwnKind(id.kind)
  {}

  lemma {:induction false} VolumeItemsOwn(found: seq<Volume>, n: nat, provider: string)
    requires n <= |found| && forall v :: v in found && Refers(v) ==> OwnKind(v.ref.value.kind)
    ensures forall id :: id in AllVolumeIds(found, n, provider) ==> OwnKind(id.kind)
  {
    if n > 0 {
      VolumeItemsOwn(found, n - 1, provider);
      OneVolumeOwn(found[n - 1], provider);
    }
  }

  lemma {:induction false} WorkloadItemsNamed(before: set<NodeId>, found: seq<Workload>, n: nat)
    requires n <= |found| && forall id :: id in before ==> !id.kind.Other?
    ensures forall id :: id in AllWorkloadIds(before, found, n) ==> !id.kind.Other?
  {
    if n > 0 { WorkloadItemsNamed(before, found, n - 1); }
  }

  lemma {:induction false} ClaimItemsNamed(found: seq<Claim>, n: nat, provider: string)
    requires n <= |found|
    ensures forall id :: id in AllClaimIds(found, n, provider) ==> !id.kind.Other?
  {
    if n > 0 {
      ClaimItemsNamed(found, n - 1, provider);
      WorkloadItemsNamed({}, found[n - 1].workloads, |found[n - 1].workloads|);
    }
  }

  lemma {:induction false} AttachmentItemsNamed(found: seq<Attachment>, n: nat, provider: string)
    requires n <= |found|
    ensures forall id :: id in AllAttachmentIds(found, n, provider) ==> !id.kind.Other?
  {
    if n > 0 { AttachmentItemsNamed(found, n - 1, provider); }
  }

  lemma ItemsOwn(found: Inventory)
    requires OwnKinds(found)
    ensures forall id :: id in Items(found) ==> OwnKind(id.kind)
  {
    VolumeItemsOwn(found.volumes, |found.volumes|, found.provider);
    ClaimItemsNamed(found.claims, |found.claims|, found.provider);
    AttachmentItemsNamed(found.attachments, |found.attachments|, found.provider);
    assert forall id :: id in ResourceIds(found.resources) ==> OwnKind(id.kind);
    assert forall id :: id in OtherItems(found) ==> !id.kind.Other?;
  }

  /** So in a graph built from them. */
  lemma ItemsToldApart(found: Inventory)
    requires OwnKinds(found)
    ensures TellsApart(n => CanonicalID(found.provider, n), Items(found))
  {
    ItemsOwn(found);
    forall m, n | m in Items(found) && n in Items(found) && CanonicalID(found.provider, m) == CanonicalID(found.provider, n)
      ensures m == n
    {
      OwnKindsDiffer(found.provider, m, n);
    }
  }
}
