/** Normalizing a graph kind twice is normalizing it once
    (apps/api/internal/storage/context_engine.go). */
module GraphKinds {
  import opened ProviderNames
  import opened Identities

  predicate Plain(s: string) { s != "" && forall i :: 0 <= i < |s| ==> 'a' <= s[i] <= 'z' || s[i] == '-' }

  /** A canonical kind is written plainly and is not an alias of another one. */
  predicate Stable(kind: string) { Plain(kind) && CanonicalKind(kind) == kind }

  /** Its length and a character or two tell the kind from every alias of another one. */
  predicate Clear(kind: string) {
    || |kind| in {2, 3, 12, 18, 23}
    || (|kind| == 4 && kind[0] == 'n')
    || (|kind| == 8 && kind[0] in {'p', 'w'})
    || (|kind| == 9 && kind[0] == 'r')
    || (|kind| == 15 && kind[0] in {'c', 'l'})
    || (|kind| == 16 && kind[0] == 'l')
    || (|kind| == 17 && kind[0] == 's' && kind[7] == '-')
  }

  lemma ClearIsCanonical(kind: string)
    requires Clear(kind)
    ensures CanonicalKind(kind) == kind
  {
    if |kind| in {2, 3, 12, 18, 23} { LengthIsCanonical(kind); }
  }

  lemma LengthIsCanonical(kind: string)
    requires |kind| in {2, 3, 12, 18, 23}
    ensures CanonicalKind(kind) == kind
  {}

  lemma StorageKindsAreStable()
    ensures Stable("storageclass") && Stable("pvc") && Stable("pv") && Stable("volumeattachment") && Stable("volumesnapshot")
  {
    ClearIsCanonical("storageclass");
    ClearIsCanonical("pvc");
    ClearIsCanonical("pv");
  }

  lemma ClusterKindsAreStable()
    ensures Stable("provider") && Stable("csidriver") && Stable("pod") && Stable("workload") && Stable("node")
      && Stable("storage-operation")
  {
    ClearIsCanonical("provider");
    ClearIsCanonical("pod");
    ClearIsCanonical("workload");
    ClearIsCanonical("node");
    ClearIsCanonical("storage-operation");
  }

  lemma CephKindsAreStable()
    ensures Stable("ceph-block-pool") && Stable("ceph-filesystem") && Stable("ceph-rbd-mirror") && Stable("ceph-cluster")
  {
    ClearIsCanonical("ceph-block-pool");
    ClearIsCanonical("ceph-filesystem");
    ClearIsCanonical("ceph-rbd-mirror");
    ClearIsCanonical("ceph-cluster");
  }

  lemma BackendKindsAreStable()
    ensures Stable("rbd-image") && Stable("cephfs-subvolume") && Stable("osd")
  {
    ClearIsCanonical("rbd-image");
    ClearIsCanonical("osd");
  }

  // What the adapters other than Ceph's call their backends.

  lemma AdapterKindsAreStable()
    ensures Stable("linstor-resource") && Stable("longhorn-volume")
  {
    ClearIsCanonical("linstor-resource");
    ClearIsCanonical("longhorn-volume");
  }

  lemma OpenebsKindsAreStable()
    ensures Stable("openebs-hostpath-volume") && Stable("openebs-lvm-volume") && Stable("openebs-zfs-volume")
  {
    ClearIsCanonical("openebs-hostpath-volume");
    ClearIsCanonical("openebs-lvm-volume");
    ClearIsCanonical("openebs-zfs-volume");
  }

  lemma CanonicalIsStable(k: string)
    ensures CanonicalKind(k) == k || Stable(CanonicalKind(k))
  {
    StorageKindsAreStable();
    ClusterKindsAreStable();
    CephKindsAreStable();
    BackendKindsAreStable();
  }

  lemma PlainFixed(s: string)
    requires Plain(s)
    ensures PlainKind(s) == s
  {
    assert Lower(s) == s;
  }

  lemma PlainTwice(kind: string)
    ensures PlainKind(PlainKind(kind)) == PlainKind(kind)
  {
    var t := Lower(Trim(kind));
    if t != "" { assert Trim(kind)[0] == TrimLeft(kind)[0]; }
  }

  lemma NormalizeTwice(kind: string)
    ensures NormalizeKind(NormalizeKind(kind)) == NormalizeKind(kind)
  {
    PlainTwice(kind);
    CanonicalIsStable(PlainKind(kind));
    if CanonicalKind(PlainKind(kind)) != PlainKind(kind) {
      PlainFixed(NormalizeKind(kind));
    }
  }

  /** So an ID computed from an already normalized kind is the same ID. */
  lemma NormalizedKindSameID(kind: string, provider: seq<byte>, namespace: seq<byte>, name: seq<byte>)
    ensures GraphID(NormalizeKind(kind), provider, namespace, name) == GraphID(kind, provider, namespace, name)
  {
    NormalizeTwice(kind);
  }
}
