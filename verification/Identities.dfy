/** Names that identify things: graph node IDs (apps/api/internal/storage/context_engine.go) and the
    provider IDs derived from CSI driver names (apps/api/internal/storage/registry.go). */
module Identities {
  import opened Common
  import opened ProviderNames
  import Policies = StoragePolicies

  newtype byte = x: int | 0 <= x < 256

  // ---------- base64url without padding, sections 3.2 and 5 of RFC 4648 ----------

  predicate Url64(c: char) { 'A' <= c <= 'Z' || 'a' <= c <= 'z' || '0' <= c <= '9' || c == '-' || c == '_' }

  function Digit(v: int): (c: char)
    requires 0 <= v < 64
    ensures Url64(c) && Value(c) == v
  {
    if v < 26 then (v + 'A' as int) as char
    else if v < 52 then (v - 26 + 'a' as int) as char
    else if v < 62 then (v - 52 + '0' as int) as char
    else if v == 62 then '-' else '_'
  }

  function Value(c: char): (v: int)
    requires Url64(c)
    ensures 0 <= v < 64
  {
    if 'A' <= c <= 'Z' then c as int - 'A' as int
    else if 'a' <= c <= 'z' then c as int - 'a' as int + 26
    else if '0' <= c <= '9' then c as int - '0' as int + 52
    else if c == '-' then 62 else 63
  }

  predicate AllUrl64(s: string) { forall i :: 0 <= i < |s| ==> Url64(s[i]) }

  function Power(base: nat, n: nat): nat {
    if n == 0 then 1 else base * Power(base, n - 1)
  }

  /** The number as n base-64 digits, and back. */
  function Digits(x: nat, n: nat): (s: string)
    ensures |s| == n && AllUrl64(s)
    decreases n
  {
    if n == 0 then "" else Digits(x / 64, n - 1) + [Digit(x % 64)]
  }

  function Bits(s: string): nat
    requires AllUrl64(s)
  {
    if s == "" then 0 else Bits(s[..|s| - 1]) * 64 + Value(s[|s| - 1])
  }

  /** The bytes as a number, and back. */
  function Number(b: seq<byte>): nat {
    if b == [] then 0 else Number(b[..|b| - 1]) * 256 + b[|b| - 1] as int
  }

  function Bytes(x: nat, n: nat): (b: seq<byte>)
    ensures |b| == n
    decreases n
  {
    if n == 0 then [] else Bytes(x / 256, n - 1) + [(x % 256) as byte]
  }

  /** Padding bits: m bytes fill m + 1 digits up to a multiple of six bits. */
  function Shift(m: nat): nat {
    if m == 1 then 16 else if m == 2 then 4 else 1
  }

  function Encode(b: seq<byte>): (s: string)
    ensures AllUrl64(s)
  {
    if b == [] then ""
    else
      var m := if |b| < 3 then |b| else 3;
      Digits(Number(b[..m]) * Shift(m), m + 1) + Encode(b[m..])
  }

  function Decode(s: string): seq<byte>
    requires AllUrl64(s)
  {
    if |s| < 2 then []
    else
      var k := if |s| < 4 then |s| else 4;
      Bytes(Bits(s[..k]) / Shift(k - 1), k - 1) + Decode(s[k..])
  }

  lemma {:induction false} BitsDigits(x: nat, n: nat)
    requires x < Power(64, n)
    ensures Bits(Digits(x, n)) == x
    decreases n
  {
    if n > 0 {
      BitsDigits(x / 64, n - 1);
      var s := Digits(x, n);
      assert s[..n - 1] == Digits(x / 64, n - 1);
    }
  }

  lemma {:induction false} BytesNumber(b: seq<byte>)
    ensures Number(b) < Power(256, |b|)
    ensures Bytes(Number(b), |b|) == b
  {
    if b != [] {
      BytesNumber(b[..|b| - 1]);
      assert b == b[..|b| - 1] + [b[|b| - 1]];
    }
  }

  lemma {:induction false} ChunkFits(m: nat, x: nat)
    requires 1 <= m <= 3 && x < Power(256, m)
    ensures x * Shift(m) < Power(64, m + 1)
  {
    assert Power(256, 1) == 256 && Power(256, 2) == 65536 && Power(256, 3) == 16777216;
    assert Power(64, 2) == 4096 && Power(64, 3) == 262144 && Power(64, 4) == 16777216;
  }

  lemma {:induction false} DecodeChunk(b: seq<byte>, rest: string)
    requires 1 <= |b| <= 3 && AllUrl64(rest) && (|b| < 3 ==> rest == "")
    ensures Decode(Digits(Number(b) * Shift(|b|), |b| + 1) + rest) == b + Decode(rest)
  {
    var m, n := |b|, Number(b);
    BytesNumber(b);
    ChunkFits(m, n);
    var shifted := n * Shift(m);
    var head := Digits(shifted, m + 1);
    assert Bits(head) == shifted by { BitsDigits(shifted, m + 1); }
    assert shifted / Shift(m) == n by { ShiftBack(m, n); }
    FirstChunk(head, rest);
  }

  lemma {:induction false} ShiftBack(m: nat, n: nat)
    ensures n * Shift(m) / Shift(m) == n
  {
    if m == 1 { assert n * 16 / 16 == n; } else if m == 2 { assert n * 4 / 4 == n; }
  }

  lemma {:induction false} FirstChunk(head: string, rest: string)
    requires 2 <= |head| <= 4 && (|head| < 4 ==> rest == "") && AllUrl64(head) && AllUrl64(rest)
    ensures AllUrl64(head + rest)
    ensures Decode(head + rest) == Bytes(Bits(head) / Shift(|head| - 1), |head| - 1) + Decode(rest)
  {
    var s := head + rest;
    assert s[..|head|] == head && s[|head|..] == rest;
  }

  /** Nothing is lost in the encoding. */
  lemma {:induction false} DecodeEncode(b: seq<byte>)
    ensures Decode(Encode(b)) == b
  {
    if b != [] {
      var m := if |b| < 3 then |b| else 3;
      DecodeChunk(b[..m], Encode(b[m..]));
      DecodeEncode(b[m..]);
      assert b == b[..m] + b[m..];
    }
  }

  lemma EncodeInjective(a: seq<byte>, b: seq<byte>)
    requires Encode(a) == Encode(b)
    ensures a == b
  {
    DecodeEncode(a);
    DecodeEncode(b);
  }

  // ---------- graph identities ----------

  function Dashed(s: string): (r: string)
    ensures |r| == |s| && forall i :: 0 <= i < |s| ==> r[i] == if s[i] == '_' then '-' else s[i]
  {
    seq(|s|, i requires 0 <= i < |s| => if s[i] == '_' then '-' else s[i])
  }

  function PlainKind(kind: string): string { Dashed(Lower(Trim(kind))) }

  /** The names each canonical kind is known under. */
  function CanonicalKind(k: string): string {
    if k in {"storageclasses", "class", "classes"} then "storageclass"
    else if k in {"persistentvolumeclaim", "persistentvolumeclaims", "claim", "claims"} then "pvc"
    else if k in {"persistentvolume", "persistentvolumes", "volume", "volumes"} then "pv"
    else if k in {"volumeattachment", "volumeattachments", "attachment", "attachments"} then "volumeattachment"
    else if k in {"volumesnapshot", "volumesnapshots", "snapshot", "snapshots"} then "volumesnapshot"
    else if k in {"drivers", "csi-driver", "csidriver"} then "csidriver"
    else if k == "pods" then "pod"
    else if k in {"workloads", "workload-owner"} then "workload"
    else if k == "nodes" then "node"
    else if k in {"pools", "cephblockpool"} then "ceph-block-pool"
    else if k in {"filesystems", "cephfilesystem"} then "ceph-filesystem"
    else if k in {"rbd-images", "ceph-rbd-image"} then "rbd-image"
    else if k in {"cephfs-subvolume", "cephfs-subvolumes"} then "cephfs-subvolume"
    else if k in {"osds", "ceph-osd"} then "osd"
    else if k in {"mirroring", "cephrbdmirror"} then "ceph-rbd-mirror"
    else if k in {"clusters", "cephcluster"} then "ceph-cluster"
    else if k in {"storageoperations", "operation"} then "storage-operation"
    else k
  }

  function NormalizeKind(kind: string): string { CanonicalKind(PlainKind(kind)) }

  function GraphID(kind: string, provider: seq<byte>, namespace: seq<byte>, name: seq<byte>): string {
    "v1:" + NormalizeKind(kind) + [':'] + Encode(provider) + [':'] + Encode(namespace) + [':'] + Encode(name)
  }

  /** Two resources share an ID exactly when kind (up to its aliases), provider, namespace and name
      agree, whatever delimiters their names contain. */
  lemma GraphIDInjective(k: string, p: seq<byte>, ns: seq<byte>, n: seq<byte>,
                         k': string, p': seq<byte>, ns': seq<byte>, n': seq<byte>)
    ensures GraphID(k, p, ns, n) == GraphID(k', p', ns', n') <==>
      NormalizeKind(k) == NormalizeKind(k') && p == p' && ns == ns' && n == n'
  {
    if GraphID(k, p, ns, n) == GraphID(k', p', ns', n') {
      var a1, b1 := "v1:" + NormalizeKind(k), "v1:" + NormalizeKind(k');
      var a2, b2 := a1 + [':'] + Encode(p), b1 + [':'] + Encode(p');
      var a3, b3 := a2 + [':'] + Encode(ns), b2 + [':'] + Encode(ns');
      LastSeparatorUnique(a3, Encode(n), b3, Encode(n'), ':');
      LastSeparatorUnique(a2, Encode(ns), b2, Encode(ns'), ':');
      LastSeparatorUnique(a1, Encode(p), b1, Encode(p'), ':');
      EncodeInjective(n, n');
      EncodeInjective(ns, ns');
      EncodeInjective(p, p');
      assert a1[3..] == NormalizeKind(k) && b1[3..] == NormalizeKind(k');
    }
  }

  // ---------- generic provider IDs ----------

  predicate Sluggish(s: string) { forall i :: 0 <= i < |s| ==> Alnum(s[i]) || s[i] == '-' }

  /** Letters and digits kept, everything between them squeezed to one dash. */
  function Slug(s: string): (r: string)
    ensures Sluggish(r)
  {
    if s == "" then ""
    else
      var b, c := Slug(s[..|s| - 1]), s[|s| - 1];
      if Alnum(c) then b + [c]
      else if b != "" && b[|b| - 1] == '-' then b
      else b + ['-']
  }

  function DropLeadingDashes(s: string): (r: string)
    ensures Sluggish(s) ==> Sluggish(r)
    ensures r != "" ==> r[0] != '-'
  {
    if s == "" || s[0] != '-' then s else DropLeadingDashes(s[1..])
  }

  function DropTrailingDashes(s: string): (r: string)
    ensures r <= s && (r != "" ==> r[|r| - 1] != '-')
    ensures s != "" && s[0] != '-' ==> r != "" && r[0] == s[0]
  {
    if s == "" || s[|s| - 1] != '-' then s else DropTrailingDashes(s[..|s| - 1])
  }

  function SlugBase(driver: string): string {
    var base := DropTrailingDashes(DropLeadingDashes(Slug(Lower(driver))));
    var named := if base == "" then "driver" else base;
    if |named| > 110 then DropTrailingDashes(named[..110]) else named
  }

  /** The letters and digits of a text, in order. */
  function Kept(s: string): string {
    if s == "" then "" else Kept(s[..|s| - 1]) + if Alnum(s[|s| - 1]) then [s[|s| - 1]] else ""
  }

  /** No two dashes stand next to each other. */
  predicate Squeezed(s: string) { forall i :: 0 <= i < |s| - 1 ==> s[i] != '-' || s[i + 1] != '-' }

  lemma {:induction false} KeptConcat(a: string, b: string)
    ensures Kept(a + b) == Kept(a) + Kept(b)
    decreases |b|
  {
    if b == "" {
      assert a + b == a;
    } else {
      KeptConcat(a, b[..|b| - 1]);
      assert (a + b)[..|a + b| - 1] == a + b[..|b| - 1];
    }
  }

  lemma {:induction false} SlugKeeps(s: string)
    ensures Kept(Slug(s)) == Kept(s) && Squeezed(Slug(s))
  {
    if s != "" {
      SlugKeeps(s[..|s| - 1]);
      KeptNext(Slug(s[..|s| - 1]), s[|s| - 1]);
      KeptNext(Slug(s[..|s| - 1]), '-');
    }
  }

  lemma KeptNext(s: string, c: char)
    ensures Kept(s + [c]) == Kept(s) + if Alnum(c) then [c] else ""
  {
    assert (s + [c])[..|s|] == s;
  }

  lemma {:induction false} LeadingDashesKeep(s: string)
    requires Squeezed(s)
    ensures Kept(DropLeadingDashes(s)) == Kept(s) && Squeezed(DropLeadingDashes(s))
  {
    if s != "" && s[0] == '-' {
      assert s == "-" + s[1..] && "-"[..0] == "";
      KeptConcat("-", s[1..]);
      LeadingDashesKeep(s[1..]);
    }
  }

  lemma {:induction false} TrailingDashesKeep(s: string)
    requires Squeezed(s)
    ensures var r := DropTrailingDashes(s); Kept(r) == Kept(s) && Squeezed(r) && |r| >= |s| - 1
  {
    if s != "" && s[|s| - 1] == '-' { TrailingDashesKeep(s[..|s| - 1]); }
  }

  lemma {:induction false} NothingKept(s: string)
    requires Sluggish(s) && (s != "" ==> s[0] != '-')
    ensures Kept(s) == "" <==> s == ""
  {
    if s != "" {
      assert s == [s[0]] + s[1..] && [s[0]][..0] == "";
      KeptConcat([s[0]], s[1..]);
    }
  }

  /** The name in the id has the driver's letters and digits in their order, as many as fit into 110
      characters, and single dashes between them; a driver without any is called "driver". */
  lemma SlugBaseExactly(driver: string)
    ensures var kept, b := Kept(Lower(driver)), SlugBase(driver);
      && (kept == "" ==> b == "driver")
      && (kept != "" ==> Squeezed(b) && Kept(b) <= kept && (Kept(b) == kept || 109 <= |b| <= 110))
  {
    var slug := Slug(Lower(driver));
    SlugKeeps(Lower(driver));
    LeadingDashesKeep(slug);
    var inner := DropLeadingDashes(slug);
    TrailingDashesKeep(inner);
    var base := DropTrailingDashes(inner);
    NothingKept(base);
    if |base| > 110 {
      assert base == base[..110] + base[110..];
      KeptConcat(base[..110], base[110..]);
      TrailingDashesKeep(base[..110]);
    }
  }

  predicate HexDigest(h: string) { |h| == 10 && forall i :: 0 <= i < 10 ==> '0' <= h[i] <= '9' || 'a' <= h[i] <= 'f' }

  method GenericProviderID(driver: string, digest: string) returns (id: string)
    ensures id == "csi-" + SlugBase(driver) + "-" + digest
  {
    var lowered := Lower(driver);
    var b, lastDash := "", false;
    for i := 0 to |lowered|
      invariant b == Slug(lowered[..i])
      invariant lastDash <==> b != "" && b[|b| - 1] == '-'
    {
      assert lowered[..i + 1][..i] == lowered[..i];
      var r := lowered[i];
      if Alnum(r) {
        b := b + [r];
        lastDash := false;
      } else if !lastDash {
        b := b + ['-'];
        lastDash := true;
      }
    }
    assert lowered[..|lowered|] == lowered;
    var base := DropTrailingDashes(DropLeadingDashes(b));
    if base == "" { base := "driver"; }
    if |base| > 110 { base := DropTrailingDashes(base[..110]); }
    id := "csi-" + base + "-" + digest;
  }

  lemma SlugBaseShape(driver: string)
    ensures var b := SlugBase(driver);
      Sluggish(b) && 1 <= |b| <= 110 && Alnum(b[0]) && Alnum(b[|b| - 1])
  {
    var inner := DropLeadingDashes(Slug(Lower(driver)));
    var base := DropTrailingDashes(inner);
    assert Sluggish(base);
    var named := if base == "" then "driver" else base;
    assert Sluggish(named) && named[0] != '-';
    if |named| > 110 {
      var cut := named[..110];
      assert Sluggish(cut) && cut[0] == named[0];
    }
  }

  lemma GenericProviderIDIsDns(driver: string, digest: string)
    requires HexDigest(digest)
    ensures var id := "csi-" + SlugBase(driver) + "-" + digest; |id| <= 125 && IsDns1123(id) && '.' !in id
  {
    var b := SlugBase(driver);
    SlugBaseShape(driver);
    var head := "csi-" + b;
    assert Sluggish("csi-") && Sluggish("-");
    SluggishConcat("csi-", b);
    SluggishConcat(head, "-");
    SluggishConcat(head + "-", digest);
    var id := head + "-" + digest;
    assert id[0] == 'c' && id[|id| - 1] == digest[9];
  }

  lemma SluggishConcat(a: string, b: string)
    requires Sluggish(a) && Sluggish(b)
    ensures Sluggish(a + b)
  {}

  /** Every driver gets a provider ID of at most 125 characters that policy validation accepts. */
  lemma GenericProviderIDAccepted(driver: string, digest: string, id: string)
    requires HexDigest(digest) && id == "csi-" + SlugBase(driver) + "-" + digest
    ensures |id| <= 125
    ensures Policies.Valid(Policies.StoragePolicy(true, true, Some([id]), false, false, false, false))
  {
    GenericProviderIDIsDns(driver, digest);
    SingleNameAccepted(id);
  }

  lemma SingleNameStays(id: string)
    requires IsDns1123(id)
    ensures Policies.IdsOf(Policies.Normalize(Policies.StoragePolicy(true, true, Some([id]), false, false, false, false))) == [id]
  {
    DnsIsCanonical(id);
    CanonicalListFixed([id]);
  }

  lemma OneNameIsValid(p: Policies.StoragePolicy, id: string)
    requires p.accept && p.portable && !p.scDelete && !p.poolDelete
    requires IsDns1123(id) && Policies.IdsOf(Policies.Normalize(p)) == [id]
    ensures Policies.Valid(p)
  {
    Policies.ValidMeaning(p);
  }

  lemma SingleNameAccepted(id: string)
    requires IsDns1123(id)
    ensures Policies.Valid(Policies.StoragePolicy(true, true, Some([id]), false, false, false, false))
  {
    var p := Policies.StoragePolicy(true, true, Some([id]), false, false, false, false);
    SingleNameStays(id);
    OneNameIsValid(p, id);
  }
}
