/** Storage policies, the installed permission ceiling and the broadening test
    (apps/api/internal/policy/policy.go and http.go). */
module StoragePolicies {
  import opened Common
  import opened ProviderNames

  /** `ids` is None for Go's nil slice. */
  datatype StoragePolicy = StoragePolicy(
    accept: bool, portable: bool, ids: Option<seq<string>>, longhorn: bool, rook: bool,
    scDelete: bool, poolDelete: bool)

  datatype Ceiling = Ceiling(portable: bool, longhorn: bool, rook: bool, scDelete: bool, poolDelete: bool)

  const NO_WRITES := StoragePolicy(false, false, None, false, false, false, false)
  const WILDCARD: string := "*"

  function IdsOf(p: StoragePolicy): seq<string> {
    if p.ids.Some? then p.ids.value else []
  }

  function Normalize(p: StoragePolicy): StoragePolicy {
    if !p.portable then p.(ids := Some([]))
    else p.(ids := Some(CanonicalList(if p.ids.None? then [WILDCARD] else p.ids.value)))
  }

  predicate IsNormal(p: StoragePolicy) {
    p.ids.Some? && IsCanonicalList(p.ids.value) && (!p.portable ==> p.ids.value == [])
  }

  lemma NormalizeIsNormal(p: StoragePolicy)
    ensures IsNormal(Normalize(p))
  {
    if p.portable { CanonicalListIsCanonical(if p.ids.None? then [WILDCARD] else p.ids.value); }
  }

  lemma NormalFixed(p: StoragePolicy)
    requires IsNormal(p)
    ensures Normalize(p) == p
  {
    CanonicalListFixed(p.ids.value);
  }

  lemma NormalizeIdempotent(p: StoragePolicy)
    ensures Normalize(Normalize(p)) == Normalize(p)
  {
    NormalizeIsNormal(p);
    NormalFixed(Normalize(p));
  }

  // ---------- validation ----------

  datatype PolicyError =
    | IdsWithoutWrites | WritesWithoutAccept | ClassDeleteWithoutRook | PoolDeleteWithoutRook
    | NoProviders | TooManyProviders | WildcardNotAlone | BadProvider(index: nat)

  /** The loop over the provider IDs, from the i-th on. */
  function CheckIds(ids: seq<string>, i: nat): Option<PolicyError>
    requires i <= |ids|
    decreases |ids| - i
  {
    if i == |ids| then None
    else if ids[i] == WILDCARD then
      if |ids| != 1 then Some(WildcardNotAlone) else CheckIds(ids, i + 1)
    else if !IsDns1123(ids[i]) then Some(BadProvider(i))
    else CheckIds(ids, i + 1)
  }

  function Validate(p: StoragePolicy): Option<PolicyError> {
    if !p.portable && IdsOf(p) != [] then Some(IdsWithoutWrites)
    else
      var n := Normalize(p);
      if !n.accept && (n.portable || n.longhorn || n.rook || n.scDelete || n.poolDelete) then Some(WritesWithoutAccept)
      else if n.scDelete && !n.rook then Some(ClassDeleteWithoutRook)
      else if n.poolDelete && !n.rook then Some(PoolDeleteWithoutRook)
      else if n.portable && IdsOf(n) == [] then Some(NoProviders)
      else if |IdsOf(n)| > 64 then Some(TooManyProviders)
      else CheckIds(IdsOf(n), 0)
  }

  predicate Valid(p: StoragePolicy) { Validate(p) == None }

  lemma {:induction false} CheckIdsMeaning(ids: seq<string>, i: nat)
    requires i <= |ids|
    ensures CheckIds(ids, i) == None <==>
      forall j :: i <= j < |ids| ==> IsDns1123(ids[j]) || (ids[j] == WILDCARD && |ids| == 1)
    decreases |ids| - i
  {
    if i < |ids| {
      if IsDns1123(ids[i]) { DnsIsCanonical(ids[i]); }
      CheckIdsMeaning(ids, i + 1);
    }
  }

  predicate FlagsCoherent(p: StoragePolicy) {
    && (p.portable || p.longhorn || p.rook || p.scDelete || p.poolDelete ==> p.accept)
    && (p.scDelete || p.poolDelete ==> p.rook)
  }

  /** Validation in plain words: coherent flags, and either no list, the wildcard alone, or between 1
      and 64 DNS-1123 names. */
  lemma ValidMeaning(p: StoragePolicy)
    ensures Valid(p) <==>
      FlagsCoherent(p) &&
      if !p.portable then IdsOf(p) == []
      else
        var ids := IdsOf(Normalize(p));
        ids == [WILDCARD] || (1 <= |ids| <= 64 && forall j :: 0 <= j < |ids| ==> IsDns1123(ids[j]))
  {
    CheckIdsMeaning(IdsOf(Normalize(p)), 0);
  }

  /** The static policy that the server's settings give. */
  function StaticPolicy(writes: bool, rook: bool, classDelete: bool, poolDelete: bool): StoragePolicy {
    var ceph := writes && rook;
    StoragePolicy(writes, writes, None, writes, ceph, ceph && classDelete, ceph && poolDelete)
  }

  lemma StaticPolicyIsValid(writes: bool, rook: bool, classDelete: bool, poolDelete: bool)
    ensures Valid(Normalize(StaticPolicy(writes, rook, classDelete, poolDelete)))
  {
    var p := StaticPolicy(writes, rook, classDelete, poolDelete);
    NormalizeIdempotent(p);
    CanonicalListFixed([WILDCARD]);
    ValidMeaning(Normalize(p));
  }

  // ---------- the order ----------

  function Allows(p: StoragePolicy, id: string): bool {
    var n := Normalize(p);
    n.accept && n.portable && id != "" && (WILDCARD in IdsOf(n) || id in IdsOf(n))
  }

  predicate FlagsLeq(p: StoragePolicy, q: StoragePolicy) {
    (p.accept ==> q.accept) && (p.portable ==> q.portable) && (p.longhorn ==> q.longhorn) &&
    (p.rook ==> q.rook) && (p.scDelete ==> q.scDelete) && (p.poolDelete ==> q.poolDelete)
  }

  /** q permits everything p permits. */
  ghost predicate Leq(p: StoragePolicy, q: StoragePolicy) {
    FlagsLeq(p, q) && forall id :: Allows(p, id) ==> Allows(q, id)
  }

  predicate WithinCeiling(p: StoragePolicy, c: Ceiling) {
    (p.portable ==> c.portable) && (p.longhorn ==> c.longhorn) && (p.rook ==> c.rook) &&
    (p.scDelete ==> c.scDelete) && (p.poolDelete ==> c.poolDelete)
  }

  predicate CeilingLeq(c: Ceiling, d: Ceiling) {
    (c.portable ==> d.portable) && (c.longhorn ==> d.longhorn) && (c.rook ==> d.rook) &&
    (c.scDelete ==> d.scDelete) && (c.poolDelete ==> d.poolDelete)
  }

  /** On valid policies the order is antisymmetric up to normalization. */
  lemma LeqAntisymmetric(p: StoragePolicy, q: StoragePolicy)
    requires Valid(p) && Valid(q) && Leq(p, q) && Leq(q, p)
    ensures Normalize(p) == Normalize(q)
  {
    ValidMeaning(p);
    ValidMeaning(q);
    NormalizeIsNormal(p);
    NormalizeIsNormal(q);
    if p.portable {
      var s, t := IdsOf(Normalize(p)), IdsOf(Normalize(q));
      WildcardAlone(p);
      WildcardAlone(q);
      assert Allows(p, WILDCARD) <==> Allows(q, WILDCARD);
      forall x ensures x in s <==> x in t {
        assert Allows(p, x) <==> Allows(q, x);
      }
      AscendingUnique(s, t);
    }
  }

  lemma WildcardAlone(p: StoragePolicy)
    requires Valid(p)
    ensures WILDCARD in IdsOf(Normalize(p)) <==> IdsOf(Normalize(p)) == [WILDCARD]
    ensures "" !in IdsOf(Normalize(p))
  {
    ValidMeaning(p);
    var ids := IdsOf(Normalize(p));
    forall j | 0 <= j < |ids| && IsDns1123(ids[j]) ensures ids[j] != WILDCARD && ids[j] != "" {
      DnsIsCanonical(ids[j]);
    }
  }

  // ---------- intersection with the ceiling ----------

  datatype Capability = PortableCap | LonghornCap | RookCap | ClassDeleteCap | PoolDeleteCap

  function CeilingViolations(p: StoragePolicy, c: Ceiling): seq<Capability> {
    (if p.portable && !c.portable then [PortableCap] else [])
    + (if p.longhorn && !c.longhorn then [LonghornCap] else [])
    + (if p.rook && !c.rook then [RookCap] else [])
    + (if p.scDelete && !c.scDelete then [ClassDeleteCap] else [])
    + (if p.poolDelete && !c.poolDelete then [PoolDeleteCap] else [])
  }

  lemma NoViolationsMeansWithin(p: StoragePolicy, c: Ceiling)
    ensures CeilingViolations(p, c) == [] <==> WithinCeiling(p, c)
  {}

  function Intersect(request: StoragePolicy, c: Ceiling): StoragePolicy {
    var r := Normalize(request);
    var portable := r.accept && r.portable && c.portable;
    StoragePolicy(
      r.accept, portable,
      if !portable then Some([]) else if IdsOf(r) == [] then None else Some(IdsOf(r)),
      r.accept && r.longhorn && c.longhorn,
      r.accept && r.rook && c.rook,
      r.accept && r.rook && r.scDelete && c.rook && c.scDelete,
      r.accept && r.rook && r.poolDelete && c.rook && c.poolDelete)
  }

  /** Whatever is requested, even an invalid policy, the result stays within the ceiling. */
  lemma IntersectWithinCeiling(request: StoragePolicy, c: Ceiling)
    ensures WithinCeiling(Intersect(request, c), c) && FlagsLeq(Intersect(request, c), request)
    ensures FlagsCoherent(Intersect(request, c))
  {}

  lemma IntersectIsNormal(request: StoragePolicy, c: Ceiling)
    requires Valid(request)
    ensures IsNormal(Intersect(request, c)) && Valid(Intersect(request, c))
    ensures Intersect(request, c).portable ==> IdsOf(Intersect(request, c)) == IdsOf(Normalize(request))
  {
    ValidMeaning(request);
    NormalizeIsNormal(request);
    NormalFixed(Intersect(request, c));
    ValidMeaning(Intersect(request, c));
  }

  /** Intersect is the greatest lower bound of the request and the ceiling among valid policies. */
  lemma IntersectIsMeet(request: StoragePolicy, c: Ceiling)
    requires Valid(request)
    ensures Valid(Intersect(request, c)) && Leq(Intersect(request, c), request) && WithinCeiling(Intersect(request, c), c)
    ensures forall q :: Valid(q) && Leq(q, request) && WithinCeiling(q, c) ==> Leq(q, Intersect(request, c))
  {
    var e := Intersect(request, c);
    IntersectIsNormal(request, c);
    NormalFixed(e);
    forall q | Valid(q) && Leq(q, request) && WithinCeiling(q, c) ensures Leq(q, e) {
      ValidMeaning(q);
      forall id | Allows(q, id) ensures Allows(e, id) {
        assert Allows(request, id);
      }
    }
  }

  lemma IntersectIdempotent(request: StoragePolicy, c: Ceiling)
    requires Valid(request)
    ensures Intersect(Intersect(request, c), c) == Intersect(request, c)
  {
    IntersectIsNormal(request, c);
    NormalFixed(Intersect(request, c));
    ValidMeaning(Intersect(request, c));
  }

  lemma IntersectMonotone(p: StoragePolicy, q: StoragePolicy, c: Ceiling, d: Ceiling)
    requires Valid(p) && Valid(q) && Leq(p, q) && CeilingLeq(c, d)
    ensures Leq(Intersect(p, c), Intersect(q, d))
  {
    IntersectIsMeet(p, c);
    IntersectIsMeet(q, d);
    var e := Intersect(p, c);
    assert Leq(e, q) by {
      forall id | Allows(e, id) ensures Allows(q, id) { assert Allows(p, id); }
    }
  }

  /** With no ceiling violation the effective policy is the normalized request, and only then. */
  lemma IntersectExact(request: StoragePolicy, c: Ceiling)
    requires Valid(request)
    ensures Intersect(request, c) == Normalize(request) <==> CeilingViolations(request, c) == []
  {
    ValidMeaning(request);
    NoViolationsMeansWithin(request, c);
  }

  // ---------- the broadening test ----------

  predicate ScopeBroadens(current: seq<string>, requested: seq<string>) {
    if |current| == 1 && current[0] == WILDCARD then false
    else if |requested| == 1 && requested[0] == WILDCARD then !(|current| == 1 && current[0] == WILDCARD)
    else
      var existing := set id | id in current;
      exists id :: id in requested && id !in existing
  }

  method ProviderScopeBroadens(current: seq<string>, requested: seq<string>) returns (r: bool)
    ensures r == ScopeBroadens(current, requested)
  {
    if |current| == 1 && current[0] == WILDCARD { return false; }
    if |requested| == 1 && requested[0] == WILDCARD { return !(|current| == 1 && current[0] == WILDCARD); }
    var existing: set<string> := {};
    for i := 0 to |current|
      invariant existing == set id | id in current[..i]
    {
      assert current[..i + 1] == current[..i] + [current[i]];
      existing := existing + {current[i]};
    }
    assert current[..|current|] == current;
    for i := 0 to |requested|
      invariant forall j :: 0 <= j < i ==> requested[j] in existing
    {
      if requested[i] !in existing { return true; }
    }
    return false;
  }

  predicate Broadens(current: StoragePolicy, requested: StoragePolicy) {
    var c, r := Normalize(current), Normalize(requested);
    (!c.accept && r.accept) || (!c.portable && r.portable) || ScopeBroadens(IdsOf(c), IdsOf(r)) ||
    (!c.longhorn && r.longhorn) || (!c.rook && r.rook) || (!c.scDelete && r.scDelete) ||
    (!c.poolDelete && r.poolDelete)
  }

  /** The test is exact: it fires precisely when the requested policy permits something the current
      one does not, including the wildcard against any list. */
  lemma BroadensExactly(current: StoragePolicy, requested: StoragePolicy)
    requires Valid(current) && Valid(requested)
    ensures Broadens(current, requested) <==> !Leq(requested, current)
  {
    if Leq(requested, current) {
      NotBroader(current, requested);
    } else if FlagsLeq(requested, current) {
      Broader(current, requested);
    }
  }

  lemma NotBroader(current: StoragePolicy, requested: StoragePolicy)
    requires Valid(current) && Valid(requested) && Leq(requested, current)
    ensures !Broadens(current, requested)
  {
    var c, r := IdsOf(Normalize(current)), IdsOf(Normalize(requested));
    ValidMeaning(requested);
    WildcardAlone(current);
    WildcardAlone(requested);
    forall id | id in r ensures id in c || c == [WILDCARD] {
      assert Allows(requested, id);
    }
  }

  lemma Broader(current: StoragePolicy, requested: StoragePolicy)
    requires Valid(current) && Valid(requested) && FlagsLeq(requested, current) && !Leq(requested, current)
    ensures Broadens(current, requested)
  {
    var c, r := IdsOf(Normalize(current)), IdsOf(Normalize(requested));
    WildcardAlone(current);
    WildcardAlone(requested);
    var id :| Allows(requested, id) && !Allows(current, id);
    if r != [WILDCARD] {
      assert id in r && id !in c;
    }
  }

  /** And the newly permitted thing is real: when the flags do not grow, some DNS-1123 provider ID is
      permitted that was not. */
  lemma BroadeningAddsProvider(current: StoragePolicy, requested: StoragePolicy) returns (id: string)
    requires Valid(current) && Valid(requested)
    requires Broadens(current, requested) && FlagsLeq(requested, current)
    ensures IsDns1123(id) && Allows(requested, id) && !Allows(current, id)
  {
    var c, r := IdsOf(Normalize(current)), IdsOf(Normalize(requested));
    ValidMeaning(current);
    ValidMeaning(requested);
    WildcardAlone(current);
    WildcardAlone(requested);
    assert c != [WILDCARD];
    if r == [WILDCARD] {
      id := FreshId(c, 1);
      DnsIsCanonical(id);
    } else {
      id :| id in r && id !in c;
    }
  }
}
