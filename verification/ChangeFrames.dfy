/** Frames of the SSE change broker and the two ways a change enters `pending`
    (apps/api/internal/watch/hub.go). */
module ChangeFrames {
  import opened Common

  const CLIENT_BUFFER: nat := 16
  const ALL_KEY: string := "__all__"
  const NUL: char := '\0'

  datatype Frame = Frame(
    version: nat, cluster: string, eventType: string, providerID: string,
    namespace: string, kind: string, keys: seq<string>, name: string, entity: Option<string>)

  /** What Go's map lookup yields for a missing key. */
  const ZERO_FRAME := Frame(0, "", "", "", "", "", [], "", None)

  /** The frame a client gets when its queue was dropped. */
  function ResyncFrame(cluster: string): Frame {
    ZERO_FRAME.(version := 2, cluster := cluster, keys := [ALL_KEY])
  }

  /** A call of markScoped or of PublishHighlandChange. */
  datatype Change =
    | Scoped(providerID: string, namespace: string, kind: string, name: string, keys: seq<string>)
    | Highland(eventType: string, keys: seq<string>, resource: string, name: string, entity: Option<string>)

  function JoinNul(parts: seq<string>): string
    requires parts != []
  {
    if |parts| == 1 then parts[0] else parts[0] + [NUL] + JoinNul(parts[1..])
  }

  function ScopeKey(c: Change): string {
    match c
    case Scoped(p, ns, k, _, _) => JoinNul([p, ns, k])
    case Highland(e, _, r, n, _) => JoinNul(["highland", e, r, n])
  }

  /** The keys of `add` that are new and non-empty, appended in order. */
  function MergeKeys(have: seq<string>, add: seq<string>): (r: seq<string>)
    ensures have <= r
    ensures forall k :: k in r <==> k in have || (k in add && k != "")
    ensures Distinct(have) ==> Distinct(r)
    decreases |add|
  {
    if add == [] then have
    else MergeKeys(if add[0] in have || add[0] == "" then have else have + [add[0]], add[1..])
  }

  function FrameAfter(pending: map<string, Frame>, cluster: string, c: Change): Frame {
    match c
    case Scoped(p, ns, k, n, keys) =>
      var fr := if ScopeKey(c) in pending then pending[ScopeKey(c)] else ZERO_FRAME;
      fr.(version := 2, cluster := cluster, providerID := p, namespace := ns, kind := k, name := n,
          keys := MergeKeys(fr.keys, keys))
    case Highland(e, keys, r, n, entity) =>
      Frame(2, cluster, e, "", "", r, keys, n, entity)
  }

  /** `pending` after a change was recorded under the hub's lock. */
  function Recorded(pending: map<string, Frame>, cluster: string, c: Change): map<string, Frame> {
    pending[ScopeKey(c) := FrameAfter(pending, cluster, c)]
  }

  /** The frame names the scope of the change. */
  predicate SameScope(fr: Frame, c: Change) {
    fr.version == 2 &&
    match c
    case Scoped(p, ns, k, _, _) =>
      fr.eventType == "" && fr.providerID == p && fr.namespace == ns && fr.kind == k
    case Highland(e, _, r, n, _) =>
      fr.eventType == e && fr.kind == r && fr.name == n
  }

  /** A client that receives the frame refetches everything the change touched. */
  predicate Covers(fr: Frame, c: Change) {
    ALL_KEY in fr.keys ||
    (SameScope(fr, c) && forall k :: k in c.keys && k != "" ==> k in fr.keys)
  }

  /** What a client is told of the change: its scope, its name, the cluster, and, for a publish, exactly its
      keys and its entity; a mark adds its keys to those there are. */
  predicate Carries(fr: Frame, c: Change, cluster: string) {
    && fr.version == 2 && fr.cluster == cluster && fr.name == c.name
    && match c
       case Scoped(p, ns, k, _, keys) =>
         && fr.eventType == "" && fr.entity == None && fr.providerID == p && fr.namespace == ns && fr.kind == k
         && forall key :: key in keys && key != "" ==> key in fr.keys
       case Highland(e, keys, r, _, entity) =>
         && fr.eventType == e && fr.kind == r && fr.providerID == "" && fr.namespace == ""
         && fr.keys == keys && fr.entity == entity
  }

  predicate NulFree(s: string) { NUL !in s }

  /** Kubernetes names and Highland's event types never contain a NUL. */
  predicate Clean(c: Change) {
    match c
    case Scoped(p, ns, k, _, _) => NulFree(p) && NulFree(ns) && NulFree(k)
    case Highland(e, _, r, n, _) => NulFree(e) && NulFree(r) && NulFree(n)
  }

  predicate SameScopeChange(c: Change, d: Change) {
    match (c, d)
    case (Scoped(p, ns, k, _, _), Scoped(p', ns', k', _, _)) => p == p' && ns == ns' && k == k'
    case (Highland(e, _, r, n, _), Highland(e', _, r', n', _)) => e == e' && r == r' && n == n'
    case _ => false
  }

  /** d does not take keys away that c put into the frame of its scope. */
  predicate Compatible(c: Change, d: Change) {
    d.Highland? && SameScopeChange(c, d) ==>
      ALL_KEY in d.keys || forall k :: k in c.keys && k != "" ==> k in d.keys
  }

  // ---------- scope keys are injective ----------

  /** A NUL-free head and what follows the first separator are determined by the joined string. */
  lemma {:induction false} HeadUnique(a: string, x: string, b: string, y: string)
    requires NulFree(a) && NulFree(b)
    requires a + [NUL] + x == b + [NUL] + y
    ensures a == b && x == y
  {
    var s := a + [NUL] + x;
    assert s[|a|] == NUL;
    assert (b + [NUL] + y)[|b|] == NUL;
    assert forall i :: 0 <= i < |a| ==> s[i] == a[i];
    assert forall i :: 0 <= i < |b| ==> (b + [NUL] + y)[i] == b[i];
    assert |a| == |b|;
    assert a == s[..|a|] && b == s[..|b|];
    assert x == s[|a| + 1..] && y == s[|b| + 1..];
  }

  /** A joined string contains a NUL exactly when there was more than one part. */
  lemma NulCountsParts(a: seq<string>)
    requires a != [] && forall p :: p in a ==> NulFree(p)
    ensures NUL in JoinNul(a) <==> |a| > 1
  {
    if |a| > 1 {
      assert JoinNul(a)[|a[0]|] == NUL;
    } else {
      assert a[0] in a;
    }
  }

  /** Joining NUL-free parts with NUL loses nothing, whatever the number of parts. */
  lemma {:induction false} JoinNulInjective(a: seq<string>, b: seq<string>)
    requires a != [] && b != []
    requires forall p :: p in a ==> NulFree(p)
    requires forall p :: p in b ==> NulFree(p)
    requires JoinNul(a) == JoinNul(b)
    ensures a == b
  {
    NulCountsParts(a);
    NulCountsParts(b);
    if |a| > 1 {
      HeadUnique(a[0], JoinNul(a[1..]), b[0], JoinNul(b[1..]));
      JoinNulInjective(a[1..], b[1..]);
      assert a == [a[0]] + a[1..] && b == [b[0]] + b[1..];
    }
  }

  /** Two clean changes share a slot of `pending` exactly when they have the same scope. */
  lemma ScopeKeyExact(c: Change, d: Change)
    requires Clean(c) && Clean(d)
    ensures ScopeKey(c) == ScopeKey(d) <==> SameScopeChange(c, d)
  {
    if ScopeKey(c) == ScopeKey(d) {
      JoinNulInjective(Parts(c), Parts(d));
    }
  }

  function Parts(c: Change): (r: seq<string>)
    ensures r != [] && JoinNul(r) == ScopeKey(c)
    ensures Clean(c) ==> forall p :: p in r ==> NulFree(p)
  {
    match c
    case Scoped(p, ns, k, _, _) => [p, ns, k]
    case Highland(e, _, r, n, _) => ["highland", e, r, n]
  }

  /** With a NUL in a name two scopes share a slot, and the later mark erases the earlier one. */
  lemma NulCollisionLosesScope()
    ensures exists c: Change, d: Change ::
      !Clean(c) && c.Scoped? && d.Scoped? && !SameScopeChange(c, d) &&
      var pending := Recorded(Recorded(map[], "local", c), "local", d);
      forall k :: k in pending ==> !Covers(pending[k], c)
  {
    var c := Scoped("a\0b", "c", "d", "x", ["volumes"]);
    var d := Scoped("a", "b\0c", "d", "y", []);
    assert JoinNul(["c", "d"]) == "c" + [NUL] + "d";
    assert JoinNul(["b\0c", "d"]) == "b\0c" + [NUL] + "d";
    assert ScopeKey(c) == "a\0b" + [NUL] + ("c" + [NUL] + "d") == "a\0b\0c\0d";
    assert ScopeKey(d) == "a" + [NUL] + ("b\0c" + [NUL] + "d") == "a\0b\0c\0d";
    var pending := Recorded(Recorded(map[], "local", c), "local", d);
    assert pending.Keys == {ScopeKey(d)};
    assert pending[ScopeKey(d)].providerID == "a" && "a" != "a\0b" by { assert |"a"| != |"a\0b"|; }
    assert ALL_KEY !in pending[ScopeKey(d)].keys by { assert ALL_KEY !in c.keys by { assert |"volumes"| == |ALL_KEY|; assert "volumes"[0] != ALL_KEY[0]; } }
    assert "a\0b"[1] == NUL;
    assert !Clean(c);
  }

  // ---------- what pending keeps ----------

  /** Each slot of `pending` holds a frame of the scope its key names. */
  ghost predicate PendingOK(pending: map<string, Frame>) {
    forall c :: Clean(c) && ScopeKey(c) in pending ==> SameScope(pending[ScopeKey(c)], c)
  }

  predicate PendingCovers(pending: map<string, Frame>, c: Change) {
    ScopeKey(c) in pending && Covers(pending[ScopeKey(c)], c)
  }

  lemma RecordedOK(pending: map<string, Frame>, cluster: string, d: Change)
    requires PendingOK(pending) && Clean(d)
    ensures PendingOK(Recorded(pending, cluster, d))
    ensures PendingCovers(Recorded(pending, cluster, d), d)
  {
    forall c | Clean(c) && ScopeKey(c) in Recorded(pending, cluster, d)
      ensures SameScope(Recorded(pending, cluster, d)[ScopeKey(c)], c)
    {
      ScopeKeyExact(c, d);
    }
  }

  /** Each slot of a storage scope has no entity and no key twice. */
  ghost predicate PendingPlain(pending: map<string, Frame>) {
    forall c :: Clean(c) && c.Scoped? && ScopeKey(c) in pending ==>
      pending[ScopeKey(c)].entity == None && Distinct(pending[ScopeKey(c)].keys)
  }

  /** After a record the slot tells the change, keeps the keys that marks put there before, and no other slot
      has changed. */
  lemma RecordedCarries(pending: map<string, Frame>, cluster: string, c: Change)
    requires PendingOK(pending) && PendingPlain(pending) && Clean(c)
    ensures var after := Recorded(pending, cluster, c);
      && PendingPlain(after)
      && ScopeKey(c) in after && Carries(after[ScopeKey(c)], c, cluster)
      && (forall k :: k != ScopeKey(c) ==> (k in after <==> k in pending) && (k in pending ==> after[k] == pending[k]))
      && (c.Scoped? ==> forall key :: key in after[ScopeKey(c)].keys <==>
            (key in c.keys && key != "") || (ScopeKey(c) in pending && key in pending[ScopeKey(c)].keys))
  {
    var after := Recorded(pending, cluster, c);
    forall d | Clean(d) && d.Scoped? && ScopeKey(d) in after
      ensures after[ScopeKey(d)].entity == None && Distinct(after[ScopeKey(d)].keys)
    {
      ScopeKeyExact(c, d);
    }
  }

  /** A recorded change stays covered by its slot until the flush takes it, whatever clean change is
      recorded next, exactly when that change is compatible: only a later publish of the same
      Highland scope that leaves out a key can lose it. */
  lemma SurvivesExactlyWhenCompatible(pending: map<string, Frame>, cluster: string, c: Change, d: Change)
    requires PendingOK(pending) && Clean(c) && Clean(d) && PendingCovers(pending, c)
    ensures Compatible(c, d) ==> PendingCovers(Recorded(pending, cluster, d), c)
    ensures PendingCovers(Recorded(pending, cluster, d), c) ==> Compatible(c, d)
  {
    ScopeKeyExact(c, d);
  }
}
