/** Canonical lists of provider IDs: lower-cased, trimmed, without repetition, sorted
    (apps/api/internal/policy/policy.go). Case and space are those of ASCII. */
module ProviderNames {
  import opened Common

  function LowerChar(c: char): char {
    if 'A' <= c <= 'Z' then (c as int + 32) as char else c
  }

  function Lower(s: string): (r: string)
    ensures |r| == |s| && forall i :: 0 <= i < |s| ==> r[i] == LowerChar(s[i])
  {
    seq(|s|, i requires 0 <= i < |s| => LowerChar(s[i]))
  }

  predicate Space(c: char) { c == ' ' || '\t' <= c <= '\r' }

  function TrimLeft(s: string): (r: string)
    ensures |r| <= |s| && (r != "" ==> !Space(r[0]))
    ensures s != "" && !Space(s[0]) ==> r == s
    ensures forall c :: c in r ==> c in s
  {
    if s == "" || !Space(s[0]) then s else TrimLeft(s[1..])
  }

  function TrimRight(s: string): (r: string)
    ensures r <= s && (r != "" ==> !Space(r[|r| - 1]))
    ensures s != "" && !Space(s[|s| - 1]) ==> r == s
  {
    if s == "" || !Space(s[|s| - 1]) then s else TrimRight(s[..|s| - 1])
  }

  function Trim(s: string): string { TrimRight(TrimLeft(s)) }

  function Canonical(s: string): string { Trim(Lower(s)) }

  lemma CanonicalIdempotent(s: string)
    ensures Canonical(Canonical(s)) == Canonical(s)
  {
    var t := Lower(s);
    var u := Trim(t);
    assert forall c :: c in u ==> c in t;
    assert forall c :: c in t ==> LowerChar(c) == c;
    assert forall i :: 0 <= i < |u| ==> u[i] in u;
    assert Lower(u) == u;
    if u != "" { assert u[0] == TrimLeft(t)[0]; }
  }

  // ---------- order ----------

  /** Byte order of strings, as sort.Strings uses it. */
  predicate Below(a: string, b: string) {
    b != "" && (a == "" || a[0] < b[0] || (a[0] == b[0] && Below(a[1..], b[1..])))
  }

  lemma {:induction false} BelowTotal(a: string, b: string)
    ensures a == b || Below(a, b) || Below(b, a)
    ensures !(Below(a, b) && Below(b, a)) && !Below(a, a)
  {
    if a != "" && b != "" && a[0] == b[0] {
      BelowTotal(a[1..], b[1..]);
      assert a == [a[0]] + a[1..] && b == [b[0]] + b[1..];
    }
    if a != "" { BelowTotal(a[1..], a[1..]); }
  }

  lemma {:induction false} BelowTransitive(a: string, b: string, c: string)
    requires Below(a, b) && Below(b, c)
    ensures Below(a, c)
  {
    if a != "" && a[0] == b[0] && b[0] == c[0] { BelowTransitive(a[1..], b[1..], c[1..]); }
  }

  predicate Ascending(s: seq<string>) {
    forall i, j :: 0 <= i < j < |s| ==> Below(s[i], s[j])
  }

  function Insert(x: string, s: seq<string>): (r: seq<string>)
    ensures |r| == |s| + 1 && forall y :: y in r <==> y == x || y in s
  {
    if s == [] || Below(x, s[0]) then [x] + s
    else
      var t := [s[0]] + Insert(x, s[1..]);
      assert s == [s[0]] + s[1..];
      t
  }

  function Sort(s: seq<string>): (r: seq<string>)
    ensures |r| == |s| && forall y :: y in r <==> y in s
  {
    if s == [] then [] else
      var r := Insert(s[|s| - 1], Sort(s[..|s| - 1]));
      assert s == s[..|s| - 1] + [s[|s| - 1]];
      r
  }

  lemma {:induction false} InsertAscending(x: string, s: seq<string>)
    requires Ascending(s) && x !in s
    ensures Ascending(Insert(x, s))
  {
    if s != [] {
      BelowTotal(x, s[0]);
      var r := Insert(x, s);
      if Below(x, s[0]) {
        forall j | 0 < j < |s| ensures Below(x, s[j]) { BelowTransitive(x, s[0], s[j]); }
      } else {
        InsertAscending(x, s[1..]);
        forall j | 0 < j < |r| ensures Below(s[0], r[j]) {
          assert r[j] in Insert(x, s[1..]);
        }
      }
    }
  }

  lemma {:induction false} SortAscending(s: seq<string>)
    requires Distinct(s)
    ensures Ascending(Sort(s))
  {
    if s != [] {
      SortAscending(s[..|s| - 1]);
      InsertAscending(s[|s| - 1], Sort(s[..|s| - 1]));
    }
  }

  /** A list in order is determined by its elements. */
  lemma {:induction false} AscendingUnique(s: seq<string>, t: seq<string>)
    requires Ascending(s) && Ascending(t) && forall x :: x in s <==> x in t
    ensures s == t
  {
    assert t != [] ==> t[0] in t;
    if s != [] {
      assert s[0] in t && t != [];
      assert t[0] in s;
      var i :| 0 <= i < |t| && t[i] == s[0];
      var j :| 0 <= j < |s| && s[j] == t[0];
      BelowTotal(s[0], t[0]);
      assert s[0] == t[0];
      forall x ensures x in s[1..] <==> x in t[1..] {
        if x in s[1..] { TailLacksHead(s); assert x in t; }
        if x in t[1..] { TailLacksHead(t); assert x in s; }
      }
      AscendingUnique(s[1..], t[1..]);
      assert s == [s[0]] + s[1..] && t == [t[0]] + t[1..];
    }
  }

  lemma TailLacksHead(s: seq<string>)
    requires Ascending(s) && s != []
    ensures s[0] !in s[1..]
    ensures forall x :: x in s ==> x == s[0] || x in s[1..]
  {
    BelowTotal(s[0], s[0]);
    assert s == [s[0]] + s[1..];
  }

  // ---------- the canonical list ----------

  /** Canonical forms in order of first appearance, blanks dropped. */
  function Cleaned(ids: seq<string>): (r: seq<string>)
    ensures Distinct(r)
    ensures forall x :: x in r <==> x != "" && exists i :: 0 <= i < |ids| && Canonical(ids[i]) == x
  {
    if ids == [] then [] else
      var before, x := Cleaned(ids[..|ids| - 1]), Canonical(ids[|ids| - 1]);
      assert ids == ids[..|ids| - 1] + [ids[|ids| - 1]];
      if x == "" || x in before then before else before + [x]
  }

  function CanonicalList(ids: seq<string>): seq<string> { Sort(Cleaned(ids)) }

  /** The list a policy carries after normalization. */
  predicate IsCanonicalList(ids: seq<string>) {
    Ascending(ids) && forall x :: x in ids ==> x != "" && Canonical(x) == x
  }

  lemma CanonicalListIsCanonical(ids: seq<string>)
    ensures IsCanonicalList(CanonicalList(ids))
    ensures forall x :: x in CanonicalList(ids) <==> x != "" && exists i :: 0 <= i < |ids| && Canonical(ids[i]) == x
  {
    SortAscending(Cleaned(ids));
    forall x | x in CanonicalList(ids) ensures Canonical(x) == x {
      var i :| 0 <= i < |ids| && Canonical(ids[i]) == x;
      CanonicalIdempotent(ids[i]);
    }
  }

  lemma CanonicalListFixed(ids: seq<string>)
    requires IsCanonicalList(ids)
    ensures CanonicalList(ids) == ids
  {
    CanonicalListIsCanonical(ids);
    forall x ensures x in CanonicalList(ids) <==> x in ids {
      if x in ids { var i :| 0 <= i < |ids| && ids[i] == x; assert Canonical(ids[i]) == x; }
    }
    AscendingUnique(CanonicalList(ids), ids);
  }

  /** The loop of Normalize. */
  method Clean(ids: seq<string>) returns (providers: seq<string>)
    ensures providers == Cleaned(ids)
  {
    providers := [];
    var seen: set<string> := {};
    for i := 0 to |ids|
      invariant providers == Cleaned(ids[..i])
      invariant forall x :: x in seen <==> x in providers
    {
      assert ids[..i + 1][..i] == ids[..i];
      var id := Canonical(ids[i]);
      if id == "" || id in seen { continue; }
      seen := seen + {id};
      providers := providers + [id];
    }
    assert ids[..|ids|] == ids;
  }

  // ---------- DNS-1123 subdomains ----------

  predicate Alnum(c: char) { 'a' <= c <= 'z' || '0' <= c <= '9' }

  /** Dot-separated labels of lower-case letters, digits and inner dashes, at most 253 characters. */
  predicate IsDns1123(s: string) {
    && 0 < |s| <= 253
    && Alnum(s[0]) && Alnum(s[|s| - 1])
    && (forall i :: 0 <= i < |s| ==> Alnum(s[i]) || s[i] == '-' || s[i] == '.')
    && (forall i :: 0 < i < |s| - 1 && s[i] == '.' ==> Alnum(s[i - 1]) && Alnum(s[i + 1]))
  }

  lemma DnsIsCanonical(s: string)
    requires IsDns1123(s)
    ensures s != "*" && s != "" && Canonical(s) == s
  {
    assert Lower(s) == s;
  }

  function Letters(n: nat): (r: string)
    ensures |r| == n && forall i :: 0 <= i < n ==> r[i] == 'a'
  {
    seq(n, _ => 'a')
  }

  /** Any finite list misses some valid provider ID. */
  lemma {:induction false} FreshId(ids: seq<string>, k: nat) returns (id: string)
    requires 0 < k && k + |ids| <= 253
    ensures IsDns1123(id) && id !in ids && k <= |id|
    decreases |ids|
  {
    id := Letters(k);
    if id in ids {
      var i :| 0 <= i < |ids| && ids[i] == id;
      var rest := ids[..i] + ids[i + 1..];
      id := FreshId(rest, k + 1);
      forall j | 0 <= j < |ids| ensures ids[j] != id {
        if j < i { assert rest[j] == ids[j]; } else if j > i { assert rest[j - 1] == ids[j]; }
      }
    }
  }
}
