/** The audit ring: a bounded buffer of events and its cursor pagination
    (apps/api/internal/audit/store.go). */
module AuditStore {
  import opened Common

  /** A timestamp of 0 is the zero time. */
  datatype Event = Event(id: string, timestamp: nat, username: string, action: string, result: string,
                         providerID: string, operationID: string)

  /** Empty fields and zero times do not filter. */
  datatype Query = Query(limit: int, cursor: string, action: string, result: string, providerID: string,
                         operationID: string, username: string, since: nat, until: nat)

  datatype Page = Page(events: seq<Event>, next: string)

  datatype AppendError = Invalid | Unavailable

  predicate MatchQuery(e: Event, q: Query) {
    && (q.action == "" || e.action == q.action)
    && (q.result == "" || e.result == q.result)
    && (q.providerID == "" || e.providerID == q.providerID)
    && (q.operationID == "" || e.operationID == q.operationID)
    && (q.username == "" || e.username == q.username)
    && (q.since == 0 || e.timestamp >= q.since)
    && (q.until == 0 || e.timestamp <= q.until)
  }

  /** A query without filters matches every event, and each filter keeps just the events with its value, or
      from its first or up to its last instant. */
  lemma FiltersExactly(e: Event, q: Query)
    ensures MatchQuery(e, Query(q.limit, q.cursor, "", "", "", "", "", 0, 0))
    ensures q.action != "" ==> (MatchQuery(e, q) <==> MatchQuery(e, q.(action := "")) && e.action == q.action)
    ensures q.result != "" ==> (MatchQuery(e, q) <==> MatchQuery(e, q.(result := "")) && e.result == q.result)
    ensures q.providerID != "" ==> (MatchQuery(e, q) <==> MatchQuery(e, q.(providerID := "")) && e.providerID == q.providerID)
    ensures q.operationID != "" ==> (MatchQuery(e, q) <==> MatchQuery(e, q.(operationID := "")) && e.operationID == q.operationID)
    ensures q.username != "" ==> (MatchQuery(e, q) <==> MatchQuery(e, q.(username := "")) && e.username == q.username)
    ensures q.since != 0 ==> (MatchQuery(e, q) <==> MatchQuery(e, q.(since := 0)) && q.since <= e.timestamp)
    ensures q.until != 0 ==> (MatchQuery(e, q) <==> MatchQuery(e, q.(until := 0)) && e.timestamp <= q.until)
  {}

  // ---------- identifiers ----------

  function DecimalDigit(d: nat): char
    requires d < 10
  {
    '0' + d as char
  }

  function Decimal(n: nat): string { (if n < 10 then "" else Decimal(n / 10)) + [DecimalDigit(n % 10)] }

  function DecimalValue(s: string): int {
    if s == "" then 0 else DecimalValue(s[..|s| - 1]) * 10 + (s[|s| - 1] as int - '0' as int)
  }

  lemma {:induction false} ValueDecimal(n: nat)
    ensures DecimalValue(Decimal(n)) == n && Decimal(n) != ""
  {
    var s := Decimal(n);
    assert s[..|s| - 1] == if n < 10 then "" else Decimal(n / 10);
    if n >= 10 { ValueDecimal(n / 10); }
  }

  /** The digits of n, written from the last to the first into a buffer of 20. */
  method Itoa(n: nat) returns (s: string)
    requires n < 0x8000_0000_0000_0000
    ensures s == Decimal(n)
  {
    if n == 0 {
      return "0";
    }
    var b := new char[20];
    var i: nat, rest: nat := 20, n;
    TwentyDigits();
    assert Left(n) + b[20..] == Decimal(n);
    while rest > 0
      invariant 0 <= i <= 20 && rest < Pow10(i)
      invariant Left(rest) + b[i..] == Decimal(n)
    {
      DigitsLeft(rest, i);
      ghost var done := b[i..];
      i := i - 1;
      var digit := DecimalDigit(rest % 10);
      b[i] := digit;
      assert b[i..] == [digit] + done;
      rest := rest / 10;
      assert Left(rest) + b[i..] == (Left(rest) + [digit]) + done;
    }
    assert Left(rest) + b[i..] == b[i..];
    return b[i..];
  }

  function Left(rest: nat): string { if rest == 0 then "" else Decimal(rest) }

  function Pow10(k: nat): nat { if k == 0 then 1 else 10 * Pow10(k - 1) }

  lemma DigitsLeft(rest: nat, i: nat)
    requires 0 < rest < Pow10(i)
    ensures i > 0 && rest / 10 < Pow10(i - 1)
    ensures Left(rest) == Left(rest / 10) + [DecimalDigit(rest % 10)]
  {}

  lemma TwentyDigits()
    ensures Pow10(20) >= 0x8000_0000_0000_0000
  {
    assert Pow10(4) == 10000;
    assert Pow10(8) == 100000000;
    assert Pow10(12) == 1000000000000;
    assert Pow10(16) == 10000000000000000;
    assert Pow10(20) == 100000000000000000000;
  }

  function GeneratedId(stamp: string, n: nat): string { stamp + "-" + Decimal(n) }

  /** Identifiers the store generates for different appends differ: the time stamp has a fixed length. */
  lemma {:induction false} GeneratedIdsDiffer(stamp: string, m: nat, stamp': string, n: nat)
    requires |stamp| == |stamp'|
    ensures GeneratedId(stamp, m) == GeneratedId(stamp', n) <==> stamp == stamp' && m == n
  {
    var a, b := GeneratedId(stamp, m), GeneratedId(stamp', n);
    assert a[..|stamp|] == stamp && b[..|stamp|] == stamp';
    assert a[|stamp| + 1..] == Decimal(m) && b[|stamp| + 1..] == Decimal(n);
    ValueDecimal(m);
    ValueDecimal(n);
  }

  // ---------- listing ----------

  function Tail(log: seq<Event>, n: nat): seq<Event> { log[First(log, n)..] }

  /** The index in the log of the oldest event still stored. */
  function First(log: seq<Event>, max: nat): (i: nat)
    ensures i <= |log|
  {
    if |log| <= max then 0 else |log| - max
  }

  /** The matching events, newest first. */
  function Filtered(events: seq<Event>, q: Query): seq<Event> {
    if events == [] then []
    else
      var last := events[|events| - 1];
      (if MatchQuery(last, q) then [last] else []) + Filtered(events[..|events| - 1], q)
  }

  /** Where the page starts: after the newest event with the cursor's identifier, or at the newest. */
  function CursorStart(filtered: seq<Event>, cursor: string): nat {
    if cursor == "" then 0
    else
      var at := IndexOf(filtered, cursor);
      if at.Some? then at.value + 1 else 0
  }

  function IndexOf(events: seq<Event>, id: string): (r: Option<nat>)
    ensures r.Some? ==> r.value < |events| && events[r.value].id == id && forall j :: 0 <= j < r.value ==> events[j].id != id
    ensures r == None ==> forall j :: 0 <= j < |events| ==> events[j].id != id
  {
    if events == [] then None
    else if events[0].id == id then Some(0)
    else
      var r := IndexOf(events[1..], id);
      if r.Some? then Some(r.value + 1) else None
  }

  function ListPage(events: seq<Event>, q: Query): Page {
    var filtered := Filtered(events, q);
    Cut(filtered, CursorStart(filtered, q.cursor), q.limit)
  }

  function Cut(filtered: seq<Event>, start: nat, limit: int): Page
    requires start <= |filtered|
  {
    var n := if limit <= 0 || start + limit > |filtered| then |filtered| else start + limit;
    Page(filtered[start..n], if start < n < |filtered| then filtered[n - 1].id else "")
  }

  /** A page is the stretch of the matching events from its start that the limit allows, and names a next
      cursor, that of its last event, exactly when the limit leaves some out. */
  lemma PageExactly(events: seq<Event>, q: Query)
    ensures var page, filtered := ListPage(events, q), Filtered(events, q);
      var start := CursorStart(filtered, q.cursor);
      && start + |page.events| <= |filtered| && page.events == filtered[start..start + |page.events|]
      && (q.limit <= 0 ==> |page.events| == |filtered| - start && page.next == "")
      && (q.limit > 0 ==>
            && |page.events| == (if q.limit < |filtered| - start then q.limit else |filtered| - start)
            && page.next == if q.limit < |filtered| - start then page.events[q.limit - 1].id else "")
  {
    CutExactly(Filtered(events, q), CursorStart(Filtered(events, q), q.cursor), q.limit);
  }

  lemma CutExactly(filtered: seq<Event>, start: nat, limit: int)
    requires start <= |filtered|
    ensures var page, left := Cut(filtered, start, limit), |filtered| - start;
      && |page.events| == (if 0 < limit < left then limit else left) && page.events == filtered[start..start + |page.events|]
      && page.next == if 0 < limit < left then page.events[limit - 1].id else ""
  {}

  // ---------- the store ----------

  /** One step further back. */
  lemma FilteredNext(events: seq<Event>, i: nat, q: Query, newer: seq<Event>)
    requires i < |events|
    ensures newer + Filtered(events[..i + 1], q) ==
      (if MatchQuery(events[i], q) then newer + [events[i]] else newer) + Filtered(events[..i], q)
  {
    assert events[..i + 1][..i] == events[..i];
  }

  class Store {
    const max: nat
    var events: seq<Event>
    var count: nat
    /** Every event ever accepted, oldest first. */
    ghost var accepted: seq<Event>

    ghost predicate Valid()
      reads this
    {
      max > 0 && events == Tail(accepted, max) && count == |accepted|
    }

    constructor (capacity: int)
      ensures Valid() && accepted == [] && max == if capacity <= 0 then 2000 else capacity
    {
      max := if capacity <= 0 then 2000 else capacity;
      events, count, accepted := [], 0, [];
    }

    /** `acceptable` is what ValidateEvent says of the event, `stamp` and `now` are the clock, and
        `written` tells whether the write to the file succeeds. A failed write is reported, but the
        event has been stored by then. */
    method Append(e: Event, acceptable: bool, stamp: string, now: nat, written: bool) returns (err: Option<AppendError>)
      requires Valid() && count + 1 < 0x8000_0000_0000_0000
      modifies this
      ensures Valid()
      ensures err == if !acceptable then Some(Invalid) else if !written then Some(Unavailable) else None
      ensures !acceptable ==> accepted == old(accepted)
      ensures acceptable ==> accepted == old(accepted) + [Completed(e, stamp, |old(accepted)| + 1, now)]
    {
      if !acceptable {
        return Some(Invalid);
      }
      count := count + 1;
      var stored := Complete(e, stamp, count, now);
      TailGrows(accepted, max, stored);
      events := events + [stored];
      if |events| > max {
        events := events[|events| - max..];
      }
      accepted := accepted + [stored];
      return if written then None else Some(Unavailable);
    }

    method Matching(q: Query) returns (filtered: seq<Event>)
      ensures filtered == Filtered(events, q)
    {
      filtered := [];
      var i := |events|;
      assert events[..i] == events;
      while i > 0
        invariant 0 <= i <= |events|
        invariant Filtered(events, q) == filtered + Filtered(events[..i], q)
      {
        i := i - 1;
        FilteredNext(events, i, q, filtered);
        if MatchQuery(events[i], q) {
          filtered := filtered + [events[i]];
        }
      }
    }

    method List(q: Query) returns (page: Page)
      requires Valid()
      ensures page == ListPage(Tail(accepted, max), q)
    {
      var filtered := Matching(q);
      var start := StartAfter(filtered, q.cursor);
      var limit := if q.limit <= 0 then |filtered| else q.limit;
      var end := if start + limit > |filtered| then |filtered| else start + limit;
      var out := filtered[start..end];
      page := Page(out, "");
      if end < |filtered| && |out| > 0 {
        page := page.(next := out[|out| - 1].id);
      }
    }
  }

  /** Fills in the identifier and the time that the caller left out. */
  method Complete(e: Event, stamp: string, n: nat, now: nat) returns (stored: Event)
    requires n < 0x8000_0000_0000_0000
    ensures stored == Completed(e, stamp, n, now)
  {
    stored := e;
    if stored.id == "" {
      var digits := Itoa(n);
      stored := stored.(id := stamp + "-" + digits);
    }
    if stored.timestamp == 0 {
      stored := stored.(timestamp := now);
    }
  }

  lemma TailGrows(log: seq<Event>, max: nat, e: Event)
    ensures var grown := Tail(log, max) + [e];
      Tail(log + [e], max) == if |grown| > max then grown[|grown| - max..] else grown
  {}

  method StartAfter(filtered: seq<Event>, cursor: string) returns (start: nat)
    ensures start == CursorStart(filtered, cursor) && start <= |filtered|
  {
    if cursor != "" {
      for k := 0 to |filtered|
        invariant forall j :: 0 <= j < k ==> filtered[j].id != cursor
      {
        if filtered[k].id == cursor {
          assert IndexOf(filtered, cursor) == Some(k);
          return k + 1;
        }
      }
    }
    return 0;
  }

  function Completed(e: Event, stamp: string, n: nat, now: nat): Event {
    e.(id := if e.id == "" then GeneratedId(stamp, n) else e.id, timestamp := if e.timestamp == 0 then now else e.timestamp)
  }

  /** What is stored of an event is the event, with the number's identifier and the present instant where it
      came without. */
  lemma CompletedExactly(e: Event, stamp: string, n: nat, now: nat)
    ensures var s := Completed(e, stamp, n, now);
      && s.username == e.username && s.action == e.action && s.result == e.result
      && s.providerID == e.providerID && s.operationID == e.operationID
      && (e.id != "" ==> s.id == e.id) && (e.timestamp != 0 ==> s.timestamp == e.timestamp) && (e.timestamp == 0 ==> s.timestamp == now)
      && (e.id == "" ==> stamp <= s.id && s.id[|stamp|..] == "-" + Decimal(n))
  {}

  /** A cursor is honoured exactly when a stored event that matches the query still carries it;
      otherwise the walk starts again at the newest event. */
  lemma {:induction false} EvictedCursorRestarts(events: seq<Event>, q: Query)
    ensures CursorStart(Filtered(events, q), q.cursor) == 0 <==>
      q.cursor == "" || forall e :: e in events && MatchQuery(e, q) ==> e.id != q.cursor
    ensures CursorStart(Filtered(events, q), q.cursor) == 0 ==> ListPage(events, q) == ListPage(events, q.(cursor := ""))
  {
    FilteredHas(events, q);
    SameFilter(events, q, "");
  }

  lemma {:induction false} FilteredHas(events: seq<Event>, q: Query)
    ensures forall e :: e in Filtered(events, q) <==> e in events && MatchQuery(e, q)
  {
    if events != [] {
      var n := |events| - 1;
      FilteredHas(events[..n], q);
      assert events == events[..n] + [events[n]];
    }
  }

  lemma {:induction false} SameFilter(events: seq<Event>, q: Query, cursor: string)
    ensures Filtered(events, q.(cursor := cursor)) == Filtered(events, q)
  {
    if events != [] { SameFilter(events[..|events| - 1], q, cursor); }
  }

  lemma {:induction false} FilteredAppend(a: seq<Event>, b: seq<Event>, q: Query)
    ensures Filtered(a + b, q) == Filtered(b, q) + Filtered(a, q)
    decreases |b|
  {
    if b == [] {
      assert a + b == a;
    } else {
      var n := |b| - 1;
      assert (a + b)[..|a + b| - 1] == a + b[..n];
      FilteredAppend(a, b[..n], q);
    }
  }

  // ---------- a walk along the cursor ----------

  ghost predicate IdsOK(log: seq<Event>) {
    && (forall i :: 0 <= i < |log| ==> log[i].id != "")
    && (forall i, j :: 0 <= i < j < |log| ==> log[i].id != log[j].id)
  }

  lemma {:induction false} FilteredLast(log: seq<Event>, lo: nat, p: nat, q: Query)
    requires lo < p <= |log|
    ensures Filtered(log[lo..p], q) ==
      (if MatchQuery(log[p - 1], q) then [log[p - 1]] else []) + Filtered(log[lo..p - 1], q)
  {
    assert log[lo..p][..p - lo - 1] == log[lo..p - 1];
  }

  /** When callers leave identifiers to the store, they are all different. */
  lemma {:induction false} GeneratedIdsOK(log: seq<Event>, stamps: seq<string>, width: nat)
    requires |stamps| == |log|
    requires forall i :: 0 <= i < |log| ==> |stamps[i]| == width && log[i].id == GeneratedId(stamps[i], i + 1)
    ensures IdsOK(log)
  {
    forall i, j | 0 <= i < j < |log|
      ensures log[i].id != log[j].id
    {
      GeneratedIdsDiffer(stamps[i], i + 1, stamps[j], j + 1);
    }
  }

  /** Any non-empty first part of the matching events below p is all the matching events from some
      matching one on. */
  lemma OnlyLast(log: seq<Event>, p: nat, q: Query)
    requires 0 < p <= |log| && MatchQuery(log[p - 1], q)
    ensures Filtered(log[p - 1..p], q) == [log[p - 1]]
  {
    assert log[p - 1..p] == [log[p - 1]] && [log[p - 1]][..0] == [];
  }

  lemma PrefixCarries(head: seq<Event>, below: seq<Event>, range: seq<Event>, k: nat, e: Event)
    requires 0 < k <= |below| && below[..k] == range && below[k - 1] == e
    ensures (head + below)[..|head| + k] == head + range && (head + below)[|head| + k - 1] == e
  {}

  lemma {:induction false} PrefixIsRange(log: seq<Event>, lo: nat, p: nat, q: Query, m: nat) returns (p': nat)
    requires lo <= p <= |log| && 1 <= m <= |Filtered(log[lo..p], q)|
    ensures lo <= p' < p && MatchQuery(log[p'], q)
    ensures Filtered(log[lo..p], q)[..m] == Filtered(log[p'..p], q)
    ensures Filtered(log[lo..p], q)[m - 1] == log[p']
    decreases p
  {
    var head := if MatchQuery(log[p - 1], q) then [log[p - 1]] else [];
    FilteredLast(log, lo, p, q);
    if head != [] && m == 1 {
      p' := p - 1;
      OnlyLast(log, p, q);
    } else {
      p' := PrefixIsRange(log, lo, p - 1, q, m - |head|);
      FilteredLast(log, p', p, q);
      PrefixCarries(head, Filtered(log[lo..p - 1], q), Filtered(log[p'..p - 1], q), m - |head|, log[p']);
    }
  }

  /** A matching event comes after all newer matching events and before all older ones. */
  lemma {:induction false} FilteredAround(log: seq<Event>, lo: nat, p: nat, q: Query)
    requires lo <= p < |log| && MatchQuery(log[p], q)
    ensures Filtered(log[lo..], q) == Filtered(log[p + 1..], q) + [log[p]] + Filtered(log[lo..p], q)
  {
    assert log[lo..] == log[lo..p + 1] + log[p + 1..];
    FilteredAppend(log[lo..p + 1], log[p + 1..], q);
    assert log[lo..p + 1][..p - lo] == log[lo..p];
  }

  lemma {:induction false} CursorFound(newer: seq<Event>, e: Event, older: seq<Event>)
    requires e.id != "" && forall j :: 0 <= j < |newer| ==> newer[j].id != e.id
    ensures CursorStart(newer + [e] + older, e.id) == |newer| + 1
  {
    assert (newer + [e] + older)[|newer|] == e;
  }

  /** The page after the event at index p is the next matching events below it. */
  lemma {:induction false} PageBelow(log: seq<Event>, max: nat, q: Query, p: nat)
    requires IdsOK(log) && First(log, max) <= p < |log| && MatchQuery(log[p], q) && q.cursor == log[p].id
    ensures ListPage(Tail(log, max), q) == Cut(Filtered(log[First(log, max)..p], q), 0, q.limit)
  {
    var newer, older := Filtered(log[p + 1..], q), Filtered(log[First(log, max)..p], q);
    FilteredAround(log, First(log, max), p, q);
    forall j | 0 <= j < |newer|
      ensures newer[j].id != q.cursor
    {
      FilteredHas(log[p + 1..], q);
      assert newer[j] in log[p + 1..];
    }
    CursorFound(newer, log[p], older);
    CutShift(newer + [log[p]], older, q.limit);
  }

  lemma {:induction false} CutShift(skipped: seq<Event>, rest: seq<Event>, limit: int)
    ensures Cut(skipped + rest, |skipped|, limit) == Cut(rest, 0, limit)
  {
    var n := if limit <= 0 || limit > |rest| then |rest| else limit;
    assert (skipped + rest)[|skipped|..|skipped| + n] == rest[..n];
  }

  /** A client follows the cursor from the newest event; logs[i] are the events accepted when it reads
      page i. */
  ghost predicate Walk(logs: seq<seq<Event>>, pages: seq<Page>, q: Query, max: nat) {
    && |logs| == |pages| && |pages| > 0 && q.cursor == ""
    && (forall i, j :: 0 <= i <= j < |logs| ==> logs[i] <= logs[j])
    && (forall i :: 0 <= i < |pages| ==> pages[i] == ListPage(Tail(logs[i], max), q.(cursor := CursorOf(pages, i))))
    && (forall i :: 0 <= i < |pages| - 1 ==> pages[i].next != "")
  }

  function CursorOf(pages: seq<Page>, i: nat): string
    requires i <= |pages|
  {
    if i == 0 then "" else pages[i - 1].next
  }

  /** When a page is read, the event its cursor names is still stored. */
  ghost predicate CursorsStored(logs: seq<seq<Event>>, pages: seq<Page>, max: nat)
    requires |logs| == |pages|
  {
    forall i :: 1 <= i < |pages| ==> IsStored(logs[i], max, CursorOf(pages, i))
  }

  ghost predicate IsStored(log: seq<Event>, max: nat, id: string) {
    exists k :: First(log, max) <= k < |log| && log[k].id == id
  }

  function Joined(pages: seq<Page>): seq<Event> {
    if pages == [] then [] else Joined(pages[..|pages| - 1]) + pages[|pages| - 1].events
  }

  /** From index p on everything has been returned; p is the event the cursor names. */
  ghost predicate WalkedTo(log: seq<Event>, joined: seq<Event>, q: Query, next: string, p: nat) {
    p < |log| && MatchQuery(log[p], q) && next == log[p].id && joined == Filtered(log[p..], q)
  }

  /** What holds after a page. */
  ghost predicate Progress(log0: seq<Event>, lo: nat, joined: seq<Event>, q: Query, next: string, p: nat)
    requires lo <= |log0|
  {
    if next == "" then joined == Filtered(log0[lo..], q) else WalkedTo(log0, joined, q, next, p)
  }

  lemma {:induction false} FilteredJoin(log: seq<Event>, a: nat, b: nat, q: Query)
    requires a <= b <= |log|
    ensures Filtered(log[a..], q) == Filtered(log[b..], q) + Filtered(log[a..b], q)
  {
    assert log[a..] == log[a..b] + log[b..];
    FilteredAppend(log[a..b], log[b..], q);
  }

  /** Reading one more page, with everything matching from p on already returned. */
  lemma {:induction false} PageExtends(log0: seq<Event>, lo: nat, p: nat, q: Query, joined: seq<Event>) returns (p': nat)
    requires lo <= p <= |log0| && joined == Filtered(log0[p..], q) && IdsOK(log0)
    ensures var page := Cut(Filtered(log0[lo..p], q), 0, q.limit);
      Progress(log0, lo, joined + page.events, q, page.next, p')
  {
    var below := Filtered(log0[lo..p], q);
    var n := |Cut(below, 0, q.limit).events|;
    p' := 0;
    if n == |below| {
      assert below[0..n] == below;
      FilteredJoin(log0, lo, p, q);
    } else {
      p' := PrefixIsRange(log0, lo, p, q, n);
      FilteredJoin(log0, p', p, q);
    }
  }

  lemma {:induction false} StoredAt(log: seq<Event>, max: nat, p: nat)
    requires IdsOK(log) && p < |log| && IsStored(log, max, log[p].id)
    ensures First(log, max) <= p
  {
    var k :| First(log, max) <= k < |log| && log[k].id == log[p].id;
    assert k == p;
  }

  /** One more page of a walk that has reached p0. */
  lemma {:induction false} NextPage(log0: seq<Event>, log: seq<Event>, max: nat, q: Query, joined: seq<Event>, next: string, p0: nat)
    returns (p: nat)
    requires log0 <= log && IdsOK(log) && WalkedTo(log0, joined, q, next, p0) && IsStored(log, max, next)
    ensures First(log, max) <= |log0|
    ensures var page := ListPage(Tail(log, max), q.(cursor := next));
      Progress(log0, First(log, max), joined + page.events, q, page.next, p)
  {
    StoredAt(log, max, p0);
    var lo := First(log, max);
    assert ListPage(Tail(log, max), q.(cursor := next)) == Cut(Filtered(log0[lo..p0], q.(cursor := next)), 0, q.limit) by {
      PageBelow(log, max, q.(cursor := next), p0);
      assert log[lo..p0] == log0[lo..p0];
    }
    assert IdsOK(log0);
    SameFilter(log0[lo..p0], q, next);
    p := PageExtends(log0, lo, p0, q, joined);
  }

  lemma {:induction false} FirstPage(log0: seq<Event>, max: nat, q: Query) returns (p: nat)
    requires IdsOK(log0) && q.cursor == ""
    ensures var page := ListPage(Tail(log0, max), q); Progress(log0, First(log0, max), page.events, q, page.next, p)
  {
    p := PageExtends(log0, First(log0, max), |log0|, q, []);
    assert log0[First(log0, max)..|log0|] == log0[First(log0, max)..];
  }

  ghost predicate PageOK(log0: seq<Event>, log: seq<Event>, pages: seq<Page>, q: Query, max: nat, i: nat)
    requires i < |pages|
  {
    && IdsOK(log) && log0 <= log
    && pages[i] == ListPage(Tail(log, max), q.(cursor := CursorOf(pages, i)))
    && (i > 0 ==> pages[i - 1].next != "" && IsStored(log, max, pages[i - 1].next))
  }

  lemma {:induction false} WalkAt(logs: seq<seq<Event>>, pages: seq<Page>, q: Query, max: nat, i: nat)
    requires Walk(logs, pages, q, max) && CursorsStored(logs, pages, max) && i < |pages| && IdsOK(logs[|logs| - 1])
    ensures PageOK(logs[0], logs[i], pages, q, max, i)
  {
    assert logs[0] <= logs[i] <= logs[|logs| - 1];
    if i > 0 {
      assert IsStored(logs[i], max, CursorOf(pages, i));
    }
  }

  lemma {:induction false} JoinedPage(pages: seq<Page>, i: nat)
    requires i < |pages|
    ensures Joined(pages[..i + 1]) == Joined(pages[..i]) + pages[i].events
  {
    assert pages[..i + 1][..i] == pages[..i];
  }

  lemma {:induction false} WalkPage(logs: seq<seq<Event>>, pages: seq<Page>, q: Query, max: nat, i: nat) returns (p: nat)
    requires |logs| == |pages| && i < |pages| && q.cursor == ""
    requires forall j :: 0 <= j <= i ==> PageOK(logs[0], logs[j], pages, q, max, j)
    ensures First(logs[i], max) <= |logs[0]|
    ensures Progress(logs[0], First(logs[i], max), Joined(pages[..i + 1]), q, pages[i].next, p)
  {
    JoinedPage(pages, i);
    assert PageOK(logs[0], logs[i], pages, q, max, i);
    if i == 0 {
      p := FirstPage(logs[0], max, q);
      assert q.(cursor := "") == q && Joined(pages[..0]) == [];
    } else {
      var p0 := WalkPage(logs, pages, q, max, i - 1);
      p := NextPage(logs[0], logs[i], max, q, Joined(pages[..i]), pages[i - 1].next, p0);
    }
  }

  /** Following the cursor to the end, with appends between the pages, returns exactly the matching
      events that were there at the start and not evicted before the last page, newest first, each
      once, as long as every cursor names a stored event. */
  lemma {:induction false} WalkIsExact(logs: seq<seq<Event>>, pages: seq<Page>, q: Query, max: nat)
    requires Walk(logs, pages, q, max) && CursorsStored(logs, pages, max) && IdsOK(logs[|logs| - 1])
    requires pages[|pages| - 1].next == ""
    ensures First(logs[|logs| - 1], max) <= |logs[0]|
    ensures Joined(pages) == Filtered(logs[0][First(logs[|logs| - 1], max)..], q)
  {
    forall j | 0 <= j < |pages|
      ensures PageOK(logs[0], logs[j], pages, q, max, j)
    {
      WalkAt(logs, pages, q, max, j);
    }
    var p := WalkPage(logs, pages, q, max, |pages| - 1);
    assert pages[..|pages|] == pages;
  }
}
