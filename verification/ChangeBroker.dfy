/** The change broker as interleaved atomic steps: informers record changes, one flusher
    broadcasts them in micro-steps, SSE handlers receive, subscribe and leave, the server stops
    (apps/api/internal/watch/hub.go). The main results are about every run of these steps. */
module ChangeBroker {
  import opened Common
  import opened ChangeFrames

  type ClientId = nat

  /** Where the flusher stands inside `send` for the first task of its list. */
  datatype Phase = Check | TrySend | Draining | Resync

  datatype Task = Task(client: ClientId, frame: Frame)

  /** `leaving` holds clients taken out of the set whose done channel is not closed yet;
      `got` is what the client's handler has read from its channel so far. */
  datatype Broker = Broker(
    cluster: string, pending: map<string, Frame>, clients: set<ClientId>, stopped: bool,
    leaving: set<ClientId>, done: set<ClientId>,
    buf: map<ClientId, seq<Frame>>, got: map<ClientId, seq<Frame>>,
    tasks: seq<Task>, phase: Phase)

  datatype Event =
    | Record(change: Change)
    | SetCluster(id: string)
    | Subscribe(client: ClientId)
    | Unsubscribe(client: ClientId)
    | StopHub
    | CloseDone(client: ClientId)
    | Receive(client: ClientId)
    | Snapshot(keys: seq<string>, order: seq<ClientId>)
    | Flusher

  const START := Broker("local", map[], {}, false, {}, {}, map[], map[], [], Check)

  /** Frame by frame, client by client: the nested loop of flushOnce. */
  function Broadcast(keys: seq<string>, pending: map<string, Frame>, order: seq<ClientId>): seq<Task>
    requires forall k :: k in keys ==> k in pending
  {
    if keys == [] then []
    else seq(|order|, i requires 0 <= i < |order| => Task(order[i], pending[keys[0]]))
         + Broadcast(keys[1..], pending, order)
  }

  function Advance(s: Broker): Broker
    requires s.tasks != []
  {
    s.(tasks := s.tasks[1..], phase := Check)
  }

  function Enqueue(s: Broker, client: ClientId, fr: Frame): Broker
    requires client in s.buf
  {
    s.(buf := s.buf[client := s.buf[client] + [fr]])
  }

  predicate Allocated(s: Broker) {
    s.clients <= s.buf.Keys && s.leaving <= s.buf.Keys && s.done <= s.buf.Keys &&
    s.got.Keys == s.buf.Keys && forall t :: t in s.tasks ==> t.client in s.buf
  }

  /** One micro-step of `send`. Where a Go select has several ready arms, any of them may be taken;
      the default arm is taken only when no other is ready. */
  predicate FlusherStep(s: Broker, s': Broker)
    requires Allocated(s)
  {
    s.tasks != [] &&
    var client, fr := s.tasks[0].client, s.tasks[0].frame;
    assert s.tasks[0] in s.tasks;
    var room := |s.buf[client]| < CLIENT_BUFFER;
    var gone := client in s.done;
    match s.phase
    case Check => s' == if gone then Advance(s) else s.(phase := TrySend)
    case TrySend =>
      (room && s' == Advance(Enqueue(s, client, fr)))
      || (gone && s' == Advance(s))
      || (!room && !gone && s' == s.(phase := Draining))
    case Draining =>
      s' == if s.buf[client] == [] then s.(phase := Resync)
            else s.(buf := s.buf[client := s.buf[client][1..]])
    case Resync =>
      (room && s' == Advance(Enqueue(s, client, ResyncFrame(s.cluster))))
      || (gone && s' == Advance(s))
      || (!room && !gone && s' == Advance(s))
  }

  ghost predicate Next(s: Broker, e: Event, s': Broker) {
    Allocated(s) &&
    match e
    case Record(c) => s' == s.(pending := Recorded(s.pending, s.cluster, c))
    case SetCluster(id) => s' == s.(cluster := id)
    case Subscribe(c) =>
      c !in s.buf &&
      s' == if s.stopped then s
            else s.(clients := s.clients + {c}, buf := s.buf[c := []], got := s.got[c := []])
    case Unsubscribe(c) => c in s.buf && s' == s.(clients := s.clients - {c}, leaving := s.leaving + {c})
    case StopHub => s' == s.(clients := {}, leaving := s.leaving + s.clients, stopped := true)
    case CloseDone(c) => c in s.leaving && s' == s.(leaving := s.leaving - {c}, done := s.done + {c})
    case Receive(c) =>
      c in s.buf && s.buf[c] != [] &&
      s' == s.(buf := s.buf[c := s.buf[c][1..]], got := s.got[c := s.got[c] + [s.buf[c][0]]])
    case Snapshot(keys, order) =>
      s.tasks == [] && s.phase == Check && s.pending != map[] &&
      IsOrderOf(keys, s.pending.Keys) && IsOrderOf(order, s.clients) &&
      s' == s.(pending := map[], tasks := Broadcast(keys, s.pending, order))
    case Flusher => FlusherStep(s, s')
  }

  ghost predicate Inv(s: Broker) {
    && Allocated(s)
    && PendingOK(s.pending) && PendingPlain(s.pending)
    && s.clients !! s.leaving && s.clients !! s.done
    && (s.stopped ==> s.clients == {})
    && (forall c :: c in s.buf ==> |s.buf[c]| <= CLIENT_BUFFER)
    && (s.phase != Check ==> s.tasks != [])
    && (s.phase == Resync ==> (assert s.tasks[0] in s.tasks; s.buf[s.tasks[0].client] == []))
  }

  predicate SomeCovers(frames: seq<Frame>, c: Change) {
    exists i :: 0 <= i < |frames| && Covers(frames[i], c)
  }

  predicate TaskCovers(tasks: seq<Task>, client: ClientId, c: Change) {
    exists i :: 0 <= i < |tasks| && tasks[i].client == client && Covers(tasks[i].frame, c)
  }

  /** The change is pending, or on its way. */
  predicate Covered(s: Broker, c: Change, client: ClientId, base: nat)
    requires client in s.buf && client in s.got && base <= |s.got[client]|
  {
    PendingCovers(s.pending, c) || Sent(s, c, client, base)
  }

  /** A flush has taken the change: it is in the flusher's remaining work, about to be replaced by a
      resync frame, buffered, or among the frames received from `base` on. */
  predicate Sent(s: Broker, c: Change, client: ClientId, base: nat)
    requires client in s.buf && client in s.got && base <= |s.got[client]|
  {
    || TaskCovers(s.tasks, client, c)
    || Refilling(s, client)
    || SomeCovers(s.buf[client], c)
    || SomeCovers(s.got[client][base..], c)
  }

  // ---------- steps ----------

  lemma {:induction false} BroadcastReaches(keys: seq<string>, pending: map<string, Frame>, order: seq<ClientId>)
    requires forall k :: k in keys ==> k in pending
    ensures forall k, c :: k in keys && c in order ==> Task(c, pending[k]) in Broadcast(keys, pending, order)
    ensures forall t :: t in Broadcast(keys, pending, order) ==> t.client in order
  {
    if keys != [] {
      BroadcastReaches(keys[1..], pending, order);
      var first := seq(|order|, i requires 0 <= i < |order| => Task(order[i], pending[keys[0]]));
      forall k, c | k in keys && c in order ensures Task(c, pending[k]) in Broadcast(keys, pending, order) {
        if k == keys[0] {
          var i :| 0 <= i < |order| && order[i] == c;
          assert first[i] == Task(c, pending[k]);
        } else {
          assert k in keys[1..];
        }
      }
    }
  }

  lemma FlusherKeepsInv(s: Broker, s': Broker)
    requires Inv(s) && FlusherStep(s, s')
    ensures Inv(s')
  {
    assert s.tasks[0] in s.tasks;
    FlusherFrame(s, s');
  }

  /** The flusher only works on its tasks and the buffer of the first one's client. */
  lemma FlusherFrame(s: Broker, s': Broker)
    requires Allocated(s) && FlusherStep(s, s')
    ensures s' == s.(tasks := s'.tasks, phase := s'.phase, buf := s'.buf)
    ensures s'.buf.Keys == s.buf.Keys && forall t :: t in s'.tasks ==> t in s.tasks
  {
    assert s.tasks[0] in s.tasks;
  }

  lemma StepKeepsInv(s: Broker, e: Event, s': Broker)
    requires Inv(s) && Next(s, e, s')
    requires e.Record? ==> Clean(e.change)
    ensures Inv(s')
  {
    match e
    case Record(c) => RecordedOK(s.pending, s.cluster, c); RecordedCarries(s.pending, s.cluster, c);
    case Snapshot(keys, order) => BroadcastReaches(keys, s.pending, order);
    case Flusher => FlusherKeepsInv(s, s');
    case Receive(c) => if s.tasks != [] { assert s.tasks[0] in s.tasks; }
    case Subscribe(c) => if s.tasks != [] { assert s.tasks[0] in s.tasks; }
    case _ =>
  }

  predicate Refilling(s: Broker, client: ClientId) {
    s.phase in {Draining, Resync} && s.tasks != [] && s.tasks[0].client == client
  }

  /** The first task is kept, or given up for a client that is gone, or its frame is sent, or it ends
      with the resync. */
  predicate Moves(s: Broker, s': Broker)
    requires Allocated(s) && s.tasks != []
  {
    assert s.tasks[0] in s.tasks;
    var client := s.tasks[0].client;
    || s'.tasks == s.tasks
    || (s'.tasks == s.tasks[1..]
        && (client in s.done || s.phase in {Draining, Resync}
            || (client in s'.buf && s'.buf[client] == s.buf[client] + [s.tasks[0].frame])))
  }

  lemma FlusherMoves(s: Broker, s': Broker)
    requires Allocated(s) && FlusherStep(s, s')
    ensures Moves(s, s')
  {}

  lemma KeepsTask(s: Broker, s': Broker, c: Change, client: ClientId)
    requires Allocated(s) && s.tasks != [] && Moves(s, s') && client in s'.buf && client !in s.done
    requires TaskCovers(s.tasks, client, c) && !Refilling(s, client)
    ensures TaskCovers(s'.tasks, client, c) || SomeCovers(s'.buf[client], c)
  {
    var i :| 0 <= i < |s.tasks| && s.tasks[i].client == client && Covers(s.tasks[i].frame, c);
    if i > 0 {
      assert s'.tasks == s.tasks || s'.tasks[i - 1] == s.tasks[i];
    } else if s'.tasks != s.tasks {
      assert s'.buf[client][|s'.buf[client]| - 1] == s.tasks[0].frame;
    }
  }

  lemma FlusherKeepsBuffer(s: Broker, s': Broker, c: Change, client: ClientId)
    requires Allocated(s) && FlusherStep(s, s') && client in s.buf && client !in s.done
    requires s.phase == Resync ==> (assert s.tasks[0] in s.tasks; s.buf[s.tasks[0].client] == [])
    requires SomeCovers(s.buf[client], c) || Refilling(s, client)
    ensures client in s'.buf && (SomeCovers(s'.buf[client], c) || Refilling(s', client))
  {
    assert s.tasks[0] in s.tasks;
    if Refilling(s, client) {
      if s.phase == Resync {
        assert s'.buf[client] == [ResyncFrame(s.cluster)];
        assert Covers(s'.buf[client][0], c);
      }
    } else {
      var i :| 0 <= i < |s.buf[client]| && Covers(s.buf[client][i], c);
      assert s'.buf[client][i] == s.buf[client][i];
    }
  }

  lemma FlusherKeepsSent(s: Broker, s': Broker, c: Change, client: ClientId, base: nat)
    requires Inv(s) && FlusherStep(s, s') && client in s.clients
    requires base <= |s.got[client]| && Sent(s, c, client, base)
    ensures client in s'.buf && Sent(s', c, client, base)
  {
    FlusherFrame(s, s');
    if SomeCovers(s.buf[client], c) || Refilling(s, client) {
      FlusherKeepsBuffer(s, s', c, client);
    } else if TaskCovers(s.tasks, client, c) {
      FlusherMoves(s, s');
      KeepsTask(s, s', c, client);
    }
  }

  /** Reading moves the first buffered frame to the end of what was received. */
  lemma ReceiveKeepsFrame(buf: seq<Frame>, got: seq<Frame>, c: Change)
    requires buf != [] && (SomeCovers(buf, c) || SomeCovers(got, c))
    ensures SomeCovers(buf[1..], c) || SomeCovers(got + [buf[0]], c)
  {
    if SomeCovers(buf, c) {
      var i :| 0 <= i < |buf| && Covers(buf[i], c);
      if i == 0 { assert (got + [buf[0]])[|got|] == buf[0]; } else { assert buf[1..][i - 1] == buf[i]; }
    } else {
      var i :| 0 <= i < |got| && Covers(got[i], c);
      assert (got + [buf[0]])[i] == got[i];
    }
  }

  lemma ReceiveKeepsSent(s: Broker, d: ClientId, s': Broker, c: Change, client: ClientId, base: nat)
    requires Inv(s) && Next(s, Receive(d), s') && client in s.clients
    requires base <= |s.got[client]| && Sent(s, c, client, base)
    ensures client in s'.buf && client in s'.got && base <= |s'.got[client]| && Sent(s', c, client, base)
  {
    if d == client {
      var buf, got := s.buf[client], s.got[client][base..];
      assert s'.got[client][base..] == got + [buf[0]];
      if SomeCovers(buf, c) || SomeCovers(got, c) { ReceiveKeepsFrame(buf, got, c); }
    }
  }

  /** What a flush has taken no step takes from a client that stays subscribed, whatever is recorded. */
  lemma StepKeepsSent(s: Broker, e: Event, s': Broker, c: Change, client: ClientId, base: nat)
    requires Inv(s) && Next(s, e, s') && client in s.clients && client in s'.clients
    requires base <= |s.got[client]| && Sent(s, c, client, base)
    ensures client in s'.buf && client in s'.got && base <= |s'.got[client]| && Sent(s', c, client, base)
  {
    match e
    case Flusher => FlusherFrame(s, s'); FlusherKeepsSent(s, s', c, client, base);
    case Receive(d) => ReceiveKeepsSent(s, d, s', c, client, base);
    case Snapshot(keys, order) => assert s.tasks == [] && !TaskCovers(s.tasks, client, c);
    case _ =>
  }

  lemma SnapshotSends(s: Broker, keys: seq<string>, order: seq<ClientId>, s': Broker, c: Change, client: ClientId, base: nat)
    requires Inv(s) && Next(s, Snapshot(keys, order), s') && client in s.clients
    requires base <= |s.got[client]| && PendingCovers(s.pending, c)
    ensures client in s'.buf && client in s'.got && base <= |s'.got[client]| && Sent(s', c, client, base)
  {
    BroadcastReaches(keys, s.pending, order);
    assert ScopeKey(c) in keys && client in order;
    var t := Task(client, s.pending[ScopeKey(c)]);
    var i :| 0 <= i < |s'.tasks| && s'.tasks[i] == t;
  }

  /** A pending change stays pending until the next flush, unless a later publish takes its keys. */
  lemma StepKeepsPending(s: Broker, e: Event, s': Broker, c: Change)
    requires Inv(s) && Next(s, e, s') && Clean(c) && !e.Snapshot? && PendingCovers(s.pending, c)
    requires e.Record? ==> Clean(e.change) && Compatible(c, e.change)
    ensures PendingCovers(s'.pending, c)
  {
    match e
    case Record(d) => SurvivesExactlyWhenCompatible(s.pending, s.cluster, c, d);
    case Flusher => FlusherFrame(s, s');
    case _ =>
  }

  // ---------- runs ----------

  /** states[i] becomes states[i + 1] by events[i]. */
  ghost predicate IsRun(states: seq<Broker>, events: seq<Event>) {
    |states| == |events| + 1 &&
    states[0] == START &&
    forall i :: 0 <= i < |events| ==> Next(states[i], events[i], states[i + 1])
  }

  ghost predicate CleanRun(events: seq<Event>) {
    forall i :: 0 <= i < |events| && events[i].Record? ==> Clean(events[i].change)
  }

  lemma {:induction false} RunKeepsInv(states: seq<Broker>, events: seq<Event>, n: nat)
    requires IsRun(states, events) && CleanRun(events) && n < |states|
    ensures Inv(states[n])
  {
    if n > 0 {
      RunKeepsInv(states, events, n - 1);
      StepKeepsInv(states[n - 1], events[n - 1], states[n]);
    }
  }

  /** Client ids are never reused: a subscribed client was subscribed at every earlier state that
      already knew it. */
  lemma {:induction false} StaysSubscribed(states: seq<Broker>, events: seq<Event>, j: nat, n: nat, client: ClientId)
    requires IsRun(states, events) && CleanRun(events) && j <= n < |states|
    requires client in states[j].buf && client in states[n].clients
    ensures forall i :: j <= i <= n ==> client in states[i].clients && client in states[i].buf
  {
    if j < n {
      RunKeepsInv(states, events, n - 1);
      KnownStaysKnown(states, events, j, n - 1, client);
      assert Next(states[n - 1], events[n - 1], states[n]);
      assert client in states[n - 1].clients;
      StaysSubscribed(states, events, j, n - 1, client);
    }
    RunKeepsInv(states, events, n);
  }

  lemma {:induction false} KnownStaysKnown(states: seq<Broker>, events: seq<Event>, j: nat, n: nat, client: ClientId)
    requires IsRun(states, events) && j <= n < |states| && client in states[j].buf
    ensures client in states[n].buf
  {
    if j < n {
      KnownStaysKnown(states, events, j, n - 1, client);
      assert Next(states[n - 1], events[n - 1], states[n]);
      assert states[n - 1].tasks != [] ==> states[n - 1].tasks[0] in states[n - 1].tasks;
    }
  }

  ghost predicate NoFlush(events: seq<Event>, j: nat, n: nat)
    requires n <= |events|
  {
    forall i :: j < i < n ==> !events[i].Snapshot?
  }

  /** No later publish of the same Highland scope drops one of the keys of change j before a flush takes it. */
  ghost predicate KeysStay(events: seq<Event>, j: nat, n: nat)
    requires j < n <= |events| && events[j].Record?
  {
    forall i :: j < i < n && events[i].Record? && NoFlush(events, j, i) ==> Compatible(events[j].change, events[i].change)
  }

  lemma KeysStayBefore(events: seq<Event>, j: nat, n: nat)
    requires j + 1 < n <= |events| && events[j].Record? && KeysStay(events, j, n)
    ensures KeysStay(events, j, n - 1)
    ensures events[n - 1].Record? && NoFlush(events, j, n - 1) ==> Compatible(events[j].change, events[n - 1].change)
    ensures NoFlush(events, j, n) <==> NoFlush(events, j, n - 1) && !events[n - 1].Snapshot?
  {}

  /** No invalidation is lost. After a change was recorded at step j, at every later state of the run
      every client that was subscribed then and still is has the change covered, whatever happened
      in between, as long as its keys stay until the next flush; from then on it is on its way. */
  lemma {:induction false} NoInvalidationLost(
    states: seq<Broker>, events: seq<Event>, j: nat, n: nat, client: ClientId)
    requires IsRun(states, events) && CleanRun(events) && j < n < |states| && events[j].Record?
    requires KeysStay(events, j, n)
    requires client in states[j].clients && client in states[n].clients
    ensures client in states[j].got && client in states[n].got && client in states[n].buf
    ensures |states[j].got[client]| <= |states[n].got[client]|
    ensures Covered(states[n], events[j].change, client, |states[j].got[client]|)
    ensures !NoFlush(events, j, n) ==> Sent(states[n], events[j].change, client, |states[j].got[client]|)
  {
    RunKeepsInv(states, events, j);
    RunKeepsInv(states, events, n - 1);
    StaysSubscribed(states, events, j, n, client);
    if n == j + 1 {
      RecordCovers(states[j], events[j].change, states[n], client);
    } else {
      KeysStayBefore(events, j, n);
      NoInvalidationLost(states, events, j, n - 1, client);
      StepKeepsCovered(states[n - 1], events[n - 1], states[n], events[j].change, client, |states[j].got[client]|, NoFlush(events, j, n - 1));
    }
  }

  /** One more step, where `waiting` says that no flush has taken the change yet. */
  lemma StepKeepsCovered(s: Broker, e: Event, s': Broker, c: Change, client: ClientId, base: nat, waiting: bool)
    requires Inv(s) && Next(s, e, s') && Clean(c) && client in s.clients && client in s'.clients
    requires e.Record? ==> Clean(e.change) && (waiting ==> Compatible(c, e.change))
    requires base <= |s.got[client]| && Covered(s, c, client, base) && (!waiting ==> Sent(s, c, client, base))
    ensures client in s'.buf && client in s'.got && base <= |s'.got[client]| && Covered(s', c, client, base)
    ensures !waiting || e.Snapshot? ==> Sent(s', c, client, base)
  {
    if Sent(s, c, client, base) {
      StepKeepsSent(s, e, s', c, client, base);
    } else if e.Snapshot? {
      SnapshotSends(s, e.keys, e.order, s', c, client, base);
    } else {
      StepKeepsPending(s, e, s', c);
      GotGrows(s, e, s', client);
    }
  }

  lemma GotGrows(s: Broker, e: Event, s': Broker, client: ClientId)
    requires Inv(s) && Next(s, e, s') && client in s.clients
    ensures client in s'.buf && client in s'.got && |s.got[client]| <= |s'.got[client]|
  {
    if e.Flusher? { FlusherFrame(s, s'); }
  }

  lemma RecordCovers(s: Broker, c: Change, s': Broker, client: ClientId)
    requires Inv(s) && Next(s, Record(c), s') && Clean(c) && client in s.clients
    ensures client in s'.buf && client in s'.got && |s.got[client]| == |s'.got[client]|
    ensures Covered(s', c, client, |s.got[client]|)
  {
    RecordedOK(s.pending, s.cluster, c);
  }

  /** So once the hub is quiet and the client has emptied its buffer, it has read, since the change
      was recorded, a frame that makes it refetch everything the change touched. */
  lemma QuietClientIsUpToDate(
    states: seq<Broker>, events: seq<Event>, j: nat, n: nat, client: ClientId)
    requires IsRun(states, events) && CleanRun(events) && j < n < |states| && events[j].Record?
    requires KeysStay(events, j, n)
    requires client in states[j].clients && client in states[n].clients
    requires states[n].pending == map[] && states[n].tasks == []
    requires client in states[n].buf && states[n].buf[client] == []
    ensures client in states[j].got && client in states[n].got
    ensures exists i :: |states[j].got[client]| <= i < |states[n].got[client]| &&
                        Covers(states[n].got[client][i], events[j].change)
  {
    NoInvalidationLost(states, events, j, n, client);
    var base := |states[j].got[client]|;
    var received := states[n].got[client];
    assert SomeCovers(received[base..], events[j].change);
    var i :| 0 <= i < |received[base..]| && Covers(received[base..][i], events[j].change);
    assert received[base..][i] == received[base + i];
  }

  /** Every Highland publish of a scope has the same keys. */
  ghost predicate FixedKeys(events: seq<Event>, keysOf: (string, string, string) -> seq<string>) {
    forall i :: 0 <= i < |events| && events[i].Record? && events[i].change.Highland? ==>
      var c := events[i].change; c.keys == keysOf(c.eventType, c.resource, c.name)
  }

  /** Then nothing is lost in any run, flush or no flush. */
  lemma FixedKeysAreNeverLost(states: seq<Broker>, events: seq<Event>, keysOf: (string, string, string) -> seq<string>,
                              j: nat, n: nat, client: ClientId)
    requires IsRun(states, events) && CleanRun(events) && FixedKeys(events, keysOf) && j < n < |states| && events[j].Record?
    requires client in states[j].clients && client in states[n].clients
    ensures client in states[j].got && client in states[n].got && client in states[n].buf
    ensures |states[j].got[client]| <= |states[n].got[client]|
    ensures Covered(states[n], events[j].change, client, |states[j].got[client]|)
  {
    forall i | j < i < n && events[i].Record?
      ensures Compatible(events[j].change, events[i].change)
    {}
    NoInvalidationLost(states, events, j, n, client);
  }

  /** A publish of the same Highland scope with other keys does lose the first one's keys. */
  lemma LaterPublishLosesKeys() returns (states: seq<Broker>, events: seq<Event>, client: ClientId)
    ensures IsRun(states, events) && CleanRun(events) && |events| == 3 && events[1].Record?
    ensures client in states[1].clients && client in states[3].clients
    ensures client in states[3].buf && client in states[3].got
    ensures !Covered(states[3], events[1].change, client, 0)
  {
    var first := Highland("e", ["k1"], "r", "n", None);
    var second := Highland("e", ["k2"], "r", "n", None);
    client := 0;
    var s1 := START.(clients := {0}, buf := map[0 := []], got := map[0 := []]);
    var s2 := s1.(pending := Recorded(s1.pending, s1.cluster, first));
    var s3 := s2.(pending := Recorded(s2.pending, s2.cluster, second));
    states, events := [START, s1, s2, s3], [Subscribe(0), Record(first), Record(second)];
    assert !Compatible(first, second) by {
      assert "k1" in first.keys && "k2"[1] != "k1"[1];
    }
    RecordedOK(s1.pending, s1.cluster, first);
    SurvivesExactlyWhenCompatible(s2.pending, s2.cluster, first, second);
    assert Next(START, events[0], s1);
  }

  // ---------- what is delivered ----------

  /** The frame is still to be sent to the client, buffered for it, or among what it received from `base` on. */
  predicate Delivering(s: Broker, client: ClientId, fr: Frame, base: nat)
    requires client in s.buf && client in s.got && base <= |s.got[client]|
  {
    Task(client, fr) in s.tasks || fr in s.buf[client] || fr in s.got[client][base..]
  }

  /** Change j is the last one of its scope before the flush at m. */
  ghost predicate LastOfScope(events: seq<Event>, j: nat, m: nat)
    requires j < m < |events| && events[j].Record?
  {
    && events[m].Snapshot? && NoFlush(events, j, m)
    && forall i :: j < i < m && events[i].Record? ==> ScopeKey(events[i].change) != ScopeKey(events[j].change)
  }

  ghost predicate SlotTells(s: Broker, c: Change, cluster: string) {
    ScopeKey(c) in s.pending && Carries(s.pending[ScopeKey(c)], c, cluster)
  }

  lemma {:induction false} SlotStays(states: seq<Broker>, events: seq<Event>, j: nat, m: nat, i: nat)
    requires IsRun(states, events) && CleanRun(events) && j < i <= m < |events| && events[j].Record? && LastOfScope(events, j, m)
    ensures SlotTells(states[i], events[j].change, states[j].cluster)
  {
    RunKeepsInv(states, events, i - 1);
    if i == j + 1 {
      assert Next(states[j], events[j], states[i]);
      RecordedCarries(states[j].pending, states[j].cluster, events[j].change);
    } else {
      SlotStays(states, events, j, m, i - 1);
      SlotStep(states[i - 1], events[i - 1], states[i], events[j].change, states[j].cluster);
    }
  }

  lemma SlotStep(s: Broker, e: Event, s': Broker, c: Change, cluster: string)
    requires Inv(s) && Next(s, e, s') && !e.Snapshot? && SlotTells(s, c, cluster)
    requires e.Record? ==> Clean(e.change) && ScopeKey(e.change) != ScopeKey(c)
    ensures SlotTells(s', c, cluster)
  {
    match e
    case Record(d) => RecordedCarries(s.pending, s.cluster, d);
    case Flusher => FlusherFrame(s, s');
    case _ =>
  }

  /** The client's buffer has room. */
  predicate Roomy(s: Broker, client: ClientId) { client in s.buf && |s.buf[client]| < CLIENT_BUFFER }

  lemma FlusherDelivers(s: Broker, s': Broker, client: ClientId, fr: Frame, base: nat)
    requires Inv(s) && FlusherStep(s, s') && client in s.clients && Roomy(s, client) && !Refilling(s, client)
    requires base <= |s.got[client]| && Delivering(s, client, fr, base)
    ensures client in s'.buf && Delivering(s', client, fr, base) && !Refilling(s', client)
  {
    assert s.tasks[0] in s.tasks;
    FlusherFrame(s, s');
    if Task(client, fr) in s.tasks {
      var i :| 0 <= i < |s.tasks| && s.tasks[i] == Task(client, fr);
      if s'.tasks == s.tasks[1..] && i > 0 { assert s'.tasks[i - 1] == Task(client, fr); }
    }
  }

  lemma ReceiveDelivers(s: Broker, d: ClientId, s': Broker, client: ClientId, fr: Frame, base: nat)
    requires Inv(s) && Next(s, Receive(d), s') && client in s.clients
    requires base <= |s.got[client]| && Delivering(s, client, fr, base)
    ensures client in s'.buf && client in s'.got && base <= |s'.got[client]| && Delivering(s', client, fr, base)
  {
    if d == client {
      var buf, got := s.buf[client], s.got[client][base..];
      assert s'.got[client][base..] == got + [buf[0]];
      assert buf == [buf[0]] + buf[1..];
    }
  }

  lemma StepDelivers(s: Broker, e: Event, s': Broker, client: ClientId, fr: Frame, base: nat)
    requires Inv(s) && Next(s, e, s') && client in s.clients && client in s'.clients && Roomy(s, client) && !Refilling(s, client)
    requires base <= |s.got[client]| && Delivering(s, client, fr, base)
    ensures client in s'.buf && client in s'.got && base <= |s'.got[client]|
    ensures Delivering(s', client, fr, base) && !Refilling(s', client)
  {
    match e
    case Flusher => FlusherFrame(s, s'); FlusherDelivers(s, s', client, fr, base);
    case Receive(d) => ReceiveDelivers(s, d, s', client, fr, base);
    case _ =>
  }

  ghost predicate AlwaysRoomy(states: seq<Broker>, client: ClientId, m: nat, n: nat)
    requires n < |states|
  {
    forall i :: m < i <= n ==> Roomy(states[i], client)
  }

  /** It is underway, and no resync is about to replace it. */
  predicate Underway(s: Broker, client: ClientId, fr: Frame, base: nat) {
    && client in s.buf && client in s.got && base <= |s.got[client]|
    && Delivering(s, client, fr, base) && !Refilling(s, client)
  }

  lemma UnderwayNext(states: seq<Broker>, events: seq<Event>, n: nat, client: ClientId, fr: Frame, base: nat)
    requires IsRun(states, events) && CleanRun(events) && 0 < n < |states| && Roomy(states[n - 1], client)
    requires client in states[n - 1].clients && client in states[n].clients && Underway(states[n - 1], client, fr, base)
    ensures Underway(states[n], client, fr, base)
  {
    RunKeepsInv(states, events, n - 1);
    StepDelivers(states[n - 1], events[n - 1], states[n], client, fr, base);
  }

  ghost predicate Holds(states: seq<Broker>, client: ClientId, a: nat, n: nat)
    requires n < |states|
  {
    forall i :: a <= i <= n ==> Roomy(states[i], client) && client in states[i].clients
  }

  lemma {:induction false} StaysUnderway(states: seq<Broker>, events: seq<Event>, a: nat, n: nat, client: ClientId, fr: Frame, base: nat)
    requires IsRun(states, events) && CleanRun(events) && a <= n < |states| && Holds(states, client, a, n)
    requires Underway(states[a], client, fr, base)
    ensures Underway(states[n], client, fr, base)
  {
    if a < n {
      StaysUnderway(states, events, a, n - 1, client, fr, base);
      UnderwayNext(states, events, n, client, fr, base);
    }
  }

  /** In every run, the last change of a scope before a flush reaches every client that is subscribed then,
      stays subscribed and never has its buffer full: as it was recorded, with its own name, and for a publish
      its own keys and entity. */
  lemma LastChangeIsDelivered(states: seq<Broker>, events: seq<Event>, j: nat, m: nat, n: nat, client: ClientId) returns (fr: Frame)
    requires IsRun(states, events) && CleanRun(events) && j < m < n < |states| && events[j].Record? && LastOfScope(events, j, m)
    requires client in states[m].clients && client in states[n].clients && AlwaysRoomy(states, client, m, n)
    ensures Carries(fr, events[j].change, states[j].cluster)
    ensures client in states[m].got && client in states[n].got && client in states[n].buf
    ensures |states[m].got[client]| <= |states[n].got[client]|
    ensures Delivering(states[n], client, fr, |states[m].got[client]|)
  {
    var c := events[j].change;
    SlotStays(states, events, j, m, m);
    RunKeepsInv(states, events, m);
    fr := states[m].pending[ScopeKey(c)];
    FlushSends(states[m], events[m], states[m + 1], client, ScopeKey(c));
    StaysSubscribed(states, events, m + 1, n, client);
    StaysUnderway(states, events, m + 1, n, client, fr, |states[m].got[client]|);
  }

  lemma FlushSends(s: Broker, e: Event, s': Broker, client: ClientId, key: string)
    requires Inv(s) && Next(s, e, s') && e.Snapshot? && client in s.clients && key in s.pending
    ensures Task(client, s.pending[key]) in s'.tasks && s'.clients == s.clients && s'.buf == s.buf && s'.got == s.got
    ensures client in s.buf && client in s.got && !Refilling(s', client)
  {
    BroadcastReaches(e.keys, s.pending, e.order);
    assert key in e.keys && client in e.order;
  }

  /** So once the flusher is done and the client has read its buffer, it has received that frame. */
  lemma QuietClientHasLastChange(states: seq<Broker>, events: seq<Event>, j: nat, m: nat, n: nat, client: ClientId) returns (fr: Frame)
    requires IsRun(states, events) && CleanRun(events) && j < m < n < |states| && events[j].Record? && LastOfScope(events, j, m)
    requires client in states[m].clients && client in states[n].clients && AlwaysRoomy(states, client, m, n)
    requires states[n].tasks == [] && client in states[n].buf && states[n].buf[client] == []
    ensures Carries(fr, events[j].change, states[j].cluster) && client in states[n].got && fr in states[n].got[client]
  {
    fr := LastChangeIsDelivered(states, events, j, m, n, client);
    var got := states[n].got[client];
    assert got == got[..|states[m].got[client]|] + got[|states[m].got[client]|..];
  }

  // ---------- the flusher never blocks ----------

  function PhaseRank(p: Phase): nat {
    match p case Check => 3 case TrySend => 2 case Draining => 1 case Resync => 0
  }

  function HeadBuffer(s: Broker): nat
    requires Allocated(s)
  {
    if s.tasks == [] then 0 else assert s.tasks[0] in s.tasks; |s.buf[s.tasks[0].client]|
  }

  /** The work left in the current flush, compared lexicographically. */
  ghost predicate LessWork(s': Broker, s: Broker)
    requires Allocated(s) && Allocated(s')
  {
    || |s'.tasks| < |s.tasks|
    || (|s'.tasks| == |s.tasks| && PhaseRank(s'.phase) < PhaseRank(s.phase))
    || (|s'.tasks| == |s.tasks| && s'.phase == s.phase && HeadBuffer(s') < HeadBuffer(s))
  }

  lemma FlusherHasStep(s: Broker) returns (s': Broker)
    requires Inv(s) && s.tasks != []
    ensures FlusherStep(s, s')
  {
    var t := s.tasks[0];
    assert t in s.tasks;
    s' := match s.phase
      case Check => if t.client in s.done then Advance(s) else s.(phase := TrySend)
      case TrySend =>
        if |s.buf[t.client]| < CLIENT_BUFFER then Advance(Enqueue(s, t.client, t.frame))
        else if t.client in s.done then Advance(s) else s.(phase := Draining)
      case Draining =>
        if s.buf[t.client] == [] then s.(phase := Resync)
        else s.(buf := s.buf[t.client := s.buf[t.client][1..]])
      case Resync => Advance(Enqueue(s, t.client, ResyncFrame(s.cluster)));
  }

  lemma FlusherDoesWork(s: Broker, s': Broker)
    requires Inv(s) && FlusherStep(s, s')
    ensures Allocated(s') && LessWork(s', s)
  {
    assert s.tasks[0] in s.tasks;
    FlusherKeepsInv(s, s');
  }

  lemma OthersAddNoWork(s: Broker, e: Event, s': Broker)
    requires Inv(s) && Next(s, e, s') && !e.Flusher? && !e.Snapshot?
    ensures Allocated(s') && s'.tasks == s.tasks && s'.phase == s.phase && HeadBuffer(s') <= HeadBuffer(s)
  {
    if s.tasks != [] { assert s.tasks[0] in s.tasks; }
  }

  /** While frames remain the flusher always has a step, every step of its own leaves less work, no
      step of anybody else leaves more during a flush, and the arm that would drop a resync frame
      is never ready. */
  lemma FlushAlwaysProgresses(s: Broker)
    requires Inv(s)
    ensures s.tasks != [] ==> exists s' :: FlusherStep(s, s')
    ensures forall s' :: FlusherStep(s, s') ==> Allocated(s') && LessWork(s', s)
    ensures forall e, s' :: Next(s, e, s') && !e.Flusher? && !e.Snapshot? ==>
      Allocated(s') && s'.tasks == s.tasks && s'.phase == s.phase && HeadBuffer(s') <= HeadBuffer(s)
    ensures s.phase == Resync ==> HeadBuffer(s) < CLIENT_BUFFER
  {
    if s.tasks != [] { var s' := FlusherHasStep(s); }
    forall s' | FlusherStep(s, s') ensures Allocated(s') && LessWork(s', s) {
      FlusherDoesWork(s, s');
    }
    forall e, s' | Next(s, e, s') && !e.Flusher? && !e.Snapshot?
      ensures Allocated(s') && s'.tasks == s.tasks && s'.phase == s.phase && HeadBuffer(s') <= HeadBuffer(s)
    {
      OthersAddNoWork(s, e, s');
    }
  }

  /** How many micro-steps one send takes at most: check, try, drain, see the buffer empty, resync. */
  const SEND_STEPS: nat := CLIENT_BUFFER + 4

  /** A bound on the micro-steps left for the first task, whose client has `buffered` frames. */
  function HeadWork(phase: Phase, buffered: nat): nat {
    match phase
    case Check => SEND_STEPS
    case TrySend => SEND_STEPS - 1
    case Draining => buffered + 2
    case Resync => 1
  }

  /** A bound on the micro-steps left in the current flush. */
  function Work(s: Broker): nat
    requires Allocated(s)
  {
    if s.tasks == [] then 0 else SEND_STEPS * (|s.tasks| - 1) + HeadWork(s.phase, HeadBuffer(s))
  }

  function FlusherEvents(events: seq<Event>, j: nat, n: nat): nat
    requires j <= n <= |events|
  {
    if n == j then 0 else FlusherEvents(events, j, n - 1) + if events[n - 1].Flusher? then 1 else 0
  }

  lemma FlusherLessHeadWork(s: Broker, s': Broker)
    requires Inv(s) && FlusherStep(s, s')
    ensures Allocated(s')
    ensures (s'.tasks == s.tasks[1..] && s'.phase == Check)
         || (s'.tasks == s.tasks && HeadWork(s'.phase, HeadBuffer(s')) < HeadWork(s.phase, HeadBuffer(s)))
  {
    assert s.tasks[0] in s.tasks;
    FlusherFrame(s, s');
  }

  lemma FlusherLessWork(s: Broker, s': Broker)
    requires Inv(s) && FlusherStep(s, s')
    ensures Allocated(s') && Work(s') < Work(s)
  {
    FlusherLessHeadWork(s, s');
  }

  lemma {:induction false} BroadcastLength(keys: seq<string>, pending: map<string, Frame>, order: seq<ClientId>)
    requires forall k :: k in keys ==> k in pending
    ensures |Broadcast(keys, pending, order)| == |keys| * |order|
  {
    if keys != [] {
      BroadcastLength(keys[1..], pending, order);
      OneMore(|keys|, |order|);
    }
  }

  lemma OneMore(k: nat, n: nat)
    requires k > 0
    ensures k * n == n + (k - 1) * n
  {}

  lemma TasksLeft(s: Broker, count: nat)
    requires Allocated(s) && |s.tasks| == count && s.phase == Check
    ensures Work(s) == SEND_STEPS * count
  {}

  lemma FlushStarts(s: Broker, e: Event, s': Broker)
    requires Inv(s) && Next(s, e, s') && e.Snapshot?
    ensures Allocated(s') && Work(s') <= SEND_STEPS * (|e.keys| * |e.order|)
  {
    StepKeepsInv(s, e, s');
    BroadcastLength(e.keys, s.pending, e.order);
    TasksLeft(s', |e.keys| * |e.order|);
  }

  lemma StepLeavesLessWork(s: Broker, e: Event, s': Broker)
    requires Inv(s) && Next(s, e, s') && !e.Snapshot?
    ensures Allocated(s') && Work(s') + (if e.Flusher? then 1 else 0) <= Work(s)
  {
    if e.Flusher? { FlusherLessWork(s, s'); } else { OthersAddNoWork(s, e, s'); }
  }

  /** Micro-steps are paid for by the work there was. */
  lemma {:induction false} WorkPays(states: seq<Broker>, events: seq<Event>, j: nat, n: nat)
    requires IsRun(states, events) && CleanRun(events) && j <= n < |states|
    requires forall i :: j <= i < n ==> !events[i].Snapshot?
    ensures Allocated(states[j]) && Allocated(states[n])
    ensures FlusherEvents(events, j, n) + Work(states[n]) <= Work(states[j])
  {
    RunKeepsInv(states, events, n);
    if j < n {
      WorkPays(states, events, j, n - 1);
      RunKeepsInv(states, events, n - 1);
      StepLeavesLessWork(states[n - 1], events[n - 1], states[n]);
    }
  }

  /** A flush is bounded: whatever anybody else does, until the next flush the flusher takes at most
      SEND_STEPS micro-steps for each frame and client. */
  lemma FlushIsBounded(states: seq<Broker>, events: seq<Event>, j: nat, n: nat)
    requires IsRun(states, events) && CleanRun(events) && j < n < |states| && events[j].Snapshot?
    requires NoFlush(events, j, n)
    ensures Allocated(states[n])
    ensures FlusherEvents(events, j + 1, n) + Work(states[n]) <= SEND_STEPS * (|events[j].keys| * |events[j].order|)
  {
    RunKeepsInv(states, events, j);
    FlushStarts(states[j], events[j], states[j + 1]);
    WorkPays(states, events, j + 1, n);
  }

  // ---------- one uninterrupted send ----------

  /** The client's buffer after `send` ran without interference. */
  function AfterSend(buf: seq<Frame>, gone: bool, fr: Frame, cluster: string): seq<Frame> {
    if gone then buf
    else if |buf| < CLIENT_BUFFER then buf + [fr]
    else [ResyncFrame(cluster)]
  }

  /** trace is a list of flusher micro-steps. */
  ghost predicate FlusherOnly(trace: seq<Broker>) {
    trace != [] && (forall i :: 0 <= i < |trace| ==> Allocated(trace[i])) &&
    forall i :: 0 <= i < |trace| - 1 ==> FlusherStep(trace[i], trace[i + 1])
  }

  /** From the drain on, flusher steps alone reach a buffer that holds one resync frame. */
  lemma {:induction false} DrainReaches(s: Broker) returns (trace: seq<Broker>)
    requires Inv(s) && s.tasks != [] && s.phase == Draining
    ensures FlusherOnly(trace) && trace[0] == s
    ensures s.tasks[0] in s.tasks
    ensures trace[|trace| - 1] ==
      s.(buf := s.buf[s.tasks[0].client := [ResyncFrame(s.cluster)]], tasks := s.tasks[1..], phase := Check)
    decreases HeadBuffer(s)
  {
    var client := s.tasks[0].client;
    assert s.tasks[0] in s.tasks;
    if s.buf[client] == [] {
      var s1 := s.(phase := Resync);
      var s2 := Advance(Enqueue(s1, client, ResyncFrame(s.cluster)));
      FlusherKeepsInv(s, s1);
      FlusherKeepsInv(s1, s2);
      assert s.buf[client] + [ResyncFrame(s.cluster)] == [ResyncFrame(s.cluster)];
      trace := [s, s1, s2];
    } else {
      var s1 := s.(buf := s.buf[client := s.buf[client][1..]]);
      FlusherKeepsInv(s, s1);
      var rest := DrainReaches(s1);
      trace := [s] + rest;
      assert forall i :: 0 < i < |trace| ==> trace[i] == rest[i - 1];
      assert s1.buf[client := [ResyncFrame(s.cluster)]] == s.buf[client := [ResyncFrame(s.cluster)]];
    }
  }

  /** The micro-steps of one send, run without interference, have the effect AfterSend. */
  lemma {:induction false} UninterruptedSend(s: Broker) returns (trace: seq<Broker>)
    requires Inv(s) && s.tasks != [] && s.phase == Check
    ensures FlusherOnly(trace) && trace[0] == s
    ensures s.tasks[0] in s.tasks
    ensures var t := s.tasks[0];
      trace[|trace| - 1] == s.(tasks := s.tasks[1..],
        buf := s.buf[t.client := AfterSend(s.buf[t.client], t.client in s.done, t.frame, s.cluster)])
  {
    var t := s.tasks[0];
    assert t in s.tasks;
    if t.client in s.done {
      FlusherKeepsInv(s, Advance(s));
      assert s.buf[t.client := s.buf[t.client]] == s.buf;
      trace := [s, Advance(s)];
    } else {
      var s1 := s.(phase := TrySend);
      FlusherKeepsInv(s, s1);
      if |s.buf[t.client]| < CLIENT_BUFFER {
        var s2 := Advance(Enqueue(s1, t.client, t.frame));
        FlusherKeepsInv(s1, s2);
        trace := [s, s1, s2];
      } else {
        var s2 := s1.(phase := Draining);
        FlusherKeepsInv(s1, s2);
        var rest := DrainReaches(s2);
        trace := [s, s1] + rest;
        assert forall i :: 2 <= i < |trace| ==> trace[i] == rest[i - 2];
      }
    }
  }
}
