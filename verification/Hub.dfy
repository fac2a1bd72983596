/** The hub's methods, each run without interference and proved against the functions the
    interleaved model in ChangeBroker uses (apps/api/internal/watch/hub.go). */
module Hub {
  import opened Common
  import opened ChangeFrames
  import opened ChangeBroker

  class SseClient {
    var ch: seq<Frame>   // the buffered channel
    var done: bool       // whether the done channel is closed

    constructor ()
      ensures ch == [] && !done
    {
      ch, done := [], false;
    }

    method Stop()
      modifies this`done
      ensures done
    {
      done := true;
    }
  }

  /** Buffer contents after the frames were sent in order. */
  function AfterSends(buf: seq<Frame>, gone: bool, frames: seq<Frame>, cluster: string): (r: seq<Frame>)
    ensures |buf| <= CLIENT_BUFFER ==> |r| <= CLIENT_BUFFER
    ensures gone ==> r == buf
    decreases |frames|
  {
    if frames == [] then buf
    else AfterSends(AfterSend(buf, gone, frames[0], cluster), gone, frames[1..], cluster)
  }

  lemma {:induction false} AfterSendsSnoc(buf: seq<Frame>, gone: bool, frames: seq<Frame>, fr: Frame, cluster: string)
    ensures AfterSends(buf, gone, frames + [fr], cluster)
      == AfterSend(AfterSends(buf, gone, frames, cluster), gone, fr, cluster)
    decreases |frames|
  {
    if frames == [] {
      assert frames + [fr] == [fr];
      assert [fr][1..] == [];
    } else {
      AfterSendsSnoc(AfterSend(buf, gone, frames[0], cluster), gone, frames[1..], fr, cluster);
      assert (frames + [fr])[1..] == frames[1..] + [fr];
    }
  }

  /** A broadcast reaches every client that is not gone: the frame itself or a resync frame is in the
      buffer afterwards. */
  lemma {:induction false} BroadcastDelivers(buf: seq<Frame>, frames: seq<Frame>, cluster: string, c: Change)
    requires SomeCovers(buf, c) || SomeCovers(frames, c)
    ensures SomeCovers(AfterSends(buf, false, frames, cluster), c)
    decreases |frames|
  {
    if frames != [] {
      var next := AfterSend(buf, false, frames[0], cluster);
      if SomeCovers(buf, c) || Covers(frames[0], c) {
        if next == [ResyncFrame(cluster)] {
          assert Covers(next[0], c);
        } else if Covers(frames[0], c) {
          assert Covers(next[|buf|], c);
        } else {
          var i :| 0 <= i < |buf| && Covers(buf[i], c);
          assert Covers(next[i], c);
        }
      } else {
        var i :| 0 <= i < |frames| && Covers(frames[i], c);
        assert frames[1..][i - 1] == frames[i];
      }
      BroadcastDelivers(next, frames[1..], cluster, c);
    }
  }

  function FramesOf(order: seq<string>, pending: map<string, Frame>): (r: seq<Frame>)
    requires forall k :: k in order ==> k in pending
    ensures |r| == |order| && forall i :: 0 <= i < |order| ==> r[i] == pending[order[i]]
  {
    seq(|order|, i requires 0 <= i < |order| => pending[order[i]])
  }

  class ChangeHub {
    var clusterID: string
    var clients: set<SseClient>
    var pending: map<string, Frame>
    var stopped: bool

    constructor ()
      ensures clusterID == "local" && clients == {} && pending == map[] && !stopped
    {
      clusterID, clients, pending, stopped := "local", {}, map[], false;
    }

    method MarkScoped(providerID: string, namespace: string, kind: string, name: string, keys: seq<string>)
      modifies this`pending
      ensures pending == Recorded(old(pending), clusterID, Scoped(providerID, namespace, kind, name, keys))
    {
      var scopeKey := JoinNul([providerID, namespace, kind]);
      var fr := if scopeKey in pending then pending[scopeKey] else ZERO_FRAME;
      fr := fr.(version := 2, cluster := clusterID, providerID := providerID, namespace := namespace,
                kind := kind, name := name);
      ghost var want := MergeKeys(fr.keys, keys);
      var merged, i := fr.keys, 0;
      var seen := set k | k in fr.keys;
      while i < |keys|
        invariant 0 <= i <= |keys|
        invariant forall k :: k in seen <==> k in merged
        invariant MergeKeys(merged, keys[i..]) == want
      {
        var key := keys[i];
        assert keys[i..][0] == key && keys[i..][1..] == keys[i + 1..];
        if key !in seen && key != "" {
          merged := merged + [key];
          seen := seen + {key};
        }
        i := i + 1;
      }
      assert keys[|keys|..] == [];
      pending := pending[scopeKey := fr.(keys := merged)];
    }

    method PublishHighlandChange(eventType: string, keys: seq<string>, resource: string, name: string,
                                 entity: Option<string>)
      modifies this`pending
      ensures pending == Recorded(old(pending), clusterID, Highland(eventType, keys, resource, name, entity))
    {
      var scopeKey := JoinNul(["highland", eventType, resource, name]);
      pending := pending[scopeKey := Frame(2, clusterID, eventType, "", "", resource, keys, name, entity)];
    }

    /** Never blocks: a full buffer is drained and replaced by one resync frame. */
    method Send(c: SseClient, fr: Frame)
      modifies c`ch
      ensures c.ch == AfterSend(old(c.ch), c.done, fr, clusterID)
      ensures if c.done then c.ch == old(c.ch)
        else if |old(c.ch)| < CLIENT_BUFFER then c.ch == old(c.ch) + [fr]
        else c.ch == [Frame(2, clusterID, "", "", "", "", ["__all__"], "", None)]
    {
      if c.done { return; }
      if |c.ch| < CLIENT_BUFFER {
        c.ch := c.ch + [fr];
        return;
      }
      while c.ch != []
        decreases |c.ch|
      {
        c.ch := c.ch[1..];
      }
      if |c.ch| < CLIENT_BUFFER {
        c.ch := c.ch + [ResyncFrame(clusterID)];
      }
    }

    /** Empties `pending` and sends every frame to every client, in some order of the map. */
    method FlushOnce() returns (ghost order: seq<string>)
      modifies this`pending, clients`ch
      ensures pending == map[]
      ensures IsOrderOf(order, old(pending).Keys)
      ensures forall c :: c in clients ==>
        c.ch == AfterSends(old(c.ch), c.done, FramesOf(order, old(pending)), clusterID)
    {
      if pending == map[] {
        return [];
      }
      var frames;
      frames, order := TakePending();
      var i := 0;
      assert frames[..0] == [];
      while i < |frames|
        invariant 0 <= i <= |frames| && pending == map[]
        invariant forall c :: c in clients ==> c.ch == AfterSends(old(c.ch), c.done, frames[..i], clusterID)
      {
        SendToAll(frames[i]);
        assert frames[..i + 1] == frames[..i] + [frames[i]];
        forall c | c in clients
          ensures c.ch == AfterSends(old(c.ch), c.done, frames[..i + 1], clusterID)
        {
          AfterSendsSnoc(old(c.ch), c.done, frames[..i], frames[i], clusterID);
        }
        i := i + 1;
      }
      assert frames[..|frames|] == frames;
    }

    /** The first phase, under the lock. */
    method TakePending() returns (frames: seq<Frame>, ghost order: seq<string>)
      modifies this`pending
      ensures pending == map[]
      ensures IsOrderOf(order, old(pending).Keys)
      ensures frames == FramesOf(order, old(pending))
    {
      frames, order := [], [];
      ghost var was := pending;
      while pending != map[]
        modifies this`pending
        invariant pending.Keys <= was.Keys && forall k :: k in pending ==> pending[k] == was[k]
        invariant IsOrderOf(order, was.Keys - pending.Keys)
        invariant frames == FramesOf(order, was)
        decreases |pending.Keys|
      {
        assert pending.Keys != {};
        var key :| key in pending;
        frames := frames + [pending[key]];
        order := order + [key];
        ghost var before := pending.Keys;
        pending := pending - {key};
        assert pending.Keys == before - {key};
      }
    }

    method SendToAll(fr: Frame)
      modifies clients`ch
      ensures forall c :: c in clients ==> c.ch == AfterSend(old(c.ch), c.done, fr, clusterID)
    {
      var todo := clients;
      while todo != {}
        invariant todo <= clients
        invariant forall c :: c in todo ==> c.ch == old(c.ch)
        invariant forall c :: c in clients - todo ==> c.ch == AfterSend(old(c.ch), c.done, fr, clusterID)
        decreases |todo|
      {
        var c :| c in todo;
        Send(c, fr);
        todo := todo - {c};
      }
    }

    method Subscribe() returns (c: SseClient?)
      modifies this`clients
      ensures c == null <==> stopped
      ensures c == null ==> clients == old(clients)
      ensures c != null ==> fresh(c) && c.ch == [] && !c.done && clients == old(clients) + {c}
    {
      if stopped { return null; }
      c := new SseClient();
      clients := clients + {c};
    }

    method Unsubscribe(c: SseClient)
      modifies this`clients, c`done
      ensures clients == old(clients) - {c} && c.done
    {
      clients := clients - {c};
      c.Stop();
    }

    /** Idempotent; every client that was subscribed is told to leave. */
    method Stop()
      modifies this`stopped, this`clients, clients`done
      ensures stopped
      ensures old(stopped) ==> clients == old(clients)
      ensures old(stopped) ==> forall c :: c in clients ==> c.done == old(c.done)
      ensures !old(stopped) ==> clients == {} && forall c :: c in old(clients) ==> c.done
    {
      if stopped { return; }
      stopped := true;
      var leaving := clients;
      clients := {};
      var todo := leaving;
      while todo != {}
        modifies leaving`done
        invariant todo <= old(clients)
        invariant forall c :: c in old(clients) - todo ==> c.done
        decreases |todo|
      {
        var c :| c in todo;
        c.Stop();
        todo := todo - {c};
      }
    }
  }
}
