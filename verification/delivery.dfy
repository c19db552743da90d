/** Runs of the hub: a sequence of publishes, requests and connection
    closes applied one after another, and what each connection receives. */
module Delivery {
  import opened Optional
  import opened History
  import opened Registry
  import opened Hub

  /** Something that happens to a running hub. `Request` carries a fresh
      response object for every request, as Node's server creates one. */
  datatype Event =
    | Publish(payload: Option<Payload>, stamp: Stamp)
    | Request(url: string, conn: Conn)
    | ConnClosed(conn: Conn)

  /** One event's effect. Opening an event stream writes its first chunk
      (js/app.js:135) to the new connection. */
  function Apply(h: HubState, ev: Event, ser: Record -> string): (e: Effect)
    requires h.running
    ensures e.hub.running
  {
    match ev
    case Publish(p, stamp) => Emit(h, p, stamp, ser)
    case Request(url, conn) =>
      var r := Route(h, url, conn);
      if r.response.body.EventStream? then Effect(r.hub, [Write(conn, r.response.body.first)])
      else Effect(r.hub, [])
    case ConnClosed(conn) => Effect(Disconnect(h, conn), [])
  }

  /** The events of `evs` in order, with all their writes in order. */
  function Run(h: HubState, evs: seq<Event>, ser: Record -> string): (e: Effect)
    requires h.running
    ensures e.hub.running
    decreases |evs|
  {
    if |evs| == 0 then Effect(h, [])
    else
      var e1 := Apply(h, evs[0], ser);
      var e2 := Run(e1.hub, evs[1..], ser);
      Effect(e2.hub, e1.writes + e2.writes)
  }

  /** The data written to connection `c`, in order. */
  function FramesTo(c: Conn, ws: seq<Write>): seq<string>
    decreases |ws|
  {
    if |ws| == 0 then []
    else (if ws[0].conn == c then [ws[0].data] else []) + FramesTo(c, ws[1..])
  }

  /** The records the truthy publishes of `evs` create, in publish order. */
  function Records(evs: seq<Event>): seq<Record>
    decreases |evs|
  {
    if |evs| == 0 then []
    else
      (if evs[0].Publish? && evs[0].payload.Some?
       then [MakeRecord(evs[0].stamp, evs[0].payload.value)] else [])
      + Records(evs[1..])
  }

  function Frames(ser: Record -> string, rs: seq<Record>): (fs: seq<string>)
    ensures |fs| == |rs|
    ensures forall k :: 0 <= k < |rs| ==> fs[k] == Frame(ser, rs[k])
  {
    if |rs| == 0 then [] else [Frame(ser, rs[0])] + Frames(ser, rs[1..])
  }

  /** No event of `evs` opens or closes connection `c`. */
  predicate Untouched(evs: seq<Event>, c: Conn) {
    forall k :: 0 <= k < |evs| ==> !(evs[k].Request? && evs[k].conn == c) && evs[k] != ConnClosed(c)
  }

  lemma {:induction false} FramesToConcat(c: Conn, a: seq<Write>, b: seq<Write>)
    ensures FramesTo(c, a + b) == FramesTo(c, a) + FramesTo(c, b)
    decreases |a|
  {
    if |a| > 0 {
      assert (a + b)[0] == a[0];
      assert (a + b)[1..] == a[1..] + b;
      FramesToConcat(c, a[1..], b);
    } else {
      assert a + b == b;
    }
  }

  function Repeat(data: string, n: nat): (r: seq<string>)
    ensures |r| == n
  {
    if n == 0 then [] else [data] + Repeat(data, n - 1)
  }

  /** A broadcast writes to `c` once for every time `c` is registered. */
  lemma {:induction false} FramesToBroadcast(c: Conn, clients: seq<Conn>, data: string)
    ensures FramesTo(c, Broadcast(clients, data)) == Repeat(data, multiset(clients)[c])
    decreases |clients|
  {
    if |clients| > 0 {
      var x: Conn, t: seq<Conn> := clients[0], clients[1..];
      MultisetOfCons(clients, c);
      FramesToBroadcast(c, t, data);
      FramesToCons(c, Write(x, data), Broadcast(t, data));
    }
  }

  lemma MultisetOfCons(clients: seq<Conn>, c: Conn)
    requires |clients| > 0
    ensures multiset(clients)[c] == (if clients[0] == c then 1 else 0) + multiset(clients[1..])[c]
  {
    assert clients == [clients[0]] + clients[1..];
  }

  /** One event delivers to a connection registered exactly once, and left
      alone by the event, exactly the frame of the record it publishes. */
  lemma {:induction false} ApplyDelivers(h: HubState, ev: Event, ser: Record -> string, c: Conn)
    requires h.running && multiset(h.clients)[c] == 1 && Untouched([ev], c)
    ensures multiset(Apply(h, ev, ser).hub.clients)[c] == 1
    ensures FramesTo(c, Apply(h, ev, ser).writes) == Frames(ser, Records([ev]))
  {
    assert Records([ev]) == (if ev.Publish? && ev.payload.Some? then [MakeRecord(ev.stamp, ev.payload.value)] else []) + Records([]);
    match ev
    case Publish(p, stamp) =>
      if p.Some? {
        var r := MakeRecord(stamp, p.value);
        assert Emit(h, p, stamp, ser).writes == Broadcast(h.clients, Frame(ser, r));
        FramesToBroadcast(c, h.clients, Frame(ser, r));
      }
    case Request(url, conn) =>
      if url == "/sse" {
        assert multiset(Register(h.clients, conn))[c] == multiset(h.clients)[c];
        assert FramesTo(c, [Write(conn, "\n")]) == [] + FramesTo(c, []);
      }
    case ConnClosed(conn) =>
  }

  /** A connection registered once, and neither reopened nor closed during a
      run, receives the frame of every record the run publishes, in publish
      order, and nothing else. */
  lemma {:induction false} SubscriberReceivesEveryEvent(h: HubState, evs: seq<Event>, ser: Record -> string, c: Conn)
    requires h.running && multiset(h.clients)[c] == 1 && Untouched(evs, c)
    ensures FramesTo(c, Run(h, evs, ser).writes) == Frames(ser, Records(evs))
    decreases |evs|
  {
    if |evs| > 0 {
      var e1 := Apply(h, evs[0], ser);
      assert Untouched([evs[0]], c);
      ApplyDelivers(h, evs[0], ser, c);
      assert Untouched(evs[1..], c);
      SubscriberReceivesEveryEvent(e1.hub, evs[1..], ser, c);
      FramesToConcat(c, e1.writes, Run(e1.hub, evs[1..], ser).writes);
      RecordsConcat([evs[0]], evs[1..]);
      assert [evs[0]] + evs[1..] == evs;
      FramesConcat(ser, Records([evs[0]]), Records(evs[1..]));
    }
  }

  /** Such a connection is still registered exactly once after the run. */
  lemma {:induction false} SubscriberStaysRegistered(h: HubState, evs: seq<Event>, ser: Record -> string, c: Conn)
    requires h.running && multiset(h.clients)[c] == 1 && Untouched(evs, c)
    ensures multiset(Run(h, evs, ser).hub.clients)[c] == 1
    decreases |evs|
  {
    if |evs| > 0 {
      assert Untouched([evs[0]], c);
      ApplyDelivers(h, evs[0], ser, c);
      assert Untouched(evs[1..], c);
      SubscriberStaysRegistered(Apply(h, evs[0], ser).hub, evs[1..], ser, c);
    }
  }

  lemma {:induction false} RecordsConcat(a: seq<Event>, b: seq<Event>)
    ensures Records(a + b) == Records(a) + Records(b)
    decreases |a|
  {
    if |a| > 0 {
      assert (a + b)[0] == a[0];
      assert (a + b)[1..] == a[1..] + b;
      RecordsConcat(a[1..], b);
    } else {
      assert a + b == b;
    }
  }

  lemma FramesConcat(ser: Record -> string, a: seq<Record>, b: seq<Record>)
    ensures Frames(ser, a + b) == Frames(ser, a) + Frames(ser, b)
  {
  }

  /** Two connections that stay registered through a run receive the same
      frames in the same order. */
  lemma SubscribersAgree(h: HubState, evs: seq<Event>, ser: Record -> string, c1: Conn, c2: Conn)
    requires h.running
    requires multiset(h.clients)[c1] == 1 && Untouched(evs, c1)
    requires multiset(h.clients)[c2] == 1 && Untouched(evs, c2)
    ensures FramesTo(c1, Run(h, evs, ser).writes) == FramesTo(c2, Run(h, evs, ser).writes)
  {
    SubscriberReceivesEveryEvent(h, evs, ser, c1);
    SubscriberReceivesEveryEvent(h, evs, ser, c2);
  }

  /** No event of `evs` opens connection `c`. */
  predicate NeverOpened(evs: seq<Event>, c: Conn) {
    forall k :: 0 <= k < |evs| ==> !(evs[k].Request? && evs[k].conn == c)
  }

  /** A connection that is not registered, and is not opened during a run,
      receives nothing from it: once closed, a connection gets no frame. */
  lemma {:induction false} AbsentReceivesNothing(h: HubState, evs: seq<Event>, ser: Record -> string, c: Conn)
    requires h.running && c !in h.clients && NeverOpened(evs, c)
    ensures FramesTo(c, Run(h, evs, ser).writes) == []
    ensures c !in Run(h, evs, ser).hub.clients
    decreases |evs|
  {
    if |evs| > 0 {
      var e1 := Apply(h, evs[0], ser);
      match evs[0] {
        case Publish(p, stamp) =>
          if p.Some? {
            FramesToBroadcast(c, h.clients, Frame(ser, MakeRecord(stamp, p.value)));
          }
          assert e1.hub.clients == h.clients;
        case Request(url, conn) =>
          assert FramesTo(c, e1.writes) == [];
          assert e1.hub.clients == (if url == "/sse" then h.clients + [conn] else h.clients);
        case ConnClosed(conn) =>
          assert multiset(e1.hub.clients)[c] == 0 by {
            assert multiset(h.clients)[c] == 0;
          }
      }
      AbsentReceivesNothing(e1.hub, evs[1..], ser, c);
      FramesToConcat(c, e1.writes, Run(e1.hub, evs[1..], ser).writes);
    }
  }

  /** One event pushes the record it publishes, if any, and nothing else. */
  lemma {:induction false} ApplyHistory(h: HubState, ev: Event, ser: Record -> string)
    requires h.running
    ensures Apply(h, ev, ser).hub.history == PushAll(h.history, Records([ev]))
  {
    assert Records([ev]) == (if ev.Publish? && ev.payload.Some? then [MakeRecord(ev.stamp, ev.payload.value)] else []) + Records([]);
    if ev.Publish? && ev.payload.Some? {
      var r := MakeRecord(ev.stamp, ev.payload.value);
      assert PushAll(h.history, [r]) == PushAll(Push(h.history, r), []);
    }
  }

  /** The history after a run is the ring the run's records build: the
      newest `Capacity` of them, newest first, ahead of the older history. */
  lemma {:induction false} RunHistory(h: HubState, evs: seq<Event>, ser: Record -> string)
    requires h.running && |h.history| <= Capacity
    ensures Run(h, evs, ser).hub.history == PushAll(h.history, Records(evs))
    ensures Run(h, evs, ser).hub.history == Newest(h.history, Records(evs))
    decreases |evs|
  {
    if |evs| > 0 {
      var e1 := Apply(h, evs[0], ser);
      ApplyHistory(h, evs[0], ser);
      assert |e1.hub.history| <= Capacity by {
        match evs[0] {
          case Publish(p, stamp) =>
          case Request(url, conn) =>
          case ConnClosed(conn) =>
        }
      }
      RunHistory(e1.hub, evs[1..], ser);
      RecordsConcat([evs[0]], evs[1..]);
      assert [evs[0]] + evs[1..] == evs;
      PushAllConcat(h.history, Records([evs[0]]), Records(evs[1..]));
    }
    PushAllIsNewest(h.history, Records(evs));
  }

  lemma {:induction false} PushAllConcat(history: seq<Record>, a: seq<Record>, b: seq<Record>)
    ensures PushAll(history, a + b) == PushAll(PushAll(history, a), b)
    decreases |a|
  {
    if |a| > 0 {
      assert (a + b)[0] == a[0];
      assert (a + b)[1..] == a[1..] + b;
      PushAllConcat(Push(history, a[0]), a[1..], b);
    } else {
      assert a + b == b;
    }
  }

  /** Every event keeps the hub valid. */
  lemma ApplyPreservesValid(h: HubState, ev: Event, ser: Record -> string)
    requires h.running && Valid(h)
    ensures Valid(Apply(h, ev, ser).hub)
  {
    match ev
    case Publish(p, stamp) => EmitPreservesValid(h, p, stamp, ser);
    case Request(url, conn) => RoutePreservesValid(h, url, conn);
    case ConnClosed(conn) => DisconnectPreservesValid(h, conn);
  }

  /** Every run keeps the hub valid. */
  lemma {:induction false} RunPreservesValid(h: HubState, evs: seq<Event>, ser: Record -> string)
    requires h.running && Valid(h)
    ensures Valid(Run(h, evs, ser).hub)
    decreases |evs|
  {
    if |evs| > 0 {
      var e1 := Apply(h, evs[0], ser);
      ApplyPreservesValid(h, evs[0], ser);
      RunPreservesValid(e1.hub, evs[1..], ser);
    }
  }

  /** The writes of a run in which subscriber 1 attaches, `d` is published,
      subscriber 2 attaches and `e` is published. */
  lemma ScenarioWrites(h: HubState, ser: Record -> string, d: Payload, e: Payload, sd: Stamp, se: Stamp)
    requires h.running && h.clients == []
    ensures Run(h, [Request("/sse", 1), Publish(Some(d), sd), Request("/sse", 2), Publish(Some(e), se)], ser).writes
      == [Write(1, "\n"), Write(1, Frame(ser, MakeRecord(sd, d))), Write(2, "\n"),
          Write(1, Frame(ser, MakeRecord(se, e))), Write(2, Frame(ser, MakeRecord(se, e)))]
  {
    var fd, fe := Frame(ser, MakeRecord(sd, d)), Frame(ser, MakeRecord(se, e));
    var evs := [Request("/sse", 1), Publish(Some(d), sd), Request("/sse", 2), Publish(Some(e), se)];
    var e1 := Apply(h, evs[0], ser);
    AttachStep(h, 1, ser);
    assert e1.hub.clients == [1];
    var e2 := Apply(e1.hub, evs[1], ser);
    PublishStep(e1.hub, d, sd, ser);
    BroadcastOne(1, fd);
    var e3 := Apply(e2.hub, evs[2], ser);
    AttachStep(e2.hub, 2, ser);
    assert e3.hub.clients == [1, 2];
    var e4 := Apply(e3.hub, evs[3], ser);
    PublishStep(e3.hub, e, se, ser);
    BroadcastTwo(1, 2, fe);
    var t3: seq<Event> := [evs[3]] + [];
    var t2 := [evs[2]] + t3;
    var t1 := [evs[1]] + t2;
    RunCons(e3.hub, evs[3], [], ser);
    RunCons(e2.hub, evs[2], t3, ser);
    RunCons(e1.hub, evs[1], t2, ser);
    RunCons(h, evs[0], t1, ser);
    assert [evs[0]] + t1 == evs;
  }

  /** Opening an event stream registers it and writes its first chunk. */
  lemma AttachStep(h: HubState, c: Conn, ser: Record -> string)
    requires h.running
    ensures Apply(h, Request("/sse", c), ser) == Effect(h.(clients := h.clients + [c]), [Write(c, "\n")])
  {
  }

  /** A truthy publish broadcasts its record's frame to the clients. */
  lemma PublishStep(h: HubState, p: Payload, st: Stamp, ser: Record -> string)
    requires h.running
    ensures Apply(h, Publish(Some(p), st), ser).hub.clients == h.clients
    ensures Apply(h, Publish(Some(p), st), ser).writes == Broadcast(h.clients, Frame(ser, MakeRecord(st, p)))
  {
  }

  lemma BroadcastOne(c: Conn, data: string)
    ensures Broadcast([c], data) == [Write(c, data)]
  {
  }

  lemma BroadcastTwo(c1: Conn, c2: Conn, data: string)
    ensures Broadcast([c1, c2], data) == [Write(c1, data), Write(c2, data)]
  {
  }

  lemma RunCons(h: HubState, ev: Event, rest: seq<Event>, ser: Record -> string)
    requires h.running
    ensures Run(h, [ev] + rest, ser).writes == Apply(h, ev, ser).writes + Run(Apply(h, ev, ser).hub, rest, ser).writes
  {
    assert ([ev] + rest)[0] == ev && ([ev] + rest)[1..] == rest;
  }

  /** Two subscribers attached at different times: the first receives both
      later records' frames, the second only the frame published after it
      attached; each also receives the stream's opening newline. */
  lemma TwoSubscribersScenario(h: HubState, ser: Record -> string, d: Payload, e: Payload, sd: Stamp, se: Stamp)
    requires h.running && h.clients == []
    ensures var w := Run(h, [Request("/sse", 1), Publish(Some(d), sd), Request("/sse", 2), Publish(Some(e), se)], ser).writes;
      && FramesTo(1, w) == ["\n", Frame(ser, MakeRecord(sd, d)), Frame(ser, MakeRecord(se, e))]
      && FramesTo(2, w) == ["\n", Frame(ser, MakeRecord(se, e))]
  {
    var fd, fe := Frame(ser, MakeRecord(sd, d)), Frame(ser, MakeRecord(se, e));
    ScenarioWrites(h, ser, d, e, sd, se);
    var w4 := [Write(2, fe)];
    var w3 := [Write(1, fe)] + w4;
    var w2 := [Write(2, "\n")] + w3;
    var w1 := [Write(1, fd)] + w2;
    var w := [Write(1, "\n")] + w1;
    FramesToCons(1, Write(2, fe), []);
    FramesToCons(2, Write(2, fe), []);
    FramesToCons(1, Write(1, fe), w4);
    FramesToCons(2, Write(1, fe), w4);
    FramesToCons(1, Write(2, "\n"), w3);
    FramesToCons(2, Write(2, "\n"), w3);
    FramesToCons(1, Write(1, fd), w2);
    FramesToCons(2, Write(1, fd), w2);
    FramesToCons(1, Write(1, "\n"), w1);
    FramesToCons(2, Write(1, "\n"), w1);
    assert [Write(2, fe)] + [] == w4;
    assert w == [Write(1, "\n"), Write(1, fd), Write(2, "\n"), Write(1, fe), Write(2, fe)];
  }

  lemma FramesToCons(c: Conn, x: Write, ws: seq<Write>)
    ensures FramesTo(c, [x] + ws) == (if x.conn == c then [x.data] else []) + FramesTo(c, ws)
  {
    assert ([x] + ws)[1..] == ws;
  }

  /** A run of `a + b` is the run of `a` followed by the run of `b` from
      where `a` left the hub. */
  lemma {:induction false} RunConcat(h: HubState, a: seq<Event>, b: seq<Event>, ser: Record -> string)
    requires h.running
    ensures var ea := Run(h, a, ser);
      var eb := Run(ea.hub, b, ser);
      Run(h, a + b, ser) == Effect(eb.hub, ea.writes + eb.writes)
    decreases |a|
  {
    if |a| == 0 {
      assert a + b == b;
    } else {
      assert (a + b)[0] == a[0];
      assert (a + b)[1..] == a[1..] + b;
      var e1 := Apply(h, a[0], ser);
      RunConcat(e1.hub, a[1..], b, ser);
      var ea', eb := Run(e1.hub, a[1..], ser), Run(Run(e1.hub, a[1..], ser).hub, b, ser);
      assert e1.writes + (ea'.writes + eb.writes) == (e1.writes + ea'.writes) + eb.writes;
    }
  }

  /** A subscriber that attaches in the middle of a run receives the
      stream's opening newline and then the frame of every record published
      after it attached, in order, and nothing from before. */
  lemma {:induction false} AttachMidRun(h: HubState, a: seq<Event>, b: seq<Event>, ser: Record -> string, c: Conn)
    requires h.running && c !in h.clients && NeverOpened(a, c) && Untouched(b, c)
    ensures FramesTo(c, Run(h, a + [Request("/sse", c)] + b, ser).writes) == ["\n"] + Frames(ser, Records(b))
  {
    var ea := Run(h, a, ser);
    AbsentReceivesNothing(h, a, ser, c);
    RunConcat(h, a, [Request("/sse", c)] + b, ser);
    assert a + [Request("/sse", c)] + b == a + ([Request("/sse", c)] + b);
    var ev := Request("/sse", c);
    var e1 := Apply(ea.hub, ev, ser);
    assert e1.writes == [Write(c, "\n")];
    assert multiset(e1.hub.clients)[c] == 1 by {
      assert e1.hub.clients == ea.hub.clients + [c];
      assert multiset(ea.hub.clients)[c] == 0;
    }
    assert ([ev] + b)[0] == ev && ([ev] + b)[1..] == b;
    var eb := Run(e1.hub, b, ser);
    SubscriberReceivesEveryEvent(e1.hub, b, ser, c);
    FramesToConcat(c, ea.writes, e1.writes + eb.writes);
    FramesToCons(c, Write(c, "\n"), eb.writes);
  }

  /** A subscriber that closes in the middle of a run receives the frames
      of the records published before its close and nothing after it. */
  lemma {:induction false} CloseMidRun(h: HubState, a: seq<Event>, b: seq<Event>, ser: Record -> string, c: Conn)
    requires h.running && multiset(h.clients)[c] == 1 && Untouched(a, c) && NeverOpened(b, c)
    ensures FramesTo(c, Run(h, a + [ConnClosed(c)] + b, ser).writes) == Frames(ser, Records(a))
  {
    var ea := Run(h, a, ser);
    SubscriberReceivesEveryEvent(h, a, ser, c);
    SubscriberStaysRegistered(h, a, ser, c);
    RunConcat(h, a, [ConnClosed(c)] + b, ser);
    assert a + [ConnClosed(c)] + b == a + ([ConnClosed(c)] + b);
    var ev := ConnClosed(c);
    var e1 := Apply(ea.hub, ev, ser);
    assert e1.writes == [] && c !in e1.hub.clients;
    assert ([ev] + b)[0] == ev && ([ev] + b)[1..] == b;
    var eb := Run(e1.hub, b, ser);
    AbsentReceivesNothing(e1.hub, b, ser, c);
    FramesToConcat(c, ea.writes, e1.writes + eb.writes);
    assert e1.writes + eb.writes == eb.writes;
  }

  /** Subscribers attached at different times agree on the events they
      share: an earlier one receives the frames of the records published
      before and after the later one attached, and the later one, after its
      opening newline, the frames of those published after, in the same
      order. */
  lemma {:induction false} LateSubscriberSeesSuffix(h: HubState, a: seq<Event>, b: seq<Event>, ser: Record -> string,
                                                     c1: Conn, c2: Conn)
    requires h.running
    requires multiset(h.clients)[c1] == 1 && Untouched(a + [Request("/sse", c2)] + b, c1)
    requires c2 !in h.clients && NeverOpened(a, c2) && Untouched(b, c2)
    ensures var w := Run(h, a + [Request("/sse", c2)] + b, ser).writes;
      && FramesTo(c1, w) == Frames(ser, Records(a)) + Frames(ser, Records(b))
      && FramesTo(c2, w) == ["\n"] + Frames(ser, Records(b))
  {
    var ev := Request("/sse", c2);
    AttachMidRun(h, a, b, ser, c2);
    SubscriberReceivesEveryEvent(h, a + [ev] + b, ser, c1);
    RecordsOfAttach(a, ev, b);
    FramesConcat(ser, Records(a), Records(b));
  }

  /** Opening a stream publishes no record. */
  lemma {:induction false} RecordsOfAttach(a: seq<Event>, ev: Event, b: seq<Event>)
    requires ev.Request?
    ensures Records(a + [ev] + b) == Records(a) + Records(b)
  {
    assert Records([ev]) == [] by {
      assert [ev][1..] == [];
      assert Records([ev]) == [] + Records([]);
    }
    RecordsConcat(a, [ev]);
    assert Records(a + [ev]) == Records(a);
    RecordsConcat(a + [ev], b);
  }
}
