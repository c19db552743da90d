/** The in-process broadcast hub of js/app.js: the module-level variables
    `lastHostInfo`, `mcpServer`, `mcpClients` and `mcpHistory`
    (js/app.js:37-40) gathered into one immutable state, with a pure step
    function for each thing that changes them. */
module Hub {
  import opened Optional
  import opened History
  import opened Registry

  /** `running` stands for `mcpServer` being non-null. */
  datatype HubState = HubState(history: seq<Record>, clients: seq<Conn>, hostInfo: string, running: bool)

  /** The values the module-level `let`s start with (js/app.js:37-40). */
  const Initial: HubState := HubState([], [], "", false)

  /** What every reachable state satisfies: the history is bounded, and no
      connection is registered before the server exists. */
  ghost predicate Valid(h: HubState) {
    |h.history| <= Capacity && (!h.running ==> h.clients == [])
  }

  /** One `res.write(data)` on a registered connection. */
  datatype Write = Write(conn: Conn, data: string)

  /** A new hub state together with the writes that produced it, in order. */
  datatype Effect = Effect(hub: HubState, writes: seq<Write>)

  /** One event-stream frame (js/app.js:110): the field name `data`, the
      serialised record, and the blank line that ends the event. */
  function Frame(ser: Record -> string, r: Record): (f: string)
    ensures |f| == |ser(r)| + 8
    ensures f[..6] == "data: " && f[6..|f| - 2] == ser(r) && f[|f| - 2..] == "\n\n"
  {
    "data: " + ser(r) + "\n\n"
  }

  /** How an event-stream reader takes one event apart: a single `data:`
      line (the one space after the colon is not part of the value) ended by
      a blank line, or `None` for anything else. The reader ends a line at a
      line feed or at a carriage return, so neither may occur in the value. */
  function FrameData(f: string): Option<string> {
    if |f| >= 8 && f[..6] == "data: " && f[|f| - 2..] == "\n\n"
       && '\n' !in f[6..|f| - 2] && '\r' !in f[6..|f| - 2]
    then Some(f[6..|f| - 2])
    else None
  }

  /** A reader gets back exactly the serialised record, as long as the
      serialisation holds no line feed or carriage return (`JSON.stringify`
      without indentation escapes both inside strings and never emits them
      between tokens). */
  lemma FrameDataRoundTrip(ser: Record -> string, r: Record)
    requires '\n' !in ser(r) && '\r' !in ser(r)
    ensures FrameData(Frame(ser, r)) == Some(ser(r))
  {
    var f := Frame(ser, r);
    assert f[6..|f| - 2] == ser(r);
  }

  /** `mcpClients.forEach((client) => client.write(data))`. */
  function Broadcast(clients: seq<Conn>, data: string): (w: seq<Write>)
    ensures |w| == |clients|
    ensures forall k :: 0 <= k < |clients| ==> w[k] == Write(clients[k], data)
  {
    if |clients| == 0 then [] else [Write(clients[0], data)] + Broadcast(clients[1..], data)
  }

  /** `emitMcpMessage(payload)` (js/app.js:97-114); `None` is a falsy payload.
      `ser` is `JSON.stringify`, `stamp` the clock readings. */
  function Emit(h: HubState, payload: Option<Payload>, stamp: Stamp, ser: Record -> string): (e: Effect)
    ensures payload.None? ==> e.hub == h && e.writes == []
    ensures payload.Some? ==>
      var r := MakeRecord(stamp, payload.value);
      && |e.hub.history| == Min(|h.history| + 1, Capacity)
      && e.hub.history[0] == r
      && e.hub.history[1..] == h.history[..|e.hub.history| - 1]
      && e.hub.clients == h.clients && e.hub.hostInfo == h.hostInfo && e.hub.running == h.running
      && |e.writes| == |h.clients|
      && forall k :: 0 <= k < |h.clients| ==> e.writes[k] == Write(h.clients[k], Frame(ser, r))
  {
    match payload
    case None => Effect(h, [])
    case Some(p) =>
      var r := MakeRecord(stamp, p);
      var h' := h.(history := Push(h.history, r));
      if |h.clients| == 0 then Effect(h', [])
      else Effect(h', Broadcast(h.clients, Frame(ser, r)))
  }

  /** `appendMessage(role, text)` as far as the hub sees it: the panel shows
      the line and emits `{ role, text }` (js/app.js:54-61). */
  function AppendMessage(h: HubState, role: string, text: string, stamp: Stamp, ser: Record -> string): (e: Effect)
    ensures var r := Record(stamp.id, stamp.timestamp, role, text);
      && e.hub == h.(history := Push(h.history, r))
      && e.writes == Broadcast(h.clients, Frame(ser, r))
  {
    Emit(h, Some(Payload(role, text)), stamp, ser)
  }

  /** The body `/snapshot` serialises: `{ hostInfo, history }`. */
  datatype Snapshot = Snapshot(hostInfo: string, history: seq<Record>)

  /** What a response carries: an event stream opened by a first write, a
      JSON snapshot, or a plain-text body. */
  datatype Body = EventStream(first: string) | SnapshotJson(snapshot: Snapshot) | Text(text: string)

  datatype Response = Response(status: int, headers: seq<(string, string)>, body: Body)

  datatype Routed = Routed(hub: HubState, response: Response)

  const StreamHeaders: seq<(string, string)> :=
    [("Content-Type", "text/event-stream"), ("Cache-Control", "no-cache"), ("Connection", "keep-alive")]

  const JsonHeaders: seq<(string, string)> := [("Content-Type", "application/json")]

  /** The request handler passed to `http.createServer` (js/app.js:128-152),
      for a request on `url` answered through the response object `res`.
      The handler exists only once the server does. */
  function Route(h: HubState, url: string, res: Conn): (r: Routed)
    requires h.running
    ensures url == "/sse" ==>
      && r.hub.clients == Register(h.clients, res)
      && r.hub.history == h.history && r.hub.hostInfo == h.hostInfo && r.hub.running
      && r.response == Response(200, StreamHeaders, EventStream("\n"))
    ensures url != "/sse" ==> r.hub == h
    ensures url == "/snapshot" ==>
      r.response == Response(200, JsonHeaders, SnapshotJson(Snapshot(h.hostInfo, h.history)))
    ensures url != "/sse" && url != "/snapshot" ==> r.response == Response(404, [], Text("Not Found"))
  {
    if url == "/sse" then
      Routed(h.(clients := Register(h.clients, res)), Response(200, StreamHeaders, EventStream("\n")))
    else if url == "/snapshot" then
      Routed(h, Response(200, JsonHeaders, SnapshotJson(Snapshot(h.hostInfo, h.history))))
    else
      Routed(h, Response(404, [], Text("Not Found")))
  }

  /** The `close` listener of an `/sse` request (js/app.js:137-139). */
  function Disconnect(h: HubState, res: Conn): (h': HubState)
    ensures res !in h'.clients
    ensures forall x :: x != res ==> multiset(h'.clients)[x] == multiset(h.clients)[x]
    ensures h'.history == h.history && h'.hostInfo == h.hostInfo && h'.running == h.running
  {
    CloseCounts(h.clients, res);
    h.(clients := Close(h.clients, res))
  }

  const RunningStatus := "실행 중"
  const FailedStatus := "실행 실패"
  const NodeMissingNotice := "MCP 서버를 시작할 수 없습니다. (CEP Node 사용 불가)"

  /** The outcome of a start: the new state, the writes of any message it
      emitted, and the status line it set (`None` when it sets none now). */
  datatype Started = Started(hub: HubState, writes: seq<Write>, status: Option<string>)

  /** `startMcpServer()` up to the server's creation (js/app.js:116-128);
      `nodeAvailable` says whether the panel can reach Node's `require`. */
  function Start(h: HubState, nodeAvailable: bool, stamp: Stamp, ser: Record -> string): (s: Started)
    ensures h.running ==> s == Started(h, [], Some(RunningStatus))
    ensures !h.running && nodeAvailable ==> s == Started(h.(running := true), [], None)
    ensures !h.running && !nodeAvailable ==>
      && !s.hub.running && s.hub.clients == h.clients && s.hub.hostInfo == h.hostInfo
      && |s.hub.history| > 0 && s.hub.history[0] == Record(stamp.id, stamp.timestamp, "system", NodeMissingNotice)
      && s.hub.history == Push(h.history, Record(stamp.id, stamp.timestamp, "system", NodeMissingNotice))
      && s.writes == Broadcast(h.clients, Frame(ser, Record(stamp.id, stamp.timestamp, "system", NodeMissingNotice)))
      && s.status == Some(FailedStatus)
  {
    if h.running then Started(h, [], Some(RunningStatus))
    else if !nodeAvailable then
      var e := AppendMessage(h, "system", NodeMissingNotice, stamp, ser);
      Started(e.hub, e.writes, Some(FailedStatus))
    else Started(h.(running := true), [], None)
  }

  /** Once a start has created the server, every later start leaves the
      state alone and only reports that the server is running. */
  lemma StartTwiceIsNoOp(h: HubState, a: bool, b: bool, s1: Stamp, s2: Stamp, ser: Record -> string)
    requires Start(h, a, s1, ser).hub.running
    ensures Start(Start(h, a, s1, ser).hub, b, s2, ser) == Started(Start(h, a, s1, ser).hub, [], Some(RunningStatus))
  {
  }

  /** An emit keeps the hub valid: the history stays within capacity. */
  lemma EmitPreservesValid(h: HubState, payload: Option<Payload>, stamp: Stamp, ser: Record -> string)
    requires Valid(h)
    ensures Valid(Emit(h, payload, stamp, ser).hub)
  {
  }

  /** A close keeps the hub valid. */
  lemma DisconnectPreservesValid(h: HubState, res: Conn)
    requires Valid(h)
    ensures Valid(Disconnect(h, res))
  {
  }

  /** A start keeps the hub valid, also when it only emits a notice. */
  lemma StartPreservesValid(h: HubState, nodeAvailable: bool, stamp: Stamp, ser: Record -> string)
    requires Valid(h)
    ensures Valid(Start(h, nodeAvailable, stamp, ser).hub)
  {
  }

  /** A request keeps the hub valid: it registers only on a running hub. */
  lemma RoutePreservesValid(h: HubState, url: string, res: Conn)
    requires Valid(h) && h.running
    ensures Valid(Route(h, url, res).hub)
  {
  }

  /** Before the server exists nothing is registered, so an emit (for
      instance the one a failed start makes) writes nothing. */
  lemma NoWritesBeforeStart(h: HubState, payload: Option<Payload>, stamp: Stamp, ser: Record -> string)
    requires Valid(h) && !h.running
    ensures Emit(h, payload, stamp, ser).writes == []
  {
  }

  /** Opening an event stream and closing it again restores the state. */
  lemma {:induction false} OpenThenCloseRestores(h: HubState, res: Conn)
    requires h.running && res !in h.clients
    ensures Disconnect(Route(h, "/sse", res).hub, res) == h
  {
    CloseUndoesRegister(h.clients, res);
  }

  /** A connection closes at most once in effect: a repeated close changes
      nothing more. */
  lemma DisconnectIdempotent(h: HubState, res: Conn)
    ensures Disconnect(Disconnect(h, res), res) == Disconnect(h, res)
  {
    CloseIdempotent(h.clients, res);
  }

  /** A snapshot requested right after an emit shows the emitted record first
      and the host information as it stands. */
  lemma SnapshotAfterEmit(h: HubState, p: Payload, stamp: Stamp, ser: Record -> string, res: Conn)
    requires h.running
    ensures var h' := Emit(h, Some(p), stamp, ser).hub;
      && Route(h', "/snapshot", res).response.body.snapshot.history[0] == MakeRecord(stamp, p)
      && Route(h', "/snapshot", res).response.body.snapshot.hostInfo == h.hostInfo
  {
  }
}
