/** The host-project summary and how it reaches the hub and the chat
    prompt: `handleRefreshHostInfo` (js/app.js:251-267) and the prompt
    composition of `handleCallGPT` (js/app.js:203-218). */
module HostContext {
  import opened Optional
  import opened JsStrings
  import opened History
  import opened Registry
  import opened Hub
  import opened Delivery

  /** The bridge callback's result normalised (js/app.js:258): a falsy
      result and the literal `'undefined'` both mean "no information". */
  function NormalizeHostInfo(result: Option<string>): (r: string)
    ensures r == "" <==> result.None? || result.value == "" || result.value == "undefined"
    ensures r != "" ==> result == Some(r)
  {
    match result
    case Some(s) => if s != "" && s != "undefined" then s else ""
    case None => ""
  }

  /** A value that survived normalisation survives it again. */
  lemma NormalizeHostInfoIdempotent(result: Option<string>)
    ensures NormalizeHostInfo(Some(NormalizeHostInfo(result))) == NormalizeHostInfo(result)
  {
  }

  const LoadedNotice := "프로젝트 정보 로드 완료.\n"
  const NoInfoNotice := "프로젝트 정보가 없습니다."

  /** The refresh callback (js/app.js:257-266): store the normalised summary;
      then either announce it and broadcast it as a `host` record (stamped
      by `s2`) after the announcement (stamped by `s1`), or report that
      there is none. */
  function RefreshHostInfo(h: HubState, result: Option<string>, s1: Stamp, s2: Stamp, ser: Record -> string): (e: Effect)
    ensures e.hub.hostInfo == NormalizeHostInfo(result)
    ensures e.hub.clients == h.clients && e.hub.running == h.running
    ensures e.hub.hostInfo != "" ==>
      && |e.hub.history| >= 2
      && e.hub.history[0] == Record(s2.id, s2.timestamp, "host", e.hub.hostInfo)
      && e.hub.history[1] == Record(s1.id, s1.timestamp, "system", LoadedNotice + e.hub.hostInfo)
      && |e.writes| == 2 * |h.clients|
    ensures e.hub.hostInfo != "" ==>
      var a := Record(s1.id, s1.timestamp, "system", LoadedNotice + e.hub.hostInfo);
      var b := Record(s2.id, s2.timestamp, "host", e.hub.hostInfo);
      && e.hub.history == Push(Push(h.history, a), b)
      && e.writes == Broadcast(h.clients, Frame(ser, a)) + Broadcast(h.clients, Frame(ser, b))
    ensures e.hub.hostInfo == "" ==>
      && |e.hub.history| >= 1
      && e.hub.history[0] == Record(s1.id, s1.timestamp, "system", NoInfoNotice)
      && |e.writes| == |h.clients|
    ensures e.hub.hostInfo == "" ==>
      var n := Record(s1.id, s1.timestamp, "system", NoInfoNotice);
      && e.hub.history == Push(h.history, n)
      && e.writes == Broadcast(h.clients, Frame(ser, n))
  {
    var info := NormalizeHostInfo(result);
    var h1 := h.(hostInfo := info);
    if info != "" then
      var e1 := AppendMessage(h1, "system", LoadedNotice + info, s1, ser);
      var e2 := Emit(e1.hub, Some(Payload("host", info)), s2, ser);
      Effect(e2.hub, e1.writes + e2.writes)
    else
      AppendMessage(h1, "system", NoInfoNotice, s1, ser)
  }

  const ContextHeader := "\n\n[Adobe 프로젝트 정보]\n"

  /** What `handleCallGPT` sends to the chat API: the trimmed key and the
      final prompt. */
  datatype ChatRequest = ChatRequest(apiKey: string, prompt: string)

  /** The final prompt (js/app.js:215-218): the host summary is appended
      under a header only when the flag is set and the summary is non-empty. */
  function ComposePrompt(prompt: string, includeHostInfo: bool, hostInfo: string): (r: string)
    ensures r == prompt <==> !(includeHostInfo && hostInfo != "")
    ensures includeHostInfo && hostInfo != "" ==> r == prompt + ContextHeader + hostInfo
  {
    var contextBlock := if includeHostInfo && hostInfo != "" then ContextHeader + hostInfo else "";
    assert |prompt + contextBlock| == |prompt| + |contextBlock|;
    assert contextBlock == "" ==> prompt + contextBlock == prompt;
    prompt + contextBlock
  }

  /** `handleCallGPT` up to the chat call (js/app.js:204-218): `None` when the
      trimmed key or prompt is empty and the panel only alerts. */
  function PrepareChat(apiKeyInput: string, promptInput: string, includeHostInfo: bool, hostInfo: string): (r: Option<ChatRequest>)
    ensures r.None? <==> AllWhitespace(apiKeyInput) || AllWhitespace(promptInput)
    ensures r.Some? ==> r.value.apiKey == Trim(apiKeyInput) && r.value.apiKey != ""
    ensures r.Some? ==> r.value.prompt == ComposePrompt(Trim(promptInput), includeHostInfo, hostInfo)
  {
    var apiKey := Trim(apiKeyInput);
    var prompt := Trim(promptInput);
    if apiKey == "" || prompt == "" then None
    else Some(ChatRequest(apiKey, ComposePrompt(prompt, includeHostInfo, hostInfo)))
  }

  /** After a refresh that found a summary, a chat with the flag set carries
      that summary after the header; after one that found none, the prompt
      goes out unchanged. */
  lemma RefreshThenPrepareChat(h: HubState, result: Option<string>, s1: Stamp, s2: Stamp, ser: Record -> string,
                               apiKeyInput: string, promptInput: string)
    requires !AllWhitespace(apiKeyInput) && !AllWhitespace(promptInput)
    ensures var info := RefreshHostInfo(h, result, s1, s2, ser).hub.hostInfo;
      var r := PrepareChat(apiKeyInput, promptInput, true, info);
      && r.Some?
      && (NormalizeHostInfo(result) != "" ==> r.value.prompt == Trim(promptInput) + ContextHeader + result.value)
      && (NormalizeHostInfo(result) == "" ==> r.value.prompt == Trim(promptInput))
  {
  }

  /** What one subscriber sees of a refresh: the announcement and then the
      `host` record when a summary was found, otherwise only the notice that
      there is none. */
  lemma {:induction false} RefreshDelivers(h: HubState, result: Option<string>, s1: Stamp, s2: Stamp,
                                           ser: Record -> string, c: Conn)
    requires multiset(h.clients)[c] == 1
    ensures var info := NormalizeHostInfo(result);
      var e := RefreshHostInfo(h, result, s1, s2, ser);
      && (info != "" ==>
            FramesTo(c, e.writes) == [Frame(ser, Record(s1.id, s1.timestamp, "system", LoadedNotice + info)),
                                      Frame(ser, Record(s2.id, s2.timestamp, "host", info))])
      && (info == "" ==> FramesTo(c, e.writes) == [Frame(ser, Record(s1.id, s1.timestamp, "system", NoInfoNotice))])
  {
    var info := NormalizeHostInfo(result);
    var e := RefreshHostInfo(h, result, s1, s2, ser);
    if info != "" {
      var fa := Frame(ser, Record(s1.id, s1.timestamp, "system", LoadedNotice + info));
      var fb := Frame(ser, Record(s2.id, s2.timestamp, "host", info));
      FramesToConcat(c, Broadcast(h.clients, fa), Broadcast(h.clients, fb));
      FramesToBroadcast(c, h.clients, fa);
      FramesToBroadcast(c, h.clients, fb);
      assert Repeat(fa, 1) == [fa];
      assert Repeat(fb, 1) == [fb];
    } else {
      var fn := Frame(ser, Record(s1.id, s1.timestamp, "system", NoInfoNotice));
      FramesToBroadcast(c, h.clients, fn);
      assert Repeat(fn, 1) == [fn];
    }
  }
}
