/** JSON-RPC requests across the two phases: what the parser books and stores for a request, and how the
    response plugin rebuilds one error per request when the upstream fails. */
module RpcBatch {
  import opened Wrappers
  import opened Wire
  import opened Patch
  import opened Tracking
  import opened ConfCache
  import opened Chain
  import Requests
  import Responses
  import ReqResponses
  import Quota
  import QuotaCode

  /** What is used of a JSON-RPC message. */
  datatype RpcMessage = RpcMessage(version: string, id: string, isError: bool)

  /** A body read as JSON: first as a list of messages, which `null` also is, and failing that as one message. */
  datatype Json = List(messages: seq<RpcMessage>) | One(message: RpcMessage) | Malformed

  datatype CostType = MainCspace | MainEspace | TestCspace | TestEspace

  datatype ParserConf = ParserConf(isMainnet: bool, isCspace: bool)

  function GetCostType(o: ParserConf): CostType {
    if o.isMainnet then (if o.isCspace then MainCspace else MainEspace)
    else if o.isCspace then TestCspace else TestEspace
  }

  datatype RpcInfoItem = RpcInfoItem(rpcId: string, rpcVersion: string)

  /** Stored in Redis between the phases. */
  datatype RpcInfo = RpcInfo(items: seq<RpcInfoItem>, isBatchRpc: bool)

  datatype ParseResult = ParseResult(costType: CostType, count: nat, info: RpcInfo)

  function ItemOf(m: RpcMessage): RpcInfoItem {
    RpcInfoItem(m.id, m.version)
  }

  /** `ParseRequest`; None stands for the errors, of an unreadable body or of malformed JSON. */
  function ParseRequest(o: ParserConf, body: Option<Json>): Option<ParseResult> {
    match body
    case None => None
    case Some(List(ms)) =>
      Some(ParseResult(GetCostType(o), |ms|,
                       RpcInfo(seq(|ms|, i requires 0 <= i < |ms| => ItemOf(ms[i])), true)))
    case Some(One(m)) => Some(ParseResult(GetCostType(o), 1, RpcInfo([ItemOf(m)], false)))
    case Some(Malformed) => None
  }

  function MessagesOf(body: Json): (ms: seq<RpcMessage>)
    ensures body.List? ==> ms == body.messages
    ensures body.One? ==> ms == [body.message]
  {
    match body
    case List(ms) => ms
    case One(m) => [m]
    case Malformed => []
  }

  // ----- Rebuilding the answer -----

  const ERROR_CODE := -32001

  datatype ErrorMessage = ErrorMessage(version: string, id: string, code: int, message: bytes, data: string)

  datatype ErrorReply = ErrorList(errors: seq<ErrorMessage>) | ErrorOne(error: ErrorMessage)

  function ErrorFor(item: RpcInfoItem, body: bytes): ErrorMessage {
    ErrorMessage(item.rpcVersion, item.rpcId, ERROR_CODE, body, "upstrem status: 400")
  }

  /** The reply for a stored request. The first item is taken for a request that was not a batch. */
  function RebuildErrors(info: RpcInfo, body: bytes): ErrorReply
    requires info.isBatchRpc || info.items != []
  {
    var errors := seq(|info.items|, i requires 0 <= i < |info.items| => ErrorFor(info.items[i], body));
    if info.isBatchRpc then ErrorList(errors) else ErrorOne(errors[0])
  }

  /** Across the phases: for every request the parser accepts, the stored record can be rebuilt from safely, the
      cost is the number of its messages, and the rebuilt reply is a list exactly when the request was one,
      with one error for each message, in order, under the message's own id and version. */
  lemma BatchIdentity(o: ParserConf, body: Json, upstream: bytes)
    requires ParseRequest(o, Some(body)).Some?
    ensures var r, ms := ParseRequest(o, Some(body)).value, MessagesOf(body);
      && (r.info.isBatchRpc || r.info.items != [])
      && r.count == |r.info.items| == |ms|
      && var reply := RebuildErrors(r.info, upstream);
      var errors := if reply.ErrorList? then reply.errors else [reply.error];
      && (reply.ErrorList? <==> body.List?)
      && |errors| == |ms|
      && forall i :: 0 <= i < |ms| ==>
           errors[i].id == ms[i].id && errors[i].version == ms[i].version && errors[i].message == upstream
  {
    assert body.One? ==> MessagesOf(body)[0] == body.message;
  }

  /** The upstream body a response plugin reads: the one at hand or the gateway's answer, with the content
      encoding undone. */
  function DecompressedBody(st: Responses.State, ask: Ask, decompress: (string, bytes) -> Option<bytes>)
    : (body: Option<bytes>)
    ensures body ==
      var headers := if st.hdr.live.Some? then st.hdr.live.value else Group(st.msg.headers);
      if st.originBody != [] then decompress(First(headers, "Content-Encoding"), st.originBody)
      else if ask.answer.Some? then decompress(First(headers, "Content-Encoding"), ask.answer.value)
      else None
  {
    var raw := if st.originBody != [] then Some(st.originBody) else ask.answer;
    if raw.None? then None else
      decompress(First(Open(st.hdr, st.msg.headers).live.value, "Content-Encoding"), raw.value)
  }

  function RespHeadersOf(st: Responses.State): (headers: Values)
    ensures headers == if st.hdr.live.Some? then st.hdr.live.value else Group(st.msg.headers)
  {
    Open(st.hdr, st.msg.headers).live.value
  }

  /** `readDecompressedBody`. */
  method ReadDecompressedBody(w: Responses.Response, ask: Ask, decompress: (string, bytes) -> Option<bytes>)
    returns (body: Option<bytes>)
    requires BufferFits(w.extraInfoHeader) && AskFits(ask)
    modifies w
    ensures body == DecompressedBody(old(w.View()), ask, decompress)
    ensures w.r == old(w.r) && w.body == old(w.body) && w.statusCode == old(w.statusCode) &&
      BufferFits(w.extraInfoHeader)
    ensures w.originBody ==
            if old(w.originBody) == [] && ask.answer.Some? then ask.answer.value else old(w.originBody)
    ensures RespHeadersOf(w.View()) == RespHeadersOf(old(w.View()))
  {
    var _, raw := w.GetBody(ask);
    if raw.None? { return None; }
    var encoding := w.EditHeader("Content-Encoding", Keep);
    body := decompress(encoding, raw.value);
  }

  /** What the response plugin writes, as the new status and body: the body as it is when the upstream
      succeeded, the rebuilt errors under status 200 when it failed, nothing when either is missing. */
  function Rewritten(st: Responses.State, body: Option<bytes>, stored: Option<RpcInfo>,
                     encode: ErrorReply -> bytes): (int, Option<bytes>)
    requires stored.Some? ==> stored.value.isBatchRpc || stored.value.items != []
  {
    var written := if st.body.Some? then st.body.value else [];
    if body.None? then (st.statusCode, st.body)
    else if (if st.statusCode == 0 then st.msg.status else st.statusCode) < 400 then
      (st.statusCode, Some(written + body.value))
    else if stored.None? then (st.statusCode, st.body)
    else
      (if st.statusCode == 0 then 200 else st.statusCode,
       Some(written + encode(RebuildErrors(stored.value, body.value))))
  }

  /** One error for each item of a stored record, or for its only one; -32001 is the code of every error. */
  predicate AnswersItems(reply: ErrorReply, info: RpcInfo, upstream: bytes)
    requires info.isBatchRpc || info.items != []
  {
    && (reply.ErrorList? <==> info.isBatchRpc)
    && (reply.ErrorOne? ==>
          reply.error ==
          ErrorMessage(info.items[0].rpcVersion, info.items[0].rpcId, -32001, upstream, "upstrem status: 400"))
    && (reply.ErrorList? ==>
          && |reply.errors| == |info.items|
          && forall i :: 0 <= i < |info.items| ==>
               reply.errors[i] ==
               ErrorMessage(info.items[i].rpcVersion, info.items[i].rpcId, -32001, upstream, "upstrem status: 400"))
  }

  /** The new status and body for every upstream: an answer below 400 is passed on with its body; one from 400 on is
      replaced by errors under status 200, unless the plugin had set another; and nothing is written when the body
      cannot be read or, for a failure, the record is missing. */
  ghost predicate Answers(st: Responses.State, upstream: Option<bytes>, stored: Option<RpcInfo>,
                          encode: ErrorReply -> bytes, status: int, body: Option<bytes>)
    requires stored.Some? ==> stored.value.isBatchRpc || stored.value.items != []
  {
    var code := if st.statusCode != 0 then st.statusCode else st.msg.status;
    var written := if st.body.Some? then st.body.value else [];
    && (upstream.None? || (code >= 400 && stored.None?) ==> status == st.statusCode && body == st.body)
    && (upstream.Some? && code < 400 ==> status == st.statusCode && body == Some(written + upstream.value))
    && (upstream.Some? && code >= 400 && stored.Some? ==>
          && status == (if st.statusCode != 0 then st.statusCode else 200)
          && exists reply :: AnswersItems(reply, stored.value, upstream.value) && body == Some(written + encode(reply)))
  }

  lemma RewrittenAnswers(st: Responses.State, upstream: Option<bytes>, stored: Option<RpcInfo>,
                         encode: ErrorReply -> bytes)
    requires stored.Some? ==> stored.value.isBatchRpc || stored.value.items != []
    ensures var (status, body) := Rewritten(st, upstream, stored, encode);
      Answers(st, upstream, stored, encode, status, body)
  {
    if upstream.Some? && stored.Some? {
      assert AnswersItems(RebuildErrors(stored.value, upstream.value), stored.value, upstream.value);
    }
  }

  /** The response plugin's own part, after settlement. `stored` is the record found for the request id,
      `decompress` undoes a content encoding and `encode` writes JSON. */
  method ResponseFilter(w: Responses.Response, ask: Ask, stored: Option<RpcInfo>,
                        decompress: (string, bytes) -> Option<bytes>, encode: ErrorReply -> bytes)
    requires BufferFits(w.extraInfoHeader) && AskFits(ask)
    requires stored.Some? ==> stored.value.isBatchRpc || stored.value.items != []
    modifies w
    ensures (w.statusCode, w.body) ==
            Rewritten(old(w.View()), DecompressedBody(old(w.View()), ask, decompress), stored, encode)
    ensures Answers(old(w.View()), DecompressedBody(old(w.View()), ask, decompress), stored, encode,
                    w.statusCode, w.body)
  {
    RewrittenAnswers(w.View(), DecompressedBody(w.View(), ask, decompress), stored, encode);
    var body := ReadDecompressedBody(w, ask, decompress);
    if body.None? { return; }
    var status := if w.statusCode == 0 then w.r.status else w.statusCode;
    if status < 400 {
      var _ := w.AppendBody(body.value);
      return;
    }
    if stored.None? { return; }
    var reply := RebuildErrors(stored.value, body.value);
    w.SetStatus(200);
    var _ := w.AppendBody(encode(reply));
  }

  // ----- The success count of a settlement -----

  function ErrorFree(ms: seq<RpcMessage>): nat {
    if ms == [] then 0 else ErrorFree(ms[..|ms| - 1]) + (if ms[|ms| - 1].isError then 0 else 1)
  }

  /** The callback `determineCount` gives to settlement. */
  function RpcSuccess(status: int, body: Option<Json>): nat {
    if status != 200 || body.None? then 0 else
      match body.value
      case List(ms) => ErrorFree(ms)
      case One(m) => if m.isError then 0 else 1
      case Malformed => 0
  }

  /** The callback counts the answers without an error, and only under status 200. */
  lemma {:induction false} RpcSuccessCounts(status: int, body: Option<Json>)
    ensures RpcSuccess(status, body) ==
      if status != 200 then 0 else
      match body
      case Some(List(ms)) => |set i | 0 <= i < |ms| && !ms[i].isError|
      case Some(One(m)) => if m.isError then 0 else 1
      case _ => 0
  {
    if body.Some? && body.value.List? { ErrorFreeCounts(body.value.messages); }
  }

  lemma {:induction false} ErrorFreeCounts(ms: seq<RpcMessage>)
    ensures ErrorFree(ms) == |set i | 0 <= i < |ms| && !ms[i].isError|
  {
    var free := set i | 0 <= i < |ms| && !ms[i].isError;
    if ms != [] {
      var n := |ms| - 1;
      ErrorFreeCounts(ms[..n]);
      var earlier := set i | 0 <= i < |ms[..n]| && !ms[..n][i].isError;
      assert free == if ms[n].isError then earlier else earlier + {n};
    }
  }

  lemma {:induction false} ErrorFreeBound(ms: seq<RpcMessage>)
    ensures ErrorFree(ms) <= |ms|
    ensures ErrorFree(ms) == |ms| <==> forall i :: 0 <= i < |ms| ==> !ms[i].isError
  {
    if ms != [] {
      ErrorFreeBound(ms[..|ms| - 1]);
      assert forall i :: 0 <= i < |ms| - 1 ==> ms[..|ms| - 1][i] == ms[i];
    }
  }

  /** An upstream that answers no more messages than it was asked never makes a settlement credit more than
      the cost that was booked, and it credits all of it exactly when every message was answered without error. */
  lemma SuccessWithinCost(o: ParserConf, request: Json, status: int, response: Json)
    requires ParseRequest(o, Some(request)).Some? && |MessagesOf(response)| <= |MessagesOf(request)|
    ensures var cost := ParseRequest(o, Some(request)).value.count;
      var success := RpcSuccess(status, Some(response));
      success <= cost &&
      (success == cost && cost > 0 <==>
         cost > 0 && status == 200 && |MessagesOf(response)| == cost &&
         forall i :: 0 <= i < cost ==> !MessagesOf(response)[i].isError)
  {
    if response.List? {
      ErrorFreeBound(response.messages);
    } else if response.One? {
      assert MessagesOf(response)[0] == response.message;
    }
  }

  /** So settlements of JSON-RPC requests are honest: a call of DeterminCount with this callback, for a record booked
      with the parser's cost, credits no more than the cost. */
  lemma RpcWithinCost(o: ParserConf, request: Json, status: int, response: Json, db: Quota.Db,
                      c: QuotaCode.SettlementCall)
    requires ParseRequest(o, Some(request)).Some? && |MessagesOf(response)| <= |MessagesOf(request)|
    requires c.handler == Some(RpcSuccess(status, Some(response)))
    requires c.id in db.records ==> db.records[c.id].cost == ParseRequest(o, Some(request)).value.count
    ensures QuotaCode.WithinCost(db, c)
  {
    SuccessWithinCost(o, request, status, response);
  }

  // ----- The parser as a request plugin -----

  /** The names of the headers the parser sets, how it prints, and the text of its refusal. */
  datatype Printing = Printing(
    costTypeKey: string, costCountKey: string, requestIdKey: string, serverTypeKey: string,
    costType: CostType -> string, decimal: nat -> string, serverType: bool -> string, refusal: bytes)

  function SetHeader(st: Requests.State, name: string, value: string): Requests.State {
    st.(hdr := OpenAndEdit(st.hdr, st.msg.headers, name, Set(value)))
  }

  /** The request once its body was asked for, and what it parses to. */
  function Parsed(o: ParserConf, ask: Ask, decode: bytes -> Json, st: Requests.State)
    : (Requests.State, Option<ParseResult>)
    requires BufferFits(st.buffer) && AskFits(ask)
  {
    var (asked, out) := Requests.Exec(st, Requests.Body(ask));
    (asked, ParseRequest(o, if out.answer.Some? then Some(decode(out.answer.value)) else None))
  }

  /** The three headers of a parsed request. */
  function Labelled(p: Printing, r: ParseResult, uuid: string, st: Requests.State): Requests.State {
    var st1 := SetHeader(st, p.costTypeKey, p.costType(r.costType));
    var st2 := SetHeader(st1, p.costCountKey, p.decimal(r.count));
    SetHeader(st2, p.requestIdKey, uuid)
  }

  /** The four headers have names of their own. */
  predicate DistinctNames(p: Printing) {
    && p.costTypeKey != p.costCountKey && p.costTypeKey != p.requestIdKey && p.costTypeKey != p.serverTypeKey
    && p.costCountKey != p.requestIdKey && p.costCountKey != p.serverTypeKey && p.requestIdKey != p.serverTypeKey
  }

  /** The headers as a plugin finds them. */
  function HeadersOf(st: Requests.State): (headers: Values)
    ensures headers == if st.hdr.live.Some? then st.hdr.live.value else Group(st.msg.headers)
  {
    Open(st.hdr, st.msg.headers).live.value
  }

  /** The body as JSON: the one at hand, or else the gateway's answer. */
  function JsonOf(ask: Ask, decode: bytes -> Json, st: Requests.State): (body: Option<Json>)
    ensures body == if st.body != [] then Some(decode(st.body))
      else if ask.answer.Some? then Some(decode(ask.answer.value)) else None
  {
    var body := if st.body != [] then Some(st.body) else ask.answer;
    if body.Some? then Some(decode(body.value)) else None
  }

  /** What a parsed request carries: its cost type, its number of messages, and its id. */
  predicate CarriesCost(p: Printing, o: ParserConf, body: Json, uuid: string, headers: Values) {
    && p.costTypeKey in headers && p.costCountKey in headers && p.requestIdKey in headers
    && headers[p.costCountKey] == [p.decimal(if body.List? then |body.messages| else 1)]
    && headers[p.costTypeKey] ==
       [p.costType(if o.isMainnet && o.isCspace then MainCspace else if o.isMainnet then MainEspace
                   else if o.isCspace then TestCspace else TestEspace)]
    && headers[p.requestIdKey] == [uuid]
  }

  /** Headers under other names keep their values, and there are no new ones. */
  ghost predicate SameBut(names: set<string>, before: Values, after: Values) {
    forall name :: name !in names ==>
      (name in after <==> name in before) && (name in before ==> after[name] == before[name])
  }

  lemma SetsOne(st: Requests.State, name: string, value: string)
    ensures HeadersOf(SetHeader(st, name, value)) == HeadersOf(st)[name := [value]]
    ensures SetHeader(st, name, value) == st.(hdr := SetHeader(st, name, value).hdr) &&
      SetHeader(st, name, value).hdr.live.Some?
  {}

  lemma LabelledCarries(p: Printing, o: ParserConf, body: Json, uuid: string, st: Requests.State)
    requires DistinctNames(p) && ParseRequest(o, Some(body)).Some?
    ensures var st' := Labelled(p, ParseRequest(o, Some(body)).value, uuid, st);
      && st'.hdr.live.Some? && CarriesCost(p, o, body, uuid, HeadersOf(st'))
      && SameBut({p.costTypeKey, p.costCountKey, p.requestIdKey}, HeadersOf(st), HeadersOf(st'))
  {
    var r := ParseRequest(o, Some(body)).value;
    var st1 := SetHeader(st, p.costTypeKey, p.costType(r.costType));
    var st2 := SetHeader(st1, p.costCountKey, p.decimal(r.count));
    SetsOne(st, p.costTypeKey, p.costType(r.costType));
    SetsOne(st1, p.costCountKey, p.decimal(r.count));
    SetsOne(st2, p.requestIdKey, uuid);
  }

  lemma ParsedLabels(p: Printing, o: ParserConf, ask: Ask, decode: bytes -> Json, uuid: string, st: Requests.State)
    requires BufferFits(st.buffer) && AskFits(ask)
    ensures var body := JsonOf(ask, decode, st);
      var (asked, parsed) := Parsed(o, ask, decode, st);
      && (parsed.Some? <==> body.Some? && !body.value.Malformed?)
      && asked == st.(body := asked.body, buffer := asked.buffer)
      && (parsed.Some? ==> parsed == ParseRequest(o, body))
      && (parsed.Some? && DistinctNames(p) ==>
            var st' := Labelled(p, parsed.value, uuid, asked);
            && st'.hdr.live.Some? && CarriesCost(p, o, body.value, uuid, HeadersOf(st'))
            && SameBut({p.costTypeKey, p.costCountKey, p.requestIdKey}, HeadersOf(st), HeadersOf(st')))
  {
    var body := JsonOf(ask, decode, st);
    var (asked, parsed) := Parsed(o, ask, decode, st);
    if parsed.Some? && DistinctNames(p) {
      LabelledCarries(p, o, body.value, uuid, asked);
    }
  }

  /** The closure `fn`: the three headers for a request that parses. */
  method ParseAndLabel(p: Printing, o: ParserConf, ask: Ask, decode: bytes -> Json, uuid: string, r: Requests.Request)
    returns (result: Option<ParseResult>)
    requires BufferFits(r.extraInfoHeader) && AskFits(ask)
    modifies r
    ensures BufferFits(r.extraInfoHeader) && result == Parsed(o, ask, decode, old(r.View())).1
    ensures var asked := Parsed(o, ask, decode, old(r.View())).0;
      r.View() == if result.None? then asked else Labelled(p, result.value, uuid, asked)
  {
    var _, body := r.GetBody(ask);
    result := ParseRequest(o, if body.Some? then Some(decode(body.value)) else None);
    if result.Some? {
      var _ := r.EditHeader(p.costTypeKey, Set(p.costType(result.value.costType)));
      var _ := r.EditHeader(p.costCountKey, Set(p.decimal(result.value.count)));
      var _ := r.EditHeader(p.requestIdKey, Set(uuid));
    }
  }

  /** `DefaultRequestFilter` with this parser. On an error the refusal is written, and then the missing result is
      dereferenced for the log line at the end, which panics. */
  method DefaultRequestFilter(p: Printing, o: ParserConf, ask: Ask, decode: bytes -> Json, uuid: string,
                              w: ReqResponses.ReqResponse, r: Requests.Request)
    returns (result: Option<ParseResult>, panicked: bool)
    requires BufferFits(r.extraInfoHeader) && AskFits(ask)
    modifies w, r
    ensures result == Parsed(o, ask, decode, old(r.View())).1 && (panicked <==> result.None?)
    ensures panicked ==>
      ReqResponses.IsChanged(w.View()) && (old(w.code) == 0 ==> w.code == 400) &&
      w.body == Some((if old(w.body).Some? then old(w.body).value else []) + p.refusal) && w.hdr == old(w.hdr) &&
      r.View() == Parsed(o, ask, decode, old(r.View())).0
    ensures !panicked ==>
      w.View() == old(w.View()) &&
      r.View() == Labelled(p, result.value, uuid, Parsed(o, ask, decode, old(r.View())).0)
    ensures var body := JsonOf(ask, decode, old(r.View()));
      && (panicked <==> body.None? || body.value.Malformed?)
      && (!panicked && DistinctNames(p) ==>
            && r.hdr.Some? && CarriesCost(p, o, body.value, uuid, r.hdr.value)
            && SameBut({p.costTypeKey, p.costCountKey, p.requestIdKey}, HeadersOf(old(r.View())), r.hdr.value))
    ensures old(w.code) != 0 ==> w.code == old(w.code)
    ensures BufferFits(r.extraInfoHeader)
  {
    ParsedLabels(p, o, ask, decode, uuid, r.View());
    result := ParseAndLabel(p, o, ask, decode, uuid, r);
    if result.None? {
      w.WriteHeader(400);
      w.Write(p.refusal);
    }
    if result.None? { return None, true; }
    return result, false;
  }

  /** The response with the refusal in it. */
  function Refused(p: Printing, resp: ReqResponses.State): ReqResponses.State {
    ReqResponses.Exec(ReqResponses.Exec(resp, ReqResponses.Op.WriteHeader(400)), ReqResponses.Op.Write(p.refusal))
  }

  /** The plugin's effect on its two objects. */
  function ParserEffect(p: Printing, o: ParserConf, ask: Ask, decode: bytes -> Json, uuid: string,
                        v: World): Ending<World>
    requires BufferFits(v.req.buffer) && AskFits(ask)
  {
    var (asked, parsed) := Parsed(o, ask, decode, v.req);
    match parsed
    case None => Crashed(World(Refused(p, v.resp), asked))
    case Some(r) =>
      var st := SetHeader(Labelled(p, r, uuid, asked), p.serverTypeKey, p.serverType(o.isCspace));
      Finished(World(v.resp, st))
  }

  /** What a parsed request carries on: its cost, its id and the server type, every other header as it was, and every
      other part of the request and the response untouched. */
  ghost predicate LabelledAs(p: Printing, o: ParserConf, body: Json, uuid: string, v: World, v': World) {
    && v'.req.hdr.live.Some?
    && (DistinctNames(p) ==>
          var headers := v'.req.hdr.live.value;
          && CarriesCost(p, o, body, uuid, headers)
          && p.serverTypeKey in headers && headers[p.serverTypeKey] == [p.serverType(o.isCspace)]
          && SameBut({p.costTypeKey, p.costCountKey, p.requestIdKey, p.serverTypeKey}, HeadersOf(v.req), headers))
    && v'.resp == v.resp && v'.req.msg == v.req.msg && v'.req.path == v.req.path && v'.req.args == v.req.args
    && v'.req.respHdr == v.req.respHdr && v'.req.vars == v.req.vars
  }

  /** The plugin returns exactly for a body that can be read and parses, and labels the request with it. */
  lemma EffectLabels(p: Printing, o: ParserConf, ask: Ask, decode: bytes -> Json, uuid: string, v: World)
    requires BufferFits(v.req.buffer) && AskFits(ask)
    ensures var end, body := ParserEffect(p, o, ask, decode, uuid, v), JsonOf(ask, decode, v.req);
      && (end.Finished? <==> body.Some? && !body.value.Malformed?)
      && (end.Finished? ==> LabelledAs(p, o, body.value, uuid, v, end.world))
  {
    ParsedLabels(p, o, ask, decode, uuid, v.req);
    var (asked, parsed) := Parsed(o, ask, decode, v.req);
    if parsed.Some? {
      SetsOne(Labelled(p, parsed.value, uuid, asked), p.serverTypeKey, p.serverType(o.isCspace));
    }
  }

  /** The records of parsed requests, as one Redis database keeps them. */
  class InfoStore {
    var infos: map<string, RpcInfo>

    constructor ()
      ensures infos == map[]
    {
      infos := map[];
    }

    method Save(id: string, info: RpcInfo, applied: bool)
      modifies this
      ensures infos == if applied then old(infos)[id := info] else old(infos)
    {
      if applied { infos := infos[id := info]; }
    }
  }

  /** The plugin's `RequestFilter`: after the parser, the server type, and the record under the id the request now
      carries. Whether the record could be written is not looked at. */
  method RequestFilter(p: Printing, o: ParserConf, ask: Ask, decode: bytes -> Json, uuid: string, applied: bool,
                       w: ReqResponses.ReqResponse, r: Requests.Request, store: InfoStore)
    returns (panicked: bool)
    requires BufferFits(r.extraInfoHeader) && AskFits(ask)
    modifies w, r, store
    ensures var end := ParserEffect(p, o, ask, decode, uuid, old(World(w.View(), r.View())));
      World(w.View(), r.View()) == end.world && (panicked <==> end.Crashed?)
    ensures panicked ==> store.infos == old(store.infos)
    ensures !panicked ==>
      var info := Parsed(o, ask, decode, old(r.View())).1.value.info;
      store.infos == if applied then old(store.infos)[First(r.hdr.value, p.requestIdKey) := info] else old(store.infos)
    ensures var body := JsonOf(ask, decode, old(r.View()));
      && (panicked <==> body.None? || body.value.Malformed?)
      && (!panicked ==> LabelledAs(p, o, body.value, uuid, old(World(w.View(), r.View())), World(w.View(), r.View())))
  {
    EffectLabels(p, o, ask, decode, uuid, World(w.View(), r.View()));
    var result;
    result, panicked := DefaultRequestFilter(p, o, ask, decode, uuid, w, r);
    if panicked { return; }
    var _ := r.EditHeader(p.serverTypeKey, Set(p.serverType(o.isCspace)));
    var id := First(r.hdr.value, p.requestIdKey);
    store.Save(id, result.value.info, applied);
  }

  /** The id a parsed request carries is the fresh one. */
  lemma CarriesItsId(p: Printing, o: ParserConf, ask: Ask, decode: bytes -> Json, uuid: string, v: World)
    requires BufferFits(v.req.buffer) && AskFits(ask) && p.requestIdKey != p.serverTypeKey
    requires ParserEffect(p, o, ask, decode, uuid, v).Finished?
    ensures First(ParserEffect(p, o, ask, decode, uuid, v).world.req.hdr.live.value, p.requestIdKey) == uuid
  {}

  predicate ReqFits(v: World) {
    BufferFits(v.req.buffer)
  }

  /** Plugin `i` of the rule is the parser; the others return, and keep the header buffer a header long. */
  ghost predicate ParserAt(p: Printing, o: ParserConf, ask: Ask, decode: bytes -> Json, uuid: string,
                           plugins: Plugins<World>, active: RuleConf, i: nat)
    requires AskFits(ask) && i < |active| && Registered(plugins, active)
  {
    && (forall v :: ReqFits(v) ==>
          plugins[active[i].name](active[i].value, v) == ParserEffect(p, o, ask, decode, uuid, v))
    && (forall j, v :: 0 <= j < |active| && j != i && ReqFits(v) ==>
          var end := plugins[active[j].name](active[j].value, v);
          end.Finished? && ReqFits(end.world))
  }

  lemma {:induction false} OthersReturn(p: Printing, o: ParserConf, ask: Ask, decode: bytes -> Json, uuid: string,
                                        plugins: Plugins<World>, active: RuleConf, w: World, i: nat, k: nat)
    requires AskFits(ask) && i < |active| && Registered(plugins, active) && k <= |active| && ReqFits(w)
    requires ParserAt(p, o, ask, decode, uuid, plugins, active, i)
    ensures ReqFits(Fold(plugins, active, w, k).world)
    ensures k <= i ==> Fold(plugins, active, w, k).Finished?
    ensures k > i ==>
      (Fold(plugins, active, w, k).Crashed? <==> Fold(plugins, active, w, i + 1).Crashed?)
  {
    if k > 0 {
      OthersReturn(p, o, ask, decode, uuid, plugins, active, w, i, k - 1);
    }
  }

  /** When the parser's turn comes, the call ends in a panic exactly when the body cannot be read or does not parse.
      By then the refusal with its 400 is written, and nothing else was. */
  lemma {:induction false} ParseErrorPanicsIff(
    p: Printing, o: ParserConf, ask: Ask, decode: bytes -> Json, uuid: string,
    plugins: Plugins<World>, conf: RuleConf, w: World, out: Ending<World>, k: nat, i: nat)
    requires AskFits(ask) && ReqFits(w) && !Stopped(w) && RanFirst(plugins, conf, w, Stopped, out, k) && i < k
    requires ParserAt(p, o, ask, decode, uuid, plugins, Active(plugins, conf), i)
    ensures var v := Fold(plugins, Active(plugins, conf), w, i);
      && v.Finished? && ReqFits(v.world) && !Stopped(v.world)
      && (out.Crashed? <==> Parsed(o, ask, decode, v.world.req).1.None?)
      && (out.Crashed? ==> k == i + 1 && ReqResponses.IsChanged(out.world.resp) &&
                           out.world.resp == v.world.resp.(code := 400, body := Some(p.refusal)))
  {
    var active := Active(plugins, conf);
    OthersReturn(p, o, ask, decode, uuid, plugins, active, w, i, k);
    TakesItsTurn(p, o, ask, decode, uuid, plugins, active, w, i);
    var v := Fold(plugins, active, w, i);
    assert !Stopped(v.world);
    RefusedIs(p, v.world.resp);
    if Fold(plugins, active, w, i + 1).Crashed? {
      assert k == i + 1;
    }
  }

  lemma RefusedIs(p: Printing, resp: ReqResponses.State)
    requires !ReqResponses.IsChanged(resp)
    ensures Refused(p, resp) == resp.(code := 400, body := Some(p.refusal))
  {
    assert [] + p.refusal == p.refusal;
  }

  lemma {:induction false} TakesItsTurn(
    p: Printing, o: ParserConf, ask: Ask, decode: bytes -> Json, uuid: string,
    plugins: Plugins<World>, active: RuleConf, w: World, i: nat)
    requires AskFits(ask) && i < |active| && Registered(plugins, active) && ReqFits(w)
    requires ParserAt(p, o, ask, decode, uuid, plugins, active, i)
    ensures var v := Fold(plugins, active, w, i);
      v.Finished? && ReqFits(v.world) &&
      Fold(plugins, active, w, i + 1) == ParserEffect(p, o, ask, decode, uuid, v.world)
  {
    OthersReturn(p, o, ask, decode, uuid, plugins, active, w, i, i);
  }
}
