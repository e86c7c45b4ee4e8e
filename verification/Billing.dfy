/**
 From the headers to the books: the count plugin reads off the request what the parser wrote there, books it, and the
 settlement of the response credits the answers that came without an error.
 */
module Billing {
  import opened Wrappers
  import opened Wire
  import opened Patch
  import opened Tracking
  import opened Chain
  import opened RpcBatch
  import Requests
  import Responses
  import ReqResponses
  import Quota
  import QuotaCode

  /** How the count plugin reads: the name of the user's header, `strconv.Atoi`, and the cost types it knows. */
  datatype Reading = Reading(userIdKey: string, atoi: string -> Option<int>, knows: string -> bool)

  /** A call as its headers say; `rest` tells how the checks of other services and the Redis commands turn out. */
  function CallFrom(p: Printing, reading: Reading, headers: Values, rest: QuotaCode.RequestCall): QuotaCode.RequestCall
  {
    var user, costType, count := First(headers, reading.userIdKey), First(headers, p.costTypeKey),
      First(headers, p.costCountKey);
    rest.(
      key := Quota.Key(user, costType), id := First(headers, p.requestIdKey),
      cost := if reading.atoi(count).Some? then reading.atoi(count).value else 0,
      parses := reading.atoi(user).Some? && reading.atoi(count).Some? && reading.knows(costType))
  }

  /** Reading the headers opens them. */
  method ReadCall(p: Printing, reading: Reading, rest: QuotaCode.RequestCall, r: Requests.Request)
    returns (c: QuotaCode.RequestCall)
    requires BufferFits(r.extraInfoHeader)
    modifies r
    ensures r.View() == old(r.View()).(hdr := Open(old(r.View()).hdr, old(r.r).headers))
    ensures c == CallFrom(p, reading, HeadersOf(old(r.View())), rest)
  {
    var user := r.EditHeader(reading.userIdKey, Keep);
    var costType := r.EditHeader(p.costTypeKey, Keep);
    var count := r.EditHeader(p.costCountKey, Keep);
    var id := r.EditHeader(p.requestIdKey, Keep);
    var cost := reading.atoi(count);
    var parses := reading.atoi(user).Some? && cost.Some? && reading.knows(costType);
    c := rest.(key := Quota.Key(user, costType), id := id, cost := if cost.Some? then cost.value else 0,
               parses := parses);
  }

  /** The count plugin's `RequestFilter` on its two objects. */
  method RequestFilter(p: Printing, reading: Reading, redis: QuotaCode.Redis, cfg: Quota.Config, ticket: nat,
                       rest: QuotaCode.RequestCall, refusal: bytes, w: ReqResponses.ReqResponse, r: Requests.Request)
    requires BufferFits(r.extraInfoHeader)
    modifies redis, w, r
    ensures r.View() == old(r.View()).(hdr := Open(old(r.View()).hdr, old(r.r).headers))
    ensures var c := CallFrom(p, reading, HeadersOf(old(r.View())), rest);
      var admitted := QuotaCode.WithinLimit(cfg, old(redis.count), c) && c.add.Done? && c.save.Done?;
      && QuotaCode.Booked(cfg, old(redis.Contents()), ticket, c, redis.Contents(), if admitted then None else Some(400))
      && (admitted ==> w.View() == old(w.View()))
      && (!admitted ==>
            w.hdr == old(w.hdr) && w.code == (if old(w.code) != 0 then old(w.code) else 400) &&
            w.body == Some((if old(w.body).Some? then old(w.body).value else []) + refusal))
  {
    var c := ReadCall(p, reading, rest, r);
    var reply := QuotaCode.RequestFilter(redis, cfg, ticket, c);
    if reply.Some? {
      w.WriteHeader(reply.value);
      w.Write(refusal);
    }
  }

  /** A settlement as the response says: the request's id is in a header, and the status is the one written, or else the
      upstream's. */
  function CallOn(p: Printing, st: Responses.State, rest: QuotaCode.SettlementCall): (c: QuotaCode.SettlementCall)
    ensures c.id == First(if st.hdr.live.Some? then st.hdr.live.value else Group(st.msg.headers), p.requestIdKey)
    ensures c.status == if st.statusCode != 0 then st.statusCode else st.msg.status
  {
    rest.(id := First(RespHeadersOf(st), p.requestIdKey),
          status := if st.statusCode == 0 then st.msg.status else st.statusCode)
  }

  /** The count plugin's `ResponseFilter`: it settles the request whose id the response carries, by the response's
      status and without a callback. Looking the id up opens the headers. */
  method ResponseFilter(p: Printing, redis: QuotaCode.Redis, cfg: Quota.Config, rest: QuotaCode.SettlementCall,
                        w: Responses.Response)
    requires BufferFits(w.extraInfoHeader)
    modifies redis, w
    ensures w.View() == old(w.View()).(hdr := Open(old(w.View()).hdr, old(w.r).headers))
    ensures QuotaCode.Settled(cfg, old(redis.Contents()), CallOn(p, old(w.View()), rest).(handler := None),
                              redis.Contents())
  {
    var id := w.EditHeader(p.requestIdKey, Keep);
    var status := if w.statusCode == 0 then w.r.status else w.statusCode;
    QuotaCode.DeterminCount(redis, cfg, rest.(id := id, handler := None, status := status));
  }

  /** The answers without an error, as the callback of the JSON-RPC response plugin counts them. */
  function Successes(status: int, body: Option<bytes>, decode: bytes -> Json): (n: nat)
    ensures status != 200 || body.None? ==> n == 0
    ensures status == 200 && body.Some? ==> n == RpcSuccess(200, Some(decode(body.value)))
  {
    RpcSuccess(status, if body.Some? then Some(decode(body.value)) else None)
  }

  /** A settlement calls its callback: the record is there, and its DecrBy worked. */
  predicate CallsBack(db: Quota.Db, c: QuotaCode.SettlementCall) {
    c.id != "" && c.load && c.id in db.records && c.draw.Done?
  }

  /** A callback that is not called does not matter. */
  lemma UncalledIsAnything(cfg: Quota.Config, db: Quota.Db, c: QuotaCode.SettlementCall, db': Quota.Db, n: int)
    requires QuotaCode.Settled(cfg, db, c, db') && !CallsBack(db, c)
    ensures QuotaCode.Settled(cfg, db, c.(handler := Some(n)), db')
  {}

  /** `determineCount`: settlement with the callback that reads the body and counts. */
  method DetermineCount(redis: QuotaCode.Redis, cfg: Quota.Config, c: QuotaCode.SettlementCall, ask: Ask,
                        decompress: (string, bytes) -> Option<bytes>, decode: bytes -> Json, w: Responses.Response)
    requires BufferFits(w.extraInfoHeader) && AskFits(ask)
    modifies redis, w
    ensures var n := Successes(c.status, DecompressedBody(old(w.View()), ask, decompress), decode);
      QuotaCode.Settled(cfg, old(redis.Contents()), c.(handler := Some(n)), redis.Contents())
    ensures w.r == old(w.r) && w.body == old(w.body) && w.statusCode == old(w.statusCode) &&
      BufferFits(w.extraInfoHeader) && RespHeadersOf(w.View()) == RespHeadersOf(old(w.View()))
    ensures w.originBody == KeptBy(old(redis.Contents()), c, old(w.View()), ask)
  {
    ghost var n := Successes(c.status, DecompressedBody(w.View(), ask, decompress), decode);
    var value := 0;
    var calls := c.id != "" && c.load && c.id in redis.records && c.draw.Done?;
    if calls && c.status == 200 {
      var body := ReadDecompressedBody(w, ask, decompress);
      value := Successes(c.status, body, decode);
    }
    ghost var db := redis.Contents();
    QuotaCode.DeterminCount(redis, cfg, c.(handler := Some(value)));
    if !calls {
      UncalledIsAnything(cfg, db, c.(handler := Some(value)), redis.Contents(), n);
    }
  }

  /** What the callback leaves of the upstream's body: its answer, if it asked. */
  function KeptBy(db: Quota.Db, c: QuotaCode.SettlementCall, st: Responses.State, ask: Ask): bytes {
    if CallsBack(db, c) && c.status == 200 && st.originBody == [] && ask.answer.Some? then ask.answer.value
    else st.originBody
  }

  /** An answer depends on the statuses and on what was written alone. */
  lemma AnswersAlike(a: Responses.State, b: Responses.State, upstream: Option<bytes>, stored: Option<RpcInfo>,
                     encode: ErrorReply -> bytes, status: int, body: Option<bytes>)
    requires stored.Some? ==> stored.value.isBatchRpc || stored.value.items != []
    requires a.msg == b.msg && a.statusCode == b.statusCode && a.body == b.body
    ensures Answers(a, upstream, stored, encode, status, body) <==> Answers(b, upstream, stored, encode, status, body)
  {}

  lemma ReadAlike(a: Responses.State, b: Responses.State, ask: Ask, decompress: (string, bytes) -> Option<bytes>)
    requires a.originBody == b.originBody && RespHeadersOf(a) == RespHeadersOf(b)
    ensures DecompressedBody(a, ask, decompress) == DecompressedBody(b, ask, decompress)
  {}

  /** The first part of `ResponseFilter`: the settlement that the response's id and status call for. */
  method SettleByAnswers(p: Printing, redis: QuotaCode.Redis, cfg: Quota.Config, rest: QuotaCode.SettlementCall,
                         ask: Ask, decompress: (string, bytes) -> Option<bytes>, decode: bytes -> Json,
                         w: Responses.Response)
    requires BufferFits(w.extraInfoHeader) && AskFits(ask)
    modifies redis, w
    ensures var st, db := old(w.View()), old(redis.Contents());
      var c := CallOn(p, st, rest);
      && QuotaCode.Settled(
           cfg, db, c.(handler := Some(Successes(c.status, DecompressedBody(st, ask, decompress), decode))),
           redis.Contents())
      && w.originBody == KeptBy(db, c, st, ask)
    ensures w.r == old(w.r) && w.body == old(w.body) && w.statusCode == old(w.statusCode) &&
      BufferFits(w.extraInfoHeader) && RespHeadersOf(w.View()) == RespHeadersOf(old(w.View()))
  {
    ghost var st := w.View();
    var id := w.EditHeader(p.requestIdKey, Keep);
    var c := rest.(id := id, status := if w.statusCode == 0 then w.r.status else w.statusCode);
    ReadAlike(w.View(), st, ask, decompress);
    DetermineCount(redis, cfg, c, ask, decompress, decode, w);
  }

  /** The JSON-RPC response plugin's `ResponseFilter`: it settles the request whose id the response carries, by the
      answers without an error, and then rewrites the response. The body is asked for again if nothing of it was
      kept. */
  method RpcResponseFilter(p: Printing, redis: QuotaCode.Redis, cfg: Quota.Config, rest: QuotaCode.SettlementCall,
                           ask1: Ask, ask2: Ask, decompress: (string, bytes) -> Option<bytes>, decode: bytes -> Json,
                           stored: Option<RpcInfo>, encode: ErrorReply -> bytes, w: Responses.Response)
    requires BufferFits(w.extraInfoHeader) && AskFits(ask1) && AskFits(ask2)
    requires stored.Some? ==> stored.value.isBatchRpc || stored.value.items != []
    modifies redis, w
    ensures var st, db := old(w.View()), old(redis.Contents());
      var c := CallOn(p, st, rest);
      && QuotaCode.Settled(
           cfg, db, c.(handler := Some(Successes(c.status, DecompressedBody(st, ask1, decompress), decode))),
           redis.Contents())
      && Answers(st, DecompressedBody(st.(originBody := KeptBy(db, c, st, ask1)), ask2, decompress), stored, encode,
                 w.statusCode, w.body)
  {
    ghost var st, db := w.View(), redis.Contents();
    ghost var kept := KeptBy(db, CallOn(p, st, rest), st, ask1);
    SettleByAnswers(p, redis, cfg, rest, ask1, decompress, decode, w);
    ghost var read := w.View();
    RpcBatch.ResponseFilter(w, ask2, stored, decompress, encode);
    ReadAlike(read, st.(originBody := kept), ask2, decompress);
    AnswersAlike(read, st, DecompressedBody(read, ask2, decompress), stored, encode, w.statusCode, w.body);
  }

  /** What the parser prints, the count plugin reads, and the user's header is none of the parser's. */
  ghost predicate Agree(p: Printing, reading: Reading) {
    && DistinctNames(p)
    && reading.userIdKey !in {p.costTypeKey, p.costCountKey, p.requestIdKey, p.serverTypeKey}
    && (forall n: nat :: reading.atoi(p.decimal(n)) == Some(n))
    && forall t: CostType :: reading.knows(p.costType(t))
  }

  /** A request the parser has labelled, be it by the plugin or by its program, asks for its number of messages, under
      its user, the cost type of its chain and the fresh id; it parses exactly if the user's id does. If it is
      admitted, that number is what `pending` rises by and what the record holds. */
  lemma BooksItsMessages(p: Printing, o: ParserConf, body: Json, uuid: string, v: World, v': World,
                         reading: Reading, rest: QuotaCode.RequestCall, cfg: Quota.Config, db: Quota.Db, ticket: nat)
    requires Agree(p, reading) && LabelledAs(p, o, body, uuid, v, v')
    ensures var c := CallFrom(p, reading, HeadersOf(v'.req), rest);
      var (db', reply) := QuotaCode.RequestEffect(cfg, db, ticket, c);
      var user := First(HeadersOf(v.req), reading.userIdKey);
      && c.cost == (if body.List? then |body.messages| else 1)
      && c.id == uuid && (c.parses <==> reading.atoi(user).Some?)
      && c.key == Quota.Key(user, p.costType(if o.isMainnet && o.isCspace then MainCspace
                                             else if o.isMainnet then MainEspace
                                             else if o.isCspace then TestCspace else TestEspace))
      && c == rest.(key := c.key, cost := c.cost, id := c.id, parses := c.parses)
      && (reply.None? ==>
            Quota.GetInt(db'.pending, c.key) == Quota.GetInt(db.pending, c.key) + c.cost &&
            uuid in db'.records && db'.records[uuid] == Quota.Record(c.key, c.cost, ticket))
  {
    var c := CallFrom(p, reading, HeadersOf(v'.req), rest);
    QuotaCode.FilterBooks(cfg, db, ticket, c);
  }

  /** End to end, nobody else in between: a request of `n` messages that is admitted, and then answered and settled
      with every command done, leaves `pending` as it was and adds to `count` of its user and cost type the number of
      answers without an error under status 200, and nothing otherwise. Where settlement spells the key otherwise, the
      cost stays booked under the spelling of the headers and is taken from the other one. */
  lemma MessagesAreBilled(cfg: Quota.Config, db: Quota.Db, ticket: nat, c: QuotaCode.RequestCall,
                          s: QuotaCode.SettlementCall, status: int, answer: Option<Json>)
    requires c.id != "" && s.id == c.id && s.load && s.draw.Done? && s.pay.Done?
    requires s.handler == Some(RpcSuccess(status, answer))
    requires QuotaCode.RequestEffect(cfg, db, ticket, c).1.None?
    ensures var db' := QuotaCode.SettlementEffect(cfg, QuotaCode.RequestEffect(cfg, db, ticket, c).0, s);
      var free := if status != 200 then 0 else
        match answer
        case Some(List(ms)) => |set i | 0 <= i < |ms| && !ms[i].isError|
        case Some(One(m)) => if m.isError then 0 else 1
        case _ => 0;
      forall key ::
        && Quota.GetInt(db'.pending, key) ==
           Quota.GetInt(db.pending, key) + (if key == c.key then c.cost else 0) -
           (if key == cfg.canon(c.key) then c.cost else 0)
        && Quota.GetInt(db'.count, key) == Quota.GetInt(db.count, key) + (if key == cfg.canon(c.key) then free else 0)
  {
    RpcSuccessCounts(status, answer);
    var booked := QuotaCode.RequestEffect(cfg, db, ticket, c).0;
    QuotaCode.FilterBooks(cfg, db, ticket, c);
    QuotaCode.SettlementCredits(cfg, booked, s);
  }
}
