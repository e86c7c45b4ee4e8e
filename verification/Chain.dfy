/** Running a rule's plugins over one request or response, with early exit, and what the gateway is told. */
module Chain {
  import opened Wrappers
  import opened Wire
  import opened Tracking
  import opened ConfCache
  import Requests
  import Responses
  import ReqResponses

  /** How a plugin leaves the objects it is given: it returns, or it panics with what it did so far. */
  datatype Ending<W> = Finished(world: W) | Crashed(world: W)

  type Plugin<!W> = (Conf, W) -> Ending<W>

  type Plugins<!W> = map<string, Plugin<W>>

  /** The entries of a rule that have a plugin, in order. */
  function Active<W>(plugins: Plugins<W>, conf: RuleConf): RuleConf
  {
    if conf == [] then [] else
      var last := conf[|conf| - 1];
      Active(plugins, conf[..|conf| - 1]) + (if last.name in plugins then [last] else [])
  }

  lemma {:induction false} ActiveRegistered<W>(plugins: Plugins<W>, conf: RuleConf)
    ensures forall i :: 0 <= i < |Active(plugins, conf)| ==> Active(plugins, conf)[i].name in plugins
  {
    if conf != [] {
      ActiveRegistered(plugins, conf[..|conf| - 1]);
    }
  }

  predicate Registered<W>(plugins: Plugins<W>, active: RuleConf) {
    forall i :: 0 <= i < |active| ==> active[i].name in plugins
  }

  /** The fold: what the first `k` active plugins make of `w` when nothing stops them but a panic. */
  function Fold<W>(plugins: Plugins<W>, active: RuleConf, w: W, k: nat): Ending<W>
    requires k <= |active| && Registered(plugins, active)
  {
    if k == 0 then Finished(w) else
      match Fold(plugins, active, w, k - 1)
      case Crashed(v) => Crashed(v)
      case Finished(v) => plugins[active[k - 1].name](active[k - 1].value, v)
  }

  /** The first `k` active plugins return and none leaves a change. */
  predicate Untouched<W>(plugins: Plugins<W>, active: RuleConf, w: W, changed: W -> bool, k: nat)
    requires k <= |active| && Registered(plugins, active)
  {
    forall j :: 0 < j <= k ==>
      Fold(plugins, active, w, j).Finished? && !changed(Fold(plugins, active, w, j).world)
  }

  /** The chain ran exactly the first `k` active plugins: the result is their fold, none before the last left a
      change, and it stopped there because all had run, or the last panicked or left a change. */
  ghost predicate RanFirst<W>(plugins: Plugins<W>, conf: RuleConf, w: W, changed: W -> bool, out: Ending<W>, k: nat) {
    var active := Active(plugins, conf);
    && k <= |active|
    && Registered(plugins, active)
    && out == Fold(plugins, active, w, k)
    && (k > 0 ==> Untouched(plugins, active, w, changed, k - 1))
    && (k < |active| ==> k > 0 && (out.Crashed? || changed(out.world)))
  }

  /** The loop of both phases. `ran` lists the plugins that were run. */
  method Filter<W>(plugins: Plugins<W>, conf: RuleConf, w: W, changed: W -> bool)
    returns (out: Ending<W>, ran: seq<string>)
    ensures RanFirst(plugins, conf, w, changed, out, |ran|)
    ensures forall i :: 0 <= i < |ran| ==> i < |Active(plugins, conf)| && ran[i] == Active(plugins, conf)[i].name
  {
    ghost var active := Active(plugins, conf);
    ActiveRegistered(plugins, conf);
    ran := [];
    var v := w;
    for i := 0 to |conf|
      invariant |ran| == |Active(plugins, conf[..i])| <= |active|
      invariant forall j :: 0 <= j < |ran| ==> ran[j] == active[j].name
      invariant Fold(plugins, active, w, |ran|) == Finished(v) && Untouched(plugins, active, w, changed, |ran|)
    {
      var c := conf[i];
      if c.name !in plugins {
        PassOver(plugins, conf, i);
        continue;
      }
      TakeTurn(plugins, conf, w, changed, i, |ran|, v);
      var next := plugins[c.name](c.value, v);
      ran := ran + [c.name];
      if next.Crashed? || changed(next.world) {
        return next, ran;
      }
      v := next.world;
    }
    assert conf[..|conf|] == conf;
    out := Finished(v);
  }

  /** An entry without a plugin does not count. */
  lemma {:induction false} PassOver<W>(plugins: Plugins<W>, conf: RuleConf, i: nat)
    requires i < |conf| && conf[i].name !in plugins
    ensures |Active(plugins, conf[..i + 1])| == |Active(plugins, conf[..i])| <= |Active(plugins, conf)|
  {
    ActiveStep(plugins, conf, i);
  }

  /** One turn of the loop is one more step of the fold. */
  lemma {:induction false} TakeTurn<W>(plugins: Plugins<W>, conf: RuleConf, w: W, changed: W -> bool, i: nat, n: nat,
                                       v: W)
    requires i < |conf| && conf[i].name in plugins && n == |Active(plugins, conf[..i])| <= |Active(plugins, conf)|
    requires Registered(plugins, Active(plugins, conf))
    requires Fold(plugins, Active(plugins, conf), w, n) == Finished(v)
    requires Untouched(plugins, Active(plugins, conf), w, changed, n)
    ensures |Active(plugins, conf[..i + 1])| == n + 1 <= |Active(plugins, conf)| && Active(plugins, conf)[n] == conf[i]
    ensures var next := plugins[conf[i].name](conf[i].value, v);
      && Fold(plugins, Active(plugins, conf), w, n + 1) == next
      && (next.Finished? && !changed(next.world) ==> Untouched(plugins, Active(plugins, conf), w, changed, n + 1))
  {
    ActiveStep(plugins, conf, i);
  }

  lemma {:induction false} ActivePrefix<W>(plugins: Plugins<W>, conf: RuleConf, i: nat)
    requires i <= |conf|
    ensures Active(plugins, conf[..i]) <= Active(plugins, conf)
    decreases |conf| - i
  {
    if i == |conf| {
      assert conf[..i] == conf;
    } else {
      ActivePrefix(plugins, conf, i + 1);
      assert conf[..i + 1][..i] == conf[..i];
    }
  }

  lemma {:induction false} ActiveStep<W>(plugins: Plugins<W>, conf: RuleConf, i: nat)
    requires i < |conf|
    ensures Active(plugins, conf[..i + 1]) ==
            Active(plugins, conf[..i]) + (if conf[i].name in plugins then [conf[i]] else [])
    ensures Active(plugins, conf[..i + 1]) <= Active(plugins, conf)
  {
    assert conf[..i + 1][..i] == conf[..i];
    ActivePrefix(plugins, conf, i + 1);
  }

  /** There is only one way for a chain to have run. */
  lemma {:induction false} RanFirstUnique<W>(plugins: Plugins<W>, conf: RuleConf, w: W, changed: W -> bool,
                                            out: Ending<W>, k: nat, out': Ending<W>, k': nat)
    requires RanFirst(plugins, conf, w, changed, out, k) && RanFirst(plugins, conf, w, changed, out', k')
    ensures k == k' && out == out'
  {}

  // ----- The request phase -----

  /** A request plugin works on the response it may write and the request it may change. */
  datatype World = World(resp: ReqResponses.State, req: Requests.State)

  function Stopped(v: World): bool {
    ReqResponses.IsChanged(v.resp)
  }

  /** Plugins reach the request only through its operations, which keep it valid. */
  ghost predicate Behave(plugins: Plugins<World>) {
    forall name, conf: Conf, v: World ::
      name in plugins && Requests.Valid(v.req) && plugins[name](conf, v).Finished? ==>
      Requests.Valid(plugins[name](conf, v).world.req) && plugins[name](conf, v).world.req.msg == v.req.msg
  }

  lemma {:induction false} FoldStaysValid(plugins: Plugins<World>, active: RuleConf, w: World, k: nat)
    requires k <= |active| && Registered(plugins, active)
    requires Behave(plugins) && Requests.Valid(w.req)
    ensures Fold(plugins, active, w, k).Finished? ==>
      Requests.Valid(Fold(plugins, active, w, k).world.req) && Fold(plugins, active, w, k).world.req.msg == w.req.msg
  {
    if k > 0 {
      FoldStaysValid(plugins, active, w, k - 1);
    }
  }

  datatype Reply = Stop(id: nat, stop: ReqResponses.Stop) | Rewrite(id: nat, rewrite: Requests.Rewrite) |
      NoAction(id: nat)

  datatype Outcome = Panicked | NotFound | Replied(reply: Reply)

  /** What the gateway is told about the world the chain ends in: stop if a plugin left a response, else all
      changes to the request if any part of it was touched, else nothing. */
  ghost predicate Tells(v: World, id: nat, reply: Reply) {
    match reply
    case Stop(id', stop) => id' == id && ReqResponses.Stops(v.resp, stop)
    case Rewrite(id', rewrite) =>
      id' == id && !Stopped(v) && Requests.Reports(Requests.ChangesOf(v.req), Some(rewrite))
    case NoAction(id') => id' == id && !Stopped(v) && Requests.ChangesOf(v.req).None?
  }

  /** `HTTPReqCall`, on objects from the pools; `rule` is what the configuration cache has for the token. */
  method HTTPReqCall(req: Requests.Request, resp: ReqResponses.ReqResponse, msg: Requests.Message,
                     rule: Option<RuleConf>, plugins: Plugins<World>)
    returns (outcome: Outcome, ghost k: nat)
    requires BufferReady(req) && resp.View() == ReqResponses.EMPTY && Behave(plugins)
    requires req.hdr.None? && req.args.None?
    modifies req, resp
    ensures rule.None? <==> outcome.NotFound?
    ensures rule.Some? ==>
      var start := World(ReqResponses.EMPTY, Requests.Create(old(req.View()), msg));
      exists out :: RanFirst(plugins, rule.value, start, Stopped, out, k) &&
        match out
        case Crashed(_) => outcome.Panicked?
        case Finished(v) => outcome.Replied? && Tells(v, msg.id, outcome.reply)
    ensures resp.View() == ReqResponses.EMPTY && BufferReady(req)
    ensures req.hdr.None? && req.args.None? && req.path.None? && req.respHdr.None? && req.vars == map[] &&
      req.body == []
  {
    req.Take(msg);
    if rule.None? {
      req.Clear();
      return NotFound, 0;
    }
    var start := World(resp.View(), req.View());
    var out, ran := Filter(plugins, rule.value, start, Stopped);
    k := |ran|;
    if out.Crashed? {
      outcome := Panicked;
    } else {
      FoldStaysValid(plugins, Active(plugins, rule.value), start, k);
      Become(req, resp, out.world);
      var reply := Build(req, resp);
      outcome := Replied(reply);
    }
    req.Clear();
    resp.Reset();
  }

  ghost predicate BufferReady(req: Requests.Request)
    reads req
  {
    |req.extraInfoHeader| == 0 || |req.extraInfoHeader| == HEADER_LEN
  }

  /** The plugins' effects on the two objects. */
  method Become(req: Requests.Request, resp: ReqResponses.ReqResponse, v: World)
    modifies req, resp
    ensures req.View() == v.req && resp.View() == v.resp
  {
    req.r, req.extraInfoHeader, req.path := v.req.msg, v.req.buffer, v.req.path;
    req.hdr, req.rawHdr := v.req.hdr.live, v.req.hdr.raw;
    req.args, req.rawArgs := v.req.args.live, v.req.args.raw;
    req.vars, req.body, req.respHdr := v.req.vars, v.req.body, v.req.respHdr;
    resp.hdr, resp.body, resp.code := v.resp.hdr, v.resp.body, v.resp.code;
  }

  /** `requestPhase.builder`. */
  method Build(req: Requests.Request, resp: ReqResponses.ReqResponse) returns (reply: Reply)
    requires Requests.Valid(req.View())
    ensures Tells(World(resp.View(), req.View()), req.r.id, reply)
  {
    var stop := resp.FetchChanges();
    if stop.Some? {
      return Stop(req.r.id, stop.value);
    }
    var rewrite := req.FetchChanges();
    if rewrite.Some? {
      return Rewrite(req.r.id, rewrite.value);
    }
    return NoAction(req.r.id);
  }

  // ----- The response phase -----

  ghost predicate RespBehave(plugins: Plugins<Responses.State>) {
    forall name, conf: Conf, v: Responses.State ::
      name in plugins && Sound(v.hdr, v.msg.headers) && plugins[name](conf, v).Finished? ==>
      Sound(plugins[name](conf, v).world.hdr, v.msg.headers) && plugins[name](conf, v).world.msg == v.msg
  }

  lemma {:induction false} RespFoldStaysSound(plugins: Plugins<Responses.State>, active: RuleConf, w: Responses.State,
                                              k: nat)
    requires k <= |active| && Registered(plugins, active)
    requires RespBehave(plugins) && Sound(w.hdr, w.msg.headers)
    ensures Fold(plugins, active, w, k).Finished? ==>
      Sound(Fold(plugins, active, w, k).world.hdr, w.msg.headers) && Fold(plugins, active, w, k).world.msg == w.msg
  {
    if k > 0 {
      RespFoldStaysSound(plugins, active, w, k - 1);
    }
  }

  datatype RespOutcome = RespPanicked | RespNotFound | RespReplied(id: nat, rewrite: Option<Responses.Rewrite>)

  /** `HTTPRespCall`: the reply carries the changes of the world the chain ends in, if there are any. */
  method HTTPRespCall(resp: Responses.Response, msg: Responses.Message, rule: Option<RuleConf>,
                      plugins: Plugins<Responses.State>)
    returns (outcome: RespOutcome, ghost k: nat)
    requires resp.hdr.None? && RespBehave(plugins)
    modifies resp
    ensures rule.None? <==> outcome.RespNotFound?
    ensures rule.Some? ==>
      var start := Responses.Create(old(resp.View()), msg);
      exists out :: RanFirst(plugins, rule.value, start, Responses.IsChanged, out, k) &&
        match out
        case Crashed(_) => outcome.RespPanicked?
        case Finished(v) =>
          && outcome.RespReplied? && outcome.id == msg.id
          && Responses.Reports(Responses.ChangesOf(v), outcome.rewrite)
          && (outcome.rewrite.None? <==> v.body.None? && v.hdr.live.None? && v.statusCode == 0)
          && (outcome.rewrite.Some? ==>
                outcome.rewrite.value.body == (if v.body.Some? then v.body.value else []) &&
                outcome.rewrite.value.status == v.statusCode % 65536)
    ensures resp.hdr.None? && resp.body.None? && resp.statusCode == 0 && resp.vars == map[] && resp.originBody == []
  {
    resp.Take(msg);
    if rule.None? {
      resp.Clear();
      return RespNotFound, 0;
    }
    var start := resp.View();
    var out, ran := Filter(plugins, rule.value, start, Responses.IsChanged);
    k := |ran|;
    if out.Crashed? {
      outcome := RespPanicked;
    } else {
      RespFoldStaysSound(plugins, Active(plugins, rule.value), start, k);
      var v := out.world;
      resp.r, resp.extraInfoHeader, resp.hdr, resp.rawHdr := v.msg, v.buffer, v.hdr.live, v.hdr.raw;
      resp.statusCode, resp.body, resp.vars, resp.originBody := v.statusCode, v.body, v.vars, v.originBody;
      var rewrite := resp.FetchChanges();
      outcome := RespReplied(resp.r.id, rewrite);
    }
    resp.Clear();
  }
}
