/**
 The handler of request-phase calls as a connection sees it, built from the programs of a rule's plugins: what they
 ask for goes out as questions, the answers that have come decide how far the chain gets, and its last action is the
 one the chain ends in.
 */
module CallHandler {
  import opened Wrappers
  import opened Wire
  import opened Tracking
  import opened ConfCache
  import opened Chain
  import opened Programs
  import opened RpcBatch
  import Requests
  import ReqResponses
  import Session

  /** An operation of a plugin; Var and Body are those that may have to ask the gateway. */
  datatype WireOp = Plain(op: WorldOp) | Var(name: string, question: bytes) | Body(question: bytes)

  /** The objects, and the answers that have come and are not used yet. */
  datatype Fed = Fed(world: World, answers: seq<Option<bytes>>)

  /** What an exchange leaves in the header buffer does not matter to anyone. */
  const SCRATCH: bytes := [0, 0, 0, 0]

  predicate MustAsk(w: World, op: WireOp) {
    match op
    case Plain(_) => false
    case Var(name, _) => name !in w.req.vars
    case Body(_) => w.req.body == []
  }

  function NextAnswer(f: Fed): Option<bytes> {
    if f.answers == [] then None else f.answers[0]
  }

  /** Plain operations do not ask. */
  predicate IsPlain(op: WorldOp) {
    op.OnRequest? ==> !op.op.Var? && !op.op.Body?
  }

  function FedExec(f: Fed, op: WireOp): (Fed, Requests.Out) {
    var rest := if MustAsk(f.world, op) && f.answers != [] then f.answers[1..] else f.answers;
    match op
    case Plain(o) =>
      if IsPlain(o) then var (w, out) := WorldExec(f.world, o); (Fed(w, rest), out) else (f, Requests.Nothing)
    case Var(name, question) =>
      var (w, out) := WorldExec(f.world, OnRequest(Requests.Var(name, Ask(question, NextAnswer(f), SCRATCH))));
      (Fed(w, rest), out)
    case Body(question) =>
      var (w, out) := WorldExec(f.world, OnRequest(Requests.Body(Ask(question, NextAnswer(f), SCRATCH))));
      (Fed(w, rest), out)
  }

  type Plugged = Programs<WireOp, Requests.Out>

  function FedStopped(f: Fed): bool {
    Stopped(f.world)
  }

  // ----- Driving the chain with the answers at hand -----

  /** The chain has ended, or it needs the answer to a question. */
  datatype Driven = Ended(end: Ending<Fed>) | Wants(question: bytes)

  function DriveOne(p: Program<WireOp, Requests.Out>, f: Fed, seen: seq<Requests.Out>): Driven
    decreases p.moves - |seen|
  {
    if |seen| >= p.moves then Ended(Finished(f)) else
      match p.next(seen)
      case Return => Ended(Finished(f))
      case Panic => Ended(Crashed(f))
      case Do(op) =>
        if MustAsk(f.world, op) && f.answers == [] then Wants(op.question) else
          var (f', out) := FedExec(f, op);
          DriveOne(p, f', seen + [out])
  }

  function ProgramAt(programs: Plugged, active: RuleConf, i: nat): Program<WireOp, Requests.Out>
    requires i < |active| && Registered(PluginsOf(FedExec, programs), active)
  {
    programs[active[i].name](active[i].value)
  }

  /** From the i-th active plugin on. */
  function DriveFrom(programs: Plugged, active: RuleConf, f: Fed, i: nat): Driven
    requires i <= |active| && Registered(PluginsOf(FedExec, programs), active)
    decreases |active| - i
  {
    if i == |active| then Ended(Finished(f)) else
      match DriveOne(programs[active[i].name](active[i].value), f, [])
      case Wants(question) => Wants(question)
      case Ended(Crashed(f')) => Ended(Crashed(f'))
      case Ended(Finished(f')) => if FedStopped(f') then Ended(Finished(f')) else DriveFrom(programs, active, f', i + 1)
  }

  lemma {:induction false} DriveOneExecutes(p: Program<WireOp, Requests.Out>, f: Fed, seen: seq<Requests.Out>)
    requires DriveOne(p, f, seen).Ended?
    ensures DriveOne(p, f, seen).end == Execute(FedExec, p, f, seen)
    decreases p.moves - |seen|
  {
    if |seen| < p.moves && p.next(seen).Do? {
      var (f', out) := FedExec(f, p.next(seen).op);
      DriveOneExecutes(p, f', seen + [out]);
    }
  }

  /** A drive that ends has run the chain. */
  lemma {:induction false} DriveRuns(programs: Plugged, conf: RuleConf, start: Fed, f: Fed, i: nat) returns (k: nat)
    requires var plugins := PluginsOf(FedExec, programs);
      var active := Active(plugins, conf);
      i <= |active| && Registered(plugins, active) && Fold(plugins, active, start, i) == Finished(f) &&
      Untouched(plugins, active, start, FedStopped, i) && DriveFrom(programs, active, f, i).Ended?
    ensures var plugins := PluginsOf(FedExec, programs);
      RanFirst(plugins, conf, start, FedStopped, DriveFrom(programs, Active(plugins, conf), f, i).end, k)
    decreases |Active(PluginsOf(FedExec, programs), conf)| - i
  {
    var plugins := PluginsOf(FedExec, programs);
    var active := Active(plugins, conf);
    k := i;
    if i < |active| {
      var p := programs[active[i].name](active[i].value);
      DriveOneExecutes(p, f, []);
      var next := DriveOne(p, f, []).end;
      assert Fold(plugins, active, start, i + 1) == next;
      if next.Crashed? || FedStopped(next.world) {
        k := i + 1;
      } else {
        k := DriveRuns(programs, conf, start, next.world, i + 1);
      }
    }
  }

  // ----- The handler -----

  /** What the runner has besides the plugins: how a call is read, the cached rules, and how a reply is worded, in some
      order of its names, and written. */
  datatype Service = Service(
    programs: Plugged, read: bytes -> Requests.Message, rules: nat -> Option<RuleConf>,
    tell: (World, nat) -> Reply, write: Reply -> bytes)

  function StartOf(svc: Service, payload: bytes, answers: seq<Option<bytes>>): Fed {
    Fed(World(ReqResponses.EMPTY, Requests.Create(Requests.FRESH, svc.read(payload))), answers)
  }

  function Plugins(svc: Service): Plugins<Fed> {
    PluginsOf(FedExec, svc.programs)
  }

  function Drive(svc: Service, conf: RuleConf, payload: bytes, answers: seq<Option<bytes>>): Driven {
    ActiveRegistered(Plugins(svc), conf);
    DriveFrom(svc.programs, Active(Plugins(svc), conf), StartOf(svc, payload, answers), 0)
  }

  /** What `HTTPReqCall` does next for a connection. */
  function Act(svc: Service, payload: bytes, answers: seq<Option<bytes>>): Session.Action {
    var msg := svc.read(payload);
    match svc.rules(msg.confToken)
    case None => Session.Fail(Session.ConfTokenNotFound)
    case Some(conf) =>
      match Drive(svc, conf, payload, answers)
      case Wants(question) => Session.Query(question)
      case Ended(Crashed(_)) => Session.Panic
      case Ended(Finished(f)) => Session.Return(svc.write(svc.tell(f.world, msg.id)))
  }

  function HandlerOf(svc: Service, asks: nat): Session.Handler {
    Session.Handler(asks, (payload, answers) => Act(svc, payload, answers))
  }

  /** When the handler is done with a call whose rule is known, its action is the one the chain's fold ends in, on the
      answers that came: a panic, or the reply that tells of the world it ends in. */
  lemma {:induction false} ActsAsChain(svc: Service, payload: bytes, answers: seq<Option<bytes>>)
    returns (end: Ending<Fed>, k: nat)
    requires svc.rules(svc.read(payload).confToken).Some? && !Act(svc, payload, answers).Query?
    ensures var msg := svc.read(payload);
      && RanFirst(Plugins(svc), svc.rules(msg.confToken).value, StartOf(svc, payload, answers), FedStopped, end, k)
      && Act(svc, payload, answers) ==
         (if end.Crashed? then Session.Panic else Session.Return(svc.write(svc.tell(end.world.world, msg.id))))
  {
    var conf := svc.rules(svc.read(payload).confToken).value;
    ActiveRegistered(Plugins(svc), conf);
    end := Drive(svc, conf, payload, answers).end;
    k := DriveRuns(svc.programs, conf, StartOf(svc, payload, answers), StartOf(svc, payload, answers), 0);
  }

  // ----- Questions and answers -----

  /** What the operations of a plugin give it, as far as the answers at hand let it get. */
  function OutsOne(p: Program<WireOp, Requests.Out>, f: Fed, seen: seq<Requests.Out>): seq<Requests.Out>
    decreases p.moves - |seen|
  {
    if |seen| >= p.moves || !p.next(seen).Do? then [] else
      var op := p.next(seen).op;
      if MustAsk(f.world, op) && f.answers == [] then [] else
        var (f', out) := FedExec(f, op);
        [out] + OutsOne(p, f', seen + [out])
  }

  function OutsFrom(programs: Plugged, active: RuleConf, f: Fed, i: nat): seq<Requests.Out>
    requires i <= |active| && Registered(PluginsOf(FedExec, programs), active)
    decreases |active| - i
  {
    if i == |active| then [] else
      var p := programs[active[i].name](active[i].value);
      OutsOne(p, f, []) +
      match DriveOne(p, f, [])
      case Ended(Finished(f')) => if FedStopped(f') then [] else OutsFrom(programs, active, f', i + 1)
      case _ => []
  }

  /** The exchanges among them: the bytes sent, and the answer given. */
  function Exchanges(outs: seq<Requests.Out>): seq<(bytes, Option<bytes>)> {
    if outs == [] then [] else
      (if outs[0].Asked? && outs[0].sent != [] then [(outs[0].sent, outs[0].answer)] else []) + Exchanges(outs[1..])
  }

  lemma {:induction false} ExchangesOf(out: Requests.Out, rest: seq<Requests.Out>)
    ensures Exchanges([out] + rest) ==
            (if out.Asked? && out.sent != [] then [(out.sent, out.answer)] else []) + Exchanges(rest)
  {
    assert ([out] + rest)[1..] == rest;
  }

  lemma {:induction false} ExchangesAppend(a: seq<Requests.Out>, b: seq<Requests.Out>)
    ensures Exchanges(a + b) == Exchanges(a) + Exchanges(b)
  {
    if a == [] {
      assert a + b == b;
    } else {
      assert (a + b)[1..] == a[1..] + b;
      ExchangesAppend(a[1..], b);
    }
  }

  lemma AskTakesAnswer(f: Fed, op: WireOp)
    requires ReqFits(f.world) && MustAsk(f.world, op) && f.answers != []
    ensures var (f', out) := FedExec(f, op);
      ReqFits(f'.world) && f'.answers == f.answers[1..] &&
      out == Requests.Asked(Encode(Frame(3, op.question)), f.answers[0])
  {
    QuestionIsAFrame(f.world.req.buffer, op.question);
  }

  lemma NoAskNoAnswer(f: Fed, op: WireOp, answers: seq<Option<bytes>>)
    requires ReqFits(f.world) && !MustAsk(f.world, op)
    ensures var (f', out) := FedExec(f, op);
      ReqFits(f'.world) && f'.answers == f.answers && (out.Asked? ==> out.sent == []) &&
      FedExec(f.(answers := answers), op) == (f'.(answers := answers), out)
  {}

  lemma CutAsk(f: Fed, op: WireOp, j: nat)
    requires ReqFits(f.world) && MustAsk(f.world, op) && 0 < j <= |f.answers|
    ensures var (f', out) := FedExec(f, op);
      FedExec(f.(answers := f.answers[..j]), op) == (f'.(answers := f.answers[1..][..j - 1]), out)
  {
    assert f.answers[..j][1..] == f.answers[1..][..j - 1];
  }

  /** With only the first `j` answers a drive gets as far as the question that the next one answers. */
  ghost predicate CutAt(d: Driven, cut: Driven, exchanges: seq<(bytes, Option<bytes>)>, answers: seq<Option<bytes>>,
                        j: nat)
    requires j <= |answers|
  {
    var n := |exchanges|;
    && n <= |answers|
    && (j < n ==> exchanges[j].1 == answers[j] && cut.Wants? && exchanges[j].0 == Encode(Frame(3, cut.question)))
    && (d.Wants? ==> n == |answers| && (j == n ==> cut == d))
    && (d.Ended? ==> d.end.world.answers == answers[n..])
    && (d.Ended? && j >= n ==>
          cut.Ended? && (cut.end.Finished? <==> d.end.Finished?) &&
          cut.end.world == Fed(d.end.world.world, answers[n..j]))
  }

  /** A cut within the exchanges that came first. */
  lemma CutEarlier(d: Driven, rest: Driven, cut: Driven, first: seq<(bytes, Option<bytes>)>,
                   more: seq<(bytes, Option<bytes>)>, answers: seq<Option<bytes>>, j: nat)
    requires j < |first| <= |answers| && CutAt(d, rest, more, answers[|first|..], 0)
    requires first[j].1 == answers[j] && cut.Wants? && first[j].0 == Encode(Frame(3, cut.question))
    ensures CutAt(d, cut, first + more, answers, j)
  {
    assert d.Ended? ==> answers[|first|..][|more|..] == answers[|first + more|..];
  }

  /** A cut after them. */
  lemma CutLater(d: Driven, cut: Driven, first: seq<(bytes, Option<bytes>)>, more: seq<(bytes, Option<bytes>)>,
                 answers: seq<Option<bytes>>, j: nat)
    requires |first| <= j <= |answers| && CutAt(d, cut, more, answers[|first|..], j - |first|)
    ensures CutAt(d, cut, first + more, answers, j)
  {
    var m, n := |first|, |more|;
    assert d.Ended? ==> answers[m..][n..] == answers[m + n..];
    assert d.Ended? && j >= m + n ==> answers[m..][n..j - m] == answers[m + n..j];
  }

  /** The step of a question that is answered. */
  lemma CutThroughAsk(p: Program<WireOp, Requests.Out>, f: Fed, seen: seq<Requests.Out>, j: nat)
    requires ReqFits(f.world) && j <= |f.answers| && f.answers != []
    requires |seen| < p.moves && p.next(seen).Do? && MustAsk(f.world, p.next(seen).op)
    requires var (f', out) := FedExec(f, p.next(seen).op);
      var j' := if j == 0 then 0 else j - 1;
      |f'.answers| == |f.answers| - 1 &&
      CutAt(DriveOne(p, f', seen + [out]), DriveOne(p, f'.(answers := f'.answers[..j']), seen + [out]),
            Exchanges(OutsOne(p, f', seen + [out])), f.answers[1..], j')
    ensures CutAt(DriveOne(p, f, seen), DriveOne(p, f.(answers := f.answers[..j]), seen),
                  Exchanges(OutsOne(p, f, seen)), f.answers, j)
  {
    var op := p.next(seen).op;
    var (f', out) := FedExec(f, op);
    var d, more := DriveOne(p, f', seen + [out]), Exchanges(OutsOne(p, f', seen + [out]));
    var first := [(Encode(Frame(3, op.question)), f.answers[0])];
    AskTakesAnswer(f, op);
    ExchangesOf(out, OutsOne(p, f', seen + [out]));
    if j == 0 {
      CutEarlier(d, DriveOne(p, f'.(answers := f'.answers[..0]), seen + [out]), Wants(op.question), first, more,
                 f.answers, 0);
    } else {
      CutAsk(f, op, j);
      CutLater(d, DriveOne(p, f'.(answers := f'.answers[..j - 1]), seen + [out]), first, more, f.answers, j);
    }
  }

  lemma {:induction false} CutOne(p: Program<WireOp, Requests.Out>, f: Fed, seen: seq<Requests.Out>, j: nat)
    requires ReqFits(f.world) && j <= |f.answers|
    ensures CutAt(DriveOne(p, f, seen), DriveOne(p, f.(answers := f.answers[..j]), seen),
                  Exchanges(OutsOne(p, f, seen)), f.answers, j)
    ensures DriveOne(p, f, seen).Ended? ==> ReqFits(DriveOne(p, f, seen).end.world.world)
    decreases p.moves - |seen|
  {
    if |seen| < p.moves && p.next(seen).Do? {
      var op := p.next(seen).op;
      var (f', out) := FedExec(f, op);
      if !MustAsk(f.world, op) {
        NoAskNoAnswer(f, op, f.answers[..j]);
        CutOne(p, f', seen + [out], j);
        ExchangesOf(out, OutsOne(p, f', seen + [out]));
      } else if f.answers != [] {
        AskTakesAnswer(f, op);
        CutOne(p, f', seen + [out], if j == 0 then 0 else j - 1);
        CutThroughAsk(p, f, seen, j);
      }
    }
  }

  /** The chain stops at plugin `i`, which asks, panics or leaves a change. */
  lemma StopsAt(programs: Plugged, active: RuleConf, f: Fed, i: nat, d: Driven)
    requires i < |active| && Registered(PluginsOf(FedExec, programs), active)
    requires d == DriveOne(ProgramAt(programs, active, i), f, [])
    requires d.Wants? || d.end.Crashed? || FedStopped(d.end.world)
    ensures DriveFrom(programs, active, f, i) == d
    ensures OutsFrom(programs, active, f, i) == OutsOne(ProgramAt(programs, active, i), f, [])
  {
    var outs := OutsOne(ProgramAt(programs, active, i), f, []);
    assert outs + [] == outs;
  }

  lemma GoesPast(programs: Plugged, active: RuleConf, f: Fed, i: nat, f': Fed)
    requires i < |active| && Registered(PluginsOf(FedExec, programs), active)
    requires DriveOne(ProgramAt(programs, active, i), f, []) == Ended(Finished(f')) && !FedStopped(f')
    ensures DriveFrom(programs, active, f, i) == DriveFrom(programs, active, f', i + 1)
    ensures OutsFrom(programs, active, f, i) ==
            OutsOne(ProgramAt(programs, active, i), f, []) + OutsFrom(programs, active, f', i + 1)
  {}

  /** A plugin that is cut asks the question, or it ends as it would, on the answers that are left it. */
  lemma PluginCut(p: Program<WireOp, Requests.Out>, f: Fed, j: nat, e: seq<(bytes, Option<bytes>)>, end: Ending<Fed>)
    requires ReqFits(f.world) && j <= |f.answers|
    requires DriveOne(p, f, []) == Ended(end) && e == Exchanges(OutsOne(p, f, []))
    ensures ReqFits(end.world.world) && |e| <= |f.answers| && end.world.answers == f.answers[|e|..]
    ensures var cut := DriveOne(p, f.(answers := f.answers[..j]), []);
      if j < |e| then e[j].1 == f.answers[j] && cut.Wants? && e[j].0 == Encode(Frame(3, cut.question))
      else cut == Ended(end.(world := Fed(end.world.world, end.world.answers[..j - |e|])))
  {
    CutOne(p, f, [], j);
    assert j >= |e| ==> f.answers[|e|..][..j - |e|] == f.answers[|e|..j];
  }

  lemma CutAtStop(programs: Plugged, active: RuleConf, f: Fed, i: nat, j: nat, d: Driven)
    requires i < |active| && Registered(PluginsOf(FedExec, programs), active) && ReqFits(f.world) && j <= |f.answers|
    requires d == DriveOne(ProgramAt(programs, active, i), f, [])
    requires d.Wants? || d.end.Crashed? || FedStopped(d.end.world)
    ensures CutAt(DriveFrom(programs, active, f, i), DriveFrom(programs, active, f.(answers := f.answers[..j]), i),
                  Exchanges(OutsFrom(programs, active, f, i)), f.answers, j)
  {
    var p, g := ProgramAt(programs, active, i), f.(answers := f.answers[..j]);
    CutOne(p, f, [], j);
    StopsAt(programs, active, f, i, d);
    StopsAt(programs, active, g, i, DriveOne(p, g, []));
  }

  /** The step past a plugin: the rest of the chain, cut, gives the whole, cut. */
  lemma CutPast(programs: Plugged, active: RuleConf, f: Fed, i: nat, j: nat, e: seq<(bytes, Option<bytes>)>, f': Fed)
    requires i < |active| && Registered(PluginsOf(FedExec, programs), active) && ReqFits(f.world)
    requires j <= |f.answers| && |e| <= |f.answers| && f'.answers == f.answers[|e|..]
    requires DriveOne(ProgramAt(programs, active, i), f, []) == Ended(Finished(f')) && !FedStopped(f')
    requires e == Exchanges(OutsOne(ProgramAt(programs, active, i), f, []))
    requires var j' := if j < |e| then 0 else j - |e|;
      CutAt(DriveFrom(programs, active, f', i + 1),
            DriveFrom(programs, active, f'.(answers := f'.answers[..j']), i + 1),
            Exchanges(OutsFrom(programs, active, f', i + 1)), f'.answers, j')
    ensures CutAt(DriveFrom(programs, active, f, i), DriveFrom(programs, active, f.(answers := f.answers[..j]), i),
                  Exchanges(OutsFrom(programs, active, f, i)), f.answers, j)
  {
    var p, g := ProgramAt(programs, active, i), f.(answers := f.answers[..j]);
    var more := OutsFrom(programs, active, f', i + 1);
    PluginCut(p, f, j, e, Finished(f'));
    GoesPast(programs, active, f, i, f');
    ExchangesAppend(OutsOne(p, f, []), more);
    if j < |e| {
      var asks := DriveOne(p, g, []);
      StopsAt(programs, active, g, i, asks);
      CutEarlier(DriveFrom(programs, active, f', i + 1),
                 DriveFrom(programs, active, f'.(answers := f'.answers[..0]), i + 1),
                 asks, e, Exchanges(more), f.answers, j);
    } else {
      var rest := f'.(answers := f'.answers[..j - |e|]);
      GoesPast(programs, active, g, i, rest);
      CutLater(DriveFrom(programs, active, f', i + 1), DriveFrom(programs, active, rest, i + 1), e, Exchanges(more),
               f.answers, j);
    }
  }

  lemma CutAtEnd(programs: Plugged, active: RuleConf, f: Fed, j: nat)
    requires Registered(PluginsOf(FedExec, programs), active) && j <= |f.answers|
    ensures CutAt(DriveFrom(programs, active, f, |active|),
                  DriveFrom(programs, active, f.(answers := f.answers[..j]), |active|),
                  Exchanges(OutsFrom(programs, active, f, |active|)), f.answers, j)
  {}

  lemma PluginEnds(p: Program<WireOp, Requests.Out>, f: Fed, end: Ending<Fed>)
    requires ReqFits(f.world) && DriveOne(p, f, []) == Ended(end)
    ensures var n := |Exchanges(OutsOne(p, f, []))|;
      ReqFits(end.world.world) && n <= |f.answers| && end.world.answers == f.answers[n..]
  {
    CutOne(p, f, [], 0);
  }

  lemma {:induction false} CutOnward(programs: Plugged, active: RuleConf, f: Fed, i: nat, j: nat, f': Fed)
    requires i < |active| && Registered(PluginsOf(FedExec, programs), active) && ReqFits(f.world) && j <= |f.answers|
    requires DriveOne(ProgramAt(programs, active, i), f, []) == Ended(Finished(f')) && !FedStopped(f')
    ensures CutAt(DriveFrom(programs, active, f, i), DriveFrom(programs, active, f.(answers := f.answers[..j]), i),
                  Exchanges(OutsFrom(programs, active, f, i)), f.answers, j)
    decreases |active| - i, 0
  {
    var e := Exchanges(OutsOne(ProgramAt(programs, active, i), f, []));
    PluginEnds(ProgramAt(programs, active, i), f, Finished(f'));
    CutFrom(programs, active, f', i + 1, if j < |e| then 0 else j - |e|);
    CutPast(programs, active, f, i, j, e, f');
  }

  lemma {:induction false} CutFrom(programs: Plugged, active: RuleConf, f: Fed, i: nat, j: nat)
    requires i <= |active| && Registered(PluginsOf(FedExec, programs), active) && ReqFits(f.world) && j <= |f.answers|
    ensures CutAt(DriveFrom(programs, active, f, i), DriveFrom(programs, active, f.(answers := f.answers[..j]), i),
                  Exchanges(OutsFrom(programs, active, f, i)), f.answers, j)
    decreases |active| - i, 1
  {
    if i == |active| {
      CutAtEnd(programs, active, f, j);
    } else {
      var d := DriveOne(ProgramAt(programs, active, i), f, []);
      if d.Wants? || d.end.Crashed? || FedStopped(d.end.world) {
        CutAtStop(programs, active, f, i, j, d);
      } else {
        CutOnward(programs, active, f, i, j, d.end.world);
      }
    }
  }

  /** The exchanges of a call: what its plugins' operations sent, and the answers they were given. */
  function ExchangesOfCall(svc: Service, conf: RuleConf, payload: bytes, answers: seq<Option<bytes>>)
    : seq<(bytes, Option<bytes>)>
  {
    ActiveRegistered(Plugins(svc), conf);
    Exchanges(OutsFrom(svc.programs, Active(Plugins(svc), conf), StartOf(svc, payload, answers), 0))
  }

  /** Answers come back to the operations that asked for them: the j-th that a call's operations are given is the j-th
      answer of the connection, and the question it was given for is the one the handler asks when it has the answers
      before. Once it needs no more, further answers change nothing. */
  lemma {:induction false} AnswersMeetQuestions(svc: Service, payload: bytes, answers: seq<Option<bytes>>,
                                                conf: RuleConf, j: nat)
    requires svc.rules(svc.read(payload).confToken) == Some(conf) && j <= |answers|
    ensures var exchanges := ExchangesOfCall(svc, conf, payload, answers);
      && |exchanges| <= |answers|
      && (j < |exchanges| ==>
            exchanges[j].1 == answers[j] && Act(svc, payload, answers[..j]).Query? &&
            exchanges[j].0 == Encode(Frame(3, Act(svc, payload, answers[..j]).question)))
      && (j >= |exchanges| ==> Act(svc, payload, answers[..j]) == Act(svc, payload, answers))
  {
    ActiveRegistered(Plugins(svc), conf);
    CutFrom(svc.programs, Active(Plugins(svc), conf), StartOf(svc, payload, answers), 0, j);
    if j == |answers| { assert answers[..j] == answers; }
  }

  // ----- Recycled objects -----

  predicate FedAlike(a: Fed, b: Fed) {
    WorldsAlike(a.world, b.world) && a.answers == b.answers
  }

  lemma FedKeepsAlike()
    ensures KeepsAlike(FedExec, FedAlike) && forall v, w :: FedAlike(v, w) ==> FedStopped(v) == FedStopped(w)
  {
    WorldKeepsAlike();
    forall a, b, op | FedAlike(a, b)
      ensures FedExec(a, op).1 == FedExec(b, op).1 && FedAlike(FedExec(a, op).0, FedExec(b, op).0)
    {
      var worldOp := match op
        case Plain(o) => o
        case Var(name, question) => OnRequest(Requests.Var(name, Ask(question, NextAnswer(a), SCRATCH)))
        case Body(question) => OnRequest(Requests.Body(Ask(question, NextAnswer(a), SCRATCH)));
      assert WorldExec(a.world, worldOp).1 == WorldExec(b.world, worldOp).1;
    }
  }

  /** That the handler starts with new objects is no loss: on recycled ones the chain runs the same plugins, on the same
      answers, to the same kind of end, and the same can be told of it. */
  lemma {:induction false} RecycledRunsAlike(svc: Service, payload: bytes, answers: seq<Option<bytes>>, conf: RuleConf,
                                             used: Requests.State, x: Ending<Fed>, k: nat, y: Ending<Fed>, n: nat,
                                             reply: Reply)
    requires BufferFits(used.buffer)
    requires RanFirst(Plugins(svc), conf, StartOf(svc, payload, answers), FedStopped, x, k)
    requires RanFirst(Plugins(svc), conf,
                      Fed(World(ReqResponses.EMPTY, Requests.Create(Requests.Reset(used), svc.read(payload))), answers),
                      FedStopped, y, n)
    ensures k == n && (x.Finished? <==> y.Finished?)
    ensures Tells(x.world.world, svc.read(payload).id, reply) <==> Tells(y.world.world, svc.read(payload).id, reply)
  {
    FedKeepsAlike();
    var b := Fed(World(ReqResponses.EMPTY, Requests.Create(Requests.Reset(used), svc.read(payload))), answers);
    ChainAlike(FedExec, FedAlike, FedStopped, svc.programs, conf, StartOf(svc, payload, answers), b, x, k, y, n);
    assert Requests.ChangesOf(x.world.world.req) == Requests.ChangesOf(y.world.world.req);
  }

  // ----- The handler stops asking -----

  function Moves(programs: Plugged, active: RuleConf, i: nat): nat
    requires i <= |active| && Registered(PluginsOf(FedExec, programs), active)
    decreases |active| - i
  {
    if i == |active| then 0 else programs[active[i].name](active[i].value).moves + Moves(programs, active, i + 1)
  }

  lemma {:induction false} EnoughForOne(p: Program<WireOp, Requests.Out>, f: Fed, seen: seq<Requests.Out>)
    requires |seen| <= p.moves && |f.answers| >= p.moves - |seen|
    ensures DriveOne(p, f, seen).Ended?
    ensures |DriveOne(p, f, seen).end.world.answers| >= |f.answers| - (p.moves - |seen|)
    decreases p.moves - |seen|
  {
    if |seen| < p.moves && p.next(seen).Do? {
      var (f', out) := FedExec(f, p.next(seen).op);
      assert |f'.answers| >= |f.answers| - 1;
      EnoughForOne(p, f', seen + [out]);
    }
  }

  lemma {:induction false} EnoughFor(programs: Plugged, active: RuleConf, f: Fed, i: nat)
    requires i <= |active| && Registered(PluginsOf(FedExec, programs), active)
    requires |f.answers| >= Moves(programs, active, i)
    ensures DriveFrom(programs, active, f, i).Ended?
    decreases |active| - i
  {
    if i < |active| {
      var p := programs[active[i].name](active[i].value);
      EnoughForOne(p, f, []);
      var next := DriveOne(p, f, []).end;
      if next.Finished? { EnoughFor(programs, active, next.world, i + 1); }
    }
  }

  /** The handler halts, with as many asks as the operations of its longest rule. */
  lemma {:induction false} HandlerHalts(svc: Service, asks: nat)
    requires forall token :: svc.rules(token).Some? ==>
      var active := Active(Plugins(svc), svc.rules(token).value);
      Registered(Plugins(svc), active) && Moves(svc.programs, active, 0) <= asks
    ensures Session.Halts(HandlerOf(svc, asks))
  {
    forall payload, answers: seq<Option<bytes>> | |answers| >= asks
      ensures !HandlerOf(svc, asks).act(payload, answers).Query?
    {
      var msg := svc.read(payload);
      if svc.rules(msg.confToken).Some? {
        var active := Active(Plugins(svc), svc.rules(msg.confToken).value);
        EnoughFor(svc.programs, active, StartOf(svc, payload, answers), 0);
      }
    }
  }

  // ----- The parser among the programs -----

  /** The parser plugin, one operation at a time: the body, then the headers, or the refusal and the panic. */
  function ParserProgram(p: Printing, o: ParserConf, question: bytes, decode: bytes -> Json, uuid: string)
    : Program<WireOp, Requests.Out>
  {
    Program(6, seen => ParserMove(p, o, question, decode, uuid, seen))
  }

  function ParserMove(p: Printing, o: ParserConf, question: bytes, decode: bytes -> Json, uuid: string,
                      seen: seq<Requests.Out>): Move<WireOp>
  {
    if seen == [] then Do(Body(question)) else
      var body := if seen[0].Asked? && seen[0].answer.Some? then Some(decode(seen[0].answer.value)) else None;
      match ParseRequest(o, body)
      case None =>
        if |seen| == 1 then Do(Plain(OnResponse(ReqResponses.Op.WriteHeader(400))))
        else if |seen| == 2 then Do(Plain(OnResponse(ReqResponses.Op.Write(p.refusal))))
        else Panic
      case Some(r) =>
        if |seen| == 1 then Put(p.costTypeKey, p.costType(r.costType))
        else if |seen| == 2 then Put(p.costCountKey, p.decimal(r.count))
        else if |seen| == 3 then Put(p.requestIdKey, uuid)
        else if |seen| == 4 then Put(p.serverTypeKey, p.serverType(o.isCspace))
        else Return
  }

  function Put(name: string, value: string): Move<WireOp> {
    Do(Plain(OnRequest(Requests.Header(name, Edit.Set(value)))))
  }

  lemma {:induction false} ExecuteStep(p: Program<WireOp, Requests.Out>, f: Fed, seen: seq<Requests.Out>)
    requires |seen| < p.moves && p.next(seen).Do?
    ensures var (f', out) := FedExec(f, p.next(seen).op);
      Execute(FedExec, p, f, seen) == Execute(FedExec, p, f', seen + [out])
  {}

  function AskFor(question: bytes, f: Fed): Ask {
    Ask(question, NextAnswer(f), SCRATCH)
  }

  /** The program does what the plugin does, on the next answer. */
  lemma {:induction false} ProgramIsParser(p: Printing, o: ParserConf, question: bytes, decode: bytes -> Json,
                                            uuid: string, f: Fed)
    requires ReqFits(f.world)
    ensures var end := Execute(FedExec, ParserProgram(p, o, question, decode, uuid), f, []);
      var effect := ParserEffect(p, o, AskFor(question, f), decode, uuid, f.world);
      (end.Crashed? <==> effect.Crashed?) && end.world.world == effect.world
  {
    var prog := ParserProgram(p, o, question, decode, uuid);
    var (f1, out) := FedExec(f, Body(question));
    ExecuteStep(prog, f, []);
    assert [] + [out] == [out];
    var (asked, parsed) := Parsed(o, AskFor(question, f), decode, f.world.req);
    assert f1.world == World(f.world.resp, asked) && out.Asked?;
    if parsed.None? {
      RefusesBy(p, o, question, decode, uuid, f1, out);
    } else {
      LabelsBy(p, o, question, decode, uuid, f1, out, parsed.value);
    }
  }

  /** So the program returns exactly for a body that can be read and parses, and labels the request with it. */
  lemma {:induction false} ProgramLabels(p: Printing, o: ParserConf, question: bytes, decode: bytes -> Json,
                                         uuid: string, f: Fed)
    requires ReqFits(f.world)
    ensures var end := Execute(FedExec, ParserProgram(p, o, question, decode, uuid), f, []);
      var body := JsonOf(AskFor(question, f), decode, f.world.req);
      && (end.Finished? <==> body.Some? && !body.value.Malformed?)
      && (end.Finished? ==> LabelledAs(p, o, body.value, uuid, f.world, end.world.world))
  {
    ProgramIsParser(p, o, question, decode, uuid, f);
    EffectLabels(p, o, AskFor(question, f), decode, uuid, f.world);
  }

  function BodyOf(decode: bytes -> Json, out: Requests.Out): Option<Json> {
    if out.Asked? && out.answer.Some? then Some(decode(out.answer.value)) else None
  }

  lemma {:induction false} RefusesBy(p: Printing, o: ParserConf, question: bytes, decode: bytes -> Json, uuid: string,
                                     f: Fed, out: Requests.Out)
    requires ParseRequest(o, BodyOf(decode, out)).None?
    ensures Execute(FedExec, ParserProgram(p, o, question, decode, uuid), f, [out]) ==
            Crashed(f.(world := World(Refused(p, f.world.resp), f.world.req)))
  {
    var prog := ParserProgram(p, o, question, decode, uuid);
    ExecuteStep(prog, f, [out]);
    var (f1, out1) := FedExec(f, prog.next([out]).op);
    assert [out] + [out1] == [out, out1];
    ExecuteStep(prog, f1, [out, out1]);
    var (f2, out2) := FedExec(f1, prog.next([out, out1]).op);
    assert [out, out1] + [out2] == [out, out1, out2];
  }

  lemma {:induction false} LabelsBy(p: Printing, o: ParserConf, question: bytes, decode: bytes -> Json, uuid: string,
                                    f: Fed, out: Requests.Out, r: ParseResult)
    requires ReqFits(f.world) && ParseRequest(o, BodyOf(decode, out)) == Some(r)
    ensures var st := SetHeader(Labelled(p, r, uuid, f.world.req), p.serverTypeKey, p.serverType(o.isCspace));
      Execute(FedExec, ParserProgram(p, o, question, decode, uuid), f, [out]) ==
      Finished(f.(world := World(f.world.resp, st)))
  {
    var prog := ParserProgram(p, o, question, decode, uuid);
    var f1, out1 := Puts(prog, f, [out], p.costTypeKey, p.costType(r.costType));
    var f2, out2 := Puts(prog, f1, [out] + [out1], p.costCountKey, p.decimal(r.count));
    LabelsRest(p, o, question, decode, uuid, f2, [out] + [out1] + [out2], r);
  }

  lemma {:induction false} LabelsRest(p: Printing, o: ParserConf, question: bytes, decode: bytes -> Json, uuid: string,
                                      f: Fed, seen: seq<Requests.Out>, r: ParseResult)
    requires ReqFits(f.world) && |seen| == 3 && ParseRequest(o, BodyOf(decode, seen[0])) == Some(r)
    ensures
      var st := SetHeader(SetHeader(f.world.req, p.requestIdKey, uuid), p.serverTypeKey, p.serverType(o.isCspace));
      Execute(FedExec, ParserProgram(p, o, question, decode, uuid), f, seen) ==
      Finished(f.(world := World(f.world.resp, st)))
  {
    var prog := ParserProgram(p, o, question, decode, uuid);
    var f3, out3 := Puts(prog, f, seen, p.requestIdKey, uuid);
    var f4, out4 := Puts(prog, f3, seen + [out3], p.serverTypeKey, p.serverType(o.isCspace));
    assert prog.next(seen + [out3] + [out4]).Return?;
  }

  lemma {:induction false} Puts(prog: Program<WireOp, Requests.Out>, f: Fed, seen: seq<Requests.Out>, name: string,
                                value: string)
    returns (f': Fed, out: Requests.Out)
    requires ReqFits(f.world) && |seen| < prog.moves && prog.next(seen) == Put(name, value)
    ensures Execute(FedExec, prog, f, seen) == Execute(FedExec, prog, f', seen + [out])
    ensures f' == f.(world := World(f.world.resp, SetHeader(f.world.req, name, value))) && ReqFits(f'.world)
  {
    ExecuteStep(prog, f, seen);
    var (g, o) := FedExec(f, prog.next(seen).op);
    f', out := g, o;
  }

  // ----- Panics, from the program to the connection -----

  ghost predicate NeverPanics(p: Program<WireOp, Requests.Out>) {
    forall seen :: !p.next(seen).Panic?
  }

  lemma {:induction false} ExecuteReturns(p: Program<WireOp, Requests.Out>, f: Fed, seen: seq<Requests.Out>)
    ensures NeverPanics(p) ==> Execute(FedExec, p, f, seen).Finished?
    ensures ReqFits(f.world) ==> ReqFits(Execute(FedExec, p, f, seen).world.world)
    decreases p.moves - |seen|
  {
    if |seen| < p.moves && p.next(seen).Do? {
      var (f', out) := FedExec(f, p.next(seen).op);
      ExecuteReturns(p, f', seen + [out]);
    }
  }

  /** Once past plugin `i`, a chain of programs that never panic does not. */
  lemma {:induction false} FoldReturns(programs: Plugged, active: RuleConf, start: Fed, i: nat, k: nat)
    requires i <= k <= |active| && Registered(PluginsOf(FedExec, programs), active) && ReqFits(start.world)
    requires forall j :: i <= j < |active| ==> NeverPanics(ProgramAt(programs, active, j))
    ensures ReqFits(Fold(PluginsOf(FedExec, programs), active, start, k).world.world)
    ensures Fold(PluginsOf(FedExec, programs), active, start, i).Finished? ==>
      Fold(PluginsOf(FedExec, programs), active, start, k).Finished?
    decreases k
  {
    if k > 0 {
      var before := Fold(PluginsOf(FedExec, programs), active, start, k - 1);
      if k > i {
        FoldReturns(programs, active, start, i, k - 1);
      } else {
        FoldFits(programs, active, start, k - 1);
      }
      if before.Finished? { ExecuteReturns(ProgramAt(programs, active, k - 1), before.world, []); }
    }
  }

  lemma {:induction false} FoldFits(programs: Plugged, active: RuleConf, start: Fed, k: nat)
    requires k <= |active| && Registered(PluginsOf(FedExec, programs), active) && ReqFits(start.world)
    ensures ReqFits(Fold(PluginsOf(FedExec, programs), active, start, k).world.world)
  {
    if k > 0 {
      FoldFits(programs, active, start, k - 1);
      var before := Fold(PluginsOf(FedExec, programs), active, start, k - 1);
      if before.Finished? { ExecuteReturns(ProgramAt(programs, active, k - 1), before.world, []); }
    }
  }

  /** Plugin `i` of the rule is the parser, the later ones never panic, and its turn comes: those before it return and
      leave no change. */
  ghost predicate ParserTurn(svc: Service, conf: RuleConf, payload: bytes, answers: seq<Option<bytes>>, i: nat,
                             p: Printing, o: ParserConf, question: bytes, decode: bytes -> Json, uuid: string)
  {
    var active := Active(Plugins(svc), conf);
    && Registered(Plugins(svc), active) && i < |active|
    && ProgramAt(svc.programs, active, i) == ParserProgram(p, o, question, decode, uuid)
    && (forall j :: i < j < |active| ==> NeverPanics(ProgramAt(svc.programs, active, j)))
    && Untouched(Plugins(svc), active, StartOf(svc, payload, answers), FedStopped, i)
  }

  /** Where the parser's turn finds the objects. */
  function AtTurn(svc: Service, conf: RuleConf, payload: bytes, answers: seq<Option<bytes>>, i: nat): Fed
    requires Registered(Plugins(svc), Active(Plugins(svc), conf)) && i < |Active(Plugins(svc), conf)|
  {
    Fold(Plugins(svc), Active(Plugins(svc), conf), StartOf(svc, payload, answers), i).world
  }

  lemma {:induction false} TurnPanicsIff(
    svc: Service, payload: bytes, answers: seq<Option<bytes>>, conf: RuleConf, i: nat,
    p: Printing, o: ParserConf, question: bytes, decode: bytes -> Json, uuid: string)
    requires ParserTurn(svc, conf, payload, answers, i, p, o, question, decode, uuid)
    ensures var v := AtTurn(svc, conf, payload, answers, i);
      ReqFits(v.world) &&
      (Fold(Plugins(svc), Active(Plugins(svc), conf), StartOf(svc, payload, answers), i + 1).Crashed? <==>
       Parsed(o, AskFor(question, v), decode, v.world.req).1.None?)
  {
    var active := Active(Plugins(svc), conf);
    var v := AtTurn(svc, conf, payload, answers, i);
    FoldFits(svc.programs, active, StartOf(svc, payload, answers), i);
    ProgramIsParser(p, o, question, decode, uuid, v);
    assert Fold(Plugins(svc), active, StartOf(svc, payload, answers), i) == Finished(v);
  }

  /** Only the parser can crash the chain from its turn on. */
  lemma {:induction false} ChainCrashesIff(
    svc: Service, payload: bytes, answers: seq<Option<bytes>>, conf: RuleConf, i: nat,
    p: Printing, o: ParserConf, question: bytes, decode: bytes -> Json, uuid: string, end: Ending<Fed>, k: nat)
    requires ParserTurn(svc, conf, payload, answers, i, p, o, question, decode, uuid)
    requires RanFirst(Plugins(svc), conf, StartOf(svc, payload, answers), FedStopped, end, k)
    ensures end.Crashed? <==>
      Fold(Plugins(svc), Active(Plugins(svc), conf), StartOf(svc, payload, answers), i + 1).Crashed?
  {
    var start := StartOf(svc, payload, answers);
    var active := Active(Plugins(svc), conf);
    assert k > i;
    FoldReturns(svc.programs, active, start, i + 1, k);
  }

  /** The handler ends in a panic exactly when the body does not parse. */
  lemma {:induction false} HandlerPanicsIff(
    svc: Service, payload: bytes, answers: seq<Option<bytes>>, conf: RuleConf, i: nat,
    p: Printing, o: ParserConf, question: bytes, decode: bytes -> Json, uuid: string)
    requires svc.rules(svc.read(payload).confToken) == Some(conf) && !Act(svc, payload, answers).Query?
    requires ParserTurn(svc, conf, payload, answers, i, p, o, question, decode, uuid)
    ensures var v := AtTurn(svc, conf, payload, answers, i);
      ReqFits(v.world) &&
      (Act(svc, payload, answers).Panic? <==> Parsed(o, AskFor(question, v), decode, v.world.req).1.None?)
  {
    var end, k := ActsAsChain(svc, payload, answers);
    TurnPanicsIff(svc, payload, answers, conf, i, p, o, question, decode, uuid);
    ChainCrashesIff(svc, payload, answers, conf, i, p, o, question, decode, uuid, end, k);
  }

  /** On the connection, with this handler: once the call has all its answers, a reply can leave for the request exactly
      when its body parses. Otherwise the 400 that was written is not sent, and nothing follows on the connection. */
  lemma {:induction false} NoReplyOnParseError(
    server: Session.Server, svc: Service, asks: nat, log: seq<Session.Event>, request: Frame,
    answers: seq<Option<bytes>>, conf: RuleConf, i: nat,
    p: Printing, o: ParserConf, question: bytes, decode: bytes -> Json, uuid: string)
    requires server.httpReqCall == HandlerOf(svc, asks) && request.ty == RPC_HTTP_REQ_CALL
    requires Session.PhaseAfter(server, log) == Some(Session.Serving(request, answers))
    requires svc.rules(svc.read(request.payload).confToken) == Some(conf) && !Act(svc, request.payload, answers).Query?
    requires ParserTurn(svc, conf, request.payload, answers, i, p, o, question, decode, uuid)
    ensures var v := AtTurn(svc, conf, request.payload, answers, i);
      ReqFits(v.world) &&
      ((exists more: seq<Session.Event> :: log < more && Session.PhaseAfter(server, more).Some?) <==>
       Parsed(o, AskFor(question, v), decode, v.world.req).1.Some?)
  {
    HandlerPanicsIff(svc, request.payload, answers, conf, i, p, o, question, decode, uuid);
    Session.RepliedIff(server, log, request, answers);
  }

  /** The reply to a request-phase call, in every history of the connection: the error for a token without a rule, or
      else what tells of the world in which the chain ends on the answers that came, unless it is too large. */
  lemma {:induction false} ReplyIsOfChain(server: Session.Server, svc: Service, asks: nat, log: seq<Session.Event>,
                                          request: Frame, answers: seq<Option<bytes>>, e: Session.Event)
    returns (end: Ending<Fed>, k: nat)
    requires server.httpReqCall == HandlerOf(svc, asks) && request.ty == RPC_HTTP_REQ_CALL
    requires Session.PhaseAfter(server, log) == Some(Session.Serving(request, answers))
    requires e.Replied? && Session.PhaseAfter(server, log + [e]).Some?
    ensures var msg := svc.read(request.payload);
      match svc.rules(msg.confToken)
      case None => e.frame == Frame(RPC_ERROR, server.report(Session.ConfTokenNotFound))
      case Some(conf) =>
        && RanFirst(Plugins(svc), conf, StartOf(svc, request.payload, answers), FedStopped, end, k) && end.Finished?
        && var out := svc.write(svc.tell(end.world.world, msg.id));
           e.frame == if |out| < MAX_DATA_SIZE then Frame(RPC_HTTP_REQ_CALL, out)
                      else Frame(RPC_ERROR, server.report(Session.ServiceUnavailable))
  {
    Session.HistoryStep(server, log, e);
    var msg := svc.read(request.payload);
    if svc.rules(msg.confToken).Some? {
      end, k := ActsAsChain(svc, request.payload, answers);
    } else {
      end, k := Finished(StartOf(svc, request.payload, answers)), 0;
    }
  }
}
