/**
 Plugins as programs: each asks its objects for one operation after the other, depending on what it has seen, and
 returns or panics. What is proved of single operations, on recycled objects and on what counts as a change, then
 holds of whole chains.
 */
module Programs {
  import opened Wrappers
  import opened Tracking
  import opened ConfCache
  import opened Chain
  import Requests
  import Responses
  import ReqResponses

  datatype Move<Op> = Do(op: Op) | Return | Panic

  /** The next move, from the results so far; after `moves` operations the program returns. */
  datatype Program<Op, !Out> = Program(moves: nat, next: seq<Out> -> Move<Op>)

  /** The effect of an operation on the objects, and its result. */
  type Machine<!W, !Op, Out> = (W, Op) -> (W, Out)

  function Execute<W, Op, Out>(exec: Machine<W, Op, Out>, p: Program<Op, Out>, w: W, seen: seq<Out>): Ending<W>
    decreases p.moves - |seen|
  {
    if |seen| >= p.moves then Finished(w) else
      match p.next(seen)
      case Return => Finished(w)
      case Panic => Crashed(w)
      case Do(op) => var (w', out) := exec(w, op); Execute(exec, p, w', seen + [out])
  }

  /** The operations the program makes. */
  function Trace<W, Op, Out>(exec: Machine<W, Op, Out>, p: Program<Op, Out>, w: W, seen: seq<Out>): seq<Op>
    decreases p.moves - |seen|
  {
    if |seen| >= p.moves || !p.next(seen).Do? then [] else
      var op := p.next(seen).op;
      var (w', out) := exec(w, op);
      [op] + Trace(exec, p, w', seen + [out])
  }

  type Programs<!Op, !Out> = map<string, Conf -> Program<Op, Out>>

  function PluginsOf<W, Op, Out>(exec: Machine<W, Op, Out>, programs: Programs<Op, Out>): (plugins: Plugins<W>)
    ensures plugins.Keys == programs.Keys
  {
    map name | name in programs :: (conf: Conf, w: W) => Execute(exec, programs[name](conf), w, [])
  }

  // ----- The operations of a whole chain -----

  function RunAll<W, Op, Out>(exec: Machine<W, Op, Out>, w: W, ops: seq<Op>): W {
    if ops == [] then w else exec(RunAll(exec, w, ops[..|ops| - 1]), ops[|ops| - 1]).0
  }

  lemma {:induction false} RunAllAppend<W, Op, Out>(exec: Machine<W, Op, Out>, w: W, a: seq<Op>, b: seq<Op>)
    ensures RunAll(exec, w, a + b) == RunAll(exec, RunAll(exec, w, a), b)
  {
    if b == [] {
      assert a + b == a;
    } else {
      assert (a + b)[..|a + b| - 1] == a + b[..|b| - 1];
      RunAllAppend(exec, w, a, b[..|b| - 1]);
    }
  }

  lemma {:induction false} ExecuteRuns<W, Op, Out>(exec: Machine<W, Op, Out>, p: Program<Op, Out>, w: W, seen: seq<Out>)
    ensures Execute(exec, p, w, seen).world == RunAll(exec, w, Trace(exec, p, w, seen))
    decreases p.moves - |seen|
  {
    if |seen| < p.moves && p.next(seen).Do? {
      var op := p.next(seen).op;
      var (w', out) := exec(w, op);
      ExecuteRuns(exec, p, w', seen + [out]);
      RunAllAppend(exec, w, [op], Trace(exec, p, w', seen + [out]));
      assert RunAll(exec, w, [op]) == w' by { assert [op][..0] == []; }
    }
  }

  /** The operations of the first `k` active plugins, one plugin after the other. */
  function FoldTrace<W, Op, Out>(exec: Machine<W, Op, Out>, programs: Programs<Op, Out>, active: RuleConf, w: W, k: nat)
    : seq<Op>
    requires k <= |active| && Registered(PluginsOf(exec, programs), active)
  {
    if k == 0 then [] else
      FoldTrace(exec, programs, active, w, k - 1) +
      match Fold(PluginsOf(exec, programs), active, w, k - 1)
      case Crashed(_) => []
      case Finished(v) => Trace(exec, programs[active[k - 1].name](active[k - 1].value), v, [])
  }

  /** What a chain makes of the objects is what its plugins' operations make of them, one after the other. */
  lemma {:induction false} FoldRuns<W, Op, Out>(
    exec: Machine<W, Op, Out>, programs: Programs<Op, Out>, active: RuleConf, w: W, k: nat)
    requires k <= |active| && Registered(PluginsOf(exec, programs), active)
    ensures Fold(PluginsOf(exec, programs), active, w, k).world ==
            RunAll(exec, w, FoldTrace(exec, programs, active, w, k))
  {
    if k > 0 {
      FoldRuns(exec, programs, active, w, k - 1);
      var earlier := FoldTrace(exec, programs, active, w, k - 1);
      match Fold(PluginsOf(exec, programs), active, w, k - 1) {
        case Crashed(v) =>
          assert earlier + [] == earlier;
        case Finished(v) =>
          var p := programs[active[k - 1].name](active[k - 1].value);
          ExecuteRuns(exec, p, v, []);
          RunAllAppend(exec, w, earlier, Trace(exec, p, v, []));
      }
    }
  }

  // ----- Recycled objects -----

  /** Objects that cannot be told apart by an operation stay so. */
  ghost predicate KeepsAlike<W(!new), Op(!new), Out>(exec: Machine<W, Op, Out>, alike: (W, W) -> bool) {
    forall a, b, op :: alike(a, b) ==> exec(a, op).1 == exec(b, op).1 && alike(exec(a, op).0, exec(b, op).0)
  }

  predicate EndAlike<W>(alike: (W, W) -> bool, x: Ending<W>, y: Ending<W>) {
    (x.Finished? <==> y.Finished?) && alike(x.world, y.world)
  }

  lemma {:induction false} ExecuteAlike<W(!new), Op(!new), Out>(
    exec: Machine<W, Op, Out>, alike: (W, W) -> bool, p: Program<Op, Out>, a: W, b: W, seen: seq<Out>)
    requires KeepsAlike(exec, alike) && alike(a, b)
    ensures EndAlike(alike, Execute(exec, p, a, seen), Execute(exec, p, b, seen))
    decreases p.moves - |seen|
  {
    if |seen| < p.moves && p.next(seen).Do? {
      var op := p.next(seen).op;
      assert exec(a, op).1 == exec(b, op).1;
      ExecuteAlike(exec, alike, p, exec(a, op).0, exec(b, op).0, seen + [exec(a, op).1]);
    }
  }

  lemma {:induction false} FoldAlike<W(!new), Op(!new), Out>(
    exec: Machine<W, Op, Out>, alike: (W, W) -> bool, programs: Programs<Op, Out>, active: RuleConf, a: W, b: W, k: nat)
    requires KeepsAlike(exec, alike) && alike(a, b)
    requires k <= |active| && Registered(PluginsOf(exec, programs), active)
    ensures EndAlike(alike, Fold(PluginsOf(exec, programs), active, a, k),
      Fold(PluginsOf(exec, programs), active, b, k))
  {
    if k > 0 {
      var plugins := PluginsOf(exec, programs);
      FoldAlike(exec, alike, programs, active, a, b, k - 1);
      var x, y := Fold(plugins, active, a, k - 1), Fold(plugins, active, b, k - 1);
      if x.Finished? {
        ExecuteAlike(exec, alike, programs[active[k - 1].name](active[k - 1].value), x.world, y.world, []);
      }
    }
  }

  /** A chain runs alike on objects that cannot be told apart: the same plugins, to the same kind of end. */
  lemma {:induction false} ChainAlike<W(!new), Op(!new), Out>(
    exec: Machine<W, Op, Out>, alike: (W, W) -> bool, changed: W -> bool, programs: Programs<Op, Out>, conf: RuleConf,
    a: W, b: W, x: Ending<W>, k: nat, y: Ending<W>, n: nat)
    requires KeepsAlike(exec, alike) && alike(a, b) && forall v, w :: alike(v, w) ==> changed(v) == changed(w)
    requires RanFirst(PluginsOf(exec, programs), conf, a, changed, x, k)
    requires RanFirst(PluginsOf(exec, programs), conf, b, changed, y, n)
    ensures k == n && EndAlike(alike, x, y)
  {
    var plugins := PluginsOf(exec, programs);
    var active := Active(plugins, conf);
    forall j: nat | j <= |active|
      ensures EndAlike(alike, Fold(plugins, active, a, j), Fold(plugins, active, b, j))
    {
      FoldAlike(exec, alike, programs, active, a, b, j);
    }
    RanFirstUnique(plugins, conf, b, changed, y, n, Fold(plugins, active, b, k), k);
  }

  // ----- What ends a chain -----

  /** `touches` are the operations that make a change, in states that satisfy `inv`. */
  ghost predicate ChangesBy<W(!new), Op(!new), Out>(
    exec: Machine<W, Op, Out>, changed: W -> bool, touches: Op -> bool, inv: W -> bool)
  {
    forall w, op :: inv(w) ==> inv(exec(w, op).0) && (changed(exec(w, op).0) <==> changed(w) || touches(op))
  }

  predicate AnyTouches<Op>(ops: seq<Op>, touches: Op -> bool) {
    exists i :: 0 <= i < |ops| && touches(ops[i])
  }

  lemma {:induction false} ExecuteChangesIff<W(!new), Op(!new), Out>(
    exec: Machine<W, Op, Out>, changed: W -> bool, touches: Op -> bool, inv: W -> bool,
    p: Program<Op, Out>, w: W, seen: seq<Out>)
    requires ChangesBy(exec, changed, touches, inv) && inv(w)
    ensures inv(Execute(exec, p, w, seen).world)
    ensures changed(Execute(exec, p, w, seen).world) <==> changed(w) || AnyTouches(Trace(exec, p, w, seen), touches)
    decreases p.moves - |seen|
  {
    if |seen| < p.moves && p.next(seen).Do? {
      var op := p.next(seen).op;
      var (w', out) := exec(w, op);
      var rest := Trace(exec, p, w', seen + [out]);
      assert inv(exec(w, op).0);
      ExecuteChangesIff(exec, changed, touches, inv, p, w', seen + [out]);
      assert forall i :: 0 <= i < |rest| ==> ([op] + rest)[i + 1] == rest[i];
      assert ([op] + rest)[0] == op;
    }
  }

  lemma {:induction false} FoldKeeps<W(!new), Op(!new), Out>(
    exec: Machine<W, Op, Out>, changed: W -> bool, touches: Op -> bool, inv: W -> bool,
    programs: Programs<Op, Out>, active: RuleConf, w: W, k: nat)
    requires ChangesBy(exec, changed, touches, inv) && inv(w)
    requires k <= |active| && Registered(PluginsOf(exec, programs), active)
    ensures inv(Fold(PluginsOf(exec, programs), active, w, k).world)
  {
    if k > 0 {
      var before := Fold(PluginsOf(exec, programs), active, w, k - 1);
      FoldKeeps(exec, changed, touches, inv, programs, active, w, k - 1);
      if before.Finished? {
        ExecuteChangesIff(exec, changed, touches, inv, programs[active[k - 1].name](active[k - 1].value),
          before.world, []);
      }
    }
  }

  /** A chain whose i-th plugin ran and returned goes past it exactly when none of its operations makes a change. */
  lemma {:induction false} GoesPastIff<W(!new), Op(!new), Out>(
    exec: Machine<W, Op, Out>, changed: W -> bool, touches: Op -> bool, inv: W -> bool,
    programs: Programs<Op, Out>, conf: RuleConf, w: W, out: Ending<W>, k: nat, i: nat)
    requires ChangesBy(exec, changed, touches, inv) && inv(w) && !changed(w)
    requires RanFirst(PluginsOf(exec, programs), conf, w, changed, out, k) && i < k
    ensures var plugins := PluginsOf(exec, programs);
      var active := Active(plugins, conf);
      var v := Fold(plugins, active, w, i);
      v.Finished? && (Fold(plugins, active, w, i + 1).Finished? ==>
        (k > i + 1 || !changed(out.world) <==>
         !AnyTouches(Trace(exec, programs[active[i].name](active[i].value), v.world, []), touches)))
  {
    var plugins := PluginsOf(exec, programs);
    var active := Active(plugins, conf);
    var v := Fold(plugins, active, w, i);
    FoldKeeps(exec, changed, touches, inv, programs, active, w, i);
    assert v.Finished? && !changed(v.world);
    ExecuteChangesIff(exec, changed, touches, inv, programs[active[i].name](active[i].value), v.world, []);
  }

  // ----- The response phase -----

  function RespExec(st: Responses.State, op: Responses.Op): (Responses.State, Responses.Out) {
    if BufferFits(st.buffer) && Responses.OpFits(op) then Responses.Exec(st, op) else (st, Responses.Nothing)
  }

  lemma RespKeepsAlike()
    ensures KeepsAlike(RespExec, Responses.StatesAlike)
    ensures forall v, w :: Responses.StatesAlike(v, w) ==> Responses.IsChanged(v) == Responses.IsChanged(w)
  {
    forall a, b, op | Responses.StatesAlike(a, b)
      ensures RespExec(a, op).1 == RespExec(b, op).1 && Responses.StatesAlike(RespExec(a, op).0, RespExec(b, op).0)
    {
      if Responses.OpFits(op) { Responses.StepAlike(a, b, op); }
    }
  }

  /** A response-phase call on a recycled object runs the same plugins and reports the same changes as on a new one. */
  lemma RespCallOnRecycled(used: Responses.State, msg: Responses.Message,
                           programs: Programs<Responses.Op, Responses.Out>, conf: RuleConf,
                           x: Ending<Responses.State>, k: nat, y: Ending<Responses.State>, n: nat)
    requires BufferFits(used.buffer)
    requires RanFirst(PluginsOf(RespExec, programs), conf,
                      Responses.Create(Responses.Reset(used), msg), Responses.IsChanged, x, k)
    requires RanFirst(PluginsOf(RespExec, programs), conf,
                      Responses.Create(Responses.FRESH, msg), Responses.IsChanged, y, n)
    ensures k == n && (x.Finished? <==> y.Finished?) && Responses.ChangesOf(x.world) == Responses.ChangesOf(y.world)
  {
    RespKeepsAlike();
    ChainAlike(RespExec, Responses.StatesAlike, Responses.IsChanged, programs, conf,
               Responses.Create(Responses.Reset(used), msg), Responses.Create(Responses.FRESH, msg), x, k, y, n);
  }

  lemma {:induction false} RespRunAll(st: Responses.State, ops: seq<Responses.Op>)
    requires BufferFits(st.buffer) && Responses.AllOpsFit(ops)
    ensures RunAll(RespExec, st, ops) == Responses.Run(st, ops)
  {
    if ops != [] {
      var init, last := ops[..|ops| - 1], ops[|ops| - 1];
      assert init + [last] == ops;
      RespRunAll(st, init);
      Responses.RunAppend(st, init, last);
    }
  }

  /** The operations of the first `k` plugins of a response-phase call. */
  function RespOps(used: Responses.State, msg: Responses.Message, programs: Programs<Responses.Op, Responses.Out>,
                   conf: RuleConf, k: nat): seq<Responses.Op>
    requires k <= |Active(PluginsOf(RespExec, programs), conf)|
    requires Registered(PluginsOf(RespExec, programs), Active(PluginsOf(RespExec, programs), conf))
  {
    FoldTrace(RespExec, programs, Active(PluginsOf(RespExec, programs), conf),
              Responses.Create(Responses.Reset(used), msg), k)
  }

  /** What a response-phase call reports tells of all operations of the plugins that ran, in their order. */
  lemma {:induction false} RespCallTells(used: Responses.State, msg: Responses.Message,
                                         programs: Programs<Responses.Op, Responses.Out>, conf: RuleConf,
                                         out: Ending<Responses.State>, k: nat, r: Option<Responses.Rewrite>)
    requires BufferFits(used.buffer)
    requires RanFirst(PluginsOf(RespExec, programs), conf,
                      Responses.Create(Responses.Reset(used), msg), Responses.IsChanged, out, k)
    requires Responses.Reports(Responses.ChangesOf(out.world), r)
    requires Responses.AllOpsFit(RespOps(used, msg, programs, conf, k))
    ensures Responses.TellsOfRun(msg, RespOps(used, msg, programs, conf, k), r)
  {
    var start := Responses.Create(Responses.Reset(used), msg);
    var active := Active(PluginsOf(RespExec, programs), conf);
    FoldRuns(RespExec, programs, active, start, k);
    RespRunAll(start, RespOps(used, msg, programs, conf, k));
    Responses.RewriteReproduces(used, msg, RespOps(used, msg, programs, conf, k), r);
  }

  predicate RespFits(st: Responses.State) {
    BufferFits(st.buffer)
  }

  lemma RespChangesBy()
    ensures ChangesBy(RespExec, Responses.IsChanged, Responses.Touches, RespFits)
  {
    forall st, op | RespFits(st)
      ensures RespFits(RespExec(st, op).0)
      ensures Responses.IsChanged(RespExec(st, op).0) <==> Responses.IsChanged(st) || Responses.Touches(op)
    {
      if Responses.OpFits(op) { Responses.ExecChangesIff(st, op); }
    }
  }

  /** In the response phase the chain goes past a plugin exactly when it neither looked at a header nor wrote a body
      or a nonzero status. */
  lemma RespGoesPastIff(programs: Programs<Responses.Op, Responses.Out>, conf: RuleConf, w: Responses.State,
                        out: Ending<Responses.State>, k: nat, i: nat)
    requires BufferFits(w.buffer) && !Responses.IsChanged(w)
    requires RanFirst(PluginsOf(RespExec, programs), conf, w, Responses.IsChanged, out, k) && i < k
    ensures var plugins := PluginsOf(RespExec, programs);
      var active := Active(plugins, conf);
      var v := Fold(plugins, active, w, i);
      v.Finished? && (Fold(plugins, active, w, i + 1).Finished? ==>
        (k > i + 1 || !Responses.IsChanged(out.world) <==>
         !AnyTouches(Trace(RespExec, programs[active[i].name](active[i].value), v.world, []), Responses.Touches)))
  {
    RespChangesBy();
    GoesPastIff(RespExec, Responses.IsChanged, Responses.Touches, RespFits, programs, conf, w, out, k, i);
  }

  // ----- The request phase -----

  datatype WorldOp = OnRequest(op: Requests.Op) | OnResponse(write: ReqResponses.Op)

  function WorldExec(w: World, op: WorldOp): (World, Requests.Out) {
    match op
    case OnRequest(o) =>
      if BufferFits(w.req.buffer) && Requests.OpFits(o) then
        var (req, out) := Requests.Exec(w.req, o); (World(w.resp, req), out)
      else (w, Requests.Nothing)
    case OnResponse(o) => (World(ReqResponses.Exec(w.resp, o), w.req), Requests.Nothing)
  }

  predicate WorldsAlike(a: World, b: World) {
    a.resp == b.resp && Requests.StatesAlike(a.req, b.req)
  }

  lemma WorldKeepsAlike()
    ensures KeepsAlike(WorldExec, WorldsAlike) && forall v, w :: WorldsAlike(v, w) ==> Stopped(v) == Stopped(w)
  {
    forall a, b, op | WorldsAlike(a, b)
      ensures WorldExec(a, op).1 == WorldExec(b, op).1 && WorldsAlike(WorldExec(a, op).0, WorldExec(b, op).0)
    {
      if op.OnRequest? && Requests.OpFits(op.op) { Requests.StepAlike(a.req, b.req, op.op); }
    }
  }

  /** A request-phase call on recycled objects runs the same plugins as on new ones, and what the gateway can be told
      of the two is the same. */
  lemma ReqCallOnRecycled(used: Requests.State, msg: Requests.Message, programs: Programs<WorldOp, Requests.Out>,
                          conf: RuleConf, x: Ending<World>, k: nat, y: Ending<World>, n: nat, reply: Reply)
    requires BufferFits(used.buffer)
    requires RanFirst(PluginsOf(WorldExec, programs), conf,
                      World(ReqResponses.EMPTY, Requests.Create(Requests.Reset(used), msg)), Stopped, x, k)
    requires RanFirst(PluginsOf(WorldExec, programs), conf,
                      World(ReqResponses.EMPTY, Requests.Create(Requests.FRESH, msg)), Stopped, y, n)
    ensures k == n && (x.Finished? <==> y.Finished?) &&
      (Tells(x.world, msg.id, reply) <==> Tells(y.world, msg.id, reply))
  {
    WorldKeepsAlike();
    ChainAlike(WorldExec, WorldsAlike, Stopped, programs, conf,
               World(ReqResponses.EMPTY, Requests.Create(Requests.Reset(used), msg)),
               World(ReqResponses.EMPTY, Requests.Create(Requests.FRESH, msg)), x, k, y, n);
    assert Requests.ChangesOf(x.world.req) == Requests.ChangesOf(y.world.req);
  }

  function RequestOps(ops: seq<WorldOp>): seq<Requests.Op> {
    if ops == [] then [] else
      RequestOps(ops[..|ops| - 1]) + (if ops[|ops| - 1].OnRequest? then [ops[|ops| - 1].op] else [])
  }

  function ResponseOps(ops: seq<WorldOp>): seq<ReqResponses.Op> {
    if ops == [] then [] else
      ResponseOps(ops[..|ops| - 1]) + (if ops[|ops| - 1].OnResponse? then [ops[|ops| - 1].write] else [])
  }

  lemma {:induction false} WorldRunAll(w: World, ops: seq<WorldOp>)
    requires BufferFits(w.req.buffer) && Requests.AllOpsFit(RequestOps(ops))
    ensures RunAll(WorldExec, w, ops) ==
            World(ReqResponses.Run(w.resp, ResponseOps(ops)), Requests.Run(w.req, RequestOps(ops)))
  {
    if ops != [] {
      var init, last := ops[..|ops| - 1], ops[|ops| - 1];
      var rest := RequestOps(init);
      assert rest <= RequestOps(ops);
      assert forall i :: 0 <= i < |rest| ==> rest[i] == RequestOps(ops)[i];
      WorldRunAll(w, init);
      if last.OnRequest? {
        assert RequestOps(ops)[|rest|] == last.op;
        Requests.RunAppend(w.req, rest, last.op);
        assert ResponseOps(init) + [] == ResponseOps(init);
      } else {
        assert rest + [] == rest;
        var writes := ResponseOps(init);
        assert (writes + [last.write])[..|writes|] == writes;
      }
    }
  }

  /** The operations of the first `k` plugins of a request-phase call. */
  function ReqOps(used: Requests.State, msg: Requests.Message, programs: Programs<WorldOp, Requests.Out>,
                  conf: RuleConf, k: nat): seq<WorldOp>
    requires k <= |Active(PluginsOf(WorldExec, programs), conf)|
    requires Registered(PluginsOf(WorldExec, programs), Active(PluginsOf(WorldExec, programs), conf))
  {
    FoldTrace(WorldExec, programs, Active(PluginsOf(WorldExec, programs), conf),
              World(ReqResponses.EMPTY, Requests.Create(Requests.Reset(used), msg)), k)
  }

  /** What the gateway is told of a request-phase call tells of all operations of the plugins that ran, in their order:
      a stop for what they wrote as a response, or else a rewrite for what they did to the request, or else nothing. */
  lemma {:induction false} ReqCallTells(used: Requests.State, msg: Requests.Message,
                                        programs: Programs<WorldOp, Requests.Out>, conf: RuleConf,
                                        out: Ending<World>, k: nat, reply: Reply)
    requires BufferFits(used.buffer)
    requires RanFirst(PluginsOf(WorldExec, programs), conf,
                      World(ReqResponses.EMPTY, Requests.Create(Requests.Reset(used), msg)), Stopped, out, k)
    requires Tells(out.world, msg.id, reply)
    requires Requests.AllOpsFit(RequestOps(ReqOps(used, msg, programs, conf, k)))
    ensures var ops := ReqOps(used, msg, programs, conf, k);
      match reply
      case Stop(id, stop) => id == msg.id && ReqResponses.TellsOfRun(ResponseOps(ops), Some(stop))
      case Rewrite(id, w) =>
        id == msg.id && ReqResponses.TellsOfRun(ResponseOps(ops), None) &&
        Requests.TellsOfRun(msg, RequestOps(ops), Some(w))
      case NoAction(id) =>
        id == msg.id && ReqResponses.TellsOfRun(ResponseOps(ops), None) &&
        Requests.TellsOfRun(msg, RequestOps(ops), None)
  {
    var start := World(ReqResponses.EMPTY, Requests.Create(Requests.Reset(used), msg));
    var active := Active(PluginsOf(WorldExec, programs), conf);
    var ops := ReqOps(used, msg, programs, conf, k);
    FoldRuns(WorldExec, programs, active, start, k);
    WorldRunAll(start, ops);
    ReqResponses.RunIsTold(ResponseOps(ops), if reply.Stop? then Some(reply.stop) else None);
    if !reply.Stop? {
      Requests.RewriteReproduces(used, msg, RequestOps(ops), if reply.Rewrite? then Some(reply.rewrite) else None);
    }
  }

  predicate Stops(op: WorldOp) {
    op.OnResponse? && (op.write.Write? || (op.write.WriteHeader? && op.write.code != 0))
  }

  predicate WorldFits(w: World) {
    BufferFits(w.req.buffer)
  }

  /** In the request phase the chain goes past a plugin exactly when it wrote neither a body, even an empty one, nor a
      nonzero status. */
  lemma ReqGoesPastIff(programs: Programs<WorldOp, Requests.Out>, conf: RuleConf, w: World,
                       out: Ending<World>, k: nat, i: nat)
    requires WorldFits(w) && !Stopped(w) && RanFirst(PluginsOf(WorldExec, programs), conf, w, Stopped, out, k) && i < k
    ensures var plugins := PluginsOf(WorldExec, programs);
      var active := Active(plugins, conf);
      var v := Fold(plugins, active, w, i);
      v.Finished? && (Fold(plugins, active, w, i + 1).Finished? ==>
        (k > i + 1 || !Stopped(out.world) <==>
         !AnyTouches(Trace(WorldExec, programs[active[i].name](active[i].value), v.world, []), Stops)))
  {
    assert ChangesBy(WorldExec, Stopped, Stops, WorldFits);
    GoesPastIff(WorldExec, Stopped, Stops, WorldFits, programs, conf, w, out, k, i);
  }
}
