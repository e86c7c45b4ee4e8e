/** The Request object of the HTTPReqCall phase: lazily decoded, changed by plugins, emitted as a rewrite,
    and recycled through a pool. */
module Requests {
  import opened Wrappers
  import opened Wire
  import opened Patch
  import opened Tracking

  datatype Message = Message(id: nat, confToken: nat, path: bytes, headers: seq<Entry>, args: seq<Entry>)

  datatype State = State(
    msg: Message, path: Option<bytes>, hdr: Tracked, args: Tracked, respHdr: Option<Values>,
    vars: map<string, bytes>, body: bytes, buffer: bytes)

  const FRESH := State(Message(0, 0, [], [], []), None, UNREAD, UNREAD, None, map[], [], [])

  datatype Op =
    | Path
    | SetPath(path: Option<bytes>)
    | Header(name: string, edit: Edit)          // all through Header(); Append only through its View()
    | Arg(name: string, edit: Edit)
    | RespHeader(name: string, edit: Edit)
    | Var(name: string, ask: Ask)
    | Body(ask: Ask)
    | Fetch

  /** What FetchChanges has to report: old and new maps for what is sent as a difference. */
  datatype Changes = Changes(
    path: Option<bytes>, hdr: Option<(Values, Values)>, respHdr: Option<Values>, args: Option<(Values, Values)>)

  datatype Out =
    | Nothing
    | Data(data: bytes)
    | Text(text: string)
    | Asked(sent: bytes, answer: Option<bytes>)
    | Changed(changes: Option<Changes>)

  predicate OpFits(op: Op) {
    op.Var? || op.Body? ==> AskFits(op.ask)
  }

  function AskInto(st: State, ask: Ask): (State, Out)
    requires BufferFits(st.buffer)
  {
    (st.(buffer := ask.scratch), Asked(QuestionSent(st.buffer, ask.question), ask.answer))
  }

  function Pair(t: Tracked): Option<(Values, Values)> {
    if t.live.Some? then Some((t.raw, t.live.value)) else None
  }

  function ChangesOf(st: State): Option<Changes> {
    if st.path.None? && st.hdr.live.None? && st.args.live.None? && st.respHdr.None? then None
    else Some(Changes(st.path, Pair(st.hdr), st.respHdr, Pair(st.args)))
  }

  /** One operation of the Request interface, or FetchChanges. */
  function Exec(st: State, op: Op): (r: (State, Out))
    requires BufferFits(st.buffer) && OpFits(op)
    ensures BufferFits(r.0.buffer) && r.0.msg == st.msg
  {
    match op
    case Path => (st, Data(if st.path.Some? then st.path.value else st.msg.path))
    case SetPath(path) => (st.(path := path), Nothing)
    case Header(name, edit) =>
      var t := OpenAndEdit(st.hdr, st.msg.headers, name, edit);
      (st.(hdr := t), Text(First(t.live.value, name)))
    case Arg(name, edit) =>
      var t := OpenAndEdit(st.args, st.msg.args, name, edit);
      (st.(args := t), Text(First(t.live.value, name)))
    case RespHeader(name, edit) =>
      var m := Edited(if st.respHdr.Some? then st.respHdr.value else map[], name, edit);
      (st.(respHdr := Some(m)), Text(First(m, name)))
    case Var(name, ask) =>
      if name in st.vars then (st, Asked([], Some(st.vars[name]))) else
        var (asked, out) := AskInto(st, ask);
        (if ask.answer.Some? then asked.(vars := st.vars[name := ask.answer.value]) else asked, out)
    case Body(ask) =>
      if st.body != [] then (st, Asked([], Some(st.body))) else
        var (asked, out) := AskInto(st, ask);
        (if ask.answer.Some? then asked.(body := ask.answer.value) else asked, out)
    case Fetch => (st, Changed(ChangesOf(st)))
  }

  /** Reset clears what a use has set, but keeps the snapshots and the header buffer. */
  function Reset(st: State): State {
    State(st.msg, None, Tracked(None, st.hdr.raw), Tracked(None, st.args.raw), None, map[], [], st.buffer)
  }

  function Create(pooled: State, msg: Message): State {
    pooled.(msg := msg)
  }

  // ----- The object -----

  /** The rewrite message. A part is present when it was touched, even if nothing in it changed. */
  datatype Rewrite = Rewrite(
    path: Option<bytes>, headers: Option<seq<Entry>>, respHeaders: Option<seq<Entry>>, args: Option<seq<Entry>>)

  /** `r` reports `changes`, in some order of the names. */
  ghost predicate Reports(changes: Option<Changes>, r: Option<Rewrite>) {
    match (changes, r)
    case (None, None) => true
    case (Some(c), Some(w)) =>
      && w.path == c.path
      && (w.headers.Some? <==> c.hdr.Some?)
      && (c.hdr.Some? ==>
            AllNonEmpty(c.hdr.value.0) && AllNonEmpty(c.hdr.value.1) &&
            IsHeaderPatch(c.hdr.value.0, c.hdr.value.1, w.headers.value))
      && (w.respHeaders.Some? <==> c.respHdr.Some?)
      && (c.respHdr.Some? ==> forall name :: Project(w.respHeaders.value, name) == FlatWant(c.respHdr.value, name))
      && (w.args.Some? <==> c.args.Some?)
      && (c.args.Some? ==> IsArgsPatch(c.args.value.0, c.args.value.1, w.args.value))
    case _ => false
  }

  predicate Valid(st: State) {
    BufferFits(st.buffer) && Sound(st.hdr, st.msg.headers) && Sound(st.args, st.msg.args)
  }

  class Request {
    var r: Message
    var extraInfoHeader: bytes
    var path: Option<bytes>
    var hdr: Option<Values>
    var rawHdr: Values
    var args: Option<Values>
    var rawArgs: Values
    var vars: map<string, bytes>
    var body: bytes
    var respHdr: Option<Values>

    function View(): State
      reads this
    {
      State(r, path, Tracked(hdr, rawHdr), Tracked(args, rawArgs), respHdr, vars, body, extraInfoHeader)
    }

    /** What the pool makes when it is empty. */
    constructor ()
      ensures View() == FRESH
    {
      r, extraInfoHeader, path := Message(0, 0, [], [], []), [], None;
      hdr, rawHdr, args, rawArgs := None, map[], None, map[];
      vars, body, respHdr := map[], [], None;
    }

    /** `CreateRequest`, on an object from the pool. */
    method Take(msg: Message)
      modifies this
      ensures View() == Create(old(View()), msg)
    {
      r := msg;
    }

    /** `Reset`, before the object goes back to the pool. */
    method Clear()
      modifies this
      ensures View() == Reset(old(View()))
    {
      path := None;
      hdr := None;
      args := None;
      vars := map[];
      body := [];
      respHdr := None;
    }

    method OpenHeader()
      modifies this
      ensures View() == old(View()).(hdr := Open(old(View()).hdr, old(r).headers))
    {
      if hdr.None? {
        var hh := Decode(r.headers);
        hdr := Some(hh);
        rawHdr := hh;
      }
    }

    method OpenArgs()
      modifies this
      ensures View() == old(View()).(args := Open(old(View()).args, old(r).args))
    {
      if args.None? {
        var aa := Decode(r.args);
        args := Some(aa);
        rawArgs := aa;
      }
    }

    method EditHeader(name: string, edit: Edit) returns (text: string)
      requires BufferFits(extraInfoHeader)
      modifies this
      ensures (View(), Text(text)) == Exec(old(View()), Header(name, edit))
    {
      OpenHeader();
      hdr := Some(Edited(hdr.value, name, edit));
      text := First(hdr.value, name);
    }

    method EditArg(name: string, edit: Edit) returns (text: string)
      requires BufferFits(extraInfoHeader)
      modifies this
      ensures (View(), Text(text)) == Exec(old(View()), Arg(name, edit))
    {
      OpenArgs();
      args := Some(Edited(args.value, name, edit));
      text := First(args.value, name);
    }

    method EditRespHeader(name: string, edit: Edit) returns (text: string)
      requires BufferFits(extraInfoHeader)
      modifies this
      ensures (View(), Text(text)) == Exec(old(View()), RespHeader(name, edit))
    {
      if respHdr.None? {
        respHdr := Some(map[]);
      }
      respHdr := Some(Edited(respHdr.value, name, edit));
      text := First(respHdr.value, name);
    }

    /** The header buffer is allocated only when there is none yet. */
    method AskExtraInfo(ask: Ask) returns (sent: bytes)
      requires BufferFits(extraInfoHeader) && AskFits(ask)
      modifies this
      ensures View() == old(View()).(buffer := ask.scratch)
      ensures sent == Encode(Frame(RPC_EXTRA_INFO, ask.question))
    {
      if |extraInfoHeader| == 0 {
        extraInfoHeader := [0, 0, 0, 0];
      }
      var header := PutUint32(|ask.question|) + extraInfoHeader[HEADER_LEN..];
      header := header[0 := RPC_EXTRA_INFO];
      sent := header + ask.question;
      assert header == Wire.Header(RPC_EXTRA_INFO, |ask.question|);
      extraInfoHeader := ask.scratch;
    }

    method GetVar(name: string, ask: Ask) returns (sent: bytes, v: Option<bytes>)
      requires BufferFits(extraInfoHeader) && AskFits(ask)
      modifies this
      ensures (View(), Asked(sent, v)) == Exec(old(View()), Var(name, ask))
    {
      if name in vars {
        return [], Some(vars[name]);
      }
      QuestionIsAFrame(extraInfoHeader, ask.question);
      sent := AskExtraInfo(ask);
      v := ask.answer;
      if v.Some? {
        vars := vars[name := v.value];
      }
    }

    /** An empty body is not remembered: it is asked for again. */
    method GetBody(ask: Ask) returns (sent: bytes, v: Option<bytes>)
      requires BufferFits(extraInfoHeader) && AskFits(ask)
      modifies this
      ensures (View(), Asked(sent, v)) == Exec(old(View()), Body(ask))
    {
      if |body| > 0 {
        return [], Some(body);
      }
      QuestionIsAFrame(extraInfoHeader, ask.question);
      sent := AskExtraInfo(ask);
      v := ask.answer;
      if v.Some? {
        body := v.value;
      }
    }

    method FetchChanges() returns (w: Option<Rewrite>)
      requires Valid(View())
      ensures Reports(ChangesOf(View()), w)
      ensures w.None? <==> path.None? && hdr.None? && args.None? && respHdr.None?
      ensures w.Some? ==>
        w.value.path == path && (w.value.headers.Some? <==> hdr.Some?) && (w.value.args.Some? <==> args.Some?) &&
        (w.value.respHeaders.Some? <==> respHdr.Some?)
    {
      if path.None? && hdr.None? && args.None? && respHdr.None? {
        return None;
      }
      var headers: Option<seq<Entry>> := None;
      if hdr.Some? {
        var entries := HeaderChanges(rawHdr, hdr.value);
        entries := BuildVector(entries);
        headers := Some(entries);
      }
      var respHeaders: Option<seq<Entry>> := None;
      if respHdr.Some? {
        var entries := Flatten(respHdr.value);
        entries := BuildVector(entries);
        respHeaders := Some(entries);
      }
      var argEntries: Option<seq<Entry>> := None;
      if args.Some? {
        var entries := ArgsChanges(rawArgs, args.value);
        entries := BuildVector(entries);
        argEntries := Some(entries);
      }
      w := Some(Rewrite(path, headers, respHeaders, argEntries));
    }
  }

  // ----- Every run of operations -----

  function Run(st: State, ops: seq<Op>): State
    requires BufferFits(st.buffer) && forall i :: 0 <= i < |ops| ==> OpFits(ops[i])
    decreases |ops|
  {
    if ops == [] then st else Run(Exec(st, ops[0]).0, ops[1..])
  }

  /** What the user of the object sees of a run. */
  function Outs(st: State, ops: seq<Op>): seq<Out>
    requires BufferFits(st.buffer) && forall i :: 0 <= i < |ops| ==> OpFits(ops[i])
    decreases |ops|
  {
    if ops == [] then [] else [Exec(st, ops[0]).1] + Outs(Exec(st, ops[0]).0, ops[1..])
  }

  predicate StatesAlike(a: State, b: State) {
    && a.msg == b.msg && a.path == b.path && a.respHdr == b.respHdr && a.vars == b.vars && a.body == b.body
    && Alike(a.hdr, b.hdr) && Alike(a.args, b.args)
    && BufferFits(a.buffer) && BufferFits(b.buffer)
  }

  lemma StepAlike(a: State, b: State, op: Op)
    requires StatesAlike(a, b) && OpFits(op)
    ensures Exec(a, op).1 == Exec(b, op).1 && StatesAlike(Exec(a, op).0, Exec(b, op).0)
  {
    if op.Var? || op.Body? {
      QuestionIsAFrame(a.buffer, op.ask.question);
      QuestionIsAFrame(b.buffer, op.ask.question);
    }
  }

  lemma {:induction false} RunsAlike(a: State, b: State, ops: seq<Op>)
    requires StatesAlike(a, b) && forall i :: 0 <= i < |ops| ==> OpFits(ops[i])
    ensures Outs(a, ops) == Outs(b, ops) && StatesAlike(Run(a, ops), Run(b, ops))
    decreases |ops|
  {
    if ops != [] {
      StepAlike(a, b, ops[0]);
      RunsAlike(Exec(a, ops[0]).0, Exec(b, ops[0]).0, ops[1..]);
    }
  }

  /** Reuse is unobservable: whatever an earlier use left behind, every run of operations on the recycled
      object returns, sends and reports what it would on a new one. */
  lemma {:induction false} ReuseUnobservable(used: State, msg: Message, ops: seq<Op>)
    requires BufferFits(used.buffer) && forall i :: 0 <= i < |ops| ==> OpFits(ops[i])
    ensures Outs(Create(Reset(used), msg), ops) == Outs(Create(FRESH, msg), ops)
  {
    RunsAlike(Create(Reset(used), msg), Create(FRESH, msg), ops);
  }

  lemma {:induction false} RunStaysValid(st: State, ops: seq<Op>)
    requires Valid(st) && forall i :: 0 <= i < |ops| ==> OpFits(ops[i])
    ensures Valid(Run(st, ops)) && Run(st, ops).msg == st.msg
    decreases |ops|
  {
    if ops != [] {
      var op := ops[0];
      if op.Header? { OpenAndEditSound(st.hdr, st.msg.headers, op.name, op.edit); }
      if op.Arg? { OpenAndEditSound(st.args, st.msg.args, op.name, op.edit); }
      RunStaysValid(Exec(st, op).0, ops[1..]);
    }
  }

  // ----- What a run means, said of its operations alone -----

  predicate AllOpsFit(ops: seq<Op>) {
    forall i :: 0 <= i < |ops| ==> OpFits(ops[i])
  }

  lemma {:induction false} RunAppend(st: State, ops: seq<Op>, op: Op)
    requires BufferFits(st.buffer) && AllOpsFit(ops) && OpFits(op)
    ensures AllOpsFit(ops + [op]) && BufferFits(Run(st, ops).buffer)
    ensures Run(st, ops + [op]) == Exec(Run(st, ops), op).0
    decreases |ops|
  {
    if ops == [] {
      assert [] + [op] == [op] && [op][1..] == [];
    } else {
      assert (ops + [op])[0] == ops[0] && (ops + [op])[1..] == ops[1..] + [op];
      RunAppend(Exec(st, ops[0]).0, ops[1..], op);
    }
  }

  /** The path set last; None also when the run took an earlier one back. */
  function LastPath(ops: seq<Op>): Option<bytes> {
    if ops == [] then None else
      var last := ops[|ops| - 1];
      if last.SetPath? then last.path else LastPath(ops[..|ops| - 1])
  }

  /** The three maps a plugin can look at and edit. */
  datatype Part = Headers | Args | RespHeaders

  predicate Edits(op: Op, part: Part) {
    match part
    case Headers => op.Header?
    case Args => op.Arg?
    case RespHeaders => op.RespHeader?
  }

  predicate AnyEdits(ops: seq<Op>, part: Part) {
    exists i :: 0 <= i < |ops| && Edits(ops[i], part)
  }

  /** A map after all of a run's edits to it. */
  function AfterEdits(m: Values, ops: seq<Op>, part: Part): Values {
    if ops == [] then m else
      var before := AfterEdits(m, ops[..|ops| - 1], part);
      var last := ops[|ops| - 1];
      if Edits(last, part) then Edited(before, last.name, last.edit) else before
  }

  function LivePart(st: State, part: Part): Option<Values> {
    match part
    case Headers => st.hdr.live
    case Args => st.args.live
    case RespHeaders => st.respHdr
  }

  function Original(msg: Message, part: Part): Values {
    match part
    case Headers => Group(msg.headers)
    case Args => Group(msg.args)
    case RespHeaders => map[]
  }

  lemma {:induction false} PartAfter(st: State, ops: seq<Op>, part: Part)
    requires BufferFits(st.buffer) && AllOpsFit(ops) && LivePart(st, part).None?
    ensures BufferFits(Run(st, ops).buffer) && Run(st, ops).msg == st.msg
    ensures LivePart(Run(st, ops), part) ==
            if AnyEdits(ops, part) then Some(AfterEdits(Original(st.msg, part), ops, part)) else None
    ensures !AnyEdits(ops, part) ==> AfterEdits(Original(st.msg, part), ops, part) == Original(st.msg, part)
    decreases |ops|
  {
    if ops != [] {
      var init, last := ops[..|ops| - 1], ops[|ops| - 1];
      assert init + [last] == ops;
      PartAfter(st, init, part);
      RunAppend(st, init, last);
      EditStep(Run(st, init), last, part);
      AnyEditsExtends(ops, part);
    }
  }

  lemma EditStep(st: State, op: Op, part: Part)
    requires BufferFits(st.buffer) && OpFits(op)
    ensures var live := LivePart(st, part);
      LivePart(Exec(st, op).0, part) ==
      if Edits(op, part)
      then Some(Edited(if live.Some? then live.value else Original(st.msg, part), op.name, op.edit)) else live
  {}

  lemma AnyEditsExtends(ops: seq<Op>, part: Part)
    requires ops != []
    ensures AnyEdits(ops, part) <==> AnyEdits(ops[..|ops| - 1], part) || Edits(ops[|ops| - 1], part)
  {
    assert forall i :: 0 <= i < |ops| - 1 ==> ops[i] == ops[..|ops| - 1][i];
  }

  lemma {:induction false} PathAfter(st: State, ops: seq<Op>)
    requires BufferFits(st.buffer) && AllOpsFit(ops) && st.path.None?
    ensures Run(st, ops).path == LastPath(ops)
    decreases |ops|
  {
    if ops != [] {
      var init, last := ops[..|ops| - 1], ops[|ops| - 1];
      assert init + [last] == ops;
      PathAfter(st, init);
      RunAppend(st, init, last);
    }
  }

  /** What is reported of a run: a rewrite exactly when the run left a path or looked at headers, arguments or response
      headers. It carries that path; its headers applied to the message's own give every header the first value that
      the run's edits give it; its arguments applied to the message's own give exactly what the run's edits give; and
      its response headers are those the run set. */
  ghost predicate TellsOfRun(msg: Message, ops: seq<Op>, r: Option<Rewrite>) {
    && (r.Some? <==>
        LastPath(ops).Some? || exists i :: 0 <= i < |ops| && (ops[i].Header? || ops[i].Arg? || ops[i].RespHeader?))
    && (r.Some? ==>
          var w := r.value;
          && w.path == LastPath(ops)
          && (w.headers.Some? <==> exists i :: 0 <= i < |ops| && ops[i].Header?)
          && (w.headers.Some? ==>
                var live := AfterEdits(Group(msg.headers), ops, Headers);
                var m := ApplyHeaders(Group(msg.headers), w.headers.value);
                m.Keys == live.Keys && forall name :: First(m, name) == First(live, name))
          && (w.args.Some? <==> exists i :: 0 <= i < |ops| && ops[i].Arg?)
          && (w.args.Some? ==>
                ApplyArgs(Group(msg.args), w.args.value) == AfterEdits(Group(msg.args), ops, Args))
          && (w.respHeaders.Some? <==> exists i :: 0 <= i < |ops| && ops[i].RespHeader?)
          && (w.respHeaders.Some? ==>
                Group(w.respHeaders.value) == DropEmpty(AfterEdits(map[], ops, RespHeaders))))
  }

  /** For every message, every recycled object and every run of operations, what is reported tells of the run. */
  lemma {:induction false} RewriteReproduces(used: State, msg: Message, ops: seq<Op>, r: Option<Rewrite>)
    requires BufferFits(used.buffer) && AllOpsFit(ops)
    requires Reports(ChangesOf(Run(Create(Reset(used), msg), ops)), r)
    ensures TellsOfRun(msg, ops, r)
  {
    var start := Create(Reset(used), msg);
    var st := Run(start, ops);
    PathAfter(start, ops);
    PartAfter(start, ops, Headers);
    PartAfter(start, ops, Args);
    PartAfter(start, ops, RespHeaders);
    TouchedBy(ops);
    RunStaysValid(start, ops);
    if r.Some? {
      PatchesReproduce(st, r.value);
    }
  }

  lemma TouchedBy(ops: seq<Op>)
    ensures AnyEdits(ops, Headers) <==> exists i :: 0 <= i < |ops| && ops[i].Header?
    ensures AnyEdits(ops, Args) <==> exists i :: 0 <= i < |ops| && ops[i].Arg?
    ensures AnyEdits(ops, RespHeaders) <==> exists i :: 0 <= i < |ops| && ops[i].RespHeader?
  {
    assert forall i :: 0 <= i < |ops| && ops[i].Header? ==> Edits(ops[i], Headers);
    assert forall i :: 0 <= i < |ops| && ops[i].Arg? ==> Edits(ops[i], Args);
    assert forall i :: 0 <= i < |ops| && ops[i].RespHeader? ==> Edits(ops[i], RespHeaders);
  }

  lemma PatchesReproduce(st: State, w: Rewrite)
    requires Valid(st) && Reports(ChangesOf(st), Some(w))
    ensures st.hdr.live.Some? ==>
      var m := ApplyHeaders(Group(st.msg.headers), w.headers.value);
      m.Keys == st.hdr.live.value.Keys && forall name :: First(m, name) == First(st.hdr.live.value, name)
    ensures st.args.live.Some? ==> ApplyArgs(Group(st.msg.args), w.args.value) == st.args.live.value
    ensures st.respHdr.Some? ==> Group(w.respHeaders.value) == DropEmpty(st.respHdr.value)
  {
    if st.args.live.Some? {
      ArgsPatchCorrectIff(st.args.raw, st.args.live.value, w.args.value);
      assert DropEmpty(st.args.live.value) == st.args.live.value;
    }
    if st.hdr.live.Some? {
      FirstsReproduced(st.hdr.raw, st.hdr.live.value, w.headers.value);
    }
    if st.respHdr.Some? {
      FlattenRegroup(st.respHdr.value, w.respHeaders.value);
    }
  }

  /** The first answer that came for a variable. */
  function FirstAnswer(ops: seq<Op>, name: string): Option<bytes> {
    if ops == [] then None else
      var earlier := FirstAnswer(ops[..|ops| - 1], name);
      var last := ops[|ops| - 1];
      if earlier.Some? then earlier else if last.Var? && last.name == name then last.ask.answer else None
  }

  /** The first answer to a question for the body that was not empty. */
  function FirstBody(ops: seq<Op>): Option<bytes> {
    if ops == [] then None else
      var earlier := FirstBody(ops[..|ops| - 1]);
      var last := ops[|ops| - 1];
      if earlier.Some? then earlier
      else if last.Body? && last.ask.answer.Some? && last.ask.answer.value != [] then last.ask.answer else None
  }

  lemma VarStep(st: State, op: Op, name: string)
    requires BufferFits(st.buffer) && OpFits(op)
    ensures var vars := Exec(st, op).0.vars;
      (if name in vars then Some(vars[name]) else None) ==
      if name in st.vars then Some(st.vars[name]) else if op.Var? && op.name == name then op.ask.answer else None
  {}

  lemma {:induction false} RemembersVar(st: State, ops: seq<Op>, name: string)
    requires BufferFits(st.buffer) && AllOpsFit(ops) && name !in st.vars
    ensures BufferFits(Run(st, ops).buffer)
    ensures var vars := Run(st, ops).vars; FirstAnswer(ops, name) == if name in vars then Some(vars[name]) else None
    decreases |ops|
  {
    if ops != [] {
      var init, last := ops[..|ops| - 1], ops[|ops| - 1];
      assert init + [last] == ops;
      RemembersVar(st, init, name);
      RunAppend(st, init, last);
      VarStep(Run(st, init), last, name);
    }
  }

  lemma {:induction false} RemembersBody(st: State, ops: seq<Op>)
    requires BufferFits(st.buffer) && AllOpsFit(ops) && st.body == []
    ensures BufferFits(Run(st, ops).buffer)
    ensures var body := Run(st, ops).body; FirstBody(ops) == if body != [] then Some(body) else None
    decreases |ops|
  {
    if ops != [] {
      var init, last := ops[..|ops| - 1], ops[|ops| - 1];
      assert init + [last] == ops;
      RemembersBody(st, init);
      RunAppend(st, init, last);
    }
  }

  /** A variable is asked for in one ExtraInfo frame, and only until an answer came, which is then given again. */
  lemma {:induction false} VarAskedOnce(st: State, ops: seq<Op>, name: string, ask: Ask)
    requires BufferFits(st.buffer) && AllOpsFit(ops) && name !in st.vars && AskFits(ask)
    ensures BufferFits(Run(st, ops).buffer)
    ensures Exec(Run(st, ops), Var(name, ask)).1 ==
      match FirstAnswer(ops, name)
      case Some(v) => Asked([], Some(v))
      case None => Asked(Encode(Frame(3, ask.question)), ask.answer)
  {
    RemembersVar(st, ops, name);
    QuestionIsAFrame(Run(st, ops).buffer, ask.question);
  }

  /** So is the body, until an answer came that is not empty. */
  lemma {:induction false} BodyAskedOnce(st: State, ops: seq<Op>, ask: Ask)
    requires BufferFits(st.buffer) && AllOpsFit(ops) && st.body == [] && AskFits(ask)
    ensures BufferFits(Run(st, ops).buffer)
    ensures Exec(Run(st, ops), Body(ask)).1 ==
      match FirstBody(ops)
      case Some(v) => Asked([], Some(v))
      case None => Asked(Encode(Frame(3, ask.question)), ask.answer)
  {
    RemembersBody(st, ops);
    QuestionIsAFrame(Run(st, ops).buffer, ask.question);
  }

  /** What a plugin reads back: the path set last, or else the message's, and the first values of a header and of an
      argument as they are after the edits. */
  lemma {:induction false} ReadsBack(used: State, msg: Message, ops: seq<Op>, name: string)
    requires BufferFits(used.buffer) && AllOpsFit(ops)
    ensures BufferFits(Run(Create(Reset(used), msg), ops).buffer)
    ensures var st := Run(Create(Reset(used), msg), ops);
      && Exec(st, Path).1 == Data(if LastPath(ops).Some? then LastPath(ops).value else msg.path)
      && Exec(st, Header(name, Keep)).1 == Text(First(AfterEdits(Group(msg.headers), ops, Headers), name))
      && Exec(st, Arg(name, Keep)).1 == Text(First(AfterEdits(Group(msg.args), ops, Args), name))
  {
    PathAfter(Create(Reset(used), msg), ops);
    PartAfter(Create(Reset(used), msg), ops, Headers);
    PartAfter(Create(Reset(used), msg), ops, Args);
  }

  predicate ReadsOnly(op: Op) {
    op.Path? || op.Var? || op.Body? || op.Fetch? || ((op.Header? || op.Arg?) && op.edit.Keep?)
  }

  lemma {:induction false} ReadingKeeps(st: State, ops: seq<Op>)
    requires Valid(st) && forall i :: 0 <= i < |ops| ==> OpFits(ops[i]) && ReadsOnly(ops[i])
    requires st.path.None? && st.respHdr.None?
    requires (st.hdr.live.Some? ==> st.hdr.live.value == st.hdr.raw) &&
      (st.args.live.Some? ==> st.args.live.value == st.args.raw)
    ensures var st' := Run(st, ops);
      st'.path.None? && st'.respHdr.None? &&
      (st'.hdr.live.Some? ==> st'.hdr.live.value == st'.hdr.raw) &&
        (st'.args.live.Some? ==> st'.args.live.value == st'.args.raw)
    decreases |ops|
  {
    if ops != [] {
      var op := ops[0];
      if op.Header? { OpenAndEditSound(st.hdr, st.msg.headers, op.name, op.edit); }
      if op.Arg? { OpenAndEditSound(st.args, st.msg.args, op.name, op.edit); }
      ReadingKeeps(Exec(st, op).0, ops[1..]);
    }
  }

  /** Looking without changing reports no entry at all. */
  lemma {:induction false} ReadingReportsNothing(used: State, msg: Message, ops: seq<Op>, w: Rewrite)
    requires BufferFits(used.buffer) && forall i :: 0 <= i < |ops| ==> OpFits(ops[i]) && ReadsOnly(ops[i])
    requires Reports(ChangesOf(Run(Create(Reset(used), msg), ops)), Some(w))
    ensures w.path.None? && w.respHeaders.None?
    ensures (w.headers.Some? ==> w.headers.value == []) && (w.args.Some? ==> w.args.value == [])
  {
    var st := Run(Create(Reset(used), msg), ops);
    ReadingKeeps(Create(Reset(used), msg), ops);
    if w.headers.Some? { UnchangedEmitNothing(st.hdr.raw, st.hdr.live.value, w.headers.value); }
    if w.args.Some? { UnchangedEmitNothing(st.args.raw, st.args.live.value, w.args.value); }
  }
}
