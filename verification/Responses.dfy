/** The Response object of the HTTPRespCall phase, and the ReqResponse with which a request plugin stops a
    request. */
module Responses {
  import opened Wrappers
  import opened Wire
  import opened Patch
  import opened Tracking

  datatype Message = Message(id: nat, confToken: nat, status: nat, headers: seq<Entry>)

  datatype State = State(
    msg: Message, hdr: Tracked, statusCode: int, body: Option<bytes>,
    vars: map<string, bytes>, originBody: bytes, buffer: bytes)

  const FRESH := State(Message(0, 0, 0, []), UNREAD, 0, None, map[], [], [])

  datatype Op =
    | StatusCode
    | Header(name: string, edit: Edit)
    | Write(data: bytes)
    | WriteHeader(code: int)
    | Var(name: string, ask: Ask)
    | ReadBody(ask: Ask)
    | HasChange
    | Fetch

  datatype Changes = Changes(status: nat, hdr: Option<(Values, Values)>, body: bytes, id: nat)

  datatype Out =
    | Nothing
    | Number(n: int)
    | Flag(b: bool)
    | Text(text: string)
    | Asked(sent: bytes, answer: Option<bytes>)
    | Changed(changes: Option<Changes>)

  predicate OpFits(op: Op) {
    op.Var? || op.ReadBody? ==> AskFits(op.ask)
  }

  predicate IsChanged(st: State) {
    st.body.Some? || st.hdr.live.Some? || st.statusCode != 0
  }

  /** The conversion to uint16; 0 stands for an absent field. */
  function Uint16(n: int): nat {
    n % 0x1_0000
  }

  function ChangesOf(st: State): Option<Changes> {
    if !IsChanged(st) then None else
      Some(Changes(Uint16(st.statusCode), if st.hdr.live.Some? then Some((st.hdr.raw, st.hdr.live.value)) else None,
                   if st.body.Some? then st.body.value else [], st.msg.id))
  }

  function AskInto(st: State, ask: Ask): (State, Out)
    requires BufferFits(st.buffer)
  {
    (st.(buffer := ask.scratch), Asked(QuestionSent(st.buffer, ask.question), ask.answer))
  }

  function Exec(st: State, op: Op): (r: (State, Out))
    requires BufferFits(st.buffer) && OpFits(op)
    ensures BufferFits(r.0.buffer) && r.0.msg == st.msg
  {
    match op
    case StatusCode => (st, Number(if st.statusCode == 0 then st.msg.status else st.statusCode))
    case Header(name, edit) =>
      var t := OpenAndEdit(st.hdr, st.msg.headers, name, edit);
      (st.(hdr := t), Text(First(t.live.value, name)))
    case Write(data) => (st.(body := Some((if st.body.Some? then st.body.value else []) + data)), Number(|data|))
    case WriteHeader(code) => (if st.statusCode != 0 then st else st.(statusCode := code), Nothing)
    case Var(name, ask) =>
      if name in st.vars then (st, Asked([], Some(st.vars[name]))) else
        var (asked, out) := AskInto(st, ask);
        (if ask.answer.Some? then asked.(vars := st.vars[name := ask.answer.value]) else asked, out)
    case ReadBody(ask) =>
      if st.originBody != [] then (st, Asked([], Some(st.originBody))) else
        var (asked, out) := AskInto(st, ask);
        (if ask.answer.Some? then asked.(originBody := ask.answer.value) else asked, out)
    case HasChange => (st, Flag(IsChanged(st)))
    case Fetch => (st, Changed(ChangesOf(st)))
  }

  function Reset(st: State): State {
    State(st.msg, Tracked(None, st.hdr.raw), 0, None, map[], [], st.buffer)
  }

  function Create(pooled: State, msg: Message): State {
    pooled.(msg := msg)
  }

  // ----- The object -----

  datatype Rewrite = Rewrite(status: nat, headers: Option<seq<Entry>>, body: bytes, id: nat)

  ghost predicate Reports(changes: Option<Changes>, r: Option<Rewrite>) {
    match (changes, r)
    case (None, None) => true
    case (Some(c), Some(w)) =>
      && w.status == c.status && w.body == c.body && w.id == c.id
      && (w.headers.Some? <==> c.hdr.Some?)
      && (c.hdr.Some? ==>
            AllNonEmpty(c.hdr.value.0) && AllNonEmpty(c.hdr.value.1) &&
            IsHeaderPatch(c.hdr.value.0, c.hdr.value.1, w.headers.value))
    case _ => false
  }

  class Response {
    var r: Message
    var extraInfoHeader: bytes
    var hdr: Option<Values>
    var rawHdr: Values
    var statusCode: int
    var body: Option<bytes>
    var vars: map<string, bytes>
    var originBody: bytes

    function View(): State
      reads this
    {
      State(r, Tracked(hdr, rawHdr), statusCode, body, vars, originBody, extraInfoHeader)
    }

    constructor ()
      ensures View() == FRESH
    {
      r, extraInfoHeader, hdr, rawHdr := Message(0, 0, 0, []), [], None, map[];
      statusCode, body, vars, originBody := 0, None, map[], [];
    }

    method Take(msg: Message)
      modifies this
      ensures View() == Create(old(View()), msg)
    {
      r := msg;
    }

    method Clear()
      modifies this
      ensures View() == Reset(old(View()))
    {
      body := None;
      statusCode := 0;
      hdr := None;
      vars := map[];
      originBody := [];
    }

    method EditHeader(name: string, edit: Edit) returns (text: string)
      requires BufferFits(extraInfoHeader)
      modifies this
      ensures (View(), Text(text)) == Exec(old(View()), Header(name, edit))
    {
      if hdr.None? {
        var hh := Decode(r.headers);
        hdr := Some(hh);
        rawHdr := hh;
      }
      hdr := Some(Edited(hdr.value, name, edit));
      text := First(hdr.value, name);
    }

    method AppendBody(data: bytes) returns (n: nat)
      requires BufferFits(extraInfoHeader)
      modifies this
      ensures (View(), Number(n)) == Exec(old(View()), Write(data))
    {
      if body.None? {
        body := Some([]);
      }
      body := Some(body.value + data);
      n := |data|;
    }

    /** A status that was written cannot be overridden. */
    method SetStatus(code: int)
      requires BufferFits(extraInfoHeader)
      modifies this
      ensures (View(), Nothing) == Exec(old(View()), WriteHeader(code))
    {
      if statusCode != 0 {
        return;
      }
      statusCode := code;
    }

    method AskExtraInfo(ask: Ask) returns (sent: bytes)
      requires BufferFits(extraInfoHeader) && AskFits(ask)
      modifies this
      ensures View() == old(View()).(buffer := ask.scratch)
      ensures sent == QuestionSent(old(extraInfoHeader), ask.question)
    {
      if |extraInfoHeader| == 0 {
        extraInfoHeader := [0, 0, 0, 0];
      }
      var header := PutUint32(|ask.question|) + extraInfoHeader[HEADER_LEN..];
      sent := header[0 := RPC_EXTRA_INFO] + ask.question;
      extraInfoHeader := ask.scratch;
    }

    method GetVar(name: string, ask: Ask) returns (sent: bytes, v: Option<bytes>)
      requires BufferFits(extraInfoHeader) && AskFits(ask)
      modifies this
      ensures (View(), Asked(sent, v)) == Exec(old(View()), Var(name, ask))
    {
      if name in vars {
        return [], Some(vars[name]);
      }
      sent := AskExtraInfo(ask);
      v := ask.answer;
      if v.Some? {
        vars := vars[name := v.value];
      }
    }

    method GetBody(ask: Ask) returns (sent: bytes, v: Option<bytes>)
      requires BufferFits(extraInfoHeader) && AskFits(ask)
      modifies this
      ensures (View(), Asked(sent, v)) == Exec(old(View()), ReadBody(ask))
    {
      if |originBody| > 0 {
        return [], Some(originBody);
      }
      sent := AskExtraInfo(ask);
      v := ask.answer;
      if v.Some? {
        originBody := v.value;
      }
    }

    method FetchChanges() returns (w: Option<Rewrite>)
      requires Sound(View().hdr, r.headers)
      ensures Reports(ChangesOf(View()), w)
      ensures w.None? <==> body.None? && hdr.None? && statusCode == 0
      ensures w.Some? ==>
        w.value.status == statusCode % 65536 && w.value.id == r.id &&
        w.value.body == (if body.Some? then body.value else []) && (w.value.headers.Some? <==> hdr.Some?)
    {
      if body.None? && hdr.None? && statusCode == 0 {
        return None;
      }
      var headers: Option<seq<Entry>> := None;
      if hdr.Some? {
        var entries := HeaderChanges(rawHdr, hdr.value);
        entries := BuildVector(entries);
        headers := Some(entries);
      }
      var sentBody: bytes := [];
      if body.Some? {
        sentBody := body.value;
      }
      w := Some(Rewrite(Uint16(statusCode), headers, sentBody, r.id));
    }
  }

  // ----- Every run of operations -----

  function Run(st: State, ops: seq<Op>): State
    requires BufferFits(st.buffer) && forall i :: 0 <= i < |ops| ==> OpFits(ops[i])
    decreases |ops|
  {
    if ops == [] then st else Run(Exec(st, ops[0]).0, ops[1..])
  }

  function Outs(st: State, ops: seq<Op>): seq<Out>
    requires BufferFits(st.buffer) && forall i :: 0 <= i < |ops| ==> OpFits(ops[i])
    decreases |ops|
  {
    if ops == [] then [] else [Exec(st, ops[0]).1] + Outs(Exec(st, ops[0]).0, ops[1..])
  }

  predicate StatesAlike(a: State, b: State) {
    && a.msg == b.msg && a.statusCode == b.statusCode && a.body == b.body && a.vars == b.vars
    && a.originBody == b.originBody && Alike(a.hdr, b.hdr) && BufferFits(a.buffer) && BufferFits(b.buffer)
  }

  lemma StepAlike(a: State, b: State, op: Op)
    requires StatesAlike(a, b) && OpFits(op)
    ensures Exec(a, op).1 == Exec(b, op).1 && StatesAlike(Exec(a, op).0, Exec(b, op).0)
  {
    if op.Var? || op.ReadBody? {
      QuestionIsAFrame(a.buffer, op.ask.question);
      QuestionIsAFrame(b.buffer, op.ask.question);
    }
  }

  lemma {:induction false} RunsAlike(a: State, b: State, ops: seq<Op>)
    requires StatesAlike(a, b) && forall i :: 0 <= i < |ops| ==> OpFits(ops[i])
    ensures Outs(a, ops) == Outs(b, ops)
    decreases |ops|
  {
    if ops != [] {
      StepAlike(a, b, ops[0]);
      RunsAlike(Exec(a, ops[0]).0, Exec(b, ops[0]).0, ops[1..]);
    }
  }

  /** A recycled response, whatever its earlier use left behind, behaves in every run like a new one. */
  lemma {:induction false} ReuseUnobservable(used: State, msg: Message, ops: seq<Op>)
    requires BufferFits(used.buffer) && forall i :: 0 <= i < |ops| ==> OpFits(ops[i])
    ensures Outs(Create(Reset(used), msg), ops) == Outs(Create(FRESH, msg), ops)
  {
    RunsAlike(Create(Reset(used), msg), Create(FRESH, msg), ops);
  }

  lemma {:induction false} RunStaysSound(st: State, ops: seq<Op>)
    requires BufferFits(st.buffer) && Sound(st.hdr, st.msg.headers) && forall i :: 0 <= i < |ops| ==> OpFits(ops[i])
    ensures Sound(Run(st, ops).hdr, st.msg.headers) && Run(st, ops).msg == st.msg
    decreases |ops|
  {
    if ops != [] {
      if ops[0].Header? { OpenAndEditSound(st.hdr, st.msg.headers, ops[0].name, ops[0].edit); }
      RunStaysSound(Exec(st, ops[0]).0, ops[1..]);
    }
  }

  /** What a run writes: the data of its Writes, in order. */
  function WrittenBy(ops: seq<Op>): bytes {
    if ops == [] then [] else WrittenBy(ops[..|ops| - 1]) + (if ops[|ops| - 1].Write? then ops[|ops| - 1].data else [])
  }

  /** The first nonzero status of a run, or 0. */
  function FirstStatus(ops: seq<Op>): int {
    if ops == [] then 0 else
      var earlier := FirstStatus(ops[..|ops| - 1]);
      if earlier != 0 then earlier else if ops[|ops| - 1].WriteHeader? then ops[|ops| - 1].code else 0
  }

  /** The header operations of a run, applied to a message's headers. */
  function HeadersAfter(m: Values, ops: seq<Op>): Values {
    if ops == [] then m else
      var before := HeadersAfter(m, ops[..|ops| - 1]);
      var last := ops[|ops| - 1];
      if last.Header? then Edited(before, last.name, last.edit) else before
  }

  predicate AllOpsFit(ops: seq<Op>) {
    forall i :: 0 <= i < |ops| ==> OpFits(ops[i])
  }

  lemma {:induction false} RunAppend(st: State, ops: seq<Op>, op: Op)
    requires BufferFits(st.buffer) && AllOpsFit(ops) && OpFits(op)
    ensures AllOpsFit(ops + [op]) && BufferFits(Run(st, ops).buffer)
    ensures Run(st, ops + [op]) == Exec(Run(st, ops), op).0
    decreases |ops|
  {
    if ops == [] {
      assert [] + [op] == [op] && [op][1..] == [];
    } else {
      assert (ops + [op])[0] == ops[0] && (ops + [op])[1..] == ops[1..] + [op];
      RunAppend(Exec(st, ops[0]).0, ops[1..], op);
    }
  }

  predicate AnyWrite(ops: seq<Op>) {
    exists i :: 0 <= i < |ops| && ops[i].Write?
  }

  predicate AnyHeader(ops: seq<Op>) {
    exists i :: 0 <= i < |ops| && ops[i].Header?
  }

  lemma AnyExtends(ops: seq<Op>)
    requires ops != []
    ensures AnyWrite(ops) <==> AnyWrite(ops[..|ops| - 1]) || ops[|ops| - 1].Write?
    ensures AnyHeader(ops) <==> AnyHeader(ops[..|ops| - 1]) || ops[|ops| - 1].Header?
  {
    assert forall i :: 0 <= i < |ops| - 1 ==> ops[i] == ops[..|ops| - 1][i];
  }

  /** What a run leaves of a response that was just taken, said without the run: the body is there exactly if something
      was written, the status is the first nonzero one, and the headers are the message's as the run edits them. */
  predicate LeftBy(msg: Message, ops: seq<Op>, st: State) {
    && BufferFits(st.buffer) && st.msg == msg
    && (st.body.Some? <==> AnyWrite(ops)) && (if st.body.Some? then st.body.value else []) == WrittenBy(ops)
    && st.statusCode == FirstStatus(ops)
    && (st.hdr.live.Some? <==> AnyHeader(ops))
    && (if st.hdr.live.Some? then st.hdr.live.value else Group(msg.headers)) == HeadersAfter(Group(msg.headers), ops)
  }

  lemma ExecDoes(st: State, op: Op)
    requires BufferFits(st.buffer) && OpFits(op)
    ensures var st' := Exec(st, op).0;
      && st'.body == (if op.Write? then Some((if st.body.Some? then st.body.value else []) + op.data) else st.body)
      && st'.statusCode == (if op.WriteHeader? && st.statusCode == 0 then op.code else st.statusCode)
      && (if op.Header? then
            st'.hdr.live ==
            Some(Edited(if st.hdr.live.Some? then st.hdr.live.value else Group(st.msg.headers), op.name, op.edit))
          else st'.hdr == st.hdr)
  {}

  lemma {:induction false} LeftByOneMore(msg: Message, ops: seq<Op>, st: State)
    requires ops != [] && LeftBy(msg, ops[..|ops| - 1], st) && OpFits(ops[|ops| - 1])
    ensures LeftBy(msg, ops, Exec(st, ops[|ops| - 1]).0)
  {
    AnyExtends(ops);
    ExecDoes(st, ops[|ops| - 1]);
    assert WrittenBy(ops[..|ops| - 1]) + [] == WrittenBy(ops[..|ops| - 1]);
  }

  lemma {:induction false} RunMeans(st: State, ops: seq<Op>)
    requires BufferFits(st.buffer) && AllOpsFit(ops)
    requires st.statusCode == 0 && st.body.None? && st.hdr.live.None?
    ensures LeftBy(st.msg, ops, Run(st, ops))
    decreases |ops|
  {
    if ops != [] {
      var init, last := ops[..|ops| - 1], ops[|ops| - 1];
      assert init + [last] == ops;
      RunMeans(st, init);
      RunAppend(st, init, last);
      LeftByOneMore(st.msg, ops, Run(st, init));
    }
  }

  /** What is reported of a run, said of its operations alone: a rewrite exactly when the run looked at a header, wrote,
      even nothing, or set a nonzero status. Its body is all that was written, in order; its status is the first nonzero
      one, as 16 bits, or 0 for none; and its headers applied to the upstream's own give every header the first value
      that the run's edits give it. */
  ghost predicate TellsOfRun(msg: Message, ops: seq<Op>, r: Option<Rewrite>) {
    && (r.Some? <==>
        exists i :: 0 <= i < |ops| && (ops[i].Header? || ops[i].Write? || (ops[i].WriteHeader? && ops[i].code != 0)))
    && (r.Some? ==>
          var w := r.value;
          && w.id == msg.id && w.body == WrittenBy(ops) && w.status == FirstStatus(ops) % 65536
          && (w.headers.Some? <==> exists i :: 0 <= i < |ops| && ops[i].Header?)
          && (w.headers.Some? ==>
                var live := HeadersAfter(Group(msg.headers), ops);
                var m := ApplyHeaders(Group(msg.headers), w.headers.value);
                m.Keys == live.Keys && forall name :: First(m, name) == First(live, name)))
  }

  /** For every upstream response, recycled object and run of operations, what is reported tells of the run. */
  lemma {:induction false} RewriteReproduces(used: State, msg: Message, ops: seq<Op>, r: Option<Rewrite>)
    requires BufferFits(used.buffer) && AllOpsFit(ops)
    requires Reports(ChangesOf(Run(Create(Reset(used), msg), ops)), r)
    ensures TellsOfRun(msg, ops, r)
  {
    var st := Run(Create(Reset(used), msg), ops);
    RunStaysSound(Create(Reset(used), msg), ops);
    RunMeans(Create(Reset(used), msg), ops);
    ChangedIff(Create(Reset(used), msg), ops);
    if r.Some? && r.value.headers.Some? {
      FirstsReproduced(st.hdr.raw, st.hdr.live.value, r.value.headers.value);
    }
  }

  /** The first answer that came for a variable. */
  function FirstAnswer(ops: seq<Op>, name: string): Option<bytes> {
    if ops == [] then None else
      var earlier := FirstAnswer(ops[..|ops| - 1], name);
      var last := ops[|ops| - 1];
      if earlier.Some? then earlier else if last.Var? && last.name == name then last.ask.answer else None
  }

  /** The first answer to a question for the body that was not empty. */
  function FirstBody(ops: seq<Op>): Option<bytes> {
    if ops == [] then None else
      var earlier := FirstBody(ops[..|ops| - 1]);
      var last := ops[|ops| - 1];
      if earlier.Some? then earlier
      else if last.ReadBody? && last.ask.answer.Some? && last.ask.answer.value != [] then last.ask.answer else None
  }

  lemma VarStep(st: State, op: Op, name: string)
    requires BufferFits(st.buffer) && OpFits(op)
    ensures var vars := Exec(st, op).0.vars;
      (if name in vars then Some(vars[name]) else None) ==
      if name in st.vars then Some(st.vars[name]) else if op.Var? && op.name == name then op.ask.answer else None
  {}

  lemma {:induction false} RemembersVar(st: State, ops: seq<Op>, name: string)
    requires BufferFits(st.buffer) && AllOpsFit(ops) && name !in st.vars
    ensures BufferFits(Run(st, ops).buffer)
    ensures var vars := Run(st, ops).vars; FirstAnswer(ops, name) == if name in vars then Some(vars[name]) else None
    decreases |ops|
  {
    if ops != [] {
      var init, last := ops[..|ops| - 1], ops[|ops| - 1];
      assert init + [last] == ops;
      RemembersVar(st, init, name);
      RunAppend(st, init, last);
      VarStep(Run(st, init), last, name);
    }
  }

  lemma {:induction false} RemembersBody(st: State, ops: seq<Op>)
    requires BufferFits(st.buffer) && AllOpsFit(ops) && st.originBody == []
    ensures BufferFits(Run(st, ops).buffer)
    ensures var body := Run(st, ops).originBody; FirstBody(ops) == if body != [] then Some(body) else None
    decreases |ops|
  {
    if ops != [] {
      var init, last := ops[..|ops| - 1], ops[|ops| - 1];
      assert init + [last] == ops;
      RemembersBody(st, init);
      RunAppend(st, init, last);
    }
  }

  /** A variable is asked for in one ExtraInfo frame, and only until an answer came, which is then given again. */
  lemma {:induction false} VarAskedOnce(st: State, ops: seq<Op>, name: string, ask: Ask)
    requires BufferFits(st.buffer) && AllOpsFit(ops) && name !in st.vars && AskFits(ask)
    ensures BufferFits(Run(st, ops).buffer)
    ensures Exec(Run(st, ops), Var(name, ask)).1 ==
      match FirstAnswer(ops, name)
      case Some(v) => Asked([], Some(v))
      case None => Asked(Encode(Frame(3, ask.question)), ask.answer)
  {
    RemembersVar(st, ops, name);
    QuestionIsAFrame(Run(st, ops).buffer, ask.question);
  }

  /** So is the upstream's body, until an answer came that is not empty. */
  lemma {:induction false} BodyAskedOnce(st: State, ops: seq<Op>, ask: Ask)
    requires BufferFits(st.buffer) && AllOpsFit(ops) && st.originBody == [] && AskFits(ask)
    ensures BufferFits(Run(st, ops).buffer)
    ensures Exec(Run(st, ops), ReadBody(ask)).1 ==
      match FirstBody(ops)
      case Some(v) => Asked([], Some(v))
      case None => Asked(Encode(Frame(3, ask.question)), ask.answer)
  {
    RemembersBody(st, ops);
    QuestionIsAFrame(Run(st, ops).buffer, ask.question);
  }

  /** What a plugin reads back: the first status written, or else the upstream's, and the first value of a header. */
  lemma {:induction false} ReadsBack(used: State, msg: Message, ops: seq<Op>, name: string)
    requires BufferFits(used.buffer) && AllOpsFit(ops)
    ensures BufferFits(Run(Create(Reset(used), msg), ops).buffer)
    ensures var st := Run(Create(Reset(used), msg), ops);
      && Exec(st, StatusCode).1 == Number(if FirstStatus(ops) != 0 then FirstStatus(ops) else msg.status)
      && Exec(st, Header(name, Keep)).1 == Text(First(HeadersAfter(Group(msg.headers), ops), name))
  {
    RunMeans(Create(Reset(used), msg), ops);
  }

  /** The first nonzero status written is the one that stays, through every run. */
  lemma {:induction false} FirstStatusStays(st: State, ops: seq<Op>)
    requires BufferFits(st.buffer) && st.statusCode != 0 && forall i :: 0 <= i < |ops| ==> OpFits(ops[i])
    ensures Run(st, ops).statusCode == st.statusCode
    decreases |ops|
  {
    if ops != [] {
      FirstStatusStays(Exec(st, ops[0]).0, ops[1..]);
    }
  }

  predicate Touches(op: Op) {
    op.Header? || op.Write? || (op.WriteHeader? && op.code != 0)
  }

  lemma ExecChangesIff(st: State, op: Op)
    requires BufferFits(st.buffer) && OpFits(op)
    ensures IsChanged(Exec(st, op).0) <==> IsChanged(st) || Touches(op)
  {}

  /** A run leaves the response changed exactly when it looked at a header, wrote (even nothing) to the body
      or wrote a nonzero status. Looking at a header is enough. */
  lemma {:induction false} ChangedIff(st: State, ops: seq<Op>)
    requires BufferFits(st.buffer) && forall i :: 0 <= i < |ops| ==> OpFits(ops[i])
    ensures IsChanged(Run(st, ops)) <==> IsChanged(st) || exists i :: 0 <= i < |ops| && Touches(ops[i])
    decreases |ops|
  {
    if ops != [] {
      ExecChangesIff(st, ops[0]);
      ChangedIff(Exec(st, ops[0]).0, ops[1..]);
      assert forall i :: 0 < i < |ops| ==> ops[i] == ops[1..][i - 1];
    }
  }
}
