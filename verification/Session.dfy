/**
 One connection of the runner: the serving loop, the dispatch of a request to its handler, and the
 ExtraInfo calls a handler makes to the gateway over the same connection while it runs.
 */
module Session {
  import opened Wrappers
  import opened Wire

  datatype ErrorCode = BadRequest | ServiceUnavailable | ConfTokenNotFound

  /** What a handler does next. `Query` asks the gateway and waits; `Panic` unwinds to the connection. */
  datatype Action = Return(out: bytes) | Fail(code: ErrorCode) | Query(question: bytes) | Panic

  /** A handler, seen from the connection: a function of the request and of the answers it has received so
      far, `None` for an ask that failed. It asks at most `asks` times. */
  datatype Handler = Handler(asks: nat, act: (bytes, seq<Option<bytes>>) -> Action)

  ghost predicate Halts(h: Handler) {
    forall request, answers :: |answers| >= h.asks ==> !h.act(request, answers).Query?
  }

  /** `report` is the encoding of an error message. */
  datatype Server = Server(prepareConf: Handler, httpReqCall: Handler, httpRespCall: Handler,
                           report: ErrorCode -> bytes)

  ghost predicate ServerHalts(server: Server) {
    Halts(server.prepareConf) && Halts(server.httpReqCall) && Halts(server.httpRespCall)
  }

  function Lookup(server: Server, ty: byte): Option<Handler> {
    if ty == RPC_PREPARE_CONF then Some(server.prepareConf)
    else if ty == RPC_HTTP_REQ_CALL then Some(server.httpReqCall)
    else if ty == RPC_HTTP_RESP_CALL then Some(server.httpRespCall)
    else None
  }

  /** The action a request calls for; a type without a handler is reported as a bad request. */
  function ActionFor(server: Server, request: Frame, answers: seq<Option<bytes>>): Action {
    match Lookup(server, request.ty)
    case Some(h) => h.act(request.payload, answers)
    case None => Fail(BadRequest)
  }

  /** The reply frame of a finished request, with the size guard of checkIfDataTooLarge. */
  function Finish(server: Server, ty: byte, action: Action): Frame
    requires action.Return? || action.Fail?
  {
    match action
    case Return(out) =>
      if |out| < MAX_DATA_SIZE then Frame(ty, out) else Frame(RPC_ERROR, server.report(ServiceUnavailable))
    case Fail(code) => Frame(RPC_ERROR, server.report(code))
  }

  /** The size guard lets through exactly one range of replies that the length bytes cannot carry. */
  lemma GuardGap(server: Server, ty: byte, out: bytes)
    requires |server.report(ServiceUnavailable)| < LENGTH_SPACE
    ensures Fits(Finish(server, ty, Return(out))) <==> !(LENGTH_SPACE <= |out| < MAX_DATA_SIZE)
    ensures var f := Finish(server, ty, Return(out));
      DecodeOne(Encode(f)) == Some((f, [])) <==> !(LENGTH_SPACE <= |out| < MAX_DATA_SIZE)
  {
    var f := Finish(server, ty, Return(out));
    RoundTripIff(f, []);
    assert Encode(f) + [] == Encode(f);
  }

  // ----- Histories of a connection -----

  /** What happens on a connection, with the bytes that moved. An ask can break before its question is written in
      full, or while its answer is read; a reply that cannot be written ends the connection. */
  datatype Event =
    | Received(frame: Frame)
    | Asked(question: bytes, written: bytes)
    | Answered(frame: Frame)
    | AskBroken(consumed: bytes)
    | Replied(frame: Frame, written: bytes, ok: bool)

  datatype Phase =
    | Idle
    | Serving(request: Frame, answers: seq<Option<bytes>>)
    | Asking(request: Frame, answers: seq<Option<bytes>>, whole: bool)
    | Closed

  function Question(question: bytes): Frame {
    Frame(RPC_EXTRA_INFO, question)
  }

  /** No more than one frame, as its header announces it. */
  predicate PartOfFrame(b: bytes) {
    |b| < HEADER_LEN || |b| <= HEADER_LEN + LengthOf(b[..HEADER_LEN])
  }

  /** Where a connection stands after a history, or None if the history is not one of this server:
      a request, ask and answer pairs as its handler calls for, one reply. */
  function PhaseAfter(server: Server, log: seq<Event>): Option<Phase> {
    if log == [] then Some(Idle) else
      match PhaseAfter(server, log[..|log| - 1])
      case None => None
      case Some(phase) => Next(server, phase, log[|log| - 1])
  }

  function Next(server: Server, phase: Phase, e: Event): Option<Phase> {
    match phase
    case Idle => if e.Received? && Fits(e.frame) then Some(Serving(e.frame, [])) else None
    case Serving(request, answers) =>
      var action := ActionFor(server, request, answers);
      if e.Asked? && action == Query(e.question) && e.written <= Encode(Question(e.question))
      then Some(Asking(request, answers, e.written == Encode(Question(e.question))))
      else if e.Replied? && (action.Return? || action.Fail?) && e.frame == Finish(server, request.ty, action) &&
              e.written <= Encode(e.frame) && (e.ok ==> e.written == Encode(e.frame))
      then Some(if e.ok then Idle else Closed)
      else None
    case Asking(request, answers, whole) =>
      if e.Answered? && whole && Fits(e.frame) then Some(Serving(request, answers + [Some(e.frame.payload)]))
      else if e.AskBroken? && PartOfFrame(e.consumed) && (!whole ==> e.consumed == [])
      then Some(Serving(request, answers + [None]))
      else None
    case Closed => None
  }

  /** The bytes a history has taken off the stream. */
  function BytesIn(log: seq<Event>): bytes {
    if log == [] then [] else BytesIn(log[..|log| - 1]) + TakenBy(log[|log| - 1])
  }

  function TakenBy(e: Event): bytes {
    match e
    case Received(f) => Encode(f)
    case Answered(f) => Encode(f)
    case AskBroken(consumed) => consumed
    case _ => []
  }

  /** The bytes a history has put on the stream. */
  function BytesOut(log: seq<Event>): bytes {
    if log == [] then [] else BytesOut(log[..|log| - 1]) + PutBy(log[|log| - 1])
  }

  function PutBy(e: Event): bytes {
    match e
    case Asked(_, written) => written
    case Replied(_, written, _) => written
    case _ => []
  }

  /** The frames received and answered. */
  function Inbound(log: seq<Event>): seq<Frame> {
    if log == [] then [] else
      Inbound(log[..|log| - 1]) + FramesOf(log[|log| - 1])
  }

  function FramesOf(e: Event): seq<Frame> {
    if e.Received? || e.Answered? then [e.frame] else []
  }

  lemma {:induction false} HistoryStep(server: Server, log: seq<Event>, e: Event)
    requires PhaseAfter(server, log).Some?
    ensures PhaseAfter(server, log + [e]) == Next(server, PhaseAfter(server, log).value, e)
    ensures BytesIn(log + [e]) == BytesIn(log) + TakenBy(e) && BytesOut(log + [e]) == BytesOut(log) + PutBy(e)
  {
    assert (log + [e])[..|log|] == log;
  }

  predicate IsLatestRequest(log: seq<Event>, j: nat, i: nat) {
    && j < i <= |log| && log[j].Received?
    && forall k :: j < k < i ==> !log[k].Received? && !log[k].Replied?
  }

  lemma {:induction false} ServingLatest(server: Server, log: seq<Event>) returns (j: nat)
    requires PhaseAfter(server, log).Some? &&
      (PhaseAfter(server, log).value.Serving? || PhaseAfter(server, log).value.Asking?)
    ensures IsLatestRequest(log, j, |log|) && log[j].frame == PhaseAfter(server, log).value.request
  {
    var init := log[..|log| - 1];
    if log[|log| - 1].Received? {
      j := |init|;
    } else {
      j := ServingLatest(server, init);
      assert forall k :: 0 <= k < |init| ==> log[k] == init[k];
    }
  }

  lemma {:induction false} PrefixIsHistory(server: Server, log: seq<Event>, k: nat)
    requires PhaseAfter(server, log).Some? && k <= |log|
    ensures PhaseAfter(server, log[..k]).Some?
    decreases |log| - k
  {
    if k == |log| {
      assert log[..k] == log;
    } else {
      PrefixIsHistory(server, log, k + 1);
      assert log[..k + 1][..k] == log[..k];
    }
  }

  lemma {:induction false} HistoryAt(server: Server, log: seq<Event>, k: nat)
    requires PhaseAfter(server, log).Some? && k < |log|
    ensures PhaseAfter(server, log[..k]).Some? && Next(server, PhaseAfter(server, log[..k]).value, log[k]).Some?
    ensures PhaseAfter(server, log[..k + 1]) == Next(server, PhaseAfter(server, log[..k]).value, log[k])
  {
    PrefixIsHistory(server, log, k + 1);
    PrefixIsHistory(server, log, k);
    assert log[..k + 1][..k] == log[..k];
  }

  /** In every history each reply answers the latest request, which has no other reply, and carries that
      request's type or the error type. */
  lemma {:induction false} ReplyAnswersLatest(server: Server, log: seq<Event>, i: nat) returns (j: nat)
    requires PhaseAfter(server, log).Some? && i < |log| && log[i].Replied?
    ensures IsLatestRequest(log, j, i)
    ensures log[i].frame.ty == log[j].frame.ty || log[i].frame.ty == RPC_ERROR
  {
    HistoryAt(server, log, i);
    j := ServingLatest(server, log[..i]);
  }

  /** The answers to the request in progress, None for an ask that broke. */
  function AnswersIn(log: seq<Event>): seq<Option<bytes>> {
    if log == [] then [] else
      match log[|log| - 1]
      case Received(_) => []
      case Answered(frame) => AnswersIn(log[..|log| - 1]) + [Some(frame.payload)]
      case AskBroken(_) => AnswersIn(log[..|log| - 1]) + [None]
      case _ => AnswersIn(log[..|log| - 1])
  }

  lemma {:induction false} AnswersAreInLog(server: Server, log: seq<Event>)
    requires PhaseAfter(server, log).Some?
    ensures var phase := PhaseAfter(server, log).value;
      (phase.Serving? || phase.Asking? ==> phase.answers == AnswersIn(log))
  {
    if log != [] {
      AnswersAreInLog(server, log[..|log| - 1]);
    }
  }

  /** A handler's action `action`, on a request of type `ty`, is what the reply `f` says: its result under the request's
      type if that is shorter than 2^25 - 1 bytes, and else a report under the error type. */
  predicate SaysWhat(server: Server, ty: byte, action: Action, f: Frame) {
    match action
    case Return(out) => f == if |out| < 0x1FF_FFFF then Frame(ty, out) else Frame(0, server.report(ServiceUnavailable))
    case Fail(code) => f == Frame(0, server.report(code))
    case _ => false
  }

  /** Which handler answers what, in every history: a reply to a request of type 1 is what PrepareConf calls for on its
      payload and its answers, to one of type 2 what HTTPReqCall does, to one of type 4 what HTTPRespCall does; every
      other request is a bad one. */
  lemma {:induction false} RepliesAre(server: Server, log: seq<Event>, i: nat) returns (j: nat)
    requires PhaseAfter(server, log).Some? && i < |log| && log[i].Replied?
    ensures IsLatestRequest(log, j, i)
    ensures var request, answers := log[j].frame, AnswersIn(log[..i]);
      match request.ty
      case 1 => SaysWhat(server, 1, server.prepareConf.act(request.payload, answers), log[i].frame)
      case 2 => SaysWhat(server, 2, server.httpReqCall.act(request.payload, answers), log[i].frame)
      case 4 => SaysWhat(server, 4, server.httpRespCall.act(request.payload, answers), log[i].frame)
      case _ => log[i].frame == Frame(0, server.report(BadRequest))
  {
    HistoryAt(server, log, i);
    j := ServingLatest(server, log[..i]);
    AnswersAreInLog(server, log[..i]);
  }

  /** And what is asked on the way is what that handler asks; a bad request never asks. */
  lemma {:induction false} AsksAre(server: Server, log: seq<Event>, i: nat) returns (j: nat)
    requires PhaseAfter(server, log).Some? && i < |log| && log[i].Asked?
    ensures IsLatestRequest(log, j, i)
    ensures log[i].written <= Encode(Frame(3, log[i].question))
    ensures var request, answers := log[j].frame, AnswersIn(log[..i]);
      match request.ty
      case 1 => server.prepareConf.act(request.payload, answers) == Query(log[i].question)
      case 2 => server.httpReqCall.act(request.payload, answers) == Query(log[i].question)
      case 4 => server.httpRespCall.act(request.payload, answers) == Query(log[i].question)
      case _ => false
  {
    HistoryAt(server, log, i);
    j := ServingLatest(server, log[..i]);
    AnswersAreInLog(server, log[..i]);
  }

  /** How a request can end: its handler's last action decides, for every way the history can go on. A panic is the
      end of the connection, and no reply ever leaves; anything else but another ask is followed by its one reply. */
  lemma {:induction false} RepliedIff(server: Server, log: seq<Event>, request: Frame, answers: seq<Option<bytes>>)
    requires PhaseAfter(server, log) == Some(Serving(request, answers))
    requires !ActionFor(server, request, answers).Query?
    ensures (exists more: seq<Event> :: log < more && PhaseAfter(server, more).Some?) <==>
            !ActionFor(server, request, answers).Panic?
    ensures forall more: seq<Event> :: log < more && PhaseAfter(server, more).Some? ==> more[|log|].Replied?
  {
    var action := ActionFor(server, request, answers);
    forall more: seq<Event> | log < more && PhaseAfter(server, more).Some?
      ensures more[|log|].Replied? && !action.Panic?
    {
      HistoryAt(server, more, |log|);
      assert more[..|log|] == log;
    }
    if !action.Panic? {
      var f := Finish(server, request.ty, action);
      var e := Replied(f, Encode(f), true);
      HistoryStep(server, log, e);
      assert log < log + [e];
    }
  }

  /** A read or write that fails inside an ask does not end the session: the handler is told, its reply is still
      written, and the next request is served. */
  lemma SessionGoesOn(server: Server, request: Frame, next: Frame, question: bytes, consumed: bytes)
    returns (log: seq<Event>)
    requires Fits(request) && Fits(next) && PartOfFrame(consumed)
    requires ActionFor(server, request, []) == Query(question)
    requires ActionFor(server, request, [None]).Return? || ActionFor(server, request, [None]).Fail?
    ensures PhaseAfter(server, log) == Some(Serving(next, []))
    ensures |log| == 5 && log[2] == AskBroken(consumed) && log[3].Replied? && log[4] == Received(next)
  {
    var reply := Finish(server, request.ty, ActionFor(server, request, [None]));
    var none: Option<bytes> := None;
    assert [] + [none] == [none];
    log := GoOn(server, [], Received(request));
    log := GoOn(server, log, Asked(question, Encode(Question(question))));
    log := GoOn(server, log, AskBroken(consumed));
    log := GoOn(server, log, Replied(reply, Encode(reply), true));
    log := GoOn(server, log, Received(next));
  }

  lemma GoOn(server: Server, log: seq<Event>, e: Event) returns (next: seq<Event>)
    requires PhaseAfter(server, log).Some?
    ensures next == log + [e] && PhaseAfter(server, next) == Next(server, PhaseAfter(server, log).value, e)
  {
    next := log + [e];
    HistoryStep(server, log, e);
  }

  // ----- Staying aligned -----

  /** A sequence of complete frames. */
  predicate Whole(b: bytes) {
    DecodeAll(b).1 == []
  }

  predicate OneFrame(b: bytes) {
    |b| >= HEADER_LEN && |b| == HEADER_LEN + LengthOf(b[..HEADER_LEN])
  }

  lemma {:induction false} DecodedIsAll(b: bytes)
    ensures AllFit(DecodeAll(b).0) && b == EncodeAll(DecodeAll(b).0) + DecodeAll(b).1
    decreases |b|
  {
    if DecodeOne(b).Some? {
      var (f, rest) := DecodeOne(b).value;
      DecodedIsEncoded(b);
      DecodedIsAll(rest);
      var (fs, tail) := DecodeAll(rest);
      EncodeFirst([f] + fs);
      assert ([f] + fs)[1..] == fs;
      ConcatAssociative(Encode(f), EncodeAll(fs), tail);
    } else {
      assert EncodeAll([]) + b == b;
    }
  }

  /** At a frame boundary, what follows is decoded as if it stood alone. */
  lemma {:induction false} WholeThen(a: bytes, b: bytes)
    requires Whole(a)
    ensures Whole(a + b) <==> Whole(b)
  {
    var fs := DecodeAll(a).0;
    var (more, tail) := DecodeAll(b);
    DecodedIsAll(a);
    assert a == EncodeAll(fs);
    StreamFidelity(fs, b, more, tail);
  }

  /** A part of one frame is at a boundary exactly when it is nothing or all of it. */
  lemma PartIsWholeIff(b: bytes)
    requires PartOfFrame(b)
    ensures Whole(b) <==> b == [] || OneFrame(b)
  {
    if OneFrame(b) {
      var end := HEADER_LEN + LengthOf(b[..HEADER_LEN]);
      assert b[end..] == [];
      assert DecodeOne(b) == Some((Frame(b[0], b[HEADER_LEN..end]), []));
      assert DecodeAll([]) == ([], []);
    } else {
      assert DecodeOne(b).None?;
    }
  }

  lemma PrefixIsPart(f: Frame, b: bytes)
    requires Fits(f) && b <= Encode(f)
    ensures PartOfFrame(b) && (OneFrame(b) <==> b == Encode(f))
  {
    LengthSurvives(f.ty, |f.payload|);
    if |b| >= HEADER_LEN { assert b[..HEADER_LEN] == Header(f.ty, |f.payload|); }
  }

  /** The frames an event puts on the stream can be carried. */
  predicate OutFits(e: Event) {
    (e.Asked? ==> Fits(Question(e.question))) && (e.Replied? ==> Fits(e.frame))
  }

  /** An ask or a reply moved whole frames or nothing. */
  predicate MovedWhole(e: Event) {
    match e
    case Asked(question, written) => written == [] || written == Encode(Question(question))
    case AskBroken(consumed) => consumed == [] || OneFrame(consumed)
    case Replied(frame, written, _) => written == [] || written == Encode(frame)
    case _ => true
  }

  predicate AlignedAt(log: seq<Event>, k: nat)
    requires k <= |log|
  {
    Whole(BytesIn(log[..k])) && Whole(BytesOut(log[..k]))
  }

  lemma {:induction false} EventWholeIff(server: Server, phase: Phase, e: Event)
    requires Next(server, phase, e).Some? && OutFits(e)
    ensures Whole(TakenBy(e)) && Whole(PutBy(e)) <==> MovedWhole(e)
  {
    match e {
      case Received(f) => PrefixIsPart(f, Encode(f)); PartIsWholeIff(Encode(f));
      case Answered(f) => PrefixIsPart(f, Encode(f)); PartIsWholeIff(Encode(f));
      case AskBroken(consumed) => PartIsWholeIff(consumed);
      case Asked(question, written) => PrefixIsPart(Question(question), written); PartIsWholeIff(written);
      case Replied(f, written, _) => PrefixIsPart(f, written); PartIsWholeIff(written);
    }
  }

  predicate Aligned(log: seq<Event>) {
    forall k :: 0 <= k <= |log| ==> AlignedAt(log, k)
  }

  lemma {:induction false} SamePrefix(log: seq<Event>, k: nat)
    requires k < |log|
    ensures AlignedAt(log, k) <==> AlignedAt(log[..|log| - 1], k)
  {
    assert log[..k] == log[..|log| - 1][..k];
  }

  lemma {:induction false} AlignedExtends(log: seq<Event>)
    requires log != []
    ensures Aligned(log) <==> Aligned(log[..|log| - 1]) && AlignedAt(log, |log|)
  {
    var init := log[..|log| - 1];
    if Aligned(log) {
      forall k | 0 <= k <= |init|
        ensures AlignedAt(init, k)
      {
        SamePrefix(log, k);
      }
    }
    if Aligned(init) && AlignedAt(log, |log|) {
      forall k | 0 <= k <= |log|
        ensures AlignedAt(log, k)
      {
        if k < |log| { SamePrefix(log, k); }
      }
    }
  }

  lemma {:induction false} AlignedStep(server: Server, log: seq<Event>)
    requires log != [] && PhaseAfter(server, log).Some? && OutFits(log[|log| - 1])
    requires AlignedAt(log[..|log| - 1], |log| - 1)
    ensures AlignedAt(log, |log|) <==> MovedWhole(log[|log| - 1])
  {
    var init, e := log[..|log| - 1], log[|log| - 1];
    assert log[..|log|] == log && init[..|init|] == init;
    EventWholeIff(server, PhaseAfter(server, init).value, e);
    WholeThen(BytesIn(init), TakenBy(e));
    WholeThen(BytesOut(init), PutBy(e));
  }

  lemma AlignedStart()
    ensures Aligned([])
  {
    var none: seq<Event> := [];
    assert none[..0] == none;
  }

  predicate AllMovedWhole(log: seq<Event>) {
    forall i :: 0 <= i < |log| ==> MovedWhole(log[i])
  }

  lemma {:induction false} MovedExtends(log: seq<Event>)
    requires log != []
    ensures AllMovedWhole(log) <==> AllMovedWhole(log[..|log| - 1]) && MovedWhole(log[|log| - 1])
  {
    assert forall i :: 0 <= i < |log| - 1 ==> log[i] == log[..|log| - 1][i];
  }

  /** When the connection stays in step: both directions are at a frame boundary after every event exactly when every
      ask, broken or not, and every reply moved whole frames or nothing. */
  lemma {:induction false} AlignedIff(server: Server, log: seq<Event>)
    requires PhaseAfter(server, log).Some? && forall i :: 0 <= i < |log| ==> OutFits(log[i])
    ensures Aligned(log) <==> AllMovedWhole(log)
  {
    if log == [] {
      AlignedStart();
    } else {
      var init := log[..|log| - 1];
      AlignedIff(server, init);
      calc {
        Aligned(log);
      <==> { AlignedExtends(log); }
        Aligned(init) && AlignedAt(log, |log|);
      <==> { if Aligned(init) { assert AlignedAt(init, |init|); AlignedStep(server, log); } }
        Aligned(init) && MovedWhole(log[|log| - 1]);
      <==> { MovedExtends(log); }
        AllMovedWhole(log);
      }
    }
  }

  // ----- Frames over a connection -----

  /** The bytes of a complete frame are its encoding. */
  lemma DecodedIsEncoded(stream: bytes)
    requires DecodeOne(stream).Some?
    ensures var (f, rest) := DecodeOne(stream).value;
      Fits(f) && stream == Encode(f) + rest && |rest| + HEADER_LEN <= |stream|
  {
    var header := stream[..HEADER_LEN];
    HeaderOfLength(header);
    var end := HEADER_LEN + LengthOf(header);
    assert stream == header + stream[HEADER_LEN..end] + stream[end..];
  }

  /** A read loop with the check that follows it: the buffer is filled with the next bytes of the stream, or some
      of them are gone. */
  method Fill(c: Conn, b: array<byte>) returns (ok: bool, got: nat)
    modifies c`incoming, c`readScript, b
    ensures got <= b.Length && got <= |old(c.incoming)| && (ok ==> got == b.Length)
    ensures b[..got] == old(c.incoming)[..got] && c.incoming == old(c.incoming)[got..]
    ensures ok && b.Length > 0 ==> |c.readScript| < |old(c.readScript)|
    ensures |c.readScript| <= |old(c.readScript)|
    ensures Flowing(old(c.readScript)) && |old(c.readScript)| >= |old(c.incoming)| >= b.Length ==>
              ok && Flowing(c.readScript) && |c.readScript| >= |c.incoming|
    ensures b.Length > 0 ==> Lasts(old(c.readScript), c.readScript, !ok)
    ensures b.Length == 0 ==> ok && c.readScript == old(c.readScript)
  {
    var n, err := ReadBytes(c, b, b.Length);
    ok, got := !ReadErr(n, err, b.Length), n;
  }

  /** A header and a payload are read, each with its own loop. A frame is returned exactly as it is decoded
      off the stream, and is missing only if the stream or the connection ended first; then a part of it, `taken`,
      is gone. */
  method ReadFrame(c: Conn) returns (f: Option<Frame>, ghost taken: bytes)
    modifies c`incoming, c`readScript
    ensures f.Some? ==>
      DecodeOne(old(c.incoming)) == Some((f.value, c.incoming)) && |c.readScript| < |old(c.readScript)|
    ensures f.Some? ==> Fits(f.value) && taken == Encode(f.value)
    ensures old(c.incoming) == taken + c.incoming && PartOfFrame(taken)
    ensures |c.readScript| <= |old(c.readScript)|
    ensures Flowing(old(c.readScript)) && |old(c.readScript)| >= |old(c.incoming)| ==>
              (f.Some? <==> DecodeOne(old(c.incoming)).Some?) &&
              (f.Some? ==> Flowing(c.readScript) && |c.readScript| >= |c.incoming|)
    ensures Lasts(old(c.readScript), c.readScript, f.None?)
  {
    ghost var stream := c.incoming;
    var header := new byte[HEADER_LEN];
    var ok, got := Fill(c, header);
    taken := stream[..got];
    if !ok { return None, taken; }
    var ty := header[0];
    header[0] := 0;
    var length := GetUint32(header[..]);
    assert header[..] == stream[..HEADER_LEN][0 := 0];
    var buf := new byte[length];
    ok, got := Fill(c, buf);
    PartsOfStream(stream, HEADER_LEN, got);
    taken := stream[..HEADER_LEN + got];
    assert taken[..HEADER_LEN] == stream[..HEADER_LEN];
    if !ok { return None, taken; }
    assert buf[..got] == buf[..];
    f := Some(Frame(ty, buf[..]));
    WholeOfStream(stream, f.value, c.incoming);
  }

  lemma PartsOfStream(stream: bytes, start: nat, length: nat)
    requires start + length <= |stream|
    ensures stream[start..][..length] == stream[start..start + length]
    ensures stream[start..][length..] == stream[start + length..]
  {}

  lemma WholeOfStream(stream: bytes, f: Frame, rest: bytes)
    requires DecodeOne(stream) == Some((f, rest))
    ensures Fits(f) && |Encode(f)| <= |stream| && stream[..|Encode(f)|] == Encode(f)
  {
    DecodedIsEncoded(stream);
  }

  /** A header and a payload are written, each with its own loop; `written` is what leaves. */
  method WriteFrame(c: Conn, f: Frame) returns (ok: bool, ghost written: bytes)
    modifies c`outgoing, c`writeScript
    ensures c.outgoing == old(c.outgoing) + written && written <= Encode(f)
    ensures ok ==> written == Encode(f)
    ensures Lasts(old(c.writeScript), c.writeScript, !ok)
  {
    var header := Header(f.ty, |f.payload|);
    var n, err := WriteBytes(c, header);
    written := header[..n];
    if err.Some? { return false, written; }
    var m, err' := WriteBytes(c, f.payload);
    written := header + f.payload[..m];
    return err'.None?, written;
  }

  /** `askExtraInfo`: the question goes out as an ExtraInfo frame; the type of the answer is not looked at. Nothing
      is read unless the question was written in full. */
  method AskExtraInfo(c: Conn, question: bytes)
    returns (answer: Option<Frame>, ghost written: bytes, ghost consumed: bytes)
    modifies c`incoming, c`outgoing, c`readScript, c`writeScript
    ensures c.outgoing == old(c.outgoing) + written && written <= Encode(Question(question))
    ensures old(c.incoming) == consumed + c.incoming && PartOfFrame(consumed)
    ensures written != Encode(Question(question)) ==> consumed == []
    ensures answer.Some? ==>
      && DecodeOne(old(c.incoming)) == Some((answer.value, c.incoming)) && Fits(answer.value)
      && written == Encode(Question(question)) && consumed == Encode(answer.value)
    ensures |c.readScript| <= |old(c.readScript)|
    ensures Flowing(old(c.readScript)) && |old(c.readScript)| >= |old(c.incoming)| && answer.Some? ==>
              Flowing(c.readScript) && |c.readScript| >= |c.incoming|
    ensures Failing(old(c.readScript)) || Failing(old(c.writeScript)) ==> answer.None?
    ensures Failing(old(c.readScript)) ==> Failing(c.readScript)
    ensures Failing(old(c.writeScript)) ==> Failing(c.writeScript)
    ensures Sticky(old(c.readScript)) && Sticky(old(c.writeScript)) ==>
      Sticky(c.readScript) && Sticky(c.writeScript) &&
      (answer.None? ==> Failing(c.readScript) || Failing(c.writeScript))
  {
    var ok;
    consumed := [];
    ok, written := WriteFrame(c, Question(question));
    if !ok {
      assert c.incoming == [] + c.incoming;
      return None, written, consumed;
    }
    answer, consumed := ReadFrame(c);
  }

  // ----- The serving loop -----

  predicate Intact(log: seq<Event>) {
    forall i :: 0 <= i < |log| ==> !log[i].AskBroken?
  }

  lemma {:induction false} IntactExtends(log: seq<Event>, e: Event)
    ensures Intact(log + [e]) <==> Intact(log) && !e.AskBroken?
  {
    assert (log + [e])[|log|] == e && forall i :: 0 <= i < |log| ==> (log + [e])[i] == log[i];
  }

  /** Every byte that was read or written is in the log. */
  ghost predicate Accounted(c: Conn, log: seq<Event>, stream: bytes, written: bytes)
    reads c
  {
    stream == BytesIn(log) + c.incoming && c.outgoing == written + BytesOut(log)
  }

  lemma {:induction false} Account(server: Server, log: seq<Event>, e: Event, stream: bytes, written: bytes,
                in0: bytes, in1: bytes, out0: bytes, out1: bytes)
    requires PhaseAfter(server, log).Some?
    requires stream == BytesIn(log) + in0 && out0 == written + BytesOut(log)
    requires in0 == TakenBy(e) + in1 && out1 == out0 + PutBy(e)
    ensures stream == BytesIn(log + [e]) + in1 && out1 == written + BytesOut(log + [e])
    ensures PhaseAfter(server, log + [e]) == Next(server, PhaseAfter(server, log).value, e)
  {
    HistoryStep(server, log, e);
    ConcatAssociative(BytesIn(log), TakenBy(e), in1);
    ConcatAssociative(written, BytesOut(log), PutBy(e));
  }

  /** No read will fail before all that was sent has been read. */
  ghost predicate Ample(c: Conn)
    reads c
  {
    Flowing(c.readScript) && |c.readScript| >= |c.incoming|
  }

  /** With lasting errors, an ask that broke leaves a direction that fails from then on. */
  ghost predicate BrokenFails(c: Conn, log: seq<Event>)
    reads c
  {
    && Sticky(c.readScript) && Sticky(c.writeScript)
    && (Intact(log) || Failing(c.readScript) || Failing(c.writeScript))
  }

  /** No request is received after an ask that broke. */
  predicate NoneAfterBreak(log: seq<Event>) {
    forall i, j :: 0 <= i < j < |log| && log[i].AskBroken? ==> !log[j].Received?
  }

  lemma {:induction false} NoneAfterKept(log0: seq<Event>, f: Frame, log: seq<Event>)
    requires Intact(log0) && Extends(log0 + [Received(f)], log)
    ensures NoneAfterBreak(log)
  {
    var log1 := log0 + [Received(f)];
    assert forall i :: 0 <= i < |log1| ==> log[i] == log1[i];
    assert forall i :: 0 <= i < |log0| ==> log1[i] == log0[i];
  }

  /** Whether `reply` is how the request in progress ends; a panic leaves no reply. */
  predicate EndsWith(server: Server, phase: Option<Phase>, request: Frame, reply: Option<Frame>) {
    phase.Some? && phase.value.Serving? && phase.value.request == request &&
    var action := ActionFor(server, request, phase.value.answers);
    if reply.None? then action.Panic?
    else (action.Return? || action.Fail?) && reply.value == Finish(server, request.ty, action)
  }

  /** `dispatchRPC` with the asks its handler makes on the way. */
  method Dispatch(c: Conn, server: Server, request: Frame, ghost log0: seq<Event>, ghost stream: bytes,
                  ghost written: bytes)
    returns (ghost log: seq<Event>, reply: Option<Frame>)
    requires ServerHalts(server) && PhaseAfter(server, log0) == Some(Serving(request, []))
    requires Accounted(c, log0, stream, written)
    modifies c`incoming, c`outgoing, c`readScript, c`writeScript
    ensures EndsWith(server, PhaseAfter(server, log), request, reply) && Accounted(c, log, stream, written)
    ensures Extends(log0, log)
    ensures Intact(log) && old(Ample(c)) ==> Ample(c)
    ensures old(BrokenFails(c, log0)) ==> BrokenFails(c, log)
    ensures |c.readScript| <= |old(c.readScript)|
  {
    log := log0;
    var handler := Lookup(server, request.ty);
    if handler.None? {
      return log, Some(Finish(server, request.ty, Fail(BadRequest)));
    }
    var answers: seq<Option<bytes>> := [];
    var action := handler.value.act(request.payload, answers);
    while action.Query?
      invariant PhaseAfter(server, log) == Some(Serving(request, answers)) && Accounted(c, log, stream, written)
      invariant action == ActionFor(server, request, answers)
      invariant Extends(log0, log)
      invariant Intact(log) && old(Ample(c)) ==> Ample(c)
      invariant old(BrokenFails(c, log0)) ==> BrokenFails(c, log)
      invariant |c.readScript| <= |old(c.readScript)|
      decreases handler.value.asks - |answers|
    {
      var answer;
      log, answer := Exchange(c, server, log, request, answers, action.question, stream, written);
      answers := answers + [answer];
      action := handler.value.act(request.payload, answers);
    }
    reply := if action.Panic? then None else Some(Finish(server, request.ty, action));
  }

  /** The log goes on without a new request. */
  predicate Extends(log0: seq<Event>, log: seq<Event>) {
    log0 <= log && forall i :: |log0| <= i < |log| ==> !log[i].Received?
  }

  lemma {:induction false} ExtendsTwice(a: seq<Event>, b: seq<Event>, c: seq<Event>)
    requires Extends(a, b) && Extends(b, c)
    ensures Extends(a, c)
  {
    assert forall i :: 0 <= i < |b| ==> b[i] == c[i];
  }

  /** An ask in the log: its question, and its answer or its end. */
  lemma {:induction false} LogAsk(server: Server, log0: seq<Event>, request: Frame, answers: seq<Option<bytes>>,
                                  question: bytes, asked: bytes, second: Event, stream: bytes, written: bytes,
                                  in0: bytes, in1: bytes, out0: bytes, out1: bytes)
    requires PhaseAfter(server, log0) == Some(Serving(request, answers))
    requires ActionFor(server, request, answers) == Query(question) && asked <= Encode(Question(question))
    requires second.Answered? || second.AskBroken?
    requires Next(server, Asking(request, answers, asked == Encode(Question(question))), second).Some?
    requires stream == BytesIn(log0) + in0 && out0 == written + BytesOut(log0)
    requires in0 == TakenBy(second) + in1 && out1 == out0 + asked
    ensures var log := log0 + [Asked(question, asked)] + [second];
      && PhaseAfter(server, log) == Next(server, Asking(request, answers, asked == Encode(Question(question))), second)
      && stream == BytesIn(log) + in1 && out1 == written + BytesOut(log)
      && Extends(log0, log) && (Intact(log) <==> Intact(log0) && !second.AskBroken?)
  {
    var first := Asked(question, asked);
    assert in0 == [] + in0 && out1 == out1 + [];
    Account(server, log0, first, stream, written, in0, in0, out0, out1);
    Account(server, log0 + [first], second, stream, written, in0, in1, out1, out1);
    IntactExtends(log0, first);
    IntactExtends(log0 + [first], second);
  }

  /** One ask, answered or broken. */
  method Exchange(c: Conn, server: Server, ghost log0: seq<Event>, request: Frame, ghost answers: seq<Option<bytes>>,
                  question: bytes, ghost stream: bytes, ghost written: bytes)
    returns (ghost log: seq<Event>, answer: Option<bytes>)
    requires PhaseAfter(server, log0) == Some(Serving(request, answers)) && Accounted(c, log0, stream, written)
    requires ActionFor(server, request, answers) == Query(question)
    modifies c`incoming, c`outgoing, c`readScript, c`writeScript
    ensures PhaseAfter(server, log) == Some(Serving(request, answers + [answer])) && Accounted(c, log, stream, written)
    ensures Extends(log0, log) && (Intact(log) <==> Intact(log0) && answer.Some?)
    ensures answer.Some? && old(Ample(c)) ==> Ample(c)
    ensures old(BrokenFails(c, log0)) ==> BrokenFails(c, log)
    ensures |c.readScript| <= |old(c.readScript)|
  {
    ghost var in0, out0 := c.incoming, c.outgoing;
    var frame;
    ghost var asked, consumed;
    frame, asked, consumed := AskExtraInfo(c, question);
    ghost var second := if frame.Some? then Answered(frame.value) else AskBroken(consumed);
    LogAsk(server, log0, request, answers, question, asked, second, stream, written, in0, c.incoming, out0, c.outgoing);
    log := log0 + [Asked(question, asked)] + [second];
    answer := if frame.Some? then Some(frame.value.payload) else None;
  }

  datatype End = ReadFailed | WriteFailed | Panicked

  /** `handleConn`. The log is a history of the server, whatever the pieces the bytes come and go in, and accounts for
      every byte. A failed read or write of this loop, or a panic, ends the session; a failed one inside an ask does
      not, but when errors last, no request is received after it. `cut` is what a last, incomplete read took. */
  method HandleConn(c: Conn, server: Server) returns (ghost log: seq<Event>, end: End, ghost cut: bytes)
    requires ServerHalts(server)
    modifies c`incoming, c`outgoing, c`readScript, c`writeScript
    ensures PhaseAfter(server, log).Some?
    ensures old(c.incoming) == BytesIn(log) + (cut + c.incoming) && c.outgoing == old(c.outgoing) + BytesOut(log)
    ensures PartOfFrame(cut) && (!end.ReadFailed? ==> cut == [])
    ensures end.ReadFailed? <==> PhaseAfter(server, log).value.Idle?
    ensures end.WriteFailed? <==> PhaseAfter(server, log).value.Closed?
    ensures end.Panicked? ==>
      PhaseAfter(server, log).value.Serving? &&
      EndsWith(server, PhaseAfter(server, log), PhaseAfter(server, log).value.request, None)
    ensures Intact(log) && old(Ample(c)) && end.ReadFailed? ==> Inbound(log) == DecodeAll(old(c.incoming)).0
    ensures old(Sticky(c.readScript) && Sticky(c.writeScript)) ==> NoneAfterBreak(log)
  {
    ghost var stream, written := c.incoming, c.outgoing;
    log := [];
    assert [] + stream == stream && written + [] == written;
    while true
      invariant PhaseAfter(server, log) == Some(Idle) && Accounted(c, log, stream, written)
      invariant Intact(log) && old(Ample(c)) ==> Ample(c)
      invariant old(Sticky(c.readScript) && Sticky(c.writeScript)) ==>
        BrokenFails(c, log) && NoneAfterBreak(log) && (Intact(log) || Failing(c.readScript))
      decreases |c.readScript|
    {
      var frame, failure;
      log, frame, cut := Receive(c, server, log, stream, written);
      if frame.None? {
        return log, ReadFailed, cut;
      }
      ghost var before := log[..|log| - 1];
      log, failure := Serve(c, server, frame.value, log, stream, written);
      if Intact(before) { NoneAfterKept(before, frame.value, log); }
      if failure.Some? {
        assert [] + c.incoming == c.incoming;
        return log, failure.value, [];
      }
    }
  }

  /** The reads at the head of the loop. */
  method Receive(c: Conn, server: Server, ghost log0: seq<Event>, ghost stream: bytes, ghost written: bytes)
    returns (ghost log: seq<Event>, frame: Option<Frame>, ghost cut: bytes)
    requires PhaseAfter(server, log0) == Some(Idle) && Accounted(c, log0, stream, written)
    modifies c`incoming, c`readScript
    ensures frame.None? ==> log == log0 && stream == BytesIn(log) + (cut + c.incoming) && PartOfFrame(cut)
    ensures frame.None? && Intact(log) && old(Ample(c)) ==> Inbound(log) == DecodeAll(stream).0
    ensures frame.Some? ==> log == log0 + [Received(frame.value)] && |c.readScript| < |old(c.readScript)| &&
                            PhaseAfter(server, log) == Some(Serving(frame.value, [])) &&
                            Accounted(c, log, stream, written)
    ensures frame.Some? && old(Ample(c)) ==> Ample(c)
    ensures old(Failing(c.readScript)) ==> frame.None?
    ensures old(Sticky(c.readScript)) ==> Sticky(c.readScript)
  {
    ghost var unread := c.incoming;
    frame, cut := ReadFrame(c);
    if frame.None? {
      log := log0;
      if Intact(log) && old(Ample(c)) { AllReceived(server, log, stream, unread); }
    } else {
      ghost var e := Received(frame.value);
      assert c.outgoing == c.outgoing + [];
      Account(server, log0, e, stream, written, unread, c.incoming, c.outgoing, c.outgoing);
      log := log0 + [e];
    }
  }

  lemma FramesAreBytes(fs: seq<Frame>, e: Event)
    requires AllFit(fs) && !e.AskBroken? && (e.Received? || e.Answered? ==> Fits(e.frame))
    ensures AllFit(fs + FramesOf(e)) && EncodeAll(fs + FramesOf(e)) == EncodeAll(fs) + TakenBy(e)
  {
    if e.Received? || e.Answered? {
      EncodeAppend(fs, e.frame);
    } else {
      assert fs + [] == fs && EncodeAll(fs) + [] == EncodeAll(fs);
    }
  }

  /** While no ask has broken, what was read is the frames received and answered. */
  lemma {:induction false} IntactBytes(server: Server, log: seq<Event>)
    requires PhaseAfter(server, log).Some? && Intact(log)
    ensures AllFit(Inbound(log)) && BytesIn(log) == EncodeAll(Inbound(log))
  {
    if log != [] {
      var init, e := log[..|log| - 1], log[|log| - 1];
      IntactExtends(init, e);
      assert init + [e] == log;
      IntactBytes(server, init);
      FramesAreBytes(Inbound(init), e);
    }
  }

  lemma {:induction false} AllReceived(server: Server, log: seq<Event>, stream: bytes, unread: bytes)
    requires PhaseAfter(server, log).Some? && Intact(log) && stream == BytesIn(log) + unread
    requires DecodeOne(unread).None?
    ensures Inbound(log) == DecodeAll(stream).0
  {
    IntactBytes(server, log);
    StreamFidelity(Inbound(log), unread, [], unread);
    assert Inbound(log) + [] == Inbound(log);
  }

  /** The writes at the end of the loop. */
  method Send(c: Conn, server: Server, ghost log0: seq<Event>, ghost request: Frame, reply: Frame,
              ghost stream: bytes, ghost written: bytes)
    returns (ghost log: seq<Event>, ok: bool)
    requires EndsWith(server, PhaseAfter(server, log0), request, Some(reply)) && Accounted(c, log0, stream, written)
    modifies c`outgoing, c`writeScript
    ensures Extends(log0, log) && (Intact(log) <==> Intact(log0))
    ensures PhaseAfter(server, log) == Some(if ok then Idle else Closed) && Accounted(c, log, stream, written)
    ensures old(Failing(c.writeScript)) ==> !ok
    ensures old(Sticky(c.writeScript)) ==> Sticky(c.writeScript)
  {
    ghost var sent, out0 := [], c.outgoing;
    ok, sent := WriteFrame(c, reply);
    ghost var e := Replied(reply, sent, ok);
    assert c.incoming == [] + c.incoming;
    Account(server, log0, e, stream, written, c.incoming, c.incoming, out0, c.outgoing);
    log := log0 + [e];
    IntactExtends(log0, e);
  }

  /** The rest of the loop's body: dispatch the request and write its reply. */
  method Serve(c: Conn, server: Server, request: Frame, ghost log0: seq<Event>, ghost stream: bytes,
               ghost written: bytes)
    returns (ghost log: seq<Event>, failure: Option<End>)
    requires ServerHalts(server) && PhaseAfter(server, log0) == Some(Serving(request, []))
    requires Accounted(c, log0, stream, written)
    modifies c`incoming, c`outgoing, c`readScript, c`writeScript
    ensures Extends(log0, log) && Accounted(c, log, stream, written)
    ensures failure.None? ==> PhaseAfter(server, log) == Some(Idle)
    ensures failure.Some? ==> failure.value.Panicked? || failure.value.WriteFailed?
    ensures failure.Some? && failure.value.Panicked? ==> EndsWith(server, PhaseAfter(server, log), request, None)
    ensures failure.Some? && failure.value.WriteFailed? ==> PhaseAfter(server, log) == Some(Closed)
    ensures failure.None? && Intact(log) && old(Ample(c)) ==> Ample(c)
    ensures old(BrokenFails(c, log0)) && failure.None? ==> BrokenFails(c, log) && (Intact(log) || Failing(c.readScript))
    ensures |c.readScript| <= |old(c.readScript)|
  {
    var reply, ok;
    ghost var log1;
    log1, reply := Dispatch(c, server, request, log0, stream, written);
    if reply.None? {
      return log1, Some(Panicked);
    }
    log, ok := Send(c, server, log1, request, reply.value, stream, written);
    ExtendsTwice(log0, log1, log);
    failure := if ok then None else Some(WriteFailed);
  }

  /** Stream fidelity end to end: if the peer sent frames that fit and no ask broke, what a session received is a
      first part of them, in order; and if no read failed before its time, all of them. */
  lemma {:induction false} SessionFidelity(server: Server, sent: seq<Frame>, log: seq<Event>)
    requires PhaseAfter(server, log).Some? && Intact(log) && AllFit(sent) && BytesIn(log) <= EncodeAll(sent)
    ensures Inbound(log) <= sent
    ensures Inbound(log) == DecodeAll(EncodeAll(sent)).0 ==> Inbound(log) == sent
  {
    IntactBytes(server, log);
    ReceivedArePrefix(Inbound(log), sent);
    SentIsWhole(sent);
  }

  lemma SentIsWhole(sent: seq<Frame>)
    requires AllFit(sent)
    ensures DecodeAll(EncodeAll(sent)) == (sent, [])
  {
    StreamFidelity(sent, [], [], []);
    assert EncodeAll(sent) + [] == EncodeAll(sent) && sent + [] == sent;
  }
}
