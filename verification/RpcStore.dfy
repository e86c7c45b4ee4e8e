/**
 The records of JSON-RPC requests between the two phases, under every interleaving of requests: the parser accepts a
 request under an id and then tries to save its record for a minute; the response plugin later looks a record up by
 the id its response carries.
 */
module RpcStore {
  import opened Wrappers
  import opened Wire
  import opened RpcBatch
  import Responses

  /** A request the parser has accepted, and the id it gave it. */
  datatype Accepted = Accepted(o: ParserConf, body: Json, id: string)

  datatype State = State(requests: seq<Accepted>, infos: map<string, RpcInfo>)

  const START := State([], map[])

  /** A Save that Redis does not apply goes unnoticed. */
  datatype Step = Accept(request: Accepted) | Save(r: nat, applied: bool) | Expire(id: string)

  predicate Parses(request: Accepted) {
    ParseRequest(request.o, Some(request.body)).Some?
  }

  function InfoOf(request: Accepted): RpcInfo
    requires Parses(request)
  {
    ParseRequest(request.o, Some(request.body)).value.info
  }

  predicate Enabled(s: State, step: Step) {
    match step
    case Accept(request) => Parses(request)
    case Save(r, _) => r < |s.requests| && Parses(s.requests[r])
    case Expire(_) => true
  }

  function Apply(s: State, step: Step): State
    requires Enabled(s, step)
  {
    match step
    case Accept(request) => s.(requests := s.requests + [request])
    case Save(r, applied) =>
      if applied then s.(infos := s.infos[s.requests[r].id := InfoOf(s.requests[r])]) else s
    case Expire(id) => s.(infos := s.infos - {id})
  }

  predicate ValidRun(steps: seq<Step>)
    decreases |steps|, 0
  {
    steps == [] ||
    (ValidRun(steps[..|steps| - 1]) && Enabled(After(steps[..|steps| - 1]), steps[|steps| - 1]))
  }

  function After(steps: seq<Step>): State
    requires ValidRun(steps)
    decreases |steps|, 1
  {
    if steps == [] then START else Apply(After(steps[..|steps| - 1]), steps[|steps| - 1])
  }

  lemma Go(steps: seq<Step>, step: Step) returns (next: seq<Step>)
    requires ValidRun(steps) && Enabled(After(steps), step)
    ensures ValidRun(next) && After(next) == Apply(After(steps), step)
  {
    next := steps + [step];
    assert next[..|next| - 1] == steps;
  }

  predicate FreshIds(requests: seq<Accepted>) {
    forall i, j :: 0 <= i < j < |requests| ==> requests[i].id != requests[j].id
  }

  predicate AllParse(requests: seq<Accepted>) {
    forall i :: 0 <= i < |requests| ==> Parses(requests[i])
  }

  lemma {:induction false} RequestsParse(steps: seq<Step>)
    requires ValidRun(steps)
    ensures AllParse(After(steps).requests)
  {
    if steps != [] { RequestsParse(steps[..|steps| - 1]); }
  }

  /** The record of request `r` was saved and has not expired since. */
  predicate SavedStill(steps: seq<Step>, r: nat, id: string) {
    steps != [] &&
    (steps[|steps| - 1] == Save(r, true) ||
     (steps[|steps| - 1] != Expire(id) && SavedStill(steps[..|steps| - 1], r, id)))
  }

  /** Every record was saved by a request that carries its id. */
  predicate AllOwned(s: State)
    requires AllParse(s.requests)
  {
    forall id :: id in s.infos ==>
      exists r :: 0 <= r < |s.requests| && s.requests[r].id == id && s.infos[id] == InfoOf(s.requests[r])
  }

  lemma {:induction false} RecordsAreOwned(steps: seq<Step>)
    requires ValidRun(steps)
    ensures AllParse(After(steps).requests) && AllOwned(After(steps))
  {
    RequestsParse(steps);
    if steps != [] {
      var s, s' := After(steps[..|steps| - 1]), After(steps);
      RecordsAreOwned(steps[..|steps| - 1]);
      forall id | id in s'.infos
        ensures exists r :: 0 <= r < |s'.requests| && s'.requests[r].id == id && s'.infos[id] == InfoOf(s'.requests[r])
      {
        KeptOwned(s, steps[|steps| - 1], id);
      }
    }
  }

  lemma KeptOwned(s: State, step: Step, id: string)
    requires Enabled(s, step) && AllParse(s.requests) && AllParse(Apply(s, step).requests) && AllOwned(s)
    requires id in Apply(s, step).infos
    ensures var s' := Apply(s, step);
      exists r :: 0 <= r < |s'.requests| && s'.requests[r].id == id && s'.infos[id] == InfoOf(s'.requests[r])
  {
    var s' := Apply(s, step);
    if step.Save? && step.applied && s.requests[step.r].id == id {
      assert s'.requests[step.r].id == id;
    } else {
      var r :| 0 <= r < |s.requests| && s.requests[r].id == id && s.infos[id] == InfoOf(s.requests[r]);
      assert s'.requests[r] == s.requests[r];
    }
  }

  /** Requests stay what and where they are. */
  lemma RequestsStay(steps: seq<Step>)
    requires ValidRun(steps) && steps != []
    ensures After(steps[..|steps| - 1]).requests <= After(steps).requests
  {}

  /** In every interleaving with fresh ids, the record found under the id a request carries is that request's own, and
      it is found exactly while it was saved and has not expired. */
  lemma {:induction false} LoadedIsOwn(steps: seq<Step>, r: nat)
    requires ValidRun(steps) && r < |After(steps).requests| && FreshIds(After(steps).requests)
    ensures var s := After(steps);
      var request := s.requests[r];
      Parses(request) &&
      (request.id in s.infos <==> SavedStill(steps, r, request.id)) &&
      (request.id in s.infos ==> s.infos[request.id] == InfoOf(request))
  {
    var s := After(steps);
    RecordsAreOwned(steps);
    var id := s.requests[r].id;
    var before := steps[..|steps| - 1];
    var t, step := After(before), steps[|steps| - 1];
    RequestsStay(steps);
    if r < |t.requests| {
      LoadedIsOwn(before, r);
      assert t.requests[r] == s.requests[r];
      if step.Save? && step.applied && t.requests[step.r].id == id {
        assert step.r == r;
      }
    } else {
      NotYetSaved(before, r, id);
      assert id !in t.infos by { NobodysRecord(before, id); }
    }
  }

  lemma {:induction false} NotYetSaved(steps: seq<Step>, r: nat, id: string)
    requires ValidRun(steps) && r >= |After(steps).requests|
    ensures !SavedStill(steps, r, id)
  {
    if steps != [] {
      RequestsStay(steps);
      NotYetSaved(steps[..|steps| - 1], r, id);
    }
  }

  lemma NobodysRecord(steps: seq<Step>, id: string)
    requires ValidRun(steps) && forall i :: 0 <= i < |After(steps).requests| ==> After(steps).requests[i].id != id
    ensures id !in After(steps).infos
  {
    RecordsAreOwned(steps);
  }

  // ----- When records can cross -----

  /** Every record that is found under a request's id is that request's. */
  predicate NoneCrosses(s: State)
    requires AllParse(s.requests)
  {
    forall r :: 0 <= r < |s.requests| && s.requests[r].id in s.infos ==>
      s.infos[s.requests[r].id] == InfoOf(s.requests[r])
  }

  predicate SameIdSameRecord(requests: seq<Accepted>)
    requires AllParse(requests)
  {
    forall i, j :: 0 <= i < |requests| && 0 <= j < |requests| && requests[i].id == requests[j].id ==>
      InfoOf(requests[i]) == InfoOf(requests[j])
  }

  ghost predicate NeverCrosses(requests: seq<Accepted>)
    requires AllParse(requests)
  {
    forall steps :: ValidRun(steps) && After(steps).requests == requests ==> NoneCrosses(After(steps))
  }

  lemma {:induction false} AcceptAll(requests: seq<Accepted>) returns (steps: seq<Step>)
    requires AllParse(requests)
    ensures ValidRun(steps) && After(steps) == State(requests, map[])
    decreases |requests|
  {
    steps := [];
    if requests != [] {
      var n := |requests| - 1;
      steps := AcceptAll(requests[..n]);
      steps := Go(steps, Accept(requests[n]));
      assert requests[..n] + [requests[n]] == requests;
    }
  }

  /** Whatever the ids, requests are safe in every interleaving exactly when those that share an id have the same
      record. The plugin mints the id of each request just before it saves, so sharing one takes a repeated uuid. */
  lemma {:induction false} NeverCrossesIff(requests: seq<Accepted>)
    requires AllParse(requests)
    ensures NeverCrosses(requests) <==> SameIdSameRecord(requests)
  {
    if SameIdSameRecord(requests) {
      forall steps | ValidRun(steps) && After(steps).requests == requests
        ensures NoneCrosses(After(steps))
      {
        RecordsAreOwned(steps);
      }
    } else {
      var i, j :| 0 <= i < |requests| && 0 <= j < |requests| && requests[i].id == requests[j].id &&
        InfoOf(requests[i]) != InfoOf(requests[j]);
      var steps := AcceptAll(requests);
      steps := Go(steps, Save(j, true));
      assert After(steps).requests == requests && !NoneCrosses(After(steps));
    }
  }

  // ----- End to end -----

  /** `reply` answers every message of `body`, in order, with an error that carries the message's own id and version;
      it is a list exactly when the body was one. */
  predicate AnswersAll(reply: ErrorReply, body: Json, upstream: bytes) {
    var errors := if reply.ErrorList? then reply.errors else [reply.error];
    var ms := MessagesOf(body);
    && (reply.ErrorList? <==> body.List?)
    && |errors| == |ms|
    && forall i :: 0 <= i < |ms| ==>
         errors[i] == ErrorMessage(ms[i].version, ms[i].id, -32001, upstream, "upstrem status: 400")
  }

  lemma RebuiltAnswersAll(request: Accepted, upstream: bytes)
    requires Parses(request)
    ensures var info := InfoOf(request);
      (info.isBatchRpc || info.items != []) && AnswersAll(RebuildErrors(info, upstream), request.body, upstream)
  {
    BatchIdentity(request.o, request.body, upstream);
    assert request.body.One? ==> MessagesOf(request.body)[0] == request.body.message;
  }

  function Lookup(s: State, id: string): Option<RpcInfo> {
    if id in s.infos then Some(s.infos[id]) else None
  }

  /** Across the phases, in every interleaving with fresh ids: a response that failed upstream, for whatever accepted
      request, is rewritten to status 200 and one error for each of that request's messages exactly when the upstream
      body can be read and the request's record was saved and has not expired; otherwise it is left as it is. */
  lemma {:induction false} FailedUpstream(steps: seq<Step>, r: nat, st: Responses.State, upstream: Option<bytes>,
                                          encode: ErrorReply -> bytes)
    requires ValidRun(steps) && r < |After(steps).requests| && FreshIds(After(steps).requests)
    requires st.statusCode == 0 && st.body.None? && st.msg.status >= 400
    ensures var s := After(steps);
      var request := s.requests[r];
      var found := Lookup(s, request.id);
      (found.Some? ==> found.value.isBatchRpc || found.value.items != []) &&
      if upstream.Some? && SavedStill(steps, r, request.id) then
        exists reply :: AnswersAll(reply, request.body, upstream.value) &&
          Rewritten(st, upstream, found, encode) == (200, Some(encode(reply)))
      else Rewritten(st, upstream, found, encode) == (0, None)
  {
    var s := After(steps);
    var request := s.requests[r];
    LoadedIsOwn(steps, r);
    RebuiltAnswersAll(request, if upstream.Some? then upstream.value else []);
    if upstream.Some? && SavedStill(steps, r, request.id) {
      var reply := RebuildErrors(InfoOf(request), upstream.value);
      assert [] + encode(reply) == encode(reply);
    }
  }

  /** A response that succeeded upstream is passed on under its own status, with the body that was read, whatever is
      stored; without a body it is left as it is. */
  lemma SucceededUpstream(st: Responses.State, upstream: Option<bytes>, stored: Option<RpcInfo>,
                          encode: ErrorReply -> bytes)
    requires st.statusCode == 0 && st.body.None? && st.msg.status < 400
    requires stored.Some? ==> stored.value.isBatchRpc || stored.value.items != []
    ensures Rewritten(st, upstream, stored, encode) == (0, upstream)
  {
    assert upstream.Some? ==> [] + upstream.value == upstream.value;
  }
}
