/** The ReqResponse with which a request plugin answers in place of the upstream. */
module ReqResponses {
  import opened Wrappers
  import opened Wire
  import opened Patch

  datatype State = State(hdr: Values, body: Option<bytes>, code: int)

  const EMPTY := State(map[], None, 0)

  /** A body, even an empty one, or a status; headers alone do not count. */
  predicate IsChanged(st: State) {
    st.body.Some? || st.code != 0
  }

  datatype Op =
    | SetHeader(name: string, value: string)
    | AddHeader(name: string, value: string)
    | DelHeader(name: string)
    | Write(data: bytes)
    | WriteHeader(code: int)

  function Exec(st: State, op: Op): State {
    match op
    case SetHeader(name, value) => st.(hdr := st.hdr[name := [value]])
    case AddHeader(name, value) => st.(hdr := Add(st.hdr, name, value))
    case DelHeader(name) => st.(hdr := st.hdr - {name})
    case Write(data) => st.(body := Some((if st.body.Some? then st.body.value else []) + data))
    case WriteHeader(code) => if st.code != 0 then st else st.(code := code)
  }

  /** The stop message. The status travels as uint16; a body without bytes is absent. */
  datatype Stop = Stop(status: nat, headers: seq<Entry>, body: bytes)

  /** `stop` says what `st` asks for, with the headers in some order of the names. */
  ghost predicate Stops(st: State, stop: Stop) {
    && IsChanged(st)
    && stop.status == (if st.code == 0 then 200 else st.code % 0x1_0000)
    && (forall name :: Project(stop.headers, name) == FlatWant(st.hdr, name))
    && stop.body == (if st.body.Some? then st.body.value else [])
  }

  class ReqResponse {
    var hdr: Values
    var body: Option<bytes>
    var code: int

    function View(): State
      reads this
    {
      State(hdr, body, code)
    }

    constructor ()
      ensures View() == EMPTY
    {
      hdr, body, code := map[], None, 0;
    }

    method SetHeader(name: string, value: string)
      modifies this`hdr
      ensures View() == Exec(old(View()), Op.SetHeader(name, value))
    {
      hdr := hdr[name := [value]];
    }

    method AddHeader(name: string, value: string)
      modifies this`hdr
      ensures View() == Exec(old(View()), Op.AddHeader(name, value))
    {
      hdr := Add(hdr, name, value);
    }

    method DelHeader(name: string)
      modifies this`hdr
      ensures View() == Exec(old(View()), Op.DelHeader(name))
    {
      hdr := hdr - {name};
    }

    method Write(data: bytes)
      modifies this`body
      ensures View() == Exec(old(View()), Op.Write(data))
      ensures IsChanged(View())
    {
      if body.None? {
        body := Some([]);
      }
      body := Some(body.value + data);
    }

    /** The first nonzero status stays. */
    method WriteHeader(statusCode: int)
      modifies this`code
      ensures View() == Exec(old(View()), Op.WriteHeader(statusCode))
    {
      if code != 0 {
        return;
      }
      code := statusCode;
    }

    method Reset()
      modifies this
      ensures View() == EMPTY
    {
      body := None;
      code := 0;
      hdr := map[];
    }

    method FetchChanges() returns (stop: Option<Stop>)
      ensures stop.None? <==> !IsChanged(View())
      ensures stop.Some? ==> Stops(View(), stop.value)
    {
      if body.None? && code == 0 {
        return None;
      }
      var entries := [];
      if |hdr| > 0 {
        entries := Flatten(hdr);
        entries := BuildVector(entries);
      }
      var sent: bytes := [];
      if body.Some? && |body.value| > 0 {
        sent := body.value;
      }
      stop := Some(Stop(if code == 0 then 200 else code % 0x1_0000, entries, sent));
    }
  }

  /** The headers of a stop message regroup to the ones the plugin set. */
  lemma StopHeadersRegroup(st: State, stop: Stop)
    requires Stops(st, stop)
    ensures Group(stop.headers) == DropEmpty(st.hdr)
  {
    FlattenRegroup(st.hdr, stop.headers);
  }

  // ----- Every run of operations -----

  function Run(st: State, ops: seq<Op>): State {
    if ops == [] then st else Exec(Run(st, ops[..|ops| - 1]), ops[|ops| - 1])
  }

  /** What a run writes, in order. */
  function WrittenBy(ops: seq<Op>): bytes {
    if ops == [] then [] else WrittenBy(ops[..|ops| - 1]) + (if ops[|ops| - 1].Write? then ops[|ops| - 1].data else [])
  }

  /** The first nonzero status of a run, or 0. */
  function FirstStatus(ops: seq<Op>): int {
    if ops == [] then 0 else
      var earlier := FirstStatus(ops[..|ops| - 1]);
      if earlier != 0 then earlier else if ops[|ops| - 1].WriteHeader? then ops[|ops| - 1].code else 0
  }

  /** The values a run leaves to the header `name`. */
  function ValuesOf(ops: seq<Op>, name: string): seq<string> {
    if ops == [] then [] else
      var earlier, last := ValuesOf(ops[..|ops| - 1], name), ops[|ops| - 1];
      match last
      case SetHeader(n, value) => if n == name then [value] else earlier
      case AddHeader(n, value) => if n == name then earlier + [value] else earlier
      case DelHeader(n) => if n == name then [] else earlier
      case _ => earlier
  }

  predicate AnyWrite(ops: seq<Op>) {
    exists i :: 0 <= i < |ops| && ops[i].Write?
  }

  predicate AnyStatus(ops: seq<Op>) {
    exists i :: 0 <= i < |ops| && ops[i].WriteHeader? && ops[i].code != 0
  }

  lemma {:induction false} BodyAfter(ops: seq<Op>)
    ensures Run(EMPTY, ops).body == if AnyWrite(ops) then Some(WrittenBy(ops)) else None
    ensures !AnyWrite(ops) ==> WrittenBy(ops) == []
  {
    if ops != [] {
      BodyAfter(ops[..|ops| - 1]);
      assert forall i :: 0 <= i < |ops| - 1 ==> ops[i] == ops[..|ops| - 1][i];
      assert AnyWrite(ops) <==> AnyWrite(ops[..|ops| - 1]) || ops[|ops| - 1].Write?;
      assert WrittenBy(ops[..|ops| - 1]) + [] == WrittenBy(ops[..|ops| - 1]);
    }
  }

  lemma {:induction false} StatusAfter(ops: seq<Op>)
    ensures Run(EMPTY, ops).code == FirstStatus(ops)
    ensures FirstStatus(ops) != 0 <==> AnyStatus(ops)
  {
    if ops != [] {
      StatusAfter(ops[..|ops| - 1]);
      assert forall i :: 0 <= i < |ops| - 1 ==> ops[i] == ops[..|ops| - 1][i];
      var last := ops[|ops| - 1];
      assert AnyStatus(ops) <==> AnyStatus(ops[..|ops| - 1]) || (last.WriteHeader? && last.code != 0);
    }
  }

  lemma {:induction false} HeaderAfter(ops: seq<Op>, name: string)
    ensures var hdr := Run(EMPTY, ops).hdr;
      (if name in hdr then hdr[name] else []) == ValuesOf(ops, name) && (name in hdr ==> hdr[name] != [])
  {
    if ops != [] {
      HeaderAfter(ops[..|ops| - 1], name);
    }
  }

  /** What a run makes of a response, said of its operations alone: it stops the request exactly when it wrote, even
      nothing, or set a nonzero status. The stop message has the first such status, or 200, all that was written, in
      order, and under every name the values that were left to it, in order, and no other name. */
  ghost predicate TellsOfRun(ops: seq<Op>, stop: Option<Stop>) {
    && (stop.Some? <==>
        exists i :: 0 <= i < |ops| && (ops[i].Write? || (ops[i].WriteHeader? && ops[i].code != 0)))
    && (stop.Some? ==>
          && stop.value.status == (if FirstStatus(ops) == 0 then 200 else FirstStatus(ops) % 65536)
          && stop.value.body == WrittenBy(ops)
          && var hdr := Group(stop.value.headers);
             forall name :: (if name in hdr then hdr[name] else []) == ValuesOf(ops, name) &&
               (name in hdr <==> ValuesOf(ops, name) != []))
  }

  lemma RunIsTold(ops: seq<Op>, stop: Option<Stop>)
    requires stop.None? <==> !IsChanged(Run(EMPTY, ops))
    requires stop.Some? ==> Stops(Run(EMPTY, ops), stop.value)
    ensures TellsOfRun(ops, stop)
  {
    var st := Run(EMPTY, ops);
    BodyAfter(ops);
    StatusAfter(ops);
    if stop.Some? {
      StopHeadersRegroup(st, stop.value);
      forall name
        ensures (if name in st.hdr then st.hdr[name] else []) == ValuesOf(ops, name)
        ensures name in st.hdr <==> name in DropEmpty(st.hdr)
      {
        HeaderAfter(ops, name);
      }
    }
  }
}
