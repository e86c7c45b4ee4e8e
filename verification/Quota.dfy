/**
 The billing quota as a transition system with one step per Redis command.

 A request agent runs `RequestFilter` of the count plugin: read `pending`, read `count` and check the
 limit, `IncrBy` pending, `Set` the request record. A settlement agent runs `DeterminCount`: read the
 record, `DecrBy` pending, `IncrBy` count, `Del` the record. Steps of all agents interleave freely; the
 environment expires records and the settlement service lowers `count`.
 */
module Quota {
  import opened Wrappers

  // ----- Keys, limits and the database -----

  datatype CostType = RainbowNormal | RainbowMint | RainbowDeploy | OtherCost(name: string)

  /** The user id and cost type a counter key is built from, as strings. */
  datatype Key = Key(user: string, costType: string)

  /** What the plugin takes from code outside this repository.
      `canon` maps the strings of the request's headers to the strings that settlement prints after
      parsing the record (`%d` of the user id, `String()` of the cost type). */
  datatype Config = Config(canon: Key -> Key, costTypeOf: string -> CostType)

  const QUOTA_LIMITS: map<CostType, int> :=
    map[RainbowNormal := 10000, RainbowMint := 5000, RainbowDeploy := 200]

  function QuotaLimit(costType: CostType): (limit: int)
    ensures limit == match costType { case RainbowMint => 5000 case RainbowDeploy => 200 case _ => 10000 }
  {
    if costType in QUOTA_LIMITS then QUOTA_LIMITS[costType] else 10000
  }

  function Limit(cfg: Config, key: Key): (limit: int)
    ensures limit ==
            match cfg.costTypeOf(key.costType) { case RainbowMint => 5000 case RainbowDeploy => 200 case _ => 10000 }
  {
    QuotaLimit(cfg.costTypeOf(key.costType))
  }

  /** A stored request; `owner` is the position of the request agent that stored it. */
  datatype Record = Record(key: Key, cost: int, owner: nat)

  datatype Db = Db(pending: map<Key, int>, count: map<Key, int>, records: map<string, Record>)

  function GetInt(m: map<Key, int>, key: Key): int {
    if key in m then m[key] else 0
  }

  function IncrBy(m: map<Key, int>, key: Key, n: int): map<Key, int> {
    m[key := GetInt(m, key) + n]
  }

  /** A Redis command succeeds, or reports an error either before or after the server applied it. */
  datatype Outcome = Done | Error(applied: bool) {
    predicate Applied() { Done? || applied }
  }

  // ----- Agents and states -----

  datatype Stage = Arrived | PendingRead | Admitted | Counted | Forwarded | Refused

  datatype Phase = Loading | Drawing(rec: Record) | Crediting(rec: Record) | Deleting | Finished

  datatype Credit = Credit(key: Key, amount: int)

  /** `owed`: the request's IncrBy reached pending and no DecrBy has drawn it.
      `open`: the request passed the check, and its cost may still be loaded by a settlement. */
  datatype Agent =
    | Request(key: Key, cost: int, id: string, stage: Stage, owed: bool, open: bool)
    | Settlement(id: string, phase: Phase, credit: Option<Credit>)

  /** `external` is what the settlement service has taken out of each counter. */
  datatype State = State(db: Db, external: map<Key, int>, agents: seq<Agent>)

  const START := State(Db(map[], map[], map[]), map[], [])

  datatype Step =
    | Arrive(key: Key, cost: int, id: string)
    | Reject(r: nat)                            // a header does not parse, the user is not rich, or a read fails
    | ReadPending(r: nat)
    | ReadCount(r: nat)                         // with the quota check on the value read
    | AddPending(r: nat, outcome: Outcome)
    | SaveRecord(r: nat, outcome: Outcome)
    | BeginSettlement(id: string)
    | Load(t: nat, ok: bool)
    | Draw(t: nat, outcome: Outcome)
    | Pay(t: nat, success: int, outcome: Outcome)
    | Delete(t: nat, outcome: Outcome)
    | Expire(id: string)
    | SettleOut(key: Key, amount: int)

  predicate IsRequest(s: State, r: nat, stage: Stage) {
    r < |s.agents| && s.agents[r].Request? && s.agents[r].stage == stage
  }

  predicate IsSettlement(s: State, t: nat) {
    t < |s.agents| && s.agents[t].Settlement?
  }

  predicate Enabled(s: State, step: Step) {
    match step
    case Arrive(_, _, _) => true
    case Reject(r) => IsRequest(s, r, Arrived) || IsRequest(s, r, PendingRead)
    case ReadPending(r) => IsRequest(s, r, Arrived)
    case ReadCount(r) => IsRequest(s, r, PendingRead)
    case AddPending(r, _) => IsRequest(s, r, Admitted)
    case SaveRecord(r, _) => IsRequest(s, r, Counted)
    case BeginSettlement(id) => id != ""
    case Load(t, _) => IsSettlement(s, t) && s.agents[t].phase.Loading?
    case Draw(t, _) => IsSettlement(s, t) && s.agents[t].phase.Drawing?
    case Pay(t, _, _) => IsSettlement(s, t) && s.agents[t].phase.Crediting?
    case Delete(t, _) => IsSettlement(s, t) && s.agents[t].phase.Deleting?
    case Expire(_) => true
    case SettleOut(_, amount) => amount >= 0
  }

  /** The record stored under `id` leaves the database, so its owner can no longer be settled. */
  function CloseOwner(records: map<string, Record>, agents: seq<Agent>, id: string): (r: seq<Agent>)
    ensures |r| == |agents|
  {
    if id in records && records[id].owner < |agents| && agents[records[id].owner].Request? then
      agents[records[id].owner := agents[records[id].owner].(open := false)]
    else
      agents
  }

  function Owes(agents: seq<Agent>, rec: Record): bool {
    rec.owner < |agents| && agents[rec.owner].Request? && agents[rec.owner].owed
  }

  function MarkDrawn(agents: seq<Agent>, rec: Record): (r: seq<Agent>)
    ensures |r| == |agents|
  {
    if Owes(agents, rec) then agents[rec.owner := agents[rec.owner].(owed := false)] else agents
  }

  predicate Admits(cfg: Config, s: State, r: nat)
    requires IsRequest(s, r, PendingRead)
  {
    GetInt(s.db.count, s.agents[r].key) + s.agents[r].cost <= Limit(cfg, s.agents[r].key)
  }

  function Apply(cfg: Config, s: State, step: Step): State
    requires Enabled(s, step)
  {
    match step
    case Arrive(key, cost, id) => s.(agents := s.agents + [Request(key, cost, id, Arrived, false, false)])
    case Reject(r) => s.(agents := s.agents[r := s.agents[r].(stage := Refused)])
    case ReadPending(r) => s.(agents := s.agents[r := s.agents[r].(stage := PendingRead)])
    case ReadCount(r) =>
      if Admits(cfg, s, r) then s.(agents := s.agents[r := s.agents[r].(stage := Admitted, open := true)])
      else s.(agents := s.agents[r := s.agents[r].(stage := Refused)])
    case AddPending(r, outcome) =>
      var a := s.agents[r];
      var pending := if outcome.Applied() then IncrBy(s.db.pending, a.key, a.cost) else s.db.pending;
      var stage := if outcome.Done? then Counted else Refused;
      State(s.db.(pending := pending), s.external,
            s.agents[r := a.(stage := stage, owed := outcome.Applied(), open := outcome.Done?)])
    case SaveRecord(r, outcome) =>
      var stage := if outcome.Done? then Forwarded else Refused;
      if outcome.Applied() then
        var closed := CloseOwner(s.db.records, s.agents, s.agents[r].id);
        var a := s.agents[r].(stage := stage);
        State(s.db.(records := s.db.records[a.id := Record(a.key, a.cost, r)]), s.external, closed[r := a])
      else
        s.(agents := s.agents[r := s.agents[r].(stage := stage, open := false)])
    case BeginSettlement(id) => s.(agents := s.agents + [Settlement(id, Loading, None)])
    case Load(t, ok) =>
      var id := s.agents[t].id;
      if ok && id in s.db.records then
        s.(agents := CloseOwner(s.db.records, s.agents, id)[t := Settlement(id, Drawing(s.db.records[id]), None)])
      else
        s.(agents := s.agents[t := Settlement(id, Deleting, None)])
    case Draw(t, outcome) =>
      var rec := s.agents[t].phase.rec;
      var phase := if outcome.Done? then Crediting(rec) else Deleting;
      if outcome.Applied() then
        State(s.db.(pending := IncrBy(s.db.pending, cfg.canon(rec.key), -rec.cost)), s.external,
              MarkDrawn(s.agents, rec)[t := s.agents[t].(phase := phase)])
      else
        s.(agents := s.agents[t := s.agents[t].(phase := phase)])
    case Pay(t, success, outcome) =>
      var rec := s.agents[t].phase.rec;
      if success > 0 && outcome.Applied() then
        var key := cfg.canon(rec.key);
        State(s.db.(count := IncrBy(s.db.count, key, success)), s.external,
              s.agents[t := Settlement(s.agents[t].id, Deleting, Some(Credit(key, success)))])
      else
        s.(agents := s.agents[t := s.agents[t].(phase := Deleting)])
    case Delete(t, outcome) =>
      var id := s.agents[t].id;
      if outcome.Applied() then
        State(s.db.(records := s.db.records - {id}), s.external,
              CloseOwner(s.db.records, s.agents, id)[t := s.agents[t].(phase := Finished)])
      else
        s.(agents := s.agents[t := s.agents[t].(phase := Finished)])
    case Expire(id) =>
      s.(db := s.db.(records := s.db.records - {id}), agents := CloseOwner(s.db.records, s.agents, id))
    case SettleOut(key, amount) =>
      State(s.db.(count := IncrBy(s.db.count, key, -amount)), IncrBy(s.external, key, amount), s.agents)
  }

  /** The check: a request is admitted by what `count` holds and its own cost, against 5000 for a mint, 200 for a
      deployment and 10000 for everything else. Nothing in the database moves. */
  lemma CheckAdmitsIff(cfg: Config, s: State, r: nat)
    requires Enabled(s, ReadCount(r))
    ensures var a, s' := s.agents[r], Apply(cfg, s, ReadCount(r));
      var limit := match cfg.costTypeOf(a.key.costType) {
        case RainbowMint => 5000 case RainbowDeploy => 200 case _ => 10000 };
      var counted := if a.key in s.db.count then s.db.count[a.key] else 0;
      && s'.db == s.db && |s'.agents| == |s.agents|
      && s'.agents[r] ==
         (if counted + a.cost <= limit then a.(stage := Admitted, open := true) else a.(stage := Refused))
  {}

  /** `steps` can be taken one after the other from the empty database. */
  predicate ValidRun(cfg: Config, steps: seq<Step>)
    decreases |steps|, 0
  {
    steps == [] ||
    (ValidRun(cfg, steps[..|steps| - 1]) && Enabled(After(cfg, steps[..|steps| - 1]), steps[|steps| - 1]))
  }

  function After(cfg: Config, steps: seq<Step>): State
    requires ValidRun(cfg, steps)
    decreases |steps|, 1
  {
    if steps == [] then START else Apply(cfg, After(cfg, steps[..|steps| - 1]), steps[|steps| - 1])
  }

  /** A run goes on by one enabled step. */
  lemma Go(cfg: Config, steps: seq<Step>, step: Step) returns (next: seq<Step>)
    requires ValidRun(cfg, steps) && Enabled(After(cfg, steps), step)
    ensures next == steps + [step]
    ensures ValidRun(cfg, next) && After(cfg, next) == Apply(cfg, After(cfg, steps), step)
    ensures DisciplinedRun(cfg, next) <==> DisciplinedRun(cfg, steps) && Disciplined(cfg, After(cfg, steps), step)
    ensures HonestRun(cfg, next) <==> HonestRun(cfg, steps) && Honest(After(cfg, steps), step)
  {
    next := steps + [step];
    assert next[..|next| - 1] == steps;
  }

  // ----- Honest runs -----

  /** Costs are not negative and a settlement credits no more than the request's cost. */
  predicate Honest(s: State, step: Step)
    requires Enabled(s, step)
  {
    match step
    case Arrive(_, cost, _) => cost >= 0
    case Pay(t, success, _) => success <= s.agents[t].phase.rec.cost
    case _ => true
  }

  predicate HonestRun(cfg: Config, steps: seq<Step>)
    requires ValidRun(cfg, steps)
  {
    steps == [] ||
    (HonestRun(cfg, steps[..|steps| - 1]) && Honest(After(cfg, steps[..|steps| - 1]), steps[|steps| - 1]))
  }

  // ----- Sums over agents -----

  /** A counter, and the keys whose requests are counted as in flight for it. */
  datatype Account = Account(key: Key, spellings: Key -> bool)

  /** The requests under the counter's own key. */
  function Own(key: Key): Account {
    Account(key, k => k == key)
  }

  /** The requests under every key whose settlement pays into the counter. */
  function CounterOf(cfg: Config, key: Key): Account {
    Account(key, k => cfg.canon(k) == key)
  }

  datatype Measure =
    | Owed(key: Key)
    | InFlight(acc: Account)
    | Credited(key: Key)
    | Crowd(acc: Account)
    | Work(acc: Account)

  /** Past the check, and still able to reach `count`: without a request id nothing is ever settled. */
  predicate IsInFlight(a: Agent, acc: Account) {
    match a
    case Request(k, _, id, _, _, open) => open && id != "" && acc.spellings(k)
    case Settlement(_, phase, _) => (phase.Drawing? || phase.Crediting?) && acc.spellings(phase.rec.key)
  }

  function CostOf(a: Agent): int {
    match a
    case Request(_, cost, _, _, _, _) => cost
    case Settlement(_, phase, _) => if phase.Drawing? || phase.Crediting? then phase.rec.cost else 0
  }

  /** How many commands of its own the agent, and then its settlement, has before the cost is paid. */
  function CommandsLeft(a: Agent): nat {
    match a
    case Request(_, _, _, stage, _, _) => if stage.Admitted? then 5 else if stage.Counted? then 4 else 3
    case Settlement(_, phase, _) => if phase.Drawing? then 2 else 1
  }

  function Weight(m: Measure, a: Agent): int {
    match m
    case Owed(key) => if a.Request? && a.owed && a.key == key then a.cost else 0
    case InFlight(acc) => if IsInFlight(a, acc) then CostOf(a) else 0
    case Credited(key) => if a.Settlement? && a.credit.Some? && a.credit.value.key == key then a.credit.value.amount
                          else 0
    case Crowd(acc) => if IsInFlight(a, acc) then 1 else 0
    case Work(acc) => if IsInFlight(a, acc) then CommandsLeft(a) else 0
  }

  function Total(m: Measure, agents: seq<Agent>): int {
    if agents == [] then 0 else Total(m, agents[..|agents| - 1]) + Weight(m, agents[|agents| - 1])
  }

  lemma {:induction false} TotalUpdate(m: Measure, agents: seq<Agent>, i: nat, a: Agent)
    requires i < |agents|
    ensures Total(m, agents[i := a]) == Total(m, agents) - Weight(m, agents[i]) + Weight(m, a)
  {
    var last := |agents| - 1;
    if i == last {
      assert agents[i := a][..last] == agents[..last];
    } else {
      TotalUpdate(m, agents[..last], i, a);
      assert agents[i := a][..last] == agents[..last][i := a];
    }
  }

  lemma TotalAppend(m: Measure, agents: seq<Agent>, a: Agent)
    ensures Total(m, agents + [a]) == Total(m, agents) + Weight(m, a)
  {
    assert (agents + [a])[..|agents|] == agents;
  }

  lemma {:induction false} TotalNonNegative(m: Measure, agents: seq<Agent>)
    requires forall i :: 0 <= i < |agents| ==> Weight(m, agents[i]) >= 0
    ensures Total(m, agents) >= 0
  {
    if agents != [] {
      TotalNonNegative(m, agents[..|agents| - 1]);
    }
  }

  // ----- Invariants of every run -----

  predicate RecordFits(agents: seq<Agent>, id: string, rec: Record) {
    && rec.owner < |agents|
    && agents[rec.owner].Request?
    && agents[rec.owner].id == id
    && agents[rec.owner].key == rec.key
    && agents[rec.owner].cost == rec.cost
    && (agents[rec.owner].stage.Forwarded? || agents[rec.owner].stage.Refused?)
  }

  predicate Holding(a: Agent) {
    a.Settlement? && (a.phase.Drawing? || a.phase.Crediting?)
  }

  predicate AgentFits(agents: seq<Agent>, a: Agent) {
    && (a.Request? && a.owed ==> a.stage.Counted? || a.stage.Forwarded? || a.stage.Refused?)
    && (a.Request? && a.open ==> !a.stage.Arrived? && !a.stage.PendingRead?)
    && (a.Request? && a.stage.Admitted? ==> a.open)
    && (a.Request? && a.stage.Counted? ==> a.owed && a.open)
    && (a.Settlement? ==> a.id != "")
    && (Holding(a) ==> RecordFits(agents, a.id, a.phase.rec))
    && (a.Settlement? && a.credit.Some? ==> a.phase.Deleting? || a.phase.Finished?)
  }

  predicate AllFit(agents: seq<Agent>) {
    forall i :: 0 <= i < |agents| ==> AgentFits(agents, agents[i])
  }

  predicate RecordsFit(agents: seq<Agent>, records: map<string, Record>) {
    forall id :: id in records ==> RecordFits(agents, id, records[id])
  }

  predicate WellFormed(s: State) {
    AllFit(s.agents) && RecordsFit(s.agents, s.db.records)
  }

  /** A request keeps its identity and cost, and stays in its final stage once it has reached it. */
  predicate Succeeds(a: Agent, a': Agent) {
    if a.Settlement? then a'.Settlement? else
      && a'.Request? && a'.id == a.id && a'.key == a.key && a'.cost == a.cost
      && (a.stage.Forwarded? || a.stage.Refused? ==> a'.stage == a.stage)
  }

  lemma PutFits(agents: seq<Agent>, i: nat, a: Agent, records: map<string, Record>)
    requires i < |agents| && AllFit(agents) && RecordsFit(agents, records)
    requires Succeeds(agents[i], a) && AgentFits(agents, a)
    ensures AllFit(agents[i := a]) && RecordsFit(agents[i := a], records)
  {
    var agents' := agents[i := a];
    forall j | 0 <= j < |agents'|
      ensures AgentFits(agents', agents'[j])
    {
      assert AgentFits(agents, agents[j]);
    }
  }

  lemma AppendFits(agents: seq<Agent>, a: Agent, records: map<string, Record>)
    requires AllFit(agents) && RecordsFit(agents, records) && AgentFits(agents, a)
    ensures AllFit(agents + [a]) && RecordsFit(agents + [a], records)
  {
    forall j | 0 <= j < |agents| + 1
      ensures AgentFits(agents + [a], (agents + [a])[j])
    {
      if j < |agents| { assert AgentFits(agents, agents[j]); }
    }
  }

  lemma CloseFits(records: map<string, Record>, agents: seq<Agent>, id: string)
    requires AllFit(agents) && RecordsFit(agents, records)
    ensures AllFit(CloseOwner(records, agents, id)) && RecordsFit(CloseOwner(records, agents, id), records)
    ensures forall i :: 0 <= i < |agents| ==> Succeeds(agents[i], CloseOwner(records, agents, id)[i])
  {
    if id in records {
      var owner := records[id].owner;
      assert RecordFits(agents, id, records[id]) && AgentFits(agents, agents[owner]);
      PutFits(agents, owner, agents[owner].(open := false), records);
    }
  }

  predicate IsRequestStep(step: Step) {
    step.Arrive? || step.Reject? || step.ReadPending? || step.ReadCount? || step.AddPending? || step.SaveRecord?
  }

  lemma RequestStepKeepsWellFormed(cfg: Config, s: State, step: Step)
    requires WellFormed(s) && Enabled(s, step) && IsRequestStep(step)
    ensures WellFormed(Apply(cfg, s, step))
  {
    var s' := Apply(cfg, s, step);
    var records := s.db.records;
    if step.Arrive? {
      AppendFits(s.agents, s'.agents[|s.agents|], records);
    } else if step.SaveRecord? && step.outcome.Applied() {
      CloseFits(records, s.agents, s.agents[step.r].id);
      PutFits(CloseOwner(records, s.agents, s.agents[step.r].id), step.r, s'.agents[step.r], records);
    } else {
      PutFits(s.agents, step.r, s'.agents[step.r], records);
    }
  }

  lemma OtherStepKeepsWellFormed(cfg: Config, s: State, step: Step)
    requires WellFormed(s) && Enabled(s, step) && !IsRequestStep(step)
    ensures WellFormed(Apply(cfg, s, step))
  {
    var s' := Apply(cfg, s, step);
    var records := s.db.records;
    match step {
      case BeginSettlement(_) => AppendFits(s.agents, s'.agents[|s.agents|], records);
      case Load(t, ok) =>
        var closed := if ok then CloseOwner(records, s.agents, s.agents[t].id) else s.agents;
        CloseFits(records, s.agents, s.agents[t].id);
        PutFits(closed, t, s'.agents[t], records);
      case Draw(t, outcome) =>
        var rec := s.agents[t].phase.rec;
        assert AgentFits(s.agents, s.agents[t]) && AgentFits(s.agents, s.agents[rec.owner]);
        PutFits(s.agents, rec.owner, s.agents[rec.owner].(owed := false), records);
        var drawn := if outcome.Applied() then MarkDrawn(s.agents, rec) else s.agents;
        PutFits(drawn, t, s'.agents[t], records);
      case Pay(t, _, _) => PutFits(s.agents, t, s'.agents[t], records);
      case Delete(t, outcome) =>
        var closed := if outcome.Applied() then CloseOwner(records, s.agents, s.agents[t].id) else s.agents;
        CloseFits(records, s.agents, s.agents[t].id);
        PutFits(closed, t, s'.agents[t], records);
      case Expire(id) => CloseFits(records, s.agents, id);
      case SettleOut(_, _) =>
    }
  }

  lemma StepKeepsWellFormed(cfg: Config, s: State, step: Step)
    requires WellFormed(s) && Enabled(s, step)
    ensures WellFormed(Apply(cfg, s, step))
  {
    if IsRequestStep(step) {
      RequestStepKeepsWellFormed(cfg, s, step);
    } else {
      OtherStepKeepsWellFormed(cfg, s, step);
    }
  }

  // ----- What one step does to the sums -----

  /** The request id whose record the step removes, replaces or hands to a settlement. */
  function Releases(s: State, step: Step): Option<string>
    requires Enabled(s, step)
  {
    match step
    case SaveRecord(r, outcome) => if outcome.Applied() then Some(s.agents[r].id) else None
    case Load(t, ok) => if ok then Some(s.agents[t].id) else None
    case Delete(t, outcome) => if outcome.Applied() then Some(s.agents[t].id) else None
    case Expire(id) => Some(id)
    case _ => None
  }

  /** The agents once the step has taken effect on the owner of a record, before its own agent moves. */
  function Between(s: State, step: Step): (agents: seq<Agent>)
    requires Enabled(s, step)
    ensures |agents| == |s.agents|
  {
    if Releases(s, step).Some? then CloseOwner(s.db.records, s.agents, Releases(s, step).value)
    else if step.Draw? && step.outcome.Applied() then MarkDrawn(s.agents, s.agents[step.t].phase.rec)
    else s.agents
  }

  predicate Spawns(step: Step) {
    step.Arrive? || step.BeginSettlement?
  }

  /** The agent whose command the step is; for a new agent, the position it gets. */
  function Actor(s: State, step: Step): nat {
    if Spawns(step) || step.Expire? || step.SettleOut? then |s.agents|
    else if IsRequestStep(step) then step.r else step.t
  }

  lemma StepShape(cfg: Config, s: State, step: Step)
    requires WellFormed(s) && Enabled(s, step)
    ensures var i, agents' := Actor(s, step), Apply(cfg, s, step).agents;
      if i < |s.agents| then
        |agents'| == |s.agents| && Between(s, step)[i] == s.agents[i] && agents' == Between(s, step)[i := agents'[i]]
      else if Spawns(step) then
        |agents'| == |s.agents| + 1 && Between(s, step) == s.agents && agents' == s.agents + [agents'[i]]
      else
        agents' == Between(s, step)
  {
    if Releases(s, step).Some? && Releases(s, step).value in s.db.records {
      assert RecordFits(s.agents, Releases(s, step).value, s.db.records[Releases(s, step).value]);
    }
    if step.Draw? { assert AgentFits(s.agents, s.agents[step.t]); }
  }

  function OwnGain(cfg: Config, m: Measure, s: State, step: Step): int
    requires WellFormed(s) && Enabled(s, step)
  {
    StepShape(cfg, s, step);
    var i := Actor(s, step);
    if i < |s.agents| then Weight(m, Apply(cfg, s, step).agents[i]) - Weight(m, s.agents[i])
    else if Spawns(step) then Weight(m, Apply(cfg, s, step).agents[i])
    else 0
  }

  lemma StepTotal(cfg: Config, m: Measure, s: State, step: Step)
    requires WellFormed(s) && Enabled(s, step)
    ensures Total(m, Apply(cfg, s, step).agents) == Total(m, Between(s, step)) + OwnGain(cfg, m, s, step)
  {
    StepShape(cfg, s, step);
    var i, agents' := Actor(s, step), Apply(cfg, s, step).agents;
    if i < |s.agents| {
      TotalUpdate(m, Between(s, step), i, agents'[i]);
    } else if Spawns(step) {
      TotalAppend(m, s.agents, agents'[i]);
    }
  }

  predicate Draws(s: State, step: Step)
    requires Enabled(s, step)
  {
    step.Draw? && step.outcome.Applied()
  }

  lemma BetweenOwed(key: Key, s: State, step: Step)
    requires WellFormed(s) && Enabled(s, step)
    ensures Total(Owed(key), Between(s, step)) == Total(Owed(key), s.agents) -
      (if Draws(s, step) && Owes(s.agents, s.agents[step.t].phase.rec) && s.agents[step.t].phase.rec.key == key
       then s.agents[step.t].phase.rec.cost else 0)
  {
    TouchOwner(Owed(key), s, step);
    if Draws(s, step) { assert AgentFits(s.agents, s.agents[step.t]); }
  }

  /** Releasing a record takes its owner's cost out of flight. */
  lemma BetweenInFlight(acc: Account, s: State, step: Step)
    requires WellFormed(s) && Enabled(s, step)
    ensures Total(InFlight(acc), Between(s, step)) == Total(InFlight(acc), s.agents) -
      (if Releases(s, step).Some? && Releases(s, step).value in s.db.records
       then Weight(InFlight(acc), s.agents[s.db.records[Releases(s, step).value].owner]) else 0)
  {
    TouchOwner(InFlight(acc), s, step);
  }

  lemma BetweenCredited(key: Key, s: State, step: Step)
    requires WellFormed(s) && Enabled(s, step)
    ensures Total(Credited(key), Between(s, step)) == Total(Credited(key), s.agents)
  {
    TouchOwner(Credited(key), s, step);
  }

  /** Releasing and drawing each rewrite one request agent at most. */
  lemma TouchOwner(m: Measure, s: State, step: Step)
    requires WellFormed(s) && Enabled(s, step)
    ensures Releases(s, step).Some? && Releases(s, step).value in s.db.records ==>
      var owner := s.db.records[Releases(s, step).value].owner;
      RecordFits(s.agents, Releases(s, step).value, s.db.records[Releases(s, step).value]) &&
      Total(m, Between(s, step)) ==
      Total(m, s.agents) - Weight(m, s.agents[owner]) + Weight(m, s.agents[owner].(open := false))
    ensures Draws(s, step) && Owes(s.agents, s.agents[step.t].phase.rec) ==>
      var owner := s.agents[step.t].phase.rec.owner;
      Total(m, Between(s, step)) ==
      Total(m, s.agents) - Weight(m, s.agents[owner]) + Weight(m, s.agents[owner].(owed := false))
  {
    if Releases(s, step).Some? && Releases(s, step).value in s.db.records {
      var rec := s.db.records[Releases(s, step).value];
      assert RecordFits(s.agents, Releases(s, step).value, rec);
      TotalUpdate(m, s.agents, rec.owner, s.agents[rec.owner].(open := false));
    } else if Draws(s, step) && Owes(s.agents, s.agents[step.t].phase.rec) {
      var rec := s.agents[step.t].phase.rec;
      TotalUpdate(m, s.agents, rec.owner, s.agents[rec.owner].(owed := false));
    }
  }

  // ----- Conservation of `pending` -----

  ghost predicate Conserved(s: State) {
    forall key :: GetInt(s.db.pending, key) == Total(Owed(key), s.agents)
  }

  /** A DecrBy that `pending` cannot absorb: the cost was drawn before, or it goes to another key. */
  predicate Miscounts(cfg: Config, s: State, step: Step)
    requires Enabled(s, step)
  {
    Draws(s, step) &&
    var rec := s.agents[step.t].phase.rec;
    rec.cost != 0 && (cfg.canon(rec.key) != rec.key || !Owes(s.agents, rec))
  }

  /** Except for a DecrBy, `pending` and the cost owed move together. */
  lemma OwedFollowsPending(cfg: Config, s: State, step: Step, key: Key)
    requires WellFormed(s) && Enabled(s, step)
    ensures OwnGain(cfg, Owed(key), s, step) ==
      if Draws(s, step) then 0 else GetInt(Apply(cfg, s, step).db.pending, key) - GetInt(s.db.pending, key)
  {
    var i := Actor(s, step);
    StepShape(cfg, s, step);
    if i < |s.agents| { assert AgentFits(s.agents, s.agents[i]); }
  }

  /** From a state where `pending` is right, one step keeps it right exactly when it is not a DecrBy of
      a cost already drawn, or of a cost booked under a key that settlement spells differently. */
  lemma StepConserves(cfg: Config, s: State, step: Step)
    requires WellFormed(s) && Enabled(s, step) && Conserved(s)
    ensures Conserved(Apply(cfg, s, step)) <==> !Miscounts(cfg, s, step)
  {
    var s' := Apply(cfg, s, step);
    forall key
      ensures Total(Owed(key), s'.agents) == Total(Owed(key), Between(s, step)) + OwnGain(cfg, Owed(key), s, step)
    {
      StepTotal(cfg, Owed(key), s, step);
    }
    if Miscounts(cfg, s, step) {
      var key := cfg.canon(s.agents[step.t].phase.rec.key);
      BetweenOwed(key, s, step);
      OwedFollowsPending(cfg, s, step, key);
      assert GetInt(s'.db.pending, key) != Total(Owed(key), s'.agents);
    } else {
      forall key
        ensures GetInt(s'.db.pending, key) == Total(Owed(key), s'.agents)
      {
        BetweenOwed(key, s, step);
        OwedFollowsPending(cfg, s, step, key);
      }
    }
  }

  // ----- Runs in which settlements of one request id do not overlap -----

  predicate ActiveOn(a: Agent, id: string) {
    a.Settlement? && a.id == id && !a.phase.Finished?
  }

  predicate PastLoading(a: Agent, id: string) {
    ActiveOn(a, id) && !a.phase.Loading?
  }

  predicate Idle(agents: seq<Agent>, id: string) {
    forall t :: 0 <= t < |agents| ==> !ActiveOn(agents[t], id)
  }

  /** What the callers and the environment owe `count.go`: header strings that settlement prints the
      same way, one settlement in progress per request id, and a final Del that reaches the server. */
  predicate Disciplined(cfg: Config, s: State, step: Step)
    requires Enabled(s, step)
  {
    match step
    case Arrive(key, _, _) => cfg.canon(key) == key
    case BeginSettlement(id) => Idle(s.agents, id)
    case Delete(_, outcome) => outcome.Applied()
    case _ => true
  }

  predicate DisciplinedRun(cfg: Config, steps: seq<Step>)
    requires ValidRun(cfg, steps)
  {
    steps == [] ||
    (DisciplinedRun(cfg, steps[..|steps| - 1]) &&
     Disciplined(cfg, After(cfg, steps[..|steps| - 1]), steps[|steps| - 1]))
  }

  predicate Served(agents: seq<Agent>, id: string) {
    exists t :: 0 <= t < |agents| && PastLoading(agents[t], id)
  }

  predicate Covered(agents: seq<Agent>, id: string, rec: Record) {
    (Owes(agents, rec) && agents[rec.owner].open) || Served(agents, id)
  }

  predicate OneActive(agents: seq<Agent>) {
    forall i, j | 0 <= i < |agents| && 0 <= j < |agents| && agents[i].Settlement? && agents[j].Settlement? ::
      ActiveOn(agents[i], agents[i].id) && ActiveOn(agents[j], agents[i].id) ==> i == j
  }

  predicate Orderly(cfg: Config, s: State) {
    && WellFormed(s)
    && OneActive(s.agents)
    && (forall id :: id in s.db.records ==> Covered(s.agents, id, s.db.records[id]))
    && (forall t :: 0 <= t < |s.agents| && s.agents[t].Settlement? && s.agents[t].phase.Drawing? ==>
          Owes(s.agents, s.agents[t].phase.rec))
    && (forall r :: 0 <= r < |s.agents| && s.agents[r].Request? ==> cfg.canon(s.agents[r].key) == s.agents[r].key)
  }

  /** A request past RequestFilter changes only when its record is released or its cost is drawn. */
  lemma OwnerUntouched(cfg: Config, s: State, step: Step, id: string, rec: Record)
    requires Enabled(s, step) && RecordFits(s.agents, id, rec) && Releases(s, step) != Some(id)
    requires Releases(s, step).Some? && Releases(s, step).value in s.db.records ==>
      RecordFits(s.agents, Releases(s, step).value, s.db.records[Releases(s, step).value])
    requires step.Draw? ==> s.agents[step.t].phase.rec.owner != rec.owner
    ensures Apply(cfg, s, step).agents[rec.owner] == s.agents[rec.owner]
  {}

  /** A settlement past its read stays so until its Del. */
  lemma StaysPastLoading(cfg: Config, s: State, step: Step, t: nat, id: string)
    requires Enabled(s, step) && t < |s.agents| && PastLoading(s.agents[t], id) && (step.Delete? ==> step.t != t)
    ensures |s.agents| <= |Apply(cfg, s, step).agents| && PastLoading(Apply(cfg, s, step).agents[t], id)
  {}

  /** No step starts, renames or reactivates a settlement except BeginSettlement. */
  lemma ActiveBefore(cfg: Config, s: State, step: Step, t: nat, id: string)
    requires Enabled(s, step) && t < |Apply(cfg, s, step).agents|
    requires ActiveOn(Apply(cfg, s, step).agents[t], id)
    ensures (t < |s.agents| && ActiveOn(s.agents[t], id)) || (step == BeginSettlement(id) && t == |s.agents|)
  {}

  predicate Saves(s: State, step: Step, id: string)
    requires Enabled(s, step)
  {
    step.SaveRecord? && step.outcome.Applied() && s.agents[step.r].id == id
  }

  lemma RecordUntouched(cfg: Config, s: State, step: Step, id: string)
    requires Enabled(s, step) && !Saves(s, step, id) && id in Apply(cfg, s, step).db.records
    ensures id in s.db.records && Apply(cfg, s, step).db.records[id] == s.db.records[id]
    ensures Releases(s, step) == Some(id) ==> step.Load?
    ensures step.Delete? && step.outcome.Applied() ==> s.agents[step.t].id != id
  {}

  lemma SavedRecordCovered(cfg: Config, s: State, step: Step, id: string)
    requires WellFormed(s) && Enabled(s, step) && Saves(s, step, id)
    ensures Covered(Apply(cfg, s, step).agents, id, Apply(cfg, s, step).db.records[id])
  {
    assert AgentFits(s.agents, s.agents[step.r]);
  }

  lemma SettledRecordCovered(cfg: Config, s: State, step: Step, id: string)
    requires Enabled(s, step) && (step.Load? || step.Draw?) && s.agents[step.t].id == id
    ensures Served(Apply(cfg, s, step).agents, id)
  {
    assert PastLoading(Apply(cfg, s, step).agents[step.t], id);
  }

  lemma OtherRecordCovered(cfg: Config, s: State, step: Step, id: string)
    requires WellFormed(s) && Enabled(s, step) && Disciplined(cfg, s, step)
    requires id in s.db.records && Covered(s.agents, id, s.db.records[id]) && Releases(s, step) != Some(id)
    requires (step.Load? || step.Draw? || step.Delete?) ==> s.agents[step.t].id != id
    ensures Covered(Apply(cfg, s, step).agents, id, s.db.records[id])
  {
    var rec := s.db.records[id];
    assert RecordFits(s.agents, id, rec);
    if step.Draw? { assert AgentFits(s.agents, s.agents[step.t]); }
    OwnerUntouched(cfg, s, step, id, rec);
    if Served(s.agents, id) {
      var t :| 0 <= t < |s.agents| && PastLoading(s.agents[t], id);
      StaysPastLoading(cfg, s, step, t, id);
    }
  }

  lemma StepKeepsCovered(cfg: Config, s: State, step: Step, id: string)
    requires Orderly(cfg, s) && Enabled(s, step) && Disciplined(cfg, s, step)
    requires id in Apply(cfg, s, step).db.records
    ensures Covered(Apply(cfg, s, step).agents, id, Apply(cfg, s, step).db.records[id])
  {
    if Saves(s, step, id) {
      SavedRecordCovered(cfg, s, step, id);
    } else {
      RecordUntouched(cfg, s, step, id);
      if (step.Load? || step.Draw?) && s.agents[step.t].id == id {
        SettledRecordCovered(cfg, s, step, id);
      } else {
        OtherRecordCovered(cfg, s, step, id);
      }
    }
  }

  /** The record a settlement loads belongs to a request whose cost nobody has drawn. */
  lemma LoadedRecordIsOpen(cfg: Config, s: State, t: nat)
    requires Orderly(cfg, s) && IsSettlement(s, t) && s.agents[t].phase.Loading? && s.agents[t].id in s.db.records
    ensures var rec := s.db.records[s.agents[t].id];
      RecordFits(s.agents, s.agents[t].id, rec) && s.agents[rec.owner].owed && s.agents[rec.owner].open
  {
    var id := s.agents[t].id;
    assert RecordFits(s.agents, id, s.db.records[id]) && Covered(s.agents, id, s.db.records[id]);
    forall t' | 0 <= t' < |s.agents|
      ensures !PastLoading(s.agents[t'], id)
    {
      assert ActiveOn(s.agents[t], id);
    }
  }

  /** Only the settlement that draws a cost marks it drawn. */
  lemma OwesUntilDrawn(cfg: Config, s: State, step: Step, rec: Record)
    requires WellFormed(s) && Enabled(s, step) && Owes(s.agents, rec)
    requires Draws(s, step) ==> s.agents[step.t].phase.rec.owner != rec.owner
    ensures Owes(Apply(cfg, s, step).agents, rec)
  {
    StepShape(cfg, s, step);
    assert AgentFits(s.agents, s.agents[rec.owner]);
  }

  lemma DrawingStaysOwed(cfg: Config, s: State, step: Step, t: nat)
    requires Orderly(cfg, s) && Enabled(s, step) && Disciplined(cfg, s, step)
    requires t < |Apply(cfg, s, step).agents|
    requires Apply(cfg, s, step).agents[t].Settlement? && Apply(cfg, s, step).agents[t].phase.Drawing?
    ensures Owes(Apply(cfg, s, step).agents, Apply(cfg, s, step).agents[t].phase.rec)
  {
    if step.Load? && step.t == t {
      LoadedRecordIsOpen(cfg, s, t);
    } else {
      var rec := Apply(cfg, s, step).agents[t].phase.rec;
      WasDrawing(cfg, s, step, t);
      assert AgentFits(s.agents, s.agents[t]);
      if Draws(s, step) {
        assert AgentFits(s.agents, s.agents[step.t]);
        assert ActiveOn(s.agents[step.t], s.agents[step.t].id) && ActiveOn(s.agents[t], s.agents[t].id);
      }
      OwesUntilDrawn(cfg, s, step, rec);
    }
  }

  lemma WasDrawing(cfg: Config, s: State, step: Step, t: nat)
    requires Enabled(s, step) && t < |Apply(cfg, s, step).agents| && !(step.Load? && step.t == t)
    requires Apply(cfg, s, step).agents[t].Settlement? && Apply(cfg, s, step).agents[t].phase.Drawing?
    ensures t < |s.agents| && s.agents[t] == Apply(cfg, s, step).agents[t] && !(step.Draw? && step.t == t)
  {}

  lemma StepKeepsOneActive(cfg: Config, s: State, step: Step)
    requires OneActive(s.agents) && Enabled(s, step) && Disciplined(cfg, s, step)
    ensures OneActive(Apply(cfg, s, step).agents)
  {
    var agents' := Apply(cfg, s, step).agents;
    forall i, j | 0 <= i < |agents'| && 0 <= j < |agents'| && agents'[i].Settlement? && agents'[j].Settlement? &&
                  ActiveOn(agents'[i], agents'[i].id) && ActiveOn(agents'[j], agents'[i].id)
      ensures i == j
    {
      ActiveBefore(cfg, s, step, i, agents'[i].id);
      ActiveBefore(cfg, s, step, j, agents'[i].id);
    }
  }

  lemma StepKeepsCanonical(cfg: Config, s: State, step: Step, r: nat)
    requires Orderly(cfg, s) && Enabled(s, step) && Disciplined(cfg, s, step)
    requires r < |Apply(cfg, s, step).agents| && Apply(cfg, s, step).agents[r].Request?
    ensures cfg.canon(Apply(cfg, s, step).agents[r].key) == Apply(cfg, s, step).agents[r].key
  {
    if r < |s.agents| { assert s.agents[r].Request? && s.agents[r].key == Apply(cfg, s, step).agents[r].key; }
  }

  lemma StepKeepsOrderly(cfg: Config, s: State, step: Step)
    requires Orderly(cfg, s) && Enabled(s, step) && Disciplined(cfg, s, step)
    ensures Orderly(cfg, Apply(cfg, s, step))
  {
    var s' := Apply(cfg, s, step);
    StepKeepsWellFormed(cfg, s, step);
    StepKeepsOneActive(cfg, s, step);
    forall id | id in s'.db.records
      ensures Covered(s'.agents, id, s'.db.records[id])
    {
      StepKeepsCovered(cfg, s, step, id);
    }
    forall t | 0 <= t < |s'.agents| && s'.agents[t].Settlement? && s'.agents[t].phase.Drawing?
      ensures Owes(s'.agents, s'.agents[t].phase.rec)
    {
      DrawingStaysOwed(cfg, s, step, t);
    }
    forall r | 0 <= r < |s'.agents| && s'.agents[r].Request?
      ensures cfg.canon(s'.agents[r].key) == s'.agents[r].key
    {
      StepKeepsCanonical(cfg, s, step, r);
    }
  }

  lemma {:induction false} DisciplinedRunIsOrderly(cfg: Config, steps: seq<Step>)
    requires ValidRun(cfg, steps) && DisciplinedRun(cfg, steps)
    ensures Orderly(cfg, After(cfg, steps))
  {
    if steps != [] {
      var before := steps[..|steps| - 1];
      DisciplinedRunIsOrderly(cfg, before);
      StepKeepsOrderly(cfg, After(cfg, before), steps[|steps| - 1]);
    }
  }

  /** In every disciplined run `pending` is, for every key, the cost of the requests past their IncrBy and
      not past their DecrBy, whether their record is live, expired, overwritten or was never stored. */
  lemma {:induction false} Conservation(cfg: Config, steps: seq<Step>)
    requires ValidRun(cfg, steps) && DisciplinedRun(cfg, steps)
    ensures Conserved(After(cfg, steps))
  {
    if steps != [] {
      var before := steps[..|steps| - 1];
      var step := steps[|steps| - 1];
      var s := After(cfg, before);
      Conservation(cfg, before);
      DisciplinedRunIsOrderly(cfg, before);
      if step.Draw? {
        assert AgentFits(s.agents, s.agents[step.t]);
        var owner := s.agents[step.t].phase.rec.owner;
        assert cfg.canon(s.agents[owner].key) == s.agents[owner].key;
      }
      StepConserves(cfg, s, step);
    }
  }

  // ----- `count` is the sum of what settlements paid in, less what the settlement service took out -----

  /** Only the IncrBy of a settlement changes what it has credited, and by what `count` gains. */
  lemma CreditedByPay(cfg: Config, s: State, step: Step, key: Key)
    requires WellFormed(s) && Enabled(s, step)
    ensures OwnGain(cfg, Credited(key), s, step) ==
      if step.Pay? then GetInt(Apply(cfg, s, step).db.count, key) - GetInt(s.db.count, key) else 0
  {
    var i := Actor(s, step);
    StepShape(cfg, s, step);
    if i < |s.agents| { assert AgentFits(s.agents, s.agents[i]); }
  }

  lemma CountAndExternal(cfg: Config, s: State, step: Step, key: Key)
    requires Enabled(s, step)
    ensures var s' := Apply(cfg, s, step);
      GetInt(s'.db.count, key) - GetInt(s.db.count, key) + GetInt(s'.external, key) - GetInt(s.external, key) ==
      if step.Pay? then GetInt(s'.db.count, key) - GetInt(s.db.count, key) else 0
  {}

  lemma {:induction false} RunIsWellFormed(cfg: Config, steps: seq<Step>)
    requires ValidRun(cfg, steps)
    ensures WellFormed(After(cfg, steps))
  {
    if steps != [] {
      RunIsWellFormed(cfg, steps[..|steps| - 1]);
      StepKeepsWellFormed(cfg, After(cfg, steps[..|steps| - 1]), steps[|steps| - 1]);
    }
  }

  /** In every run at all, with overlaps and failures: `count` plus external settlement is the sum of the
      amounts the settlements of this key paid in. */
  lemma {:induction false} Ledger(cfg: Config, steps: seq<Step>, key: Key)
    requires ValidRun(cfg, steps)
    ensures var s := After(cfg, steps);
      GetInt(s.db.count, key) + GetInt(s.external, key) == Total(Credited(key), s.agents)
  {
    if steps != [] {
      Ledger(cfg, steps[..|steps| - 1], key);
      var s, step := After(cfg, steps[..|steps| - 1]), steps[|steps| - 1];
      RunIsWellFormed(cfg, steps[..|steps| - 1]);
      StepTotal(cfg, Credited(key), s, step);
      BetweenCredited(key, s, step);
      CreditedByPay(cfg, s, step, key);
      CountAndExternal(cfg, s, step, key);
    }
  }
}
