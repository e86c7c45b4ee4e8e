/** Runs that show the hypotheses of the quota theorems are needed, and that the overshoot bound is met. */
module QuotaExamples {
  import opened Wrappers
  import opened Quota
  import opened QuotaBound
  import opened QuotaReach

  /** Only a check of the limit can raise the peak. */
  lemma PeakKept(cfg: Config, steps: seq<Step>, step: Step, key: Key)
    requires ValidRun(cfg, steps + [step]) && !step.ReadCount?
    ensures ValidRun(cfg, steps) && Peak(cfg, steps + [step], Own(key)) == Peak(cfg, steps, Own(key))
  {
    assert (steps + [step])[..|steps|] == steps;
  }

  /** `more` goes on from `steps` without a check of the limit. */
  predicate NoCheck(steps: seq<Step>, more: seq<Step>) {
    steps <= more && forall i :: |steps| <= i < |more| ==> !more[i].ReadCount?
  }

  lemma {:induction false} NoCheckKeepsCrowd(cfg: Config, steps: seq<Step>, more: seq<Step>, key: Key, k: nat, c: nat)
    requires ValidRun(cfg, steps) && ValidRun(cfg, more) && NoCheck(steps, more)
    requires CrowdedBy(cfg, steps, Own(key), k, c)
    ensures CrowdedBy(cfg, more, Own(key), k, c)
    decreases |more|
  {
    if |steps| == |more| {
      assert steps == more;
    } else {
      NoCheckKeepsCrowd(cfg, steps, more[..|more| - 1], key, k, c);
    }
  }

  lemma {:induction false} NoCheckKeepsPeak(cfg: Config, steps: seq<Step>, more: seq<Step>, key: Key)
    requires ValidRun(cfg, steps) && ValidRun(cfg, more) && NoCheck(steps, more)
    ensures Peak(cfg, more, Own(key)) == Peak(cfg, steps, Own(key))
    decreases |more|
  {
    if |steps| == |more| {
      assert steps == more;
    } else {
      NoCheckKeepsPeak(cfg, steps, more[..|more| - 1], key);
    }
  }

  /** One request, admitted and stored. */
  function Stored(key: Key, cost: int, id: string): State {
    State(Db(map[key := cost], map[], map[id := Record(key, cost, 0)]), map[],
          [Request(key, cost, id, Forwarded, true, true)])
  }

  lemma LastOf(agents: seq<Agent>, a: Agent, b: Agent)
    ensures (agents + [a])[|agents| := b] == agents + [b]
  {}

  predicate RoomFor(key: Key, agents: seq<Agent>, k: nat, c: nat) {
    Total(Crowd(Own(key)), agents) <= k && CostsUpTo(Own(key), agents, c)
  }

  /** A request arrives and reads `pending`. */
  lemma ArriveOne(cfg: Config, steps: seq<Step>, key: Key, cost: nat, id: string) returns (next: seq<Step>)
    requires ValidRun(cfg, steps) && HonestRun(cfg, steps)
    ensures ValidRun(cfg, next) && HonestRun(cfg, next) && NoCheck(steps, next)
    ensures DisciplinedRun(cfg, steps) && cfg.canon(key) == key ==> DisciplinedRun(cfg, next)
    ensures var s := After(cfg, steps);
      After(cfg, next) == s.(agents := s.agents + [Request(key, cost, id, PendingRead, false, false)])
  {
    var agents := After(cfg, steps).agents;
    var arrived := Go(cfg, steps, Arrive(key, cost, id));
    LastOf(agents, Request(key, cost, id, Arrived, false, false), Request(key, cost, id, PendingRead, false, false));
    next := Go(cfg, arrived, ReadPending(|agents|));
  }

  /** A request that passes the check; what is in flight then counts for the peak and the crowd. */
  lemma AdmitOne(cfg: Config, steps: seq<Step>, key: Key, cost: nat, id: string, k: nat, c: nat)
    returns (next: seq<Step>)
    requires ValidRun(cfg, steps) && HonestRun(cfg, steps)
    requires GetInt(After(cfg, steps).db.count, key) + cost <= Limit(cfg, key)
    ensures ValidRun(cfg, next) && HonestRun(cfg, next)
    ensures DisciplinedRun(cfg, steps) && cfg.canon(key) == key ==> DisciplinedRun(cfg, next)
    ensures var s := After(cfg, steps);
      After(cfg, next) == s.(agents := s.agents + [Request(key, cost, id, Admitted, false, true)])
    ensures Total(InFlight(Own(key)), After(cfg, steps).agents) <= Peak(cfg, steps, Own(key)) ==>
      Peak(cfg, next, Own(key)) == Peak(cfg, steps, Own(key))
    ensures CrowdedBy(cfg, steps, Own(key), k, c) && RoomFor(key, After(cfg, steps).agents, k, c) ==>
      CrowdedBy(cfg, next, Own(key), k, c)
  {
    var read := ArriveOne(cfg, steps, key, cost, id);
    NoCheckKeepsPeak(cfg, steps, read, key);
    if CrowdedBy(cfg, steps, Own(key), k, c) { NoCheckKeepsCrowd(cfg, steps, read, key, k, c); }
    next := CheckOne(cfg, read, After(cfg, steps).agents, key, cost, id, k, c);
  }

  lemma CheckOne(cfg: Config, steps: seq<Step>, others: seq<Agent>, key: Key, cost: nat, id: string, k: nat, c: nat)
    returns (next: seq<Step>)
    requires ValidRun(cfg, steps) && HonestRun(cfg, steps)
    requires After(cfg, steps).agents == others + [Request(key, cost, id, PendingRead, false, false)]
    requires GetInt(After(cfg, steps).db.count, key) + cost <= Limit(cfg, key)
    ensures ValidRun(cfg, next) && HonestRun(cfg, next)
    ensures DisciplinedRun(cfg, steps) ==> DisciplinedRun(cfg, next)
    ensures After(cfg, next) ==
      After(cfg, steps).(agents := others + [Request(key, cost, id, Admitted, false, true)])
    ensures Total(InFlight(Own(key)), others) <= Peak(cfg, steps, Own(key)) ==>
      Peak(cfg, next, Own(key)) == Peak(cfg, steps, Own(key))
    ensures CrowdedBy(cfg, steps, Own(key), k, c) && RoomFor(key, others, k, c) ==> CrowdedBy(cfg, next, Own(key), k, c)
  {
    LastOf(others, Request(key, cost, id, PendingRead, false, false), Request(key, cost, id, Admitted, false, true));
    next := Go(cfg, steps, ReadCount(|others|));
    assert next[..|next| - 1] == steps;
    TotalAppend(InFlight(Own(key)), others, Request(key, cost, id, PendingRead, false, false));
    TotalAppend(Crowd(Own(key)), others, Request(key, cost, id, PendingRead, false, false));
  }

  /** An admitted request books its cost and stores its record under a new id. */
  lemma BookOne(cfg: Config, steps: seq<Step>, others: seq<Agent>, key: Key, cost: nat, id: string)
    returns (next: seq<Step>)
    requires ValidRun(cfg, steps) && HonestRun(cfg, steps)
    requires After(cfg, steps).agents == others + [Request(key, cost, id, Admitted, false, true)]
    requires id !in After(cfg, steps).db.records
    ensures ValidRun(cfg, next) && HonestRun(cfg, next)
    ensures DisciplinedRun(cfg, steps) ==> DisciplinedRun(cfg, next)
    ensures var db := After(cfg, steps).db;
      After(cfg, next) == State(
        Db(IncrBy(db.pending, key, cost), db.count, db.records[id := Record(key, cost, |others|)]),
        After(cfg, steps).external, others + [Request(key, cost, id, Forwarded, true, true)])
    ensures Peak(cfg, next, Own(key)) == Peak(cfg, steps, Own(key)) && NoCheck(steps, next)
  {
    LastOf(others, Request(key, cost, id, Admitted, false, true), Request(key, cost, id, Counted, true, true));
    var added := Go(cfg, steps, AddPending(|others|, Done));
    PeakKept(cfg, steps, AddPending(|others|, Done), key);
    LastOf(others, Request(key, cost, id, Counted, true, true), Request(key, cost, id, Forwarded, true, true));
    next := Go(cfg, added, SaveRecord(|others|, Done));
    PeakKept(cfg, added, SaveRecord(|others|, Done), key);
  }

  lemma StoreOne(cfg: Config, key: Key, cost: nat, id: string) returns (steps: seq<Step>)
    requires cost <= Limit(cfg, key)
    ensures ValidRun(cfg, steps) && After(cfg, steps) == Stored(key, cost, id)
    ensures HonestRun(cfg, steps) && (cfg.canon(key) == key ==> DisciplinedRun(cfg, steps))
    ensures Peak(cfg, steps, Own(key)) == 0
  {
    steps := AdmitOne(cfg, [], key, cost, id, 0, 0);
    steps := BookOne(cfg, steps, [], key, cost, id);
  }

  function Loaded(key: Key, cost: int, id: string): Agent {
    Settlement(id, Drawing(Record(key, cost, 0)), None)
  }

  /** A settlement that has read the record of the stored request. */
  lemma LoadOne(cfg: Config, key: Key, cost: nat, id: string) returns (steps: seq<Step>)
    requires cost <= Limit(cfg, key) && id != ""
    ensures ValidRun(cfg, steps) && HonestRun(cfg, steps)
    ensures After(cfg, steps) == Stored(key, cost, id).(
            agents := [Request(key, cost, id, Forwarded, true, false), Loaded(key, cost, id)])
    ensures Peak(cfg, steps, Own(key)) == 0
  {
    var stored := StoreOne(cfg, key, cost, id);
    var begun := Go(cfg, stored, BeginSettlement(id));
    PeakKept(cfg, stored, BeginSettlement(id), key);
    steps := Go(cfg, begun, Load(1, true));
    PeakKept(cfg, begun, Load(1, true), key);
  }

  lemma LoadAgain(cfg: Config, steps: seq<Step>, key: Key, cost: nat, id: string) returns (next: seq<Step>)
    requires ValidRun(cfg, steps) && HonestRun(cfg, steps) && id != ""
    requires var s := After(cfg, steps);
      id in s.db.records && s.db.records[id] == Record(key, cost, 0) && |s.agents| == 2 && s.agents[0].Request?
    ensures ValidRun(cfg, next) && HonestRun(cfg, next)
    ensures var s := After(cfg, steps);
      After(cfg, next) == s.(agents := [s.agents[0].(open := false), s.agents[1], Loaded(key, cost, id)])
    ensures Peak(cfg, next, Own(key)) == Peak(cfg, steps, Own(key))
  {
    var begun := Go(cfg, steps, BeginSettlement(id));
    PeakKept(cfg, steps, BeginSettlement(id), key);
    next := Go(cfg, begun, Load(2, true));
    PeakKept(cfg, begun, Load(2, true), key);
  }

  /** Two settlements of one request id that overlap both draw its cost: `pending` ends below what is owed. */
  lemma OverlappingSettlementsDrawTwice(cfg: Config, key: Key, cost: nat, id: string) returns (steps: seq<Step>)
    requires cfg.canon(key) == key && 0 < cost <= Limit(cfg, key) && id != ""
    ensures ValidRun(cfg, steps) && HonestRun(cfg, steps)
    ensures GetInt(After(cfg, steps).db.pending, key) == 0 - cost && !Conserved(After(cfg, steps))
  {
    steps := LoadOne(cfg, key, cost, id);
    steps := LoadAgain(cfg, steps, key, cost, id);
    steps := Go(cfg, steps, Draw(1, Done));
    steps := Go(cfg, steps, Draw(2, Done));
    TotalNonNegative(Owed(key), After(cfg, steps).agents);
  }

  /** A DecrBy of a cost that is owed under its own key. */
  lemma DrawOwed(cfg: Config, steps: seq<Step>, t: nat, rec: Record) returns (next: seq<Step>)
    requires ValidRun(cfg, steps) && HonestRun(cfg, steps) && IsSettlement(After(cfg, steps), t)
    requires After(cfg, steps).agents[t].phase == Drawing(rec) && Owes(After(cfg, steps).agents, rec)
    ensures ValidRun(cfg, next) && HonestRun(cfg, next)
    ensures var s, s' := After(cfg, steps), After(cfg, next);
      s'.db.records == s.db.records && s'.agents == s.agents
        [rec.owner := s.agents[rec.owner].(owed := false)][t := s.agents[t].(phase := Crediting(rec))]
    ensures GetInt(After(cfg, next).db.pending, cfg.canon(rec.key)) ==
            GetInt(After(cfg, steps).db.pending, cfg.canon(rec.key)) - rec.cost
  {
    next := Go(cfg, steps, Draw(t, Done));
  }

  /** Nothing succeeded, so nothing is paid; the Del fails before it reaches the server. */
  lemma PayNothingLoseDelete(cfg: Config, steps: seq<Step>, t: nat) returns (next: seq<Step>)
    requires ValidRun(cfg, steps) && HonestRun(cfg, steps) && IsSettlement(After(cfg, steps), t)
    requires After(cfg, steps).agents[t].phase.Crediting? && After(cfg, steps).agents[t].phase.rec.cost >= 0
    ensures ValidRun(cfg, next) && HonestRun(cfg, next)
    ensures var s := After(cfg, steps);
      After(cfg, next) == s.(agents := s.agents[t := s.agents[t].(phase := Finished)])
  {
    var agents := After(cfg, steps).agents;
    next := Go(cfg, steps, Pay(t, 0, Done));
    assert agents[t := agents[t].(phase := Deleting)][t := agents[t].(phase := Finished)] ==
           agents[t := agents[t].(phase := Finished)];
    next := Go(cfg, next, Delete(t, Error(false)));
  }

  lemma DrawAndLoseDelete(cfg: Config, key: Key, cost: nat, id: string) returns (steps: seq<Step>)
    requires cfg.canon(key) == key && cost <= Limit(cfg, key) && id != ""
    ensures ValidRun(cfg, steps) && HonestRun(cfg, steps)
    ensures var s := After(cfg, steps);
      GetInt(s.db.pending, key) == 0 && s.db.records == map[id := Record(key, cost, 0)] && |s.agents| == 2 &&
      s.agents[0] == Request(key, cost, id, Forwarded, false, false) && s.agents[1] == Settlement(id, Finished, None)
  {
    steps := LoadOne(cfg, key, cost, id);
    var rec := Record(key, cost, 0);
    var s := After(cfg, steps);
    assert s.agents[0] == Request(key, cost, id, Forwarded, true, false) && s.agents[1] == Loaded(key, cost, id);
    assert s.agents[1].phase == Drawing(rec) && Owes(s.agents, rec);
    steps := DrawOwed(cfg, steps, 1, rec);
    steps := PayNothingLoseDelete(cfg, steps, 1);
  }

  /** A settlement that draws a record and credits its whole cost, whoever drew it before. */
  lemma DrawAndPay(cfg: Config, steps: seq<Step>, t: nat, rec: Record, key: Key) returns (next: seq<Step>)
    requires ValidRun(cfg, steps) && HonestRun(cfg, steps) && IsSettlement(After(cfg, steps), t)
    requires After(cfg, steps).agents[t].phase == Drawing(rec) && rec.cost > 0
    ensures ValidRun(cfg, next) && HonestRun(cfg, next) && Peak(cfg, next, Own(key)) == Peak(cfg, steps, Own(key))
    ensures After(cfg, next).db.count == IncrBy(After(cfg, steps).db.count, cfg.canon(rec.key), rec.cost)
    ensures forall i :: 0 <= i < |After(cfg, steps).agents| && i != t && After(cfg, steps).agents[i].Settlement? ==>
      i < |After(cfg, next).agents| && After(cfg, next).agents[i] == After(cfg, steps).agents[i]
  {
    var drawn := Go(cfg, steps, Draw(t, Done));
    PeakKept(cfg, steps, Draw(t, Done), key);
    next := Go(cfg, drawn, Pay(t, rec.cost, Done));
    PeakKept(cfg, drawn, Pay(t, rec.cost, Done), key);
  }

  /** One request alone, settled twice at once, brings `count` beyond the bound: limit + limit with nothing else
      ever in flight. */
  lemma OverlappingSettlementsOvershoot(cfg: Config, key: Key, id: string) returns (steps: seq<Step>)
    requires cfg.canon(key) == key && id != ""
    ensures ValidRun(cfg, steps) && HonestRun(cfg, steps) && Peak(cfg, steps, Own(key)) == 0
    ensures GetInt(After(cfg, steps).db.count, key) == Limit(cfg, key) + Limit(cfg, key)
  {
    var cost := Limit(cfg, key);
    var rec := Record(key, cost, 0);
    steps := LoadOne(cfg, key, cost, id);
    steps := LoadAgain(cfg, steps, key, cost, id);
    steps := DrawAndPay(cfg, steps, 1, rec, key);
    steps := DrawAndPay(cfg, steps, 2, rec, key);
  }

  /** A Del that never reaches the server lets a later settlement draw the same cost again. */
  lemma LostDeleteDrawsTwice(cfg: Config, key: Key, cost: nat, id: string) returns (steps: seq<Step>)
    requires cfg.canon(key) == key && 0 < cost <= Limit(cfg, key) && id != ""
    ensures ValidRun(cfg, steps) && HonestRun(cfg, steps)
    ensures GetInt(After(cfg, steps).db.pending, key) == 0 - cost && !Conserved(After(cfg, steps))
  {
    steps := DrawAndLoseDelete(cfg, key, cost, id);
    steps := LoadAgain(cfg, steps, key, cost, id);
    steps := Go(cfg, steps, Draw(2, Done));
    TotalNonNegative(Owed(key), After(cfg, steps).agents);
  }

  /** A header that settlement spells differently leaves its own counter stuck and the other one negative. */
  lemma ForeignSpellingDrifts(cfg: Config, key: Key, cost: nat, id: string) returns (steps: seq<Step>)
    requires cfg.canon(key) != key && 0 < cost <= Limit(cfg, key) && id != ""
    ensures ValidRun(cfg, steps) && HonestRun(cfg, steps)
    ensures GetInt(After(cfg, steps).db.pending, key) == cost
    ensures GetInt(After(cfg, steps).db.pending, cfg.canon(key)) == 0 - cost && !Conserved(After(cfg, steps))
  {
    steps := LoadOne(cfg, key, cost, id);
    steps := Go(cfg, steps, Draw(1, Done));
    TotalNonNegative(Owed(cfg.canon(key)), After(cfg, steps).agents);
  }

  /** A settlement that begins and reads a record. */
  lemma BeginAndLoad(cfg: Config, steps: seq<Step>, id: string) returns (next: seq<Step>)
    requires ValidRun(cfg, steps) && DisciplinedRun(cfg, steps) && HonestRun(cfg, steps)
    requires id != "" && id in After(cfg, steps).db.records && Idle(After(cfg, steps).agents, id)
    ensures ValidRun(cfg, next) && DisciplinedRun(cfg, next) && HonestRun(cfg, next) && NoCheck(steps, next)
    ensures var s, s' := After(cfg, steps), After(cfg, next);
      s'.db == s.db && |s'.agents| == |s.agents| + 1 &&
      s'.agents[|s.agents|] == Settlement(id, Drawing(s.db.records[id]), None) &&
      forall i :: 0 <= i < |s.agents| ==> s'.agents[i] == s.agents[i] || (s.agents[i].Request? && s'.agents[i].Request?)
  {
    next := Go(cfg, steps, BeginSettlement(id));
    next := Go(cfg, next, Load(|After(cfg, steps).agents|, true));
  }

  /** The agents other than `t` stay what they are, up to marks on requests. */
  predicate OthersKept(agents: seq<Agent>, agents': seq<Agent>, t: nat) {
    |agents| == |agents'| && forall i :: 0 <= i < |agents| && i != t ==>
      agents'[i] == agents[i] || (agents[i].Request? && agents'[i].Request?)
  }

  /** Nothing is written for a cost of 0. */
  function AfterPay(count: map<Key, int>, key: Key, cost: int): map<Key, int> {
    if cost > 0 then IncrBy(count, key, cost) else count
  }

  /** A settlement that has read a record draws it and credits the whole cost. */
  lemma DrawAndPayAll(cfg: Config, steps: seq<Step>, t: nat) returns (next: seq<Step>)
    requires ValidRun(cfg, steps) && DisciplinedRun(cfg, steps) && HonestRun(cfg, steps)
    requires IsSettlement(After(cfg, steps), t)
    requires After(cfg, steps).agents[t].phase.Drawing? && After(cfg, steps).agents[t].phase.rec.cost >= 0
    ensures ValidRun(cfg, next) && DisciplinedRun(cfg, next) && HonestRun(cfg, next) && NoCheck(steps, next)
    ensures var s, s' := After(cfg, steps), After(cfg, next);
      var rec := s.agents[t].phase.rec;
      s'.db.count == AfterPay(s.db.count, cfg.canon(rec.key), rec.cost) && s'.db.records == s.db.records &&
      OthersKept(s.agents, s'.agents, t) && s'.agents[t].Settlement? && s'.agents[t].id == s.agents[t].id &&
      s'.agents[t].phase.Deleting?
  {
    var cost := After(cfg, steps).agents[t].phase.rec.cost;
    next := Go(cfg, steps, Draw(t, Done));
    next := Go(cfg, next, Pay(t, cost, Done));
  }

  /** ... and then deletes the record. */
  lemma FinishSettlement(cfg: Config, steps: seq<Step>, t: nat) returns (next: seq<Step>)
    requires ValidRun(cfg, steps) && DisciplinedRun(cfg, steps) && HonestRun(cfg, steps)
    requires IsSettlement(After(cfg, steps), t)
    requires After(cfg, steps).agents[t].phase.Drawing? && After(cfg, steps).agents[t].phase.rec.cost >= 0
    ensures ValidRun(cfg, next) && DisciplinedRun(cfg, next) && HonestRun(cfg, next) && NoCheck(steps, next)
    ensures var s, s' := After(cfg, steps), After(cfg, next);
      var rec := s.agents[t].phase.rec;
      s'.db.count == AfterPay(s.db.count, cfg.canon(rec.key), rec.cost) &&
      s'.db.records == s.db.records - {s.agents[t].id} && OthersKept(s.agents, s'.agents, t) &&
      s'.agents[t].Settlement? && s'.agents[t].phase.Finished?
  {
    next := DrawAndPayAll(cfg, steps, t);
    next := Go(cfg, next, Delete(t, Done));
  }

  /** A whole settlement of a stored request, with nobody in between. */
  lemma SettleWhole(cfg: Config, steps: seq<Step>, id: string) returns (next: seq<Step>)
    requires ValidRun(cfg, steps) && DisciplinedRun(cfg, steps) && HonestRun(cfg, steps)
    requires id != "" && id in After(cfg, steps).db.records && After(cfg, steps).db.records[id].cost >= 0
    requires Idle(After(cfg, steps).agents, id)
    ensures ValidRun(cfg, next) && DisciplinedRun(cfg, next) && HonestRun(cfg, next) && NoCheck(steps, next)
    ensures var s, s' := After(cfg, steps), After(cfg, next);
      var rec := s.db.records[id];
      s'.db.count == AfterPay(s.db.count, cfg.canon(rec.key), rec.cost) && s'.db.records == s.db.records - {id}
    ensures forall other :: Idle(After(cfg, steps).agents, other) ==> Idle(After(cfg, next).agents, other)
  {
    var loaded := BeginAndLoad(cfg, steps, id);
    next := FinishSettlement(cfg, loaded, |After(cfg, steps).agents|);
    FinishedStaysIdle(After(cfg, steps).agents, After(cfg, loaded).agents, After(cfg, next).agents, id);
  }

  lemma FinishedStaysIdle(before: seq<Agent>, loaded: seq<Agent>, after: seq<Agent>, id: string)
    requires |loaded| == |before| + 1 && OthersKept(loaded, after, |before|)
    requires forall i :: 0 <= i < |before| ==> loaded[i] == before[i] || (before[i].Request? && loaded[i].Request?)
    requires after[|before|].Settlement? && after[|before|].phase.Finished?
    ensures forall other :: Idle(before, other) ==> Idle(after, other)
  {
    forall other, i | Idle(before, other) && 0 <= i < |after|
      ensures !ActiveOn(after[i], other)
    {
      if i < |before| { assert !ActiveOn(before[i], other); }
    }
  }

  // ----- The bound is met, for every k and c -----

  /** The first `k` of the requests cost `c` each, the last one the whole limit. */
  function CostAt(cfg: Config, key: Key, k: nat, c: nat, j: nat): nat {
    if j < k then c else Limit(cfg, key)
  }

  function StoredAgents(cfg: Config, key: Key, ids: seq<string>, k: nat, c: nat, n: nat): (agents: seq<Agent>)
    requires n <= |ids|
    ensures |agents| == n
  {
    if n == 0 then [] else
      StoredAgents(cfg, key, ids, k, c, n - 1) +
      [Request(key, CostAt(cfg, key, k, c, n - 1), ids[n - 1], Forwarded, true, true)]
  }

  predicate AreDistinct(ids: seq<string>) {
    "" !in ids && forall i, j :: 0 <= i < j < |ids| ==> ids[i] != ids[j]
  }

  /** Requests `from` up to `n` have their records stored, and nothing else is. */
  predicate RecordsOf(cfg: Config, key: Key, ids: seq<string>, k: nat, c: nat, from: nat, n: nat,
                      records: map<string, Record>)
    requires from <= n <= |ids|
  {
    && (forall j :: from <= j < n ==> ids[j] in records && records[ids[j]] == Record(key, CostAt(cfg, key, k, c, j), j))
    && (forall id :: id in records ==> exists j :: from <= j < n && ids[j] == id)
  }

  lemma {:induction false} StoredHaveRoom(cfg: Config, key: Key, ids: seq<string>, k: nat, c: nat, n: nat)
    requires n <= |ids| && n <= k && c <= Limit(cfg, key)
    ensures RoomFor(key, StoredAgents(cfg, key, ids, k, c, n), k, c)
    ensures Total(Crowd(Own(key)), StoredAgents(cfg, key, ids, k, c, n)) <= n
  {
    if n > 0 {
      StoredHaveRoom(cfg, key, ids, k, c, n - 1);
      TotalAppend(Crowd(Own(key)), StoredAgents(cfg, key, ids, k, c, n - 1),
                  Request(key, CostAt(cfg, key, k, c, n - 1), ids[n - 1], Forwarded, true, true));
    }
  }

  lemma {:induction false} StoreMany(cfg: Config, key: Key, ids: seq<string>, k: nat, c: nat, n: nat)
    returns (steps: seq<Step>)
    requires cfg.canon(key) == key && AreDistinct(ids) && n <= |ids| == k + 1 && c <= Limit(cfg, key)
    ensures ValidRun(cfg, steps) && DisciplinedRun(cfg, steps) && HonestRun(cfg, steps)
    ensures CrowdedBy(cfg, steps, Own(key), k, c)
    ensures var s := After(cfg, steps);
      s.db.count == map[] && s.agents == StoredAgents(cfg, key, ids, k, c, n) &&
      RecordsOf(cfg, key, ids, k, c, 0, n, s.db.records)
  {
    steps := [];
    if n > 0 {
      var m := n - 1;
      var earlier := StoreMany(cfg, key, ids, k, c, m);
      StoredHaveRoom(cfg, key, ids, k, c, m);
      var cost := CostAt(cfg, key, k, c, m);
      var admitted := AdmitOne(cfg, earlier, key, cost, ids[m], k, c);
      steps := BookOne(cfg, admitted, StoredAgents(cfg, key, ids, k, c, m), key, cost, ids[m]);
      NoCheckKeepsCrowd(cfg, admitted, steps, key, k, c);
    }
  }

  /** What the requests from the `j`-th on cost together. */
  function CostFrom(cfg: Config, key: Key, k: nat, c: nat, j: nat): nat
    requires j <= k + 1
    decreases k + 1 - j
  {
    if j == k + 1 then 0 else CostAt(cfg, key, k, c, j) + CostFrom(cfg, key, k, c, j + 1)
  }

  lemma {:induction false} CostFromIs(cfg: Config, key: Key, k: nat, c: nat, j: nat)
    requires j <= k
    ensures CostFrom(cfg, key, k, c, j) == Limit(cfg, key) + (k - j) * c
    decreases k - j
  {
    if j < k { CostFromIs(cfg, key, k, c, j + 1); }
  }

  lemma {:induction false} SettleMany(cfg: Config, steps: seq<Step>, key: Key, ids: seq<string>, k: nat, c: nat, j: nat)
    returns (more: seq<Step>)
    requires cfg.canon(key) == key && AreDistinct(ids) && j <= |ids| == k + 1
    requires ValidRun(cfg, steps) && DisciplinedRun(cfg, steps) && HonestRun(cfg, steps)
    requires RecordsOf(cfg, key, ids, k, c, j, k + 1, After(cfg, steps).db.records)
    requires forall i :: j <= i <= k ==> Idle(After(cfg, steps).agents, ids[i])
    ensures ValidRun(cfg, more) && DisciplinedRun(cfg, more) && HonestRun(cfg, more) && NoCheck(steps, more)
    ensures GetInt(After(cfg, more).db.count, key) ==
      GetInt(After(cfg, steps).db.count, key) + CostFrom(cfg, key, k, c, j)
    decreases k + 1 - j
  {
    more := steps;
    if j <= k {
      var next := SettleWhole(cfg, steps, ids[j]);
      more := SettleMany(cfg, next, key, ids, k, c, j + 1);
    }
  }

  /** The bound is met, for every `k` and every `c` up to the limit: requests that all read `count` before any of them
      is settled are all admitted, with at most `k` others of cost at most `c` in flight, and `count` ends at
      limit + k * c. */
  lemma OvershootHappens(cfg: Config, key: Key, ids: seq<string>, k: nat, c: nat) returns (steps: seq<Step>)
    requires cfg.canon(key) == key && AreDistinct(ids) && |ids| == k + 1 && c <= Limit(cfg, key)
    ensures ValidRun(cfg, steps) && DisciplinedRun(cfg, steps) && HonestRun(cfg, steps)
    ensures CrowdedBy(cfg, steps, Own(key), k, c) && GetInt(After(cfg, steps).db.count, key) == Limit(cfg, key) + k * c
  {
    var stored := StoreMany(cfg, key, ids, k, c, k + 1);
    StoredAreRequests(cfg, key, ids, k, c, k + 1);
    steps := SettleMany(cfg, stored, key, ids, k, c, 0);
    NoCheckKeepsCrowd(cfg, stored, steps, key, k, c);
    CostFromIs(cfg, key, k, c, 0);
  }

  lemma {:induction false} StoredAreRequests(cfg: Config, key: Key, ids: seq<string>, k: nat, c: nat, n: nat)
    requires n <= |ids|
    ensures forall t :: 0 <= t < n ==> StoredAgents(cfg, key, ids, k, c, n)[t].Request?
  {
    if n > 0 { StoredAreRequests(cfg, key, ids, k, c, n - 1); }
  }

  // ----- Keys that settlement spells differently -----

  lemma InFlightOneMore(acc: Account, agents: seq<Agent>, a: Agent, n: nat, cost: nat)
    requires IsInFlight(a, acc) && CostOf(a) == cost && Total(InFlight(acc), agents) == n * cost
    ensures Total(InFlight(acc), agents + [a]) == (n + 1) * cost
  {
    TotalAppend(InFlight(acc), agents, a);
  }

  lemma {:induction false} AdmitMany(cfg: Config, key: Key, cost: nat, ids: seq<string>) returns (steps: seq<Step>)
    requires cost <= Limit(cfg, key) && "" !in ids
    ensures ValidRun(cfg, steps) && HonestRun(cfg, steps) && After(cfg, steps).db.count == map[]
    ensures Total(InFlight(CounterOf(cfg, cfg.canon(key))), After(cfg, steps).agents) == |ids| * cost
    decreases |ids|
  {
    steps := [];
    if ids != [] {
      var n := |ids| - 1;
      var earlier := AdmitMany(cfg, key, cost, ids[..n]);
      var agents := After(cfg, earlier).agents;
      steps := AdmitOne(cfg, earlier, key, cost, ids[n], 0, 0);
      var admitted := Request(key, cost, ids[n], Admitted, false, true);
      InFlightOneMore(CounterOf(cfg, cfg.canon(key)), agents, admitted, n, cost);
    }
  }

  /** Under a key that settlement spells differently nothing is ever counted, so every request within the limit is
      admitted, and together they bring the counter their settlements pay into as high as one likes. */
  lemma ForeignSpellingEscapes(cfg: Config, key: Key, cost: nat, ids: seq<string>) returns (steps: seq<Step>)
    requires cfg.canon(key) != key && cost <= Limit(cfg, key) && "" !in ids
    ensures ValidRun(cfg, steps) && HonestRun(cfg, steps)
    ensures GetInt(After(cfg, steps).db.count, cfg.canon(key)) == |ids| * cost
  {
    var admitted := AdmitMany(cfg, key, cost, ids);
    RunKeepsCosts(cfg, admitted);
    steps := PayAll(cfg, admitted, CounterOf(cfg, cfg.canon(key)));
    GoesOnHonestly(cfg, admitted, steps, CounterOf(cfg, cfg.canon(key)));
  }
}
