/**
 How far `count` can exceed the limit. What is counted and what is in flight for an account, which is a counter with
 the keys that are taken to belong to it, form its exposure; every Redis command changes it by an exact amount. From
 this follow the bound on every run, the steps that break it, and which exposures a run can go on to turn into `count`.
 */
module QuotaBound {
  import opened Quota

  // ----- Honest runs have costs that are not negative -----

  predicate CostsNonNegative(agents: seq<Agent>) {
    forall i :: 0 <= i < |agents| ==> CostOf(agents[i]) >= 0
  }

  lemma BetweenKeepsCosts(s: State, step: Step)
    requires WellFormed(s) && Enabled(s, step) && CostsNonNegative(s.agents)
    ensures CostsNonNegative(Between(s, step))
  {
    forall i | 0 <= i < |s.agents|
      ensures CostOf(Between(s, step)[i]) >= 0
    {
      assert CostOf(s.agents[i]) >= 0;
    }
  }

  lemma StepKeepsCosts(cfg: Config, s: State, step: Step)
    requires WellFormed(s) && Enabled(s, step) && Honest(s, step) && CostsNonNegative(s.agents)
    ensures CostsNonNegative(Apply(cfg, s, step).agents)
  {
    StepShape(cfg, s, step);
    BetweenKeepsCosts(s, step);
    var i := Actor(s, step);
    if i < |s.agents| { assert CostOf(s.agents[i]) >= 0; }
    if step.Load? && step.ok && s.agents[step.t].id in s.db.records {
      var rec := s.db.records[s.agents[step.t].id];
      assert RecordFits(s.agents, s.agents[step.t].id, rec) && CostOf(s.agents[rec.owner]) >= 0;
    }
  }

  lemma {:induction false} RunKeepsCosts(cfg: Config, steps: seq<Step>)
    requires ValidRun(cfg, steps) && HonestRun(cfg, steps)
    ensures CostsNonNegative(After(cfg, steps).agents)
  {
    if steps != [] {
      RunKeepsCosts(cfg, steps[..|steps| - 1]);
      RunIsWellFormed(cfg, steps[..|steps| - 1]);
      StepKeepsCosts(cfg, After(cfg, steps[..|steps| - 1]), steps[|steps| - 1]);
    }
  }

  // ----- What one command does to the exposure -----

  function Exposure(s: State, acc: Account): int {
    GetInt(s.db.count, acc.key) + Total(InFlight(acc), s.agents)
  }

  /** An admission under any of the account's keys. */
  predicate AdmitsSpelling(cfg: Config, s: State, step: Step, acc: Account)
    requires Enabled(s, step)
  {
    step.ReadCount? && acc.spellings(s.agents[step.r].key) && Admits(cfg, s, step.r)
  }

  /** An admission under the counter's own key, which is the one that reads this counter. */
  predicate AdmitsKey(cfg: Config, s: State, step: Step, acc: Account)
    requires Enabled(s, step)
  {
    step.ReadCount? && s.agents[step.r].key == acc.key && Admits(cfg, s, step.r)
  }

  function Admission(cfg: Config, s: State, step: Step, acc: Account): int
    requires Enabled(s, step)
  {
    if AdmitsSpelling(cfg, s, step, acc) && s.agents[step.r].id != "" then s.agents[step.r].cost else 0
  }

  /** An admission under another of the account's keys: it is checked against another counter. */
  function Unchecked(cfg: Config, s: State, step: Step, acc: Account): int
    requires Enabled(s, step)
  {
    if AdmitsKey(cfg, s, step, acc) then 0 else Admission(cfg, s, step, acc)
  }

  /** A Load that finds a record of the account. */
  predicate LoadsKey(s: State, step: Step, acc: Account)
    requires Enabled(s, step)
  {
    step.Load? && step.ok && s.agents[step.t].id in s.db.records && acc.spellings(s.db.records[s.agents[step.t].id].key)
  }

  /** What an IncrBy of `count` adds to the account's counter. */
  function PaidTo(cfg: Config, s: State, step: Step, acc: Account): int
    requires Enabled(s, step)
  {
    if step.Pay? && step.success > 0 && step.outcome.Applied() && cfg.canon(s.agents[step.t].phase.rec.key) == acc.key
    then step.success else 0
  }

  /** Cost that comes from nowhere: a settlement loads a record that another one already has, or that was paid; or
      a settlement of a key outside the account pays into its counter. */
  function Inflation(cfg: Config, s: State, step: Step, acc: Account): int
    requires WellFormed(s) && Enabled(s, step)
  {
    if LoadsKey(s, step, acc) then
      var rec := s.db.records[s.agents[step.t].id];
      assert RecordFits(s.agents, s.agents[step.t].id, rec);
      if s.agents[rec.owner].open then 0 else rec.cost
    else if step.Pay? && !acc.spellings(s.agents[step.t].phase.rec.key) then PaidTo(cfg, s, step, acc)
    else 0
  }

  function Flight(s: State, i: nat, acc: Account): int
    requires i < |s.agents|
  {
    Weight(InFlight(acc), s.agents[i])
  }

  /** What the owner of the record has in flight that the step releases. */
  function Released(s: State, step: Step, acc: Account): int
    requires WellFormed(s) && Enabled(s, step)
  {
    if Releases(s, step).Some? && Releases(s, step).value in s.db.records then
      assert RecordFits(s.agents, Releases(s, step).value, s.db.records[Releases(s, step).value]);
      Flight(s, s.db.records[Releases(s, step).value].owner, acc)
    else 0
  }

  /** Cost that will never be paid, and what the settlement service takes out. */
  function Lost(cfg: Config, s: State, step: Step, acc: Account): int
    requires WellFormed(s) && Enabled(s, step)
  {
    match step
    case AddPending(r, outcome) => if outcome.Done? then 0 else Flight(s, r, acc)
    case SaveRecord(r, outcome) => if outcome.Applied() then Released(s, step, acc) else Flight(s, r, acc)
    case Draw(t, outcome) => if outcome.Done? then 0 else Flight(s, t, acc)
    case Pay(t, _, _) =>
      if acc.spellings(s.agents[t].phase.rec.key) then s.agents[t].phase.rec.cost - PaidTo(cfg, s, step, acc) else 0
    case Delete(_, _) => Released(s, step, acc)
    case Expire(_) => Released(s, step, acc)
    case SettleOut(k, amount) => if k == acc.key then amount else 0
    case _ => 0
  }

  /** What the own move of a step adds to the cost in flight. */
  function OwnFlow(cfg: Config, s: State, step: Step, acc: Account): int
    requires WellFormed(s) && Enabled(s, step)
  {
    match step
    case ReadCount(_) => Admission(cfg, s, step, acc)
    case AddPending(r, outcome) => if outcome.Done? then 0 else -Flight(s, r, acc)
    case SaveRecord(r, outcome) => if outcome.Applied() then 0 else -Flight(s, r, acc)
    case Load(t, _) => if LoadsKey(s, step, acc) then s.db.records[s.agents[t].id].cost else 0
    case Draw(t, outcome) => if outcome.Done? then 0 else -Flight(s, t, acc)
    case Pay(t, _, _) => -Flight(s, t, acc)
    case _ => 0
  }

  lemma RequestFlow(cfg: Config, s: State, step: Step, acc: Account)
    requires WellFormed(s) && Enabled(s, step) && IsRequestStep(step)
    ensures OwnGain(cfg, InFlight(acc), s, step) == OwnFlow(cfg, s, step, acc)
  {
    var i := Actor(s, step);
    StepShape(cfg, s, step);
    if i < |s.agents| { assert AgentFits(s.agents, s.agents[i]); }
  }

  lemma SettlementFlow(cfg: Config, s: State, step: Step, acc: Account)
    requires WellFormed(s) && Enabled(s, step) && !IsRequestStep(step)
    ensures OwnGain(cfg, InFlight(acc), s, step) == OwnFlow(cfg, s, step, acc)
  {
    var i := Actor(s, step);
    StepShape(cfg, s, step);
    if i < |s.agents| { assert AgentFits(s.agents, s.agents[i]); }
  }

  lemma CountMoves(cfg: Config, s: State, step: Step, acc: Account)
    requires Enabled(s, step)
    ensures GetInt(Apply(cfg, s, step).db.count, acc.key) == GetInt(s.db.count, acc.key) + PaidTo(cfg, s, step, acc) -
      (if step.SettleOut? && step.key == acc.key then step.amount else 0)
  {}

  /** What a Load takes over from the record's owner, and what it makes up. */
  lemma LoadFlow(cfg: Config, s: State, step: Step, acc: Account)
    requires WellFormed(s) && Enabled(s, step) && step.Load?
    ensures OwnFlow(cfg, s, step, acc) - Released(s, step, acc) == Inflation(cfg, s, step, acc)
  {
    assert AgentFits(s.agents, s.agents[step.t]);
    if step.ok && s.agents[step.t].id in s.db.records {
      assert RecordFits(s.agents, s.agents[step.t].id, s.db.records[s.agents[step.t].id]);
    }
  }

  /** The balance of every step, in every run: exposure grows by what is admitted and by what comes from nowhere,
      and shrinks by what is lost. */
  lemma FlowBalance(cfg: Config, s: State, step: Step, acc: Account)
    requires WellFormed(s) && Enabled(s, step)
    ensures Exposure(Apply(cfg, s, step), acc) == Exposure(s, acc) +
      Admission(cfg, s, step, acc) + Inflation(cfg, s, step, acc) - Lost(cfg, s, step, acc)
  {
    StepTotal(cfg, InFlight(acc), s, step);
    BetweenInFlight(acc, s, step);
    CountMoves(cfg, s, step, acc);
    if IsRequestStep(step) { RequestFlow(cfg, s, step, acc); } else { SettlementFlow(cfg, s, step, acc); }
    if step.Load? { LoadFlow(cfg, s, step, acc); }
  }

  lemma LossIsLoss(cfg: Config, s: State, step: Step, acc: Account)
    requires WellFormed(s) && CostsNonNegative(s.agents) && Enabled(s, step) && Honest(s, step)
    ensures Lost(cfg, s, step, acc) >= 0 && Inflation(cfg, s, step, acc) >= 0 && Admission(cfg, s, step, acc) >= 0
  {
    if step.Draw? || step.Pay? { assert CostOf(s.agents[step.t]) >= 0; }
    if step.ReadCount? || step.AddPending? || step.SaveRecord? { assert CostOf(s.agents[step.r]) >= 0; }
    if Releases(s, step).Some? && Releases(s, step).value in s.db.records {
      var rec := s.db.records[Releases(s, step).value];
      assert RecordFits(s.agents, Releases(s, step).value, rec) && CostOf(s.agents[rec.owner]) >= 0;
    }
  }

  /** Other than by an admission that reads this counter, exposure grows exactly when a request with a cost is admitted
      under another of the account's keys, a settlement loads a record with a cost that its owner no longer has in
      flight, or one of a key outside the account pays into its counter. An admission that reads the counter keeps it
      within the limit plus what was in flight. */
  lemma ExposureGrowsIff(cfg: Config, s: State, step: Step, acc: Account)
    requires WellFormed(s) && CostsNonNegative(s.agents) && Enabled(s, step) && Honest(s, step)
    ensures var s' := Apply(cfg, s, step);
      if AdmitsKey(cfg, s, step, acc) then Exposure(s', acc) <= Limit(cfg, acc.key) + Total(InFlight(acc), s.agents)
      else
        (Exposure(s', acc) > Exposure(s, acc) <==>
          (AdmitsSpelling(cfg, s, step, acc) && s.agents[step.r].id != "" && s.agents[step.r].cost > 0)
          || (LoadsKey(s, step, acc) &&
           var rec := s.db.records[s.agents[step.t].id];
           RecordFits(s.agents, s.agents[step.t].id, rec) && rec.cost > 0 && !s.agents[rec.owner].open)
          || (step.Pay? && !acc.spellings(s.agents[step.t].phase.rec.key) && PaidTo(cfg, s, step, acc) > 0))
  {
    FlowBalance(cfg, s, step, acc);
    LossIsLoss(cfg, s, step, acc);
    if LoadsKey(s, step, acc) {
      var rec := s.db.records[s.agents[step.t].id];
      assert RecordFits(s.agents, s.agents[step.t].id, rec);
    }
    if step.ReadCount? { assert CostOf(s.agents[step.r]) >= 0; }
  }

  // ----- The bound, in every honest run -----

  /** The largest cost in flight just before an admission that reads the account's counter. */
  function Peak(cfg: Config, steps: seq<Step>, acc: Account): (peak: nat)
    requires ValidRun(cfg, steps)
  {
    if steps == [] then 0 else
      var earlier := Peak(cfg, steps[..|steps| - 1], acc);
      var s := After(cfg, steps[..|steps| - 1]);
      if AdmitsKey(cfg, s, steps[|steps| - 1], acc) && Total(InFlight(acc), s.agents) > earlier
      then Total(InFlight(acc), s.agents) else earlier
  }

  /** All the cost that came from nowhere in the run, and all that was checked against another counter. */
  function Inflated(cfg: Config, steps: seq<Step>, acc: Account): int
    requires ValidRun(cfg, steps)
  {
    if steps == [] then 0 else
      var before := steps[..|steps| - 1];
      RunIsWellFormed(cfg, before);
      Inflated(cfg, before, acc) + Inflation(cfg, After(cfg, before), steps[|steps| - 1], acc) +
      Unchecked(cfg, After(cfg, before), steps[|steps| - 1], acc)
  }

  lemma {:induction false} InflatedNonNegative(cfg: Config, steps: seq<Step>, acc: Account)
    requires ValidRun(cfg, steps) && HonestRun(cfg, steps)
    ensures Inflated(cfg, steps, acc) >= 0
  {
    if steps != [] {
      var before := steps[..|steps| - 1];
      InflatedNonNegative(cfg, before, acc);
      RunIsWellFormed(cfg, before);
      RunKeepsCosts(cfg, before);
      LossIsLoss(cfg, After(cfg, before), steps[|steps| - 1], acc);
    }
  }

  /** The overshoot bound: in every honest run, whatever overlaps, fails or expires, and for every counter with
      whatever keys are counted for it, `count` plus the cost still in flight is at most the limit, plus the largest
      cost in flight just before an admission that read the counter, plus what came from nowhere or was checked
      elsewhere. */
  lemma {:induction false} Overshoot(cfg: Config, steps: seq<Step>, acc: Account)
    requires ValidRun(cfg, steps) && HonestRun(cfg, steps)
    ensures var s := After(cfg, steps);
      GetInt(s.db.count, acc.key) <= Exposure(s, acc) <=
      Limit(cfg, acc.key) + Peak(cfg, steps, acc) + Inflated(cfg, steps, acc)
  {
    RunKeepsCosts(cfg, steps);
    TotalNonNegative(InFlight(acc), After(cfg, steps).agents);
    if steps != [] {
      var before, step := steps[..|steps| - 1], steps[|steps| - 1];
      var s := After(cfg, before);
      Overshoot(cfg, before, acc);
      RunIsWellFormed(cfg, before);
      RunKeepsCosts(cfg, before);
      FlowBalance(cfg, s, step, acc);
      LossIsLoss(cfg, s, step, acc);
      ExposureGrowsIff(cfg, s, step, acc);
      InflatedNonNegative(cfg, before, acc);
    }
  }

  /** The account counts its own key, if that is paid into it, and nothing that is paid elsewhere. */
  ghost predicate Sensible(cfg: Config, acc: Account) {
    && (cfg.canon(acc.key) == acc.key ==> acc.spellings(acc.key))
    && forall k :: acc.spellings(k) ==> k == acc.key || cfg.canon(k) == acc.key
  }

  lemma BothSensible(cfg: Config, key: Key)
    ensures Sensible(cfg, Own(key)) && Sensible(cfg, CounterOf(cfg, key))
  {}

  lemma OrderlyDoesNotInflate(cfg: Config, s: State, step: Step, acc: Account)
    requires Orderly(cfg, s) && Enabled(s, step) && Sensible(cfg, acc)
    ensures Inflation(cfg, s, step, acc) == 0 && Unchecked(cfg, s, step, acc) == 0
  {
    if LoadsKey(s, step, acc) {
      LoadedRecordIsOpen(cfg, s, step.t);
    } else if step.Pay? {
      assert AgentFits(s.agents, s.agents[step.t]);
      var owner := s.agents[step.t].phase.rec.owner;
      assert cfg.canon(s.agents[owner].key) == s.agents[owner].key;
    } else if step.ReadCount? {
      assert cfg.canon(s.agents[step.r].key) == s.agents[step.r].key;
    }
  }

  lemma {:induction false} DisciplinedDoesNotInflate(cfg: Config, steps: seq<Step>, acc: Account)
    requires ValidRun(cfg, steps) && DisciplinedRun(cfg, steps) && Sensible(cfg, acc)
    ensures Inflated(cfg, steps, acc) == 0
  {
    if steps != [] {
      var before := steps[..|steps| - 1];
      DisciplinedDoesNotInflate(cfg, before, acc);
      DisciplinedRunIsOrderly(cfg, before);
      OrderlyDoesNotInflate(cfg, After(cfg, before), steps[|steps| - 1], acc);
    }
  }

  /** With one settlement at a time per request, and keys that settlement spells alike, nothing comes from
      nowhere. */
  lemma DisciplinedOvershoot(cfg: Config, steps: seq<Step>, acc: Account)
    requires ValidRun(cfg, steps) && DisciplinedRun(cfg, steps) && HonestRun(cfg, steps) && Sensible(cfg, acc)
    ensures Exposure(After(cfg, steps), acc) <= Limit(cfg, acc.key) + Peak(cfg, steps, acc)
  {
    Overshoot(cfg, steps, acc);
    DisciplinedDoesNotInflate(cfg, steps, acc);
  }

  /** At every admission that reads the counter at most `k` agents are in flight for it, each with cost at most `c`. */
  predicate CrowdedBy(cfg: Config, steps: seq<Step>, acc: Account, k: nat, c: nat)
    requires ValidRun(cfg, steps)
  {
    steps == [] ||
    (CrowdedBy(cfg, steps[..|steps| - 1], acc, k, c) &&
     var s := After(cfg, steps[..|steps| - 1]);
     AdmitsKey(cfg, s, steps[|steps| - 1], acc) ==>
       Total(Crowd(acc), s.agents) <= k && CostsUpTo(acc, s.agents, c))
  }

  predicate CostsUpTo(acc: Account, agents: seq<Agent>, c: nat) {
    forall i :: 0 <= i < |agents| && IsInFlight(agents[i], acc) ==> CostOf(agents[i]) <= c
  }

  lemma {:induction false} InFlightByCrowd(acc: Account, agents: seq<Agent>, c: nat)
    requires CostsUpTo(acc, agents, c)
    ensures Total(InFlight(acc), agents) <= Total(Crowd(acc), agents) * c
    ensures Total(Crowd(acc), agents) >= 0
  {
    if agents != [] {
      InFlightByCrowd(acc, agents[..|agents| - 1], c);
    }
  }

  lemma TimesMonotone(x: int, y: int, c: nat)
    requires x <= y
    ensures x * c <= y * c
  {}

  lemma {:induction false} PeakByCrowd(cfg: Config, steps: seq<Step>, acc: Account, k: nat, c: nat)
    requires ValidRun(cfg, steps) && CrowdedBy(cfg, steps, acc, k, c)
    ensures Peak(cfg, steps, acc) <= k * c
  {
    if steps != [] {
      var s := After(cfg, steps[..|steps| - 1]);
      PeakByCrowd(cfg, steps[..|steps| - 1], acc, k, c);
      if AdmitsKey(cfg, s, steps[|steps| - 1], acc) {
        InFlightByCrowd(acc, s.agents, c);
        TimesMonotone(Total(Crowd(acc), s.agents), k, c);
      }
    }
  }

  /** With at most `k` other requests of cost at most `c` in flight at each admission, `count` stays within
      limit + k * c in every honest run without inflation; with none (`k == 0`), within the limit. */
  lemma OvershootByCrowd(cfg: Config, steps: seq<Step>, acc: Account, k: nat, c: nat)
    requires ValidRun(cfg, steps) && HonestRun(cfg, steps) && CrowdedBy(cfg, steps, acc, k, c)
    ensures GetInt(After(cfg, steps).db.count, acc.key) <= Limit(cfg, acc.key) + k * c + Inflated(cfg, steps, acc)
    ensures DisciplinedRun(cfg, steps) && Sensible(cfg, acc) ==>
      GetInt(After(cfg, steps).db.count, acc.key) <= Limit(cfg, acc.key) + k * c
  {
    Overshoot(cfg, steps, acc);
    PeakByCrowd(cfg, steps, acc, k, c);
    if DisciplinedRun(cfg, steps) && Sensible(cfg, acc) { DisciplinedDoesNotInflate(cfg, steps, acc); }
  }
}
