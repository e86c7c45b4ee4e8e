/**
 Which counts a run can still reach: all the exposure of a counter, and no more, can end up in `count` without another
 admission. So an admission lets `count` pass the limit exactly when the exposure it leaves does.
 */
module QuotaReach {
  import opened Wrappers
  import opened Quota
  import opened QuotaBound

  /** `more` goes on from `steps` honestly, without an admission to the account and without inflating it. */
  predicate GoesOn(cfg: Config, steps: seq<Step>, more: seq<Step>, acc: Account)
    requires ValidRun(cfg, steps) && ValidRun(cfg, more)
    decreases |more|
  {
    steps == more ||
    (|steps| < |more| &&
     var before := more[..|more| - 1];
     var s, step := After(cfg, before), more[|more| - 1];
     RunIsWellFormed(cfg, before);
     GoesOn(cfg, steps, before, acc) && Honest(s, step) && !AdmitsSpelling(cfg, s, step, acc) &&
     Inflation(cfg, s, step, acc) == 0)
  }

  lemma {:induction false} ExposureOnlyFalls(cfg: Config, steps: seq<Step>, more: seq<Step>, acc: Account)
    requires ValidRun(cfg, steps) && ValidRun(cfg, more) && GoesOn(cfg, steps, more, acc)
    requires CostsNonNegative(After(cfg, steps).agents)
    ensures CostsNonNegative(After(cfg, more).agents)
    ensures GetInt(After(cfg, more).db.count, acc.key) <= Exposure(After(cfg, more), acc) <=
      Exposure(After(cfg, steps), acc)
    decreases |more|
  {
    if steps != more {
      var before, step := more[..|more| - 1], more[|more| - 1];
      var s := After(cfg, before);
      ExposureOnlyFalls(cfg, steps, before, acc);
      RunIsWellFormed(cfg, before);
      FlowBalance(cfg, s, step, acc);
      LossIsLoss(cfg, s, step, acc);
      StepKeepsCosts(cfg, s, step);
    }
    TotalNonNegative(InFlight(acc), After(cfg, more).agents);
  }

  lemma {:induction false} GoesOnTwice(cfg: Config, a: seq<Step>, b: seq<Step>, c: seq<Step>, acc: Account)
    requires ValidRun(cfg, a) && ValidRun(cfg, b) && ValidRun(cfg, c)
    requires GoesOn(cfg, a, b, acc) && GoesOn(cfg, b, c, acc)
    ensures GoesOn(cfg, a, c, acc) && |a| <= |b|
    decreases |c|
  {
    if b != c {
      GoesOnTwice(cfg, a, b, c[..|c| - 1], acc);
    }
  }

  lemma {:induction false} GoesOnHonestly(cfg: Config, steps: seq<Step>, more: seq<Step>, acc: Account)
    requires ValidRun(cfg, steps) && ValidRun(cfg, more) && GoesOn(cfg, steps, more, acc) && HonestRun(cfg, steps)
    ensures HonestRun(cfg, more)
    decreases |more|
  {
    if steps != more {
      GoesOnHonestly(cfg, steps, more[..|more| - 1], acc);
    }
  }

  // ----- An open request past RequestFilter has its record stored -----

  predicate Stored(s: State, r: nat) {
    r < |s.agents| && s.agents[r].Request? && s.agents[r].id in s.db.records &&
    s.db.records[s.agents[r].id].owner == r
  }

  predicate Filtered(a: Agent) {
    a.Request? && a.open && (a.stage.Forwarded? || a.stage.Refused?)
  }

  predicate OpenStored(s: State) {
    forall r :: 0 <= r < |s.agents| && Filtered(s.agents[r]) ==> Stored(s, r)
  }

  lemma FilteredBefore(cfg: Config, s: State, step: Step, r: nat)
    requires WellFormed(s) && Enabled(s, step)
    requires r < |Apply(cfg, s, step).agents| && Filtered(Apply(cfg, s, step).agents[r])
    ensures r < |s.agents| && s.agents[r].Request? && s.agents[r].id == Apply(cfg, s, step).agents[r].id
    ensures Filtered(s.agents[r]) || (step.SaveRecord? && step.outcome.Applied() && step.r == r)
  {
    if r < |s.agents| { assert AgentFits(s.agents, s.agents[r]); }
  }

  lemma StaysStored(cfg: Config, s: State, step: Step, r: nat)
    requires WellFormed(s) && Enabled(s, step) && Stored(s, r) && Filtered(s.agents[r])
    requires r < |Apply(cfg, s, step).agents| && Filtered(Apply(cfg, s, step).agents[r])
    requires Apply(cfg, s, step).agents[r].id == s.agents[r].id
    ensures Stored(Apply(cfg, s, step), r)
  {
    var id := s.agents[r].id;
    if Releases(s, step) == Some(id) {
      ReleaseCloses(cfg, s, step, r);
    } else {
      RecordKept(cfg, s, step, id);
    }
  }

  lemma ReleaseCloses(cfg: Config, s: State, step: Step, r: nat)
    requires WellFormed(s) && Enabled(s, step) && Stored(s, r) && Filtered(s.agents[r])
    requires Releases(s, step) == Some(s.agents[r].id)
    ensures r < |Apply(cfg, s, step).agents| && !Filtered(Apply(cfg, s, step).agents[r])
  {
    StepShape(cfg, s, step);
  }

  lemma RecordKept(cfg: Config, s: State, step: Step, id: string)
    requires Enabled(s, step) && id in s.db.records && Releases(s, step) != Some(id)
    ensures id in Apply(cfg, s, step).db.records && Apply(cfg, s, step).db.records[id] == s.db.records[id]
  {}

  lemma StepKeepsOpenStored(cfg: Config, s: State, step: Step)
    requires WellFormed(s) && OpenStored(s) && Enabled(s, step)
    ensures OpenStored(Apply(cfg, s, step))
  {
    var s' := Apply(cfg, s, step);
    forall r | 0 <= r < |s'.agents| && Filtered(s'.agents[r])
      ensures Stored(s', r)
    {
      FilteredBefore(cfg, s, step, r);
      if Filtered(s.agents[r]) { StaysStored(cfg, s, step, r); }
    }
  }

  lemma {:induction false} RunKeepsOpenStored(cfg: Config, steps: seq<Step>)
    requires ValidRun(cfg, steps)
    ensures OpenStored(After(cfg, steps))
  {
    if steps != [] {
      RunKeepsOpenStored(cfg, steps[..|steps| - 1]);
      RunIsWellFormed(cfg, steps[..|steps| - 1]);
      StepKeepsOpenStored(cfg, After(cfg, steps[..|steps| - 1]), steps[|steps| - 1]);
    }
  }

  // ----- Paying all that is in flight -----

  /** Settlements of all the account's keys pay into its counter. */
  ghost predicate PaidHere(cfg: Config, acc: Account) {
    forall k :: acc.spellings(k) ==> cfg.canon(k) == acc.key
  }

  /** A command by which no exposure is lost. */
  predicate Lossless(cfg: Config, s: State, step: Step, acc: Account)
    requires WellFormed(s) && Enabled(s, step)
  {
    Honest(s, step) && !AdmitsSpelling(cfg, s, step, acc) && Inflation(cfg, s, step, acc) == 0 &&
      Lost(cfg, s, step, acc) == 0
  }

  lemma OneCommand(cfg: Config, steps: seq<Step>, step: Step, acc: Account) returns (next: seq<Step>)
    requires ValidRun(cfg, steps) && WellFormed(After(cfg, steps)) && Enabled(After(cfg, steps), step)
    requires Lossless(cfg, After(cfg, steps), step, acc)
    ensures ValidRun(cfg, next) && GoesOn(cfg, steps, next, acc)
    ensures After(cfg, next) == Apply(cfg, After(cfg, steps), step)
    ensures Exposure(After(cfg, next), acc) == Exposure(After(cfg, steps), acc)
  {
    next := Go(cfg, steps, step);
    assert next[..|next| - 1] == steps && next[|next| - 1] == step;
    FlowBalance(cfg, After(cfg, steps), step, acc);
  }

  /** The next command of an agent in flight. */
  predicate Advances(s: State, i: nat, acc: Account, step: Step) {
    i < |s.agents| && IsInFlight(s.agents[i], acc) &&
    match s.agents[i]
    case Request(_, _, _, stage, _, _) =>
      (stage.Admitted? && step == AddPending(i, Done)) || (stage.Counted? && step == SaveRecord(i, Done))
    case Settlement(_, phase, _) =>
      (phase.Drawing? && step == Draw(i, Done)) || (phase.Crediting? && step == Pay(i, phase.rec.cost, Done))
  }

  /** Saving a record is lossless once no stored request is in flight. */
  predicate NoneFiltered(s: State, acc: Account) {
    forall r :: 0 <= r < |s.agents| && IsInFlight(s.agents[r], acc) ==> !Filtered(s.agents[r])
  }

  lemma AdvanceIsLossless(cfg: Config, s: State, i: nat, acc: Account, step: Step)
    requires WellFormed(s) && CostsNonNegative(s.agents) && PaidHere(cfg, acc)
    requires Advances(s, i, acc, step) && (step.SaveRecord? ==> NoneFiltered(s, acc))
    ensures Enabled(s, step) && Lossless(cfg, s, step, acc)
  {
    assert CostOf(s.agents[i]) >= 0;
    if step.SaveRecord? && s.agents[i].id in s.db.records {
      assert RecordFits(s.agents, s.agents[i].id, s.db.records[s.agents[i].id]);
    }
  }

  lemma RequestWorks(cfg: Config, s: State, i: nat, acc: Account, step: Step)
    requires WellFormed(s) && Advances(s, i, acc, step) && Enabled(s, step) && s.agents[i].Request?
    ensures Total(Work(acc), Apply(cfg, s, step).agents) < Total(Work(acc), s.agents)
  {
    StepTotal(cfg, Work(acc), s, step);
    TouchOwner(Work(acc), s, step);
    assert OwnGain(cfg, Work(acc), s, step) == -1;
  }

  lemma SettlementWorks(cfg: Config, s: State, i: nat, acc: Account, step: Step)
    requires WellFormed(s) && Advances(s, i, acc, step) && Enabled(s, step) && s.agents[i].Settlement?
    ensures Total(Work(acc), Apply(cfg, s, step).agents) < Total(Work(acc), s.agents)
  {
    StepTotal(cfg, Work(acc), s, step);
    TouchOwner(Work(acc), s, step);
    assert OwnGain(cfg, Work(acc), s, step) == -1;
  }

  lemma Advance(cfg: Config, steps: seq<Step>, i: nat, acc: Account, step: Step) returns (next: seq<Step>)
    requires ValidRun(cfg, steps) && PaidHere(cfg, acc) && CostsNonNegative(After(cfg, steps).agents)
    requires Advances(After(cfg, steps), i, acc, step) && (step.SaveRecord? ==> NoneFiltered(After(cfg, steps), acc))
    ensures ValidRun(cfg, next) && GoesOn(cfg, steps, next, acc)
    ensures Exposure(After(cfg, next), acc) == Exposure(After(cfg, steps), acc)
    ensures Total(Work(acc), After(cfg, next).agents) < Total(Work(acc), After(cfg, steps).agents)
  {
    RunIsWellFormed(cfg, steps);
    AdvanceIsLossless(cfg, After(cfg, steps), i, acc, step);
    if After(cfg, steps).agents[i].Request? {
      RequestWorks(cfg, After(cfg, steps), i, acc, step);
    } else {
      SettlementWorks(cfg, After(cfg, steps), i, acc, step);
    }
    next := OneCommand(cfg, steps, step, acc);
  }

  lemma TakeOverWorks(cfg: Config, s: State, r: nat, acc: Account, t: nat)
    requires WellFormed(s) && Stored(s, r) && Filtered(s.agents[r]) && IsInFlight(s.agents[r], acc)
    requires IsSettlement(s, t) && s.agents[t].phase.Loading? && s.agents[t].id == s.agents[r].id
    ensures Lossless(cfg, s, Load(t, true), acc)
    ensures Total(Work(acc), Apply(cfg, s, Load(t, true)).agents) < Total(Work(acc), s.agents)
  {
    var step := Load(t, true);
    assert RecordFits(s.agents, s.agents[r].id, s.db.records[s.agents[r].id]);
    StepTotal(cfg, Work(acc), s, step);
    TouchOwner(Work(acc), s, step);
    StepShape(cfg, s, step);
  }

  lemma BeginState(cfg: Config, s: State, id: string, acc: Account)
    requires WellFormed(s) && id != ""
    ensures Apply(cfg, s, BeginSettlement(id)) == s.(agents := s.agents + [Settlement(id, Loading, None)])
    ensures Lossless(cfg, s, BeginSettlement(id), acc)
  {}

  lemma Begin(cfg: Config, steps: seq<Step>, id: string, acc: Account) returns (begun: seq<Step>)
    requires ValidRun(cfg, steps) && id != ""
    ensures ValidRun(cfg, begun) && GoesOn(cfg, steps, begun, acc)
    ensures var s := After(cfg, steps);
      After(cfg, begun) == s.(agents := s.agents + [Settlement(id, Loading, None)])
    ensures Exposure(After(cfg, begun), acc) == Exposure(After(cfg, steps), acc)
    ensures Total(Work(acc), After(cfg, begun).agents) == Total(Work(acc), After(cfg, steps).agents)
  {
    RunIsWellFormed(cfg, steps);
    BeginState(cfg, After(cfg, steps), id, acc);
    begun := OneCommand(cfg, steps, BeginSettlement(id), acc);
    var a := Settlement(id, Loading, None);
    TotalAppend(Work(acc), After(cfg, steps).agents, a);
    assert Weight(Work(acc), a) == 0 && After(cfg, begun).agents == After(cfg, steps).agents + [a];
  }

  lemma StillStored(s: State, r: nat, a: Agent)
    requires Stored(s, r)
    ensures Stored(s.(agents := s.agents + [a]), r) && (s.agents + [a])[r] == s.agents[r]
  {}

  /** A settlement begins and takes a stored request over. */
  lemma TakeOver(cfg: Config, steps: seq<Step>, r: nat, acc: Account) returns (next: seq<Step>)
    requires ValidRun(cfg, steps) && Stored(After(cfg, steps), r)
    requires Filtered(After(cfg, steps).agents[r]) && IsInFlight(After(cfg, steps).agents[r], acc)
    ensures ValidRun(cfg, next) && GoesOn(cfg, steps, next, acc)
    ensures Exposure(After(cfg, next), acc) == Exposure(After(cfg, steps), acc)
    ensures Total(Work(acc), After(cfg, next).agents) < Total(Work(acc), After(cfg, steps).agents)
  {
    var s := After(cfg, steps);
    var begun := Begin(cfg, steps, s.agents[r].id, acc);
    StillStored(s, r, Settlement(s.agents[r].id, Loading, None));
    RunIsWellFormed(cfg, begun);
    TakeOverWorks(cfg, After(cfg, begun), r, acc, |s.agents|);
    next := OneCommand(cfg, begun, Load(|s.agents|, true), acc);
    GoesOnTwice(cfg, steps, begun, next, acc);
  }

  lemma Closer(cfg: Config, steps: seq<Step>, i: nat, acc: Account) returns (next: seq<Step>)
    requires ValidRun(cfg, steps) && PaidHere(cfg, acc) && CostsNonNegative(After(cfg, steps).agents)
    requires i < |After(cfg, steps).agents| && IsInFlight(After(cfg, steps).agents[i], acc)
    ensures ValidRun(cfg, next) && GoesOn(cfg, steps, next, acc)
    ensures Exposure(After(cfg, next), acc) == Exposure(After(cfg, steps), acc)
    ensures Total(Work(acc), After(cfg, next).agents) < Total(Work(acc), After(cfg, steps).agents)
  {
    var s := After(cfg, steps);
    RunIsWellFormed(cfg, steps);
    RunKeepsOpenStored(cfg, steps);
    if r: nat :| r < |s.agents| && IsInFlight(s.agents[r], acc) && Filtered(s.agents[r]) {
      next := TakeOver(cfg, steps, r, acc);
    } else {
      assert AgentFits(s.agents, s.agents[i]);
      var a := s.agents[i];
      var step := if a.Request? then (if a.stage.Admitted? then AddPending(i, Done) else SaveRecord(i, Done))
        else if a.phase.Drawing? then Draw(i, Done) else Pay(i, a.phase.rec.cost, Done);
      next := Advance(cfg, steps, i, acc, step);
    }
  }

  lemma NothingInFlight(acc: Account, agents: seq<Agent>)
    requires forall i :: 0 <= i < |agents| ==> !IsInFlight(agents[i], acc)
    ensures Total(InFlight(acc), agents) == 0
  {
    if agents != [] {
      NothingInFlight(acc, agents[..|agents| - 1]);
    }
  }

  /** From every state a run goes on until all its exposure is in `count`. */
  lemma {:induction false} PayAll(cfg: Config, steps: seq<Step>, acc: Account) returns (more: seq<Step>)
    requires ValidRun(cfg, steps) && PaidHere(cfg, acc) && CostsNonNegative(After(cfg, steps).agents)
    ensures ValidRun(cfg, more) && GoesOn(cfg, steps, more, acc)
    ensures GetInt(After(cfg, more).db.count, acc.key) == Exposure(After(cfg, steps), acc)
    decreases Total(Work(acc), After(cfg, steps).agents)
  {
    var agents := After(cfg, steps).agents;
    TotalNonNegative(Work(acc), agents);
    if i: nat :| i < |agents| && IsInFlight(agents[i], acc) {
      var next := Closer(cfg, steps, i, acc);
      ExposureOnlyFalls(cfg, steps, next, acc);
      more := PayAll(cfg, next, acc);
      GoesOnTwice(cfg, steps, next, more, acc);
    } else {
      more := steps;
      NothingInFlight(acc, agents);
    }
  }

  ghost predicate CanPass(cfg: Config, steps: seq<Step>, acc: Account, bound: int)
    requires ValidRun(cfg, steps)
  {
    exists more :: ValidRun(cfg, more) && GoesOn(cfg, steps, more, acc) &&
      GetInt(After(cfg, more).db.count, acc.key) > bound
  }

  /** Without another admission, and without inflation, `count` can pass a bound exactly when the exposure is
      beyond it. */
  lemma {:induction false} CanPassIff(cfg: Config, steps: seq<Step>, acc: Account, bound: int)
    requires ValidRun(cfg, steps) && HonestRun(cfg, steps) && PaidHere(cfg, acc)
    ensures CanPass(cfg, steps, acc, bound) <==> Exposure(After(cfg, steps), acc) > bound
  {
    RunKeepsCosts(cfg, steps);
    if CanPass(cfg, steps, acc, bound) {
      var more :| ValidRun(cfg, more) && GoesOn(cfg, steps, more, acc) &&
        GetInt(After(cfg, more).db.count, acc.key) > bound;
      ExposureOnlyFalls(cfg, steps, more, acc);
    }
    var paid := PayAll(cfg, steps, acc);
  }

  /** For every counter, however its keys are spelled in headers: without another admission to it, and without
      inflation, it can pass a bound exactly when what it counts, and what is in flight under all the keys whose
      settlement pays into it, is beyond the bound. */
  lemma {:induction false} CounterCanPassIff(cfg: Config, steps: seq<Step>, key: Key, bound: int)
    requires ValidRun(cfg, steps) && HonestRun(cfg, steps)
    ensures CanPass(cfg, steps, CounterOf(cfg, key), bound) <==>
            Exposure(After(cfg, steps), CounterOf(cfg, key)) > bound
  {
    CanPassIff(cfg, steps, CounterOf(cfg, key), bound);
  }

  /** The check is not atomic with the booking. An admission, under whatever key, lets the counter its settlement pays
      into pass that counter's limit exactly when what is counted there, what is in flight for it and the admitted cost
      together are beyond the limit; a request without an id adds nothing. */
  lemma {:induction false} AdmissionCanPassIff(cfg: Config, steps: seq<Step>, r: nat)
    requires ValidRun(cfg, steps) && HonestRun(cfg, steps)
    requires IsRequest(After(cfg, steps), r, PendingRead) && Admits(cfg, After(cfg, steps), r)
    ensures ValidRun(cfg, steps + [ReadCount(r)])
    ensures var s := After(cfg, steps);
      var key := cfg.canon(s.agents[r].key);
      var acc := CounterOf(cfg, key);
      var cost := if s.agents[r].id != "" then s.agents[r].cost else 0;
      CanPass(cfg, steps + [ReadCount(r)], acc, Limit(cfg, key)) <==>
      GetInt(s.db.count, key) + Total(InFlight(acc), s.agents) + cost > Limit(cfg, key)
  {
    var next := Go(cfg, steps, ReadCount(r));
    var key := cfg.canon(After(cfg, steps).agents[r].key);
    RunIsWellFormed(cfg, steps);
    FlowBalance(cfg, After(cfg, steps), ReadCount(r), CounterOf(cfg, key));
    CounterCanPassIff(cfg, next, key, Limit(cfg, key));
  }
}
