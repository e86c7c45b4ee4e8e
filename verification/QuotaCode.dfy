/** The count plugin's two filters as they are written, over a Redis whose commands can fail, and the proof
    that each call is a run of the transition system of module Quota. */
module QuotaCode {
  import opened Wrappers
  import opened Quota

  class Redis {
    var pending: map<Key, int>
    var count: map<Key, int>
    var records: map<string, Record>

    function Contents(): Db
      reads this
    {
      Db(pending, count, records)
    }

    constructor (db: Db)
      ensures Contents() == db
    {
      pending, count, records := db.pending, db.count, db.records;
    }

    method IncrPending(key: Key, n: int, outcome: Outcome) returns (ok: bool)
      modifies this
      ensures ok == outcome.Done?
      ensures Contents() == old(Contents()).(
              pending := if outcome.Applied() then IncrBy(old(pending), key, n) else old(pending))
    {
      if outcome.Applied() { pending := IncrBy(pending, key, n); }
      ok := outcome.Done?;
    }

    method IncrCount(key: Key, n: int, outcome: Outcome) returns (ok: bool)
      modifies this
      ensures ok == outcome.Done?
      ensures Contents() == old(Contents()).(
              count := if outcome.Applied() then IncrBy(old(count), key, n) else old(count))
    {
      if outcome.Applied() { count := IncrBy(count, key, n); }
      ok := outcome.Done?;
    }

    method SetRecord(id: string, rec: Record, outcome: Outcome) returns (ok: bool)
      modifies this
      ensures ok == outcome.Done?
      ensures Contents() == old(Contents()).(
              records := if outcome.Applied() then old(records)[id := rec] else old(records))
    {
      if outcome.Applied() { records := records[id := rec]; }
      ok := outcome.Done?;
    }

    method Del(id: string, outcome: Outcome) returns (ok: bool)
      modifies this
      ensures ok == outcome.Done?
      ensures Contents() == old(Contents()).(
              records := if outcome.Applied() then old(records) - {id} else old(records))
    {
      if outcome.Applied() { records := records - {id}; }
      ok := outcome.Done?;
    }
  }

  /** One call of RequestFilter: its headers, the two checks made by other services, and how each Redis
      command turns out. */
  datatype RequestCall = RequestCall(
    key: Key, cost: int, id: string,
    parses: bool, rich: bool, pendingRead: bool, countRead: bool, add: Outcome, save: Outcome)

  /** One call of DeterminCount. `handler` is the value of the success-count callback when one is passed. */
  datatype SettlementCall = SettlementCall(
    id: string, status: int, handler: Option<int>, load: bool, draw: Outcome, pay: Outcome, delete: Outcome)

  const BAD_REQUEST := 400

  /** What a call of RequestFilter leaves in Redis, and the status it writes when it refuses. */
  function RequestEffect(cfg: Config, db: Db, ticket: nat, c: RequestCall): (Db, Option<int>) {
    if !c.parses || !c.rich || !c.pendingRead || !c.countRead || GetInt(db.count, c.key) + c.cost > Limit(cfg, c.key)
    then (db, Some(BAD_REQUEST)) else
      var added := if c.add.Applied() then db.(pending := IncrBy(db.pending, c.key, c.cost)) else db;
      if !c.add.Done? then (added, Some(BAD_REQUEST)) else
        var saved := if c.save.Applied() then added.(records := db.records[c.id := Record(c.key, c.cost, ticket)])
          else added;
        (saved, if c.save.Done? then None else Some(BAD_REQUEST))
  }

  function SuccessCount(c: SettlementCall, rec: Record): int {
    match c.handler
    case Some(n) => n
    case None => if 200 <= c.status < 300 then rec.cost else 0
  }

  /** What a call of DeterminCount leaves in Redis. */
  function SettlementEffect(cfg: Config, db: Db, c: SettlementCall): Db {
    if c.id == "" then db else
      var settled :=
        if !c.load || c.id !in db.records then db else
          var rec := db.records[c.id];
          var drawn := if c.draw.Applied() then db.(pending := IncrBy(db.pending, cfg.canon(rec.key), -rec.cost))
            else db;
          if c.draw.Done? && SuccessCount(c, rec) > 0 && c.pay.Applied()
          then drawn.(count := IncrBy(db.count, cfg.canon(rec.key), SuccessCount(c, rec))) else drawn;
      if c.delete.Applied() then settled.(records := settled.records - {c.id}) else settled
  }

  /** `Count.RequestFilter`; the result is the status written to the response, if any. */
  method RequestFilter(redis: Redis, cfg: Config, ticket: nat, c: RequestCall) returns (reply: Option<int>)
    modifies redis
    ensures (redis.Contents(), reply) == RequestEffect(cfg, old(redis.Contents()), ticket, c)
    ensures Booked(cfg, old(redis.Contents()), ticket, c, redis.Contents(), reply)
  {
    FilterBooks(cfg, redis.Contents(), ticket, c);
    var ok := TryRequest(redis, cfg, ticket, c);
    reply := if ok then None else Some(BAD_REQUEST);
  }

  /** Everything is read, the user is rich, and what is counted with the request's cost is within 5000 for a mint, 200
      for a deployment and 10000 for everything else. */
  predicate WithinLimit(cfg: Config, count: map<Key, int>, c: RequestCall) {
    var counted := if c.key in count then count[c.key] else 0;
    && c.parses && c.rich && c.pendingRead && c.countRead
    && counted + c.cost <=
       match cfg.costTypeOf(c.key.costType) { case RainbowMint => 5000 case RainbowDeploy => 200 case _ => 10000 }
  }

  /** What a call decides and books, in numbers: no status is written exactly when the request is within the limit and
      both writes work; `pending` rises by its cost exactly when the IncrBy reaches Redis; `count` stays. */
  ghost predicate Booked(cfg: Config, db: Db, ticket: nat, c: RequestCall, db': Db, reply: Option<int>) {
    var within := WithinLimit(cfg, db.count, c);
    && reply == (if within && c.add.Done? && c.save.Done? then None else Some(400))
    && db'.count == db.count
    && (forall key :: GetInt(db'.pending, key) == GetInt(db.pending, key) +
          if key == c.key && within && (c.add.Done? || c.add.applied) then c.cost else 0)
    && db'.records ==
       (if within && c.add.Done? && (c.save.Done? || c.save.applied)
        then db.records[c.id := Record(c.key, c.cost, ticket)] else db.records)
  }

  lemma FilterBooks(cfg: Config, db: Db, ticket: nat, c: RequestCall)
    ensures var (db', reply) := RequestEffect(cfg, db, ticket, c); Booked(cfg, db, ticket, c, db', reply)
  {}

  /** The closure `fn`, with its early returns. */
  method TryRequest(redis: Redis, cfg: Config, ticket: nat, c: RequestCall) returns (ok: bool)
    modifies redis
    ensures redis.Contents() == RequestEffect(cfg, old(redis.Contents()), ticket, c).0
    ensures ok <==> RequestEffect(cfg, old(redis.Contents()), ticket, c).1.None?
    ensures Booked(cfg, old(redis.Contents()), ticket, c, redis.Contents(), if ok then None else Some(400))
  {
    FilterBooks(cfg, redis.Contents(), ticket, c);
    if !c.parses { return false; }
    if !c.rich { return false; }
    if !c.pendingRead { return false; }
    if !c.countRead { return false; }
    var currentCount := GetInt(redis.count, c.key);
    if currentCount + c.cost > Limit(cfg, c.key) { return false; }
    ok := redis.IncrPending(c.key, c.cost, c.add);
    if !ok { return false; }
    ok := redis.SetRecord(c.id, Record(c.key, c.cost, ticket), c.save);
  }

  /** `DeterminCount`: the deferred Del runs on every path once the request id is known. */
  method DeterminCount(redis: Redis, cfg: Config, c: SettlementCall)
    modifies redis
    ensures redis.Contents() == SettlementEffect(cfg, old(redis.Contents()), c)
    ensures Settled(cfg, old(redis.Contents()), c, redis.Contents())
  {
    ghost var db := redis.Contents();
    SettlementCredits(cfg, db, c);
    if c.id == "" { return; }
    SettleRecord(redis, cfg, c);
    var _ := redis.Del(c.id, c.delete);
    DeferredDelete(cfg, db, c);
  }

  /** What a settlement does, in numbers. A record that is read is drawn from `pending` of its canonical key if the
      DecrBy reaches Redis. Only when that worked, `count` of that key rises by the callback's value if there is a
      callback, and else by the whole cost exactly for a status from 200 to 299; by nothing if that is not positive or
      its IncrBy does not reach Redis. The record goes if the Del reaches Redis. Nothing else changes. */
  ghost predicate Settled(cfg: Config, db: Db, c: SettlementCall, db': Db) {
    if c.id == "" then db' == db else
      var read := c.load && c.id in db.records;
      var cost := if read then db.records[c.id].cost else 0;
      var amount := if c.handler.Some? then c.handler.value else if 200 <= c.status <= 299 then cost else 0;
      && (forall key :: GetInt(db'.pending, key) == GetInt(db.pending, key) -
            if read && key == cfg.canon(db.records[c.id].key) && (c.draw.Done? || c.draw.applied) then cost else 0)
      && (forall key :: GetInt(db'.count, key) == GetInt(db.count, key) +
            if read && key == cfg.canon(db.records[c.id].key) && c.draw.Done? && amount > 0 &&
               (c.pay.Done? || c.pay.applied)
            then amount else 0)
      && (forall id :: id in db'.records <==> id in db.records && !(id == c.id && (c.delete.Done? || c.delete.applied)))
      && (forall id :: id in db'.records ==> db'.records[id] == db.records[id])
  }

  lemma SettlementCredits(cfg: Config, db: Db, c: SettlementCall)
    ensures Settled(cfg, db, c, SettlementEffect(cfg, db, c))
  {}

  method SettleRecord(redis: Redis, cfg: Config, c: SettlementCall)
    requires c.id != ""
    modifies redis
    ensures redis.Contents() == SettlementEffect(cfg, old(redis.Contents()), c.(delete := Error(false)))
  {
    if !c.load || c.id !in redis.records { return; }
    var rec := redis.records[c.id];
    var key := cfg.canon(rec.key);
    var ok := redis.IncrPending(key, -rec.cost, c.draw);
    if !ok { return; }
    var successCount := 0;
    if c.handler.Some? {
      successCount := c.handler.value;
    } else if 200 <= c.status < 300 {
      successCount := rec.cost;
    }
    if successCount <= 0 { return; }
    ok := redis.IncrCount(key, successCount, c.pay);
  }

  // ----- Each call is a run of the transition system -----

  /** A call of RequestFilter that no other agent interrupts is a run of one request agent, which is
      forwarded exactly when the plugin writes no status. */
  lemma RequestCallIsARun(cfg: Config, steps: seq<Step>, c: RequestCall) returns (next: seq<Step>)
    requires ValidRun(cfg, steps)
    ensures ValidRun(cfg, next) && steps <= next
    ensures var s, s' := After(cfg, steps), After(cfg, next);
      var (db, reply) := RequestEffect(cfg, s.db, |s.agents|, c);
      s'.db == db && |s'.agents| == |s.agents| + 1 && s'.agents[|s.agents|].Request? &&
      s'.agents[|s.agents|].stage == (if reply.None? then Forwarded else Refused)
    ensures DisciplinedRun(cfg, steps) && cfg.canon(c.key) == c.key ==> DisciplinedRun(cfg, next)
    ensures HonestRun(cfg, steps) && c.cost >= 0 ==> HonestRun(cfg, next)
  {
    var r := |After(cfg, steps).agents|;
    next := Go(cfg, steps, Arrive(c.key, c.cost, c.id));
    if !c.parses || !c.rich || !c.pendingRead {
      next := Go(cfg, next, Reject(r));
    } else {
      next := Go(cfg, next, ReadPending(r));
      if !c.countRead {
        next := Go(cfg, next, Reject(r));
      } else {
        next := AdmissionIsARun(cfg, next, r, c);
      }
    }
  }

  lemma AdmissionIsARun(cfg: Config, steps: seq<Step>, r: nat, c: RequestCall) returns (next: seq<Step>)
    requires ValidRun(cfg, steps) && r + 1 == |After(cfg, steps).agents|
    requires After(cfg, steps).agents[r] == Request(c.key, c.cost, c.id, PendingRead, false, false)
    requires c.parses && c.rich && c.pendingRead && c.countRead
    ensures ValidRun(cfg, next) && steps <= next
    ensures var s, s' := After(cfg, steps), After(cfg, next);
      var (db, reply) := RequestEffect(cfg, s.db, r, c);
      s'.db == db && |s'.agents| == |s.agents| && s'.agents[r].Request? &&
      s'.agents[r].stage == (if reply.None? then Forwarded else Refused)
    ensures DisciplinedRun(cfg, steps) ==> DisciplinedRun(cfg, next)
    ensures HonestRun(cfg, steps) ==> HonestRun(cfg, next)
  {
    next := Go(cfg, steps, ReadCount(r));
    if After(cfg, next).agents[r].stage.Admitted? {
      next := BookingIsARun(cfg, next, r, c);
    }
  }

  lemma BookingIsARun(cfg: Config, steps: seq<Step>, r: nat, c: RequestCall) returns (next: seq<Step>)
    requires ValidRun(cfg, steps) && r + 1 == |After(cfg, steps).agents|
    requires After(cfg, steps).agents[r] == Request(c.key, c.cost, c.id, Admitted, false, true)
    requires c.parses && c.rich && c.pendingRead && c.countRead
    requires GetInt(After(cfg, steps).db.count, c.key) + c.cost <= Limit(cfg, c.key)
    ensures ValidRun(cfg, next) && steps <= next
    ensures var s, s' := After(cfg, steps), After(cfg, next);
      var (db, reply) := RequestEffect(cfg, s.db, r, c);
      s'.db == db && |s'.agents| == |s.agents| && s'.agents[r].Request? &&
      s'.agents[r].stage == (if reply.None? then Forwarded else Refused)
    ensures DisciplinedRun(cfg, steps) ==> DisciplinedRun(cfg, next)
    ensures HonestRun(cfg, steps) ==> HonestRun(cfg, next)
  {
    next := Go(cfg, steps, AddPending(r, c.add));
    if c.add.Done? {
      next := Go(cfg, next, SaveRecord(r, c.save));
    }
  }

  /** The call credits no more than the cost of the record it loads, if it loads one. */
  predicate WithinCost(db: Db, c: SettlementCall) {
    c.load && c.id in db.records ==> SuccessCount(c, db.records[c.id]) <= db.records[c.id].cost
  }

  /** Without a callback it never does. */
  lemma DefaultWithinCost(db: Db, c: SettlementCall)
    requires c.handler.None? && (c.id in db.records ==> db.records[c.id].cost >= 0)
    ensures WithinCost(db, c)
  {}

  /** A call of DeterminCount with a request id, uninterrupted, is a run of one settlement agent. */
  lemma SettlementCallIsARun(cfg: Config, steps: seq<Step>, c: SettlementCall) returns (next: seq<Step>)
    requires ValidRun(cfg, steps) && c.id != ""
    ensures ValidRun(cfg, next) && steps <= next
    ensures After(cfg, next).db == SettlementEffect(cfg, After(cfg, steps).db, c)
    ensures DisciplinedRun(cfg, steps) && Idle(After(cfg, steps).agents, c.id) && c.delete.Applied() ==>
              DisciplinedRun(cfg, next)
    ensures HonestRun(cfg, steps) && WithinCost(After(cfg, steps).db, c) ==> HonestRun(cfg, next)
  {
    var t := |After(cfg, steps).agents|;
    next := LoadIsARun(cfg, steps, c);
    if After(cfg, next).agents[t].phase.Drawing? {
      next := DrawAndPayIsARun(cfg, next, t, c);
    }
    DeleteState(cfg, After(cfg, next), t, c.delete);
    DeferredDelete(cfg, After(cfg, steps).db, c);
    next := Go(cfg, next, Delete(t, c.delete));
  }

  /** The deferred Del comes after everything else a call does. */
  lemma DeferredDelete(cfg: Config, db: Db, c: SettlementCall)
    requires c.id != ""
    ensures var settled := SettlementEffect(cfg, db, c.(delete := Error(false)));
      SettlementEffect(cfg, db, c) ==
      if c.delete.Applied() then settled.(records := settled.records - {c.id}) else settled
    ensures !c.load || c.id !in db.records ==> SettlementEffect(cfg, db, c.(delete := Error(false))) == db
  {}

  lemma LoadIsARun(cfg: Config, steps: seq<Step>, c: SettlementCall) returns (next: seq<Step>)
    requires ValidRun(cfg, steps) && c.id != ""
    ensures ValidRun(cfg, next) && steps <= next && After(cfg, next).db == After(cfg, steps).db
    ensures var s, s' := After(cfg, steps), After(cfg, next);
      |s'.agents| == |s.agents| + 1 && s'.agents[|s.agents|] == Settlement(c.id,
        if c.load && c.id in s.db.records then Drawing(s.db.records[c.id]) else Deleting, None)
    ensures DisciplinedRun(cfg, steps) && Idle(After(cfg, steps).agents, c.id) ==> DisciplinedRun(cfg, next)
    ensures HonestRun(cfg, steps) ==> HonestRun(cfg, next)
  {
    var s := After(cfg, steps);
    next := Go(cfg, steps, BeginSettlement(c.id));
    LoadState(cfg, After(cfg, next), |s.agents|, c.load);
    next := Go(cfg, next, Load(|s.agents|, c.load));
  }

  lemma LoadState(cfg: Config, s: State, t: nat, ok: bool)
    requires IsSettlement(s, t) && s.agents[t].phase.Loading?
    ensures var s' := Apply(cfg, s, Load(t, ok));
      s'.db == s.db && |s'.agents| == |s.agents| && s'.agents[t] == Settlement(s.agents[t].id,
        if ok && s.agents[t].id in s.db.records then Drawing(s.db.records[s.agents[t].id]) else Deleting, None)
  {}

  lemma DeleteState(cfg: Config, s: State, t: nat, outcome: Outcome)
    requires IsSettlement(s, t) && s.agents[t].phase.Deleting?
    ensures Apply(cfg, s, Delete(t, outcome)).db ==
            if outcome.Applied() then s.db.(records := s.db.records - {s.agents[t].id}) else s.db
  {}

  lemma DrawAndPayIsARun(cfg: Config, steps: seq<Step>, t: nat, c: SettlementCall) returns (next: seq<Step>)
    requires ValidRun(cfg, steps) && t < |After(cfg, steps).agents| && c.load && c.id != ""
    requires After(cfg, steps).agents[t].Settlement? && After(cfg, steps).agents[t].id == c.id
    requires c.id in After(cfg, steps).db.records
    requires After(cfg, steps).agents[t].phase == Drawing(After(cfg, steps).db.records[c.id])
    ensures ValidRun(cfg, next) && steps <= next && |After(cfg, next).agents| == |After(cfg, steps).agents|
    ensures After(cfg, next).db == SettlementEffect(cfg, After(cfg, steps).db, c.(delete := Error(false)))
    ensures After(cfg, next).agents[t].Settlement? && After(cfg, next).agents[t].id == c.id
    ensures After(cfg, next).agents[t].phase.Deleting?
    ensures DisciplinedRun(cfg, steps) ==> DisciplinedRun(cfg, next)
    ensures HonestRun(cfg, steps) && WithinCost(After(cfg, steps).db, c) ==> HonestRun(cfg, next)
  {
    var s := After(cfg, steps);
    var rec := s.db.records[c.id];
    DrawState(cfg, s, t, c.draw);
    next := Go(cfg, steps, Draw(t, c.draw));
    if c.draw.Done? {
      PayState(cfg, After(cfg, next), t, SuccessCount(c, rec), c.pay);
      next := Go(cfg, next, Pay(t, SuccessCount(c, rec), c.pay));
    }
  }

  lemma DrawState(cfg: Config, s: State, t: nat, outcome: Outcome)
    requires IsSettlement(s, t) && s.agents[t].phase.Drawing?
    ensures var s' := Apply(cfg, s, Draw(t, outcome));
      var rec := s.agents[t].phase.rec;
      s'.db == (if outcome.Applied() then s.db.(pending := IncrBy(s.db.pending, cfg.canon(rec.key), -rec.cost))
        else s.db) &&
      |s'.agents| == |s.agents| &&
      s'.agents[t] == s.agents[t].(phase := if outcome.Done? then Crediting(rec) else Deleting)
  {}

  lemma PayState(cfg: Config, s: State, t: nat, success: int, outcome: Outcome)
    requires IsSettlement(s, t) && s.agents[t].phase.Crediting?
    ensures var s' := Apply(cfg, s, Pay(t, success, outcome));
      var rec := s.agents[t].phase.rec;
      s'.db == (if success > 0 && outcome.Applied() then s.db.(count := IncrBy(s.db.count, cfg.canon(rec.key), success))
                else s.db) &&
      |s'.agents| == |s.agents| && s'.agents[t].Settlement? && s'.agents[t].id == s.agents[t].id &&
      s'.agents[t].phase.Deleting?
  {}

  // ----- Settling again -----

  function SettleAll(cfg: Config, db: Db, calls: seq<SettlementCall>): Db
    decreases |calls|
  {
    if calls == [] then db else SettleAll(cfg, SettlementEffect(cfg, db, calls[0]), calls[1..])
  }

  /** Settlement is idempotent: once a call's Del has reached Redis, any number of later calls for the same
      request id, however their own commands turn out, leave Redis as that call left it. */
  lemma {:induction false} SettlingAgainChangesNothing(cfg: Config, db: Db, first: SettlementCall,
                                                       more: seq<SettlementCall>)
    requires first.id != "" && first.delete.Applied()
    requires forall i :: 0 <= i < |more| ==> more[i].id == first.id
    ensures SettleAll(cfg, db, [first] + more) == SettlementEffect(cfg, db, first)
  {
    assert ([first] + more)[1..] == more;
    GoneRecordChangesNothing(cfg, SettlementEffect(cfg, db, first), first.id, more);
  }

  lemma {:induction false} GoneRecordChangesNothing(cfg: Config, db: Db, id: string, calls: seq<SettlementCall>)
    requires id !in db.records && forall i :: 0 <= i < |calls| ==> calls[i].id == id
    ensures SettleAll(cfg, db, calls) == db
  {
    if calls != [] {
      assert db.records - {id} == db.records;
      GoneRecordChangesNothing(cfg, db, id, calls[1..]);
    }
  }

  /** A call that works changes `pending` exactly when the record is still there with a nonzero cost. */
  lemma SettlingChangesPendingIff(cfg: Config, db: Db, c: SettlementCall)
    requires c.id != "" && c.load && c.draw.Done?
    ensures (exists key :: GetInt(SettlementEffect(cfg, db, c).pending, key) != GetInt(db.pending, key)) <==>
            (c.id in db.records && db.records[c.id].cost != 0)
  {
    if c.id in db.records {
      var rec := db.records[c.id];
      var key := cfg.canon(rec.key);
      assert GetInt(SettlementEffect(cfg, db, c).pending, key) == GetInt(db.pending, key) - rec.cost;
    }
  }
}
