/**
 The shared pool of message builders, under every interleaving of connections: who holds which builder between
 GetBuilder and PutBuilder, on the normal paths, on the replacement of a reply that is too large, and on the
 paths that give a builder up without returning it.
 */
module BuilderPool {
  import opened Wrappers

  type Builder = nat

  /** Where the handler of a connection stands, with the builder it holds. */
  datatype Stage =
    | Idle                        // waiting for a request
    | Working                     // in a plugin or between calls
    | Asking(b: Builder)          // an ask whose builder is returned afterwards
    | AskingBody(b: Builder)      // Request.Body: its builder is never returned
    | Answering(b: Builder)       // a reply is built and not yet written in full
    | Closed

  /** `next` numbers the builders yet to be made; `written` are those with contents not yet reset. */
  datatype State = State(free: multiset<Builder>, conns: seq<Stage>, next: nat, written: set<Builder>)

  datatype Step =
    | Connect
    | Receive(c: nat)
    | StartAsk(c: nat, b: Builder)
    | EndAsk(c: nat)
    | StartBody(c: nat, b: Builder)
    | EndBody(c: nat)
    | Build(c: nat, b: Builder)          // a reply or an error report
    | TooLarge(c: nat, b: Builder)       // put the reply back, build an error report instead
    | Sent(c: nat)
    | WriteFailed(c: nat)
    | ReadFailed(c: nat)
    | Panic(c: nat)
    | Collect(b: Builder)                // the pool may drop what it holds

  function Held(stage: Stage): Option<Builder> {
    match stage
    case Asking(b) => Some(b)
    case AskingBody(b) => Some(b)
    case Answering(b) => Some(b)
    case _ => None
  }

  /** `GetBuilder`: any builder of the pool, or a new one. */
  predicate CanGet(s: State, b: Builder) {
    b in s.free || b == s.next
  }

  function Get(s: State, b: Builder): State
    requires CanGet(s, b)
  {
    if b in s.free then s.(free := s.free - multiset{b}, written := s.written + {b})
    else s.(next := s.next + 1, written := s.written + {b})
  }

  /** `PutBuilder`: reset, then return. */
  function Put(s: State, b: Builder): State {
    s.(free := s.free + multiset{b}, written := s.written - {b})
  }

  predicate At(s: State, c: nat, stage: Stage) {
    c < |s.conns| && s.conns[c] == stage
  }

  predicate Enabled(s: State, step: Step) {
    match step
    case Connect => true
    case Receive(c) => At(s, c, Idle)
    case StartAsk(c, b) => At(s, c, Working) && CanGet(s, b)
    case EndAsk(c) => c < |s.conns| && s.conns[c].Asking?
    case StartBody(c, b) => At(s, c, Working) && CanGet(s, b)
    case EndBody(c) => c < |s.conns| && s.conns[c].AskingBody?
    case Build(c, b) => At(s, c, Working) && CanGet(s, b)
    case TooLarge(c, b) => c < |s.conns| && s.conns[c].Answering? && CanGet(Put(s, s.conns[c].b), b)
    case Sent(c) => c < |s.conns| && s.conns[c].Answering?
    case WriteFailed(c) => c < |s.conns| && s.conns[c].Answering?
    case ReadFailed(c) => At(s, c, Idle)
    case Panic(c) => c < |s.conns| && !s.conns[c].Idle? && !s.conns[c].Closed?
    case Collect(b) => b in s.free
  }

  function Move(s: State, c: nat, stage: Stage): State
    requires c < |s.conns|
  {
    s.(conns := s.conns[c := stage])
  }

  function Apply(s: State, step: Step): State
    requires Enabled(s, step)
  {
    match step
    case Connect => s.(conns := s.conns + [Idle])
    case Receive(c) => Move(s, c, Working)
    case StartAsk(c, b) => Move(Get(s, b), c, Asking(b))
    case EndAsk(c) => Move(Put(s, s.conns[c].b), c, Working)
    case StartBody(c, b) => Move(Get(s, b), c, AskingBody(b))
    case EndBody(c) => Move(s, c, Working)
    case Build(c, b) => Move(Get(s, b), c, Answering(b))
    case TooLarge(c, b) => Move(Get(Put(s, s.conns[c].b), b), c, Answering(b))
    case Sent(c) => Move(Put(s, s.conns[c].b), c, Idle)
    case WriteFailed(c) => Move(s, c, Closed)
    case ReadFailed(c) => Move(s, c, Closed)
    case Panic(c) => Move(s, c, Closed)
    case Collect(b) => s.(free := s.free - multiset{b})
  }

  /** Every builder is in the pool once, and then reset, or held by one connection, or given up. */
  predicate Linear(s: State) {
    && (forall b :: b in s.free ==> b < s.next && s.free[b] == 1 && b !in s.written)
    && (forall c :: 0 <= c < |s.conns| && Held(s.conns[c]).Some? ==>
          Held(s.conns[c]).value < s.next && Held(s.conns[c]).value !in s.free)
    && (forall c, d :: 0 <= c < d < |s.conns| && Held(s.conns[c]).Some? ==> Held(s.conns[c]) != Held(s.conns[d]))
    && (forall b :: b in s.written ==> b < s.next)
  }

  /** The own builder of a connection can be put back. */
  lemma PutKeeps(s: State, c: nat)
    requires Linear(s) && c < |s.conns| && Held(s.conns[c]).Some?
    ensures Linear(Move(Put(s, Held(s.conns[c]).value), c, Working))
  {
    var b := Held(s.conns[c]).value;
    var s' := Move(Put(s, b), c, Working);
    forall d | 0 <= d < |s'.conns| && Held(s'.conns[d]).Some?
      ensures Held(s'.conns[d]).value < s'.next && Held(s'.conns[d]).value !in s'.free
    {
      assert d != c && Held(s.conns[d]) != Held(s.conns[c]);
    }
  }

  /** A connection without a builder can take one. */
  lemma GetKeeps(s: State, c: nat, b: Builder, stage: Stage)
    requires Linear(s) && c < |s.conns| && Held(s.conns[c]).None? && CanGet(s, b)
    requires Held(stage) == Some(b)
    ensures Linear(Move(Get(s, b), c, stage))
  {
    var s' := Move(Get(s, b), c, stage);
    forall d | 0 <= d < |s'.conns| && Held(s'.conns[d]).Some?
      ensures Held(s'.conns[d]).value < s'.next && Held(s'.conns[d]).value !in s'.free
      ensures d != c ==> Held(s'.conns[d]) != Some(b)
    {
      if d != c { assert s'.conns[d] == s.conns[d]; }
    }
  }

  /** A stage that holds no builder can be taken at any time. */
  lemma LeaveKeeps(s: State, c: nat, stage: Stage)
    requires Linear(s) && c < |s.conns| && Held(stage).None?
    ensures Linear(Move(s, c, stage))
  {}

  predicate Takes(step: Step) {
    step.StartAsk? || step.StartBody? || step.Build?
  }

  predicate Returns(step: Step) {
    step.EndAsk? || step.Sent? || step.TooLarge?
  }

  lemma TakingKeepsLinear(s: State, step: Step)
    requires Linear(s) && Enabled(s, step) && Takes(step)
    ensures Linear(Apply(s, step))
  {
    if step.StartAsk? {
      GetKeeps(s, step.c, step.b, Asking(step.b));
    } else if step.StartBody? {
      GetKeeps(s, step.c, step.b, AskingBody(step.b));
    } else {
      GetKeeps(s, step.c, step.b, Answering(step.b));
    }
  }

  lemma MoveTwice(s: State, c: nat, a: Stage, b: Stage)
    requires c < |s.conns|
    ensures Move(Move(s, c, a), c, b) == Move(s, c, b)
  {
    assert s.conns[c := a][c := b] == s.conns[c := b];
  }

  /** A reply that is too large goes back to the pool before the report is built. */
  lemma ReplacingKeepsLinear(s: State, c: nat, b: Builder)
    requires Linear(s) && Enabled(s, TooLarge(c, b))
    ensures Linear(Apply(s, TooLarge(c, b)))
  {
    var put := Put(s, s.conns[c].b);
    var between := Move(put, c, Working);
    PutKeeps(s, c);
    GetKeeps(between, c, b, Answering(b));
    assert Get(between, b) == Move(Get(put, b), c, Working);
    MoveTwice(Get(put, b), c, Working, Answering(b));
  }

  lemma ReturningKeepsLinear(s: State, step: Step)
    requires Linear(s) && Enabled(s, step) && Returns(step)
    ensures Linear(Apply(s, step))
  {
    var c := step.c;
    if step.TooLarge? {
      ReplacingKeepsLinear(s, c, step.b);
    } else {
      PutKeeps(s, c);
      if step.Sent? {
        var put := Put(s, s.conns[c].b);
        LeaveKeeps(Move(put, c, Working), c, Idle);
        MoveTwice(put, c, Working, Idle);
      }
    }
  }

  lemma OtherKeepsLinear(s: State, step: Step)
    requires Linear(s) && Enabled(s, step) && !Takes(step) && !Returns(step)
    ensures Linear(Apply(s, step))
  {
    if step.Receive? || step.EndBody? {
      LeaveKeeps(s, step.c, Working);
    } else if step.WriteFailed? || step.ReadFailed? || step.Panic? {
      LeaveKeeps(s, step.c, Closed);
    }
  }

  lemma StepKeepsLinear(s: State, step: Step)
    requires Linear(s) && Enabled(s, step)
    ensures Linear(Apply(s, step))
  {
    if Takes(step) {
      TakingKeepsLinear(s, step);
    } else if Returns(step) {
      ReturningKeepsLinear(s, step);
    } else {
      OtherKeepsLinear(s, step);
    }
  }

  predicate ValidRun(s: State, steps: seq<Step>)
    decreases |steps|
  {
    steps == [] || (Enabled(s, steps[0]) && ValidRun(Apply(s, steps[0]), steps[1..]))
  }

  function After(s: State, steps: seq<Step>): State
    requires ValidRun(s, steps)
    decreases |steps|
  {
    if steps == [] then s else After(Apply(s, steps[0]), steps[1..])
  }

  /** Linear use, in every interleaving: no builder is ever in the pool twice, held by two connections, or both
      held and in the pool; and what GetBuilder hands out is reset and nobody else's. */
  lemma {:induction false} BuildersLinear(s: State, steps: seq<Step>)
    requires Linear(s) && ValidRun(s, steps)
    ensures Linear(After(s, steps))
    ensures forall b :: CanGet(After(s, steps), b) ==>
      b !in After(s, steps).written &&
      forall c :: 0 <= c < |After(s, steps).conns| ==> Held(After(s, steps).conns[c]) != Some(b)
    decreases |steps|
  {
    if steps != [] {
      StepKeepsLinear(s, steps[0]);
      BuildersLinear(Apply(s, steps[0]), steps[1..]);
    }
  }

  /** No connections, and nothing in the pool. */
  const START := State(multiset{}, [], 0, {})

  /** So it is in every run of the server from its start. */
  lemma ServerKeepsLinear(steps: seq<Step>)
    requires ValidRun(START, steps)
    ensures Linear(After(START, steps))
    ensures forall b, c, d :: HeldBy(After(START, steps), c, b) && HeldBy(After(START, steps), d, b) ==> c == d
    ensures forall b, c :: HeldBy(After(START, steps), c, b) ==> b !in After(START, steps).free
  {
    BuildersLinear(START, steps);
  }

  predicate HeldBy(s: State, c: nat, b: Builder) {
    c < |s.conns| && Held(s.conns[c]) == Some(b)
  }

  ghost predicate InUse(s: State, b: Builder) {
    b in s.free || exists c: nat :: HeldBy(s, c, b)
  }

  predicate GivesUp(s: State, step: Step, b: Builder)
    requires Enabled(s, step)
  {
    step == Collect(b) || ((step.EndBody? || step.WriteFailed? || step.Panic?) && HeldBy(s, step.c, b))
  }

  /** Only the connection whose step it is changes what it holds. */
  lemma OthersHold(s: State, step: Step, c: nat, b: Builder)
    requires Enabled(s, step) && c < |s.conns|
    ensures step.Connect? || step.Collect? || step.c != c ==>
      (HeldBy(Apply(s, step), c, b) <==> HeldBy(s, c, b))
  {}

  lemma PooledStays(s: State, step: Step, b: Builder)
    requires Linear(s) && Enabled(s, step) && b in s.free && step != Collect(b)
    ensures b in Apply(s, step).free || (!step.Connect? && !step.Collect? && HeldBy(Apply(s, step), step.c, b))
  {
    if step.TooLarge? && step.b == b {
      assert HeldBy(Apply(s, step), step.c, b);
    }
  }

  lemma PooledGivenUp(s: State, step: Step, b: Builder)
    requires Linear(s) && Enabled(s, step) && b in s.free
    ensures InUse(Apply(s, step), b) <==> !GivesUp(s, step, b)
  {
    if step == Collect(b) {
      forall c: nat
        ensures !HeldBy(Apply(s, step), c, b)
      {
        if c < |s.conns| { OthersHold(s, step, c, b); }
      }
    } else {
      PooledStays(s, step, b);
    }
  }

  /** What becomes of the builder of the connection that moves. */
  lemma OwnMove(s: State, step: Step, b: Builder)
    requires Linear(s) && Enabled(s, step) && !step.Connect? && !step.Collect? && HeldBy(s, step.c, b)
    ensures (step.EndBody? || step.WriteFailed? || step.Panic?) ==>
      b !in Apply(s, step).free && !HeldBy(Apply(s, step), step.c, b)
    ensures !(step.EndBody? || step.WriteFailed? || step.Panic?) ==>
      b in Apply(s, step).free || HeldBy(Apply(s, step), step.c, b)
  {}

  lemma HeldGivenUp(s: State, step: Step, b: Builder, c: nat)
    requires Linear(s) && Enabled(s, step) && HeldBy(s, c, b)
    ensures InUse(Apply(s, step), b) <==> !GivesUp(s, step, b)
  {
    if step.Connect? || step.Collect? || step.c != c {
      OthersHold(s, step, c, b);
      assert HeldBy(Apply(s, step), c, b);
    } else {
      OwnMove(s, step, b);
      forall d: nat | d != c
        ensures !HeldBy(Apply(s, step), d, b)
      {
        if d < |s.conns| { OthersHold(s, step, d, b); }
      }
    }
  }

  /** A builder leaves circulation, neither pooled nor held, exactly when its reply cannot be written, its handler
      panics, Request.Body is done with it, or the pool drops it. */
  lemma GivenUpIff(s: State, step: Step, b: Builder)
    requires Linear(s) && Enabled(s, step) && InUse(s, b)
    ensures !InUse(Apply(s, step), b) <==> GivesUp(s, step, b)
  {
    if b in s.free {
      PooledGivenUp(s, step, b);
    } else {
      var c: nat :| HeldBy(s, c, b);
      HeldGivenUp(s, step, b, c);
    }
  }
}
