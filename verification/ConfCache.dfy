/**
 The configuration cache: a token cache and a key cache with one time to live, filled by Set under a lock and
 read by Get without it. A transition system interleaves their steps with time and expiry; the class is the
 code, and each of its calls is one or two steps.
 */
module ConfCache {
  import opened Wrappers

  type uint32 = x: int | 0 <= x < 0x1_0000_0000

  const TOKENS := 0x1_0000_0000

  datatype Conf = Conf(text: string)

  datatype RuleEntry = RuleEntry(name: string, value: Conf)

  type RuleConf = seq<RuleEntry>

  /** The registered plugins, each with its ParseConf. */
  type Registry = map<string, string -> Option<Conf>>

  datatype Request = Request(key: string, conf: seq<(string, string)>)

  datatype Item<T> = Item(value: T, expireAt: int)

  datatype Caches = Caches(tokens: map<uint32, Item<RuleConf>>, keys: map<string, Item<uint32>>, counter: uint32)

  function Hit<K, V>(m: map<K, Item<V>>, k: K, until: int): map<K, Item<V>>
    requires k in m
  {
    m[k := Item(m[k].value, until)]
  }

  function NextToken(counter: uint32): uint32 {
    (counter + 1) % TOKENS
  }

  function Minted(c: Caches, entries: RuleConf, until: int): Caches {
    var token := NextToken(c.counter);
    Caches(c.tokens[token := Item(entries, until)], c.keys, token)
  }

  function Published(c: Caches, key: string, token: uint32, until: int): Caches {
    c.(keys := c.keys[key := Item(token, until)])
  }

  // ----- Which entries a Set keeps -----

  predicate Accepts(registry: Registry, e: (string, string)) {
    e.0 in registry && registry[e.0](e.1).Some?
  }

  /** The entries with a registered plugin whose ParseConf succeeds, parsed, in order. */
  function Accepted(registry: Registry, conf: seq<(string, string)>): RuleConf {
    if conf == [] then [] else
      var last := conf[|conf| - 1];
      Accepted(registry, conf[..|conf| - 1]) +
      (if Accepts(registry, last) then [RuleEntry(last.0, registry[last.0](last.1).value)] else [])
  }

  lemma {:induction false} Positions(registry: Registry, conf: seq<(string, string)>) returns (at: seq<nat>)
    ensures |at| == |Accepted(registry, conf)|
    ensures forall i :: 0 <= i < |at| ==>
      at[i] < |conf| && Accepts(registry, conf[at[i]]) &&
      var (name, value) := conf[at[i]];
      Accepted(registry, conf)[i] == RuleEntry(name, registry[name](value).value)
    ensures forall i, j :: 0 <= i < j < |at| ==> at[i] < at[j]
    ensures forall p :: 0 <= p < |conf| && Accepts(registry, conf[p]) ==> p in at
  {
    at := [];
    if conf != [] {
      var n := |conf| - 1;
      at := Positions(registry, conf[..n]);
      ghost var earlier := at;
      if Accepts(registry, conf[n]) {
        at := at + [n];
        assert forall p :: p in earlier ==> p in at;
        assert at[|earlier|] == n;
      }
      forall p | 0 <= p < |conf| && Accepts(registry, conf[p])
        ensures p in at
      {
        if p < n { assert conf[..n][p] == conf[p] && p in earlier; }
      }
    }
  }

  /** Entry `i` of what is kept stems from entry `at[i]` of the request: the positions ascend and are exactly
      those of the entries that are accepted. */
  lemma {:induction false} AcceptedIsSubsequence(registry: Registry, conf: seq<(string, string)>) returns (at: seq<nat>)
    ensures |at| == |Accepted(registry, conf)|
    ensures forall i :: 0 <= i < |at| ==>
      at[i] < |conf| &&
      var (name, value) := conf[at[i]];
      name in registry && registry[name](value).Some? &&
      Accepted(registry, conf)[i] == RuleEntry(name, registry[name](value).value)
    ensures forall i, j :: 0 <= i < j < |at| ==> at[i] < at[j]
    ensures forall p :: 0 <= p < |conf| && conf[p].0 in registry && registry[conf[p].0](conf[p].1).Some? ==> p in at
  {
    at := Positions(registry, conf);
    assert forall p :: 0 <= p < |conf| && conf[p].0 in registry && registry[conf[p].0](conf[p].1).Some? ==>
      Accepts(registry, conf[p]);
  }

  // ----- The code -----

  class Cache {
    var tokenCache: map<uint32, Item<RuleConf>>
    var keyCache: map<string, Item<uint32>>
    var tokenCounter: uint32
    const ttl: int

    function View(): Caches
      reads this
    {
      Caches(tokenCache, keyCache, tokenCounter)
    }

    constructor (ttl: int)
      ensures View() == Caches(map[], map[], 0) && this.ttl == ttl
    {
      tokenCache, keyCache, tokenCounter := map[], map[], 0;
      this.ttl := ttl;
    }

    /** `Set`: a key that is present gives its token again; otherwise the accepted entries get a new token, the
        token cache is filled, and then the key cache, even under the empty key. */
    method Set(registry: Registry, req: Request, now: int) returns (token: uint32)
      modifies this
      ensures req.key != "" && req.key in old(keyCache) ==>
        token == old(keyCache)[req.key].value &&
        View() == old(View()).(keys := Hit(old(keyCache), req.key, now + ttl))
      ensures !(req.key != "" && req.key in old(keyCache)) ==>
        token == NextToken(old(tokenCounter)) &&
        View() == Published(Minted(old(View()), Accepted(registry, req.conf), now + ttl), req.key, token, now + ttl)
      ensures !(req.key != "" && req.key in old(keyCache)) ==>
        token == tokenCounter == (old(tokenCounter) + 1) % 0x1_0000_0000 &&
        tokenCache == old(tokenCache)[token := Item(Accepted(registry, req.conf), now + ttl)]
      ensures keyCache == old(keyCache)[req.key := Item(token, now + ttl)]
    {
      if req.key != "" && req.key in keyCache {
        token := keyCache[req.key].value;
        keyCache := keyCache[req.key := Item(token, now + ttl)];
        return;
      }
      var entries: RuleConf := [];
      for i := 0 to |req.conf|
        invariant entries == Accepted(registry, req.conf[..i])
      {
        assert req.conf[..i + 1][..i] == req.conf[..i];
        var (name, value) := req.conf[i];
        if name in registry {
          var conf := registry[name](value);
          if conf.Some? {
            entries := entries + [RuleEntry(name, conf.value)];
          }
        }
      }
      assert req.conf[..|req.conf|] == req.conf;
      tokenCounter := (tokenCounter + 1) % TOKENS;
      token := tokenCounter;
      tokenCache := tokenCache[token := Item(entries, now + ttl)];
      keyCache := keyCache[req.key := Item(token, now + ttl)];
    }

    /** `Get`: a hit extends the token's life. */
    method Get(token: uint32, now: int) returns (conf: Option<RuleConf>)
      modifies this
      ensures token in old(tokenCache) ==>
        conf == Some(old(tokenCache)[token].value) &&
        View() == old(View()).(tokens := Hit(old(tokenCache), token, now + ttl))
      ensures token !in old(tokenCache) ==> conf == None && View() == old(View())
      ensures conf.Some? ==> tokenCache == old(tokenCache)[token := Item(conf.value, now + ttl)]
    {
      if token !in tokenCache {
        return None;
      }
      conf := Some(tokenCache[token].value);
      tokenCache := tokenCache[token := Item(tokenCache[token].value, now + ttl)];
    }
  }

  // ----- Interleavings with time -----

  /** A Set that minted a token: its key, what it kept, and when. */
  datatype Minting = Minting(key: string, entries: RuleConf, at: int)

  /** `publishing` is the Set that holds the lock between its two cache writes. `minted` are the mintings so
      far and `touched` when each token was last minted or hit. */
  datatype State = State(
    caches: Caches, publishing: Option<(string, uint32)>, now: int, minted: seq<Minting>, touched: map<uint32, int>)

  datatype Step =
    | HitKey(key: string)
    | Mint(key: string, entries: RuleConf)
    | Publish
    | GetToken(token: uint32)
    | Tick(elapsed: nat)
    | ExpireToken(token: uint32)
    | ExpireKey(key: string)

  function Start(now: int): State {
    State(Caches(map[], map[], 0), None, now, [], map[])
  }

  predicate Enabled(s: State, step: Step) {
    match step
    case HitKey(key) => s.publishing.None? && key != "" && key in s.caches.keys
    case Mint(key, _) => s.publishing.None? && (key == "" || key !in s.caches.keys)
    case Publish => s.publishing.Some?
    case GetToken(_) => true
    case Tick(_) => true
    case ExpireToken(token) => token in s.caches.tokens && s.caches.tokens[token].expireAt <= s.now
    case ExpireKey(key) => key in s.caches.keys && s.caches.keys[key].expireAt <= s.now
  }

  function Apply(ttl: int, s: State, step: Step): State
    requires Enabled(s, step)
  {
    match step
    case HitKey(key) => s.(caches := s.caches.(keys := Hit(s.caches.keys, key, s.now + ttl)))
    case Mint(key, entries) =>
      var token := NextToken(s.caches.counter);
      State(Minted(s.caches, entries, s.now + ttl), Some((key, token)), s.now,
            s.minted + [Minting(key, entries, s.now)], s.touched[token := s.now])
    case Publish =>
      s.(caches := Published(s.caches, s.publishing.value.0, s.publishing.value.1, s.now + ttl), publishing := None)
    case GetToken(token) =>
      if token in s.caches.tokens then
        s.(caches := s.caches.(tokens := Hit(s.caches.tokens, token, s.now + ttl)),
          touched := s.touched[token := s.now])
      else s
    case Tick(elapsed) => s.(now := s.now + elapsed)
    case ExpireToken(token) => s.(caches := s.caches.(tokens := s.caches.tokens - {token}))
    case ExpireKey(key) => s.(caches := s.caches.(keys := s.caches.keys - {key}))
  }

  predicate ValidRun(ttl: int, s0: State, steps: seq<Step>)
    decreases |steps|, 0
  {
    steps == [] ||
    (ValidRun(ttl, s0, steps[..|steps| - 1]) && Enabled(After(ttl, s0, steps[..|steps| - 1]), steps[|steps| - 1]))
  }

  function After(ttl: int, s0: State, steps: seq<Step>): State
    requires ValidRun(ttl, s0, steps)
    decreases |steps|, 1
  {
    if steps == [] then s0 else Apply(ttl, After(ttl, s0, steps[..|steps| - 1]), steps[|steps| - 1])
  }

  /** The token of the j-th minting: the counter starts at 0 and wraps. */
  function TokenOf(j: nat): uint32 {
    (j + 1) % TOKENS
  }

  /** Two mintings share a token exactly when a multiple of 2^32 mintings lies between them; the first 2^32 - 1
      tokens ascend from 1. */
  lemma TokensDistinct(i: nat, j: nat)
    requires i < j
    ensures TokenOf(i) == TokenOf(j) <==> (j - i) % TOKENS == 0
    ensures j < TOKENS - 1 ==> 0 < TokenOf(i) < TokenOf(j)
  {
    var q1, q2 := (i + 1) / TOKENS, (j + 1) / TOKENS;
    assert i + 1 == q1 * TOKENS + TokenOf(i) && j + 1 == q2 * TOKENS + TokenOf(j);
    assert j - i == (q2 - q1) * TOKENS + (TokenOf(j) - TokenOf(i));
    if (j - i) % TOKENS == 0 {
      assert (TokenOf(j) - TokenOf(i)) % TOKENS == 0;
    }
  }

  // ----- What holds in every state, until the counter wraps -----

  predicate MintedToken(s: State, token: uint32) {
    0 < token <= |s.minted| && TokenOf(token - 1) == token
  }

  /** The token is readable with what its minting kept, or its time is up. */
  predicate Readable(ttl: int, s: State, token: uint32)
    requires MintedToken(s, token)
  {
    token in s.touched && s.minted[token - 1].at <= s.touched[token] <= s.now &&
    if token in s.caches.tokens
    then s.caches.tokens[token] == Item(s.minted[token - 1].entries, s.touched[token] + ttl)
    else s.touched[token] + ttl <= s.now
  }

  predicate Inv(ttl: int, s: State) {
    && |s.minted| < TOKENS
    && s.caches.counter == |s.minted|
    && (forall token: uint32 :: token in s.caches.tokens ==> MintedToken(s, token))
    && (forall token: uint32 :: MintedToken(s, token) ==> Readable(ttl, s, token))
    && (forall key :: key in s.caches.keys ==>
          MintedToken(s, s.caches.keys[key].value) && s.minted[s.caches.keys[key].value - 1].key == key)
    && (s.publishing.Some? ==>
          var (key, token) := s.publishing.value;
          MintedToken(s, token) && s.minted[token - 1].key == key && (key != "" ==> key !in s.caches.keys))
  }

  /** A call of Set that is not interrupted is a HitKey step, or a Mint and a Publish step. */
  lemma SetIsARun(ttl: int, s: State, key: string, entries: RuleConf)
    requires s.publishing.None?
    ensures key != "" && key in s.caches.keys ==>
      Enabled(s, HitKey(key)) &&
      Apply(ttl, s, HitKey(key)).caches == s.caches.(keys := Hit(s.caches.keys, key, s.now + ttl))
    ensures !(key != "" && key in s.caches.keys) ==>
      Enabled(s, Mint(key, entries)) && Enabled(Apply(ttl, s, Mint(key, entries)), Publish) &&
      Apply(ttl, Apply(ttl, s, Mint(key, entries)), Publish).caches ==
      Published(Minted(s.caches, entries, s.now + ttl), key, NextToken(s.caches.counter), s.now + ttl)
  {}

  lemma ReadableStays(ttl: int, s: State, step: Step, token: uint32)
    requires ttl >= 0 && Inv(ttl, s) && Enabled(s, step) && |Apply(ttl, s, step).minted| < TOKENS
    requires MintedToken(Apply(ttl, s, step), token)
    ensures Readable(ttl, Apply(ttl, s, step), token)
  {
    if MintedToken(s, token) {
      assert Readable(ttl, s, token);
    }
  }

  lemma StepKeepsInv(ttl: int, s: State, step: Step)
    requires ttl >= 0 && Inv(ttl, s) && Enabled(s, step) && |Apply(ttl, s, step).minted| < TOKENS
    ensures Inv(ttl, Apply(ttl, s, step))
  {
    var s' := Apply(ttl, s, step);
    forall token: uint32 | MintedToken(s', token)
      ensures Readable(ttl, s', token)
    {
      ReadableStays(ttl, s, step, token);
    }
  }

  lemma {:induction false} RunKeepsInv(ttl: int, s0: State, steps: seq<Step>)
    requires ttl >= 0 && Inv(ttl, s0) && ValidRun(ttl, s0, steps) && |After(ttl, s0, steps).minted| < TOKENS
    ensures Inv(ttl, After(ttl, s0, steps))
  {
    if steps != [] {
      RunKeepsInv(ttl, s0, steps[..|steps| - 1]);
      StepKeepsInv(ttl, After(ttl, s0, steps[..|steps| - 1]), steps[|steps| - 1]);
    }
  }

  /** The cache is a memo: in every run, whatever Get finds under a token is what the Set that minted it kept,
      and a token whose last touch is less than a time to live ago is found. */
  lemma GetReturnsMinted(ttl: int, now: int, steps: seq<Step>, token: uint32)
    requires ttl >= 0 && ValidRun(ttl, Start(now), steps)
    requires var s := After(ttl, Start(now), steps); |s.minted| < TOKENS
    ensures var s := After(ttl, Start(now), steps);
      (token in s.caches.tokens ==>
         0 < token <= |s.minted| && s.caches.tokens[token].value == s.minted[token - 1].entries) &&
      (0 < token <= |s.minted| && token in s.touched && s.now < s.touched[token] + ttl ==> token in s.caches.tokens)
  {
    RunKeepsInv(ttl, Start(now), steps);
    var s := After(ttl, Start(now), steps);
    if 0 < token <= |s.minted| { assert MintedToken(s, token); }
  }

  /** While a non-empty key stays in the key cache, its token does not change; and the key leads back to a
      minting of that very key. */
  lemma LiveKeyKeepsToken(ttl: int, s: State, step: Step, key: string)
    requires Inv(ttl, s) && Enabled(s, step) && key != ""
    requires key in s.caches.keys && key in Apply(ttl, s, step).caches.keys
    ensures Apply(ttl, s, step).caches.keys[key].value == s.caches.keys[key].value
    ensures s.minted[s.caches.keys[key].value - 1].key == key
  {}

  predicate KeyLive(ttl: int, s: State, steps: seq<Step>, key: string)
    requires ValidRun(ttl, s, steps)
  {
    key in After(ttl, s, steps).caches.keys && (steps == [] || KeyLive(ttl, s, steps[..|steps| - 1], key))
  }

  lemma {:induction false} LiveKeySameToken(ttl: int, s: State, steps: seq<Step>, key: string)
    requires ttl >= 0 && Inv(ttl, s) && ValidRun(ttl, s, steps) && |After(ttl, s, steps).minted| < TOKENS
    requires key != "" && KeyLive(ttl, s, steps, key)
    ensures Inv(ttl, After(ttl, s, steps))
    ensures key in s.caches.keys && After(ttl, s, steps).caches.keys[key].value == s.caches.keys[key].value
  {
    if steps != [] {
      var before := steps[..|steps| - 1];
      LiveKeySameToken(ttl, s, before, key);
      StepKeepsInv(ttl, After(ttl, s, before), steps[|steps| - 1]);
      LiveKeyKeepsToken(ttl, After(ttl, s, before), steps[|steps| - 1], key);
    }
  }

  /** A key that can be hit has a token that was minted, and so readable, before: if it cannot be read now,
      its time was up. */
  lemma KeyAfterToken(ttl: int, now: int, steps: seq<Step>, key: string)
    requires ttl >= 0 && ValidRun(ttl, Start(now), steps)
    requires var s := After(ttl, Start(now), steps);
      |s.minted| < TOKENS && key in s.caches.keys
    ensures var s := After(ttl, Start(now), steps);
      var token := s.caches.keys[key].value;
      0 < token <= |s.minted| && s.minted[token - 1].key == key && token in s.touched &&
      s.minted[token - 1].at <= s.touched[token] && (token !in s.caches.tokens ==> s.touched[token] + ttl <= s.now)
  {
    RunKeepsInv(ttl, Start(now), steps);
    var s := After(ttl, Start(now), steps);
    assert Readable(ttl, s, s.caches.keys[key].value);
  }

  // ----- How long a token is good for -----

  /** The environment variable APISIX_CONF_EXPIRE_TIME. */
  datatype Expiry = Unset | Invalid | Seconds(n: int)

  /** `getConfCacheTTL` in whole seconds; 0 makes the runner refuse to start. */
  function GetConfCacheTtl(expiry: Expiry): (ttl: int)
    ensures match expiry
      case Unset => ttl == 4320
      case Invalid => ttl == 0
      case Seconds(n) => if n <= 0 then ttl == 0 else 5 * ttl <= 6 * n < 5 * ttl + 5
  {
    match expiry
    case Unset => RunnerTtl(3600)
    case Invalid => 0
    case Seconds(n) => if n <= 0 then 0 else RunnerTtl(n)
  }

  /** An expiry and a fifth of it, cut to whole seconds. */
  function RunnerTtl(n: int): (ttl: int)
    ensures 5 * ttl <= 6 * n < 5 * ttl + 5
  {
    6 * n / 5
  }

  lemma TtlOutlives(n: int)
    requires n >= 1
    ensures RunnerTtl(n) >= n
    ensures RunnerTtl(n) > n <==> n >= 5
    ensures GetConfCacheTtl(Seconds(n)) == RunnerTtl(n) > 0
  {}

  /** With an expiry of at least 5 seconds, a token minted `n` seconds ago or less is found, in every run. */
  lemma TokenGoodForExpiry(n: int, now: int, steps: seq<Step>, token: uint32)
    requires n >= 5 && ValidRun(RunnerTtl(n), Start(now), steps)
    requires var s := After(RunnerTtl(n), Start(now), steps);
      |s.minted| < TOKENS && 0 < token <= |s.minted| && s.now <= s.minted[token - 1].at + n
    ensures token in After(RunnerTtl(n), Start(now), steps).caches.tokens
  {
    RunKeepsInv(RunnerTtl(n), Start(now), steps);
    var s := After(RunnerTtl(n), Start(now), steps);
    assert MintedToken(s, token) && Readable(RunnerTtl(n), s, token);
    TtlOutlives(n);
  }

  lemma Go(ttl: int, s0: State, steps: seq<Step>, step: Step) returns (next: seq<Step>)
    requires ValidRun(ttl, s0, steps) && Enabled(After(ttl, s0, steps), step)
    ensures ValidRun(ttl, s0, next) && After(ttl, s0, next) == Apply(ttl, After(ttl, s0, steps), step)
  {
    next := steps + [step];
    assert next[..|next| - 1] == steps;
  }

  /** Below 5 seconds it is not: the token can be gone at the last second of its expiry. */
  lemma TokenGoneAtExpiry(n: int, now: int) returns (steps: seq<Step>)
    requires 1 <= n < 5
    ensures ValidRun(RunnerTtl(n), Start(now), steps)
    ensures var s := After(RunnerTtl(n), Start(now), steps);
      |s.minted| == 1 && s.now == s.minted[0].at + n && 1 !in s.caches.tokens
  {
    var ttl := RunnerTtl(n);
    TtlOutlives(n);
    steps := Go(ttl, Start(now), [], Mint("route", []));
    steps := Go(ttl, Start(now), steps, Publish);
    steps := Go(ttl, Start(now), steps, Tick(n));
    steps := Go(ttl, Start(now), steps, ExpireToken(1));
  }

  /** A key hit extends only the key's life: the token it hands out again may already be gone. */
  lemma KeyOutlivesToken(ttl: int, now: int) returns (steps: seq<Step>)
    requires ttl >= 2
    ensures ValidRun(ttl, Start(now), steps)
    ensures var s := After(ttl, Start(now), steps);
      Enabled(s, HitKey("route")) && s.caches.keys["route"].expireAt > s.now &&
        s.caches.keys["route"].value !in s.caches.tokens
  {
    steps := Go(ttl, Start(now), [], Mint("route", []));
    steps := Go(ttl, Start(now), steps, Publish);
    steps := Go(ttl, Start(now), steps, Tick(ttl - 1));
    steps := KeyOutlivesTokenLate(ttl, now, steps);
  }

  lemma KeyOutlivesTokenLate(ttl: int, now: int, steps: seq<Step>) returns (next: seq<Step>)
    requires ttl >= 2 && ValidRun(ttl, Start(now), steps)
    requires After(ttl, Start(now), steps) ==
      State(Caches(map[1 := Item([], now + ttl)], map["route" := Item(1, now + ttl)], 1), None, now + ttl - 1,
            [Minting("route", [], now)], map[1 := now])
    ensures ValidRun(ttl, Start(now), next)
    ensures var s := After(ttl, Start(now), next);
      Enabled(s, HitKey("route")) && s.caches.keys["route"].expireAt > s.now &&
        s.caches.keys["route"].value !in s.caches.tokens
  {
    next := Go(ttl, Start(now), steps, HitKey("route"));
    next := Go(ttl, Start(now), next, Tick(1));
    next := Go(ttl, Start(now), next, ExpireToken(1));
  }

  /** A token handed out again by a key hit can be missing `n` seconds later, if nobody reads it meanwhile,
      exactly when its own entry was not touched recently enough. */
  lemma ReissuedTokenLostIff(n: int, s: State, key: string)
    requires n >= 1 && Inv(RunnerTtl(n), s) && Enabled(s, HitKey(key))
    ensures var ttl, token := RunnerTtl(n), s.caches.keys[key].value;
      (exists steps :: CanLose(ttl, s, steps, token, n)) <==> s.touched[token] + ttl <= s.now + n
  {
    var ttl, token := RunnerTtl(n), s.caches.keys[key].value;
    assert MintedToken(s, token) && Readable(ttl, s, token);
    forall steps | CanLose(ttl, s, steps, token, n)
      ensures s.touched[token] + ttl <= s.now + n
    {
      RunKeepsInv(ttl, s, steps);
      var s' := After(ttl, s, steps);
      assert MintedToken(s', token) && Readable(ttl, s', token);
    }
    if s.touched[token] + ttl <= s.now + n {
      var steps := Go(ttl, s, [], Tick(n));
      if token in s.caches.tokens {
        steps := Go(ttl, s, steps, ExpireToken(token));
      }
      assert CanLose(ttl, s, steps, token, n);
    }
  }

  /** `steps` lead `n` seconds on, to a state where a token that was not touched on the way is missing. */
  predicate CanLose(ttl: int, s: State, steps: seq<Step>, token: uint32, n: int) {
    ValidRun(ttl, s, steps) &&
    var s' := After(ttl, s, steps);
    s'.now == s.now + n && s'.minted == s.minted && s'.touched == s.touched && token !in s'.caches.tokens
  }
}
