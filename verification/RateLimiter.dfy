/**
 The limiter of src/RateLimiter.cpp: a global bucket and two bucket caches, one
 per IP address and one per public key, over runs of requests and cleanups.
 */
module RateLimiter {
  import opened TokenBuckets
  import opened BucketCache
  import opened CacheRuns

  datatype Config = Config(
    enabled: bool, perIp: nat, perPubkey: nat, global: nat, burst: real,
    maxIp: nat, maxPubkey: nat, staleSeconds: nat)

  function Capacity(perMinute: nat, burst: real): real {
    perMinute as real * burst
  }

  function Rate(perMinute: nat): real {
    perMinute as real / 60.0
  }

  datatype Limiter = Limiter(global: Bucket, ip: CacheValue, pubkey: CacheValue)

  function Start(cfg: Config, now: real): Limiter {
    Limiter(NewBucket(Capacity(cfg.global, cfg.burst), Rate(cfg.global), now), CacheValue([], map[]),
      CacheValue([], map[]))
  }

  /** A request, with the clock as each of the three buckets would read it. */
  datatype Request = Request(ip: string, pubkey: string, tGlobal: real, tIp: real, tPubkey: real)

  predicate Monotone(q: Request) {
    q.tGlobal <= q.tIp <= q.tPubkey
  }

  datatype CheckResult = Allowed | Limited(reason: string)

  // ----- one request -----

  function UseGlobal(cfg: Config, g: Bucket, q: Request): (Bucket, bool) {
    if cfg.global > 0 then Consume(g, q.tGlobal) else (g, true)
  }

  predicate ChecksIp(cfg: Config, q: Request) {
    cfg.perIp > 0 && q.ip != ""
  }

  function UseIp(cfg: Config, c: CacheValue, q: Request): (CacheValue, bool) {
    if ChecksIp(cfg, q)
    then CheckAt(c, Key(q.ip), Capacity(cfg.perIp, cfg.burst), Rate(cfg.perIp), cfg.maxIp, q.tIp)
    else (c, true)
  }

  predicate ChecksPubkey(cfg: Config, q: Request) {
    cfg.perPubkey > 0 && q.pubkey != ""
  }

  function UsePubkey(cfg: Config, c: CacheValue, q: Request): (CacheValue, bool) {
    if ChecksPubkey(cfg, q)
    then CheckAt(c, Key(q.pubkey), Capacity(cfg.perPubkey, cfg.burst), Rate(cfg.perPubkey), cfg.maxPubkey, q.tPubkey)
    else (c, true)
  }

  /** Global, then IP, then public key; the first refusal stops, and earlier tokens are not given back. */
  function Check(cfg: Config, l: Limiter, q: Request): (Limiter, CheckResult) {
    if !cfg.enabled then (l, Allowed) else
      var (g, globalOk) := UseGlobal(cfg, l.global, q);
      if !globalOk then (l.(global := g), Limited("rate_limit_exceeded: global")) else
        var (ip, ipOk) := UseIp(cfg, l.ip, q);
        if !ipOk then (Limiter(g, ip, l.pubkey), Limited("rate_limit_exceeded: per_ip")) else
          var (pk, pkOk) := UsePubkey(cfg, l.pubkey, q);
          (Limiter(g, ip, pk), if pkOk then Allowed else Limited("rate_limit_exceeded: per_pubkey"))
  }

  /** Whether the request gets as far as the IP cache and uses it. */
  predicate ReachesIp(cfg: Config, l: Limiter, q: Request) {
    cfg.enabled && UseGlobal(cfg, l.global, q).1 && ChecksIp(cfg, q)
  }

  predicate ReachesPubkey(cfg: Config, l: Limiter, q: Request) {
    cfg.enabled && UseGlobal(cfg, l.global, q).1 && UseIp(cfg, l.ip, q).1 && ChecksPubkey(cfg, q)
  }

  predicate GlobalHasToken(cfg: Config, l: Limiter, q: Request) {
    cfg.global > 0 ==> TokensAt(l.global, q.tGlobal) >= 1.0
  }

  /** A known key has a token left, or a new bucket would have one. */
  predicate KeyHasToken(c: CacheValue, key: Key, capacity: real, t: real) {
    if key in c.buckets then TokensAt(c.buckets[key], t) >= 1.0 else capacity >= 1.0
  }

  predicate IpHasToken(cfg: Config, l: Limiter, q: Request) {
    ChecksIp(cfg, q) ==> KeyHasToken(l.ip, Key(q.ip), Capacity(cfg.perIp, cfg.burst), q.tIp)
  }

  predicate PubkeyHasToken(cfg: Config, l: Limiter, q: Request) {
    ChecksPubkey(cfg, q) ==> KeyHasToken(l.pubkey, Key(q.pubkey), Capacity(cfg.perPubkey, cfg.burst), q.tPubkey)
  }

  lemma NewBucketTokens(capacity: real, rate: real, now: real)
    ensures TokensAt(NewBucket(capacity, rate, now), now) == capacity
  {
    assert Earned(rate, now, now) == 0.0;
  }

  /** A request is allowed exactly if every bucket it needs has a token; the reason names the first that has none. */
  lemma DecisionIs(cfg: Config, l: Limiter, q: Request)
    requires cfg.enabled
    ensures var r := Check(cfg, l, q).1;
      && (r == Allowed <==> GlobalHasToken(cfg, l, q) && IpHasToken(cfg, l, q) && PubkeyHasToken(cfg, l, q))
      && (r == Limited("rate_limit_exceeded: global") <==> !GlobalHasToken(cfg, l, q))
      && (r == Limited("rate_limit_exceeded: per_ip") <==> GlobalHasToken(cfg, l, q) && !IpHasToken(cfg, l, q))
      && (r == Limited("rate_limit_exceeded: per_pubkey") <==>
          GlobalHasToken(cfg, l, q) && IpHasToken(cfg, l, q) && !PubkeyHasToken(cfg, l, q))
  {
    NewBucketTokens(Capacity(cfg.perIp, cfg.burst), Rate(cfg.perIp), q.tIp);
    NewBucketTokens(Capacity(cfg.perPubkey, cfg.burst), Rate(cfg.perPubkey), q.tPubkey);
    var g, i, p := "rate_limit_exceeded: global", "rate_limit_exceeded: per_ip", "rate_limit_exceeded: per_pubkey";
    assert |g| == 27 && |i| == 27 && |p| == 31;
    assert g[21] != i[21] && g[21] != p[21];
  }

  // ----- runs -----

  datatype Action = Ask(request: Request) | Cleanup(tIp: real, tPubkey: real)

  predicate Ordered(a: Action) {
    match a
    case Ask(q) => Monotone(q)
    case Cleanup(tIp, tPubkey) => tIp <= tPubkey
  }

  function StartOf(a: Action): real {
    match a
    case Ask(q) => q.tGlobal
    case Cleanup(tIp, tPubkey) => tIp
  }

  function EndOf(a: Action): real {
    match a
    case Ask(q) => q.tPubkey
    case Cleanup(tIp, tPubkey) => tPubkey
  }

  function Act(cfg: Config, l: Limiter, a: Action): Limiter {
    match a
    case Ask(q) => Check(cfg, l, q).0
    case Cleanup(tIp, tPubkey) => l.(ip := Cleaned(l.ip, tIp), pubkey := Cleaned(l.pubkey, tPubkey))
  }

  /** The actions happen one after the other between `from` and `to`. */
  predicate Within(actions: seq<Action>, from: real, to: real)
    decreases |actions|
  {
    if actions == [] then from <= to
    else from <= StartOf(actions[0]) && Ordered(actions[0]) && Within(actions[1..], EndOf(actions[0]), to)
  }

  function Run(cfg: Config, l: Limiter, actions: seq<Action>): Limiter
    decreases |actions|
  {
    if actions == [] then l else Run(cfg, Act(cfg, l, actions[0]), actions[1..])
  }

  /** The answers given, in order. */
  function Answers(cfg: Config, l: Limiter, actions: seq<Action>): seq<CheckResult>
    decreases |actions|
  {
    if actions == [] then []
    else
      (if actions[0].Ask? then [Check(cfg, l, actions[0].request).1] else [])
      + Answers(cfg, Act(cfg, l, actions[0]), actions[1..])
  }

  class RateLimiter {
    const config: Config
    var globalBucket: Bucket
    const ipCache: LRUBucketCache
    const pubkeyCache: LRUBucketCache
    var totalRequests: nat
    var rateLimitedRequests: nat

    function Value(): Limiter
      reads this, ipCache, pubkeyCache
    {
      Limiter(globalBucket, ipCache.Value(), pubkeyCache.Value())
    }

    ghost predicate Valid()
      reads this, ipCache, pubkeyCache
    {
      ipCache != pubkeyCache && Listed(ipCache.Value()) && Listed(pubkeyCache.Value())
    }

    constructor (config: Config, now: real)
      ensures Valid() && this.config == config && Value() == Start(config, now)
      ensures totalRequests == 0 && rateLimitedRequests == 0
      ensures fresh(ipCache) && fresh(pubkeyCache)
    {
      this.config := config;
      globalBucket := NewBucket(Capacity(config.global, config.burst), Rate(config.global), now);
      ipCache := new LRUBucketCache();
      pubkeyCache := new LRUBucketCache();
      totalRequests, rateLimitedRequests := 0, 0;
    }

    /** `checkAndConsume`; `cIp` and `cPubkey` are the clock when a new bucket is made. */
    method CheckAndConsume(q: Request, cIp: real, cPubkey: real) returns (r: CheckResult)
      requires Valid() && cIp <= q.tIp && cPubkey <= q.tPubkey
      modifies this, ipCache, pubkeyCache
      ensures (Value(), r) == Check(config, old(Value()), q)
      ensures totalRequests == old(totalRequests) + if config.enabled then 1 else 0
      ensures rateLimitedRequests == old(rateLimitedRequests) + if r.Limited? then 1 else 0
    {
      if !config.enabled { return Allowed; }
      totalRequests := totalRequests + 1;
      if config.global > 0 {
        var (g, ok) := Consume(globalBucket, q.tGlobal);
        globalBucket := g;
        if !ok {
          rateLimitedRequests := rateLimitedRequests + 1;
          return Limited("rate_limit_exceeded: global");
        }
      }
      if config.perIp > 0 && q.ip != "" {
        var ok := ipCache.CheckBucket(Key(q.ip), Capacity(config.perIp, config.burst), Rate(config.perIp),
          config.maxIp, cIp, q.tIp);
        if !ok {
          rateLimitedRequests := rateLimitedRequests + 1;
          return Limited("rate_limit_exceeded: per_ip");
        }
      }
      if config.perPubkey > 0 && q.pubkey != "" {
        var ok := pubkeyCache.CheckBucket(
          Key(q.pubkey), Capacity(config.perPubkey, config.burst), Rate(config.perPubkey), config.maxPubkey,
          cPubkey, q.tPubkey);
        if !ok {
          rateLimitedRequests := rateLimitedRequests + 1;
          return Limited("rate_limit_exceeded: per_pubkey");
        }
      }
      return Allowed;
    }

    /** `cleanup`, with the clock of each `eraseStale` before its loop and at its refills. */
    method CleanupStale(nowIp: real, clockIp: nat -> real, nowPubkey: real, clockPubkey: nat -> real)
      requires Valid() && nowIp <= clockIp(0) && nowPubkey <= clockPubkey(0)
      modifies ipCache, pubkeyCache
      ensures Valid() && Value() == Act(config, old(Value()), Cleanup(clockIp(0), clockPubkey(0)))
    {
      NothingIsStale(ipCache.Value(), config.staleSeconds as real, nowIp, clockIp);
      NothingIsStale(pubkeyCache.Value(), config.staleSeconds as real, nowPubkey, clockPubkey);
      var ipRemoved := ipCache.EraseStale(config.staleSeconds as real, nowIp, clockIp);
      var pubkeyRemoved := pubkeyCache.EraseStale(config.staleSeconds as real, nowPubkey, clockPubkey);
    }
  }

  // ----- each cache sees a run of its own -----

  function IpConfig(cfg: Config): CacheConfig {
    CacheConfig(Capacity(cfg.perIp, cfg.burst), Rate(cfg.perIp), cfg.maxIp)
  }

  function PubkeyConfig(cfg: Config): CacheConfig {
    CacheConfig(Capacity(cfg.perPubkey, cfg.burst), Rate(cfg.perPubkey), cfg.maxPubkey)
  }

  function IpStep(cfg: Config, l: Limiter, a: Action): CacheStep {
    match a
    case Ask(q) => if ReachesIp(cfg, l, q) then Use(Key(q.ip), q.tIp) else Idle
    case Cleanup(tIp, _) => Clean(tIp)
  }

  function PubkeyStep(cfg: Config, l: Limiter, a: Action): CacheStep {
    match a
    case Ask(q) => if ReachesPubkey(cfg, l, q) then Use(Key(q.pubkey), q.tPubkey) else Idle
    case Cleanup(_, tPubkey) => Clean(tPubkey)
  }

  function IpSteps(cfg: Config, l: Limiter, actions: seq<Action>): seq<CacheStep>
    decreases |actions|
  {
    if actions == [] then [] else [IpStep(cfg, l, actions[0])] + IpSteps(cfg, Act(cfg, l, actions[0]), actions[1..])
  }

  function PubkeySteps(cfg: Config, l: Limiter, actions: seq<Action>): seq<CacheStep>
    decreases |actions|
  {
    if actions == [] then []
    else [PubkeyStep(cfg, l, actions[0])] + PubkeySteps(cfg, Act(cfg, l, actions[0]), actions[1..])
  }

  lemma ActOnIp(cfg: Config, l: Limiter, a: Action)
    ensures Act(cfg, l, a).ip == StepCache(IpConfig(cfg), l.ip, IpStep(cfg, l, a))
  {
  }

  lemma ActOnPubkey(cfg: Config, l: Limiter, a: Action)
    ensures Act(cfg, l, a).pubkey == StepCache(PubkeyConfig(cfg), l.pubkey, PubkeyStep(cfg, l, a))
  {
  }

  lemma {:induction false} TimedLater(steps: seq<CacheStep>, from: real, mid: real, to: real)
    requires from <= mid && Timed(steps, mid, to)
    ensures Timed(steps, from, to)
    decreases |steps|
  {
    if steps != [] && steps[0].Idle? {
      TimedLater(steps[1..], from, mid, to);
    }
  }

  lemma {:induction false} IpRun(cfg: Config, l: Limiter, actions: seq<Action>, from: real, to: real)
    requires Within(actions, from, to)
    ensures Run(cfg, l, actions).ip == RunCache(IpConfig(cfg), l.ip, IpSteps(cfg, l, actions))
    ensures Timed(IpSteps(cfg, l, actions), from, to)
    decreases |actions|
  {
    if actions != [] {
      var a := actions[0];
      ActOnIp(cfg, l, a);
      IpRun(cfg, Act(cfg, l, a), actions[1..], EndOf(a), to);
      TimedLater(IpSteps(cfg, Act(cfg, l, a), actions[1..]), TimeOf(IpStep(cfg, l, a), from), EndOf(a), to);
    }
  }

  lemma {:induction false} PubkeyRun(cfg: Config, l: Limiter, actions: seq<Action>, from: real, to: real)
    requires Within(actions, from, to)
    ensures Run(cfg, l, actions).pubkey == RunCache(PubkeyConfig(cfg), l.pubkey, PubkeySteps(cfg, l, actions))
    ensures Timed(PubkeySteps(cfg, l, actions), from, to)
    decreases |actions|
  {
    if actions != [] {
      var a := actions[0];
      ActOnPubkey(cfg, l, a);
      PubkeyRun(cfg, Act(cfg, l, a), actions[1..], EndOf(a), to);
      TimedLater(PubkeySteps(cfg, Act(cfg, l, a), actions[1..]), TimeOf(PubkeyStep(cfg, l, a), from), EndOf(a), to);
    }
  }

  // ----- what every run keeps -----

  ghost predicate GlobalInv(cfg: Config, g: Bucket, t: real) {
    ValidBucket(g) && g.lastRefill <= t && g.capacity == Capacity(cfg.global, cfg.burst) &&
      g.refillRate == Rate(cfg.global)
  }

  ghost predicate Inv(cfg: Config, l: Limiter, t: real) {
    GlobalInv(cfg, l.global, t) && Uniform(IpConfig(cfg), l.ip, t) && Uniform(PubkeyConfig(cfg), l.pubkey, t)
  }

  lemma StartHolds(cfg: Config, now: real)
    ensures Inv(cfg, Start(cfg, now), now)
  {
  }

  lemma ActKeepsGlobal(cfg: Config, l: Limiter, a: Action, t: real)
    requires GlobalInv(cfg, l.global, t) && Ordered(a) && t <= StartOf(a)
    ensures GlobalInv(cfg, Act(cfg, l, a).global, EndOf(a))
  {
    if a.Ask? {
      ConsumeConserves(l.global, t, a.request.tGlobal, a.request.tGlobal);
    }
  }

  lemma UniformLater(cc: CacheConfig, c: CacheValue, t: real, t': real)
    requires Uniform(cc, c, t) && t <= t'
    ensures Uniform(cc, c, t')
  {
  }

  lemma ActKeeps(cfg: Config, l: Limiter, a: Action, t: real)
    requires Inv(cfg, l, t) && Ordered(a) && t <= StartOf(a)
    ensures Inv(cfg, Act(cfg, l, a), EndOf(a))
  {
    ActKeepsGlobal(cfg, l, a, t);
    ActOnIp(cfg, l, a);
    StepKeepsUniform(IpConfig(cfg), l.ip, IpStep(cfg, l, a), t);
    UniformLater(IpConfig(cfg), Act(cfg, l, a).ip, TimeOf(IpStep(cfg, l, a), t), EndOf(a));
    ActOnPubkey(cfg, l, a);
    StepKeepsUniform(PubkeyConfig(cfg), l.pubkey, PubkeyStep(cfg, l, a), t);
    UniformLater(PubkeyConfig(cfg), Act(cfg, l, a).pubkey, TimeOf(PubkeyStep(cfg, l, a), t), EndOf(a));
  }

  lemma {:induction false} RunKeeps(cfg: Config, l: Limiter, actions: seq<Action>, from: real, to: real)
    requires Inv(cfg, l, from) && Within(actions, from, to)
    ensures Inv(cfg, Run(cfg, l, actions), to)
    decreases |actions|
  {
    if actions == [] {
      UniformLater(IpConfig(cfg), l.ip, from, to);
      UniformLater(PubkeyConfig(cfg), l.pubkey, from, to);
    } else {
      ActKeeps(cfg, l, actions[0], from);
      RunKeeps(cfg, Act(cfg, l, actions[0]), actions[1..], EndOf(actions[0]), to);
    }
  }

  /** A bucket that cannot hold a token, as with a negative burst multiplier, refuses everything. */
  lemma SmallBucketsRefuse(cfg: Config, l: Limiter, q: Request, t: real)
    requires Inv(cfg, l, t) && Monotone(q) && t <= q.tGlobal && cfg.enabled
    ensures cfg.global > 0 && Capacity(cfg.global, cfg.burst) < 1.0 ==> Check(cfg, l, q).1.Limited?
    ensures ChecksIp(cfg, q) && IpConfig(cfg).capacity < 1.0 ==> Check(cfg, l, q).1.Limited?
    ensures ChecksPubkey(cfg, q) && PubkeyConfig(cfg).capacity < 1.0 ==> Check(cfg, l, q).1.Limited?
  {
    DecisionIs(cfg, l, q);
    TokensInRange(l.global, q.tGlobal);
    if Key(q.ip) in l.ip.buckets { TokensInRange(l.ip.buckets[Key(q.ip)], q.tIp); }
    if Key(q.pubkey) in l.pubkey.buckets { TokensInRange(l.pubkey.buckets[Key(q.pubkey)], q.tPubkey); }
  }

  // ----- the global bound -----

  predicate Grants(cfg: Config, l: Limiter, a: Action) {
    a.Ask? && Check(cfg, l, a.request).1.Allowed?
  }

  function AllowedCount(cfg: Config, l: Limiter, actions: seq<Action>): nat
    decreases |actions|
  {
    if actions == [] then 0
    else (if Grants(cfg, l, actions[0]) then 1 else 0) + AllowedCount(cfg, Act(cfg, l, actions[0]), actions[1..])
  }

  /** The request gets past the global bucket. */
  predicate Passes(cfg: Config, l: Limiter, a: Action) {
    a.Ask? && UseGlobal(cfg, l.global, a.request).1
  }

  function PassedCount(cfg: Config, l: Limiter, actions: seq<Action>): nat
    decreases |actions|
  {
    if actions == [] then 0
    else (if Passes(cfg, l, actions[0]) then 1 else 0) + PassedCount(cfg, Act(cfg, l, actions[0]), actions[1..])
  }

  lemma {:induction false} AllowedPassed(cfg: Config, l: Limiter, actions: seq<Action>)
    requires cfg.enabled
    ensures AllowedCount(cfg, l, actions) <= PassedCount(cfg, l, actions)
    decreases |actions|
  {
    if actions != [] { AllowedPassed(cfg, Act(cfg, l, actions[0]), actions[1..]); }
  }

  lemma GlobalStep(cfg: Config, l: Limiter, a: Action, t: real)
    requires GlobalInv(cfg, l.global, t) && Ordered(a) && t <= StartOf(a) && cfg.enabled && cfg.global > 0
    ensures Spendable(Act(cfg, l, a).global, EndOf(a)) + (if Passes(cfg, l, a) then 1.0 else 0.0)
      <= Spendable(l.global, t) + Earned(l.global.refillRate, t, EndOf(a))
  {
    match a
    case Ask(q) =>
      CheckUsesGlobal(cfg, l, q);
      SpendConserves(l.global, t, q.tGlobal, q.tPubkey);
    case Cleanup(_, tPubkey) => SpendableLater(l.global, t, tPubkey);
  }

  lemma CheckUsesGlobal(cfg: Config, l: Limiter, q: Request)
    requires cfg.enabled
    ensures Check(cfg, l, q).0.global == UseGlobal(cfg, l.global, q).0
    ensures Check(cfg, l, q).1.Allowed? ==> UseGlobal(cfg, l.global, q).1
  {
  }

  lemma {:induction false} GlobalPotential(cfg: Config, l: Limiter, actions: seq<Action>, from: real, to: real)
    requires GlobalInv(cfg, l.global, from) && Within(actions, from, to) && cfg.enabled && cfg.global > 0
    ensures PassedCount(cfg, l, actions) as real <= Spendable(l.global, from) + Earned(l.global.refillRate, from, to)
    decreases |actions|
  {
    if actions == [] {
      Grows(l.global.refillRate, from, to);
    } else {
      var a := actions[0];
      ActKeepsGlobal(cfg, l, a, from);
      GlobalStep(cfg, l, a, from);
      GlobalPotential(cfg, Act(cfg, l, a), actions[1..], EndOf(a), to);
      Splits(l.global.refillRate, from, EndOf(a), to);
    }
  }

  /** The capacity of the global bucket plus what it earns in the window. */
  function GlobalAllowance(cfg: Config, from: real, to: real): real {
    Clip(Capacity(cfg.global, cfg.burst)) + Earned(Rate(cfg.global), from, to)
  }

  /**
   In any window, at most the capacity plus the refill of the window gets past the global bucket,
   whatever came before.
   */
  lemma GlobalBound(cfg: Config, l: Limiter, actions: seq<Action>, from: real, to: real)
    requires Inv(cfg, l, from) && Within(actions, from, to) && cfg.enabled && cfg.global > 0
    ensures AllowedCount(cfg, l, actions) <= PassedCount(cfg, l, actions)
    ensures PassedCount(cfg, l, actions) as real <= GlobalAllowance(cfg, from, to)
  {
    AllowedPassed(cfg, l, actions);
    GlobalPotential(cfg, l, actions, from, to);
    SpendableInRange(l.global, from);
  }

  // ----- the bounds per address and per key -----

  predicate GrantsIp(cfg: Config, l: Limiter, a: Action, ip: string) {
    Grants(cfg, l, a) && a.request.ip == ip
  }

  function AllowedForIp(cfg: Config, l: Limiter, actions: seq<Action>, ip: string): nat
    decreases |actions|
  {
    if actions == [] then 0
    else
      (if GrantsIp(cfg, l, actions[0], ip) then 1 else 0)
      + AllowedForIp(cfg, Act(cfg, l, actions[0]), actions[1..], ip)
  }

  predicate GrantsPubkey(cfg: Config, l: Limiter, a: Action, pubkey: string) {
    Grants(cfg, l, a) && a.request.pubkey == pubkey
  }

  function AllowedForPubkey(cfg: Config, l: Limiter, actions: seq<Action>, pubkey: string): nat
    decreases |actions|
  {
    if actions == [] then 0
    else
      (if GrantsPubkey(cfg, l, actions[0], pubkey) then 1 else 0)
      + AllowedForPubkey(cfg, Act(cfg, l, actions[0]), actions[1..], pubkey)
  }

  lemma {:induction false} IpGrantsAreGranted(cfg: Config, l: Limiter, actions: seq<Action>, ip: string)
    requires cfg.enabled && cfg.perIp > 0 && ip != ""
    ensures AllowedForIp(cfg, l, actions, ip) <= GrantedCount(IpConfig(cfg), l.ip, IpSteps(cfg, l, actions), Key(ip))
    decreases |actions|
  {
    if actions != [] {
      var a := actions[0];
      ActOnIp(cfg, l, a);
      assert GrantsIp(cfg, l, a, ip) ==> Granted(IpConfig(cfg), l.ip, IpStep(cfg, l, a), Key(ip));
      IpGrantsAreGranted(cfg, Act(cfg, l, a), actions[1..], ip);
    }
  }

  lemma {:induction false} PubkeyGrantsAreGranted(cfg: Config, l: Limiter, actions: seq<Action>, pubkey: string)
    requires cfg.enabled && cfg.perPubkey > 0 && pubkey != ""
    ensures AllowedForPubkey(cfg, l, actions, pubkey)
      <= GrantedCount(PubkeyConfig(cfg), l.pubkey, PubkeySteps(cfg, l, actions), Key(pubkey))
    decreases |actions|
  {
    if actions != [] {
      var a := actions[0];
      ActOnPubkey(cfg, l, a);
      assert GrantsPubkey(cfg, l, a, pubkey) ==>
        Granted(PubkeyConfig(cfg), l.pubkey, PubkeyStep(cfg, l, a), Key(pubkey));
      PubkeyGrantsAreGranted(cfg, Act(cfg, l, a), actions[1..], pubkey);
    }
  }

  /** How often the address got a new bucket. */
  function IpRecreated(cfg: Config, l: Limiter, actions: seq<Action>, ip: string): nat {
    CreatedCount(IpConfig(cfg), l.ip, IpSteps(cfg, l, actions), Key(ip))
  }

  function PubkeyRecreated(cfg: Config, l: Limiter, actions: seq<Action>, pubkey: string): nat {
    CreatedCount(PubkeyConfig(cfg), l.pubkey, PubkeySteps(cfg, l, actions), Key(pubkey))
  }

  lemma IpGranted(cfg: Config, l: Limiter, actions: seq<Action>, from: real, to: real, ip: string)
    requires Uniform(IpConfig(cfg), l.ip, from) && Within(actions, from, to)
    ensures GrantedCount(IpConfig(cfg), l.ip, IpSteps(cfg, l, actions), Key(ip)) as real
      <= Times(IpRecreated(cfg, l, actions, ip) + 1, Clip(IpConfig(cfg).capacity)) +
        Earned(IpConfig(cfg).rate, from, to)
  {
    IpRun(cfg, l, actions, from, to);
    CacheBound(IpConfig(cfg), l.ip, IpSteps(cfg, l, actions), Key(ip), from, to);
  }

  /** One address gets at most (k + 1) capacities plus the refill, k being how often its bucket was made anew. */
  lemma IpBound(cfg: Config, l: Limiter, actions: seq<Action>, from: real, to: real, ip: string)
    requires Inv(cfg, l, from) && Within(actions, from, to) && cfg.enabled && cfg.perIp > 0 && ip != ""
    ensures AllowedForIp(cfg, l, actions, ip) as real
      <= Times(IpRecreated(cfg, l, actions, ip) + 1, Clip(IpConfig(cfg).capacity)) +
        Earned(IpConfig(cfg).rate, from, to)
  {
    IpGrantsAreGranted(cfg, l, actions, ip);
    IpGranted(cfg, l, actions, from, to, ip);
  }

  lemma PubkeyGranted(cfg: Config, l: Limiter, actions: seq<Action>, from: real, to: real, pubkey: string)
    requires Uniform(PubkeyConfig(cfg), l.pubkey, from) && Within(actions, from, to)
    ensures GrantedCount(PubkeyConfig(cfg), l.pubkey, PubkeySteps(cfg, l, actions), Key(pubkey)) as real
      <= Times(PubkeyRecreated(cfg, l, actions, pubkey) + 1, Clip(PubkeyConfig(cfg).capacity))
      + Earned(PubkeyConfig(cfg).rate, from, to)
  {
    PubkeyRun(cfg, l, actions, from, to);
    CacheBound(PubkeyConfig(cfg), l.pubkey, PubkeySteps(cfg, l, actions), Key(pubkey), from, to);
  }

  lemma PubkeyBound(cfg: Config, l: Limiter, actions: seq<Action>, from: real, to: real, pubkey: string)
    requires Inv(cfg, l, from) && Within(actions, from, to) && cfg.enabled && cfg.perPubkey > 0 && pubkey != ""
    ensures AllowedForPubkey(cfg, l, actions, pubkey) as real
      <= Times(PubkeyRecreated(cfg, l, actions, pubkey) + 1, Clip(PubkeyConfig(cfg).capacity))
      + Earned(PubkeyConfig(cfg).rate, from, to)
  {
    PubkeyGrantsAreGranted(cfg, l, actions, pubkey);
    PubkeyGranted(cfg, l, actions, from, to, pubkey);
  }

  // ----- bounds that count nothing inside the limiter -----

  lemma {:induction false} IpUsesPassed(cfg: Config, l: Limiter, actions: seq<Action>, x: Key)
    ensures OthersUsed(IpSteps(cfg, l, actions), x) <= PassedCount(cfg, l, actions)
    decreases |actions|
  {
    if actions != [] {
      IpUsesPassed(cfg, Act(cfg, l, actions[0]), actions[1..], x);
      assert IpSteps(cfg, l, actions)[1..] == IpSteps(cfg, Act(cfg, l, actions[0]), actions[1..]);
    }
  }

  lemma {:induction false} PubkeyUsesPassed(cfg: Config, l: Limiter, actions: seq<Action>, x: Key)
    ensures OthersUsed(PubkeySteps(cfg, l, actions), x) <= PassedCount(cfg, l, actions)
    decreases |actions|
  {
    if actions != [] {
      PubkeyUsesPassed(cfg, Act(cfg, l, actions[0]), actions[1..], x);
      assert PubkeySteps(cfg, l, actions)[1..] == PubkeySteps(cfg, Act(cfg, l, actions[0]), actions[1..]);
    }
  }

  /** Two capacities, and one more for each cap's worth of requests the global bucket can let through. */
  function Closed(capacity: real, cap: nat, allowance: real): real
    requires cap > 0
  {
    (2.0 + allowance / cap as real) * capacity
  }

  lemma CloseUp(k: nat, cap: nat, uses: nat, allowance: real, capacity: real)
    requires cap > 0 && k * cap <= cap + uses && uses as real <= allowance && capacity >= 0.0
    ensures Times(k + 1, capacity) <= Closed(capacity, cap, allowance)
  {
    var n := cap as real;
    assert k as real * n <= n + allowance;
    assert k as real <= 1.0 + allowance / n by { DivideBy(k as real, n, allowance); }
    MoreTimes((k + 1) as real, 2.0 + allowance / n, capacity);
  }

  lemma DivideBy(k: real, n: real, allowance: real)
    requires n > 0.0 && k * n <= n + allowance
    ensures k <= 1.0 + allowance / n
  {
    var y := 1.0 + allowance / n;
    assert y * n == n + allowance;
    if k > y { Stretched(k, y, n); }
  }

  lemma Stretched(x: real, y: real, n: real)
    requires x > y && n > 0.0
    ensures x * n > y * n
  {
  }

  lemma MoreTimes(a: real, b: real, capacity: real)
    requires a <= b && capacity >= 0.0
    ensures a * capacity <= b * capacity
  {
  }

  /** What one address can get in a window, whatever the others do. */
  lemma IpBoundClosed(cfg: Config, l: Limiter, actions: seq<Action>, from: real, to: real, ip: string)
    requires Inv(cfg, l, from) && Within(actions, from, to) && cfg.enabled && cfg.perIp > 0 && cfg.global > 0 &&
      ip != ""
    ensures AllowedForIp(cfg, l, actions, ip) as real
      <= Closed(Clip(IpConfig(cfg).capacity), Cap(cfg.maxIp), GlobalAllowance(cfg, from, to)) +
        Earned(IpConfig(cfg).rate, from, to)
  {
    IpBound(cfg, l, actions, from, to, ip);
    IpRecreationsClosed(cfg, l, actions, from, to, ip);
  }

  lemma IpRecreationsClosed(cfg: Config, l: Limiter, actions: seq<Action>, from: real, to: real, ip: string)
    requires Inv(cfg, l, from) && Within(actions, from, to) && cfg.enabled && cfg.global > 0
    ensures Times(IpRecreated(cfg, l, actions, ip) + 1, Clip(IpConfig(cfg).capacity))
      <= Closed(Clip(IpConfig(cfg).capacity), Cap(cfg.maxIp), GlobalAllowance(cfg, from, to))
  {
    GlobalBound(cfg, l, actions, from, to);
    IpRun(cfg, l, actions, from, to);
    IpUsesPassed(cfg, l, actions, Key(ip));
    RecreationBound(IpConfig(cfg), l.ip, IpSteps(cfg, l, actions), Key(ip), from, to);
    CloseUp(
      IpRecreated(cfg, l, actions, ip), Cap(cfg.maxIp), OthersUsed(IpSteps(cfg, l, actions), Key(ip)),
      GlobalAllowance(cfg, from, to), Clip(IpConfig(cfg).capacity));
  }

  lemma PubkeyBoundClosed(cfg: Config, l: Limiter, actions: seq<Action>, from: real, to: real, pubkey: string)
    requires Inv(cfg, l, from) && Within(actions, from, to) && cfg.enabled && cfg.perPubkey > 0 && cfg.global > 0 &&
      pubkey != ""
    ensures AllowedForPubkey(cfg, l, actions, pubkey) as real
      <= Closed(Clip(PubkeyConfig(cfg).capacity), Cap(cfg.maxPubkey), GlobalAllowance(cfg, from, to))
      + Earned(PubkeyConfig(cfg).rate, from, to)
  {
    PubkeyBound(cfg, l, actions, from, to, pubkey);
    PubkeyRecreationsClosed(cfg, l, actions, from, to, pubkey);
  }

  lemma PubkeyRecreationsClosed(cfg: Config, l: Limiter, actions: seq<Action>, from: real, to: real, pubkey: string)
    requires Inv(cfg, l, from) && Within(actions, from, to) && cfg.enabled && cfg.global > 0
    ensures Times(PubkeyRecreated(cfg, l, actions, pubkey) + 1, Clip(PubkeyConfig(cfg).capacity))
      <= Closed(Clip(PubkeyConfig(cfg).capacity), Cap(cfg.maxPubkey), GlobalAllowance(cfg, from, to))
  {
    GlobalBound(cfg, l, actions, from, to);
    PubkeyRun(cfg, l, actions, from, to);
    PubkeyUsesPassed(cfg, l, actions, Key(pubkey));
    RecreationBound(PubkeyConfig(cfg), l.pubkey, PubkeySteps(cfg, l, actions), Key(pubkey), from, to);
    CloseUp(
      PubkeyRecreated(cfg, l, actions, pubkey), Cap(cfg.maxPubkey),
      OthersUsed(PubkeySteps(cfg, l, actions), Key(pubkey)),
      GlobalAllowance(cfg, from, to), Clip(PubkeyConfig(cfg).capacity));
  }

  // ----- the LRU lists of a whole run -----

  lemma IpListIsRecent(cfg: Config, actions: seq<Action>, from: real, to: real)
    requires Within(actions, from, to)
    ensures InRecencyOrder(IpConfig(cfg), Run(cfg, Start(cfg, from), actions).ip,
      Log(IpSteps(cfg, Start(cfg, from), actions)))
  {
    var l0 := Start(cfg, from);
    StartHolds(cfg, from);
    IpRun(cfg, l0, actions, from, to);
    RunKeepsRecency(IpConfig(cfg), l0.ip, IpSteps(cfg, l0, actions), [], from, to);
    FromEmpty(Log(IpSteps(cfg, l0, actions)));
  }

  lemma PubkeyListIsRecent(cfg: Config, actions: seq<Action>, from: real, to: real)
    requires Within(actions, from, to)
    ensures InRecencyOrder(
      PubkeyConfig(cfg), Run(cfg, Start(cfg, from), actions).pubkey, Log(PubkeySteps(cfg, Start(cfg, from), actions)))
  {
    var l0 := Start(cfg, from);
    StartHolds(cfg, from);
    PubkeyRun(cfg, l0, actions, from, to);
    RunKeepsRecency(PubkeyConfig(cfg), l0.pubkey, PubkeySteps(cfg, l0, actions), [], from, to);
    FromEmpty(Log(PubkeySteps(cfg, l0, actions)));
  }

  /** After any run each list is the most recently used keys, newest first, within the cap. */
  lemma ListsAreRecent(cfg: Config, actions: seq<Action>, from: real, to: real)
    requires Within(actions, from, to)
    ensures var l := Run(cfg, Start(cfg, from), actions);
      && InRecencyOrder(IpConfig(cfg), l.ip, Log(IpSteps(cfg, Start(cfg, from), actions)))
      && InRecencyOrder(PubkeyConfig(cfg), l.pubkey, Log(PubkeySteps(cfg, Start(cfg, from), actions)))
      && |l.ip.buckets| <= Cap(cfg.maxIp) && |l.pubkey.buckets| <= Cap(cfg.maxPubkey)
  {
    StartHolds(cfg, from);
    RunKeeps(cfg, Start(cfg, from), actions, from, to);
    IpListIsRecent(cfg, actions, from, to);
    SizeIsLength(Run(cfg, Start(cfg, from), actions).ip);
    PubkeyListIsRecent(cfg, actions, from, to);
    SizeIsLength(Run(cfg, Start(cfg, from), actions).pubkey);
  }

  lemma FromEmpty(log: seq<Key>)
    ensures [] + log == log
  {
  }

  /** An address that lost its bucket was the last of the cap's worth of addresses used since. */
  lemma IpEvictedForCause(cfg: Config, actions: seq<Action>, from: real, to: real, ip: string, j: nat)
    requires Within(actions, from, to)
    requires LastAccess(Log(IpSteps(cfg, Start(cfg, from), actions)), Key(ip), j)
    requires Key(ip) !in Run(cfg, Start(cfg, from), actions).ip.buckets
    ensures |KeysOf(Log(IpSteps(cfg, Start(cfg, from), actions))[j + 1..]) - {Key(ip)}| >= Cap(cfg.maxIp)
  {
    ListsAreRecent(cfg, actions, from, to);
    StartHolds(cfg, from);
    RunKeeps(cfg, Start(cfg, from), actions, from, to);
    EvictedOnlyWhenOld(Log(IpSteps(cfg, Start(cfg, from), actions)), cfg.maxIp, Key(ip), j);
  }

  lemma PubkeyEvictedForCause(cfg: Config, actions: seq<Action>, from: real, to: real, pubkey: string, j: nat)
    requires Within(actions, from, to)
    requires LastAccess(Log(PubkeySteps(cfg, Start(cfg, from), actions)), Key(pubkey), j)
    requires Key(pubkey) !in Run(cfg, Start(cfg, from), actions).pubkey.buckets
    ensures |KeysOf(Log(PubkeySteps(cfg, Start(cfg, from), actions))[j + 1..]) - {Key(pubkey)}| >= Cap(cfg.maxPubkey)
  {
    ListsAreRecent(cfg, actions, from, to);
    StartHolds(cfg, from);
    RunKeeps(cfg, Start(cfg, from), actions, from, to);
    EvictedOnlyWhenOld(Log(PubkeySteps(cfg, Start(cfg, from), actions)), cfg.maxPubkey, Key(pubkey), j);
  }

  // ----- cleanup is invisible -----

  ghost predicate AlikeLimiters(a: Limiter, b: Limiter, t: real) {
    a.global == b.global && Alike(a.ip, b.ip, t) && Alike(a.pubkey, b.pubkey, t)
  }

  lemma UseIpAlike(cfg: Config, a: CacheValue, b: CacheValue, q: Request, t: real)
    requires Alike(a, b, t) && t <= q.tIp <= q.tPubkey
    ensures UseIp(cfg, a, q).1 == UseIp(cfg, b, q).1 && Alike(UseIp(cfg, a, q).0, UseIp(cfg, b, q).0, q.tPubkey)
  {
    AlikeLater(a, b, t, q.tPubkey);
    CheckedAlike(IpConfig(cfg), a, b, Key(q.ip), t, q.tIp);
    AlikeLater(Checked(IpConfig(cfg), a, Key(q.ip), q.tIp).0, Checked(IpConfig(cfg), b, Key(q.ip), q.tIp).0,
      q.tIp, q.tPubkey);
  }

  lemma UsePubkeyAlike(cfg: Config, a: CacheValue, b: CacheValue, q: Request, t: real)
    requires Alike(a, b, t) && t <= q.tPubkey
    ensures UsePubkey(cfg, a, q).1 == UsePubkey(cfg, b, q).1
    ensures Alike(UsePubkey(cfg, a, q).0, UsePubkey(cfg, b, q).0, q.tPubkey)
  {
    AlikeLater(a, b, t, q.tPubkey);
    CheckedAlike(PubkeyConfig(cfg), a, b, Key(q.pubkey), t, q.tPubkey);
  }

  lemma AskAlike(cfg: Config, a: Limiter, b: Limiter, q: Request, t: real)
    requires AlikeLimiters(a, b, t) && Monotone(q) && t <= q.tGlobal
    ensures Check(cfg, a, q).1 == Check(cfg, b, q).1
    ensures AlikeLimiters(Check(cfg, a, q).0, Check(cfg, b, q).0, q.tPubkey)
  {
    AlikeLater(a.ip, b.ip, t, q.tPubkey);
    AlikeLater(a.pubkey, b.pubkey, t, q.tPubkey);
    UseIpAlike(cfg, a.ip, b.ip, q, t);
    UsePubkeyAlike(cfg, a.pubkey, b.pubkey, q, t);
  }

  lemma CleanupAlike(cfg: Config, a: Limiter, b: Limiter, tIp: real, tPubkey: real, t: real)
    requires AlikeLimiters(a, b, t) && t <= tIp <= tPubkey
    ensures AlikeLimiters(Act(cfg, a, Cleanup(tIp, tPubkey)), b, tPubkey)
  {
    AlikeLater(a.ip, b.ip, t, tIp);
    CleanedAlike(a.ip, b.ip, tIp);
    AlikeLater(Cleaned(a.ip, tIp), b.ip, tIp, tPubkey);
    AlikeLater(a.pubkey, b.pubkey, t, tPubkey);
    CleanedAlike(a.pubkey, b.pubkey, tPubkey);
  }

  /** The requests of a run, without its cleanups. */
  function Requests(actions: seq<Action>): seq<Action> {
    if actions == [] then [] else (if actions[0].Ask? then [actions[0]] else []) + Requests(actions[1..])
  }

  lemma {:induction false} AnswersAlike(cfg: Config, a: Limiter, b: Limiter, actions: seq<Action>, from: real, to: real)
    requires AlikeLimiters(a, b, from) && Within(actions, from, to)
    ensures Answers(cfg, a, actions) == Answers(cfg, b, Requests(actions))
    decreases |actions|
  {
    if actions != [] {
      var rest := actions[1..];
      match actions[0]
      case Ask(q) =>
        AskAlike(cfg, a, b, q, from);
        AnswersAlike(cfg, Check(cfg, a, q).0, Check(cfg, b, q).0, rest, q.tPubkey, to);
        assert ([actions[0]] + Requests(rest))[1..] == Requests(rest);
      case Cleanup(tIp, tPubkey) =>
        CleanupAlike(cfg, a, b, tIp, tPubkey, from);
        AnswersAlike(cfg, Act(cfg, a, actions[0]), b, rest, tPubkey, to);
        assert [] + Requests(rest) == Requests(rest);
        assert [] + Answers(cfg, Act(cfg, a, actions[0]), rest) == Answers(cfg, Act(cfg, a, actions[0]), rest);
    }
  }

  /** Cleanups, run at any moments, change no answer. */
  lemma CleanupChangesNothing(cfg: Config, l: Limiter, actions: seq<Action>, from: real, to: real)
    requires Inv(cfg, l, from) && Within(actions, from, to)
    ensures Answers(cfg, l, actions) == Answers(cfg, l, Requests(actions))
  {
    SelfAlike(IpConfig(cfg), l.ip, from);
    SelfAlike(PubkeyConfig(cfg), l.pubkey, from);
    AnswersAlike(cfg, l, l, actions, from, to);
  }
}
