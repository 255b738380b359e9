/**
 Runs of one bucket cache: uses and cleanups in clock order. What holds here holds
 of the IP cache and of the public key cache alike.
 */
module CacheRuns {
  import opened Seqs
  import opened TokenBuckets
  import opened BucketCache

  datatype CacheConfig = CacheConfig(capacity: real, rate: real, maxBuckets: nat)

  /** What one action of the limiter does to the cache. */
  datatype CacheStep = Use(key: Key, now: real) | Clean(now: real) | Idle

  function Checked(cc: CacheConfig, c: CacheValue, key: Key, now: real): (CacheValue, bool) {
    CheckAt(c, key, cc.capacity, cc.rate, cc.maxBuckets, now)
  }

  function StepCache(cc: CacheConfig, c: CacheValue, s: CacheStep): CacheValue {
    match s
    case Use(key, now) => Checked(cc, c, key, now).0
    case Clean(now) => Cleaned(c, now)
    case Idle => c
  }

  function RunCache(cc: CacheConfig, c: CacheValue, steps: seq<CacheStep>): CacheValue
    decreases |steps|
  {
    if steps == [] then c else RunCache(cc, StepCache(cc, c, steps[0]), steps[1..])
  }

  function TimeOf(s: CacheStep, t: real): real {
    if s.Idle? then t else s.now
  }

  /** The steps happen one after the other between `from` and `to`. */
  predicate Timed(steps: seq<CacheStep>, from: real, to: real)
    decreases |steps|
  {
    if steps == [] then from <= to
    else from <= TimeOf(steps[0], from) && Timed(steps[1..], TimeOf(steps[0], from), to)
  }

  /** A valid cache whose buckets all have the configured capacity and rate and were refilled by time t. */
  ghost predicate Uniform(cc: CacheConfig, c: CacheValue, t: real) {
    && RefilledBy(c, t) && cc.rate >= 0.0
    && forall k <- c.buckets :: c.buckets[k].capacity == cc.capacity && c.buckets[k].refillRate == cc.rate
  }

  lemma StepKeepsUniform(cc: CacheConfig, c: CacheValue, s: CacheStep, t: real)
    requires Uniform(cc, c, t) && t <= TimeOf(s, t)
    ensures Uniform(cc, StepCache(cc, c, s), TimeOf(s, t))
  {
    match s
    case Use(key, now) => CheckKeepsCache(c, key, cc.capacity, cc.rate, cc.maxBuckets, now);
    case Clean(now) =>
      if c.order != [] {
        var k := c.order[|c.order| - 1];
        assert k in c.order;
        RefillComposes(c.buckets[k], now, now);
      }
    case Idle =>
  }

  // ----- the bound for one key -----

  predicate Granted(cc: CacheConfig, c: CacheValue, s: CacheStep, x: Key) {
    s.Use? && s.key == x && Checked(cc, c, x, s.now).1
  }

  /** The step makes a new bucket for x. */
  predicate Creates(c: CacheValue, s: CacheStep, x: Key) {
    s.Use? && s.key == x && x !in c.buckets
  }

  function GrantedCount(cc: CacheConfig, c: CacheValue, steps: seq<CacheStep>, x: Key): nat
    decreases |steps|
  {
    if steps == [] then 0
    else (if Granted(cc, c, steps[0], x) then 1 else 0) + GrantedCount(cc, StepCache(cc, c, steps[0]), steps[1..], x)
  }

  function CreatedCount(cc: CacheConfig, c: CacheValue, steps: seq<CacheStep>, x: Key): nat
    decreases |steps|
  {
    if steps == [] then 0
    else (if Creates(c, steps[0], x) then 1 else 0) + CreatedCount(cc, StepCache(cc, c, steps[0]), steps[1..], x)
  }

  /** What x could spend at time t. */
  function Potential(c: CacheValue, x: Key, t: real): real {
    if x in c.buckets then Spendable(c.buckets[x], t) else 0.0
  }

  lemma PotentialInRange(cc: CacheConfig, c: CacheValue, x: Key, t: real)
    requires Uniform(cc, c, t)
    ensures 0.0 <= Potential(c, x, t) <= Clip(cc.capacity)
  {
    if x in c.buckets {
      SpendableInRange(c.buckets[x], t);
    }
  }

  lemma IdlePotential(cc: CacheConfig, c: CacheValue, x: Key, t: real, t': real)
    requires Uniform(cc, c, t) && t <= t'
    ensures Potential(c, x, t') <= Potential(c, x, t) + Earned(cc.rate, t, t')
  {
    Grows(cc.rate, t, t');
    if x in c.buckets {
      SpendableLater(c.buckets[x], t, t');
    }
  }

  lemma UsePotential(cc: CacheConfig, c: CacheValue, x: Key, t: real, now: real)
    requires Uniform(cc, c, t) && t <= now
    ensures Potential(Checked(cc, c, x, now).0, x, now) + (if Checked(cc, c, x, now).1 then 1.0 else 0.0)
      <= Potential(c, x, t) + Earned(cc.rate, t, now) + if x in c.buckets then 0.0 else Clip(cc.capacity)
  {
    Grows(cc.rate, t, now);
    if x in c.buckets {
      SpendConserves(c.buckets[x], t, now, now);
    } else {
      SpendConserves(NewBucket(cc.capacity, cc.rate, now), now, now, now);
      Instant(NewBucket(cc.capacity, cc.rate, now), now);
      assert Earned(cc.rate, now, now) == 0.0;
    }
  }

  lemma OtherPotential(cc: CacheConfig, c: CacheValue, key: Key, x: Key, now: real)
    requires Uniform(cc, c, now) && key != x
    ensures Potential(Checked(cc, c, key, now).0, x, now) <= Potential(c, x, now)
  {
    PotentialInRange(cc, c, x, now);
  }

  lemma CleanPotential(cc: CacheConfig, c: CacheValue, x: Key, now: real)
    requires Uniform(cc, c, now)
    ensures Potential(Cleaned(c, now), x, now) == Potential(c, x, now)
  {
    if x in c.buckets {
      SpendableLater(c.buckets[x], now, now);
    }
  }

  lemma StepPotential(cc: CacheConfig, c: CacheValue, s: CacheStep, x: Key, t: real)
    requires Uniform(cc, c, t) && t <= TimeOf(s, t)
    ensures Potential(StepCache(cc, c, s), x, TimeOf(s, t)) + (if Granted(cc, c, s, x) then 1.0 else 0.0)
      <= Potential(c, x, t) + Earned(cc.rate, t, TimeOf(s, t)) + if Creates(c, s, x) then Clip(cc.capacity) else 0.0
  {
    IdlePotential(cc, c, x, t, TimeOf(s, t));
    match s
    case Use(key, now) =>
      if key == x { UsePotential(cc, c, x, t, now); } else { OtherPotential(cc, c, key, x, now); }
    case Clean(now) => CleanPotential(cc, c, x, now);
    case Idle =>
  }

  /** k capacities. */
  function Times(k: nat, capacity: real): real {
    k as real * capacity
  }

  lemma OneMore(k: nat, capacity: real)
    ensures Times(k + 1, capacity) == capacity + Times(k, capacity)
  {
  }

  /** The step's share of what a run earns, grants and makes. */
  lemma StepShare(
    granted: nat, granted': nat, created: nat, created': nat, capacity: real, before: real, after: real,
    first: real, rest: real, all: real, grants: bool, creates: bool)
    requires granted as real <= after + rest + Times(created, capacity) && all == first + rest
    requires after + (if grants then 1.0 else 0.0) <= before + first + if creates then capacity else 0.0
    requires granted' == (if grants then 1 else 0) + granted && created' == (if creates then 1 else 0) + created
    ensures granted' as real <= before + all + Times(created', capacity)
  {
    OneMore(created, capacity);
  }

  lemma {:induction false} RunPotential(
    cc: CacheConfig, c: CacheValue, steps: seq<CacheStep>, x: Key, from: real, to: real)
    requires Uniform(cc, c, from) && Timed(steps, from, to)
    ensures GrantedCount(cc, c, steps, x) as real
      <= Potential(c, x, from) + Earned(cc.rate, from, to) + Times(CreatedCount(cc, c, steps, x), Clip(cc.capacity))
    decreases |steps|
  {
    if steps == [] {
      PotentialInRange(cc, c, x, from);
      Grows(cc.rate, from, to);
    } else {
      var s := steps[0];
      var c', mid := StepCache(cc, c, s), TimeOf(s, from);
      StepKeepsUniform(cc, c, s, from);
      StepPotential(cc, c, s, x, from);
      RunPotential(cc, c', steps[1..], x, mid, to);
      Splits(cc.rate, from, mid, to);
      StepShare(
        GrantedCount(cc, c', steps[1..], x), GrantedCount(cc, c, steps, x),
        CreatedCount(cc, c', steps[1..], x), CreatedCount(cc, c, steps, x), Clip(cc.capacity),
        Potential(c, x, from), Potential(c', x, mid),
        Earned(cc.rate, from, mid), Earned(cc.rate, mid, to), Earned(cc.rate, from, to),
        Granted(cc, c, s, x), Creates(c, s, x));
    }
  }

  /** Grants to one key: a capacity for the bucket it had, one for each bucket made since, and the refill. */
  lemma CacheBound(cc: CacheConfig, c: CacheValue, steps: seq<CacheStep>, x: Key, from: real, to: real)
    requires Uniform(cc, c, from) && Timed(steps, from, to)
    ensures GrantedCount(cc, c, steps, x) as real
      <= Times(CreatedCount(cc, c, steps, x) + 1, Clip(cc.capacity)) + Earned(cc.rate, from, to)
  {
    RunPotential(cc, c, steps, x, from, to);
    PotentialInRange(cc, c, x, from);
    SumUp(
      GrantedCount(cc, c, steps, x) as real, Potential(c, x, from), Earned(cc.rate, from, to),
      CreatedCount(cc, c, steps, x), Clip(cc.capacity));
  }

  lemma SumUp(granted: real, potential: real, earned: real, k: nat, capacity: real)
    requires granted <= potential + earned + Times(k, capacity) && potential <= capacity
    ensures granted <= Times(k + 1, capacity) + earned
  {
    OneMore(k, capacity);
  }

  // ----- how often a bucket can be made anew -----

  /** How many uses of other keys x is away from the front, at most the cap. */
  function Ahead(cc: CacheConfig, c: CacheValue, x: Key): nat {
    if x in c.order && IndexOf(c.order, x) < Cap(cc.maxBuckets) then IndexOf(c.order, x) else Cap(cc.maxBuckets)
  }

  function OthersUsed(steps: seq<CacheStep>, x: Key): nat {
    if steps == [] then 0 else (if steps[0].Use? && steps[0].key != x then 1 else 0) + OthersUsed(steps[1..], x)
  }

  lemma FirstIndex(s: seq<Key>, x: Key, i: nat)
    requires Distinct(s) && i < |s| && s[i] == x
    ensures IndexOf(s, x) == i
  {
  }

  /** Moving another key to the front pushes x back by one at most. */
  lemma PushedBack(s: seq<Key>, key: Key, x: Key)
    requires Distinct(s) && x in s && key != x
    ensures x in ToFront(s, key) && IndexOf(ToFront(s, key), x) <= IndexOf(s, x) + 1
  {
    var j := PlaceWithout(s, key, x, IndexOf(s, x));
    FrontDistinct(s, key);
    assert ToFront(s, key)[j + 1] == x;
    FirstIndex(ToFront(s, key), x, j + 1);
  }

  lemma FrontDistinct(s: seq<Key>, key: Key)
    requires Distinct(s)
    ensures Distinct(ToFront(s, key))
  {
    WithoutDrops(s, key);
  }

  lemma PlaceWithout(s: seq<Key>, key: Key, x: Key, i: nat) returns (j: nat)
    requires i < |s| && s[i] == x && key != x
    ensures j <= i && j < |Without(s, key)| && Without(s, key)[j] == x
  {
    if key in s {
      j := if i < IndexOf(s, key) then i else i - 1;
      WithoutAt(s, key, j);
    } else {
      j := i;
    }
  }

  lemma OtherUseAhead(cc: CacheConfig, c: CacheValue, key: Key, x: Key, now: real)
    requires Listed(c) && key != x
    ensures Ahead(cc, Checked(cc, c, key, now).0, x) <= Ahead(cc, c, x) + 1
  {
    var e := Evicted(c, key, cc.maxBuckets);
    if x in c.order && IndexOf(c.order, x) < Cap(cc.maxBuckets) {
      var i, n := IndexOf(c.order, x), |c.order| - 1;
      if e != c && i == n {
        assert i + 1 >= Cap(cc.maxBuckets);
      } else {
        assert e.order[i] == x;
        FirstIndex(e.order, x, i);
        PushedBack(e.order, key, x);
      }
    }
  }

  /** A bucket is made anew only for a key that fell behind the cap, and each use of another key moves it one place. */
  lemma StepAhead(cc: CacheConfig, c: CacheValue, s: CacheStep, x: Key)
    requires Listed(c)
    ensures Ahead(cc, StepCache(cc, c, s), x) + (if Creates(c, s, x) then Cap(cc.maxBuckets) else 0)
      <= Ahead(cc, c, x) + if s.Use? && s.key != x then 1 else 0
  {
    match s
    case Use(key, now) =>
      if key != x {
        OtherUseAhead(cc, c, key, x, now);
      } else {
        assert Checked(cc, c, x, now).0.order[0] == x;
      }
    case Clean(now) =>
    case Idle =>
  }

  lemma {:induction false} RunAhead(cc: CacheConfig, c: CacheValue, steps: seq<CacheStep>, x: Key, from: real, to: real)
    requires Uniform(cc, c, from) && Timed(steps, from, to)
    ensures CreatedCount(cc, c, steps, x) * Cap(cc.maxBuckets) <= Ahead(cc, c, x) + OthersUsed(steps, x)
    decreases |steps|
  {
    if steps != [] {
      var s, rest := steps[0], steps[1..];
      var next := StepCache(cc, c, s);
      StepKeepsUniform(cc, c, s, from);
      RunAhead(cc, next, rest, x, TimeOf(s, from), to);
      StepMoves(
        cc, c, s, x, CreatedCount(cc, next, rest, x), OthersUsed(rest, x),
        CreatedCount(cc, c, steps, x), OthersUsed(steps, x));
    }
  }

  lemma StepMoves(cc: CacheConfig, c: CacheValue, s: CacheStep, x: Key, k: nat, used: nat, k': nat, used': nat)
    requires Listed(c) && k * Cap(cc.maxBuckets) <= Ahead(cc, StepCache(cc, c, s), x) + used
    requires k' == (if Creates(c, s, x) then 1 else 0) + k
    requires used' == (if s.Use? && s.key != x then 1 else 0) + used
    ensures k' * Cap(cc.maxBuckets) <= Ahead(cc, c, x) + used'
  {
    StepAhead(cc, c, s, x);
    if Creates(c, s, x) { OneBucketMore(k, Cap(cc.maxBuckets)); }
  }

  lemma OneBucketMore(k: nat, n: nat)
    ensures (1 + k) * n == n + k * n
  {
  }

  /** Buckets made for x, times the cap, are at most one cap plus the uses of other keys. */
  lemma RecreationBound(cc: CacheConfig, c: CacheValue, steps: seq<CacheStep>, x: Key, from: real, to: real)
    requires Uniform(cc, c, from) && Timed(steps, from, to)
    ensures CreatedCount(cc, c, steps, x) * Cap(cc.maxBuckets) <= Cap(cc.maxBuckets) + OthersUsed(steps, x)
  {
    RunAhead(cc, c, steps, x, from, to);
  }

  // ----- the list is in order of last access -----

  /** The keys used, in order. */
  function Log(steps: seq<CacheStep>): seq<Key> {
    if steps == [] then [] else LogOf(steps[0]) + Log(steps[1..])
  }

  function LogOf(s: CacheStep): seq<Key> {
    if s.Use? then [s.key] else []
  }

  /** The list is the most recently used keys of the log, as many as the cache holds. */
  predicate InRecencyOrder(cc: CacheConfig, c: CacheValue, log: seq<Key>) {
    c.order == Take(Recency(log), Cap(cc.maxBuckets))
  }

  lemma StepKeepsRecency(cc: CacheConfig, c: CacheValue, s: CacheStep, log: seq<Key>, t: real)
    requires Uniform(cc, c, t) && InRecencyOrder(cc, c, log)
    ensures InRecencyOrder(cc, StepCache(cc, c, s), log + LogOf(s))
  {
    if s.Use? {
      AccessKeepsRecency(c, log, s.key, cc.capacity, cc.rate, cc.maxBuckets, s.now);
    } else {
      assert log + [] == log;
    }
  }

  lemma {:induction false} RunKeepsRecency(
    cc: CacheConfig, c: CacheValue, steps: seq<CacheStep>, log: seq<Key>, from: real, to: real)
    requires Uniform(cc, c, from) && Timed(steps, from, to) && InRecencyOrder(cc, c, log)
    ensures InRecencyOrder(cc, RunCache(cc, c, steps), log + Log(steps))
    decreases |steps|
  {
    if steps == [] {
      assert log + Log(steps) == log;
    } else {
      var s := steps[0];
      StepKeepsUniform(cc, c, s, from);
      StepKeepsRecency(cc, c, s, log, from);
      RunKeepsRecency(cc, StepCache(cc, c, s), steps[1..], log + LogOf(s), TimeOf(s, from), to);
      Regroup(log, LogOf(s), Log(steps[1..]));
    }
  }

  lemma Regroup(a: seq<Key>, b: seq<Key>, c: seq<Key>)
    ensures a + (b + c) == a + b + c
  {
  }

  // ----- caches that cannot be told apart -----

  /** Same list, same keys, and buckets that answer alike from time t on. */
  ghost predicate Alike(a: CacheValue, b: CacheValue, t: real) {
    && a.order == b.order && a.buckets.Keys == b.buckets.Keys
    && forall k <- a.buckets :: SameFrom(a.buckets[k], b.buckets[k], t)
  }

  lemma AlikeLater(a: CacheValue, b: CacheValue, t: real, t': real)
    requires Alike(a, b, t) && t <= t'
    ensures Alike(a, b, t')
  {
    forall k <- a.buckets ensures SameFrom(a.buckets[k], b.buckets[k], t') {
      SameLater(a.buckets[k], b.buckets[k], t, t');
    }
  }

  lemma SelfAlike(cc: CacheConfig, c: CacheValue, t: real)
    requires Uniform(cc, c, t)
    ensures Alike(c, c, t)
  {
  }

  /** Cleanup leaves a cache that cannot be told from the one before it. */
  lemma CleanedAlike(a: CacheValue, b: CacheValue, t: real)
    requires Alike(a, b, t)
    ensures Alike(Cleaned(a, t), b, t)
  {
    forall k <- a.buckets ensures SameFrom(Refill(a.buckets[k], t), b.buckets[k], t) {
      RefillComposes(a.buckets[k], t, t);
    }
  }

  lemma CheckedAlike(cc: CacheConfig, a: CacheValue, b: CacheValue, key: Key, t: real, now: real)
    requires Alike(a, b, t) && t <= now && cc.rate >= 0.0
    ensures Checked(cc, a, key, now).1 == Checked(cc, b, key, now).1
    ensures Alike(Checked(cc, a, key, now).0, Checked(cc, b, key, now).0, now)
  {
    AlikeLater(a, b, t, now);
    var made := NewBucket(cc.capacity, cc.rate, now);
    var x := if key in a.buckets then a.buckets[key] else made;
    var y := if key in b.buckets then b.buckets[key] else made;
    SameConsume(x, y, now, now);
  }
}
