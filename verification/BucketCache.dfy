/**
 The LRU cache of token buckets (src/RateLimiter.cpp): a recency list and a map.
 */
module BucketCache {
  import opened Seqs
  import opened TokenBuckets

  datatype Key = Key(text: string)

  function IndexOf(s: seq<Key>, k: Key): (i: nat)
    requires k in s
    ensures i < |s| && s[i] == k
  {
    if s[0] == k then 0 else 1 + IndexOf(s[1..], k)
  }

  function Without(s: seq<Key>, k: Key): seq<Key> {
    if k in s then s[..IndexOf(s, k)] + s[IndexOf(s, k) + 1..] else s
  }

  /** Moves a key to the front, or puts it there. */
  function ToFront(s: seq<Key>, k: Key): seq<Key> {
    [k] + Without(s, k)
  }

  lemma WithoutAt(s: seq<Key>, k: Key, j: nat)
    requires k in s && j < |s| - 1
    ensures |Without(s, k)| == |s| - 1 && Without(s, k)[j] == if j < IndexOf(s, k) then s[j] else s[j + 1]
  {
  }

  lemma WithoutHas(s: seq<Key>, k: Key, x: Key)
    requires Distinct(s)
    ensures x in Without(s, k) <==> x in s && x != k
  {
    if k in s {
      var i := IndexOf(s, k);
      if x in s && x != k {
        var j :| 0 <= j < |s| && s[j] == x;
        WithoutAt(s, k, if j < i then j else j - 1);
      }
      if x in Without(s, k) {
        var j :| 0 <= j < |Without(s, k)| && Without(s, k)[j] == x;
        WithoutAt(s, k, j);
      }
    }
  }

  lemma WithoutDrops(s: seq<Key>, k: Key)
    requires Distinct(s)
    ensures forall x :: x in Without(s, k) <==> x in s && x != k
    ensures Distinct(Without(s, k)) && |Without(s, k)| == |s| - if k in s then 1 else 0
  {
    forall x ensures x in Without(s, k) <==> x in s && x != k { WithoutHas(s, k, x); }
    if k in s {
      forall a, b | 0 <= a < b < |Without(s, k)| ensures Without(s, k)[a] != Without(s, k)[b] {
        WithoutAt(s, k, a);
        WithoutAt(s, k, b);
      }
    }
  }

  // ----- the cache -----

  datatype CacheValue = CacheValue(order: seq<Key>, buckets: map<Key, Bucket>)

  /** The list holds the keys of the map, each once. */
  ghost predicate Listed(c: CacheValue) {
    Distinct(c.order) && forall k :: k in c.order <==> k in c.buckets
  }

  ghost predicate ValidCache(c: CacheValue) {
    Listed(c) && forall k <- c.buckets :: ValidBucket(c.buckets[k])
  }

  /** What `checkBucket` does to the cache: hit or insert, evicting the last of a full list, then consume. */
  function Evicted(c: CacheValue, key: Key, maxBuckets: nat): CacheValue {
    if key in c.buckets || |c.order| < maxBuckets || c.order == [] then c
    else CacheValue(c.order[..|c.order| - 1], c.buckets - {c.order[|c.order| - 1]})
  }

  function CheckAt(
    c: CacheValue, key: Key, capacity: real, rate: real, maxBuckets: nat, now: real): (CacheValue, bool)
  {
    var e := Evicted(c, key, maxBuckets);
    var b := if key in c.buckets then c.buckets[key] else NewBucket(capacity, rate, now);
    var (b', ok) := Consume(b, now);
    (CacheValue(ToFront(e.order, key), e.buckets[key := b']), ok)
  }

  class LRUBucketCache {
    var lruOrder: seq<Key>          // front = most recently used
    var buckets: map<Key, Bucket>

    function Value(): CacheValue
      reads this
    {
      CacheValue(lruOrder, buckets)
    }

    constructor ()
      ensures Value() == CacheValue([], map[])
    {
      lruOrder, buckets := [], map[];
    }

    /** `get`: a hit moves the key to the front; the other keys keep their order. */
    method Touch(key: Key) returns (hit: bool)
      requires Listed(Value())
      modifies `lruOrder
      ensures Listed(Value()) && (hit <==> key in buckets)
      ensures lruOrder == if hit then ToFront(old(lruOrder), key) else old(lruOrder)
    {
      WithoutDrops(lruOrder, key);
      hit := key in buckets;
      if hit {
        lruOrder := ToFront(lruOrder, key);
      }
    }

    method EvictOldest()
      requires Listed(Value())
      modifies this
      ensures Listed(Value())
      ensures old(lruOrder) == [] ==> Value() == old(Value())
      ensures old(lruOrder) != [] ==>
        Value() == CacheValue(old(lruOrder)[..|old(lruOrder)| - 1], old(buckets) - {old(lruOrder)[|old(lruOrder)| - 1]})
    {
      if lruOrder == [] { return; }
      var n := |lruOrder| - 1;
      assert lruOrder == lruOrder[..n] + [lruOrder[n]];
      buckets := buckets - {lruOrder[n]};
      lruOrder := lruOrder[..n];
    }

    /** `checkBucket`; a new bucket is created at clock reading `created`, used at `now`. */
    method CheckBucket(key: Key, capacity: real, rate: real, maxBuckets: nat, created: real, now: real)
      returns (allowed: bool)
      requires Listed(Value()) && rate >= 0.0 && created <= now
      modifies this
      ensures (Value(), allowed) == CheckAt(old(Value()), key, capacity, rate, maxBuckets, now)
    {
      ghost var c := Value();
      var hit := Touch(key);
      if !hit {
        InsertNew(key, capacity, rate, maxBuckets, created);
        FullStaysFull(capacity, rate, created, now);
      }
      var (b', ok) := Consume(buckets[key], now);
      buckets := buckets[key := b'];
      assert buckets == Evicted(c, key, maxBuckets).buckets[key := b'];
      allowed := ok;
    }

    /** A new bucket goes to the front; the last of a full list makes room. */
    method InsertNew(key: Key, capacity: real, rate: real, maxBuckets: nat, created: real)
      requires Listed(Value()) && key !in buckets
      modifies this
      ensures var e := Evicted(old(Value()), key, maxBuckets);
        lruOrder == ToFront(e.order, key) && buckets == e.buckets[key := NewBucket(capacity, rate, created)]
    {
      SizeIsLength(Value());
      if |buckets| >= maxBuckets {
        EvictOldest();
      }
      assert Value() == Evicted(old(Value()), key, maxBuckets);
      assert key !in lruOrder;
      lruOrder := [key] + lruOrder;
      buckets := buckets[key := NewBucket(capacity, rate, created)];
    }

    /**
     `eraseStale`: refills and then tests the oldest bucket, until one is not stale. The clock is
     read once before the loop and once at each refill.
     */
    method EraseStale(staleSeconds: real, now: real, clock: nat -> real) returns (removedCount: nat)
      modifies this
      ensures Value() == EraseStaleAt(old(Value()), staleSeconds, now, clock, 0)
      ensures removedCount == |old(buckets)| - |buckets|
    {
      removedCount := 0;
      while lruOrder != []
        invariant EraseStaleAt(Value(), staleSeconds, now, clock, removedCount) ==
          EraseStaleAt(old(Value()), staleSeconds, now, clock, 0)
        invariant removedCount == |old(buckets)| - |buckets|
        decreases |lruOrder|
      {
        var key := lruOrder[|lruOrder| - 1];
        if key !in buckets {
          lruOrder := lruOrder[..|lruOrder| - 1];
          continue;
        }
        var bucket := Refill(buckets[key], clock(removedCount));
        if IsStale(bucket, staleSeconds, now) {
          OneLess(buckets, key);
          buckets := buckets - {key};
          lruOrder := lruOrder[..|lruOrder| - 1];
          removedCount := removedCount + 1;
        } else {
          SameSize(buckets, key, bucket);
          buckets := buckets[key := bucket];
          return;
        }
      }
    }
  }

  lemma OneLess(buckets: map<Key, Bucket>, key: Key)
    requires key in buckets
    ensures |buckets - {key}| == |buckets| - 1
  {
    assert (buckets - {key}).Keys == buckets.Keys - {key};
  }

  lemma SameSize(buckets: map<Key, Bucket>, key: Key, b: Bucket)
    requires key in buckets
    ensures |buckets[key := b]| == |buckets|
  {
    assert buckets[key := b].Keys == buckets.Keys;
  }

  /** Nearly full, and not refilled for a while. */
  predicate IsStale(b: Bucket, staleSeconds: real, now: real) {
    b.tokens >= b.capacity * 0.95 && now - b.lastRefill > staleSeconds
  }

  function EraseStaleAt(c: CacheValue, staleSeconds: real, now: real, clock: nat -> real, i: nat): CacheValue
    decreases |c.order|
  {
    if c.order == [] then c else
      var k, rest := c.order[|c.order| - 1], c.order[..|c.order| - 1];
      if k !in c.buckets then EraseStaleAt(c.(order := rest), staleSeconds, now, clock, i)
      else
        var b := Refill(c.buckets[k], clock(i));
        if IsStale(b, staleSeconds, now) then
          EraseStaleAt(CacheValue(rest, c.buckets - {k}), staleSeconds, now, clock, i + 1)
        else c.(buckets := c.buckets[k := b])
  }

  /** The last bucket of the list is refilled. */
  function Cleaned(c: CacheValue, t: real): CacheValue {
    if c.order == [] || c.order[|c.order| - 1] !in c.buckets then c
    else
      var k := c.order[|c.order| - 1];
      c.(buckets := c.buckets[k := Refill(c.buckets[k], t)])
  }

  /** The refill before the age test resets the age, so on a monotone clock nothing is ever removed. */
  lemma NothingIsStale(c: CacheValue, staleSeconds: real, now: real, clock: nat -> real)
    requires Listed(c) && staleSeconds >= 0.0 && now <= clock(0)
    ensures EraseStaleAt(c, staleSeconds, now, clock, 0) == Cleaned(c, clock(0))
  {
    if c.order != [] { assert c.order[|c.order| - 1] in c.order; }
  }

  lemma FullStaysFull(capacity: real, rate: real, created: real, now: real)
    requires rate >= 0.0 && created <= now
    ensures Consume(NewBucket(capacity, rate, created), now) == Consume(NewBucket(capacity, rate, now), now)
  {
    FullAt(NewBucket(capacity, rate, created), now);
    FullAt(NewBucket(capacity, rate, now), now);
  }

  lemma FullAt(b: Bucket, now: real)
    requires b.tokens == b.capacity && b.refillRate >= 0.0 && b.lastRefill <= now
    ensures TokensAt(b, now) == b.capacity
  {
    Grows(b.refillRate, b.lastRefill, now);
  }

  lemma SizeIsLength(c: CacheValue)
    requires Listed(c)
    ensures |c.buckets| == |c.order|
  {
    LengthIsCard(c.order, c.buckets.Keys);
  }

  lemma {:induction false} LengthIsCard(s: seq<Key>, S: set<Key>)
    requires Distinct(s) && forall k :: k in s <==> k in S
    ensures |S| == |s|
    decreases |s|
  {
    if s == [] {
      assert S == {};
    } else {
      assert s == [s[0]] + s[1..];
      LengthIsCard(s[1..], S - {s[0]});
    }
  }

  // ----- the list is the most recently used keys, in order -----

  /** The distinct keys of an access log, the last accessed first. */
  function Recency(log: seq<Key>): seq<Key> {
    if log == [] then [] else ToFront(Recency(log[..|log| - 1]), log[|log| - 1])
  }

  function Cap(maxBuckets: nat): nat {
    if maxBuckets == 0 then 1 else maxBuckets
  }

  lemma {:induction false} RecencyHolds(log: seq<Key>)
    ensures Distinct(Recency(log)) && forall k :: k in Recency(log) <==> k in log
    decreases |log|
  {
    if log != [] {
      var init, k := log[..|log| - 1], log[|log| - 1];
      RecencyHolds(init);
      WithoutDrops(Recency(init), k);
      assert log == init + [k];
    }
  }

  lemma TakeWithout(s: seq<Key>, k: Key, n: nat)
    requires Distinct(s) && n > 0
    ensures k in Take(s, n) ==> Without(Take(s, n), k) == Take(Without(s, k), n - 1)
    ensures k !in Take(s, n) && |s| >= n ==> s[..n - 1] == Take(Without(s, k), n - 1)
  {
    if k in Take(s, n) {
      TakeHas(s, k, n);
    } else if |s| >= n && k in s {
      assert IndexOf(s, k) >= n by { assert forall j | 0 <= j < n :: Take(s, n)[j] == s[j]; }
    }
  }

  lemma TakeHas(s: seq<Key>, k: Key, n: nat)
    requires Distinct(s) && k in Take(s, n)
    ensures k in s && IndexOf(s, k) == IndexOf(Take(s, n), k)
    ensures Without(Take(s, n), k) == Take(Without(s, k), n - 1)
  {
    var i := IndexOf(Take(s, n), k);
    assert s[i] == k;
    assert i == IndexOf(s, k);
    if |s| > n {
      assert s[..n][..i] == s[..i] && s[..n][i + 1..] == s[i + 1..n];
      assert (s[..i] + s[i + 1..])[..n - 1] == s[..i] + s[i + 1..n];
    }
  }

  /** One access keeps the list equal to the head of the recency order. */
  lemma AccessKeepsRecency(
    c: CacheValue, log: seq<Key>, key: Key, capacity: real, rate: real, maxBuckets: nat, now: real)
    requires Listed(c) && c.order == Take(Recency(log), Cap(maxBuckets))
    ensures CheckAt(c, key, capacity, rate, maxBuckets, now).0.order == Take(Recency(log + [key]), Cap(maxBuckets))
  {
    RecencyHolds(log);
    assert (log + [key])[..|log|] == log;
    FrontOfTake(Recency(log), key, Cap(maxBuckets));
    EvictedOrder(c, Recency(log), key, maxBuckets);
  }

  lemma FrontOfTake(R: seq<Key>, key: Key, n: nat)
    requires Distinct(R) && n > 0
    ensures Take(ToFront(R, key), n) == [key] + Take(Without(R, key), n - 1)
  {
  }

  lemma EvictedOrder(c: CacheValue, R: seq<Key>, key: Key, maxBuckets: nat)
    requires Listed(c) && Distinct(R) && c.order == Take(R, Cap(maxBuckets))
    ensures Without(Evicted(c, key, maxBuckets).order, key) == Take(Without(R, key), Cap(maxBuckets) - 1)
  {
    var n := Cap(maxBuckets);
    TakeWithout(R, key, n);
    WithoutDrops(R, key);
    if key !in c.order {
      if |R| >= n {
        assert Evicted(c, key, maxBuckets).order == R[..n - 1];
        assert key !in R[..n - 1] by { assert R[..n - 1] == c.order[..n - 1]; }
      } else {
        assert c.order == R;
      }
    }
  }

  ghost predicate RefilledBy(c: CacheValue, t: real) {
    ValidCache(c) && forall k <- c.buckets :: c.buckets[k].lastRefill <= t
  }

  lemma EvictedValid(c: CacheValue, key: Key, maxBuckets: nat, t: real)
    requires RefilledBy(c, t)
    ensures RefilledBy(Evicted(c, key, maxBuckets), t)
  {
    var e := Evicted(c, key, maxBuckets);
    if e != c {
      var n := |c.order| - 1;
      assert c.order == c.order[..n] + [c.order[n]];
    }
  }

  lemma CheckKeepsCache(c: CacheValue, key: Key, capacity: real, rate: real, maxBuckets: nat, now: real)
    requires RefilledBy(c, now) && rate >= 0.0
    ensures RefilledBy(CheckAt(c, key, capacity, rate, maxBuckets, now).0, now)
  {
    var e := Evicted(c, key, maxBuckets);
    var b := if key in c.buckets then c.buckets[key] else NewBucket(capacity, rate, now);
    EvictedValid(c, key, maxBuckets, now);
    WithoutDrops(e.order, key);
    ConsumeConserves(b, now, now, now);
  }

  /** `x` was accessed at position j of the log and not since. */
  predicate LastAccess(log: seq<Key>, x: Key, j: nat) {
    j < |log| && log[j] == x && x !in log[j + 1..]
  }

  function KeysOf(log: seq<Key>): set<Key> {
    set k | k in log
  }

  /** Whatever stands ahead of `x` is in S. */
  predicate AheadIn(R: seq<Key>, x: Key, S: set<Key>) {
    x in R && forall i | 0 <= i < IndexOf(R, x) :: R[i] in S
  }

  /** Keys ahead of `x` in the recency order were accessed after it. */
  lemma {:induction false} AheadIsLater(before: seq<Key>, x: Key, later: seq<Key>)
    requires x !in later
    ensures AheadIn(Recency(before + [x] + later), x, KeysOf(later))
    decreases |later|
  {
    if later == [] {
      RecencySplits(before, x);
      assert before + [x] + later == before + [x];
    } else {
      var n := |later| - 1;
      var init, last := before + [x] + later[..n], later[n];
      assert before + [x] + later == init + [last];
      RecencySplits(init, last);
      RecencyHolds(init);
      AheadIsLater(before, x, later[..n]);
      AheadAfterAccess(Recency(init), last, x, KeysOf(later[..n]), KeysOf(later));
    }
  }

  lemma RecencySplits(log: seq<Key>, k: Key)
    ensures Recency(log + [k]) == ToFront(Recency(log), k)
  {
    assert (log + [k])[..|log|] == log;
  }

  lemma AheadAfterAccess(R: seq<Key>, last: Key, x: Key, S: set<Key>, S': set<Key>)
    requires Distinct(R) && x != last && AheadIn(R, x, S) && S <= S' && last in S'
    ensures AheadIn(ToFront(R, last), x, S')
  {
    WithoutHas(R, last, x);
    AheadMoved(R, last, x, IndexOf(ToFront(R, last), x), IndexOf(R, x), S, S');
  }

  lemma AheadMoved(R: seq<Key>, last: Key, x: Key, p: nat, q: nat, S: set<Key>, S': set<Key>)
    requires Distinct(R) && x != last && q < |R| && R[q] == x && p < |ToFront(R, last)| && ToFront(R, last)[p] == x
    requires (forall i | 0 <= i < q :: R[i] in S) && S <= S' && last in S'
    ensures forall i | 0 <= i < p :: ToFront(R, last)[i] in S'
  {
    forall i | 0 < i < p ensures ToFront(R, last)[i] in S' {
      var m := AheadInWithout(R, last, x, p - 1, q, i - 1);
    }
  }

  /** Removing a key keeps the others in order. */
  lemma AheadInWithout(s: seq<Key>, k: Key, x: Key, p: nat, q: nat, i: nat) returns (m: nat)
    requires Distinct(s) && q < |s| && s[q] == x && x != k
    requires i < p < |Without(s, k)| && Without(s, k)[p] == x
    ensures m < q && s[m] == Without(s, k)[i]
  {
    if k in s {
      WithoutAt(s, k, p);
      WithoutAt(s, k, i);
      m := if i < IndexOf(s, k) then i else i + 1;
      var p' := if p < IndexOf(s, k) then p else p + 1;
      assert s[p'] == s[q] && p' == q;
    } else {
      m := i;
      assert s[p] == s[q] && p == q;
    }
  }

  /**
   A key that is no longer cached was evicted for cause: since its own last access, at least
   `maxBuckets` other keys have been accessed.
   */
  lemma EvictedOnlyWhenOld(log: seq<Key>, maxBuckets: nat, x: Key, j: nat)
    requires LastAccess(log, x, j) && x !in Take(Recency(log), Cap(maxBuckets))
    ensures |KeysOf(log[j + 1..]) - {x}| >= Cap(maxBuckets)
  {
    RecencyHolds(log);
    assert log == log[..j] + [x] + log[j + 1..];
    AheadIsLater(log[..j], x, log[j + 1..]);
    ManyAhead(Recency(log), x, KeysOf(log[j + 1..]), Cap(maxBuckets));
  }

  lemma ManyAhead(R: seq<Key>, x: Key, S: set<Key>, n: nat)
    requires Distinct(R) && AheadIn(R, x, S) && x !in Take(R, n)
    ensures |S - {x}| >= n
  {
    var p := IndexOf(R, x);
    assert |R| > n && p >= n by { assert forall i | 0 <= i < n && i < |R| :: Take(R, n)[i] == R[i]; }
    var ahead := KeysOf(R[..p]);
    LengthIsCard(R[..p], ahead);
    SubsetIsSmaller(ahead, S - {x});
  }

  lemma {:induction false} SubsetIsSmaller(A: set<Key>, B: set<Key>)
    requires A <= B
    ensures |A| <= |B|
    decreases |A|
  {
    if A != {} {
      var x :| x in A;
      SubsetIsSmaller(A - {x}, B - {x});
    }
  }
}
