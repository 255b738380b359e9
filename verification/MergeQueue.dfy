/**
 The candidate queue of a scan (src/DBQuery.h): the order candidates are sent in,
 and the sort and merge that keep it, with an exact count of each cursor's share.
 */
module MergeQueue {
  import opened Index

  datatype Candidate = Candidate(lev: nat, created: nat, scanIndex: nat)

  /** The word a candidate is kept in: the cursor above, the time in the low 40 bits. */
  function PackWord(created: bv64, scanIndex: bv64): bv64 {
    (scanIndex << 40) | created
  }

  /** Both accessors return what was put in exactly when the time fits 40 bits and the cursor 24. */
  lemma CandidateExact(created: bv64, scanIndex: bv64)
    ensures (PackWord(created, scanIndex) & 0xFF_FFFF_FFFF) == created &&
      (PackWord(created, scanIndex) >> 40) == scanIndex
      <==> created < 0x100_0000_0000 && scanIndex < 0x100_0000
  {
  }

  /** `cmp`: newest first, and among equal times the larger levId first. */
  predicate Before(a: Candidate, b: Candidate) {
    if a.created == b.created then a.lev > b.lev else a.created > b.created
  }

  predicate QueueSorted(q: seq<Candidate>) {
    forall i, j | 0 <= i < j < |q| :: !Before(q[j], q[i])
  }

  function Count(q: seq<Candidate>, i: nat): nat {
    if q == [] then 0 else (if q[0].scanIndex == i then 1 else 0) + Count(q[1..], i)
  }

  function ToCandidates(recs: seq<Rec>, i: nat): seq<Candidate> {
    seq(|recs|, k requires 0 <= k < |recs| => Candidate(recs[k].lev, recs[k].n, i))
  }

  /** `q` holds exactly the candidates of `a` and of `b`, each as often. */
  ghost predicate Combines(q: seq<Candidate>, a: seq<Candidate>, b: seq<Candidate>) {
    && multiset(q) == multiset(a) + multiset(b)
    && (forall x :: x in q <==> x in a || x in b)
    && (forall i :: Count(q, i) == Count(a, i) + Count(b, i))
  }

  lemma {:induction false} CountConcat(a: seq<Candidate>, b: seq<Candidate>, i: nat)
    ensures Count(a + b, i) == Count(a, i) + Count(b, i)
  {
    if a == [] {
      assert a + b == b;
    } else {
      assert (a + b)[1..] == a[1..] + b;
      CountConcat(a[1..], b, i);
    }
  }

  lemma {:induction false} CountPresent(q: seq<Candidate>, i: nat)
    ensures Count(q, i) > 0 <==> exists c <- q :: c.scanIndex == i
  {
    if q != [] {
      CountPresent(q[1..], i);
      assert q == [q[0]] + q[1..];
    }
  }

  lemma {:induction false} CountOwn(recs: seq<Rec>, i: nat, k: nat)
    ensures Count(ToCandidates(recs, i), k) == if k == i then |recs| else 0
  {
    if recs != [] {
      assert ToCandidates(recs, i)[1..] == ToCandidates(recs[1..], i);
      CountOwn(recs[1..], i, k);
    }
  }

  lemma Appended(a: seq<Candidate>, b: seq<Candidate>)
    ensures Combines(a + b, a, b)
  {
    forall i: nat ensures Count(a + b, i) == Count(a, i) + Count(b, i) { CountConcat(a, b, i); }
  }

  /** `std::merge`: takes from the second queue only what goes strictly before. */
  function Merge(a: seq<Candidate>, b: seq<Candidate>): (q: seq<Candidate>)
    decreases |a| + |b|
  {
    if a == [] then b
    else if b == [] then a
    else if Before(b[0], a[0]) then [b[0]] + Merge(a, b[1..])
    else [a[0]] + Merge(a[1..], b)
  }

  lemma {:induction false} MergeKeeps(a: seq<Candidate>, b: seq<Candidate>)
    ensures multiset(Merge(a, b)) == multiset(a) + multiset(b)
    decreases |a| + |b|
  {
    if a != [] && b != [] {
      assert a == [a[0]] + a[1..] && b == [b[0]] + b[1..];
      if Before(b[0], a[0]) { MergeKeeps(a, b[1..]); } else { MergeKeeps(a[1..], b); }
    }
  }

  lemma {:induction false} MergeCounts(a: seq<Candidate>, b: seq<Candidate>, i: nat)
    ensures Count(Merge(a, b), i) == Count(a, i) + Count(b, i)
    decreases |a| + |b|
  {
    if a != [] && b != [] {
      if Before(b[0], a[0]) { MergeCounts(a, b[1..], i); } else { MergeCounts(a[1..], b, i); }
    }
  }

  lemma MergeCombines(a: seq<Candidate>, b: seq<Candidate>)
    ensures Combines(Merge(a, b), a, b)
  {
    MergeKeeps(a, b);
    forall x ensures x in Merge(a, b) <==> x in a || x in b {
      assert x in Merge(a, b) <==> x in multiset(Merge(a, b));
    }
    forall i: nat ensures Count(Merge(a, b), i) == Count(a, i) + Count(b, i) { MergeCounts(a, b, i); }
  }

  lemma {:induction false} MergeSorted(a: seq<Candidate>, b: seq<Candidate>)
    requires QueueSorted(a) && QueueSorted(b)
    ensures QueueSorted(Merge(a, b))
    decreases |a| + |b|
  {
    if a != [] && b != [] {
      if Before(b[0], a[0]) {
        MergeSorted(a, b[1..]);
        MergeCombines(a, b[1..]);
        HeadFirst(b[0], Merge(a, b[1..]));
      } else {
        MergeSorted(a[1..], b);
        MergeCombines(a[1..], b);
        HeadFirst(a[0], Merge(a[1..], b));
      }
    }
  }

  lemma HeadFirst(c: Candidate, q: seq<Candidate>)
    requires QueueSorted(q) && forall x <- q :: !Before(x, c)
    ensures QueueSorted([c] + q)
  {
  }

  /** `std::sort` of the queue. */
  function SortQueue(q: seq<Candidate>): (r: seq<Candidate>)
    decreases |q|
  {
    if q == [] then [] else Merge(SortQueue(q[..|q| - 1]), [q[|q| - 1]])
  }

  lemma {:induction false} SortQueueSorts(q: seq<Candidate>)
    ensures QueueSorted(SortQueue(q)) && Combines(SortQueue(q), q, [])
    decreases |q|
  {
    if q != [] {
      var init, last := q[..|q| - 1], [q[|q| - 1]];
      assert q == init + last;
      SortQueueSorts(init);
      MergeSorted(SortQueue(init), last);
      MergeCombines(SortQueue(init), last);
      Appended(init, last);
    }
  }

  lemma SortCombines(q: seq<Candidate>, a: seq<Candidate>, b: seq<Candidate>)
    requires Combines(q, a, b)
    ensures QueueSorted(SortQueue(q)) && Combines(SortQueue(q), a, b)
  {
    SortQueueSorts(q);
  }
}
