/**
 One cursor of a scan: `ScanCursor::collect` of src/DBQuery.h.

 A cursor walks its index downwards from a resume position, skipping over the
 part outside the filter's time window by moving the position, and stops after a
 given number of records.
 */
module ScanCursors {
  import opened Lex
  import opened Events
  import opened Filters
  import opened Index

  datatype Cursor = Cursor(search: Bytes, active: bool, resume: Rec, outstanding: nat)

  function FreshCursor(search: Bytes): Cursor {
    Cursor(search, true, Rec(search, MAX_U64, MAX_U64), 0)
  }

  /** The window the cursor enforces itself: a bound of zero is not looked at. */
  predicate InWindow(f: NostrFilter, n: nat) {
    (f.since == 0 || f.since <= n) && (f.until == 0 || n <= f.until)
  }

  predicate Wanted(f: NostrFilter, c: Cursor, r: Rec) {
    r.s == c.search && InWindow(f, r.n)
  }

  /** A record the cursor has yet to deliver. */
  predicate Ahead(f: NostrFilter, c: Cursor, r: Rec) {
    c.active && Wanted(f, c, r) && RecLeq(r, c.resume)
  }

  predicate OnCourse(c: Cursor) {
    c.active ==> RecLeq(c.resume, Rec(c.search, MAX_U64, MAX_U64))
  }

  /** Cursor `c` has moved down to `c'`, delivering exactly the wanted records it passed. */
  ghost predicate Walked(f: NostrFilter, ix: seq<Rec>, c: Cursor, c': Cursor, more: seq<Rec>) {
    && c'.search == c.search && OnCourse(c') && (c'.active ==> c.active && RecLeq(c'.resume, c.resume))
    && (forall r <- more :: r in ix && Ahead(f, c, r))
    && (forall i, j | 0 <= i < j < |more| :: RecLess(more[j], more[i]))
    && (c'.active ==> forall r <- more :: RecLess(c'.resume, r))
    && (forall r <- ix | Ahead(f, c, r) :: r in more || Ahead(f, c', r))
  }

  /** What a call to `collect` with `depth` returns: a walk that only stops early at the end. */
  ghost predicate Collected(f: NostrFilter, ix: seq<Rec>, c: Cursor, depth: nat, c': Cursor, more: seq<Rec>) {
    && Walked(f, ix, c, c', more)
    && c'.outstanding == c.outstanding + |more|
    && |more| <= depth && (c'.active ==> |more| == depth)
  }

  /** Termination measure of a cursor: the records not yet passed, and one for being active. */
  function Uncollected(ix: seq<Rec>, c: Cursor): nat
    requires Sorted(ix)
  {
    if c.active then 1 + UpperBound(ix, c.resume) else 0
  }

  /** A record at or below the cursor either has its string or ends the walk. */
  lemma OtherStringEndsWalk(f: NostrFilter, ix: seq<Rec>, c: Cursor, j: nat)
    requires Sorted(ix) && 0 < j <= |ix|
    requires RecLeq(ix[j - 1], Rec(c.search, MAX_U64, MAX_U64)) && ix[j - 1].s != c.search
    ensures forall k | 0 <= k < j :: !Wanted(f, c, ix[k])
  {
    forall k | 0 <= k < j ensures ix[k].s != c.search {
      if ix[k].s == c.search {
        assert RecLeq(ix[k], ix[j - 1]);
        LessAsymmetric(ix[j - 1].s, c.search);
      }
    }
  }

  /** Jumping below the window loses nothing. */
  lemma JumpBelowSince(f: NostrFilter, ix: seq<Rec>, c: Cursor, j: nat)
    requires Sorted(ix) && 0 < j <= |ix|
    requires ix[j - 1].s == c.search && 0 < ix[j - 1].lev && ix[j - 1].n < f.since
    ensures forall k | 0 <= k < j :: !Wanted(f, c, ix[k])
    ensures RecLess(Rec(c.search, 0, 0), ix[j - 1])
  {
    forall k | 0 <= k < j ensures !Wanted(f, c, ix[k]) {
      if ix[k].s == c.search {
        assert RecLeq(ix[k], ix[j - 1]);
        LessIrreflexive(c.search);
      }
    }
  }

  /** Jumping down to the top of the window loses nothing. */
  lemma JumpToUntil(f: NostrFilter, ix: seq<Rec>, c: Cursor, j: nat)
    requires Sorted(ix) && 0 < j <= |ix| && forall k | 0 <= k < j :: ix[k].lev <= MAX_U64
    requires ix[j - 1].s == c.search && f.until != 0 && f.until < ix[j - 1].n
    ensures forall k | 0 <= k < j && Wanted(f, c, ix[k]) :: RecLeq(ix[k], Rec(c.search, f.until, MAX_U64))
    ensures RecLess(Rec(c.search, f.until, MAX_U64), ix[j - 1])
  {
  }

  /** The records from `start` down to `j`, which one walk delivers in that order. */
  function Down(ix: seq<Rec>, start: nat, j: nat): (d: seq<Rec>)
    requires j <= start <= |ix|
    ensures |d| == start - j && forall m | 0 <= m < |d| :: d[m] == ix[start - 1 - m]
  {
    seq(start - j, m requires 0 <= m < start - j => ix[start - 1 - m])
  }

  /** A walk that delivered records `j..start` and moved the cursor to `c'`. */
  lemma WalkedDown(f: NostrFilter, ix: seq<Rec>, c: Cursor, c': Cursor, start: nat, j: nat)
    requires Sorted(ix) && c.active && OnCourse(c) && j <= start == UpperBound(ix, c.resume)
    requires c'.search == c.search
    requires forall k | j <= k < start :: Wanted(f, c, ix[k])
    requires c'.active ==> j > 0 && RecLeq(c'.resume, ix[j - 1])
    requires forall k | 0 <= k < j && Wanted(f, c, ix[k]) :: c'.active && RecLeq(ix[k], c'.resume)
    requires c'.active ==> j < start || RecLess(c'.resume, ix[j - 1])
    ensures Walked(f, ix, c, c', Down(ix, start, j))
    ensures Uncollected(ix, c') < Uncollected(ix, c)
  {
    if c'.active {
      RecTransitive(c'.resume, ix[j - 1], c.resume);
      RecTransitive(c'.resume, c.resume, Rec(c.search, MAX_U64, MAX_U64));
      forall k | j <= k < start ensures RecLess(c'.resume, ix[k]) {
        RecTransitive(c'.resume, ix[j - 1], ix[k]);
      }
      var u := UpperBound(ix, c'.resume);
      if u > j { RecTotal(c'.resume, ix[j]); RecTransitive(c'.resume, ix[j - 1], ix[j]); }
      RecTotal(c'.resume, ix[j - 1]);
    }
    forall k | 0 <= k < |ix| && Ahead(f, c, ix[k]) ensures ix[k] in Down(ix, start, j) || Ahead(f, c', ix[k]) {
      if k >= j { assert Down(ix, start, j)[start - 1 - k] == ix[k]; }
    }
  }

  lemma WalkedTwice(f: NostrFilter, ix: seq<Rec>, c0: Cursor, c1: Cursor, c2: Cursor, m1: seq<Rec>, m2: seq<Rec>)
    requires Walked(f, ix, c0, c1, m1) && Walked(f, ix, c1, c2, m2)
    ensures Walked(f, ix, c0, c2, m1 + m2)
  {
    assert m2 != [] ==> m2[0] in m2;
    if c1.active {
      forall r <- m2 ensures Ahead(f, c0, r) { RecTransitive(r, c1.resume, c0.resume); }
      forall i, j | 0 <= i < j < |m1 + m2| ensures RecLess((m1 + m2)[j], (m1 + m2)[i]) {
        if i < |m1| <= j {
          assert m1[i] in m1 && m2[j - |m1|] in m2;
          RecTransitive(m2[j - |m1|], c1.resume, m1[i]);
        }
      }
      if c2.active {
        RecTransitive(c2.resume, c1.resume, c0.resume);
        forall r <- m1 ensures RecLess(c2.resume, r) { RecTransitive(c2.resume, c1.resume, r); }
      }
    }
  }

  lemma LevsInRange(events: EventTable, plan: Plan, ix: seq<Rec>)
    requires WellFormedTable(events) && IsIndex(ix, plan, events)
    ensures forall k | 0 <= k < |ix| :: ix[k].lev <= MAX_U64
  {
    forall k | 0 <= k < |ix| ensures ix[k].lev <= MAX_U64 {
      assert ix[k] in ix && IsEntry(ix[k], plan, events);
    }
  }

  /** What the callback relies on for the record it is given. */
  lemma RecordRead(f: NostrFilter, events: EventTable, ix: seq<Rec>, i: nat, c: Cursor, r: Rec)
    requires ValidFilter(f) && WellFormedTable(events) && IsIndex(ix, PlanOf(f), events) && r in ix
    requires i < |SearchKeys(f)| && c.search == SearchKeys(f)[i] && OnCourse(c) && c.active && RecLeq(r, c.resume)
    ensures 0 < r.lev && RecLeq(r, Rec(c.search, MAX_U64, MAX_U64))
    ensures KeyMatch(PlanOf(f), c.search, r.s) <==> r.s == c.search
  {
    assert IsEntry(r, PlanOf(f), events);
    RecTransitive(r, c.resume, Rec(c.search, MAX_U64, MAX_U64));
    KeyMatchExact(f, events[r.lev], i, r.s);
  }

  lemma OneMoreDown(ix: seq<Rec>, start: nat, j: nat)
    requires 0 < j <= start <= |ix|
    ensures Down(ix, start, j - 1) == Down(ix, start, j) + [ix[j - 1]]
  {
  }

  /** One `generic_foreachFull` call of `collect`, with its callback. */
  method Walk(f: NostrFilter, ghost events: EventTable, ix: seq<Rec>, i: nat, c: Cursor, limit: nat)
    returns (c': Cursor, more: seq<Rec>)
    requires ValidFilter(f) && WellFormedTable(events) && IsIndex(ix, PlanOf(f), events)
    requires i < |SearchKeys(f)| && c.search == SearchKeys(f)[i] && OnCourse(c) && c.active && limit > 0
    ensures Walked(f, ix, c, c', more) && Uncollected(ix, c') < Uncollected(ix, c)
    ensures |more| <= limit && c'.outstanding == c.outstanding
  {
    var start := UpperBound(ix, c.resume);
    var j := start;
    more := [];
    c' := c.(active := false);
    while j > 0
      invariant 0 <= j <= start && c' == c.(active := false)
      invariant |more| <= limit && more == Down(ix, start, j)
      invariant forall k | j <= k < start :: Wanted(f, c, ix[k])
    {
      var r := ix[j - 1];
      RecordRead(f, events, ix, i, c, r);
      if |more| == limit {
        c' := c.(resume := r);
        break;
      }
      if !KeyMatch(PlanOf(f), c.search, r.s) {
        OtherStringEndsWalk(f, ix, c, j);
        break;
      }
      if f.since != 0 && r.n < f.since {
        JumpBelowSince(f, ix, c, j);
        c' := c.(resume := Rec(r.s, 0, 0));
        break;
      }
      if f.until != 0 && r.n > f.until {
        LevsInRange(events, PlanOf(f), ix);
        JumpToUntil(f, ix, c, j);
        c' := c.(resume := Rec(r.s, f.until, MAX_U64));
        break;
      }
      OneMoreDown(ix, start, j);
      more := more + [r];
      j := j - 1;
    }
    WalkedDown(f, ix, c, c', start, j);
  }

  /** Collects until `depth` records are found or the cursor is exhausted. */
  method Collect(f: NostrFilter, ghost events: EventTable, ix: seq<Rec>, i: nat, c: Cursor, depth: nat)
    returns (c': Cursor, more: seq<Rec>)
    requires ValidFilter(f) && WellFormedTable(events) && IsIndex(ix, PlanOf(f), events)
    requires i < |SearchKeys(f)| && c.search == SearchKeys(f)[i] && OnCourse(c)
    ensures Collected(f, ix, c, depth, c', more)
    ensures c.active && depth > 0 ==> Uncollected(ix, c') < Uncollected(ix, c)
    ensures !c.active ==> c' == c
  {
    more := [];
    c' := c;
    while c'.active && |more| < depth
      invariant Walked(f, ix, c, c', more) && |more| <= depth && c'.outstanding == c.outstanding
      invariant (c' == c && more == []) || (c.active && Uncollected(ix, c') < Uncollected(ix, c))
      decreases Uncollected(ix, c')
    {
      var next, found := Walk(f, events, ix, i, c', depth - |more|);
      WalkedTwice(f, ix, c, c', next, more, found);
      c', more := next, more + found;
    }
    c' := c'.(outstanding := c'.outstanding + |more|);
  }
}
