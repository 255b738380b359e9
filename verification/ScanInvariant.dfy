/**
 What a scan keeps true between any two of its steps, and why each step keeps it.

 The statements are relative to a history `H` of every event stored since the
 query began and a set `W` of events that stayed stored throughout. They mention no
 particular snapshot, so they survive a pause during which other threads write. On
 a store that does not change, H is the store and W is all of it.
 */
module ScanInvariant {
  import opened Lex
  import opened Events
  import opened Filters
  import opened Index
  import opened ScanCursors
  import opened MergeQueue

  datatype View = View(cursors: seq<Cursor>, queue: seq<Candidate>, next: nat)

  /** Event `a` is emitted before event `b`. */
  ghost predicate Newer(H: EventTable, a: nat, b: nat)
    requires a in H && b in H
  {
    H[a].created > H[b].created || (H[a].created == H[b].created && a > b)
  }

  ghost predicate Descending(H: EventTable, s: seq<nat>)
    requires forall m <- s :: m in H
  {
    forall i, j | 0 <= i < j < |s| :: Newer(H, s[i], s[j])
  }

  /** A matching event the query's snapshot covers. */
  ghost predicate Eligible(f: NostrFilter, H: EventTable, latest: nat, m: nat) {
    m in H && m <= latest && Matches(f, H[m])
  }

  function Key(f: NostrFilter, H: EventTable, i: nat, m: nat): Rec
    requires i < |SearchKeys(f)| && m in H
  {
    Rec(SearchKeys(f)[i], H[m].created, m)
  }

  /** `outstanding` is exact; only a cursor in `gap` may be active with nothing queued. */
  ghost predicate CursorsOk(f: NostrFilter, v: View, gap: set<nat>) {
    && |v.cursors| == |SearchKeys(f)| && v.next <= |v.cursors|
    && forall i | 0 <= i < |v.cursors| ::
      && v.cursors[i].search == SearchKeys(f)[i] && OnCourse(v.cursors[i])
      && v.cursors[i].outstanding == Count(v.queue, i)
      && (i >= v.next ==> v.cursors[i] == FreshCursor(SearchKeys(f)[i]))
      && (i < v.next && i !in gap && v.cursors[i].active ==> Count(v.queue, i) > 0)
  }

  ghost predicate CandidateOk(f: NostrFilter, H: EventTable, v: View, c: Candidate)
    requires |v.cursors| == |SearchKeys(f)| && v.next <= |v.cursors|
  {
    && c.scanIndex < v.next && c.lev in H && c.created == H[c.lev].created
    && SearchKeys(f)[c.scanIndex] in EntryKeys(PlanOf(f), H[c.lev])
    && (v.cursors[c.scanIndex].active ==>
         RecLess(v.cursors[c.scanIndex].resume, Key(f, H, c.scanIndex, c.lev)))
  }

  ghost predicate QueueOk(f: NostrFilter, H: EventTable, v: View)
    requires |v.cursors| == |SearchKeys(f)| && v.next <= |v.cursors|
  {
    && (v.next == |v.cursors| ==> QueueSorted(v.queue))
    && forall c <- v.queue :: CandidateOk(f, H, v, c)
  }

  /** What was sent is eligible and in order, and nothing queued should have gone before it. */
  ghost predicate SentOk(f: NostrFilter, H: EventTable, latest: nat, v: View, sent: seq<nat>) {
    && (v.next < |v.cursors| ==> sent == [])
    && (forall m <- sent :: Eligible(f, H, latest, m))
    && Descending(H, sent)
    && forall m <- sent, c <- v.queue :: c.lev == m || (c.lev in H && Newer(H, m, c.lev))
  }

  predicate Queued(q: seq<Candidate>, m: nat) {
    exists c <- q :: c.lev == m
  }

  ghost predicate Waiting(f: NostrFilter, H: EventTable, v: View, i: nat, m: nat) {
    && i < |v.cursors| && i < |SearchKeys(f)| && m in H
    && SearchKeys(f)[i] in EntryKeys(PlanOf(f), H[m])
    && Ahead(f, v.cursors[i], Key(f, H, i, m))
  }

  /** No surviving event is lost: it was sent, is queued, or some cursor has yet to reach it. */
  ghost predicate Covered(f: NostrFilter, H: EventTable, W: set<nat>, latest: nat, v: View, sent: seq<nat>) {
    forall m <- W | Eligible(f, H, latest, m) ::
      m in sent || Queued(v.queue, m) || exists i: nat :: Waiting(f, H, v, i, m)
  }

  ghost predicate ScanInv(
    f: NostrFilter, H: EventTable, W: set<nat>, latest: nat, v: View, sent: seq<nat>, gap: set<nat>)
  {
    && CursorsOk(f, v, gap)
    && QueueOk(f, H, v)
    && SentOk(f, H, latest, v, sent)
    && Covered(f, H, W, latest, v, sent)
  }

  ghost predicate Submap(a: EventTable, b: EventTable) {
    forall lev <- a :: lev in b && b[lev] == a[lev]
  }

  function FreshView(f: NostrFilter): View {
    View(seq(|SearchKeys(f)|, i requires 0 <= i < |SearchKeys(f)| => FreshCursor(SearchKeys(f)[i])), [], 0)
  }

  lemma ScanStarts(f: NostrFilter, H: EventTable, W: set<nat>, latest: nat)
    requires ValidFilter(f) && WellFormedTable(H)
    ensures ScanInv(f, H, W, latest, FreshView(f), [], {})
  {
    forall m <- W | Eligible(f, H, latest, m) ensures exists i: nat :: Waiting(f, H, FreshView(f), i, m) {
      var i := PlanReaches(f, H[m]);
      assert Waiting(f, H, FreshView(f), i, m);
    }
  }

  /** Time passing outside the scan: events are added to the history, survivors are lost. */
  lemma ScanSurvives(
    f: NostrFilter, H: EventTable, W: set<nat>, H': EventTable, W': set<nat>,
    latest: nat, v: View, sent: seq<nat>)
    requires ScanInv(f, H, W, latest, v, sent, {})
    requires Submap(H, H') && W' <= W && W <= H.Keys
    ensures ScanInv(f, H', W', latest, v, sent, {})
  {
    forall c <- v.queue ensures CandidateOk(f, H', v, c) { assert CandidateOk(f, H, v, c); }
    forall m <- sent ensures Eligible(f, H', latest, m) && m in H { assert Eligible(f, H, latest, m); }
    forall i, j | 0 <= i < j < |sent| ensures Newer(H', sent[i], sent[j]) { assert sent[i] in sent && sent[j] in sent; }
    forall m <- W' | Eligible(f, H', latest, m)
      ensures m in sent || Queued(v.queue, m) || exists i: nat :: Waiting(f, H', v, i, m)
    {
      assert Eligible(f, H, latest, m);
      if i: nat :| Waiting(f, H, v, i, m) { assert Waiting(f, H', v, i, m); }
    }
  }

  // ----- popping the front candidate -----

  function PoppedView(v: View): View
    requires v.queue != [] && v.queue[0].scanIndex < |v.cursors|
    requires v.cursors[v.queue[0].scanIndex].outstanding > 0
  {
    var i := v.queue[0].scanIndex;
    v.(cursors := v.cursors[i := v.cursors[i].(outstanding := v.cursors[i].outstanding - 1)], queue := v.queue[1..])
  }

  lemma FrontCounted(f: NostrFilter, H: EventTable, v: View, gap: set<nat>)
    requires CursorsOk(f, v, gap) && QueueOk(f, H, v) && v.queue != []
    ensures v.queue[0].scanIndex < |v.cursors| && v.cursors[v.queue[0].scanIndex].outstanding > 0
  {
    assert CandidateOk(f, H, v, v.queue[0]);
  }

  lemma FrontIsNewest(H: EventTable, q: seq<Candidate>, c: Candidate)
    requires QueueSorted(q) && q != [] && c in q
    requires forall x <- q :: x.lev in H && x.created == H[x.lev].created
    ensures c.lev == q[0].lev || Newer(H, q[0].lev, c.lev)
  {
    assert q[0] in q;
    var k :| 0 <= k < |q| && q[k] == c;
  }

  lemma QueueTimes(f: NostrFilter, H: EventTable, v: View)
    requires |v.cursors| == |SearchKeys(f)| && v.next <= |v.cursors| && QueueOk(f, H, v)
    ensures forall x <- v.queue :: x.lev in H && x.created == H[x.lev].created
  {
    forall x <- v.queue ensures x.lev in H && x.created == H[x.lev].created { assert CandidateOk(f, H, v, x); }
  }

  /** The front candidate may join the sent list. */
  ghost predicate SendsFront(
    f: NostrFilter, H: EventTable, W: set<nat>, latest: nat, v: View, sent: seq<nat>, sent': seq<nat>)
    requires v.queue != []
  {
    var m := v.queue[0].lev;
    && (sent' == sent || (sent' == sent + [m] && m !in sent && Eligible(f, H, latest, m)))
    && (m in W && Eligible(f, H, latest, m) ==> m in sent')
  }

  lemma SendKeepsOrder(
    f: NostrFilter, H: EventTable, W: set<nat>, latest: nat, v: View, sent: seq<nat>, sent': seq<nat>)
    requires CursorsOk(f, v, {}) && QueueOk(f, H, v) && SentOk(f, H, latest, v, sent)
    requires v.next == |v.cursors| && v.queue != [] && SendsFront(f, H, W, latest, v, sent, sent')
    ensures (forall m <- sent' :: Eligible(f, H, latest, m)) && Descending(H, sent')
    ensures forall m <- sent' :: m == v.queue[0].lev || Newer(H, m, v.queue[0].lev)
    ensures forall m <- sent', c <- v.queue :: c.lev == m || (c.lev in H && Newer(H, m, c.lev))
  {
    assert v.queue[0] in v.queue;
    QueueTimes(f, H, v);
    forall c <- v.queue ensures c.lev == v.queue[0].lev || Newer(H, v.queue[0].lev, c.lev) {
      FrontIsNewest(H, v.queue, c);
    }
    assert forall m <- sent' :: Eligible(f, H, latest, m);
    forall i, j | 0 <= i < j < |sent'| ensures sent'[i] in sent' && sent'[j] in sent' && Newer(H, sent'[i], sent'[j]) {
      assert i < |sent| ==> sent'[i] == sent[i] && sent[i] in sent;
    }
  }

  /** After the pop, the front's cursor may lack a queued candidate; all it has left ranks below what was sent. */
  lemma PopKeeps(
    f: NostrFilter, H: EventTable, W: set<nat>, latest: nat, v: View, sent: seq<nat>, sent': seq<nat>)
    requires ScanInv(f, H, W, latest, v, sent, {})
    requires v.next == |v.cursors| && v.queue != [] && SendsFront(f, H, W, latest, v, sent, sent')
    requires v.queue[0].scanIndex < |v.cursors| && v.cursors[v.queue[0].scanIndex].outstanding > 0
    ensures ScanInv(f, H, W, latest, PoppedView(v), sent', {v.queue[0].scanIndex})
    ensures BelowSent(f, H, PoppedView(v), v.queue[0].scanIndex, sent')
  {
    var c0 := v.queue[0];
    var v' := PoppedView(v);
    assert v.queue == [c0] + v'.queue;
    forall c <- v'.queue ensures CandidateOk(f, H, v', c) { assert CandidateOk(f, H, v, c); }
    SendKeepsOrder(f, H, W, latest, v, sent, sent');
    PopCovers(f, H, W, latest, v, sent, sent');
    assert CandidateOk(f, H, v, c0);
    if v'.cursors[c0.scanIndex].active {
      forall m <- sent' ensures RecLess(v'.cursors[c0.scanIndex].resume, Key(f, H, c0.scanIndex, m)) {
        RecTransitive(v'.cursors[c0.scanIndex].resume, Key(f, H, c0.scanIndex, c0.lev), Key(f, H, c0.scanIndex, m));
      }
    }
  }

  /** Everything cursor `i` has yet to deliver ranks below everything sent. */
  ghost predicate BelowSent(f: NostrFilter, H: EventTable, v: View, i: nat, sent: seq<nat>) {
    && i < |v.cursors| && i < |SearchKeys(f)|
    && (v.cursors[i].active ==>
         forall m <- sent :: m in H && RecLess(v.cursors[i].resume, Key(f, H, i, m)))
  }

  lemma PopCovers(
    f: NostrFilter, H: EventTable, W: set<nat>, latest: nat, v: View, sent: seq<nat>, sent': seq<nat>)
    requires Covered(f, H, W, latest, v, sent) && v.queue != []
    requires v.queue[0].scanIndex < |v.cursors| && v.cursors[v.queue[0].scanIndex].outstanding > 0
    requires SendsFront(f, H, W, latest, v, sent, sent')
    ensures Covered(f, H, W, latest, PoppedView(v), sent')
  {
    var v' := PoppedView(v);
    assert v.queue == [v.queue[0]] + v'.queue;
    forall m <- W | Eligible(f, H, latest, m)
      ensures m in sent' || Queued(v'.queue, m) || exists i: nat :: Waiting(f, H, v', i, m)
    {
      if m !in sent && !Queued(v.queue, m) {
        var i: nat :| Waiting(f, H, v, i, m);
        assert Waiting(f, H, v', i, m);
      }
    }
  }

  // ----- collecting for cursor i: its first collection, or a refill -----

  lemma RefillKeeps(
    f: NostrFilter, H: EventTable, W: set<nat>, latest: nat, events: EventTable, ix: seq<Rec>,
    v: View, sent: seq<nat>, i: nat, depth: nat, c': Cursor, more: seq<Rec>, v': View)
    requires ScanInv(f, H, W, latest, v, sent, {i}) && Submap(events, H) && W <= events.Keys
    requires IsIndex(ix, PlanOf(f), events)
    requires i < |v.cursors| && i <= v.next && depth > 0 && Count(v.queue, i) == 0
    requires Collected(f, ix, v.cursors[i], depth, c', more)
    requires BelowSent(f, H, v, i, sent)
    requires v'.cursors == v.cursors[i := c'] && v'.next == (if i == v.next then v.next + 1 else v.next)
    requires Combines(v'.queue, v.queue, ToCandidates(more, i))
    requires v'.next == |v.cursors| ==> QueueSorted(v'.queue)
    ensures ScanInv(f, H, W, latest, v', sent, {})
  {
    RefillCursors(f, v, i, depth, c', more, v', ix);
    RefillQueue(f, H, events, ix, v, i, depth, c', more, v');
    RefillSent(f, H, latest, events, ix, v, sent, i, depth, c', more, v');
    RefillCovers(f, H, W, latest, events, ix, v, sent, i, depth, c', more, v');
  }

  lemma RefillCursors(
    f: NostrFilter, v: View, i: nat, depth: nat, c': Cursor, more: seq<Rec>, v': View, ix: seq<Rec>)
    requires CursorsOk(f, v, {i}) && i < |v.cursors| && i <= v.next && depth > 0 && Count(v.queue, i) == 0
    requires Collected(f, ix, v.cursors[i], depth, c', more)
    requires v'.cursors == v.cursors[i := c'] && v'.next == (if i == v.next then v.next + 1 else v.next)
    requires Combines(v'.queue, v.queue, ToCandidates(more, i))
    ensures CursorsOk(f, v', {})
  {
    forall k | 0 <= k < |v.cursors| ensures Count(v'.queue, k) == Count(v.queue, k) + if k == i then |more| else 0 {
      CountOwn(more, i, k);
    }
  }

  lemma RefillQueue(
    f: NostrFilter, H: EventTable, events: EventTable, ix: seq<Rec>, v: View, i: nat, depth: nat,
    c': Cursor, more: seq<Rec>, v': View)
    requires CursorsOk(f, v, {i}) && QueueOk(f, H, v) && Submap(events, H) && IsIndex(ix, PlanOf(f), events)
    requires i < |v.cursors| && i <= v.next && Count(v.queue, i) == 0
    requires Collected(f, ix, v.cursors[i], depth, c', more)
    requires v'.cursors == v.cursors[i := c'] && v'.next == (if i == v.next then v.next + 1 else v.next)
    requires Combines(v'.queue, v.queue, ToCandidates(more, i))
    requires v'.next == |v.cursors| ==> QueueSorted(v'.queue)
    ensures QueueOk(f, H, v')
  {
    forall c <- v'.queue ensures CandidateOk(f, H, v', c) {
      if c in v.queue {
        assert CandidateOk(f, H, v, c);
        CountPresent(v.queue, i);
      } else {
        var k :| 0 <= k < |more| && ToCandidates(more, i)[k] == c;
        assert more[k] in more && IsEntry(more[k], PlanOf(f), events);
      }
    }
  }

  lemma RefillSent(
    f: NostrFilter, H: EventTable, latest: nat, events: EventTable, ix: seq<Rec>,
    v: View, sent: seq<nat>, i: nat, depth: nat, c': Cursor, more: seq<Rec>, v': View)
    requires |v.cursors| == |SearchKeys(f)| && i < |v.cursors| && v.cursors[i].search == SearchKeys(f)[i]
    requires SentOk(f, H, latest, v, sent) && Submap(events, H) && IsIndex(ix, PlanOf(f), events)
    requires BelowSent(f, H, v, i, sent)
    requires Collected(f, ix, v.cursors[i], depth, c', more)
    requires v'.cursors == v.cursors[i := c'] && v'.next >= v.next
    requires Combines(v'.queue, v.queue, ToCandidates(more, i))
    ensures SentOk(f, H, latest, v', sent)
  {
    forall m <- sent, c <- v'.queue ensures c.lev == m || (c.lev in H && Newer(H, m, c.lev)) {
      if c !in v.queue {
        var k :| 0 <= k < |more| && ToCandidates(more, i)[k] == c;
        var r := more[k];
        assert r in more && IsEntry(r, PlanOf(f), events);
        RecTransitive(r, v.cursors[i].resume, Key(f, H, i, m));
        LessIrreflexive(r.s);
      }
    }
  }

  lemma RefillCovers(
    f: NostrFilter, H: EventTable, W: set<nat>, latest: nat, events: EventTable, ix: seq<Rec>,
    v: View, sent: seq<nat>, i: nat, depth: nat, c': Cursor, more: seq<Rec>, v': View)
    requires |v.cursors| == |SearchKeys(f)| && i < |v.cursors| && v.cursors[i].search == SearchKeys(f)[i]
    requires Covered(f, H, W, latest, v, sent)
    requires Submap(events, H) && W <= events.Keys && IsIndex(ix, PlanOf(f), events)
    requires Collected(f, ix, v.cursors[i], depth, c', more)
    requires v'.cursors == v.cursors[i := c']
    requires Combines(v'.queue, v.queue, ToCandidates(more, i))
    ensures Covered(f, H, W, latest, v', sent)
  {
    forall m <- W | Eligible(f, H, latest, m)
      ensures m in sent || Queued(v'.queue, m) || exists k: nat :: Waiting(f, H, v', k, m)
    {
      if m !in sent && !Queued(v.queue, m) {
        var k: nat :| Waiting(f, H, v, k, m);
        if k != i {
          assert Waiting(f, H, v', k, m);
        } else {
          var r := Key(f, H, i, m);
          assert IsEntry(r, PlanOf(f), events) && r in ix;
          if r in more {
            var j :| 0 <= j < |more| && more[j] == r;
            assert ToCandidates(more, i)[j] in ToCandidates(more, i);
          } else {
            assert Waiting(f, H, v', i, m);
          }
        }
      }
    }
  }

  // ----- the two ways a scan ends -----

  lemma Exhausted(f: NostrFilter, H: EventTable, W: set<nat>, latest: nat, v: View, sent: seq<nat>)
    requires ScanInv(f, H, W, latest, v, sent, {}) && v.next == |v.cursors| && v.queue == []
    ensures forall m <- W | Eligible(f, H, latest, m) :: m in sent
  {
    forall m <- W | Eligible(f, H, latest, m) ensures m in sent {
      assert forall i: nat :: !Waiting(f, H, v, i, m);
    }
  }

  /** At any pop, an eligible survivor that is not sent ranks below the front candidate. */
  lemma UnsentRanksBelow(
    f: NostrFilter, H: EventTable, W: set<nat>, latest: nat, v: View, sent: seq<nat>, sent': seq<nat>, m: nat)
    requires ScanInv(f, H, W, latest, v, sent, {}) && v.next == |v.cursors| && v.queue != []
    requires SendsFront(f, H, W, latest, v, sent, sent')
    requires m in W && Eligible(f, H, latest, m) && m !in sent'
    ensures forall o <- sent' :: o in H && Newer(H, o, m)
  {
    SendKeepsOrder(f, H, W, latest, v, sent, sent');
    QueueTimes(f, H, v);
    if Queued(v.queue, m) {
      var c :| c in v.queue && c.lev == m;
      FrontIsNewest(H, v.queue, c);
    } else {
      var i: nat :| Waiting(f, H, v, i, m);
      CountPresent(v.queue, i);
      var c :| c in v.queue && c.scanIndex == i;
      assert CandidateOk(f, H, v, c);
      RecTransitive(Key(f, H, i, m), v.cursors[i].resume, Key(f, H, i, c.lev));
      LessIrreflexive(SearchKeys(f)[i]);
      FrontIsNewest(H, v.queue, c);
    }
  }
}
