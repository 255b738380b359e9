/**
 The resumable query: `DBScan::scan` and `DBQuery::process` of src/DBQuery.h.

 A query may give up the CPU between any two steps and be resumed later, against
 the same snapshot or a newer one. Whether the time budget is used up is an
 arbitrary choice here.
 */
module Query {
  import opened Seqs
  import opened Lex
  import opened Events
  import opened Filters
  import opened Index
  import opened ScanCursors
  import opened MergeQueue
  import opened ScanInvariant
  import opened QuerySpec

  function Total(ix: seq<Rec>, cs: seq<Cursor>): nat
    requires Sorted(ix)
  {
    if cs == [] then 0 else Uncollected(ix, cs[0]) + Total(ix, cs[1..])
  }

  lemma {:induction false} TotalUpdate(ix: seq<Rec>, cs: seq<Cursor>, i: nat, c: Cursor)
    requires Sorted(ix) && i < |cs|
    ensures Total(ix, cs[i := c]) + Uncollected(ix, cs[i]) == Total(ix, cs) + Uncollected(ix, c)
    decreases |cs|
  {
    if i == 0 {
      assert cs[i := c][1..] == cs[1..];
    } else {
      assert cs[i := c][1..] == cs[1..][i - 1 := c];
      TotalUpdate(ix, cs[1..], i - 1, c);
    }
  }

  /** The work left in a scan: cursors not started, then records not collected, then candidates queued. */
  predicate LessWork(ix: seq<Rec>, a: View, b: View)
    requires Sorted(ix)
  {
    && |a.cursors| == |b.cursors|
    && (a.next > b.next || (a.next == b.next &&
        (Total(ix, a.cursors) < Total(ix, b.cursors) ||
         (Total(ix, a.cursors) == Total(ix, b.cursors) && |a.queue| < |b.queue|))))
  }

  function Clamp(n: nat, lo: nat, hi: nat): nat {
    if n < lo then lo else if n > hi then hi else n
  }

  /** How many records a cursor collects at first: an even share of the limit, within bounds. */
  function ScanDepth(limit: nat, cursors: nat): (d: nat)
    requires cursors > 0
    ensures 5 <= d <= 50
  {
    Clamp(limit / cursors, 5, 50)
  }

  class DBScan {
    const f: NostrFilter
    const initialScanDepth: nat
    const refillScanDepth: nat
    var cursors: seq<Cursor>
    var eventQueue: seq<Candidate>
    var nextInitIndex: nat
    var approxWork: nat

    function V(): View
      reads this
    {
      View(cursors, eventQueue, nextInitIndex)
    }

    ghost predicate Ready() {
      ValidFilter(f) && initialScanDepth > 0 && refillScanDepth > 0
    }

    constructor (f: NostrFilter)
      requires ValidFilter(f)
      ensures this.f == f && Ready() && V() == FreshView(f) && approxWork == 0
    {
      SearchKeysNonEmpty(f);
      this.f := f;
      var keys := SearchKeys(f);
      cursors := seq(|keys|, i requires 0 <= i < |keys| => FreshCursor(keys[i]));
      eventQueue := [];
      nextInitIndex := 0;
      approxWork := 0;
      initialScanDepth := ScanDepth(f.limit, |keys|);
      refillScanDepth := 10 * ScanDepth(f.limit, |keys|);
    }

    ghost predicate Sees(db: Snapshot, H: EventTable, W: set<nat>) {
      ValidSnapshot(db) && Submap(db.events, H) && W <= db.events.Keys && WellFormedTable(H)
    }

    /** First collection of the next cursor; the queue is sorted once all have been started. */
    method StartCursor(db: Snapshot, ghost H: EventTable, ghost W: set<nat>, ghost latest: nat, ghost sent: seq<nat>)
      requires Ready() && Sees(db, H, W)
      requires ScanInv(f, H, W, latest, V(), sent, {}) && nextInitIndex < |cursors|
      modifies this
      ensures ScanInv(f, H, W, latest, V(), sent, {})
      ensures LessWork(db.index[PlanOf(f)], V(), old(V())) && approxWork >= old(approxWork)
    {
      var i := nextInitIndex;
      ghost var v := V();
      var ix := db.index[PlanOf(f)];
      var c, more := Collect(f, db.events, ix, i, cursors[i], initialScanDepth);
      Appended(eventQueue, ToCandidates(more, i));
      cursors := cursors[i := c];
      eventQueue := eventQueue + ToCandidates(more, i);
      approxWork := approxWork + |more|;
      nextInitIndex := nextInitIndex + 1;
      if nextInitIndex == |cursors| {
        SortCombines(eventQueue, v.queue, ToCandidates(more, i));
        eventQueue := SortQueue(eventQueue);
      }
      StartKeeps(f, H, W, latest, db.events, ix, v, sent, initialScanDepth, c, more, V());
    }

    /** The scan's reading of one candidate: trust the index, or load the event and match it. */
    method ShouldSend(db: Snapshot, ev: Candidate, ghost H: EventTable, ghost W: set<nat>)
      returns (doSend: bool)
      requires Ready() && Sees(db, H, W)
      requires ev.scanIndex < |SearchKeys(f)| && ev.lev in H && ev.created == H[ev.lev].created
      requires SearchKeys(f)[ev.scanIndex] in EntryKeys(PlanOf(f), H[ev.lev])
      modifies this`approxWork
      ensures doSend ==> Matches(f, H[ev.lev])
      ensures ev.lev in W && Matches(f, H[ev.lev]) ==> doSend
    {
      if IndexOnly(f) {
        PlanDecides(f, H[ev.lev], ev.scanIndex);
        doSend := MatchesTimes(f, ev.created);
      } else {
        approxWork := approxWork + 10;
        doSend := ev.lev in db.events && Matches(f, db.events[ev.lev]);
      }
    }

    /** Scans until paused (false), or until the events or the limit run out (true). */
    method Scan(db: Snapshot, q: DBQuery, ghost H: EventTable, ghost W: set<nat>) returns (complete: bool)
      requires Ready() && Sees(db, H, W) && q.limit == f.limit && approxWork <= q.lastWorkChecked
      requires ScanInv(f, H, W, q.latestEventId, V(), q.sentEventsCurr, {})
      requires q.sentEventsCurr == [] || |q.sentEventsCurr| < f.limit
      requires q.OutputOk()
      modifies this, q`sentEventsFull, q`sentEventsCurr, q`out, q`lastWorkChecked
      ensures q.OutputOk()
      ensures !complete ==> ScanInv(f, H, W, q.latestEventId, V(), q.sentEventsCurr, {})
      ensures !complete ==> q.sentEventsCurr == [] || |q.sentEventsCurr| < f.limit
      ensures !complete ==> LessWork(db.index[PlanOf(f)], V(), old(V())) && approxWork <= q.lastWorkChecked
      ensures complete ==> TopOf(f, H, W, q.latestEventId, q.sentEventsCurr)
      ensures old(q.out) <= q.out
    {
      var ix := db.index[PlanOf(f)];
      ghost var v0 := V();
      while true
        invariant q.OutputOk() && old(q.out) <= q.out
        invariant ScanInv(f, H, W, q.latestEventId, V(), q.sentEventsCurr, {})
        invariant q.sentEventsCurr == [] || |q.sentEventsCurr| < f.limit
        invariant LessWork(ix, V(), v0) || (V() == v0 && approxWork <= q.lastWorkChecked)
        decreases |cursors| - nextInitIndex, Total(ix, cursors), |eventQueue|
      {
        approxWork := approxWork + 1;
        var pause := q.DoPause(approxWork);
        if pause { return false; }

        var done := Step(db, q, H, W);
        if done { return true; }
      }
    }

    /** One turn of the scan loop after the pause check. */
    method Step(db: Snapshot, q: DBQuery, ghost H: EventTable, ghost W: set<nat>) returns (done: bool)
      requires Ready() && Sees(db, H, W) && q.limit == f.limit && q.OutputOk()
      requires ScanInv(f, H, W, q.latestEventId, V(), q.sentEventsCurr, {})
      requires q.sentEventsCurr == [] || |q.sentEventsCurr| < f.limit
      modifies this, q`sentEventsFull, q`sentEventsCurr, q`out
      ensures q.OutputOk()
      ensures !done ==> ScanInv(f, H, W, q.latestEventId, V(), q.sentEventsCurr, {})
      ensures !done ==> q.sentEventsCurr == [] || |q.sentEventsCurr| < f.limit
      ensures !done ==> LessWork(db.index[PlanOf(f)], V(), old(V()))
      ensures done ==> TopOf(f, H, W, q.latestEventId, q.sentEventsCurr)
      ensures old(q.out) <= q.out
    {
      if nextInitIndex < |cursors| {
        StartCursor(db, H, W, q.latestEventId, q.sentEventsCurr);
        return false;
      } else if |eventQueue| == 0 {
        Exhausted(f, H, W, q.latestEventId, V(), q.sentEventsCurr);
        return true;
      }
      ghost var v, sent := V(), q.sentEventsCurr;
      FrontOk(f, H, v);
      var doSend := ShouldSend(db, eventQueue[0], H, W);
      done := OfferFront(q, doSend, H, W);
      if done {
        StoppedAtLimit(f, H, W, q.latestEventId, v, sent, q.sentEventsCurr);
      } else {
        Pop(db, H, W, q.latestEventId, sent, q.sentEventsCurr);
      }
    }

    /** Hands the front candidate to the query if it matches. */
    method OfferFront(q: DBQuery, doSend: bool, ghost H: EventTable, ghost W: set<nat>) returns (stop: bool)
      requires q.limit == f.limit && q.OutputOk() && (q.sentEventsCurr == [] || |q.sentEventsCurr| < f.limit)
      requires eventQueue != [] && eventQueue[0].lev in H
      requires doSend ==> Matches(f, H[eventQueue[0].lev])
      requires eventQueue[0].lev in W && Matches(f, H[eventQueue[0].lev]) ==> doSend
      modifies q`sentEventsFull, q`sentEventsCurr, q`out
      ensures q.OutputOk()
      ensures f.limit == 0 ==> q.sentEventsCurr == []
      ensures f.limit != 0 || !stop ==>
        SendsFront(f, H, W, q.latestEventId, V(), old(q.sentEventsCurr), q.sentEventsCurr)
      ensures stop ==> |q.sentEventsCurr| == f.limit
      ensures !stop ==> q.sentEventsCurr == [] || |q.sentEventsCurr| < f.limit
      ensures old(q.out) <= q.out
    {
      stop := false;
      ghost var sent := q.sentEventsCurr;
      if doSend {
        stop := q.HandleEvent(eventQueue[0].lev);
      }
      if f.limit != 0 || !doSend {
        FrontOffered(f, H, W, q.latestEventId, V(), sent, q.sentEventsCurr, doSend);
      }
    }

    /** Takes the front candidate off the queue and refills its cursor if that was its last. */
    method Pop(
      db: Snapshot, ghost H: EventTable, ghost W: set<nat>, ghost latest: nat, ghost sent: seq<nat>,
      ghost sent': seq<nat>)
      requires Ready() && Sees(db, H, W)
      requires ScanInv(f, H, W, latest, V(), sent, {}) && nextInitIndex == |cursors| && eventQueue != []
      requires SendsFront(f, H, W, latest, V(), sent, sent')
      modifies this
      ensures ScanInv(f, H, W, latest, V(), sent', {})
      ensures LessWork(db.index[PlanOf(f)], V(), old(V()))
    {
      ghost var v := V();
      FrontCounted(f, H, v, {});
      var i := eventQueue[0].scanIndex;
      PopKeeps(f, H, W, latest, v, sent, sent');
      eventQueue := eventQueue[1..];
      cursors := cursors[i := cursors[i].(outstanding := cursors[i].outstanding - 1)];
      assert V() == PoppedView(v);
      TotalUpdate(db.index[PlanOf(f)], v.cursors, i, cursors[i]);
      if cursors[i].outstanding == 0 {
        Refill(db, i, H, W, latest, sent');
      } else {
        GapClosed(f, H, W, latest, V(), sent', i);
      }
    }

    /** Collects more for a cursor whose last queued candidate was just taken, and merges. */
    method Refill(
      db: Snapshot, i: nat, ghost H: EventTable, ghost W: set<nat>, ghost latest: nat, ghost sent: seq<nat>)
      requires Ready() && Sees(db, H, W)
      requires ScanInv(f, H, W, latest, V(), sent, {i}) && nextInitIndex == |cursors|
      requires i < |cursors| && cursors[i].outstanding == 0 && BelowSent(f, H, V(), i, sent)
      modifies this
      ensures ScanInv(f, H, W, latest, V(), sent, {})
      ensures LessWork(db.index[PlanOf(f)], V(), old(V())) || V() == old(V())
      ensures approxWork >= old(approxWork)
    {
      ghost var v := V();
      var ix := db.index[PlanOf(f)];
      var c, more := Collect(f, db.events, ix, i, cursors[i], refillScanDepth);
      MergeCombines(eventQueue, ToCandidates(more, i));
      OwnSorted(more, cursors[i].search, i);
      MergeSorted(eventQueue, ToCandidates(more, i));
      TotalUpdate(ix, cursors, i, c);
      assert !cursors[i].active ==> more == [] by { assert forall r <- more :: Ahead(f, v.cursors[i], r); }
      cursors := cursors[i := c];
      eventQueue := Merge(eventQueue, ToCandidates(more, i));
      approxWork := approxWork + |more|;
      RefillKeeps(f, H, W, latest, db.events, ix, v, sent, i, refillScanDepth, c, more, V());
    }
  }

  /** Each finished filter has been answered. */
  ghost predicate Answered(filters: seq<NostrFilter>, H: EventTable, W: set<nat>, latest: nat, tops: seq<seq<nat>>) {
    |tops| <= |filters| && forall k | 0 <= k < |tops| :: TopOf(filters[k], H, W, latest, tops[k])
  }

  lemma AnsweredNext(
    filters: seq<NostrFilter>, H: EventTable, W: set<nat>, latest: nat, tops: seq<seq<nat>>, t: seq<nat>)
    requires Answered(filters, H, W, latest, tops) && |tops| < |filters| && TopOf(filters[|tops|], H, W, latest, t)
    ensures Answered(filters, H, W, latest, tops + [t])
  {
  }

  /** A query between two calls: the answers of finished filters, what the current one has sent, the scan. */
  datatype Progress = Progress(tops: seq<seq<nat>>, curr: seq<nat>, out: seq<nat>, scan: Option<View>)

  const NotStarted := Progress([], [], [], None)

  ghost predicate Answering(p: Progress, filters: seq<NostrFilter>, latest: nat, H: EventTable, W: set<nat>) {
    && Answered(filters, H, W, latest, p.tops) && p.out == AppendNew(UnionOf(p.tops), p.curr)
    && if p.scan.None? then p.curr == []
       else |p.tops| < |filters| && ScanInv(filters[|p.tops|], H, W, latest, p.scan.value, p.curr, {})
  }

  /** What one call of `process` leaves, `H` and `W` counting the snapshot it sees. */
  ghost predicate Called(
    p: Progress, p': Progress, filters: seq<NostrFilter>, latest: nat, H: EventTable, W: set<nat>, complete: bool)
  {
    && Answering(p', filters, latest, H, W) && p.out <= p'.out
    && (complete <==> |p'.tops| == |filters|) && (complete ==> p'.scan.None?)
  }

  lemma AnsweringSurvives(
    p: Progress, filters: seq<NostrFilter>, latest: nat, H: EventTable, W: set<nat>, H': EventTable, W': set<nat>)
    requires Answering(p, filters, latest, H, W) && Submap(H, H') && W' <= W && W <= H.Keys
    ensures Answering(p, filters, latest, H', W')
  {
    forall k | 0 <= k < |p.tops| ensures TopOf(filters[k], H', W', latest, p.tops[k]) {
      TopSurvives(filters[k], H, W, H', W', latest, p.tops[k]);
    }
    if p.scan.Some? {
      ScanSurvives(filters[|p.tops|], H, W, H', W', latest, p.scan.value, p.curr);
    }
  }

  /** A complete query has answered. */
  lemma CompleteAnswers(p: Progress, filters: seq<NostrFilter>, latest: nat, H: EventTable, W: set<nat>)
    requires Answering(p, filters, latest, H, W) && |p.tops| == |filters| && p.scan.None?
    ensures AnswersChanging(filters, H, W, latest, p.out)
  {
    ChangingAnswered(filters, H, W, latest, p.tops);
  }

  class DBQuery {
    const filters: seq<NostrFilter>   // sub.filterGroup
    const latestEventId: nat          // sub.latestEventId
    var scanner: DBScan?
    var filterGroupIndex: nat
    var limit: nat                    // limit of the filter being scanned
    var sentEventsFull: set<nat>
    var sentEventsCurr: seq<nat>      // a set, in insertion order
    var lastWorkChecked: nat
    var out: seq<nat>                 // what the callback was given
    ghost var tops: seq<seq<nat>>     // sentEventsCurr of each finished filter

    constructor (filters: seq<NostrFilter>, latestEventId: nat)
      ensures this.filters == filters && this.latestEventId == latestEventId
      ensures scanner == null && filterGroupIndex == 0 && sentEventsCurr == [] && out == [] && tops == []
      ensures OutputOk()
    {
      this.filters, this.latestEventId := filters, latestEventId;
      scanner, filterGroupIndex, limit, lastWorkChecked := null, 0, 0, 0;
      sentEventsFull, sentEventsCurr, out, tops := {}, [], [], [];
    }

    ghost predicate OutputOk()
      reads this
    {
      && out == AppendNew(UnionOf(tops), sentEventsCurr)
      && forall m :: m in sentEventsFull <==> m in out
    }

    /** The callback given to `scan` for each event; true stops the scan. */
    method HandleEvent(levId: nat) returns (stop: bool)
      requires OutputOk()
      modifies `sentEventsFull, `sentEventsCurr, `out
      ensures OutputOk()
      ensures sentEventsCurr == (if limit == 0 || levId > latestEventId || levId in old(sentEventsCurr)
                                 then old(sentEventsCurr) else old(sentEventsCurr) + [levId])
      ensures stop <==> limit == 0 || (levId <= latestEventId && |sentEventsCurr| >= limit)
      ensures old(out) <= out
    {
      if limit == 0 { return true; }
      if levId > latestEventId { return false; }
      if levId !in sentEventsFull {
        sentEventsFull := sentEventsFull + {levId};
        out := out + [levId];
      }
      AppendedHas(UnionOf(tops), sentEventsCurr);
      if levId !in sentEventsCurr {
        sentEventsCurr := sentEventsCurr + [levId];
        assert sentEventsCurr[..|sentEventsCurr| - 1] == old(sentEventsCurr);
      }
      return |sentEventsCurr| >= limit;
    }

    ghost predicate ScanOk(H: EventTable, W: set<nat>)
      reads this, scanner
    {
      && scanner != null && filterGroupIndex < |filters|
      && scanner.f == filters[filterGroupIndex] && scanner.Ready() && limit == scanner.f.limit
      && scanner.approxWork <= lastWorkChecked
      && (sentEventsCurr == [] || |sentEventsCurr| < limit)
      && ScanInv(scanner.f, H, W, latestEventId, scanner.V(), sentEventsCurr, {})
    }

    ghost predicate Valid(H: EventTable, W: set<nat>)
      reads this, scanner
    {
      && (forall f <- filters :: ValidFilter(f))
      && |tops| == filterGroupIndex <= |filters|
      && Answered(filters, H, W, latestEventId, tops)
      && OutputOk()
      && if scanner == null then sentEventsCurr == [] else ScanOk(H, W)
    }

    /** The scan in progress, or the one the next filter would start. */
    function CurrentView(): View
      reads this, scanner
    {
      if scanner != null then scanner.V()
      else if filterGroupIndex < |filters| then FreshView(filters[filterGroupIndex])
      else View([], [], 0)
    }

    /** Filters to finish, cursors to start, records to collect and candidates to take. */
    ghost function WorkLeft(db: Snapshot): (nat, nat, nat, nat)
      requires ValidSnapshot(db) && filterGroupIndex <= |filters|
      reads this, scanner
    {
      var v := CurrentView();
      (|filters| - filterGroupIndex, if v.next <= |v.cursors| then |v.cursors| - v.next else 0,
       if filterGroupIndex < |filters| then Total(db.index[PlanOf(filters[filterGroupIndex])], v.cursors) else 0,
       |v.queue|)
    }

    /** How far the query has come, as a value. */
    ghost function Value(): Progress
      reads this, scanner
    {
      Progress(tops, sentEventsCurr, out, if scanner == null then None else Some(scanner.V()))
    }

    lemma ValidAnswers(H: EventTable, W: set<nat>)
      requires Valid(H, W)
      ensures Answering(Value(), filters, latestEventId, H, W)
    {
    }

    /** One call: answers the filters in turn; false if paused on the way. */
    method Process(db: Snapshot, ghost H: EventTable, ghost W: set<nat>) returns (complete: bool)
      requires Valid(H, W)
      requires ValidSnapshot(db) && Submap(db.events, H) && W <= db.events.Keys && WellFormedTable(H)
      modifies this, scanner
      ensures Valid(H, W)
      ensures scanner == null || scanner == old(scanner) || fresh(scanner)
      ensures complete ==> filterGroupIndex == |filters| && scanner == null
      ensures !complete ==> filterGroupIndex < |filters| && filterGroupIndex >= old(filterGroupIndex)
      ensures !complete && filterGroupIndex == old(filterGroupIndex) ==>
        LessWork(db.index[PlanOf(filters[filterGroupIndex])], CurrentView(), old(CurrentView()))
      ensures Called(old(Value()), Value(), filters, latestEventId, H, W, complete)
    {
      complete := ProcessFilters(db, H, W);
      ValidAnswers(H, W);
    }

    /** A later call, the store having changed in between. */
    method Resume(db: Snapshot, ghost H: EventTable, ghost W: set<nat>, ghost H': EventTable, ghost W': set<nat>)
      returns (complete: bool)
      requires Valid(H, W) && Submap(H, H') && W' <= W && W <= H.Keys
      requires ValidSnapshot(db) && Submap(db.events, H') && W' <= db.events.Keys && WellFormedTable(H')
      modifies this, scanner
      ensures Valid(H', W')
      ensures scanner == null || scanner == old(scanner) || fresh(scanner)
      ensures complete ==> filterGroupIndex == |filters| && scanner == null
    {
      Survives(H, W, H', W');
      complete := Process(db, H', W');
    }

    method ProcessFilters(db: Snapshot, ghost H: EventTable, ghost W: set<nat>) returns (complete: bool)
      requires Valid(H, W)
      requires ValidSnapshot(db) && Submap(db.events, H) && W <= db.events.Keys && WellFormedTable(H)
      modifies this, scanner
      ensures Valid(H, W) && old(out) <= out
      ensures scanner == null || scanner == old(scanner) || fresh(scanner)
      ensures complete ==> filterGroupIndex == |filters| && scanner == null
      ensures !complete ==> filterGroupIndex < |filters| && filterGroupIndex >= old(filterGroupIndex)
      ensures !complete && filterGroupIndex == old(filterGroupIndex) ==>
        LessWork(db.index[PlanOf(filters[filterGroupIndex])], CurrentView(), old(CurrentView()))
    {
      while filterGroupIndex < |filters|
        invariant old(out) <= out
        invariant Valid(H, W) && filterGroupIndex >= old(filterGroupIndex)
        invariant filterGroupIndex == old(filterGroupIndex) ==>
          scanner == old(scanner) && CurrentView() == old(CurrentView())
        invariant scanner == null || scanner == old(scanner) || fresh(scanner)
        decreases |filters| - filterGroupIndex
      {
        complete := NextFilter(db, H, W);
        if !complete { return false; }
      }
      return true;
    }

    /** The body of the loop. */
    method NextFilter(db: Snapshot, ghost H: EventTable, ghost W: set<nat>) returns (complete: bool)
      requires Valid(H, W) && filterGroupIndex < |filters|
      requires ValidSnapshot(db) && Submap(db.events, H) && W <= db.events.Keys && WellFormedTable(H)
      modifies this, scanner
      ensures Valid(H, W) && old(out) <= out
      ensures scanner == null || scanner == old(scanner) || fresh(scanner)
      ensures complete ==> filterGroupIndex == old(filterGroupIndex) + 1 && scanner == null
      ensures !complete ==> filterGroupIndex == old(filterGroupIndex)
      ensures !complete ==> LessWork(db.index[PlanOf(filters[filterGroupIndex])], CurrentView(), old(CurrentView()))
    {
      if scanner == null {
        StartScan(H, W);
      }
      complete := ProcessFilter(db, H, W);
    }

    /** Scans for the current filter. */
    method ProcessFilter(db: Snapshot, ghost H: EventTable, ghost W: set<nat>) returns (complete: bool)
      requires Valid(H, W) && filterGroupIndex < |filters| && scanner != null
      requires ValidSnapshot(db) && Submap(db.events, H) && W <= db.events.Keys && WellFormedTable(H)
      modifies this, scanner
      ensures Valid(H, W)
      ensures scanner == null || scanner == old(scanner)
      ensures complete ==> filterGroupIndex == old(filterGroupIndex) + 1 && scanner == null
      ensures !complete ==> filterGroupIndex == old(filterGroupIndex)
      ensures !complete ==> LessWork(db.index[PlanOf(filters[filterGroupIndex])], CurrentView(), old(CurrentView()))
      ensures old(out) <= out
    {
      complete := scanner.Scan(db, this, H, W);
      if complete {
        AnsweredNext(filters, H, W, latestEventId, tops, sentEventsCurr);
        scanner := null;
        FinishFilter(H, W);
      }
    }

    method StartScan(ghost H: EventTable, ghost W: set<nat>)
      requires Valid(H, W) && WellFormedTable(H) && filterGroupIndex < |filters| && scanner == null
      modifies `scanner, `limit
      ensures Valid(H, W) && scanner != null && fresh(scanner) && CurrentView() == old(CurrentView())
    {
      var f := filters[filterGroupIndex];
      scanner := new DBScan(f);
      limit := f.limit;
      ScanStarts(f, H, W, latestEventId);
    }

    /** The bookkeeping between two filters of the group. */
    method FinishFilter(ghost H: EventTable, ghost W: set<nat>)
      requires filterGroupIndex == |tops| < |filters| && OutputOk()
      requires TopOf(filters[filterGroupIndex], H, W, latestEventId, sentEventsCurr)
      modifies `filterGroupIndex, `sentEventsCurr, `tops
      ensures filterGroupIndex == old(filterGroupIndex) + 1 && sentEventsCurr == []
      ensures tops == old(tops) + [old(sentEventsCurr)] && OutputOk()
    {
      tops := tops + [sentEventsCurr];
      assert tops[..|tops| - 1] == old(tops);
      sentEventsCurr := [];
      filterGroupIndex := filterGroupIndex + 1;
    }

    /** Between two calls the store may change; what the query has done so far stays right. */
    lemma Survives(H: EventTable, W: set<nat>, H': EventTable, W': set<nat>)
      requires Valid(H, W) && Submap(H, H') && W' <= W && W <= H.Keys
      ensures Valid(H', W')
    {
      forall k | 0 <= k < |tops| ensures TopOf(filters[k], H', W', latestEventId, tops[k]) {
        TopSurvives(filters[k], H, W, H', W', latestEventId, tops[k]);
      }
      if scanner != null {
        ScanSurvives(scanner.f, H, W, H', W', latestEventId, scanner.V(), sentEventsCurr);
      }
    }

    /** Time is only looked at after 2000 more units of work; the answer is then arbitrary. */
    method DoPause(approxWork: nat) returns (pause: bool)
      modifies `lastWorkChecked
      ensures pause ==> approxWork > old(lastWorkChecked) + 2_000 && lastWorkChecked == approxWork
      ensures !pause ==> lastWorkChecked >= old(lastWorkChecked)
    {
      if approxWork > lastWorkChecked + 2_000 {
        lastWorkChecked := approxWork;
        pause := *;
      } else {
        pause := false;
      }
    }
  }

  lemma {:induction false} AppendedHas(out: seq<nat>, t: seq<nat>)
    ensures forall x <- t :: x in AppendNew(out, t)
    decreases |t|
  {
    if t != [] {
      AppendedHas(out, t[..|t| - 1]);
      assert t == t[..|t| - 1] + [t[|t| - 1]];
    }
  }

  lemma StoppedAtLimit(
    f: NostrFilter, H: EventTable, W: set<nat>, latest: nat, v: View, sent: seq<nat>, sent': seq<nat>)
    requires ScanInv(f, H, W, latest, v, sent, {}) && v.next == |v.cursors| && v.queue != []
    requires (f.limit == 0 && sent' == []) || SendsFront(f, H, W, latest, v, sent, sent')
    requires |sent'| == f.limit
    ensures TopOf(f, H, W, latest, sent')
  {
    if sent' == [] { return; }
    SendKeepsOrder(f, H, W, latest, v, sent, sent');
    forall m <- W | Eligible(f, H, latest, m) && m !in sent' ensures forall o <- sent' :: Newer(H, o, m) {
      UnsentRanksBelow(f, H, W, latest, v, sent, sent', m);
    }
  }

  lemma FrontOk(f: NostrFilter, H: EventTable, v: View)
    requires |v.cursors| == |SearchKeys(f)| && v.next <= |v.cursors| && QueueOk(f, H, v) && v.queue != []
    ensures CandidateOk(f, H, v, v.queue[0])
  {
    assert v.queue[0] in v.queue;
  }

  lemma GapClosed(f: NostrFilter, H: EventTable, W: set<nat>, latest: nat, v: View, sent: seq<nat>, i: nat)
    requires ScanInv(f, H, W, latest, v, sent, {i}) && i < |v.cursors| && v.cursors[i].outstanding > 0
    ensures ScanInv(f, H, W, latest, v, sent, {})
  {
  }

  lemma OwnSorted(more: seq<Rec>, search: Bytes, i: nat)
    requires forall r <- more :: r.s == search
    requires forall i, j | 0 <= i < j < |more| :: RecLess(more[j], more[i])
    ensures QueueSorted(ToCandidates(more, i))
  {
    LessIrreflexive(search);
    forall a, b | 0 <= a < b < |more| ensures more[a].s == more[b].s == search {
      assert more[a] in more && more[b] in more;
    }
  }

  /** Sent exactly if the scan found it to match, the snapshot covers it and it is new. */
  lemma FrontOffered(
    f: NostrFilter, H: EventTable, W: set<nat>, latest: nat, v: View, sent: seq<nat>, sent': seq<nat>, doSend: bool)
    requires v.queue != [] && v.queue[0].lev in H
    requires doSend ==> Matches(f, H[v.queue[0].lev])
    requires v.queue[0].lev in W && Matches(f, H[v.queue[0].lev]) ==> doSend
    requires var m := v.queue[0].lev; sent' == if doSend && m <= latest && m !in sent then sent + [m] else sent
    ensures SendsFront(f, H, W, latest, v, sent, sent')
  {
  }

  lemma StartKeeps(
    f: NostrFilter, H: EventTable, W: set<nat>, latest: nat, events: EventTable, ix: seq<Rec>,
    v: View, sent: seq<nat>, depth: nat, c: Cursor, more: seq<Rec>, v': View)
    requires ScanInv(f, H, W, latest, v, sent, {}) && v.next < |v.cursors| && depth > 0
    requires Submap(events, H) && W <= events.Keys && IsIndex(ix, PlanOf(f), events)
    requires Collected(f, ix, v.cursors[v.next], depth, c, more)
    requires v'.cursors == v.cursors[v.next := c] && v'.next == v.next + 1
    requires Combines(v'.queue, v.queue, ToCandidates(more, v.next))
    requires v'.next == |v.cursors| ==> QueueSorted(v'.queue)
    ensures ScanInv(f, H, W, latest, v', sent, {})
  {
    NothingQueued(f, v, v.next);
    RefillKeeps(f, H, W, latest, events, ix, v, sent, v.next, depth, c, more, v');
  }

  lemma NothingQueued(f: NostrFilter, v: View, i: nat)
    requires CursorsOk(f, v, {}) && i == v.next < |v.cursors|
    ensures Count(v.queue, i) == 0
  {
  }

  /** A query run to completion against one snapshot, pausing wherever it likes. */
  method RunQuery(db: Snapshot, filters: seq<NostrFilter>, latest: nat) returns (out: seq<nat>)
    requires ValidSnapshot(db) && forall f <- filters :: ValidFilter(f)
    ensures out == UnionOf(GroupResults(filters, db.events, latest))
  {
    var q := new DBQuery(filters, latest);
    Finish(q, db, db.events, db.events.Keys);
    out := q.out;
    TopsAreResults(filters, db.events, latest, q.tops);
  }

  /** Calls a query until it completes; the snapshot does not change any more. */
  method Finish(q: DBQuery, db: Snapshot, ghost H: EventTable, ghost W: set<nat>)
    requires q.Valid(H, W)
    requires ValidSnapshot(db) && Submap(db.events, H) && W <= db.events.Keys && WellFormedTable(H)
    modifies q, q.scanner
    ensures q.Valid(H, W) && q.filterGroupIndex == |q.filters|
  {
    var complete := false;
    while !complete
      invariant q.scanner == null || q.scanner == old(q.scanner) || fresh(q.scanner)
      invariant q.Valid(H, W)
      invariant complete ==> q.filterGroupIndex == |q.filters|
      decreases !complete, q.WorkLeft(db).0, q.WorkLeft(db).1, q.WorkLeft(db).2, q.WorkLeft(db).3
    {
      complete := CallOnce(q, db, H, W);
    }
  }

  predicate Fewer(a: (nat, nat, nat, nat), b: (nat, nat, nat, nat)) {
    a.0 < b.0 || (a.0 == b.0 && (a.1 < b.1 || (a.1 == b.1 && (a.2 < b.2 || (a.2 == b.2 && a.3 < b.3)))))
  }

  /** A call that does not complete leaves less to do. */
  method CallOnce(q: DBQuery, db: Snapshot, ghost H: EventTable, ghost W: set<nat>) returns (complete: bool)
    requires q.Valid(H, W)
    requires ValidSnapshot(db) && Submap(db.events, H) && W <= db.events.Keys && WellFormedTable(H)
    modifies q, q.scanner
    ensures q.Valid(H, W) && (q.scanner == null || q.scanner == old(q.scanner) || fresh(q.scanner))
    ensures complete ==> q.filterGroupIndex == |q.filters|
    ensures !complete ==> Fewer(q.WorkLeft(db), old(q.WorkLeft(db)))
  {
    complete := q.Process(db, H, W);
  }

  /** On a store that stays the same, answered is what the definition says. */
  lemma TopsAreResults(filters: seq<NostrFilter>, H: EventTable, latest: nat, tops: seq<seq<nat>>)
    requires |tops| == |filters| && Answered(filters, H, H.Keys, latest, tops)
    ensures tops == GroupResults(filters, H, latest)
  {
    forall k | 0 <= k < |filters| ensures tops[k] == FilterResult(filters[k], H, latest) {
      TopIsResult(filters[k], H, latest, tops[k]);
    }
  }

  /**
   `out` answers the group on a changing store, with history `H` and survivors `W`: nothing twice,
   nothing that does not match, and a survivor is left out only if its filter's limit is used up
   by newer events.
   */
  ghost predicate AnswersChanging(
    filters: seq<NostrFilter>, H: EventTable, W: set<nat>, latest: nat, out: seq<nat>)
  {
    && Distinct(out)
    && (forall m <- out :: m in H && m <= latest && MatchesAny(filters, H[m]))
    && forall m <- W, f <- filters | m in H && Eligible(f, H, latest, m) :: m in out || CutOff(f, H, latest, out, m)
  }

  /** Every event of the snapshots so far. */
  ghost function History(dbs: seq<Snapshot>): EventTable {
    if dbs == [] then map[] else History(dbs[..|dbs| - 1]) + dbs[|dbs| - 1].events
  }

  /** The events in every one of them. */
  ghost function Common(dbs: seq<Snapshot>): set<nat>
    requires dbs != []
  {
    if |dbs| == 1 then dbs[0].events.Keys else Common(dbs[..|dbs| - 1]) * dbs[|dbs| - 1].events.Keys
  }

  /** A levId means the same event wherever it is stored. */
  ghost predicate Consistent(dbs: seq<Snapshot>) {
    forall i, j, lev | 0 <= i < j < |dbs| && lev in dbs[i].events && lev in dbs[j].events ::
      dbs[i].events[lev] == dbs[j].events[lev]
  }

  lemma {:induction false} HistoryHas(dbs: seq<Snapshot>, lev: nat)
    requires lev in History(dbs)
    ensures exists i | 0 <= i < |dbs| :: lev in dbs[i].events && History(dbs)[lev] == dbs[i].events[lev]
    decreases |dbs|
  {
    var n := |dbs| - 1;
    if lev !in dbs[n].events {
      HistoryHas(dbs[..n], lev);
      var i :| 0 <= i < n && lev in dbs[..n][i].events && History(dbs[..n])[lev] == dbs[..n][i].events[lev];
      assert lev in dbs[i].events;
    }
  }

  /** One more snapshot adds to the history and takes from what is common. */
  lemma HistoryGrows(dbs: seq<Snapshot>, i: nat)
    requires 0 < i < |dbs| && Consistent(dbs)
    ensures Submap(History(dbs[..i]), History(dbs[..i + 1])) && Submap(dbs[i].events, History(dbs[..i + 1]))
    ensures Common(dbs[..i + 1]) <= Common(dbs[..i]) && Common(dbs[..i + 1]) <= dbs[i].events.Keys
  {
    var before, now := dbs[..i], dbs[..i + 1];
    assert now[..i] == before && now[i] == dbs[i];
    forall lev <- History(before) | lev in dbs[i].events ensures History(before)[lev] == dbs[i].events[lev] {
      HistoryHas(before, lev);
    }
  }

  lemma {:induction false} HistoryIsSound(dbs: seq<Snapshot>)
    requires dbs != [] && forall db <- dbs :: ValidSnapshot(db)
    ensures WellFormedTable(History(dbs)) && Common(dbs) <= History(dbs).Keys
    decreases |dbs|
  {
    var n := |dbs| - 1;
    assert dbs[n] in dbs;
    if n > 0 {
      HistoryIsSound(dbs[..n]);
    } else {
      assert dbs[..0] == [];
    }
  }

  /**
   A query whose every call may see a different snapshot. It is answered with respect to the
   snapshots it has seen: the history of all of them, and the events common to all.
   */
  method RunQueryWhileStoreChanges(dbs: seq<Snapshot>, filters: seq<NostrFilter>, latest: nat)
    returns (out: seq<nat>, complete: bool, calls: nat)
    requires Consistent(dbs) && (forall db <- dbs :: ValidSnapshot(db)) && forall f <- filters :: ValidFilter(f)
    ensures complete ==> 0 < calls
    ensures calls <= |dbs| && (!complete ==> calls == |dbs|)
    ensures complete ==> AnswersChanging(filters, History(dbs[..calls]), Common(dbs[..calls]), latest, out)
  {
    out, complete, calls := [], false, 0;
    if dbs == [] { return; }
    var q := new DBQuery(filters, latest);
    ghost var H, W;
    complete, calls, H, W := CallAll(q, dbs);
    out := q.out;
    if complete { ChangingAnswered(filters, H, W, latest, q.tops); }
  }

  /**
   The last snapshot stays for as long as the query needs. Then it completes, after finitely many
   calls more, and is answered with respect to the snapshots it has seen.
   */
  method RunQueryUntilSettled(dbs: seq<Snapshot>, filters: seq<NostrFilter>, latest: nat)
    returns (out: seq<nat>, seen: nat)
    requires dbs != [] && Usable(dbs) && forall f <- filters :: ValidFilter(f)
    ensures 0 < seen <= |dbs|
    ensures AnswersChanging(filters, History(dbs[..seen]), Common(dbs[..seen]), latest, out)
  {
    var q := new DBQuery(filters, latest);
    var complete;
    ghost var H, W;
    complete, seen, H, W := CallAll(q, dbs);
    if !complete {
      LastIsCovered(dbs, H, W);
      Finish(q, dbs[|dbs| - 1], H, W);
    }
    out := q.out;
    ChangingAnswered(filters, H, W, latest, q.tops);
  }

  lemma LastIsCovered(dbs: seq<Snapshot>, H: EventTable, W: set<nat>)
    requires Usable(dbs) && SeenFirst(dbs, |dbs|, H, W)
    ensures var db := dbs[|dbs| - 1];
      ValidSnapshot(db) && Submap(db.events, H) && W <= db.events.Keys && WellFormedTable(H)
  {
    var n := |dbs| - 1;
    assert dbs[..n + 1] == dbs && dbs[n] in dbs;
    HistoryIsSound(dbs);
    if n > 0 { HistoryGrows(dbs, n); } else { FirstCall(dbs); }
  }

  /** The history and the common events of the first n snapshots. */
  ghost predicate SeenFirst(dbs: seq<Snapshot>, n: nat, H: EventTable, W: set<nat>) {
    0 < n <= |dbs| && H == History(dbs[..n]) && W == Common(dbs[..n])
  }

  ghost predicate Usable(dbs: seq<Snapshot>) {
    Consistent(dbs) && forall db <- dbs :: ValidSnapshot(db)
  }

  /** Calls a new query with one snapshot after the other, until it completes. */
  method CallAll(q: DBQuery, dbs: seq<Snapshot>)
    returns (complete: bool, calls: nat, ghost H: EventTable, ghost W: set<nat>)
    requires dbs != [] && Usable(dbs) && q.Valid(History(dbs[..1]), Common(dbs[..1])) && q.scanner == null
    modifies q
    ensures SeenFirst(dbs, calls, H, W) && q.Valid(H, W) && (q.scanner == null || fresh(q.scanner))
    ensures complete ==> q.filterGroupIndex == |q.filters| && q.scanner == null
    ensures !complete ==> calls == |dbs|
  {
    complete, H, W := CallFirst(q, dbs);
    calls := 1;
    while calls < |dbs| && !complete
      invariant SeenFirst(dbs, calls, H, W) && q.Valid(H, W) && (q.scanner == null || fresh(q.scanner))
      invariant complete ==> q.filterGroupIndex == |q.filters| && q.scanner == null
      decreases |dbs| - calls
    {
      complete, H, W := CallAgain(q, dbs, calls, H, W);
      calls := calls + 1;
    }
  }

  method CallFirst(q: DBQuery, dbs: seq<Snapshot>) returns (complete: bool, ghost H: EventTable, ghost W: set<nat>)
    requires dbs != [] && Usable(dbs) && q.Valid(History(dbs[..1]), Common(dbs[..1])) && q.scanner == null
    modifies q
    ensures SeenFirst(dbs, 1, H, W) && q.Valid(H, W) && (q.scanner == null || fresh(q.scanner))
    ensures complete ==> q.filterGroupIndex == |q.filters| && q.scanner == null
  {
    FirstCall(dbs);
    H, W := History(dbs[..1]), Common(dbs[..1]);
    complete := q.Process(dbs[0], H, W);
  }

  /** The call that sees the i-th snapshot. */
  method CallAgain(q: DBQuery, dbs: seq<Snapshot>, i: nat, ghost H: EventTable, ghost W: set<nat>)
    returns (complete: bool, ghost H': EventTable, ghost W': set<nat>)
    requires i < |dbs| && Usable(dbs) && SeenFirst(dbs, i, H, W) && q.Valid(H, W)
    modifies q, q.scanner
    ensures SeenFirst(dbs, i + 1, H', W') && q.Valid(H', W')
    ensures q.scanner == null || q.scanner == old(q.scanner) || fresh(q.scanner)
    ensures complete ==> q.filterGroupIndex == |q.filters| && q.scanner == null
  {
    NextCall(dbs, i);
    H', W' := History(dbs[..i + 1]), Common(dbs[..i + 1]);
    complete := q.Resume(dbs[i], H, W, H', W');
  }

  lemma FirstCall(dbs: seq<Snapshot>)
    requires dbs != [] && forall db <- dbs :: ValidSnapshot(db)
    ensures History(dbs[..1]) == dbs[0].events && Common(dbs[..1]) == dbs[0].events.Keys &&
      WellFormedTable(dbs[0].events)
  {
    assert dbs[0] in dbs;
    assert dbs[..1] == [dbs[0]] && dbs[..1][..0] == [];
  }

  lemma NextCall(dbs: seq<Snapshot>, i: nat)
    requires 0 < i < |dbs| && Consistent(dbs) && forall db <- dbs :: ValidSnapshot(db)
    ensures Submap(History(dbs[..i]), History(dbs[..i + 1])) && Submap(dbs[i].events, History(dbs[..i + 1]))
    ensures Common(dbs[..i + 1]) <= Common(dbs[..i]) <= History(dbs[..i]).Keys
    ensures Common(dbs[..i + 1]) <= dbs[i].events.Keys && WellFormedTable(History(dbs[..i + 1])) &&
      ValidSnapshot(dbs[i])
  {
    HistoryGrows(dbs, i);
    HistoryIsSound(dbs[..i]);
    HistoryIsSound(dbs[..i + 1]);
  }

  lemma ChangingAnswered(
    filters: seq<NostrFilter>, H: EventTable, W: set<nat>, latest: nat, tops: seq<seq<nat>>)
    requires |tops| == |filters| && Answered(filters, H, W, latest, tops)
    ensures AnswersChanging(filters, H, W, latest, UnionOf(tops))
  {
    var out := UnionOf(tops);
    UnionOfUnites(tops);
    forall m <- out ensures m in H && m <= latest && MatchesAny(filters, H[m]) {
      var k :| 0 <= k < |tops| && m in tops[k];
      assert Eligible(filters[k], H, latest, m);
    }
    forall m <- W, f <- filters | m in H && Eligible(f, H, latest, m) ensures m in out || CutOff(f, H, latest, out, m) {
      var k :| 0 <= k < |filters| && filters[k] == f;
      forall o <- tops[k] ensures o in out { assert InSome(tops, o); }
      TopHasOrCutsOff(f, H, W, latest, tops[k], out, m);
      assert m in tops[k] ==> InSome(tops, m);
    }
  }
}
