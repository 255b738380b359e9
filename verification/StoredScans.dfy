/**
 The stored scans in every reachable state: the query of each subscription has answered for
 the snapshots its calls saw, and what of the answer was there when its turn came was sent.
 Nothing is assumed of a call but the contract of `Query.DBQuery.Process`.
 */
module StoredScans {
  import opened Seqs
  import opened Events
  import opened Filters
  import opened Index
  import opened ScanInvariant
  import opened QuerySpec
  import opened Query
  import opened Writes
  import opened LevIds
  import opened RelaySteps

  // ----- transactions against the store -----

  /** Of the levIds the transaction knows of, it holds whatever is stored now. */
  ghost predicate StillHolds(T: EventTable, events: EventTable) {
    && MaxLev(T.Keys) <= MaxLev(events.Keys)
    && forall lev <- events | lev <= MaxLev(T.Keys) :: lev in T && T[lev] == events[lev]
  }

  lemma StoreStepHolds(T: EventTable, s: StoreState, op: StoreOp)
    requires LevInv(s) && StillHolds(T, s.events)
    ensures StillHolds(T, StoreNext(s, op).events)
  {
    StoreStep(s, op);
    if op.Write? && Verdict(s.events, op.e, op.isRepeat) == Written {
      AcceptedShape(s.events, op.e);
    }
  }

  lemma StepHolds(T: EventTable, s: Relay, a: Action)
    requires LevInv(s.st) && Enabled(s, a) && StillHolds(T, s.st.events)
    ensures StillHolds(T, Next(s, a).st.events)
  {
    if a.StoreOp? {
      StoreStepHolds(T, s.st, a.op);
    } else {
      StoreUntouched(s, a);
    }
  }

  /** The worker's steps and the monitor's messages leave the store and the transactions alone. */
  lemma WorkerLeaves(s: Relay, a: Action)
    ensures var s' := AfterWorker(s, a); s'.st == s.st && s'.workerTxn == s.workerTxn && s'.monitorTxn == s.monitorTxn
    ensures |AfterWorker(s, a).insts| == |s.insts| + if a.WorkerAdd? then 1 else 0
  {
  }

  lemma MessageLeaves(s: Relay, events: EventTable, refused: bool)
    requires s.queue != []
    ensures var s' := AfterMessage(s, events, refused);
      s'.st == s.st && s'.workerTxn == s.workerTxn && s'.scanning == s.scanning && |s'.insts| == |s.insts|
  {
  }

  lemma StoreUntouched(s: Relay, a: Action)
    requires Enabled(s, a) && !a.StoreOp?
    ensures Next(s, a).st == s.st
  {
    WorkerLeaves(s, a);
    if a.MonitorMsg? { MessageLeaves(s, s.monitorTxn.value, a.refused); }
  }

  lemma HoldsThrough(A: EventTable, B: EventTable, C: EventTable)
    requires StillHolds(A, B) && StillHolds(B, C)
    ensures StillHolds(A, C)
  {
  }

  /** Both open transactions still hold. */
  ghost predicate TxnsHold(s: Relay) {
    StillHolds(s.workerTxn, s.st.events) && (s.monitorTxn.Some? ==> StillHolds(s.monitorTxn.value, s.st.events))
  }

  lemma TxnsStep(s: Relay, a: Action)
    requires LevInv(s.st) && Enabled(s, a) && TxnsHold(s)
    ensures TxnsHold(Next(s, a))
  {
    StepHolds(s.workerTxn, s, a);
    if s.monitorTxn.Some? { StepHolds(s.monitorTxn.value, s, a); }
    TxnsAfter(s, a);
  }

  lemma TxnsAfter(s: Relay, a: Action)
    requires Enabled(s, a)
    ensures Next(s, a).workerTxn == if a.WorkerTxn? then s.st.events else s.workerTxn
    ensures var t := Next(s, a).monitorTxn; t.None? || t == s.monitorTxn || (a.MonitorTxn? && t == Some(s.st.events))
  {
    WorkerLeaves(s, a);
    if a.MonitorMsg? { MessageLeaves(s, s.monitorTxn.value, a.refused); }
  }

  // ----- what a step does to an instance -----

  /** The query of instance i is called. */
  predicate IsCalled(s: Relay, a: Action, i: nat) {
    a.WorkerCall? && a.key in s.scanning && s.scanning[a.key] == i
  }

  predicate SameScan(x: Inst, y: Inst) {
    y.progress == x.progress && y.seen == x.seen && y.stored == x.stored
  }

  /** What a step may do to an instance: one more pass, over the monitor's transaction, or one more call. */
  ghost predicate Follows(s: Relay, a: Action, i: nat, x: Inst, y: Inst) {
    && y.key == x.key && y.filters == x.filters && y.snapshot == x.snapshot
    && (y.passes == x.passes ||
        (a.MonitorMsg? && s.monitorTxn.Some? && Addressed(s, i) &&
          y.passes == x.passes + [NextPass(x, s.monitorTxn.value)]))
    && (SameScan(x, y) || (IsCalled(s, a, i) && y == CallInst(x, a.db, a.p)))
  }

  /** The monitor's next message is about instance i: it brings it, or it is a change and i is live. */
  predicate Addressed(s: Relay, i: nat) {
    s.queue != [] && (s.queue[0] == NewSub(i) || IsLive(s, i))
  }

  ghost function NextPass(x: Inst, events: EventTable): Pass {
    Pass(events, Served(x), MaxLev(events.Keys))
  }

  lemma WorkerInst(s: Relay, a: Action, i: nat)
    requires i < |s.insts|
    ensures i < |AfterWorker(s, a).insts| && Follows(s, a, i, s.insts[i], AfterWorker(s, a).insts[i])
  {
    if a.WorkerCall? { CalledInst(s, a, i); }
  }

  lemma CalledInst(s: Relay, a: Action, i: nat)
    requires i < |s.insts| && a.WorkerCall?
    ensures i < |AfterWorker(s, a).insts| && Follows(s, a, i, s.insts[i], AfterWorker(s, a).insts[i])
  {
  }

  lemma NewSubInst(s: Relay, refused: bool, i: nat)
    requires s.monitorTxn.Some? && s.queue != [] && s.queue[0].NewSub? && i < |s.insts|
    ensures var s' := AfterMessage(s, s.monitorTxn.value, refused);
      i < |s'.insts| && Follows(s, MonitorMsg(refused), i, s.insts[i], s'.insts[i])
  {
  }

  lemma ChangeMessageInst(s: Relay, refused: bool, i: nat)
    requires s.monitorTxn.Some? && s.queue != [] && s.queue[0].DBChange? && i < |s.insts|
    ensures var s' := AfterMessage(s, s.monitorTxn.value, refused);
      i < |s'.insts| && Follows(s, MonitorMsg(refused), i, s.insts[i], s'.insts[i])
  {
  }

  lemma RemovalInst(s: Relay, refused: bool, i: nat)
    requires s.monitorTxn.Some? && s.queue != [] && (s.queue[0].RemoveSub? || s.queue[0].CloseConn?) && i < |s.insts|
    ensures var s' := AfterMessage(s, s.monitorTxn.value, refused);
      i < |s'.insts| && Follows(s, MonitorMsg(refused), i, s.insts[i], s'.insts[i])
  {
  }

  lemma InstAfter(s: Relay, a: Action, i: nat)
    requires Enabled(s, a) && i < |s.insts|
    ensures i < |Next(s, a).insts| && Follows(s, a, i, s.insts[i], Next(s, a).insts[i])
  {
    match a
    case MonitorMsg(refused) =>
      if s.queue[0].NewSub? { NewSubInst(s, refused, i); }
      else if s.queue[0].DBChange? { ChangeMessageInst(s, refused, i); }
      else { RemovalInst(s, refused, i); }
    case StoreOp(_) =>
    case WorkerTxn =>
    case NotifyChange =>
    case MonitorPop =>
    case MonitorTxn =>
    case _ => WorkerInst(s, a, i);
  }

  /** An instance begins with a REQ. */
  lemma FreshInst(s: Relay, a: Action, i: nat)
    requires Enabled(s, a) && |s.insts| <= i < |Next(s, a).insts|
    ensures a.WorkerAdd? && i == |s.insts| && Next(s, a).insts[i] == NewInst(a.key, a.filters, s.workerTxn)
  {
    WorkerLeaves(s, a);
    if a.MonitorMsg? { MessageLeaves(s, s.monitorTxn.value, a.refused); }
  }

  // ----- the scan of one instance -----

  /** A snapshot of a call: not older than the request, and not contradicted since. */
  ghost predicate SeenOk(db: Snapshot, txn: EventTable, snapshot: nat) {
    ValidSnapshot(db) && StillHolds(db.events, txn) && snapshot <= MaxLev(db.events.Keys)
  }

  /** Sent once each: part of what was put out, and all of it that is in `W`. */
  ghost predicate Sent(out: seq<nat>, stored: seq<nat>, W: set<nat>) {
    Distinct(stored) && (forall lev <- stored :: lev in out) && forall lev <- out | lev in W :: lev in stored
  }

  /** The query has answered as far as it has come, for all snapshots it saw. */
  ghost predicate AnswersSeen(x: Inst) {
    if x.seen == [] then x.progress == NotStarted && x.stored == []
    else
      && Answering(x.progress, x.filters, x.snapshot, History(x.seen), Common(x.seen))
      && Sent(x.progress.out, x.stored, Common(x.seen))
  }

  ghost predicate ScanOk(x: Inst, txn: EventTable) {
    && x.snapshot <= MaxLev(txn.Keys) && Consistent(x.seen)
    && (forall db <- x.seen :: SeenOk(db, txn, x.snapshot))
    && AnswersSeen(x)
  }

  lemma {:induction false} CommonInHistory(dbs: seq<Snapshot>)
    requires dbs != []
    ensures Common(dbs) <= History(dbs).Keys
    decreases |dbs|
  {
    if |dbs| > 1 { CommonInHistory(dbs[..|dbs| - 1]); }
  }

  lemma StartsAnswering(filters: seq<NostrFilter>, latest: nat, H: EventTable, W: set<nat>)
    ensures Answering(NotStarted, filters, latest, H, W)
  {
  }

  lemma {:induction false} PresentIs(levs: seq<nat>, events: EventTable)
    requires Distinct(levs)
    ensures Distinct(Present(levs, events))
    ensures forall lev :: lev in Present(levs, events) <==> lev in levs && lev in events
    decreases |levs|
  {
    if levs != [] {
      var n := |levs| - 1;
      PresentIs(levs[..n], events);
      assert levs == levs[..n] + [levs[n]];
    }
  }

  lemma Joined(a: seq<nat>, b: seq<nat>, before: seq<nat>, added: seq<nat>)
    requires Distinct(a) && Distinct(b) && Distinct(before + added)
    requires (forall x <- a :: x in before) && forall x <- b :: x in added
    ensures Distinct(a + b)
  {
    forall i, j | 0 <= i < j < |a + b| ensures (a + b)[i] != (a + b)[j] {
      if i < |a| <= j {
        assert a[i] in before && b[j - |a|] in added;
        var k :| 0 <= k < |before| && before[k] == a[i];
        var m :| 0 <= m < |added| && added[m] == b[j - |a|];
        assert (before + added)[k] != (before + added)[|before| + m];
      }
    }
  }

  lemma OutIsDistinct(p: Progress, filters: seq<NostrFilter>, latest: nat, H: EventTable, W: set<nat>)
    requires Answering(p, filters, latest, H, W)
    ensures Distinct(p.out)
  {
    UnionOfUnites(p.tops);
    AppendNewUnites(UnionOf(p.tops), p.curr);
  }

  /** What a call sends joins what was sent before. */
  lemma SentGrows(before: seq<nat>, out: seq<nat>, stored: seq<nat>, W: set<nat>, events: EventTable, W': set<nat>)
    requires before <= out && Distinct(out) && Sent(before, stored, W) && W' <= W && W' <= events.Keys
    ensures Sent(out, stored + Present(out[|before|..], events), W')
  {
    var added := out[|before|..];
    assert out == before + added;
    PresentIs(added, events);
    Joined(stored, Present(added, events), before, added);
  }

  lemma FirstSent(out: seq<nat>, events: EventTable)
    requires Distinct(out)
    ensures Sent(out, Present(out, events), events.Keys)
  {
    PresentIs(out, events);
  }

  /** One more snapshot does not contradict those seen before. */
  lemma StillConsistent(seen: seq<Snapshot>, db: Snapshot)
    requires Consistent(seen) && forall a <- seen :: StillHolds(a.events, db.events)
    ensures Consistent(seen + [db])
  {
    forall i, lev | 0 <= i < |seen| && lev in seen[i].events && lev in db.events
      ensures seen[i].events[lev] == db.events[lev]
    {
      assert seen[i] in seen && StillHolds(seen[i].events, db.events);
    }
  }

  /** Wherever a call is made, the snapshot it sees is one `DBQuery.Process` may be given. */
  lemma CallIsAllowed(x: Inst, txn: EventTable, db: Snapshot, p: Progress, complete: bool)
    requires ScanOk(x, txn) && CanCall(x, txn, db, p, complete)
    ensures var seen := x.seen + [db];
      && Consistent(seen) && Answering(x.progress, x.filters, x.snapshot, History(seen), Common(seen))
      && Submap(db.events, History(seen)) && Common(seen) <= db.events.Keys && WellFormedTable(History(seen))
  {
    StillConsistent(x.seen, db);
    SeenGrows(x.seen, db, x.seen + [db]);
    StillAnswering(x, x.seen + [db]);
  }

  lemma SeenGrows(before: seq<Snapshot>, db: Snapshot, seen: seq<Snapshot>)
    requires seen == before + [db] && Consistent(seen) && ValidSnapshot(db) && forall a <- before :: ValidSnapshot(a)
    ensures Submap(db.events, History(seen)) && Common(seen) <= db.events.Keys && WellFormedTable(History(seen))
    ensures before != [] ==> Submap(History(before), History(seen)) && Common(seen) <= Common(before)
  {
    var n := |before|;
    assert seen[..n] == before && seen[..n + 1] == seen;
    HistoryIsSound(seen);
    if n > 0 { HistoryGrows(seen, n); }
  }

  lemma StillAnswering(x: Inst, seen: seq<Snapshot>)
    requires AnswersSeen(x) && seen != []
    requires x.seen != [] ==> Submap(History(x.seen), History(seen)) && Common(seen) <= Common(x.seen)
    ensures Answering(x.progress, x.filters, x.snapshot, History(seen), Common(seen))
  {
    if x.seen == [] {
      StartsAnswering(x.filters, x.snapshot, History(seen), Common(seen));
    } else {
      CommonInHistory(x.seen);
      AnsweringSurvives(
        x.progress, x.filters, x.snapshot, History(x.seen), Common(x.seen), History(seen), Common(seen));
    }
  }

  /** A call keeps the query answering, for one snapshot more. */
  lemma CallKeepsScan(x: Inst, txn: EventTable, db: Snapshot, p: Progress, complete: bool)
    requires ScanOk(x, txn) && CanCall(x, txn, db, p, complete)
    ensures ScanOk(CallInst(x, db, p), txn) && CallInst(x, db, p).seen != []
    ensures complete ==> IsComplete(CallInst(x, db, p))
  {
    CallIsAllowed(x, txn, db, p, complete);
    CallIsMade(x, db, p, complete);
    SeenAfterCall(x, txn, db);
  }

  lemma CallIsMade(x: Inst, db: Snapshot, p: Progress, complete: bool)
    requires AnswersSeen(x) && Consistent(x.seen + [db])
    requires Called(
      x.progress, p, x.filters, x.snapshot, History(x.seen + [db]), Common(x.seen + [db]), complete)
    ensures AnswersSeen(CallInst(x, db, p)) && CallInst(x, db, p).seen != []
    ensures complete ==> IsComplete(CallInst(x, db, p))
  {
    var seen := x.seen + [db];
    OutIsDistinct(p, x.filters, x.snapshot, History(seen), Common(seen));
    CallSends(x, db, p);
  }

  lemma SeenAfterCall(x: Inst, txn: EventTable, db: Snapshot)
    requires ValidSnapshot(db) && db.events == txn && x.snapshot <= MaxLev(txn.Keys)
    requires forall a <- x.seen :: SeenOk(a, txn, x.snapshot)
    ensures forall a <- x.seen + [db] :: SeenOk(a, txn, x.snapshot)
  {
  }

  lemma CallSends(x: Inst, db: Snapshot, p: Progress)
    requires AnswersSeen(x) && Consistent(x.seen + [db]) && x.progress.out <= p.out && Distinct(p.out)
    ensures Sent(p.out, CallInst(x, db, p).stored, Common(x.seen + [db]))
  {
    var n, seen := |x.seen|, x.seen + [db];
    assert seen[..n] == x.seen && seen[..n + 1] == seen;
    if n == 0 {
      assert [] + Present(p.out, db.events) == Present(p.out, db.events);
      FirstSent(p.out, db.events);
    } else {
      HistoryGrows(seen, n);
      SentGrows(x.progress.out, p.out, x.stored, Common(x.seen), db.events, Common(seen));
    }
  }

  /** The query has been through all its filters. */
  ghost predicate IsComplete(x: Inst) {
    x.seen != [] && |x.progress.tops| == |x.filters| && x.progress.scan.None?
  }

  lemma SameScanOk(x: Inst, y: Inst, txn: EventTable)
    requires ScanOk(x, txn) && SameScan(x, y) && y.filters == x.filters && y.snapshot == x.snapshot
    ensures ScanOk(y, txn)
  {
  }

  lemma LaterTxnOk(x: Inst, txn: EventTable, txn': EventTable)
    requires ScanOk(x, txn) && StillHolds(txn, txn')
    ensures ScanOk(x, txn')
  {
    forall db <- x.seen ensures SeenOk(db, txn', x.snapshot) {
      assert SeenOk(db, txn, x.snapshot);
      HoldsThrough(db.events, txn, txn');
    }
  }

  // ----- every run -----

  ghost predicate ScansOk(s: Relay) {
    LevInv(s.st) && TxnsHold(s) && forall i | 0 <= i < |s.insts| :: ScanOk(s.insts[i], s.workerTxn)
  }

  lemma LevsStep(s: Relay, a: Action)
    requires LevInv(s.st) && Enabled(s, a)
    ensures LevInv(Next(s, a).st)
  {
    if a.StoreOp? { StoreStep(s.st, a.op); } else { StoreUntouched(s, a); }
  }

  lemma ScanStep(s: Relay, a: Action, i: nat)
    requires ScansOk(s) && Enabled(s, a) && i < |Next(s, a).insts|
    ensures ScanOk(Next(s, a).insts[i], s.workerTxn)
  {
    if i < |s.insts| {
      InstAfter(s, a, i);
      if IsCalled(s, a, i) {
        CallKeepsScan(s.insts[i], s.workerTxn, a.db, a.p, a.complete);
      }
      if SameScan(s.insts[i], Next(s, a).insts[i]) {
        SameScanOk(s.insts[i], Next(s, a).insts[i], s.workerTxn);
      }
    } else {
      FreshInst(s, a, i);
    }
  }

  lemma ScansStep(s: Relay, a: Action)
    requires ScansOk(s) && Enabled(s, a)
    ensures ScansOk(Next(s, a))
  {
    var s' := Next(s, a);
    LevsStep(s, a);
    TxnsStep(s, a);
    TxnsAfter(s, a);
    forall i | 0 <= i < |s'.insts| ensures ScanOk(s'.insts[i], s'.workerTxn) {
      ScanStep(s, a, i);
      if a.WorkerTxn? { LaterTxnOk(s'.insts[i], s.workerTxn, s'.workerTxn); }
    }
  }

  /** In every reachable state of every interleaving. */
  lemma {:induction false} RunScans(states: seq<Relay>, actions: seq<Action>, k: nat)
    requires IsRun(states, actions) && k < |states|
    ensures ScansOk(states[k])
  {
    if k > 0 {
      RunScans(states, actions, k - 1);
      assert StepOk(states, actions, k - 1);
      ScansStep(states[k - 1], actions[k - 1]);
    }
  }

  // ----- what was sent -----

  /** What was sent is up to the snapshot, and some filter matched it where the query saw it. */
  lemma StoredMatches(x: Inst, txn: EventTable, lev: nat)
    requires ScanOk(x, txn) && lev in x.stored
    ensures lev <= x.snapshot && exists db <- x.seen :: lev in db.events && MatchesAny(x.filters, db.events[lev])
  {
    var H := History(x.seen);
    PutOutMatches(x.progress, x.filters, x.snapshot, H, Common(x.seen), lev);
    HistoryHas(x.seen, lev);
    var k :| 0 <= k < |x.seen| && lev in x.seen[k].events && H[lev] == x.seen[k].events[lev];
    assert x.seen[k] in x.seen;
  }

  lemma PutOutMatches(p: Progress, filters: seq<NostrFilter>, latest: nat, H: EventTable, W: set<nat>, lev: nat)
    requires Answering(p, filters, latest, H, W) && lev in p.out
    ensures lev in H && lev <= latest && MatchesAny(filters, H[lev])
  {
    UnionOfUnites(p.tops);
    AppendNewUnites(UnionOf(p.tops), p.curr);
    if k :| 0 <= k < |p.tops| && lev in p.tops[k] {
      assert Eligible(filters[k], H, latest, lev) && filters[k] in filters;
    } else {
      assert lev in p.curr && Eligible(filters[|p.tops|], H, latest, lev) && filters[|p.tops|] in filters;
    }
  }

  lemma StoredBefore(x: Inst, txn: EventTable)
    requires ScanOk(x, txn)
    ensures forall lev <- x.stored :: lev <= x.snapshot
  {
    forall lev <- x.stored ensures lev <= x.snapshot { StoredMatches(x, txn, lev); }
  }
}
