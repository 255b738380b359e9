/**
 From REQ to live delivery: a subscription has been sent every matching event that is still
 stored, exactly once, counting what the stored scan of the worker and the passes of the
 monitor sent; only up to the snapshot, newer events may have used up a filter's limit.
 */
module Deliveries {
  import opened Seqs
  import opened Events
  import opened Filters
  import opened Nested
  import opened Index
  import opened IndexExists
  import opened ScanInvariant
  import opened QuerySpec
  import opened Query
  import opened Writes
  import opened LevIds
  import opened RelaySteps
  import opened StoredScans
  import opened Handoff

  // ----- passes against the store -----

  /** Every pass went up to the end of its transaction, which still holds. */
  ghost predicate PassesHold(s: Relay) {
    forall i, p | 0 <= i < |s.insts| && p in s.insts[i].passes ::
      p.hi <= MaxLev(p.events.Keys) && StillHolds(p.events, s.st.events)
  }

  lemma PassesStep(s: Relay, a: Action)
    requires Inv(s) && Enabled(s, a) && PassesHold(s) && TxnsHold(s)
    ensures PassesHold(Next(s, a))
  {
    var s' := Next(s, a);
    forall i, p | 0 <= i < |s'.insts| && p in s'.insts[i].passes
      ensures p.hi <= MaxLev(p.events.Keys) && StillHolds(p.events, s'.st.events)
    {
      if i < |s.insts| { InstAfter(s, a, i); } else { FreshInst(s, a, i); }
      StepHolds(p.events, s, a);
    }
  }

  // ----- the stored scan -----

  /** The action hands instance i over to the monitor. */
  predicate Completes(s: Relay, a: Action, i: nat) {
    IsCalled(s, a, i) && a.complete
  }

  /** The instance has left the worker for the monitor. */
  predicate HandedOver(s: Relay, i: nat) {
    Announced(s, i) || (i < |s.insts| && s.insts[i].passes != [])
  }

  lemma HandedOverBefore(s: Relay, a: Action, i: nat)
    requires Inv(s) && Enabled(s, a) && HandedOver(Next(s, a), i)
    ensures HandedOver(s, i) || Completes(s, a, i)
  {
    var s' := Next(s, a);
    if i < |s.insts| {
      InstAfter(s, a, i);
    } else if i < |s'.insts| {
      FreshInst(s, a, i);
    }
    if Announced(s', i) { AnnouncedBefore(s, a, i); }
  }

  lemma AnnouncedBefore(s: Relay, a: Action, i: nat)
    requires Enabled(s, a) && Announced(Next(s, a), i)
    ensures Announced(s, i) || Completes(s, a, i)
  {
  }

  lemma HandedOverEarlier(states: seq<Relay>, actions: seq<Action>, k: nat, i: nat)
    requires IsRun(states, actions) && k < |actions| && HandedOver(states[k + 1], i)
    ensures HandedOver(states[k], i) || Completes(states[k], actions[k], i)
  {
    RunKeeps(states, actions, k);
    assert StepOk(states, actions, k);
    HandedOverBefore(states[k], actions[k], i);
  }

  lemma NeverAtStart(states: seq<Relay>, actions: seq<Action>, i: nat)
    requires IsRun(states, actions)
    ensures !HandedOver(states[0], i)
  {
  }

  lemma {:induction false} WhenCompleted(states: seq<Relay>, actions: seq<Action>, n: nat, i: nat) returns (j: nat)
    requires IsRun(states, actions) && n < |states| && HandedOver(states[n], i)
    ensures j < n && Completes(states[j], actions[j], i)
  {
    NeverAtStart(states, actions, i);
    HandedOverEarlier(states, actions, n - 1, i);
    if Completes(states[n - 1], actions[n - 1], i) {
      j := n - 1;
    } else {
      j := WhenCompleted(states, actions, n - 1, i);
    }
  }

  predicate NotScanned(s: Relay, i: nat) {
    i < |s.insts| && forall k <- s.scanning :: s.scanning[k] != i
  }

  lemma NotScannedStays(s: Relay, a: Action, i: nat)
    requires Enabled(s, a) && NotScanned(s, i)
    ensures NotScanned(Next(s, a), i) && SameStored(s.insts[i], Next(s, a).insts[i])
  {
    InstAfter(s, a, i);
    ScanningAfter(s, a);
  }

  lemma ScanningAfter(s: Relay, a: Action)
    requires Enabled(s, a)
    ensures forall k <- Next(s, a).scanning ::
      Next(s, a).scanning[k] == |s.insts| || (k in s.scanning && Next(s, a).scanning[k] == s.scanning[k])
  {
  }

  lemma CompletedIsNotScanned(s: Relay, a: Action, i: nat)
    requires Inv(s) && Enabled(s, a) && Completes(s, a, i)
    ensures NotScanned(Next(s, a), i)
  {
  }

  predicate SameStored(x: Inst, y: Inst) {
    SameScan(x, y) && y.filters == x.filters && y.snapshot == x.snapshot
  }

  /** After the handover the stored part does not change any more. */
  lemma {:induction false} StoredIsFinal(states: seq<Relay>, actions: seq<Action>, j: nat, n: nat, i: nat)
    requires IsRun(states, actions) && j < n < |states| && Completes(states[j], actions[j], i)
    ensures i < |states[j + 1].insts| && NotScanned(states[n], i)
    ensures SameStored(states[j + 1].insts[i], states[n].insts[i])
    decreases n
  {
    if n - 1 == j {
      FinalNow(states, actions, j, i);
    } else {
      StoredIsFinal(states, actions, j, n - 1, i);
      FinalStays(states, actions, n - 1, i);
    }
  }

  lemma FinalNow(states: seq<Relay>, actions: seq<Action>, j: nat, i: nat)
    requires IsRun(states, actions) && j < |actions| && Completes(states[j], actions[j], i)
    ensures NotScanned(states[j + 1], i)
  {
    RunKeeps(states, actions, j);
    assert StepOk(states, actions, j);
    CompletedIsNotScanned(states[j], actions[j], i);
  }

  lemma FinalStays(states: seq<Relay>, actions: seq<Action>, k: nat, i: nat)
    requires IsRun(states, actions) && k < |actions| && NotScanned(states[k], i)
    ensures NotScanned(states[k + 1], i) && SameStored(states[k].insts[i], states[k + 1].insts[i])
  {
    assert StepOk(states, actions, k);
    NotScannedStays(states[k], actions[k], i);
  }

  // ----- every run -----

  /** What the monitor has been told of is complete. */
  ghost predicate HandedOverComplete(s: Relay) {
    forall i | 0 <= i < |s.insts| && HandedOver(s, i) :: IsComplete(s.insts[i])
  }

  lemma NotScannedOnceHandedOver(s: Relay, i: nat)
    requires Inv(s) && i < |s.insts| && HandedOver(s, i)
    ensures NotScanned(s, i)
  {
    if Announced(s, i) {
      var j :| 0 <= j < |s.queue| && s.queue[j] == NewSub(i);
    }
  }

  lemma CompleteStep(s: Relay, a: Action, i: nat)
    requires Good(s) && Enabled(s, a) && i < |Next(s, a).insts| && HandedOver(Next(s, a), i)
    ensures IsComplete(Next(s, a).insts[i])
  {
    HandedOverBefore(s, a, i);
    if HandedOver(s, i) {
      HandedOverIsInst(s, i);
      NotScannedOnceHandedOver(s, i);
      InstAfter(s, a, i);
    } else {
      CallKeepsScan(s.insts[i], s.workerTxn, a.db, a.p, true);
      InstAfter(s, a, i);
    }
  }

  lemma HandedOverIsInst(s: Relay, i: nat)
    requires Inv(s) && HandedOver(s, i)
    ensures i < |s.insts|
  {
    if Announced(s, i) {
      var j :| 0 <= j < |s.queue| && s.queue[j] == NewSub(i);
    }
  }

  ghost predicate Good(s: Relay) {
    Inv(s) && ScansOk(s) && PassesHold(s) && HandedOverComplete(s)
  }

  lemma GoodStep(s: Relay, a: Action)
    requires Good(s) && Enabled(s, a)
    ensures Good(Next(s, a))
  {
    StepKeeps(s, a);
    ScansStep(s, a);
    PassesStep(s, a);
    forall i | 0 <= i < |Next(s, a).insts| && HandedOver(Next(s, a), i)
      ensures IsComplete(Next(s, a).insts[i])
    {
      CompleteStep(s, a, i);
    }
  }

  lemma {:induction false} RunGood(states: seq<Relay>, actions: seq<Action>, k: nat)
    requires IsRun(states, actions) && k < |states|
    ensures Good(states[k])
  {
    if k > 0 {
      RunGood(states, actions, k - 1);
      assert StepOk(states, actions, k - 1);
      GoodStep(states[k - 1], actions[k - 1]);
    }
  }

  // ----- what was sent -----

  lemma {:induction false} InCommon(dbs: seq<Snapshot>, lev: nat, e: Event)
    requires dbs != [] && forall db <- dbs :: lev in db.events && db.events[lev] == e
    ensures lev in Common(dbs) && lev in History(dbs) && History(dbs)[lev] == e
    decreases |dbs|
  {
    var n := |dbs| - 1;
    assert dbs[n] in dbs && dbs[0] in dbs;
    if n > 0 { InCommon(dbs[..n], lev, e); }
  }

  /** Newer events that the filter matches, and that the query put out, have used up the filter's limit. */
  ghost predicate LimitUsedUp(x: Inst, f: NostrFilter, lev: nat) {
    && lev <= x.snapshot && lev in History(x.seen)
    && CutOff(f, History(x.seen), x.snapshot, x.progress.out, lev)
  }

  /** Every snapshot the query saw holds what is still stored up to its own snapshot. */
  lemma StillSeen(s: Relay, i: nat, lev: nat)
    requires ScansOk(s) && i < |s.insts| && s.insts[i].seen != []
    requires lev in s.st.events && lev <= s.insts[i].snapshot
    ensures lev in Common(s.insts[i].seen) && lev in History(s.insts[i].seen)
    ensures History(s.insts[i].seen)[lev] == s.st.events[lev]
  {
    var x := s.insts[i];
    forall db <- x.seen ensures lev in db.events && db.events[lev] == s.st.events[lev] {
      assert SeenOk(db, s.workerTxn, x.snapshot);
      HoldsThrough(db.events, s.workerTxn, s.st.events);
    }
    InCommon(x.seen, lev, s.st.events[lev]);
  }

  /** Up to the snapshot: sent by the stored scan, or cut off by a limit. */
  lemma StoredHas(s: Relay, i: nat, f: NostrFilter, lev: nat)
    requires ScansOk(s) && i < |s.insts| && IsComplete(s.insts[i]) && f in s.insts[i].filters
    requires lev in s.st.events && lev <= s.insts[i].snapshot && Matches(f, s.st.events[lev])
    ensures lev in s.insts[i].stored || LimitUsedUp(s.insts[i], f, lev)
  {
    var x := s.insts[i];
    StillSeen(s, i, lev);
    CompleteAnswers(x.progress, x.filters, x.snapshot, History(x.seen), Common(x.seen));
    assert Eligible(f, History(x.seen), x.snapshot, lev);
  }

  /** After it: sent by the one pass that covers it. */
  lemma SentHas(s: Relay, i: nat, lev: nat)
    requires Good(s) && i < |s.insts| && lev in s.st.events && MatchesAny(s.insts[i].filters, s.st.events[lev])
    requires s.insts[i].snapshot < lev <= Served(s.insts[i])
    ensures lev in s.insts[i].sent
  {
    var x := s.insts[i];
    var p := CoveringPass(x, lev);
    assert StillHolds(p.events, s.st.events);
    ReachedIsSent(x, p, lev);
  }

  lemma CoveringPass(x: Inst, lev: nat) returns (p: Pass)
    requires PassesTile(x) && x.snapshot < lev <= Served(x)
    ensures p in x.passes && p.lo < lev <= p.hi
  {
    TilesCover(x.snapshot, x.passes, Served(x));
    assert Handoff.Covered(x.passes, lev);
    p :| p in x.passes && p.lo < lev <= p.hi;
  }

  lemma ReachedIsSent(x: Inst, p: Pass, lev: nat)
    requires PassesTile(x) && p in x.passes && Reaches(p, x.filters, lev)
    ensures lev in x.sent
  {
    TilesDeliver(x.snapshot, x.filters, x.passes, Served(x));
    assert Reached(x.passes, x.filters, lev);
  }

  lemma {:induction false} OnceOnly(s: seq<nat>, lev: nat)
    requires Distinct(s)
    ensures multiset(s)[lev] == if lev in s then 1 else 0
    decreases |s|
  {
    if s != [] {
      var n := |s| - 1;
      assert s == s[..n] + [s[n]];
      OnceOnly(s[..n], lev);
    }
  }

  /** No levId is sent twice, and each that is sent matched where it was read. */
  lemma NothingElse(states: seq<Relay>, actions: seq<Action>, n: nat, i: nat, lev: nat)
    requires IsRun(states, actions) && n < |states| && i < |states[n].insts|
    requires var x := states[n].insts[i]; lev in x.stored + x.sent
    ensures var x := states[n].insts[i];
      && multiset(x.stored + x.sent)[lev] == 1
      && if lev <= x.snapshot then exists db <- x.seen :: lev in db.events && MatchesAny(x.filters, db.events[lev])
         else Reached(x.passes, x.filters, lev)
  {
    var s, x := states[n], states[n].insts[i];
    RunGood(states, actions, n);
    StoredBefore(x, s.workerTxn);
    TiledIsServed(x);
    CountBoth(s, i, lev);
    if lev in x.stored { StoredMatches(x, s.workerTxn, lev); }
  }

  /**
   In every reachable state, a subscription that was handed over has been sent exactly once every
   event that a filter of it matches, up to where it is served, and that is still stored: by the
   stored scan up to its snapshot, by the monitor after it. Only the stored scan can have left it
   out, and only if newer events have used up the limit of that filter.
   */
  lemma DeliveredExactlyOnce(
    states: seq<Relay>, actions: seq<Action>, n: nat, i: nat, f: NostrFilter, lev: nat)
    requires IsRun(states, actions) && n < |states| && i < |states[n].insts| && HandedOver(states[n], i)
    requires lev in states[n].st.events && lev <= Served(states[n].insts[i])
    requires f in states[n].insts[i].filters && Matches(f, states[n].st.events[lev])
    ensures var x := states[n].insts[i];
      multiset(x.stored + x.sent)[lev] == 1 || LimitUsedUp(x, f, lev)
  {
    var s, x := states[n], states[n].insts[i];
    RunGood(states, actions, n);
    if lev <= x.snapshot {
      StoredHas(s, i, f, lev);
    } else {
      SentHas(s, i, lev);
    }
    if lev in x.stored + x.sent { CountBoth(s, i, lev); }
  }

  /** A limit that covers the matching events the query saw leaves out none. */
  lemma DeliveredWithinLimit(
    states: seq<Relay>, actions: seq<Action>, n: nat, i: nat, f: NostrFilter, lev: nat)
    requires IsRun(states, actions) && n < |states| && i < |states[n].insts| && HandedOver(states[n], i)
    requires lev in states[n].st.events && lev <= Served(states[n].insts[i])
    requires f in states[n].insts[i].filters && Matches(f, states[n].st.events[lev])
    requires var x := states[n].insts[i]; f.limit >= |EligibleSet(f, History(x.seen), x.snapshot)|
    ensures var x := states[n].insts[i]; multiset(x.stored + x.sent)[lev] == 1
  {
    var s, x := states[n], states[n].insts[i];
    DeliveredExactlyOnce(states, actions, n, i, f, lev);
    RunGood(states, actions, n);
    if LimitUsedUp(x, f, lev) {
      StillSeen(s, i, lev);
      NotCutOff(f, History(x.seen), x.snapshot, x.progress.out, lev);
    }
  }

  lemma CountBoth(s: Relay, i: nat, lev: nat)
    requires Good(s) && i < |s.insts| && lev in s.insts[i].stored + s.insts[i].sent
    ensures var x := s.insts[i]; multiset(x.stored + x.sent)[lev] == 1
  {
    var x := s.insts[i];
    StoredBefore(x, s.workerTxn);
    TiledIsServed(x);
    assert ScanOk(x, s.workerTxn);
    OnceOnly(x.stored, lev);
    OnceOnly(x.sent, lev);
    assert multiset(x.stored + x.sent) == multiset(x.stored) + multiset(x.sent);
  }

  // ----- such runs exist -----

  lemma SeenOne(db: Snapshot)
    ensures History([db]) == db.events && Common([db]) == db.events.Keys
  {
    assert [db][..0] == [] && History([]) == map[];
    assert History([db]) == map[] + db.events;
  }

  /** The query that finds the one event of a store. */
  lemma FindsTheOne(f: NostrFilter, H: EventTable)
    requires H.Keys == {1} && Matches(f, H[1]) && f.limit > 0
    ensures Called(NotStarted, Progress([[1]], [], [1], None), [f], 1, H, H.Keys, true)
  {
    UnionOfOne(1);
    TopOfOne(f, H);
  }

  lemma UnionOfOne(m: nat)
    ensures UnionOf([[m]]) == [m] && AppendNew([m], []) == [m]
  {
    assert [[m]][..0] == [] && [m][..0] == [];
    assert AppendNew([], [m]) == [m];
  }

  lemma TopOfOne(f: NostrFilter, H: EventTable)
    requires H.Keys == {1} && Matches(f, H[1]) && f.limit > 0
    ensures TopOf(f, H, H.Keys, 1, [1])
  {
    assert 1 in H.Keys;
  }

  ghost function StartedOn(events: EventTable): Relay {
    Relay(StoreState(events, {}, events.Keys), events, map[], [], 0, None, None, map[], [])
  }

  lemma CanStartOn(events: EventTable)
    requires events.Keys == {1}
    ensures Initial(StartedOn(events)) && MaxLev(events.Keys) == 1
  {
    assert 1 in events.Keys;
  }

  /** A run in which a subscription is handed over, its one event sent: what the theorems ask of a run can be met. */
  lemma SomeRunDelivers(e: Event, f: NostrFilter, key: SubKey) returns (states: seq<Relay>, actions: seq<Action>)
    requires WellFormed(e) && ValidFilter(f) && Matches(f, e) && f.limit > 0
    ensures IsRun(states, actions) && |actions| == 2 && |states[2].insts| == 1 && HandedOver(states[2], 0)
    ensures states[2].st.events == map[1 := e] && states[2].insts[0].stored == [1] && f in states[2].insts[0].filters
  {
    var events: EventTable := map[1 := e];
    var db := SnapshotExists(events);
    CanStartOn(events);
    var s0 := StartedOn(events);
    var add, s1 := Asked(s0, key, f);
    var call, s2 := CalledOnce(s1, key, f, db);
    TwoSteps(s0, add, s1, call, s2);
    states, actions := [s0, s1, s2], [add, call];
  }

  lemma TwoSteps(s0: Relay, a: Action, s1: Relay, b: Action, s2: Relay)
    requires Initial(s0) && Enabled(s0, a) && s1 == Next(s0, a) && Enabled(s1, b) && s2 == Next(s1, b)
    ensures IsRun([s0, s1, s2], [a, b])
  {
    assert StepOk([s0, s1, s2], [a, b], 0) && StepOk([s0, s1, s2], [a, b], 1);
  }

  lemma CalledOnce(s: Relay, key: SubKey, f: NostrFilter, db: Snapshot) returns (call: Action, s': Relay)
    requires s.insts == [NewInst(key, [f], s.workerTxn)] && s.scanning == map[key := 0] && s.queue == []
    requires ValidSnapshot(db) && db.events == s.workerTxn && MaxLev(s.workerTxn.Keys) == 1 && ValidFilter(f)
    requires db.events.Keys == {1} && Matches(f, db.events[1]) && f.limit > 0
    ensures Enabled(s, call) && s' == Next(s, call) && s'.st == s.st && HandedOver(s', 0)
    ensures |s'.insts| == 1 && s'.insts[0].stored == [1] && s'.insts[0].filters == [f]
  {
    var p := Progress([[1]], [], [1], None);
    call := WorkerCall(key, db, p, true);
    SeenOne(db);
    FindsTheOne(f, db.events);
    assert [] + [db] == [db];
    assert CanCall(s.insts[0], s.workerTxn, db, p, true);
    s' := Next(s, call);
    assert [1][..0] == [] && Present([1], db.events) == [1];
    assert PutOut(NotStarted, p) == [1];
    assert NewSub(0) in s'.queue;
  }

  lemma Asked(s: Relay, key: SubKey, f: NostrFilter) returns (add: Action, s': Relay)
    requires s.insts == [] && s.scanning == map[]
    ensures add == WorkerAdd(key, [f]) && Enabled(s, add) && s' == Next(s, add)
    ensures s' == s.(insts := [NewInst(key, [f], s.workerTxn)], scanning := map[key := 0])
  {
    add := WorkerAdd(key, [f]);
    s' := Next(s, add);
  }
}
