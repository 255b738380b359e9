/**
 From the stored scan to the live passes: in every reachable state of the threads of
 `RelaySteps`, each subscription is served without gap or overlap.
 */
module Handoff {
  import opened Seqs
  import opened Events
  import opened Filters
  import opened Nested
  import opened MonitorSpec
  import opened Writes
  import opened LevIds
  import opened Index
  import opened Query
  import opened RelaySteps
  import opened StoredScans

  // ----- passes -----

  /** What the subscription has seen already is skipped, and the rest is delivered. */
  lemma {:induction false} LivePassDelivers(sub: Sub, events: EventTable, lo: nat, hi: nat)
    ensures LivePass(sub, events, lo, hi).0 == Delivered(events, sub.filters, Max(sub.latest, lo), hi)
    ensures sub.latest <= LivePass(sub, events, lo, hi).1 <= Max(sub.latest, hi)
    decreases hi
  {
    if hi > lo { LivePassDelivers(sub, events, lo, hi - 1); }
  }

  ghost function PassOutput(filters: seq<NostrFilter>, passes: seq<Pass>): seq<nat> {
    if passes == [] then [] else
      var p := passes[|passes| - 1];
      PassOutput(filters, passes[..|passes| - 1]) + Delivered(p.events, filters, p.lo, p.hi)
  }

  /** Consecutive passes, the first starting right after the snapshot, the last ending at `end`. */
  ghost predicate Tiles(snapshot: nat, passes: seq<Pass>, end: nat) {
    if passes == [] then end == snapshot else
      var p := passes[|passes| - 1];
      p.lo <= p.hi == end && Tiles(snapshot, passes[..|passes| - 1], p.lo)
  }

  /** The passes tile the levIds after the snapshot without gap or overlap, and made exactly what was sent. */
  ghost predicate PassesTile(x: Inst) {
    && Tiles(x.snapshot, x.passes, Served(x))
    && x.sent == PassOutput(x.filters, x.passes)
  }

  lemma AddPassTiles(x: Inst, events: EventTable, hi: nat)
    requires PassesTile(x) && Served(x) <= hi
    ensures PassesTile(AddPass(x, events, hi, Delivered(events, x.filters, Served(x), hi)))
  {
    var x' := AddPass(x, events, hi, Delivered(events, x.filters, Served(x), hi));
    assert x'.passes[..|x.passes|] == x.passes;
  }

  // ----- the invariant -----

  /** The newest levId the monitor can know of. */
  ghost function Horizon(s: Relay): nat {
    MaxLev((if s.monitorTxn.Some? then s.monitorTxn.value else s.st.events).Keys)
  }

  ghost predicate TxnsOk(s: Relay) {
    && LevInv(s.st) && s.taken <= |s.queue|
    && MaxLev(s.workerTxn.Keys) <= MaxLev(s.st.events.Keys)
    && Horizon(s) <= MaxLev(s.st.events.Keys)
    && (s.curr.Some? ==> s.curr.value <= Horizon(s))
    && (s.monitorTxn.Some? || s.monitors != map[] ==> s.curr.Some?)
  }

  ghost predicate ScanningOk(s: Relay) {
    forall k <- s.scanning ::
      && s.scanning[k] < |s.insts| && s.insts[s.scanning[k]].key == k
      && s.insts[s.scanning[k]].passes == []
      && s.insts[s.scanning[k]].snapshot <= MaxLev(s.st.events.Keys)
  }

  /** An instance in transit has had no pass yet, is announced once, and is no longer being scanned. */
  ghost predicate QueueOk(s: Relay) {
    && (forall j | 0 <= j < |s.queue| && s.queue[j].NewSub? ::
         && s.queue[j].inst < |s.insts|
         && s.insts[s.queue[j].inst].passes == []
         && s.insts[s.queue[j].inst].snapshot <= (if j < s.taken then Horizon(s) else MaxLev(s.st.events.Keys))
         && (forall k <- s.scanning :: s.scanning[k] != s.queue[j].inst))
    && (forall j, k | 0 <= j < k < |s.queue| && s.queue[j].NewSub? && s.queue[k].NewSub? ::
         s.queue[j].inst != s.queue[k].inst)
  }

  /** A live subscription has been served exactly up to its own or the monitor's last event. */
  ghost predicate MonitorsOk(s: Relay) {
    forall k <- s.monitors :: MonitorOk(s, k, s.monitors[k])
  }

  ghost predicate MonitorOk(s: Relay, k: SubKey, m: Monitor) {
    && m.inst < |s.insts| && s.insts[m.inst].key == k && s.insts[m.inst].passes != []
    && s.curr.Some? && Served(s.insts[m.inst]) == Max(m.latest, s.curr.value)
    && Served(s.insts[m.inst]) <= Horizon(s)
  }

  ghost predicate InstsOk(s: Relay) {
    && (forall i | 0 <= i < |s.insts| :: PassesTile(s.insts[i]))
    && (forall i | 0 <= i < |s.insts| && !s.insts[i].ended :: IsScanning(s, i) || Announced(s, i) || IsLive(s, i))
  }

  ghost predicate Inv(s: Relay) {
    TxnsOk(s) && ScanningOk(s) && QueueOk(s) && MonitorsOk(s) && InstsOk(s)
  }

  lemma StoreKeeps(s: Relay, op: StoreOp)
    requires Inv(s)
    ensures Inv(Next(s, StoreOp(op)))
  {
    StoreStep(s.st, op);
    StoreMoves(s, s.(st := StoreNext(s.st, op)));
  }

  lemma StoreMoves(s: Relay, s': Relay)
    requires Inv(s) && s' == s.(st := s'.st)
    requires LevInv(s'.st) && MaxLev(s.st.events.Keys) <= MaxLev(s'.st.events.Keys)
    ensures Inv(s')
  {
    InstsStay(s, s');
  }

  /** Nothing about where instances are has changed. */
  lemma InstsStay(s: Relay, s': Relay)
    requires InstsOk(s) && s'.insts == s.insts && s'.monitors == s.monitors && s'.scanning == s.scanning
    requires forall i: nat | Announced(s, i) :: Announced(s', i)
    ensures InstsOk(s')
  {
    forall i | 0 <= i < |s.insts| && !s'.insts[i].ended ensures IsScanning(s', i) || Announced(s', i) || IsLive(s', i) {
      assert IsScanning(s, i) || Announced(s, i) || IsLive(s, i);
    }
  }

  lemma PlumbingKeeps(s: Relay, a: Action)
    requires Inv(s) && Enabled(s, a) && (a.WorkerTxn? || a.MonitorPop?)
    ensures Inv(Next(s, a))
  {
    InstsStay(s, Next(s, a));
  }

  /** The monitor's position is never ahead of its transaction, so it is not moved back. */
  lemma MonitorTxnKeeps(s: Relay)
    requires Inv(s) && Enabled(s, MonitorTxn)
    ensures Inv(Next(s, MonitorTxn)) && (s.curr.Some? ==> Next(s, MonitorTxn).curr == s.curr)
  {
    InstsStay(s, Next(s, MonitorTxn));
  }

  /** Instances keep their key, snapshot and passes; more may be added at the end. */
  ghost predicate Alike(a: seq<Inst>, b: seq<Inst>) {
    && |a| <= |b|
    && forall i | 0 <= i < |a| :: b[i].key == a[i].key && b[i].passes == a[i].passes && b[i].snapshot == a[i].snapshot
  }

  lemma QueueStays(s: Relay, s': Relay)
    requires QueueOk(s) && Alike(s.insts, s'.insts)
    requires s'.queue == s.queue && s'.taken == s.taken && s'.st == s.st && s'.monitorTxn == s.monitorTxn
    requires forall k <- s'.scanning ::
      (k in s.scanning && s'.scanning[k] == s.scanning[k]) || s'.scanning[k] >= |s.insts|
    ensures QueueOk(s')
  {
  }

  lemma MonitorsStay(s: Relay, s': Relay)
    requires MonitorsOk(s) && Alike(s.insts, s'.insts)
    requires s'.st == s.st && s'.monitorTxn == s.monitorTxn && s'.curr == s.curr
    requires forall k <- s'.monitors :: k in s.monitors && s'.monitors[k] == s.monitors[k]
    ensures MonitorsOk(s')
  {
  }

  lemma ScanningStays(s: Relay, s': Relay)
    requires ScanningOk(s) && Alike(s.insts, s'.insts) && s'.st == s.st
    requires forall k <- s'.scanning :: k in s.scanning && s'.scanning[k] == s.scanning[k]
    ensures ScanningOk(s')
  {
  }

  lemma StoppedKeeps(s: Relay, keys: set<SubKey>)
    requires Inv(s)
    ensures Inv(Stopped(s, keys))
  {
    var s' := Stopped(s, keys);
    StoppedInsts(s, keys);
    QueueStays(s, s');
    MonitorsStay(s, s');
    ScanningStays(s, s');
  }

  lemma StoppedInsts(s: Relay, keys: set<SubKey>)
    requires InstsOk(s)
    ensures InstsOk(Stopped(s, keys))
  {
    var s' := Stopped(s, keys);
    forall i | 0 <= i < |s'.insts| ensures PassesTile(s'.insts[i]) { assert PassesTile(s.insts[i]); }
    forall i | 0 <= i < |s'.insts| && !s'.insts[i].ended
      ensures IsScanning(s', i) || Announced(s', i) || IsLive(s', i)
    {
      assert IsScanning(s, i) || Announced(s, i) || IsLive(s, i);
      assert i !in ScannedUnder(s, keys);
    }
  }

  lemma PushKeeps(s: Relay, m: Msg)
    requires Inv(s) && !m.NewSub?
    ensures Inv(s.(queue := s.queue + [m]))
  {
    InstsStay(s, s.(queue := s.queue + [m]));
  }

  function WithFresh(s: Relay, x: Inst): Relay {
    s.(insts := s.insts + [x], scanning := s.scanning[x.key := |s.insts|])
  }

  lemma AddKeeps(s: Relay, key: SubKey, filters: seq<NostrFilter>)
    requires Inv(s)
    ensures Inv(Next(s, WorkerAdd(key, filters)))
  {
    var x := NewInst(key, filters, s.workerTxn);
    StoppedKeeps(s, {key});
    AddFresh(Stopped(s, {key}), x);
    AddIsStopThenFresh(s, key, filters, x);
  }

  lemma AddIsStopThenFresh(s: Relay, key: SubKey, filters: seq<NostrFilter>, x: Inst)
    requires x == NewInst(key, filters, s.workerTxn)
    ensures Next(s, WorkerAdd(key, filters)) == WithFresh(Stopped(s, {key}), x)
  {
    assert s.scanning[key := |s.insts|] == (s.scanning - {key})[key := |s.insts|];
  }

  lemma AddFresh(s: Relay, x: Inst)
    requires Inv(s) && x.key !in s.scanning && x.snapshot <= MaxLev(s.st.events.Keys)
    requires x.sent == [] && x.passes == []
    ensures Inv(WithFresh(s, x))
  {
    var s' := WithFresh(s, x);
    QueueStays(s, s');
    MonitorsStay(s, s');
    FreshInsts(s, x);
  }

  lemma FreshInsts(s: Relay, x: Inst)
    requires InstsOk(s) && x.key !in s.scanning && x.sent == [] && x.passes == []
    ensures InstsOk(WithFresh(s, x))
  {
    var s' := WithFresh(s, x);
    forall i | 0 <= i < |s'.insts| && !s'.insts[i].ended
      ensures IsScanning(s', i) || Announced(s', i) || IsLive(s', i)
    {
      if i < |s.insts| { assert IsScanning(s, i) || Announced(s, i) || IsLive(s, i); }
    }
  }

  lemma CallKeeps(s: Relay, key: SubKey, db: Snapshot, p: Progress, complete: bool)
    requires Inv(s) && Enabled(s, WorkerCall(key, db, p, complete))
    ensures Inv(Next(s, WorkerCall(key, db, p, complete)))
  {
    AdvanceKeeps(s, key, db, p);
    if complete { CompleteKeeps(Advanced(s, key, db, p), key); }
  }

  lemma AdvanceKeeps(s: Relay, key: SubKey, db: Snapshot, p: Progress)
    requires Inv(s) && key in s.scanning && s.scanning[key] < |s.insts|
    ensures Inv(Advanced(s, key, db, p))
  {
    var s' := Advanced(s, key, db, p);
    QueueStays(s, s');
    MonitorsStay(s, s');
    ScanningStays(s, s');
    AdvanceInsts(s, key, db, p);
  }

  lemma AdvanceInsts(s: Relay, key: SubKey, db: Snapshot, p: Progress)
    requires InstsOk(s) && key in s.scanning && s.scanning[key] < |s.insts|
    ensures InstsOk(Advanced(s, key, db, p))
  {
    var s' := Advanced(s, key, db, p);
    forall i | 0 <= i < |s'.insts| ensures PassesTile(s'.insts[i]) { assert PassesTile(s.insts[i]); }
    forall i | 0 <= i < |s'.insts| && !s'.insts[i].ended
      ensures IsScanning(s', i) || Announced(s', i) || IsLive(s', i)
    {
      assert IsScanning(s, i) || Announced(s, i) || IsLive(s, i);
    }
  }

  lemma CompleteKeeps(s: Relay, key: SubKey)
    requires Inv(s) && key in s.scanning
    ensures Inv(HandedOn(s, key))
  {
    CompleteInsts(s, key);
    CompleteQueue(s, key);
  }

  /** The instance leaves the scan and is announced. */
  lemma CompleteInsts(s: Relay, key: SubKey)
    requires InstsOk(s) && key in s.scanning
    ensures InstsOk(HandedOn(s, key))
  {
    var s' := HandedOn(s, key);
    assert s'.queue[|s.queue|] == NewSub(s.scanning[key]);
    forall i | 0 <= i < |s'.insts| && !s'.insts[i].ended
      ensures IsScanning(s', i) || Announced(s', i) || IsLive(s', i)
    {
      assert IsScanning(s, i) || Announced(s, i) || IsLive(s, i);
    }
  }

  lemma CompleteQueue(s: Relay, key: SubKey)
    requires ScanningOk(s) && QueueOk(s) && s.taken <= |s.queue| && key in s.scanning
    ensures QueueOk(HandedOn(s, key)) && ScanningOk(HandedOn(s, key))
  {
    var s', n := HandedOn(s, key), |s.queue|;
    assert s'.queue[n] == NewSub(s.scanning[key]);
    assert forall j | 0 <= j < n :: s'.queue[j] == s.queue[j];
    assert Horizon(s') == Horizon(s);
  }

  lemma StopKeeps(s: Relay, a: Action)
    requires Inv(s) && (a.WorkerRemove? || a.WorkerClose?)
    ensures Inv(Next(s, a))
  {
    if a.WorkerRemove? {
      StopAndTell(s, {a.key}, RemoveSub(a.key), Next(s, a));
    } else {
      StopAndTell(s, ConnKeys(s.scanning, a.connId), CloseConn(a.connId), Next(s, a));
    }
  }

  lemma StopAndTell(s: Relay, keys: set<SubKey>, m: Msg, s': Relay)
    requires Inv(s) && !m.NewSub?
    requires s' == Stopped(s, keys).(queue := s.queue + [m])
    ensures Inv(s')
  {
    StoppedKeeps(s, keys);
    PushKeeps(Stopped(s, keys), m);
  }

  // ----- the monitor's messages -----

  /** Live subscriptions under some keys are dropped. */
  function Dropped(s: Relay, keys: set<SubKey>): Relay {
    s.(insts := EndAll(s.insts, LiveUnder(s, keys)), monitors := s.monitors - keys)
  }

  lemma DroppedKeeps(s: Relay, keys: set<SubKey>)
    requires Inv(s)
    ensures Inv(Dropped(s, keys))
  {
    var s' := Dropped(s, keys);
    DroppedInsts(s, keys);
    QueueStays(s, s');
    MonitorsStay(s, s');
    ScanningStays(s, s');
  }

  lemma DroppedInsts(s: Relay, keys: set<SubKey>)
    requires InstsOk(s)
    ensures InstsOk(Dropped(s, keys))
  {
    var s' := Dropped(s, keys);
    forall i | 0 <= i < |s'.insts| ensures PassesTile(s'.insts[i]) { assert PassesTile(s.insts[i]); }
    forall i | 0 <= i < |s'.insts| && !s'.insts[i].ended
      ensures IsScanning(s', i) || Announced(s', i) || IsLive(s', i)
    {
      assert IsScanning(s, i) || Announced(s, i) || IsLive(s, i);
      assert i !in LiveUnder(s, keys);
    }
  }

  /** Taking a handled message off the queue. */
  function Consumed(s: Relay): Relay
    requires s.taken > 0 && s.queue != []
  {
    s.(queue := s.queue[1..], taken := s.taken - 1, monitorTxn := if s.taken == 1 then None else s.monitorTxn)
  }

  lemma ConsumedKeeps(s: Relay)
    requires Inv(s) && s.taken > 0 && s.monitorTxn.Some? && s.queue != []
    requires s.queue[0].NewSub? && s.queue[0].inst < |s.insts| ==> s.insts[s.queue[0].inst].ended
    ensures Inv(Consumed(s))
  {
    var s' := Consumed(s);
    assert forall j | 0 <= j < |s'.queue| :: s'.queue[j] == s.queue[j + 1];
    forall i | 0 <= i < |s'.insts| && !s'.insts[i].ended
      ensures IsScanning(s', i) || Announced(s', i) || IsLive(s', i)
    {
      assert IsScanning(s, i) || Announced(s, i) || IsLive(s, i);
      assert s.queue == [s.queue[0]] + s'.queue;
    }
  }

  lemma RemovalKeeps(s: Relay, refused: bool)
    requires Inv(s) && Enabled(s, MonitorMsg(refused)) && (s.queue[0].RemoveSub? || s.queue[0].CloseConn?)
    ensures Inv(Next(s, MonitorMsg(refused)))
  {
    var keys := if s.queue[0].RemoveSub? then {s.queue[0].key} else ConnKeys(s.monitors, s.queue[0].connId);
    DroppedKeeps(s, keys);
    ConsumedKeeps(Dropped(s, keys));
    RemovalShape(s, refused, keys);
  }

  lemma RemovalShape(s: Relay, refused: bool, keys: set<SubKey>)
    requires Enabled(s, MonitorMsg(refused)) && (s.queue[0].RemoveSub? || s.queue[0].CloseConn?)
    requires keys == if s.queue[0].RemoveSub? then {s.queue[0].key} else ConnKeys(s.monitors, s.queue[0].connId)
    ensures Next(s, MonitorMsg(refused)) == Consumed(Dropped(s, keys))
  {
  }

  /** An announced instance leaves the queue before it is served. */
  function SetAside(s: Relay, i: nat): Relay
    requires i < |s.insts| && s.taken > 0 && s.queue != []
  {
    Consumed(s.(insts := s.insts[i := End(s.insts[i])]))
  }

  lemma SetAsideKeeps(s: Relay, i: nat)
    requires Inv(s) && s.taken > 0 && s.monitorTxn.Some? && s.queue != [] && s.queue[0] == NewSub(i)
    ensures i < |s.insts| && Inv(SetAside(s, i)) && Idle(SetAside(s, i), i)
    ensures s.insts[i].passes == [] && s.insts[i].snapshot <= Horizon(s)
  {
    var s0 := s.(insts := s.insts[i := End(s.insts[i])]);
    EndedKeeps(s, i);
    ConsumedKeeps(s0);
    assert forall j | 0 <= j < |s.queue| - 1 :: Consumed(s0).queue[j] == s.queue[j + 1];
  }

  lemma EndedKeeps(s: Relay, i: nat)
    requires Inv(s) && i < |s.insts|
    ensures Inv(s.(insts := s.insts[i := End(s.insts[i])]))
  {
    var s' := s.(insts := s.insts[i := End(s.insts[i])]);
    QueueStays(s, s');
    MonitorsStay(s, s');
    ScanningStays(s, s');
    EndedInsts(s, i);
  }

  lemma EndedInsts(s: Relay, i: nat)
    requires InstsOk(s) && i < |s.insts|
    ensures InstsOk(s.(insts := s.insts[i := End(s.insts[i])]))
  {
    var s' := s.(insts := s.insts[i := End(s.insts[i])]);
    forall j | 0 <= j < |s'.insts| ensures PassesTile(s'.insts[j]) { assert PassesTile(s.insts[j]); }
    forall j | 0 <= j < |s'.insts| && !s'.insts[j].ended
      ensures IsScanning(s', j) || Announced(s', j) || IsLive(s', j)
    {
      assert IsScanning(s, j) || Announced(s, j) || IsLive(s, j);
    }
  }

  /** Nothing refers to instance `i`. */
  ghost predicate Idle(s: Relay, i: nat) {
    && i < |s.insts| && s.insts[i].ended && !Announced(s, i) && !IsLive(s, i)
    && forall k <- s.scanning :: s.scanning[k] != i
  }

  lemma RewriteIdle(s: Relay, i: nat, x: Inst)
    requires Inv(s) && Idle(s, i) && x.ended && x.key == s.insts[i].key && PassesTile(x)
    ensures Inv(s.(insts := s.insts[i := x])) && Idle(s.(insts := s.insts[i := x]), i)
  {
    var s' := s.(insts := s.insts[i := x]);
    RewriteInsts(s, i, x);
    RewriteQueue(s, i, x);
    assert MonitorsOk(s') by {
      forall k <- s.monitors ensures s.monitors[k].inst != i {
        assert s.insts[s.monitors[k].inst].key == k;
      }
    }
  }

  lemma RewriteInsts(s: Relay, i: nat, x: Inst)
    requires InstsOk(s) && Idle(s, i) && x.ended && x.key == s.insts[i].key && PassesTile(x)
    ensures InstsOk(s.(insts := s.insts[i := x]))
  {
    var s' := s.(insts := s.insts[i := x]);
    forall j | 0 <= j < |s'.insts| && !s'.insts[j].ended
      ensures IsScanning(s', j) || Announced(s', j) || IsLive(s', j)
    {
      assert IsScanning(s, j) || Announced(s, j) || IsLive(s, j);
    }
  }

  lemma RewriteQueue(s: Relay, i: nat, x: Inst)
    requires QueueOk(s) && ScanningOk(s) && Idle(s, i)
    ensures QueueOk(s.(insts := s.insts[i := x])) && ScanningOk(s.(insts := s.insts[i := x]))
  {
    forall j | 0 <= j < |s.queue| && s.queue[j].NewSub? ensures s.queue[j].inst != i {
      assert s.queue[j] == NewSub(s.queue[j].inst);
    }
    assert Horizon(s.(insts := s.insts[i := x])) == Horizon(s);
  }

  function Installed(s: Relay, i: nat, latest: nat, ended: bool): Relay
    requires i < |s.insts|
  {
    s.(insts := s.insts[i := s.insts[i].(ended := ended)], monitors := s.monitors[s.insts[i].key := Monitor(i, latest)])
  }

  lemma InstalledKeeps(s: Relay, i: nat, latest: nat, ended: bool)
    requires Inv(s) && Idle(s, i) && s.insts[i].key !in s.monitors && s.insts[i].passes != []
    requires s.curr.Some? && s.curr.value <= latest == Served(s.insts[i]) <= Horizon(s)
    ensures Inv(Installed(s, i, latest, ended))
  {
    var s' := Installed(s, i, latest, ended);
    QueueStays(s, s');
    ScanningStays(s, s');
    InstalledInsts(s, i, latest, ended);
    InstalledMonitors(s, i, latest, ended);
  }

  lemma InstalledMonitors(s: Relay, i: nat, latest: nat, ended: bool)
    requires MonitorsOk(s) && i < |s.insts| && s.insts[i].key !in s.monitors && s.insts[i].passes != []
    requires s.curr.Some? && s.curr.value <= latest == Served(s.insts[i]) <= Horizon(s)
    ensures MonitorsOk(Installed(s, i, latest, ended))
  {
    var s' := Installed(s, i, latest, ended);
    assert Horizon(s') == Horizon(s);
    forall k <- s.monitors ensures s.monitors[k].inst != i {
      assert s.insts[s.monitors[k].inst].key == k;
    }
  }

  lemma InstalledInsts(s: Relay, i: nat, latest: nat, ended: bool)
    requires InstsOk(s) && i < |s.insts| && s.insts[i].key !in s.monitors
    ensures InstsOk(Installed(s, i, latest, ended))
  {
    var s' := Installed(s, i, latest, ended);
    forall j | 0 <= j < |s'.insts| ensures PassesTile(s'.insts[j]) { assert PassesTile(s.insts[j]); }
    forall j | 0 <= j < |s'.insts| && !s'.insts[j].ended
      ensures IsScanning(s', j) || Announced(s', j) || IsLive(s', j)
    {
      if j != i { assert IsScanning(s, j) || Announced(s, j) || IsLive(s, j); }
    }
  }

  /** The catch-up pass takes a new subscription from its snapshot to the monitor's. */
  lemma CatchUpKeeps(s: Relay, refused: bool)
    requires Inv(s) && Enabled(s, MonitorMsg(refused)) && s.queue[0].NewSub?
    ensures Inv(Next(s, MonitorMsg(refused)))
  {
    var i := s.queue[0].inst;
    var s1 := CaughtUp(s, i);
    CatchUpShape(s, refused, i, s1);
    DroppedKeeps(s1, {s.insts[i].key});
    if !refused {
      DroppedIdle(s1, {s.insts[i].key}, i);
      InstalledKeeps(Dropped(s1, {s.insts[i].key}), i, MaxLev(s.monitorTxn.value.Keys), s.insts[i].ended);
    }
  }

  ghost function CatchUp(x: Inst, events: EventTable): Inst {
    AddPass(x, events, MaxLev(events.Keys), Delivered(events, x.filters, x.snapshot, MaxLev(events.Keys)))
  }

  /** Off the queue, and served up to the monitor's transaction. */
  lemma CaughtUp(s: Relay, i: nat) returns (s1: Relay)
    requires Inv(s) && s.taken > 0 && s.monitorTxn.Some? && s.queue != [] && s.queue[0] == NewSub(i)
    ensures i < |s.insts| && s.insts[i].passes == []
    ensures s1 == SetAside(s, i).(insts := SetAside(s, i).insts[i := End(CatchUp(s.insts[i], s.monitorTxn.value))])
    ensures Inv(s1) && Idle(s1, i) && Horizon(s) <= Horizon(s1)
  {
    SetAsideKeeps(s, i);
    var x, events := s.insts[i], s.monitorTxn.value;
    AddPassTiles(x, events, MaxLev(events.Keys));
    var s0 := SetAside(s, i);
    RewriteIdle(s0, i, End(CatchUp(x, events)));
    s1 := s0.(insts := s0.insts[i := End(CatchUp(x, events))]);
    HorizonGrows(s, s1);
  }

  lemma HorizonGrows(s: Relay, s1: Relay)
    requires TxnsOk(s) && s1.st == s.st && (s1.monitorTxn == s.monitorTxn || s1.monitorTxn.None?)
    ensures Horizon(s) <= Horizon(s1)
  {
  }

  lemma DroppedIdle(s: Relay, keys: set<SubKey>, i: nat)
    requires Idle(s, i)
    ensures Idle(Dropped(s, keys), i) && Dropped(s, keys).insts[i] == s.insts[i]
  {
  }

  lemma CatchUpShape(s: Relay, refused: bool, i: nat, s1: Relay)
    requires Enabled(s, MonitorMsg(refused)) && s.queue[0] == NewSub(i) && i < |s.insts|
    requires MonitorsOk(s) && s.insts[i].passes == []
    requires s1 == SetAside(s, i).(insts := SetAside(s, i).insts[i := End(CatchUp(s.insts[i], s.monitorTxn.value))])
    ensures var x, latest := s.insts[i], MaxLev(s.monitorTxn.value.Keys);
      Next(s, MonitorMsg(refused)) ==
        if refused then Dropped(s1, {x.key}) else Installed(Dropped(s1, {x.key}), i, latest, x.ended)
  {
    var x, latest := s.insts[i], MaxLev(s.monitorTxn.value.Keys);
    var served, live := CatchUp(x, s.monitorTxn.value), LiveUnder(s, {x.key});
    assert s1.insts == s.insts[i := End(served)];
    assert LiveUnder(s1, {x.key}) == live && i !in live;
    EndOthers(s.insts, live, i, End(served), served);
    assert (s.monitors - {x.key})[x.key := Monitor(i, latest)] == s.monitors[x.key := Monitor(i, latest)];
  }

  lemma EndOthers(insts: seq<Inst>, who: set<nat>, i: nat, x: Inst, y: Inst)
    requires i < |insts| && i !in who
    ensures EndAll(insts[i := x], who) == EndAll(insts, who)[i := x]
    ensures EndAll(insts[i := x], who)[i := y] == EndAll(insts, who)[i := y]
  {
  }

  // ----- the live pass -----

  lemma ChangeKeeps(s: Relay, refused: bool)
    requires Inv(s) && Enabled(s, MonitorMsg(refused)) && s.queue[0].DBChange?
    ensures Inv(Next(s, MonitorMsg(refused)))
  {
    PassKeeps(s, refused);
    ConsumedKeeps(AfterMessage(s, s.monitorTxn.value, refused));
  }

  lemma PassKeeps(s: Relay, refused: bool)
    requires Inv(s) && Enabled(s, MonitorMsg(refused)) && s.queue[0].DBChange?
    ensures var s1 := AfterMessage(s, s.monitorTxn.value, refused);
      Inv(s1) && s1.queue == s.queue && s1.taken == s.taken && s1.monitorTxn == s.monitorTxn
    ensures Next(s, MonitorMsg(refused)) == Consumed(AfterMessage(s, s.monitorTxn.value, refused))
  {
    ChangeInsts(s, refused);
    ChangeMonitors(s, refused);
    ChangeOthers(s, refused);
  }

  lemma ChangeInsts(s: Relay, refused: bool)
    requires MonitorsOk(s) && InstsOk(s) && Enabled(s, MonitorMsg(refused)) && s.queue[0].DBChange? && s.curr.Some?
    ensures InstsOk(AfterMessage(s, s.monitorTxn.value, refused))
  {
    var s' := AfterMessage(s, s.monitorTxn.value, refused);
    forall i | 0 <= i < |s'.insts| ensures PassesTile(s'.insts[i]) {
      ChangeInst(s, refused, i);
    }
    forall i | 0 <= i < |s'.insts| && !s'.insts[i].ended
      ensures IsScanning(s', i) || Announced(s', i) || IsLive(s', i)
    {
      ChangeHeld(s, refused, i);
    }
  }

  lemma ChangeHeld(s: Relay, refused: bool, i: nat)
    requires InstsOk(s) && Enabled(s, MonitorMsg(refused)) && s.queue[0].DBChange? && s.curr.Some?
    requires i < |s.insts| && !AfterMessage(s, s.monitorTxn.value, refused).insts[i].ended
    ensures var s' := AfterMessage(s, s.monitorTxn.value, refused);
      IsScanning(s', i) || Announced(s', i) || IsLive(s', i)
  {
    assert IsScanning(s, i) || Announced(s, i) || IsLive(s, i);
  }

  lemma ChangeInst(s: Relay, refused: bool, i: nat)
    requires MonitorsOk(s) && i < |s.insts| && PassesTile(s.insts[i])
    requires Enabled(s, MonitorMsg(refused)) && s.queue[0].DBChange? && s.curr.Some?
    ensures PassesTile(AfterMessage(s, s.monitorTxn.value, refused).insts[i])
  {
    var events, x := s.monitorTxn.value, s.insts[i];
    if IsLive(s, i) {
      LivePassDelivers(Sub(x.filters, s.monitors[x.key].latest), events, s.curr.value, MaxLev(events.Keys));
      AddPassTiles(x, events, MaxLev(events.Keys));
    }
  }

  lemma ChangeMonitors(s: Relay, refused: bool)
    requires MonitorsOk(s) && Enabled(s, MonitorMsg(refused)) && s.queue[0].DBChange?
    ensures MonitorsOk(AfterMessage(s, s.monitorTxn.value, refused))
  {
    var s' := AfterMessage(s, s.monitorTxn.value, refused);
    forall k <- s'.monitors ensures MonitorOk(s', k, s'.monitors[k]) {
      ChangeMonitor(s, refused, k);
    }
  }

  lemma ChangeMonitor(s: Relay, refused: bool, k: SubKey)
    requires MonitorsOk(s) && Enabled(s, MonitorMsg(refused)) && s.queue[0].DBChange? && k in s.monitors
    ensures var s', i := AfterMessage(s, s.monitorTxn.value, refused), s.monitors[k].inst;
      && s'.monitors[k].inst == i && s'.monitors[k].latest <= MaxLev(s.monitorTxn.value.Keys)
      && s'.insts[i].key == k && s'.insts[i].passes != [] && Served(s'.insts[i]) == MaxLev(s.monitorTxn.value.Keys)
  {
    var x := s.insts[s.monitors[k].inst];
    assert IsLive(s, s.monitors[k].inst);
    LivePassDelivers(Sub(x.filters, s.monitors[k].latest), s.monitorTxn.value, s.curr.value,
      MaxLev(s.monitorTxn.value.Keys));
  }

  lemma ChangeOthers(s: Relay, refused: bool)
    requires Inv(s) && Enabled(s, MonitorMsg(refused)) && s.queue[0].DBChange?
    ensures var s' := AfterMessage(s, s.monitorTxn.value, refused); TxnsOk(s') && QueueOk(s') && ScanningOk(s')
  {
    OthersStay(s, AfterMessage(s, s.monitorTxn.value, refused));
  }

  /** Only instances that had a pass have changed, and the monitor is at its transaction. */
  lemma OthersStay(s: Relay, s': Relay)
    requires TxnsOk(s) && QueueOk(s) && ScanningOk(s) && s.monitorTxn.Some? && |s'.insts| == |s.insts|
    requires forall i | 0 <= i < |s.insts| && s.insts[i].passes == [] :: s'.insts[i] == s.insts[i]
    requires s' == s.(insts := s'.insts, monitors := s'.monitors, curr := Some(MaxLev(s.monitorTxn.value.Keys)))
    ensures TxnsOk(s') && QueueOk(s') && ScanningOk(s')
  {
    assert Horizon(s') == Horizon(s);
  }

  // ----- every run -----

  lemma StepKeeps(s: Relay, a: Action)
    requires Inv(s) && Enabled(s, a)
    ensures Inv(Next(s, a))
  {
    match a
    case StoreOp(op) => StoreKeeps(s, op);
    case WorkerTxn => PlumbingKeeps(s, a);
    case WorkerAdd(key, filters) => AddKeeps(s, key, filters);
    case WorkerRefuse(key) => StoppedKeeps(s, {key});
    case WorkerCall(key, db, p, complete) => CallKeeps(s, key, db, p, complete);
    case WorkerRemove(key) => StopKeeps(s, a);
    case WorkerClose(connId) => StopKeeps(s, a);
    case NotifyChange => PushKeeps(s, DBChange);
    case MonitorPop => PlumbingKeeps(s, a);
    case MonitorTxn => MonitorTxnKeeps(s);
    case MonitorMsg(refused) =>
      match s.queue[0]
      case NewSub(_) => CatchUpKeeps(s, refused);
      case RemoveSub(_) => RemovalKeeps(s, refused);
      case CloseConn(_) => RemovalKeeps(s, refused);
      case DBChange => ChangeKeeps(s, refused);
  }

  lemma {:induction false} RunKeeps(states: seq<Relay>, actions: seq<Action>, k: nat)
    requires IsRun(states, actions) && k < |states|
    ensures Inv(states[k])
  {
    if k > 0 {
      RunKeeps(states, actions, k - 1);
      assert StepOk(states, actions, k - 1);
      StepKeeps(states[k - 1], actions[k - 1]);
    }
  }

  ghost predicate Increasing(s: seq<nat>) {
    forall i, j | 0 <= i < j < |s| :: s[i] < s[j]
  }

  lemma {:induction false} DeliveredExactly(events: EventTable, filters: seq<NostrFilter>, lo: nat, hi: nat)
    ensures Increasing(Delivered(events, filters, lo, hi))
    ensures forall lev :: lev in Delivered(events, filters, lo, hi) <==>
      lo < lev <= hi && lev in events && MatchesAny(filters, events[lev])
    decreases hi
  {
    if hi > lo {
      DeliveredExactly(events, filters, lo, hi - 1);
      AppendsLarger(Delivered(events, filters, lo, hi - 1), hi);
    }
  }

  lemma AppendsLarger(before: seq<nat>, lev: nat)
    requires Increasing(before) && forall x <- before :: x < lev
    ensures Increasing(before + [lev])
  {
    assert forall i | 0 <= i < |before| :: before[i] in before;
  }

  /** Pass `p` reaches the event when it is stored and matches. */
  predicate Reaches(p: Pass, filters: seq<NostrFilter>, lev: nat) {
    p.lo < lev <= p.hi && lev in p.events && MatchesAny(filters, p.events[lev])
  }

  predicate Reached(passes: seq<Pass>, filters: seq<NostrFilter>, lev: nat) {
    exists p <- passes :: Reaches(p, filters, lev)
  }

  predicate Covered(passes: seq<Pass>, lev: nat) {
    exists p <- passes :: p.lo < lev <= p.hi
  }

  /** The passes cover each levId up to `end` once. */
  lemma {:induction false} TilesCover(snapshot: nat, passes: seq<Pass>, end: nat)
    requires Tiles(snapshot, passes, end)
    ensures snapshot <= end && forall p <- passes :: snapshot <= p.lo <= p.hi <= end
    ensures forall lev: nat :: Covered(passes, lev) <==> snapshot < lev <= end
    ensures forall i, j | 0 <= i < j < |passes| :: passes[i].hi <= passes[j].lo
    decreases |passes|
  {
    if passes != [] {
      var p, before := passes[|passes| - 1], passes[..|passes| - 1];
      TilesCover(snapshot, before, p.lo);
      assert passes == before + [p];
      forall lev: nat ensures Covered(passes, lev) <==> Covered(before, lev) || p.lo < lev <= p.hi {
        if q :| q in before && q.lo < lev <= q.hi { assert q in passes; }
        if p.lo < lev <= p.hi { assert p in passes; }
      }
    }
  }

  /** What the passes send is what they reach, in levId order. */
  lemma {:induction false} TilesDeliver(snapshot: nat, filters: seq<NostrFilter>, passes: seq<Pass>, end: nat)
    requires Tiles(snapshot, passes, end)
    ensures Increasing(PassOutput(filters, passes))
    ensures forall lev :: lev in PassOutput(filters, passes) <==> Reached(passes, filters, lev)
    decreases |passes|
  {
    if passes != [] {
      var p, before := passes[|passes| - 1], passes[..|passes| - 1];
      TilesDeliver(snapshot, filters, before, p.lo);
      TilesCover(snapshot, before, p.lo);
      DeliveredExactly(p.events, filters, p.lo, p.hi);
      var out, last := PassOutput(filters, before), Delivered(p.events, filters, p.lo, p.hi);
      ReachedLast(passes, filters);
      forall i, j | 0 <= i < j < |out + last| ensures (out + last)[i] < (out + last)[j] {
        if i < |out| <= j {
          assert out[i] in out && last[j - |out|] in last;
          assert Reached(before, filters, out[i]);
          assert Covered(before, out[i]);
        }
      }
    }
  }

  lemma ReachedLast(passes: seq<Pass>, filters: seq<NostrFilter>)
    requires passes != []
    ensures forall lev :: Reached(passes, filters, lev) <==>
      Reached(passes[..|passes| - 1], filters, lev) || Reaches(passes[|passes| - 1], filters, lev)
  {
    var p, before := passes[|passes| - 1], passes[..|passes| - 1];
    assert passes == before + [p];
    forall lev: nat
      ensures Reached(passes, filters, lev) <==> Reached(before, filters, lev) || Reaches(p, filters, lev)
    {
      if q :| q in before && Reaches(q, filters, lev) { assert q in passes; }
      if Reaches(p, filters, lev) { assert p in passes; }
    }
  }

  /**
   Stored events stop at the snapshot. After it, in levId order and once each, exactly the
   matching events were sent that were stored when the one pass covering their levId was made;
   and the passes cover every levId up to where the subscription has been served.
   */
  ghost predicate ServedExactly(x: Inst) {
    && (forall lev <- x.stored :: lev <= x.snapshot)
    && Increasing(x.sent) && (forall lev <- x.sent :: x.snapshot < lev <= Served(x))
    && (forall lev :: lev in x.sent <==> Reached(x.passes, x.filters, lev))
    && (forall lev: nat :: Covered(x.passes, lev) <==> x.snapshot < lev <= Served(x))
    && (forall a, b | 0 <= a < b < |x.passes| :: x.passes[a].hi <= x.passes[b].lo)
  }

  lemma TiledIsServed(x: Inst)
    requires PassesTile(x) && forall lev <- x.stored :: lev <= x.snapshot
    ensures ServedExactly(x)
  {
    TilesCover(x.snapshot, x.passes, Served(x));
    TilesDeliver(x.snapshot, x.filters, x.passes, Served(x));
    forall lev <- x.sent ensures Covered(x.passes, lev) {
      assert Reached(x.passes, x.filters, lev);
    }
  }

  /**
   In every reachable state, for every instance ever accepted: it has been served exactly; and
   unless it ended it is being scanned, on its way to the monitor, or live and served up to its
   own or the monitor's position.
   */
  lemma SubscriptionServedExactlyOnce(states: seq<Relay>, actions: seq<Action>, k: nat, i: nat)
    requires IsRun(states, actions) && k < |states| && i < |states[k].insts|
    ensures var s, x := states[k], states[k].insts[i];
      && ServedExactly(x)
      && (!x.ended ==> IsScanning(s, i) || Announced(s, i) || IsLive(s, i))
      && (IsLive(s, i) ==> s.curr.Some? && Served(x) == Max(s.monitors[x.key].latest, s.curr.value))
  {
    RunKeeps(states, actions, k);
    RunScans(states, actions, k);
    StoredBefore(states[k].insts[i], states[k].workerTxn);
    TiledIsServed(states[k].insts[i]);
  }

  /** After a change notice is handled, every live subscription is served up to the transaction it was handled in. */
  lemma ChangeServesAll(s: Relay, refused: bool, i: nat)
    requires Inv(s) && Enabled(s, MonitorMsg(refused)) && s.queue[0].DBChange? && IsLive(s, i)
    ensures var s' := Next(s, MonitorMsg(refused));
      IsLive(s', i) && Served(s'.insts[i]) == MaxLev(s.monitorTxn.value.Keys)
  {
    ChangeMonitor(s, refused, s.insts[i].key);
  }
}
