/**
 The life of a subscription across threads: the stored-events scan of the ReqWorker
 (src/apps/relay/RelayReqWorker.cpp), the message to the ReqMonitor, its catch-up
 scan and its live passes (src/apps/relay/RelayReqMonitor.cpp), while the writer and
 the expiry pass change the store.

 The threads are a state machine whose steps interleave freely. A connection's
 messages always go to the same worker and the same monitor thread, so one of each
 is modelled. Each thread reads the store through transactions of its own. Every
 accepted REQ is an instance; its deliveries are logged with the passes that made them,
 and its stored scan with the snapshots that the calls of its query saw.
 */
module RelaySteps {
  import opened Events
  import opened Filters
  import opened Nested
  import opened MonitorSpec
  import opened Index
  import opened Query
  import opened Writes
  import opened LevIds

  /** One scan of the event table over the levIds in (lo, hi], in one snapshot. */
  datatype Pass = Pass(events: EventTable, lo: nat, hi: nat)

  datatype Inst = Inst(
    key: SubKey, filters: seq<NostrFilter>,
    snapshot: nat,       // sub.latestEventId when the stored scan began
    progress: Progress,  // how far the query has come
    seen: seq<Snapshot>, // the snapshots its calls have seen
    stored: seq<nat>,    // sent before EOSE
    sent: seq<nat>,      // sent after EOSE
    passes: seq<Pass>,   // the catch-up and live passes so far
    ended: bool)         // removed, replaced, refused or disconnected

  datatype Msg = NewSub(inst: nat) | RemoveSub(key: SubKey) | CloseConn(connId: nat) | DBChange

  datatype Monitor = Monitor(inst: nat, latest: nat)

  datatype Relay = Relay(
    st: StoreState,
    workerTxn: EventTable,
    scanning: map<SubKey, nat>,       // queries of the worker, by instance
    queue: seq<Msg>, taken: nat,      // messages to the monitor; the first `taken` have been popped
    monitorTxn: Option<EventTable>,
    curr: Option<nat>,                // currEventId; None is the initial MAX_U64
    monitors: map<SubKey, Monitor>,
    insts: seq<Inst>)

  datatype Action =
    | StoreOp(op: StoreOp)
    | WorkerTxn
    | WorkerAdd(key: SubKey, filters: seq<NostrFilter>)
    | WorkerRefuse(key: SubKey)       // too many REQs; an old one of the same name is dead even so
    | WorkerCall(key: SubKey, db: Snapshot, p: Progress, complete: bool)   // one `process` of the query
    | WorkerRemove(key: SubKey)
    | WorkerClose(connId: nat)
    | NotifyChange
    | MonitorPop
    | MonitorTxn
    | MonitorMsg(refused: bool)

  // ----- passes -----

  /** The levIds in (lo, hi] whose event is in the table and matches, in increasing order. */
  ghost function Delivered(events: EventTable, filters: seq<NostrFilter>, lo: nat, hi: nat): seq<nat> {
    if hi <= lo then [] else
      Delivered(events, filters, lo, hi - 1) +
      if hi in events && MatchesAny(filters, events[hi]) then [hi] else []
  }

  /** A live pass over (lo, hi] as the monitor makes it: one event after another, each sent if due. */
  ghost function LivePass(sub: Sub, events: EventTable, lo: nat, hi: nat): (seq<nat>, nat) {
    if hi <= lo then ([], sub.latest) else
      var (sent, latest) := LivePass(sub, events, lo, hi - 1);
      if hi in events && Due(Sub(sub.filters, latest), events[hi], hi) then (sent + [hi], hi) else (sent, latest)
  }

  /** How far the subscription has been served. */
  function Served(x: Inst): nat {
    if x.passes == [] then x.snapshot else x.passes[|x.passes| - 1].hi
  }

  function AddPass(x: Inst, events: EventTable, hi: nat, out: seq<nat>): Inst {
    x.(passes := x.passes + [Pass(events, Served(x), hi)], sent := x.sent + out)
  }

  // ----- calls of a query -----

  ghost function NewInst(key: SubKey, filters: seq<NostrFilter>, workerTxn: EventTable): Inst {
    Inst(key, filters, MaxLev(workerTxn.Keys), NotStarted, [], [], [], [], false)
  }

  /**
   One call, the last of these snapshots being the one it sees. `Called` is what the contract of
   `DBQuery.Process` gives for a query that is `Answering`.
   */
  ghost predicate CallOk(
    p: Progress, p': Progress, filters: seq<NostrFilter>, latest: nat, seen: seq<Snapshot>, complete: bool)
    requires seen != []
  {
    Answering(p, filters, latest, History(seen), Common(seen)) ==>
      Called(p, p', filters, latest, History(seen), Common(seen), complete)
  }

  /** The call sees the worker's transaction. */
  ghost predicate CanCall(x: Inst, txn: EventTable, db: Snapshot, p: Progress, complete: bool) {
    && db.events == txn && ValidSnapshot(db) && (forall f <- x.filters :: ValidFilter(f))
    && CallOk(x.progress, p, x.filters, x.snapshot, x.seen + [db], complete)
  }

  /** What of some levIds is in a table. */
  function Present(levs: seq<nat>, events: EventTable): seq<nat> {
    if levs == [] then []
    else Present(levs[..|levs| - 1], events) + if levs[|levs| - 1] in events then [levs[|levs| - 1]] else []
  }

  /** What a call added to the output. */
  function PutOut(p: Progress, p': Progress): seq<nat> {
    if |p.out| <= |p'.out| then p'.out[|p.out|..] else []
  }

  /** Of what the call puts out, what is still in its snapshot is sent. */
  function CallInst(x: Inst, db: Snapshot, p: Progress): Inst {
    x.(progress := p, seen := x.seen + [db], stored := x.stored + Present(PutOut(x.progress, p), db.events))
  }

  // ----- steps -----

  function End(x: Inst): Inst {
    x.(ended := true)
  }

  predicate IsLive(s: Relay, i: nat) {
    i < |s.insts| && s.insts[i].key in s.monitors && s.monitors[s.insts[i].key].inst == i
  }

  function EndAll(insts: seq<Inst>, who: set<nat>): seq<Inst> {
    seq(|insts|, i requires 0 <= i < |insts| => if i in who then End(insts[i]) else insts[i])
  }

  /** The instances being scanned under the given keys. */
  function ScannedUnder(s: Relay, keys: set<SubKey>): set<nat> {
    set k <- s.scanning | k in keys :: s.scanning[k]
  }

  function LiveUnder(s: Relay, keys: set<SubKey>): set<nat> {
    set k <- s.monitors | k in keys :: s.monitors[k].inst
  }

  function ConnKeys<V>(m: map<SubKey, V>, connId: nat): set<SubKey> {
    set k <- m | k.connId == connId
  }

  /** Scans under some keys are given up. */
  function Stopped(s: Relay, keys: set<SubKey>): Relay {
    s.(insts := EndAll(s.insts, ScannedUnder(s, keys)), scanning := s.scanning - keys)
  }

  function Advanced(s: Relay, key: SubKey, db: Snapshot, p: Progress): Relay
    requires key in s.scanning && s.scanning[key] < |s.insts|
  {
    var i := s.scanning[key];
    s.(insts := s.insts[i := CallInst(s.insts[i], db, p)])
  }

  /** The query is complete and goes to the monitor. */
  function HandedOn(s: Relay, key: SubKey): Relay
    requires key in s.scanning
  {
    s.(scanning := s.scanning - {key}, queue := s.queue + [NewSub(s.scanning[key])])
  }

  ghost function AfterWorker(s: Relay, a: Action): Relay {
    match a
    case WorkerAdd(key, filters) =>
      s.(insts := EndAll(s.insts, ScannedUnder(s, {key})) + [NewInst(key, filters, s.workerTxn)],
         scanning := s.scanning[key := |s.insts|])
    case WorkerRefuse(key) => Stopped(s, {key})
    case WorkerCall(key, db, p, complete) =>
      if key !in s.scanning || s.scanning[key] >= |s.insts| then s
      else if complete then HandedOn(Advanced(s, key, db, p), key)
      else Advanced(s, key, db, p)
    case WorkerRemove(key) =>
      s.(insts := EndAll(s.insts, ScannedUnder(s, {key})),
         scanning := s.scanning - {key}, queue := s.queue + [RemoveSub(key)])
    case WorkerClose(connId) =>
      s.(insts := EndAll(s.insts, ScannedUnder(s, ConnKeys(s.scanning, connId))),
         scanning := s.scanning - ConnKeys(s.scanning, connId),
         queue := s.queue + [CloseConn(connId)])
    case _ => s
  }

  /** The monitor handles the first message of its batch in the transaction `events`. */
  ghost function AfterMessage(s: Relay, events: EventTable, refused: bool): Relay
    requires s.queue != []
  {
    var latest := MaxLev(events.Keys);
    match s.queue[0]
    case NewSub(i) =>
      if i >= |s.insts| then s else
        var x := s.insts[i];
        var served := AddPass(x, events, latest, Delivered(events, x.filters, x.snapshot, latest));
        if refused then   // an old subscription of the same name is gone even so
          s.(insts := EndAll(s.insts, LiveUnder(s, {x.key}))[i := End(served)], monitors := s.monitors - {x.key})
        else s.(insts := EndAll(s.insts, LiveUnder(s, {x.key}))[i := served],
                monitors := s.monitors[x.key := Monitor(i, latest)])
    case RemoveSub(key) =>
      s.(insts := EndAll(s.insts, LiveUnder(s, {key})), monitors := s.monitors - {key})
    case CloseConn(connId) =>
      s.(insts := EndAll(s.insts, LiveUnder(s, ConnKeys(s.monitors, connId))),
         monitors := s.monitors - ConnKeys(s.monitors, connId))
    case DBChange =>
      var from := if s.curr.Some? then s.curr.value else 0;
      s.(insts := seq(|s.insts|, j requires 0 <= j < |s.insts| =>
           if !IsLive(s, j) then s.insts[j] else
             var x := s.insts[j];
             AddPass(x, events, latest, LivePass(Sub(x.filters, s.monitors[x.key].latest), events, from, latest).0)),
         monitors := map k <- s.monitors ::
           if s.monitors[k].inst >= |s.insts| then s.monitors[k] else
             s.monitors[k].(latest :=
               LivePass(Sub(s.insts[s.monitors[k].inst].filters, s.monitors[k].latest), events, from, latest).1),
         curr := Some(latest))
  }

  ghost predicate Enabled(s: Relay, a: Action) {
    match a
    case WorkerCall(key, db, p, complete) =>
      key in s.scanning && s.scanning[key] < |s.insts| &&
        CanCall(s.insts[s.scanning[key]], s.workerTxn, db, p, complete)
    case MonitorPop => s.taken == 0 && s.monitorTxn.None?
    case MonitorTxn => s.taken > 0 && s.monitorTxn.None?
    case MonitorMsg(_) => s.taken > 0 && s.monitorTxn.Some? && s.queue != []
    case _ => true
  }

  ghost function Next(s: Relay, a: Action): Relay
    requires Enabled(s, a)
  {
    match a
    case StoreOp(op) => s.(st := StoreNext(s.st, op))
    case WorkerTxn => s.(workerTxn := s.st.events)
    case NotifyChange => s.(queue := s.queue + [DBChange])
    case MonitorPop => s.(taken := |s.queue|)
    case MonitorTxn =>
      var latest := MaxLev(s.st.events.Keys);
      s.(monitorTxn := Some(s.st.events),
         curr := if s.curr.None? || s.curr.value > latest then Some(latest) else s.curr)
    case MonitorMsg(refused) =>
      var s' := AfterMessage(s, s.monitorTxn.value, refused);
      s'.(queue := s.queue[1..], taken := s.taken - 1,
          monitorTxn := if s.taken == 1 then None else s.monitorTxn)
    case _ => AfterWorker(s, a)
  }

  predicate Announced(s: Relay, i: nat) {
    NewSub(i) in s.queue
  }

  predicate IsScanning(s: Relay, i: nat) {
    i < |s.insts| && s.insts[i].key in s.scanning && s.scanning[s.insts[i].key] == i
  }

  // ----- runs -----

  /** A relay that has just started, on any store. */
  ghost predicate Initial(s: Relay) {
    && LevInv(s.st) && s.workerTxn == s.st.events && s.scanning == map[] && s.queue == [] && s.taken == 0
    && s.monitorTxn.None? && s.curr.None? && s.monitors == map[] && s.insts == []
  }

  ghost predicate IsRun(states: seq<Relay>, actions: seq<Action>) {
    && |states| == |actions| + 1 && Initial(states[0])
    && forall j | 0 <= j < |actions| :: StepOk(states, actions, j)
  }

  ghost predicate StepOk(states: seq<Relay>, actions: seq<Action>, j: nat)
    requires j < |actions| && |states| == |actions| + 1
  {
    Enabled(states[j], actions[j]) && states[j + 1] == Next(states[j], actions[j])
  }
}
