/**
 Flow control of the sync client (src/apps/mesh/cmd_sync.cpp): what `onMessage`
 does with the queues of ids to upload and to download. Reconciliation itself is
 an input: each NEG-MSG brings the ids it revealed, or fails to parse.
 */
module SyncClient {
  import opened Lex

  /** A 32-byte event id. */
  datatype Id = Id(bytes: Bytes)

  const HIGH_WATER_UP: nat := 100
  const LOW_WATER_UP: nat := 50
  const BATCH_SIZE_DOWN: nat := 50

  datatype Message =
    | NegMsg(currHave: seq<Id>, currNeed: seq<Id>, more: bool) // `more`: reconcile produced another message
    | BadNegMsg
    | Ok
    | EventMsg
    | Eose
    | NegErr
    | Unexpected

  datatype Upload = Upload(have: seq<Id>, seen: set<Id>, inFlight: nat, uploaded: seq<Id>, missing: seq<Id>)

  datatype Download = Download(need: seq<Id>, seen: set<Id>, inFlight: bool, batches: seq<seq<Id>>)

  datatype Status = Running | Exited(status: nat)

  datatype Client = Client(up: Upload, down: Download, syncDone: bool, status: Status)

  // ----- specification of one message -----

  /** The ids not seen before, in order, each once. */
  function Fresh(seen: set<Id>, ids: seq<Id>): seq<Id>
    decreases |ids|
  {
    if ids == [] then []
    else if ids[0] in seen then Fresh(seen, ids[1..])
    else [ids[0]] + Fresh(seen + {ids[0]}, ids[1..])
  }

  function IdSet(ids: seq<Id>): set<Id> {
    set i | 0 <= i < |ids| :: ids[i]
  }

  /** The counter is a 64-bit unsigned integer: an unsolicited OK wraps it. */
  function Decrement(n: nat): nat {
    if n == 0 then MAX_U64 else n - 1
  }

  /** The upload loop: from the back of the queue, while the window is open. */
  function Fill(u: Upload, stored: set<Id>): Upload
    decreases |u.have|
  {
    if u.have == [] || u.inFlight >= HIGH_WATER_UP then u else
      var n := |u.have| - 1;
      if u.have[n] in stored
      then Fill(u.(have := u.have[..n], uploaded := u.uploaded + [u.have[n]], inFlight := u.inFlight + 1), stored)
      else Fill(u.(have := u.have[..n], missing := u.missing + [u.have[n]]), stored)
  }

  function PumpUp(doUp: bool, u: Upload, stored: set<Id>): Upload {
    if doUp && u.have != [] && u.inFlight <= LOW_WATER_UP then Fill(u, stored) else u
  }

  function Reversed(s: seq<Id>): seq<Id> {
    if s == [] then [] else [s[|s| - 1]] + Reversed(s[..|s| - 1])
  }

  function BatchStart(need: seq<Id>): nat {
    if |need| <= BATCH_SIZE_DOWN then 0 else |need| - BATCH_SIZE_DOWN
  }

  function PumpDown(doDown: bool, d: Download): Download {
    if doDown && d.need != [] && !d.inFlight
    then
      var k := BatchStart(d.need);
      d.(need := d.need[..k], batches := d.batches + [Reversed(d.need[k..])], inFlight := true)
    else d
  }

  function Learn(doUp: bool, u: Upload, ids: seq<Id>): Upload {
    u.(have := if doUp then u.have + Fresh(u.seen, ids) else [], seen := u.seen + IdSet(ids))
  }

  function LearnNeed(doDown: bool, d: Download, ids: seq<Id>): Download {
    d.(need := if doDown then d.need + Fresh(d.seen, ids) else [], seen := d.seen + IdSet(ids))
  }

  function Handle(doUp: bool, doDown: bool, c: Client, m: Message): Client {
    match m
    case NegMsg(currHave, currNeed, more) =>
      Client(Learn(doUp, c.up, currHave), LearnNeed(doDown, c.down, currNeed), c.syncDone || !more, c.status)
    case BadNegMsg => c.(status := Exited(1))
    case Ok => c.(up := c.up.(inFlight := Decrement(c.up.inFlight)))
    case EventMsg => c
    case Eose => c.(down := c.down.(inFlight := false))
    case NegErr => c.(status := Exited(1))
    case Unexpected => c
  }

  predicate Finished(c: Client) {
    c.syncDone && c.up.have == [] && c.down.need == [] && c.up.inFlight == 0 && !c.down.inFlight
  }

  function Pumped(doUp: bool, doDown: bool, c: Client, stored: set<Id>): Client {
    var p := c.(up := PumpUp(doUp, c.up, stored), down := PumpDown(doDown, c.down));
    if Finished(p) then p.(status := Exited(0)) else p
  }

  function Receive(doUp: bool, doDown: bool, c: Client, m: Message, stored: set<Id>): Client {
    var h := Handle(doUp, doDown, c, m);
    if h.status.Exited? then h else Pumped(doUp, doDown, h, stored)
  }

  function Start(): Client {
    Client(Upload([], {}, 0, [], []), Download([], {}, false, []), false, Running)
  }

  // ----- the client -----

  class Sync {
    const doUp: bool
    const doDown: bool
    var have: seq<Id>
    var need: seq<Id>
    var seenHave: set<Id>
    var seenNeed: set<Id>
    var inFlightUp: nat
    var inFlightDown: bool
    var syncDone: bool
    var totalHaves: nat
    var totalNeeds: nat
    var uploaded: seq<Id>        // EVENT messages sent
    var missing: seq<Id>         // ids no longer in the store when their turn came
    var batches: seq<seq<Id>>    // REQ messages sent
    var status: Status

    function Up(): Upload
      reads this
    {
      Upload(have, seenHave, inFlightUp, uploaded, missing)
    }

    function Down(): Download
      reads this
    {
      Download(need, seenNeed, inFlightDown, batches)
    }

    function Value(): Client
      reads this
    {
      Client(Up(), Down(), syncDone, status)
    }

    constructor (doUp: bool, doDown: bool)
      ensures this.doUp == doUp && this.doDown == doDown && Value() == Start()
      ensures totalHaves == 0 && totalNeeds == 0
    {
      this.doUp, this.doDown := doUp, doDown;
      have, need, seenHave, seenNeed := [], [], {}, {};
      inFlightUp, inFlightDown, syncDone := 0, false, false;
      totalHaves, totalNeeds := 0, 0;
      uploaded, missing, batches := [], [], [];
      status := Running;
    }

    method OnMessage(m: Message, stored: set<Id>)
      requires status == Running
      modifies this
      ensures Value() == Receive(doUp, doDown, old(Value()), m, stored)
      ensures totalHaves == old(totalHaves) + if m.NegMsg? then |Fresh(old(seenHave), m.currHave)| else 0
      ensures totalNeeds == old(totalNeeds) + if m.NegMsg? then |Fresh(old(seenNeed), m.currNeed)| else 0
    {
      Dispatch(m);
      if status == Running {
        Pump(stored);
      }
    }

    /** What follows the dispatch of every message. */
    method Pump(stored: set<Id>)
      requires status == Running
      modifies `have, `uploaded, `missing, `inFlightUp, `need, `batches, `inFlightDown, `status
      ensures Value() == Pumped(doUp, doDown, old(Value()), stored)
    {
      if doUp && have != [] && inFlightUp <= LOW_WATER_UP {
        SendEvents(stored);
      }
      assert Up() == PumpUp(doUp, old(Up()), stored);
      if doDown && need != [] && !inFlightDown {
        SendRequest();
      }
      assert Down() == PumpDown(doDown, old(Down()));
      ghost var p := Value();
      assert p == old(Value()).(up := PumpUp(doUp, old(Up()), stored), down := PumpDown(doDown, old(Down())));
      if syncDone && have == [] && need == [] && inFlightUp == 0 && !inFlightDown {
        status := Exited(0);
      }
    }

    method Dispatch(m: Message)
      requires status == Running
      modifies `have, `need, `seenHave, `seenNeed, `totalHaves, `totalNeeds, `inFlightUp, `inFlightDown, `syncDone,
        `status
      ensures Value() == Handle(doUp, doDown, old(Value()), m)
      ensures totalHaves == old(totalHaves) + if m.NegMsg? then |Fresh(old(seenHave), m.currHave)| else 0
      ensures totalNeeds == old(totalNeeds) + if m.NegMsg? then |Fresh(old(seenNeed), m.currNeed)| else 0
    {
      match m {
        case NegMsg(currHave, currNeed, more) =>
          QueueHave(currHave);
          QueueNeed(currNeed);
          if !more {
            syncDone := true;
          }
        case BadNegMsg =>
          status := Exited(1);
        case Ok =>
          inFlightUp := Decrement(inFlightUp);
        case EventMsg =>
        case Eose =>
          inFlightDown := false;
        case NegErr =>
          status := Exited(1);
        case Unexpected =>
      }
    }

    method QueueHave(ids: seq<Id>)
      modifies `have, `seenHave, `totalHaves
      ensures Up() == Learn(doUp, old(Up()), ids)
      ensures totalHaves == old(totalHaves) + |Fresh(old(seenHave), ids)|
    {
      var orig := |have|;
      have, seenHave := AddUnseen(have, seenHave, ids);
      totalHaves := totalHaves + (|have| - orig);
      if !doUp { have := []; }
    }

    method QueueNeed(ids: seq<Id>)
      modifies `need, `seenNeed, `totalNeeds
      ensures Down() == LearnNeed(doDown, old(Down()), ids)
      ensures totalNeeds == old(totalNeeds) + |Fresh(old(seenNeed), ids)|
    {
      var orig := |need|;
      need, seenNeed := AddUnseen(need, seenNeed, ids);
      totalNeeds := totalNeeds + (|need| - orig);
      if !doDown { need := []; }
    }

    method SendEvents(stored: set<Id>)
      modifies `have, `uploaded, `missing, `inFlightUp
      ensures Up() == Fill(old(Up()), stored)
    {
      while have != [] && inFlightUp < HIGH_WATER_UP
        invariant Fill(Up(), stored) == Fill(old(Up()), stored)
        decreases |have|
      {
        var n := |have| - 1;
        var id := have[n];
        have := have[..n];
        if id !in stored {
          missing := missing + [id];
          continue;
        }
        uploaded := uploaded + [id];
        inFlightUp := inFlightUp + 1;
      }
    }

    method SendRequest()
      requires doDown && need != [] && !inFlightDown
      modifies `need, `batches, `inFlightDown
      ensures Down() == PumpDown(doDown, old(Down()))
    {
      var ids: seq<Id> := [];
      while need != [] && |ids| < BATCH_SIZE_DOWN
        invariant |ids| <= BATCH_SIZE_DOWN && |need| + |ids| == |old(need)|
        invariant batches == old(batches) && need == old(need)[..|need|]
        invariant ids == Reversed(old(need)[|need|..])
        decreases |need|
      {
        var n := |need| - 1;
        ReversedSnoc(old(need), n);
        ids := ids + [need[n]];
        need := need[..n];
      }
      assert |need| == BatchStart(old(need));
      batches := batches + [ids];
      inFlightDown := true;
    }
  }

  /** Pushes the ids not seen before. */
  method AddUnseen(queue: seq<Id>, seen: set<Id>, ids: seq<Id>) returns (queue': seq<Id>, seen': set<Id>)
    ensures queue' == queue + Fresh(seen, ids)
    ensures seen' == seen + IdSet(ids)
  {
    queue', seen' := queue, seen;
    for i := 0 to |ids|
      invariant queue' + Fresh(seen', ids[i..]) == queue + Fresh(seen, ids)
      invariant seen' == seen + IdSet(ids[..i])
    {
      assert ids[i..][1..] == ids[i + 1..];
      assert IdSet(ids[..i + 1]) == IdSet(ids[..i]) + {ids[i]};
      if ids[i] in seen' { continue; }
      seen' := seen' + {ids[i]};
      queue' := queue' + [ids[i]];
    }
    assert ids[..|ids|] == ids;
  }

  lemma ReversedSnoc(s: seq<Id>, n: nat)
    requires n < |s|
    ensures Reversed(s[n..]) == Reversed(s[n + 1..]) + [s[n]]
    decreases |s| - n
  {
    if n + 1 < |s| {
      var t := s[..|s| - 1];
      assert s[n..][..|s[n..]| - 1] == t[n..];
      assert s[n + 1..][..|s[n + 1..]| - 1] == t[n + 1..];
      ReversedSnoc(t, n);
    }
  }

  // ----- what any relay can cause -----

  function Flat(batches: seq<seq<Id>>): multiset<Id> {
    if batches == [] then multiset{} else Flat(batches[..|batches| - 1]) + multiset(batches[|batches| - 1])
  }

  /** Every id seen is waiting, uploaded or found missing, and only one of these, once. */
  predicate UploadsOnce(doUp: bool, u: Upload) {
    multiset(u.have) + multiset(u.uploaded) + multiset(u.missing) == if doUp then multiset(u.seen) else multiset{}
  }

  /** Every id needed is waiting or requested, once; requests are never empty and never too large. */
  predicate RequestsOnce(doDown: bool, d: Download) {
    && multiset(d.need) + Flat(d.batches) == (if doDown then multiset(d.seen) else multiset{})
    && BatchSizes(d.batches)
  }

  predicate BatchSizes(batches: seq<seq<Id>>) {
    forall i | 0 <= i < |batches| :: 1 <= |batches[i]| <= BATCH_SIZE_DOWN
  }

  /** The counter is what has not been acknowledged, modulo 2^64. */
  predicate Counts(u: Upload, acks: nat) {
    u.inFlight == (|u.uploaded| - acks) % 0x1_0000_0000_0000_0000
  }

  datatype World = World(client: Client, acks: nat, eoses: nat)

  datatype Incoming = Incoming(message: Message, stored: set<Id>)

  function Step(doUp: bool, doDown: bool, w: World, i: Incoming): World {
    World(
      Receive(doUp, doDown, w.client, i.message, i.stored),
      w.acks + if i.message.Ok? then 1 else 0,
      w.eoses + if i.message.Eose? then 1 else 0)
  }

  /** Messages until the client exits. */
  function Run(doUp: bool, doDown: bool, w: World, messages: seq<Incoming>): World
    decreases |messages|
  {
    if messages == [] || w.client.status.Exited? then w
    else Run(doUp, doDown, Step(doUp, doDown, w, messages[0]), messages[1..])
  }

  predicate Safe(doUp: bool, doDown: bool, w: World) {
    UploadsOnce(doUp, w.client.up) && Counts(w.client.up, w.acks) && RequestsOnce(doDown, w.client.down)
  }

  lemma {:induction false} FreshIsNew(seen: set<Id>, ids: seq<Id>)
    ensures multiset(seen) + multiset(Fresh(seen, ids)) == multiset(seen + IdSet(ids))
    decreases |ids|
  {
    if ids != [] {
      var seen', rest := seen + {ids[0]}, ids[1..];
      assert ids == [ids[0]] + rest;
      assert seen + IdSet(ids) == seen' + IdSet(rest);
      FreshIsNew(seen', rest);
      if ids[0] in seen {
        assert seen' == seen;
      } else {
        assert multiset(seen') == multiset(seen) + multiset{ids[0]};
        assert multiset([ids[0]] + Fresh(seen', rest)) == multiset{ids[0]} + multiset(Fresh(seen', rest));
      }
    }
  }

  lemma {:induction false} ReversedKeeps(s: seq<Id>)
    ensures multiset(Reversed(s)) == multiset(s) && |Reversed(s)| == |s|
    decreases |s|
  {
    if s != [] {
      ReversedKeeps(s[..|s| - 1]);
      assert s == s[..|s| - 1] + [s[|s| - 1]];
    }
  }

  lemma LearnKeeps(doUp: bool, u: Upload, ids: seq<Id>)
    requires UploadsOnce(doUp, u)
    ensures UploadsOnce(doUp, Learn(doUp, u, ids))
  {
    FreshIsNew(u.seen, ids);
    assert multiset(u.have + Fresh(u.seen, ids)) == multiset(u.have) + multiset(Fresh(u.seen, ids));
  }

  lemma LearnNeedKeeps(doDown: bool, d: Download, ids: seq<Id>)
    requires RequestsOnce(doDown, d)
    ensures RequestsOnce(doDown, LearnNeed(doDown, d, ids))
  {
    FreshIsNew(d.seen, ids);
    assert multiset(d.need + Fresh(d.seen, ids)) == multiset(d.need) + multiset(Fresh(d.seen, ids));
  }

  /** Ids have moved from the queue, and each upload was counted. */
  ghost predicate Uploading(u: Upload, f: Upload) {
    && f.seen == u.seen
    && multiset(f.have) + multiset(f.uploaded) + multiset(f.missing)
       == multiset(u.have) + multiset(u.uploaded) + multiset(u.missing)
    && f.inFlight - |f.uploaded| == u.inFlight - |u.uploaded|
  }

  lemma MovesOne(u: Upload, front: seq<Id>, id: Id)
    requires u.have == front + [id]
    ensures Uploading(u, u.(have := front, uploaded := u.uploaded + [id], inFlight := u.inFlight + 1))
    ensures Uploading(u, u.(have := front, missing := u.missing + [id]))
  {
  }

  /** The upload loop moves ids, counts them, and stops only at an empty queue or a full window. */
  lemma {:induction false} FillMoves(u: Upload, stored: set<Id>)
    ensures var f := Fill(u, stored);
      && Uploading(u, f)
      && (f.have == [] || f.inFlight >= HIGH_WATER_UP)
      && (u.inFlight <= HIGH_WATER_UP ==> f.inFlight <= HIGH_WATER_UP)
    decreases |u.have|
  {
    if u.have != [] && u.inFlight < HIGH_WATER_UP {
      var n := |u.have| - 1;
      var front, id := u.have[..n], u.have[n];
      assert u.have == front + [id];
      MovesOne(u, front, id);
      if id in stored {
        FillMoves(u.(have := front, uploaded := u.uploaded + [id], inFlight := u.inFlight + 1), stored);
      } else {
        FillMoves(u.(have := front, missing := u.missing + [id]), stored);
      }
    }
  }

  lemma PumpUpKeeps(doUp: bool, u: Upload, stored: set<Id>, acks: nat)
    requires UploadsOnce(doUp, u) && Counts(u, acks)
    ensures UploadsOnce(doUp, PumpUp(doUp, u, stored)) && Counts(PumpUp(doUp, u, stored), acks)
  {
    FillMoves(u, stored);
  }

  lemma FlatAppend(batches: seq<seq<Id>>, batch: seq<Id>)
    ensures Flat(batches + [batch]) == Flat(batches) + multiset(batch)
  {
    assert (batches + [batch])[..|batches|] == batches;
  }

  /** The next batch and what is left of the queue. */
  lemma BatchSplits(need: seq<Id>)
    requires need != []
    ensures var k := BatchStart(need);
      multiset(need[..k]) + multiset(Reversed(need[k..])) == multiset(need) &&
        1 <= |Reversed(need[k..])| <= BATCH_SIZE_DOWN
  {
    var k := BatchStart(need);
    ReversedKeeps(need[k..]);
    assert need == need[..k] + need[k..];
  }

  lemma PumpDownKeeps(doDown: bool, d: Download)
    requires RequestsOnce(doDown, d)
    ensures RequestsOnce(doDown, PumpDown(doDown, d))
  {
    if doDown && d.need != [] && !d.inFlight {
      var k := BatchStart(d.need);
      var batch := Reversed(d.need[k..]);
      BatchSplits(d.need);
      FlatAppend(d.batches, batch);
      SizesAppend(d.batches, batch);
      Moved(multiset(d.need[..k]), multiset(batch), multiset(d.need), Flat(d.batches));
    }
  }

  lemma SizesAppend(batches: seq<seq<Id>>, batch: seq<Id>)
    requires BatchSizes(batches) && 1 <= |batch| <= BATCH_SIZE_DOWN
    ensures BatchSizes(batches + [batch])
  {
  }

  lemma Moved(left: multiset<Id>, batch: multiset<Id>, need: multiset<Id>, flat: multiset<Id>)
    requires left + batch == need
    ensures left + (flat + batch) == need + flat
  {
  }

  lemma OkKeeps(doUp: bool, u: Upload, acks: nat)
    requires UploadsOnce(doUp, u) && Counts(u, acks)
    ensures var u' := u.(inFlight := Decrement(u.inFlight)); UploadsOnce(doUp, u') && Counts(u', acks + 1)
  {
  }

  lemma LearnCounts(doUp: bool, u: Upload, ids: seq<Id>, acks: nat)
    requires UploadsOnce(doUp, u) && Counts(u, acks)
    ensures UploadsOnce(doUp, Learn(doUp, u, ids)) && Counts(Learn(doUp, u, ids), acks)
  {
    LearnKeeps(doUp, u, ids);
  }

  lemma HandleKeeps(doUp: bool, doDown: bool, w: World, m: Message)
    requires Safe(doUp, doDown, w)
    ensures Safe(doUp, doDown, World(Handle(doUp, doDown, w.client, m), w.acks + if m.Ok? then 1 else 0, w.eoses))
  {
    match m {
      case NegMsg(currHave, currNeed, _) =>
        LearnCounts(doUp, w.client.up, currHave, w.acks);
        LearnNeedKeeps(doDown, w.client.down, currNeed);
      case Ok => OkKeeps(doUp, w.client.up, w.acks);
      case _ =>
    }
  }

  lemma StepKeeps(doUp: bool, doDown: bool, w: World, i: Incoming)
    requires Safe(doUp, doDown, w)
    ensures Safe(doUp, doDown, Step(doUp, doDown, w, i))
  {
    HandleKeeps(doUp, doDown, w, i.message);
    var h := Handle(doUp, doDown, w.client, i.message);
    PumpUpKeeps(doUp, h.up, i.stored, Step(doUp, doDown, w, i).acks);
    PumpDownKeeps(doDown, h.down);
  }

  predicate ExitIsClean(c: Client) {
    c.status == Running || c.status == Exited(1) || (c.status == Exited(0) && Finished(c))
  }

  lemma StepExitsClean(doUp: bool, doDown: bool, w: World, i: Incoming)
    requires w.client.status == Running
    ensures ExitIsClean(Step(doUp, doDown, w, i).client)
  {
  }

  lemma {:induction false} RunKeeps(doUp: bool, doDown: bool, w: World, messages: seq<Incoming>)
    requires Safe(doUp, doDown, w)
    ensures Safe(doUp, doDown, Run(doUp, doDown, w, messages))
    decreases |messages|
  {
    if messages != [] && w.client.status == Running {
      StepKeeps(doUp, doDown, w, messages[0]);
      RunKeeps(doUp, doDown, Step(doUp, doDown, w, messages[0]), messages[1..]);
    }
  }

  lemma {:induction false} RunExitsClean(doUp: bool, doDown: bool, w: World, messages: seq<Incoming>)
    requires ExitIsClean(w.client)
    ensures ExitIsClean(Run(doUp, doDown, w, messages).client)
    decreases |messages|
  {
    if messages != [] && w.client.status == Running {
      StepExitsClean(doUp, doDown, w, messages[0]);
      RunExitsClean(doUp, doDown, Step(doUp, doDown, w, messages[0]), messages[1..]);
    }
  }

  /** Whatever the relay sends: nothing is uploaded or requested twice, and a clean exit leaves nothing undone. */
  lemma AnyRelay(doUp: bool, doDown: bool, w: World, messages: seq<Incoming>)
    requires Safe(doUp, doDown, w) && ExitIsClean(w.client)
    ensures Safe(doUp, doDown, Run(doUp, doDown, w, messages))
    ensures ExitIsClean(Run(doUp, doDown, w, messages).client)
  {
    RunKeeps(doUp, doDown, w, messages);
    RunExitsClean(doUp, doDown, w, messages);
  }

  lemma OncePerId(doUp: bool, doDown: bool, w: World, id: Id)
    requires Safe(doUp, doDown, w)
    ensures multiset(w.client.up.uploaded)[id] <= 1 && Flat(w.client.down.batches)[id] <= 1
  {
    var u, d := w.client.up, w.client.down;
    assert (multiset(u.have) + multiset(u.uploaded) + multiset(u.missing))[id] <= 1;
    assert (multiset(d.need) + Flat(d.batches))[id] <= 1;
  }

  // ----- OKs that were not asked for -----

  function Oks(messages: seq<Incoming>): nat {
    if messages == [] then 0 else (if messages[0].message.Ok? then 1 else 0) + Oks(messages[1..])
  }

  lemma StalledStep(doUp: bool, doDown: bool, w: World, i: Incoming)
    requires w.client.status == Running && w.client.up.inFlight > LOW_WATER_UP + if i.message.Ok? then 1 else 0
    ensures var c := Step(doUp, doDown, w, i).client;
      && c.up.uploaded == w.client.up.uploaded && c.status != Exited(0)
      && c.up.inFlight == w.client.up.inFlight - if i.message.Ok? then 1 else 0
  {
  }

  /**
   While more uploads are counted as open than the relay will acknowledge, nothing more is uploaded
   and the client does not finish.
   */
  lemma {:induction false} Stalled(doUp: bool, doDown: bool, w: World, messages: seq<Incoming>)
    requires w.client.status == Running && w.client.up.inFlight > LOW_WATER_UP + Oks(messages)
    ensures var c := Run(doUp, doDown, w, messages).client;
      c.up.uploaded == w.client.up.uploaded && c.status != Exited(0)
    decreases |messages|
  {
    if messages != [] {
      StalledStep(doUp, doDown, w, messages[0]);
      var w' := Step(doUp, doDown, w, messages[0]);
      if w'.client.status == Running {
        Stalled(doUp, doDown, w', messages[1..]);
      }
    }
  }

  /** One OK too many, at any moment, and for nearly 2^64 more of them the client neither uploads nor finishes. */
  lemma StrayOkStalls(doUp: bool, doDown: bool, w: World, stored: set<Id>, messages: seq<Incoming>)
    requires w.client.status == Running && w.client.up.inFlight == 0 && Oks(messages) < MAX_U64 - LOW_WATER_UP
    ensures var c := Run(doUp, doDown, w, [Incoming(Ok, stored)] + messages).client;
      c.up.uploaded == w.client.up.uploaded && c.status != Exited(0)
  {
    var all := [Incoming(Ok, stored)] + messages;
    assert all[1..] == messages;
    var w' := Step(doUp, doDown, w, all[0]);
    assert w'.client.up.inFlight == MAX_U64 && w'.client.status == Running;
    Stalled(doUp, doDown, w', messages);
  }

  /** Every OK of the run answers an upload. */
  predicate OksOwed(doUp: bool, doDown: bool, w: World, messages: seq<Incoming>)
    decreases |messages|
  {
    messages == [] || w.client.status.Exited?
    || ((messages[0].message.Ok? ==> w.acks < |w.client.up.uploaded|)
        && OksOwed(doUp, doDown, Step(doUp, doDown, w, messages[0]), messages[1..]))
  }

  /** The counter is the number of unacknowledged uploads. */
  predicate Exact(w: World) {
    w.acks + w.client.up.inFlight == |w.client.up.uploaded|
  }

  lemma {:induction false} AcksGrow(doUp: bool, doDown: bool, w: World, messages: seq<Incoming>)
    ensures Run(doUp, doDown, w, messages).acks >= w.acks
    decreases |messages|
  {
    if messages != [] && w.client.status == Running {
      AcksGrow(doUp, doDown, Step(doUp, doDown, w, messages[0]), messages[1..]);
    }
  }

  lemma ExactStep(doUp: bool, doDown: bool, w: World, i: Incoming)
    requires Exact(w) && w.client.status == Running && (i.message.Ok? ==> w.acks < |w.client.up.uploaded|)
    ensures Exact(Step(doUp, doDown, w, i))
  {
    PumpBalances(doUp, Handle(doUp, doDown, w.client, i.message).up, i.stored);
  }

  lemma PumpBalances(doUp: bool, u: Upload, stored: set<Id>)
    ensures PumpUp(doUp, u, stored).inFlight - |PumpUp(doUp, u, stored).uploaded| == u.inFlight - |u.uploaded|
  {
    FillMoves(u, stored);
  }

  /** In any run, the counter ends exact if and only if every OK answered an upload. */
  lemma {:induction false} CounterExact(doUp: bool, doDown: bool, w: World, messages: seq<Incoming>)
    requires w.client.status == Running && Exact(w) && Oks(messages) <= MAX_U64 - LOW_WATER_UP
    ensures Exact(Run(doUp, doDown, w, messages)) <==> OksOwed(doUp, doDown, w, messages)
    decreases |messages|
  {
    if messages != [] {
      var i, rest := messages[0], messages[1..];
      if i.message.Ok? && w.client.up.inFlight == 0 {
        assert messages == [Incoming(Ok, i.stored)] + rest;
        StrayOkStalls(doUp, doDown, w, i.stored, rest);
        AcksGrow(doUp, doDown, Step(doUp, doDown, w, i), rest);
      } else {
        ExactStep(doUp, doDown, w, i);
        if Step(doUp, doDown, w, i).client.status == Running {
          CounterExact(doUp, doDown, Step(doUp, doDown, w, i), rest);
        }
      }
    }
  }

  // ----- an honest relay -----

  /** The relay sends only replies it owes. */
  predicate Owed(w: World, m: Message) {
    match m
    case NegMsg(_, _, _) => !w.client.syncDone
    case BadNegMsg => !w.client.syncDone
    case Ok => w.acks < |w.client.up.uploaded|
    case Eose => w.eoses < |w.client.down.batches|
    case _ => true
  }

  predicate Honest(doUp: bool, doDown: bool, w: World, messages: seq<Incoming>)
    decreases |messages|
  {
    messages == [] || w.client.status.Exited?
    || (Owed(w, messages[0].message) && Honest(doUp, doDown, Step(doUp, doDown, w, messages[0]), messages[1..]))
  }

  /** The window is exact, and a waiting id always has a reply ahead of it. */
  predicate UpWindow(doUp: bool, u: Upload, acks: nat) {
    && acks + u.inFlight == |u.uploaded| && u.inFlight <= HIGH_WATER_UP
    && (u.have != [] ==> doUp && u.inFlight > LOW_WATER_UP)
  }

  predicate DownWindow(doDown: bool, d: Download, eoses: nat) {
    eoses + (if d.inFlight then 1 else 0) == |d.batches| && (d.need != [] ==> doDown && d.inFlight)
  }

  predicate Windows(doUp: bool, doDown: bool, w: World) {
    UpWindow(doUp, w.client.up, w.acks) && DownWindow(doDown, w.client.down, w.eoses)
  }

  /** A reply the relay still owes: a reconciliation message, an OK or an EOSE. */
  predicate AwaitsReply(w: World) {
    !w.client.syncDone || w.acks < |w.client.up.uploaded| || w.eoses < |w.client.down.batches|
  }

  predicate Settled(w: World) {
    w.client.status == Running ==> !Finished(w.client)
  }

  lemma PumpUpOpens(doUp: bool, u: Upload, stored: set<Id>, acks: nat)
    requires acks + u.inFlight == |u.uploaded| && u.inFlight <= HIGH_WATER_UP && (!doUp ==> u.have == [])
    ensures UpWindow(doUp, PumpUp(doUp, u, stored), acks)
  {
    FillMoves(u, stored);
  }

  lemma UploadStep(doUp: bool, doDown: bool, w: World, i: Incoming)
    requires UpWindow(doUp, w.client.up, w.acks) && Owed(w, i.message) && w.client.status == Running
    ensures UpWindow(doUp, Step(doUp, doDown, w, i).client.up, Step(doUp, doDown, w, i).acks)
  {
    var h := Handle(doUp, doDown, w.client, i.message);
    PumpUpOpens(doUp, h.up, i.stored, Step(doUp, doDown, w, i).acks);
  }

  lemma DownloadStep(doUp: bool, doDown: bool, w: World, i: Incoming)
    requires DownWindow(doDown, w.client.down, w.eoses) && Owed(w, i.message) && w.client.status == Running
    ensures DownWindow(doDown, Step(doUp, doDown, w, i).client.down, Step(doUp, doDown, w, i).eoses)
  {
  }

  lemma StepSettles(doUp: bool, doDown: bool, w: World, i: Incoming)
    requires w.client.status == Running
    ensures Settled(Step(doUp, doDown, w, i))
  {
  }

  /**
   With a relay that sends only what it owes, `inFlightUp` is the number of unacknowledged
   uploads and at most 100, at most one REQ is open, and after every message the client has
   exited or is owed a reply.
   */
  lemma {:induction false} HonestRelay(doUp: bool, doDown: bool, w: World, messages: seq<Incoming>)
    requires Windows(doUp, doDown, w) && Settled(w) && Honest(doUp, doDown, w, messages)
    ensures Windows(doUp, doDown, Run(doUp, doDown, w, messages))
    ensures Settled(Run(doUp, doDown, w, messages))
    ensures var r := Run(doUp, doDown, w, messages); r.client.status.Exited? || AwaitsReply(r)
    decreases |messages|
  {
    if messages != [] && w.client.status == Running {
      UploadStep(doUp, doDown, w, messages[0]);
      DownloadStep(doUp, doDown, w, messages[0]);
      StepSettles(doUp, doDown, w, messages[0]);
      HonestRelay(doUp, doDown, Step(doUp, doDown, w, messages[0]), messages[1..]);
    }
  }

  /** From the start of a session: exited or owed a reply, and exit 0 means every id was dealt with and acknowledged. */
  lemma SyncCompletes(doUp: bool, doDown: bool, messages: seq<Incoming>)
    requires Honest(doUp, doDown, World(Start(), 0, 0), messages)
    ensures var r := Run(doUp, doDown, World(Start(), 0, 0), messages);
      r.client.status == Exited(0) || r.client.status == Exited(1) || AwaitsReply(r)
    ensures var r := Run(doUp, doDown, World(Start(), 0, 0), messages);
      r.client.status == Exited(0) ==> !AwaitsReply(r) && AllDone(doUp, doDown, r.client)
  {
    var w := World(Start(), 0, 0);
    AnyRelay(doUp, doDown, w, messages);
    HonestRelay(doUp, doDown, w, messages);
    DoneWhenFinished(doUp, doDown, Run(doUp, doDown, w, messages));
  }

  /** Every id revealed was uploaded or found missing once, or requested once. */
  predicate AllDone(doUp: bool, doDown: bool, c: Client) {
    && (doUp ==> multiset(c.up.uploaded) + multiset(c.up.missing) == multiset(c.up.seen))
    && (doDown ==> Flat(c.down.batches) == multiset(c.down.seen))
  }

  lemma DoneWhenFinished(doUp: bool, doDown: bool, w: World)
    requires Safe(doUp, doDown, w)
    ensures Finished(w.client) ==> AllDone(doUp, doDown, w.client)
  {
  }
}
