/**
 The import pipeline (src/WriterPipeline.h): a producer, a validator thread and a
 writer thread, joined by two queues, ended by a sentinel that `flush` sends down both.

 The threads are a state machine whose steps interleave freely. Verification results,
 what the duplicate check finds and how many events of a batch are written are
 arbitrary. The sentinel is None here; an event handed to the writer with an empty packed
 string looks like it.
 */
module Pipeline {
  import opened Events

  datatype Path = Checked | Direct   // through the validator, or straight to the writer

  datatype Item = Item(serial: nat, path: Path, valid: bool, empty: bool)   // `empty`: its packed string is

  type Queue = seq<Option<Item>>

  datatype Phase = Waiting | Collecting | Writing | Finished

  datatype Validator = Validator(inbox: Queue, hand: Queue, done: bool)

  datatype Writer = Writer(
    inbox: Queue, hand: Queue, batch: seq<Item>, phase: Phase, shutdownComplete: bool, flushInbox: bool,
    taken: seq<Item>)              // events the writer has taken up, in order

  datatype Counters = Counters(numLive: int, processed: nat, rejected: nat, written: nat, dups: nat)

  datatype State = State(
    batchSize: nat,
    submitted: seq<Item>,          // every write so far
    inHand: Option<Item>,          // counted by the producer, not pushed yet
    flushed: bool,
    v: Validator, w: Writer, n: Counters)

  datatype Action =
    | Write(item: Item)            // write(): counters
    | Push                         // write(): push onto the inbox of its path
    | Flush
    | ValidatorPop
    | ValidatorStep
    | WriterPop
    | WriterTake(isDup: bool)      // one turn of the collecting loop
    | WriterCommit(written: nat)

  predicate Enabled(s: State, a: Action) {
    match a
    case Write(item) => s.inHand.None? && !s.flushed && (if item.path.Direct? then item.valid else !item.empty)
    case Push => s.inHand.Some?
    case Flush => s.inHand.None? && !s.flushed
    case ValidatorPop => !s.v.done && s.v.hand == [] && s.v.inbox != []
    case ValidatorStep => !s.v.done && s.v.hand != []
    case WriterPop => s.w.phase == Waiting && s.w.inbox != []
    case WriterTake(_) => s.w.phase == Collecting
    case WriterCommit(written) => s.w.phase == Writing && written <= |s.w.batch|
  }

  function AfterWrite(s: State, item: Item): State {
    s.(submitted := s.submitted + [item], inHand := Some(item),
       n := s.n.(processed := s.n.processed + 1, numLive := s.n.numLive + 1))
  }

  function AfterPush(s: State): State
    requires s.inHand.Some?
  {
    if s.inHand.value.path.Checked? then s.(inHand := None, v := s.v.(inbox := s.v.inbox + [s.inHand]))
    else s.(inHand := None, w := s.w.(inbox := s.w.inbox + [s.inHand]))
  }

  function AfterFlush(s: State): State {
    s.(flushed := true, v := s.v.(inbox := s.v.inbox + [None]))
  }

  /** One message of the validator's loop: the sentinel, a rejected event, or one that is passed on. */
  function AfterValidatorStep(s: State): State
    requires s.v.hand != []
  {
    var m := s.v.hand[0];
    if m.None? then s.(v := s.v.(done := true, hand := []), w := s.w.(inbox := s.w.inbox + [m]))
    else if !m.value.valid then
      s.(v := s.v.(hand := s.v.hand[1..]), n := s.n.(numLive := s.n.numLive - 1, rejected := s.n.rejected + 1))
    else s.(v := s.v.(hand := s.v.hand[1..]), w := s.w.(inbox := s.w.inbox + [m]))
  }

  /** What the writer takes for the sentinel. */
  predicate LooksLikeSentinel(m: Option<Item>) {
    m.None? || m.value.empty
  }

  /** One turn of the writer's collecting loop; a full batch puts the rest back. */
  function AfterWriterTake(s: State, isDup: bool): State {
    if s.w.hand == [] then s.(w := s.w.(phase := Writing))
    else if |s.w.batch| >= s.batchSize then
      s.(w := s.w.(inbox := s.w.hand + s.w.inbox, hand := [], phase := Writing))
    else if LooksLikeSentinel(s.w.hand[0]) then   // what follows in hand is dropped
      s.(w := s.w.(shutdownComplete := true, hand := [], phase := Writing))
    else
      var ev := s.w.hand[0].value;
      var w := s.w.(hand := s.w.hand[1..], taken := s.w.taken + [ev]);
      if isDup then s.(w := w, n := s.n.(numLive := s.n.numLive - 1, dups := s.n.dups + 1))
      else s.(w := w.(batch := s.w.batch + [ev]), n := s.n.(numLive := s.n.numLive - 1))
  }

  function AfterWriterCommit(s: State, written: nat): State
    requires written <= |s.w.batch|
  {
    s.(n := s.n.(written := s.n.written + written, dups := s.n.dups + (|s.w.batch| - written)),
       w := s.w.(batch := [], flushInbox := s.w.shutdownComplete || s.w.flushInbox,
                 phase := if s.w.shutdownComplete then Finished else Waiting))
  }

  function Next(s: State, a: Action): State
    requires Enabled(s, a)
  {
    match a
    case Write(item) => AfterWrite(s, item)
    case Push => AfterPush(s)
    case Flush => AfterFlush(s)
    case ValidatorPop => s.(v := s.v.(hand := s.v.inbox, inbox := []))
    case ValidatorStep => AfterValidatorStep(s)
    case WriterPop => s.(w := s.w.(hand := s.w.inbox, inbox := [], phase := Collecting))
    case WriterTake(isDup) => AfterWriterTake(s, isDup)
    case WriterCommit(written) => AfterWriterCommit(s, written)
  }

  // ----- queues -----

  /** How many events a queue holds. */
  function Live(q: Queue): nat {
    if q == [] then 0 else (if q[0].Some? then 1 else 0) + Live(q[1..])
  }

  /** The events of one path in a queue that have passed or will pass verification, in order. */
  function Pick(q: Queue, path: Path): seq<Item> {
    if q == [] then [] else
      Sole(q[0], path) + Pick(q[1..], path)
  }

  function Sole(m: Option<Item>, path: Path): seq<Item> {
    if m.Some? && m.value.path == path && m.value.valid then [m.value] else []
  }

  function AsQueue(items: seq<Item>): Queue {
    seq(|items|, i requires 0 <= i < |items| => Some(items[i]))
  }

  /** In front is an event with a packed string, or the sentinel and nothing behind it. */
  predicate PlainFront(q: Queue) {
    q != [] && if q[0].None? then |q| == 1 else !q[0].value.empty
  }

  predicate NoSentinel(q: Queue) {
    forall i | 0 <= i < |q| :: q[i].Some?
  }

  predicate SentinelLast(q: Queue) {
    q != [] && q[|q| - 1].None? && forall i | 0 <= i < |q| - 1 :: q[i].Some?
  }

  lemma {:induction false} Concat(a: Queue, b: Queue, path: Path)
    ensures Live(a + b) == Live(a) + Live(b)
    ensures Pick(a + b, path) == Pick(a, path) + Pick(b, path)
    decreases |a|
  {
    if a == [] { assert a + b == b; } else {
      assert (a + b)[1..] == a[1..] + b;
      Concat(a[1..], b, path);
    }
  }

  lemma One(m: Option<Item>, path: Path)
    ensures Pick([m], path) == Sole(m, path)
    ensures Live([m]) == if m.Some? then 1 else 0
  {
    var none: Queue := [];
    assert [m][1..] == none;
  }

  lemma Appended(q: Queue, m: Option<Item>, path: Path)
    ensures Live(q + [m]) == Live(q) + if m.Some? then 1 else 0
    ensures Pick(q + [m], path) == Pick(q, path) + Sole(m, path)
    ensures Sole(m, path) == [] ==> Pick(q + [m], path) == Pick(q, path)
  {
    Concat(q, [m], path);
    One(m, path);
  }

  lemma Head(q: Queue, path: Path)
    requires q != []
    ensures Live(q) == (if q[0].Some? then 1 else 0) + Live(q[1..])
    ensures Pick(q, path) == Sole(q[0], path) + Pick(q[1..], path)
    ensures Sole(q[0], path) == [] ==> Pick(q, path) == Pick(q[1..], path)
    ensures |q| == 1 ==> Live(q[1..]) == 0 && Pick(q[1..], path) == []
  {
    assert q == [q[0]] + q[1..];
  }

  lemma AppendedItem(items: seq<Item>, item: Item, path: Path)
    ensures Pick(AsQueue(items + [item]), path) == Pick(AsQueue(items), path) + Sole(Some(item), path)
  {
    assert AsQueue(items + [item]) == AsQueue(items) + [Some(item)];
    Appended(AsQueue(items), Some(item), path);
  }

  lemma {:induction false} NoneOfPath(q: Queue, path: Path)
    requires forall i | 0 <= i < |q| && q[i].Some? :: q[i].value.path != path
    ensures Pick(q, path) == []
    decreases |q|
  {
    if q != [] { NoneOfPath(q[1..], path); }
  }

  // ----- the invariant -----

  function InHand(s: State): Queue {
    if s.inHand.Some? then [s.inHand] else []
  }

  /** numLive counts exactly the events queued or in hand, and no event is lost or counted twice. */
  ghost predicate CountsOk(s: State) {
    && s.n.numLive == Live(InHand(s)) + Live(s.v.inbox) + Live(s.v.hand) + Live(s.w.inbox) + Live(s.w.hand)
    && s.n.processed == |s.submitted|
    && s.n.processed == s.n.numLive + |s.w.batch| + s.n.rejected + s.n.written + s.n.dups
  }

  ghost function WriterPart(s: State, path: Path): seq<Item> {
    Pick(AsQueue(s.w.taken), path) + (Pick(s.w.hand, path) + Pick(s.w.inbox, path))
  }

  ghost function ValidatorPart(s: State, path: Path): seq<Item> {
    Pick(s.v.hand, path) + Pick(s.v.inbox, path)
  }

  /** What is under way on one path, first the events that are furthest. */
  ghost function Flow(s: State, path: Path): seq<Item> {
    WriterPart(s, path) + (ValidatorPart(s, path) + Pick(InHand(s), path))
  }

  /** On each path, what was taken up and what is still under way is what was submitted, in order. */
  ghost predicate Fifo(s: State, path: Path) {
    Pick(AsQueue(s.submitted), path) == Flow(s, path)
  }

  /** The sentinel, if it is in this pair of queues, is behind everything else in them. */
  predicate EndsWithSentinel(hand: Queue, inbox: Queue) {
    if inbox == [] then SentinelLast(hand) else NoSentinel(hand) && SentinelLast(inbox)
  }

  predicate Holds(hand: Queue, inbox: Queue, passed: bool, sent: bool) {
    if passed then hand == [] && inbox == []
    else if sent then EndsWithSentinel(hand, inbox)
    else NoSentinel(hand) && NoSentinel(inbox)
  }

  predicate AllChecked(q: Queue) {
    forall i | 0 <= i < |q| && q[i].Some? :: q[i].value.path.Checked? && !q[i].value.empty
  }

  predicate AllValid(q: Queue) {
    forall i | 0 <= i < |q| && q[i].Some? :: q[i].value.valid && !q[i].value.empty
  }

  /** Where the sentinel is: behind every event, in at most one pair of queues. */
  ghost predicate SentinelOk(s: State) {
    && (s.flushed ==> s.inHand.None?) && (s.v.done ==> s.flushed) && (s.w.shutdownComplete ==> s.v.done)
    && Holds(s.v.hand, s.v.inbox, s.v.done, s.flushed)
    && Holds(s.w.hand, s.w.inbox, s.w.shutdownComplete, s.v.done)
  }

  ghost predicate PathsOk(s: State) {
    && AllChecked(s.v.hand) && AllChecked(s.v.inbox) && AllValid(s.w.hand) && AllValid(s.w.inbox)
    && (s.inHand.Some? ==> !s.inHand.value.empty && (s.inHand.value.path.Direct? ==> s.inHand.value.valid))
  }

  ghost predicate PhasesOk(s: State) {
    && (s.w.phase == Waiting || s.w.phase == Writing || s.w.phase == Finished ==> s.w.hand == [])
    && (s.w.phase == Waiting || s.w.phase == Finished ==> s.w.batch == [])
    && (s.w.flushInbox <==> s.w.phase == Finished) && (s.w.phase == Finished ==> s.w.shutdownComplete)
    && (s.w.shutdownComplete ==> s.w.phase == Writing || s.w.phase == Finished)
  }

  ghost predicate Inv(s: State) {
    CountsOk(s) && Fifo(s, Checked) && Fifo(s, Direct) && SentinelOk(s) && PathsOk(s) && PhasesOk(s)
  }

  ghost predicate Initial(s: State) {
    && s.submitted == [] && s.inHand.None? && !s.flushed && s.v.inbox == [] && s.v.hand == [] && !s.v.done
    && s.w.inbox == [] && s.w.hand == [] && s.w.batch == [] && s.w.phase == Waiting
    && !s.w.shutdownComplete && !s.w.flushInbox && s.w.taken == []
    && s.n.numLive == 0 && s.n.processed == 0 && s.n.rejected == 0 && s.n.written == 0 && s.n.dups == 0
  }

  // ----- the counters, step by step -----

  lemma CountsWrite(s: State, item: Item)
    requires CountsOk(s) && s.inHand.None?
    ensures CountsOk(AfterWrite(s, item))
  {
    One(Some(item), Direct);
  }

  lemma CountsPush(s: State)
    requires CountsOk(s) && s.inHand.Some?
    ensures CountsOk(AfterPush(s))
  {
    if s.inHand.value.path.Checked? { LiveMoves(s.v.inbox, s.inHand); } else { LiveMoves(s.w.inbox, s.inHand); }
  }

  lemma CountsFlush(s: State)
    requires CountsOk(s)
    ensures CountsOk(AfterFlush(s))
  {
    Appended(s.v.inbox, None, Direct);
  }

  lemma LiveMoves(q: Queue, m: Option<Item>)
    ensures Live(q + [m]) == Live(q) + Live([m])
  {
    Concat(q, [m], Direct);
  }

  /** A message at the front of one queue moves to the end of another, or is dropped. */
  lemma LiveHandedOn(from: Queue, to: Queue)
    requires from != []
    ensures Live(from) + Live(to) == Live(from[1..]) + Live(to + [from[0]])
    ensures Live(from) == (if from[0].Some? then 1 else 0) + Live(from[1..])
    ensures from[0].None? && |from| == 1 ==> Live(from) == 0 && Live(to + [from[0]]) == Live(to)
  {
    Head(from, Direct);
    Appended(to, from[0], Direct);
  }

  lemma CountsValidator(s: State)
    requires CountsOk(s) && s.v.hand != [] && (s.v.hand[0].None? ==> |s.v.hand| == 1)
    ensures CountsOk(AfterValidatorStep(s))
  {
    LiveHandedOn(s.v.hand, s.w.inbox);
    var m, s' := s.v.hand[0], AfterValidatorStep(s);
    assert s'.v.inbox == s.v.inbox && s'.inHand == s.inHand && s'.w.hand == s.w.hand;
    if m.None? {
      assert s'.v.hand == [] && s'.w.inbox == s.w.inbox + [m];
    } else if !m.value.valid {
      assert s'.v.hand == s.v.hand[1..] && s'.w.inbox == s.w.inbox;
    } else {
      assert s'.v.hand == s.v.hand[1..] && s'.w.inbox == s.w.inbox + [m];
    }
  }

  lemma LivePutBack(a: Queue, b: Queue)
    ensures Live([]) + Live(a + b) == Live(a) + Live(b)
  {
    Concat(a, b, Direct);
  }

  lemma CountsTake(s: State, isDup: bool)
    requires CountsOk(s) && PlainFront(s.w.hand)
    ensures CountsOk(AfterWriterTake(s, isDup))
  {
    if |s.w.batch| >= s.batchSize { LivePutBack(s.w.hand, s.w.inbox); } else { LiveHandedOn(s.w.hand, []); }
  }

  // ----- the order, step by step -----

  lemma Associate(a: seq<Item>, b: seq<Item>, x: seq<Item>)
    ensures a + (b + x) == (a + b) + x
  {
  }

  lemma FifoWrite(s: State, item: Item, path: Path)
    requires Fifo(s, path) && s.inHand.None?
    ensures Fifo(AfterWrite(s, item), path)
  {
    AppendedItem(s.submitted, item, path);
    One(Some(item), path);
    Associate(WriterPart(s, path), ValidatorPart(s, path), Sole(Some(item), path));
  }

  /** Pushed by the producer onto the validator's inbox. */
  lemma CheckedPush(hand: Queue, inbox: Queue, m: Option<Item>, path: Path)
    ensures (Pick(hand, path) + Pick(inbox + [m], path)) + Pick([], path) ==
      (Pick(hand, path) + Pick(inbox, path)) + Pick([m], path)
  {
    Appended(inbox, m, path);
    One(m, path);
    Associate(Pick(hand, path), Pick(inbox, path), Sole(m, path));
  }

  /** Pushed by the producer onto the writer's inbox, overtaking nothing of its own path. */
  lemma DirectPush(t: seq<Item>, hand: Queue, inbox: Queue, m: Option<Item>, v: seq<Item>, path: Path)
    requires Sole(m, path) == [] || v == []
    ensures (t + (Pick(hand, path) + Pick(inbox + [m], path))) + (v + Pick([], path))
         == (t + (Pick(hand, path) + Pick(inbox, path))) + (v + Pick([m], path))
  {
    Appended(inbox, m, path);
    One(m, path);
    Associate(Pick(hand, path), Pick(inbox, path), Sole(m, path));
    Associate(t, Pick(hand, path) + Pick(inbox, path), Sole(m, path));
  }

  lemma FifoPush(s: State, path: Path)
    requires Fifo(s, path) && PathsOk(s) && s.inHand.Some?
    ensures Fifo(AfterPush(s), path)
  {
    if s.inHand.value.path.Checked? {
      CheckedPush(s.v.hand, s.v.inbox, s.inHand, path);
    } else {
      if path.Direct? { NothingDirect(s); }
      DirectPush(Pick(AsQueue(s.w.taken), path), s.w.hand, s.w.inbox, s.inHand, ValidatorPart(s, path), path);
    }
  }

  lemma NothingDirect(s: State)
    requires PathsOk(s)
    ensures ValidatorPart(s, Direct) == []
  {
    NoneOfPath(s.v.hand, Direct);
    NoneOfPath(s.v.inbox, Direct);
  }

  lemma FifoFlush(s: State, path: Path)
    requires Fifo(s, path)
    ensures Fifo(AfterFlush(s), path)
  {
    Appended(s.v.inbox, None, path);
  }

  lemma FifoPop(s: State, a: Action, path: Path)
    requires Fifo(s, path) && Enabled(s, a) && (a.ValidatorPop? || (a.WriterPop? && s.w.hand == []))
    ensures Fifo(Next(s, a), path)
  {
  }

  /** Handed on by the validator. */
  lemma ValidatorMoves(
    t: seq<Item>, wHand: Queue, wInbox: Queue, vHand: Queue, vInbox: Queue, h: seq<Item>, path: Path)
    requires vHand != []
    ensures (t + (Pick(wHand, path) + Pick(wInbox, path))) + ((Pick(vHand, path) + Pick(vInbox, path)) + h)
         == (t + (Pick(wHand, path) + Pick(wInbox + [vHand[0]], path))) +
           ((Pick(vHand[1..], path) + Pick(vInbox, path)) + h)
    ensures |vHand| == 1 ==> Pick(vHand[1..], path) == Pick([], path)
  {
    Head(vHand, path);
    Appended(wInbox, vHand[0], path);
    Slide(t, Pick(wHand, path), Pick(wInbox, path), Sole(vHand[0], path), Pick(vHand[1..], path),
      Pick(vInbox, path), h);
  }

  lemma Slide(t: seq<Item>, a: seq<Item>, b: seq<Item>, x: seq<Item>, c: seq<Item>, d: seq<Item>, h: seq<Item>)
    ensures (t + (a + b)) + (((x + c) + d) + h) == (t + (a + (b + x))) + ((c + d) + h)
  {
    assert (x + c) + d == x + (c + d);
    assert (x + (c + d)) + h == x + ((c + d) + h);
    Associate(a, b, x);
    Associate(t, a + b, x);
    Associate(t + (a + b), x, (c + d) + h);
  }

  lemma FifoValidator(s: State, path: Path)
    requires Fifo(s, path) && s.v.hand != [] && (s.v.hand[0].None? ==> |s.v.hand| == 1)
    ensures Fifo(AfterValidatorStep(s), path)
  {
    if s.v.hand[0].Some? && !s.v.hand[0].value.valid {
      Head(s.v.hand, path);
    } else {
      ValidatorMoves(Pick(AsQueue(s.w.taken), path), s.w.hand, s.w.inbox, s.v.hand, s.v.inbox,
        Pick(InHand(s), path), path);
    }
  }

  /** Taken up by the writer. */
  lemma WriterMoves(taken: seq<Item>, hand: Queue, inbox: Queue, path: Path)
    requires hand != [] && hand[0].Some?
    ensures Pick(AsQueue(taken + [hand[0].value]), path) + (Pick(hand[1..], path) + Pick(inbox, path))
         == Pick(AsQueue(taken), path) + (Pick(hand, path) + Pick(inbox, path))
  {
    Head(hand, path);
    AppendedItem(taken, hand[0].value, path);
    var t, x, a, b := Pick(AsQueue(taken), path), Sole(hand[0], path), Pick(hand[1..], path), Pick(inbox, path);
    assert (x + a) + b == x + (a + b);
    Associate(t, x, a + b);
  }

  lemma PutBack(hand: Queue, inbox: Queue, path: Path)
    ensures Pick([], path) + Pick(hand + inbox, path) == Pick(hand, path) + Pick(inbox, path)
  {
    Concat(hand, inbox, path);
  }

  lemma FifoTake(s: State, isDup: bool, path: Path)
    requires Fifo(s, path) && PlainFront(s.w.hand)
    ensures Fifo(AfterWriterTake(s, isDup), path)
  {
    if |s.w.batch| >= s.batchSize { PutBack(s.w.hand, s.w.inbox, path); }
    else if s.w.hand[0].Some? { WriterMoves(s.w.taken, s.w.hand, s.w.inbox, path); }
    else { Head(s.w.hand, path); }
  }

  // ----- the sentinel, step by step -----

  lemma SentinelProducer(s: State, a: Action)
    requires SentinelOk(s) && PathsOk(s) && Enabled(s, a) && (a.Write? || a.Push? || a.Flush?) &&
      (a.Write? ==> !a.item.empty)
    ensures SentinelOk(Next(s, a)) && PathsOk(Next(s, a))
  {
  }

  lemma SentinelValidator(s: State, a: Action)
    requires SentinelOk(s) && PathsOk(s) && Enabled(s, a) && (a.ValidatorPop? || a.ValidatorStep?)
    ensures SentinelOk(Next(s, a)) && PathsOk(Next(s, a))
    ensures a.ValidatorStep? && s.v.hand[0].None? ==> |s.v.hand| == 1
  {
  }

  lemma SentinelWriter(s: State, a: Action)
    requires SentinelOk(s) && PathsOk(s) && PhasesOk(s) && Enabled(s, a) && (a.WriterPop? || a.WriterCommit?)
    ensures SentinelOk(Next(s, a)) && PathsOk(Next(s, a)) && PhasesOk(Next(s, a))
  {
  }

  lemma SentinelTake(s: State, isDup: bool)
    requires SentinelOk(s) && PhasesOk(s) && PathsOk(s) && s.w.phase == Collecting
    ensures SentinelOk(AfterWriterTake(s, isDup)) && PhasesOk(AfterWriterTake(s, isDup))
    ensures s.w.hand != [] ==> PlainFront(s.w.hand)
  {
    HoldsTake(s.w.hand, s.w.inbox, s.v.done);
  }

  lemma HoldsTake(hand: Queue, inbox: Queue, sent: bool)
    requires Holds(hand, inbox, false, sent)
    ensures hand != [] && hand[0].None? ==> |hand| == 1 && inbox == [] && sent
    ensures hand != [] && hand[0].Some? ==> Holds(hand[1..], inbox, false, sent)
    ensures Holds([], hand + inbox, false, sent)
  {
  }

  lemma PathsTake(s: State, isDup: bool)
    requires PathsOk(s)
    ensures PathsOk(AfterWriterTake(s, isDup))
  {
  }

  // ----- every step and every run -----

  lemma ProducerKeeps(s: State, a: Action)
    requires Inv(s) && Enabled(s, a) && (a.Write? || a.Push? || a.Flush?) && (a.Write? ==> !a.item.empty)
    ensures Inv(Next(s, a))
  {
    SentinelProducer(s, a);
    match a
    case Write(item) => CountsWrite(s, item); FifoWrite(s, item, Checked); FifoWrite(s, item, Direct);
    case Push => CountsPush(s); FifoPush(s, Checked); FifoPush(s, Direct);
    case Flush => CountsFlush(s); FifoFlush(s, Checked); FifoFlush(s, Direct);
  }

  lemma ValidatorPopKeeps(s: State)
    requires Inv(s) && Enabled(s, ValidatorPop)
    ensures Inv(Next(s, ValidatorPop))
  {
    SentinelValidator(s, ValidatorPop);
    FifoPop(s, ValidatorPop, Checked);
    FifoPop(s, ValidatorPop, Direct);
  }

  /** The validator touches nothing of the writer but its inbox. */
  lemma PhasesValidator(s: State)
    requires PhasesOk(s) && s.v.hand != []
    ensures PhasesOk(AfterValidatorStep(s))
  {
  }

  lemma ValidatorFlows(s: State)
    requires CountsOk(s) && Fifo(s, Checked) && Fifo(s, Direct) && s.v.hand != [] &&
      (s.v.hand[0].None? ==> |s.v.hand| == 1)
    ensures CountsOk(AfterValidatorStep(s)) && Fifo(AfterValidatorStep(s), Checked) &&
      Fifo(AfterValidatorStep(s), Direct)
  {
    CountsValidator(s);
    FifoValidator(s, Checked);
    FifoValidator(s, Direct);
  }

  lemma ValidatorStepKeeps(s: State)
    requires Inv(s) && Enabled(s, ValidatorStep)
    ensures Inv(Next(s, ValidatorStep))
  {
    SentinelValidator(s, ValidatorStep);
    PhasesValidator(s);
    ValidatorFlows(s);
  }

  lemma WriterKeeps(s: State, a: Action)
    requires Inv(s) && Enabled(s, a) && (a.WriterPop? || a.WriterTake? || a.WriterCommit?)
    ensures Inv(Next(s, a))
  {
    if a.WriterTake? {
      SentinelTake(s, a.isDup);
      PathsTake(s, a.isDup);
      if s.w.hand != [] {
        CountsTake(s, a.isDup);
        FifoTake(s, a.isDup, Checked);
        FifoTake(s, a.isDup, Direct);
      }
    } else {
      SentinelWriter(s, a);
      if a.WriterPop? {
        FifoPop(s, a, Checked);
        FifoPop(s, a, Direct);
      }
    }
  }

  lemma StepKeeps(s: State, a: Action)
    requires Inv(s) && Enabled(s, a) && (a.Write? ==> !a.item.empty)
    ensures Inv(Next(s, a))
  {
    if a.Write? || a.Push? || a.Flush? { ProducerKeeps(s, a); }
    else if a.ValidatorPop? { ValidatorPopKeeps(s); }
    else if a.ValidatorStep? { ValidatorStepKeeps(s); }
    else { WriterKeeps(s, a); }
  }

  ghost predicate IsRun(states: seq<State>, actions: seq<Action>) {
    && |states| == |actions| + 1 && Initial(states[0])
    && forall j | 0 <= j < |actions| :: StepOk(states, actions, j)
  }

  ghost predicate StepOk(states: seq<State>, actions: seq<Action>, j: nat)
    requires j < |actions| && |states| == |actions| + 1
  {
    Enabled(states[j], actions[j]) && states[j + 1] == Next(states[j], actions[j])
  }

  /** No event was submitted with an empty packed string. */
  predicate NoneEmpty(items: seq<Item>) {
    forall i | 0 <= i < |items| :: !items[i].empty
  }

  lemma SubmittedGrows(s: State, a: Action)
    requires Enabled(s, a)
    ensures Next(s, a).submitted == s.submitted + if a.Write? then [a.item] else []
  {
  }

  lemma {:induction false} RunKeeps(states: seq<State>, actions: seq<Action>, k: nat)
    requires IsRun(states, actions) && k < |states| && NoneEmpty(states[k].submitted)
    ensures Inv(states[k])
  {
    if k > 0 {
      assert StepOk(states, actions, k - 1);
      StepSubmits(states[k - 1], actions[k - 1]);
      RunKeeps(states, actions, k - 1);
      StepKeeps(states[k - 1], actions[k - 1]);
    }
  }

  lemma StepSubmits(s: State, a: Action)
    requires Enabled(s, a) && NoneEmpty(Next(s, a).submitted)
    ensures NoneEmpty(s.submitted) && (a.Write? ==> !a.item.empty)
  {
    SubmittedGrows(s, a);
    assert forall i | 0 <= i < |s.submitted| :: Next(s, a).submitted[i] == s.submitted[i];
    assert a.Write? ==> Next(s, a).submitted[|s.submitted|] == a.item;
  }

  /**
   When `flush` can return, nothing is queued or in hand, every event submitted was counted
   exactly once as written, rejected or duplicate, and the writer took up every event that
   passed verification, on each path in the order submitted.
   */
  lemma FlushLosesNothing(states: seq<State>, actions: seq<Action>, k: nat, path: Path)
    requires IsRun(states, actions) && k < |states| && states[k].w.flushInbox && NoneEmpty(states[k].submitted)
    ensures var s := states[k];
      && s.n.numLive == 0 && s.w.batch == []
      && |s.submitted| == s.n.written + s.n.rejected + s.n.dups
      && Pick(AsQueue(s.w.taken), path) == Pick(AsQueue(s.submitted), path)
  {
    RunKeeps(states, actions, k);
  }
}
