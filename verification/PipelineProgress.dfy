/**
 What holds of the import pipeline (src/WriterPipeline.h) whatever is submitted: whether
 `flush` returns, and exactly when nothing is lost. With a batch size of at least one,
 every step after `flush` brings its return nearer, and some step is possible until then;
 with a batch size of zero the writer puts everything back for ever. An event with an
 empty packed string ends the writer like the sentinel does.
 */
module PipelineProgress {
  import opened Events
  import opened Pipeline

  // ----- the shape of every reachable state -----

  /** The validator passes the sentinel on last; a writer that has not stopped has it ahead. */
  ghost predicate Shape(s: State) {
    && (s.flushed ==> s.inHand.None?) && (s.v.done ==> s.flushed)
    && Holds(s.v.hand, s.v.inbox, s.v.done, s.flushed)
    && (!s.w.shutdownComplete ==> Holds(s.w.hand, s.w.inbox, false, s.v.done))
    && PhasesOk(s)
  }

  lemma ShapeProducer(s: State, a: Action)
    requires Shape(s) && Enabled(s, a) && (a.Write? || a.Push? || a.Flush?)
    ensures Shape(Next(s, a))
  {
  }

  lemma ShapeValidator(s: State, a: Action)
    requires Shape(s) && Enabled(s, a) && (a.ValidatorPop? || a.ValidatorStep?)
    ensures Shape(Next(s, a))
    ensures a.ValidatorStep? && s.v.hand[0].None? ==> |s.v.hand| == 1
  {
  }

  lemma ShapeTake(s: State, isDup: bool)
    requires Shape(s) && s.w.phase == Collecting
    ensures Shape(AfterWriterTake(s, isDup))
  {
    HoldsTake(s.w.hand, s.w.inbox, s.v.done);
  }

  lemma ShapeWriter(s: State, a: Action)
    requires Shape(s) && Enabled(s, a) && (a.WriterPop? || a.WriterCommit?)
    ensures Shape(Next(s, a))
  {
  }

  lemma ShapeStep(s: State, a: Action)
    requires Shape(s) && Enabled(s, a)
    ensures Shape(Next(s, a))
  {
    if a.Write? || a.Push? || a.Flush? { ShapeProducer(s, a); }
    else if a.ValidatorPop? || a.ValidatorStep? { ShapeValidator(s, a); }
    else if a.WriterTake? { ShapeTake(s, a.isDup); }
    else { ShapeWriter(s, a); }
  }

  lemma {:induction false} RunShape(states: seq<State>, actions: seq<Action>, k: nat)
    requires IsRun(states, actions) && k < |states|
    ensures Shape(states[k])
  {
    if k > 0 {
      RunShape(states, actions, k - 1);
      assert StepOk(states, actions, k - 1);
      ShapeStep(states[k - 1], actions[k - 1]);
    }
  }

  // ----- progress -----

  /** The way every message still has to go: producer, validator's inbox and hand, writer. */
  function Distance(s: State): nat {
    (if s.inHand.Some? then 4 else 0) + 3 * |s.v.inbox| + 2 * |s.v.hand| + |s.w.inbox| + |s.w.hand|
  }

  /** Steps the writer can take before it takes up a message. */
  function Turns(s: State): nat {
    match s.w.phase
    case Waiting => 2
    case Collecting => if s.w.batch == [] && s.w.hand != [] then 1 else 4
    case Writing => 3
    case Finished => 0
  }

  function Remaining(s: State): nat {
    5 * Distance(s) + Turns(s)
  }

  /** After `flush` the producer does nothing more. */
  lemma NoMoreWrites(s: State, a: Action)
    requires Shape(s) && s.flushed && Enabled(s, a)
    ensures !a.Write? && !a.Push? && !a.Flush?
  {
  }

  lemma ValidatorPopNearer(s: State)
    requires Enabled(s, ValidatorPop)
    ensures Remaining(Next(s, ValidatorPop)) < Remaining(s)
  {
  }

  lemma ValidatorStepNearer(s: State)
    requires s.v.hand != [] && (s.v.hand[0].None? ==> |s.v.hand| == 1)
    ensures Remaining(AfterValidatorStep(s)) < Remaining(s)
    ensures AfterValidatorStep(s).batchSize == s.batchSize && AfterValidatorStep(s).flushed == s.flushed
  {
  }

  lemma WriterTakeNearer(s: State, isDup: bool)
    requires s.batchSize > 0 && s.w.phase == Collecting
    ensures Remaining(AfterWriterTake(s, isDup)) < Remaining(s)
    ensures AfterWriterTake(s, isDup).batchSize == s.batchSize && AfterWriterTake(s, isDup).flushed == s.flushed
  {
  }

  lemma WriterNearer(s: State, a: Action)
    requires PhasesOk(s) && Enabled(s, a) && (a.WriterPop? || a.WriterCommit?)
    ensures Remaining(Next(s, a)) < Remaining(s) && Next(s, a).batchSize == s.batchSize &&
      Next(s, a).flushed == s.flushed
  {
  }

  /** Every step after `flush` brings its return nearer. */
  lemma StepNearer(s: State, a: Action)
    requires Shape(s) && s.flushed && s.batchSize > 0 && Enabled(s, a)
    ensures Remaining(Next(s, a)) < Remaining(s) && Next(s, a).batchSize == s.batchSize && Next(s, a).flushed
  {
    NoMoreWrites(s, a);
    if a.ValidatorPop? {
      ValidatorPopNearer(s);
    } else if a.ValidatorStep? {
      ShapeValidator(s, a);
      ValidatorStepNearer(s);
    } else if a.WriterTake? {
      WriterTakeNearer(s, a.isDup);
    } else {
      WriterNearer(s, a);
    }
  }

  /** As long as `flush` cannot return, some thread can take a step. */
  lemma NeverStuck(s: State) returns (a: Action)
    requires Shape(s) && s.flushed && !s.w.flushInbox
    ensures Enabled(s, a)
  {
    if !s.v.done {
      a := if s.v.hand != [] then ValidatorStep else ValidatorPop;
    } else {
      match s.w.phase
      case Waiting => a := WriterPop;
      case Collecting => a := WriterTake(false);
      case Writing => a := WriterCommit(0);
    }
  }

  /** After `flush` a run has at most so many steps left, and unless `flush` can return it can go on. */
  lemma {:induction false} FlushReturns(states: seq<State>, actions: seq<Action>, k: nat)
    requires IsRun(states, actions) && k < |states| && states[k].flushed && states[k].batchSize > 0
    ensures |actions| - k <= Remaining(states[k])
    ensures states[|actions|].w.flushInbox || exists a :: Enabled(states[|actions|], a)
    decreases |states| - k
  {
    RunShape(states, actions, k);
    if k == |actions| {
      if !states[k].w.flushInbox {
        var a := NeverStuck(states[k]);
      }
    } else {
      assert StepOk(states, actions, k);
      StepNearer(states[k], actions[k]);
      FlushReturns(states, actions, k + 1);
    }
  }

  lemma BatchSizeStep(s: State, a: Action)
    requires Enabled(s, a)
    ensures Next(s, a).batchSize == s.batchSize
  {
  }

  lemma {:induction false} BatchSizeStays(states: seq<State>, actions: seq<Action>, k: nat)
    requires IsRun(states, actions) && k < |states|
    ensures states[k].batchSize == states[0].batchSize
  {
    if k > 0 {
      BatchSizeStays(states, actions, k - 1);
      assert StepOk(states, actions, k - 1);
      BatchSizeStep(states[k - 1], actions[k - 1]);
    }
  }

  /** With a batch size of zero the writer takes up nothing, and `flush` never returns. */
  lemma {:induction false} ZeroBatchNeverReturns(states: seq<State>, actions: seq<Action>, k: nat)
    requires IsRun(states, actions) && k < |states| && states[0].batchSize == 0
    ensures states[k].w.taken == [] && !states[k].w.shutdownComplete && !states[k].w.flushInbox
  {
    if k > 0 {
      ZeroBatchNeverReturns(states, actions, k - 1);
      BatchSizeStays(states, actions, k - 1);
      assert StepOk(states, actions, k - 1);
      ZeroBatchStep(states[k - 1], actions[k - 1]);
    }
  }

  lemma ZeroBatchStep(s: State, a: Action)
    requires Enabled(s, a) && s.batchSize == 0 && s.w.taken == [] && !s.w.shutdownComplete && !s.w.flushInbox
    ensures var w := Next(s, a).w; w.taken == [] && !w.shutdownComplete && !w.flushInbox
  {
  }

  // ----- empty packed strings -----

  predicate HasEmpty(q: Queue) {
    exists i | 0 <= i < |q| :: q[i].Some? && q[i].value.empty
  }

  function InFlow(s: State): nat {
    Live(InHand(s)) + Live(s.v.inbox) + Live(s.v.hand) + Live(s.w.inbox) + Live(s.w.hand)
  }

  /** How many events were submitted and are neither under way nor counted. */
  function Lost(s: State): int {
    |s.submitted| - s.n.written - s.n.rejected - s.n.dups - |s.w.batch| - InFlow(s)
  }

  /** An event with an empty packed string is on its way to the writer. */
  predicate EmptyAhead(s: State) {
    HasEmpty(InHand(s)) || HasEmpty(s.w.inbox) || HasEmpty(s.w.hand)
  }

  /** Nothing is counted that was not submitted, and an empty one is ahead or is lost. */
  ghost predicate Accounted(s: State) {
    Lost(s) >= 0 && (!NoneEmpty(s.submitted) ==> Lost(s) > 0 || EmptyAhead(s))
  }

  /** Nothing empty goes through the validator. */
  ghost predicate CheckedAreFull(s: State) {
    AllChecked(s.v.hand) && AllChecked(s.v.inbox) &&
      (s.inHand.Some? && s.inHand.value.path.Checked? ==> !s.inHand.value.empty)
  }

  lemma CheckedStep(s: State, a: Action)
    requires CheckedAreFull(s) && Enabled(s, a)
    ensures CheckedAreFull(Next(s, a))
  {
  }

  lemma EmptyIsLive(q: Queue)
    requires HasEmpty(q)
    ensures Live(q) > 0
    decreases |q|
  {
    var i :| 0 <= i < |q| && q[i].Some? && q[i].value.empty;
    if i > 0 {
      assert q[1..][i - 1] == q[i];
      EmptyIsLive(q[1..]);
    }
  }

  lemma HasEmptyConcat(a: Queue, b: Queue)
    ensures HasEmpty(a + b) <==> HasEmpty(a) || HasEmpty(b)
  {
    if HasEmpty(a) {
      var i :| 0 <= i < |a| && a[i].Some? && a[i].value.empty;
      assert (a + b)[i] == a[i];
    }
    if HasEmpty(b) {
      var i :| 0 <= i < |b| && b[i].Some? && b[i].value.empty;
      assert (a + b)[|a| + i] == b[i];
    }
  }

  lemma AccountedWrite(s: State, item: Item)
    requires Accounted(s) && s.inHand.None? && (item.path.Checked? ==> !item.empty)
    ensures Accounted(AfterWrite(s, item))
  {
    One(Some(item), Checked);
    assert [Some(item)][0].value == item;
    if item.empty {
      assert HasEmpty([Some(item)]);
    } else {
      assert NoneEmpty(s.submitted) ==> NoneEmpty(s.submitted + [item]);
    }
  }

  lemma AccountedPush(s: State)
    requires Accounted(s) && CheckedAreFull(s) && s.inHand.Some?
    ensures Accounted(AfterPush(s))
  {
    LiveMoves(s.v.inbox, s.inHand);
    LiveMoves(s.w.inbox, s.inHand);
    HasEmptyConcat(s.w.inbox, [s.inHand]);
  }

  lemma AccountedFlush(s: State)
    requires Accounted(s)
    ensures Accounted(AfterFlush(s))
  {
    LiveMoves(s.v.inbox, None);
    One(None, Checked);
  }

  lemma AccountedReject(s: State)
    requires Accounted(s) && s.v.hand != [] && s.v.hand[0].Some? && !s.v.hand[0].value.valid
    ensures Accounted(AfterValidatorStep(s))
  {
    LiveHandedOn(s.v.hand, s.w.inbox);
  }

  lemma AccountedPass(s: State)
    requires Accounted(s) && s.v.hand != [] && (if s.v.hand[0].None? then |s.v.hand| == 1 else s.v.hand[0].value.valid)
    ensures Accounted(AfterValidatorStep(s))
  {
    LiveHandedOn(s.v.hand, s.w.inbox);
    HasEmptyConcat(s.w.inbox, [s.v.hand[0]]);
  }

  lemma AccountedPutBack(s: State, isDup: bool)
    requires Accounted(s) && s.w.phase == Collecting && (s.w.hand == [] || |s.w.batch| >= s.batchSize)
    ensures Accounted(AfterWriterTake(s, isDup))
  {
    LivePutBack(s.w.hand, s.w.inbox);
    HasEmptyConcat(s.w.hand, s.w.inbox);
  }

  lemma AccountedStop(s: State, isDup: bool)
    requires Accounted(s) && s.w.phase == Collecting && s.w.hand != [] && |s.w.batch| < s.batchSize
    requires LooksLikeSentinel(s.w.hand[0])
    ensures Accounted(AfterWriterTake(s, isDup))
  {
    if HasEmpty(s.w.hand) { EmptyIsLive(s.w.hand); }
  }

  lemma AccountedTake(s: State, isDup: bool)
    requires Accounted(s) && s.w.phase == Collecting && s.w.hand != [] && |s.w.batch| < s.batchSize
    requires !LooksLikeSentinel(s.w.hand[0])
    ensures Accounted(AfterWriterTake(s, isDup))
  {
    Head(s.w.hand, Checked);
    EmptyBehind(s.w.hand);
  }

  lemma EmptyBehind(q: Queue)
    requires q != [] && !(q[0].Some? && q[0].value.empty)
    ensures HasEmpty(q) ==> HasEmpty(q[1..])
  {
    if HasEmpty(q) {
      var i :| 0 <= i < |q| && q[i].Some? && q[i].value.empty;
      assert q[1..][i - 1] == q[i];
    }
  }

  lemma AccountedWriter(s: State, isDup: bool)
    requires Accounted(s) && s.w.phase == Collecting
    ensures Accounted(AfterWriterTake(s, isDup))
  {
    if s.w.hand == [] || |s.w.batch| >= s.batchSize { AccountedPutBack(s, isDup); }
    else if LooksLikeSentinel(s.w.hand[0]) { AccountedStop(s, isDup); }
    else { AccountedTake(s, isDup); }
  }

  lemma AccountedPop(s: State, a: Action)
    requires Accounted(s) && Enabled(s, a) && (a.ValidatorPop? || (a.WriterPop? && s.w.hand == []) || a.WriterCommit?)
    ensures Accounted(Next(s, a))
  {
  }

  lemma AccountedStep(s: State, a: Action)
    requires Shape(s) && Accounted(s) && CheckedAreFull(s) && Enabled(s, a)
    ensures Accounted(Next(s, a))
  {
    match a
    case Write(item) => AccountedWrite(s, item);
    case Push => AccountedPush(s);
    case Flush => AccountedFlush(s);
    case ValidatorStep =>
      ShapeValidator(s, a);
      if s.v.hand[0].Some? && !s.v.hand[0].value.valid { AccountedReject(s); } else { AccountedPass(s); }
    case WriterTake(isDup) => AccountedWriter(s, isDup);
    case _ => AccountedPop(s, a);
  }

  lemma {:induction false} RunAccounted(states: seq<State>, actions: seq<Action>, k: nat)
    requires IsRun(states, actions) && k < |states|
    ensures Accounted(states[k]) && CheckedAreFull(states[k])
  {
    if k > 0 {
      RunAccounted(states, actions, k - 1);
      RunShape(states, actions, k - 1);
      assert StepOk(states, actions, k - 1);
      CheckedStep(states[k - 1], actions[k - 1]);
      AccountedStep(states[k - 1], actions[k - 1]);
    }
  }

  /** When the writer has stopped, every event was counted if and only if none had an empty packed string. */
  lemma NothingLostIff(states: seq<State>, actions: seq<Action>, k: nat)
    requires IsRun(states, actions) && k < |states| && states[k].w.flushInbox
    ensures var s := states[k];
      |s.submitted| == s.n.written + s.n.rejected + s.n.dups <==> NoneEmpty(s.submitted)
  {
    var s := states[k];
    if NoneEmpty(s.submitted) {
      FlushLosesNothing(states, actions, k, Checked);
    } else {
      RunAccounted(states, actions, k);
      if HasEmpty(InHand(s)) { EmptyIsLive(InHand(s)); }
      if HasEmpty(s.w.inbox) { EmptyIsLive(s.w.inbox); }
      if HasEmpty(s.w.hand) { EmptyIsLive(s.w.hand); }
    }
  }
}
