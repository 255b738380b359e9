/**
 Local event ids under the writer and the expiry pass. The pass reads in one
 transaction and deletes in another, and the writer may run in between.
 */
module LevIds {
  import opened Events
  import opened Writes
  import opened Database

  datatype StoreState = StoreState(events: EventTable, pending: set<nat>, issued: set<nat>)

  datatype StoreOp = Write(e: Event, isRepeat: bool) | CronRead(now: nat, lifetime: nat) | CronDelete

  ghost function Issues(s: StoreState, op: StoreOp): set<nat> {
    if op.Write? && Verdict(s.events, op.e, op.isRepeat) == Written then {MaxLev(s.events.Keys) + 1} else {}
  }

  ghost function StoreNext(s: StoreState, op: StoreOp): StoreState {
    match op
    case Write(e, isRepeat) =>
      s.(events := AfterWrite(s.events, e, isRepeat), issued := s.issued + Issues(s, op))
    case CronRead(now, lifetime) =>
      s.(pending := set lev <- s.events | Expired(s.events, now, lifetime, lev))
    case CronDelete =>
      s.(events := s.events - s.pending, pending := {})
  }

  /** Ids ever assigned stay at or below the largest stored one; what awaits deletion stays below it. */
  ghost predicate LevInv(s: StoreState) {
    && s.events.Keys <= s.issued
    && (forall lev <- s.issued :: lev <= MaxLev(s.events.Keys))
    && (forall lev <- s.pending :: lev < MaxLev(s.events.Keys))
  }

  lemma StoreStep(s: StoreState, op: StoreOp)
    requires LevInv(s)
    ensures LevInv(StoreNext(s, op))
    ensures MaxLev(StoreNext(s, op).events.Keys) >= MaxLev(s.events.Keys)
    ensures StoreNext(s, op).issued == s.issued + Issues(s, op) && Issues(s, op) !! s.issued
  {
    match op
    case Write(e, isRepeat) =>
      WriteRaisesMax(s.events, e, isRepeat);
    case CronRead(now, lifetime) =>
    case CronDelete =>
      NewestStays(s);
  }

  /** The pass leaves the newest event alone, even where a write came between its two transactions. */
  lemma NewestStays(s: StoreState)
    requires LevInv(s)
    ensures MaxLev((s.events - s.pending).Keys) == MaxLev(s.events.Keys)
  {
    if s.events != map[] {
      assert MaxLev(s.events.Keys) in s.events - s.pending;
    } else {
      assert s.events - s.pending == s.events;
    }
  }

  ghost predicate StepAt(states: seq<StoreState>, ops: seq<StoreOp>, k: nat)
    requires k < |ops| && |states| == |ops| + 1
  {
    states[k + 1] == StoreNext(states[k], ops[k])
  }

  /** The states of a run of any operations from one in which the invariant holds. */
  ghost predicate IsStoreRun(states: seq<StoreState>, ops: seq<StoreOp>) {
    && |states| == |ops| + 1 && LevInv(states[0])
    && forall k :: 0 <= k < |ops| ==> StepAt(states, ops, k)
  }

  /** The largest levId has not fallen, and what was issued stays issued. */
  ghost predicate Grown(a: StoreState, b: StoreState) {
    MaxLev(a.events.Keys) <= MaxLev(b.events.Keys) && a.issued <= b.issued
  }

  lemma StepGrows(states: seq<StoreState>, ops: seq<StoreOp>, k: nat)
    requires IsStoreRun(states, ops) && k < |ops| && LevInv(states[k])
    ensures LevInv(states[k + 1]) && Grown(states[k], states[k + 1])
    ensures Issues(states[k], ops[k]) <= states[k + 1].issued && Issues(states[k], ops[k]) !! states[k].issued
  {
    assert StepAt(states, ops, k);
    StoreStep(states[k], ops[k]);
  }

  lemma {:induction false} StoreRunKeeps(states: seq<StoreState>, ops: seq<StoreOp>, k: nat)
    requires IsStoreRun(states, ops) && k <= |ops|
    ensures LevInv(states[k])
  {
    if k > 0 {
      StoreRunKeeps(states, ops, k - 1);
      StepGrows(states, ops, k - 1);
    }
  }

  lemma {:induction false} StoreRunGrows(states: seq<StoreState>, ops: seq<StoreOp>, i: nat, j: nat)
    requires IsStoreRun(states, ops) && i <= j <= |ops|
    ensures Grown(states[i], states[j])
    decreases j
  {
    if i < j {
      StoreRunGrows(states, ops, i, j - 1);
      StoreRunKeeps(states, ops, j - 1);
      StepGrows(states, ops, j - 1);
      GrownOn(states[i], states[j - 1], states[j]);
    }
  }

  lemma GrownOn(a: StoreState, b: StoreState, c: StoreState)
    requires Grown(a, b) && Grown(b, c)
    ensures Grown(a, c)
  {
  }

  /** Over every interleaving, the largest levId never decreases and no levId is assigned twice. */
  lemma LevIdsNeverReused(states: seq<StoreState>, ops: seq<StoreOp>, i: nat, j: nat)
    requires IsStoreRun(states, ops) && i < j < |ops|
    ensures MaxLev(states[i].events.Keys) <= MaxLev(states[j].events.Keys)
    ensures Issues(states[i], ops[i]) !! Issues(states[j], ops[j])
  {
    StoreRunGrows(states, ops, i, j);
    StoreRunGrows(states, ops, i + 1, j);
    StoreRunKeeps(states, ops, i);
    StoreRunKeeps(states, ops, j);
    StepGrows(states, ops, i);
    StepGrows(states, ops, j);
  }
}
