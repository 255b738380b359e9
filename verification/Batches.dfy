/**
 Whole runs of `writeEvents`: batches are sorted by (created_at, id) and written in
 turn. When the outcome depends only on what was submitted, and what a status says.
 */
module Batches {
  import opened Lex
  import opened Events
  import opened Writes
  import opened Settling

  /** The order a batch is written in. */
  predicate Earlier(a: Event, b: Event) {
    a.created < b.created || (a.created == b.created && Less(a.id, b.id))
  }

  predicate BatchSorted(evs: seq<Event>) {
    forall i, j | 0 <= i < j < |evs| :: !Earlier(evs[j], evs[i])
  }

  function Insert(evs: seq<Event>, e: Event): seq<Event> {
    if evs == [] || !Earlier(e, evs[|evs| - 1]) then evs + [e]
    else Insert(evs[..|evs| - 1], e) + [evs[|evs| - 1]]
  }

  /** `std::sort` of the batch. */
  function SortBatch(evs: seq<Event>): seq<Event> {
    if evs == [] then [] else Insert(SortBatch(evs[..|evs| - 1]), evs[|evs| - 1])
  }

  lemma {:induction false} InsertKeeps(evs: seq<Event>, e: Event)
    ensures multiset(Insert(evs, e)) == multiset(evs) + multiset{e}
    decreases |evs|
  {
    if evs != [] && Earlier(e, evs[|evs| - 1]) {
      InsertKeeps(evs[..|evs| - 1], e);
      assert evs == evs[..|evs| - 1] + [evs[|evs| - 1]];
    }
  }

  lemma EarlierTransitive(a: Event, b: Event, c: Event)
    requires !Earlier(b, a) && !Earlier(c, b)
    ensures !Earlier(c, a)
  {
    LessTotal(a.id, b.id);
    LessTotal(b.id, c.id);
    if Less(c.id, a.id) {
      if Less(a.id, b.id) { LessTransitive(c.id, a.id, b.id); }
      if Less(b.id, c.id) { LessTransitive(b.id, c.id, a.id); }
    }
  }

  lemma InsertHas(evs: seq<Event>, e: Event, x: Event)
    requires x in Insert(evs, e)
    ensures x == e || x in evs
  {
    InsertKeeps(evs, e);
    assert x in multiset(Insert(evs, e));
  }

  lemma EarlierAsymmetric(a: Event, b: Event)
    requires Earlier(a, b)
    ensures !Earlier(b, a)
  {
    if Less(a.id, b.id) { LessAsymmetric(a.id, b.id); }
  }

  lemma {:induction false} InsertSorts(evs: seq<Event>, e: Event)
    requires BatchSorted(evs)
    ensures BatchSorted(Insert(evs, e))
    decreases |evs|
  {
    var n := |evs| - 1;
    if n >= 0 {
      var last := evs[n];
      if Earlier(e, last) {
        var front := Insert(evs[..n], e);
        InsertSorts(evs[..n], e);
        EarlierAsymmetric(e, last);
        forall i | 0 <= i < |front| ensures !Earlier(last, front[i]) { InsertHas(evs[..n], e, front[i]); }
      } else {
        forall i | 0 <= i < n ensures !Earlier(e, evs[i]) { EarlierTransitive(evs[i], last, e); }
      }
    }
  }

  lemma {:induction false} SortBatchSorts(evs: seq<Event>)
    ensures multiset(SortBatch(evs)) == multiset(evs)
    ensures BatchSorted(SortBatch(evs))
    decreases |evs|
  {
    if evs != [] {
      var n := |evs| - 1;
      SortBatchSorts(evs[..n]);
      InsertKeeps(SortBatch(evs[..n]), evs[n]);
      InsertSorts(SortBatch(evs[..n]), evs[n]);
      assert evs == evs[..n] + [evs[n]];
    }
  }

  lemma SortBatchSame(evs: seq<Event>)
    ensures forall e :: e in SortBatch(evs) <==> e in evs
  {
    SortBatchSorts(evs);
    forall e ensures e in SortBatch(evs) <==> e in evs {
      assert e in SortBatch(evs) <==> e in multiset(SortBatch(evs));
    }
  }

  ghost function AfterBatches(events: EventTable, bs: seq<seq<Event>>): EventTable {
    if bs == [] then events
    else AfterAll(AfterBatches(events, bs[..|bs| - 1]), SortBatch(bs[|bs| - 1]))
  }

  ghost function Submitted(bs: seq<seq<Event>>): set<Event> {
    if bs == [] then {} else Submitted(bs[..|bs| - 1]) + ToSet(bs[|bs| - 1])
  }

  /** Every run of batches keeps the store's invariants and never lowers the largest levId. */
  lemma {:induction false} BatchesKeepInv(events: EventTable, bs: seq<seq<Event>>)
    requires StoreInv(events) && forall e <- Submitted(bs) :: NotSelfReferring(e)
    ensures StoreInv(AfterBatches(events, bs))
    ensures MaxLev(AfterBatches(events, bs).Keys) >= MaxLev(events.Keys)
    decreases |bs|
  {
    if bs != [] {
      var n := |bs| - 1;
      BatchesKeepInv(events, bs[..n]);
      SortBatchSame(bs[n]);
      WritesKeepInv(AfterBatches(events, bs[..n]), SortBatch(bs[n]));
    }
  }

  // ----- the outcome of a run -----

  lemma {:induction false} BatchesSettleFrom(events: EventTable, C: set<Event>, bs: seq<seq<Event>>)
    requires Wellbehaved(C, Submitted(bs)) && Settled(events, C)
    ensures Settled(AfterBatches(events, bs), C + Admissible(C, Submitted(bs)))
    decreases |bs|
  {
    if bs == [] {
      assert C + Admissible(C, {}) == C;
    } else {
      var n := |bs| - 1;
      Smaller(C, Submitted(bs[..n]), Submitted(bs));
      BatchesSettleFrom(events, C, bs[..n]);
      SortedToSet(bs[n]);
      WritesSettle(AfterBatches(events, bs[..n]), C, Submitted(bs[..n]), SortBatch(bs[n]), Submitted(bs));
    }
  }

  lemma SortedToSet(batch: seq<Event>)
    ensures ToSet(SortBatch(batch)) == ToSet(batch)
  {
    SortBatchSame(batch);
  }

  /** What may be submitted to a store so that the outcome is certain. */
  ghost predicate Certain(events: EventTable, S: set<Event>) {
    ClosedFrom(Contents(events), S) && IdsDetermine(Contents(events) + S) && NoneSelfReferring(S)
  }

  /** The store ends with what lasts of its old contents and of what they let in. */
  lemma BatchesSettle(events: EventTable, bs: seq<seq<Event>>)
    requires StoreInv(events) && Certain(events, Submitted(bs))
    ensures Contents(AfterBatches(events, bs)) ==
      Lasting(Contents(events) + Admissible(Contents(events), Submitted(bs)))
  {
    StoreIsSettled(events);
    BatchesSettleFrom(events, Contents(events), bs);
  }

  /** Arrival order, repeats and batch boundaries do not matter. */
  lemma OrderDoesNotMatter(events: EventTable, bs1: seq<seq<Event>>, bs2: seq<seq<Event>>)
    requires StoreInv(events) && Certain(events, Submitted(bs1)) && Submitted(bs1) == Submitted(bs2)
    ensures Contents(AfterBatches(events, bs1)) == Contents(AfterBatches(events, bs2))
  {
    BatchesSettle(events, bs1);
    BatchesSettle(events, bs2);
  }

  // ----- without deletion requests in the input -----

  /** The newest event of each address, and everything that has none. */
  function Winners(X: set<Event>): set<Event> {
    set e <- X | forall o <- X :: !(SameAddress(o, e) && Beats(o, e))
  }

  lemma DeletionFreeIsCertain(events: EventTable, S: set<Event>)
    requires StoreInv(events) && IdsDetermine(Contents(events) + S) && forall e <- S :: e.kind != DELETION_KIND
    ensures Certain(events, S)
    ensures var X := Contents(events) + Admissible(Contents(events), S); Lasting(X) == Winners(X)
  {
    StoreIsSettled(events);
    var X := Contents(events) + Admissible(Contents(events), S);
    assert forall d <- X, e <- X :: !Deletes(d, e);
  }

  /** Each address ends with its newest event, ties going to the smaller id; the rest is all kept. */
  lemma BatchesElect(events: EventTable, bs: seq<seq<Event>>)
    requires StoreInv(events) && IdsDetermine(Contents(events) + Submitted(bs))
    requires forall e <- Submitted(bs) :: e.kind != DELETION_KIND
    ensures Contents(AfterBatches(events, bs)) ==
      Winners(Contents(events) + Admissible(Contents(events), Submitted(bs)))
  {
    DeletionFreeIsCertain(events, Submitted(bs));
    BatchesSettle(events, bs);
  }

  // ----- with deletion requests: exactly when order does not matter -----

  /** Whatever is submitted of A to an empty store, in whatever order and batches, the outcome is the same. */
  ghost predicate OrderFree(A: set<Event>) {
    forall bs1, bs2 | Submitted(bs1) == Submitted(bs2) && Submitted(bs1) <= A ::
      Contents(AfterBatches(map[], bs1)) == Contents(AfterBatches(map[], bs2))
  }

  /** Order does not matter exactly if whoever deletes an event also deletes what that event removes. */
  lemma OrderFreeIffClosed(A: set<Event>)
    requires IdsDetermine(A) && NoneSelfReferring(A)
    ensures OrderFree(A) <==> Closed(A)
  {
    if Closed(A) {
      forall bs1, bs2 | Submitted(bs1) == Submitted(bs2) && Submitted(bs1) <= A
        ensures Contents(AfterBatches(map[], bs1)) == Contents(AfterBatches(map[], bs2))
      {
        ClosedIsCertain(A, Submitted(bs1));
        OrderDoesNotMatter(map[], bs1, bs2);
      }
    } else {
      var d, e, x :| d in A && e in A && x in A && Deletes(d, e) && Removes(e, x) && !Deletes(d, x);
      var bs1, bs2 := OrderShows(A, d, e, x);
    }
  }

  lemma ClosedIsCertain(A: set<Event>, S: set<Event>)
    requires IdsDetermine(A) && NoneSelfReferring(A) && Closed(A) && S <= A
    ensures Certain(map[], S)
  {
    assert Contents(map[]) == {};
    assert Contents(map[]) + Admissible({}, S) == S && Contents(map[]) + S == S;
  }

  /** Two ways to submit the same events that end differently. */
  lemma OrderShows(A: set<Event>, d: Event, e: Event, x: Event) returns (bs1: seq<seq<Event>>, bs2: seq<seq<Event>>)
    requires IdsDetermine(A) && NoneSelfReferring(A) && d in A && e in A && x in A
    requires Deletes(d, e) && Removes(e, x) && !Deletes(d, x)
    ensures Submitted(bs1) == Submitted(bs2) && Submitted(bs1) <= A
    ensures Contents(AfterBatches(map[], bs1)) != Contents(AfterBatches(map[], bs2))
  {
    var p, q := OrdersThatDiffer(A, d, e, x);
    bs1, bs2 := Singles(p), Singles(q);
    SinglesInTurn(p);
    SinglesInTurn(q);
  }

  lemma OrdersThatDiffer(A: set<Event>, d: Event, e: Event, x: Event) returns (p: seq<Event>, q: seq<Event>)
    requires IdsDetermine(A) && NoneSelfReferring(A) && d in A && e in A && x in A
    requires Deletes(d, e) && Removes(e, x) && !Deletes(d, x)
    ensures ToSet(p) == ToSet(q) <= A && Contents(InTurn(p)) != Contents(InTurn(q))
  {
    BeatsIsOrder(e, e, e);
    if Deletes(x, e) {
      p, q := [e, x], [x, e];
      SubsetDetermines({e, x}, A);
      MutualOrder(e, x);
    } else {
      p, q := [d, e, x], [x, e, d];
      SubsetDetermines({d, e, x}, A);
      ChainOrder(d, e, x);
    }
  }

  lemma MutualOrder(e: Event, x: Event)
    requires IdsDetermine({e, x}) && Deletes(e, x) && Deletes(x, e) && e != x
    ensures Contents(InTurn([e, x])) == {e} && Contents(InTurn([x, e])) == {x}
    ensures ToSet([e, x]) == {e, x} && ToSet([x, e]) == {e, x}
  {
    assert {e, x} == {x, e};
    TwoInTurn(e, x);
    TwoInTurn(x, e);
  }

  lemma ChainOrder(d: Event, e: Event, x: Event)
    requires IdsDetermine({d, e, x}) && Deletes(d, e) && Removes(e, x) && !Deletes(d, x) && !Deletes(x, e) && e != x
    ensures x in Contents(InTurn([d, e, x])) && x !in Contents(InTurn([x, e, d]))
    ensures ToSet([d, e, x]) == {d, e, x} && ToSet([x, e, d]) == {d, e, x}
  {
    assert {d, e, x} == {x, e, d};
    ThreeInTurn(d, e, x);
    ThreeInTurn(x, e, d);
    KeptWhenDeletedFirst(d, e, x);
    LostWhenDeletedLast(d, e, x);
  }

  /** Writes of one event each, from an empty store. */
  ghost function InTurn(evs: seq<Event>): EventTable {
    if evs == [] then map[] else AfterWrite(InTurn(evs[..|evs| - 1]), evs[|evs| - 1], false)
  }

  /** What a write makes of the contents of a store. */
  function Joined(C: set<Event>, e: Event): set<Event> {
    if e in C || (exists o <- C :: Deletes(o, e) || (SameAddress(o, e) && !Beats(e, o))) then C
    else (set y <- C | !SameAddress(y, e) && !Deletes(e, y)) + {e}
  }

  lemma WriteJoins(events: EventTable, e: Event)
    requires IdsDetermine(Contents(events) + {e})
    ensures Contents(AfterWrite(events, e, false)) == Joined(Contents(events), e)
  {
    if Verdict(events, e, false) == Written {
      AcceptedJoins(events, e);
    } else {
      RefusedJoins(events, e);
    }
  }

  lemma AcceptedJoins(events: EventTable, e: Event)
    requires Verdict(events, e, false) == Written
    ensures Contents(AfterWrite(events, e, false)) == Joined(Contents(events), e)
  {
    var C := Contents(events);
    forall o <- C ensures o.id != e.id && !Deletes(o, e) && (SameAddress(o, e) ==> Beats(e, o)) {
      var lev :| lev in events && events[lev] == o;
    }
    forall x ensures x in Contents(AfterWrite(events, e, false)) <==> x in Joined(C, e) {
      ContentsAfter(events, e, x);
    }
  }

  lemma RefusedJoins(events: EventTable, e: Event)
    requires IdsDetermine(Contents(events) + {e}) && Verdict(events, e, false) != Written
    ensures Joined(Contents(events), e) == Contents(events)
  {
    var lev :| lev in events &&
      (events[lev].id == e.id || Deletes(events[lev], e) || (SameAddress(events[lev], e) && !Beats(e, events[lev])));
    assert events[lev] in Contents(events);
  }

  lemma TwoInTurn(a: Event, b: Event)
    requires IdsDetermine({a, b})
    ensures Contents(InTurn([a, b])) == Joined({a}, b)
  {
    assert [a, b][..1] == [a] && [a][..0] == [];
    assert Contents(map[]) == {};
    WriteJoins(map[], a);
    assert Contents(InTurn([a])) == {a};
    assert {a} + {b} == {a, b};
    WriteJoins(InTurn([a]), b);
  }

  lemma ThreeInTurn(a: Event, b: Event, c: Event)
    requires IdsDetermine({a, b, c})
    ensures Contents(InTurn([a, b, c])) == Joined(Joined({a}, b), c)
  {
    SubsetDetermines({a, b}, {a, b, c});
    TwoInTurn(a, b);
    assert [a, b, c][..2] == [a, b];
    SubsetDetermines(Joined({a}, b) + {c}, {a, b, c});
    WriteJoins(InTurn([a, b]), c);
  }

  /** The deletion comes first: what it does not name is stored. */
  lemma KeptWhenDeletedFirst(d: Event, e: Event, x: Event)
    requires Deletes(d, e) && !Deletes(d, x)
    ensures x in Joined(Joined({d}, e), x)
  {
    assert Joined({d}, e) == {d};
    assert Address(d).None?;
  }

  /** It comes last: what it names has removed the other, and is gone too. */
  lemma LostWhenDeletedLast(d: Event, e: Event, x: Event)
    requires Deletes(d, e) && Removes(e, x) && !Deletes(x, e) && e != x
    ensures x !in Joined(Joined({x}, e), d)
  {
    BeatsIsOrder(e, x, e);
    assert Joined({x}, e) == {e};
  }

  lemma OneEventBatch(events: EventTable, bs: seq<seq<Event>>, e: Event)
    ensures AfterBatches(events, bs + [[e]]) == AfterWrite(AfterBatches(events, bs), e, false)
    ensures Submitted(bs + [[e]]) == Submitted(bs) + {e}
  {
    var all := bs + [[e]];
    assert all[..|bs|] == bs && all[|bs|] == [e];
    assert [e][..0] == [];
    assert SortBatch([e]) == [e];
    assert AfterAll(AfterBatches(events, bs), [e]) == AfterWrite(AfterBatches(events, bs), e, false);
  }

  /** Each event in a batch of its own. */
  function Singles(evs: seq<Event>): seq<seq<Event>> {
    if evs == [] then [] else Singles(evs[..|evs| - 1]) + [[evs[|evs| - 1]]]
  }

  lemma {:induction false} SinglesInTurn(evs: seq<Event>)
    ensures AfterBatches(map[], Singles(evs)) == InTurn(evs) && Submitted(Singles(evs)) == ToSet(evs)
    decreases |evs|
  {
    if evs != [] {
      var n := |evs| - 1;
      SinglesInTurn(evs[..n]);
      OneEventBatch(map[], Singles(evs[..n]), evs[n]);
      SetOfLast(evs);
    }
  }

  lemma SetOfLast(evs: seq<Event>)
    requires evs != []
    ensures ToSet(evs) == ToSet(evs[..|evs| - 1]) + {evs[|evs| - 1]}
  {
    assert evs == evs[..|evs| - 1] + [evs[|evs| - 1]];
  }

  // ----- for one given input -----

  /** Whatever is removed at all is removed by an event that itself lasts. */
  ghost predicate Dominated(S: set<Event>) {
    forall x <- S, r <- S | Removes(r, x) :: exists q <- Lasting(S) :: Removes(q, x)
  }

  /** However exactly these events are submitted to an empty store, the outcome is the same. */
  ghost predicate OrderFreeFor(S: set<Event>) {
    forall bs1, bs2 | Submitted(bs1) == S && Submitted(bs2) == S ::
      Contents(AfterBatches(map[], bs1)) == Contents(AfterBatches(map[], bs2))
  }

  /** On the way: everything stored was submitted, and everything submitted that lasts is stored. */
  ghost predicate OnTheWay(events: EventTable, T: set<Event>, S: set<Event>) {
    StoreInv(events) && Contents(events) <= T && T * Lasting(S) <= Contents(events)
  }

  lemma LastingIsAccepted(events: EventTable, S: set<Event>, e: Event)
    requires IdsDetermine(S) && Contents(events) <= S && e in Lasting(S) && e !in Contents(events)
    ensures Verdict(events, e, false) == Written
  {
    forall lev <- events ensures events[lev] in S && events[lev].id != e.id && !Removes(events[lev], e) {
      assert events[lev] in Contents(events);
    }
    if Outranked(events, e) {
      var lev :| lev in events && SameAddress(events[lev], e) && !Beats(e, events[lev]);
      BeatsIsOrder(events[lev], e, e);
    }
  }

  /** An event that lasts is not removed by another of the set. */
  lemma LastingStays(events: EventTable, S: set<Event>, e: Event, x: Event)
    requires IdsDetermine(S) && e in S && x in Lasting(S) && x in Contents(events) &&
      Verdict(events, e, false) == Written
    ensures x in Contents(AfterWrite(events, e, false))
  {
    ContentsAfter(events, e, x);
    WrittenBeats(events, e, x);
    assert !Removes(e, x);
  }

  lemma WrittenBeats(events: EventTable, e: Event, x: Event)
    requires x in Contents(events) && Verdict(events, e, false) == Written
    ensures SameAddress(x, e) ==> Beats(e, x)
  {
    var lev :| lev in events && events[lev] == x;
  }

  lemma NextOnTheWay(events: EventTable, T: set<Event>, S: set<Event>, e: Event, isRepeat: bool)
    requires IdsDetermine(S) && NoneSelfReferring(S) && T + {e} <= S && OnTheWay(events, T, S) && (isRepeat ==> e in T)
    ensures OnTheWay(AfterWrite(events, e, isRepeat), T + {e}, S)
  {
    WriteKeepsInv(events, e, isRepeat);
    var after := AfterWrite(events, e, isRepeat);
    forall x <- Contents(after) ensures x in T + {e} {
      if Verdict(events, e, isRepeat) == Written { ContentsAfter(events, e, x); }
    }
    forall x <- (T + {e}) * Lasting(S) ensures x in Contents(after) {
      if x !in Contents(events) {
        LastingIsAccepted(events, S, x);
        ContentsAfter(events, e, x);
      } else if Verdict(events, e, isRepeat) == Written {
        LastingStays(events, S, e, x);
      }
    }
  }

  lemma {:induction false} WritesOnTheWay(events: EventTable, T: set<Event>, S: set<Event>, evs: seq<Event>)
    requires IdsDetermine(S) && NoneSelfReferring(S) && T + ToSet(evs) <= S && OnTheWay(events, T, S)
    ensures OnTheWay(AfterAll(events, evs), T + ToSet(evs), S)
    decreases |evs|
  {
    if evs == [] {
      assert T + ToSet(evs) == T;
    } else {
      var n := |evs| - 1;
      var before, e := evs[..n], evs[n];
      assert evs == before + [e];
      LastOne(S, T, before, e);
      assert S + (T + ToSet(evs)) == S;
      WritesOnTheWay(events, T, S, before);
      NextOnTheWay(AfterAll(events, before), T + ToSet(before), S, e, Repeats(evs, n));
    }
  }

  lemma {:induction false} BatchesOnTheWay(bs: seq<seq<Event>>, S: set<Event>)
    requires IdsDetermine(S) && NoneSelfReferring(S) && Submitted(bs) <= S
    ensures OnTheWay(AfterBatches(map[], bs), Submitted(bs), S)
    decreases |bs|
  {
    if bs != [] {
      var n := |bs| - 1;
      BatchesOnTheWay(bs[..n], S);
      SortedToSet(bs[n]);
      WritesOnTheWay(AfterBatches(map[], bs[..n]), Submitted(bs[..n]), S, SortBatch(bs[n]));
    }
  }

  /** With what lasts in the store, nothing that it removes can be. */
  lemma DominatedSettles(bs: seq<seq<Event>>)
    requires IdsDetermine(Submitted(bs)) && NoneSelfReferring(Submitted(bs)) && Dominated(Submitted(bs))
    ensures Contents(AfterBatches(map[], bs)) == Lasting(Submitted(bs))
  {
    var S, end := Submitted(bs), AfterBatches(map[], bs);
    BatchesOnTheWay(bs, S);
    StoreIsSettled(end);
    forall x <- Contents(end) ensures x in Lasting(S) {
      assert x in Lasting(Contents(end));
      assert forall q <- Lasting(S) :: q in Contents(end) && !Removes(q, x);
    }
  }

  lemma SetOfBoth(a: seq<Event>, b: seq<Event>)
    ensures ToSet(a + b) == ToSet(a) + ToSet(b)
  {
  }

  /** The events of a set, one after the other. */
  lemma {:induction false} Listed(S: set<Event>) returns (evs: seq<Event>)
    ensures ToSet(evs) == S
    decreases |S|
  {
    if S == {} { return []; }
    var e :| e in S;
    var rest := Listed(S - {e});
    evs := rest + [e];
    SetOfBoth(rest, [e]);
  }

  lemma InTurnLast(evs: seq<Event>, e: Event)
    ensures InTurn(evs + [e]) == AfterWrite(InTurn(evs), e, false)
  {
    assert (evs + [e])[..|evs|] == evs;
  }

  lemma OthersStayOut(events: EventTable, e: Event, x: Event)
    requires x !in Contents(events) && x != e
    ensures x !in Contents(AfterWrite(events, e, false))
  {
    if Verdict(events, e, false) == Written { ContentsAfter(events, e, x); }
  }

  /** An event that was lost stays lost unless it is submitted again. */
  lemma {:induction false} StaysLost(first: seq<Event>, evs: seq<Event>, x: Event)
    requires x !in Contents(InTurn(first)) && x !in ToSet(evs)
    ensures x !in Contents(InTurn(first + evs))
    decreases |evs|
  {
    if evs == [] {
      assert first + evs == first;
    } else {
      var n := |evs| - 1;
      var before, e := evs[..n], evs[n];
      assert first + evs == (first + before) + [e];
      SetOfLast(evs);
      StaysLost(first, before, x);
      InTurnLast(first + before, e);
      OthersStayOut(InTurn(first + before), e, x);
    }
  }

  /** Preceded by what removes it, an event does not get in. */
  lemma LostWhenPreceded(r: Event, x: Event)
    requires IdsDetermine({r, x}) && Removes(r, x) && r != x
    ensures x !in Contents(InTurn([r, x]))
  {
    TwoInTurn(r, x);
    BeatsIsOrder(r, x, r);
  }

  /** The same outcome for every way to submit S. */
  ghost predicate AlwaysEnds(S: set<Event>, F: set<Event>) {
    forall bs | Submitted(bs) == S :: Contents(AfterBatches(map[], bs)) == F
  }

  lemma EndsInTurn(S: set<Event>, F: set<Event>, evs: seq<Event>)
    requires AlwaysEnds(S, F) && ToSet(evs) == S
    ensures Contents(InTurn(evs)) == F
  {
    SinglesInTurn(evs);
  }

  /** If order does not matter, what is stored in the end lasts. */
  lemma EndLasts(S: set<Event>, F: set<Event>, x: Event, r: Event)
    requires IdsDetermine(S) && NoneSelfReferring(S) && x in S && r in S && Removes(r, x) && AlwaysEnds(S, F)
    ensures x !in F
  {
    BeatsIsOrder(x, x, x);
    var first := [r, x];
    var rest := Listed(S - {r, x});
    SubsetDetermines({r, x}, S);
    LostWhenPreceded(r, x);
    StaysLost(first, rest, x);
    SetOfBoth(first, rest);
    assert ToSet(first) == {r, x};
    EndsInTurn(S, F, first + rest);
  }

  /** If it comes last and is refused, something that is stored in the end removes it. */
  lemma RefusedAtTheEnd(S: set<Event>, F: set<Event>, x: Event) returns (q: Event)
    requires IdsDetermine(S) && x in S && x !in F && AlwaysEnds(S, F)
    ensures q in F && Removes(q, x)
  {
    var rest := Listed(S - {x});
    SetOfBoth(rest, [x]);
    EndsInTurn(S, F, rest + [x]);
    InTurnLast(rest, x);
    InTurnFrom(rest);
    q := RefusedBy(InTurn(rest), S, x);
  }

  lemma RefusedBy(mid: EventTable, S: set<Event>, x: Event) returns (q: Event)
    requires IdsDetermine(S) && x in S && Contents(mid) <= S - {x} && x !in Contents(AfterWrite(mid, x, false))
    ensures q in Contents(AfterWrite(mid, x, false)) && Removes(q, x)
  {
    assert Verdict(mid, x, false) != Written by {
      if Verdict(mid, x, false) == Written { ContentsAfter(mid, x, x); }
    }
    forall lev <- mid ensures mid[lev] in S && mid[lev].id != x.id {
      assert mid[lev] in Contents(mid);
    }
    var lev :| lev in mid && (Deletes(mid[lev], x) || (SameAddress(mid[lev], x) && !Beats(x, mid[lev])));
    q := mid[lev];
    BeatsIsOrder(q, x, x);
  }

  lemma {:induction false} InTurnFrom(evs: seq<Event>)
    ensures Contents(InTurn(evs)) <= ToSet(evs)
    decreases |evs|
  {
    if evs != [] {
      var n := |evs| - 1;
      InTurnFrom(evs[..n]);
      SetOfLast(evs);
      var mid := InTurn(evs[..n]);
      forall x <- Contents(InTurn(evs)) ensures x in ToSet(evs) {
        if Verdict(mid, evs[n], false) == Written { ContentsAfter(mid, evs[n], x); }
      }
    }
  }

  /**
   For one given set of events: every way to submit exactly these ends alike if and only if
   whatever is removed at all is removed by an event that itself lasts.
   */
  lemma OrderFreeIffDominated(S: set<Event>)
    requires IdsDetermine(S) && NoneSelfReferring(S)
    ensures OrderFreeFor(S) <==> Dominated(S)
  {
    if Dominated(S) {
      forall bs1, bs2 | Submitted(bs1) == S && Submitted(bs2) == S
        ensures Contents(AfterBatches(map[], bs1)) == Contents(AfterBatches(map[], bs2))
      {
        DominatedSettles(bs1);
        DominatedSettles(bs2);
      }
    }
    if OrderFreeFor(S) {
      var evs := Listed(S);
      SinglesInTurn(evs);
      var F := Contents(AfterBatches(map[], Singles(evs)));
      InTurnFrom(evs);
      forall x <- S, r <- S | Removes(r, x) ensures exists q <- Lasting(S) :: Removes(q, x) {
        var q := FoundInEnd(S, F, x, r);
      }
    }
  }

  lemma FoundInEnd(S: set<Event>, F: set<Event>, x: Event, r: Event) returns (q: Event)
    requires IdsDetermine(S) && NoneSelfReferring(S) && x in S && r in S && Removes(r, x) && AlwaysEnds(S, F) && F <= S
    ensures q in Lasting(S) && Removes(q, x)
  {
    EndLasts(S, F, x, r);
    q := RefusedAtTheEnd(S, F, x);
    forall o <- S ensures !Removes(o, q) {
      if Removes(o, q) { EndLasts(S, F, q, o); }
    }
  }

  function Fill32(b: nat): Bytes {
    seq(32, _ => b)
  }

  /**
   A profile is replaced and the new one deleted. If the deletion request comes first, the
   old profile is stored in the end; if it comes last, nothing is left of either.
   */
  lemma OrderMattersWithDeletions() returns (x: Event, e: Event, d: Event)
    ensures WellFormed(x) && WellFormed(e) && WellFormed(d)
    ensures Contents(AfterBatches(map[], [[d], [e], [x]])) == {d, x}
    ensures Contents(AfterBatches(map[], [[x], [e], [d]])) == {d}
  {
    x, e, d := Profile(), NewProfile(), DeletionOf(Fill32(2));
    ProfilesDiffer();
    SinglesOfThree(d, e, x);
    SinglesOfThree(x, e, d);
    ThreeOutcomes(d, e, x);
  }

  function Profile(): Event {
    Event(Fill32(1), Fill32(7), 10, 0, 0, [Tag(TAG_D, [])])
  }

  function NewProfile(): Event {
    Event(Fill32(2), Fill32(7), 20, 0, 0, [Tag(TAG_D, [])])
  }

  function DeletionOf(id: Bytes): Event {
    Event(Fill32(3), Fill32(7), 30, DELETION_KIND, 0, [Tag(TAG_E, id)])
  }

  lemma ProfilesDiffer()
    ensures var x, e, d := Profile(), NewProfile(), DeletionOf(Fill32(2));
      && IdsDetermine({d, e, x}) && IdsDetermine({x, e, d}) && SameAddress(e, x) && Beats(e, x)
      && Deletes(d, e) && !Deletes(d, x)
  {
    var x, e, d := Profile(), NewProfile(), DeletionOf(Fill32(2));
    assert x.id[0] == 1 && e.id[0] == 2 && d.id[0] == 3;
    assert Tag(TAG_E, e.id) == d.tags[0] && Tag(TAG_E, x.id) != d.tags[0];
    assert {d, e, x} == {x, e, d};
  }

  lemma SinglesOfThree(a: Event, b: Event, c: Event)
    requires IdsDetermine({a, b, c})
    ensures Contents(AfterBatches(map[], [[a], [b], [c]])) == Joined(Joined({a}, b), c)
  {
    var evs := [a, b, c];
    assert [a][..0] == [];
    assert Singles([a]) == [[a]];
    assert [a, b][..1] == [a];
    assert Singles([a, b]) == [[a], [b]];
    assert evs[..2] == [a, b];
    assert Singles(evs) == [[a], [b], [c]];
    SinglesInTurn(evs);
    ThreeInTurn(a, b, c);
  }

  lemma ThreeOutcomes(d: Event, e: Event, x: Event)
    requires Deletes(d, e) && !Deletes(d, x) && SameAddress(e, x) && Beats(e, x)
    requires x.kind != DELETION_KIND && e.kind != DELETION_KIND
    ensures Joined(Joined({d}, e), x) == {d, x} && Joined(Joined({x}, e), d) == {d}
  {
    BeatsIsOrder(e, x, e);
    assert Address(d).None? && d != x && d != e;
    assert Joined({d}, e) == {d} && Joined({x}, e) == {e};
  }

  // ----- what the status Duplicate says -----

  /** The status of position k of a batch, as it is written. */
  ghost function StatusAt(events: EventTable, evs: seq<Event>, k: nat): Status
    requires k < |evs|
  {
    Verdict(AfterAll(events, evs[..k]), evs[k], Repeats(evs, k))
  }

  /** Where the run of copies that k belongs to begins. */
  function FirstCopy(evs: seq<Event>, k: nat): (j: nat)
    requires k < |evs|
    ensures j <= k && !Repeats(evs, j) && forall i | j <= i <= k :: evs[i].id == evs[k].id
  {
    if Repeats(evs, k) then FirstCopy(evs, k - 1) else k
  }

  /** A second copy changes nothing, and the event is stored exactly if the first copy was or became so. */
  lemma RepeatExact(events: EventTable, e: Event)
    ensures var mid := AfterWrite(events, e, false);
      && Verdict(mid, e, true) == Duplicate && AfterWrite(mid, e, true) == mid
      && (Stored(mid, e.id) <==> Stored(events, e.id) || (!Condemned(events, e) && !Outranked(events, e)))
  {
    if Verdict(events, e, false) == Written {
      assert AfterWrite(events, e, false)[MaxLev(events.Keys) + 1] == e;
    }
  }

  /** A run of copies leaves the store as its first copy left it. */
  lemma {:induction false} RunChangesNothing(events: EventTable, evs: seq<Event>, j: nat, k: nat)
    requires j <= k < |evs| && forall i | j < i <= k :: Repeats(evs, i)
    ensures AfterAll(events, evs[..k + 1]) == AfterAll(events, evs[..j + 1])
    decreases k
  {
    if j < k {
      AfterNext(events, evs, k);
      RunChangesNothing(events, evs, j, k - 1);
      assert evs[..k - 1 + 1] == evs[..k];
    }
  }

  /**
   A later copy is always called a duplicate. The event is stored then if and only if the first
   copy of its run found it stored, or was accepted: not condemned and not outranked.
   */
  lemma DuplicateIsStoredIff(events: EventTable, evs: seq<Event>, k: nat)
    requires k < |evs|
    ensures var j := FirstCopy(evs, k);
      && (StatusAt(events, evs, k) == Duplicate <==> k > j || Stored(AfterAll(events, evs[..j]), evs[k].id))
      && (Stored(AfterAll(events, evs[..k + 1]), evs[k].id) <==>
          || Stored(AfterAll(events, evs[..j]), evs[k].id)
          || (!Condemned(AfterAll(events, evs[..j]), evs[j]) && !Outranked(AfterAll(events, evs[..j]), evs[j])))
  {
    var j := FirstCopy(evs, k);
    RunChangesNothing(events, evs, j, k);
    AfterNext(events, evs, j);
    RepeatExact(AfterAll(events, evs[..j]), evs[j]);
  }

  /** In a sorted batch all copies of an event are in one run. */
  lemma CopiesAdjacent(evs: seq<Event>, i: nat, k: nat)
    requires BatchSorted(evs) && i <= k < |evs| && evs[i].id == evs[k].id && evs[i].created == evs[k].created
    ensures FirstCopy(evs, k) <= i
    decreases k
  {
    if i < k {
      var e := evs[k - 1];
      assert e.created == evs[k].created;
      LessTotal(e.id, evs[k].id);
      assert e.id == evs[k].id;
      CopiesAdjacent(evs, i, k - 1);
    }
  }

  /** Two copies of an outranked event in one batch: the second is called a duplicate, yet neither is stored. */
  lemma DuplicateNeedNotBeStored() returns (events: EventTable, x: Event)
    ensures StoreInv(events) && WellFormedTable(events) && WellFormed(x) && NotSelfReferring(x)
    ensures SortBatch([x, x]) == [x, x] && StatusAt(events, [x, x], 0) == Replaced &&
      StatusAt(events, [x, x], 1) == Duplicate
    ensures !Stored(AfterAll(events, [x, x]), x.id)
  {
    x := Profile();
    events := map[1 := NewProfile()];
    ProfilesDiffer();
    OneProfileStored();
    LessIrreflexive(x.id);
    OutrankedTwice(1, NewProfile(), x);
  }

  lemma OneProfileStored()
    ensures StoreInv(map[1 := NewProfile()]) && WellFormedTable(map[1 := NewProfile()])
  {
  }

  lemma OutrankedTwice(lev: nat, e: Event, x: Event)
    requires x.id != e.id && SameAddress(e, x) && !Beats(x, e) && !Deletes(e, x) && !Earlier(x, x)
    ensures SortBatch([x, x]) == [x, x]
    ensures StatusAt(map[lev := e], [x, x], 0) == Replaced && StatusAt(map[lev := e], [x, x], 1) == Duplicate
    ensures AfterAll(map[lev := e], [x, x]) == map[lev := e]
  {
    var events: EventTable, xs := map[lev := e], [x, x];
    assert SameAddress(events[lev], x);
    assert Verdict(events, x, false) == Replaced;
    assert xs[..0] == [] && xs[..2] == xs && xs[..1] == [x];
    AfterNext(events, xs, 0);
    AfterNext(events, xs, 1);
    SortTwo(x);
  }

  lemma SortTwo(x: Event)
    requires !Earlier(x, x)
    ensures SortBatch([x, x]) == [x, x]
  {
    assert [x][..0] == [] && [x, x][..1] == [x];
    assert SortBatch([x]) == [x] && Insert([x], x) == [x] + [x];
  }
}
