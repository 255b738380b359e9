/**
 What is left after any number of writes, said about sets of events: the events that
 no other one removes. It is the outcome in every order of arrival exactly when whoever
 deletes an event also deletes what that event removes.
 */
module Settling {
  import opened Lex
  import opened Events
  import opened Writes

  /** `e`, once stored, takes `x` out of the store and keeps it out. */
  predicate Removes(e: Event, x: Event) {
    Deletes(e, x) || (SameAddress(e, x) && Beats(e, x))
  }

  /** The events that none of the others removes. */
  function Lasting(X: set<Event>): set<Event> {
    set x <- X | forall r <- X :: !Removes(r, x)
  }

  /** A deletion request that names an event also names whatever that event removes. */
  ghost predicate Closed(X: set<Event>) {
    forall d <- X, e <- X, x <- X | Deletes(d, e) && Removes(e, x) :: Deletes(d, x)
  }

  ghost predicate IdsDetermine(X: set<Event>) {
    forall a <- X, b <- X | a.id == b.id :: a == b
  }

  ghost predicate NoneSelfReferring(X: set<Event>) {
    forall e <- X :: NotSelfReferring(e)
  }

  lemma BeatsIsOrder(a: Event, b: Event, c: Event)
    ensures a.id != b.id ==> Beats(a, b) || Beats(b, a)
    ensures !(Beats(a, b) && Beats(b, a))
    ensures Beats(a, b) && Beats(b, c) ==> Beats(a, c)
  {
    LessTotal(a.id, b.id);
    if Less(a.id, b.id) {
      LessAsymmetric(a.id, b.id);
      if Less(b.id, c.id) { LessTransitive(a.id, b.id, c.id); }
    }
  }

  /** Closure makes removal a strict order. */
  lemma RemovesIsOrder(X: set<Event>, a: Event, b: Event, c: Event)
    requires Closed(X) && NoneSelfReferring(X) && a in X && b in X && c in X
    ensures !Removes(a, a)
    ensures Removes(a, b) && Removes(b, c) ==> Removes(a, c)
  {
    BeatsIsOrder(a, a, a);
    BeatsIsOrder(a, b, c);
  }

  /** Whatever is removed is removed by something that lasts. */
  lemma {:induction false} RemovedByLasting(X: set<Event>, D: set<Event>, e: Event) returns (r: Event)
    requires Closed(X) && NoneSelfReferring(X) && e in X && D != {} && D <= X
    requires forall a <- D :: Removes(a, e)
    requires forall a <- X | Removes(a, e) && a !in D :: exists b <- D :: Removes(b, a)
    ensures r in Lasting(X) && Removes(r, e)
    decreases |D|
  {
    r :| r in D;
    if o :| o in D && Removes(o, r) {
      forall a <- X | Removes(a, e) && a !in D - {r} ensures exists b <- D - {r} :: Removes(b, a) {
        RemovesIsOrder(X, o, r, r);
        if a != r {
          var b :| b in D && Removes(b, a);
          RemovesIsOrder(X, o, b, a);
          assert b != r || (o in D - {r} && Removes(o, a));
        }
      }
      RemovesIsOrder(X, r, r, r);
      r := RemovedByLasting(X, D - {r}, e);
    } else {
      forall a <- X ensures !Removes(a, r) {
        if Removes(a, r) {
          RemovesIsOrder(X, a, r, e);
          if a !in D {
            var b :| b in D && Removes(b, a);
            RemovesIsOrder(X, b, a, r);
          }
        }
      }
    }
  }

  lemma Remover(X: set<Event>, a: Event, e: Event) returns (r: Event)
    requires Closed(X) && NoneSelfReferring(X) && a in X && e in X && Removes(a, e)
    ensures r in Lasting(X) && Removes(r, e)
  {
    var D := set b <- X | Removes(b, e);
    assert a in D;
    r := RemovedByLasting(X, D, e);
  }

  lemma SubsetDetermines(A: set<Event>, B: set<Event>)
    requires A <= B && IdsDetermine(B)
    ensures IdsDetermine(A)
  {
  }

  // ----- one more event, as sets -----

  /** An event that something present removes changes nothing. */
  lemma LatecomerRemoved(X: set<Event>, e: Event, a: Event)
    requires Closed(X + {e}) && NoneSelfReferring(X + {e}) && a in X && Removes(a, e)
    ensures Lasting(X + {e}) == Lasting(X)
  {
    var Y := X + {e};
    forall x <- Lasting(X) ensures x in Lasting(Y) {
      if Removes(e, x) {
        RemovesIsOrder(Y, a, e, x);
      }
    }
  }

  /** Any other takes the place of what it removes. */
  lemma LatecomerLasts(X: set<Event>, e: Event, x: Event)
    requires NotSelfReferring(e) && forall a <- X :: !Removes(a, e)
    ensures x in Lasting(X + {e}) <==> x == e || (x in Lasting(X) && !Removes(e, x))
  {
    BeatsIsOrder(e, e, e);
  }

  // ----- one more event, in the store -----

  /** The store holds what lasts of X. */
  ghost predicate Settled(events: EventTable, X: set<Event>) {
    StoreInv(events) && Contents(events) == Lasting(X)
  }

  lemma RefusedRightly(events: EventTable, X: set<Event>, e: Event, r: Event)
    requires Settled(events, X) && r in Lasting(X) && Removes(r, e)
    ensures Verdict(events, e, false) != Written
  {
    var lev :| lev in events && events[lev] == r;
    BeatsIsOrder(r, e, r);
  }

  lemma AcceptedRightly(events: EventTable, X: set<Event>, e: Event)
    requires Settled(events, X) && IdsDetermine(X + {e}) && e !in X && forall a <- X :: !Removes(a, e)
    ensures Verdict(events, e, false) == Written
  {
    forall lev <- events ensures events[lev] in X && events[lev].id != e.id && !Removes(events[lev], e) {
      assert events[lev] in Contents(events);
    }
    if Outranked(events, e) {
      var lev :| lev in events && SameAddress(events[lev], e) && !Beats(e, events[lev]);
      BeatsIsOrder(events[lev], e, e);
    }
  }

  lemma AcceptedSettles(events: EventTable, X: set<Event>, e: Event, x: Event)
    requires Settled(events, X) && IdsDetermine(X + {e}) && e !in X && NotSelfReferring(e)
    requires (forall a <- X :: !Removes(a, e)) && Verdict(events, e, false) == Written
    ensures x in Contents(AfterWrite(events, e, false)) <==> x in Lasting(X + {e})
  {
    ContentsAfter(events, e, x);
    LatecomerLasts(X, e, x);
    if x in Lasting(X) && SameAddress(x, e) {
      BeatsIsOrder(x, e, x);
      assert x.id != e.id;
    }
  }

  /** Writing one more event leaves what lasts of all. */
  lemma WriteSettles(events: EventTable, X: set<Event>, e: Event, isRepeat: bool)
    requires Settled(events, X) && Closed(X + {e}) && IdsDetermine(X + {e}) && NoneSelfReferring(X + {e})
    requires isRepeat ==> e in X
    ensures Settled(AfterWrite(events, e, isRepeat), X + {e})
  {
    WriteKeepsInv(events, e, isRepeat);
    if a :| a in X && Removes(a, e) {
      LatecomerRemoved(X, e, a);
      var r := Remover(X + {e}, a, e);
      RefusedRightly(events, X, e, r);
    } else if e in X {
      BeatsIsOrder(e, e, e);
      assert X + {e} == X && e in Lasting(X);
      var lev :| lev in events && events[lev] == e;
    } else {
      AcceptedRightly(events, X, e);
      forall x ensures x in Contents(AfterWrite(events, e, false)) <==> x in Lasting(X + {e}) {
        AcceptedSettles(events, X, e, x);
      }
    }
  }

  // ----- a sequence of writes, from any store -----

  /** What the deletion requests of C let in. */
  ghost function Admissible(C: set<Event>, S: set<Event>): set<Event> {
    set e <- S | forall d <- C :: !Deletes(d, e)
  }

  /**
   The submitted events and the stored ones are closed, as far as they are let in; and whoever
   deletes a stored request also deletes what it keeps out.
   */
  ghost predicate ClosedFrom(C: set<Event>, S: set<Event>) {
    && Closed(C + Admissible(C, S))
    && forall d <- Admissible(C, S), d0 <- C, x <- S | Deletes(d, d0) && Deletes(d0, x) :: Deletes(d, x)
  }

  ghost predicate Wellbehaved(C: set<Event>, S: set<Event>) {
    ClosedFrom(C, S) && IdsDetermine(C + S) && NoneSelfReferring(C + S) && forall a <- C, b <- C :: !Deletes(a, b)
  }

  lemma Smaller(C: set<Event>, S: set<Event>, T: set<Event>)
    requires Wellbehaved(C, T) && S <= T
    ensures Wellbehaved(C, S)
  {
  }

  /** Something that lasts deletes what was not let in at the start. */
  lemma KeptOut(C: set<Event>, S: set<Event>, e: Event, d: Event) returns (r: Event)
    requires Wellbehaved(C, S) && d in C && Deletes(d, e)
    requires forall a <- Admissible(C, S) | Deletes(a, d) :: Deletes(a, e)
    ensures r in Lasting(C + Admissible(C, S)) && Deletes(r, e)
  {
    var X := C + Admissible(C, S);
    if d in Lasting(X) { return d; }
    var a :| a in X && Removes(a, d);
    r := Remover(X, a, d);
    assert Deletes(r, d);
  }

  /** An event kept out at the start is kept out for good. */
  lemma StaysOut(events: EventTable, C: set<Event>, S: set<Event>, e: Event)
    requires Wellbehaved(C, S + {e}) && Settled(events, C + Admissible(C, S)) && e !in Admissible(C, {e})
    ensures Condemned(events, e)
  {
    var d :| d in C && Deletes(d, e);
    Smaller(C, S, S + {e});
    forall a <- Admissible(C, S) | Deletes(a, d) ensures Deletes(a, e) {
      assert a in Admissible(C, S + {e});
    }
    var r := KeptOut(C, S, e, d);
    assert r in Contents(events);
    var lev :| lev in events && events[lev] == r;
  }

  lemma NextSettles(events: EventTable, C: set<Event>, S: set<Event>, e: Event, isRepeat: bool)
    requires Wellbehaved(C, S + {e}) && Settled(events, C + Admissible(C, S)) && (isRepeat ==> e in S)
    ensures Settled(AfterWrite(events, e, isRepeat), C + Admissible(C, S + {e}))
  {
    var X := C + Admissible(C, S);
    if e in Admissible(C, {e}) {
      assert C + Admissible(C, S + {e}) == X + {e};
      SubsetDetermines(X + {e}, C + (S + {e}));
      WriteSettles(events, X, e, isRepeat);
    } else {
      StaysOut(events, C, S, e);
      assert C + Admissible(C, S + {e}) == X;
    }
  }

  function ToSet(evs: seq<Event>): set<Event> {
    set e | e in evs
  }

  lemma {:induction false} WritesSettle(
    events: EventTable, C: set<Event>, S: set<Event>, evs: seq<Event>, T: set<Event>)
    requires T == S + ToSet(evs) && Wellbehaved(C, T) && Settled(events, C + Admissible(C, S))
    ensures Settled(AfterAll(events, evs), C + Admissible(C, T))
    decreases |evs|
  {
    if evs == [] {
      assert T == S;
    } else {
      var n := |evs| - 1;
      var before, e := evs[..n], evs[n];
      var T0 := S + ToSet(before);
      LastOne(C, S, before, e);
      assert evs == before + [e];
      Smaller(C, T0, T);
      WritesSettle(events, C, S, before, T0);
      NextSettles(AfterAll(events, before), C, T0, e, Repeats(evs, n));
    }
  }

  lemma LastOne(C: set<Event>, S: set<Event>, before: seq<Event>, e: Event)
    ensures S + ToSet(before + [e]) == S + ToSet(before) + {e}
    ensures IdsDetermine(C + (S + ToSet(before + [e]))) && Repeats(before + [e], |before|) ==> e in S + ToSet(before)
  {
    var evs := before + [e];
    assert e in evs;
    if IdsDetermine(C + (S + ToSet(evs))) && Repeats(evs, |before|) {
      var last := before[|before| - 1];
      assert last in before && last in evs;
      assert last == e;
    }
  }

  /** Every store is settled to begin with. */
  lemma StoreIsSettled(events: EventTable)
    requires StoreInv(events)
    ensures Settled(events, Contents(events)) && NoneSelfReferring(Contents(events))
    ensures forall a <- Contents(events), b <- Contents(events) :: !Deletes(a, b)
  {
    forall x <- Contents(events), r <- Contents(events) ensures !Removes(r, x) && !Deletes(r, x) {
      var i :| i in events && events[i] == x;
      var j :| j in events && events[j] == r;
      BeatsIsOrder(x, x, x);
    }
  }
}
