/**
 What one write does to the event table (the loop body of `writeEvents` in
 src/events.cpp), and what any sequence of writes keeps true.
 */
module Writes {
  import opened Lex
  import opened Events

  datatype Status = Pending | Written | Duplicate | Replaced | Deleted

  datatype Addr = Addr(pubkey: Bytes, d: Bytes, kind: nat)

  function FirstD(tags: seq<Tag>): Option<Bytes> {
    if tags == [] then None
    else if tags[0].name == TAG_D then Some(tags[0].val)
    else FirstD(tags[1..])
  }

  /** Where a replaceable or addressable event lives: at most one event per address is kept. */
  function Address(e: Event): Option<Addr> {
    if (IsReplaceableKind(e.kind) || IsParamReplaceableKind(e.kind)) && FirstD(e.tags).Some?
    then Some(Addr(e.pubkey, FirstD(e.tags).value, e.kind)) else None
  }

  predicate SameAddress(a: Event, b: Event) {
    Address(a).Some? && Address(a) == Address(b)
  }

  /** `d` is a deletion request by the author of `e` that names it. */
  predicate Deletes(d: Event, e: Event) {
    d.kind == DELETION_KIND && d.pubkey == e.pubkey && Tag(TAG_E, e.id) in d.tags
  }

  /** `a` takes the place of `b`: it is newer, or as old with the smaller id. */
  predicate Beats(a: Event, b: Event) {
    b.created < a.created || (b.created == a.created && Less(a.id, b.id))
  }

  ghost function MaxLev(levs: set<nat>): (m: nat)
    ensures forall lev <- levs :: lev <= m
    ensures if levs == {} then m == 0 else m in levs
    decreases |levs|
  {
    if levs == {} then 0 else
      var x :| x in levs;
      var m := MaxLev(levs - {x});
      assert forall lev <- levs :: lev == x || lev in levs - {x};
      if x > m then x else m
  }

  predicate Stored(events: EventTable, id: Bytes) {
    exists lev <- events :: events[lev].id == id
  }

  predicate Condemned(events: EventTable, e: Event) {
    exists lev <- events :: Deletes(events[lev], e)
  }

  predicate Outranked(events: EventTable, e: Event) {
    exists lev <- events :: SameAddress(events[lev], e) && !Beats(e, events[lev])
  }

  function Verdict(events: EventTable, e: Event, isRepeat: bool): Status {
    if Stored(events, e.id) || isRepeat then Duplicate
    else if Condemned(events, e) then Deleted
    else if Outranked(events, e) then Replaced
    else Written
  }

  function Doomed(events: EventTable, e: Event): set<nat> {
    set lev <- events | SameAddress(events[lev], e) || Deletes(e, events[lev])
  }

  ghost function AfterWrite(events: EventTable, e: Event, isRepeat: bool): EventTable {
    if Verdict(events, e, isRepeat) != Written then events
    else events[MaxLev(events.Keys) + 1 := e] - Doomed(events, e)
  }

  predicate Repeats(evs: seq<Event>, i: nat)
    requires i < |evs|
  {
    i > 0 && evs[i].id == evs[i - 1].id
  }

  ghost function AfterAll(events: EventTable, evs: seq<Event>): EventTable {
    if evs == [] then events
    else AfterWrite(AfterAll(events, evs[..|evs| - 1]), evs[|evs| - 1], Repeats(evs, |evs| - 1))
  }

  lemma AfterNext(events: EventTable, evs: seq<Event>, k: nat)
    requires k < |evs|
    ensures AfterAll(events, evs[..k + 1]) == AfterWrite(AfterAll(events, evs[..k]), evs[k], Repeats(evs, k))
  {
    assert evs[..k + 1][..k] == evs[..k];
  }

  // ----- what every write keeps -----

  ghost predicate UniqueIds(events: EventTable) {
    forall a <- events, b <- events | events[a].id == events[b].id :: a == b
  }

  ghost predicate UniqueAddresses(events: EventTable) {
    forall a <- events, b <- events | SameAddress(events[a], events[b]) :: a == b
  }

  ghost predicate DeletionsHonoured(events: EventTable) {
    forall a <- events, b <- events :: !Deletes(events[a], events[b])
  }

  ghost predicate StoreInv(events: EventTable) {
    && UniqueIds(events) && UniqueAddresses(events) && DeletionsHonoured(events)
    && forall lev <- events :: lev >= 1
  }

  /** Ids are hashes of the event, so no event can name itself. */
  predicate NotSelfReferring(e: Event) {
    !Deletes(e, e)
  }

  /** After an accepted write: the new event, and the old ones it does not remove. */
  lemma AcceptedShape(events: EventTable, e: Event)
    requires Verdict(events, e, false) == Written
    ensures var after := AfterWrite(events, e, false);
      forall a <- after :: if a in events
        then after[a] == events[a] && events[a].id != e.id && !Deletes(events[a], e) && a !in Doomed(events, e)
        else after[a] == e && a == MaxLev(events.Keys) + 1
    ensures var after := AfterWrite(events, e, false);
      MaxLev(events.Keys) + 1 in after && forall a <- events | a !in Doomed(events, e) :: a in after
  {
  }

  lemma WriteKeepsInv(events: EventTable, e: Event, isRepeat: bool)
    requires StoreInv(events) && NotSelfReferring(e)
    ensures StoreInv(AfterWrite(events, e, isRepeat))
  {
    if Verdict(events, e, isRepeat) == Written {
      AcceptedShape(events, e);
      WriteKeepsAddresses(events, e);
      WriteKeepsDeletions(events, e);
    }
  }

  lemma WriteKeepsAddresses(events: EventTable, e: Event)
    requires UniqueAddresses(events) && Verdict(events, e, false) == Written
    ensures UniqueAddresses(AfterWrite(events, e, false))
  {
    var after := AfterWrite(events, e, false);
    AcceptedShape(events, e);
    forall a <- after, b <- after | SameAddress(after[a], after[b]) ensures a == b {
      assert a !in Doomed(events, e) && b !in Doomed(events, e);
    }
  }

  lemma WriteKeepsDeletions(events: EventTable, e: Event)
    requires DeletionsHonoured(events) && Verdict(events, e, false) == Written && NotSelfReferring(e)
    ensures DeletionsHonoured(AfterWrite(events, e, false))
  {
    var after := AfterWrite(events, e, false);
    AcceptedShape(events, e);
    forall a <- after, b <- after ensures !Deletes(after[a], after[b]) {
      assert a !in Doomed(events, e) && b !in Doomed(events, e);
    }
  }

  /** The newest levId survives every write, so the next one assigned is new. */
  lemma WriteRaisesMax(events: EventTable, e: Event, isRepeat: bool)
    ensures MaxLev(AfterWrite(events, e, isRepeat).Keys) ==
      MaxLev(events.Keys) + if Verdict(events, e, isRepeat) == Written then 1 else 0
  {
    if Verdict(events, e, isRepeat) == Written {
      assert MaxLev(events.Keys) + 1 in AfterWrite(events, e, isRepeat);
    }
  }

  lemma {:induction false} WritesKeepInv(events: EventTable, evs: seq<Event>)
    requires StoreInv(events) && forall e <- evs :: NotSelfReferring(e)
    ensures StoreInv(AfterAll(events, evs))
    ensures MaxLev(AfterAll(events, evs).Keys) >= MaxLev(events.Keys)
  {
    if evs != [] {
      var n := |evs| - 1;
      WritesKeepInv(events, evs[..n]);
      WriteKeepsInv(AfterAll(events, evs[..n]), evs[n], Repeats(evs, n));
      WriteRaisesMax(AfterAll(events, evs[..n]), evs[n], Repeats(evs, n));
    }
  }

  /** A replaced event is never a deletion request, so it leaves nothing to delete. */
  lemma ReplacedDeletesNothing(events: EventTable, e: Event)
    requires UniqueAddresses(events) && Outranked(events, e)
    ensures forall lev <- events :: !Deletes(e, events[lev]) && !(SameAddress(events[lev], e) && Beats(e, events[lev]))
  {
  }

  ghost function Contents(events: EventTable): set<Event> {
    set lev <- events :: events[lev]
  }

  /** What an accepted write leaves: the event, and what it neither replaces nor deletes. */
  lemma ContentsAfter(events: EventTable, e: Event, x: Event)
    requires Verdict(events, e, false) == Written
    ensures x in Contents(AfterWrite(events, e, false)) <==>
      x == e || (x in Contents(events) && !SameAddress(x, e) && !Deletes(e, x))
  {
    var after := AfterWrite(events, e, false);
    if x in Contents(after) {
      AcceptedShape(events, e);
      var lev :| lev in after && after[lev] == x;
    }
    if x == e {
      assert after[MaxLev(events.Keys) + 1] == e;
    } else if x in Contents(events) && !SameAddress(x, e) && !Deletes(e, x) {
      var lev :| lev in events && events[lev] == x;
      assert lev in after && after[lev] == x;
    }
  }
}
