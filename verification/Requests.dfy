/**
 A REQ from its JSON to its stored events: compiling the filters (src/filters.h) and
 running the query (src/DBQuery.h), said in terms of the JSON alone.
 */
module Requests {
  import opened Seqs
  import opened Events
  import opened Filters
  import opened Index
  import opened QuerySpec
  import opened Query
  import opened FilterParser

  /** The events up to `latest` that a filter object holds of. */
  ghost function AskedBy(j: FilterJson, events: EventTable, latest: nat): set<nat>
    requires Accepted(j)
  {
    set lev | lev in events && lev <= latest && JsonMatches(j, events[lev])
  }

  /** The object asks for the event, and for fewer newer ones than its limit. */
  ghost predicate Owed(j: FilterJson, maxFilterLimit: nat, events: EventTable, latest: nat, lev: nat)
    requires Accepted(j)
  {
    var asked := AskedBy(j, events, latest);
    lev in asked && |NewerOf(events, asked, lev)| < Compiled(j, maxFilterLimit).limit
  }

  /** The answer holds, once each, exactly the events that some object of the request is owed. */
  method AnswerRequest(db: Snapshot, req: seq<FilterJson>, maxFilterLimit: nat, latest: nat)
    returns (out: Option<seq<nat>>)
    requires ValidSnapshot(db) && forall j <- req :: j.FilterObject? ==> KeysDiffer(j.fields)
    ensures out.Some? <==> GroupAccepted(req)
    ensures out.Some? ==> Distinct(out.value)
    ensures out.Some? ==>
      forall lev :: lev in out.value <==> exists j <- req :: Owed(j, maxFilterLimit, db.events, latest, lev)
  {
    var filters := ParseGroup(req, maxFilterLimit);
    if filters.None? { return None; }
    var answer := RunQuery(db, filters.value, latest);
    UnionOfUnites(GroupResults(filters.value, db.events, latest));
    forall lev: nat
      ensures lev in answer <==> exists j <- req :: Owed(j, maxFilterLimit, db.events, latest, lev)
    {
      InSomeIffOwed(req, filters.value, maxFilterLimit, db.events, latest, lev);
    }
    return Some(answer);
  }

  /** An object is owed what its compiled filter returns. */
  lemma OwedIsResult(j: FilterJson, maxFilterLimit: nat, events: EventTable, latest: nat, lev: nat)
    requires Accepted(j) && KeysDiffer(j.fields) && WellFormedTable(events)
    ensures Owed(j, maxFilterLimit, events, latest, lev) <==>
      lev in FilterResult(Compiled(j, maxFilterLimit), events, latest)
  {
    var f := Compiled(j, maxFilterLimit);
    forall m <- events ensures Matches(f, events[m]) <==> JsonMatches(j, events[m]) {
      CompiledMeans(j, maxFilterLimit, events[m]);
    }
    assert EligibleSet(f, events, latest) == AskedBy(j, events, latest);
    ResultHas(f, events, latest, lev);
  }

  lemma InSomeIffOwed(
    req: seq<FilterJson>, filters: seq<NostrFilter>, maxFilterLimit: nat, events: EventTable, latest: nat, lev: nat)
    requires WellFormedTable(events) && AllAccepted(req) && forall j <- req :: KeysDiffer(j.fields)
    requires GroupShape(filters, req, maxFilterLimit) && AllKept(filters, req, maxFilterLimit)
    ensures InSome(GroupResults(filters, events, latest), lev) <==>
      exists j <- req :: Owed(j, maxFilterLimit, events, latest, lev)
  {
    if k :| 0 <= k < |filters| && lev in GroupResults(filters, events, latest)[k] {
      assert filters[k] in filters;
      var j :| j in req && filters[k] == Compiled(j, maxFilterLimit);
      OwedIsResult(j, maxFilterLimit, events, latest, lev);
    }
    if j :| j in req && Owed(j, maxFilterLimit, events, latest, lev) {
      OwedIsResult(j, maxFilterLimit, events, latest, lev);
      ReturnedBySome(filters, Compiled(j, maxFilterLimit), events, latest, lev);
    }
  }

  lemma ReturnedBySome(filters: seq<NostrFilter>, f: NostrFilter, events: EventTable, latest: nat, lev: nat)
    requires (f in filters || f.neverMatch) && lev in FilterResult(f, events, latest)
    ensures InSome(GroupResults(filters, events, latest), lev)
  {
    ResultHas(f, events, latest, lev);
    var k :| 0 <= k < |filters| && filters[k] == f;
    assert lev in GroupResults(filters, events, latest)[k];
  }
}
