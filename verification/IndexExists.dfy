/**
 Every event table has its indices: the records golpe.yaml derives can be put in order.
 */
module IndexExists {
  import opened Events
  import opened Index

  function Entries(plan: Plan, events: EventTable): set<Rec> {
    set lev <- events, s <- EntryKeys(plan, events[lev]) :: Rec(s, events[lev].created, lev)
  }

  lemma {:induction false} InsertRec(ix: seq<Rec>, r: Rec) returns (out: seq<Rec>)
    requires Sorted(ix) && r !in ix
    ensures Sorted(out) && forall x :: x in out <==> x == r || x in ix
    decreases |ix|
  {
    if ix == [] { return [r]; }
    var n := |ix| - 1;
    var init, last := ix[..n], ix[n];
    assert ix == init + [last];
    RecTotal(last, r);
    if RecLess(last, r) {
      out := ix + [r];
      forall i | 0 <= i < |ix| ensures RecLess(ix[i], r) {
        if i < n { RecTransitive(ix[i], last, r); }
      }
    } else {
      var rest := InsertRec(init, r);
      out := rest + [last];
      forall i | 0 <= i < |rest| ensures RecLess(rest[i], last) {
        assert rest[i] in rest;
      }
    }
  }

  lemma {:induction false} SortRecs(R: set<Rec>) returns (ix: seq<Rec>)
    ensures Sorted(ix) && forall r :: r in ix <==> r in R
    decreases |R|
  {
    if R == {} { return []; }
    var r :| r in R;
    var rest := SortRecs(R - {r});
    ix := InsertRec(rest, r);
  }

  lemma TableHasIndex(events: EventTable, plan: Plan) returns (ix: seq<Rec>)
    ensures IsIndex(ix, plan, events)
  {
    ix := SortRecs(Entries(plan, events));
    forall r ensures r in ix <==> IsEntry(r, plan, events) {
      if IsEntry(r, plan, events) { assert r in Entries(plan, events); }
    }
  }

  /** An index is determined by the table: two indices of one plan are the same list. */
  lemma {:induction false} SortedUnique(a: seq<Rec>, b: seq<Rec>)
    requires Sorted(a) && Sorted(b) && forall r :: r in a <==> r in b
    ensures a == b
    decreases |a|
  {
    assert a != [] ==> a[0] in b;
    assert b != [] ==> b[0] in a;
    if a != [] {
      var n, m := |a| - 1, |b| - 1;
      assert a[n] in b && b[m] in a;
      RecTotal(a[n], b[m]);
      assert a[n] == b[m] by { LastIsGreatest(a, b[m]); LastIsGreatest(b, a[n]); }
      forall r ensures r in a[..n] <==> r in b[..m] {
        NotLast(a, r);
        NotLast(b, r);
      }
      SortedUnique(a[..n], b[..m]);
      assert a == a[..n] + [a[n]] && b == b[..m] + [b[m]];
    }
  }

  lemma LastIsGreatest(a: seq<Rec>, r: Rec)
    requires Sorted(a) && r in a
    ensures RecLeq(r, a[|a| - 1])
  {
  }

  lemma NotLast(a: seq<Rec>, r: Rec)
    requires Sorted(a) && a != []
    ensures r in a[..|a| - 1] <==> r in a && r != a[|a| - 1]
  {
    RecTotal(r, r);
    assert a == a[..|a| - 1] + [a[|a| - 1]];
  }

  /** A well-formed table always has a snapshot that queries can run on. */
  lemma SnapshotExists(events: EventTable) returns (db: Snapshot)
    requires WellFormedTable(events)
    ensures ValidSnapshot(db) && db.events == events
  {
    var byId := TableHasIndex(events, ById);
    var byTag := TableHasIndex(events, ByTag);
    var byPubkeyKind := TableHasIndex(events, ByPubkeyKind);
    var byPubkey := TableHasIndex(events, ByPubkey);
    var byKind := TableHasIndex(events, ByKind);
    var byCreated := TableHasIndex(events, ByCreated);
    db := Snapshot(events, map[
      ById := byId, ByTag := byTag, ByPubkeyKind := byPubkeyKind, ByPubkey := byPubkey, ByKind := byKind,
      ByCreated := byCreated]);
    forall plan: Plan ensures plan in db.index && IsIndex(db.index[plan], plan, events) {
      match plan
      case ById =>
      case ByTag =>
      case ByPubkeyKind =>
      case ByPubkey =>
      case ByKind =>
      case ByCreated =>
    }
  }
}
