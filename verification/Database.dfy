/**
 The event store with its sync trees: `writeEvents` and lookups of src/events.cpp,
 `deleteEvents` of src/events.h, src/NegentropyFilterCache.h, the tree commands of
 src/apps/dbutils/cmd_negentropy.cpp and the expiry pass of src/apps/relay/RelayCron.cpp.

 A sync tree is the set of (created_at, id) pairs it holds. Secondary indices are
 maintained by the database library, so a lookup is a search of the event table.
 */
module Database {
  import opened Lex
  import opened Events
  import opened Filters
  import opened Index
  import opened QuerySpec
  import opened Writes
  import opened Batches
  import Query

  /** A filter as stored, under its canonical text: the command line accepts one object or an array of them. */
  datatype StoredFilter = One(text: Bytes, f: NostrFilter) | Many(text: Bytes, fs: seq<NostrFilter>)

  datatype FilterInfo = FilterInfo(f: StoredFilter, treeId: nat)

  datatype CachedFilter = CachedFilter(f: NostrFilter, treeId: nat)

  datatype EventToWrite = EventToWrite(ev: Event, status: Status, levId: nat)

  type Elem = (nat, Bytes)

  function ElemOf(e: Event): Elem {
    (e.created, e.id)
  }

  ghost function Image(events: EventTable, f: NostrFilter): set<Elem> {
    set lev <- events | Matches(f, events[lev]) :: ElemOf(events[lev])
  }

  lemma ImageOfInsert(events: EventTable, f: NostrFilter, lev: nat, e: Event)
    requires lev !in events
    ensures Image(events[lev := e], f) == Image(events, f) + (if Matches(f, e) then {ElemOf(e)} else {})
  {
    var after := events[lev := e];
    forall x <- Image(events, f) ensures x in Image(after, f) {
      var k :| k in events && Matches(f, events[k]) && ElemOf(events[k]) == x;
      assert after[k] == events[k];
    }
    if Matches(f, e) { assert after[lev] == e; }
  }

  lemma ImageOfDelete(events: EventTable, f: NostrFilter, lev: nat)
    requires lev in events && UniqueIds(events)
    ensures Image(events - {lev}, f) ==
      Image(events, f) - (if Matches(f, events[lev]) then {ElemOf(events[lev])} else {})
  {
    var after := events - {lev};
    forall x <- Image(events, f) | x != ElemOf(events[lev]) || !Matches(f, events[lev]) ensures x in Image(after, f) {
      var k :| k in events && Matches(f, events[k]) && ElemOf(events[k]) == x;
      assert k in after && after[k] == events[k];
    }
  }

  /** The cached filters are exactly the stored ones. */
  predicate Loaded(cf: seq<CachedFilter>, table: seq<FilterInfo>) {
    && |cf| == |table|
    && forall i | 0 <= i < |table| :: table[i].f.One? && table[i].f.f == cf[i].f && table[i].treeId == cf[i].treeId
  }

  /** Every tree holds only stored events its filter matches; a built tree holds all of them. */
  ghost predicate TreesMirror(table: seq<FilterInfo>, trees: seq<set<Elem>>, built: set<nat>, events: EventTable) {
    && |trees| == |table|
    && (forall i | 0 <= i < |table| :: table[i].treeId == i + 1)
    && forall i | 0 <= i < |table| && table[i].f.One? ::
      && trees[i] <= Image(events, table[i].f.f)
      && (i + 1 in built ==> trees[i] == Image(events, table[i].f.f))
  }

  function UpdatedTree(f: NostrFilter, tree: set<Elem>, ev: Event, insert: bool): set<Elem> {
    if !Matches(f, ev) then tree else if insert then tree + {ElemOf(ev)} else tree - {ElemOf(ev)}
  }

  /** Each tree whose filter matches the event has it added or removed. */
  ghost predicate TreesUpdated(
    cf: seq<CachedFilter>, trees: seq<set<Elem>>, ev: Event, insert: bool, trees': seq<set<Elem>>)
  {
    && |trees'| == |trees| == |cf|
    && forall i | 0 <= i < |cf| :: trees'[i] == UpdatedTree(cf[i].f, trees[i], ev, insert)
  }

  lemma MirrorInsert(
    table: seq<FilterInfo>, cf: seq<CachedFilter>, trees: seq<set<Elem>>, trees': seq<set<Elem>>, built: set<nat>,
    events: EventTable, lev: nat, e: Event)
    requires TreesMirror(table, trees, built, events) && Loaded(cf, table) && lev !in events
    requires TreesUpdated(cf, trees, e, true, trees')
    ensures TreesMirror(table, trees', built, events[lev := e])
  {
    forall i | 0 <= i < |table|
      ensures Image(events[lev := e], cf[i].f) == UpdatedTree(cf[i].f, Image(events, cf[i].f), e, true)
    {
      ImageOfInsert(events, cf[i].f, lev, e);
    }
  }

  lemma MirrorDelete(
    table: seq<FilterInfo>, cf: seq<CachedFilter>, trees: seq<set<Elem>>, trees': seq<set<Elem>>, built: set<nat>,
    events: EventTable, lev: nat)
    requires TreesMirror(table, trees, built, events) && Loaded(cf, table) && lev in events && UniqueIds(events)
    requires TreesUpdated(cf, trees, events[lev], false, trees')
    ensures TreesMirror(table, trees', built, events - {lev})
  {
    forall i | 0 <= i < |table|
      ensures Image(events - {lev}, cf[i].f) == UpdatedTree(cf[i].f, Image(events, cf[i].f), events[lev], false)
    {
      ImageOfDelete(events, cf[i].f, lev);
    }
  }

  function LevSet(levs: seq<nat>): set<nat> {
    set lev | lev in levs
  }

  class NegentropyFilterCache {
    var filters: seq<CachedFilter>
    var modificationCounter: nat

    constructor ()
      ensures filters == [] && modificationCounter == 0
    {
      filters, modificationCounter := [], 0;
    }
  }

  predicate StorableFilter(f: NostrFilter) {
    f.neverMatch || ValidFilter(f)
  }

  function Keepers(fs: seq<NostrFilter>): seq<NostrFilter> {
    if fs == [] then [] else (if fs[0].neverMatch then [] else [fs[0]]) + Keepers(fs[1..])
  }

  /** The filter group compiled from a stored filter; filters that never match are dropped. */
  function Compiled(j: StoredFilter): seq<NostrFilter> {
    match j
    case One(_, f) => Keepers([f])
    case Many(_, fs) => Keepers(fs)
  }

  predicate Storable(j: StoredFilter) {
    match j
    case One(_, f) => StorableFilter(f)
    case Many(_, fs) => forall f <- fs :: StorableFilter(f)
  }

  lemma {:induction false} KeepersValid(fs: seq<NostrFilter>)
    requires forall f <- fs :: StorableFilter(f)
    ensures forall f <- Keepers(fs) :: ValidFilter(f)
  {
    if fs != [] {
      assert fs[0] in fs && forall f <- fs[1..] :: f in fs;
      KeepersValid(fs[1..]);
    }
  }

  /** `negentropy add` accepts a filter that can match, without a time window if it is alone, and not twice. */
  predicate Addable(j: StoredFilter, table: seq<FilterInfo>) {
    var c := Compiled(j);
    && !(|c| == 1 && (c[0].since != 0 || c[0].until != MAX_U64))
    && |c| != 0
    && forall i | 0 <= i < |table| :: table[i].f.text != j.text
  }

  /**
   Any array with two filters that can match is accepted under a new text, and no cache can be
   loaded from then on.
   */
  lemma ArrayIsAddable(text: Bytes, fs: seq<NostrFilter>, table: seq<FilterInfo>)
    requires |Keepers(fs)| >= 2 && forall i | 0 <= i < |table| :: table[i].f.text != text
    ensures Addable(Many(text, fs), table)
    ensures var table' := table + [FilterInfo(Many(text, fs), |table| + 1)];
      !forall i | 0 <= i < |table'| :: table'[i].f.One?
  {
    var table' := table + [FilterInfo(Many(text, fs), |table| + 1)];
    assert !table'[|table|].f.One?;
  }

  /** A filter that means the same as a stored one is accepted if its text differs. */
  lemma SameMeaningIsAddable(text: Bytes, f: NostrFilter, table: seq<FilterInfo>, i: nat)
    requires i < |table| && table[i].f.One? && table[i].f.f == f
    requires !f.neverMatch && f.since == 0 && f.until == MAX_U64
    ensures Addable(One(text, f), table) <==> forall k | 0 <= k < |table| :: table[k].f.text != text
  {
    assert Keepers([f]) == [f];
  }

  ghost function ElemsOf(events: EventTable, levs: seq<nat>): set<Elem> {
    set lev | lev in levs && lev in events :: ElemOf(events[lev])
  }

  /** Filling a tree from a query is complete when the filter's limit does not cut the query short. */
  lemma BuildFillsTree(events: EventTable, f: NostrFilter, tree: set<Elem>)
    requires UniqueIds(events) && WellFormedTable(events) && tree <= Image(events, f)
    ensures var S := EligibleSet(f, events, MAX_U64);
      var filled := tree + ElemsOf(events, FilterResult(f, events, MAX_U64));
      && filled <= Image(events, f)
      && (f.limit >= |S| ==> filled == Image(events, f))
      && (f.limit < |S| && tree == {} ==> filled != Image(events, f))
  {
    var S := EligibleSet(f, events, MAX_U64);
    var out := FilterResult(f, events, MAX_U64);
    SortHoldsAll(events, S);
    assert forall lev <- out :: lev in SortNewestFirst(events, S);
    if f.limit >= |S| {
      AllElems(events, f, out);
    } else {
      LeavesOneOut(S, out);
      var lev :| lev in S && lev !in out;
      OneElemMissing(events, f, out, lev);
    }
  }

  lemma AllElems(events: EventTable, f: NostrFilter, out: seq<nat>)
    requires WellFormedTable(events) && forall lev <- EligibleSet(f, events, MAX_U64) :: lev in out
    ensures Image(events, f) <= ElemsOf(events, out)
  {
    forall x <- Image(events, f) ensures x in ElemsOf(events, out) {
      var lev :| lev in events && Matches(f, events[lev]) && ElemOf(events[lev]) == x;
      assert lev in EligibleSet(f, events, MAX_U64) && lev in out;
    }
  }

  lemma OneElemMissing(events: EventTable, f: NostrFilter, out: seq<nat>, lev: nat)
    requires UniqueIds(events) && lev in EligibleSet(f, events, MAX_U64) && lev !in out
    ensures ElemOf(events[lev]) in Image(events, f) && ElemOf(events[lev]) !in ElemsOf(events, out)
  {
  }

  lemma LeavesOneOut(S: set<nat>, out: seq<nat>)
    requires |out| < |S|
    ensures exists lev <- S :: lev !in out
  {
    if forall lev <- S :: lev in out { SmallRange(S, out); }
  }

  lemma {:induction false} SmallRange(S: set<nat>, out: seq<nat>)
    requires forall lev <- S :: lev in out
    ensures |S| <= |out|
    decreases |out|
  {
    if out == [] {
      assert S == {};
    } else {
      SmallRange(S - {out[0]}, out[1..]);
    }
  }

  function Cutoff(now: nat, lifetime: nat): nat {
    if lifetime <= now then now - lifetime else (now + MAX_U64 + 1 - lifetime) % (MAX_U64 + 1)
  }

  /** What the expiry pass picks: expired events and outdated ephemeral ones, never the newest levId. */
  ghost predicate Expired(events: EventTable, now: nat, lifetime: nat, lev: nat) {
    && lev in events && lev != MaxLev(events.Keys)
    && 0 < events[lev].expiration <= now
    && (events[lev].expiration == 1 ==> events[lev].created <= Cutoff(now, lifetime))
  }

  const EMPTY_OBJECT: Bytes := [123, 125]   // {}

  const EVERYTHING := NostrFilter(None, None, None, [], 0, MAX_U64, MAX_U64, false, true)

  class Db {
    var events: EventTable
    var filterTable: seq<FilterInfo>
    var trees: seq<set<Elem>>   // by tree id, starting from 1
    var modCounter: nat
    ghost var built: set<nat>   // trees that were complete at some point

    ghost predicate Mirrored()
      reads this
    {
      TreesMirror(filterTable, trees, built, events)
    }

    ghost predicate TableOk()
      reads this
    {
      && modCounter >= 1
      && (forall t <- built :: t <= |filterTable|)
      && forall i | 0 <= i < |filterTable| :: Storable(filterTable[i].f) && Compiled(filterTable[i].f) != []
    }

    ghost predicate Valid()
      reads this
    {
      StoreInv(events) && Mirrored() && TableOk()
    }

    /** A cache is either behind the counter or holds the whole table. */
    predicate Coherent(cf: seq<CachedFilter>, cm: nat)
      reads this
    {
      cm <= modCounter && (cm == modCounter ==> Loaded(cf, filterTable))
    }

    /** A new database: one tree, for everything, complete from the start. */
    constructor ()
      ensures Valid() && events == map[] && built == {1}
      ensures filterTable == [FilterInfo(One(EMPTY_OBJECT, EVERYTHING), 1)]
      ensures forall cf :: Coherent(cf, 0)
    {
      events := map[];
      filterTable := [FilterInfo(One(EMPTY_OBJECT, EVERYTHING), 1)];
      trees := [{}];
      modCounter := 1;
      built := {1};
    }

    /** Reloads the cache if the table has changed; false stands for the parse error on an array filter. */
    method FreshenCache(cache: NegentropyFilterCache) returns (ok: bool)
      requires Coherent(cache.filters, cache.modificationCounter)
      modifies cache
      ensures Coherent(cache.filters, cache.modificationCounter)
      ensures ok ==> Loaded(cache.filters, filterTable)
      ensures ok <==> old(cache.modificationCounter) == modCounter ||
                      forall i | 0 <= i < |filterTable| :: filterTable[i].f.One?
    {
      if modCounter != cache.modificationCounter {
        cache.filters := [];
        for i := 0 to |filterTable|
          invariant cache.modificationCounter == old(cache.modificationCounter)
          invariant Loaded(cache.filters, filterTable[..i])
        {
          if filterTable[i].f.Many? { return false; }
          cache.filters := cache.filters + [CachedFilter(filterTable[i].f.f, filterTable[i].treeId)];
        }
        assert filterTable[..|filterTable|] == filterTable;
        cache.modificationCounter := modCounter;
      }
      return true;
    }

    /** Tells every tree whose filter matches about an insertion or a deletion. */
    method UpdateNegentropy(cache: NegentropyFilterCache, ev: Event, insert: bool)
      requires |cache.filters| == |trees|
      requires forall i | 0 <= i < |trees| :: cache.filters[i].treeId == i + 1
      modifies `trees
      ensures TreesUpdated(cache.filters, old(trees), ev, insert, trees)
    {
      for i := 0 to |cache.filters|
        invariant |trees| == |cache.filters|
        invariant forall k | 0 <= k < |trees| ::
          trees[k] == if k < i then UpdatedTree(cache.filters[k].f, old(trees)[k], ev, insert) else old(trees)[k]
      {
        var filter := cache.filters[i];
        if Matches(filter.f, ev) {
          var t := filter.treeId - 1;
          trees := trees[t := if insert then trees[t] + {ElemOf(ev)} else trees[t] - {ElemOf(ev)}];
        }
      }
    }

    method MostRecentLevId() returns (m: nat)
      ensures m == MaxLev(events.Keys)
    {
      m := 0;
      var rest := events.Keys;
      while rest != {}
        invariant rest <= events.Keys
        invariant forall lev <- events :: lev in rest || lev <= m
        invariant m == 0 || m in events
      {
        var lev :| lev in rest;
        if lev > m { m := lev; }
        rest := rest - {lev};
      }
    }

    method LookupById(id: Bytes) returns (found: Option<nat>)
      ensures found.Some? ==> found.value in events && events[found.value].id == id
      ensures found.None? <==> !Stored(events, id)
    {
      if lev :| lev in events && events[lev].id == id { return Some(lev); }
      return None;
    }

    method LookupReplace(a: Addr) returns (found: Option<nat>)
      ensures found.Some? ==> found.value in events && Address(events[found.value]) == Some(a)
      ensures found.None? ==> forall lev <- events :: Address(events[lev]) != Some(a)
    {
      if lev :| lev in events && Address(events[lev]) == Some(a) { return Some(lev); }
      return None;
    }

    method DeleteEvent(cache: NegentropyFilterCache, lev: nat)
      requires Loaded(cache.filters, filterTable) && Mirrored() && UniqueIds(events) && lev in events
      modifies `events, `trees
      ensures events == old(events) - {lev} && Mirrored() && UniqueIds(events) && |events| == |old(events)| - 1
    {
      assert events.Keys == (events - {lev}).Keys + {lev};
      ghost var was := trees;
      UpdateNegentropy(cache, events[lev], false);
      MirrorDelete(filterTable, cache.filters, was, trees, built, events, lev);
      events := events - {lev};
    }

    /** Deletes the listed events that are still there; the trees follow. */
    method DeleteListed(cache: NegentropyFilterCache, levs: seq<nat>) returns (numDeleted: nat)
      requires Loaded(cache.filters, filterTable) && Mirrored() && UniqueIds(events)
      modifies `events, `trees
      ensures events == old(events) - LevSet(levs) && Mirrored()
      ensures numDeleted == |old(events)| - |events|
    {
      numDeleted := 0;
      for i := 0 to |levs|
        invariant events == old(events) - LevSet(levs[..i])
        invariant Mirrored() && UniqueIds(events)
        invariant numDeleted == |old(events)| - |events|
      {
        OneMoreGone(old(events), levs, i);
        if levs[i] in events {
          DeleteEvent(cache, levs[i]);
          numDeleted := numDeleted + 1;
        }
      }
      assert levs[..|levs|] == levs;
    }

    /** The events a deletion request removes: those it names, of its own author. */
    method CollectDeletions(e: Event) returns (levs: seq<nat>)
      requires UniqueIds(events) && e.kind == DELETION_KIND
      ensures forall lev :: lev in levs <==> lev in events && Deletes(e, events[lev])
    {
      levs := [];
      for i := 0 to |e.tags|
        invariant forall lev :: lev in levs <==>
          lev in events && events[lev].pubkey == e.pubkey && Tag(TAG_E, events[lev].id) in e.tags[..i]
      {
        assert e.tags[..i + 1] == e.tags[..i] + [e.tags[i]];
        if e.tags[i].name == TAG_E {
          var other := LookupById(e.tags[i].val);
          if other.Some? && events[other.value].pubkey == e.pubkey {
            levs := levs + [other.value];
          }
        }
      }
      assert e.tags[..|e.tags|] == e.tags;
    }

    method Insert(cache: NegentropyFilterCache, e: Event) returns (lev: nat)
      requires Loaded(cache.filters, filterTable) && Mirrored()
      modifies `events, `trees
      ensures lev == MaxLev(old(events).Keys) + 1
      ensures events == old(events)[lev := e] && Mirrored()
    {
      lev := MostRecentLevId();
      lev := lev + 1;
      ghost var was := trees;
      UpdateNegentropy(cache, e, true);
      MirrorInsert(filterTable, cache.filters, was, trees, built, events, lev, e);
      events := events[lev := e];
    }

    /** What the write would do: be refused, or go ahead after deleting the listed events. */
    method Judge(e: Event, isRepeat: bool) returns (status: Status, levIdsToDelete: seq<nat>)
      requires UniqueIds(events) && UniqueAddresses(events)
      ensures Verdict(events, e, isRepeat) == if status == Pending then Written else status
      ensures status == Pending ==> LevSet(levIdsToDelete) == Doomed(events, e)
      ensures status != Written && (status != Pending ==> levIdsToDelete == [])
    {
      levIdsToDelete := [];
      var found := LookupById(e.id);
      if found.Some? || isRepeat { return Duplicate, []; }
      if Condemned(events, e) { return Deleted, []; }

      status := Pending;
      if Address(e).Some? {
        var other := LookupReplace(Address(e).value);
        if other.Some? {
          if Beats(e, events[other.value]) { levIdsToDelete := [other.value]; } else { status := Replaced; }
        }
      }
      if e.kind == DELETION_KIND {
        var named := CollectDeletions(e);
        levIdsToDelete := levIdsToDelete + named;
      }
      ListedAreDoomed(events, e, levIdsToDelete, status);
    }

    /** Inserts first and deletes after, so that the newest levId is never free. */
    method Commit(cache: NegentropyFilterCache, e: Event, levIdsToDelete: seq<nat>) returns (levId: nat)
      requires Loaded(cache.filters, filterTable) && Mirrored() && UniqueIds(events) && !Stored(events, e.id)
      modifies `events, `trees
      ensures Mirrored() && levId == MaxLev(old(events).Keys) + 1
      ensures events == old(events)[levId := e] - LevSet(levIdsToDelete)
    {
      InsertKeepsIds(events, e, MaxLev(events.Keys) + 1);
      levId := Insert(cache, e);
      var _ := DeleteListed(cache, levIdsToDelete);
    }

    /** The body of the loop in `writeEvents`. */
    method WriteOne(cache: NegentropyFilterCache, e: Event, isRepeat: bool) returns (status: Status, levId: nat)
      requires StoreInv(events) && Mirrored() && Loaded(cache.filters, filterTable) && NotSelfReferring(e)
      modifies `events, `trees
      ensures StoreInv(events) && Mirrored()
      ensures status == Verdict(old(events), e, isRepeat)
      ensures events == AfterWrite(old(events), e, isRepeat)
      ensures status == Written ==> levId == MaxLev(old(events).Keys) + 1
    {
      levId := 0;
      var levIdsToDelete: seq<nat>;
      status, levIdsToDelete := Judge(e, isRepeat);
      if status == Pending {
        ghost var was := events;
        levId := Commit(cache, e, levIdsToDelete);
        CommittedIsWritten(was, e, isRepeat, levIdsToDelete, events);
        status := Written;
        levIdsToDelete := [];
      }
      assert levIdsToDelete == [];   // the "unprocessed deletion" error cannot occur
    }

    method WriteSorted(cache: NegentropyFilterCache, sorted: seq<Event>) returns (evs: seq<EventToWrite>)
      requires StoreInv(events) && Mirrored() && Loaded(cache.filters, filterTable)
      requires forall e <- sorted :: NotSelfReferring(e)
      modifies `events, `trees
      ensures StoreInv(events) && Mirrored()
      ensures events == AfterAll(old(events), sorted) && Outcome(old(events), sorted, evs)
    {
      evs := [];
      for i := 0 to |sorted|
        invariant StoreInv(events) && Mirrored()
        invariant events == AfterAll(old(events), sorted[..i])
        invariant |evs| == i && OutcomeSoFar(old(events), sorted, evs)
      {
        assert sorted[i] in sorted;
        AfterNext(old(events), sorted, i);
        var status, levId := WriteOne(cache, sorted[i], Repeats(sorted, i));
        OneMoreOutcome(old(events), sorted, evs, EventToWrite(sorted[i], status, levId));
        evs := evs + [EventToWrite(sorted[i], status, levId)];
      }
      assert sorted[..|sorted|] == sorted;
    }

    /** Writes a batch. `threw` is the error of an unparsable filter table: nothing is written then. */
    method WriteEvents(cache: NegentropyFilterCache, batch: seq<Event>) returns (threw: bool, evs: seq<EventToWrite>)
      requires Valid() && Coherent(cache.filters, cache.modificationCounter)
      requires forall e <- batch :: NotSelfReferring(e)
      modifies `events, `trees, cache
      ensures Valid() && Coherent(cache.filters, cache.modificationCounter)
      ensures threw ==> events == old(events)
      ensures !threw ==>
        events == AfterAll(old(events), SortBatch(batch)) && Outcome(old(events), SortBatch(batch), evs)
    {
      var sorted := SortBatch(batch);
      SortBatchSame(batch);
      var ok := FreshenCache(cache);
      if !ok { return true, []; }
      threw := false;
      evs := WriteSorted(cache, sorted);
    }

    /** `negentropy add`: a new, empty tree. Every cache of the old table is out of date from here on. */
    method AddTree(j: StoredFilter) returns (ok: bool)
      requires Valid() && Storable(j)
      modifies `filterTable, `trees, `modCounter
      ensures Valid() && (ok <==> Addable(j, old(filterTable)))
      ensures !ok ==> unchanged(this)
      ensures ok ==>
        filterTable == old(filterTable) + [FilterInfo(j, |old(filterTable)| + 1)] && trees == old(trees) + [{}]
      ensures forall cf, cm :: old(Coherent(cf, cm)) ==> Coherent(cf, cm)
    {
      ok := Addable(j, filterTable);
      if ok {
        modCounter := modCounter + 1;
        filterTable := filterTable + [FilterInfo(j, |filterTable| + 1)];
        trees := trees + [{}];
      }
    }

    /** `negentropy build`: adds everything the filter's query returns. */
    method BuildTree(treeId: nat, snap: Snapshot) returns (ok: bool)
      requires Valid() && ValidSnapshot(snap) && snap.events == events
      modifies `trees, `modCounter, `built
      ensures Valid() && (ok <==> 1 <= treeId <= |filterTable|) && |trees| == |old(trees)|
      ensures !ok ==> unchanged(this)
      ensures forall i | 0 <= i < |trees| && i + 1 != treeId :: trees[i] == old(trees)[i]
      ensures forall cf, cm :: old(Coherent(cf, cm)) ==> Coherent(cf, cm)
      ensures built >= old(built)
      ensures ok && filterTable[treeId - 1].f.One? ==>
        var S := EligibleSet(filterTable[treeId - 1].f.f, events, MAX_U64);
        && (filterTable[treeId - 1].f.f.limit >= |S| ==> treeId in built)
        && (old(trees)[treeId - 1] == {} && treeId !in old(built) ==>
             (treeId in built <==> filterTable[treeId - 1].f.f.limit >= |S|))
    {
      if treeId < 1 || treeId > |filterTable| { return false; }
      var j := filterTable[treeId - 1].f;
      var tree := FillTree(snap, j, trees[treeId - 1]);
      ghost var isBuilt := if j.One? && tree == Image(events, j.f) then {treeId} else {};
      MirrorFill(filterTable, trees, built, events, treeId - 1, tree, isBuilt);
      modCounter := modCounter + 1;
      trees := trees[treeId - 1 := tree];
      built := built + isBuilt;
      return true;
    }

    /** The read transaction of the expiry pass. */
    method CollectExpired(now: nat, lifetime: nat) returns (expired: seq<nat>)
      ensures forall lev :: lev in expired <==> Expired(events, now, lifetime, lev)
    {
      var mostRecent := MostRecentLevId();
      var cutoff := Cutoff(now, lifetime);
      expired := [];
      var rest := events.Keys;
      while rest != {}
        invariant rest <= events.Keys
        invariant forall lev :: lev in expired <==> lev !in rest && Expired(events, now, lifetime, lev)
      {
        var lev :| lev in rest;
        rest := rest - {lev};
        var expiration := events[lev].expiration;
        if expiration == 0 || expiration > now || lev == mostRecent { continue; }
        if expiration == 1 {
          if events[lev].created <= cutoff { expired := expired + [lev]; }
        } else {
          expired := expired + [lev];
        }
      }
    }

    /** Deletes the listed events outright (expiry, the delete command). */
    method DeleteEvents(cache: NegentropyFilterCache, levs: seq<nat>) returns (threw: bool, numDeleted: nat)
      requires Valid() && Coherent(cache.filters, cache.modificationCounter)
      modifies `events, `trees, cache
      ensures Valid() && Coherent(cache.filters, cache.modificationCounter)
      ensures events == if threw then old(events) else old(events) - LevSet(levs)
      ensures numDeleted == |old(events)| - |events|
    {
      var ok := FreshenCache(cache);
      if !ok { return true, 0; }
      threw := false;
      numDeleted := DeleteListed(cache, levs);
    }
  }

  function Records(events: EventTable, levs: seq<nat>): (recs: set<Elem>)
    ensures recs == ElemsOf(events, levs)
  {
    set lev | lev in levs && lev in events :: ElemOf(events[lev])
  }

  /** For a single filter, what was queried is the tree's filter result. */
  lemma BuiltFrom(events: EventTable, f: NostrFilter, levs: seq<nat>, tree: set<Elem>, recs: set<Elem>)
    requires UniqueIds(events) && WellFormedTable(events) && ValidFilter(f) && tree <= Image(events, f)
    requires levs == UnionOf(GroupResults(Keepers([f]), events, MAX_U64)) && recs == ElemsOf(events, levs)
    ensures var S := EligibleSet(f, events, MAX_U64);
      && tree + recs <= Image(events, f)
      && (f.limit >= |S| ==> tree + recs == Image(events, f))
      && (f.limit < |S| && tree == {} ==> tree + recs != Image(events, f))
  {
    var t := FilterResult(f, events, MAX_U64);
    assert GroupResults(Keepers([f]), events, MAX_U64) == [t];
    var none: seq<seq<nat>> := [];
    assert [t][..0] == none && UnionOf(none) == [];
    AppendNewUnites([], t);
    assert ElemsOf(events, levs) == ElemsOf(events, t);
    BuildFillsTree(events, f, tree);
  }

  /** Each entry of a written batch carries the verdict of its own moment. */
  ghost predicate Outcome(events: EventTable, sorted: seq<Event>, evs: seq<EventToWrite>) {
    |evs| == |sorted| && OutcomeSoFar(events, sorted, evs)
  }

  ghost predicate OutcomeSoFar(events: EventTable, sorted: seq<Event>, evs: seq<EventToWrite>) {
    && |evs| <= |sorted|
    && forall k | 0 <= k < |evs| :: evs[k].ev == sorted[k] && evs[k].status == StatusAt(events, sorted, k)
  }

  lemma OneMoreOutcome(events: EventTable, sorted: seq<Event>, evs: seq<EventToWrite>, next: EventToWrite)
    requires OutcomeSoFar(events, sorted, evs) && |evs| < |sorted|
    requires next.ev == sorted[|evs|] && next.status == StatusAt(events, sorted, |evs|)
    ensures OutcomeSoFar(events, sorted, evs + [next])
  {
  }

  /** The query and the insertions of `negentropy build`. */
  method FillTree(snap: Snapshot, j: StoredFilter, tree: set<Elem>) returns (tree': set<Elem>)
    requires ValidSnapshot(snap) && UniqueIds(snap.events) && Storable(j) && Compiled(j) != []
    requires j.One? ==> tree <= Image(snap.events, j.f)
    ensures tree <= tree'
    ensures j.One? ==>
      && tree' <= Image(snap.events, j.f)
      && (j.f.limit >= |EligibleSet(j.f, snap.events, MAX_U64)| ==> tree' == Image(snap.events, j.f))
      && (j.f.limit < |EligibleSet(j.f, snap.events, MAX_U64)| && tree == {} ==> tree' != Image(snap.events, j.f))
  {
    KeepersValid(match j case One(_, f) => [f] case Many(_, fs) => fs);
    var levs := Query.RunQuery(snap, Compiled(j), MAX_U64);
    var recs := Records(snap.events, levs);
    if j.One? { BuiltFrom(snap.events, j.f, levs, tree, recs); }
    tree' := tree + recs;
  }

  lemma MirrorFill(
    table: seq<FilterInfo>, trees: seq<set<Elem>>, built: set<nat>, events: EventTable, i: nat,
    tree: set<Elem>, more: set<nat>)
    requires TreesMirror(table, trees, built, events) && i < |table|
    requires table[i].f.One? ==> trees[i] <= tree <= Image(events, table[i].f.f)
    requires more == if table[i].f.One? && tree == Image(events, table[i].f.f) then {i + 1} else {}
    ensures TreesMirror(table, trees[i := tree], built + more, events)
  {
  }

  lemma InsertKeepsIds(events: EventTable, e: Event, lev: nat)
    requires UniqueIds(events) && !Stored(events, e.id)
    ensures UniqueIds(events[lev := e])
  {
  }

  lemma CommittedIsWritten(was: EventTable, e: Event, isRepeat: bool, levs: seq<nat>, now: EventTable)
    requires StoreInv(was) && NotSelfReferring(e) && Verdict(was, e, isRepeat) == Written &&
      LevSet(levs) == Doomed(was, e)
    requires now == was[MaxLev(was.Keys) + 1 := e] - LevSet(levs)
    ensures now == AfterWrite(was, e, isRepeat) && StoreInv(now)
  {
    assert now == was[MaxLev(was.Keys) + 1 := e] - Doomed(was, e) == AfterWrite(was, e, isRepeat);
    WriteKeepsInv(was, e, isRepeat);
  }

  /** What the lookups found, against the definition of the write. */
  lemma ListedAreDoomed(events: EventTable, e: Event, levs: seq<nat>, status: Status)
    requires UniqueAddresses(events) && (status == Pending || status == Replaced)
    requires status == Replaced <==> Outranked(events, e)
    requires forall lev :: lev in levs <==>
      lev in events && ((SameAddress(events[lev], e) && Beats(e, events[lev])) || Deletes(e, events[lev]))
    ensures status == Pending ==> LevSet(levs) == Doomed(events, e)
    ensures status == Replaced ==> levs == []
  {
    assert levs != [] ==> levs[0] in levs;
    if status == Replaced { ReplacedDeletesNothing(events, e); }
  }

  lemma OneMoreGone(events: EventTable, levs: seq<nat>, i: nat)
    requires i < |levs|
    ensures var left := events - LevSet(levs[..i]);
      events - LevSet(levs[..i + 1]) == if levs[i] in left then left - {levs[i]} else left
  {
    assert levs[..i + 1] == levs[..i] + [levs[i]];
    assert LevSet(levs[..i + 1]) == LevSet(levs[..i]) + {levs[i]};
  }
}
