/**
 The inverted index of live subscriptions (src/ActiveMonitors.h).

 The five lookup structures are one map whose keys say which structure they belong
 to. A pointer to a filter inside a subscription is the subscription's key and the
 filter's position in it.
 */
module ActiveMonitors {
  import opened Seqs
  import opened Lex
  import opened Events
  import opened Filters
  import opened Nested
  import opened MonitorSpec

  datatype FilterRef = FilterRef(sub: SubKey, index: nat)

  /** Filters installed under one key, each with the last event it has been tried on. */
  type MonitorSet = map<FilterRef, nat>

  type Lookups = map<LookupKey, MonitorSet>

  predicate Installed(l: Lookups, k: LookupKey, r: FilterRef) {
    k in l && r in l[k]
  }

  predicate Covers(filters: seq<NostrFilter>, k: LookupKey, i: nat) {
    i < |filters| && k in KeysOf(filters[i])
  }

  /** Key `k` should lead to filter `r`. */
  predicate Wanted(conns: Conns<Sub>, k: LookupKey, r: FilterRef) {
    Get(conns, r.sub).Some? && Covers(Get(conns, r.sub).value.filters, k, r.index)
  }

  ghost predicate Exact(l: Lookups, conns: Conns<Sub>) {
    forall k, r :: Installed(l, k, r) <==> Wanted(conns, k, r)
  }

  predicate NoEmptySet(l: Lookups) {
    forall k <- l :: l[k] != map[]
  }

  predicate CanonSub(sub: Sub) {
    forall f <- sub.filters :: CanonFilter(f)
  }

  ghost predicate CanonSubs(conns: Conns<Sub>) {
    forall x :: Get(conns, x).Some? ==> CanonSub(Get(conns, x).value)
  }

  /** No filter has been tried on an event newer than the last one processed or the subscription itself. */
  ghost predicate TriedUpTo(l: Lookups, conns: Conns<Sub>, last: nat) {
    forall k, r | Installed(l, k, r) ::
      Get(conns, r.sub).Some? && l[k][r] <= Max(last, Get(conns, r.sub).value.latest)
  }

  // ----- installing and uninstalling one pair -----

  function AddPair(l: Lookups, k: LookupKey, r: FilterRef, latest: nat): Lookups {
    var ms := if k in l then l[k] else map[];
    if r in ms then l else l[k := ms[r := latest]]
  }

  function DropPair(l: Lookups, k: LookupKey, r: FilterRef): Lookups
    requires k in l
  {
    var ms := l[k] - {r};
    if ms == map[] then l - {k} else l[k := ms]
  }

  lemma AddPairAdds(l: Lookups, k: LookupKey, r: FilterRef, latest: nat)
    ensures var l' := AddPair(l, k, r, latest);
      && (forall k', r' :: Installed(l', k', r') <==> Installed(l, k', r') || (k' == k && r' == r))
      && (forall k', r' | Installed(l, k', r') :: l'[k'][r'] == l[k'][r'])
      && (!Installed(l, k, r) ==> l'[k][r] == latest)
      && (NoEmptySet(l) ==> NoEmptySet(l'))
  {
    var l' := AddPair(l, k, r, latest);
    assert r in l'[k];
  }

  lemma DropPairDrops(l: Lookups, k: LookupKey, r: FilterRef)
    requires Installed(l, k, r)
    ensures var l' := DropPair(l, k, r);
      && (forall k', r' :: Installed(l', k', r') <==> Installed(l, k', r') && !(k' == k && r' == r))
      && (forall k', r' | Installed(l', k', r') :: l'[k'][r'] == l[k'][r'])
      && (NoEmptySet(l) ==> NoEmptySet(l'))
  {
    var l' := DropPair(l, k, r);
    forall k', r' ensures Installed(l', k', r') <==> Installed(l, k', r') && !(k' == k && r' == r) {
      if k' == k && r' != r && Installed(l, k', r') { assert r' in l[k] - {r}; }
    }
  }

  /** `l'` is `l` with the pairs of filters `lo..hi` of subscription `x` added or taken away. */
  ghost predicate Differs(l: Lookups, l': Lookups, x: SubKey, filters: seq<NostrFilter>, lo: nat, hi: nat) {
    forall k, r :: Installed(l', k, r) <==>
      Installed(l, k, r) || (r.sub == x && lo <= r.index < hi && Covers(filters, k, r.index))
  }

  /** `l` is `l0` without anything of subscription `x`. */
  ghost predicate Without(l0: Lookups, l: Lookups, x: SubKey) {
    && (forall k, r :: Installed(l, k, r) <==> Installed(l0, k, r) && r.sub != x)
    && (forall k, r | Installed(l, k, r) :: Installed(l0, k, r) && l[k][r] == l0[k][r])
  }

  lemma RemovedExactly(l0: Lookups, l: Lookups, conns: Conns<Sub>, x: SubKey, last: nat)
    requires Exact(l0, conns) && TriedUpTo(l0, conns, last) && Without(l0, l, x)
    ensures Exact(l, Erase(conns, x)) && TriedUpTo(l, Erase(conns, x), last)
  {
    GetErase(conns, x);
  }

  lemma AddedExactly(l0: Lookups, l: Lookups, conns: Conns<Sub>, x: SubKey, sub: Sub, last: nat)
    requires Exact(l0, conns) && TriedUpTo(l0, conns, last) && Get(conns, x).None?
    requires Differs(l0, l, x, sub.filters, 0, |sub.filters|)
    requires forall k, r | Installed(l, k, r) :: Installed(l0, k, r) || r.sub == x
    requires forall k, r | Installed(l, k, r) :: l[k][r] == if r.sub == x then sub.latest else l0[k][r]
    ensures Exact(l, Put(conns, x, sub)) && TriedUpTo(l, Put(conns, x, sub), last)
  {
    GetPut(conns, x, sub);
  }

  function SetTried(l: Lookups, k: LookupKey, r: FilterRef, lev: nat): Lookups
    requires k in l
  {
    var ms: MonitorSet := l[k][r := lev];
    l[k := ms]
  }

  datatype AddResult = Added | Refused | OutOfDate

  function WithLatest(conns: Conns<Sub>, x: SubKey, lev: nat): Conns<Sub>
    requires Get(conns, x).Some?
  {
    Put(conns, x, Get(conns, x).value.(latest := lev))
  }

  /** While event `e` is handled: `conns0` are the subscriptions at the start, `told` those notified so far. */
  ghost predicate Marked(conns0: Conns<Sub>, conns: Conns<Sub>, told: seq<SubKey>, lev: nat) {
    && (NoEmptyConn(conns0) ==> NoEmptyConn(conns)) && conns.Keys == conns0.Keys
    && (forall c <- conns :: |conns[c]| == |conns0[c]|)
    && (forall x ::
         Get(conns, x) == if Get(conns0, x).Some? && x in told
                          then Some(Get(conns0, x).value.(latest := lev)) else Get(conns0, x))
  }

  ghost predicate ToldOk(conns0: Conns<Sub>, told: seq<SubKey>, e: Event, lev: nat) {
    Distinct(told) && forall x <- told :: Get(conns0, x).Some? && Due(Get(conns0, x).value, e, lev)
  }

  ghost predicate RefDue(conns0: Conns<Sub>, r: FilterRef, e: Event, lev: nat) {
    && Get(conns0, r.sub).Some? && r.index < |Get(conns0, r.sub).value.filters|
    && Get(conns0, r.sub).value.latest < lev && Matches(Get(conns0, r.sub).value.filters[r.index], e)
  }

  /** Every filter tried so far that is due has had its subscription told; the others are still untried. */
  ghost predicate TriedOk(
    conns0: Conns<Sub>, l0: Lookups, l: Lookups, told: seq<SubKey>, tried: set<(LookupKey, FilterRef)>,
    e: Event, lev: nat, last: nat)
  {
    && (forall p <- tried | RefDue(conns0, p.1, e, lev) :: p.1.sub in told)
    && l.Keys == l0.Keys && (forall k, r :: Installed(l, k, r) <==> Installed(l0, k, r))
    && (forall k, r | Installed(l, k, r) && Get(conns0, r.sub).Some? ::
         && ((k, r) !in tried ==> l[k][r] <= Max(last, Get(conns0, r.sub).value.latest))
         && l[k][r] <= Max(lev, Get(conns0, r.sub).value.latest))
  }

  class ActiveMonitors {
    var conns: Conns<Sub>
    var lookups: Lookups
    ghost var lastEv: nat   // the last event processed

    ghost predicate Valid()
      reads this
    {
      && Exact(lookups, conns) && NoEmptySet(lookups)
      && CanonSubs(conns) && TriedUpTo(lookups, conns, lastEv)
    }

    constructor ()
      ensures Valid() && conns == map[]
    {
      conns, lookups, lastEv := map[], map[], 0;
    }

    method InstallLookups(x: SubKey, filters: seq<NostrFilter>, currEventId: nat)
      requires NoEmptySet(lookups) && forall k, r | Installed(lookups, k, r) :: r.sub != x
      modifies `lookups
      ensures NoEmptySet(lookups) && Differs(old(lookups), lookups, x, filters, 0, |filters|)
      ensures forall k, r | Installed(lookups, k, r) ::
        lookups[k][r] == if r.sub == x then currEventId else old(lookups)[k][r]
    {
      for i := 0 to |filters|
        invariant NoEmptySet(lookups) && Differs(old(lookups), lookups, x, filters, 0, i)
        invariant forall k, r | Installed(lookups, k, r) ::
          lookups[k][r] == if r.sub == x then currEventId else old(lookups)[k][r]
      {
        var keys := KeysOf(filters[i]);
        for j := 0 to |keys|
          invariant NoEmptySet(lookups)
          invariant forall k, r :: Installed(lookups, k, r) <==>
            || Installed(old(lookups), k, r)
            || (r.sub == x && r.index < i && Covers(filters, k, r.index))
            || (r == FilterRef(x, i) && k in keys[..j])
          invariant forall k, r | Installed(lookups, k, r) ::
            lookups[k][r] == if r.sub == x then currEventId else old(lookups)[k][r]
        {
          assert keys[..j + 1] == keys[..j] + [keys[j]];
          AddPairAdds(lookups, keys[j], FilterRef(x, i), currEventId);
          lookups := AddPair(lookups, keys[j], FilterRef(x, i), currEventId);
        }
        assert keys[..|keys|] == keys;
      }
    }

    /** The inverse. Each lookup that the source does with `.at` finds its entry. */
    method UninstallLookups(x: SubKey, filters: seq<NostrFilter>)
      requires NoEmptySet(lookups) && forall f <- filters :: CanonFilter(f)
      requires forall k, r: FilterRef | r.sub == x :: Installed(lookups, k, r) <==> Covers(filters, k, r.index)
      modifies `lookups
      ensures NoEmptySet(lookups) && Without(old(lookups), lookups, x)
    {
      for i := 0 to |filters|
        invariant NoEmptySet(lookups)
        invariant forall k, r :: Installed(lookups, k, r) <==>
          Installed(old(lookups), k, r) && !(r.sub == x && r.index < i)
        invariant forall k, r | Installed(lookups, k, r) ::
          Installed(old(lookups), k, r) && lookups[k][r] == old(lookups)[k][r]
      {
        assert forall k :: Installed(lookups, k, FilterRef(x, i)) <==> Covers(filters, k, i);
        UninstallFilter(FilterRef(x, i), filters[i]);
      }
    }

    method UninstallFilter(ref: FilterRef, f: NostrFilter)
      requires NoEmptySet(lookups) && CanonFilter(f)
      requires forall k :: Installed(lookups, k, ref) <==> k in KeysOf(f)
      modifies `lookups
      ensures NoEmptySet(lookups)
      ensures forall k, r :: Installed(lookups, k, r) <==> Installed(old(lookups), k, r) && r != ref
      ensures forall k, r | Installed(lookups, k, r) ::
        Installed(old(lookups), k, r) && lookups[k][r] == old(lookups)[k][r]
    {
      var keys := KeysOf(f);
      KeysDistinct(f);
      for j := 0 to |keys|
        invariant NoEmptySet(lookups)
        invariant forall k, r :: Installed(lookups, k, r) <==>
          Installed(old(lookups), k, r) && !(r == ref && k in keys[..j])
        invariant forall k, r | Installed(lookups, k, r) ::
          Installed(old(lookups), k, r) && lookups[k][r] == old(lookups)[k][r]
      {
        assert keys[..j + 1] == keys[..j] + [keys[j]];
        assert Installed(lookups, keys[j], ref);
        DropPairDrops(lookups, keys[j], ref);
        lookups := DropPair(lookups, keys[j], ref);
      }
      assert keys[..|keys|] == keys;
    }

    method RemoveSub(x: SubKey)
      requires Valid()
      modifies `conns, `lookups
      ensures Valid() && conns == Removed(old(conns), x)
      ensures forall y :: Get(conns, y) == if y == x then None else Get(old(conns), y)
    {
      GetRemoved(conns, x);
      if Get(conns, x).None? { return; }
      ghost var l0 := lookups;
      UninstallLookups(x, Get(conns, x).value.filters);
      RemovedExactly(l0, lookups, conns, x, lastEv);
      conns := Erase(conns, x);
    }

    /**
     The cap is read at each call. A subscription is refused exactly if the other ones of its
     connection already number as many; an old one of the same name is gone either way.
     */
    method AddSub(x: SubKey, sub: Sub, currEventId: nat, maxSubs: nat) returns (res: AddResult)
      requires Valid() && CanonSub(sub)
      modifies `conns, `lookups
      ensures Valid()
      ensures res == OutOfDate <==> sub.latest != currEventId
      ensures res == Refused <==> sub.latest == currEventId && Others(old(conns), x) >= maxSubs
      ensures Get(old(conns), x).Some? && res == Refused ==> |ConnOf(old(conns), x.connId)| > maxSubs
      ensures res == OutOfDate ==> conns == old(conns) && lookups == old(lookups)
      ensures res == Refused ==> conns == Open(Removed(old(conns), x), x.connId)
      ensures res == Added ==> conns == Put(Removed(old(conns), x), x, sub)
      ensures forall y | y != x :: Get(conns, y) == Get(old(conns), y)
      ensures res != OutOfDate ==> Get(conns, x) == if res == Added then Some(sub) else None
      ensures NoEmptyConn(old(conns)) ==> (NoEmptyConn(conns) <==> !(res == Refused && Others(old(conns), x) == 0))
      ensures forall cap | cap >= maxSubs && WithinCap(old(conns), cap) :: WithinCap(conns, cap)
    {
      if sub.latest != currEventId { return OutOfDate; }
      GetRemoved(conns, x);
      if Get(conns, x).Some? {
        RemoveSub(x);
      }
      GetOpen(conns, x.connId);
      if |ConnOf(conns, x.connId)| >= maxSubs {
        conns := Open(conns, x.connId);
        return Refused;
      }
      AddNew(x, sub, currEventId);
      return Added;
    }

    method AddNew(x: SubKey, sub: Sub, currEventId: nat)
      requires Valid() && CanonSub(sub) && sub.latest == currEventId && Get(conns, x).None?
      modifies `conns, `lookups
      ensures Valid() && conns == Put(old(conns), x, sub)
      ensures forall y :: Get(conns, y) == if y == x then Some(sub) else Get(old(conns), y)
      ensures NoEmptyConn(old(conns)) ==> NoEmptyConn(conns)
      ensures forall cap | WithinCap(old(conns), cap) && |ConnOf(old(conns), x.connId)| < cap :: WithinCap(conns, cap)
    {
      ghost var l0 := lookups;
      InstallLookups(x, sub.filters, currEventId);
      AddedExactly(l0, lookups, conns, x, sub, lastEv);
      GetPut(conns, x, sub);
      PutWithin(conns, x, sub);
      conns := Put(conns, x, sub);
    }

    method CloseConn(connId: nat)
      requires Valid()
      modifies `conns, `lookups
      ensures Valid() && conns == old(conns) - {connId}
      ensures forall y :: Get(conns, y) == if y.connId == connId then None else Get(old(conns), y)
    {
      GetDrop(conns, connId);
      if connId !in conns { return; }
      UninstallConn(connId);
      conns := conns - {connId};
    }

    /** Uninstalls every subscription of a connection, in some order. */
    method UninstallConn(connId: nat)
      requires connId in conns && Exact(lookups, conns) && NoEmptySet(lookups) && CanonSubs(conns) &&
        TriedUpTo(lookups, conns, lastEv)
      modifies `lookups
      ensures NoEmptySet(lookups)
      ensures Exact(lookups, conns - {connId}) && TriedUpTo(lookups, conns - {connId}, lastEv)
    {
      var rest := conns[connId].Keys;
      ghost var left := conns;   // the subscriptions that are still installed
      while rest != {}
        invariant NoEmptySet(lookups) && Exact(lookups, left) && TriedUpTo(lookups, left, lastEv)
        invariant StillThere(conns, left, connId, rest)
      {
        var subId :| subId in rest;
        var x := SubKey(connId, subId);
        ghost var l0 := lookups;
        OneLess(conns, left, x, rest);
        UninstallLookups(x, conns[connId][subId].filters);
        RemovedExactly(l0, lookups, left, x, lastEv);
        left := Erase(left, x);
        rest := rest - {subId};
      }
      SameSubs(lookups, left, conns - {connId}, lastEv);
    }

    /** One filter of a monitor set is tried on the event. */
    method TryFilter(k: LookupKey, r: FilterRef, e: Event, lev: nat, told: seq<SubKey>) returns (told': seq<SubKey>)
      requires Installed(lookups, k, r) && Points(conns, r)
      modifies `conns, `lookups
      ensures Live(conns, lookups, told') == TryOne(old(Live(conns, lookups, told)), k, r, e, lev)
    {
      told' := told;
      var item, sub := lookups[k][r], Get(conns, r.sub).value;
      if item >= lev || sub.latest >= lev { return; }
      lookups := SetTried(lookups, k, r, lev);
      if Matches(sub.filters[r.index], e) {
        told' := told + [r.sub];
        conns := WithLatest(conns, r.sub, lev);
      }
    }

    /** `processMonitorSet`: tries every filter of one set, in some order. */
    method ProcessMonitorSet(k: LookupKey, e: Event, lev: nat, told: seq<SubKey>)
      returns (told': seq<SubKey>, ghost order: seq<FilterRef>)
      requires NothingDangles(lookups, conns)
      modifies `conns, `lookups
      ensures Live(conns, lookups, told') == TryAll(old(Live(conns, lookups, told)), k, order, e, lev)
      ensures forall r :: r in order <==> Installed(old(lookups), k, r)
    {
      told', order := told, [];
      if k !in lookups { return; }
      var rest := lookups[k].Keys;
      while rest != {}
        invariant Live(conns, lookups, told') == TryAll(old(Live(conns, lookups, told)), k, order, e, lev)
        invariant NothingDangles(lookups, conns)
        invariant k in lookups && rest <= lookups[k].Keys
        invariant forall r :: r in order <==> Installed(old(lookups), k, r) && r !in rest
      {
        var r :| r in rest;
        assert Installed(lookups, k, r);
        TryKeepsRefs(Live(conns, lookups, told'), k, r, e, lev);
        assert (order + [r])[..|order|] == order;
        told' := TryFilter(k, r, e, lev, told');
        order := order + [r];
        rest := rest - {r};
      }
    }

    /** Notifies exactly the subscriptions that are due, each once. */
    method Process(e: Event, lev: nat) returns (recipients: seq<SubKey>)
      requires Valid() && lastEv < lev
      modifies this
      ensures Valid() && lastEv == lev
      ensures Distinct(recipients)
      ensures forall x :: x in recipients <==> Get(old(conns), x).Some? && Due(Get(old(conns), x).value, e, lev)
      ensures Marked(old(conns), conns, recipients, lev)
    {
      var keys := EventKeys(e);
      recipients := [];
      ghost var tried := {};
      ghost var was := Before(conns, lookups, e, lev, lastEv);
      for i := 0 to |keys|
        invariant lastEv == old(lastEv)
        invariant OnTrack(was, Live(conns, lookups, recipients), tried)
        invariant forall k, r | k in keys[..i] && Installed(was.lookups, k, r) :: (k, r) in tried
      {
        ghost var st := Live(conns, lookups, recipients);
        NothingDanglesNow(was, st, tried);
        ghost var order;
        recipients, order := ProcessMonitorSet(keys[i], e, lev, recipients);
        TryAllOk(was, st, tried, keys[i], order);
        tried := tried + PairsOf(keys[i], order);
        KeyDone(was, st, keys, i, order, tried);
      }
      assert keys[..|keys|] == keys;
      lastEv := lev;
      AllTold(was, Live(conns, lookups, recipients), tried);
      SetsStay(was.lookups, lookups);
      StillExact(was, Live(conns, lookups, recipients), tried);
    }
  }

  // ----- closing a connection -----

  /** `left` is `conns` without the subscriptions of the connection that are not in `rest`. */
  ghost predicate StillThere(conns: Conns<Sub>, left: Conns<Sub>, connId: nat, rest: set<Bytes>) {
    forall y :: Get(left, y) == if y.connId == connId && y.subId !in rest then None else Get(conns, y)
  }

  lemma OneLess(conns: Conns<Sub>, left: Conns<Sub>, x: SubKey, rest: set<Bytes>)
    requires StillThere(conns, left, x.connId, rest) && x.subId in rest
    ensures Get(left, x) == Get(conns, x) && StillThere(conns, Erase(left, x), x.connId, rest - {x.subId})
  {
    GetErase(left, x);
  }

  lemma SameSubs(l: Lookups, left: Conns<Sub>, conns: Conns<Sub>, last: nat)
    requires Exact(l, left) && TriedUpTo(l, left, last) && forall y :: Get(left, y) == Get(conns, y)
    ensures Exact(l, conns) && TriedUpTo(l, conns, last)
  {
    forall k, r ensures Wanted(conns, k, r) <==> Wanted(left, k, r) {
    }
  }

  // ----- trying filters, as a function -----

  /** What an event changes while it is handled. */
  datatype Live = Live(conns: Conns<Sub>, lookups: Lookups, told: seq<SubKey>)

  predicate Points(conns: Conns<Sub>, r: FilterRef) {
    Get(conns, r.sub).Some? && r.index < |Get(conns, r.sub).value.filters|
  }

  ghost predicate NothingDangles(l: Lookups, conns: Conns<Sub>) {
    forall k, r | Installed(l, k, r) :: Points(conns, r)
  }

  function TryOne(st: Live, k: LookupKey, r: FilterRef, e: Event, lev: nat): Live {
    if !Installed(st.lookups, k, r) || !Points(st.conns, r) then st else
      var sub := Get(st.conns, r.sub).value;
      if st.lookups[k][r] >= lev || sub.latest >= lev then st
      else if Matches(sub.filters[r.index], e)
      then Live(WithLatest(st.conns, r.sub, lev), SetTried(st.lookups, k, r, lev), st.told + [r.sub])
      else st.(lookups := SetTried(st.lookups, k, r, lev))
  }

  function TryAll(st: Live, k: LookupKey, order: seq<FilterRef>, e: Event, lev: nat): Live
    decreases |order|
  {
    if order == [] then st else TryOne(TryAll(st, k, order[..|order| - 1], e, lev), k, order[|order| - 1], e, lev)
  }

  function PairsOf(k: LookupKey, order: seq<FilterRef>): set<(LookupKey, FilterRef)> {
    set r <- order :: (k, r)
  }

  /** Trying a filter moves and drops no reference. */
  lemma TryKeepsRefs(st: Live, k: LookupKey, r: FilterRef, e: Event, lev: nat)
    requires NothingDangles(st.lookups, st.conns)
    ensures var st' := TryOne(st, k, r, e, lev);
      && NothingDangles(st'.lookups, st'.conns)
      && (forall k', r' :: Installed(st'.lookups, k', r') <==> Installed(st.lookups, k', r'))
      && st'.lookups.Keys == st.lookups.Keys
  {
    var st' := TryOne(st, k, r, e, lev);
    if st' != st {
      GetPut(st.conns, r.sub, Get(st.conns, r.sub).value.(latest := lev));
      forall k', r' ensures Installed(st'.lookups, k', r') <==> Installed(st.lookups, k', r') {
      }
      forall k', r' | Installed(st'.lookups, k', r') ensures Points(st'.conns, r') {
        assert Installed(st.lookups, k', r') && Points(st.conns, r');
      }
    }
  }

  /** What stays fixed while an event is handled. */
  datatype Before = Before(conns: Conns<Sub>, lookups: Lookups, e: Event, lev: nat, last: nat)

  ghost predicate OnTrack(was: Before, st: Live, tried: set<(LookupKey, FilterRef)>) {
    && Marked(was.conns, st.conns, st.told, was.lev) && ToldOk(was.conns, st.told, was.e, was.lev)
    && TriedOk(was.conns, was.lookups, st.lookups, st.told, tried, was.e, was.lev, was.last)
  }

  lemma NothingDanglesNow(was: Before, st: Live, tried: set<(LookupKey, FilterRef)>)
    requires Exact(was.lookups, was.conns) && OnTrack(was, st, tried)
    ensures NothingDangles(st.lookups, st.conns)
  {
    forall k, r | Installed(st.lookups, k, r) ensures Points(st.conns, r) {
      assert Wanted(was.conns, k, r);
    }
  }

  lemma TryOneOk(was: Before, st: Live, tried: set<(LookupKey, FilterRef)>, k: LookupKey, r: FilterRef)
    requires Exact(was.lookups, was.conns) && was.last < was.lev && OnTrack(was, st, tried) &&
      Installed(was.lookups, k, r)
    ensures OnTrack(was, TryOne(st, k, r, was.e, was.lev), tried + {(k, r)})
  {
    assert Wanted(was.conns, k, r) && Installed(st.lookups, k, r);
    var sub, st' := Get(st.conns, r.sub).value, TryOne(st, k, r, was.e, was.lev);
    if st.lookups[k][r] >= was.lev || sub.latest >= was.lev {
      SkippedRightly(was.conns, st.conns, was.lookups, st.lookups, st.told, tried, was.e, was.lev, was.last, k, r);
    } else if Matches(sub.filters[r.index], was.e) {
      MarkOne(was.conns, st.conns, st.told, r.sub, was.lev);
      ToldOne(was, st, r);
    }
    TriedNext(was.conns, was.lookups, st.lookups, st'.lookups, st.told, st'.told, tried,
      was.e, was.lev, was.last, k, r);
  }

  lemma ToldOne(was: Before, st: Live, r: FilterRef)
    requires Marked(was.conns, st.conns, st.told, was.lev) && ToldOk(was.conns, st.told, was.e, was.lev)
    requires Points(st.conns, r) && Get(st.conns, r.sub).value.latest < was.lev
    requires Matches(Get(st.conns, r.sub).value.filters[r.index], was.e)
    ensures ToldOk(was.conns, st.told + [r.sub], was.e, was.lev)
  {
    assert r.sub !in st.told;
    assert Due(Get(was.conns, r.sub).value, was.e, was.lev);
  }

  lemma {:induction false} TryAllOk(
    was: Before, st: Live, tried: set<(LookupKey, FilterRef)>, k: LookupKey, order: seq<FilterRef>)
    requires Exact(was.lookups, was.conns) && was.last < was.lev && OnTrack(was, st, tried)
    requires forall r <- order :: Installed(was.lookups, k, r)
    ensures OnTrack(was, TryAll(st, k, order, was.e, was.lev), tried + PairsOf(k, order))
    decreases |order|
  {
    if order == [] {
      assert tried + PairsOf(k, order) == tried;
    } else {
      var n := |order| - 1;
      TryAllOk(was, st, tried, k, order[..n]);
      TryOneOk(was, TryAll(st, k, order[..n], was.e, was.lev), tried + PairsOf(k, order[..n]), k, order[n]);
      LastPair(k, order, tried);
    }
  }

  lemma LastPair(k: LookupKey, order: seq<FilterRef>, tried: set<(LookupKey, FilterRef)>)
    requires order != []
    ensures tried + PairsOf(k, order) == tried + PairsOf(k, order[..|order| - 1]) + {(k, order[|order| - 1])}
  {
    assert order == order[..|order| - 1] + [order[|order| - 1]];
  }

  lemma KeyDone(
    was: Before, st: Live, keys: seq<LookupKey>, i: nat, order: seq<FilterRef>, tried: set<(LookupKey, FilterRef)>)
    requires i < |keys| && (forall k, r :: Installed(st.lookups, k, r) <==> Installed(was.lookups, k, r))
    requires forall r :: r in order <==> Installed(st.lookups, keys[i], r)
    requires PairsOf(keys[i], order) <= tried
    requires forall k, r | k in keys[..i] && Installed(was.lookups, k, r) :: (k, r) in tried
    ensures forall k, r | k in keys[..i + 1] && Installed(was.lookups, k, r) :: (k, r) in tried
  {
    assert keys[..i + 1] == keys[..i] + [keys[i]];
  }

  lemma AllTold(was: Before, st: Live, tried: set<(LookupKey, FilterRef)>)
    requires Exact(was.lookups, was.conns) && OnTrack(was, st, tried)
    requires forall k, r | k in EventKeys(was.e) && Installed(was.lookups, k, r) :: (k, r) in tried
    ensures forall x :: x in st.told <==> Get(was.conns, x).Some? && Due(Get(was.conns, x).value, was.e, was.lev)
  {
    forall x | Get(was.conns, x).Some? && Due(Get(was.conns, x).value, was.e, was.lev) ensures x in st.told {
      DueIsTold(was.conns, was.lookups, st.lookups, st.told, tried, was.e, was.lev, was.last, x);
    }
  }

  /** A filter passed over is not due, or its subscription was told already. */
  lemma SkippedRightly(
    conns0: Conns<Sub>, conns: Conns<Sub>, l0: Lookups, l: Lookups, told: seq<SubKey>,
    tried: set<(LookupKey, FilterRef)>, e: Event, lev: nat, last: nat, k: LookupKey, r: FilterRef)
    requires Exact(l0, conns0) && last < lev && Installed(l, k, r)
    requires Marked(conns0, conns, told, lev) && TriedOk(conns0, l0, l, told, tried, e, lev, last)
    requires Get(conns, r.sub).Some? && (l[k][r] >= lev || Get(conns, r.sub).value.latest >= lev)
    ensures RefDue(conns0, r, e, lev) ==> r.sub in told
  {
    if (k, r) in tried { assert (k, r).1 == r; }
  }

  lemma TriedNext(
    conns0: Conns<Sub>, l0: Lookups, l: Lookups, l': Lookups, told: seq<SubKey>, told': seq<SubKey>,
    tried: set<(LookupKey, FilterRef)>, e: Event, lev: nat, last: nat, k: LookupKey, r: FilterRef)
    requires TriedOk(conns0, l0, l, told, tried, e, lev, last) && Installed(l, k, r)
    requires l' == l || l' == SetTried(l, k, r, lev)
    requires forall x <- told :: x in told'
    requires RefDue(conns0, r, e, lev) ==> r.sub in told'
    ensures TriedOk(conns0, l0, l', told', tried + {(k, r)}, e, lev, last)
  {
  }

  lemma MarkOne(conns0: Conns<Sub>, conns: Conns<Sub>, told: seq<SubKey>, x: SubKey, lev: nat)
    requires Marked(conns0, conns, told, lev) && Get(conns, x).Some?
    ensures Marked(conns0, WithLatest(conns, x, lev), told + [x], lev)
  {
    GetPut(conns, x, Get(conns, x).value.(latest := lev));
    var conns' := WithLatest(conns, x, lev);
    assert conns'[x.connId].Keys == conns[x.connId].Keys;
    assert |conns'[x.connId]| == |conns'[x.connId].Keys| == |conns[x.connId]|;
  }

  lemma DueIsTold(
    conns0: Conns<Sub>, l0: Lookups, l: Lookups, told: seq<SubKey>, tried: set<(LookupKey, FilterRef)>,
    e: Event, lev: nat, last: nat, x: SubKey)
    requires Exact(l0, conns0) && TriedOk(conns0, l0, l, told, tried, e, lev, last)
    requires forall k, r | k in EventKeys(e) && Installed(l0, k, r) :: (k, r) in tried
    requires Get(conns0, x).Some? && Due(Get(conns0, x).value, e, lev)
    ensures x in told
  {
    var sub := Get(conns0, x).value;
    var f :| f in sub.filters && Matches(f, e);
    var i :| 0 <= i < |sub.filters| && sub.filters[i] == f;
    var k := MatchIsFound(f, e);
    assert Wanted(conns0, k, FilterRef(x, i));
    assert (k, FilterRef(x, i)) in tried && RefDue(conns0, FilterRef(x, i), e, lev);
  }

  lemma StillExact(was: Before, st: Live, tried: set<(LookupKey, FilterRef)>)
    requires Exact(was.lookups, was.conns) && CanonSubs(was.conns) && was.last < was.lev && OnTrack(was, st, tried)
    ensures Exact(st.lookups, st.conns) && CanonSubs(st.conns) && TriedUpTo(st.lookups, st.conns, was.lev)
  {
    forall k, r ensures Installed(st.lookups, k, r) <==> Wanted(st.conns, k, r) {
      assert Installed(st.lookups, k, r) <==> Wanted(was.conns, k, r);
    }
    forall k, r | Installed(st.lookups, k, r)
      ensures Get(st.conns, r.sub).Some? && st.lookups[k][r] <= Max(was.lev, Get(st.conns, r.sub).value.latest)
    {
      assert Wanted(was.conns, k, r);
    }
  }

  lemma SetsStay(l0: Lookups, l: Lookups)
    requires NoEmptySet(l0) && forall k, r :: Installed(l, k, r) <==> Installed(l0, k, r)
    requires l.Keys == l0.Keys
    ensures NoEmptySet(l)
  {
    forall k <- l ensures l[k] != map[] {
      var r :| r in l0[k];
      assert Installed(l, k, r);
    }
  }
}
