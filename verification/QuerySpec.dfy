/**
 What a query should return, said without cursors: all matching events, newest
 first, cut at the filter's limit; a filter group returns the union, each event once.
 */
module QuerySpec {
  import opened Seqs
  import opened Events
  import opened Filters
  import opened ScanInvariant

  /** `t` is the head of the eligible events in order, complete as far as the survivors `W` go. */
  ghost predicate TopOf(f: NostrFilter, H: EventTable, W: set<nat>, latest: nat, t: seq<nat>) {
    && (forall m <- t :: Eligible(f, H, latest, m))
    && Descending(H, t)
    && |t| <= f.limit
    && forall m <- W | Eligible(f, H, latest, m) && m !in t :: |t| == f.limit && forall o <- t :: Newer(H, o, m)
  }

  lemma TopSurvives(f: NostrFilter, H: EventTable, W: set<nat>, H': EventTable, W': set<nat>, latest: nat, t: seq<nat>)
    requires TopOf(f, H, W, latest, t) && Submap(H, H') && W' <= W && W <= H.Keys
    ensures TopOf(f, H', W', latest, t)
  {
    forall m <- t ensures Eligible(f, H', latest, m) && m in H { assert Eligible(f, H, latest, m); }
    forall i, j | 0 <= i < j < |t| ensures t[i] in t && t[j] in t && Newer(H', t[i], t[j]) {}
    forall m <- W' | Eligible(f, H', latest, m) && m !in t
      ensures |t| == f.limit && forall o <- t :: Newer(H', o, m)
    {
      assert Eligible(f, H, latest, m);
    }
  }

  // ----- the reference: sort everything, take the limit -----

  ghost function NewestOf(H: EventTable, S: set<nat>): (m: nat)
    requires S != {} && S <= H.Keys
    ensures m in S && forall x <- S | x != m :: Newer(H, m, x)
    decreases |S|
  {
    var x :| x in S;
    if S == {x} then x else
      var y := NewestOf(H, S - {x});
      assert forall z <- S | z != x :: z in S - {x};
      if Newer(H, y, x) then y else x
  }

  ghost function SortNewestFirst(H: EventTable, S: set<nat>): (s: seq<nat>)
    requires S <= H.Keys
    decreases |S|
  {
    if S == {} then [] else
      var m := NewestOf(H, S);
      [m] + SortNewestFirst(H, S - {m})
  }

  lemma {:induction false} SortHoldsAll(H: EventTable, S: set<nat>)
    requires S <= H.Keys
    ensures |SortNewestFirst(H, S)| == |S|
    ensures forall m :: m in SortNewestFirst(H, S) <==> m in S
    decreases |S|
  {
    if S != {} {
      var m := NewestOf(H, S);
      SortHoldsAll(H, S - {m});
    }
  }

  ghost function EligibleSet(f: NostrFilter, H: EventTable, latest: nat): set<nat> {
    set m | m in H && Eligible(f, H, latest, m)
  }

  ghost function FilterResult(f: NostrFilter, H: EventTable, latest: nat): seq<nat> {
    Take(SortNewestFirst(H, EligibleSet(f, H, latest)), f.limit)
  }

  /** A descending list of elements of S that nothing better was left out of. */
  ghost predicate BestOf(H: EventTable, S: set<nat>, limit: nat, t: seq<nat>)
    requires S <= H.Keys
  {
    && (forall m <- t :: m in S) && Descending(H, t) && |t| <= limit
    && forall m <- S | m !in t :: |t| == limit && forall o <- t :: Newer(H, o, m)
  }

  /** Such a list is the sorted head. */
  lemma {:induction false} TopIsSortedHead(H: EventTable, S: set<nat>, limit: nat, t: seq<nat>)
    requires S <= H.Keys && BestOf(H, S, limit, t)
    ensures t == Take(SortNewestFirst(H, S), limit)
    decreases |t|
  {
    if t == [] {
      NothingLeft(H, S, limit);
    } else {
      var m, rest := t[0], t[1..];
      HeadIsNewest(H, S, limit, t);
      RestIsBest(H, S, limit, t);
      TopIsSortedHead(H, S - {m}, limit - 1, rest);
      TakeFirst(m, SortNewestFirst(H, S - {m}), limit);
      assert t == [m] + rest;
    }
  }

  lemma NothingLeft(H: EventTable, S: set<nat>, limit: nat)
    requires S <= H.Keys && BestOf(H, S, limit, [])
    ensures Take(SortNewestFirst(H, S), limit) == []
  {
    if S != {} { assert NewestOf(H, S) in S; }
  }

  lemma TakeFirst(m: nat, s: seq<nat>, limit: nat)
    requires limit > 0
    ensures Take([m] + s, limit) == [m] + Take(s, limit - 1)
  {
  }

  /** Neither left out nor after another, the newest is at the head. */
  lemma HeadIsNewest(H: EventTable, S: set<nat>, limit: nat, t: seq<nat>)
    requires S <= H.Keys && BestOf(H, S, limit, t) && t != []
    ensures S != {} && t[0] == NewestOf(H, S)
  {
    assert t[0] in t;
    var m := NewestOf(H, S);
    assert m in t;
    var k :| 0 <= k < |t| && t[k] == m;
  }

  lemma RestIsBest(H: EventTable, S: set<nat>, limit: nat, t: seq<nat>)
    requires S <= H.Keys && BestOf(H, S, limit, t) && t != []
    ensures BestOf(H, S - {t[0]}, limit - 1, t[1..])
  {
    var m, rest := t[0], t[1..];
    assert t == [m] + rest;
    forall x <- rest ensures x in S - {m} {
      var k :| 0 <= k < |rest| && rest[k] == x;
      assert Newer(H, t[0], t[k + 1]);
    }
    forall i, j | 0 <= i < j < |rest| ensures Newer(H, rest[i], rest[j]) {
      assert rest[i] == t[i + 1] && rest[j] == t[j + 1];
    }
    assert forall o <- rest :: o in t;
  }

  lemma TopIsResult(f: NostrFilter, H: EventTable, latest: nat, t: seq<nat>)
    requires TopOf(f, H, H.Keys, latest, t)
    ensures t == FilterResult(f, H, latest)
  {
    TopIsSortedHead(H, EligibleSet(f, H, latest), f.limit, t);
  }

  // ----- who is in, who is cut off -----

  /** The elements of S that come before m. */
  ghost function NewerOf(H: EventTable, S: set<nat>, m: nat): set<nat>
    requires m in H && S <= H.Keys
  {
    set o | o in S && Newer(H, o, m)
  }

  /** The sorted head holds exactly the elements that fewer than `limit` others come before. */
  lemma {:induction false} HeadHas(H: EventTable, S: set<nat>, limit: nat, m: nat)
    requires S <= H.Keys && m in H
    ensures m in Take(SortNewestFirst(H, S), limit) <==> m in S && |NewerOf(H, S, m)| < limit
    decreases |S|
  {
    if S == {} {
      return;
    }
    var first := NewestOf(H, S);
    var rest := SortNewestFirst(H, S - {first});
    if limit == 0 {
      assert Take(SortNewestFirst(H, S), 0) == [];
    } else {
      TakeFirst(first, rest, limit);
      HeadHas(H, S - {first}, limit - 1, m);
      if m == first {
        assert NewerOf(H, S, m) == {};
      } else if m in S {
        assert NewerOf(H, S, m) == NewerOf(H, S - {first}, m) + {first};
      }
    }
  }

  /** A filter returns exactly the matching events that fewer newer matching ones than its limit come before. */
  lemma ResultHas(f: NostrFilter, H: EventTable, latest: nat, m: nat)
    ensures m in FilterResult(f, H, latest) <==>
      m in H && Eligible(f, H, latest, m) && |NewerOf(H, EligibleSet(f, H, latest), m)| < f.limit
  {
    var S := EligibleSet(f, H, latest);
    SortHoldsAll(H, S);
    if m in H {
      HeadHas(H, S, f.limit, m);
    } else {
      assert m !in SortNewestFirst(H, S);
    }
  }

  /** Of what was put out, the newer events that f matches. */
  ghost function NewerOut(f: NostrFilter, H: EventTable, latest: nat, out: seq<nat>, m: nat): set<nat>
    requires m in H
  {
    set o | o in out && o in NewerOf(H, EligibleSet(f, H, latest), m)
  }

  /** They leave no room for m. */
  ghost predicate CutOff(f: NostrFilter, H: EventTable, latest: nat, out: seq<nat>, m: nat)
    requires m in H
  {
    |NewerOut(f, H, latest, out, m)| >= f.limit
  }

  lemma {:induction false} Within(A: set<nat>, B: set<nat>)
    requires A <= B
    ensures |A| <= |B|
    decreases |A|
  {
    if x :| x in A { Within(A - {x}, B - {x}); }
  }

  /** A limit that covers all matching events cuts none off. */
  lemma NotCutOff(f: NostrFilter, H: EventTable, latest: nat, out: seq<nat>, m: nat)
    requires m in H && Eligible(f, H, latest, m) && f.limit >= |EligibleSet(f, H, latest)|
    ensures !CutOff(f, H, latest, out, m)
  {
    var S := EligibleSet(f, H, latest);
    Within(NewerOut(f, H, latest, out, m), S - {m});
    assert |S - {m}| == |S| - 1;
  }

  lemma {:induction false} NoMoreThan(s: seq<nat>, S: set<nat>)
    requires Distinct(s) && forall x <- s :: x in S
    ensures |s| <= |S|
    decreases |s|
  {
    if s != [] {
      forall x <- s[1..] ensures x in S - {s[0]} {
        var k :| 0 <= k < |s| - 1 && s[1..][k] == x;
        assert s[k + 1] == x && x in s;
      }
      assert s[0] in s;
      NoMoreThan(s[1..], S - {s[0]});
    }
  }

  /** What survives is in the head, or enough of what is in the head comes before it. */
  lemma TopHasOrCutsOff(
    f: NostrFilter, H: EventTable, W: set<nat>, latest: nat, t: seq<nat>, out: seq<nat>, m: nat)
    requires TopOf(f, H, W, latest, t) && m in W && m in H && Eligible(f, H, latest, m)
    requires forall o <- t :: o in out
    ensures m in t || CutOff(f, H, latest, out, m)
  {
    if m !in t {
      forall i, j | 0 <= i < j < |t| ensures t[i] != t[j] {
        assert t[i] in t && t[j] in t && Newer(H, t[i], t[j]);
      }
      forall o <- t ensures o in NewerOut(f, H, latest, out, m) {
        assert Eligible(f, H, latest, o);
      }
      NoMoreThan(t, NewerOut(f, H, latest, out, m));
    }
  }

  // ----- groups -----

  /** Appends the entries of `t` that are not there yet, in order. */
  function AppendNew(out: seq<nat>, t: seq<nat>): seq<nat> {
    if t == [] then out else
      var o := AppendNew(out, t[..|t| - 1]);
      if t[|t| - 1] in o then o else o + [t[|t| - 1]]
  }

  function UnionOf(ts: seq<seq<nat>>): seq<nat> {
    if ts == [] then [] else AppendNew(UnionOf(ts[..|ts| - 1]), ts[|ts| - 1])
  }

  lemma {:induction false} AppendNewUnites(out: seq<nat>, t: seq<nat>)
    requires Distinct(out)
    ensures Distinct(AppendNew(out, t))
    ensures forall x :: x in AppendNew(out, t) <==> x in out || x in t
    decreases |t|
  {
    if t != [] {
      AppendNewUnites(out, t[..|t| - 1]);
      assert t == t[..|t| - 1] + [t[|t| - 1]];
    }
  }

  predicate InSome(ts: seq<seq<nat>>, x: nat) {
    exists k | 0 <= k < |ts| :: x in ts[k]
  }

  /** The group's answer holds each member of some filter's answer exactly once. */
  lemma {:induction false} UnionOfUnites(ts: seq<seq<nat>>)
    ensures Distinct(UnionOf(ts))
    ensures forall x :: x in UnionOf(ts) <==> InSome(ts, x)
    decreases |ts|
  {
    if ts != [] {
      var init := ts[..|ts| - 1];
      UnionOfUnites(init);
      AppendNewUnites(UnionOf(init), ts[|ts| - 1]);
      forall x: nat ensures InSome(ts, x) <==> InSome(init, x) || x in ts[|ts| - 1] {
        assert forall k | 0 <= k < |init| :: ts[k] == init[k];
      }
    }
  }

  ghost function GroupResults(fs: seq<NostrFilter>, H: EventTable, latest: nat): seq<seq<nat>> {
    seq(|fs|, k requires 0 <= k < |fs| => FilterResult(fs[k], H, latest))
  }
}
