/** The two-level maps connId -> subId -> value that the relay's threads keep. */
module Nested {
  import opened Lex
  import opened Events

  datatype SubKey = SubKey(connId: nat, subId: Bytes)

  type Conns<V> = map<nat, map<Bytes, V>>

  function Get<V>(m: Conns<V>, x: SubKey): Option<V> {
    if x.connId in m && x.subId in m[x.connId] then Some(m[x.connId][x.subId]) else None
  }

  function ConnOf<V>(m: Conns<V>, c: nat): map<Bytes, V> {
    if c in m then m[c] else map[]
  }

  function Put<V>(m: Conns<V>, x: SubKey, v: V): Conns<V> {
    m[x.connId := ConnOf(m, x.connId)[x.subId := v]]
  }

  /** Erasing the last entry of a connection erases the connection. */
  function Erase<V>(m: Conns<V>, x: SubKey): Conns<V> {
    var inner := ConnOf(m, x.connId) - {x.subId};
    if inner == map[] then m - {x.connId} else m[x.connId := inner]
  }

  /** `removeSub`: erases an entry that is there. */
  function Removed<V>(m: Conns<V>, x: SubKey): Conns<V> {
    if Get(m, x).Some? then Erase(m, x) else m
  }

  /** How many other entries the connection has. */
  function Others<V>(m: Conns<V>, x: SubKey): nat {
    |ConnOf(m, x.connId) - {x.subId}|
  }

  predicate WithinCap<V>(m: Conns<V>, cap: nat) {
    forall c <- m :: |m[c]| <= cap
  }

  /** `try_emplace`: a connection without subscriptions, unless it is there already. */
  function Open<V>(m: Conns<V>, c: nat): Conns<V> {
    m[c := ConnOf(m, c)]
  }

  predicate NoEmptyConn<V(==)>(m: Conns<V>) {
    forall c <- m :: m[c] != map[]
  }

  lemma GetPut<V>(m: Conns<V>, x: SubKey, v: V)
    ensures forall y :: Get(Put(m, x, v), y) == if y == x then Some(v) else Get(m, y)
    ensures NoEmptyConn(m) ==> NoEmptyConn(Put(m, x, v))
  {
    assert x.subId in Put(m, x, v)[x.connId];
  }

  lemma GetErase<V>(m: Conns<V>, x: SubKey)
    ensures forall y :: Get(Erase(m, x), y) == if y == x then None else Get(m, y)
    ensures NoEmptyConn(m) ==> NoEmptyConn(Erase(m, x))
  {
    var inner := ConnOf(m, x.connId) - {x.subId};
    forall y ensures Get(Erase(m, x), y) == if y == x then None else Get(m, y) {
      if y.connId == x.connId && y != x && Get(m, y).Some? { assert y.subId in inner; }
    }
  }

  lemma GetRemoved<V>(m: Conns<V>, x: SubKey)
    ensures forall y :: Get(Removed(m, x), y) == if y == x then None else Get(m, y)
    ensures NoEmptyConn(m) ==> NoEmptyConn(Removed(m, x))
    ensures |ConnOf(Removed(m, x), x.connId)| == Others(m, x) ==
      |ConnOf(m, x.connId)| - if Get(m, x).Some? then 1 else 0
    ensures forall cap | WithinCap(m, cap) :: WithinCap(Removed(m, x), cap)
  {
    GetErase(m, x);
    var inner := ConnOf(m, x.connId) - {x.subId};
    if Get(m, x).Some? {
      assert ConnOf(m, x.connId).Keys == inner.Keys + {x.subId};
      assert |ConnOf(m, x.connId)| == |inner| + 1;
    } else {
      assert inner == ConnOf(m, x.connId);
    }
  }

  lemma PutWithin<V>(m: Conns<V>, x: SubKey, v: V)
    ensures forall cap | WithinCap(m, cap) && |ConnOf(m, x.connId)| < cap :: WithinCap(Put(m, x, v), cap)
  {
    var inner := ConnOf(m, x.connId)[x.subId := v];
    assert inner.Keys == ConnOf(m, x.connId).Keys + {x.subId};
    assert |inner| <= |ConnOf(m, x.connId)| + 1;
  }

  lemma GetDrop<V>(m: Conns<V>, c: nat)
    ensures forall y :: Get(m - {c}, y) == if y.connId == c then None else Get(m, y)
  {
  }

  /** Opening a connection that stays without entries leaves an empty one behind. */
  lemma GetOpen<V>(m: Conns<V>, c: nat)
    ensures forall y :: Get(Open(m, c), y) == Get(m, y)
    ensures NoEmptyConn(m) ==> (NoEmptyConn(Open(m, c)) <==> |ConnOf(m, c)| > 0)
    ensures forall cap | WithinCap(m, cap) :: WithinCap(Open(m, c), cap)
  {
    assert Open(m, c)[c] == ConnOf(m, c);
    assert |ConnOf(m, c)| > 0 ==> c in m;
  }

  /** What `addSub` leaves when it refuses: the old entry gone, and perhaps an empty connection. */
  lemma RefuseOutcome<V>(m: Conns<V>, x: SubKey)
    ensures var m' := Open(Removed(m, x), x.connId);
      && (forall y :: Get(m', y) == if y == x then None else Get(m, y))
      && (NoEmptyConn(m) ==> (NoEmptyConn(m') <==> Others(m, x) > 0))
      && (forall cap | WithinCap(m, cap) :: WithinCap(m', cap))
  {
    GetRemoved(m, x);
    GetOpen(Removed(m, x), x.connId);
  }

  /** And when it accepts. */
  lemma AddOutcome<V>(m: Conns<V>, x: SubKey, v: V)
    ensures var m' := Put(Removed(m, x), x, v);
      && (forall y :: Get(m', y) == if y == x then Some(v) else Get(m, y))
      && (NoEmptyConn(m) ==> NoEmptyConn(m'))
      && (forall cap | WithinCap(m, cap) && Others(m, x) < cap :: WithinCap(m', cap))
  {
    GetRemoved(m, x);
    GetPut(Removed(m, x), x, v);
    PutWithin(Removed(m, x), x, v);
  }
}
