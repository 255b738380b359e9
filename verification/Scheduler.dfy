/**
 The worker's query scheduler (src/QueryScheduler.h) with its heap-allocated queries:
 who owns what, and that every query keeps getting its turn.
 */
module Scheduler {
  import opened Seqs
  import opened Lex
  import opened Events
  import opened Nested

  /** A `DBQuery` as the scheduler sees it. */
  class QueryObj {
    const key: SubKey
    var dead: bool

    constructor (key: SubKey)
      ensures this.key == key && !dead
    {
      this.key, dead := key, false;
    }
  }

  class QueryScheduler {
    var conns: Conns<QueryObj>
    var running: seq<QueryObj>
    ghost var born: set<QueryObj>    // every query ever allocated
    ghost var freed: set<QueryObj>   // every query deleted

    /** A query is in `conns` under its own key exactly as long as it is alive. */
    ghost predicate Owned(running: seq<QueryObj>)
      reads this, running
    {
      && Distinct(running)
      && (forall q <- running :: !q.dead <==> Get(conns, q.key) == Some(q))
      && (forall x :: Get(conns, x).Some? ==> Get(conns, x).value in running && Get(conns, x).value.key == x)
    }

    /** Nothing in use has been freed, and everything not freed is in use. */
    ghost predicate Valid()
      reads this, running
    {
      && Owned(running)
      && (forall q <- running :: q !in freed && q in born)
      && freed <= born && (forall q <- born :: q in freed || q in running)
    }

    constructor ()
      ensures Valid() && running == [] && conns == map[] && born == {}
    {
      conns, running, born, freed := map[], [], {}, {};
    }

    /** `removeSub`: the query stays queued, dead, until its turn comes. */
    method RemoveSub(x: SubKey)
      requires Valid()
      modifies `conns, running
      ensures Valid() && conns == Removed(old(conns), x)
      ensures forall y :: Get(conns, y) == if y == x then None else Get(old(conns), y)
    {
      GetRemoved(conns, x);
      var q := Get(conns, x);
      if q.None? { return; }
      q.value.dead := true;
      conns := Erase(conns, x);
    }

    /**
     The cap is read at each call. A query is refused exactly if the other ones of its connection
     already number as many; an old one of the same name is dead either way.
     */
    method AddSub(x: SubKey, maxSubs: nat) returns (added: bool, ghost q: QueryObj?)
      requires Valid()
      modifies `conns, `running, `born, running
      ensures Valid()
      ensures added <==> Others(old(conns), x) < maxSubs
      ensures Get(old(conns), x).Some? && !added ==> |ConnOf(old(conns), x.connId)| > maxSubs
      ensures !added ==> running == old(running) && born == old(born) && conns == Open(Removed(old(conns), x), x.connId)
      ensures added ==>
        q != null && fresh(q) && running == [q] + old(running) && conns == Put(Removed(old(conns), x), x, q)
      ensures Get(conns, x).Some? <==> added
      ensures forall y | y != x :: Get(conns, y) == Get(old(conns), y)
      ensures NoEmptyConn(old(conns)) ==> (NoEmptyConn(conns) <==> added || Others(old(conns), x) > 0)
      ensures forall cap | cap >= maxSubs && WithinCap(old(conns), cap) :: WithinCap(conns, cap)
    {
      q := null;
      ghost var m := conns;
      if Get(conns, x).Some? {
        RemoveSub(x);
      }
      assert |ConnOf(conns, x.connId)| == Others(m, x) by { GetRemoved(m, x); }
      added := |ConnOf(conns, x.connId)| < maxSubs;
      if added {
        assert Get(conns, x).None? by { GetRemoved(m, x); }
        ghost var q': QueryObj := AddNew(x);
        AddOutcome<QueryObj>(m, x, q');
        q := q';
      } else {
        OpenConn(x.connId);
        RefuseOutcome<QueryObj>(m, x);
        GetRemoved<QueryObj>(m, x);
      }
    }

    /** The connection's entry, made before the cap is looked at. */
    method OpenConn(connId: nat)
      requires Valid()
      modifies `conns
      ensures Valid() && conns == Open(old(conns), connId)
    {
      GetOpen(conns, connId);
      conns := Open(conns, connId);
    }

    method AddNew(x: SubKey) returns (ghost q: QueryObj)
      requires Valid() && Get(conns, x).None?
      modifies `conns, `running, `born
      ensures Valid() && fresh(q) && running == [q] + old(running) && conns == Put(old(conns), x, q)
    {
      var q' := new QueryObj(x);
      q := q';
      Enqueue(x, q');
    }

    method Enqueue(x: SubKey, q: QueryObj)
      requires Valid() && Get(conns, x).None?
      requires q.key == x && !q.dead && q !in born
      modifies `conns, `running, `born
      ensures Valid() && running == [q] + old(running) && conns == Put(old(conns), x, q)
    {
      GetPut(conns, x, q);
      conns := Put(conns, x, q);
      running := [q] + running;
      born := born + {q};
    }

    method CloseConn(connId: nat)
      requires Valid()
      modifies `conns, running
      ensures Valid() && conns == old(conns) - {connId}
      ensures forall y :: Get(conns, y) == if y.connId == connId then None else Get(old(conns), y)
    {
      if connId !in conns { return; }
      assert forall subId <- conns[connId] :: Get(conns, SubKey(connId, subId)) == Some(conns[connId][subId]);
      assert forall q <- running :: q in conns[connId].Values <==> (!q.dead && q.key.connId == connId);
      assert forall q <- conns[connId].Values :: q in running;
      KillAll(conns[connId]);
      DropConn(connId);
    }

    method DropConn(connId: nat)
      requires connId in conns && Distinct(running)
      requires forall q <- running :: Get(conns, q.key) == Some(q) ==> (q.dead <==> q.key.connId == connId)
      requires forall q <- running :: Get(conns, q.key) != Some(q) ==> q.dead
      requires forall x :: Get(conns, x).Some? ==> Get(conns, x).value in running && Get(conns, x).value.key == x
      requires forall q <- running :: q !in freed && q in born
      requires freed <= born && (forall q <- born :: q in freed || q in running)
      modifies `conns
      ensures Valid() && conns == old(conns) - {connId}
      ensures forall y :: Get(conns, y) == if y.connId == connId then None else Get(old(conns), y)
    {
      GetDrop(conns, connId);
      conns := conns - {connId};
      assert forall q <- running :: !q.dead <==> Get(conns, q.key) == Some(q);
    }

    static method KillAll(qs: map<Bytes, QueryObj>)
      modifies qs.Values
      ensures forall q <- qs.Values :: q.dead
    {
      var rest := qs.Keys;
      while rest != {}
        invariant forall subId <- qs :: subId in rest || qs[subId].dead
      {
        var subId :| subId in rest;
        qs[subId].dead := true;
        rest := rest - {subId};
      }
    }

    /** One time slice: the front query is deleted if dead; otherwise it runs, and is deleted or queued again. */
    method Process() returns (ghost again: bool)
      requires Valid()
      modifies `conns, `running, `freed, running
      ensures Valid()
      ensures old(running) == [] ==> running == []
      ensures old(running) != [] ==>
        && running == old(running)[1..] + (if again then [old(running)[0]] else [])
        && freed == old(freed) + (if again then {} else {old(running)[0]})
      ensures conns == if old(running) != [] && !again && !old(running[0].dead)
        then Removed(old(conns), old(running[0].key)) else old(conns)
      ensures old(running) != [] && old(running[0].dead) ==> !again
    {
      again := false;
      if running == [] { return; }
      if running[0].dead {
        DeleteFront();
        return;
      }
      var complete: bool := *;
      if complete {
        RemoveSub(running[0].key);
        DeleteFront();
      } else {
        Requeue();
        again := true;
      }
    }

    /** The front query, dead and out of `conns`, is taken off the queue and deleted. */
    method DeleteFront()
      requires Valid() && running != [] && running[0].dead
      modifies `running, `freed
      ensures Valid() && running == old(running)[1..] && freed == old(freed) + {old(running)[0]}
    {
      FrontGone(running);
      freed := freed + {running[0]};
      running := running[1..];
    }

    method Requeue()
      requires Valid() && running != []
      modifies `running
      ensures Valid() && running == old(running)[1..] + [old(running)[0]]
    {
      Rotated(running);
      running := running[1..] + [running[0]];
    }
  }

  lemma FrontGone<T>(r: seq<T>)
    requires Distinct(r) && r != []
    ensures Distinct(r[1..]) && r[0] !in r[1..] && forall x :: x in r <==> x == r[0] || x in r[1..]
  {
    assert r == [r[0]] + r[1..];
  }

  lemma Rotated<T>(r: seq<T>)
    requires Distinct(r) && r != []
    ensures Distinct(r[1..] + [r[0]]) && forall x :: x in r <==> x in r[1..] + [r[0]]
  {
    FrontGone(r);
  }

  // ----- turns -----

  /** What happens to `running`: a bare `process`, an `addSub` followed by one, or a removal. */
  datatype Turn<T> = Bare(again: bool) | AddThenProcess(q: T, added: bool, again: bool) | Removal

  function AfterBare<T>(r: seq<T>, again: bool): seq<T> {
    if r == [] then r else r[1..] + (if again then [r[0]] else [])
  }

  function AfterTurn<T>(r: seq<T>, t: Turn<T>): seq<T> {
    match t
    case Bare(again) => AfterBare(r, again)
    case AddThenProcess(q, added, again) => AfterBare(if added then [q] + r else r, again)
    case Removal => r
  }

  /** The query that gets this turn's time slice. */
  function Runs<T>(r: seq<T>, t: Turn<T>): Option<T> {
    match t
    case Bare(_) => if r == [] then None else Some(r[0])
    case AddThenProcess(q, added, _) => if added then Some(q) else if r == [] then None else Some(r[0])
    case Removal => None
  }

  function AfterTurns<T>(r: seq<T>, ts: seq<Turn<T>>): seq<T>
    decreases |ts|
  {
    if ts == [] then r else AfterTurns(AfterTurn(r, ts[0]), ts[1..])
  }

  function BareTurns<T>(ts: seq<Turn<T>>): nat {
    if ts == [] then 0 else (if ts[0].Bare? then 1 else 0) + BareTurns(ts[1..])
  }

  /** A query at position p runs within p + 1 bare turns, however many new queries come in between. */
  lemma {:induction false} EveryoneRuns<T>(r: seq<T>, p: nat, ts: seq<Turn<T>>) returns (k: nat)
    requires p < |r| && BareTurns(ts) >= p + 1
    ensures k < |ts| && Runs(AfterTurns(r, ts[..k]), ts[k]) == Some(r[p])
    decreases |ts|
  {
    var t, r' := ts[0], AfterTurn(r, ts[0]);
    var skips := t.Removal? || (t.AddThenProcess? && t.added);
    if p == 0 && !skips {
      k := 0;
    } else {
      var p' := if skips then p else p - 1;
      assert r'[p'] == r[p];
      k := EveryoneRuns(r', p', ts[1..]);
      k := k + 1;
      assert ts[..k][1..] == ts[1..][..k - 1];
    }
  }
}
