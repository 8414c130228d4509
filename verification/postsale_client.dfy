/** One submission, from the lock's retry loop to the release, while others go on. */
module PostsaleClient {
  import opened RedisLock
  import opened RedisReply
  import opened PostsaleMachine

  /** The lock server, the database and everybody using them. */
  class Shop {
    var s: State
    constructor (s: State)
      ensures this.s == s
    {
      this.s := s;
    }
  }

  /** What the world does around this submission's n-th command: the others' actions
      before it, how the command turns out, and whether the database raises. */
  datatype World = World(others: nat -> seq<Action>, reply: nat -> Reply, raises: nat -> bool)

  /** The others include the submission's own watchdog. */
  predicate ForeignAction(o: Owner, a: Action) {
    a.Tick? || a.Complete? || a.Renew? || a.o != o
  }

  ghost predicate Foreign(w: World, o: Owner) {
    forall n: nat, i: nat {:trigger w.others(n)[i]} :: i < |w.others(n)| ==> ForeignAction(o, w.others(n)[i])
  }

  /** The database neither raises nor loses an answer. */
  ghost predicate Steady(w: World) {
    forall n: nat :: !w.raises(n) && w.reply(n).Answered?
  }

  /** Rows written by `o`. */
  function RowsBy(rows: seq<Row>, o: Owner): nat {
    if rows == [] then 0 else RowsBy(rows[..|rows| - 1], o) + if rows[|rows| - 1].owner == o then 1 else 0
  }

  lemma RowsByUpdate(rows: seq<Row>, o: Owner, i: nat)
    requires i < |rows|
    ensures RowsBy(rows[i := rows[i].(open := false)], o) == RowsBy(rows, o)
  {
    var n, rows' := |rows| - 1, rows[i := rows[i].(open := false)];
    if i < n {
      assert rows'[..n] == rows[..n][i := rows[i].(open := false)];
      RowsByUpdate(rows[..n], o, i);
    } else {
      assert rows'[..n] == rows[..n];
    }
  }

  /** How often `o` asked for the lock. */
  function Tries(o: Owner, acts: seq<Action>): nat {
    if acts == [] then 0 else (if acts[0].TryAcquire? && acts[0].o == o then 1 else 0) + Tries(o, acts[1..])
  }

  lemma {:induction false} TriesAppend(o: Owner, a: seq<Action>, b: seq<Action>)
    ensures Tries(o, a + b) == Tries(o, a) + Tries(o, b)
    ensures |b| == 1 ==> Tries(o, b) == if b[0].TryAcquire? && b[0].o == o then 1 else 0
  {
    if a == [] {
      assert a + b == b;
      if |b| == 1 {
        assert b[1..] == [];
      }
    } else {
      assert (a + b)[1..] == a[1..] + b;
      TriesAppend(o, a[1..], b);
    }
  }

  lemma {:induction false} NoTries(o: Owner, acts: seq<Action>)
    requires forall i | 0 <= i < |acts| :: ForeignAction(o, acts[i])
    ensures Tries(o, acts) == 0
  {
    if acts != [] {
      assert ForeignAction(o, acts[0]);
      NoTries(o, acts[1..]);
    }
  }

  /** Somebody else's action leaves this submission, and the rows it wrote, alone. */
  lemma StepForeign(c: Config, s: State, o: Owner, a: Action)
    requires o in s.clients && ForeignAction(o, a)
    ensures var s' := Step(c, s, a); o in s'.clients && s'.clients[o] == s.clients[o] && s'.locks.Keys == s.locks.Keys
  {
    var s' := Step(c, s, a);
    assert o in s'.clients && s'.clients[o] == s.clients[o];
    assert forall d :: d in s'.locks <==> d in s.locks;
  }

  lemma StepForeignRows(c: Config, s: State, o: Owner, a: Action)
    requires o in s.clients && ForeignAction(o, a)
    ensures RowsBy(Step(c, s, a).rows, o) == RowsBy(s.rows, o)
  {
    var rows := Step(c, s, a).rows;
    if Enabled(c, s, a) && a.Complete? {
      RowsByUpdate(s.rows, o, a.row);
    } else if Enabled(c, s, a) && a.Commit? && !a.reply.FailedLost? {
      assert rows[..|s.rows|] == s.rows && rows[|s.rows|].owner == a.o;
    } else {
      assert rows == s.rows;
    }
  }

  lemma {:induction false} ExecForeign(c: Config, s: State, o: Owner, acts: seq<Action>)
    requires o in s.clients && forall i | 0 <= i < |acts| :: ForeignAction(o, acts[i])
    ensures var s' := Exec(c, s, acts);
            && o in s'.clients && s'.clients[o] == s.clients[o] && s'.locks.Keys == s.locks.Keys
            && RowsBy(s'.rows, o) == RowsBy(s.rows, o)
    decreases |acts|
  {
    if acts != [] {
      var s1 := Step(c, s, acts[0]);
      StepForeign(c, s, o, acts[0]);
      StepForeignRows(c, s, o, acts[0]);
      ExecForeign(c, s1, o, acts[1..]);
    }
  }

  class Submission {
    const c: Config
    const owner: Owner
    const world: World
    var calls: nat

    constructor (c: Config, owner: Owner, world: World)
      ensures this.c == c && this.owner == owner && this.world == world
    {
      this.c := c;
      this.owner := owner;
      this.world := world;
      this.calls := 0;
    }

    ghost predicate At(shop: Shop, pc: Pc)
      reads shop
    {
      Known(shop.s, owner) && Foreign(world, owner) && shop.s.clients[owner].pc == pc
    }

    method Interfere(shop: Shop, ghost pc: Pc) returns (ghost trace: seq<Action>)
      requires At(shop, pc)
      modifies shop, this
      ensures At(shop, pc) && shop.s == Exec(c, old(shop.s), trace)
      ensures shop.s.clients[owner] == old(shop.s.clients[owner])
      ensures RowsBy(shop.s.rows, owner) == RowsBy(old(shop.s.rows), owner)
      ensures Commit(owner, FailedApplied) !in trace && Tries(owner, trace) == 0
    {
      trace := world.others(calls);
      NoTries(owner, trace);
      assert forall i | 0 <= i < |trace| :: ForeignAction(owner, world.others(calls)[i]);
      ExecForeign(c, shop.s, owner, trace);
      shop.s := Exec(c, shop.s, world.others(calls));
      calls := calls + 1;
    }

    /** The lock's acquire: one SET NX per attempt until it is answered with success. */
    method Acquire(shop: Shop) returns (ok: bool, ghost trace: seq<Action>)
      requires At(shop, Trying(0))
      modifies shop, this
      ensures At(shop, if ok then Holding else Done(Conflict)) && shop.s == Exec(c, old(shop.s), trace)
      ensures RowsBy(shop.s.rows, owner) == RowsBy(old(shop.s.rows), owner)
      ensures ok && c.ttl > 0 ==> InLease(shop.s, owner)
      ensures Commit(owner, FailedApplied) !in trace
      ensures if ok then 1 <= Tries(owner, trace) <= c.retryTimes + 1 else Tries(owner, trace) == c.retryTimes + 1
    {
      trace := [];
      for attempt := 0 to c.retryTimes + 1
        invariant At(shop, if attempt <= c.retryTimes then Trying(attempt) else Done(Conflict))
        invariant shop.s == Exec(c, old(shop.s), trace)
        invariant RowsBy(shop.s.rows, owner) == RowsBy(old(shop.s.rows), owner)
        invariant Commit(owner, FailedApplied) !in trace && Tries(owner, trace) == attempt
      {
        ghost var t := Interfere(shop, Trying(attempt));
        ExecAppend(c, old(shop.s), trace, t);
        TriesAppend(owner, trace, t);
        trace := trace + t;
        var a := TryAcquire(owner, world.reply(calls));
        var acquired := a.reply.Answered? && !Live(shop.s.locks[shop.s.clients[owner].detail], shop.s.now);
        ExecAppend(c, old(shop.s), trace, [a]);
        TriesAppend(owner, trace, [a]);
        trace := trace + [a];
        shop.s := Step(c, shop.s, a);
        if acquired {
          return true, trace;
        }
      }
      ok := false;
    }

    /** Query, then insert and commit unless an open request exists or the database raises.
        A row is written exactly when the commit is carried out; then the caller is told so,
        unless the answer is lost. */
    method DoCommit(shop: Shop) returns (outcome: Outcome, ghost trace: seq<Action>)
      requires At(shop, Holding)
      modifies shop, this
      ensures At(shop, Leaving(outcome)) && shop.s == Exec(c, old(shop.s), trace)
      ensures outcome != Conflict && (Steady(world) ==> outcome != Failed)
      ensures RowsBy(shop.s.rows, owner) == RowsBy(old(shop.s.rows), owner) + (if Written(outcome, trace) then 1 else 0)
    {
      trace := Interfere(shop, Holding);
      var a := if world.raises(calls) then Fail(owner) else Query(owner);
      ExecAppend(c, old(shop.s), trace, [a]);
      trace := trace + [a];
      var existing := HasOpen(shop.s.rows, shop.s.clients[owner].detail);
      shop.s := Step(c, shop.s, a);
      if a.Fail? {
        return Failed, trace;
      }
      if existing {
        return Duplicate, trace;
      }
      ghost var t := Interfere(shop, Ready);
      ExecAppend(c, old(shop.s), trace, t);
      trace := trace + t;
      outcome, t := Insert(shop);
      ExecAppend(c, old(shop.s), trace, t);
      trace := trace + t;
    }

    /** The other columns may raise; then the commit. */
    method Insert(shop: Shop) returns (outcome: Outcome, ghost trace: seq<Action>)
      requires At(shop, Ready)
      modifies shop
      ensures At(shop, Leaving(outcome)) && shop.s == Exec(c, old(shop.s), trace)
      ensures outcome == Submitted || outcome == Failed
      ensures (Steady(world) ==> outcome == Submitted) && |trace| == 1
      ensures RowsBy(shop.s.rows, owner) == RowsBy(old(shop.s.rows), owner) + (if Written(outcome, trace) then 1 else 0)
    {
      var b := if world.raises(calls) then Fail(owner) else Commit(owner, world.reply(calls));
      trace := [b];
      assert trace[1..] == [];
      ghost var before := shop.s.rows;
      shop.s := Step(c, shop.s, b);
      if b.Fail? {
        return Failed, trace;
      }
      if !b.reply.FailedLost? {
        assert shop.s.rows[..|before|] == before;
        assert trace[0] == b;
      }
      outcome := if b.reply.Answered? then Submitted else Failed;
    }

    /** The commit was carried out. */
    ghost predicate Written(outcome: Outcome, trace: seq<Action>) {
      outcome == Submitted || Commit(owner, FailedApplied) in trace
    }

    /** The guarded action: the lock is given back on every path that took it, and a row is
        written exactly when the commit was carried out, of which the caller is told unless
        its answer was lost. */
    method Run(shop: Shop) returns (outcome: Outcome, ghost trace: seq<Action>)
      requires At(shop, Trying(0))
      modifies shop, this
      ensures At(shop, Done(outcome)) && shop.s == Exec(c, old(shop.s), trace)
      ensures RowsBy(shop.s.rows, owner) == RowsBy(old(shop.s.rows), owner) + (if Written(outcome, trace) then 1 else 0)
      ensures Steady(world) ==> outcome != Failed
      ensures outcome != Conflict ==> exists r :: Release(owner, r) in trace
    {
      var ok;
      ok, trace := Acquire(shop);
      if !ok {
        return Conflict, trace;
      }
      ghost var t;
      outcome, t := DoCommit(shop);
      ExecAppend(c, old(shop.s), trace, t);
      trace := trace + t;
      t := Interfere(shop, Leaving(outcome));
      ExecAppend(c, old(shop.s), trace, t);
      trace := trace + t;
      var a := Release(owner, world.reply(calls));
      ExecAppend(c, old(shop.s), trace, [a]);
      trace := trace + [a];
      shop.s := Step(c, shop.s, a);
      assert a in trace;
    }
  }
}
