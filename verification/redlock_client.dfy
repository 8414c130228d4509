/** The client side of Redlock: the retry loop, the loop over the servers with its
    counter, and the release loop, run against servers that others use meanwhile. */
module Redlock {
  import opened RedisLock
  import opened RedisReply
  import opened RedlockMachine

  /** The servers and everybody using them. */
  class Cluster {
    var s: State
    constructor (s: State)
      ensures this.s == s
    {
      this.s := s;
    }
  }

  /** What the world does at the n-th call of this client: the others' actions before
      it and how the call turns out. */
  datatype World = World(others: nat -> seq<Action>, reply: nat -> Reply)

  ghost predicate Foreign(w: World, o: Owner) {
    forall n: nat, i: nat {:trigger w.others(n)[i]} ::
      i < |w.others(n)| ==> !By(w.others(n)[i], o)
  }

  class Instance {
    const c: Config
    const owner: Owner
    const retryTimes: nat
    const world: World
    var calls: nat

    constructor (c: Config, owner: Owner, retryTimes: nat, world: World)
      ensures this.c == c && this.owner == owner && this.world == world && this.retryTimes == retryTimes
    {
      this.c := c;
      this.owner := owner;
      this.retryTimes := retryTimes;
      this.world := world;
      this.calls := 0;
    }

    ghost predicate Ready(cl: Cluster)
      reads cl
    {
      && |cl.s.nodes| == c.hosts && owner in cl.s.clients
      && ValidConfig(c, cl.s.clients.Keys) && Foreign(world, owner)
    }

    /** Everybody else moves on. */
    method Interfere(cl: Cluster) returns (ghost trace: seq<Action>)
      requires Ready(cl)
      modifies cl, this
      ensures Ready(cl) && cl.s == Exec(c, old(cl.s), trace)
      ensures cl.s.clients[owner] == old(cl.s.clients[owner])
      ensures Attempts(owner, trace) == 0 && Gained(c, old(cl.s), trace, owner) == 0 && NoBegin(owner, trace)
    {
      trace := world.others(calls);
      ExecForeign(c, cl.s, owner, trace);
      cl.s := Exec(c, cl.s, world.others(calls));
      calls := calls + 1;
    }

    /** The whole retry loop. */
    method Acquire(cl: Cluster, blocking: bool) returns (value: seq<Owner>, ghost trace: seq<Action>)
      requires Ready(cl) && cl.s.clients[owner].Idle?
      modifies cl, this
      ensures Ready(cl) && cl.s == Exec(c, old(cl.s), trace)
      ensures value == [owner] || value == []
      ensures value == [owner] ==> Holds(c, cl.s, owner) && 1 <= Attempts(owner, trace) <= retryTimes + 1
      ensures value == [] ==> cl.s.clients[owner].Idle?
      ensures value == [] ==> Attempts(owner, trace) == if blocking then retryTimes + 1 else 1
    {
      trace := [];
      for attempt := 0 to retryTimes + 1
        invariant Ready(cl) && cl.s.clients[owner].Idle?
        invariant cl.s == Exec(c, old(cl.s), trace)
        invariant Attempts(owner, trace) == attempt && (blocking || attempt == 0)
      {
        var ok, t := Attempt(cl);
        Extend(c, owner, old(cl.s), trace, t);
        trace := trace + t;
        if ok {
          return [owner], trace;
        }
        t := ReleaseAll(cl);
        Extend(c, owner, old(cl.s), trace, t);
        trace := trace + t;
        if !blocking {
          return [], trace;
        }
      }
      value := [];
    }

    /** One pass: note the time, ask the servers, decide. */
    method Attempt(cl: Cluster) returns (ok: bool, ghost trace: seq<Action>)
      requires Ready(cl) && cl.s.clients[owner].Idle?
      modifies cl, this
      ensures Ready(cl) && cl.s == Exec(c, old(cl.s), trace) && Attempts(owner, trace) == 1
      ensures if ok then Holds(c, cl.s, owner) else cl.s.clients[owner] == Releasing(0)
      ensures ok <==> 2 * Gained(c, old(cl.s), trace, owner) > c.hosts
                      && cl.s.now - BeganAt(c, old(cl.s), trace, owner) < c.ttl(owner)
    {
      trace := Interfere(cl);
      ghost var before := trace;
      Extend(c, owner, old(cl.s), trace, [Begin(owner)]);
      trace := trace + [Begin(owner)];
      var start := cl.s.now;
      cl.s := Step(c, cl.s, Begin(owner));
      var acquired, t := AskServers(cl);
      Extend(c, owner, old(cl.s), trace, t);
      trace := trace + t;
      var elapsed := cl.s.now - start;
      Extend(c, owner, old(cl.s), trace, [Decide(owner)]);
      trace := trace + [Decide(owner)];
      cl.s := Step(c, cl.s, Decide(owner));
      assert trace == before + [Begin(owner)] + (t + [Decide(owner)]);
      BeganAfter(c, old(cl.s), before, owner, t + [Decide(owner)]);
      ok := acquired >= Quorum(c) && elapsed < c.ttl(owner);
    }

    /** The loop over the servers with its counter. */
    method AskServers(cl: Cluster) returns (acquired: nat, ghost trace: seq<Action>)
      requires Ready(cl)
      requires cl.s.clients[owner].Acquiring? && cl.s.clients[owner].next == 0 && cl.s.clients[owner].count == 0
      modifies cl, this
      ensures Ready(cl) && cl.s == Exec(c, old(cl.s), trace) && Attempts(owner, trace) == 0
      ensures cl.s.clients[owner].Acquiring? && cl.s.clients[owner].next == |c.conns(owner)|
      ensures cl.s.clients[owner].start == old(cl.s.clients[owner].start)
      ensures cl.s.clients[owner].count == acquired == Gained(c, old(cl.s), trace, owner) && NoBegin(owner, trace)
    {
      trace := [];
      acquired := 0;
      for i := 0 to |c.conns(owner)|
        invariant Ready(cl) && cl.s.clients[owner].Acquiring? && cl.s.clients[owner].next == i
        invariant cl.s.clients[owner].start == old(cl.s.clients[owner].start)
        invariant cl.s.clients[owner].count == acquired == Gained(c, old(cl.s), trace, owner) && NoBegin(owner, trace)
        invariant cl.s == Exec(c, old(cl.s), trace) && Attempts(owner, trace) == 0
      {
        ghost var t := Interfere(cl);
        Extend(c, owner, old(cl.s), trace, t);
        trace := trace + t;
        var reply := world.reply(calls);
        Extend(c, owner, old(cl.s), trace, [TrySet(owner, reply)]);
        trace := trace + [TrySet(owner, reply)];
        var ok := TrySetOne(cl, reply);
        if ok {
          acquired := acquired + 1;
        }
      }
      ghost var t := Interfere(cl);
      Extend(c, owner, old(cl.s), trace, t);
      trace := trace + t;
    }

    /** One SET NX call: true exactly when the server answered and set the key. */
    method TrySetOne(cl: Cluster, reply: Reply) returns (ok: bool)
      requires Ready(cl) && Enabled(c, cl.s, TrySet(owner, reply))
      modifies cl
      ensures Ready(cl) && cl.s == Step(c, old(cl.s), TrySet(owner, reply))
      ensures cl.s.clients[owner].count == old(cl.s.clients[owner].count) + (if ok then 1 else 0)
    {
      var me := cl.s.clients[owner];
      var slot := cl.s.nodes[c.conns(owner)[me.next]];
      ok := reply.Answered? && !Live(slot, cl.s.now);
      cl.s := Step(c, cl.s, TrySet(owner, reply));
    }

    /** _release_all: one release call to every server, lost or not. */
    method ReleaseAll(cl: Cluster) returns (ghost trace: seq<Action>)
      requires Ready(cl) && cl.s.clients[owner] == Releasing(0)
      modifies cl, this
      ensures Ready(cl) && cl.s == Exec(c, old(cl.s), trace)
      ensures cl.s.clients[owner].Idle?
      ensures Attempts(owner, trace) == 0
    {
      trace := [];
      for i := 0 to |c.conns(owner)|
        invariant Ready(cl) && cl.s.clients[owner] == Releasing(i)
        invariant cl.s == Exec(c, old(cl.s), trace) && Attempts(owner, trace) == 0
      {
        ghost var t := Interfere(cl);
        Extend(c, owner, old(cl.s), trace, t);
        trace := trace + t;
        var reply := world.reply(calls);
        Extend(c, owner, old(cl.s), trace, [TryRelease(owner, reply)]);
        trace := trace + [TryRelease(owner, reply)];
        ReleaseOne(cl, i, reply);
      }
      Extend(c, owner, old(cl.s), trace, [Finish(owner)]);
      trace := trace + [Finish(owner)];
      cl.s := Step(c, cl.s, Finish(owner));
    }

    method ReleaseOne(cl: Cluster, i: nat, reply: Reply)
      requires Ready(cl) && cl.s.clients[owner] == Releasing(i) && i < |c.conns(owner)|
      modifies cl
      ensures Ready(cl) && cl.s == Step(c, old(cl.s), TryRelease(owner, reply))
      ensures cl.s.clients[owner] == Releasing(i + 1)
    {
      StepFrame(c, cl.s, TryRelease(owner, reply));
      cl.s := Step(c, cl.s, TryRelease(owner, reply));
    }

    method Release(cl: Cluster) returns (ghost trace: seq<Action>)
      requires Ready(cl) && cl.s.clients[owner].Holding?
      modifies cl, this
      ensures Ready(cl) && cl.s == Exec(c, old(cl.s), trace)
      ensures cl.s.clients[owner].Idle?
    {
      ExecStep(c, cl.s, [], BeginRelease(owner));
      cl.s := Step(c, cl.s, BeginRelease(owner));
      ghost var t := ReleaseAll(cl);
      ExecAppend(c, old(cl.s), [BeginRelease(owner)], t);
      trace := [BeginRelease(owner)] + t;
    }
  }

  /** How often `o` counted its servers: one decision per attempt. */
  function Attempts(o: Owner, acts: seq<Action>): nat {
    if acts == [] then 0 else (if acts[0] == Decide(o) then 1 else 0) + Attempts(o, acts[1..])
  }

  /** How many of `o`'s SET NX calls in a run are answered with a free key. */
  function Gained(c: Config, s: State, acts: seq<Action>, o: Owner): nat
    decreases |acts|
  {
    if acts == [] then 0 else
    (if acts[0] == TrySet(o, Answered) && Enabled(c, s, acts[0])
        && !Live(s.nodes[c.conns(o)[s.clients[o].next]], s.now) then 1 else 0)
    + Gained(c, Step(c, s, acts[0]), acts[1..], o)
  }

  predicate NoBegin(o: Owner, acts: seq<Action>) { Begin(o) !in acts }

  /** The time at which `o` last began an attempt in a run, or the time at its start. */
  function BeganAt(c: Config, s: State, acts: seq<Action>, o: Owner): int
    decreases |acts|
  {
    if acts == [] || NoBegin(o, acts[1..]) then s.now
    else BeganAt(c, Step(c, s, acts[0]), acts[1..], o)
  }

  lemma {:induction false} BeganAfter(c: Config, s: State, a: seq<Action>, o: Owner, b: seq<Action>)
    requires NoBegin(o, b)
    ensures BeganAt(c, s, a + [Begin(o)] + b, o) == Exec(c, s, a).now
    decreases |a|
  {
    var acts := a + [Begin(o)] + b;
    if a == [] {
      assert acts[1..] == b;
    } else {
      assert acts[1..] == a[1..] + [Begin(o)] + b;
      assert Begin(o) in acts[1..];
      BeganAfter(c, Step(c, s, a[0]), a[1..], o, b);
    }
  }

  lemma {:induction false} GainedAppend(c: Config, s: State, a: seq<Action>, b: seq<Action>, o: Owner)
    ensures Gained(c, s, a + b, o) == Gained(c, s, a, o) + Gained(c, Exec(c, s, a), b, o)
    decreases |a|
  {
    if a == [] {
      assert a + b == b;
    } else {
      assert (a + b)[1..] == a[1..] + b;
      GainedAppend(c, Step(c, s, a[0]), a[1..], b, o);
    }
  }

  lemma {:induction false} AttemptsAppend(o: Owner, a: seq<Action>, b: seq<Action>)
    ensures Attempts(o, a + b) == Attempts(o, a) + Attempts(o, b)
  {
    if a == [] {
      assert a + b == b;
    } else {
      assert (a + b)[1..] == a[1..] + b;
      AttemptsAppend(o, a[1..], b);
    }
  }

  /** Traces glue together; a one-action trace is one step. */
  lemma Extend(c: Config, o: Owner, s: State, a: seq<Action>, b: seq<Action>)
    ensures Exec(c, s, a + b) == Exec(c, Exec(c, s, a), b)
    ensures |b| == 1 ==> Exec(c, s, a + b) == Step(c, Exec(c, s, a), b[0])
    ensures Attempts(o, a + b) == Attempts(o, a) + Attempts(o, b)
    ensures |b| == 1 ==> Attempts(o, b) == if b[0] == Decide(o) then 1 else 0
    ensures Gained(c, s, a + b, o) == Gained(c, s, a, o) + Gained(c, Exec(c, s, a), b, o)
    ensures |b| == 1 && !b[0].TrySet? ==> Gained(c, Exec(c, s, a), b, o) == 0
  {
    ExecAppend(c, s, a, b);
    AttemptsAppend(o, a, b);
    GainedAppend(c, s, a, b, o);
    if |b| == 1 {
      assert b[1..] == [];
    }
  }

  lemma StepForeign(c: Config, s: State, o: Owner, a: Action)
    requires o in s.clients && !By(a, o)
    ensures Step(c, s, a).clients.Keys == s.clients.Keys && |Step(c, s, a).nodes| == |s.nodes|
    ensures o in Step(c, s, a).clients && Step(c, s, a).clients[o] == s.clients[o]
  {
    StepFrame(c, s, a);
  }

  /** What others do never moves this client's program counter. */
  lemma {:induction false} ExecForeign(c: Config, s: State, o: Owner, acts: seq<Action>)
    requires o in s.clients && forall i | 0 <= i < |acts| :: !By(acts[i], o)
    ensures Exec(c, s, acts).clients.Keys == s.clients.Keys
    ensures Exec(c, s, acts).clients[o] == s.clients[o]
    ensures |Exec(c, s, acts).nodes| == |s.nodes|
    ensures Attempts(o, acts) == 0 && Gained(c, s, acts, o) == 0 && NoBegin(o, acts)
    decreases |acts|
  {
    if acts != [] {
      assert !By(acts[0], o);
      StepForeign(c, s, o, acts[0]);
      ExecForeign(c, Step(c, s, acts[0]), o, acts[1..]);
    }
  }
}
