/** Redlock: a lock held by a majority of independent servers. Every call to one
    server is one atomic step; any number of clients interleave, and a call given up by its
    client may still arrive later. */
module RedlockMachine {
  import opened RedisLock
  import opened RedisReply

  /** `conns(o)` lists the servers the instance `o` managed to connect to. */
  datatype Config = Config(hosts: nat, ttl: Owner -> nat, conns: Owner -> seq<nat>)

  predicate ValidConfig(c: Config, owners: set<Owner>) {
    forall o <- owners ::
      && (forall i | 0 <= i < |c.conns(o)| :: c.conns(o)[i] < c.hosts)
      && (forall i, j | 0 <= i < j < |c.conns(o)| :: c.conns(o)[i] != c.conns(o)[j])
  }

  function Quorum(c: Config): nat { c.hosts / 2 + 1 }

  /** Program counter of one lock instance. `won` names the servers behind `count`. */
  datatype Client =
    | Idle
    | Acquiring(start: int, next: nat, count: nat, won: set<nat>)
    | Holding(start: int, won: set<nat>)
    | Releasing(next: nat)

  /** A call on its way: SET NX of the owner's value, or the release script. */
  datatype Command = SetCmd(owner: Owner, server: nat) | DelCmd(owner: Owner, server: nat)

  /** `late` holds the calls that their clients have given up but that may still arrive. */
  datatype State = State(nodes: seq<Slot>, clients: map<Owner, Client>, now: int, late: multiset<Command>)

  datatype Action =
    | Tick(d: nat)
    | Begin(o: Owner)
    | TrySet(o: Owner, reply: Reply)
    | Decide(o: Owner)
    | BeginRelease(o: Owner)
    | TryRelease(o: Owner, reply: Reply)
    | Finish(o: Owner)
    | Arrive(cmd: Command)

  /** The action is a step of this client, not the clock's or the network's. */
  predicate By(a: Action, o: Owner) {
    !a.Tick? && !a.Arrive? && a.o == o
  }

  /** Does server state `s` let `a` happen? A disabled action leaves the state alone. */
  predicate Enabled(c: Config, s: State, a: Action) {
    match a
    case Tick(_) => true
    case Begin(o) => o in s.clients && s.clients[o].Idle?
    case TrySet(o, _) =>
      && o in s.clients && s.clients[o].Acquiring? && s.clients[o].next < |c.conns(o)|
      && c.conns(o)[s.clients[o].next] < |s.nodes|
    case Decide(o) =>
      o in s.clients && s.clients[o].Acquiring? && s.clients[o].next == |c.conns(o)|
    case BeginRelease(o) => o in s.clients && s.clients[o].Holding?
    case TryRelease(o, _) =>
      && o in s.clients && s.clients[o].Releasing? && s.clients[o].next < |c.conns(o)|
      && c.conns(o)[s.clients[o].next] < |s.nodes|
    case Finish(o) =>
      o in s.clients && s.clients[o].Releasing? && s.clients[o].next == |c.conns(o)|
    case Arrive(cmd) => cmd in s.late && cmd.server < |s.nodes|
  }

  function Step(c: Config, s: State, a: Action): State {
    if !Enabled(c, s, a) then s else
    match a
    case Tick(d) => s.(now := s.now + d)
    case Begin(o) => s.(clients := s.clients[o := Acquiring(s.now, 0, 0, {})])
    case TrySet(o, reply) =>
      var me, i := s.clients[o], c.conns(o)[s.clients[o].next];
      var nodes := if reply.FailedLost? then s.nodes
                   else s.nodes[i := SetNx(s.nodes[i], o, c.ttl(o), s.now)];
      var counted := reply.Answered? && !Live(s.nodes[i], s.now);
      var me' := Acquiring(me.start, me.next + 1, if counted then me.count + 1 else me.count,
                           if counted then me.won + {i} else me.won);
      var late := if reply.FailedLost? then s.late + multiset{SetCmd(o, i)} else s.late;
      s.(nodes := nodes, clients := s.clients[o := me'], late := late)
    case Decide(o) =>
      var me := s.clients[o];
      var ok := me.count >= Quorum(c) && s.now - me.start < c.ttl(o);
      s.(clients := s.clients[o := if ok then Holding(me.start, me.won) else Releasing(0)])
    case BeginRelease(o) => s.(clients := s.clients[o := Releasing(0)])
    case TryRelease(o, reply) =>
      var i := c.conns(o)[s.clients[o].next];
      var nodes := if reply.FailedLost? then s.nodes
                   else s.nodes[i := CompareAndDelete(s.nodes[i], o, s.now)];
      var late := if reply.FailedLost? then s.late + multiset{DelCmd(o, i)} else s.late;
      s.(nodes := nodes, clients := s.clients[o := Releasing(s.clients[o].next + 1)], late := late)
    case Finish(o) => s.(clients := s.clients[o := Idle])
    case Arrive(cmd) =>
      var i := cmd.server;
      var slot := if cmd.SetCmd? then SetNx(s.nodes[i], cmd.owner, c.ttl(cmd.owner), s.now)
                  else CompareAndDelete(s.nodes[i], cmd.owner, s.now);
      s.(nodes := s.nodes[i := slot], late := s.late - multiset{cmd})
  }

  function Exec(c: Config, s: State, acts: seq<Action>): State
    decreases |acts|
  {
    if acts == [] then s else Exec(c, Step(c, s, acts[0]), acts[1..])
  }

  lemma {:induction false} ExecAppend(c: Config, s: State, a: seq<Action>, b: seq<Action>)
    ensures Exec(c, s, a + b) == Exec(c, Exec(c, s, a), b)
    decreases |a|
  {
    if a == [] {
      assert a + b == b;
    } else {
      assert (a + b)[1..] == a[1..] + b;
      ExecAppend(c, Step(c, s, a[0]), a[1..], b);
    }
  }

  lemma ExecStep(c: Config, s: State, acts: seq<Action>, a: Action)
    ensures Exec(c, s, acts + [a]) == Step(c, Exec(c, s, acts), a)
  {
    ExecAppend(c, s, acts, [a]);
    assert [a][1..] == [];
  }

  predicate Init(c: Config, s: State) {
    |s.nodes| == c.hosts && s.late == multiset{} && forall o <- s.clients :: s.clients[o].Idle?
  }

  /** The lock is promised to `o` now: acquired, not given back, and before start + ttl. */
  predicate Holds(c: Config, s: State, o: Owner) {
    o in s.clients && s.clients[o].Holding? && s.now < s.clients[o].start + c.ttl(o)
  }

  // ---------- Late calls ----------

  /** A late release does no harm where its owner has not counted the server since. A late
      SET NX never does. */
  predicate Harmless(s: State, cmd: Command) {
    cmd.DelCmd? && cmd.owner in s.clients && (s.clients[cmd.owner].Acquiring? || s.clients[cmd.owner].Holding?) ==>
      cmd.server !in s.clients[cmd.owner].won
  }

  /** No release arrives at a server that its owner has counted meanwhile. */
  predicate Timely(c: Config, s: State, acts: seq<Action>)
    decreases |acts|
  {
    acts == [] ||
    ((acts[0].Arrive? && Enabled(c, s, acts[0]) ==> Harmless(s, acts[0].cmd))
     && Timely(c, Step(c, s, acts[0]), acts[1..]))
  }

  // ---------- Invariant ----------

  /** A counted server keeps `o`'s value at least until start + ttl. */
  predicate Kept(s: State, o: Owner, i: nat, deadline: int) {
    i < |s.nodes| &&
    (deadline <= s.now || (s.nodes[i].Taken? && s.nodes[i].owner == o && deadline <= s.nodes[i].until))
  }

  predicate AllKept(s: State, o: Owner, won: set<nat>, deadline: int) {
    forall i <- won :: Kept(s, o, i, deadline)
  }

  predicate ClientInv(c: Config, s: State, o: Owner, me: Client) {
    match me
    case Idle => true
    case Acquiring(start, next, count, won) =>
      && start <= s.now && count == |won|
      && (forall j | next <= j < |c.conns(o)| :: c.conns(o)[j] !in won)
      && AllKept(s, o, won, start + c.ttl(o))
    case Holding(start, won) =>
      start <= s.now && |won| >= Quorum(c) && AllKept(s, o, won, start + c.ttl(o))
    case Releasing(_) => true
  }

  ghost predicate Inv(c: Config, s: State) {
    && |s.nodes| == c.hosts
    && forall o <- s.clients :: ClientInv(c, s, o, s.clients[o])
  }

  lemma SetKeepsOthers(s: State, s': State, p: Owner, won: set<nat>, deadline: int, i: nat, slot: Slot)
    requires AllKept(s, p, won, deadline) && i < |s.nodes|
    requires s'.nodes == s.nodes[i := slot] && s'.now == s.now
    requires slot == s.nodes[i]
             || !Live(s.nodes[i], s.now)
             || s.nodes[i].owner != p
    ensures AllKept(s', p, won, deadline)
  {
    forall k <- won ensures Kept(s', p, k, deadline) {
      assert Kept(s, p, k, deadline);
    }
  }

  /** One step of anyone else, of the clock or of the network keeps what a client `p` relies
      on. */
  lemma StepKeepsOther(c: Config, s: State, a: Action, p: Owner)
    requires Inv(c, s) && p in s.clients && !By(a, p)
    requires a.Arrive? && Enabled(c, s, a) ==> Harmless(s, a.cmd)
    ensures p in Step(c, s, a).clients && Step(c, s, a).clients[p] == s.clients[p]
    ensures ClientInv(c, Step(c, s, a), p, s.clients[p])
  {
    var s' := Step(c, s, a);
    var me := s.clients[p];
    assert ClientInv(c, s, p, me);
    if me.Acquiring? || me.Holding? {
      StepKeepsWon(c, s, a, p, me.won, me.start + c.ttl(p));
    }
  }

  lemma StepKeepsWon(c: Config, s: State, a: Action, p: Owner, won: set<nat>, deadline: int)
    requires AllKept(s, p, won, deadline) && !By(a, p)
    requires Enabled(c, s, a) && a == Arrive(DelCmd(p, if a.Arrive? then a.cmd.server else 0)) ==> a.cmd.server !in won
    ensures AllKept(Step(c, s, a), p, won, deadline)
  {
    var s' := Step(c, s, a);
    if Enabled(c, s, a) && a.TrySet? && !a.reply.FailedLost? {
      var i := c.conns(a.o)[s.clients[a.o].next];
      SetKeepsOthers(s, s', p, won, deadline, i, SetNx(s.nodes[i], a.o, c.ttl(a.o), s.now));
    } else if Enabled(c, s, a) && a.TryRelease? && !a.reply.FailedLost? {
      var i := c.conns(a.o)[s.clients[a.o].next];
      SetKeepsOthers(s, s', p, won, deadline, i, CompareAndDelete(s.nodes[i], a.o, s.now));
    } else if Enabled(c, s, a) && a.Arrive? {
      ArrivalKeepsWon(c, s, a.cmd, p, won, deadline);
    } else {
      forall k <- won ensures Kept(s', p, k, deadline) {
        assert Kept(s, p, k, deadline);
      }
    }
  }

  lemma ArrivalKeepsWon(c: Config, s: State, cmd: Command, p: Owner, won: set<nat>, deadline: int)
    requires AllKept(s, p, won, deadline) && Enabled(c, s, Arrive(cmd))
    requires cmd == DelCmd(p, cmd.server) ==> cmd.server !in won
    ensures AllKept(Step(c, s, Arrive(cmd)), p, won, deadline)
  {
    var s', i := Step(c, s, Arrive(cmd)), cmd.server;
    if i in won {
      SetKeepsOthers(s, s', p, won, deadline, i, s'.nodes[i]);
    } else {
      forall k <- won ensures Kept(s', p, k, deadline) {
        assert Kept(s, p, k, deadline);
      }
    }
  }

  /** One step of `p` itself re-establishes its own part of the invariant. */
  lemma StepKeepsOwn(c: Config, s: State, a: Action)
    requires Inv(c, s) && ValidConfig(c, s.clients.Keys) && !a.Tick? && !a.Arrive? && a.o in s.clients
    ensures ClientInv(c, Step(c, s, a), a.o, Step(c, s, a).clients[a.o])
  {
    var s', p := Step(c, s, a), a.o;
    var me := s.clients[p];
    assert ClientInv(c, s, p, me);
    if Enabled(c, s, a) && a.TrySet? {
      var i := c.conns(p)[me.next];
      var deadline := me.start + c.ttl(p);
      var me' := s'.clients[p];
      forall k <- me'.won ensures Kept(s', p, k, deadline) {
        if k in me.won {
          assert k != i && Kept(s, p, k, deadline);
        }
      }
    }
  }

  lemma StepKeepsInv(c: Config, s: State, a: Action)
    requires Inv(c, s) && ValidConfig(c, s.clients.Keys)
    requires a.Arrive? && Enabled(c, s, a) ==> Harmless(s, a.cmd)
    ensures Inv(c, Step(c, s, a)) && Step(c, s, a).clients.Keys == s.clients.Keys
  {
    var s' := Step(c, s, a);
    assert s'.clients.Keys == s.clients.Keys;
    forall p <- s'.clients ensures ClientInv(c, s', p, s'.clients[p]) {
      if By(a, p) {
        StepKeepsOwn(c, s, a);
      } else {
        StepKeepsOther(c, s, a, p);
      }
    }
  }

  lemma {:induction false} ExecKeepsInv(c: Config, s: State, acts: seq<Action>)
    requires Inv(c, s) && ValidConfig(c, s.clients.Keys) && Timely(c, s, acts)
    ensures Inv(c, Exec(c, s, acts)) && Exec(c, s, acts).clients.Keys == s.clients.Keys
    decreases |acts|
  {
    if acts != [] {
      StepKeepsInv(c, s, acts[0]);
      ExecKeepsInv(c, Step(c, s, acts[0]), acts[1..]);
    }
  }

  // ---------- Quorum intersection ----------

  function Below(n: nat): (r: set<nat>)
    ensures |r| == n && forall i: nat :: i in r <==> i < n
  {
    if n == 0 then {} else Below(n - 1) + {n - 1}
  }

  lemma SubsetSize<T>(a: set<T>, b: set<T>)
    requires a <= b
    ensures |a| <= |b|
  {
    assert b == a + (b - a) && a !! (b - a);
  }

  lemma MajoritiesMeet(n: nat, a: set<nat>, b: set<nat>)
    requires a <= Below(n) && b <= Below(n)
    requires |a| >= n / 2 + 1 && |b| >= n / 2 + 1
    ensures exists i :: i in a && i in b
  {
    if a !! b {
      assert |a + b| == |a| + |b|;
      SubsetSize(a + b, Below(n));
    } else {
      assert a * b != {};
      var i :| i in a * b;
    }
  }

  // ---------- Main theorems ----------

  /** Two distinct owners never hold the lock at the same time, in every run in which no
      release arrives at a server that its owner has counted since. */
  lemma MutualExclusion(c: Config, s0: State, acts: seq<Action>, o: Owner, p: Owner)
    requires Init(c, s0) && ValidConfig(c, s0.clients.Keys) && Timely(c, s0, acts)
    requires Holds(c, Exec(c, s0, acts), o) && Holds(c, Exec(c, s0, acts), p)
    ensures o == p
  {
    ExecKeepsInv(c, s0, acts);
    var s := Exec(c, s0, acts);
    var x, y := s.clients[o], s.clients[p];
    assert ClientInv(c, s, o, x) && ClientInv(c, s, p, y);
    forall k <- x.won ensures k in Below(c.hosts) { assert Kept(s, o, k, x.start + c.ttl(o)); }
    forall k <- y.won ensures k in Below(c.hosts) { assert Kept(s, p, k, y.start + c.ttl(p)); }
    MajoritiesMeet(c.hosts, x.won, y.won);
    var i :| i in x.won && i in y.won;
    assert Kept(s, o, i, x.start + c.ttl(o)) && Kept(s, p, i, y.start + c.ttl(p));
  }

  /** If no given-up call ever arrives, that is so. */
  lemma {:induction false} PunctualIsTimely(c: Config, s: State, acts: seq<Action>)
    requires forall a <- acts :: !a.Arrive?
    ensures Timely(c, s, acts)
    decreases |acts|
  {
    if acts != [] {
      PunctualIsTimely(c, Step(c, s, acts[0]), acts[1..]);
    }
  }

  /** No owner value is used for a second attempt. */
  predicate NoReuse(acts: seq<Action>, begun: set<Owner>)
    decreases |acts|
  {
    acts == [] ||
    ((acts[0].Begin? ==> acts[0].o !in begun)
     && NoReuse(acts[1..], if acts[0].Begin? then begun + {acts[0].o} else begun))
  }

  /** Releases are only on their way for owners that are through with their attempt. */
  ghost predicate OnlyPast(s: State, begun: set<Owner>) {
    && (forall cmd <- s.late | cmd.DelCmd? && cmd.owner in s.clients ::
         cmd.owner in begun && !s.clients[cmd.owner].Acquiring? && !s.clients[cmd.owner].Holding?)
    && (forall o <- s.clients :: o !in begun ==> s.clients[o].Idle?)
  }

  lemma StepKeepsOnlyPast(c: Config, s: State, a: Action, begun: set<Owner>)
    requires OnlyPast(s, begun) && (a.Begin? ==> a.o !in begun)
    ensures OnlyPast(Step(c, s, a), if a.Begin? then begun + {a.o} else begun)
  {
    var s', begun' := Step(c, s, a), if a.Begin? then begun + {a.o} else begun;
    forall cmd <- s'.late | cmd.DelCmd? && cmd.owner in s'.clients
      ensures cmd.owner in begun' && !s'.clients[cmd.owner].Acquiring? && !s'.clients[cmd.owner].Holding?
    {
      LateIsPast(c, s, a, begun, cmd);
    }
    forall o <- s'.clients | o !in begun' ensures s'.clients[o].Idle? {
      UnbegunIsIdle(c, s, a, begun, o);
    }
  }

  lemma LateIsPast(c: Config, s: State, a: Action, begun: set<Owner>, cmd: Command)
    requires OnlyPast(s, begun) && (a.Begin? ==> a.o !in begun)
    requires cmd in Step(c, s, a).late && cmd.DelCmd? && cmd.owner in Step(c, s, a).clients
    ensures var me := Step(c, s, a).clients[cmd.owner]; cmd.owner in begun && !me.Acquiring? && !me.Holding?
  {
    if cmd !in s.late {
      assert a.TryRelease? && cmd.owner == a.o;
    }
  }

  lemma UnbegunIsIdle(c: Config, s: State, a: Action, begun: set<Owner>, o: Owner)
    requires OnlyPast(s, begun) && o in Step(c, s, a).clients
    requires o !in if a.Begin? then begun + {a.o} else begun
    ensures Step(c, s, a).clients[o].Idle?
  {
  }

  /** An owner value of its own for every attempt makes every run timely, however late the
      calls arrive. */
  lemma {:induction false} FreshOwnersAreTimely(c: Config, s: State, acts: seq<Action>, begun: set<Owner>)
    requires OnlyPast(s, begun) && NoReuse(acts, begun)
    ensures Timely(c, s, acts)
    decreases |acts|
  {
    if acts != [] {
      StepKeepsOnlyPast(c, s, acts[0], begun);
      FreshOwnersAreTimely(c, Step(c, s, acts[0]), acts[1..], if acts[0].Begin? then begun + {acts[0].o} else begun);
    }
  }

  /** Exclusion without any assumption on when calls arrive, if no owner value is reused. */
  lemma FreshOwnersExclude(c: Config, s0: State, acts: seq<Action>, o: Owner, p: Owner)
    requires Init(c, s0) && ValidConfig(c, s0.clients.Keys) && NoReuse(acts, {})
    requires Holds(c, Exec(c, s0, acts), o) && Holds(c, Exec(c, s0, acts), p)
    ensures o == p
  {
    FreshOwnersAreTimely(c, s0, acts, {});
    MutualExclusion(c, s0, acts, o, p);
  }

  /** A successful return always leaves a positive remaining lease, and at that
      instant nobody else's promise is still valid. */
  lemma SuccessIsExclusive(c: Config, s0: State, acts: seq<Action>, o: Owner, p: Owner)
    requires Init(c, s0) && ValidConfig(c, s0.clients.Keys) && Timely(c, s0, acts)
    requires Enabled(c, Exec(c, s0, acts), Decide(o))
    requires Step(c, Exec(c, s0, acts), Decide(o)).clients[o].Holding?
    ensures Holds(c, Step(c, Exec(c, s0, acts), Decide(o)), o)
    ensures p != o ==> !Holds(c, Exec(c, s0, acts), p)
  {
    if p != o && Holds(c, Exec(c, s0, acts), p) {
      ExecStep(c, s0, acts, Decide(o));
      TimelyStep(c, s0, acts, Decide(o));
      MutualExclusion(c, s0, acts + [Decide(o)], o, p);
    }
  }

  lemma {:induction false} TimelyStep(c: Config, s: State, acts: seq<Action>, a: Action)
    requires Timely(c, s, acts) && !a.Arrive?
    ensures Timely(c, s, acts + [a])
    decreases |acts|
  {
    if acts == [] {
      assert [a][1..] == [];
    } else {
      assert (acts + [a])[1..] == acts[1..] + [a];
      TimelyStep(c, Step(c, s, acts[0]), acts[1..], a);
    }
  }

  // ---------- What single calls do ----------

  /** A SET NX that is carried out takes a free key for exactly the TTL and leaves a taken one. */
  lemma SetTakesFreeKey(c: Config, s: State, o: Owner, reply: Reply)
    requires Enabled(c, s, TrySet(o, reply)) && !reply.FailedLost?
    ensures var i, nodes := c.conns(o)[s.clients[o].next], Step(c, s, TrySet(o, reply)).nodes;
            nodes == match s.nodes[i]
                     case Free => s.nodes[i := Taken(o, s.now + c.ttl(o))]
                     case Taken(_, until) => if s.now < until then s.nodes else s.nodes[i := Taken(o, s.now + c.ttl(o))]
  {
  }

  /** A release that is carried out frees the caller's own live key and leaves every other. */
  lemma ReleaseFreesOwnKey(c: Config, s: State, o: Owner, reply: Reply)
    requires Enabled(c, s, TryRelease(o, reply)) && !reply.FailedLost?
    ensures var i, nodes := c.conns(o)[s.clients[o].next], Step(c, s, TryRelease(o, reply)).nodes;
            nodes == match s.nodes[i]
                     case Free => s.nodes
                     case Taken(p, until) => if p == o && s.now < until then s.nodes[i := Free] else s.nodes
  {
  }

  /** A call that is given up is on its way, and does on arrival what it would have done. */
  lemma LostSetArrivesLate(c: Config, s: State, o: Owner)
    requires Enabled(c, s, TrySet(o, FailedLost))
    ensures var i := c.conns(o)[s.clients[o].next];
            var s' := Step(c, s, TrySet(o, FailedLost));
            && s'.nodes == s.nodes && s'.late == s.late + multiset{SetCmd(o, i)}
            && Step(c, s', Arrive(SetCmd(o, i))).nodes == Step(c, s, TrySet(o, FailedApplied)).nodes
  {
  }

  lemma LostReleaseArrivesLate(c: Config, s: State, o: Owner)
    requires Enabled(c, s, TryRelease(o, FailedLost))
    ensures var i := c.conns(o)[s.clients[o].next];
            var s' := Step(c, s, TryRelease(o, FailedLost));
            && s'.nodes == s.nodes && s'.late == s.late + multiset{DelCmd(o, i)}
            && Step(c, s', Arrive(DelCmd(o, i))).nodes == Step(c, s, TryRelease(o, FailedApplied)).nodes
  {
  }

  // ---------- An attempt nobody interferes with, and a release sweep ----------

  function Sets(o: Owner, replies: seq<Reply>): seq<Action> {
    if replies == [] then [] else [TrySet(o, replies[0])] + Sets(o, replies[1..])
  }

  /** Number of servers from the k-th on that answer and whose key is free. */
  function FreeAnswers(c: Config, s: State, o: Owner, k: nat, replies: seq<Reply>): nat
    decreases |replies|
  {
    if replies == [] || k >= |c.conns(o)| || c.conns(o)[k] >= |s.nodes| then 0 else
    (if replies[0].Answered? && !Live(s.nodes[c.conns(o)[k]], s.now) then 1 else 0)
    + FreeAnswers(c, s, o, k + 1, replies[1..])
  }

  lemma {:induction false} FreeAnswersFrame(c: Config, s: State, s': State, o: Owner, k: nat, replies: seq<Reply>)
    requires |s.nodes| == |s'.nodes| && s.now == s'.now
    requires forall j | k <= j < |c.conns(o)| && c.conns(o)[j] < |s.nodes| ::
               s.nodes[c.conns(o)[j]] == s'.nodes[c.conns(o)[j]]
    ensures FreeAnswers(c, s, o, k, replies) == FreeAnswers(c, s', o, k, replies)
    decreases |replies|
  {
    if replies != [] {
      FreeAnswersFrame(c, s, s', o, k + 1, replies[1..]);
    }
  }

  /** One SET NX call of the counting loop. */
  lemma SetStep(c: Config, s: State, o: Owner, reply: Reply)
    requires ValidConfig(c, s.clients.Keys) && |s.nodes| == c.hosts
    requires o in s.clients && s.clients[o].Acquiring? && s.clients[o].next < |c.conns(o)|
    ensures var s', me, i := Step(c, s, TrySet(o, reply)), s.clients[o], c.conns(o)[s.clients[o].next];
            && i < |s.nodes| && s'.clients.Keys == s.clients.Keys && |s'.nodes| == c.hosts && s'.now == s.now
            && s'.clients[o].Acquiring? && s'.clients[o].start == me.start && s'.clients[o].next == me.next + 1
            && s'.clients[o].count == me.count + (if reply.Answered? && !Live(s.nodes[i], s.now) then 1 else 0)
            && forall j | me.next < j < |c.conns(o)| && c.conns(o)[j] < |s.nodes| ::
                 s'.nodes[c.conns(o)[j]] == s.nodes[c.conns(o)[j]]
  {
    assert Enabled(c, s, TrySet(o, reply));
    assert Step(c, s, TrySet(o, reply)).clients.Keys == s.clients.Keys;
  }

  lemma SetsFirst(o: Owner, replies: seq<Reply>)
    requires replies != []
    ensures Sets(o, replies) != [] && Sets(o, replies)[0] == TrySet(o, replies[0])
    ensures Sets(o, replies)[1..] == Sets(o, replies[1..])
  {
  }

  lemma {:induction false} SetsCount(c: Config, s: State, o: Owner, replies: seq<Reply>)
    requires ValidConfig(c, s.clients.Keys) && |s.nodes| == c.hosts
    requires o in s.clients && s.clients[o].Acquiring?
    requires s.clients[o].next + |replies| == |c.conns(o)|
    ensures var s', me := Exec(c, s, Sets(o, replies)), s.clients[o];
            && o in s'.clients && s'.clients[o].Acquiring? && s'.now == s.now
            && s'.clients[o].start == me.start && s'.clients[o].next == |c.conns(o)|
            && s'.clients[o].count == me.count + FreeAnswers(c, s, o, me.next, replies)
    decreases |replies|
  {
    if replies != [] {
      var s1 := Step(c, s, TrySet(o, replies[0]));
      SetStep(c, s, o, replies[0]);
      SetsFirst(o, replies);
      SetsCount(c, s1, o, replies[1..]);
      CountsAdd(c, s, s1, o, replies);
    }
  }

  /** One call counts its server; the calls after it see the other servers as they were. */
  lemma CountsAdd(c: Config, s: State, s1: State, o: Owner, replies: seq<Reply>)
    requires replies != [] && |s.nodes| == |s1.nodes| == c.hosts && s.now == s1.now
    requires o in s.clients && s.clients[o].Acquiring? && o in s1.clients && s1.clients[o].Acquiring?
    requires var k := s.clients[o].next;
             && k < |c.conns(o)| && c.conns(o)[k] < |s.nodes| && s1.clients[o].next == k + 1
             && s1.clients[o].count == s.clients[o].count
                  + (if replies[0].Answered? && !Live(s.nodes[c.conns(o)[k]], s.now) then 1 else 0)
             && forall j | k < j < |c.conns(o)| && c.conns(o)[j] < |s.nodes| ::
                  s1.nodes[c.conns(o)[j]] == s.nodes[c.conns(o)[j]]
    ensures s1.clients[o].count + FreeAnswers(c, s1, o, s1.clients[o].next, replies[1..])
            == s.clients[o].count + FreeAnswers(c, s, o, s.clients[o].next, replies)
  {
    FreeFirst(c, s, o, s.clients[o].next, replies);
    FreeAnswersFrame(c, s1, s, o, s.clients[o].next + 1, replies[1..]);
  }

  lemma FreeFirst(c: Config, s: State, o: Owner, k: nat, replies: seq<Reply>)
    requires replies != [] && k < |c.conns(o)| && c.conns(o)[k] < |s.nodes|
    ensures FreeAnswers(c, s, o, k, replies)
            == (if replies[0].Answered? && !Live(s.nodes[c.conns(o)[k]], s.now) then 1 else 0)
               + FreeAnswers(c, s, o, k + 1, replies[1..])
  {
  }

  /** The servers of `o`'s list that answer and whose key is free. */
  function FreeOnes(c: Config, s: State, o: Owner, k: nat, replies: seq<Reply>): set<nat> {
    set j | k <= j < k + |replies| && j < |c.conns(o)| && c.conns(o)[j] < |s.nodes|
            && replies[j - k].Answered? && !Live(s.nodes[c.conns(o)[j]], s.now) :: c.conns(o)[j]
  }

  lemma {:induction false} FreeAnswersCount(c: Config, s: State, o: Owner, k: nat, replies: seq<Reply>)
    requires forall i | 0 <= i < |c.conns(o)| :: c.conns(o)[i] < |s.nodes|
    requires forall i, j | 0 <= i < j < |c.conns(o)| :: c.conns(o)[i] != c.conns(o)[j]
    ensures FreeAnswers(c, s, o, k, replies) == |FreeOnes(c, s, o, k, replies)|
    decreases |replies|
  {
    if replies != [] && k < |c.conns(o)| {
      FreeAnswersCount(c, s, o, k + 1, replies[1..]);
      FreeOnesFirst(c, s, o, k, replies);
      FreeFirst(c, s, o, k, replies);
    }
  }

  lemma FreeOnesFirst(c: Config, s: State, o: Owner, k: nat, replies: seq<Reply>)
    requires replies != [] && k < |c.conns(o)| && c.conns(o)[k] < |s.nodes|
    requires forall j | k < j < |c.conns(o)| :: c.conns(o)[j] != c.conns(o)[k]
    ensures |FreeOnes(c, s, o, k, replies)|
            == (if replies[0].Answered? && !Live(s.nodes[c.conns(o)[k]], s.now) then 1 else 0)
               + |FreeOnes(c, s, o, k + 1, replies[1..])|
  {
    var x, rest := c.conns(o)[k], FreeOnes(c, s, o, k + 1, replies[1..]);
    assert x !in rest;
    FreeOnesWith(c, s, o, k, replies);
  }

  lemma FreeOnesWith(c: Config, s: State, o: Owner, k: nat, replies: seq<Reply>)
    requires replies != [] && k < |c.conns(o)| && c.conns(o)[k] < |s.nodes|
    ensures FreeOnes(c, s, o, k, replies)
            == (if replies[0].Answered? && !Live(s.nodes[c.conns(o)[k]], s.now) then {c.conns(o)[k]} else {})
               + FreeOnes(c, s, o, k + 1, replies[1..])
  {
  }

  /** Without interleaving, an attempt succeeds exactly when a majority of all
      servers answers with a free key and the attempt took less than the TTL. */
  lemma AttemptSucceedsIff(c: Config, s: State, o: Owner, replies: seq<Reply>, d: nat)
    requires ValidConfig(c, s.clients.Keys) && |s.nodes| == c.hosts
    requires o in s.clients && s.clients[o].Idle? && |replies| == |c.conns(o)|
    ensures var s' := Exec(c, s, [Begin(o)] + Sets(o, replies) + [Tick(d)] + [Decide(o)]);
            && o in s'.clients
            && (s'.clients[o].Holding? <==> 2 * |FreeOnes(c, s, o, 0, replies)| > c.hosts && d < c.ttl(o))
            && (s'.clients[o].Holding? ==> s'.clients[o].start == s.now)
  {
    FreeAnswersCount(c, s, o, 0, replies);
    AttemptDecides(c, s, o, replies, d);
  }

  lemma AttemptDecides(c: Config, s: State, o: Owner, replies: seq<Reply>, d: nat)
    requires ValidConfig(c, s.clients.Keys) && |s.nodes| == c.hosts
    requires o in s.clients && s.clients[o].Idle? && |replies| == |c.conns(o)|
    ensures var s' := Exec(c, s, [Begin(o)] + Sets(o, replies) + [Tick(d)] + [Decide(o)]);
            && o in s'.clients
            && (s'.clients[o].Holding? <==> FreeAnswers(c, s, o, 0, replies) >= Quorum(c) && d < c.ttl(o))
            && (s'.clients[o].Holding? ==> s'.clients[o].start == s.now)
  {
    var acts := [Begin(o)] + Sets(o, replies);
    var s1 := Step(c, s, Begin(o));
    ExecStep(c, s, acts + [Tick(d)], Decide(o));
    ExecStep(c, s, acts, Tick(d));
    assert acts[1..] == Sets(o, replies);
    SetsCount(c, s1, o, replies);
    FreeAnswersFrame(c, s1, s, o, 0, replies);
  }

  /** The servers before position `k` of `o`'s list no longer serve `o`'s value. */
  predicate Cleared(c: Config, s: State, o: Owner, k: nat) {
    forall j | 0 <= j < k && j < |c.conns(o)| ::
      c.conns(o)[j] < |s.nodes| && !LiveFor(s.nodes[c.conns(o)[j]], o, s.now)
  }

  /** During `o`'s sweep `o` only sends release calls, none of which gets lost, and none of
      its given-up SET NX calls arrives. */
  predicate SweepOnly(o: Owner, a: Action) {
    if a.Arrive? then a.cmd.DelCmd? || a.cmd.owner != o
    else a.Tick? || a.o != o || (a.TryRelease? && !a.reply.FailedLost?)
  }

  lemma SweepStep(c: Config, s: State, o: Owner, a: Action)
    requires |s.nodes| == c.hosts && ValidConfig(c, s.clients.Keys) && SweepOnly(o, a)
    requires o in s.clients && s.clients[o].Releasing? && Cleared(c, s, o, s.clients[o].next)
    ensures var s' := Step(c, s, a);
            && o in s'.clients && s'.clients[o].Releasing? && Cleared(c, s', o, s'.clients[o].next)
  {
    if a.Arrive? {
      SweepArrival(c, s, o, a.cmd);
    }
  }

  lemma SweepArrival(c: Config, s: State, o: Owner, cmd: Command)
    requires |s.nodes| == c.hosts && o in s.clients && s.clients[o].Releasing?
    requires Cleared(c, s, o, s.clients[o].next) && SweepOnly(o, Arrive(cmd))
    ensures Step(c, s, Arrive(cmd)).clients == s.clients
    ensures Cleared(c, Step(c, s, Arrive(cmd)), o, s.clients[o].next)
  {
  }

  lemma StepFrame(c: Config, s: State, a: Action)
    ensures Step(c, s, a).clients.Keys == s.clients.Keys && |Step(c, s, a).nodes| == |s.nodes|
  {
  }

  /** When a sweep ends, none of the instance's servers serves its value any more,
      whatever the other clients did meanwhile. */
  lemma {:induction false} ReleaseClears(c: Config, s: State, o: Owner, acts: seq<Action>)
    requires |s.nodes| == c.hosts && ValidConfig(c, s.clients.Keys)
    requires o in s.clients && s.clients[o].Releasing? && Cleared(c, s, o, s.clients[o].next)
    requires forall a <- acts :: SweepOnly(o, a)
    ensures var s' := Exec(c, s, acts);
            o in s'.clients && s'.clients[o].Releasing? && Cleared(c, s', o, s'.clients[o].next)
    decreases |acts|
  {
    if acts != [] {
      SweepStep(c, s, o, acts[0]);
      StepFrame(c, s, acts[0]);
      ReleaseClears(c, Step(c, s, acts[0]), o, acts[1..]);
    }
  }

  /** A release, or an attempt that failed, that goes through all its calls leaves no
      connected server that serves the value. */
  lemma SweepFreesAll(c: Config, s: State, o: Owner, first: Action, acts: seq<Action>)
    requires |s.nodes| == c.hosts && ValidConfig(c, s.clients.Keys)
    requires first in {BeginRelease(o), Decide(o)} && Enabled(c, s, first)
    requires !Step(c, s, first).clients[o].Holding? && (forall a <- acts :: SweepOnly(o, a))
    requires Enabled(c, Exec(c, s, [first] + acts), Finish(o))
    ensures var s' := Exec(c, s, [first] + acts);
            forall i | 0 <= i < |c.conns(o)| ::
              c.conns(o)[i] < |s'.nodes| && !LiveFor(s'.nodes[c.conns(o)[i]], o, s'.now)
  {
    assert ([first] + acts)[1..] == acts;
    ReleaseClears(c, Step(c, s, first), o, acts);
  }
}
