/** Exactly when Redlock excludes: an owner value may be used for one attempt, not for two,
    once two instances can win. */
module RedlockReuse {
  import opened RedisLock
  import opened RedisReply
  import opened RedlockMachine

  /** How many attempts `o` begins in a run. */
  function Begins(acts: seq<Action>, o: Owner): nat {
    if acts == [] then 0 else (if acts[0] == Begin(o) then 1 else 0) + Begins(acts[1..], o)
  }

  /** Every owner value is used for at most k attempts. */
  ghost predicate AtMost(acts: seq<Action>, k: nat) {
    forall o :: Begins(acts, o) <= k
  }

  /** Nobody shares the lock at the end of this run. */
  ghost predicate Excludes(c: Config, s0: State, acts: seq<Action>) {
    forall o, p | Holds(c, Exec(c, s0, acts), o) && Holds(c, Exec(c, s0, acts), p) :: o == p
  }

  /** An instance that is connected to a majority and asks for a positive TTL. */
  predicate CanWin(c: Config, o: Owner) {
    2 * |c.conns(o)| > c.hosts && c.ttl(o) > 0
  }

  ghost predicate TwoCanWin(c: Config, s0: State) {
    exists o, p :: o in s0.clients && p in s0.clients && o != p && CanWin(c, o) && CanWin(c, p)
  }

  // ---------- One attempt per owner value excludes ----------

  lemma {:induction false} OnceIsNoReuse(acts: seq<Action>, begun: set<Owner>)
    requires forall o :: Begins(acts, o) <= if o in begun then 0 else 1
    ensures NoReuse(acts, begun)
  {
    if acts != [] {
      var begun' := if acts[0].Begin? then begun + {acts[0].o} else begun;
      forall o ensures Begins(acts[1..], o) <= if o in begun' then 0 else 1 {
        assert Begins(acts, o) <= if o in begun then 0 else 1;
      }
      if acts[0].Begin? {
        assert Begins(acts, acts[0].o) <= if acts[0].o in begun then 0 else 1;
      }
      OnceIsNoReuse(acts[1..], begun');
    }
  }

  // ---------- Only who can win holds ----------

  /** What every run keeps, however late calls arrive. */
  predicate CountsOk(c: Config, s: State, o: Owner)
    requires o in s.clients
  {
    match s.clients[o]
    case Acquiring(start, next, count, _) => start <= s.now && count <= next <= |c.conns(o)|
    case Holding(start, _) => start <= s.now && |c.conns(o)| >= Quorum(c)
    case _ => true
  }

  lemma StepCounts(c: Config, s: State, a: Action, o: Owner)
    requires o in s.clients && CountsOk(c, s, o)
    ensures o in Step(c, s, a).clients && CountsOk(c, Step(c, s, a), o)
  {
    if Enabled(c, s, a) && By(a, o) {
      assert Step(c, s, a).now == s.now;
    }
  }

  lemma {:induction false} HoldersCanWin(c: Config, s: State, acts: seq<Action>, o: Owner)
    requires o in s.clients && CountsOk(c, s, o) && Holds(c, Exec(c, s, acts), o)
    ensures CanWin(c, o)
    decreases |acts|
  {
    if acts != [] {
      StepCounts(c, s, acts[0], o);
      HoldersCanWin(c, Step(c, s, acts[0]), acts[1..], o);
    }
  }

  lemma {:induction false} SameClients(c: Config, s: State, acts: seq<Action>)
    ensures Exec(c, s, acts).clients.Keys == s.clients.Keys
    decreases |acts|
  {
    if acts != [] {
      StepFrame(c, s, acts[0]);
      SameClients(c, Step(c, s, acts[0]), acts[1..]);
    }
  }

  // ---------- Two attempts do not ----------

  function Repeat(a: Action, n: nat): seq<Action> {
    if n == 0 then [] else [a] + Repeat(a, n - 1)
  }

  lemma RepeatRuns(c: Config, s: State, a: Action, n: nat)
    requires n > 0
    ensures Exec(c, s, Repeat(a, n)) == Exec(c, Step(c, s, a), Repeat(a, n - 1))
  {
    assert Repeat(a, n)[0] == a && Repeat(a, n)[1..] == Repeat(a, n - 1);
  }

  /** What one step of a loop hands on to the next, n steps hand on. */
  lemma {:induction false} Iterate(c: Config, s: State, a: Action, n: nat, kept: (State, nat) -> bool, k: nat)
    requires kept(s, k) && forall s1, j: nat | k <= j < k + n && kept(s1, j) :: kept(Step(c, s1, a), j + 1)
    ensures kept(Exec(c, s, Repeat(a, n)), k + n)
    decreases n
  {
    if n > 0 {
      RepeatRuns(c, s, a, n);
      Iterate(c, Step(c, s, a), a, n - 1, kept, k + 1);
    }
  }

  /** Every live key is `o`'s, on one of its servers at positions from..to. */
  ghost predicate OnlyOn(c: Config, s: State, o: Owner, from: nat, to: nat) {
    forall i | 0 <= i < |s.nodes| && Live(s.nodes[i], s.now) ::
      s.nodes[i].owner == o && exists j :: from <= j < to && j < |c.conns(o)| && c.conns(o)[j] == i
  }

  /** No server has a live key. */
  predicate AllFree(s: State) {
    forall i | 0 <= i < |s.nodes| :: !Live(s.nodes[i], s.now)
  }

  /** No key outlives that many ticks. */
  function Longest(nodes: seq<Slot>, now: int): (d: nat)
    ensures forall i | 0 <= i < |nodes| && nodes[i].Taken? :: nodes[i].until <= now + d
  {
    if nodes == [] then 0 else
    var last, d := nodes[|nodes| - 1], Longest(nodes[..|nodes| - 1], now);
    if last.Taken? && last.until > now + d then last.until - now else d
  }

  /** The other instances and the clock are where they were. */
  predicate OnlyMoved(s: State, s': State, o: Owner) {
    && s'.clients.Keys == s.clients.Keys && (forall q <- s.clients | q != o :: s'.clients[q] == s.clients[q])
    && s'.now == s.now && |s'.nodes| == |s.nodes|
  }

  predicate Asking(s: State, o: Owner, start: int, next: nat, count: nat) {
    && o in s.clients && s.clients[o].Acquiring?
    && s.clients[o].start == start && s.clients[o].next == next && s.clients[o].count == count
  }

  predicate At(s: State, o: Owner, me: Client) { o in s.clients && s.clients[o] == me }

  /** Since `s0`, `o` has asked its first k servers and none of the calls has arrived. */
  predicate AskedInVain(c: Config, s0: State, s: State, o: Owner, start: int, k: nat) {
    OnlyMoved(s0, s, o) && s.nodes == s0.nodes && k <= |c.conns(o)| && Asking(s, o, start, k, 0)
  }

  lemma LostSet(c: Config, s0: State, s: State, o: Owner, start: int, k: nat)
    requires ValidConfig(c, s0.clients.Keys) && |s0.nodes| == c.hosts
    requires AskedInVain(c, s0, s, o, start, k) && k < |c.conns(o)|
    ensures var s' := Step(c, s, TrySet(o, FailedLost));
            AskedInVain(c, s0, s', o, start, k + 1)
  {
  }

  /** A loop in which no SET NX arrives: nothing but the client's position changes. */
  lemma LostSets(c: Config, s0: State, s: State, o: Owner, start: int)
    requires ValidConfig(c, s0.clients.Keys) && |s0.nodes| == c.hosts && AskedInVain(c, s0, s, o, start, 0)
    ensures AskedInVain(c, s0, Exec(c, s, Repeat(TrySet(o, FailedLost), |c.conns(o)|)), o, start, |c.conns(o)|)
  {
    var n, a := |c.conns(o)|, TrySet(o, FailedLost);
    var kept := (s1: State, j: nat) => AskedInVain(c, s0, s1, o, start, j);
    forall s1, j: nat | j < n && kept(s1, j) ensures kept(Step(c, s1, a), j + 1) {
      LostSet(c, s0, s1, o, start, j);
    }
    Iterate(c, s, a, n, kept, 0);
  }

  /** The release calls to positions from..to are still on their way. */
  predicate OnTheWay(c: Config, s: State, o: Owner, from: nat, to: nat) {
    forall j | from <= j < to && j < |c.conns(o)| :: DelCmd(o, c.conns(o)[j]) in s.late
  }

  /** Since `s0`, `o` has sent k releases, all of which are still on their way. */
  predicate ReleasedInVain(c: Config, s0: State, s: State, o: Owner, k: nat) {
    && OnlyMoved(s0, s, o) && s.nodes == s0.nodes && k <= |c.conns(o)|
    && At(s, o, Releasing(k)) && OnTheWay(c, s, o, 0, k)
  }

  lemma LostRelease(c: Config, s0: State, s: State, o: Owner, k: nat)
    requires ValidConfig(c, s0.clients.Keys) && |s0.nodes| == c.hosts
    requires ReleasedInVain(c, s0, s, o, k) && k < |c.conns(o)|
    ensures var s' := Step(c, s, TryRelease(o, FailedLost));
            ReleasedInVain(c, s0, s', o, k + 1)
  {
    assert c.conns(o)[k] < |s.nodes|;
  }

  /** A sweep in which no release arrives. */
  lemma LostReleases(c: Config, s0: State, s: State, o: Owner)
    requires ValidConfig(c, s0.clients.Keys) && |s0.nodes| == c.hosts && ReleasedInVain(c, s0, s, o, 0)
    ensures ReleasedInVain(c, s0, Exec(c, s, Repeat(TryRelease(o, FailedLost), |c.conns(o)|)), o, |c.conns(o)|)
  {
    var n, a := |c.conns(o)|, TryRelease(o, FailedLost);
    var kept := (s1: State, j: nat) => ReleasedInVain(c, s0, s1, o, j);
    forall s1, j: nat | j < n && kept(s1, j) ensures kept(Step(c, s1, a), j + 1) {
      LostRelease(c, s0, s1, o, j);
    }
    Iterate(c, s, a, n, kept, 0);
  }

  /** Since `s0`, `o` has asked its first k servers, won all of them, and no other key is live. */
  ghost predicate AskedWell(c: Config, s0: State, s: State, o: Owner, start: int, k: nat) {
    && OnlyMoved(s0, s, o) && s.late == s0.late && k <= |c.conns(o)|
    && Asking(s, o, start, k, k) && OnlyOn(c, s, o, 0, k)
  }

  lemma GoodSet(c: Config, s0: State, s: State, o: Owner, start: int, k: nat)
    requires ValidConfig(c, s0.clients.Keys) && |s0.nodes| == c.hosts
    requires AskedWell(c, s0, s, o, start, k) && k < |c.conns(o)|
    ensures var s' := Step(c, s, TrySet(o, Answered));
            AskedWell(c, s0, s', o, start, k + 1)
  {
    var s' := Step(c, s, TrySet(o, Answered));
    var x := c.conns(o)[k];
    assert x < |s.nodes|;
    assert forall j | 0 <= j < k :: c.conns(o)[j] != x;
    forall i | 0 <= i < |s'.nodes| && Live(s'.nodes[i], s'.now)
      ensures s'.nodes[i].owner == o && exists j :: 0 <= j < k + 1 && j < |c.conns(o)| && c.conns(o)[j] == i
    {
      if i == x {
        assert c.conns(o)[k] == i;
      } else {
        assert s'.nodes[i] == s.nodes[i];
      }
    }
  }

  /** A loop in which every server answers with a free key. */
  lemma GoodSets(c: Config, s0: State, s: State, o: Owner, start: int)
    requires ValidConfig(c, s0.clients.Keys) && |s0.nodes| == c.hosts && AskedWell(c, s0, s, o, start, 0)
    ensures AskedWell(c, s0, Exec(c, s, Repeat(TrySet(o, Answered), |c.conns(o)|)), o, start, |c.conns(o)|)
  {
    var n, a := |c.conns(o)|, TrySet(o, Answered);
    var kept := (s1: State, j: nat) => AskedWell(c, s0, s1, o, start, j);
    forall s1, j: nat | j < n && kept(s1, j) ensures kept(Step(c, s1, a), j + 1) {
      GoodSet(c, s0, s1, o, start, j);
    }
    Iterate(c, s, a, n, kept, 0);
  }

  /** Time until no key is live. */
  lemma Expires(c: Config, s: State)
    ensures AllFree(Step(c, s, Tick(Longest(s.nodes, s.now))))
  {
  }

  function Deliveries(o: Owner, servers: seq<nat>): seq<Action> {
    if servers == [] then [] else [Arrive(DelCmd(o, servers[0]))] + Deliveries(o, servers[1..])
  }

  /** One late release arrives and frees its server. */
  lemma Delivery(c: Config, s: State, o: Owner, k: nat)
    requires o in s.clients && ValidConfig(c, s.clients.Keys) && |s.nodes| == c.hosts && k < |c.conns(o)|
    requires OnTheWay(c, s, o, k, |c.conns(o)|) && OnlyOn(c, s, o, k, |c.conns(o)|)
    ensures var s' := Step(c, s, Arrive(DelCmd(o, c.conns(o)[k])));
            && s'.clients == s.clients && s'.now == s.now && |s'.nodes| == c.hosts
            && OnTheWay(c, s', o, k + 1, |c.conns(o)|) && OnlyOn(c, s', o, k + 1, |c.conns(o)|)
  {
    var x := c.conns(o)[k];
    assert x < |s.nodes| && DelCmd(o, x) in s.late;
    var s' := Step(c, s, Arrive(DelCmd(o, x)));
    forall i | 0 <= i < |s'.nodes| && Live(s'.nodes[i], s'.now)
      ensures s'.nodes[i].owner == o && exists j :: k + 1 <= j < |c.conns(o)| && c.conns(o)[j] == i
    {
      assert i != x && s'.nodes[i] == s.nodes[i];
      var j :| k <= j < |c.conns(o)| && c.conns(o)[j] == i;
      assert k + 1 <= j;
    }
  }

  lemma {:induction false} AllDeliveries(c: Config, s: State, o: Owner, k: nat)
    requires o in s.clients && ValidConfig(c, s.clients.Keys) && |s.nodes| == c.hosts && k <= |c.conns(o)|
    requires OnTheWay(c, s, o, k, |c.conns(o)|) && OnlyOn(c, s, o, k, |c.conns(o)|)
    ensures var s' := Exec(c, s, Deliveries(o, c.conns(o)[k..]));
            s'.clients == s.clients && s'.now == s.now && |s'.nodes| == c.hosts && AllFree(s')
    decreases |c.conns(o)| - k
  {
    if k < |c.conns(o)| {
      var rest := c.conns(o)[k..];
      assert rest[0] == c.conns(o)[k] && rest[1..] == c.conns(o)[k + 1..];
      Delivery(c, s, o, k);
      AllDeliveries(c, Step(c, s, Arrive(DelCmd(o, rest[0]))), o, k + 1);
    }
  }

  // ---------- The run ----------

  /** An attempt in which every server answers. */
  function Win(c: Config, o: Owner): seq<Action> {
    [Begin(o)] + Repeat(TrySet(o, Answered), |c.conns(o)|) + [Decide(o)]
  }

  /** An attempt in which no call arrives, given up again. */
  function GiveUp(c: Config, o: Owner): seq<Action> {
    [Begin(o)] + Repeat(TrySet(o, FailedLost), |c.conns(o)|) + [Decide(o)]
    + Repeat(TryRelease(o, FailedLost), |c.conns(o)|) + [Finish(o)]
  }

  lemma AttemptRuns(c: Config, s: State, o: Owner, sets: seq<Action>)
    ensures Exec(c, s, [Begin(o)] + sets + [Decide(o)])
            == Step(c, Exec(c, Step(c, s, Begin(o)), sets), Decide(o))
  {
    ExecStep(c, s, [Begin(o)] + sets, Decide(o));
    ExecAppend(c, s, [Begin(o)], sets);
    ExecStep(c, s, [], Begin(o));
    assert [] + [Begin(o)] == [Begin(o)];
  }

  lemma Starts(c: Config, s: State, o: Owner)
    requires At(s, o, Idle)
    ensures var s' := Step(c, s, Begin(o));
            && OnlyMoved(s, s', o) && s'.nodes == s.nodes && s'.late == s.late && Asking(s', o, s.now, 0, 0)
            && (AllFree(s) ==> OnlyOn(c, s', o, 0, 0))
  {
  }

  /** On free servers an instance that can win does, and every live key is its own. */
  lemma Wins(c: Config, s: State, o: Owner)
    requires ValidConfig(c, s.clients.Keys) && |s.nodes| == c.hosts && AllFree(s) && CanWin(c, o)
    requires At(s, o, Idle)
    ensures var s' := Exec(c, s, Win(c, o));
            && OnlyMoved(s, s', o) && s'.late == s.late && Holds(c, s', o)
            && OnlyOn(c, s', o, 0, |c.conns(o)|)
  {
    var s1, sets := Step(c, s, Begin(o)), Repeat(TrySet(o, Answered), |c.conns(o)|);
    AttemptRuns(c, s, o, sets);
    Starts(c, s, o);
    GoodSets(c, s, s1, o, s.now);
    Decides(c, s, Exec(c, s1, sets), o);
  }

  lemma Decides(c: Config, s0: State, s: State, o: Owner)
    requires AskedWell(c, s0, s, o, s0.now, |c.conns(o)|) && CanWin(c, o)
    ensures var s' := Step(c, s, Decide(o));
            OnlyMoved(s0, s', o) && s'.late == s0.late && Holds(c, s', o) && OnlyOn(c, s', o, 0, |c.conns(o)|)
  {
  }

  /** An attempt in which no call arrives fails. */
  lemma Fails(c: Config, s: State, o: Owner)
    requires ValidConfig(c, s.clients.Keys) && |s.nodes| == c.hosts && At(s, o, Idle)
    ensures var s' := Exec(c, s, [Begin(o)] + Repeat(TrySet(o, FailedLost), |c.conns(o)|) + [Decide(o)]);
            ReleasedInVain(c, s, s', o, 0)
  {
    var s1, sets := Step(c, s, Begin(o)), Repeat(TrySet(o, FailedLost), |c.conns(o)|);
    AttemptRuns(c, s, o, sets);
    Starts(c, s, o);
    LostSets(c, s, s1, o, s.now);
    NobodyCounted(c, s, Exec(c, s1, sets), o, s.now);
  }

  lemma NobodyCounted(c: Config, s0: State, s: State, o: Owner, start: int)
    requires AskedInVain(c, s0, s, o, start, |c.conns(o)|)
    ensures ReleasedInVain(c, s0, Step(c, s, Decide(o)), o, 0)
  {
  }

  /** An attempt given up leaves its releases on their way and nothing else. */
  lemma GivesUp(c: Config, s: State, o: Owner)
    requires ValidConfig(c, s.clients.Keys) && |s.nodes| == c.hosts && At(s, o, Idle)
    ensures var s' := Exec(c, s, GiveUp(c, o));
            OnlyMoved(s, s', o) && s'.nodes == s.nodes && At(s', o, Idle) && OnTheWay(c, s', o, 0, |c.conns(o)|)
  {
    var n := |c.conns(o)|;
    var attempt := [Begin(o)] + Repeat(TrySet(o, FailedLost), n) + [Decide(o)];
    var releases := Repeat(TryRelease(o, FailedLost), n);
    ExecStep(c, s, attempt + releases, Finish(o));
    ExecAppend(c, s, attempt, releases);
    Fails(c, s, o);
    var s1 := Exec(c, s, attempt);
    LostReleases(c, s, s1, o);
    Finishes(c, s, Exec(c, s1, releases), o);
  }

  lemma Finishes(c: Config, s0: State, s: State, o: Owner)
    requires ReleasedInVain(c, s0, s, o, |c.conns(o)|)
    ensures var s' := Step(c, s, Finish(o));
            && OnlyMoved(s0, s', o) && s'.nodes == s0.nodes && At(s', o, Idle) && OnTheWay(c, s', o, 0, |c.conns(o)|)
  {
  }

  /** `o` gives up an attempt, wins the next, then its old releases arrive and `p` wins too. */
  function TwoHolders(c: Config, s0: State, o: Owner, p: Owner): seq<Action> {
    [Tick(Longest(s0.nodes, s0.now))] + GiveUp(c, o) + Win(c, o) + Deliveries(o, c.conns(o)) + Win(c, p)
  }

  /** The owner value serves all attempts of an instance, so on every cluster, of any size,
      from every start, two instances that can win come to hold the lock together. */
  lemma LateReleaseBreaks(c: Config, s0: State, o: Owner, p: Owner)
    requires Init(c, s0) && ValidConfig(c, s0.clients.Keys) && o != p
    requires o in s0.clients && p in s0.clients && CanWin(c, o) && CanWin(c, p)
    ensures var s := Exec(c, s0, TwoHolders(c, s0, o, p)); Holds(c, s, o) && Holds(c, s, p)
    ensures AtMost(TwoHolders(c, s0, o, p), 2)
  {
    var tick := [Tick(Longest(s0.nodes, s0.now))];
    ExecAppend(c, s0, tick + GiveUp(c, o) + Win(c, o) + Deliveries(o, c.conns(o)), Win(c, p));
    ExecAppend(c, s0, tick + GiveUp(c, o) + Win(c, o), Deliveries(o, c.conns(o)));
    ExecAppend(c, s0, tick + GiveUp(c, o), Win(c, o));
    ExecAppend(c, s0, tick, GiveUp(c, o));
    ExecStep(c, s0, [], tick[0]);
    assert [] + [tick[0]] == tick;
    var s1 := Step(c, s0, tick[0]);
    Expires(c, s0);
    GivesUp(c, s1, o);
    var s2 := Exec(c, s1, GiveUp(c, o));
    Wins(c, s2, o);
    var s3 := Exec(c, s2, Win(c, o));
    AllDeliveries(c, s3, o, 0);
    assert c.conns(o)[0..] == c.conns(o);
    Wins(c, Exec(c, s3, Deliveries(o, c.conns(o))), p);
    forall x ensures Begins(TwoHolders(c, s0, o, p), x) <= 2 {
      CountBegins(c, s0, o, p, x);
    }
  }

  lemma {:induction false} BeginsAppend(a: seq<Action>, b: seq<Action>, x: Owner)
    ensures Begins(a + b, x) == Begins(a, x) + Begins(b, x)
  {
    if a == [] {
      assert a + b == b;
    } else {
      assert (a + b)[1..] == a[1..] + b;
      BeginsAppend(a[1..], b, x);
    }
  }

  lemma {:induction false} NoBegins(acts: seq<Action>, x: Owner)
    requires forall a <- acts :: !a.Begin?
    ensures Begins(acts, x) == 0
  {
    if acts != [] {
      NoBegins(acts[1..], x);
    }
  }

  lemma RepeatAll(a: Action, n: nat)
    ensures forall b <- Repeat(a, n) :: b == a
  {
  }

  lemma {:induction false} DeliveriesAll(o: Owner, servers: seq<nat>)
    ensures forall b <- Deliveries(o, servers) :: b.Arrive?
  {
    if servers != [] {
      DeliveriesAll(o, servers[1..]);
    }
  }

  /** One attempt begins once. */
  lemma OneBegin(o: Owner, rest: seq<Action>, x: Owner)
    requires forall a <- rest :: !a.Begin?
    ensures Begins([Begin(o)] + rest, x) == if x == o then 1 else 0
  {
    NoBegins(rest, x);
    assert ([Begin(o)] + rest)[1..] == rest;
  }

  lemma CountBegins(c: Config, s0: State, o: Owner, p: Owner, x: Owner)
    requires o != p
    ensures Begins(TwoHolders(c, s0, o, p), x) == if x == o then 2 else if x == p then 1 else 0
  {
    var tick, n := [Tick(Longest(s0.nodes, s0.now))], |c.conns(o)|;
    BeginsAppend(tick + GiveUp(c, o) + Win(c, o) + Deliveries(o, c.conns(o)), Win(c, p), x);
    BeginsAppend(tick + GiveUp(c, o) + Win(c, o), Deliveries(o, c.conns(o)), x);
    BeginsAppend(tick + GiveUp(c, o), Win(c, o), x);
    BeginsAppend(tick, GiveUp(c, o), x);
    NoBegins(tick, x);
    DeliveriesAll(o, c.conns(o));
    NoBegins(Deliveries(o, c.conns(o)), x);
    WinBegins(c, o, x);
    WinBegins(c, p, x);
    GiveUpBegins(c, o, x);
  }

  lemma WinBegins(c: Config, o: Owner, x: Owner)
    ensures Begins(Win(c, o), x) == if x == o then 1 else 0
  {
    var sets := Repeat(TrySet(o, Answered), |c.conns(o)|);
    RepeatAll(TrySet(o, Answered), |c.conns(o)|);
    OneBegin(o, sets + [Decide(o)], x);
    assert [Begin(o)] + (sets + [Decide(o)]) == Win(c, o);
  }

  lemma GiveUpBegins(c: Config, o: Owner, x: Owner)
    ensures Begins(GiveUp(c, o), x) == if x == o then 1 else 0
  {
    var n := |c.conns(o)|;
    var sets, releases := Repeat(TrySet(o, FailedLost), n), Repeat(TryRelease(o, FailedLost), n);
    RepeatAll(TrySet(o, FailedLost), n);
    RepeatAll(TryRelease(o, FailedLost), n);
    OneBegin(o, sets + [Decide(o)] + releases + [Finish(o)], x);
    assert [Begin(o)] + (sets + [Decide(o)] + releases + [Finish(o)]) == GiveUp(c, o);
  }

  // ---------- Main theorem ----------

  /** From every start and for every bound k on the attempts per owner value: no run ends with
      two holders if and only if k is at most 1, or no two instances can win at all. */
  lemma ExcludesIff(c: Config, s0: State, k: nat)
    requires Init(c, s0) && ValidConfig(c, s0.clients.Keys)
    ensures (forall acts | AtMost(acts, k) :: Excludes(c, s0, acts)) <==> k <= 1 || !TwoCanWin(c, s0)
  {
    if k > 1 && TwoCanWin(c, s0) {
      var o, p :| o in s0.clients && p in s0.clients && o != p && CanWin(c, o) && CanWin(c, p);
      LateReleaseBreaks(c, s0, o, p);
      var acts := TwoHolders(c, s0, o, p);
      assert AtMost(acts, k) && !Excludes(c, s0, acts);
    } else {
      forall acts | AtMost(acts, k) ensures Excludes(c, s0, acts) {
        forall o, p | Holds(c, Exec(c, s0, acts), o) && Holds(c, Exec(c, s0, acts), p) ensures o == p {
          if k <= 1 {
            OnceIsNoReuse(acts, {});
            FreshOwnersExclude(c, s0, acts, o, p);
          } else {
            SameClients(c, s0, acts);
            HoldersCanWin(c, s0, acts, o);
            HoldersCanWin(c, s0, acts, p);
          }
        }
      }
    }
  }
}
