/** After-sale requests: one lock per order detail around "check for an open request,
    then insert one". Every command to the lock server or the database is one atomic step;
    any number of submissions, watchdogs and staff interleave. */
module PostsaleMachine {
  import opened RedisLock
  import opened RedisReply

  type Detail = string

  /** An after-sale row; open as long as `complete_time` is null. */
  datatype Row = Row(detail: Detail, owner: Owner, open: bool)

  datatype Outcome = Submitted | Duplicate | Failed | Conflict

  /** Where a submission stands. */
  datatype Pc =
    | Trying(attempt: nat)
    | Holding
    | Ready
    | Leaving(outcome: Outcome)
    | Done(outcome: Outcome)

  datatype Client = Client(detail: Detail, pc: Pc)

  datatype Config = Config(ttl: nat, retryTimes: nat)

  datatype State = State(locks: map<Detail, Slot>, clients: map<Owner, Client>, rows: seq<Row>, now: int)

  datatype Action =
    | Tick(d: nat)
    | TryAcquire(o: Owner, reply: Reply)
    | Query(o: Owner)
    | Fail(o: Owner)
    | Commit(o: Owner, reply: Reply)
    | Release(o: Owner, reply: Reply)
    | Renew(o: Owner, reply: Reply)
    | Complete(row: nat)

  predicate HasOpen(rows: seq<Row>, d: Detail) {
    exists i :: 0 <= i < |rows| && rows[i].detail == d && rows[i].open
  }

  predicate Known(s: State, o: Owner) {
    o in s.clients && s.clients[o].detail in s.locks
  }

  predicate Enabled(c: Config, s: State, a: Action) {
    match a
    case Tick(_) => true
    case TryAcquire(o, _) => Known(s, o) && s.clients[o].pc.Trying? && s.clients[o].pc.attempt <= c.retryTimes
    case Query(o) => Known(s, o) && s.clients[o].pc.Holding?
    case Fail(o) => Known(s, o) && (s.clients[o].pc.Holding? || s.clients[o].pc.Ready?)
    case Commit(o, _) => Known(s, o) && s.clients[o].pc.Ready?
    case Release(o, _) => Known(s, o) && s.clients[o].pc.Leaving?
    case Renew(o, _) => Known(s, o)
    case Complete(row) => row < |s.rows|
  }

  function SetPc(s: State, o: Owner, pc: Pc): State
    requires o in s.clients
  {
    s.(clients := s.clients[o := s.clients[o].(pc := pc)])
  }

  function SetLock(s: State, d: Detail, slot: Slot): State {
    s.(locks := s.locks[d := slot])
  }

  function Step(c: Config, s: State, a: Action): State {
    if !Enabled(c, s, a) then s else
    match a
    case Tick(d) => s.(now := s.now + d)
    case TryAcquire(o, reply) =>
      var d, n := s.clients[o].detail, s.clients[o].pc.attempt;
      var won := reply.Answered? && !Live(s.locks[d], s.now);
      var s1 := if reply.FailedLost? then s else SetLock(s, d, SetNx(s.locks[d], o, c.ttl, s.now));
      SetPc(s1, o, if won then Holding else if n < c.retryTimes then Trying(n + 1) else Done(Conflict))
    case Query(o) =>
      SetPc(s, o, if HasOpen(s.rows, s.clients[o].detail) then Leaving(Duplicate) else Ready)
    case Fail(o) => SetPc(s, o, Leaving(Failed))
    case Commit(o, reply) =>
      var s1 := if reply.FailedLost? then s else s.(rows := s.rows + [Row(s.clients[o].detail, o, true)]);
      SetPc(s1, o, if reply.Answered? then Leaving(Submitted) else Leaving(Failed))
    case Release(o, reply) =>
      var d := s.clients[o].detail;
      var s1 := if reply.FailedLost? then s else SetLock(s, d, CompareAndDelete(s.locks[d], o, s.now));
      SetPc(s1, o, Done(s.clients[o].pc.outcome))
    case Renew(o, reply) =>
      var d := s.clients[o].detail;
      if reply.FailedLost? then s else SetLock(s, d, CompareAndExpire(s.locks[d], o, c.ttl, s.now))
    case Complete(row) => s.(rows := s.rows[row := s.rows[row].(open := false)])
  }

  function Exec(c: Config, s: State, acts: seq<Action>): State
    decreases |acts|
  {
    if acts == [] then s else Exec(c, Step(c, s, acts[0]), acts[1..])
  }

  lemma {:induction false} ExecAppend(c: Config, s: State, a: seq<Action>, b: seq<Action>)
    ensures Exec(c, s, a + b) == Exec(c, Exec(c, s, a), b)
    ensures |b| == 1 ==> Exec(c, s, a + b) == Step(c, Exec(c, s, a), b[0])
    decreases |a|
  {
    if a == [] {
      assert a + b == b;
      if |b| == 1 {
        assert b[1..] == [];
      }
    } else {
      assert (a + b)[1..] == a[1..] + b;
      ExecAppend(c, Step(c, s, a[0]), a[1..], b);
    }
  }

  /** Does `o` own a live lease on its order detail right now? */
  predicate InLease(s: State, o: Owner) {
    Known(s, o) && LiveFor(s.locks[s.clients[o].detail], o, s.now)
  }

  /** Every critical section of the run ends inside its live lease. */
  predicate OnTime(c: Config, s: State, acts: seq<Action>)
    decreases |acts|
  {
    acts == [] ||
    ((acts[0].Commit? && Enabled(c, s, acts[0]) ==> InLease(s, acts[0].o))
     && OnTime(c, Step(c, s, acts[0]), acts[1..]))
  }

  predicate AtMostOneOpen(rows: seq<Row>) {
    forall i, j | 0 <= i < j < |rows| && rows[i].open && rows[j].open :: rows[i].detail != rows[j].detail
  }

  predicate Init(s: State) {
    && AtMostOneOpen(s.rows)
    && (forall o <- s.clients :: s.clients[o].detail in s.locks && s.clients[o].pc == Trying(0))
  }

  // ---------- Invariant ----------

  /** A submission that found nothing and still owns its lease is still right. */
  predicate ReadyOk(s: State, o: Owner)
    requires o in s.clients
  {
    s.clients[o].pc.Ready? && InLease(s, o) ==> !HasOpen(s.rows, s.clients[o].detail)
  }

  predicate Inv(s: State) {
    && AtMostOneOpen(s.rows)
    && (forall o <- s.clients :: s.clients[o].detail in s.locks)
    && (forall o <- s.clients :: ReadyOk(s, o))
  }

  /** A lease a Ready submission owns after a step it owned before the step. */
  lemma LeaseOnlyShrinks(c: Config, s: State, a: Action, o: Owner)
    requires o in s.clients && s.clients[o].detail in s.locks
    requires o in Step(c, s, a).clients && Step(c, s, a).clients[o].pc.Ready? && InLease(Step(c, s, a), o)
    ensures InLease(s, o)
  {
  }

  lemma OpenOnlyByCommit(c: Config, s: State, a: Action, d: Detail)
    requires HasOpen(Step(c, s, a).rows, d) && !(Enabled(c, s, a) && a.Commit? && s.clients[a.o].detail == d)
    ensures HasOpen(s.rows, d)
  {
    var rows := Step(c, s, a).rows;
    var i :| 0 <= i < |rows| && rows[i].detail == d && rows[i].open;
    assert i < |s.rows| && s.rows[i].detail == d && s.rows[i].open;
  }

  lemma StepKeepsInv(c: Config, s: State, a: Action)
    requires Inv(s) && (a.Commit? && Enabled(c, s, a) ==> InLease(s, a.o))
    ensures Inv(Step(c, s, a)) && Step(c, s, a).clients.Keys == s.clients.Keys
  {
    var s' := Step(c, s, a);
    assert s'.clients.Keys == s.clients.Keys;
    forall o <- s'.clients ensures ReadyOk(s', o) {
      assert ReadyOk(s, o);
      if s'.clients[o].pc.Ready? && InLease(s', o) && HasOpen(s'.rows, s'.clients[o].detail) {
        LeaseOnlyShrinks(c, s, a, o);
        OpenOnlyByCommit(c, s, a, s.clients[o].detail);
      }
    }
    StepKeepsOneOpen(c, s, a);
  }

  lemma StepKeepsOneOpen(c: Config, s: State, a: Action)
    requires Inv(s) && (a.Commit? && Enabled(c, s, a) ==> InLease(s, a.o))
    ensures AtMostOneOpen(Step(c, s, a).rows)
  {
    if Enabled(c, s, a) && a.Commit? {
      assert ReadyOk(s, a.o);
    }
  }

  lemma {:induction false} ExecKeepsInv(c: Config, s: State, acts: seq<Action>)
    requires Inv(s) && OnTime(c, s, acts)
    ensures Inv(Exec(c, s, acts))
    decreases |acts|
  {
    if acts != [] {
      StepKeepsInv(c, s, acts[0]);
      ExecKeepsInv(c, Step(c, s, acts[0]), acts[1..]);
    }
  }

  /** Main theorem: if every critical section ends inside its lease, no order detail ever
      has two open after-sale rows. */
  lemma NoDuplicates(c: Config, s: State, acts: seq<Action>)
    requires Init(s) && OnTime(c, s, acts)
    ensures AtMostOneOpen(Exec(c, s, acts).rows)
  {
    ExecKeepsInv(c, s, acts);
  }

  /** A submission that meets a free lock and no interference inserts exactly one row when
      there is no open request, none otherwise, and gives the lock back. */
  lemma SubmitAlone(c: Config, s: State, o: Owner)
    requires Known(s, o) && s.clients[o].pc == Trying(0) && !Live(s.locks[s.clients[o].detail], s.now)
    requires c.ttl > 0
    ensures var d := s.clients[o].detail;
            var open := exists i :: 0 <= i < |s.rows| && s.rows[i].detail == d && s.rows[i].open;
            var s' := Exec(c, s, [TryAcquire(o, Answered), Query(o), Commit(o, Answered), Release(o, Answered)]);
            && s'.rows == (if open then s.rows else s.rows + [Row(d, o, true)])
            && s'.locks == s.locks[d := Free]
            && s'.clients == s.clients[o := Client(d, Done(if open then Duplicate else Submitted))]
  {
    var acts := [TryAcquire(o, Answered), Query(o), Commit(o, Answered), Release(o, Answered)];
    var s1 := Step(c, s, acts[0]);
    var s2 := Step(c, s1, acts[1]);
    var s3 := Step(c, s2, acts[2]);
    var s4 := Step(c, s3, acts[3]);
    assert acts[1..] == [acts[1], acts[2], acts[3]] && [acts[1], acts[2], acts[3]][1..] == [acts[2], acts[3]];
    assert [acts[2], acts[3]][1..] == [acts[3]] && [acts[3]][1..] == [];
    assert Exec(c, s3, [acts[3]]) == s4;
    assert Exec(c, s2, [acts[2], acts[3]]) == s4;
    assert Exec(c, s1, [acts[1], acts[2], acts[3]]) == s4;
  }

  // ---------- The lock on its own ----------

  /** At most one submission is inside a live lease of an order detail. */
  lemma OneLeasePerDetail(s: State, o: Owner, p: Owner)
    requires InLease(s, o) && InLease(s, p) && s.clients[o].detail == s.clients[p].detail
    ensures o == p
  {
  }

  /** A stale owner's release or renewal leaves everybody else's lease alone. */
  lemma StaleOwnerHarmless(c: Config, s: State, o: Owner, reply: Reply, d: Detail)
    requires d in s.locks && Live(s.locks[d], s.now) && s.locks[d].owner != o
    ensures Step(c, s, Release(o, reply)).locks[d] == s.locks[d]
    ensures Step(c, s, Renew(o, reply)).locks[d] == s.locks[d]
  {
  }

  /** A release that reaches the server leaves no live lease of the caller behind. */
  lemma ReleaseFreesOwnLease(c: Config, s: State, o: Owner, reply: Reply)
    requires Enabled(c, s, Release(o, reply)) && !reply.FailedLost?
    ensures !InLease(Step(c, s, Release(o, reply)), o)
    ensures InLease(s, o) ==> Step(c, s, Release(o, reply)).locks[s.clients[o].detail] == Free
  {
  }

  // ---------- The watchdog ----------

  function Interval(ttl: nat): nat { if ttl / 3 > 1 then ttl / 3 else 1 }

  /** What happens between two renewals: time passes, others act, `o` neither acquires,
      renews nor releases. */
  predicate Between(o: Owner, a: Action) {
    a.Tick? || a.Complete? || a.o != o || a.Query? || a.Fail? || a.Commit?
  }

  function Elapsed(acts: seq<Action>): nat {
    if acts == [] then 0 else (if acts[0].Tick? then acts[0].d else 0) + Elapsed(acts[1..])
  }

  predicate AllKnown(s: State) {
    forall p <- s.clients :: s.clients[p].detail in s.locks
  }

  /** `o`'s lease has `left` ticks to go; none if it is not live. */
  predicate Left(s: State, o: Owner, left: int) {
    && AllKnown(s) && o in s.clients
    && if left > 0 then InLease(s, o) && s.locks[s.clients[o].detail].until == s.now + left else !InLease(s, o)
  }

  lemma StepBetween(c: Config, s: State, o: Owner, a: Action, left: int)
    requires Left(s, o, left) && Between(o, a)
    ensures Left(Step(c, s, a), o, left - if a.Tick? then a.d else 0)
    ensures Step(c, s, a).clients[o].detail == s.clients[o].detail
  {
    var s' := Step(c, s, a);
    assert AllKnown(s');
  }

  /** Between renewals a lease lives exactly until its time is up, whatever others do, and a
      lease that is gone stays gone. */
  lemma {:induction false} LeaseRunsOut(c: Config, s: State, o: Owner, acts: seq<Action>, left: int)
    requires Left(s, o, left) && forall a <- acts :: Between(o, a)
    ensures Left(Exec(c, s, acts), o, left - Elapsed(acts))
    ensures Exec(c, s, acts).clients[o].detail == s.clients[o].detail
    decreases |acts|
  {
    if acts != [] {
      assert Between(o, acts[0]);
      StepBetween(c, s, o, acts[0], left);
      LeaseRunsOut(c, Step(c, s, acts[0]), o, acts[1..], left - if acts[0].Tick? then acts[0].d else 0);
    }
  }

  /** One round of the watchdog: what happens while it waits, and how its renewal ends. */
  datatype Round = Round(wait: seq<Action>, reply: Reply)

  /** The watchdog stops for good when a renewal is not answered or finds the lease gone. */
  function Watch(c: Config, o: Owner, rounds: seq<Round>, left: int): seq<Action>
    decreases |rounds|
  {
    if rounds == [] then [] else
    var r, rest := rounds[0], rounds[1..];
    var now := left - Elapsed(r.wait);
    r.wait + [Renew(o, r.reply)]
    + if r.reply.Answered? && now > 0 then Watch(c, o, rest, c.ttl) else Waits(rest)
  }

  function Waits(rounds: seq<Round>): seq<Action> {
    if rounds == [] then [] else rounds[0].wait + Waits(rounds[1..])
  }

  function WaitTime(rounds: seq<Round>): nat {
    if rounds == [] then 0 else Elapsed(rounds[0].wait) + WaitTime(rounds[1..])
  }

  /** What a renewal with `left` ticks to go makes of them. */
  function Renewed(c: Config, reply: Reply, left: int): int {
    if left > 0 && !reply.FailedLost? then c.ttl else left
  }

  /** What is left of the lease after these rounds. */
  function LeftAfter(c: Config, rounds: seq<Round>, left: int): int
    decreases |rounds|
  {
    if rounds == [] then left else
    var now := left - Elapsed(rounds[0].wait);
    if rounds[0].reply.Answered? && now > 0 then LeftAfter(c, rounds[1..], c.ttl)
    else Renewed(c, rounds[0].reply, now) - WaitTime(rounds[1..])
  }

  predicate Waiting(o: Owner, rounds: seq<Round>) {
    forall i | 0 <= i < |rounds| :: forall a <- rounds[i].wait :: Between(o, a)
  }

  lemma RenewStep(c: Config, s: State, o: Owner, reply: Reply, left: int)
    requires Left(s, o, left) && c.ttl > 0
    ensures Left(Step(c, s, Renew(o, reply)), o, Renewed(c, reply, left))
  {
    assert AllKnown(Step(c, s, Renew(o, reply)));
  }

  lemma {:induction false} WaitsRunOut(c: Config, s: State, o: Owner, rounds: seq<Round>, left: int)
    requires Left(s, o, left) && Waiting(o, rounds)
    ensures Left(Exec(c, s, Waits(rounds)), o, left - WaitTime(rounds))
    decreases |rounds|
  {
    if rounds != [] {
      LeaseRunsOut(c, s, o, rounds[0].wait, left);
      ExecAppend(c, s, rounds[0].wait, Waits(rounds[1..]));
      WaitsRunOut(c, Exec(c, s, rounds[0].wait), o, rounds[1..], left - Elapsed(rounds[0].wait));
    }
  }

  /** Any number of rounds, others acting all the time, renewals failing or not: the lease is
      live at the end exactly when there is something left of it. */
  lemma {:induction false} WatchKeepsLeaseIff(c: Config, s: State, o: Owner, rounds: seq<Round>, left: int)
    requires Left(s, o, left) && Waiting(o, rounds) && c.ttl > 0
    ensures Left(Exec(c, s, Watch(c, o, rounds, left)), o, LeftAfter(c, rounds, left))
    decreases |rounds|
  {
    if rounds != [] {
      var r, rest := rounds[0], rounds[1..];
      var now := left - Elapsed(r.wait);
      LeaseRunsOut(c, s, o, r.wait, left);
      var s1 := Exec(c, s, r.wait);
      ExecAppend(c, s, r.wait, [Renew(o, r.reply)]);
      RenewStep(c, s1, o, r.reply, now);
      var s2 := Step(c, s1, Renew(o, r.reply));
      var tail := if r.reply.Answered? && now > 0 then Watch(c, o, rest, c.ttl) else Waits(rest);
      ExecAppend(c, s, r.wait + [Renew(o, r.reply)], tail);
      if r.reply.Answered? && now > 0 {
        WatchKeepsLeaseIff(c, s2, o, rest, c.ttl);
      } else {
        WaitsRunOut(c, s2, o, rest, Renewed(c, r.reply, now));
      }
    }
  }

  /** The watchdog's own rhythm, every renewal answered. */
  predicate Regular(c: Config, rounds: seq<Round>) {
    forall i | 0 <= i < |rounds| :: Elapsed(rounds[i].wait) == Interval(c.ttl) && rounds[i].reply.Answered?
  }

  lemma {:induction false} RegularLeft(c: Config, rounds: seq<Round>, left: int)
    requires Regular(c, rounds) && c.ttl >= 1 && rounds != []
    requires left == c.ttl || (c.ttl == 1 && left <= 0)
    ensures LeftAfter(c, rounds, left) > 0 <==> c.ttl >= 2
    decreases |rounds|
  {
    var rest := rounds[1..];
    assert Elapsed(rounds[0].wait) == Interval(c.ttl) && rounds[0].reply.Answered?;
    if c.ttl >= 2 && rest != [] {
      assert forall i | 0 <= i < |rest| :: rest[i] == rounds[i + 1];
      RegularLeft(c, rest, c.ttl);
    }
  }

  /** Renewing every max(ttl // 3, 1) seconds for any number of rounds, others acting all the
      time, keeps the lease if and only if the TTL is at least 2. */
  lemma {:induction false} IntervalInTimeIff(c: Config, s: State, o: Owner, rounds: seq<Round>)
    requires Left(s, o, c.ttl) && c.ttl >= 1 && Waiting(o, rounds) && rounds != []
    requires forall i | 0 <= i < |rounds| ::
               Elapsed(rounds[i].wait) == (if c.ttl >= 6 then c.ttl / 3 else 1) && rounds[i].reply.Answered?
    ensures InLease(Exec(c, s, Watch(c, o, rounds, c.ttl)), o) <==> c.ttl >= 2
  {
    assert Regular(c, rounds);
    WatchKeepsLeaseIff(c, s, o, rounds, c.ttl);
    RegularLeft(c, rounds, c.ttl);
  }

  lemma {:induction false} AnsweredLeft(c: Config, rounds: seq<Round>, left: int)
    requires 0 < left <= c.ttl && (rounds != [] ==> Elapsed(rounds[0].wait) < left)
    requires forall i | 0 <= i < |rounds| :: Elapsed(rounds[i].wait) < c.ttl && rounds[i].reply.Answered?
    ensures LeftAfter(c, rounds, left) > 0
    decreases |rounds|
  {
    if rounds != [] {
      assert forall i | 0 <= i < |rounds[1..]| :: rounds[1..][i] == rounds[i + 1];
      AnsweredLeft(c, rounds[1..], c.ttl);
    }
  }

  /** Answered renewals less than a TTL apart keep the lease for any number of rounds. */
  lemma {:induction false} RenewalsKeepLease(c: Config, s: State, o: Owner, rounds: seq<Round>)
    requires Left(s, o, c.ttl) && c.ttl >= 1 && Waiting(o, rounds)
    requires forall i | 0 <= i < |rounds| :: Elapsed(rounds[i].wait) < c.ttl && rounds[i].reply.Answered?
    ensures InLease(Exec(c, s, Watch(c, o, rounds, c.ttl)), o)
  {
    WatchKeepsLeaseIff(c, s, o, rounds, c.ttl);
    AnsweredLeft(c, rounds, c.ttl);
  }

  lemma {:induction false} RegularWaitTime(c: Config, rounds: seq<Round>)
    requires forall i | 0 <= i < |rounds| :: Elapsed(rounds[i].wait) == Interval(c.ttl)
    ensures WaitTime(rounds) == |rounds| * Interval(c.ttl)
  {
    if rounds != [] {
      assert forall i | 0 <= i < |rounds[1..]| :: rounds[1..][i] == rounds[i + 1];
      RegularWaitTime(c, rounds[1..]);
    }
  }

  /** One lost renewal stops the watchdog: from then on the lease lives exactly as long as the
      rounds since the last answered one fit into the TTL. */
  lemma {:induction false} OneLostRenewal(c: Config, s: State, o: Owner, rounds: seq<Round>)
    requires Left(s, o, c.ttl) && c.ttl >= 2 && Waiting(o, rounds) && rounds != [] && rounds[0].reply.FailedLost?
    requires forall i | 0 <= i < |rounds| :: Elapsed(rounds[i].wait) == Interval(c.ttl)
    ensures InLease(Exec(c, s, Watch(c, o, rounds, c.ttl)), o) <==> |rounds| * Interval(c.ttl) < c.ttl
  {
    WatchKeepsLeaseIff(c, s, o, rounds, c.ttl);
    assert Elapsed(rounds[0].wait) == Interval(c.ttl);
    RegularWaitTime(c, rounds);
  }

  // ---------- Watched submissions are on time ----------

  predicate Critical(pc: Pc) { pc.Holding? || pc.Ready? }

  /** When each owner's lease was last taken or extended. */
  function LastExtended(c: Config, s: State, last: map<Owner, int>, a: Action): map<Owner, int> {
    match a
    case TryAcquire(o, reply) =>
      if Enabled(c, s, a) && reply.Answered? && !Live(s.locks[s.clients[o].detail], s.now) then last[o := s.now]
      else last
    case Renew(o, reply) => if InLease(s, o) && !reply.FailedLost? then last[o := s.now] else last
    case _ => last
  }

  /** No critical section outlives the last extension of its lease by more than `gap`. */
  predicate Watched(c: Config, s: State, last: map<Owner, int>, acts: seq<Action>, gap: nat)
    decreases |acts|
  {
    acts == [] ||
    (&& (acts[0].Tick? ==> forall o <- s.clients | Critical(s.clients[o].pc) && o in last ::
                             s.now + acts[0].d - last[o] <= gap)
     && Watched(c, Step(c, s, acts[0]), LastExtended(c, s, last, acts[0]), acts[1..], gap))
  }

  /** A client in its critical section owns its lock until a TTL after the last extension. */
  predicate LeaseOk(c: Config, s: State, last: map<Owner, int>, o: Owner, gap: nat)
    requires o in s.clients
  {
    Critical(s.clients[o].pc) ==>
      && Known(s, o) && o in last && s.now - last[o] <= gap
      && s.locks[s.clients[o].detail].Taken? && s.locks[s.clients[o].detail].owner == o
      && s.locks[s.clients[o].detail].until >= last[o] + c.ttl
  }

  ghost predicate Guarded(c: Config, s: State, last: map<Owner, int>, gap: nat) {
    AllKnown(s) && forall o <- s.clients :: LeaseOk(c, s, last, o, gap)
  }

  lemma WatchedStepOwn(c: Config, s: State, last: map<Owner, int>, a: Action, o: Owner, gap: nat)
    requires gap < c.ttl && o in s.clients && AllKnown(s) && LeaseOk(c, s, last, o, gap) && !a.Tick? && !a.Complete?
    requires a.o == o
    ensures o in Step(c, s, a).clients && LeaseOk(c, Step(c, s, a), LastExtended(c, s, last, a), o, gap)
  {
  }

  lemma WatchedStepOther(c: Config, s: State, last: map<Owner, int>, a: Action, o: Owner, gap: nat)
    requires gap < c.ttl && o in s.clients && AllKnown(s) && LeaseOk(c, s, last, o, gap)
    requires a.Tick? || a.Complete? || a.o != o
    requires a.Tick? && Critical(s.clients[o].pc) ==> s.now + a.d - last[o] <= gap
    ensures o in Step(c, s, a).clients && LeaseOk(c, Step(c, s, a), LastExtended(c, s, last, a), o, gap)
  {
  }

  lemma WatchedStep(c: Config, s: State, last: map<Owner, int>, acts: seq<Action>, gap: nat)
    requires gap < c.ttl && acts != [] && Watched(c, s, last, acts, gap) && Guarded(c, s, last, gap)
    ensures Guarded(c, Step(c, s, acts[0]), LastExtended(c, s, last, acts[0]), gap)
    ensures acts[0].Commit? && Enabled(c, s, acts[0]) ==> InLease(s, acts[0].o)
  {
    var a := acts[0];
    var s' := Step(c, s, a);
    assert s'.clients.Keys == s.clients.Keys && AllKnown(s');
    forall o <- s'.clients ensures LeaseOk(c, s', LastExtended(c, s, last, a), o, gap) {
      assert LeaseOk(c, s, last, o, gap);
      if a.Tick? || a.Complete? || a.o != o {
        WatchedStepOther(c, s, last, a, o, gap);
      } else {
        WatchedStepOwn(c, s, last, a, o, gap);
      }
    }
    if a.Commit? && Enabled(c, s, a) {
      assert LeaseOk(c, s, last, a.o, gap);
    }
  }

  /** If in every critical section the lease is extended again within a gap below the TTL,
      every commit is on time. */
  lemma {:induction false} WatchedIsOnTime(c: Config, s: State, last: map<Owner, int>, acts: seq<Action>, gap: nat)
    requires gap < c.ttl && Watched(c, s, last, acts, gap) && Guarded(c, s, last, gap)
    ensures OnTime(c, s, acts)
    decreases |acts|
  {
    if acts != [] {
      WatchedStep(c, s, last, acts, gap);
      WatchedIsOnTime(c, Step(c, s, acts[0]), LastExtended(c, s, last, acts[0]), acts[1..], gap);
    }
  }

  /** The lock, the watchdog and the check together: with a TTL of at least 2 and renewals that
      arrive at the watchdog's interval, or late by less than what is left of the TTL, no run
      leaves two open rows for one order detail. */
  lemma WatchedNoDuplicates(c: Config, s: State, acts: seq<Action>, late: nat)
    requires Init(s) && c.ttl >= 2 && Interval(c.ttl) + late < c.ttl
    requires Watched(c, s, map[], acts, Interval(c.ttl) + late)
    ensures AtMostOneOpen(Exec(c, s, acts).rows)
  {
    WatchedIsOnTime(c, s, map[], acts, Interval(c.ttl) + late);
    NoDuplicates(c, s, acts);
  }

  // ---------- The exact condition ----------

  /** Two submissions are about the same order detail. */
  ghost predicate Shared(s: State) {
    exists a, b :: a in s.clients && b in s.clients && a != b && s.clients[a].detail == s.clients[b].detail
  }

  /** Whatever the clock does: who found no open request is right, as nobody else could add one. */
  ghost predicate Alone(s: State) {
    && AtMostOneOpen(s.rows) && !Shared(s)
    && forall o <- s.clients | s.clients[o].pc.Ready? :: !HasOpen(s.rows, s.clients[o].detail)
  }

  lemma SameDetails(c: Config, s: State, a: Action)
    ensures var s' := Step(c, s, a);
            s'.clients.Keys == s.clients.Keys && forall o <- s.clients :: s'.clients[o].detail == s.clients[o].detail
  {
    assert Step(c, s, a).clients.Keys == s.clients.Keys;
  }

  lemma StepAlone(c: Config, s: State, a: Action)
    requires Alone(s)
    ensures Alone(Step(c, s, a))
  {
    var s' := Step(c, s, a);
    SameDetails(c, s, a);
    forall o <- s'.clients | s'.clients[o].pc.Ready? ensures !HasOpen(s'.rows, s'.clients[o].detail) {
      var d := s.clients[o].detail;
      if HasOpen(s'.rows, d) && !(Enabled(c, s, a) && a.Commit? && s.clients[a.o].detail == d) {
        OpenOnlyByCommit(c, s, a, d);
      }
    }
  }

  lemma {:induction false} ExecAlone(c: Config, s: State, acts: seq<Action>)
    requires Alone(s)
    ensures AtMostOneOpen(Exec(c, s, acts).rows)
    decreases |acts|
  {
    if acts != [] {
      StepAlone(c, s, acts[0]);
      ExecAlone(c, Step(c, s, acts[0]), acts[1..]);
    }
  }

  /** Staff completes the first n rows. */
  function Completes(n: nat): seq<Action> {
    if n == 0 then [] else Completes(n - 1) + [Complete(n - 1)]
  }

  lemma {:induction false} Completed(c: Config, s: State, n: nat)
    requires n <= |s.rows|
    ensures var s' := Exec(c, s, Completes(n));
            && s'.clients == s.clients && s'.locks == s.locks && s'.now == s.now && |s'.rows| == |s.rows|
            && forall i | 0 <= i < n :: !s'.rows[i].open
  {
    if n > 0 {
      Completed(c, s, n - 1);
      ExecAppend(c, s, Completes(n - 1), [Complete(n - 1)]);
    }
  }

  lemma {:induction false} OnlyCompletes(n: nat)
    ensures forall a <- Completes(n) :: a.Complete?
  {
    if n > 0 {
      OnlyCompletes(n - 1);
    }
  }

  /** Before anybody has a lease nothing can go wrong. */
  lemma {:induction false} WatchedPrefix(c: Config, s: State, acts: seq<Action>, rest: seq<Action>, gap: nat)
    requires forall a <- acts :: a.Complete? || a.Tick?
    requires Watched(c, Exec(c, s, acts), map[], rest, gap)
    ensures Watched(c, s, map[], acts + rest, gap)
    decreases |acts|
  {
    if acts == [] {
      assert acts + rest == rest;
    } else {
      assert (acts + rest)[1..] == acts[1..] + rest;
      WatchedPrefix(c, Step(c, s, acts[0]), acts[1..], rest, gap);
    }
  }

  /** Without ticks nothing can go wrong either. */
  lemma {:induction false} WatchedNoTicks(c: Config, s: State, last: map<Owner, int>, acts: seq<Action>, gap: nat)
    requires forall a <- acts :: !a.Tick?
    ensures Watched(c, s, last, acts, gap)
    decreases |acts|
  {
    if acts != [] {
      WatchedNoTicks(c, Step(c, s, acts[0]), LastExtended(c, s, last, acts[0]), acts[1..], gap);
    }
  }

  predicate At(s: State, o: Owner, d: Detail, pc: Pc) {
    o in s.clients && s.clients[o] == Client(d, pc) && d in s.locks
  }

  /** Everything is done about `d` and its lock is free. */
  predicate Quiet(s: State, d: Detail) {
    d in s.locks && !Live(s.locks[d], s.now) && !HasOpen(s.rows, d)
  }

  /** One submission takes the lock and finds no open request. */
  lemma GetsReady(c: Config, s: State, o: Owner, p: Owner, d: Detail, pc: Pc)
    requires At(s, o, d, Trying(0)) && Quiet(s, d) && o != p && At(s, p, d, pc)
    ensures var s' := Step(c, Step(c, s, TryAcquire(o, Answered)), Query(o));
            && At(s', o, d, Ready) && At(s', p, d, pc) && s'.rows == s.rows && s'.now == s.now
            && s'.locks[d] == Taken(o, s.now + c.ttl)
  {
    var s1 := Step(c, s, TryAcquire(o, Answered));
    assert At(s1, o, d, Holding) && At(s1, p, d, pc) && s1.rows == s.rows;
  }

  lemma Commits(c: Config, s: State, o: Owner, p: Owner, d: Detail)
    requires At(s, o, d, Ready) && o != p && At(s, p, d, Ready)
    ensures var s' := Step(c, s, Commit(o, Answered)); At(s', p, d, Ready) && s'.rows == s.rows + [Row(d, o, true)]
  {
  }

  /** `a` gets ready and dawdles for a TTL; `b` gets ready too; both commit. */
  function BothCommit(c: Config, a: Owner, b: Owner): seq<Action> {
    [TryAcquire(a, Answered), Query(a), Tick(c.ttl)]
    + [TryAcquire(b, Answered), Query(b), Commit(b, Answered), Commit(a, Answered)]
  }

  lemma TwoOpen(c: Config, s: State, a: Owner, b: Owner, d: Detail)
    requires a != b && At(s, a, d, Trying(0)) && At(s, b, d, Trying(0)) && Quiet(s, d)
    ensures !AtMostOneOpen(Exec(c, s, BothCommit(c, a, b)).rows)
  {
    GetsReady(c, s, a, b, d, Trying(0));
    var s1 := Step(c, Step(c, s, TryAcquire(a, Answered)), Query(a));
    var s2 := Step(c, s1, Tick(c.ttl));
    GetsReady(c, s2, b, a, d, Ready);
    var s3 := Step(c, Step(c, s2, TryAcquire(b, Answered)), Query(b));
    Commits(c, s3, b, a, d);
    var s4 := Step(c, s3, Commit(b, Answered));
    var s5 := Step(c, s4, Commit(a, Answered));
    assert s5.rows == s3.rows + [Row(d, b, true)] + [Row(d, a, true)];
    var n := |s3.rows|;
    assert s5.rows[n] == Row(d, b, true) && s5.rows[n + 1] == Row(d, a, true);
    var second := [TryAcquire(b, Answered), Query(b), Commit(b, Answered), Commit(a, Answered)];
    ThreeSteps(c, s, TryAcquire(a, Answered), Query(a), Tick(c.ttl), second);
    ThreeSteps(c, s2, second[0], second[1], second[2], [second[3]]);
    assert [second[0], second[1], second[2]] + [second[3]] == second;
    assert [second[3]][1..] == [];
    assert Exec(c, s4, [second[3]]) == s5;
  }

  lemma ThreeSteps(c: Config, s: State, x: Action, y: Action, z: Action, rest: seq<Action>)
    ensures Exec(c, s, [x, y, z] + rest) == Exec(c, Step(c, Step(c, Step(c, s, x), y), z), rest)
  {
    var s1, s2 := Step(c, s, x), Step(c, Step(c, s, x), y);
    assert ([x, y, z] + rest)[1..] == [y, z] + rest && ([y, z] + rest)[1..] == [z] + rest;
    assert ([z] + rest)[1..] == rest;
    assert Exec(c, s2, [z] + rest) == Exec(c, Step(c, s2, z), rest);
    assert Exec(c, s1, [y, z] + rest) == Exec(c, s2, [z] + rest);
  }

  /** Such a run may take a TTL in `a`'s critical section, no more. */
  lemma BothCommitWatched(c: Config, s: State, a: Owner, b: Owner, gap: nat)
    requires a in s.clients && s.clients[a].pc == Trying(0) && c.ttl <= gap
    ensures Watched(c, s, map[], BothCommit(c, a, b), gap)
  {
    var acts := BothCommit(c, a, b);
    var s1, last1 := Step(c, s, acts[0]), LastExtended(c, s, map[], acts[0]);
    var s2, last2 := Step(c, s1, acts[1]), LastExtended(c, s1, last1, acts[1]);
    var s3, last3 := Step(c, s2, acts[2]), LastExtended(c, s2, last2, acts[2]);
    assert last2 == last1 && forall o <- last1 :: o == a && last1[o] == s.now;
    assert s2.now == s.now;
    WatchedNoTicks(c, s3, last3, acts[3..], gap);
    assert acts[1..][1..][1..] == acts[3..] && acts[1..][0] == acts[1] && acts[1..][1..][0] == acts[2];
    assert Watched(c, s2, last2, acts[1..][1..], gap);
    assert Watched(c, s1, last1, acts[1..], gap);
  }

  /** How long the lock can still be held. */
  function Remaining(slot: Slot, now: int): nat {
    if slot.Taken? && slot.until > now then slot.until - now else 0
  }

  /** Two submissions about one order detail, from any start: if a critical section may last
      for a TTL without an extension, both can leave an open row. */
  lemma LateCommitDuplicates(c: Config, s: State, a: Owner, b: Owner, gap: nat) returns (acts: seq<Action>)
    requires Init(s) && a in s.clients && b in s.clients && a != b && s.clients[a].detail == s.clients[b].detail
    requires c.ttl <= gap
    ensures Watched(c, s, map[], acts, gap) && !AtMostOneOpen(Exec(c, s, acts).rows)
  {
    var d, done := s.clients[a].detail, Completes(|s.rows|);
    var wait := Tick(Remaining(s.locks[d], s.now));
    Completed(c, s, |s.rows|);
    OnlyCompletes(|s.rows|);
    ExecAppend(c, s, done, [wait]);
    var s1 := Exec(c, s, done + [wait]);
    TwoOpen(c, s1, a, b, d);
    BothCommitWatched(c, s1, a, b, gap);
    WatchedPrefix(c, s, done + [wait], BothCommit(c, a, b), gap);
    acts := done + [wait] + BothCommit(c, a, b);
    ExecAppend(c, s, done + [wait], BothCommit(c, a, b));
  }

  /** The exact condition, from any start: no run in which critical sections go on for at most
      `gap` after the last extension of their lease leaves two open rows for one order detail,
      if and only if `gap` is below the TTL or no two submissions are about the same one. */
  lemma NoDuplicatesIff(c: Config, s: State, gap: nat)
    requires Init(s)
    ensures (forall acts | Watched(c, s, map[], acts, gap) :: AtMostOneOpen(Exec(c, s, acts).rows))
            <==> gap < c.ttl || !Shared(s)
  {
    if gap >= c.ttl && Shared(s) {
      var a, b :| a in s.clients && b in s.clients && a != b && s.clients[a].detail == s.clients[b].detail;
      var acts := LateCommitDuplicates(c, s, a, b, gap);
    } else {
      forall acts | Watched(c, s, map[], acts, gap) ensures AtMostOneOpen(Exec(c, s, acts).rows) {
        if gap < c.ttl {
          WatchedIsOnTime(c, s, map[], acts, gap);
          NoDuplicates(c, s, acts);
        } else {
          ExecAlone(c, s, acts);
        }
      }
    }
  }
}
