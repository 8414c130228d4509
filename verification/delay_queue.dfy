/** The delay queue: a sorted set of task ids by due time, a hash per task, and workers
    that pop batches of due ids and run their handlers. Every command or execution is one
    step; any number of workers interleave, and every command may fail. */
module DelayQueue {
  import opened RedisReply

  type Id = string
  type Worker = string

  /** `second` is the number of clock ticks per second. */
  datatype Config = Config(maxRetry: int, multiplier: int, second: nat)

  datatype Task = Task(kind: string, retryCount: nat, failed: bool)

  /** A call of a handler: when, and when it was due. */
  datatype Run = Run(id: Id, at: int, due: int)

  /** A popped task: by whom, and when it was due. */
  datatype Hold = Hold(worker: Worker, due: int)

  /** The sorted set, the task hashes and the registered handlers; what every worker still has
      to execute of its batch; and the tasks that are done or failed for good. `wanted` is
      when a task was asked to run, `waited` sums the back-off it was given. */
  datatype State = State(
    zset: map<Id, int>, tasks: map<Id, Task>, handlers: set<string>, now: int,
    added: set<Id>, batches: map<Worker, seq<Id>>, flight: map<Id, Hold>, done: set<Id>, failed: set<Id>,
    runs: seq<Run>, wanted: map<Id, int>, waited: map<Id, int>)

  /** How the task's lock answers: `Unreachable` raises. */
  datatype Lock = Acquired | NotAcquired | Unreachable

  /** How the handler ends; an exception is a failure. `Killed` is an exit that "except
      Exception" does not catch. */
  datatype Verdict = Succeeds | Fails | Killed

  /** One execution: the lock, the read of the hash, the handler and its time, the deletion of
      or write to the hash, and the new entry in the sorted set. */
  datatype Execution = Execution(lock: Lock, read: Reply, verdict: Verdict, took: nat, write: Reply, push: Reply)

  datatype Action =
    | Tick(d: nat)
    | Register(kind: string)
    | Add(id: Id, kind: string, executeAt: int, write: Reply, expire: Reply, push: Reply)
    | Pop(w: Worker, ids: seq<Id>, reply: Reply)
    | Execute(w: Worker, e: Execution)
    | Expire(id: Id)

  const BATCH := 20

  predicate Due(z: map<Id, int>, now: int, id: Id) {
    id in z && 0 <= z[id] <= now
  }

  /** ZRANGEBYSCORE 0 now LIMIT 0 n: the earliest due ids, at most n, ties in any order. */
  predicate IsPop(z: map<Id, int>, now: int, n: nat, ids: seq<Id>) {
    && |ids| <= n && (forall i | 0 <= i < |ids| :: Due(z, now, ids[i]))
    && (forall i, j | 0 <= i < j < |ids| :: ids[i] != ids[j] && z[ids[i]] <= z[ids[j]])
    && forall x <- z | Due(z, now, x) && x !in ids ::
         |ids| == n && forall i | 0 <= i < n :: z[ids[i]] <= z[x]
  }

  function Power(m: int, n: nat): int { if n == 0 then 1 else m * Power(m, n - 1) }

  /** Seconds before the k-th retry. */
  function Delay(c: Config, k: nat): int { 60 * Power(c.multiplier, k) }

  function Batch(s: State, w: Worker): seq<Id> { if w in s.batches then s.batches[w] else [] }

  predicate Enabled(s: State, a: Action) {
    match a
    case Tick(_) => true
    case Register(_) => true
    case Add(id, _, _, _, _, _) => id !in s.added && id !in s.tasks
    case Pop(w, ids, _) => Batch(s, w) == [] && IsPop(s.zset, s.now, BATCH, ids)
    case Execute(w, _) => Batch(s, w) != [] && Batch(s, w)[0] in s.flight
    case Expire(_) => true
  }

  function Step(c: Config, s: State, a: Action): State {
    if !Enabled(s, a) then s else
    match a
    case Tick(d) => s.(now := s.now + d)
    case Register(kind) => s.(handlers := s.handlers + {kind})
    case Add(id, kind, at, write, expire, push) =>
      var s1 := if write.FailedLost? then s else s.(tasks := s.tasks[id := Task(kind, 0, false)]);
      if write.Answered? && expire.Answered? && !push.FailedLost? then Entered(s1, id, at) else s1
    case Pop(w, ids, reply) =>
      if reply.FailedLost? then s
      else
        var s1 := s.(zset := s.zset - (set x | x in ids));
        if reply.FailedApplied? then s1
        else s1.(flight := s.flight + (map x | x in ids && x in s.zset :: Hold(w, s.zset[x])),
                 batches := s.batches[w := ids])
    case Execute(w, e) =>
      Settle(Perform(c, s, Batch(s, w)[0], e), w, Batch(s, w)[1..], Raises(c, s, Batch(s, w)[0], e))
    case Expire(id) => s.(tasks := s.tasks - {id})
  }

  /** The task is in the sorted set: from now on it counts as added. */
  function Entered(s: State, id: Id, at: int): State {
    s.(zset := s.zset[id := at], added := s.added + {id}, wanted := s.wanted[id := at], waited := s.waited[id := 0])
  }

  /** The worker goes on with the rest of its batch, unless something raised. */
  function Settle(s: State, w: Worker, rest: seq<Id>, raised: bool): State {
    if raised then s.(flight := s.flight - (set x | x in rest), batches := s.batches[w := []])
    else s.(batches := s.batches[w := rest])
  }

  /** The handler is called. */
  predicate Calls(s: State, id: Id, e: Execution) {
    e.lock.Acquired? && e.read.Answered? && id in s.tasks && s.tasks[id].kind in s.handlers
  }

  predicate Retries(c: Config, s: State, id: Id)
    requires id in s.tasks
  {
    s.tasks[id].retryCount + 1 < c.maxRetry
  }

  /** Something the execution does raises, which ends the worker's loop over its batch. */
  predicate Raises(c: Config, s: State, id: Id, e: Execution) {
    || e.lock.Unreachable?
    || (e.lock.Acquired? && !e.read.Answered?)
    || (Calls(s, id, e) && (e.verdict.Killed? || !e.write.Answered?
                            || (e.verdict.Fails? && Retries(c, s, id) && !e.push.Answered?)))
  }

  function Waited(s: State, id: Id): int { if id in s.waited then s.waited[id] else 0 }

  /** One execution; unless the handler is called the task is simply dropped. */
  function Perform(c: Config, s: State, id: Id, e: Execution): State
    requires id in s.flight
  {
    if Calls(s, id, e) then Handle(c, s, id, e) else s.(flight := s.flight - {id})
  }

  /** The failure is counted in the hash. */
  predicate Counts(c: Config, s: State, id: Id, e: Execution)
    requires id in s.tasks
  {
    e.verdict.Fails? && Retries(c, s, id) && !e.write.FailedLost?
  }

  /** The task is queued again. */
  predicate Requeues(c: Config, s: State, id: Id, e: Execution)
    requires id in s.tasks
  {
    e.verdict.Fails? && Retries(c, s, id) && e.write.Answered? && !e.push.FailedLost?
  }

  /** The task is marked as failed. */
  predicate GivesUp(c: Config, s: State, id: Id, e: Execution)
    requires id in s.tasks
  {
    e.verdict.Fails? && !Retries(c, s, id) && !e.write.FailedLost?
  }

  function TasksAfter(c: Config, s: State, id: Id, e: Execution): map<Id, Task>
    requires id in s.tasks
  {
    var t := s.tasks[id];
    if e.verdict.Succeeds? && !e.write.FailedLost? then s.tasks - {id}
    else if Counts(c, s, id, e) then s.tasks[id := t.(retryCount := t.retryCount + 1)]
    else if GivesUp(c, s, id, e) then s.tasks[id := t.(failed := true)]
    else s.tasks
  }

  /** Run the handler, then clean up, reschedule or give up. */
  function Handle(c: Config, s: State, id: Id, e: Execution): State
    requires id in s.flight && id in s.tasks
  {
    var delay := Delay(c, s.tasks[id].retryCount + 1);
    s.(flight := s.flight - {id}, runs := s.runs + [Run(id, s.now, s.flight[id].due)], now := s.now + e.took,
       tasks := TasksAfter(c, s, id, e),
       done := if e.verdict.Succeeds? then s.done + {id} else s.done,
       failed := if GivesUp(c, s, id, e) then s.failed + {id} else s.failed,
       zset := if Requeues(c, s, id, e) then s.zset[id := s.now + e.took + c.second * delay] else s.zset,
       waited := if Requeues(c, s, id, e) then s.waited[id := Waited(s, id) + delay] else s.waited)
  }

  function Exec(c: Config, s: State, acts: seq<Action>): State
    decreases |acts|
  {
    if acts == [] then s else Exec(c, Step(c, s, acts[0]), acts[1..])
  }

  lemma {:induction false} ExecAppend(c: Config, s: State, acts: seq<Action>, a: Action)
    ensures Exec(c, s, acts + [a]) == Step(c, Exec(c, s, acts), a)
    decreases |acts|
  {
    if acts == [] {
      assert [a][1..] == [];
    } else {
      assert (acts + [a])[1..] == acts[1..] + [a];
      ExecAppend(c, Step(c, s, acts[0]), acts[1..], a);
    }
  }

  function Empty(now: int): State {
    State(map[], map[], {}, now, {}, map[], map[], {}, {}, [], map[], map[])
  }

  // ---------- Invariant ----------

  function One(b: bool): nat { if b then 1 else 0 }

  function Places(s: State, id: Id): nat {
    One(id in s.zset) + One(id in s.flight) + One(id in s.done) + One(id in s.failed)
  }

  /** An added task that is in no place: nobody will ever execute it. */
  predicate Dropped(s: State, id: Id) {
    id in s.added && Places(s, id) == 0
  }

  function RunsOf(runs: seq<Run>, id: Id): nat {
    if runs == [] then 0 else RunsOf(runs[..|runs| - 1], id) + One(runs[|runs| - 1].id == id)
  }

  /** When a task's handler was called last. */
  function LastAt(runs: seq<Run>, id: Id): int {
    if runs == [] then 0
    else if runs[|runs| - 1].id == id then runs[|runs| - 1].at
    else LastAt(runs[..|runs| - 1], id)
  }

  /** Calls of a handler a task can get. */
  function Tries(c: Config): nat { if c.maxRetry > 1 then c.maxRetry else 1 }

  /** Back-off given by the first n retries, in seconds. */
  function Backoff(c: Config, n: nat): int {
    if n == 0 then 0 else Backoff(c, n - 1) + Delay(c, n)
  }

  /** A due time is the one asked for, or at least the back-off after the last call. */
  predicate InTime(c: Config, wanted: map<Id, int>, runs: seq<Run>, id: Id, due: int) {
    var k := RunsOf(runs, id);
    if k == 0 then id in wanted && due == wanted[id]
    else due >= LastAt(runs, id) + c.second * Delay(c, k)
  }

  predicate PlaceOk(s: State, id: Id) {
    && Places(s, id) <= One(id in s.added)
    && (id in s.flight ==>
         s.flight[id].due <= s.now && s.flight[id].worker in s.batches && id in s.batches[s.flight[id].worker])
    && (id in s.tasks ==> s.tasks[id].failed == (id in s.failed))
  }

  predicate RunsOk(c: Config, s: State, id: Id) {
    && RunsOf(s.runs, id) <= Tries(c) && (id !in s.added ==> RunsOf(s.runs, id) == 0)
    && (id in s.failed ==> RunsOf(s.runs, id) == Tries(c) && Waited(s, id) == Backoff(c, Tries(c) - 1))
    && (id in s.tasks ==>
         && s.tasks[id].retryCount < Tries(c)
         && (id in s.zset || id in s.flight ==>
              RunsOf(s.runs, id) == s.tasks[id].retryCount && Waited(s, id) == Backoff(c, s.tasks[id].retryCount)))
  }

  predicate ScoreOk(c: Config, s: State, id: Id) {
    && (id in s.zset ==> InTime(c, s.wanted, s.runs, id, s.zset[id]))
    && (id in s.flight ==> InTime(c, s.wanted, s.runs, id, s.flight[id].due))
    && (id !in s.added ==> id !in s.wanted)
  }

  predicate TaskOk(c: Config, s: State, id: Id) {
    PlaceOk(s, id) && RunsOk(c, s, id) && ScoreOk(c, s, id)
  }

  /** A worker's batch: distinct tasks that it holds. */
  predicate BatchOk(s: State, w: Worker) {
    && (forall i | 0 <= i < |Batch(s, w)| :: Batch(s, w)[i] in s.flight && s.flight[Batch(s, w)[i]].worker == w)
    && (forall i, j | 0 <= i < j < |Batch(s, w)| :: Batch(s, w)[i] != Batch(s, w)[j])
  }

  /** The i-th call was not before its due time, and that was in time. */
  predicate RunOk(c: Config, s: State, i: nat)
    requires i < |s.runs|
  {
    s.runs[i].due <= s.runs[i].at && InTime(c, s.wanted, s.runs[..i], s.runs[i].id, s.runs[i].due)
  }

  ghost predicate Inv(c: Config, s: State) {
    && (forall id :: TaskOk(c, s, id))
    && (forall w :: BatchOk(s, w))
    && (forall i | 0 <= i < |s.runs| :: RunOk(c, s, i))
  }

  // ---------- One step keeps it ----------

  lemma OneMoreRun(runs: seq<Run>, r: Run, x: Id)
    ensures RunsOf(runs + [r], x) == RunsOf(runs, x) + One(r.id == x)
    ensures LastAt(runs + [r], x) == if r.id == x then r.at else LastAt(runs, x)
  {
    assert (runs + [r])[..|runs|] == runs;
  }

  lemma HandledRuns(c: Config, s: State, id: Id, e: Execution)
    requires id in s.flight && id in s.tasks && RunsOk(c, s, id) && id in s.added && id !in s.failed && id !in s.zset
    ensures RunsOk(c, Handle(c, s, id, e), id)
  {
    OneMoreRun(s.runs, Run(id, s.now, s.flight[id].due), id);
  }

  lemma OthersRuns(c: Config, s: State, id: Id, e: Execution, x: Id)
    requires id in s.flight && id in s.tasks && RunsOk(c, s, x) && x != id
    ensures RunsOk(c, Handle(c, s, id, e), x)
  {
    OneMoreRun(s.runs, Run(id, s.now, s.flight[id].due), x);
  }

  lemma HandledScore(c: Config, s: State, id: Id, e: Execution, x: Id)
    requires id in s.flight && id in s.tasks && ScoreOk(c, s, x) && TaskOk(c, s, id)
    ensures ScoreOk(c, Handle(c, s, id, e), x)
  {
    OneMoreRun(s.runs, Run(id, s.now, s.flight[id].due), x);
  }

  lemma PerformKeepsRuns(c: Config, s: State, id: Id, e: Execution, x: Id)
    requires id in s.flight && RunsOk(c, s, x) && TaskOk(c, s, id)
    ensures RunsOk(c, Perform(c, s, id, e), x)
  {
    if Calls(s, id, e) {
      if x == id {
        HandledRuns(c, s, id, e);
      } else {
        OthersRuns(c, s, id, e, x);
      }
    }
  }

  lemma PerformKeepsScore(c: Config, s: State, id: Id, e: Execution, x: Id)
    requires id in s.flight && ScoreOk(c, s, x) && TaskOk(c, s, id)
    ensures ScoreOk(c, Perform(c, s, id, e), x)
  {
    if Calls(s, id, e) {
      HandledScore(c, s, id, e, x);
    }
  }

  /** An execution moves no other task. */
  lemma PerformOthers(c: Config, s: State, id: Id, e: Execution, x: Id)
    requires id in s.flight && x != id
    ensures var s' := Perform(c, s, id, e);
            && (x in s'.zset <==> x in s.zset) && (x in s'.flight <==> x in s.flight)
            && (x in s'.done <==> x in s.done) && (x in s'.failed <==> x in s.failed)
            && (x in s'.tasks <==> x in s.tasks) && (x in s.tasks ==> s'.tasks[x] == s.tasks[x])
  {
    if Calls(s, id, e) {
      TasksOfOthers(c, s, id, e, x);
    }
  }

  lemma TasksOfOthers(c: Config, s: State, id: Id, e: Execution, x: Id)
    requires id in s.tasks && x != id
    ensures var tasks := TasksAfter(c, s, id, e);
            (x in tasks <==> x in s.tasks) && (x in s.tasks ==> tasks[x] == s.tasks[x])
  {
  }

  /** It moves its own task to at most one place. */
  lemma PerformOwn(c: Config, s: State, id: Id, e: Execution)
    requires id in s.flight && PlaceOk(s, id)
    ensures var s' := Perform(c, s, id, e);
            && Places(s', id) <= 1 && (Places(s', id) == 1 <==> Finishes(c, s, id, e))
            && (id in s'.tasks ==> s'.tasks[id].failed == (id in s'.failed))
  {
  }

  lemma PerformPlaces(c: Config, s: State, id: Id, e: Execution, x: Id)
    requires id in s.flight && PlaceOk(s, id) && PlaceOk(s, x)
    ensures var s' := Perform(c, s, id, e);
            && Places(s', x) == (if x == id then One(Finishes(c, s, id, e)) else Places(s, x))
            && (x in s'.tasks ==> s'.tasks[x].failed == (x in s'.failed))
  {
    if x == id {
      PerformOwn(c, s, id, e);
    } else {
      PerformOthers(c, s, id, e, x);
    }
  }

  /** What an execution does not touch. */
  lemma PerformFrame(c: Config, s: State, id: Id, e: Execution)
    requires id in s.flight
    ensures var s' := Perform(c, s, id, e);
            && s'.added == s.added && s'.now >= s.now && s'.flight == s.flight - {id} && s'.batches == s.batches
  {
  }

  lemma SettlePlaces(s: State, w: Worker, rest: seq<Id>, raised: bool, x: Id)
    ensures Places(Settle(s, w, rest, raised), x) == Places(s, x) - One(raised && x in rest && x in s.flight)
  {
  }

  /** The task ends up somewhere: done, failed or queued again. */
  predicate Finishes(c: Config, s: State, id: Id, e: Execution) {
    Calls(s, id, e) &&
    match e.verdict
    case Killed => false
    case Succeeds => true
    case Fails =>
      if Retries(c, s, id) then e.write.Answered? && !e.push.FailedLost? else !e.write.FailedLost?
  }

  lemma ExecuteKeepsPlace(c: Config, s: State, w: Worker, e: Execution, x: Id)
    requires PlaceOk(s, x) && BatchOk(s, w) && Batch(s, w) != [] && PlaceOk(s, Batch(s, w)[0])
    ensures PlaceOk(Step(c, s, Execute(w, e)), x)
  {
    var id, rest := Batch(s, w)[0], Batch(s, w)[1..];
    assert Batch(s, w) == [id] + rest;
    PerformPlaces(c, s, id, e, x);
    PerformFrame(c, s, id, e);
    SettlePlaces(Perform(c, s, id, e), w, rest, Raises(c, s, id, e), x);
    assert Step(c, s, Execute(w, e)) == Settle(Perform(c, s, id, e), w, rest, Raises(c, s, id, e));
  }

  lemma ExecuteKeepsTask(c: Config, s: State, w: Worker, e: Execution, x: Id)
    requires TaskOk(c, s, x) && BatchOk(s, w) && Batch(s, w) != [] && TaskOk(c, s, Batch(s, w)[0])
    ensures TaskOk(c, Step(c, s, Execute(w, e)), x)
  {
    var id, rest := Batch(s, w)[0], Batch(s, w)[1..];
    ExecuteKeepsPlace(c, s, w, e, x);
    PerformKeepsRuns(c, s, id, e, x);
    PerformKeepsScore(c, s, id, e, x);
    SettleKeepsRest(c, Perform(c, s, id, e), w, rest, Raises(c, s, id, e), x);
    assert Step(c, s, Execute(w, e)) == Settle(Perform(c, s, id, e), w, rest, Raises(c, s, id, e));
  }

  lemma SettleKeepsRest(c: Config, s: State, w: Worker, rest: seq<Id>, raised: bool, x: Id)
    requires RunsOk(c, s, x) && ScoreOk(c, s, x)
    ensures RunsOk(c, Settle(s, w, rest, raised), x) && ScoreOk(c, Settle(s, w, rest, raised), x)
  {
  }

  lemma PopKeepsTask(c: Config, s: State, w: Worker, ids: seq<Id>, reply: Reply, x: Id)
    requires TaskOk(c, s, x) && Enabled(s, Pop(w, ids, reply))
    ensures TaskOk(c, Step(c, s, Pop(w, ids, reply)), x)
  {
    var s' := Step(c, s, Pop(w, ids, reply));
    if x in ids {
      var i :| 0 <= i < |ids| && ids[i] == x;
      assert Due(s.zset, s.now, ids[i]);
    }
    PopPlaces(c, s, w, ids, reply, x);
  }

  lemma PopPlaces(c: Config, s: State, w: Worker, ids: seq<Id>, reply: Reply, x: Id)
    requires Enabled(s, Pop(w, ids, reply)) && PlaceOk(s, x) && (x in ids ==> x in s.zset)
    ensures var s' := Step(c, s, Pop(w, ids, reply));
            && (x in s'.zset <==> x in s.zset && (x !in ids || reply.FailedLost?))
            && (x in s'.flight <==> x in s.flight || (x in ids && reply.Answered?))
            && (x in s.flight ==> s'.flight[x] == s.flight[x])
            && (x !in s.flight && x in s'.flight ==> s'.flight[x] == Hold(w, s.zset[x]))
  {
  }

  lemma EnteredKeepsTask(c: Config, s: State, id: Id, at: int, x: Id)
    requires TaskOk(c, s, x) && id !in s.added && (id in s.tasks ==> s.tasks[id] == Task(s.tasks[id].kind, 0, false))
    ensures TaskOk(c, Entered(s, id, at), x)
  {
  }

  lemma NewDataKeepsTask(c: Config, s: State, id: Id, kind: string, x: Id)
    requires TaskOk(c, s, x) && id !in s.added && id !in s.tasks
    ensures TaskOk(c, s.(tasks := s.tasks[id := Task(kind, 0, false)]), x)
  {
  }

  lemma AddKeepsTask(c: Config, s: State, a: Action, x: Id)
    requires TaskOk(c, s, x) && a.Add? && Enabled(s, a)
    ensures TaskOk(c, Step(c, s, a), x)
  {
    var s1 := if a.write.FailedLost? then s else s.(tasks := s.tasks[a.id := Task(a.kind, 0, false)]);
    NewDataKeepsTask(c, s, a.id, a.kind, x);
    EnteredKeepsTask(c, s1, a.id, a.executeAt, x);
    assert Step(c, s, a) == s1 || Step(c, s, a) == Entered(s1, a.id, a.executeAt);
  }

  lemma QuietKeepsTask(c: Config, s: State, a: Action, x: Id)
    requires TaskOk(c, s, x) && (a.Tick? || a.Register? || a.Expire?)
    ensures TaskOk(c, Step(c, s, a), x)
  {
  }

  lemma StepKeepsTask(c: Config, s: State, a: Action, x: Id)
    requires Inv(c, s)
    ensures TaskOk(c, Step(c, s, a), x)
  {
    assert TaskOk(c, s, x);
    match a
    case Pop(w, ids, reply) =>
      if Enabled(s, a) {
        PopKeepsTask(c, s, w, ids, reply, x);
      }
    case Execute(w, e) =>
      if Enabled(s, a) {
        assert BatchOk(s, w) && TaskOk(c, s, Batch(s, w)[0]);
        ExecuteKeepsTask(c, s, w, e, x);
      }
    case Add(_, _, _, _, _, _) =>
      if Enabled(s, a) {
        AddKeepsTask(c, s, a, x);
      }
    case _ => QuietKeepsTask(c, s, a, x);
  }

  lemma StepKeepsBatch(c: Config, s: State, a: Action, w: Worker)
    requires Inv(c, s)
    ensures BatchOk(Step(c, s, a), w)
  {
    assert BatchOk(s, w);
    if Enabled(s, a) && a.Pop? {
      PopKeepsBatch(c, s, a.w, a.ids, a.reply, w);
    } else if Enabled(s, a) && a.Execute? {
      assert BatchOk(s, a.w) && TaskOk(c, s, Batch(s, a.w)[0]);
      ExecuteKeepsBatch(c, s, a.w, a.e, w);
    } else {
      assert Step(c, s, a).flight == s.flight && Step(c, s, a).batches == s.batches;
      assert Batch(Step(c, s, a), w) == Batch(s, w);
    }
  }

  lemma PopKeepsBatch(c: Config, s: State, v: Worker, ids: seq<Id>, reply: Reply, w: Worker)
    requires Inv(c, s) && Enabled(s, Pop(v, ids, reply)) && BatchOk(s, w)
    ensures BatchOk(Step(c, s, Pop(v, ids, reply)), w)
  {
    var s' := Step(c, s, Pop(v, ids, reply));
    var batch := Batch(s', w);
    assert batch == if w == v && reply.Answered? then ids else Batch(s, w);
    forall i | 0 <= i < |batch| ensures batch[i] in s'.flight && s'.flight[batch[i]].worker == w {
      var x := batch[i];
      assert TaskOk(c, s, x);
      if w == v && reply.Answered? {
        assert Due(s.zset, s.now, ids[i]);
      } else {
        assert forall j | 0 <= j < |ids| :: Due(s.zset, s.now, ids[j]);
      }
      PopPlaces(c, s, v, ids, reply, x);
    }
  }

  lemma ExecuteKeepsBatch(c: Config, s: State, v: Worker, e: Execution, w: Worker)
    requires BatchOk(s, v) && BatchOk(s, w) && Batch(s, v) != [] && PlaceOk(s, Batch(s, v)[0])
    ensures BatchOk(Step(c, s, Execute(v, e)), w)
  {
    var s', mine := Step(c, s, Execute(v, e)), Batch(s, v);
    var batch := Batch(s', w);
    PerformFrame(c, s, mine[0], e);
    assert mine == [mine[0]] + mine[1..];
    assert batch == if w != v then Batch(s, w) else if Raises(c, s, mine[0], e) then [] else mine[1..];
    forall i | 0 <= i < |batch| ensures batch[i] in s'.flight && s'.flight[batch[i]].worker == w {
      if w == v {
        assert batch[i] == mine[i + 1] != mine[0];
      } else {
        assert batch[i] in s.flight && s.flight[batch[i]].worker != v;
        assert batch[i] !in mine;
      }
    }
  }

  /** Only an execution that calls a handler adds a call, one at most. */
  lemma StepRuns(c: Config, s: State, a: Action)
    ensures var runs := Step(c, s, a).runs;
            || runs == s.runs
            || (&& a.Execute? && Enabled(s, a)
                && runs == s.runs + [Run(Batch(s, a.w)[0], s.now, s.flight[Batch(s, a.w)[0]].due)])
  {
    if a.Execute? && Enabled(s, a) {
      ExecuteRuns(c, s, a.w, a.e);
    }
  }

  lemma ExecuteRuns(c: Config, s: State, w: Worker, e: Execution)
    requires Enabled(s, Execute(w, e))
    ensures var runs, id := Step(c, s, Execute(w, e)).runs, Batch(s, w)[0];
            runs == s.runs || runs == s.runs + [Run(id, s.now, s.flight[id].due)]
  {
    var id := Batch(s, w)[0];
    PerformRuns(c, s, id, e);
    var s' := Perform(c, s, id, e);
    assert Settle(s', w, Batch(s, w)[1..], Raises(c, s, id, e)).runs == s'.runs;
  }

  lemma PerformRuns(c: Config, s: State, id: Id, e: Execution)
    requires id in s.flight
    ensures var runs := Perform(c, s, id, e).runs;
            runs == s.runs || runs == s.runs + [Run(id, s.now, s.flight[id].due)]
  {
  }

  lemma StepKeepsRuns(c: Config, s: State, a: Action)
    requires Inv(c, s)
    ensures forall i | 0 <= i < |Step(c, s, a).runs| :: RunOk(c, Step(c, s, a), i)
  {
    var s' := Step(c, s, a);
    StepRuns(c, s, a);
    forall i | 0 <= i < |s'.runs| ensures RunOk(c, s', i) {
      if i < |s.runs| {
        OldRunStays(c, s, a, i);
        assert s'.runs[..i] == s.runs[..i] && s'.runs[i] == s.runs[i];
      } else {
        NewRunOk(c, s, a, i);
      }
    }
  }

  lemma NewRunOk(c: Config, s: State, a: Action, i: nat)
    requires Inv(c, s) && i == |s.runs| < |Step(c, s, a).runs|
    ensures RunOk(c, Step(c, s, a), i)
  {
    StepRuns(c, s, a);
    assert TaskOk(c, s, Batch(s, a.w)[0]) && Step(c, s, a).runs[..i] == s.runs;
  }

  /** Adding a task changes no other task's wanted time. */
  lemma OldRunStays(c: Config, s: State, a: Action, i: nat)
    requires Inv(c, s) && i < |s.runs|
    ensures InTime(c, Step(c, s, a).wanted, s.runs[..i], s.runs[i].id, s.runs[i].due)
    ensures s.runs[i].due <= s.runs[i].at
  {
    assert RunOk(c, s, i);
    if a.Add? {
      assert TaskOk(c, s, a.id);
    }
  }

  lemma StepKeepsInv(c: Config, s: State, a: Action)
    requires Inv(c, s)
    ensures Inv(c, Step(c, s, a))
  {
    forall x ensures TaskOk(c, Step(c, s, a), x) {
      StepKeepsTask(c, s, a, x);
    }
    forall w ensures BatchOk(Step(c, s, a), w) {
      StepKeepsBatch(c, s, a, w);
    }
    StepKeepsRuns(c, s, a);
  }

  lemma {:induction false} ExecKeepsInv(c: Config, s: State, acts: seq<Action>)
    requires Inv(c, s)
    ensures Inv(c, Exec(c, s, acts))
    decreases |acts|
  {
    if acts != [] {
      StepKeepsInv(c, s, acts[0]);
      ExecKeepsInv(c, Step(c, s, acts[0]), acts[1..]);
    }
  }

  lemma EmptyInv(c: Config, now: int)
    ensures Inv(c, Empty(now))
  {
    forall id ensures TaskOk(c, Empty(now), id) {
      assert RunsOf([], id) == 0;
    }
  }

  // ---------- Main theorems ----------

  /** Whatever happens and whatever fails, a task is in at most one place, its handler is
      called at most max(1, max_retry) times, exactly that often if it failed for good, and
      never before the time asked for, nor before the k-th back-off after the k-th call. */
  lemma EveryRun(c: Config, now: int, acts: seq<Action>, id: Id)
    ensures var s := Exec(c, Empty(now), acts);
            && Places(s, id) <= One(id in s.added) && RunsOf(s.runs, id) <= Tries(c)
            && (id in s.failed ==> RunsOf(s.runs, id) == Tries(c) && Waited(s, id) == Backoff(c, Tries(c) - 1))
            && forall i | 0 <= i < |s.runs| :: RunOk(c, s, i)
  {
    EmptyInv(c, now);
    ExecKeepsInv(c, Empty(now), acts);
    assert TaskOk(c, Exec(c, Empty(now), acts), id);
  }

  /** This step drops this task: the answer to its pop is lost, its own execution puts it
      nowhere, or an execution before it in its batch raises. */
  predicate Drops(c: Config, s: State, a: Action, id: Id) {
    Enabled(s, a) &&
    match a
    case Pop(_, ids, reply) => reply.FailedApplied? && id in ids
    case Execute(w, e) =>
      || (id == Batch(s, w)[0] && !Finishes(c, s, id, e))
      || (id in Batch(s, w)[1..] && Raises(c, s, Batch(s, w)[0], e))
    case _ => false
  }

  /** A task is dropped after a step exactly when it was before or the step drops it. */
  lemma DroppedStep(c: Config, s: State, a: Action, id: Id)
    requires Inv(c, s)
    ensures Dropped(Step(c, s, a), id) <==> Dropped(s, id) || Drops(c, s, a, id)
  {
    assert TaskOk(c, s, id);
    if Enabled(s, a) && a.Execute? {
      ExecuteDrops(c, s, a.w, a.e, id);
    } else if Enabled(s, a) && a.Pop? {
      PopDrops(c, s, a.w, a.ids, a.reply, id);
    } else {
      OtherwiseSame(c, s, a, id);
    }
  }

  lemma OtherwiseSame(c: Config, s: State, a: Action, id: Id)
    requires PlaceOk(s, id) && (a.Pop? || a.Execute? ==> !Enabled(s, a))
    ensures Dropped(Step(c, s, a), id) <==> Dropped(s, id)
  {
    if a.Add? && Enabled(s, a) {
      AddDrops(c, s, a, id);
    }
  }

  lemma AddDrops(c: Config, s: State, a: Action, id: Id)
    requires a.Add? && Enabled(s, a)
    ensures Dropped(Step(c, s, a), id) <==> Dropped(s, id)
  {
    var s1 := if a.write.FailedLost? then s else s.(tasks := s.tasks[a.id := Task(a.kind, 0, false)]);
    assert Dropped(s1, id) == Dropped(s, id);
    EnteredDrops(s1, a.id, a.executeAt, id);
  }

  lemma EnteredDrops(s: State, next: Id, at: int, id: Id)
    requires next !in s.added
    ensures Dropped(Entered(s, next, at), id) <==> Dropped(s, id)
  {
  }

  lemma PopDrops(c: Config, s: State, w: Worker, ids: seq<Id>, reply: Reply, id: Id)
    requires Enabled(s, Pop(w, ids, reply)) && PlaceOk(s, id)
    ensures Dropped(Step(c, s, Pop(w, ids, reply)), id) <==> Dropped(s, id) || Drops(c, s, Pop(w, ids, reply), id)
  {
    if id in ids {
      var i :| 0 <= i < |ids| && ids[i] == id;
      assert Due(s.zset, s.now, ids[i]);
    }
    PopPlaces(c, s, w, ids, reply, id);
  }

  lemma ExecuteDrops(c: Config, s: State, w: Worker, e: Execution, id: Id)
    requires Inv(c, s) && Enabled(s, Execute(w, e)) && PlaceOk(s, id)
    ensures Dropped(Step(c, s, Execute(w, e)), id) <==> Dropped(s, id) || Drops(c, s, Execute(w, e), id)
  {
    var head, rest := Batch(s, w)[0], Batch(s, w)[1..];
    assert BatchOk(s, w) && TaskOk(c, s, head);
    PerformPlaces(c, s, head, e, id);
    PerformFrame(c, s, head, e);
    SettlePlaces(Perform(c, s, head, e), w, rest, Raises(c, s, head, e), id);
    assert Step(c, s, Execute(w, e)) == Settle(Perform(c, s, head, e), w, rest, Raises(c, s, head, e));
    if id in rest {
      var i :| 0 <= i < |rest| && rest[i] == id;
      assert Batch(s, w)[i + 1] == id;
    }
  }

  /** Nothing an action drops. */
  ghost predicate Clean(c: Config, s: State, a: Action) {
    forall id :: !Drops(c, s, a, id)
  }

  ghost predicate AllClean(c: Config, s: State, acts: seq<Action>)
    decreases |acts|
  {
    acts == [] || (Clean(c, s, acts[0]) && AllClean(c, Step(c, s, acts[0]), acts[1..]))
  }

  ghost predicate NoneDropped(s: State) {
    forall id :: !Dropped(s, id)
  }

  /** A dropped task stays dropped. */
  lemma {:induction false} StaysDropped(c: Config, s: State, acts: seq<Action>, id: Id)
    requires Inv(c, s) && Dropped(s, id)
    ensures Dropped(Exec(c, s, acts), id)
    decreases |acts|
  {
    if acts != [] {
      DroppedStep(c, s, acts[0], id);
      StepKeepsInv(c, s, acts[0]);
      StaysDropped(c, Step(c, s, acts[0]), acts[1..], id);
    }
  }

  /** At the end of a run no added task is missing from queue, batches, done and failed if and
      only if no step of the run dropped one: every pop's answer arrived, every execution
      called its handler and placed its task, and none that raised had a task behind it. */
  lemma {:induction false} NothingDroppedIff(c: Config, s: State, acts: seq<Action>)
    requires Inv(c, s) && NoneDropped(s)
    ensures NoneDropped(Exec(c, s, acts)) <==> AllClean(c, s, acts)
    decreases |acts|
  {
    if acts != [] {
      var s1 := Step(c, s, acts[0]);
      StepKeepsInv(c, s, acts[0]);
      forall id ensures Dropped(s1, id) <==> Drops(c, s, acts[0], id) {
        DroppedStep(c, s, acts[0], id);
      }
      if Clean(c, s, acts[0]) {
        NothingDroppedIff(c, s1, acts[1..]);
      } else {
        var id :| Drops(c, s, acts[0], id);
        StaysDropped(c, s1, acts[1..], id);
      }
    }
  }

  /** From the empty queue: each added task is in exactly one place if and only if the run is
      clean. */
  lemma ExactlyOnePlaceIff(c: Config, now: int, acts: seq<Action>)
    ensures (forall id <- Exec(c, Empty(now), acts).added :: Places(Exec(c, Empty(now), acts), id) == 1)
            <==> AllClean(c, Empty(now), acts)
  {
    var s := Exec(c, Empty(now), acts);
    EmptyInv(c, now);
    ExecKeepsInv(c, Empty(now), acts);
    assert NoneDropped(Empty(now));
    NothingDroppedIff(c, Empty(now), acts);
    forall id ensures Dropped(s, id) <==> id in s.added && Places(s, id) != 1 {
      assert TaskOk(c, s, id);
    }
  }

  // ---------- Runs that drop tasks ----------

  const FINE := Execution(Acquired, Answered, Succeeds, 0, Answered, Answered)

  function Queued(now: int, a: Id, b: Id): State
    requires a != b
  {
    State(map[a := now, b := now], map[a := Task("t", 0, false), b := Task("t", 0, false)], {"t"}, now,
          {a, b}, map[], map[], {}, {}, [], map[a := now, b := now], map[a := 0, b := 0])
  }

  lemma TwoDue(now: int, a: Id, b: Id)
    requires a != b && 0 <= now
    ensures IsPop(Queued(now, a, b).zset, now, BATCH, [a, b])
  {
    var z, ids := Queued(now, a, b).zset, [a, b];
    forall x <- z | Due(z, now, x) ensures x in ids {
      assert x == ids[0] || x == ids[1];
    }
  }

  /** If the answer to a pop is lost, all popped tasks are gone. */
  lemma LostPopDrops(c: Config, now: int, a: Id, b: Id)
    requires a != b && 0 <= now
    ensures var s := Step(c, Queued(now, a, b), Pop("w", [a, b], FailedApplied)); Dropped(s, a) && Dropped(s, b)
  {
    TwoDue(now, a, b);
    assert a in [a, b] && b in [a, b];
  }

  /** If the first handler is killed, so is the task behind it, never tried. */
  lemma KilledHandlerDrops(c: Config, now: int, a: Id, b: Id)
    requires a != b && 0 <= now
    ensures var s := Step(c, Step(c, Queued(now, a, b), Pop("w", [a, b], Answered)),
                          Execute("w", FINE.(verdict := Killed)));
            Dropped(s, a) && Dropped(s, b) && RunsOf(s.runs, b) == 0
  {
    TwoDue(now, a, b);
    assert a in [a, b] && b in [a, b];
    var s1 := Step(c, Queued(now, a, b), Pop("w", [a, b], Answered));
    assert s1.batches["w"] == [a, b] && [a, b][1..] == [b];
    assert s1.flight[a] == Hold("w", now) && b in s1.flight;
    KillLeaves(c, s1, a, b, now);
  }

  lemma KillLeaves(c: Config, s: State, a: Id, b: Id, now: int)
    requires a != b && {a, b} <= s.added && s.runs == [] && a in s.tasks && s.tasks[a].kind in s.handlers
    requires "w" in s.batches && s.batches["w"] == [a, b] && [a, b][1..] == [b]
    requires a in s.flight && b in s.flight && s.flight[a] == Hold("w", now)
    requires {a, b} !! s.done && {a, b} !! s.failed && {a, b} !! s.zset.Keys
    ensures var s' := Step(c, s, Execute("w", FINE.(verdict := Killed)));
            Dropped(s', a) && Dropped(s', b) && RunsOf(s'.runs, b) == 0
  {
    var e := FINE.(verdict := Killed);
    KilledPerform(c, s, a, e);
    var runs := [Run(a, s.now, now)];
    assert runs[..0] == [];
    assert Step(c, s, Execute("w", e)) == Settle(Perform(c, s, a, e), "w", [b], true);
  }

  /** A killed handler has run, and that is all. */
  lemma KilledPerform(c: Config, s: State, id: Id, e: Execution)
    requires id in s.flight && Calls(s, id, e) && e.verdict.Killed?
    ensures Raises(c, s, id, e)
    ensures Perform(c, s, id, e) == s.(flight := s.flight - {id}, now := s.now + e.took,
                                       runs := s.runs + [Run(id, s.now, s.flight[id].due)])
  {
  }

  // ---------- Runs without failures ----------

  /** Handlers for all kinds, locks that are free, data that lives, commands that are answered
      or lost before they arrive, and no killed handler. */
  predicate Smooth(s: State, a: Action) {
    match a
    case Add(_, kind, _, _, _, _) => kind in s.handlers
    case Pop(_, _, reply) => !reply.FailedApplied?
    case Execute(_, e) =>
      e.lock.Acquired? && e.read.Answered? && !e.verdict.Killed? && e.write.Answered? && e.push.Answered?
    case Expire(_) => false
    case _ => true
  }

  predicate AllSmooth(c: Config, s: State, acts: seq<Action>)
    decreases |acts|
  {
    acts == [] || (Smooth(s, acts[0]) && AllSmooth(c, Step(c, s, acts[0]), acts[1..]))
  }

  /** Every task that is not done has its data and a handler. */
  ghost predicate Served(s: State) {
    forall id <- s.added | id !in s.done :: id in s.tasks && s.tasks[id].kind in s.handlers
  }

  lemma SmoothStep(c: Config, s: State, a: Action)
    requires Inv(c, s) && Served(s) && Smooth(s, a)
    ensures Served(Step(c, s, a)) && Clean(c, s, a)
  {
    var s' := Step(c, s, a);
    if Enabled(s, a) && a.Execute? {
      var id := Batch(s, a.w)[0];
      assert TaskOk(c, s, id) && BatchOk(s, a.w);
      assert Calls(s, id, a.e) && Finishes(c, s, id, a.e) && !Raises(c, s, id, a.e);
      SmoothExecution(c, s, a.w, a.e, id);
    } else if Enabled(s, a) && a.Add? {
      SmoothAdd(c, s, a);
    }
  }

  lemma SmoothAdd(c: Config, s: State, a: Action)
    requires Served(s) && Smooth(s, a) && a.Add? && Enabled(s, a)
    ensures Served(Step(c, s, a))
  {
    if !a.write.FailedLost? {
      var s1 := s.(tasks := s.tasks[a.id := Task(a.kind, 0, false)]);
      assert Served(s1);
      EnteredServed(s1, a.id, a.executeAt);
    }
  }

  lemma EnteredServed(s: State, id: Id, at: int)
    requires Served(s) && id in s.tasks && s.tasks[id].kind in s.handlers
    ensures Served(Entered(s, id, at))
  {
  }

  lemma SmoothExecution(c: Config, s: State, w: Worker, e: Execution, id: Id)
    requires Inv(c, s) && Served(s) && Smooth(s, Execute(w, e)) && Batch(s, w) != [] && id == Batch(s, w)[0]
    requires id in s.flight && Calls(s, id, e)
    ensures Served(Step(c, s, Execute(w, e)))
  {
    assert TaskOk(c, s, id);
    var s' := Step(c, s, Execute(w, e));
    forall x <- s'.added | x !in s'.done ensures x in s'.tasks && s'.tasks[x].kind in s'.handlers {
      assert x in s.added && x !in s.done;
    }
  }

  lemma {:induction false} SmoothIsClean(c: Config, s: State, acts: seq<Action>)
    requires Inv(c, s) && Served(s) && AllSmooth(c, s, acts)
    ensures AllClean(c, s, acts)
    decreases |acts|
  {
    if acts != [] {
      StepKeepsInv(c, s, acts[0]);
      SmoothStep(c, s, acts[0]);
      SmoothIsClean(c, Step(c, s, acts[0]), acts[1..]);
    }
  }

  /** In a run without failures every added task is exactly one of queued, in a worker's hands,
      done or failed; a failed one used up its tries and waited the whole back-off. */
  lemma SmoothRun(c: Config, now: int, acts: seq<Action>, id: Id)
    requires AllSmooth(c, Empty(now), acts) && id in Exec(c, Empty(now), acts).added
    ensures var s := Exec(c, Empty(now), acts);
            && Places(s, id) == 1
            && (id in s.failed ==> RunsOf(s.runs, id) == Tries(c) && Waited(s, id) == Backoff(c, Tries(c) - 1))
  {
    EveryRun(c, now, acts, id);
    EmptyInv(c, now);
    SmoothIsClean(c, Empty(now), acts);
    ExactlyOnePlaceIff(c, now, acts);
  }

  /** The back-off as a closed form: (m - 1) times it is 60 (m^(n+1) - m). */
  lemma {:induction false} BackoffClosed(c: Config, n: nat)
    ensures (c.multiplier - 1) * Backoff(c, n) == 60 * (Power(c.multiplier, n + 1) - c.multiplier)
  {
    var m, p := c.multiplier, Power(c.multiplier, n);
    assert Power(m, n + 1) == m * p;
    if n == 0 {
      assert Power(m, 1) == m * 1;
    } else {
      BackoffClosed(c, n - 1);
      var b := Backoff(c, n - 1);
      calc {
        (m - 1) * Backoff(c, n);
        (m - 1) * (b + 60 * p);
        (m - 1) * b + (m - 1) * (60 * p);
        60 * (p - m) + 60 * (m * p - p);
        60 * (m * p - m);
      }
    }
  }

  // ---------- The queue object ----------

  /** When a task is to run: at a given time, or a number of seconds from now. */
  datatype Schedule = At(time: int) | After(seconds: int)

  /** What of a state an execution outside the batch is about. */
  predicate SameData(s: State, s': State) {
    s'.handlers == s.handlers && s'.zset == s.zset && s'.tasks == s.tasks && s'.now == s.now
  }

  lemma SettleParts(s: State, w: Worker, rest: seq<Id>, raised: bool)
    ensures SameData(s, Settle(s, w, rest, raised))
  {
  }

  /** What an execution does to the sorted set, the data and the clock. */
  lemma ExecutionParts(c: Config, s: State, w: Worker, e: Execution)
    requires Enabled(s, Execute(w, e))
    ensures var s', id := Step(c, s, Execute(w, e)), Batch(s, w)[0];
            if Calls(s, id, e) then SameData(Handle(c, s, id, e), s') else SameData(s, s')
  {
    var id := Batch(s, w)[0];
    SettleParts(Perform(c, s, id, e), w, Batch(s, w)[1..], Raises(c, s, id, e));
    PerformParts(c, s, id, e);
  }

  lemma PerformParts(c: Config, s: State, id: Id, e: Execution)
    requires id in s.flight
    ensures if Calls(s, id, e) then Perform(c, s, id, e) == Handle(c, s, id, e) else SameData(s, Perform(c, s, id, e))
  {
  }

  /** What a call of the handler leaves of data and sorted set: after success the data is
      deleted; after failure number n it is due again 60 m^n seconds later as long as n is below
      the limit, and marked as failed otherwise. The first command that is not answered raises. */
  predicate HandledAs(c: Config, id: Id, e: Execution, now: int, tasks: map<Id, Task>, zset: map<Id, int>,
                      now': int, tasks': map<Id, Task>, zset': map<Id, int>, raises: bool)
    requires id in tasks
  {
    && now' == now + e.took
    && match e.verdict
       case Killed => tasks' == tasks && zset' == zset && raises
       case Succeeds =>
         && tasks' == (if e.write.FailedLost? then tasks else map x | x in tasks && x != id :: tasks[x])
         && zset' == zset && raises == !e.write.Answered?
       case Fails =>
         var n := tasks[id].retryCount + 1;
         if n < c.maxRetry then
           && tasks' == (if e.write.FailedLost? then tasks else tasks[id := tasks[id].(retryCount := n)])
           && zset' == (if e.write.Answered? && !e.push.FailedLost?
                        then zset[id := now' + c.second * (60 * Power(c.multiplier, n))] else zset)
           && raises == (!e.write.Answered? || !e.push.Answered?)
         else
           && tasks' == (if e.write.FailedLost? then tasks else tasks[id := tasks[id].(failed := true)])
           && zset' == zset && raises == !e.write.Answered?
  }

  /** Power multiplies. */
  lemma {:induction false} PowersMultiply(m: int, a: nat, b: nat)
    ensures Power(m, 0) == 1 && Power(m, 1) == m && Power(m, a + b) == Power(m, a) * Power(m, b)
    decreases a
  {
    assert Power(m, 1) == m * Power(m, 0);
    if a > 0 {
      PowersMultiply(m, a - 1, b);
      assert Power(m, a + b) == m * Power(m, a - 1 + b);
      assert m * (Power(m, a - 1) * Power(m, b)) == (m * Power(m, a - 1)) * Power(m, b);
    }
  }

  /** One worker's object. The fields are the shared structures; `past` records the rest. */
  class Queue {
    const c: Config
    const me: Worker
    var zset: map<Id, int>
    var tasks: map<Id, Task>
    var handlers: set<string>
    var now: int
    ghost var past: State

    constructor (c: Config, me: Worker, now: int)
      ensures this.c == c && this.me == me && Valid() && Contents() == Empty(now)
    {
      this.c, this.me := c, me;
      zset, tasks, handlers, this.now := map[], map[], {}, now;
      past := Empty(now);
      new;
      EmptyInv(c, now);
    }

    ghost function Contents(): State
      reads this
    {
      past.(zset := zset, tasks := tasks, handlers := handlers, now := now)
    }

    ghost predicate Valid()
      reads this
    {
      Inv(c, Contents())
    }

    /** Returns whether the caller gets the task's id. */
    method AddTask(id: Id, kind: string, schedule: Schedule, write: Reply, expire: Reply, push: Reply)
      returns (ok: bool)
      requires Valid() && id !in Contents().added && id !in tasks
      modifies this
      ensures Valid() && (ok ==> id in Contents().added && id in zset)
      ensures var at := if schedule.At? then schedule.time else old(now) + c.second * schedule.seconds;
              Contents() == Step(c, old(Contents()), Add(id, kind, at, write, expire, push))
      ensures ok <==> write.Answered? && expire.Answered? && push.Answered?
      ensures tasks == if write.FailedLost? then old(tasks) else old(tasks)[id := Task(kind, 0, false)]
      ensures zset == if write.Answered? && expire.Answered? && !push.FailedLost?
                      then old(zset)[id := if schedule.At? then schedule.time
                                           else old(now) + c.second * schedule.seconds]
                      else old(zset)
    {
      var executeAt;
      match schedule {
        case At(time) => executeAt := time;
        case After(seconds) => executeAt := now + c.second * seconds;
      }
      StepKeepsInv(c, Contents(), Add(id, kind, executeAt, write, expire, push));
      past := Step(c, Contents(), Add(id, kind, executeAt, write, expire, push));
      if !write.FailedLost? {
        tasks := tasks[id := Task(kind, 0, false)];
      }
      if !write.Answered? || !expire.Answered? {
        return false;
      }
      if !push.FailedLost? {
        zset := zset[id := executeAt];
      }
      ok := push.Answered?;
    }

    method RegisterHandler(kind: string)
      requires Valid()
      modifies this
      ensures Valid() && Contents() == Step(c, old(Contents()), Register(kind))
    {
      StepKeepsInv(c, Contents(), Register(kind));
      past := Step(c, Contents(), Register(kind));
      handlers := handlers + {kind};
    }

    /** The pop script; `ids` is what it removed unless it was lost. */
    method PopDue(reply: Reply) returns (ids: seq<Id>)
      requires Valid() && Batch(Contents(), me) == []
      modifies this
      ensures Valid() && IsPop(old(zset), old(now), BATCH, ids)
      ensures Contents() == Step(c, old(Contents()), Pop(me, ids, reply))
      ensures |ids| <= 20 && forall i | 0 <= i < |ids| :: ids[i] in old(zset) && 0 <= old(zset)[ids[i]] <= old(now)
      ensures forall i, j | 0 <= i < j < |ids| :: ids[i] != ids[j] && old(zset)[ids[i]] <= old(zset)[ids[j]]
      ensures forall x <- old(zset) | 0 <= old(zset)[x] <= old(now) && x !in ids ::
                |ids| == 20 && forall i | 0 <= i < |ids| :: old(zset)[ids[i]] <= old(zset)[x]
      ensures tasks == old(tasks)
      ensures zset == if reply.FailedLost? then old(zset) else map x | x in old(zset) && x !in ids :: old(zset)[x]
    {
      ids := EarliestDue(zset, now, BATCH);
      StepKeepsInv(c, Contents(), Pop(me, ids, reply));
      past := Step(c, Contents(), Pop(me, ids, reply));
      if !reply.FailedLost? {
        zset := zset - (set x | x in ids);
      }
    }

    /** The next task of the batch, under its lock. */
    method ExecuteTask(id: Id, e: Execution) returns (raises: bool)
      requires Valid() && Batch(Contents(), me) != [] && Batch(Contents(), me)[0] == id
      modifies this
      ensures Valid() && Contents() == Step(c, old(Contents()), Execute(me, e))
      ensures raises <==> Raises(c, old(Contents()), id, e)
      ensures !(e.lock.Acquired? && e.read.Answered? && id in old(tasks) && old(tasks)[id].kind in handlers) ==>
                && tasks == old(tasks) && zset == old(zset) && now == old(now)
                && (raises <==> e.lock.Unreachable? || (e.lock.Acquired? && !e.read.Answered?))
      ensures e.lock.Acquired? && e.read.Answered? && id in old(tasks) && old(tasks)[id].kind in handlers ==>
                HandledAs(c, id, e, old(now), old(tasks), old(zset), now, tasks, zset, raises)
    {
      ghost var s := Contents();
      StepKeepsInv(c, s, Execute(me, e));
      assert BatchOk(s, me);
      ExecutionParts(c, s, me, e);
      raises := RunTask(id, e);
      past := Step(c, s, Execute(me, e));
    }

    /** Lock, data, handler. */
    method RunTask(id: Id, e: Execution) returns (raises: bool)
      requires id in past.flight
      modifies this`tasks, this`zset, this`now
      ensures var s := old(Contents());
              && raises == Raises(c, s, id, e) && past == old(past)
              && SameData(if Calls(s, id, e) then Handle(c, s, id, e) else s, Contents())
    {
      if e.lock.Unreachable? {
        return true;
      }
      if e.lock.NotAcquired? {
        return false;
      }
      if !e.read.Answered? {
        return true;
      }
      if id !in tasks {
        return false;
      }
      var task := tasks[id];
      if task.kind !in handlers {
        return false;
      }
      raises := CallHandler(id, task, e);
    }

    /** Run the handler, then delete the data, or reschedule. */
    method CallHandler(id: Id, task: Task, e: Execution) returns (raises: bool)
      requires id in tasks && task == tasks[id]
      modifies this`tasks, this`zset, this`now
      ensures var s := old(Contents());
              && now == old(now) + e.took && tasks == TasksAfter(c, s, id, e)
              && zset == (if Requeues(c, s, id, e)
                          then old(zset)[id := now + c.second * Delay(c, task.retryCount + 1)] else old(zset))
              && raises == (e.verdict.Killed? || !e.write.Answered?
                            || (e.verdict.Fails? && Retries(c, s, id) && !e.push.Answered?))
    {
      now := now + e.took;
      match e.verdict {
        case Killed =>
          raises := true;
        case Succeeds =>
          if !e.write.FailedLost? {
            tasks := tasks - {id};
          }
          raises := !e.write.Answered?;
        case Fails =>
          raises := Reschedule(id, task, e.write, e.push);
      }
    }

    /** After a failure: count it and queue the task again, or mark it as failed. */
    method Reschedule(id: Id, task: Task, write: Reply, push: Reply) returns (raises: bool)
      modifies this`tasks, this`zset
      ensures var retry := task.retryCount + 1;
              if retry < c.maxRetry then
                && tasks == (if write.FailedLost? then old(tasks) else old(tasks)[id := task.(retryCount := retry)])
                && zset == (if !write.Answered? || push.FailedLost? then old(zset)
                            else old(zset)[id := now + c.second * Delay(c, retry)])
                && raises == (!write.Answered? || !push.Answered?)
              else
                && tasks == (if write.FailedLost? then old(tasks) else old(tasks)[id := task.(failed := true)])
                && zset == old(zset) && raises == !write.Answered?
    {
      var retryCount := task.retryCount + 1;
      if retryCount < c.maxRetry {
        var delay := 60 * Power(c.multiplier, retryCount);
        if !write.FailedLost? {
          tasks := tasks[id := task.(retryCount := retryCount)];
        }
        if !write.Answered? {
          return true;
        }
        if !push.FailedLost? {
          zset := zset[id := now + c.second * delay];
        }
        return !push.Answered?;
      }
      if !write.FailedLost? {
        tasks := tasks[id := task.(failed := true)];
      }
      raises := !write.Answered?;
    }

    /** Pop what is due and execute it in that order; whatever raises ends the poll. */
    method ProcessDueTasks(reply: Reply, world: nat -> Execution) returns (ids: seq<Id>)
      requires Valid() && Batch(Contents(), me) == []
      modifies this
      ensures Valid() && Batch(Contents(), me) == [] && IsPop(old(zset), old(now), BATCH, ids)
      ensures Contents() == Exec(c, old(Contents()), [Pop(me, ids, reply)] + Executions(me, world, |ids|))
    {
      ids := PopDue(reply);
      ghost var start := Contents();
      assert ([Pop(me, ids, reply)] + Executions(me, world, |ids|))[1..] == Executions(me, world, |ids|);
      ExecutedIsExec(c, start, me, world, |ids|);
      if !reply.Answered? {
        NothingLeft(c, start, me, world, 0, |ids|);
        return;
      }
      ExecuteAll(ids, world);
    }

    method ExecuteAll(ids: seq<Id>, world: nat -> Execution)
      requires Valid() && Batch(Contents(), me) == ids
      modifies this
      ensures Valid() && Batch(Contents(), me) == []
      ensures Contents() == Executed(c, old(Contents()), me, world, |ids|)
    {
      for i := 0 to |ids|
        invariant Valid() && Contents() == Executed(c, old(Contents()), me, world, i)
        invariant Batch(Contents(), me) == ids[i..]
      {
        BatchAfter(c, Contents(), me, world(i));
        var raises := ExecuteTask(ids[i], world(i));
        if raises {
          NothingLeft(c, old(Contents()), me, world, i + 1, |ids|);
          return;
        }
      }
    }
  }

  lemma BatchAfter(c: Config, s: State, w: Worker, e: Execution)
    requires Inv(c, s) && Batch(s, w) != []
    ensures Batch(Step(c, s, Execute(w, e)), w) == if Raises(c, s, Batch(s, w)[0], e) then [] else Batch(s, w)[1..]
  {
    assert BatchOk(s, w);
  }

  /** The first n executions of a worker one after the other; without a batch nothing happens. */
  function Executed(c: Config, s: State, w: Worker, world: nat -> Execution, n: nat): State {
    if n == 0 then s else Step(c, Executed(c, s, w, world, n - 1), Execute(w, world(n - 1)))
  }

  function Executions(w: Worker, world: nat -> Execution, n: nat): seq<Action> {
    if n == 0 then [] else Executions(w, world, n - 1) + [Execute(w, world(n - 1))]
  }

  lemma {:induction false} ExecutedIsExec(c: Config, s: State, w: Worker, world: nat -> Execution, n: nat)
    ensures Executed(c, s, w, world, n) == Exec(c, s, Executions(w, world, n))
  {
    if n > 0 {
      ExecutedIsExec(c, s, w, world, n - 1);
      ExecAppend(c, s, Executions(w, world, n - 1), Execute(w, world(n - 1)));
    }
  }

  /** A worker whose batch is gone executes nothing more. */
  lemma {:induction false} NothingLeft(c: Config, s: State, w: Worker, world: nat -> Execution, i: nat, n: nat)
    requires i <= n && Batch(Executed(c, s, w, world, i), w) == []
    ensures Executed(c, s, w, world, n) == Executed(c, s, w, world, i)
  {
    if i < n {
      NothingLeft(c, s, w, world, i, n - 1);
    }
  }

  /** The earliest due ids in ascending order. */
  method EarliestDue(z: map<Id, int>, now: int, n: nat) returns (ids: seq<Id>)
    ensures IsPop(z, now, n, ids)
  {
    var due := set x | x in z && 0 <= z[x] <= now;
    ids := [];
    while |ids| < n && due != {}
      invariant |ids| <= n && forall x :: Due(z, now, x) <==> x in due || x in ids
      invariant forall i | 0 <= i < |ids| :: ids[i] !in due
      invariant forall i, j | 0 <= i < j < |ids| :: ids[i] != ids[j] && z[ids[i]] <= z[ids[j]]
      invariant forall i, x | 0 <= i < |ids| && x in due :: z[ids[i]] <= z[x]
      decreases n - |ids|
    {
      var first := Earliest(z, due);
      due := due - {first};
      ids := ids + [first];
    }
  }

  method Earliest(z: map<Id, int>, due: set<Id>) returns (first: Id)
    requires due != {} && due <= z.Keys
    ensures first in due && forall x <- due :: z[first] <= z[x]
  {
    first :| first in due;
    var rest := due - {first};
    while rest != {}
      invariant first in due && rest <= due && forall x <- due - rest :: z[first] <= z[x]
      decreases rest
    {
      var x :| x in rest;
      if z[x] < z[first] {
        first := x;
      }
      rest := rest - {x};
    }
  }
}
