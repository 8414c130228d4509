/** Saga: steps run in order; when one fails, the steps done so far are compensated in
    reverse order. */
module Saga {

  /** What a call does: its effect on the world, and how it ends. */
  datatype Executed<S> = Executed(state: S, result: Ending)

  /** `Killed` is an exit that "except Exception" does not catch. */
  datatype Ending = Succeeded | Refused | Raised | Killed

  /** How a compensation ends; an exception has a text. */
  datatype Undo = Returned | RaisedWith(message: string) | Exited
  datatype Compensated<S> = Compensated(state: S, how: Undo)

  datatype Step<!S> = Step(name: string, execute: S -> Executed<S>, compensate: S -> Compensated<S>)

  datatype StepStatus = Pending | Executing | StepSucceeded | Failed | Compensating | StepCompensated

  datatype RecordStatus = Running | Completed | RolledBack | CompensationFailed

  /** How a rollback ends: through, stopped by an exception with this text, or left by an
      exit. */
  datatype Error = NoError | Message(text: string) | Exit

  /** An error with an empty text passes for none. */
  predicate Noted(e: Error) { e.Message? && e.text != "" }

  /** What execute returns: success, or the failed step, the number of steps the message
      claims to have undone, and whether it mentions a compensation error. `Gone`: an exit
      leaves the call. */
  datatype Report = Ok | Failure(step: string, claimed: nat, mentionsError: bool) | Gone

  // ---------- The forward run and the compensations as functions ----------

  /** Steps done before the first that does not succeed. */
  function Done<S>(steps: seq<Step<S>>, s: S): (n: nat)
    ensures n <= |steps|
    decreases |steps|
  {
    if steps == [] || !steps[0].execute(s).result.Succeeded? then 0
    else 1 + Done(steps[1..], steps[0].execute(s).state)
  }

  /** The world after n steps. */
  function Forward<S>(steps: seq<Step<S>>, n: nat, s: S): S
    requires n <= |steps|
  {
    if n == 0 then s else steps[n - 1].execute(Forward(steps, n - 1, s)).state
  }

  /** The world after the compensations of steps n-1, n-2, ..., downto. */
  function Backward<S>(steps: seq<Step<S>>, n: nat, downto: nat, s: S): S
    requires downto <= n <= |steps|
    decreases n
  {
    if n == downto then s else Backward(steps, n - 1, downto, steps[n - 1].compensate(s).state)
  }

  /** How many compensations return before one does not or none is left. */
  function Undone<S>(steps: seq<Step<S>>, n: nat, s: S): (k: nat)
    requires n <= |steps|
    ensures k <= n
  {
    if n == 0 || !steps[n - 1].compensate(s).how.Returned? then 0
    else 1 + Undone(steps, n - 1, steps[n - 1].compensate(s).state)
  }

  /** The world a rollback of n steps leaves, a raising compensation's own effect included. */
  function AfterRollback<S>(steps: seq<Step<S>>, n: nat, s: S): S
    requires n <= |steps|
  {
    var k := Undone(steps, n, s);
    if k < n then steps[n - k - 1].compensate(Backward(steps, n, n - k, s)).state
    else Backward(steps, n, 0, s)
  }

  function ErrorOf(how: Undo): Error {
    match how
    case Returned => NoError
    case RaisedWith(text) => Message(text)
    case Exited => Exit
  }

  /** What stops a rollback of n steps, if anything does. */
  function ErrorAfter<S>(steps: seq<Step<S>>, n: nat, s: S): Error
    requires n <= |steps|
  {
    var k := Undone(steps, n, s);
    if k < n then ErrorOf(steps[n - k - 1].compensate(Backward(steps, n, n - k, s)).how) else NoError
  }

  /** Statuses after k of n compensations: the last k steps undone, the one that failed
      stuck, the earlier ones still done. */
  predicate StatusAfter(status: seq<StepStatus>, n: nat, k: nat, stuck: bool)
    requires k <= n <= |status|
  {
    && (forall i | n - k <= i < n :: status[i] == StepCompensated)
    && (forall i | 0 <= i < n - k :: status[i] == if stuck && i == n - k - 1 then Compensating else StepSucceeded)
  }

  /** The k compensations run: of steps n-1, n-2, and so on down. */
  function Descending(n: nat, k: nat): (r: seq<nat>)
    requires k <= n
    ensures |r| == k && forall i | 0 <= i < k :: r[i] == n - 1 - i
  {
    if k == 0 then [] else [n - 1] + Descending(n - 1, k - 1)
  }

  // ---------- The rollback loop as a function of its state ----------

  datatype Progress<S> = Progress(world: S, status: seq<StepStatus>, compensated: seq<nat>, error: Error)

  /** Compensate step i, marking it before and after. */
  function CompensateOne<S>(step: Step<S>, i: nat, p: Progress<S>): Progress<S>
    requires i < |p.status|
  {
    var result := step.compensate(p.world);
    var marked := p.status[i := Compensating];
    if !result.how.Returned? then Progress(result.state, marked, p.compensated, ErrorOf(result.how))
    else Progress(result.state, marked[i := StepCompensated], p.compensated + [i], NoError)
  }

  function Rollback<S>(steps: seq<Step<S>>, n: nat, p: Progress<S>): (r: Progress<S>)
    requires n <= |steps| == |p.status|
    ensures |r.status| == |p.status|
  {
    if n == 0 || !p.error.NoError? then p else Rollback(steps, n - 1, CompensateOne(steps[n - 1], n - 1, p))
  }

  /** The loop leaves the world of AfterRollback, and reports the exception that stopped it. */
  lemma {:induction false} RollbackWorld<S>(steps: seq<Step<S>>, n: nat, p: Progress<S>)
    requires n <= |steps| == |p.status| && p.error.NoError?
    ensures Rollback(steps, n, p).error == ErrorAfter(steps, n, p.world)
    ensures Rollback(steps, n, p).world == AfterRollback(steps, n, p.world)
    decreases n
  {
    if n > 0 {
      var p1 := CompensateOne(steps[n - 1], n - 1, p);
      if p1.error.NoError? {
        RollbackWorld(steps, n - 1, p1);
        assert AfterRollback(steps, n, p.world) == AfterRollback(steps, n - 1, p1.world);
        assert ErrorAfter(steps, n, p.world) == ErrorAfter(steps, n - 1, p1.world);
      }
    }
  }

  /** The compensations run are of steps n-1, n-2, ..., as many as finish. */
  lemma {:induction false} RollbackOrder<S>(steps: seq<Step<S>>, n: nat, p: Progress<S>)
    requires n <= |steps| == |p.status| && p.error.NoError?
    ensures Rollback(steps, n, p).compensated == p.compensated + Descending(n, Undone(steps, n, p.world))
    decreases n
  {
    if n > 0 {
      var p1 := CompensateOne(steps[n - 1], n - 1, p);
      if p1.error.NoError? {
        RollbackOrder(steps, n - 1, p1);
        OneMore(p.compensated, n, Undone(steps, n - 1, p1.world));
      }
    }
  }

  lemma OneMore(compensated: seq<nat>, n: nat, k: nat)
    requires k < n
    ensures compensated + Descending(n, k + 1) == (compensated + [n - 1]) + Descending(n - 1, k)
  {
  }

  /** The statuses tell which steps were undone, which one is stuck, and which are still done. */
  lemma {:induction false} RollbackStatus<S>(steps: seq<Step<S>>, n: nat, p: Progress<S>)
    requires n <= |steps| == |p.status| && p.error.NoError?
    requires forall i | 0 <= i < n :: p.status[i] == StepSucceeded
    ensures Rollback(steps, n, p).status[n..] == p.status[n..]
    ensures var k := Undone(steps, n, p.world); StatusAfter(Rollback(steps, n, p).status, n, k, k < n)
    decreases n
  {
    if n > 0 {
      var p1 := CompensateOne(steps[n - 1], n - 1, p);
      if p1.error.NoError? {
        RollbackStatus(steps, n - 1, p1);
        RollbackTail(Rollback(steps, n - 1, p1).status, p.status, p1.status, n);
      }
    }
  }

  lemma RollbackTail(after: seq<StepStatus>, before: seq<StepStatus>, next: seq<StepStatus>, n: nat)
    requires 0 < n <= |after| == |before| == |next| && after[n - 1..] == next[n - 1..]
    requires next == before[n - 1 := Compensating][n - 1 := StepCompensated]
    ensures after[n - 1] == StepCompensated && after[n..] == before[n..]
  {
    assert after[n - 1] == after[n - 1..][0] == next[n - 1];
    assert after[n..] == after[n - 1..][1..];
  }

  /** Step i succeeds when the steps before it have run. */
  predicate Succeeds<S>(steps: seq<Step<S>>, i: nat, s: S)
    requires i < |steps|
  {
    steps[i].execute(Forward(steps, i, s)).result.Succeeded?
  }

  /** Done counts the steps up to the first that does not succeed. */
  lemma {:induction false} DoneFacts<S>(steps: seq<Step<S>>, s: S)
    ensures forall i | 0 <= i < Done(steps, s) :: Succeeds(steps, i, s)
    ensures Done(steps, s) < |steps| ==> !Succeeds(steps, Done(steps, s), s)
    decreases |steps|
  {
    if steps != [] && steps[0].execute(s).result.Succeeded? {
      var s1 := steps[0].execute(s).state;
      DoneFacts(steps[1..], s1);
      forall i | 0 < i < |steps| ensures Succeeds(steps, i, s) == Succeeds(steps[1..], i - 1, s1) {
        ForwardTail(steps, i, s);
      }
    }
  }

  /** The run gets past step i exactly when i is among the steps done. */
  lemma AtStep<S>(steps: seq<Step<S>>, i: nat, s: S)
    requires i <= Done(steps, s) && i < |steps|
    ensures steps[i].execute(Forward(steps, i, s)).result.Succeeded? <==> i < Done(steps, s)
  {
    DoneFacts(steps, s);
    assert Succeeds(steps, i, s) <==> i < Done(steps, s);
  }

  lemma {:induction false} ForwardTail<S>(steps: seq<Step<S>>, n: nat, s: S)
    requires 0 < n <= |steps|
    ensures Forward(steps, n, s) == Forward(steps[1..], n - 1, steps[0].execute(s).state)
  {
    if n > 1 {
      ForwardTail(steps, n - 1, s);
      assert steps[n - 1] == steps[1..][n - 2];
    }
  }

  // ---------- Main theorems ----------

  /** A compensation that returns takes the world after its step back to the world
      before it. */
  ghost predicate Undoes<S(!new)>(steps: seq<Step<S>>) {
    forall i: nat, s: S | i < |steps| && steps[i].execute(s).result.Succeeded? ::
      var undo := steps[i].compensate(steps[i].execute(s).state);
      undo.how.Returned? ==> undo.state == s
  }

  /** The compensations walk back through the same worlds the steps came through, as far
      as they get. */
  lemma {:induction false} WalksBack<S(!new)>(steps: seq<Step<S>>, n: nat, s: S)
    requires Undoes(steps) && n <= |steps| && forall i | 0 <= i < n :: Succeeds(steps, i, s)
    ensures var k := Undone(steps, n, Forward(steps, n, s));
            Backward(steps, n, n - k, Forward(steps, n, s)) == Forward(steps, n - k, s)
    decreases n
  {
    if n > 0 {
      var after := Forward(steps, n, s);
      if steps[n - 1].compensate(after).how.Returned? {
        StepUndone(steps, n, s);
        WalksBack(steps, n - 1, s);
        UndoneStep(steps, n, after);
      }
    }
  }

  lemma StepUndone<S(!new)>(steps: seq<Step<S>>, n: nat, s: S)
    requires Undoes(steps) && 0 < n <= |steps| && Succeeds(steps, n - 1, s)
    requires steps[n - 1].compensate(Forward(steps, n, s)).how.Returned?
    ensures steps[n - 1].compensate(Forward(steps, n, s)).state == Forward(steps, n - 1, s)
  {
    var before := Forward(steps, n - 1, s);
    assert steps[n - 1].execute(before).result.Succeeded?;
  }

  lemma UndoneStep<S>(steps: seq<Step<S>>, n: nat, s: S)
    requires 0 < n <= |steps| && steps[n - 1].compensate(s).how.Returned?
    ensures var s1 := steps[n - 1].compensate(s).state; var k := Undone(steps, n - 1, s1);
            Undone(steps, n, s) == k + 1 && Backward(steps, n, n - 1 - k, s) == Backward(steps, n - 1, n - 1 - k, s1)
  {
  }

  /** If the failing step leaves the world alone, every compensation undoes its step and
      returns, a failed saga ends where it began, whichever step fails. */
  lemma RollbackRestores<S(!new)>(steps: seq<Step<S>>, s: S)
    requires Undoes(steps)
    requires Undone(steps, Done(steps, s), Forward(steps, Done(steps, s), s)) == Done(steps, s)
    ensures AfterRollback(steps, Done(steps, s), Forward(steps, Done(steps, s), s)) == s
  {
    DoneFacts(steps, s);
    WalksBack(steps, Done(steps, s), s);
  }

  /** The compensation of step i runs and does not return. */
  predicate RaisesAt<S>(steps: seq<Step<S>>, n: nat, s: S, i: nat)
    requires i < n <= |steps|
  {
    !steps[i].compensate(Backward(steps, n, i + 1, s)).how.Returned?
  }

  /** The message claims that all n executed steps were rolled back. The claim is right
      exactly when every compensation returned. */
  lemma {:induction false} ClaimIsTrueIff<S>(steps: seq<Step<S>>, n: nat, s: S)
    requires n <= |steps|
    ensures Undone(steps, n, s) == n <==> forall i | 0 <= i < n :: !RaisesAt(steps, n, s, i)
  {
    if n > 0 {
      var m := n - 1;
      if !steps[m].compensate(s).how.Returned? {
        assert RaisesAt(steps, n, s, m);
      } else {
        var s1 := steps[m].compensate(s).state;
        ClaimIsTrueIff(steps, m, s1);
        assert !RaisesAt(steps, n, s, m);
        forall i | 0 <= i < m ensures RaisesAt(steps, n, s, i) == RaisesAt(steps, m, s1, i) {
        }
        if forall i | 0 <= i < n :: !RaisesAt(steps, n, s, i) {
          assert forall i | 0 <= i < m :: !RaisesAt(steps, m, s1, i);
        }
      }
    }
  }

  /** What the record says after a failed step; an exit leaves it as it was. */
  function RecordAfter(e: Error): RecordStatus {
    if e.Exit? then Running else if Noted(e) then CompensationFailed else RolledBack
  }

  /** The record says that the saga was rolled back exactly when it was, unless an exception
      with an empty text stopped the rollback. */
  lemma RecordIsTrueIff<S>(steps: seq<Step<S>>, n: nat, s: S)
    requires n <= |steps|
    ensures (RecordAfter(ErrorAfter(steps, n, s)).RolledBack? <==> forall i | 0 <= i < n :: !RaisesAt(steps, n, s, i))
            <==> ErrorAfter(steps, n, s) != Message("")
  {
    ClaimIsTrueIff(steps, n, s);
    StoppedByError(steps, n, s);
  }

  /** A rollback that stops early stops on a compensation that does not return. */
  lemma {:induction false} StoppedByError<S>(steps: seq<Step<S>>, n: nat, s: S)
    requires n <= |steps|
    ensures ErrorAfter(steps, n, s).NoError? <==> Undone(steps, n, s) == n
  {
    if n > 0 && steps[n - 1].compensate(s).how.Returned? {
      var s1 := steps[n - 1].compensate(s).state;
      StoppedByError(steps, n - 1, s1);
      assert ErrorAfter(steps, n, s) == ErrorAfter(steps, n - 1, s1);
    }
  }

  /** Pay, then ship: shipping is refused, and paying back raises with this text. */
  function Unlucky(text: string): seq<Step<int>> {
    [Step("pay", (w: int) => Executed(w + 1, Succeeded), (w: int) => Compensated(w, RaisedWith(text))),
     Step("ship", (w: int) => Executed(w, Refused), (w: int) => Compensated(w, Returned))]
  }

  /** Nothing is undone and the payment stays; the record says rolled back exactly if the
      text is empty. */
  lemma UnluckyStays(text: string)
    ensures var steps := Unlucky(text);
            && Done(steps, 0) == 1 && Forward(steps, 1, 0) == 1 && Undone(steps, 1, 1) == 0
            && AfterRollback(steps, 1, 1) == 1 && ErrorAfter(steps, 1, 1) == Message(text)
            && (RecordAfter(ErrorAfter(steps, 1, 1)).RolledBack? <==> text == "")
  {
    var steps := Unlucky(text);
    assert steps[1..] == [steps[1]] && Done(steps[1..], 1) == 0;
    assert Forward(steps, 0, 0) == 0;
  }

  // ---------- The coordinator ----------

  class Coordinator<!S(!new)> {
    var world: S
    var steps: seq<Step<S>>
    var status: seq<StepStatus>
    var executed: seq<nat>
    var record: RecordStatus
    ghost var compensations: seq<nat>

    constructor (world: S)
      ensures Valid() && steps == [] && this.world == world && executed == [] && compensations == []
    {
      this.world := world;
      steps, status, executed, compensations := [], [], [], [];
      record := Running;
    }

    ghost predicate Valid()
      reads this
    {
      |status| == |steps| && forall i | 0 <= i < |executed| :: executed[i] < |steps|
    }

    /** Nothing has run yet. */
    ghost predicate Fresh()
      reads this
    {
      executed == [] && compensations == []
    }

    method AddStep(step: Step<S>)
      requires Valid()
      modifies this`steps, this`status
      ensures Valid() && steps == old(steps) + [step] && status == old(status) + [Pending]
    {
      steps := steps + [step];
      status := status + [Pending];
    }

    /** What a failed run reports and leaves behind, when step n failed leaving world s. */
    ghost predicate RolledBackTo(report: Report, n: nat, s: S)
      reads this
    {
      && n < |steps| == |status| && n <= |steps|
      && var k := Undone(steps, n, s); var error := ErrorAfter(steps, n, s);
      && report == (if error.Exit? then Gone else Failure(steps[n].name, n, Noted(error)))
      && compensations == Descending(n, k) && record == RecordAfter(error)
      && world == AfterRollback(steps, n, s)
      && StatusAfter(status, n, k, k < n) && status[n] == Failed
    }

    /** What a run leaves behind when step n was killed: nothing is compensated, the record
        still says running, the step still says executing. */
    ghost predicate LeftAt(report: Report, n: nat, s: S)
      reads this
    {
      report == Gone && DoneUpTo(n) && n < |steps| && status[n] == Executing && record == Running && world == s
    }

    /** The first i steps, and no others, have been executed. */
    ghost predicate DoneUpTo(i: nat)
      reads this
    {
      && |status| == |steps| && i <= |steps| && |executed| == i && compensations == []
      && forall j | 0 <= j < i :: executed[j] == j && status[j] == StepSucceeded
    }

    /** Run all steps of a fresh coordinator. */
    method Execute() returns (report: Report)
      requires Valid() && Fresh()
      modifies this`world, this`status, this`executed, this`compensations, this`record
      ensures Valid()
      ensures report.Ok? <==> Done(steps, old(world)) == |steps|
      ensures report.Ok? ==> world == Forward(steps, |steps|, old(world)) && record == Completed && DoneUpTo(|steps|)
      ensures !report.Ok? ==>
                var n := Done(steps, old(world));
                && n < |steps|
                && var outcome := steps[n].execute(Forward(steps, n, old(world)));
                   if outcome.result.Killed? then LeftAt(report, n, outcome.state)
                   else RolledBackTo(report, n, outcome.state)
    {
      record := Running;
      var i, ending := RunSteps();
      if ending.Killed? {
        return Gone;
      }
      if !ending.Succeeded? {
        report := RollBack(i);
        return;
      }
      record := Completed;
      report := Ok;
    }

    /** The steps in order, up to the first that does not succeed. */
    method RunSteps() returns (i: nat, ending: Ending)
      requires Valid() && Fresh()
      modifies this`world, this`status, this`executed
      ensures i == Done(steps, old(world)) && DoneUpTo(i) && (ending.Succeeded? <==> i == |steps|)
      ensures ending.Succeeded? ==> world == Forward(steps, i, old(world))
      ensures !ending.Succeeded? ==>
                var outcome := steps[i].execute(Forward(steps, i, old(world)));
                && ending == outcome.result && world == outcome.state
                && status[i] == if ending.Killed? then Executing else Failed
    {
      i, ending := 0, Succeeded;
      while i < |steps|
        invariant 0 <= i <= Done(steps, old(world)) && DoneUpTo(i) && ending.Succeeded?
        invariant world == Forward(steps, i, old(world))
      {
        AtStep(steps, i, old(world));
        ending := NextStep(i);
        if !ending.Succeeded? {
          return;
        }
        i := i + 1;
      }
    }

    /** Step i, when the steps before it have succeeded. */
    method NextStep(i: nat) returns (ending: Ending)
      requires DoneUpTo(i) && i < |steps|
      modifies this`world, this`status, this`executed
      ensures ending == steps[i].execute(old(world)).result && world == steps[i].execute(old(world)).state
      ensures DoneUpTo(if ending.Succeeded? then i + 1 else i)
      ensures !ending.Succeeded? ==> status[i] == if ending.Killed? then Executing else Failed
    {
      ending := ExecuteStep(i);
    }

    /** Step i failed: compensate, note the outcome, report. */
    method RollBack(i: nat) returns (report: Report)
      requires DoneUpTo(i) && i < |steps| && status[i] == Failed && record == Running
      modifies this`world, this`status, this`compensations, this`record
      ensures Valid() && RolledBackTo(report, i, old(world))
    {
      RollbackWorld(steps, i, Now(NoError));
      RollbackOrder(steps, i, Now(NoError));
      RollbackStatus(steps, i, Now(NoError));
      var error := Compensate();
      if error.Exit? {
        return Gone;
      }
      record := if Noted(error) then CompensationFailed else RolledBack;
      report := Failure(steps[i].name, |executed|, Noted(error));
    }

    /** Where the rollback stands. */
    ghost function Now(error: Error): Progress<S>
      reads this
    {
      Progress(world, status, compensations, error)
    }

    /** Walk back through the executed steps until one does not return. */
    method Compensate() returns (error: Error)
      requires Valid() && |executed| <= |steps|
      requires forall j | 0 <= j < |executed| :: executed[j] == j
      modifies this`world, this`status, this`compensations
      ensures Now(error) == Rollback(steps, |executed|, old(Now(NoError)))
    {
      var i := |executed|;
      error := NoError;
      while i > 0
        invariant 0 <= i <= |executed| && |status| == |steps| && error == NoError
        invariant Rollback(steps, |executed|, old(Now(NoError))) == Rollback(steps, i, Now(NoError))
      {
        i := i - 1;
        error := CompensateStep(executed[i]);
        if !error.NoError? {
          return;
        }
      }
    }

    method CompensateStep(index: nat) returns (error: Error)
      requires index < |steps| == |status|
      modifies this`world, this`status, this`compensations
      ensures Now(error) == CompensateOne(steps[index], index, old(Now(NoError)))
    {
      status := status[index := Compensating];
      var result := steps[index].compensate(world);
      world := result.state;
      if !result.how.Returned? {
        return ErrorOf(result.how);
      }
      status := status[index := StepCompensated];
      compensations := compensations + [index];
      error := NoError;
    }

    /** Run step i: its effect is kept however it ends. */
    method ExecuteStep(i: nat) returns (ending: Ending)
      requires i < |steps| == |status|
      modifies this`world, this`status, this`executed
      ensures ending == steps[i].execute(old(world)).result && world == steps[i].execute(old(world)).state
      ensures status == old(status)[i := if ending.Succeeded? then StepSucceeded
                                         else if ending.Killed? then Executing else Failed]
      ensures executed == if ending.Succeeded? then old(executed) + [i] else old(executed)
    {
      status := status[i := Executing];
      var outcome := steps[i].execute(world);
      world, ending := outcome.state, outcome.result;
      if ending.Killed? {
        return;
      }
      if ending.Succeeded? {
        status := status[i := StepSucceeded];
        executed := executed + [i];
      } else {
        status := status[i := Failed];
      }
    }
  }

  /** The two wrong reports in one run: the message claims to have undone one step although
      the payment stays, and with an empty text the record says rolled back. */
  method UnluckyRun(text: string) returns (report: Report, record: RecordStatus, world: int)
    ensures report == Failure("ship", 1, text != "") && world == 1
    ensures record == if text == "" then RolledBack else CompensationFailed
  {
    var steps := Unlucky(text);
    var saga := new Coordinator<int>(0);
    saga.AddStep(steps[0]);
    saga.AddStep(steps[1]);
    assert saga.steps == steps;
    UnluckyStays(text);
    report := saga.Execute();
    record, world := saga.record, saga.world;
  }
}
