/** One verification pass: every step in order until the first that does not pass, under a total
    budget and a caller who may cancel (internal/verification/verification.go:83-342, with the
    outcome of one command from internal/procexec/procexec.go:265-323). */
module VerificationPass {
  import opened Common
  import opened StepQuoting

  // ---------- time ----------

  datatype CtxError = DeadlineExceeded | Canceled

  /** The pass's context: when the caller cancels, and when its deadline (the earlier of the
      caller's and the total budget's) is. Whichever comes first stays its error. */
  datatype Ctx = Ctx(cancel: Option<int>, deadline: Option<int>) {
    function Err(t: int): Option<CtxError> {
      if cancel.Some? && cancel.value <= t && (deadline.None? || cancel.value <= deadline.value) then Some(Canceled)
      else if deadline.Some? && deadline.value <= t then Some(DeadlineExceeded)
      else None
    }
  }

  /** The caller's context under a total budget from start; zero is no budget. */
  function WithBudget(caller: Ctx, start: int, total: int): Ctx {
    if total <= 0 then caller
    else if caller.deadline.Some? && caller.deadline.value <= start + total then caller
    else caller.(deadline := Some(start + total))
  }

  /** The budget wraps the caller's context: before it runs out nothing changes, from then on the
      pass is over, and a cancellation that came first is still one. */
  lemma BudgetBinds(caller: Ctx, start: int, total: int, t: int)
    ensures total <= 0 || t < start + total ==> WithBudget(caller, start, total).Err(t) == caller.Err(t)
    ensures total > 0 && start + total <= t ==>
      WithBudget(caller, start, total).Err(t)
      == if caller.Err(start + total).Some? then caller.Err(start + total) else Some(DeadlineExceeded)
  {
  }

  // ---------- one command ----------

  datatype Outcome = OutcomeSucceeded | OutcomeFailed | OutcomeTimedOut | OutcomeCancelled | OutcomeStartFailed

  /** What happens when a step's turn comes: when the pass looks at its context, when the command is
      started and when it has ended, whether it is runnable here, and how it exits. */
  datatype Turn = Turn(begin: int, launch: int, end: int, runnable: bool, exitZero: bool)

  predicate InOrder(turn: Turn) { turn.begin <= turn.launch <= turn.end }

  function Timeout(s: Step, defaultTimeout: int): int {
    if s.timeoutSeconds > 0 then s.timeoutSeconds else defaultTimeout
  }

  /** exec does not start a command whose context is over, the command's own deadline included. */
  predicate Started(ctx: Ctx, turn: Turn, timeout: int) {
    turn.runnable && ctx.Err(turn.launch).None? && turn.launch < turn.begin + timeout
  }

  /** A context that is over by the end outranks the command's own deadline, and that its exit. */
  function OutcomeOf(ctx: Ctx, turn: Turn, timeout: int): Outcome {
    if !Started(ctx, turn, timeout) then OutcomeStartFailed
    else if ctx.Err(turn.end).Some? then OutcomeCancelled
    else if turn.begin + timeout <= turn.end then OutcomeTimedOut
    else if turn.exitZero then OutcomeSucceeded
    else OutcomeFailed
  }

  // ---------- the pass ----------

  datatype Status = Passed | Failed | TimedOut | Cancelled | Skipped

  datatype Phase = Setup | Verify

  datatype FailureKind = NoFailure | FailureTimeout | FailureCancelled | FailureVerification

  datatype Run = Run(index: nat, phase: Phase, command: string, status: Status)

  datatype Report = Report(passed: bool, runs: seq<Run>, kind: FailureKind)

  datatype RequestError = NoDirectory | NoSteps

  function StatusOf(outcome: Outcome): Status {
    match outcome
    case OutcomeSucceeded => Passed
    case OutcomeTimedOut => TimedOut
    case OutcomeCancelled => Cancelled
    case OutcomeStartFailed => Failed
    case OutcomeFailed => Failed
  }

  function FailureKindFor(outcome: Outcome): FailureKind {
    match outcome
    case OutcomeTimedOut => FailureTimeout
    case OutcomeCancelled => FailureCancelled
    case _ => FailureVerification
  }

  /** Why a step whose turn comes does not pass; NoFailure if it does. */
  function Verdict(ctx: Ctx, turn: Turn, timeout: int): FailureKind {
    match ctx.Err(turn.begin)
    case Some(DeadlineExceeded) => FailureTimeout
    case Some(Canceled) => FailureCancelled
    case None =>
      match OutcomeOf(ctx, turn, timeout)
      case OutcomeSucceeded => NoFailure
      case OutcomeTimedOut => FailureTimeout
      case OutcomeCancelled => if ctx.Err(turn.end) == Some(DeadlineExceeded) then FailureTimeout else FailureCancelled
      case _ => FailureVerification
  }

  /** The status a verdict is recorded as. */
  function Recorded(kind: FailureKind): Status {
    match kind
    case NoFailure => Passed
    case FailureTimeout => TimedOut
    case FailureCancelled => Cancelled
    case FailureVerification => Failed
  }

  function Verdicts(ctx: Ctx, plan: seq<Step>, turns: seq<Turn>, defaultTimeout: int): (v: seq<FailureKind>)
    requires |turns| == |plan|
    ensures |v| == |plan|
  {
    seq(|plan|, i requires 0 <= i < |plan| => Verdict(ctx, turns[i], Timeout(plan[i], defaultTimeout)))
  }

  /** The first step that does not pass. */
  function FirstStop(verdicts: seq<FailureKind>): (k: nat)
    ensures k <= |verdicts|
    ensures forall i :: 0 <= i < k ==> verdicts[i] == NoFailure
    ensures k < |verdicts| ==> verdicts[k] != NoFailure
  {
    if verdicts == [] || verdicts[0] != NoFailure then 0 else 1 + FirstStop(verdicts[1..])
  }

  /** The record of step i of a pass that stopped at step k. */
  predicate Records(run: Run, i: nat, k: nat, setup: nat, plan: seq<Step>, verdicts: seq<FailureKind>)
    requires i < |plan| == |verdicts|
  {
    && run.index == i && run.command == Print(plan[i])
    && run.phase == (if i < setup then Setup else Verify)
    && run.status == if i <= k then Recorded(verdicts[i]) else Skipped
  }

  /** The account of a pass: everything before the stop passed, everything after it was skipped. */
  predicate Accounts(r: Report, setup: nat, plan: seq<Step>, verdicts: seq<FailureKind>)
    requires |verdicts| == |plan|
  {
    var k := FirstStop(verdicts);
    && |r.runs| == |plan|
    && (forall i :: 0 <= i < |plan| ==> Records(r.runs[i], i, k, setup, plan, verdicts))
    && r.kind == (if k < |plan| then verdicts[k] else NoFailure)
    && (r.passed <==> r.kind == NoFailure)
  }

  /** A step's turn. A stop between steps is not a skip, and a budget that expired is a timeout and
      not a cancellation, even where the command was stopped for it. */
  method TakeTurn(ctx: Ctx, turn: Turn, timeout: int) returns (status: Status, kind: FailureKind)
    ensures kind == Verdict(ctx, turn, timeout) && status == Recorded(kind)
  {
    var err := ctx.Err(turn.begin);
    if err.Some? {
      if err.value == DeadlineExceeded {
        return TimedOut, FailureTimeout;
      }
      return Cancelled, FailureCancelled;
    }
    var outcome := OutcomeOf(ctx, turn, timeout);
    status := StatusOf(outcome);
    if outcome == OutcomeCancelled && ctx.Err(turn.end) == Some(DeadlineExceeded) {
      outcome := OutcomeTimedOut;
      status := TimedOut;
    }
    kind := if status == Passed then NoFailure else FailureKindFor(outcome);
  }

  /** Setup steps and checks as one sequence, to the first that does not pass. */
  method RunPlan(ctx: Ctx, setup: nat, plan: seq<Step>, turns: seq<Turn>, defaultTimeout: int)
    returns (runs: seq<Run>, kind: FailureKind)
    requires |turns| == |plan|
    ensures
      var verdicts := Verdicts(ctx, plan, turns, defaultTimeout);
      var k := FirstStop(verdicts);
      && |runs| == |plan| && (forall i :: 0 <= i < |plan| ==> Records(runs[i], i, k, setup, plan, verdicts))
      && kind == if k < |plan| then verdicts[k] else NoFailure
  {
    ghost var verdicts := Verdicts(ctx, plan, turns, defaultTimeout);
    ghost var k := FirstStop(verdicts);
    runs, kind := [], NoFailure;
    var stopped := false;
    for i := 0 to |plan|
      invariant |runs| == i
      invariant stopped <==> k < i
      invariant kind == if stopped then verdicts[k] else NoFailure
      invariant forall j :: 0 <= j < i ==> Records(runs[j], j, k, setup, plan, verdicts)
    {
      var run := Run(i, if i < setup then Setup else Verify, Print(plan[i]), Skipped);
      if !stopped {
        assert verdicts[i] == Verdict(ctx, turns[i], Timeout(plan[i], defaultTimeout));
        var status, failure := TakeTurn(ctx, turns[i], Timeout(plan[i], defaultTimeout));
        run := run.(status := status);
        if status != Passed {
          stopped := true;
          kind := failure;
        }
      }
      runs := runs + [run];
    }
  }

  /** Runs the plan against whatever the commands and the clock do; turns[i] matters only if step
      i's turn comes. */
  method RunPass(caller: Ctx, start: int, total: int, defaultTimeout: int, workingDir: string,
                 setupSteps: seq<Step>, steps: seq<Step>, turns: seq<Turn>) returns (r: Result<Report, RequestError>)
    requires |turns| == |setupSteps| + |steps|
    ensures workingDir == "" ==> r == Err(NoDirectory)
    ensures workingDir != "" && steps == [] ==> r == Err(NoSteps)
    ensures workingDir != "" && steps != [] ==>
      && r.Ok?
      && var plan := setupSteps + steps;
         Accounts(r.value, |setupSteps|, plan, Verdicts(WithBudget(caller, start, total), plan, turns, defaultTimeout))
  {
    if workingDir == "" {
      return Err(NoDirectory);
    }
    if |steps| == 0 {
      return Err(NoSteps);
    }
    var plan := setupSteps + steps;
    var runs, kind := RunPlan(WithBudget(caller, start, total), |setupSteps|, plan, turns, defaultTimeout);

    var passed := kind == NoFailure;
    for i := 0 to |runs|
      invariant passed <==> kind == NoFailure && forall j :: 0 <= j < i ==> runs[j].status == Passed
    {
      if runs[i].status != Passed {
        passed := false;
      }
    }
    if passed {
      kind := NoFailure;
    } else if kind == NoFailure {
      kind := FailureVerification;
    }
    return Ok(Report(passed, runs, kind));
  }

  // ---------- what a report says ----------

  /** Every report has the shape PASSED*, at most one step that ended the pass, SKIPPED*; it passed
      exactly if every step did, and exactly if it names no failure. */
  lemma Shape(r: Report, setup: nat, plan: seq<Step>, verdicts: seq<FailureKind>)
    requires |verdicts| == |plan| && Accounts(r, setup, plan, verdicts)
    ensures exists k ::
      && 0 <= k <= |r.runs| && StopsAt(r.runs, k)
      && (forall i :: 0 <= i < k ==> r.runs[i].status == Passed)
      && (k < |r.runs| ==> r.runs[k].status == if r.kind == FailureTimeout then TimedOut
                                                else if r.kind == FailureCancelled then Cancelled else Failed)
      && (forall i :: k < i < |r.runs| ==> r.runs[i].status == Skipped)
    ensures |r.runs| == |plan| && forall i :: 0 <= i < |plan| ==>
      r.runs[i].index == i && r.runs[i].command == Print(plan[i]) && (r.runs[i].phase == Setup <==> i < setup)
    ensures r.passed <==> forall i :: 0 <= i < |r.runs| ==> r.runs[i].status == Passed
    ensures r.passed <==> r.kind == NoFailure
    ensures forall i, j :: 0 <= i < j < |r.runs| && r.runs[i].phase == Verify ==> r.runs[j].phase == Verify
  {
    var k := FirstStop(verdicts);
    assert StopsAt(r.runs, k);
    if k < |plan| {
      assert r.runs[k].status != Passed;
    }
  }

  predicate StopsAt(runs: seq<Run>, k: nat) {
    && (forall i :: 0 <= i < k && i < |runs| ==> runs[i].status == Passed)
    && (k < |runs| ==> runs[k].status != Passed && runs[k].status != Skipped)
    && (forall i :: k < i < |runs| ==> runs[i].status == Skipped)
  }

  /** Report.FirstFailure: the step that ended the pass, if one did. */
  method FirstFailure(r: Report, k: nat) returns (failure: Option<Run>)
    requires k <= |r.runs| && StopsAt(r.runs, k)
    ensures failure == if k < |r.runs| then Some(r.runs[k]) else None
  {
    for i := 0 to |r.runs|
      invariant i <= k
    {
      if r.runs[i].status != Passed && r.runs[i].status != Skipped {
        return Some(r.runs[i]);
      }
    }
    return None;
  }

  // ---------- who is blamed ----------

  /** What the clock makes of a context: before its end there is no error, and after it always the
      same one, a cancellation exactly if that came no later than the deadline. */
  lemma FirstEndWins(ctx: Ctx, t: int, u: int)
    requires t <= u
    ensures ctx.Err(t).Some? ==> ctx.Err(u) == ctx.Err(t)
    ensures ctx.Err(t) == Some(Canceled) <==> ctx.cancel.Some? && ctx.cancel.value <= t && ctx.Err(ctx.cancel.value) == Some(Canceled)
    ensures ctx.Err(t) == Some(DeadlineExceeded) ==> ctx.deadline.Some? && ctx.deadline.value <= t
  {
  }

  /** The caller has cancelled by t, and no later than the deadline. */
  predicate CancelledBy(cancel: Option<int>, deadline: Option<int>, t: int) {
    cancel.Some? && cancel.value <= t && (deadline.None? || cancel.value <= deadline.value)
  }

  /** The deadline has passed by t, before any cancellation. */
  predicate OverBy(cancel: Option<int>, deadline: Option<int>, t: int) {
    deadline.Some? && deadline.value <= t && (cancel.None? || deadline.value < cancel.value)
  }

  predicate Over(cancel: Option<int>, deadline: Option<int>, t: int) {
    CancelledBy(cancel, deadline, t) || OverBy(cancel, deadline, t)
  }

  /** The command runs: nothing is over when it is started, its own limit included. */
  predicate Runs(cancel: Option<int>, deadline: Option<int>, turn: Turn, limit: int) {
    turn.runnable && !Over(cancel, deadline, turn.launch) && turn.launch < turn.begin + limit
  }

  /** What a pass under a total budget says, from the times alone. The deadline is the earlier of the
      caller's and the budget's. Of the step that ended the pass: cancelled if the caller's
      cancellation had come first when its turn came, or came while its command ran; a timeout if
      the deadline had, or did, or if its command overran with neither; and otherwise a failed check. */
  lemma Blame(caller: Ctx, start: int, total: int, plan: seq<Step>, turns: seq<Turn>, defaultTimeout: int, setup: nat, r: Report)
    requires |turns| == |plan|
    requires Accounts(r, setup, plan, Verdicts(WithBudget(caller, start, total), plan, turns, defaultTimeout))
    requires forall i :: 0 <= i < |turns| ==> InOrder(turns[i])
    ensures
      var ctx := WithBudget(caller, start, total);
      var k := FirstStop(Verdicts(ctx, plan, turns, defaultTimeout));
      var c, d := caller.cancel, ctx.deadline;
      && (total > 0 ==> d.Some? && d.value <= start + total && (d.value < start + total ==> d == caller.deadline))
      && (k == |plan| ==> r.kind == NoFailure)
      && (k < |plan| ==>
            var turn, limit := turns[k], if plan[k].timeoutSeconds > 0 then plan[k].timeoutSeconds else defaultTimeout;
            && r.kind != NoFailure
            && (r.kind == FailureCancelled <==>
                  CancelledBy(c, d, turn.begin) || (Runs(c, d, turn, limit) && CancelledBy(c, d, turn.end)))
            && (r.kind == FailureTimeout <==>
                  || OverBy(c, d, turn.begin)
                  || (Runs(c, d, turn, limit)
                      && (OverBy(c, d, turn.end) || (!Over(c, d, turn.end) && turn.begin + limit <= turn.end)))))
  {
    var ctx := WithBudget(caller, start, total);
    var verdicts := Verdicts(ctx, plan, turns, defaultTimeout);
    var k := FirstStop(verdicts);
    if k < |plan| {
      assert verdicts[k] == Verdict(ctx, turns[k], Timeout(plan[k], defaultTimeout));
      ErrIs(ctx, turns[k].begin);
      ErrIs(ctx, turns[k].launch);
      ErrIs(ctx, turns[k].end);
    }
  }

  lemma ErrIs(ctx: Ctx, t: int)
    ensures ctx.Err(t) == Some(Canceled) <==> CancelledBy(ctx.cancel, ctx.deadline, t)
    ensures ctx.Err(t) == Some(DeadlineExceeded) <==> OverBy(ctx.cancel, ctx.deadline, t)
  {
  }

  /** The step's turn comes before anything is over, and its command runs, ends in time and exits with 0. */
  predicate Succeeds(cancel: Option<int>, deadline: Option<int>, turn: Turn, limit: int) {
    && !Over(cancel, deadline, turn.begin) && Runs(cancel, deadline, turn, limit)
    && !Over(cancel, deadline, turn.end) && turn.end < turn.begin + limit && turn.exitZero
  }

  /** A pass passes exactly if every step does. */
  lemma PassesIff(caller: Ctx, start: int, total: int, plan: seq<Step>, turns: seq<Turn>, defaultTimeout: int, setup: nat, r: Report)
    requires |turns| == |plan|
    requires Accounts(r, setup, plan, Verdicts(WithBudget(caller, start, total), plan, turns, defaultTimeout))
    ensures
      var d := WithBudget(caller, start, total).deadline;
      r.passed <==> forall i :: 0 <= i < |plan| ==>
        Succeeds(caller.cancel, d, turns[i], if plan[i].timeoutSeconds > 0 then plan[i].timeoutSeconds else defaultTimeout)
  {
    var ctx := WithBudget(caller, start, total);
    var verdicts := Verdicts(ctx, plan, turns, defaultTimeout);
    forall i | 0 <= i < |plan|
      ensures verdicts[i] == NoFailure <==>
        Succeeds(caller.cancel, ctx.deadline, turns[i], if plan[i].timeoutSeconds > 0 then plan[i].timeoutSeconds else defaultTimeout)
    {
      assert verdicts[i] == Verdict(ctx, turns[i], Timeout(plan[i], defaultTimeout));
      ErrIs(ctx, turns[i].begin);
      ErrIs(ctx, turns[i].launch);
      ErrIs(ctx, turns[i].end);
    }
  }

  /** A pass is recorded as cancelled exactly if the caller's cancellation came first and was seen:
      before the step that ended it began, or while that step's command ran. */
  lemma CancelledIff(ctx: Ctx, plan: seq<Step>, turns: seq<Turn>, defaultTimeout: int, setup: nat, r: Report)
    requires |turns| == |plan| && Accounts(r, setup, plan, Verdicts(ctx, plan, turns, defaultTimeout))
    requires forall i :: 0 <= i < |turns| ==> InOrder(turns[i])
    ensures r.kind == FailureCancelled <==>
      var k := FirstStop(Verdicts(ctx, plan, turns, defaultTimeout));
      && k < |plan|
      && (ctx.Err(turns[k].begin) == Some(Canceled)
          || (Started(ctx, turns[k], Timeout(plan[k], defaultTimeout)) && ctx.Err(turns[k].end) == Some(Canceled)))
  {
    var k := FirstStop(Verdicts(ctx, plan, turns, defaultTimeout));
    if k < |plan| {
      FirstEndWins(ctx, turns[k].begin, turns[k].end);
    }
  }

  /** The operator is never blamed for the deadline: unless the caller cancels, and before the
      deadline, no pass is recorded as cancelled; and a step the deadline overtook while its
      command ran, or before its turn, makes the pass a timeout. */
  lemma DeadlineIsATimeout(ctx: Ctx, plan: seq<Step>, turns: seq<Turn>, defaultTimeout: int, setup: nat, r: Report)
    requires |turns| == |plan| && Accounts(r, setup, plan, Verdicts(ctx, plan, turns, defaultTimeout))
    requires forall i :: 0 <= i < |turns| ==> InOrder(turns[i])
    requires ctx.cancel.None? || (ctx.deadline.Some? && ctx.deadline.value < ctx.cancel.value)
    ensures r.kind != FailureCancelled
    ensures
      var k := FirstStop(Verdicts(ctx, plan, turns, defaultTimeout));
      k < |plan| && ctx.deadline.Some?
      && (ctx.deadline.value <= turns[k].begin
          || (Started(ctx, turns[k], Timeout(plan[k], defaultTimeout)) && ctx.deadline.value <= turns[k].end)) ==>
        r.kind == FailureTimeout
  {
    var k := FirstStop(Verdicts(ctx, plan, turns, defaultTimeout));
    if k < |plan| {
      FirstEndWins(ctx, turns[k].begin, turns[k].end);
    }
  }

  /** A caller who cancels first is never answered with the budget's timeout. */
  lemma CancelIsNotATimeout(ctx: Ctx, plan: seq<Step>, turns: seq<Turn>, defaultTimeout: int, setup: nat, r: Report)
    requires |turns| == |plan| && Accounts(r, setup, plan, Verdicts(ctx, plan, turns, defaultTimeout))
    requires ctx.cancel.Some? && (ctx.deadline.None? || ctx.cancel.value <= ctx.deadline.value)
    ensures r.kind == FailureTimeout ==>
      var k := FirstStop(Verdicts(ctx, plan, turns, defaultTimeout));
      && k < |plan| && turns[k].end < ctx.cancel.value
      && turns[k].begin + Timeout(plan[k], defaultTimeout) <= turns[k].end
  {
  }

  /** A pass ends in a failed check exactly if the step that ended it began in time and its command was
      not runnable, ran to its end in time and failed, or, the gap, if the time or the caller's patience
      ran out between the look at the context and the start: then the check is charged with it. */
  lemma BlamedOnTheCheckIff(caller: Ctx, start: int, total: int, plan: seq<Step>, turns: seq<Turn>, defaultTimeout: int,
                            setup: nat, r: Report)
    requires |turns| == |plan|
    requires Accounts(r, setup, plan, Verdicts(WithBudget(caller, start, total), plan, turns, defaultTimeout))
    requires forall i :: 0 <= i < |turns| ==> InOrder(turns[i])
    ensures
      var ctx := WithBudget(caller, start, total);
      var k := FirstStop(Verdicts(ctx, plan, turns, defaultTimeout));
      var c, d := caller.cancel, ctx.deadline;
      r.kind == FailureVerification <==>
        && k < |plan|
        && var turn, limit := turns[k], if plan[k].timeoutSeconds > 0 then plan[k].timeoutSeconds else defaultTimeout;
           && !Over(c, d, turn.begin)
           && (|| !turn.runnable
               || Over(c, d, turn.launch)
               || turn.begin + limit <= turn.launch
               || (!Over(c, d, turn.end) && turn.end < turn.begin + limit && !turn.exitZero))
  {
    var ctx := WithBudget(caller, start, total);
    var verdicts := Verdicts(ctx, plan, turns, defaultTimeout);
    var k := FirstStop(verdicts);
    if k < |plan| {
      assert verdicts[k] == Verdict(ctx, turns[k], Timeout(plan[k], defaultTimeout));
      ErrIs(ctx, turns[k].begin);
      ErrIs(ctx, turns[k].launch);
      ErrIs(ctx, turns[k].end);
    }
  }

  /** One such pass: the caller cancels at 5, between the look at 4 and the start at 5 of the only
      command, which would have passed, and the report says that the check failed. */
  lemma CancelledBeforeTheStart(step: Step, defaultTimeout: int, r: Report)
    requires
      var turns := [Turn(4, 5, 6, true, true)];
      Accounts(r, 0, [step], Verdicts(WithBudget(Ctx(Some(5), None), 0, 0), [step], turns, defaultTimeout))
    ensures r.kind == FailureVerification && !r.passed && r.runs[0].status == Failed
  {
    var turns := [Turn(4, 5, 6, true, true)];
    var verdicts := Verdicts(WithBudget(Ctx(Some(5), None), 0, 0), [step], turns, defaultTimeout);
    assert verdicts[0] == FailureVerification;
    assert FirstStop(verdicts) == 0;
    assert Records(r.runs[0], 0, 0, 0, [step], verdicts);
  }
}
