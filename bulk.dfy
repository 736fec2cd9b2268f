/**
 * The bulk-update command after the checks are fetched: select, plan one
 * entry per selected check, then (unless it is a dry run or the operator
 * declines) apply each entry in order through the backoff wrapper, counting
 * failed entries and exiting non-zero when any failed.
 */
module BulkUpdate {
  import opened Wrappers
  import opened Text
  import opened Order
  import opened Checks
  import opened Filter
  import opened Tags
  import opened Planner
  import opened Retry

  /** One plan entry: the check, its payload (if any field changes), and whether to pause it. */
  datatype PlanItem = PlanItem(check: Check, update: Option<CheckUpdate>, pause: bool)

  /** A remote call the loop issues. */
  datatype Call = UpdateCall(uuid: string, payload: CheckUpdate) | PauseCall(uuid: string)

  /** The remote service: the outcomes successive attempts of `call`, issued for the
      plan entry at position `i`, receive. */
  type Responder = (nat, Call) -> seq<Outcome<Check>>

  /** How one plan entry ends: all its calls returned; one raised an authentication
      or API error, which the loop counts; one raised any other error, which
      escapes the loop; or one is still being retried. */
  datatype ItemEnd = Completed | CountedError(error: Failure) | Aborted(error: Failure) | Hanging

  /** The calls one plan entry issued, the sleeps made while retrying them, and its end. */
  datatype ItemRun = ItemRun(calls: seq<Call>, sleeps: seq<nat>, end: ItemEnd)

  /** Whether the loop goes on after the entries so far. */
  datatype Progress = Running | Crashed(error: Failure) | Hung

  /** The calls issued, the sleeps made, the error counter and how the loop stands. */
  datatype Execution = Execution(calls: seq<Call>, sleeps: seq<nat>, errors: nat, progress: Progress)

  /** How the command ends: an exit status, an exception escaping it, or never. */
  datatype CommandEnd = Exited(status: nat) | Uncaught(error: Failure) | NeverReturns

  /** The errors the loop's `except` clause catches. */
  predicate Counted(e: Failure) {
    e.AuthError? || e.ApiError?
  }

  /** One plan entry per check of `selected`, in order, each with the payload
      `payload` gives it and the shared pause flag. */
  function PlanOf(selected: seq<Check>, payload: Check -> Option<CheckUpdate>, pause: bool): seq<PlanItem>
    decreases |selected|
  {
    if selected == [] then []
    else
      var n := |selected| - 1;
      PlanOf(selected[..n], payload, pause) + [PlanItem(selected[n], payload(selected[n]), pause)]
  }

  /** The plan `cmd_bulk_update` builds: each entry's payload is `build_update`'s. */
  function Planned(selected: seq<Check>, opts: UpdateOptions, pause: bool): seq<PlanItem> {
    PlanOf(selected, c => BuildUpdate(c, opts), pause)
  }

  lemma {:induction false} PlanOfEntry(selected: seq<Check>, payload: Check -> Option<CheckUpdate>, pause: bool, i: nat)
    requires i < |selected|
    ensures |PlanOf(selected, payload, pause)| == |selected|
    ensures PlanOf(selected, payload, pause)[i] == PlanItem(selected[i], payload(selected[i]), pause)
    decreases |selected|
  {
    var n := |selected| - 1;
    if n > 0 {
      PlanOfEntry(selected[..n], payload, pause, if i < n then i else 0);
    }
  }

  /** The plan has one entry per selected check, and entry `i` is check `i` with
      its payload and the shared pause flag. */
  lemma PlannedEntry(selected: seq<Check>, opts: UpdateOptions, pause: bool, i: nat)
    requires i < |selected|
    ensures |Planned(selected, opts, pause)| == |selected|
    ensures Planned(selected, opts, pause)[i] == PlanItem(selected[i], BuildUpdate(selected[i], opts), pause)
  {
    PlanOfEntry(selected, c => BuildUpdate(c, opts), pause, i);
  }

  /** The plan-building loop. */
  method BuildPlan(selected: seq<Check>, opts: UpdateOptions, pause: bool) returns (plan: seq<PlanItem>)
    ensures plan == Planned(selected, opts, pause)
  {
    plan := [];
    for i := 0 to |selected|
      invariant plan == Planned(selected[..i], opts, pause)
    {
      assert selected[..i + 1][..i] == selected[..i];
      var upd := BuildUpdate(selected[i], opts);
      plan := plan + [PlanItem(selected[i], upd, pause)];
    }
    assert selected[..|selected|] == selected;
  }

  /** One wrapped call, then `next` if the call returned. */
  function AfterCall(r: RetryRun<Check>, call: Call, next: ItemRun): ItemRun {
    match r.end
    case Returned(_) => ItemRun([call] + next.calls, r.sleeps + next.sleeps, next.end)
    case Raised(e) => ItemRun([call], r.sleeps, if Counted(e) then CountedError(e) else Aborted(e))
    case StillRetrying => ItemRun([call], r.sleeps, Hanging)
  }

  /** The pause part of plan entry `i`. */
  function PauseStep(i: nat, item: PlanItem, respond: Responder, maxSleep: nat): ItemRun {
    var call := PauseCall(item.check.uuid);
    if item.pause then AfterCall(Retried(respond(i, call), maxSleep), call, ItemRun([], [], Completed))
    else ItemRun([], [], Completed)
  }

  /** Plan entry `i`: its update first, then its pause only if the update returned. */
  function RunItem(i: nat, item: PlanItem, respond: Responder, maxSleep: nat): ItemRun {
    var rest := PauseStep(i, item, respond, maxSleep);
    if item.update.Some? then
      var call := UpdateCall(item.check.uuid, item.update.value);
      AfterCall(Retried(respond(i, call), maxSleep), call, rest)
    else rest
  }

  /** The execution so far extended by one plan entry's run. */
  function Extend(e: Execution, it: ItemRun): Execution {
    Execution(
      e.calls + it.calls,
      e.sleeps + it.sleeps,
      e.errors + (if it.end.CountedError? then 1 else 0),
      match it.end
      case Aborted(err) => Crashed(err)
      case Hanging => Hung
      case _ => Running)
  }

  /** The execution loop over the whole plan: entries in order, stopping only when
      an error escapes or a call never stops being rate limited. */
  function Executed(plan: seq<PlanItem>, respond: Responder, maxSleep: nat): Execution
    decreases |plan|
  {
    if plan == [] then Execution([], [], 0, Running)
    else
      var n := |plan| - 1;
      var before := Executed(plan[..n], respond, maxSleep);
      if before.progress != Running then before
      else Extend(before, RunItem(n, plan[n], respond, maxSleep))
  }

  /** One wrapped call, as the loop issues it. */
  method ApplyCall(i: nat, call: Call, respond: Responder, maxSleep: nat, next: ItemRun) returns (run: ItemRun)
    ensures run == AfterCall(Retried(respond(i, call), maxSleep), call, next)
  {
    var r := RetryOnRateLimit(respond(i, call), maxSleep);
    match r.end
    case Returned(_) =>
      run := ItemRun([call] + next.calls, r.sleeps + next.sleeps, next.end);
    case Raised(e) =>
      run := ItemRun([call], r.sleeps, if Counted(e) then CountedError(e) else Aborted(e));
    case StillRetrying =>
      run := ItemRun([call], r.sleeps, Hanging);
  }

  /** The body of the loop for plan entry `i`. */
  method ApplyItem(i: nat, item: PlanItem, respond: Responder, maxSleep: nat) returns (run: ItemRun)
    ensures run == RunItem(i, item, respond, maxSleep)
  {
    var done := ItemRun([], [], Completed);
    if item.update.Some? {
      var call := UpdateCall(item.check.uuid, item.update.value);
      var r := RetryOnRateLimit(respond(i, call), maxSleep);
      if !r.end.Returned? {
        run := AfterCall(r, call, done);
        return;
      }
      var rest := done;
      if item.pause {
        rest := ApplyCall(i, PauseCall(item.check.uuid), respond, maxSleep, done);
      }
      run := AfterCall(r, call, rest);
    } else if item.pause {
      run := ApplyCall(i, PauseCall(item.check.uuid), respond, maxSleep, done);
    } else {
      run := done;
    }
  }

  /** Once the loop has stopped, later entries change nothing. */
  lemma {:induction false} StoppedStaysStopped(plan: seq<PlanItem>, k: nat, respond: Responder, maxSleep: nat)
    requires k <= |plan|
    requires Executed(plan[..k], respond, maxSleep).progress != Running
    ensures Executed(plan, respond, maxSleep) == Executed(plan[..k], respond, maxSleep)
    decreases |plan| - k
  {
    if k < |plan| {
      var p := plan[..k + 1];
      assert p[..k] == plan[..k];
      assert Executed(p, respond, maxSleep) == Executed(plan[..k], respond, maxSleep);
      StoppedStaysStopped(plan, k + 1, respond, maxSleep);
    } else {
      assert plan[..k] == plan;
    }
  }

  /** Plan entry `i`'s update, when it has one, returned. */
  predicate UpdateReturned(i: nat, item: PlanItem, respond: Responder, maxSleep: nat) {
    item.update.None?
    || Retried(respond(i, UpdateCall(item.check.uuid, item.update.value)), maxSleep).end.Returned?
  }

  /** Plan entry `i`'s pause was issued and raised an error the loop counts. */
  predicate PauseFailed(i: nat, item: PlanItem, respond: Responder, maxSleep: nat) {
    var end := Retried(respond(i, PauseCall(item.check.uuid)), maxSleep).end;
    item.pause && UpdateReturned(i, item, respond, maxSleep) && end.Raised? && Counted(end.error)
  }

  /** Within one entry the update comes first, and the pause is issued only when
      the entry asks for it and the update (if any) returned. */
  lemma ItemCallOrder(i: nat, item: PlanItem, respond: Responder, maxSleep: nat)
    ensures RunItem(i, item, respond, maxSleep).calls ==
      (if item.update.Some? then [UpdateCall(item.check.uuid, item.update.value)] else [])
      + (if item.pause && UpdateReturned(i, item, respond, maxSleep) then [PauseCall(item.check.uuid)] else [])
  {
  }

  /** An entry counts as an error exactly when its update, or else its pause,
      raised an authentication or API error. */
  lemma ItemErrorCases(i: nat, item: PlanItem, respond: Responder, maxSleep: nat)
    ensures RunItem(i, item, respond, maxSleep).end.CountedError? <==>
      (item.update.Some?
        && var end := Retried(respond(i, UpdateCall(item.check.uuid, item.update.value)), maxSleep).end;
           end.Raised? && Counted(end.error))
      || PauseFailed(i, item, respond, maxSleep)
  {
  }

  /** No entry lets an error escape or keeps being rate limited. */
  predicate Settles(plan: seq<PlanItem>, respond: Responder, maxSleep: nat) {
    forall i :: 0 <= i < |plan| ==>
      (RunItem(i, plan[i], respond, maxSleep).end.Completed? || RunItem(i, plan[i], respond, maxSleep).end.CountedError?)
  }

  /** The positions of the entries that end in a counted error. */
  function FailedItems(plan: seq<PlanItem>, respond: Responder, maxSleep: nat): set<nat> {
    set i: nat | i < |plan| && RunItem(i, plan[i], respond, maxSleep).end.CountedError?
  }

  /** Every entry's calls, in plan order. */
  function AllCalls(plan: seq<PlanItem>, respond: Responder, maxSleep: nat): seq<Call>
    decreases |plan|
  {
    if plan == [] then []
    else
      var n := |plan| - 1;
      AllCalls(plan[..n], respond, maxSleep) + RunItem(n, plan[n], respond, maxSleep).calls
  }

  lemma FailedItemsStep(plan: seq<PlanItem>, respond: Responder, maxSleep: nat)
    requires plan != []
    ensures var n := |plan| - 1;
      FailedItems(plan, respond, maxSleep) ==
        FailedItems(plan[..n], respond, maxSleep)
        + (if RunItem(n, plan[n], respond, maxSleep).end.CountedError? then {n} else {})
    ensures |plan| - 1 !in FailedItems(plan[..|plan| - 1], respond, maxSleep)
  {
    var n := |plan| - 1;
    assert forall i :: 0 <= i < n ==> plan[..n][i] == plan[i];
  }

  /** When no error escapes, every entry is attempted in plan order, however many
      fail; the error counter is the number of entries that failed, and the
      command exits with status 1 exactly when that number is positive. */
  lemma {:induction false} ErrorsCountFailedItems(plan: seq<PlanItem>, respond: Responder, maxSleep: nat)
    requires Settles(plan, respond, maxSleep)
    ensures Executed(plan, respond, maxSleep).progress == Running
    ensures Executed(plan, respond, maxSleep).calls == AllCalls(plan, respond, maxSleep)
    ensures Executed(plan, respond, maxSleep).errors == |FailedItems(plan, respond, maxSleep)|
    ensures Finish(Executed(plan, respond, maxSleep)) ==
      Exited(if FailedItems(plan, respond, maxSleep) != {} then 1 else 0)
    decreases |plan|
  {
    if plan != [] {
      var n := |plan| - 1;
      assert forall i :: 0 <= i < n ==> plan[..n][i] == plan[i];
      assert Settles(plan[..n], respond, maxSleep);
      ErrorsCountFailedItems(plan[..n], respond, maxSleep);
      FailedItemsStep(plan, respond, maxSleep);
      assert RunItem(n, plan[n], respond, maxSleep).end.Completed?
        || RunItem(n, plan[n], respond, maxSleep).end.CountedError?;
    }
  }

  /** The execution loop. */
  method ExecutePlan(plan: seq<PlanItem>, respond: Responder, maxSleep: nat) returns (exec: Execution)
    ensures exec == Executed(plan, respond, maxSleep)
  {
    var calls: seq<Call> := [];
    var sleeps: seq<nat> := [];
    var errors: nat := 0;
    var progress := Running;
    var i := 0;
    while i < |plan| && progress == Running
      invariant i <= |plan|
      invariant Execution(calls, sleeps, errors, progress) == Executed(plan[..i], respond, maxSleep)
    {
      assert plan[..i + 1][..i] == plan[..i];
      var run := ApplyItem(i, plan[i], respond, maxSleep);
      calls := calls + run.calls;
      sleeps := sleeps + run.sleeps;
      match run.end {
        case Completed =>
        case CountedError(_) =>
          errors := errors + 1;
        case Aborted(e) =>
          progress := Crashed(e);
        case Hanging =>
          progress := Hung;
      }
      i := i + 1;
    }
    if i < |plan| {
      StoppedStaysStopped(plan, i, respond, maxSleep);
    } else {
      assert plan[..i] == plan;
    }
    exec := Execution(calls, sleeps, errors, progress);
  }

  /** The exit the command takes after running the loop. */
  function Finish(exec: Execution): CommandEnd {
    match exec.progress
    case Running => Exited(if exec.errors > 0 then 1 else 0)
    case Crashed(e) => Uncaught(e)
    case Hung => NeverReturns
  }

  /** `cmd_bulk_update` from selection on: `confirmed` is the operator's answer to
      the prompt, asked only when neither `yes` nor `dryRun` is set. */
  method BulkUpdateCommand(checks: seq<Check>, crit: Criteria, opts: UpdateOptions, pause: bool,
                           dryRun: bool, yes: bool, confirmed: bool, respond: Responder)
    returns (plan: seq<PlanItem>, exec: Execution, result: CommandEnd)
    ensures plan == Planned(Selected(checks, crit), opts, pause)
    ensures Selected(checks, crit) == [] || dryRun || (!yes && !confirmed) ==>
      exec == Execution([], [], 0, Running) && result == Exited(0)
    ensures Selected(checks, crit) != [] && !dryRun && (yes || confirmed) ==>
      exec == Executed(plan, respond, DefaultMaxSleep) && result == Finish(exec)
  {
    var selected := SelectChecks(checks, crit);
    plan := BuildPlan(selected, opts, pause);
    exec := Execution([], [], 0, Running);
    result := Exited(0);
    if selected == [] {
      return;
    }
    if !yes && !dryRun {
      if !confirmed {
        return;
      }
    }
    if dryRun {
      return;
    }
    exec := ExecutePlan(plan, respond, DefaultMaxSleep);
    if exec.progress == Running {
      result := Exited(if exec.errors > 0 then 1 else 0);
    } else {
      result := Finish(exec);
    }
  }
}
