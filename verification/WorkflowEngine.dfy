/**
 The workflow engine and the nodes that drive it, updating the workflow state in place as `Workflow`
 describes it.
 */
module WorkflowEngine {
  import opened Common
  import opened Workflow

  class Engine {
    const maxToolRetries: nat

    var plan: Option<ExecutionPlan>
    var next: nat
    var rounds: nat
    var jobs: seq<Job>
    var status: TaskStatus
    var pending: seq<string>
    var needsReplan: bool
    var retryAction: Option<string>
    var failedStep: Option<StepKey>
    var lastError: Option<string>
    var retryCounts: map<StepKey, nat>

    /** Which steps were handed to the executor. */
    ghost var executed: seq<(nat, nat)>

    function State(): State
      reads this
    {
      Workflow.State(plan, next, rounds, jobs, status, pending, needsReplan, retryAction, failedStep, lastError,
                     retryCounts)
    }

    constructor (maxToolRetries: nat, status: TaskStatus)
      ensures this.maxToolRetries == maxToolRetries
      ensures Config(PlanNode, State(), executed) == Start(status)
    {
      this.maxToolRetries := maxToolRetries;
      this.status := status;
      plan, next, rounds, jobs := None, 0, 0, [];
      pending, needsReplan, retryAction := [], false, None;
      failedStep, lastError, retryCounts := None, None, map[];
      executed := [];
    }

    method Prepare(steps: seq<Step>)
      modifies this
      ensures State() == Prepared(old(State()), steps) && executed == old(executed)
    {
      var round := rounds;
      plan := Some(ExecutionPlan(round, steps));
      next := 0;
      rounds := rounds + 1;
      ghost var all := JobsOf(ExecutionPlan(round, steps));
      for position := 0 to |steps|
        invariant State() == old(State()).(plan := plan, next := 0, rounds := rounds,
                                           jobs := old(jobs) + all[..position])
        invariant plan == Some(ExecutionPlan(round, steps)) && rounds == round + 1 && executed == old(executed)
      {
        jobs := jobs + [Job(steps[position].action, round, position, steps[position].reason, JobPlanned, None)];
        assert all[..position + 1] == all[..position] + [all[position]];
      }
      assert all[..|steps|] == all;
    }

    method Replan(steps: seq<Step>)
      modifies this
      ensures State() == Replanned(old(State()), steps) && executed == old(executed)
    {
      needsReplan := false;
      retryAction := None;
      failedStep := None;
      lastError := None;
      pending := [];
      retryCounts := map[];
      status := ClarificationRequired;
      Prepare(steps);
    }

    method Fail()
      modifies this
      ensures State() == FailedTask(old(State())) && executed == old(executed)
    {
      status := Failed;
      pending := [];
      needsReplan := false;
      retryAction := None;
    }

    /** The index of the job of a round and position, appending it when there is none. */
    method JobForStep(round: nat, position: nat, step: Step) returns (i: nat)
      modifies this`jobs
      ensures i == JobIndex(old(jobs), round, position) < |jobs|
      ensures jobs == if i < |old(jobs)| then old(jobs)
                      else old(jobs) + [Job(step.action, round, position, step.reason, JobPlanned, None)]
    {
      i := 0;
      while i < |jobs|
        invariant i <= |jobs| && jobs == old(jobs)
        invariant forall k | 0 <= k < i :: !(jobs[k].round == round && jobs[k].position == position)
      {
        if jobs[i].round == round && jobs[i].position == position {
          return;
        }
        i := i + 1;
      }
      jobs := jobs + [Job(step.action, round, position, step.reason, JobPlanned, None)];
    }

    /** Hands the next step to the executor, keeping its job up to date. */
    method Attempt(step: Step, outcome: Outcome)
      requires HasNextStep(State()) && step == plan.value.steps[next]
      modifies this
      ensures State() == Attempted(old(State()), outcome)
      ensures executed == old(executed) + [(plan.value.round, old(next))]
    {
      var i := JobForStep(plan.value.round, next, step);
      ghost var before := jobs;
      assert before == JobsWithStep(old(State()));
      jobs := jobs[i := jobs[i].(status := JobRunning, error := None)];
      executed := executed + [(plan.value.round, next)];
      status, pending := outcome.status, outcome.pending;
      if outcome.error.Some? {
        jobs := jobs[i := jobs[i].(status := JobFailed, error := outcome.error)];
        assert jobs == before[i := before[i].(status := JobFailed, error := outcome.error)];
        return;
      }
      jobs := jobs[i := jobs[i].(status := JobSucceeded)];
      assert jobs == before[i := before[i].(status := JobSucceeded, error := None)];
      next := next + 1;
    }

    /**
     Runs the next step, if there is one. `outcome` is what the executor does: it may change the status
     and the pending actions before it raises.
     */
    method RunStep(expected: Option<string>, outcome: Outcome) returns (error: Option<string>)
      modifies this
      ensures (State(), error) == StepTaken(old(State()), expected, outcome)
      ensures executed == old(executed)
                        + if Executes(old(State()), expected) then [(plan.value.round, old(next))] else []
    {
      if plan.None? {
        return Some("Workflow plan is not prepared.");
      }
      if |plan.value.steps| <= next {
        return None;
      }
      var step := plan.value.steps[next];
      if expected.Some? && step.action != expected.value {
        return Some("Unexpected workflow action.");
      }
      Attempt(step, outcome);
      return outcome.error;
    }

    method RecordFailure(error: string)
      modifies this
      ensures State() == StepFailed(old(State()), error) && executed == old(executed)
    {
      lastError := Some(error);
      var key := if plan.None? || |plan.value.steps| <= next then UnknownStep
                 else StepKey(plan.value.round, next, plan.value.steps[next].action);
      failedStep := Some(key);
      retryCounts := retryCounts[key := (if key in retryCounts then retryCounts[key] else 0) + 1];
    }

    /** The body of the step and retry nodes: an error is recorded and counted against the step. */
    method RunStepNode(expected: Option<string>, outcome: Outcome)
      modifies this
      ensures State() == StepRun(old(State()), expected, outcome)
      ensures executed == old(executed)
                        + if Executes(old(State()), expected) then [(plan.value.round, old(next))] else []
    {
      failedStep := None;
      lastError := None;
      assert State() == old(State()).(failedStep := None, lastError := None);
      var error := RunStep(expected, outcome);
      if error.Some? {
        RecordFailure(error.value);
      }
    }

    /** One node of the graph, returning the node its route leads to. */
    method Visit(node: Node, input: Input) returns (following: Node)
      modifies this
      ensures Config(following, State(), executed)
           == Advance(Config(node, old(State()), old(executed)), input, maxToolRetries)
    {
      match node
      case PlanNode => Prepare(input.steps); return RouteStep;
      case ReplanNode => Replan(input.steps); return RouteStep;
      case RouteStep => return RouteStepRoute(State());
      case StepNode(action) => RunStepNode(Some(action), input.outcome); return RouteAfterStep(State(), maxToolRetries);
      case RetryStep => RunStepNode(None, input.outcome); return RouteAfterStep(State(), maxToolRetries);
      case FailNode => Fail(); return End;
      case RetryHostAction =>
        retryAction, status, pending := None, input.feedback.status, input.feedback.pending;
        return WaitForHostAction;
      case ResumeFromActionResult =>
        lastError, status, pending := None, input.feedback.status, input.feedback.pending;
        needsReplan, retryAction := input.feedback.needsReplan, input.feedback.retryAction;
        return RouteAfterResume(State());
      case WaitForHostAction => return ResumeFromActionResult;
      case End => return End;
    }

    /**
     Drives the graph until it ends or waits for the host, which it always does. If the workflow was
     reached by a run of the graph, then so is the one it leaves, and no step was executed too often.
     */
    method Drive(start: Node, inputs: nat -> Input) returns (node: Node, visits: nat)
      modifies this
      ensures Paused(node)
      ensures Config(node, State(), executed)
           == RunFor(Config(start, old(State()), old(executed)), inputs, visits, maxToolRetries)
      ensures Inv(Config(start, old(State()), old(executed)), maxToolRetries)
          ==> Inv(Config(node, State(), executed), maxToolRetries)
    {
      node, visits := start, 0;
      while !Paused(node)
        invariant Config(node, State(), executed)
               == RunFor(Config(start, old(State()), old(executed)), inputs, visits, maxToolRetries)
        invariant Inv(Config(start, old(State()), old(executed)), maxToolRetries)
              ==> Inv(Config(node, State(), executed), maxToolRetries)
        decreases Phase(node), StepsLeft(State()), TriesLeft(State(), maxToolRetries), Rank(node)
      {
        ghost var before := Config(node, State(), executed);
        node := Visit(node, inputs(visits));
        AdvanceMakesProgress(before, inputs(visits), maxToolRetries);
        if Inv(before, maxToolRetries) {
          AdvanceKeeps(before, inputs(visits), maxToolRetries);
        }
        visits := visits + 1;
      }
    }
  }
}
