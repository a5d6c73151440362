/**
 The workflow graph: planning, running steps with retries, waiting for the host, resuming and
 replanning. The planner, the step executor and the host are arbitrary: whatever they answer is an
 input of the step that asks them.
 */
module Workflow {
  import opened Common

  datatype TaskStatus = ClarificationRequired | AwaitingDecision | ReadyForHostAction | Completed | Failed | Rejected

  datatype JobStatus = JobPlanned | JobRunning | JobSucceeded | JobFailed

  datatype Job = Job(action: string, round: nat, position: nat, reason: string, status: JobStatus,
                     error: Option<string>)

  datatype Step = Step(action: string, reason: string)

  datatype ExecutionPlan = ExecutionPlan(round: nat, steps: seq<Step>)

  /** The key under which failures of a step are counted. */
  datatype StepKey = StepKey(round: nat, index: nat, action: string) | UnknownStep

  datatype State = State(
    plan: Option<ExecutionPlan>,
    next: nat,
    rounds: nat,
    jobs: seq<Job>,
    status: TaskStatus,
    pending: seq<string>,
    needsReplan: bool,
    retryAction: Option<string>,
    failedStep: Option<StepKey>,
    lastError: Option<string>,
    retryCounts: map<StepKey, nat>)

  /** What a step did: whether it raised an error, and the task status and pending actions it left. */
  datatype Outcome = Outcome(error: Option<string>, status: TaskStatus, pending: seq<string>)

  /** What a host action result made of the task. */
  datatype Feedback = Feedback(status: TaskStatus, pending: seq<string>, needsReplan: bool, retryAction: Option<string>)

  datatype Input = Input(steps: seq<Step>, outcome: Outcome, feedback: Feedback)

  datatype Node =
    | PlanNode | RouteStep | StepNode(action: string) | RetryStep | ReplanNode | RetryHostAction
    | FailNode | WaitForHostAction | ResumeFromActionResult | End

  // The engine

  function JobsOf(plan: ExecutionPlan): (jobs: seq<Job>)
    ensures |jobs| == |plan.steps|
  {
    seq(|plan.steps|, p requires 0 <= p < |plan.steps| =>
      Job(plan.steps[p].action, plan.round, p, plan.steps[p].reason, JobPlanned, None))
  }

  function Prepared(s: State, steps: seq<Step>): State {
    var plan := ExecutionPlan(s.rounds, steps);
    s.(plan := Some(plan), next := 0, rounds := s.rounds + 1, jobs := s.jobs + JobsOf(plan))
  }

  function Replanned(s: State, steps: seq<Step>): State {
    Prepared(s.(needsReplan := false, retryAction := None, failedStep := None, lastError := None, pending := [],
                retryCounts := map[], status := ClarificationRequired), steps)
  }

  function FailedTask(s: State): State {
    s.(status := Failed, pending := [], needsReplan := false, retryAction := None)
  }

  predicate HasNextStep(s: State) {
    s.plan.Some? && s.next < |s.plan.value.steps|
  }

  function CurrentStepKey(s: State): StepKey {
    if HasNextStep(s) then StepKey(s.plan.value.round, s.next, s.plan.value.steps[s.next].action) else UnknownStep
  }

  function RetryCount(s: State, key: StepKey): nat {
    if key in s.retryCounts then s.retryCounts[key] else 0
  }

  predicate CanRetryStep(s: State, maxRetries: nat) {
    s.failedStep.Some? && RetryCount(s, s.failedStep.value) <= maxRetries
  }

  /** The first job of a round and position, or the number of jobs. */
  function JobIndex(jobs: seq<Job>, round: nat, position: nat): (i: nat)
    ensures i <= |jobs|
    ensures i < |jobs| ==> jobs[i].round == round && jobs[i].position == position
    ensures forall k | 0 <= k < i :: !(jobs[k].round == round && jobs[k].position == position)
  {
    if jobs == [] || (jobs[0].round == round && jobs[0].position == position) then 0
    else 1 + JobIndex(jobs[1..], round, position)
  }

  function JobsWithStep(s: State): (jobs: seq<Job>)
    requires HasNextStep(s)
    ensures JobIndex(s.jobs, s.plan.value.round, s.next) < |jobs|
  {
    var step := s.plan.value.steps[s.next];
    if JobIndex(s.jobs, s.plan.value.round, s.next) < |s.jobs| then s.jobs
    else s.jobs + [Job(step.action, s.plan.value.round, s.next, step.reason, JobPlanned, None)]
  }

  function StepFailed(s: State, error: string): State {
    var key := CurrentStepKey(s);
    s.(lastError := Some(error), failedStep := Some(key), retryCounts := s.retryCounts[key := RetryCount(s, key) + 1])
  }

  /** The executor is called exactly when there is a step and it is the expected one. */
  predicate Executes(s: State, expected: Option<string>) {
    HasNextStep(s) && (expected.Some? ==> s.plan.value.steps[s.next].action == expected.value)
  }

  /** What the executor leaves: its effects on the task, and the outcome in the job of the step. */
  function Attempted(s: State, outcome: Outcome): State
    requires HasNextStep(s)
  {
    var i, jobs := JobIndex(s.jobs, s.plan.value.round, s.next), JobsWithStep(s);
    if outcome.error.Some? then
      s.(status := outcome.status, pending := outcome.pending,
         jobs := jobs[i := jobs[i].(status := JobFailed, error := outcome.error)])
    else
      s.(status := outcome.status, pending := outcome.pending,
         jobs := jobs[i := jobs[i].(status := JobSucceeded, error := None)], next := s.next + 1)
  }

  /** Running a step: the state it leaves, and the error it raises. */
  function StepTaken(s: State, expected: Option<string>, outcome: Outcome): (State, Option<string>) {
    if s.plan.None? then (s, Some("Workflow plan is not prepared."))
    else if !HasNextStep(s) then (s, None)
    else if !Executes(s, expected) then (s, Some("Unexpected workflow action."))
    else (Attempted(s, outcome), outcome.error)
  }

  /** A step node: an error is recorded and counted against the step. */
  function StepRun(s: State, expected: Option<string>, outcome: Outcome): State {
    var (t, error) := StepTaken(s.(failedStep := None, lastError := None), expected, outcome);
    if error.Some? then StepFailed(t, error.value) else t
  }

  function ResultApplied(s: State, feedback: Feedback): State {
    s.(lastError := None, status := feedback.status, pending := feedback.pending,
       needsReplan := feedback.needsReplan, retryAction := feedback.retryAction)
  }

  function HostActionRetried(s: State, feedback: Feedback): State {
    s.(retryAction := None, status := feedback.status, pending := feedback.pending)
  }

  // The graph

  predicate Terminal(status: TaskStatus) {
    status.Completed? || status.Failed? || status.Rejected?
  }

  function RouteStepRoute(s: State): Node {
    if HasNextStep(s) then StepNode(s.plan.value.steps[s.next].action) else End
  }

  function RouteAfterStep(s: State, maxRetries: nat): Node {
    if Terminal(s.status) then End
    else if s.lastError.Some? then if CanRetryStep(s, maxRetries) then RetryStep else FailNode
    else if s.pending != [] then WaitForHostAction
    else if HasNextStep(s) then RouteStep
    else End
  }

  function RouteAfterResume(s: State): Node {
    if Terminal(s.status) then End
    else if s.lastError.Some? then FailNode
    else if s.needsReplan then ReplanNode
    else if s.retryAction.Some? then RetryHostAction
    else if s.pending != [] then WaitForHostAction
    else if HasNextStep(s) then RouteStep
    else End
  }

  /** A node of the graph with the state it is given, and the (round, index) of every step executed so far. */
  datatype Config = Config(node: Node, state: State, executed: seq<(nat, nat)>)

  function Ran(c: Config, expected: Option<string>, outcome: Outcome, maxRetries: nat): Config {
    var s := StepRun(c.state, expected, outcome);
    Config(RouteAfterStep(s, maxRetries), s,
           if Executes(c.state, expected) then c.executed + [(c.state.plan.value.round, c.state.next)] else c.executed)
  }

  function Advance(c: Config, input: Input, maxRetries: nat): Config {
    match c.node
    case PlanNode => c.(node := RouteStep, state := Prepared(c.state, input.steps))
    case ReplanNode => c.(node := RouteStep, state := Replanned(c.state, input.steps))
    case RouteStep => c.(node := RouteStepRoute(c.state))
    case StepNode(action) => Ran(c, Some(action), input.outcome, maxRetries)
    case RetryStep => Ran(c, None, input.outcome, maxRetries)
    case RetryHostAction => c.(node := WaitForHostAction, state := HostActionRetried(c.state, input.feedback))
    case FailNode => c.(node := End, state := FailedTask(c.state))
    case WaitForHostAction => c.(node := ResumeFromActionResult)
    case ResumeFromActionResult =>
      var s := ResultApplied(c.state, input.feedback);
      c.(node := RouteAfterResume(s), state := s)
    case End => c
  }

  // Progress

  function Phase(node: Node): nat {
    match node
    case ResumeFromActionResult => 2
    case PlanNode => 1
    case ReplanNode => 1
    case _ => 0
  }

  function StepsLeft(s: State): nat {
    if HasNextStep(s) then |s.plan.value.steps| - s.next else 0
  }

  function TriesLeft(s: State, maxRetries: nat): nat {
    var n := RetryCount(s, CurrentStepKey(s));
    if n <= maxRetries then maxRetries + 1 - n else 0
  }

  function Rank(node: Node): nat {
    match node
    case RouteStep => 3
    case StepNode(_) => 2
    case RetryStep => 2
    case FailNode => 1
    case RetryHostAction => 1
    case _ => 0
  }

  predicate Paused(node: Node) {
    node.End? || node.WaitForHostAction?
  }

  /** The measures, compared in order: phase, steps left, tries left, rank. */
  predicate Progresses(c: Config, d: Config, maxRetries: nat) {
    || Phase(d.node) < Phase(c.node)
    || (Phase(d.node) == Phase(c.node) &&
        (|| StepsLeft(d.state) < StepsLeft(c.state)
         || (StepsLeft(d.state) == StepsLeft(c.state) &&
             (|| TriesLeft(d.state, maxRetries) < TriesLeft(c.state, maxRetries)
              || (TriesLeft(d.state, maxRetries) == TriesLeft(c.state, maxRetries) && Rank(d.node) < Rank(c.node))))))
  }

  lemma {:induction false} FailureMakesProgress(s: State, t: State, error: string, maxRetries: nat)
    requires t.plan == s.plan && t.next == s.next && t.retryCounts == s.retryCounts
    ensures var u := StepFailed(t, error);
            && StepsLeft(u) == StepsLeft(s)
            && TriesLeft(u, maxRetries) <= TriesLeft(s, maxRetries)
            && (CanRetryStep(u, maxRetries) ==> TriesLeft(u, maxRetries) < TriesLeft(s, maxRetries))
  {
    assert CurrentStepKey(t) == CurrentStepKey(s) == CurrentStepKey(StepFailed(t, error));
  }

  lemma {:induction false} TakenMakesProgress(s: State, expected: Option<string>, outcome: Outcome)
    ensures var (t, error) := StepTaken(s, expected, outcome);
            && (error.Some? ==> t.plan == s.plan && t.next == s.next && t.retryCounts == s.retryCounts)
            && (error.None? ==> StepsLeft(t) < StepsLeft(s) || (t == s && !HasNextStep(s)))
  {
  }

  lemma {:induction false} RanMakesProgress(c: Config, expected: Option<string>, outcome: Outcome, maxRetries: nat)
    requires c.node.StepNode? || c.node.RetryStep?
    ensures Progresses(c, Ran(c, expected, outcome, maxRetries), maxRetries)
  {
    var s := c.state.(failedStep := None, lastError := None);
    TakenMakesProgress(s, expected, outcome);
    var (t, error) := StepTaken(s, expected, outcome);
    assert CurrentStepKey(s) == CurrentStepKey(c.state) && StepsLeft(s) == StepsLeft(c.state);
    if error.Some? {
      FailureMakesProgress(c.state, t, error.value, maxRetries);
    }
  }

  /**
   Whatever the planner, the executor and the host answer, every step of the graph makes progress until
   it waits for the host or ends.
   */
  lemma {:induction false} AdvanceMakesProgress(c: Config, input: Input, maxRetries: nat)
    requires !Paused(c.node)
    ensures Progresses(c, Advance(c, input, maxRetries), maxRetries)
  {
    match c.node
    case StepNode(action) => RanMakesProgress(c, Some(action), input.outcome, maxRetries);
    case RetryStep => RanMakesProgress(c, None, input.outcome, maxRetries);
    case _ =>
  }

  function RunFor(c: Config, inputs: nat -> Input, n: nat, maxRetries: nat): Config {
    if n == 0 then c else Advance(RunFor(c, inputs, n - 1, maxRetries), inputs(n - 1), maxRetries)
  }

  lemma {:induction false} ReachesPauseFrom(c: Config, inputs: nat -> Input, k: nat, d: Config, maxRetries: nat)
    returns (n: nat)
    requires d == RunFor(c, inputs, k, maxRetries)
    ensures Paused(RunFor(c, inputs, n, maxRetries).node)
    decreases Phase(d.node), StepsLeft(d.state), TriesLeft(d.state, maxRetries), Rank(d.node)
  {
    n := k;
    if !Paused(d.node) {
      AdvanceMakesProgress(d, inputs(k), maxRetries);
      n := ReachesPauseFrom(c, inputs, k + 1, Advance(d, inputs(k), maxRetries), maxRetries);
    }
  }

  /** From any state of the graph, and for any pattern of failures, the graph ends or waits for the host. */
  lemma {:induction false} ReachesPause(c: Config, inputs: nat -> Input, maxRetries: nat)
    ensures exists n: nat :: Paused(RunFor(c, inputs, n, maxRetries).node)
  {
    var n := ReachesPauseFrom(c, inputs, 0, c, maxRetries);
  }

  // What holds in every run

  /** The place in the job list where the jobs of the current plan start. */
  function Base(s: State): int
    requires s.plan.Some?
  {
    |s.jobs| - |s.plan.value.steps|
  }

  /** The jobs of the current plan are the last ones, in order; older jobs are of older rounds. */
  ghost predicate JobsMatchPlan(s: State) {
    if s.plan.None? then s.jobs == [] && s.rounds == 0
    else
      var plan := s.plan.value;
      && s.rounds == plan.round + 1
      && s.next <= |plan.steps| <= |s.jobs|
      && (forall k | 0 <= k < Base(s) :: s.jobs[k].round < plan.round)
      && (forall k | Base(s) <= k < |s.jobs| ::
            && s.jobs[k].round == plan.round && s.jobs[k].position == k - Base(s)
            && s.jobs[k].action == plan.steps[k - Base(s)].action)
  }

  function TrackedStatus(s: State, position: int): JobStatus {
    if position < s.next then JobSucceeded
    else if position == s.next && 0 < RetryCount(s, CurrentStepKey(s)) then JobFailed
    else JobPlanned
  }

  /** The jobs before the next step succeeded, those after it are planned, its own has failed if it was tried. */
  ghost predicate JobsTrackSteps(s: State) {
    s.plan.Some? ==>
      && 0 <= Base(s)
      && forall k | Base(s) <= k < |s.jobs| :: s.jobs[k].status == TrackedStatus(s, k - Base(s))
  }

  ghost predicate UniqueJobs(jobs: seq<Job>) {
    forall i, j | 0 <= i < j < |jobs| :: !(jobs[i].round == jobs[j].round && jobs[i].position == jobs[j].position)
  }

  ghost predicate NoneRunning(jobs: seq<Job>) {
    forall i | 0 <= i < |jobs| :: !jobs[i].status.JobRunning?
  }

  function Executions(executed: seq<(nat, nat)>, step: (nat, nat)): nat {
    multiset(executed)[step]
  }

  /** The counted failures of the next step are its executions so far; later steps have neither. */
  ghost predicate CountsMatchExecutions(c: Config, maxRetries: nat) {
    && (forall e | e in c.executed :: e.0 < c.state.rounds)
    && (forall e :: Executions(c.executed, e) <= maxRetries + 1)
    && (c.state.plan.Some? ==>
          var round := c.state.plan.value.round;
          && (forall i | c.state.next < i :: Executions(c.executed, (round, i)) == 0)
          && (forall key | key in c.state.retryCounts ::
                key.StepKey? && (key.round == round ==> key.index <= c.state.next))
          && Executions(c.executed, (round, c.state.next)) == RetryCount(c.state, CurrentStepKey(c.state)))
  }

  /** The next step has failures counted against it only at the nodes a failure leads to. */
  ghost predicate NodeFits(c: Config, maxRetries: nat) {
    var failures := RetryCount(c.state, CurrentStepKey(c.state));
    match c.node
    case PlanNode => c.state.plan.None? && c.state.retryCounts == map[]
    case RouteStep => c.state.plan.Some? && failures == 0
    case StepNode(action) => Executes(c.state, Some(action)) && failures == 0
    case RetryStep => HasNextStep(c.state) && 0 < failures <= maxRetries
    case FailNode => c.state.plan.Some? && maxRetries < failures
    case End => c.state.plan.Some? && (Terminal(c.state.status) || !HasNextStep(c.state))
    case _ => c.state.plan.Some? && failures == 0
  }

  ghost predicate Inv(c: Config, maxRetries: nat) {
    && JobsMatchPlan(c.state) && JobsTrackSteps(c.state) && UniqueJobs(c.state.jobs) && NoneRunning(c.state.jobs)
    && CountsMatchExecutions(c, maxRetries) && NodeFits(c, maxRetries)
  }

  lemma {:induction false} FindsJob(jobs: seq<Job>, round: nat, position: nat, i: nat)
    requires i < |jobs| && jobs[i].round == round && jobs[i].position == position && UniqueJobs(jobs)
    ensures JobIndex(jobs, round, position) == i
  {
    var j := JobIndex(jobs, round, position);
    assert j <= i && jobs[j].round == round && jobs[j].position == position;
  }

  /** The step that is run next finds its job: no job is ever created during execution. */
  lemma {:induction false} NextStepHasItsJob(s: State)
    requires HasNextStep(s) && JobsMatchPlan(s) && UniqueJobs(s.jobs)
    ensures JobIndex(s.jobs, s.plan.value.round, s.next) == Base(s) + s.next
    ensures JobsWithStep(s) == s.jobs
  {
    assert Base(s) <= Base(s) + s.next < |s.jobs|;
    FindsJob(s.jobs, s.plan.value.round, s.next, Base(s) + s.next);
  }

  /** New jobs stay unique exactly when no job of the round is there yet. */
  lemma {:induction false} PreparedJobsUnique(s: State, steps: seq<Step>)
    requires UniqueJobs(s.jobs)
    ensures UniqueJobs(Prepared(s, steps).jobs)
       <==> forall k | 0 <= k < |s.jobs| :: !(s.jobs[k].round == s.rounds && s.jobs[k].position < |steps|)
  {
    var jobs, n := Prepared(s, steps).jobs, |s.jobs|;
    assert forall p | n <= p < |jobs| :: jobs[p].round == s.rounds && jobs[p].position == p - n;
    assert forall k | 0 <= k < n :: jobs[k] == s.jobs[k];
    if k :| 0 <= k < n && s.jobs[k].round == s.rounds && s.jobs[k].position < |steps| {
      assert jobs[n + s.jobs[k].position].position == jobs[k].position;
    }
  }

  lemma {:induction false} PreparedKeeps(c: Config, s: State, steps: seq<Step>, maxRetries: nat)
    requires JobsMatchPlan(s) && UniqueJobs(s.jobs) && NoneRunning(s.jobs) && s.retryCounts == map[]
    requires forall e | e in c.executed :: e.0 < s.rounds
    requires forall e :: Executions(c.executed, e) <= maxRetries + 1
    ensures Inv(c.(node := RouteStep, state := Prepared(s, steps)), maxRetries)
  {
    PreparedJobsUnique(s, steps);
    var after := Prepared(s, steps);
    assert Base(after) == |s.jobs|;
    assert RetryCount(after, CurrentStepKey(after)) == 0;
    assert forall k | 0 <= k < |s.jobs| :: after.jobs[k] == s.jobs[k];
    forall i: nat ensures Executions(c.executed, (s.rounds, i)) == 0 {
      assert (s.rounds, i) !in c.executed;
    }
  }

  lemma {:induction false} ExecutedOnceMore(executed: seq<(nat, nat)>, step: (nat, nat), e: (nat, nat))
    ensures Executions(executed + [step], e) == Executions(executed, e) + if e == step then 1 else 0
  {
  }

  /** Setting the status of one job keeps who the jobs are. */
  lemma {:induction false} JobUpdated(jobs: seq<Job>, i: nat, status: JobStatus, error: Option<string>)
    requires i < |jobs| && UniqueJobs(jobs) && NoneRunning(jobs) && !status.JobRunning?
    ensures UniqueJobs(jobs[i := jobs[i].(status := status, error := error)])
    ensures NoneRunning(jobs[i := jobs[i].(status := status, error := error)])
  {
  }

  lemma {:induction false} TrackedAfterExecution(s: State, t: State, status: JobStatus, error: Option<string>)
    requires HasNextStep(s) && JobsMatchPlan(s) && JobsTrackSteps(s)
    requires t.plan == s.plan && t.rounds == s.rounds
    requires var i := Base(s) + s.next;
             t.jobs == s.jobs[i := s.jobs[i].(status := status, error := error)]
    requires || (t.next == s.next + 1 && status == JobSucceeded && RetryCount(t, CurrentStepKey(t)) == 0)
             || (t.next == s.next && status == JobFailed && 0 < RetryCount(t, CurrentStepKey(t)))
    ensures JobsMatchPlan(t) && JobsTrackSteps(t)
  {
    assert Base(t) == Base(s);
    forall k | Base(t) <= k < |t.jobs| ensures t.jobs[k].status == TrackedStatus(t, k - Base(t)) {
      assert s.jobs[k].status == TrackedStatus(s, k - Base(s));
    }
  }

  function StepExecuted(s: State, outcome: Outcome): State
    requires HasNextStep(s)
  {
    if outcome.error.Some? then StepFailed(Attempted(s, outcome), outcome.error.value) else Attempted(s, outcome)
  }

  lemma {:induction false} JobsAfterExecution(s: State, outcome: Outcome)
    requires HasNextStep(s) && JobsMatchPlan(s) && JobsTrackSteps(s) && UniqueJobs(s.jobs) && NoneRunning(s.jobs)
    requires forall key | key in s.retryCounts ::
               key.StepKey? && (key.round == s.plan.value.round ==> key.index <= s.next)
    ensures var t := StepExecuted(s, outcome);
            JobsMatchPlan(t) && JobsTrackSteps(t) && UniqueJobs(t.jobs) && NoneRunning(t.jobs)
  {
    NextStepHasItsJob(s);
    var t := StepExecuted(s, outcome);
    var i := Base(s) + s.next;
    var status := if outcome.error.Some? then JobFailed else JobSucceeded;
    JobUpdated(s.jobs, i, status, outcome.error);
    if outcome.error.Some? {
      assert CurrentStepKey(t) == CurrentStepKey(s);
    } else {
      assert RetryCount(t, CurrentStepKey(t)) == 0;
    }
    TrackedAfterExecution(s, t, status, outcome.error);
  }

  lemma {:induction false} CountsAfterExecution(c: Config, s: State, outcome: Outcome, maxRetries: nat)
    requires HasNextStep(s) && s.rounds == s.plan.value.round + 1
    requires CountsMatchExecutions(c, maxRetries) && s == c.state.(failedStep := None, lastError := None)
    requires RetryCount(s, CurrentStepKey(s)) <= maxRetries
    ensures var executed := c.executed + [(s.plan.value.round, s.next)];
            CountsMatchExecutions(Config(c.node, StepExecuted(s, outcome), executed), maxRetries)
  {
    var step := (s.plan.value.round, s.next);
    var executed, t := c.executed + [step], StepExecuted(s, outcome);
    forall e ensures Executions(executed, e) == Executions(c.executed, e) + if e == step then 1 else 0 {
      ExecutedOnceMore(c.executed, step, e);
    }
    assert CurrentStepKey(s) == CurrentStepKey(c.state);
    forall e ensures Executions(executed, e) <= maxRetries + 1 {
      if e == step {
        assert Executions(c.executed, step) == RetryCount(s, CurrentStepKey(s));
      }
    }
    if outcome.error.Some? {
      assert CurrentStepKey(t) == CurrentStepKey(s);
    } else {
      assert RetryCount(t, CurrentStepKey(t)) == 0;
      assert Executions(executed, (step.0, s.next + 1)) == 0;
    }
  }

  lemma {:induction false} RanFits(c: Config, expected: Option<string>, outcome: Outcome, maxRetries: nat)
    requires Executes(c.state, expected)
    requires forall key | key in c.state.retryCounts ::
               key.StepKey? && (key.round == c.state.plan.value.round ==> key.index <= c.state.next)
    ensures NodeFits(Ran(c, expected, outcome, maxRetries), maxRetries)
  {
    var s := c.state.(failedStep := None, lastError := None);
    var t := StepExecuted(s, outcome);
    if outcome.error.Some? {
      assert CurrentStepKey(t) == CurrentStepKey(s) && t.failedStep == Some(CurrentStepKey(s));
    } else {
      assert RetryCount(t, CurrentStepKey(t)) == 0;
    }
  }

  lemma {:induction false} RanKeeps(c: Config, expected: Option<string>, outcome: Outcome, maxRetries: nat)
    requires Inv(c, maxRetries) && Executes(c.state, expected)
    requires RetryCount(c.state, CurrentStepKey(c.state)) <= maxRetries
    ensures Inv(Ran(c, expected, outcome, maxRetries), maxRetries)
  {
    var s := c.state.(failedStep := None, lastError := None);
    OtherFieldsKeep(c, c.(state := s), maxRetries);
    JobsAfterExecution(s, outcome);
    CountsAfterExecution(c, s, outcome, maxRetries);
    RanFits(c, expected, outcome, maxRetries);
    var d := Ran(c, expected, outcome, maxRetries);
    assert d.state == StepExecuted(s, outcome);
    NodeDoesNotCount(d, c.node, maxRetries);
  }

  lemma {:induction false} NodeDoesNotCount(c: Config, node: Node, maxRetries: nat)
    ensures CountsMatchExecutions(c, maxRetries) == CountsMatchExecutions(c.(node := node), maxRetries)
  {
  }

  lemma {:induction false} OtherFieldsKeep(c: Config, d: Config, maxRetries: nat)
    requires Inv(c, maxRetries) && d.executed == c.executed
    requires d.state == c.state.(status := d.state.status, pending := d.state.pending,
                                 needsReplan := d.state.needsReplan, retryAction := d.state.retryAction,
                                 failedStep := d.state.failedStep, lastError := d.state.lastError)
    ensures NodeFits(d, maxRetries) ==> Inv(d, maxRetries)
    ensures d.node == c.node && !c.node.End? ==> Inv(d, maxRetries)
  {
    assert CurrentStepKey(d.state) == CurrentStepKey(c.state);
    if c.state.plan.Some? {
      assert Base(d.state) == Base(c.state);
    }
    assert JobsTrackSteps(d.state);
    assert CountsMatchExecutions(d, maxRetries);
  }

  lemma {:induction false} PlanningKeeps(c: Config, input: Input, maxRetries: nat)
    requires Inv(c, maxRetries) && (c.node.PlanNode? || c.node.ReplanNode?)
    ensures Inv(Advance(c, input, maxRetries), maxRetries)
  {
    var s := if c.node.PlanNode? then c.state
             else c.state.(needsReplan := false, retryAction := None, failedStep := None, lastError := None,
                           pending := [], retryCounts := map[], status := ClarificationRequired);
    PreparedKeeps(c, s, input.steps, maxRetries);
  }

  lemma {:induction false} OtherNodesKeep(c: Config, input: Input, maxRetries: nat)
    requires Inv(c, maxRetries)
    requires !(c.node.PlanNode? || c.node.ReplanNode? || c.node.StepNode? || c.node.RetryStep?)
    ensures Inv(Advance(c, input, maxRetries), maxRetries)
  {
    OtherFieldsKeep(c, Advance(c, input, maxRetries), maxRetries);
  }

  lemma {:induction false} AdvanceKeeps(c: Config, input: Input, maxRetries: nat)
    requires Inv(c, maxRetries)
    ensures Inv(Advance(c, input, maxRetries), maxRetries)
  {
    match c.node
    case PlanNode => PlanningKeeps(c, input, maxRetries);
    case ReplanNode => PlanningKeeps(c, input, maxRetries);
    case StepNode(action) => RanKeeps(c, Some(action), input.outcome, maxRetries);
    case RetryStep => RanKeeps(c, None, input.outcome, maxRetries);
    case _ => OtherNodesKeep(c, input, maxRetries);
  }

  function Start(status: TaskStatus): Config {
    Config(PlanNode, State(None, 0, 0, [], status, [], false, None, None, None, map[]), [])
  }

  function Run(c: Config, inputs: seq<Input>, maxRetries: nat): Config
    decreases |inputs|
  {
    if inputs == [] then c else Run(Advance(c, inputs[0], maxRetries), inputs[1..], maxRetries)
  }

  lemma {:induction false} RunKeeps(c: Config, inputs: seq<Input>, maxRetries: nat)
    requires Inv(c, maxRetries)
    ensures Inv(Run(c, inputs, maxRetries), maxRetries)
    decreases |inputs|
  {
    if inputs != [] {
      AdvanceKeeps(c, inputs[0], maxRetries);
      RunKeeps(Advance(c, inputs[0], maxRetries), inputs[1..], maxRetries);
    }
  }

  /**
   In every run that starts without jobs, across waits and replans: no step is executed more than
   `maxRetries + 1` times, and the jobs are a faithful trace.
   */
  lemma {:induction false} RunsAreTraced(status: TaskStatus, inputs: seq<Input>, maxRetries: nat)
    ensures var c := Run(Start(status), inputs, maxRetries);
            && (forall step :: Executions(c.executed, step) <= maxRetries + 1)
            && UniqueJobs(c.state.jobs) && NoneRunning(c.state.jobs)
            && JobsMatchPlan(c.state) && JobsTrackSteps(c.state)
  {
    RunKeeps(Start(status), inputs, maxRetries);
  }

  /** The jobs of a list before its last `recent` are unchanged, the others keep their identity. */
  ghost predicate KeepsJobs(before: seq<Job>, after: seq<Job>, recent: nat) {
    && |before| <= |after|
    && forall k | 0 <= k < |before| ::
         && after[k].round == before[k].round && after[k].position == before[k].position
         && after[k].action == before[k].action && (k < |before| - recent ==> after[k] == before[k])
  }

  lemma {:induction false} AttemptKeepsJobs(s: State, outcome: Outcome)
    requires HasNextStep(s) && JobsMatchPlan(s) && UniqueJobs(s.jobs)
    ensures |Attempted(s, outcome).jobs| == |s.jobs|
    ensures KeepsJobs(s.jobs, Attempted(s, outcome).jobs, |s.plan.value.steps|)
  {
    NextStepHasItsJob(s);
  }

  /** Jobs are only ever added by planning, and the jobs of earlier rounds never change. */
  lemma {:induction false} OnlyPlanningAddsJobs(c: Config, input: Input, maxRetries: nat)
    requires Inv(c, maxRetries)
    ensures var before, after := c.state.jobs, Advance(c, input, maxRetries).state.jobs;
            && |after| == |before| + (if c.node.PlanNode? || c.node.ReplanNode? then |input.steps| else 0)
            && KeepsJobs(before, after, if c.state.plan.Some? then |c.state.plan.value.steps| else 0)
  {
    if c.node.StepNode? || c.node.RetryStep? {
      var s := c.state.(failedStep := None, lastError := None);
      AttemptKeepsJobs(s, input.outcome);
      assert Advance(c, input, maxRetries).state.jobs == Attempted(s, input.outcome).jobs;
    }
  }

  /**
   Where a step leads: an error is retried while the step was executed at most `maxRetries` times and
   fails the task when it was executed once more; a success waits for pending host actions, goes on to
   the next step, or ends after the last one. A terminal status ends the run whatever the step did.
   */
  lemma {:induction false} StepExits(c: Config, input: Input, maxRetries: nat)
    requires Inv(c, maxRetries) && (c.node.StepNode? || c.node.RetryStep?)
    ensures HasNextStep(c.state)
    ensures var d, o := Advance(c, input, maxRetries), input.outcome;
            var tries := Executions(d.executed, (c.state.plan.value.round, c.state.next));
            var last := c.state.next + 1 == |c.state.plan.value.steps|;
            && tries == Executions(c.executed, (c.state.plan.value.round, c.state.next)) + 1
            && (d.node == RetryStep <==> !Terminal(o.status) && o.error.Some? && tries <= maxRetries)
            && (d.node == FailNode <==> !Terminal(o.status) && o.error.Some? && tries == maxRetries + 1)
            && (d.node == WaitForHostAction <==> !Terminal(o.status) && o.error.None? && o.pending != [])
            && (d.node == RouteStep <==> !Terminal(o.status) && o.error.None? && o.pending == [] && !last)
            && (d.node == End <==> Terminal(o.status) || (o.error.None? && o.pending == [] && last))
  {
    var s := c.state.(failedStep := None, lastError := None);
    var step := (c.state.plan.value.round, c.state.next);
    ExecutedOnceMore(c.executed, step, step);
    assert CurrentStepKey(s) == CurrentStepKey(c.state);
    AttemptRoutes(s, input.outcome, maxRetries);
  }

  lemma {:induction false} AttemptRoutes(s: State, o: Outcome, maxRetries: nat)
    requires HasNextStep(s) && s.lastError.None?
    ensures var t := StepExecuted(s, o);
            var failures := RetryCount(s, CurrentStepKey(s)) + if o.error.Some? then 1 else 0;
            RouteAfterStep(t, maxRetries)
            == if Terminal(o.status) then End
               else if o.error.Some? then if failures <= maxRetries then RetryStep else FailNode
               else if o.pending != [] then WaitForHostAction
               else if s.next + 1 < |s.plan.value.steps| then RouteStep
               else End
  {
    var t := Attempted(s, o);
    if o.error.Some? {
      assert CurrentStepKey(t) == CurrentStepKey(s);
    }
  }

  /** A failed step is remembered by its round, position and action, with its error, in the state and in its job. */
  lemma {:induction false} FailureIsRecorded(c: Config, input: Input, maxRetries: nat)
    requires Inv(c, maxRetries) && (c.node.StepNode? || c.node.RetryStep?) && input.outcome.error.Some?
    ensures HasNextStep(c.state)
    ensures var s, t := c.state, Advance(c, input, maxRetries).state;
            var step := StepKey(s.plan.value.round, s.next, s.plan.value.steps[s.next].action);
            var job := Base(s) + s.next;
            && t.lastError == input.outcome.error && t.failedStep == Some(step)
            && RetryCount(t, step) == Executions(c.executed, (s.plan.value.round, s.next)) + 1
            && t.plan == s.plan && t.next == s.next && |t.jobs| == |s.jobs| && 0 <= job < |s.jobs|
            && t.jobs[job] == s.jobs[job].(status := JobFailed, error := input.outcome.error)
            && forall k | 0 <= k < |s.jobs| && k != job :: t.jobs[k] == s.jobs[k]
  {
    var s := c.state.(failedStep := None, lastError := None);
    NextStepHasItsJob(s);
    assert CurrentStepKey(Attempted(s, input.outcome)) == CurrentStepKey(c.state);
  }

  /** The failure node ends the run as failed, with nothing pending, and leaves error, plan and jobs as they are. */
  lemma {:induction false} FailNodeEnds(d: Config, next: Input, maxRetries: nat)
    requires d.node == FailNode
    ensures var e := Advance(d, next, maxRetries);
            && e.node == End && e.state.status == Failed && e.state.pending == [] && e.executed == d.executed
            && !e.state.needsReplan && e.state.retryAction == None
            && e.state.lastError == d.state.lastError && e.state.failedStep == d.state.failedStep
            && e.state.jobs == d.state.jobs && e.state.plan == d.state.plan && e.state.next == d.state.next
  {
  }

  /**
   A step that fails once more than `maxRetries` times fails the task at the next node: the run ends,
   nothing is pending, and the error and the jobs stay for whoever looks at the task.
   */
  lemma {:induction false} ExhaustedStepFailsTask(c: Config, input: Input, next: Input, maxRetries: nat)
    requires Inv(c, maxRetries) && (c.node.StepNode? || c.node.RetryStep?)
    requires input.outcome.error.Some? && !Terminal(input.outcome.status) && c.state.plan.Some?
    requires Executions(c.executed, (c.state.plan.value.round, c.state.next)) == maxRetries
    ensures var d := Advance(c, input, maxRetries);
            var e := Advance(d, next, maxRetries);
            && e.node == End && e.state.status == Failed && e.state.pending == []
            && e.state.lastError == input.outcome.error && e.state.jobs == d.state.jobs
  {
    StepExits(c, input, maxRetries);
    FailureIsRecorded(c, input, maxRetries);
    FailNodeEnds(Advance(c, input, maxRetries), next, maxRetries);
  }

  /**
   What follows from the host's result: a terminal status ends the run; otherwise a replan goes before a
   retry of the host action, that before waiting for pending actions, and that before the next step.
   */
  lemma {:induction false} ResumeExits(c: Config, input: Input, maxRetries: nat)
    requires Inv(c, maxRetries) && c.node == ResumeFromActionResult
    ensures c.state.plan.Some?
    ensures var d, f := Advance(c, input, maxRetries), input.feedback;
            var open, more := !Terminal(f.status), c.state.next < |c.state.plan.value.steps|;
            var quiet := !f.needsReplan && f.retryAction.None?;
            && d.state.status == f.status && d.state.pending == f.pending && d.state.lastError == None
            && d.state.jobs == c.state.jobs && d.state.next == c.state.next && d.executed == c.executed
            && (d.node == ReplanNode <==> open && f.needsReplan)
            && (d.node == RetryHostAction <==> open && !f.needsReplan && f.retryAction.Some?)
            && (d.node == WaitForHostAction <==> open && quiet && f.pending != [])
            && (d.node == RouteStep <==> open && quiet && f.pending == [] && more)
            && (d.node == End <==> !open || (quiet && f.pending == [] && !more))
  {
    assert NodeFits(c, maxRetries);
  }

  /** A retried host action is waited for again, and is not retried a second time unless the host asks for it. */
  lemma {:induction false} RetriedActionIsAwaited(c: Config, input: Input, next: Input, maxRetries: nat)
    requires Inv(c, maxRetries) && c.node == ResumeFromActionResult && !Terminal(input.feedback.status)
    requires !input.feedback.needsReplan && input.feedback.retryAction.Some?
    ensures var d := Advance(Advance(c, input, maxRetries), next, maxRetries);
            && d.node == WaitForHostAction && d.state.retryAction == None
            && d.state.status == next.feedback.status && d.state.pending == next.feedback.pending
            && d.state.plan == c.state.plan && d.state.next == c.state.next && d.state.jobs == c.state.jobs
  {
    ResumeExits(c, input, maxRetries);
  }

  /** A replan starts a new round at its first step, with every try of every step before it. */
  lemma {:induction false} ReplanStartsAfresh(c: Config, input: Input, maxRetries: nat)
    requires Inv(c, maxRetries) && c.node == ReplanNode
    ensures var d := Advance(c, input, maxRetries);
            && d.node == RouteStep && d.state.plan == Some(ExecutionPlan(c.state.rounds, input.steps))
            && d.state.next == 0 && d.state.rounds == c.state.rounds + 1
            && (forall key :: RetryCount(d.state, key) == 0)
            && d.state.pending == [] && !d.state.needsReplan && d.state.retryAction == None
            && d.state.lastError == None && d.state.failedStep == None && !Terminal(d.state.status)
            && |d.state.jobs| == |c.state.jobs| + |input.steps|
            && (forall k | 0 <= k < |c.state.jobs| :: d.state.jobs[k] == c.state.jobs[k])
            && (forall k | 0 <= k < |input.steps| ::
                  d.state.jobs[|c.state.jobs| + k]
                  == Job(input.steps[k].action, c.state.rounds, k, input.steps[k].reason, JobPlanned, None))
  {
    var after := Advance(c, input, maxRetries).state;
    assert after.jobs == c.state.jobs + JobsOf(ExecutionPlan(c.state.rounds, input.steps));
  }

  /** A run that has ended either set a terminal status or succeeded in every step of its current plan. */
  lemma {:induction false} EndedRunsAreDone(status: TaskStatus, inputs: seq<Input>, maxRetries: nat)
    ensures var c := Run(Start(status), inputs, maxRetries);
            c.node == End && !Terminal(c.state.status) ==>
              && c.state.plan.Some? && 0 <= Base(c.state)
              && forall k | Base(c.state) <= k < |c.state.jobs| :: c.state.jobs[k].status == JobSucceeded
  {
    RunKeeps(Start(status), inputs, maxRetries);
  }
}
