/** `PRAutofixWorkflow` of src/workflows/pr_autofix.py as a machine whose steps
    are the stretches of code between two awaits.

    A `wait_condition` is two steps: the condition is seen to hold, and later the
    coroutine goes on; other steps may fall in between. A dictionary lookup that
    raises KeyError fails the activation: the machine is stuck. If a retry of the
    activation succeeds, over more events, that is another run from the point
    before it. */
module Workflow {
  import opened Sequences
  import opened Models
  import Idempotency
  import Gateway

  const MAX_ITERATIONS: nat := 5

  /** What does not change over a continue-as-new chain: the workflow id, and the digest behind its keys. */
  datatype Config = Config(workflowId: string, digest: string -> string) {
    function KeyAt(iteration: nat): string {
      Idempotency.PushOperationKey(digest, workflowId, iteration)
    }
  }

  /** One accepted `request_push_changes` update, by the await it stands at. */
  datatype Task =
    | AwaitingResult(key: string)
    | ResultReady(key: string)
    | Notifying(key: string, message: string)
    | AwaitingDecision(key: string, message: string)
    | DecisionReady(key: string, message: string)
    | Pushing(key: string, message: string)
    | Returned(result: OperationResult)
    | Raised
  {
    /** The update that created the operation and carries it out. */
    predicate Owns(k: string) {
      (Notifying? || AwaitingDecision? || DecisionReady? || Pushing?) && key == k
    }
  }

  /** The await the main coroutine stands at. `Posting` holds the state as it was
      handed to `post_status`. */
  datatype RunPoint =
    | Preparing
    | Provisioning
    | Waiting
    | Woken
    | Iterating
    | Posting(copy: WorkflowState)
    | TearingDown
    | CleaningUp
    | Finished

  // ---- results ----

  function PendingResult(key: string): OperationResult {
    OperationResult(key, Pending, Some(key), None, None, "")
  }

  function DeniedResult(key: string, reason: string): OperationResult {
    OperationResult(key, Denied, Some(key), Some(false), None, reason)
  }

  function PushResult(key: string, pushed: CommitResult): OperationResult {
    OperationResult(key, if pushed.pushed then Pushed else Failed, Some(key), Some(true), pushed.commitSha,
                    if pushed.reason.Some? then pushed.reason.value else "")
  }

  /** The state `post_status` returns: its argument with the two GitHub ids filled in. */
  function Posted(copy: WorkflowState, commentId: int, checkRunId: Option<int>): WorkflowState {
    copy.(
      postedStatusCommentId := if copy.postedStatusCommentId.None? then Some(commentId) else copy.postedStatusCommentId,
      lastCheckRunId := if checkRunId.Some? then checkRunId else copy.lastCheckRunId)
  }

  // ---- the machine ----

  datatype Machine = Machine(
    state: WorkflowState,
    approvals: map<string, ApprovalState>,
    tasks: map<nat, Task>,
    at: RunPoint,
    stuck: bool
  ) {
    function Record(key: string, result: OperationResult): Machine {
      this.(state := state.(operations := state.operations[key := result]))
    }

    function To(tid: nat, task: Task): Machine {
      this.(tasks := tasks[tid := task])
    }

    function DropApproval(key: string): Machine {
      this.(approvals := approvals - {key})
    }

    function Stop(): Machine {
      this.(stuck := true)
    }

    // -- handlers --

    function OnEvent(event: GitHubEvent): Machine {
      if event.deliveryId in state.processedDeliveryIds then this
      else
        this.(state := state.(
          processedDeliveryIds := state.processedDeliveryIds + {event.deliveryId},
          pendingEvents := state.pendingEvents + [event]))
    }

    function Close(): Machine {
      this.(state := state.(closed := true))
    }

    function RequestPush(key: string, tid: nat, request: OperationRequest): Machine {
      if key in state.operations then
        To(tid, if state.operations[key].status.Pending? then AwaitingResult(key) else Returned(state.operations[key]))
      else
        Record(key, PendingResult(key))
          .(approvals := approvals[key := ApprovalState(key, true, false, "")])
          .To(tid, Notifying(key, request.commitMessage))
    }

    function CheckDecision(tid: nat): Machine
      requires tid in tasks && tasks[tid].AwaitingDecision?
    {
      var t := tasks[tid];
      if t.key !in approvals then Stop()
      else if approvals[t.key].Decided() then To(tid, DecisionReady(t.key, t.message))
      else this
    }

    function ResumeWithDecision(tid: nat): Machine
      requires tid in tasks && tasks[tid].DecisionReady?
    {
      var t := tasks[tid];
      if t.key !in approvals then Stop()
      else if approvals[t.key].allowed then DropApproval(t.key).To(tid, Pushing(t.key, t.message))
      else DropApproval(t.key).Settle(tid, DeniedResult(t.key, approvals[t.key].reason))
    }

    /** Writing the result into the state and returning it. */
    function Settle(tid: nat, result: OperationResult): Machine {
      Record(result.operationKey, result).To(tid, Returned(result))
    }

    function DecisionTimeout(tid: nat): Machine
      requires tid in tasks && tasks[tid].AwaitingDecision?
    {
      var key := tasks[tid].key;
      Settle(tid, DeniedResult(key, "approval timed out")).DropApproval(key)
    }

    function CheckResult(tid: nat): Machine
      requires tid in tasks && tasks[tid].AwaitingResult?
    {
      var key := tasks[tid].key;
      if key !in state.operations then Stop()
      else if !state.operations[key].status.Pending? then To(tid, ResultReady(key))
      else this
    }

    function ResumeWithResult(tid: nat): Machine
      requires tid in tasks && tasks[tid].ResultReady?
    {
      var key := tasks[tid].key;
      if key !in state.operations then Stop() else To(tid, Returned(state.operations[key]))
    }

    function SubmitDecision(approvalId: string, allowed: bool, reason: string): Machine {
      if approvalId !in approvals then this
      else
        this.(approvals := approvals[approvalId :=
          approvals[approvalId].(pending := false, allowed := allowed, reason := reason)])
    }

    // -- the main coroutine --

    function LoopHead(): Machine {
      if state.iterations < MAX_ITERATIONS then this.(at := Waiting) else Leave()
    }

    function Leave(): Machine {
      this.(at := if state.sandbox.Some? then TearingDown else CleaningUp)
    }

    function CheckWake(): Machine {
      if state.pendingEvents != [] || state.closed then this.(at := Woken) else this
    }

    /** After the wait: leave, or start an iteration on a snapshot of the pending events. */
    function Wake(): Machine {
      if state.closed && state.pendingEvents == [] then Leave()
      else this.(state := state.(iterations := state.iterations + 1, pendingEvents := []), at := Iterating)
    }

    function IterationDone(commentIds: set<int>, failed: bool): Machine {
      var state' := state.(
        closed := state.closed || failed,
        processedCommentIds := state.processedCommentIds + commentIds);
      this.(state := state', at := Posting(state'))
    }

    function StatusPosted(commentId: int, checkRunId: Option<int>, continueAsNew: bool): Machine
      requires at.Posting?
    {
      var state' := Posted(at.copy, commentId, checkRunId);
      if continueAsNew then Start(state') else this.(state := state').LoopHead()
    }

    static function Start(init: WorkflowState): Machine {
      Machine(init, map[], map[], Preparing, false)
    }
  }

  // ---- steps ----

  datatype Step =
    | OnEvent(event: GitHubEvent)
    | Close
    | RequestPush(tid: nat, request: OperationRequest)
    | Notified(tid: nat)
    | CheckDecision(tid: nat)
    | ResumeWithDecision(tid: nat)
    | DecisionTimeout(tid: nat)
    | PushCompleted(tid: nat, pushed: CommitResult)
    | PushRaised(tid: nat)
    | CheckResult(tid: nat)
    | ResumeWithResult(tid: nat)
    | ResultTimeout(tid: nat)
    | ApprovalComment(comment: Gateway.Comment)
    | Prepared
    | Provisioned(handle: SandboxHandle)
    | CheckWake
    | Wake
    | IdleTimeout
    | IterationDone(commentIds: set<int>, failed: bool)
    | StatusPosted(commentId: int, checkRunId: Option<int>, continueAsNew: bool)
    | TornDown
    | CleanedUp

  predicate Enabled(m: Machine, step: Step) {
    !m.stuck && !m.at.Finished? &&
    match step
    case OnEvent(_) => true
    case Close => true
    case RequestPush(tid, _) => tid !in m.tasks
    case Notified(tid) => tid in m.tasks && m.tasks[tid].Notifying?
    case CheckDecision(tid) => tid in m.tasks && m.tasks[tid].AwaitingDecision?
    case ResumeWithDecision(tid) => tid in m.tasks && m.tasks[tid].DecisionReady?
    case DecisionTimeout(tid) => tid in m.tasks && m.tasks[tid].AwaitingDecision?
    case PushCompleted(tid, _) => tid in m.tasks && m.tasks[tid].Pushing?
    case PushRaised(tid) => tid in m.tasks && m.tasks[tid].Pushing?
    case CheckResult(tid) => tid in m.tasks && m.tasks[tid].AwaitingResult?
    case ResumeWithResult(tid) => tid in m.tasks && m.tasks[tid].ResultReady?
    case ResultTimeout(tid) => tid in m.tasks && m.tasks[tid].AwaitingResult?
    case ApprovalComment(_) => true
    case Prepared => m.at.Preparing?
    case Provisioned(_) => m.at.Provisioning?
    case CheckWake => m.at.Waiting?
    case Wake => m.at.Woken?
    case IdleTimeout => m.at.Waiting?
    case IterationDone(_, _) => m.at.Iterating?
    case StatusPosted(_, _, _) => m.at.Posting?
    case TornDown => m.at.TearingDown?
    case CleanedUp => m.at.CleaningUp?
  }

  /** The decision a comment carries to this workflow, if any. */
  function DecisionFor(cfg: Config, c: Gateway.Comment): Option<Gateway.Decision> {
    match Gateway.HandleComment(c)
    case Signalled(d) => if d.workflowId == cfg.workflowId then Some(d) else None
    case _ => None
  }

  /** The steps of the main coroutine, and the two signals that only write the state. */
  predicate MovesMain(step: Step) {
    step.OnEvent? || step.Close? || step.Prepared? || step.Provisioned? || step.CheckWake? || step.Wake? ||
    step.IdleTimeout? || step.IterationDone? || step.StatusPosted? || step.TornDown? || step.CleanedUp?
  }

  function AfterMain(m: Machine, step: Step): Machine
    requires Enabled(m, step) && MovesMain(step)
  {
    match step
    case OnEvent(event) => m.OnEvent(event)
    case Close => m.Close()
    case Prepared => m.(at := Provisioning)
    case Provisioned(handle) => m.(state := m.state.(sandbox := Some(handle))).LoopHead()
    case CheckWake => m.CheckWake()
    case Wake => m.Wake()
    case IdleTimeout => m.Close().Leave()
    case IterationDone(commentIds, failed) => m.IterationDone(commentIds, failed)
    case StatusPosted(commentId, checkRunId, continueAsNew) => m.StatusPosted(commentId, checkRunId, continueAsNew)
    case TornDown => m.(at := CleaningUp)
    case CleanedUp => m.(at := Finished)
  }

  /** The steps of updates, and the decision signal. */
  function AfterUpdate(cfg: Config, m: Machine, step: Step): Machine
    requires Enabled(m, step) && !MovesMain(step)
  {
    match step
    case RequestPush(tid, request) => m.RequestPush(cfg.KeyAt(m.state.iterations), tid, request)
    case Notified(tid) => m.To(tid, AwaitingDecision(m.tasks[tid].key, m.tasks[tid].message))
    case CheckDecision(tid) => m.CheckDecision(tid)
    case ResumeWithDecision(tid) => m.ResumeWithDecision(tid)
    case DecisionTimeout(tid) => m.DecisionTimeout(tid)
    case PushCompleted(tid, pushed) => m.Settle(tid, PushResult(m.tasks[tid].key, pushed))
    case PushRaised(tid) => m.To(tid, Raised)
    case CheckResult(tid) => m.CheckResult(tid)
    case ResumeWithResult(tid) => m.ResumeWithResult(tid)
    case ResultTimeout(tid) => m.To(tid, Raised)
    case ApprovalComment(c) =>
      match DecisionFor(cfg, c)
      case Some(d) => m.SubmitDecision(d.approvalId, d.allowed, d.reason)
      case None => m
  }

  function After(cfg: Config, m: Machine, step: Step): Machine
    requires Enabled(m, step)
  {
    if MovesMain(step) then AfterMain(m, step) else AfterUpdate(cfg, m, step)
  }

  // ---- the class ----

  /** The workflow object: its fields, the open updates and where `run` stands.
      Each method is the code from one await to the next. */
  class PRAutofixWorkflow {
    const cfg: Config
    var state: WorkflowState
    var approvals: map<string, ApprovalState>
    var tasks: map<nat, Task>
    var at: RunPoint
    var stuck: bool

    function View(): Machine
      reads this
    {
      Machine(state, approvals, tasks, at, stuck)
    }

    /** `__init__`, given the state of the previous execution of the chain. */
    constructor Continue(cfg: Config, init: WorkflowState)
      ensures this.cfg == cfg && View() == Machine.Start(init)
    {
      this.cfg := cfg;
      state, approvals, tasks, at, stuck := init, map[], map[], Preparing, false;
    }

    /** `__init__`, given the pull request. */
    constructor (cfg: Config, pr: PRRef)
      ensures this.cfg == cfg && View() == Machine.Start(NewState(pr))
    {
      this.cfg := cfg;
      state, approvals, tasks, at, stuck := NewState(pr), map[], map[], Preparing, false;
    }

    method OnEvent(event: GitHubEvent)
      requires Enabled(View(), Step.OnEvent(event))
      modifies this`state
      ensures View() == After(cfg, old(View()), Step.OnEvent(event))
    {
      if event.deliveryId in state.processedDeliveryIds {
        return;
      }
      state := state.(processedDeliveryIds := state.processedDeliveryIds + {event.deliveryId});
      state := state.(pendingEvents := state.pendingEvents + [event]);
    }

    method Close()
      requires Enabled(View(), Step.Close)
      modifies this`state
      ensures View() == After(cfg, old(View()), Step.Close)
    {
      state := state.(closed := true);
    }

    method RequestPushChanges(tid: nat, request: OperationRequest)
      requires Enabled(View(), Step.RequestPush(tid, request))
      modifies this`state, this`approvals, this`tasks
      ensures View() == After(cfg, old(View()), Step.RequestPush(tid, request))
    {
      var key := cfg.KeyAt(state.iterations);
      if key in state.operations {
        var prior := state.operations[key];
        if prior.status.Pending? {
          tasks := tasks[tid := AwaitingResult(key)];
        } else {
          tasks := tasks[tid := Returned(prior)];
        }
        return;
      }
      state := state.(operations := state.operations[key := PendingResult(key)]);
      approvals := approvals[key := ApprovalState(key, true, false, "")];
      tasks := tasks[tid := Notifying(key, request.commitMessage)];
    }

    method AfterNotification(tid: nat)
      requires Enabled(View(), Step.Notified(tid))
      modifies this`tasks
      ensures View() == After(cfg, old(View()), Step.Notified(tid))
    {
      tasks := tasks[tid := AwaitingDecision(tasks[tid].key, tasks[tid].message)];
    }

    method CheckDecision(tid: nat)
      requires Enabled(View(), Step.CheckDecision(tid))
      modifies this`tasks, this`stuck
      ensures View() == After(cfg, old(View()), Step.CheckDecision(tid))
    {
      var key := tasks[tid].key;
      if key !in approvals {
        stuck := true;
      } else if approvals[key].Decided() {
        tasks := tasks[tid := DecisionReady(key, tasks[tid].message)];
      }
    }

    method AfterDecision(tid: nat)
      requires Enabled(View(), Step.ResumeWithDecision(tid))
      modifies this`state, this`approvals, this`tasks, this`stuck
      ensures View() == After(cfg, old(View()), Step.ResumeWithDecision(tid))
    {
      var key := tasks[tid].key;
      if key !in approvals {
        stuck := true;
        return;
      }
      var decision := approvals[key];
      approvals := approvals - {key};
      if !decision.allowed {
        var result := DeniedResult(key, decision.reason);
        state := state.(operations := state.operations[key := result]);
        tasks := tasks[tid := Returned(result)];
        return;
      }
      tasks := tasks[tid := Pushing(key, tasks[tid].message)];
    }

    method AfterDecisionTimeout(tid: nat)
      requires Enabled(View(), Step.DecisionTimeout(tid))
      modifies this`state, this`approvals, this`tasks
      ensures View() == After(cfg, old(View()), Step.DecisionTimeout(tid))
    {
      var key := tasks[tid].key;
      var result := DeniedResult(key, "approval timed out");
      state := state.(operations := state.operations[key := result]);
      approvals := approvals - {key};
      tasks := tasks[tid := Returned(result)];
    }

    method AfterPush(tid: nat, pushed: CommitResult)
      requires Enabled(View(), Step.PushCompleted(tid, pushed))
      modifies this`state, this`tasks
      ensures View() == After(cfg, old(View()), Step.PushCompleted(tid, pushed))
    {
      var key := tasks[tid].key;
      var result := PushResult(key, pushed);
      state := state.(operations := state.operations[key := result]);
      tasks := tasks[tid := Returned(result)];
    }

    method CheckResult(tid: nat)
      requires Enabled(View(), Step.CheckResult(tid))
      modifies this`tasks, this`stuck
      ensures View() == After(cfg, old(View()), Step.CheckResult(tid))
    {
      var key := tasks[tid].key;
      if key !in state.operations {
        stuck := true;
      } else if !state.operations[key].status.Pending? {
        tasks := tasks[tid := ResultReady(key)];
      }
    }

    method AfterResult(tid: nat)
      requires Enabled(View(), Step.ResumeWithResult(tid))
      modifies this`tasks, this`stuck
      ensures View() == After(cfg, old(View()), Step.ResumeWithResult(tid))
    {
      var key := tasks[tid].key;
      if key !in state.operations {
        stuck := true;
      } else {
        tasks := tasks[tid := Returned(state.operations[key])];
      }
    }

    /** An activity or a wait in an update raised: the update fails, the state stays as it is. */
    method UpdateFails(tid: nat)
      requires Enabled(View(), Step.PushRaised(tid)) || Enabled(View(), Step.ResultTimeout(tid))
      modifies this`tasks
      ensures View() == After(cfg, old(View()),
                              if old(tasks)[tid].Pushing? then Step.PushRaised(tid) else Step.ResultTimeout(tid))
    {
      tasks := tasks[tid := Raised];
    }

    /** The signal, as the gateway sends it for a comment. */
    method SubmitApprovalDecision(comment: Gateway.Comment)
      requires Enabled(View(), Step.ApprovalComment(comment))
      modifies this`approvals
      ensures View() == After(cfg, old(View()), Step.ApprovalComment(comment))
    {
      hide Gateway.HandleComment;
      var decision := DecisionFor(cfg, comment);
      if decision.None? {
        return;
      }
      var id := decision.value.approvalId;
      if id !in approvals {
        return;
      }
      var st := approvals[id].(pending := false);
      st := st.(allowed := decision.value.allowed);
      st := st.(reason := decision.value.reason);
      approvals := approvals[id := st];
    }

    method AfterPrepare()
      requires Enabled(View(), Step.Prepared)
      modifies this`at
      ensures View() == After(cfg, old(View()), Step.Prepared)
    {
      at := Provisioning;
    }

    method EnterLoop()
      modifies this`at
      ensures View() == old(View()).LoopHead()
    {
      if state.iterations < MAX_ITERATIONS {
        at := Waiting;
      } else {
        LeaveLoop();
      }
    }

    /** The `finally` block up to its first await. */
    method LeaveLoop()
      modifies this`at
      ensures View() == old(View()).Leave()
    {
      at := if state.sandbox.Some? then TearingDown else CleaningUp;
    }

    method AfterProvision(handle: SandboxHandle)
      requires Enabled(View(), Step.Provisioned(handle))
      modifies this`state, this`at
      ensures View() == After(cfg, old(View()), Step.Provisioned(handle))
    {
      state := state.(sandbox := Some(handle));
      EnterLoop();
    }

    method CheckWake()
      requires Enabled(View(), Step.CheckWake)
      modifies this`at
      ensures View() == After(cfg, old(View()), Step.CheckWake)
    {
      if state.pendingEvents != [] || state.closed {
        at := Woken;
      }
    }

    method AfterWait() returns (snapshot: seq<GitHubEvent>)
      requires Enabled(View(), Step.Wake)
      modifies this`state, this`at
      ensures View() == After(cfg, old(View()), Step.Wake)
      ensures at.Iterating? ==> snapshot == old(state.pendingEvents)
    {
      snapshot := [];
      if state.closed && state.pendingEvents == [] {
        LeaveLoop();
        return;
      }
      state := state.(iterations := state.iterations + 1);
      snapshot := state.pendingEvents;
      state := state.(pendingEvents := []);
      at := Iterating;
    }

    method AfterIdleTimeout()
      requires Enabled(View(), Step.IdleTimeout)
      modifies this`state, this`at
      ensures View() == After(cfg, old(View()), Step.IdleTimeout)
    {
      state := state.(closed := true);
      LeaveLoop();
    }

    /** After `run_agent_iteration`, or after it raised. */
    method AfterIteration(commentIds: set<int>, failed: bool)
      requires Enabled(View(), Step.IterationDone(commentIds, failed))
      modifies this`state, this`at
      ensures View() == After(cfg, old(View()), Step.IterationDone(commentIds, failed))
    {
      if failed {
        state := state.(closed := true);
      }
      state := state.(processedCommentIds := state.processedCommentIds + commentIds);
      at := Posting(state);
    }

    method AfterPostStatus(commentId: int, checkRunId: Option<int>, continueAsNew: bool)
      requires Enabled(View(), Step.StatusPosted(commentId, checkRunId, continueAsNew))
      modifies this
      ensures View() == After(cfg, old(View()), Step.StatusPosted(commentId, checkRunId, continueAsNew))
    {
      state := Posted(at.copy, commentId, checkRunId);
      if continueAsNew {
        approvals, tasks, at, stuck := map[], map[], Preparing, false;
      } else {
        EnterLoop();
      }
    }

    method AfterTeardown()
      requires Enabled(View(), Step.TornDown)
      modifies this`at
      ensures View() == After(cfg, old(View()), Step.TornDown)
    {
      at := CleaningUp;
    }

    method AfterCleanup()
      requires Enabled(View(), Step.CleanedUp)
      modifies this`at
      ensures View() == After(cfg, old(View()), Step.CleanedUp)
    {
      at := Finished;
    }
  }
}
