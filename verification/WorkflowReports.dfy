/** What the workflow reports about an operation, to the agent and in its state,
    is true of what was decided and started, over every run. */
module WorkflowReports {
  import opened Sequences
  import opened Models
  import opened Workflow
  import opened WorkflowRuns
  import opened WorkflowSteps
  import opened WorkflowSingleFlight
  import WorkflowApprovals
  import Gateway

  /** The push of this operation was started and answered just this. */
  ghost predicate Answered(h: History, r: OperationResult) {
    && Started(h.trail, r.operationKey)
    && exists i :: 0 <= i < |h.completions| && h.completions[i].key == r.operationKey &&
         var c := h.completions[i].outcome;
         c.pushed == r.status.Pushed? && c.commitSha == r.externalResultId &&
         r.reason == if c.reason.Some? then c.reason.value else ""
  }

  ghost predicate Honest(h: History, r: OperationResult) {
    && (r.status.Pushed? || r.status.Failed? ==> r.approvalDecision == Some(true) && Answered(h, r))
    && (r.status.Denied? ==> r.approvalDecision == Some(false) && r.externalResultId == None)
    && (r.status.Pending? ==> r.approvalDecision == None && r.externalResultId == None)
    && !r.status.Approved? && r.approvalId == Some(r.operationKey)
  }

  ghost predicate HonestRecords(h: History, operations: map<string, OperationResult>) {
    forall k :: k in operations ==> operations[k].operationKey == k && Honest(h, operations[k])
  }

  ghost predicate HonestTask(h: History, task: Task) {
    match task
    case Pushing(key, _) => Started(h.trail, key)
    case Returned(result) => Honest(h, result)
    case _ => true
  }

  ghost predicate AllHonest(w: World) {
    && HonestRecords(w.h, w.m.state.operations)
    && (w.m.at.Posting? ==> HonestRecords(w.h, w.m.at.copy.operations))
    && (forall t :: t in w.m.tasks ==> HonestTask(w.h, w.m.tasks[t]))
    && (forall r :: r in w.h.returned ==> Honest(w.h, r))
  }

  // ---- the history only grows ----

  ghost predicate Grows(h: History, later: History) {
    h.trail <= later.trail && h.completions <= later.completions
  }

  lemma StartedGrows(trail: seq<Mark>, longer: seq<Mark>, key: string)
    requires trail <= longer && Started(trail, key)
    ensures Started(longer, key)
  {
    var p :| 0 <= p < |trail| && trail[p].PushStarted? && trail[p].key == key;
    assert longer[p] == trail[p];
  }

  lemma HonestGrows(h: History, later: History, r: OperationResult)
    requires Grows(h, later) && Honest(h, r)
    ensures Honest(later, r)
  {
    hide Started;
    if r.status.Pushed? || r.status.Failed? {
      StartedGrows(h.trail, later.trail, r.operationKey);
    }
  }

  lemma RecordsGrow(h: History, later: History, operations: map<string, OperationResult>)
    requires Grows(h, later) && HonestRecords(h, operations)
    ensures HonestRecords(later, operations)
  {
    hide Honest, Grows;
    forall k | k in operations ensures Honest(later, operations[k]) {
      HonestGrows(h, later, operations[k]);
    }
  }

  lemma TaskGrows(h: History, later: History, task: Task)
    requires Grows(h, later) && HonestTask(h, task)
    ensures HonestTask(later, task)
  {
    hide Started, Honest;
    match task
    case Pushing(key, _) => StartedGrows(h.trail, later.trail, key);
    case Returned(result) => HonestGrows(h, later, result);
    case _ =>
  }

  /** Everything reported so far stays true. */
  lemma AllGrow(w: World, later: History)
    requires AllHonest(w) && Grows(w.h, later)
    ensures HonestRecords(later, w.m.state.operations)
    ensures w.m.at.Posting? ==> HonestRecords(later, w.m.at.copy.operations)
    ensures forall t :: t in w.m.tasks ==> HonestTask(later, w.m.tasks[t])
    ensures forall r :: r in w.h.returned ==> Honest(later, r)
  {
    hide Honest, HonestRecords, HonestTask, Grows;
    RecordsGrow(w.h, later, w.m.state.operations);
    if w.m.at.Posting? {
      RecordsGrow(w.h, later, w.m.at.copy.operations);
    }
    forall t | t in w.m.tasks ensures HonestTask(later, w.m.tasks[t]) {
      TaskGrows(w.h, later, w.m.tasks[t]);
    }
    forall r | r in w.h.returned ensures Honest(later, r) {
      HonestGrows(w.h, later, r);
    }
  }

  // ---- steps ----

  lemma HonestMain(cfg: Config, w: World, step: Step)
    requires AllHonest(w) && Enabled(w.m, step) && MovesMain(step)
    ensures AllHonest(Next(cfg, w, step))
  {
    MainStep(cfg, w, step);
    MainRecords(cfg, w.m, step);
    hide After, Observe, Honest, HonestRecords, HonestTask;
    AllGrow(w, Next(cfg, w, step).h);
  }

  /** An update moves one task, settles at most one record and returns at most one result. */
  ghost predicate UpdateMoves(w: World, w': World, tid: nat, key: string) {
    && w'.m.at == w.m.at && Grows(w.h, w'.h)
    && tid in w'.m.tasks && w'.m.tasks == w.m.tasks[tid := w'.m.tasks[tid]]
    && (w'.m.state.operations == w.m.state.operations ||
        (key in w'.m.state.operations &&
         w'.m.state.operations == w.m.state.operations[key := w'.m.state.operations[key]] &&
         w'.m.state.operations[key].operationKey == key))
    && (w'.h.returned == w.h.returned ||
        (w'.m.tasks[tid].Returned? && w'.h.returned == w.h.returned + [w'.m.tasks[tid].result]))
  }

  lemma HonestMove(w: World, w': World, tid: nat, key: string)
    requires AllHonest(w) && UpdateMoves(w, w', tid, key)
    requires HonestTask(w'.h, w'.m.tasks[tid])
    requires w'.m.state.operations != w.m.state.operations ==> Honest(w'.h, w'.m.state.operations[key])
    ensures AllHonest(w')
  {
    hide Honest;
    AllGrow(w, w'.h);
  }

  lemma HonestRequest(cfg: Config, w: World, step: Step)
    requires AllHonest(w) && Enabled(w.m, step) && step.RequestPush?
    ensures AllHonest(Next(cfg, w, step))
  {
    hide Next, Config.KeyAt, Answered;
    var key := cfg.KeyAt(w.m.state.iterations);
    var w' := Next(cfg, w, step);
    if Creates(cfg, w.m, step) {
      CreateStep(cfg, w, step.tid, step.request);
    } else {
      JoinStep(cfg, w, step.tid, step.request);
      assert Honest(w.h, w.m.state.operations[key]);
    }
    AllGrow(w, w'.h);
    HonestMove(w, w', step.tid, key);
  }

  lemma HonestStart(cfg: Config, w: World, step: Step)
    requires AllHonest(w) && Enabled(w.m, step) && Starts(w.m, step)
    ensures AllHonest(Next(cfg, w, step))
  {
    hide Next, Honest;
    StartStep(cfg, w, step);
    var w' := Next(cfg, w, step);
    var p, key := |w.h.trail|, w.m.tasks[step.tid].key;
    assert w'.h.trail[p].PushStarted? && w'.h.trail[p].key == key;
    assert Started(w'.h.trail, key);
    HonestMove(w, w', step.tid, key);
  }

  lemma HonestSettlement(cfg: Config, w: World, step: Step)
    requires AllHonest(w) && Enabled(w.m, step) && Settles(w.m, step)
    ensures AllHonest(Next(cfg, w, step))
  {
    hide Next, Started;
    SettleStep(cfg, w, step);
    var w' := Next(cfg, w, step);
    var result := Settlement(w.m, step);
    assert HonestTask(w.h, w.m.tasks[step.tid]);
    if step.PushCompleted? {
      assert w'.h.completions[|w.h.completions|] == Completion(result.operationKey, step.pushed);
      assert Answered(w'.h, result);
    }
    hide Answered;
    assert Honest(w'.h, result);
    HonestMove(w, w', step.tid, result.operationKey);
  }

  lemma HonestWaiting(cfg: Config, w: World, step: Step)
    requires AllHonest(w) && Enabled(w.m, step) && MovesOneTask(step)
    ensures AllHonest(Next(cfg, w, step))
  {
    hide Next, Honest, Started;
    WaitStep(cfg, w, step);
    var w' := Next(cfg, w, step);
    AllGrow(w, w'.h);
    if w'.m.tasks != w.m.tasks {
      HonestMove(w, w', step.tid, "");
    }
  }

  lemma HonestComment(cfg: Config, w: World, step: Step)
    requires AllHonest(w) && Enabled(w.m, step) && step.ApprovalComment?
    ensures AllHonest(Next(cfg, w, step))
  {
    hide Next, DecisionFor, Honest, HonestRecords, HonestTask;
    CommentStep(cfg, w, step.comment);
    AllGrow(w, Next(cfg, w, step).h);
  }

  lemma HonestNext(cfg: Config, w: World, step: Step)
    requires AllHonest(w)
    ensures AllHonest(Next(cfg, w, step))
  {
    hide AllHonest, After, Observe;
    if Enabled(w.m, step) {
      if MovesMain(step) {
        HonestMain(cfg, w, step);
      } else if step.RequestPush? {
        HonestRequest(cfg, w, step);
      } else if step.ApprovalComment? {
        HonestComment(cfg, w, step);
      } else if MovesOneTask(step) {
        HonestWaiting(cfg, w, step);
      } else if Starts(w.m, step) {
        HonestStart(cfg, w, step);
      } else if Settles(w.m, step) {
        HonestSettlement(cfg, w, step);
      } else {
        MissingStep(cfg, w, step);
        HonestStop(w);
      }
    }
  }

  lemma HonestStop(w: World)
    requires AllHonest(w)
    ensures AllHonest(w.(m := w.m.Stop()))
  {
    hide Honest;
  }

  lemma {:induction false} HonestRun(cfg: Config, w: World, steps: seq<Step>)
    requires AllHonest(w)
    ensures AllHonest(Run(cfg, w, steps))
    decreases |steps|
  {
    if steps != [] {
      HonestNext(cfg, w, steps[0]);
      HonestRun(cfg, Next(cfg, w, steps[0]), steps[1..]);
    }
  }

  /** A push of this key was started, and a listed approver had allowed it. */
  ghost predicate ApprovedAndStarted(cfg: Config, trail: seq<Mark>, key: string) {
    exists p :: 0 <= p < |trail| && trail[p].PushStarted? && trail[p].key == key &&
      WorkflowApprovals.DecidedBy(cfg, trail, key, trail[p].created, trail[p].decided, p, true)
  }

  ghost predicate Justified(cfg: Config, h: History, r: OperationResult) {
    Honest(h, r) && (r.status.Pushed? || r.status.Failed? ==> ApprovedAndStarted(cfg, h.trail, r.operationKey))
  }

  lemma StartedIsApproved(cfg: Config, pr: PRRef, steps: seq<Step>, key: string)
    requires Started(Run(cfg, Begin(NewState(pr)), steps).h.trail, key)
    ensures ApprovedAndStarted(cfg, Run(cfg, Begin(NewState(pr)), steps).h.trail, key)
  {
    WorkflowApprovals.EveryPushIsApproved(cfg, NewState(pr), steps);
    hide Run, WorkflowApprovals.DecidedBy;
    var trail := Run(cfg, Begin(NewState(pr)), steps).h.trail;
    var p :| 0 <= p < |trail| && trail[p].PushStarted? && trail[p].key == key;
    assert WorkflowApprovals.DecidedBy(cfg, trail, key, trail[p].created, trail[p].decided, p, true);
  }

  /** In every run of a chain that starts fresh, whatever `post_status` brings
      back, every result an update returned and every operation on record is
      justified: pushed or failed says what a `push_changes` call answered that a
      listed approver had allowed, denied carries no commit and no consent. */
  lemma ReportsAreHonest(cfg: Config, pr: PRRef, steps: seq<Step>)
    ensures var w := Run(cfg, Begin(NewState(pr)), steps);
            && (forall r :: r in w.h.returned ==> Justified(cfg, w.h, r))
            && (forall k :: k in w.m.state.operations ==>
                  w.m.state.operations[k].operationKey == k && Justified(cfg, w.h, w.m.state.operations[k]))
  {
    HonestRun(cfg, Begin(NewState(pr)), steps);
    var w := Run(cfg, Begin(NewState(pr)), steps);
    forall r: OperationResult | Honest(w.h, r) ensures Justified(cfg, w.h, r) {
      if r.status.Pushed? || r.status.Failed? {
        StartedIsApproved(cfg, pr, steps, r.operationKey);
      }
    }
    hide Run, Honest, Justified;
  }
}
