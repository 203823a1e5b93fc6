/** The life of a workflow: how it ends, what an end rules out, and what a request
    comes to from the asking to the answer. */
module WorkflowLifecycle {
  import opened Sequences
  import opened Models
  import opened Workflow
  import opened WorkflowRuns
  import opened WorkflowSteps
  import opened WorkflowScenarios
  import WorkflowEvents
  import Idempotency
  import Gateway

  // ---- ends ----

  predicate NoNewEvents(steps: seq<Step>) {
    forall s :: s in steps ==> !s.OnEvent?
  }

  /** Closed with nothing pending, and so is the state that `post_status` will bring back. */
  ghost predicate Ending(m: Machine) {
    && m.state.closed && m.state.pendingEvents == [] && !m.at.Iterating?
    && (m.at.Posting? ==> m.at.copy.closed && m.at.copy.pendingEvents == [])
  }

  lemma EndingNext(cfg: Config, w: World, step: Step)
    requires Ending(w.m) && !step.OnEvent?
    ensures Ending(Next(cfg, w, step).m) && Next(cfg, w, step).h.handed == w.h.handed
  {
    if MovesMain(step) {
      hide AfterUpdate, ObserveUpdate;
    } else {
      WorkflowEvents.UpdateFrame(cfg, w, step);
      hide Next;
    }
  }

  lemma {:induction false} EndingRun(cfg: Config, w: World, steps: seq<Step>)
    requires Ending(w.m) && NoNewEvents(steps)
    ensures Run(cfg, w, steps).h.handed == w.h.handed
    decreases |steps|
  {
    if steps != [] {
      assert steps[0] in steps;
      EndingNext(cfg, w, steps[0]);
      hide Next, Ending;
      EndingRun(cfg, Next(cfg, w, steps[0]), steps[1..]);
    }
  }

  /** After an iteration that failed, and after a close signal while the workflow
      waits, no iteration runs any more unless new events arrive, not even in a
      later execution of the chain. */
  lemma ClosedForGood(cfg: Config, w: World, first: Step, steps: seq<Step>)
    requires Enabled(w.m, first) && w.m.state.pendingEvents == [] && NoNewEvents(steps)
    requires (first.IterationDone? && first.failed) || (first.Close? && !w.m.at.Iterating? && !w.m.at.Posting?)
    ensures Run(cfg, w, [first] + steps).h.handed == w.h.handed
  {
    assert Ending(Next(cfg, w, first).m) && Next(cfg, w, first).h.handed == w.h.handed by {
      hide AfterUpdate, ObserveUpdate;
    }
    RunOne(cfg, w, first);
    RunAppend(cfg, w, [first], steps);
    hide Next, Ending;
    EndingRun(cfg, Next(cfg, w, first), steps);
  }

  predicate Left(m: Machine) {
    m.at.TearingDown? || m.at.CleaningUp? || m.at.Finished?
  }

  lemma LeftNext(cfg: Config, w: World, step: Step)
    requires Left(w.m)
    ensures Left(Next(cfg, w, step).m) && Next(cfg, w, step).h.handed == w.h.handed
  {
    if MovesMain(step) {
      hide AfterUpdate, ObserveUpdate;
    } else {
      WorkflowEvents.UpdateFrame(cfg, w, step);
      hide Next;
    }
  }

  lemma {:induction false} LeftRun(cfg: Config, w: World, steps: seq<Step>)
    requires Left(w.m)
    ensures Left(Run(cfg, w, steps).m) && Run(cfg, w, steps).h.handed == w.h.handed
    decreases |steps|
  {
    if steps != [] {
      LeftNext(cfg, w, steps[0]);
      hide Next, Left;
      LeftRun(cfg, Next(cfg, w, steps[0]), steps[1..]);
    }
  }

  /** The idle timeout closes the workflow and leaves the loop for good: no
      iteration runs any more, whatever arrives. */
  lemma IdleIsFinal(cfg: Config, w: World, steps: seq<Step>)
    requires Enabled(w.m, Step.IdleTimeout)
    ensures Next(cfg, w, Step.IdleTimeout).m.state.closed
    ensures var w' := Run(cfg, w, [Step.IdleTimeout] + steps);
            w'.h.handed == w.h.handed && (w'.m.at.TearingDown? || w'.m.at.CleaningUp? || w'.m.at.Finished?)
  {
    assert Left(Next(cfg, w, Step.IdleTimeout).m) && Next(cfg, w, Step.IdleTimeout).h == w.h by {
      hide AfterUpdate, ObserveUpdate;
    }
    RunOne(cfg, w, Step.IdleTimeout);
    RunAppend(cfg, w, [Step.IdleTimeout], steps);
    hide Next;
    LeftRun(cfg, Next(cfg, w, Step.IdleTimeout), steps);
  }

  /** Where a sandbox may exist, it is on record, here and in the copy. */
  ghost predicate SandboxKnown(m: Machine) {
    && !m.at.CleaningUp? && !m.at.Finished?
    && (!m.at.Preparing? && !m.at.Provisioning? ==> m.state.sandbox.Some?)
    && (m.at.Posting? ==> m.at.copy.sandbox.Some?)
  }

  lemma SandboxNext(cfg: Config, w: World, step: Step)
    requires SandboxKnown(w.m) && !step.TornDown?
    ensures SandboxKnown(Next(cfg, w, step).m)
  {
    if MovesMain(step) {
      hide AfterUpdate, Observe;
    } else {
      WorkflowEvents.UpdateFrame(cfg, w, step);
      hide Next;
    }
  }

  lemma {:induction false} SandboxRun(cfg: Config, w: World, steps: seq<Step>)
    requires SandboxKnown(w.m) && forall s :: s in steps ==> !s.TornDown?
    ensures SandboxKnown(Run(cfg, w, steps).m)
    decreases |steps|
  {
    if steps != [] {
      assert steps[0] in steps;
      SandboxNext(cfg, w, steps[0]);
      hide Next, SandboxKnown;
      SandboxRun(cfg, Next(cfg, w, steps[0]), steps[1..]);
    }
  }

  /** No run cleans up the working directory, let alone finishes, without having torn
      down the sandbox first. */
  lemma SandboxIsTornDown(cfg: Config, init: WorkflowState, steps: seq<Step>)
    requires forall s :: s in steps ==> !s.TornDown?
    ensures var at := Run(cfg, Begin(init), steps).m.at;
            !at.CleaningUp? && !at.Finished?
  {
    SandboxRun(cfg, Begin(init), steps);
  }

  // ---- what is remembered ----

  /** The status comment stays the one it is, and no comment id is forgotten. */
  predicate Remembers(before: WorkflowState, after: WorkflowState) {
    && (before.postedStatusCommentId.Some? ==> after.postedStatusCommentId == before.postedStatusCommentId)
    && (before.lastCheckRunId.Some? ==> after.lastCheckRunId.Some?)
    && before.processedCommentIds <= after.processedCommentIds
  }

  ghost predicate CopyIsCurrent(m: Machine) {
    m.at.Posting? ==>
      && m.at.copy.postedStatusCommentId == m.state.postedStatusCommentId
      && m.at.copy.lastCheckRunId == m.state.lastCheckRunId
      && m.at.copy.processedCommentIds == m.state.processedCommentIds
  }

  lemma RemembersNext(cfg: Config, w: World, step: Step)
    requires CopyIsCurrent(w.m)
    ensures CopyIsCurrent(Next(cfg, w, step).m) && Remembers(w.m.state, Next(cfg, w, step).m.state)
  {
    if MovesMain(step) {
      hide AfterUpdate, Observe;
    } else {
      WorkflowEvents.UpdateFrame(cfg, w, step);
      hide Next;
    }
  }

  lemma {:induction false} RemembersRun(cfg: Config, w: World, steps: seq<Step>)
    requires CopyIsCurrent(w.m)
    ensures CopyIsCurrent(Run(cfg, w, steps).m) && Remembers(w.m.state, Run(cfg, w, steps).m.state)
    decreases |steps|
  {
    if steps != [] {
      RemembersNext(cfg, w, steps[0]);
      hide Next, CopyIsCurrent;
      RemembersRun(cfg, Next(cfg, w, steps[0]), steps[1..]);
    }
  }

  /** In every chain the status comment is created once and updated in place from
      then on, and a comment once addressed stays addressed. */
  lemma StatusCommentIsOne(cfg: Config, init: WorkflowState, steps: seq<Step>, later: seq<Step>)
    ensures Remembers(Run(cfg, Begin(init), steps).m.state, Run(cfg, Begin(init), steps + later).m.state)
  {
    RemembersRun(cfg, Begin(init), steps);
    hide Next, Run, CopyIsCurrent;
    RunAppend(cfg, Begin(init), steps, later);
    RemembersRun(cfg, Run(cfg, Begin(init), steps), later);
  }

  /** An iteration and its status post: what they add to the state. */
  lemma IterationRecorded(
    cfg: Config, w: World, ids: set<int>, failed: bool, commentId: int, checkRunId: Option<int>, again: bool
  )
    requires Enabled(w.m, Step.IterationDone(ids, failed))
    ensures var before, after := w.m.state, Run(cfg, w, [Step.IterationDone(ids, failed),
                                                          Step.StatusPosted(commentId, checkRunId, again)]).m;
            && after.state.processedCommentIds == before.processedCommentIds + ids
            && after.state.closed == (before.closed || failed)
            && after.state.postedStatusCommentId
                 == (if before.postedStatusCommentId == None then Some(commentId) else before.postedStatusCommentId)
            && after.state.lastCheckRunId == (if checkRunId == None then before.lastCheckRunId else checkRunId)
            && after.state.pr == before.pr && after.state.sandbox == before.sandbox
            && after.state.iterations == before.iterations && after.state.operations == before.operations
            && after.state.pendingEvents == before.pendingEvents
            && after.state.processedDeliveryIds == before.processedDeliveryIds
            && (again ==> after.at.Preparing? && after.tasks == map[] && after.approvals == map[])
            && (!again ==> after.tasks == w.m.tasks && after.approvals == w.m.approvals)
            && (!again && before.iterations < 5 ==> after.at.Waiting?)
            && (!again && before.iterations >= 5 ==>
                  if before.sandbox == None then after.at.CleaningUp? else after.at.TearingDown?)
  {
    RunTwo(cfg, w, Step.IterationDone(ids, failed), Step.StatusPosted(commentId, checkRunId, again));
    hide AfterUpdate, ObserveUpdate, Run;
  }

  // ---- iterations ----

  function Turn(n: nat, event: GitHubEvent): seq<Step> {
    [Step.OnEvent(event.(deliveryId := Idempotency.Decimal(n)))] + [Step.CheckWake, Step.Wake, Step.IterationDone({}, false)]
      + [POSTED]
  }

  lemma TurnIterates(cfg: Config, w: World, n: nat, event: GitHubEvent)
    requires w.m.at.Waiting? && !w.m.stuck && w.m.state.pendingEvents == []
    requires Idempotency.Decimal(n) !in w.m.state.processedDeliveryIds
    ensures var w' := Run(cfg, w, Turn(n, event));
            && !w'.m.stuck && w'.m.state.iterations == w.m.state.iterations + 1 && w'.m.state.pendingEvents == []
            && w'.m.state.processedDeliveryIds == w.m.state.processedDeliveryIds + {Idempotency.Decimal(n)}
            && (w'.m.state.iterations < 5 ==> w'.m.at.Waiting?)
  {
    var first := Step.OnEvent(event.(deliveryId := Idempotency.Decimal(n)));
    var middle := [Step.CheckWake, Step.Wake, Step.IterationDone({}, false)];
    RunOne(cfg, w, first);
    var w1 := Next(cfg, w, first);
    assert w1.m.at.Waiting? && !w1.m.stuck && w1.m.state.pendingEvents != [];
    assert w1.m.state.iterations == w.m.state.iterations;
    assert w1.m.state.processedDeliveryIds == w.m.state.processedDeliveryIds + {Idempotency.Decimal(n)};
    hide Run, Idempotency.Decimal;
    MiddleOfTurn(cfg, w1);
    var w2 := Run(cfg, w1, middle);
    RunOne(cfg, w2, POSTED);
    RunAppend(cfg, w, [first], middle);
    RunAppend(cfg, w, [first] + middle, [POSTED]);
    PostedWaits(cfg, w2);
  }

  lemma MiddleOfTurn(cfg: Config, w: World)
    requires w.m.at.Waiting? && !w.m.stuck && w.m.state.pendingEvents != []
    ensures var m := Run(cfg, w, [Step.CheckWake, Step.Wake, Step.IterationDone({}, false)]).m;
            && !m.stuck && m.at == Posting(m.state) && m.state.iterations == w.m.state.iterations + 1
            && m.state.pendingEvents == [] && m.state.processedDeliveryIds == w.m.state.processedDeliveryIds
  {
    RunThree(cfg, w, Step.CheckWake, Step.Wake, Step.IterationDone({}, false));
    hide AfterUpdate, ObserveUpdate, ObserveMain, Run;
    var w2 := Next(cfg, Next(cfg, w, Step.CheckWake), Step.Wake);
    assert w2.m.at.Iterating? && w2.m.state.iterations == w.m.state.iterations + 1 && !w2.m.stuck;
  }

  lemma PostedWaits(cfg: Config, w: World)
    requires !w.m.stuck && w.m.at == Posting(w.m.state)
    ensures var m := Next(cfg, w, POSTED).m;
            && !m.stuck && m.state.iterations == w.m.state.iterations && m.state.pendingEvents == w.m.state.pendingEvents
            && m.state.processedDeliveryIds == w.m.state.processedDeliveryIds
            && (m.state.iterations < 5 ==> m.at.Waiting?)
  {
    hide AfterUpdate, ObserveUpdate;
  }

  /** The bound of five iterations is reached, by every pull request that keeps getting events. */
  lemma {:induction false} EveryCountIsReached(cfg: Config, pr: PRRef, handle: SandboxHandle, event: GitHubEvent, n: nat)
    returns (steps: seq<Step>)
    requires n <= 5
    ensures var w := Run(cfg, Begin(NewState(pr)), steps);
            && w.m.state.iterations == n && |w.h.handed| == n && !w.m.stuck && w.m.state.pendingEvents == []
            && (n < 5 ==> w.m.at.Waiting?)
            && w.m.state.processedDeliveryIds <= Numerals(n)
    decreases n
  {
    hide Idempotency.Decimal;
    if n == 0 {
      steps := [Step.Prepared, Step.Provisioned(handle)];
      RunTwo(cfg, Begin(NewState(pr)), Step.Prepared, Step.Provisioned(handle));
    } else {
      var before := EveryCountIsReached(cfg, pr, handle, event, n - 1);
      hide Next, Begin, Run, Turn;
      var w := Run(cfg, Begin(NewState(pr)), before);
      NumeralIsNew(n - 1);
      TurnIterates(cfg, w, n - 1, event);
      steps := before + Turn(n - 1, event);
      RunAppend(cfg, Begin(NewState(pr)), before, Turn(n - 1, event));
      CountIsHanded(cfg, pr, steps);
    }
  }

  function Numerals(n: nat): set<string> {
    if n == 0 then {} else Numerals(n - 1) + {Idempotency.Decimal(n - 1)}
  }

  lemma NumeralIsNew(n: nat)
    ensures Idempotency.Decimal(n) !in Numerals(n)
  {
    NumeralsBelow(n, n);
  }

  lemma {:induction false} NumeralsBelow(k: nat, n: nat)
    requires k <= n
    ensures Idempotency.Decimal(n) !in Numerals(k)
    decreases k
  {
    hide Idempotency.Decimal;
    if k > 0 {
      NumeralsBelow(k - 1, n);
      if Idempotency.Decimal(n) == Idempotency.Decimal(k - 1) {
        Idempotency.DecimalInjective(n, k - 1);
      }
    }
  }

  lemma CountIsHanded(cfg: Config, pr: PRRef, steps: seq<Step>)
    ensures var w := Run(cfg, Begin(NewState(pr)), steps);
            |w.h.handed| == w.m.state.iterations
  {
    WorkflowEvents.IterationsBounded(cfg, NewState(pr), steps);
    hide Run;
  }

  // ---- from the asking to the answer ----

  /** The world after an update has returned its result. */
  ghost predicate Answers(w: World, w': World, tid: nat, result: OperationResult) {
    && !w'.m.stuck && w'.m.at == w.m.at
    && w'.m.state.operations == w.m.state.operations[result.operationKey := result]
    && w'.m.tasks == w.m.tasks[tid := Returned(result)]
    && result.operationKey !in w'.m.approvals
    && w'.h.returned != [] && Last(w'.h.returned) == result
  }

  /** A request that is approved comes back with what the push answered. */
  lemma ApprovedIsPushed(
    cfg: Config, w: World, tid: nat, request: OperationRequest, c: Gateway.Comment, pushed: CommitResult
  )
    requires Enabled(w.m, Step.RequestPush(tid, request)) && Creates(cfg, w.m, Step.RequestPush(tid, request))
    requires Approves(cfg, c, cfg.KeyAt(w.m.state.iterations))
    ensures var key := cfg.KeyAt(w.m.state.iterations);
            var w' := Run(cfg, w, Requested(tid, request) + Granted(tid, c) + [Step.PushCompleted(tid, pushed)]);
            Answers(w, w', tid, OperationResult(
              key, if pushed.pushed then Pushed else Failed, Some(key), Some(true), pushed.commitSha,
              match pushed.reason case None => "" case Some(reason) => reason))
  {
    hide Run, Next, Requested, Granted, Approves, Config.KeyAt;
    ApprovedRequestStarts(cfg, w, tid, request, c);
    var w1 := Run(cfg, w, Requested(tid, request) + Granted(tid, c));
    SettleStep(cfg, w1, Step.PushCompleted(tid, pushed));
    RunOne(cfg, w1, Step.PushCompleted(tid, pushed));
    RunAppend(cfg, w, Requested(tid, request) + Granted(tid, c), [Step.PushCompleted(tid, pushed)]);
  }

  /** One that is denied by a comment comes back denied, with the comment's reason;
      one that nobody answers comes back denied for that. */
  lemma UnapprovedIsDenied(
    cfg: Config, w: World, tid: nat, request: OperationRequest, c: Gateway.Comment, reason: string
  )
    requires Enabled(w.m, Step.RequestPush(tid, request)) && Creates(cfg, w.m, Step.RequestPush(tid, request))
    ensures var key := cfg.KeyAt(w.m.state.iterations);
            DecisionFor(cfg, c) == Some(Gateway.Decision(cfg.workflowId, key, false, reason)) ==>
              Answers(w, Run(cfg, w, Requested(tid, request) + Granted(tid, c)), tid,
                      OperationResult(key, Denied, Some(key), Some(false), None, reason))
    ensures var key := cfg.KeyAt(w.m.state.iterations);
            Answers(w, Run(cfg, w, Requested(tid, request) + [Step.DecisionTimeout(tid)]), tid,
                    OperationResult(key, Denied, Some(key), Some(false), None, "approval timed out"))
  {
    hide Run, Next, Requested, Granted, Config.KeyAt, DecisionFor;
    RequestedCreates(cfg, w, tid, request);
    var key := cfg.KeyAt(w.m.state.iterations);
    var w1 := Run(cfg, w, Requested(tid, request));
    RequestedCanGoOn(cfg, w, tid, request);
    SettleStep(cfg, w1, Step.DecisionTimeout(tid));
    RunOne(cfg, w1, Step.DecisionTimeout(tid));
    RunAppend(cfg, w, Requested(tid, request), [Step.DecisionTimeout(tid)]);
    if DecisionFor(cfg, c) == Some(Gateway.Decision(cfg.workflowId, key, false, reason)) {
      CommentDenies(cfg, w1, tid, c, reason);
      RunAppend(cfg, w, Requested(tid, request), Granted(tid, c));
    }
  }

  lemma RequestedCanGoOn(cfg: Config, w: World, tid: nat, request: OperationRequest)
    requires Enabled(w.m, Step.RequestPush(tid, request)) && Creates(cfg, w.m, Step.RequestPush(tid, request))
    ensures var m := Run(cfg, w, Requested(tid, request)).m;
            !m.stuck && !m.at.Finished?
  {
    hide Run, Requested, Config.KeyAt;
    RequestedCreates(cfg, w, tid, request);
  }

  lemma CommentDenies(cfg: Config, w: World, tid: nat, c: Gateway.Comment, reason: string)
    requires !w.m.stuck && !w.m.at.Finished? && tid in w.m.tasks && w.m.tasks[tid].AwaitingDecision?
    requires w.m.tasks[tid].key in w.m.approvals
    requires DecisionFor(cfg, c) == Some(Gateway.Decision(cfg.workflowId, w.m.tasks[tid].key, false, reason))
    ensures var key := w.m.tasks[tid].key;
            Answers(w, Run(cfg, w, Granted(tid, c)), tid, OperationResult(key, Denied, Some(key), Some(false), None, reason))
  {
    RunThree(cfg, w, Step.ApprovalComment(c), Step.CheckDecision(tid), Step.ResumeWithDecision(tid));
    hide Next, Run, DecisionFor;
    CommentStep(cfg, w, c);
    var w1 := Next(cfg, w, Step.ApprovalComment(c));
    CheckReadies(cfg, w1, tid);
    var w2 := Next(cfg, w1, Step.CheckDecision(tid));
    SettleStep(cfg, w2, Step.ResumeWithDecision(tid));
  }

  /** A second request at the same iteration count waits while the first is pending. */
  lemma DuplicateWaits(cfg: Config, w: World, u: nat, again: OperationRequest)
    requires Enabled(w.m, Step.RequestPush(u, again))
    requires var key := cfg.KeyAt(w.m.state.iterations);
             key in w.m.state.operations && w.m.state.operations[key].status == Pending
    ensures Run(cfg, w, [Step.RequestPush(u, again), Step.CheckResult(u)])
         == w.(m := w.m.(tasks := w.m.tasks[u := AwaitingResult(cfg.KeyAt(w.m.state.iterations))]))
  {
    RunTwo(cfg, w, Step.RequestPush(u, again), Step.CheckResult(u));
    hide Run, Next, Config.KeyAt;
    JoinStep(cfg, w, u, again);
    WaitStep(cfg, Next(cfg, w, Step.RequestPush(u, again)), Step.CheckResult(u));
  }

  /** Once there is a result, the update that waits returns it, and so does, at once,
      one that asks later at the same iteration count. */
  lemma DuplicateReturns(cfg: Config, w: World, u: nat, v: nat, again: OperationRequest)
    requires !w.m.stuck && !w.m.at.Finished? && u in w.m.tasks && v !in w.m.tasks
    requires var key := cfg.KeyAt(w.m.state.iterations);
             w.m.tasks[u] == AwaitingResult(key) && key in w.m.state.operations && w.m.state.operations[key].status != Pending
    ensures var result := w.m.state.operations[cfg.KeyAt(w.m.state.iterations)];
            Run(cfg, w, [Step.CheckResult(u), Step.ResumeWithResult(u), Step.RequestPush(v, again)])
              == World(w.m.(tasks := w.m.tasks[u := Returned(result)][v := Returned(result)]),
                       w.h.(returned := w.h.returned + [result] + [result]))
  {
    RunThree(cfg, w, Step.CheckResult(u), Step.ResumeWithResult(u), Step.RequestPush(v, again));
    hide Run, Next, Config.KeyAt;
    WaitStep(cfg, w, Step.CheckResult(u));
    var w1 := Next(cfg, w, Step.CheckResult(u));
    WaitStep(cfg, w1, Step.ResumeWithResult(u));
    var w2 := Next(cfg, w1, Step.ResumeWithResult(u));
    JoinStep(cfg, w2, v, again);
  }

  /** A push that raises, and a wait for a result that expires, fail the update and
      leave everything else, the pending operation included, as it is. */
  lemma RaisingChangesNothing(cfg: Config, w: World, tid: nat)
    requires !w.m.stuck && !w.m.at.Finished? && tid in w.m.tasks
    ensures w.m.tasks[tid].Pushing? ==>
              Run(cfg, w, [Step.PushRaised(tid)]) == w.(m := w.m.(tasks := w.m.tasks[tid := Raised]))
    ensures w.m.tasks[tid].AwaitingResult? ==>
              Run(cfg, w, [Step.ResultTimeout(tid)]) == w.(m := w.m.(tasks := w.m.tasks[tid := Raised]))
  {
    RunOne(cfg, w, Step.PushRaised(tid));
    RunOne(cfg, w, Step.ResultTimeout(tid));
    hide Run, AfterMain, ObserveMain;
  }

  /** How a workflow starts, for a pull request nobody has worked on. */
  lemma StartsFresh(cfg: Config, pr: PRRef, handle: SandboxHandle)
    ensures var m := Run(cfg, Begin(NewState(pr)), [Step.Prepared, Step.Provisioned(handle)]).m;
            && m.state == WorkflowState(pr, [], {}, {}, 0, None, None, false, Some(handle), map[])
            && m.at.Waiting? && m.tasks == map[] && m.approvals == map[]
  {
    RunTwo(cfg, Begin(NewState(pr)), Step.Prepared, Step.Provisioned(handle));
    hide Run, AfterUpdate, ObserveUpdate;
  }

  /** How one ends that is closed while it waits with nothing pending. */
  lemma EndsOrderly(cfg: Config, w: World)
    requires w.m.at.Waiting? && !w.m.stuck && w.m.state.pendingEvents == []
    ensures var left := Run(cfg, w, [Step.Close, Step.CheckWake, Step.Wake]).m;
            left == w.m.(state := w.m.state.(closed := true),
                         at := if w.m.state.sandbox == None then CleaningUp else TearingDown)
  {
    RunThree(cfg, w, Step.Close, Step.CheckWake, Step.Wake);
    hide Run, AfterUpdate, Observe;
  }

  lemma CleansUp(cfg: Config, w: World)
    requires w.m.at.TearingDown? && !w.m.stuck
    ensures Run(cfg, w, [Step.TornDown]).m == w.m.(at := CleaningUp)
    ensures Run(cfg, w, [Step.TornDown, Step.CleanedUp]).m == w.m.(at := Finished)
  {
    RunOne(cfg, w, Step.TornDown);
    RunTwo(cfg, w, Step.TornDown, Step.CleanedUp);
    hide Run, AfterUpdate, Observe;
  }
}
