/** Particular runs of the workflow machine, from any world: a request, its
    approval, the return of `post_status`. */
module WorkflowScenarios {
  import opened Sequences
  import opened Models
  import opened Workflow
  import opened WorkflowRuns
  import opened WorkflowSteps
  import Gateway

  // ---- runs of a few steps ----

  lemma RunOne(cfg: Config, w: World, a: Step)
    ensures Run(cfg, w, [a]) == Next(cfg, w, a)
  {
    hide Next;
    assert [a][1..] == [];
  }

  lemma RunTwo(cfg: Config, w: World, a: Step, b: Step)
    ensures Run(cfg, w, [a, b]) == Next(cfg, Next(cfg, w, a), b)
  {
    RunOne(cfg, w, a);
    RunOne(cfg, Next(cfg, w, a), b);
    hide Next, Run;
    RunAppend(cfg, w, [a], [b]);
    assert [a] + [b] == [a, b];
  }

  lemma RunThree(cfg: Config, w: World, a: Step, b: Step, c: Step)
    ensures Run(cfg, w, [a, b, c]) == Next(cfg, Next(cfg, Next(cfg, w, a), b), c)
  {
    RunTwo(cfg, w, a, b);
    RunOne(cfg, Next(cfg, Next(cfg, w, a), b), c);
    hide Next, Run;
    RunAppend(cfg, w, [a, b], [c]);
    assert [a, b] + [c] == [a, b, c];
  }

  // ---- a request and its approval ----

  predicate Approves(cfg: Config, c: Gateway.Comment, key: string) {
    DecisionFor(cfg, c).Some? && DecisionFor(cfg, c).value.approvalId == key && DecisionFor(cfg, c).value.allowed
  }

  /** Such a comment exists: a listed approver sends the command as printed. */
  lemma PrintedCommandApproves(cfg: Config, c: Gateway.Comment, key: string)
    requires Gateway.IsId(key) && c.body == "/autofix approve " + key
    requires c.onPullRequest && c.repoAllowed && Gateway.Lists(c.approverLogins, c.login)
    requires cfg.workflowId == Gateway.WorkflowId(c.owner, c.repo, c.number)
    ensures Approves(cfg, c, key)
  {
    Gateway.ApproveCommandReadsBack(key);
    hide Gateway.ParseCommand, Gateway.Approvers, Gateway.Lists, Gateway.WorkflowId, Gateway.IsId;
    Gateway.ApproversExact(c.approverLogins, c.login);
    assert DecisionFor(cfg, c) == Some(Gateway.Decision(cfg.workflowId, key, true, ""));
  }

  function Requested(tid: nat, request: OperationRequest): seq<Step> {
    [Step.RequestPush(tid, request), Step.Notified(tid)]
  }

  function Granted(tid: nat, c: Gateway.Comment): seq<Step> {
    [Step.ApprovalComment(c), Step.CheckDecision(tid), Step.ResumeWithDecision(tid)]
  }

  /** What the scenarios say of where they lead: the coroutine stands where it stood. */
  predicate SamePlace(w: World, w': World) {
    !w'.m.stuck && w'.m.at == w.m.at && w'.m.state.iterations == w.m.state.iterations
  }

  lemma RequestedCreates(cfg: Config, w: World, tid: nat, request: OperationRequest)
    requires Enabled(w.m, Step.RequestPush(tid, request)) && Creates(cfg, w.m, Step.RequestPush(tid, request))
    ensures var key := cfg.KeyAt(w.m.state.iterations);
            var w' := Run(cfg, w, Requested(tid, request));
            && SamePlace(w, w')
            && w'.m.state.operations == w.m.state.operations[key := PendingResult(key)]
            && w'.m.tasks == w.m.tasks[tid := AwaitingDecision(key, request.commitMessage)]
            && key in w'.m.approvals
            && w'.h.trail == w.h.trail + [RecordCreated(key, tid, request.commitMessage, w.m.state.iterations)]
            && w'.h.Origin(key) == Provenance(|w.h.trail|, 0)
  {
    RunTwo(cfg, w, Step.RequestPush(tid, request), Step.Notified(tid));
    CreateStep(cfg, w, tid, request);
    hide Next, Run, Config.KeyAt;
    var w1 := Next(cfg, w, Step.RequestPush(tid, request));
    WaitStep(cfg, w1, Step.Notified(tid));
  }

  lemma ApprovedStarts(cfg: Config, w: World, tid: nat, c: Gateway.Comment)
    requires !w.m.stuck && !w.m.at.Finished? && tid in w.m.tasks && w.m.tasks[tid].AwaitingDecision?
    requires w.m.tasks[tid].key in w.m.approvals && Approves(cfg, c, w.m.tasks[tid].key)
    ensures var t := w.m.tasks[tid];
            var n := |w.h.trail|;
            var w' := Run(cfg, w, Granted(tid, c));
            && SamePlace(w, w')
            && w'.m.state.operations == w.m.state.operations
            && w'.m.tasks == w.m.tasks[tid := Pushing(t.key, t.message)]
            && t.key !in w'.m.approvals
            && w'.h.trail == w.h.trail + [Decided(t.key, true, c)]
                             + [PushStarted(t.key, tid, t.message, w.h.Origin(t.key).created, n)]
  {
    RunThree(cfg, w, Step.ApprovalComment(c), Step.CheckDecision(tid), Step.ResumeWithDecision(tid));
    hide Next, Run, Approves;
    CommentAllows(cfg, w, w.m.tasks[tid].key, c);
    var w1 := Next(cfg, w, Step.ApprovalComment(c));
    CheckReadies(cfg, w1, tid);
    var w2 := Next(cfg, w1, Step.CheckDecision(tid));
    StartStep(cfg, w2, Step.ResumeWithDecision(tid));
  }

  lemma CheckReadies(cfg: Config, w: World, tid: nat)
    requires !w.m.stuck && !w.m.at.Finished? && tid in w.m.tasks && w.m.tasks[tid].AwaitingDecision?
    requires w.m.tasks[tid].key in w.m.approvals && w.m.approvals[w.m.tasks[tid].key].Decided()
    ensures Next(cfg, w, Step.CheckDecision(tid))
         == w.(m := w.m.To(tid, DecisionReady(w.m.tasks[tid].key, w.m.tasks[tid].message)))
  {
    hide AfterMain, ObserveMain;
  }

  lemma CommentAllows(cfg: Config, w: World, key: string, c: Gateway.Comment)
    requires Enabled(w.m, Step.ApprovalComment(c)) && key in w.m.approvals && Approves(cfg, c, key)
    ensures var w' := Next(cfg, w, Step.ApprovalComment(c));
            && w'.m == w.m.(approvals := w'.m.approvals)
            && key in w'.m.approvals && w'.m.approvals[key].allowed && w'.m.approvals[key].Decided()
            && w'.h == w.h.(trail := w.h.trail + [Decided(key, true, c)], provenance := w'.h.provenance)
            && w'.h.Origin(key) == Provenance(w.h.Origin(key).created, |w.h.trail|)
  {
    CommentStep(cfg, w, c);
    hide DecisionFor, Next;
  }

  /** A request under a key not yet on record, notified and approved by a comment,
      starts its push, wherever the main coroutine stands. */
  lemma ApprovedRequestStarts(cfg: Config, w: World, tid: nat, request: OperationRequest, c: Gateway.Comment)
    requires Enabled(w.m, Step.RequestPush(tid, request)) && Creates(cfg, w.m, Step.RequestPush(tid, request))
    requires Approves(cfg, c, cfg.KeyAt(w.m.state.iterations))
    ensures var key := cfg.KeyAt(w.m.state.iterations);
            var n := |w.h.trail|;
            var w' := Run(cfg, w, Requested(tid, request) + Granted(tid, c));
            && SamePlace(w, w')
            && w'.m.state.operations == w.m.state.operations[key := PendingResult(key)]
            && w'.m.tasks == w.m.tasks[tid := Pushing(key, request.commitMessage)]
            && key !in w'.m.approvals
            && w'.h.trail == w.h.trail + [RecordCreated(key, tid, request.commitMessage, w.m.state.iterations)]
                             + [Decided(key, true, c)]
                             + [PushStarted(key, tid, request.commitMessage, n, n + 1)]
  {
    hide Run, Requested, Granted, Approves, Config.KeyAt;
    RequestedCreates(cfg, w, tid, request);
    var w1 := Run(cfg, w, Requested(tid, request));
    ApprovedStarts(cfg, w1, tid, c);
    RunAppend(cfg, w, Requested(tid, request), Granted(tid, c));
  }

  // ---- the return of `post_status` ----

  const POSTED: Step := Step.StatusPosted(0, None, false)

  lemma PostReturns(cfg: Config, w: World)
    requires Enabled(w.m, POSTED)
    ensures var w' := Run(cfg, w, [POSTED]);
            && !w'.m.stuck && !w'.m.at.Finished? && !w'.m.at.Posting?
            && w'.m.tasks == w.m.tasks && w'.m.approvals == w.m.approvals && w'.h == w.h
            && w'.m.state.iterations == w.m.at.copy.iterations && w'.m.state.operations == w.m.at.copy.operations
  {
    RunOne(cfg, w, POSTED);
    hide AfterUpdate, ObserveUpdate, Run;
  }

  // ---- the way to a `post_status` call ----

  function Iteration(handle: SandboxHandle, event: GitHubEvent): seq<Step> {
    [Step.Prepared, Step.Provisioned(handle), Step.OnEvent(event)] +
    [Step.CheckWake, Step.Wake, Step.IterationDone({}, false)]
  }

  /** Every workflow's first event leads to a `post_status` call with nothing on record. */
  lemma IterationPosts(cfg: Config, pr: PRRef, handle: SandboxHandle, event: GitHubEvent)
    ensures var m := Run(cfg, Begin(NewState(pr)), Iteration(handle, event)).m;
            && m.at.Posting? && !m.stuck && m.tasks == map[]
            && m.state.iterations == m.at.copy.iterations == 1
            && m.state.operations == m.at.copy.operations == map[]
  {
    var w := Begin(NewState(pr));
    var first := [Step.Prepared, Step.Provisioned(handle), Step.OnEvent(event)];
    var second := [Step.CheckWake, Step.Wake, Step.IterationDone({}, false)];
    RunAppend(cfg, w, first, second);
    FirstEventWaits(cfg, pr, handle, event);
    hide Next, Begin, Run;
    PendingEventPosts(cfg, Run(cfg, w, first));
  }

  lemma FirstEventWaits(cfg: Config, pr: PRRef, handle: SandboxHandle, event: GitHubEvent)
    ensures var m := Run(cfg, Begin(NewState(pr)), [Step.Prepared, Step.Provisioned(handle), Step.OnEvent(event)]).m;
            m.at.Waiting? && !m.stuck && m.tasks == map[] && m.state.pendingEvents != [] &&
            m.state.iterations == 0 && m.state.operations == map[]
  {
    RunThree(cfg, Begin(NewState(pr)), Step.Prepared, Step.Provisioned(handle), Step.OnEvent(event));
    hide AfterUpdate, ObserveUpdate, ObserveMain, Run;
  }

  lemma PendingEventPosts(cfg: Config, w: World)
    requires w.m.at.Waiting? && !w.m.stuck && w.m.state.pendingEvents != []
    ensures var m := Run(cfg, w, [Step.CheckWake, Step.Wake, Step.IterationDone({}, false)]).m;
            m.at.Posting? && !m.stuck && m.tasks == w.m.tasks &&
            m.state.iterations == m.at.copy.iterations == w.m.state.iterations + 1 &&
            m.state.operations == m.at.copy.operations == w.m.state.operations
  {
    RunThree(cfg, w, Step.CheckWake, Step.Wake, Step.IterationDone({}, false));
    hide AfterUpdate, ObserveUpdate, ObserveMain, Run;
    var w2 := Next(cfg, Next(cfg, w, Step.CheckWake), Step.Wake);
    assert w2.m.at.Iterating? && w2.m.state.iterations == w.m.state.iterations + 1;
    assert w2.m.tasks == w.m.tasks && w2.m.state.operations == w.m.state.operations && !w2.m.stuck;
    var w3 := Next(cfg, w2, Step.IterationDone({}, false));
    assert w3.m == w2.m.IterationDone({}, false);
  }

  // ---- a number no update has ----

  lemma {:induction false} Bound(tids: set<nat>) returns (n: nat)
    ensures forall t :: t in tids ==> t < n
    decreases |tids|
  {
    if tids == {} {
      n := 0;
    } else {
      var t :| t in tids;
      var m := Bound(tids - {t});
      assert forall u :: u in tids ==> u == t || u in tids - {t};
      n := if m <= t then t + 1 else m;
    }
  }
}
