/** The workflow object as its runtime drives it: whatever sequence of calls, the
    object goes through exactly the run that the theorems speak of. */
module WorkflowDriver {
  import opened Sequences
  import opened Models
  import opened Workflow
  import opened WorkflowRuns

  /** One activation: the method for the step, if the object stands where it can be called. */
  method Handle(wf: PRAutofixWorkflow, step: Step)
    modifies wf
    ensures wf.View() == if Enabled(old(wf.View()), step) then After(wf.cfg, old(wf.View()), step) else old(wf.View())
  {
    if !Enabled(wf.View(), step) {
      return;
    }
    hide After;
    match step
    case OnEvent(event) => wf.OnEvent(event);
    case Close => wf.Close();
    case RequestPush(tid, request) => wf.RequestPushChanges(tid, request);
    case Notified(tid) => wf.AfterNotification(tid);
    case CheckDecision(tid) => wf.CheckDecision(tid);
    case ResumeWithDecision(tid) => wf.AfterDecision(tid);
    case DecisionTimeout(tid) => wf.AfterDecisionTimeout(tid);
    case PushCompleted(tid, pushed) => wf.AfterPush(tid, pushed);
    case PushRaised(tid) => wf.UpdateFails(tid);
    case CheckResult(tid) => wf.CheckResult(tid);
    case ResumeWithResult(tid) => wf.AfterResult(tid);
    case ResultTimeout(tid) => wf.UpdateFails(tid);
    case ApprovalComment(comment) => wf.SubmitApprovalDecision(comment);
    case Prepared => wf.AfterPrepare();
    case Provisioned(handle) => wf.AfterProvision(handle);
    case CheckWake => wf.CheckWake();
    case Wake => var _ := wf.AfterWait();
    case IdleTimeout => wf.AfterIdleTimeout();
    case IterationDone(commentIds, failed) => wf.AfterIteration(commentIds, failed);
    case StatusPosted(commentId, checkRunId, continueAsNew) => wf.AfterPostStatus(commentId, checkRunId, continueAsNew);
    case TornDown => wf.AfterTeardown();
    case CleanedUp => wf.AfterCleanup();
  }

  /** A whole chain for a pull request, driven by any list of steps. */
  method Drive(cfg: Config, pr: PRRef, steps: seq<Step>) returns (wf: PRAutofixWorkflow)
    ensures fresh(wf) && wf.cfg == cfg
    ensures wf.View() == Run(cfg, Begin(NewState(pr)), steps).m
  {
    wf := new PRAutofixWorkflow(cfg, pr);
    ghost var w := Begin(NewState(pr));
    assert steps[..0] == [];
    for i := 0 to |steps|
      invariant fresh(wf) && wf.cfg == cfg
      invariant w == Run(cfg, Begin(NewState(pr)), steps[..i]) && wf.View() == w.m
    {
      RunSnoc(cfg, Begin(NewState(pr)), steps[..i], steps[i]);
      assert steps[..i] + [steps[i]] == steps[..i + 1];
      hide After, Observe, Enabled, Run;
      Handle(wf, steps[i]);
      w := Next(cfg, w, steps[i]);
    }
    assert steps[..|steps|] == steps;
  }

  lemma RunSnoc(cfg: Config, w: World, steps: seq<Step>, step: Step)
    ensures Run(cfg, w, steps + [step]) == Next(cfg, Run(cfg, w, steps), step)
  {
    hide Next;
    RunAppend(cfg, w, steps, [step]);
    assert [step][1..] == [];
  }
}
