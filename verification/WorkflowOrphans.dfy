/** Operations that no update carries out any more are never published, and only those. */
module WorkflowOrphans {
  import opened Sequences
  import opened Models
  import opened Workflow
  import opened WorkflowRuns
  import opened WorkflowSteps
  import opened WorkflowScenarios
  import opened WorkflowSingleFlight
  import opened WorkflowResults
  import Gateway

  ghost predicate Unowned(m: Machine, key: string) {
    forall t :: t in m.tasks ==> !m.tasks[t].Owns(key)
  }

  /** On record as pending, also in the copy that `post_status` will bring back,
      and carried out by no update. */
  ghost predicate Orphaned(m: Machine, key: string) {
    PendingEverywhere(m, key) && Unowned(m, key)
  }

  ghost predicate PendingEverywhere(m: Machine, key: string) {
    && PendingOn(m, key)
    && (m.at.Posting? ==> key in m.at.copy.operations && m.at.copy.operations[key].status.Pending?)
  }

  /** No push of the key starts from here on, in any run. */
  ghost predicate NeverStarts(cfg: Config, w: World, key: string) {
    forall later :: !StartsAgain(cfg, w, later, key)
  }

  ghost predicate StartsAgain(cfg: Config, w: World, later: seq<Step>, key: string) {
    var trail := Run(cfg, w, later).h.trail;
    exists p :: |w.h.trail| <= p < |trail| && trail[p].PushStarted? && trail[p].key == key
  }

  // ---- orphans stay orphans ----

  lemma OrphanedMain(cfg: Config, w: World, step: Step, key: string)
    requires Orphaned(w.m, key) && Enabled(w.m, step) && MovesMain(step)
    ensures Orphaned(Next(cfg, w, step).m, key)
  {
    MainStep(cfg, w, step);
    MainRecords(cfg, w.m, step);
    hide After, Observe;
  }

  lemma OrphanedUpdate(cfg: Config, w: World, step: Step, key: string)
    requires Orphaned(w.m, key) && Enabled(w.m, step) && !MovesMain(step)
    ensures Orphaned(Next(cfg, w, step).m, key)
  {
    UpdateKeepsPlace(cfg, w.m, step);
    UpdateRecords(cfg, w.m, step);
    UpdateOwners(cfg, w.m, step, key);
    hide After, Observe, Config.KeyAt;
    if Settles(w.m, step) {
      assert w.m.tasks[step.tid].Owns(w.m.tasks[step.tid].key);
    }
  }

  /** Only a request that creates makes an owner. */
  lemma UpdateOwners(cfg: Config, m: Machine, step: Step, key: string)
    requires Enabled(m, step) && !MovesMain(step) && Unowned(m, key)
    requires !(Creates(cfg, m, step) && cfg.KeyAt(m.state.iterations) == key)
    ensures Unowned(After(cfg, m, step), key)
  {
    hide AfterMain, DecisionFor, Config.KeyAt;
  }

  /** And only an owner's step starts its push. */
  lemma QuietTrail(cfg: Config, w: World, step: Step, key: string)
    requires Unowned(w.m, key)
    ensures var trail := Next(cfg, w, step).h.trail;
            && w.h.trail <= trail
            && forall p :: |w.h.trail| <= p < |trail| && trail[p].PushStarted? ==> trail[p].key != key
  {
    hide Config.KeyAt, DecisionFor, After;
    if Enabled(w.m, step) {
      if MovesMain(step) {
        hide ObserveUpdate;
      } else {
        hide ObserveMain;
        if step.ResumeWithDecision? {
          assert w.m.tasks[step.tid].Owns(w.m.tasks[step.tid].key);
        }
      }
    }
  }

  lemma OrphanedNext(cfg: Config, w: World, step: Step, key: string)
    requires Orphaned(w.m, key)
    ensures Orphaned(Next(cfg, w, step).m, key)
  {
    hide After, Observe, Orphaned;
    if Enabled(w.m, step) {
      if MovesMain(step) {
        OrphanedMain(cfg, w, step, key);
      } else {
        OrphanedUpdate(cfg, w, step, key);
      }
    }
  }

  lemma {:induction false} OrphanedRun(cfg: Config, w: World, steps: seq<Step>, key: string)
    requires Orphaned(w.m, key)
    ensures var w' := Run(cfg, w, steps);
            && Orphaned(w'.m, key)
            && w.h.trail <= w'.h.trail
            && forall p :: |w.h.trail| <= p < |w'.h.trail| && w'.h.trail[p].PushStarted? ==> w'.h.trail[p].key != key
    decreases |steps|
  {
    if steps != [] {
      OrphanedNext(cfg, w, steps[0], key);
      QuietTrail(cfg, w, steps[0], key);
      hide Next, Orphaned;
      var w1 := Next(cfg, w, steps[0]);
      OrphanedRun(cfg, w1, steps[1..], key);
      var w' := Run(cfg, w1, steps[1..]);
      assert forall p :: |w.h.trail| <= p < |w1.h.trail| ==> w'.h.trail[p] == w1.h.trail[p];
    }
  }

  /** Once orphaned, an operation stays pending and is never pushed, in every run. */
  lemma OrphanedForEver(cfg: Config, w: World, key: string)
    requires Orphaned(w.m, key)
    ensures NeverStarts(cfg, w, key)
    ensures forall later :: Orphaned(Run(cfg, w, later).m, key)
  {
    hide Run, Orphaned;
    forall later ensures Orphaned(Run(cfg, w, later).m, key) && !StartsAgain(cfg, w, later, key) {
      OrphanedRun(cfg, w, later, key);
    }
  }

  /** Continuing as new drops the updates and the approvals with them: what was
      still pending then is never published by the chain. */
  lemma PendingAtContinueAsNew(cfg: Config, w: World, posted: Step, key: string)
    requires Enabled(w.m, posted) && posted.StatusPosted? && posted.continueAsNew
    requires key in w.m.at.copy.operations && w.m.at.copy.operations[key].status.Pending?
    ensures NeverStarts(cfg, Next(cfg, w, posted), key)
    ensures forall later :: PendingOn(Run(cfg, Next(cfg, w, posted), later).m, key)
  {
    MainStep(cfg, w, posted);
    MainRecords(cfg, w.m, posted);
    hide After, Observe, Run;
    OrphanedForEver(cfg, Next(cfg, w, posted), key);
  }

  // ---- and nothing else does ----

  /** The steps by which the owner of an operation comes to push, once approved. */
  function ToPush(task: Task, tid: nat, c: Gateway.Comment): seq<Step> {
    match task
    case Notifying(_, _) => [Step.Notified(tid)] + Granted(tid, c)
    case DecisionReady(_, _) => [Step.ApprovalComment(c), Step.ResumeWithDecision(tid)]
    case _ => Granted(tid, c)
  }

  lemma ReadyStarts(cfg: Config, w: World, tid: nat, c: Gateway.Comment, key: string)
    requires !w.m.stuck && !w.m.at.Finished? && tid in w.m.tasks && w.m.tasks[tid].DecisionReady?
    requires w.m.tasks[tid].key == key && key in w.m.approvals && Approves(cfg, c, key)
    ensures StartsAgain(cfg, w, [Step.ApprovalComment(c), Step.ResumeWithDecision(tid)], key)
  {
    hide Next, Run, Approves;
    RunTwo(cfg, w, Step.ApprovalComment(c), Step.ResumeWithDecision(tid));
    CommentAllows(cfg, w, key, c);
    var w1 := Next(cfg, w, Step.ApprovalComment(c));
    StartStep(cfg, w1, Step.ResumeWithDecision(tid));
    var trail := Next(cfg, w1, Step.ResumeWithDecision(tid)).h.trail;
    assert trail[|w.h.trail| + 1].PushStarted?;
  }

  lemma WaitingStarts(cfg: Config, w: World, tid: nat, c: Gateway.Comment, key: string)
    requires !w.m.stuck && !w.m.at.Finished? && tid in w.m.tasks && w.m.tasks[tid].AwaitingDecision?
    requires w.m.tasks[tid].key == key && key in w.m.approvals && Approves(cfg, c, key)
    ensures StartsAgain(cfg, w, Granted(tid, c), key)
  {
    hide Next, Run, Approves, Granted;
    ApprovedStarts(cfg, w, tid, c);
    var trail := Run(cfg, w, Granted(tid, c)).h.trail;
    assert trail[|w.h.trail| + 1].PushStarted?;
  }

  lemma NotifyingStarts(cfg: Config, w: World, tid: nat, c: Gateway.Comment, key: string)
    requires !w.m.stuck && !w.m.at.Finished? && tid in w.m.tasks && w.m.tasks[tid].Notifying?
    requires w.m.tasks[tid].key == key && key in w.m.approvals && Approves(cfg, c, key)
    ensures StartsAgain(cfg, w, [Step.Notified(tid)] + Granted(tid, c), key)
  {
    hide Next, Run, Approves, Granted;
    WaitStep(cfg, w, Step.Notified(tid));
    RunOne(cfg, w, Step.Notified(tid));
    RunAppend(cfg, w, [Step.Notified(tid)], Granted(tid, c));
    WaitingStarts(cfg, Next(cfg, w, Step.Notified(tid)), tid, c, key);
  }

  lemma OwnerStarts(cfg: Config, w: World, tid: nat, c: Gateway.Comment, key: string)
    requires Keyed(w) && !w.m.at.Finished? && tid in w.m.tasks
    requires w.m.tasks[tid].Owns(key) && !w.m.tasks[tid].Pushing? && Approves(cfg, c, key)
    ensures StartsAgain(cfg, w, ToPush(w.m.tasks[tid], tid, c), key)
  {
    hide Next, Run, Approves, Granted, StartsAgain;
    assert TaskKeyed(w, tid) && !w.m.stuck && key in w.m.approvals;
    hide Keyed;
    match w.m.tasks[tid]
    case Notifying(_, _) => NotifyingStarts(cfg, w, tid, c, key);
    case AwaitingDecision(_, _) => WaitingStarts(cfg, w, tid, c, key);
    case _ => ReadyStarts(cfg, w, tid, c, key);
  }

  /** Exactly: a pending operation whose push has not started is never pushed any
      more, in any run, if and only if no update carries it out. */
  lemma OrphanedExactly(cfg: Config, w: World, key: string, c: Gateway.Comment)
    requires Reached(cfg, w) && !w.m.at.Finished? && PendingEverywhere(w.m, key) && Approves(cfg, c, key)
    requires forall t :: t in w.m.tasks && w.m.tasks[t].Pushing? ==> w.m.tasks[t].key != key
    ensures NeverStarts(cfg, w, key) <==> Unowned(w.m, key)
  {
    hide Approves, StartsAgain, PendingEverywhere, Reached, Keyed;
    ReachedKeyed(cfg, w);
    if Unowned(w.m, key) {
      OrphanedForEver(cfg, w, key);
    } else {
      var t :| t in w.m.tasks && w.m.tasks[t].Owns(key);
      OwnerStarts(cfg, w, t, c, key);
    }
  }
}
