/** What each kind of step changes, and what it leaves as it was: the one place
    where the step functions of machine and history are unfolded together. */
module WorkflowSteps {
  import opened Sequences
  import opened Models
  import opened Workflow
  import opened WorkflowRuns
  import Gateway

  // ---- kinds of steps ----

  /** A request under a key that is not on record. */
  predicate Creates(cfg: Config, m: Machine, step: Step) {
    step.RequestPush? && cfg.KeyAt(m.state.iterations) !in m.state.operations
  }

  /** An approved update goes on to push. */
  predicate Starts(m: Machine, step: Step)
    requires Enabled(m, step)
  {
    step.ResumeWithDecision? && m.tasks[step.tid].key in m.approvals && m.approvals[m.tasks[step.tid].key].allowed
  }

  /** The steps that record a final result. */
  predicate Settles(m: Machine, step: Step)
    requires Enabled(m, step)
  {
    || step.PushCompleted?
    || step.DecisionTimeout?
    || (step.ResumeWithDecision? && m.tasks[step.tid].key in m.approvals && !m.approvals[m.tasks[step.tid].key].allowed)
  }

  function Settlement(m: Machine, step: Step): (result: OperationResult)
    requires Enabled(m, step) && Settles(m, step)
    ensures result.operationKey == m.tasks[step.tid].key
    ensures result.status.Pushed? || result.status.Denied? || result.status.Failed?
  {
    var key := m.tasks[step.tid].key;
    match step
    case PushCompleted(_, pushed) => PushResult(key, pushed)
    case ResumeWithDecision(_) => DeniedResult(key, m.approvals[key].reason)
    case _ => DeniedResult(key, "approval timed out")
  }

  /** All the ways an operation record is written. */
  predicate WritesRecord(cfg: Config, m: Machine, step: Step)
    requires Enabled(m, step)
  {
    Creates(cfg, m, step) || Settles(m, step)
  }

  /** Steps that move one update and write neither records nor approvals. */
  predicate MovesOneTask(step: Step) {
    step.Notified? || step.CheckDecision? || step.PushRaised? || step.CheckResult? || step.ResumeWithResult? ||
    step.ResultTimeout?
  }

  // ---- what they change ----

  /** The main coroutine never touches updates and approvals, except by ending the execution. */
  lemma MainStep(cfg: Config, w: World, step: Step)
    requires Enabled(w.m, step) && MovesMain(step)
    ensures var w' := Next(cfg, w, step);
            && !w'.m.stuck && w'.h.returned == w.h.returned && w'.h.completions == w.h.completions
            && if step.StatusPosted? && step.continueAsNew
               then w'.m.tasks == map[] && w'.m.approvals == map[] && w'.h.provenance == map[] &&
                    w'.h.trail == w.h.trail + [ContinuedAsNew]
               else w'.m.tasks == w.m.tasks && w'.m.approvals == w.m.approvals &&
                    w'.h.provenance == w.h.provenance && w'.h.trail == w.h.trail
  {
    hide AfterUpdate, ObserveUpdate;
  }

  /** Only the return of `post_status` replaces operation records, only the end of an iteration copies them. */
  lemma MainRecords(cfg: Config, m: Machine, step: Step)
    requires Enabled(m, step) && MovesMain(step)
    ensures var m' := After(cfg, m, step);
            && m'.state.operations == (if step.StatusPosted? then m.at.copy.operations else m.state.operations)
            && (m'.at.Posting? ==>
                  if step.IterationDone? then m'.at.copy.operations == m.state.operations else m'.at == m.at)
            && (m.at.Posting? ==> if step.StatusPosted? then !m'.at.Posting? else m'.at == m.at)
  {
    hide AfterUpdate;
  }

  lemma UpdateKeepsPlace(cfg: Config, m: Machine, step: Step)
    requires Enabled(m, step) && !MovesMain(step)
    ensures After(cfg, m, step).at == m.at && After(cfg, m, step).state.iterations == m.state.iterations
  {
    hide AfterMain, DecisionFor, Config.KeyAt;
  }

  /** An update writes at most the record of its own key. */
  lemma UpdateRecords(cfg: Config, m: Machine, step: Step)
    requires Enabled(m, step) && !MovesMain(step)
    ensures After(cfg, m, step).state.operations
         == if Creates(cfg, m, step) then
              var key := cfg.KeyAt(m.state.iterations);
              m.state.operations[key := PendingResult(key)]
            else if Settles(m, step) then m.state.operations[m.tasks[step.tid].key := Settlement(m, step)]
            else m.state.operations
  {
    hide AfterMain, DecisionFor, Config.KeyAt;
  }

  lemma CreateStep(cfg: Config, w: World, tid: nat, request: OperationRequest)
    requires Enabled(w.m, Step.RequestPush(tid, request)) && Creates(cfg, w.m, Step.RequestPush(tid, request))
    ensures var key := cfg.KeyAt(w.m.state.iterations);
            Next(cfg, w, Step.RequestPush(tid, request)) == World(
              w.m.(state := w.m.state.(operations := w.m.state.operations[key := PendingResult(key)]),
                   approvals := w.m.approvals[key := ApprovalState(key, true, false, "")],
                   tasks := w.m.tasks[tid := Notifying(key, request.commitMessage)]),
              w.h.(trail := w.h.trail + [RecordCreated(key, tid, request.commitMessage, w.m.state.iterations)],
                   provenance := w.h.provenance[key := Provenance(|w.h.trail|, 0)]))
  {
    hide Config.KeyAt, AfterMain, ObserveMain;
  }

  lemma JoinStep(cfg: Config, w: World, tid: nat, request: OperationRequest)
    requires Enabled(w.m, Step.RequestPush(tid, request)) && !Creates(cfg, w.m, Step.RequestPush(tid, request))
    ensures var key := cfg.KeyAt(w.m.state.iterations);
            var prior := w.m.state.operations[key];
            Next(cfg, w, Step.RequestPush(tid, request)) ==
              if prior.status.Pending? then w.(m := w.m.To(tid, AwaitingResult(key)))
              else World(w.m.To(tid, Returned(prior)), w.h.Return(prior))
  {
    hide Config.KeyAt, AfterMain, ObserveMain;
  }

  lemma WaitStep(cfg: Config, w: World, step: Step)
    requires Enabled(w.m, step) && MovesOneTask(step)
    ensures var w' := Next(cfg, w, step);
            && w'.m == w.m.(tasks := w'.m.tasks, stuck := w'.m.stuck)
            && (w'.m.tasks == w.m.tasks || w'.m.tasks == w.m.tasks[step.tid := w'.m.tasks[step.tid]])
            && w'.h == w.h.(returned := w'.h.returned)
            && match step
               case Notified(tid) =>
                 !w'.m.stuck && w'.h == w.h &&
                 w'.m.tasks[tid] == AwaitingDecision(w.m.tasks[tid].key, w.m.tasks[tid].message)
               case CheckDecision(tid) =>
                 var key := w.m.tasks[tid].key;
                 w'.h == w.h && (w'.m.stuck <==> key !in w.m.approvals) &&
                 w'.m.tasks[tid] == if key in w.m.approvals && w.m.approvals[key].Decided()
                                    then DecisionReady(key, w.m.tasks[tid].message) else w.m.tasks[tid]
               case CheckResult(tid) =>
                 var key := w.m.tasks[tid].key;
                 w'.h == w.h && (w'.m.stuck <==> key !in w.m.state.operations) &&
                 w'.m.tasks[tid] == if key in w.m.state.operations && !w.m.state.operations[key].status.Pending?
                                    then ResultReady(key) else w.m.tasks[tid]
               case ResumeWithResult(tid) =>
                 var key := w.m.tasks[tid].key;
                 (w'.m.stuck <==> key !in w.m.state.operations) &&
                 if key in w.m.state.operations
                 then w'.m.tasks[tid] == Returned(w.m.state.operations[key]) && w'.h == w.h.Return(w.m.state.operations[key])
                 else w'.m.tasks == w.m.tasks && w'.h == w.h
               case PushRaised(tid) => !w'.m.stuck && w'.h == w.h && w'.m.tasks[tid] == Raised
               case ResultTimeout(tid) => !w'.m.stuck && w'.h == w.h && w'.m.tasks[tid] == Raised
               case _ => true
  {
    hide AfterMain, ObserveMain;
  }

  lemma SettleStep(cfg: Config, w: World, step: Step)
    requires Enabled(w.m, step) && Settles(w.m, step)
    ensures var w' := Next(cfg, w, step);
            var result := Settlement(w.m, step);
            var key := result.operationKey;
            && w'.m == w.m.(state := w.m.state.(operations := w.m.state.operations[key := result]),
                            approvals := w'.m.approvals, tasks := w.m.tasks[step.tid := Returned(result)])
            && w'.m.approvals == (if step.PushCompleted? then w.m.approvals else w.m.approvals - {key})
            && w'.h == w.h.(returned := w.h.returned + [result], provenance := w'.h.provenance,
                            completions := w'.h.completions)
            && w'.h.provenance == (if step.PushCompleted? then w.h.provenance else w.h.provenance - {key})
            && w'.h.completions
               == (if step.PushCompleted? then w.h.completions + [Completion(key, step.pushed)] else w.h.completions)
  {
    hide AfterMain, ObserveMain;
  }

  lemma StartStep(cfg: Config, w: World, step: Step)
    requires Enabled(w.m, step) && Starts(w.m, step)
    ensures var t := w.m.tasks[step.tid];
            Next(cfg, w, step) == World(
              w.m.(approvals := w.m.approvals - {t.key}, tasks := w.m.tasks[step.tid := Pushing(t.key, t.message)]),
              w.h.(trail := w.h.trail + [PushStarted(t.key, step.tid, t.message, w.h.Origin(t.key).created,
                                                     w.h.Origin(t.key).decided)],
                   provenance := w.h.provenance - {t.key}))
  {
    hide AfterMain, ObserveMain;
  }

  lemma MissingStep(cfg: Config, w: World, step: Step)
    requires Enabled(w.m, step) && step.ResumeWithDecision?
    requires w.m.tasks[step.tid].key !in w.m.approvals
    ensures Next(cfg, w, step) == w.(m := w.m.Stop())
  {
    hide AfterMain, ObserveMain;
  }

  lemma CommentStep(cfg: Config, w: World, c: Gateway.Comment)
    requires Enabled(w.m, Step.ApprovalComment(c))
    ensures var w' := Next(cfg, w, Step.ApprovalComment(c));
            match DecisionFor(cfg, c)
            case None => w' == w
            case Some(d) =>
              if d.approvalId !in w.m.approvals then w' == w
              else
                w' == World(
                  w.m.(approvals := w.m.approvals[d.approvalId :=
                         w.m.approvals[d.approvalId].(pending := false, allowed := d.allowed, reason := d.reason)]),
                  w.h.(trail := w.h.trail + [Decided(d.approvalId, d.allowed, c)],
                       provenance := w.h.provenance[d.approvalId :=
                         w.h.Origin(d.approvalId).(decided := |w.h.trail|)]))
  {
    hide AfterMain, ObserveMain, DecisionFor;
  }
}
