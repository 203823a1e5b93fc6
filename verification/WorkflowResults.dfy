/** One result per operation: exactly as long as nothing writes an operation
    record while a `post_status` call is in flight. */
module WorkflowResults {
  import opened Sequences
  import opened Models
  import opened Workflow
  import opened WorkflowRuns
  import opened WorkflowSteps
  import opened WorkflowScenarios
  import opened WorkflowSingleFlight
  import Gateway

  // ---- calm runs ----

  /** The guard: no operation is created or settled while `post_status` is in flight. */
  predicate CalmStep(cfg: Config, w: World, step: Step) {
    !(w.m.at.Posting? && Enabled(w.m, step) && WritesRecord(cfg, w.m, step))
  }

  predicate Calm(cfg: Config, w: World, steps: seq<Step>)
    decreases |steps|
  {
    steps == [] || (CalmStep(cfg, w, steps[0]) && Calm(cfg, Next(cfg, w, steps[0]), steps[1..]))
  }

  lemma {:induction false} CalmAppend(cfg: Config, w: World, first: seq<Step>, second: seq<Step>)
    ensures Calm(cfg, w, first + second) <==> Calm(cfg, w, first) && Calm(cfg, Run(cfg, w, first), second)
    decreases |first|
  {
    if first == [] {
      assert first + second == second;
    } else {
      assert (first + second)[1..] == first[1..] + second;
      hide Next, CalmStep;
      CalmAppend(cfg, Next(cfg, w, first[0]), first[1..], second);
    }
  }

  // ---- the invariant ----

  predicate Settled(result: OperationResult) {
    result.status.Pushed? || result.status.Denied? || result.status.Failed?
  }

  /** Records are filed under their own key and are pending or settled. */
  ghost predicate WellFiled(operations: map<string, OperationResult>) {
    forall k :: k in operations ==>
      operations[k].operationKey == k && (operations[k].status.Pending? || Settled(operations[k]))
  }

  /** The result is the one on record. */
  ghost predicate IsFinal(m: Machine, result: OperationResult) {
    result.operationKey in m.state.operations && m.state.operations[result.operationKey] == result && Settled(result)
  }

  ghost predicate AllFinal(w: World) {
    forall r :: r in w.h.returned ==> IsFinal(w.m, r)
  }

  ghost predicate PendingOn(m: Machine, key: string) {
    key in m.state.operations && m.state.operations[key].status.Pending?
  }

  /** What the record of an update's key says at each await. */
  ghost predicate TaskSound(m: Machine, task: Task) {
    match task
    case ResultReady(key) => key in m.state.operations && Settled(m.state.operations[key])
    case Notifying(key, _) => PendingOn(m, key)
    case AwaitingDecision(key, _) => PendingOn(m, key)
    case DecisionReady(key, _) => PendingOn(m, key)
    case Pushing(key, _) => PendingOn(m, key)
    case Returned(result) => IsFinal(m, result)
    case _ => true
  }

  ghost predicate InFlight(w: World) {
    && Keyed(w)
    && WellFiled(w.m.state.operations)
    && (w.m.at.Posting? ==> w.m.at.copy.operations == w.m.state.operations)
    && (forall t :: t in w.m.tasks ==> TaskSound(w.m, w.m.tasks[t]))
    && AllFinal(w)
  }

  // ---- steps ----

  /** No record changes: every update and every earlier result keeps what it relied on. */
  lemma SameRecords(w: World, w': World)
    requires InFlight(w) && Keyed(w') && w'.m.state.operations == w.m.state.operations
    requires w'.m.at.Posting? ==> w'.m.at.copy.operations == w'.m.state.operations
    requires forall t :: t in w'.m.tasks ==>
               (t in w.m.tasks && w'.m.tasks[t] == w.m.tasks[t]) || TaskSound(w'.m, w'.m.tasks[t])
    requires forall r :: r in w'.h.returned ==> r in w.h.returned || IsFinal(w'.m, r)
    ensures InFlight(w')
  {
    hide Keyed;
    forall t | t in w'.m.tasks ensures TaskSound(w'.m, w'.m.tasks[t]) {
      if t in w.m.tasks {
        assert TaskSound(w.m, w.m.tasks[t]);
      }
    }
  }

  lemma WaitFlight(cfg: Config, w: World, step: Step)
    requires InFlight(w) && Keyed(Next(cfg, w, step)) && Enabled(w.m, step) && MovesOneTask(step)
    ensures InFlight(Next(cfg, w, step))
  {
    hide Next, Keyed;
    WaitStep(cfg, w, step);
    assert TaskSound(w.m, w.m.tasks[step.tid]);
    SameRecords(w, Next(cfg, w, step));
  }

  lemma JoinFlight(cfg: Config, w: World, step: Step)
    requires InFlight(w) && Keyed(Next(cfg, w, step)) && Enabled(w.m, step) && step.RequestPush? && !Creates(cfg, w.m, step)
    ensures InFlight(Next(cfg, w, step))
  {
    hide Next, Keyed, Config.KeyAt;
    JoinStep(cfg, w, step.tid, step.request);
    SameRecords(w, Next(cfg, w, step));
  }

  lemma CreateFlight(cfg: Config, w: World, step: Step)
    requires InFlight(w) && Keyed(Next(cfg, w, step)) && Enabled(w.m, step) && step.RequestPush?
    requires Creates(cfg, w.m, step) && !w.m.at.Posting?
    ensures InFlight(Next(cfg, w, step))
  {
    hide Next, Keyed, Config.KeyAt;
    CreateStep(cfg, w, step.tid, step.request);
    var w' := Next(cfg, w, step);
    forall t | t in w'.m.tasks ensures TaskSound(w'.m, w'.m.tasks[t]) {
      if t != step.tid {
        assert TaskSound(w.m, w.m.tasks[t]);
      }
    }
  }

  /** An owner settles its operation; nobody else relied on it being pending. */
  lemma SettleFlight(cfg: Config, w: World, step: Step)
    requires InFlight(w) && Keyed(Next(cfg, w, step)) && Enabled(w.m, step)
    requires Settles(w.m, step) && !w.m.at.Posting?
    ensures InFlight(Next(cfg, w, step))
  {
    hide Next, Keyed;
    var tid, key := step.tid, w.m.tasks[step.tid].key;
    SoleOwner(w, tid, key);
    SettleStep(cfg, w, step);
    var w' := Next(cfg, w, step);
    assert TaskSound(w.m, w.m.tasks[tid]);
    forall t | t in w'.m.tasks ensures TaskSound(w'.m, w'.m.tasks[t]) {
      if t != tid {
        assert TaskSound(w.m, w.m.tasks[t]) && !w.m.tasks[t].Owns(key);
      }
    }
  }

  lemma SoleOwner(w: World, tid: nat, key: string)
    requires Keyed(w) && tid in w.m.tasks && w.m.tasks[tid].Owns(key)
    ensures forall t :: t in w.m.tasks && t != tid ==> !w.m.tasks[t].Owns(key)
  {
    hide Started, StartedOnce, StartedIsOver, OwnRecord, TaskKeyed;
  }

  lemma StartFlight(cfg: Config, w: World, step: Step)
    requires InFlight(w) && Keyed(Next(cfg, w, step)) && Enabled(w.m, step) && Starts(w.m, step)
    ensures InFlight(Next(cfg, w, step))
  {
    hide Next, Keyed;
    StartStep(cfg, w, step);
    assert TaskSound(w.m, w.m.tasks[step.tid]);
    SameRecords(w, Next(cfg, w, step));
  }

  lemma CommentFlight(cfg: Config, w: World, c: Gateway.Comment)
    requires InFlight(w) && Keyed(Next(cfg, w, Step.ApprovalComment(c))) && Enabled(w.m, Step.ApprovalComment(c))
    ensures InFlight(Next(cfg, w, Step.ApprovalComment(c)))
  {
    hide Next, Keyed, DecisionFor;
    CommentStep(cfg, w, c);
    SameRecords(w, Next(cfg, w, Step.ApprovalComment(c)));
  }

  lemma MainStepFlight(cfg: Config, w: World, step: Step)
    requires InFlight(w) && Keyed(Next(cfg, w, step)) && Enabled(w.m, step) && MovesMain(step)
    ensures InFlight(Next(cfg, w, step))
  {
    MainStep(cfg, w, step);
    MainRecords(cfg, w.m, step);
    hide After, Observe, Keyed;
    SameRecords(w, Next(cfg, w, step));
  }

  lemma CalmIsNoCreate(cfg: Config, w: World, step: Step)
    requires CalmStep(cfg, w, step)
    ensures NoCreate(cfg, w, step)
  {
  }

  lemma InFlightNext(cfg: Config, w: World, step: Step)
    requires InFlight(w) && CalmStep(cfg, w, step)
    ensures InFlight(Next(cfg, w, step))
  {
    CalmIsNoCreate(cfg, w, step);
    assert Keyed(w);
    KeyedNext(cfg, w, step);
    OwnersAreKeyed(w);
    hide After, Observe, Keyed, InFlight, NoCreate, Creates;
    if Enabled(w.m, step) {
      if MovesMain(step) {
        MainStepFlight(cfg, w, step);
      } else if MovesOneTask(step) {
        WaitFlight(cfg, w, step);
      } else if step.RequestPush? {
        if Creates(cfg, w.m, step) {
          CreateFlight(cfg, w, step);
        } else {
          JoinFlight(cfg, w, step);
        }
      } else if step.ApprovalComment? {
        CommentFlight(cfg, w, step.comment);
      } else if Starts(w.m, step) {
        StartFlight(cfg, w, step);
      } else {
        SettleFlight(cfg, w, step);
      }
    }
  }

  /** No update ever resumes without its approval record. */
  lemma OwnersAreKeyed(w: World)
    requires Keyed(w)
    ensures forall t :: t in w.m.tasks && w.m.tasks[t].DecisionReady? ==> w.m.tasks[t].key in w.m.approvals
  {
    hide Started, StartedOnce, StartedIsOver, OwnRecord, SingleOwner;
    forall t | t in w.m.tasks && w.m.tasks[t].DecisionReady? ensures w.m.tasks[t].key in w.m.approvals {
      assert TaskKeyed(w, t);
    }
  }

  lemma {:induction false} InFlightRun(cfg: Config, w: World, steps: seq<Step>)
    requires InFlight(w) && Calm(cfg, w, steps)
    ensures InFlight(Run(cfg, w, steps))
    decreases |steps|
  {
    if steps != [] {
      InFlightNext(cfg, w, steps[0]);
      hide InFlight, Next, CalmStep;
      InFlightRun(cfg, Next(cfg, w, steps[0]), steps[1..]);
    }
  }

  lemma BeginInFlight(init: WorkflowState)
    requires WellFiled(init.operations)
    ensures InFlight(Begin(init))
  {
  }

  // ---- what holds in calm runs ----

  /** In a calm run all the updates that return for a key return one result, and
      it is the one on record. */
  lemma OneResult(cfg: Config, init: WorkflowState, steps: seq<Step>)
    requires WellFiled(init.operations) && Calm(cfg, Begin(init), steps)
    ensures var w := Run(cfg, Begin(init), steps);
            && AllFinal(w)
            && (forall r, q :: r in w.h.returned && q in w.h.returned && r.operationKey == q.operationKey ==> r == q)
  {
    BeginInFlight(init);
    InFlightRun(cfg, Begin(init), steps);
  }

  /** Records are never lost, and settled ones never change. */
  ghost predicate Absorbs(before: map<string, OperationResult>, after: map<string, OperationResult>) {
    forall k :: k in before ==> k in after && (Settled(before[k]) ==> after[k] == before[k])
  }

  lemma AbsorbsNext(cfg: Config, w: World, step: Step)
    requires InFlight(w) && CalmStep(cfg, w, step)
    ensures Absorbs(w.m.state.operations, Next(cfg, w, step).m.state.operations)
  {
    hide After, Observe, Keyed, Config.KeyAt, Absorbs;
    var ops := w.m.state.operations;
    AbsorbsSelf(ops);
    if Enabled(w.m, step) {
      if MovesMain(step) {
        MainRecords(cfg, w.m, step);
      } else {
        UpdateRecords(cfg, w.m, step);
        if Creates(cfg, w.m, step) {
          AbsorbsWrite(ops, cfg.KeyAt(w.m.state.iterations), PendingResult(cfg.KeyAt(w.m.state.iterations)));
        } else if Settles(w.m, step) {
          SettlesPending(w, step);
          AbsorbsWrite(ops, w.m.tasks[step.tid].key, Settlement(w.m, step));
        }
      }
    }
  }

  lemma AbsorbsSelf(operations: map<string, OperationResult>)
    ensures Absorbs(operations, operations)
  {
  }

  lemma AbsorbsWrite(operations: map<string, OperationResult>, key: string, result: OperationResult)
    requires key in operations ==> !Settled(operations[key])
    ensures Absorbs(operations, operations[key := result])
  {
  }

  lemma SettlesPending(w: World, step: Step)
    requires InFlight(w) && Enabled(w.m, step) && Settles(w.m, step)
    ensures PendingOn(w.m, w.m.tasks[step.tid].key)
  {
    hide Keyed;
    assert TaskSound(w.m, w.m.tasks[step.tid]);
  }

  lemma {:induction false} AbsorbsRun(cfg: Config, w: World, steps: seq<Step>)
    requires InFlight(w) && Calm(cfg, w, steps)
    ensures Absorbs(w.m.state.operations, Run(cfg, w, steps).m.state.operations)
    decreases |steps|
  {
    if steps != [] {
      AbsorbsNext(cfg, w, steps[0]);
      InFlightNext(cfg, w, steps[0]);
      hide InFlight, Next, CalmStep;
      AbsorbsRun(cfg, Next(cfg, w, steps[0]), steps[1..]);
    }
  }

  /** Absorption: between any two points of a calm run no operation record
      disappears, and one that was pushed, denied or failed is unchanged. */
  lemma SettledNeverChanges(cfg: Config, init: WorkflowState, earlier: seq<Step>, later: seq<Step>)
    requires WellFiled(init.operations) && Calm(cfg, Begin(init), earlier + later)
    ensures Absorbs(Run(cfg, Begin(init), earlier).m.state.operations,
                    Run(cfg, Begin(init), earlier + later).m.state.operations)
    ensures WellFiled(Run(cfg, Begin(init), earlier + later).m.state.operations)
  {
    var w := Begin(init);
    BeginInFlight(init);
    hide Next, Run, Calm, Absorbs, Begin;
    CalmAppend(cfg, w, earlier, later);
    InFlightRun(cfg, w, earlier);
    RunAppend(cfg, w, earlier, later);
    AbsorbsRun(cfg, Run(cfg, w, earlier), later);
    InFlightRun(cfg, Run(cfg, w, earlier), later);
  }

  // ---- what the return of `post_status` does to everything else ----

  lemma {:induction false} WindowKeepsCopy(cfg: Config, w: World, window: seq<Step>)
    requires w.m.at.Posting? && forall s :: s in window ==> !s.StatusPosted?
    ensures Run(cfg, w, window).m.at == w.m.at
    decreases |window|
  {
    if window != [] {
      assert window[0] in window;
      var w1 := Next(cfg, w, window[0]);
      hide After, Observe;
      assert w1.m.at == w.m.at by {
        if Enabled(w.m, window[0]) {
          if MovesMain(window[0]) {
            MainRecords(cfg, w.m, window[0]);
          } else {
            UpdateKeepsPlace(cfg, w.m, window[0]);
          }
        }
      }
      hide Next;
      WindowKeepsCopy(cfg, w1, window[1..]);
    }
  }

  /** Whatever updates and signals write into the state while `post_status` is in
      flight is gone when it returns: the state is the one it was called with,
      but for the two GitHub ids. */
  lemma WindowIsUndone(cfg: Config, w: World, window: seq<Step>, posted: Step)
    requires w.m.at.Posting? && posted.StatusPosted? && forall s :: s in window ==> !s.StatusPosted?
    requires Enabled(Run(cfg, w, window).m, posted)
    ensures Run(cfg, w, window + [posted]).m.state == Posted(w.m.at.copy, posted.commentId, posted.checkRunId)
  {
    WindowKeepsCopy(cfg, w, window);
    RunAppend(cfg, w, window, [posted]);
    RunOne(cfg, Run(cfg, w, window), posted);
    hide Run, AfterUpdate, ObserveMain, ObserveUpdate;
  }

  // ---- and calm is what it takes ----

  /** A world reached calmly from records that are well filed. */
  ghost predicate ReachedCalmly(cfg: Config, w: World) {
    exists init: WorkflowState, steps: seq<Step> ::
      WellFiled(init.operations) && Calm(cfg, Begin(init), steps) && w == Run(cfg, Begin(init), steps)
  }

  ghost predicate StaysFinal(cfg: Config, w: World) {
    forall later :: Calm(cfg, w, later) ==> AllFinal(Run(cfg, w, later))
  }

  lemma {:induction false} MainIsCalm(cfg: Config, w: World, steps: seq<Step>)
    requires forall s :: s in steps ==> MovesMain(s)
    ensures Calm(cfg, w, steps)
    decreases |steps|
  {
    if steps != [] {
      assert steps[0] in steps;
      hide Next;
      MainIsCalm(cfg, Next(cfg, w, steps[0]), steps[1..]);
    }
  }

  /** Such a world, too, is reached by every workflow on its first event. */
  lemma FirstCallReachedCalmly(cfg: Config, pr: PRRef, handle: SandboxHandle, event: GitHubEvent)
    ensures var w := Run(cfg, Begin(NewState(pr)), Iteration(handle, event));
            ReachedCalmly(cfg, w) && w.m.at.Posting?
  {
    hide Next, Run, Begin;
    IterationPosts(cfg, pr, handle, event);
    MainIsCalm(cfg, Begin(NewState(pr)), Iteration(handle, event));
  }

  lemma {:induction false} CalmIsNoCreates(cfg: Config, w: World, steps: seq<Step>)
    requires Calm(cfg, w, steps)
    ensures NoCreates(cfg, w, steps)
    decreases |steps|
  {
    if steps != [] {
      CalmIsNoCreate(cfg, w, steps[0]);
      hide Next, CalmStep, NoCreate;
      CalmIsNoCreates(cfg, Next(cfg, w, steps[0]), steps[1..]);
    }
  }

  lemma ReachedInFlight(cfg: Config, w: World)
    requires ReachedCalmly(cfg, w)
    ensures InFlight(w) && (w.m.at.Posting? ==> w.m.at.copy.iterations == w.m.state.iterations)
  {
    var init: WorkflowState, steps: seq<Step> :|
      WellFiled(init.operations) && Calm(cfg, Begin(init), steps) && w == Run(cfg, Begin(init), steps);
    BeginInFlight(init);
    hide InFlight, Run, Calm, NoCreates, Begin;
    InFlightRun(cfg, Begin(init), steps);
    CalmIsNoCreates(cfg, Begin(init), steps);
    ReachedKeyed(cfg, w);
  }

  lemma CalmStays(cfg: Config, w: World, step: Step)
    requires ReachedCalmly(cfg, w) && CalmStep(cfg, w, step)
    ensures StaysFinal(cfg, Next(cfg, w, step))
  {
    hide Next, Run, Calm, CalmStep;
    ReachedInFlight(cfg, w);
    InFlightNext(cfg, w, step);
    var w1 := Next(cfg, w, step);
    forall later | Calm(cfg, w1, later) ensures AllFinal(Run(cfg, w1, later)) {
      InFlightRun(cfg, w1, later);
    }
  }

  /** A result settled during the call is returned, and then no longer on record. */
  lemma SettleBreaks(cfg: Config, w: World, step: Step)
    requires ReachedCalmly(cfg, w) && w.m.at.Posting? && Enabled(w.m, step) && Settles(w.m, step)
    ensures !StaysFinal(cfg, Next(cfg, w, step))
  {
    hide Next, Run, Calm, ReachedCalmly;
    ReachedPostingCalmly(cfg, w);
    SettleStep(cfg, w, step);
    var w1 := Next(cfg, w, step);
    assert TaskSound(w.m, w.m.tasks[step.tid]);
    PostReturns(cfg, w1);
    CalmOne(cfg, w1, POSTED);
    assert Settlement(w.m, step) in Run(cfg, w1, [POSTED]).h.returned;
  }

  lemma {:induction false} CalmOutside(cfg: Config, w: World, steps: seq<Step>)
    requires !w.m.at.Posting? && forall s :: s in steps ==> !MovesMain(s)
    ensures Calm(cfg, w, steps)
    decreases |steps|
  {
    if steps != [] {
      assert steps[0] in steps;
      hide After, Observe, WritesRecord;
      if Enabled(w.m, steps[0]) {
        UpdateKeepsPlace(cfg, w.m, steps[0]);
      }
      CalmOutside(cfg, Next(cfg, w, steps[0]), steps[1..]);
    }
  }

  /** Granting an approval writes no record. */
  lemma CalmGranted(cfg: Config, w: World, tid: nat, c: Gateway.Comment)
    requires !w.m.stuck && !w.m.at.Finished? && tid in w.m.tasks && w.m.tasks[tid].AwaitingDecision?
    requires w.m.tasks[tid].key in w.m.approvals && Approves(cfg, c, w.m.tasks[tid].key)
    ensures Calm(cfg, w, Granted(tid, c))
  {
    hide Next, Run, Approves, Calm;
    var comment, check, resume := Step.ApprovalComment(c), Step.CheckDecision(tid), Step.ResumeWithDecision(tid);
    CommentAllows(cfg, w, w.m.tasks[tid].key, c);
    var w1 := Next(cfg, w, comment);
    CheckReadies(cfg, w1, tid);
    var w2 := Next(cfg, w1, check);
    CalmOne(cfg, w, comment);
    CalmOne(cfg, w1, check);
    CalmOne(cfg, w2, resume);
    RunOne(cfg, w, comment);
    RunTwo(cfg, w, comment, check);
    assert [comment] + [check] == [comment, check] && [comment, check] + [resume] == Granted(tid, c);
    CalmAppend(cfg, w, [comment], [check]);
    CalmAppend(cfg, w, [comment, check], [resume]);
  }

  lemma CalmOne(cfg: Config, w: World, step: Step)
    ensures Calm(cfg, w, [step]) <==> CalmStep(cfg, w, step)
  {
    hide Next, CalmStep;
    assert [step][1..] == [];
  }

  /** Two updates that carry out the same operation return different results. */
  lemma TwoSettlements(cfg: Config, w: World, t: nat, u: nat, key: string)
    requires !w.m.stuck && !w.m.at.Finished? && t != u && t in w.m.tasks && u in w.m.tasks
    requires w.m.tasks[t].Pushing? && w.m.tasks[u].AwaitingDecision? && w.m.tasks[t].key == w.m.tasks[u].key == key
    ensures !AllFinal(Run(cfg, w, [Step.DecisionTimeout(u), Step.PushCompleted(t, CommitResult(true, None, None))]))
  {
    var timeout, pushed := Step.DecisionTimeout(u), Step.PushCompleted(t, CommitResult(true, None, None));
    RunTwo(cfg, w, timeout, pushed);
    hide Next, Run;
    SettleStep(cfg, w, timeout);
    var w1 := Next(cfg, w, timeout);
    SettleStep(cfg, w1, pushed);
    var denied := Settlement(w.m, timeout);
    assert denied.status.Denied? && denied.operationKey == key;
    assert denied in Next(cfg, w1, pushed).h.returned;
  }

  function Conflict(t: nat, u: nat, request: OperationRequest): seq<Step> {
    Requested(u, request) + [Step.DecisionTimeout(u), Step.PushCompleted(t, CommitResult(true, None, None))]
  }

  /** An operation created during the call and pushed, its record forgotten, and
      the same operation created and denied after it. */
  lemma ConflictFails(cfg: Config, w: World, t: nat, u: nat, request: OperationRequest, c: Gateway.Comment)
    requires w.m.at.Posting? && !w.m.stuck && t != u && t !in w.m.tasks && u !in w.m.tasks
    requires w.m.at.copy.iterations == w.m.state.iterations && w.m.at.copy.operations == w.m.state.operations
    requires cfg.KeyAt(w.m.state.iterations) !in w.m.state.operations
    requires Approves(cfg, c, cfg.KeyAt(w.m.state.iterations))
    ensures var steps := Requested(t, request) + Granted(t, c) + [POSTED];
            !Run(cfg, w, steps).m.at.Posting? && !AllFinal(Run(cfg, w, steps + Conflict(t, u, request)))
  {
    hide Next, Run, Requested, Granted, Approves, Config.KeyAt;
    ApprovedRequestStarts(cfg, w, t, request, c);
    var w1 := Run(cfg, w, Requested(t, request) + Granted(t, c));
    PostReturns(cfg, w1);
    var w2 := Run(cfg, w1, [POSTED]);
    RequestedCreates(cfg, w2, u, request);
    var w3 := Run(cfg, w2, Requested(u, request));
    TwoSettlements(cfg, w3, t, u, cfg.KeyAt(w.m.state.iterations));
    RunAppend(cfg, w, Requested(t, request) + Granted(t, c), [POSTED]);
    RunAppend(cfg, w, Requested(t, request) + Granted(t, c) + [POSTED], Conflict(t, u, request));
    RunAppend(cfg, w2, Requested(u, request),
              [Step.DecisionTimeout(u), Step.PushCompleted(t, CommitResult(true, None, None))]);
  }

  lemma RunAfterFirst(cfg: Config, w: World, first: Step, rest: seq<Step>)
    ensures Run(cfg, Next(cfg, w, first), rest) == Run(cfg, w, [first] + rest)
  {
    RunOne(cfg, w, first);
    hide Next, Run;
    RunAppend(cfg, w, [first], rest);
  }

  /** From the creation to the return of the call, that run is calm. */
  lemma WindowIsCalm(cfg: Config, w: World, t: nat, request: OperationRequest, c: Gateway.Comment)
    requires w.m.at.Posting? && !w.m.stuck && t !in w.m.tasks
    requires cfg.KeyAt(w.m.state.iterations) !in w.m.state.operations
    requires Approves(cfg, c, cfg.KeyAt(w.m.state.iterations))
    ensures var first := Step.RequestPush(t, request);
            var window := [Step.Notified(t)] + Granted(t, c) + [POSTED];
            && Calm(cfg, Next(cfg, w, first), window)
            && [first] + window == Requested(t, request) + Granted(t, c) + [POSTED]
  {
    hide Next, Run, Calm, Granted, Approves, Config.KeyAt;
    var first, notified := Step.RequestPush(t, request), [Step.Notified(t)];
    var w1 := Next(cfg, w, first);
    assert Requested(t, request) == [first] + notified;
    hide Requested;
    RequestedCreates(cfg, w, t, request);
    var asked := Run(cfg, w, Requested(t, request));
    RunAfterFirst(cfg, w, first, notified);
    CalmOne(cfg, w1, Step.Notified(t));
    CalmGranted(cfg, asked, t, c);
    CalmAppend(cfg, w1, notified, Granted(t, c));
    CalmOne(cfg, Run(cfg, asked, Granted(t, c)), POSTED);
    RunAppend(cfg, w1, notified, Granted(t, c));
    CalmAppend(cfg, w1, notified + Granted(t, c), [POSTED]);
  }

  /** And after it nothing is in flight. */
  lemma ConflictIsCalm(cfg: Config, w: World, t: nat, u: nat, request: OperationRequest)
    requires !w.m.at.Posting?
    ensures Calm(cfg, w, Conflict(t, u, request))
  {
    CalmOutside(cfg, w, Conflict(t, u, request));
  }

  lemma CreateBreaks(cfg: Config, w: World, step: Step, c: Gateway.Comment)
    requires ReachedCalmly(cfg, w) && w.m.at.Posting? && Enabled(w.m, step) && Creates(cfg, w.m, step)
    requires Approves(cfg, c, cfg.KeyAt(w.m.state.iterations))
    ensures !StaysFinal(cfg, Next(cfg, w, step))
  {
    hide Next, Run, Calm, Approves, Config.KeyAt, AllFinal, Requested, Granted, Conflict, ReachedCalmly;
    ReachedPostingCalmly(cfg, w);
    var t, request := step.tid, step.request;
    var u := AnotherTid(w.m, t);
    ConflictFails(cfg, w, t, u, request, c);
    WindowIsCalm(cfg, w, t, request, c);
    var window := [Step.Notified(t)] + Granted(t, c) + [POSTED];
    var w1 := Next(cfg, w, step);
    RunAfterFirst(cfg, w, step, window);
    ConflictIsCalm(cfg, Run(cfg, w1, window), t, u, request);
    CalmAppend(cfg, w1, window, Conflict(t, u, request));
    RunAfterFirst(cfg, w, step, window + Conflict(t, u, request));
    assert [step] + (window + Conflict(t, u, request)) == [step] + window + Conflict(t, u, request);
  }

  lemma ReachedPostingCalmly(cfg: Config, w: World)
    requires ReachedCalmly(cfg, w) && w.m.at.Posting?
    ensures !w.m.stuck && w.m.at.copy.iterations == w.m.state.iterations
    ensures w.m.at.copy.operations == w.m.state.operations
    ensures forall t :: t in w.m.tasks ==> TaskSound(w.m, w.m.tasks[t])
  {
    ReachedInFlight(cfg, w);
  }

  /** Exactly: whatever step is taken while `post_status` is in flight, the results
      returned from then on stay the ones on record, in every calm continuation,
      if and only if the step writes no operation record. */
  lemma OneResultExactly(cfg: Config, w: World, step: Step, c: Gateway.Comment)
    requires ReachedCalmly(cfg, w) && w.m.at.Posting? && Enabled(w.m, step)
    requires Approves(cfg, c, cfg.KeyAt(w.m.state.iterations))
    ensures StaysFinal(cfg, Next(cfg, w, step)) <==> !WritesRecord(cfg, w.m, step)
  {
    hide StaysFinal, Next, ReachedCalmly, Approves, Creates, Settles;
    if Creates(cfg, w.m, step) {
      CreateBreaks(cfg, w, step, c);
    } else if Settles(w.m, step) {
      SettleBreaks(cfg, w, step);
    } else {
      CalmStays(cfg, w, step);
    }
  }
}
