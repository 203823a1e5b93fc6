/** Why an operation is reported as denied: nobody answered in time, or a listed
    approver's comment denied it for the reason reported. And exactly when a request
    can be denied that nobody denied. */
module WorkflowDenials {
  import opened Sequences
  import opened Models
  import opened Workflow
  import opened WorkflowRuns
  import opened WorkflowSteps
  import opened WorkflowScenarios
  import opened WorkflowSingleFlight
  import Gateway

  /** A comment of the trail decided this key so, for this reason. */
  ghost predicate DecidedFor(cfg: Config, trail: seq<Mark>, key: string, allowed: bool, reason: string) {
    exists p :: 0 <= p < |trail| && trail[p].Decided? && trail[p].key == key &&
      DecisionFor(cfg, trail[p].comment) == Some(Gateway.Decision(cfg.workflowId, key, allowed, reason))
  }

  ghost predicate Explained(cfg: Config, trail: seq<Mark>, r: OperationResult) {
    r.status.Denied? ==>
      r.reason == "approval timed out" || DecidedFor(cfg, trail, r.operationKey, false, r.reason)
  }

  ghost predicate AllExplained(cfg: Config, h: History) {
    forall r :: r in h.returned ==> Explained(cfg, h.trail, r)
  }

  ghost predicate RecordsExplained(cfg: Config, trail: seq<Mark>, operations: map<string, OperationResult>) {
    forall k :: k in operations ==> Explained(cfg, trail, operations[k])
  }

  /** An approval record holds what a comment decided, if anything. */
  ghost predicate ApprovalTraced(cfg: Config, w: World, key: string)
    requires key in w.m.approvals
  {
    var a := w.m.approvals[key];
    key in w.m.state.operations && (a.Decided() ==> DecidedFor(cfg, w.h.trail, key, a.allowed, a.reason))
  }

  ghost predicate MarksOnRecord(w: World) {
    forall p :: 0 <= p < |w.h.trail| && w.h.trail[p].Decided? ==> w.h.trail[p].key in w.m.state.operations
  }

  ghost predicate ReadyIsDecided(m: Machine) {
    forall t :: t in m.tasks && m.tasks[t].DecisionReady? ==>
      m.tasks[t].key in m.approvals && m.approvals[m.tasks[t].key].Decided()
  }

  ghost predicate Traced(cfg: Config, w: World) {
    && (forall k :: k in w.m.approvals ==> ApprovalTraced(cfg, w, k))
    && MarksOnRecord(w)
    && ReadyIsDecided(w.m)
    && RecordsExplained(cfg, w.h.trail, w.m.state.operations)
    && (w.m.at.Posting? ==> RecordsExplained(cfg, w.h.trail, w.m.at.copy.operations))
    && AllExplained(cfg, w.h)
  }

  // ---- the trail grows ----

  lemma DecidedGrows(cfg: Config, trail: seq<Mark>, longer: seq<Mark>, key: string, allowed: bool, reason: string)
    requires trail <= longer && DecidedFor(cfg, trail, key, allowed, reason)
    ensures DecidedFor(cfg, longer, key, allowed, reason)
  {
    hide DecisionFor;
    var p :| 0 <= p < |trail| && trail[p].Decided? && trail[p].key == key &&
      DecisionFor(cfg, trail[p].comment) == Some(Gateway.Decision(cfg.workflowId, key, allowed, reason));
    assert longer[p] == trail[p];
  }

  lemma ExplainedGrows(cfg: Config, trail: seq<Mark>, longer: seq<Mark>, r: OperationResult)
    requires trail <= longer && Explained(cfg, trail, r)
    ensures Explained(cfg, longer, r)
  {
    hide DecidedFor;
    if r.status.Denied? && r.reason != "approval timed out" {
      DecidedGrows(cfg, trail, longer, r.operationKey, false, r.reason);
    }
  }

  lemma RecordsGrow(cfg: Config, trail: seq<Mark>, longer: seq<Mark>, operations: map<string, OperationResult>)
    requires trail <= longer && RecordsExplained(cfg, trail, operations)
    ensures RecordsExplained(cfg, longer, operations)
  {
    hide Explained;
    forall k | k in operations ensures Explained(cfg, longer, operations[k]) {
      ExplainedGrows(cfg, trail, longer, operations[k]);
    }
  }

  lemma ReturnedGrows(cfg: Config, h: History, longer: seq<Mark>)
    requires AllExplained(cfg, h) && h.trail <= longer
    ensures forall r :: r in h.returned ==> Explained(cfg, longer, r)
  {
    hide Explained;
    forall r | r in h.returned ensures Explained(cfg, longer, r) {
      ExplainedGrows(cfg, h.trail, longer, r);
    }
  }

  /** What a step must do to keep it all: it may add approvals that are pending and
      drop others, make explained records, and return explained results. */
  lemma TracedMoves(cfg: Config, w: World, w': World)
    requires Traced(cfg, w) && w.h.trail <= w'.h.trail
    requires forall p :: |w.h.trail| <= p < |w'.h.trail| ==> !w'.h.trail[p].Decided?
    requires w.m.state.operations.Keys <= w'.m.state.operations.Keys
    requires forall k :: k in w'.m.approvals ==>
               (k in w.m.approvals && w'.m.approvals[k] == w.m.approvals[k]) ||
               (k in w'.m.state.operations && w'.m.approvals[k].pending)
    requires ReadyIsDecided(w'.m)
    requires RecordsExplained(cfg, w'.h.trail, w'.m.state.operations)
    requires w'.m.at.Posting? ==> RecordsExplained(cfg, w'.h.trail, w'.m.at.copy.operations)
    requires forall r :: r in w'.h.returned ==> r in w.h.returned || Explained(cfg, w'.h.trail, r)
    ensures Traced(cfg, w')
  {
    hide Explained, DecidedFor, RecordsExplained, ReadyIsDecided;
    ReturnedGrows(cfg, w.h, w'.h.trail);
    forall k | k in w'.m.approvals ensures ApprovalTraced(cfg, w', k) {
      if k in w.m.approvals && w'.m.approvals[k] == w.m.approvals[k] {
        assert ApprovalTraced(cfg, w, k);
        if w.m.approvals[k].Decided() {
          DecidedGrows(cfg, w.h.trail, w'.h.trail, k, w.m.approvals[k].allowed, w.m.approvals[k].reason);
        }
      }
    }
    assert forall p :: 0 <= p < |w.h.trail| ==> w'.h.trail[p] == w.h.trail[p];
  }

  // ---- steps ----

  lemma MainTraced(cfg: Config, w: World, step: Step)
    requires Keyed(w) && Traced(cfg, w) && Enabled(w.m, step) && MovesMain(step)
    ensures Traced(cfg, Next(cfg, w, step))
  {
    MainStep(cfg, w, step);
    MainRecords(cfg, w.m, step);
    hide After, Observe, Explained, RecordsExplained, Started, StartedOnce, StartedIsOver, OwnRecord, SingleOwner,
      TaskKeyed, ApprovalTraced, MarksOnRecord;
    var w' := Next(cfg, w, step);
    RecordsGrow(cfg, w.h.trail, w'.h.trail, w.m.state.operations);
    if w.m.at.Posting? {
      RecordsGrow(cfg, w.h.trail, w'.h.trail, w.m.at.copy.operations);
    }
    hide Next;
    TracedMoves(cfg, w, w');
  }

  lemma CreateTraced(cfg: Config, w: World, tid: nat, request: OperationRequest)
    requires Keyed(w) && Traced(cfg, w) && Enabled(w.m, Step.RequestPush(tid, request))
    requires Creates(cfg, w.m, Step.RequestPush(tid, request))
    ensures Traced(cfg, Next(cfg, w, Step.RequestPush(tid, request)))
  {
    hide Next, Explained, Started, StartedOnce, StartedIsOver, OwnRecord, SingleOwner, Config.KeyAt, Enabled,
      ApprovalTraced, MarksOnRecord;
    CreateStep(cfg, w, tid, request);
    var w' := Next(cfg, w, Step.RequestPush(tid, request));
    var key := cfg.KeyAt(w.m.state.iterations);
    forall t | t in w'.m.tasks && w'.m.tasks[t].DecisionReady? ensures w'.m.tasks[t].key != key {
      assert TaskKeyed(w, t);
    }
    NewRecord(cfg, w, w', key);
    TracedMoves(cfg, w, w');
  }

  lemma NewRecord(cfg: Config, w: World, w': World, key: string)
    requires RecordsExplained(cfg, w.h.trail, w.m.state.operations) && w.h.trail <= w'.h.trail
    requires w'.m.state.operations == w.m.state.operations[key := PendingResult(key)] && w'.m.at == w.m.at
    requires w.m.at.Posting? ==> RecordsExplained(cfg, w.h.trail, w.m.at.copy.operations)
    ensures RecordsExplained(cfg, w'.h.trail, w'.m.state.operations)
    ensures w'.m.at.Posting? ==> RecordsExplained(cfg, w'.h.trail, w'.m.at.copy.operations)
  {
    assert Explained(cfg, w'.h.trail, PendingResult(key));
    hide Explained;
    RecordsGrow(cfg, w.h.trail, w'.h.trail, w.m.state.operations);
    if w.m.at.Posting? {
      RecordsGrow(cfg, w.h.trail, w'.h.trail, w.m.at.copy.operations);
    }
  }

  lemma JoinTraced(cfg: Config, w: World, tid: nat, request: OperationRequest)
    requires Traced(cfg, w) && Enabled(w.m, Step.RequestPush(tid, request))
    requires !Creates(cfg, w.m, Step.RequestPush(tid, request))
    ensures Traced(cfg, Next(cfg, w, Step.RequestPush(tid, request)))
  {
    hide Next, Explained, Config.KeyAt, ApprovalTraced, MarksOnRecord;
    JoinStep(cfg, w, tid, request);
    TracedMoves(cfg, w, Next(cfg, w, Step.RequestPush(tid, request)));
  }

  lemma WaitTraced(cfg: Config, w: World, step: Step)
    requires Traced(cfg, w) && Enabled(w.m, step) && MovesOneTask(step)
    ensures Traced(cfg, Next(cfg, w, step))
  {
    hide Next, Explained, ApprovalTraced, MarksOnRecord;
    WaitStep(cfg, w, step);
    TracedMoves(cfg, w, Next(cfg, w, step));
  }

  lemma SettlementExplained(cfg: Config, w: World, step: Step)
    requires Traced(cfg, w) && Enabled(w.m, step) && Settles(w.m, step)
    ensures Explained(cfg, w.h.trail, Settlement(w.m, step))
  {
    hide DecidedFor, RecordsExplained, AllExplained, MarksOnRecord;
    if step.ResumeWithDecision? {
      assert ApprovalTraced(cfg, w, w.m.tasks[step.tid].key);
    }
  }

  /** Nobody else waits on the approval that an update takes away. */
  lemma OthersReady(w: World, tid: nat, key: string)
    requires Keyed(w) && ReadyIsDecided(w.m) && tid in w.m.tasks && w.m.tasks[tid].Owns(key)
    ensures forall t :: t in w.m.tasks && t != tid && w.m.tasks[t].DecisionReady? ==> w.m.tasks[t].key != key
  {
    hide Started, StartedOnce, StartedIsOver, OwnRecord, TaskKeyed;
    forall t | t in w.m.tasks && t != tid && w.m.tasks[t].DecisionReady? ensures w.m.tasks[t].key != key {
      assert w.m.tasks[t].Owns(w.m.tasks[t].key);
    }
  }

  lemma SettleTraced(cfg: Config, w: World, step: Step)
    requires Keyed(w) && Traced(cfg, w) && Enabled(w.m, step) && Settles(w.m, step)
    ensures Traced(cfg, Next(cfg, w, step))
  {
    hide Keyed, Next, Explained, DecidedFor, AllExplained, ApprovalTraced, MarksOnRecord;
    SettlementExplained(cfg, w, step);
    OthersReady(w, step.tid, w.m.tasks[step.tid].key);
    SettleStep(cfg, w, step);
    var w' := Next(cfg, w, step);
    ReadyStays(w, w', step.tid);
    hide ReadyIsDecided;
    TracedMoves(cfg, w, w');
  }

  lemma StartTraced(cfg: Config, w: World, step: Step)
    requires Keyed(w) && Traced(cfg, w) && Enabled(w.m, step) && Starts(w.m, step)
    ensures Traced(cfg, Next(cfg, w, step))
  {
    hide Keyed, Next, Explained, RecordsExplained, DecidedFor, AllExplained, ApprovalTraced, MarksOnRecord;
    OthersReady(w, step.tid, w.m.tasks[step.tid].key);
    StartStep(cfg, w, step);
    var w' := Next(cfg, w, step);
    ReadyStays(w, w', step.tid);
    hide ReadyIsDecided;
    RecordsGrow(cfg, w.h.trail, w'.h.trail, w.m.state.operations);
    if w.m.at.Posting? {
      RecordsGrow(cfg, w.h.trail, w'.h.trail, w.m.at.copy.operations);
    }
    hide AllExplained;
    assert w'.h.returned == w.h.returned;
    TracedMoves(cfg, w, w');
  }

  lemma ReadyStays(w: World, w': World, tid: nat)
    requires ReadyIsDecided(w.m) && tid in w.m.tasks && tid in w'.m.tasks && !w'.m.tasks[tid].DecisionReady?
    requires w'.m.tasks == w.m.tasks[tid := w'.m.tasks[tid]]
    requires !w.m.tasks[tid].Returned? && !w.m.tasks[tid].Raised?
    requires forall k :: k in w.m.approvals && k != w.m.tasks[tid].key ==>
               k in w'.m.approvals && w'.m.approvals[k] == w.m.approvals[k]
    requires forall t :: t in w.m.tasks && t != tid && w.m.tasks[t].DecisionReady? ==> w.m.tasks[t].key != w.m.tasks[tid].key
    ensures ReadyIsDecided(w'.m)
  {
  }

  lemma CommentTraced(cfg: Config, w: World, c: Gateway.Comment)
    requires Traced(cfg, w) && Enabled(w.m, Step.ApprovalComment(c))
    ensures Traced(cfg, Next(cfg, w, Step.ApprovalComment(c)))
  {
    hide Next, Explained, RecordsExplained, DecisionFor;
    CommentStep(cfg, w, c);
    var w' := Next(cfg, w, Step.ApprovalComment(c));
    if w' != w {
      var d := DecisionFor(cfg, c).value;
      DecisionIsHere(cfg, c);
      assert w'.h.trail[|w.h.trail|] == Decided(d.approvalId, d.allowed, c);
      RecordsGrow(cfg, w.h.trail, w'.h.trail, w.m.state.operations);
      if w.m.at.Posting? {
        RecordsGrow(cfg, w.h.trail, w'.h.trail, w.m.at.copy.operations);
      }
      ReturnedGrows(cfg, w.h, w'.h.trail);
      assert ApprovalTraced(cfg, w, d.approvalId);
      forall k | k in w'.m.approvals ensures ApprovalTraced(cfg, w', k) {
        assert ApprovalTraced(cfg, w, k);
        if k != d.approvalId && w.m.approvals[k].Decided() {
          DecidedGrows(cfg, w.h.trail, w'.h.trail, k, w.m.approvals[k].allowed, w.m.approvals[k].reason);
        }
      }
    }
  }

  lemma DecisionIsHere(cfg: Config, c: Gateway.Comment)
    ensures match DecisionFor(cfg, c)
            case None => true
            case Some(d) => d == Gateway.Decision(cfg.workflowId, d.approvalId, d.allowed, d.reason)
  {
    hide Gateway.HandleComment;
  }

  lemma TracedNext(cfg: Config, w: World, step: Step)
    requires Keyed(w) && Traced(cfg, w)
    ensures Traced(cfg, Next(cfg, w, step))
  {
    hide After, Observe, Traced, StartedOnce, StartedIsOver, OwnRecord, SingleOwner, Creates;
    if Enabled(w.m, step) {
      if MovesMain(step) {
        MainTraced(cfg, w, step);
      } else if MovesOneTask(step) {
        WaitTraced(cfg, w, step);
      } else if step.RequestPush? {
        if Creates(cfg, w.m, step) {
          CreateTraced(cfg, w, step.tid, step.request);
        } else {
          JoinTraced(cfg, w, step.tid, step.request);
        }
      } else if step.ApprovalComment? {
        CommentTraced(cfg, w, step.comment);
      } else if Starts(w.m, step) {
        StartTraced(cfg, w, step);
      } else {
        assert TaskKeyed(w, step.tid);
        SettleTraced(cfg, w, step);
      }
    }
  }

  lemma {:induction false} TracedRun(cfg: Config, w: World, steps: seq<Step>)
    requires Keyed(w) && Traced(cfg, w) && NoCreates(cfg, w, steps)
    ensures Keyed(Run(cfg, w, steps)) && Traced(cfg, Run(cfg, w, steps))
    decreases |steps|
  {
    if steps != [] {
      KeyedNext(cfg, w, steps[0]);
      TracedNext(cfg, w, steps[0]);
      hide Keyed, Traced, Next, NoCreate;
      TracedRun(cfg, Next(cfg, w, steps[0]), steps[1..]);
    }
  }

  lemma BeginTraced(cfg: Config, pr: PRRef)
    ensures Keyed(Begin(NewState(pr))) && Traced(cfg, Begin(NewState(pr)))
  {
    BeginKeyed(NewState(pr));
  }

  /** As long as no request creates an operation during a `post_status` call, every
      denial that is returned or on record has its reason: nobody answered in time,
      or a listed approver's comment denied this key for exactly the reason reported. */
  lemma DenialsAreExplained(cfg: Config, pr: PRRef, steps: seq<Step>)
    requires NoCreates(cfg, Begin(NewState(pr)), steps)
    ensures var w := Run(cfg, Begin(NewState(pr)), steps);
            AllExplained(cfg, w.h) && RecordsExplained(cfg, w.h.trail, w.m.state.operations)
  {
    hide Keyed, Run, NoCreates, Begin;
    BeginTraced(cfg, pr);
    TracedRun(cfg, Begin(NewState(pr)), steps);
  }

  // ---- and only as long ----

  /** The first request is allowed, the call returns, the second asks under the same
      key, and the first goes on. */
  function Overtaken(t: nat, u: nat, a: OperationRequest, b: OperationRequest, c: Gateway.Comment): seq<Step> {
    Requested(t, a) + [Step.ApprovalComment(c), Step.CheckDecision(t), POSTED] + Requested(u, b)
      + [Step.ResumeWithDecision(t)]
  }

  lemma AllowedAndPosted(cfg: Config, w: World, t: nat, c: Gateway.Comment)
    requires w.m.at.Posting? && !w.m.stuck && w.m.at.copy.iterations == w.m.state.iterations
    requires t in w.m.tasks && w.m.tasks[t].AwaitingDecision?
    requires w.m.tasks[t].key in w.m.approvals && Approves(cfg, c, w.m.tasks[t].key)
    ensures var key := w.m.tasks[t].key;
            var w' := Run(cfg, w, [Step.ApprovalComment(c), Step.CheckDecision(t), POSTED]);
            && !w'.m.stuck && !w'.m.at.Finished? && !w'.m.at.Posting?
            && w'.m.state.iterations == w.m.state.iterations
            && w'.m.state.operations == w.m.at.copy.operations
            && w'.m.tasks == w.m.tasks[t := DecisionReady(key, w.m.tasks[t].message)]
            && w'.h.trail == w.h.trail + [Decided(key, true, c)] && w'.h.returned == w.h.returned
  {
    RunThree(cfg, w, Step.ApprovalComment(c), Step.CheckDecision(t), POSTED);
    hide Next, Run, Approves;
    CommentAllows(cfg, w, w.m.tasks[t].key, c);
    var w1 := Next(cfg, w, Step.ApprovalComment(c));
    CheckReadies(cfg, w1, t);
    var w2 := Next(cfg, w1, Step.CheckDecision(t));
    PostReturns(cfg, w2);
    RunOne(cfg, w2, POSTED);
  }

  /** What comes of it: a request that an approver allowed and nobody denied is denied. */
  lemma DeniedByNobody(
    cfg: Config, w: World, t: nat, u: nat, a: OperationRequest, b: OperationRequest, c: Gateway.Comment
  )
    requires w.m.at.Posting? && !w.m.stuck && t != u && t !in w.m.tasks && u !in w.m.tasks
    requires w.m.at.copy.iterations == w.m.state.iterations
    requires cfg.KeyAt(w.m.state.iterations) !in w.m.state.operations
    requires cfg.KeyAt(w.m.state.iterations) !in w.m.at.copy.operations
    requires Approves(cfg, c, cfg.KeyAt(w.m.state.iterations))
    ensures var key := cfg.KeyAt(w.m.state.iterations);
            var w' := Run(cfg, w, Overtaken(t, u, a, b, c));
            && w'.h.returned == w.h.returned + [OperationResult(key, Denied, Some(key), Some(false), None, "")]
            && exists i: nat, j: nat :: w'.h.trail == w.h.trail + [RecordCreated(key, t, a.commitMessage, i)]
                 + [Decided(key, true, c)] + [RecordCreated(key, u, b.commitMessage, j)]
  {
    hide Next, Run, Requested, Approves, Config.KeyAt;
    var key := cfg.KeyAt(w.m.state.iterations);
    var allow := [Step.ApprovalComment(c), Step.CheckDecision(t), POSTED];
    RequestedCreates(cfg, w, t, a);
    RequestReturnsNothing(cfg, w, t, a);
    var w1 := Run(cfg, w, Requested(t, a));
    AllowedAndPosted(cfg, w1, t, c);
    var w2 := Run(cfg, w1, allow);
    RequestedCreates(cfg, w2, u, b);
    RequestReturnsNothing(cfg, w2, u, b);
    var w3 := Run(cfg, w2, Requested(u, b));
    PendingDenies(cfg, w2, u, b, t);
    RunOne(cfg, w3, Step.ResumeWithDecision(t));
    RunAppend(cfg, w, Requested(t, a), allow);
    RunAppend(cfg, w, Requested(t, a) + allow, Requested(u, b));
    RunAppend(cfg, w, Requested(t, a) + allow + Requested(u, b), [Step.ResumeWithDecision(t)]);
  }

  lemma RequestReturnsNothing(cfg: Config, w: World, tid: nat, request: OperationRequest)
    requires Enabled(w.m, Step.RequestPush(tid, request)) && Creates(cfg, w.m, Step.RequestPush(tid, request))
    ensures var key := cfg.KeyAt(w.m.state.iterations);
            var w' := Run(cfg, w, Requested(tid, request));
            && w'.h.returned == w.h.returned && key in w'.m.approvals
            && w'.m.approvals[key] == ApprovalState(key, true, false, "")
            && !w'.m.at.Finished?
  {
    RunTwo(cfg, w, Step.RequestPush(tid, request), Step.Notified(tid));
    CreateStep(cfg, w, tid, request);
    hide Next, Run, Config.KeyAt;
    WaitStep(cfg, Next(cfg, w, Step.RequestPush(tid, request)), Step.Notified(tid));
  }

  lemma PendingDenies(cfg: Config, w: World, u: nat, b: OperationRequest, t: nat)
    requires !w.m.stuck && !w.m.at.Finished? && u !in w.m.tasks && t in w.m.tasks && w.m.tasks[t].DecisionReady?
    requires w.m.tasks[t].key == cfg.KeyAt(w.m.state.iterations)
    requires cfg.KeyAt(w.m.state.iterations) !in w.m.state.operations
    ensures var key := cfg.KeyAt(w.m.state.iterations);
            var w3 := Run(cfg, w, Requested(u, b));
            var w' := Next(cfg, w3, Step.ResumeWithDecision(t));
            && w'.h.trail == w3.h.trail
            && w'.h.returned == w3.h.returned + [OperationResult(key, Denied, Some(key), Some(false), None, "")]
  {
    hide Next, Run, Requested, Config.KeyAt;
    RequestedCreates(cfg, w, u, b);
    RequestReturnsNothing(cfg, w, u, b);
    var w3 := Run(cfg, w, Requested(u, b));
    SettleStep(cfg, w3, Step.ResumeWithDecision(t));
  }

  /** A world reached from a new pull request without such a request. */
  ghost predicate ReachedFresh(cfg: Config, w: World) {
    exists pr, steps :: NoCreates(cfg, Begin(NewState(pr)), steps) && w == Run(cfg, Begin(NewState(pr)), steps)
  }

  /** What the later part of a run must do, once a request has been made. */
  ghost predicate StaysExplained(cfg: Config, w: World) {
    forall later :: NoCreates(cfg, w, later) ==> AllExplained(cfg, Run(cfg, w, later).h)
  }

  lemma FreshIsTraced(cfg: Config, w: World)
    requires ReachedFresh(cfg, w)
    ensures Reached(cfg, w) && Keyed(w) && Traced(cfg, w)
  {
    var pr, steps :| NoCreates(cfg, Begin(NewState(pr)), steps) && w == Run(cfg, Begin(NewState(pr)), steps);
    hide Keyed, Run, NoCreates, Begin, Traced;
    BeginTraced(cfg, pr);
    TracedRun(cfg, Begin(NewState(pr)), steps);
  }

  lemma JoinStaysExplained(cfg: Config, w: World, step: Step)
    requires ReachedFresh(cfg, w) && NoCreate(cfg, w, step)
    ensures StaysExplained(cfg, Next(cfg, w, step))
  {
    FreshIsTraced(cfg, w);
    KeyedNext(cfg, w, step);
    TracedNext(cfg, w, step);
    var w1 := Next(cfg, w, step);
    hide Next, Run, NoCreates, Keyed;
    forall later | NoCreates(cfg, w1, later) ensures AllExplained(cfg, Run(cfg, w1, later).h) {
      TracedRun(cfg, w1, later);
    }
  }

  lemma OvertakenParts(t: nat, u: nat, a: OperationRequest, b: OperationRequest, c: Gateway.Comment)
    ensures var quiet := [Step.Notified(t), Step.ApprovalComment(c), Step.CheckDecision(t), POSTED];
            && (forall s :: s in quiet || s in [Step.ResumeWithDecision(t)] ==> !s.RequestPush?)
            && [Step.RequestPush(t, a)] + quiet
                 == Requested(t, a) + [Step.ApprovalComment(c), Step.CheckDecision(t), POSTED]
            && Overtaken(t, u, a, b, c)
                 == [Step.RequestPush(t, a)] + quiet + (Requested(u, b) + [Step.ResumeWithDecision(t)])
  {
  }

  lemma NobodyExplainsIt(cfg: Config, trail: seq<Mark>, key: string, r: OperationResult)
    requires r.status.Denied? && r.reason == "" && r.operationKey == key
    requires forall p :: 0 <= p < |trail| && trail[p].Decided? && trail[p].key == key ==>
               DecisionFor(cfg, trail[p].comment).Some? && DecisionFor(cfg, trail[p].comment).value.allowed
    ensures !Explained(cfg, trail, r)
  {
    hide DecisionFor;
  }

  lemma CreateBreaksExplained(cfg: Config, w: World, t: nat, u: nat, request: OperationRequest, c: Gateway.Comment)
    requires ReachedFresh(cfg, w) && w.m.at.Posting? && t !in w.m.tasks && u !in w.m.tasks && t != u
    requires Creates(cfg, w.m, Step.RequestPush(t, request)) && Approves(cfg, c, cfg.KeyAt(w.m.state.iterations))
    ensures !StaysExplained(cfg, Next(cfg, w, Step.RequestPush(t, request)))
  {
    hide Reached, ReachedFresh, Next, Run, Config.KeyAt, NoCreates, Requested, Approves, Keyed, AllExplained, Overtaken;
    UnexplainedLater(cfg, w, t, u, request, c);
    ReachedCall(cfg, w);
    OvertakenParts(t, u, request, request, c);
    var first := Step.RequestPush(t, request);
    var quiet := [Step.Notified(t), Step.ApprovalComment(c), Step.CheckDecision(t), POSTED];
    RequestedCreates(cfg, w, t, request);
    AllowedAndPosted(cfg, Run(cfg, w, Requested(t, request)), t, c);
    RunAppend(cfg, w, Requested(t, request), [Step.ApprovalComment(c), Step.CheckDecision(t), POSTED]);
    OneMoreRequest(cfg, w, first, quiet, u, request, [Step.ResumeWithDecision(t)]);
  }

  lemma ReachedCall(cfg: Config, w: World)
    requires ReachedFresh(cfg, w) && w.m.at.Posting?
    ensures !w.m.stuck && w.m.at.copy.iterations == w.m.state.iterations
    ensures w.m.at.copy.operations.Keys == w.m.state.operations.Keys
    ensures MarksOnRecord(w)
  {
    hide Reached, ReachedFresh;
    FreshIsTraced(cfg, w);
    ReachedPosting(cfg, w);
  }

  lemma UnexplainedLater(cfg: Config, w: World, t: nat, u: nat, request: OperationRequest, c: Gateway.Comment)
    requires ReachedFresh(cfg, w) && w.m.at.Posting? && t !in w.m.tasks && u !in w.m.tasks && t != u
    requires Creates(cfg, w.m, Step.RequestPush(t, request)) && Approves(cfg, c, cfg.KeyAt(w.m.state.iterations))
    ensures !AllExplained(cfg, Run(cfg, w, Overtaken(t, u, request, request, c)).h)
  {
    hide Reached, ReachedFresh, Run, Config.KeyAt, DecisionFor, Overtaken;
    ReachedCall(cfg, w);
    var key := cfg.KeyAt(w.m.state.iterations);
    DeniedByNobody(cfg, w, t, u, request, request, c);
    var w' := Run(cfg, w, Overtaken(t, u, request, request, c));
    var result := Last(w'.h.returned);
    var i: nat, j: nat :| w'.h.trail == w.h.trail + [RecordCreated(key, t, request.commitMessage, i)]
      + [Decided(key, true, c)] + [RecordCreated(key, u, request.commitMessage, j)];
    MarksOfKey(cfg, w.h.trail, RecordCreated(key, t, request.commitMessage, i),
               RecordCreated(key, u, request.commitMessage, j), key, c, w.m.state.operations);
    NobodyExplainsIt(cfg, w'.h.trail, key, result);
    assert result in w'.h.returned;
  }

  lemma MarksOfKey(
    cfg: Config, before: seq<Mark>, m1: Mark, m2: Mark, key: string, c: Gateway.Comment,
    operations: map<string, OperationResult>
  )
    requires key !in operations && Approves(cfg, c, key) && m1.RecordCreated? && m2.RecordCreated?
    requires forall p :: 0 <= p < |before| && before[p].Decided? ==> before[p].key in operations
    ensures var after := before + [m1] + [Decided(key, true, c)] + [m2];
            forall p :: 0 <= p < |after| && after[p].Decided? && after[p].key == key ==>
              DecisionFor(cfg, after[p].comment).Some? && DecisionFor(cfg, after[p].comment).value.allowed
  {
    hide DecisionFor;
    var after := before + [m1] + [Decided(key, true, c)] + [m2];
    assert forall p :: 0 <= p < |before| ==> after[p] == before[p];
  }

  /** Exactly: a request made while `post_status` is in flight leaves every denial
      explained, whatever follows, if and only if its key is already on record. */
  lemma DenialsExplainedExactly(cfg: Config, w: World, t: nat, request: OperationRequest, c: Gateway.Comment)
    requires ReachedFresh(cfg, w) && w.m.at.Posting? && t !in w.m.tasks
    requires Approves(cfg, c, cfg.KeyAt(w.m.state.iterations))
    ensures StaysExplained(cfg, Next(cfg, w, Step.RequestPush(t, request))) <==>
            cfg.KeyAt(w.m.state.iterations) in w.m.state.operations
  {
    hide StaysExplained, Next, ReachedFresh, Approves, Config.KeyAt;
    if Creates(cfg, w.m, Step.RequestPush(t, request)) {
      var u := AnotherTid(w.m, t);
      CreateBreaksExplained(cfg, w, t, u, request, c);
    } else {
      JoinStaysExplained(cfg, w, Step.RequestPush(t, request));
    }
  }

  /** Every workflow's first event leads to such a call, and from there a run denies
      what was allowed. */
  lemma DeniedFromTheStart(
    cfg: Config, pr: PRRef, handle: SandboxHandle, event: GitHubEvent, a: OperationRequest, b: OperationRequest,
    c: Gateway.Comment
  )
    requires Approves(cfg, c, cfg.KeyAt(1))
    ensures ReachedFresh(cfg, Run(cfg, Begin(NewState(pr)), Iteration(handle, event)))
    ensures var key := cfg.KeyAt(1);
            var returned := Run(cfg, Begin(NewState(pr)), Iteration(handle, event) + Overtaken(0, 1, a, b, c)).h.returned;
            returned != [] && Last(returned) == OperationResult(key, Denied, Some(key), Some(false), None, "")
  {
    hide Run, Begin, NoCreates, Overtaken, Approves, Config.KeyAt;
    var w := Run(cfg, Begin(NewState(pr)), Iteration(handle, event));
    IterationPosts(cfg, pr, handle, event);
    NoRequests(cfg, Begin(NewState(pr)), Iteration(handle, event));
    assert ReachedFresh(cfg, w);
    hide Iteration;
    DeniedByNobody(cfg, w, 0, 1, a, b, c);
    RunAppend(cfg, Begin(NewState(pr)), Iteration(handle, event), Overtaken(0, 1, a, b, c));
  }
}
