/** Which request an operation belongs to: keys tell iterations apart as far as the
    digest does, so an iteration's request is never answered with another's result. */
module WorkflowKeys {
  import opened Sequences
  import opened Models
  import opened Workflow
  import opened WorkflowRuns
  import opened WorkflowSteps
  import WorkflowEvents
  import Idempotency

  /** The digest's first 32 digits tell the texts of this workflow's iterations apart. */
  ghost predicate TellsIterationsApart(cfg: Config) {
    forall i: nat, j: nat :: i <= MAX_ITERATIONS && j <= MAX_ITERATIONS && Digits(cfg, i) == Digits(cfg, j) ==>
      Idempotency.PushOperationText(cfg.workflowId, i) == Idempotency.PushOperationText(cfg.workflowId, j)
  }

  function Digits(cfg: Config, iteration: nat): string {
    Idempotency.FirstDigits(cfg.digest(cfg.workflowId + "|" + Idempotency.Decimal(iteration) + "|push_changes"))
  }

  lemma KeyIsDigits(cfg: Config, i: nat)
    ensures cfg.KeyAt(i) == Digits(cfg, i)
  {
    Idempotency.PushOperationKeys(cfg.digest, cfg.workflowId, i, cfg.workflowId, i);
  }

  lemma KeysApart(cfg: Config, i: nat, j: nat)
    requires TellsIterationsApart(cfg) && i <= MAX_ITERATIONS && j <= MAX_ITERATIONS
    ensures cfg.KeyAt(i) == cfg.KeyAt(j) <==> i == j
  {
    KeyIsDigits(cfg, i);
    KeyIsDigits(cfg, j);
    hide Config.KeyAt, Digits;
    Idempotency.PushOperationTextInjective(cfg.workflowId, i, cfg.workflowId, j);
  }

  /** Some mark up to now records the creation of the key's operation. */
  ghost predicate CreatedIn(trail: seq<Mark>, key: string) {
    exists p :: 0 <= p < |trail| && trail[p].RecordCreated? && trail[p].key == key
  }

  ghost predicate AllCreated(trail: seq<Mark>, operations: map<string, OperationResult>) {
    forall key :: key in operations ==> CreatedIn(trail, key)
  }

  ghost predicate MarksDated(cfg: Config, trail: seq<Mark>, now: nat) {
    forall p :: 0 <= p < |trail| && trail[p].RecordCreated? ==>
      trail[p].key == cfg.KeyAt(trail[p].iteration) && trail[p].iteration <= now
  }

  /** Every record created carries the key of its iteration, no iteration is ahead,
      and nothing is on record, or being carried out, that was not created. */
  ghost predicate Dated(cfg: Config, w: World) {
    && MarksDated(cfg, w.h.trail, w.m.state.iterations)
    && AllCreated(w.h.trail, w.m.state.operations)
    && (w.m.at.Posting? ==> AllCreated(w.h.trail, w.m.at.copy.operations))
    && (forall t, key :: t in w.m.tasks && w.m.tasks[t].Owns(key) ==> CreatedIn(w.h.trail, key))
  }

  lemma CreatedGrows(before: seq<Mark>, after: seq<Mark>, key: string)
    requires before <= after && CreatedIn(before, key)
    ensures CreatedIn(after, key)
  {
    var p :| 0 <= p < |before| && before[p].RecordCreated? && before[p].key == key;
    assert after[p] == before[p];
  }

  /** The iteration count never falls. */
  lemma IterationsGrow(cfg: Config, init: WorkflowState, w: World, step: Step)
    requires WorkflowEvents.Counted(init, w)
    ensures Next(cfg, w, step).m.state.iterations >= w.m.state.iterations
  {
    if MovesMain(step) {
      hide AfterUpdate, ObserveUpdate;
    } else {
      WorkflowEvents.UpdateFrame(cfg, w, step);
      hide Next;
    }
  }

  lemma OtherMarks(cfg: Config, w: World, step: Step)
    requires Enabled(w.m, step) && !Creates(cfg, w.m, step)
    ensures var w' := Next(cfg, w, step);
            && w.h.trail <= w'.h.trail
            && forall p :: |w.h.trail| <= p < |w'.h.trail| ==> !w'.h.trail[p].RecordCreated?
  {
    if step.RequestPush? {
      JoinStep(cfg, w, step.tid, step.request);
    } else {
      WorkflowEvents.TrailFrame(cfg, w, step);
    }
  }

  /** No update comes to carry out an operation except by creating it. */
  lemma OwnersStay(cfg: Config, m: Machine, step: Step, t: nat, key: string)
    requires Enabled(m, step) && !Creates(cfg, m, step)
    requires t in After(cfg, m, step).tasks && After(cfg, m, step).tasks[t].Owns(key)
    ensures t in m.tasks && m.tasks[t].Owns(key)
  {
    hide DecisionFor, Config.KeyAt;
    if MovesMain(step) {
      hide AfterUpdate;
    } else {
      hide AfterMain;
    }
  }

  lemma RecordsStay(cfg: Config, w: World, step: Step)
    requires Dated(cfg, w) && Enabled(w.m, step) && !Creates(cfg, w.m, step)
    ensures var m' := After(cfg, w.m, step);
            && AllCreated(w.h.trail, m'.state.operations)
            && (m'.at.Posting? ==> AllCreated(w.h.trail, m'.at.copy.operations))
  {
    if MovesMain(step) {
      MainRecords(cfg, w.m, step);
    } else {
      UpdateRecords(cfg, w.m, step);
      UpdateKeepsPlace(cfg, w.m, step);
      assert Settles(w.m, step) ==> w.m.tasks[step.tid].Owns(w.m.tasks[step.tid].key);
    }
    hide After, Observe;
  }

  lemma DatedOther(cfg: Config, init: WorkflowState, w: World, step: Step)
    requires WorkflowEvents.Counted(init, w) && Dated(cfg, w) && Enabled(w.m, step) && !Creates(cfg, w.m, step)
    ensures Dated(cfg, Next(cfg, w, step))
  {
    hide After, Observe, Config.KeyAt;
    var w' := Next(cfg, w, step);
    IterationsGrow(cfg, init, w, step);
    OtherMarks(cfg, w, step);
    RecordsStay(cfg, w, step);
    assert w'.m == After(cfg, w.m, step);
    forall key | CreatedIn(w.h.trail, key) ensures CreatedIn(w'.h.trail, key) {
      CreatedGrows(w.h.trail, w'.h.trail, key);
    }
    forall t, key | t in w'.m.tasks && w'.m.tasks[t].Owns(key) ensures CreatedIn(w'.h.trail, key) {
      OwnersStay(cfg, w.m, step, t, key);
    }
    hide Next, CreatedIn;
    assert forall p :: 0 <= p < |w.h.trail| ==> w'.h.trail[p] == w.h.trail[p];
  }

  lemma DatedCreate(cfg: Config, w: World, tid: nat, request: OperationRequest)
    requires Dated(cfg, w) && Enabled(w.m, Step.RequestPush(tid, request))
    requires Creates(cfg, w.m, Step.RequestPush(tid, request))
    ensures Dated(cfg, Next(cfg, w, Step.RequestPush(tid, request)))
  {
    CreateStep(cfg, w, tid, request);
    hide Next, Config.KeyAt;
    var w' := Next(cfg, w, Step.RequestPush(tid, request));
    var key := cfg.KeyAt(w.m.state.iterations);
    assert w'.h.trail[|w.h.trail|].key == key;
    forall k | CreatedIn(w.h.trail, k) ensures CreatedIn(w'.h.trail, k) {
      CreatedGrows(w.h.trail, w'.h.trail, k);
    }
    assert CreatedIn(w'.h.trail, key);
    hide CreatedIn;
    assert forall p :: 0 <= p < |w.h.trail| ==> w'.h.trail[p] == w.h.trail[p];
  }

  lemma {:induction false} DatedRun(cfg: Config, init: WorkflowState, w: World, steps: seq<Step>)
    requires WorkflowEvents.Counted(init, w) && Dated(cfg, w)
    ensures WorkflowEvents.Counted(init, Run(cfg, w, steps)) && Dated(cfg, Run(cfg, w, steps))
    decreases |steps|
  {
    if steps != [] {
      hide WorkflowEvents.Counted, Dated, Creates;
      var step := steps[0];
      WorkflowEvents.CountedNext(cfg, init, w, step);
      if Enabled(w.m, step) {
        if Creates(cfg, w.m, step) {
          CreatesRequests(cfg, w.m, step);
          DatedCreate(cfg, w, step.tid, step.request);
        } else {
          DatedOther(cfg, init, w, step);
        }
      }
      DatedRun(cfg, init, Next(cfg, w, step), steps[1..]);
    }
  }

  lemma CreatesRequests(cfg: Config, m: Machine, step: Step)
    requires Creates(cfg, m, step)
    ensures step.RequestPush? && step == Step.RequestPush(step.tid, step.request)
  {
  }

  lemma FromTheStart(cfg: Config, pr: PRRef, steps: seq<Step>)
    ensures var w := Run(cfg, Begin(NewState(pr)), steps);
            Dated(cfg, w) && w.m.state.iterations <= MAX_ITERATIONS
  {
    DatedRun(cfg, NewState(pr), Begin(NewState(pr)), steps);
    WorkflowEvents.IterationsBounded(cfg, NewState(pr), steps);
  }

  /** In every run from a new pull request the key of each operation created is the
      one of the iteration it was created at, and two operations share a key only if
      they were created at one iteration count. */
  lemma KeysOfIterations(cfg: Config, pr: PRRef, steps: seq<Step>, p: nat, q: nat)
    requires TellsIterationsApart(cfg)
    requires var trail := Run(cfg, Begin(NewState(pr)), steps).h.trail;
             p < |trail| && q < |trail| && trail[p].RecordCreated? && trail[q].RecordCreated?
    ensures var trail := Run(cfg, Begin(NewState(pr)), steps).h.trail;
            && trail[p].key == Digits(cfg, trail[p].iteration)
            && (trail[p].key == trail[q].key <==> trail[p].iteration == trail[q].iteration)
  {
    hide Run, Config.KeyAt, Digits, TellsIterationsApart;
    FromTheStart(cfg, pr, steps);
    var trail := Run(cfg, Begin(NewState(pr)), steps).h.trail;
    KeyIsDigits(cfg, trail[p].iteration);
    KeysApart(cfg, trail[p].iteration, trail[q].iteration);
  }

  /** So a request made at a later iteration count than every operation created so
      far is never answered with what an earlier one came to: it creates an operation
      of its own, pending under the key of the present iteration, and asks for approval. */
  lemma LaterRequestCreates(cfg: Config, pr: PRRef, steps: seq<Step>, tid: nat, request: OperationRequest)
    requires TellsIterationsApart(cfg)
    requires var w := Run(cfg, Begin(NewState(pr)), steps);
             && Enabled(w.m, Step.RequestPush(tid, request))
             && forall mark :: mark in w.h.trail && mark.RecordCreated? ==> mark.iteration < w.m.state.iterations
    ensures var w := Run(cfg, Begin(NewState(pr)), steps);
            var w' := Next(cfg, w, Step.RequestPush(tid, request));
            var key := Digits(cfg, w.m.state.iterations);
            && w'.m.state.operations == w.m.state.operations[key := PendingResult(key)]
            && key !in w.m.state.operations && !CreatedIn(w.h.trail, key)
            && w'.m.tasks == w.m.tasks[tid := Notifying(key, request.commitMessage)]
            && w'.m.approvals == w.m.approvals[key := ApprovalState(key, true, false, "")]
            && w'.h.trail == w.h.trail + [RecordCreated(key, tid, request.commitMessage, w.m.state.iterations)]
            && w'.h.returned == w.h.returned
  {
    hide Run, Next, Config.KeyAt, Digits, TellsIterationsApart;
    FromTheStart(cfg, pr, steps);
    var w := Run(cfg, Begin(NewState(pr)), steps);
    var now := w.m.state.iterations;
    KeyIsDigits(cfg, now);
    if CreatedIn(w.h.trail, cfg.KeyAt(now)) {
      var p :| 0 <= p < |w.h.trail| && w.h.trail[p].RecordCreated? && w.h.trail[p].key == cfg.KeyAt(now);
      assert w.h.trail[p] in w.h.trail;
      KeysApart(cfg, w.h.trail[p].iteration, now);
    }
    CreateStep(cfg, w, tid, request);
  }
}
