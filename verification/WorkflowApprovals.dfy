/** No push without an approval record of its key that a listed approver allowed,
    over every run, whatever `post_status` brings back: approvals live outside the
    state it replaces. Whether the record is that of the very request that pushes
    is the subject of WorkflowSingleFlight. */
module WorkflowApprovals {
  import opened Sequences
  import opened Models
  import opened Workflow
  import opened WorkflowRuns
  import opened WorkflowSteps
  import Gateway

  predicate Concerns(mark: Mark, key: string) {
    !mark.ContinuedAsNew? && mark.key == key
  }

  /** No mark about this key, and no new execution, from the given position on. */
  predicate Untouched(trail: seq<Mark>, key: string, from: nat, to: nat)
    requires to <= |trail|
  {
    forall i :: from <= i < to ==> !Concerns(trail[i], key) && !trail[i].ContinuedAsNew?
  }

  /** Position `created` is the creation of the record, position `decided` the
      decision on it, and nothing about the key lies between that decision and `now`. */
  ghost predicate DecidedBy(
    cfg: Config, trail: seq<Mark>, key: string, created: nat, decided: nat, now: nat, allowed: bool
  )
    requires now <= |trail|
  {
    && created < decided < now
    && trail[created].RecordCreated? && trail[created].key == key
    && trail[decided].Decided? && trail[decided].key == key && trail[decided].allowed == allowed
    && Gateway.Authorizes(trail[decided].comment, cfg.workflowId, key, allowed)
    && Untouched(trail, key, decided + 1, now)
    && (forall i :: created < i < decided ==> trail[i].Decided? || !Concerns(trail[i], key))
    && (forall i :: created < i < decided ==> !trail[i].ContinuedAsNew?)
  }

  /** What a record in the dictionary stands for. */
  ghost predicate RecordTraced(cfg: Config, w: World, key: string)
    requires key in w.m.approvals
  {
    var record, trail, now := w.m.approvals[key], w.h.trail, |w.h.trail|;
    key in w.h.provenance &&
    var p := w.h.provenance[key];
    && p.created < now && trail[p.created].RecordCreated? && trail[p.created].key == key
    && (record.pending ==> !record.allowed && Untouched(trail, key, p.created + 1, now))
    && (!record.pending ==> DecidedBy(cfg, trail, key, p.created, p.decided, now, record.allowed))
    && (forall q :: 0 <= q < now && trail[q].PushStarted? ==> trail[q].created != p.created)
  }

  /** A started push used up a record of its own that an authorized comment had allowed. */
  ghost predicate PushTraced(cfg: Config, trail: seq<Mark>, p: nat)
    requires p < |trail| && trail[p].PushStarted?
  {
    && DecidedBy(cfg, trail, trail[p].key, trail[p].created, trail[p].decided, p, true)
    && (forall q :: 0 <= q < p && trail[q].PushStarted? ==> trail[q].created != trail[p].created)
  }

  ghost predicate Traced(cfg: Config, w: World) {
    && (forall key :: key in w.m.approvals ==> RecordTraced(cfg, w, key))
    && (forall p :: 0 <= p < |w.h.trail| && w.h.trail[p].PushStarted? ==> PushTraced(cfg, w.h.trail, p))
  }

  // ---- the trail grows by one mark ----

  lemma DecidedByGrows(
    cfg: Config, trail: seq<Mark>, mark: Mark, key: string, created: nat, decided: nat, now: nat, allowed: bool
  )
    requires now <= |trail| && DecidedBy(cfg, trail, key, created, decided, now, allowed)
    ensures DecidedBy(cfg, trail + [mark], key, created, decided, now, allowed)
    ensures now == |trail| && !Concerns(mark, key) && !mark.ContinuedAsNew? ==>
              DecidedBy(cfg, trail + [mark], key, created, decided, now + 1, allowed)
  {
    hide Gateway.Authorizes;
    var grown := trail + [mark];
    assert forall i :: 0 <= i < |trail| ==> grown[i] == trail[i];
  }

  lemma PushesGrow(cfg: Config, trail: seq<Mark>, mark: Mark)
    requires forall p :: 0 <= p < |trail| && trail[p].PushStarted? ==> PushTraced(cfg, trail, p)
    ensures forall p :: 0 <= p < |trail| && (trail + [mark])[p].PushStarted? ==> PushTraced(cfg, trail + [mark], p)
  {
    hide Gateway.Authorizes;
    var grown := trail + [mark];
    forall p | 0 <= p < |trail| && grown[p].PushStarted? ensures PushTraced(cfg, grown, p) {
      assert PushTraced(cfg, trail, p);
      DecidedByGrows(cfg, trail, mark, trail[p].key, trail[p].created, trail[p].decided, p, true);
    }
  }

  /** Records the mark does not speak of stay traced. */
  lemma RecordGrows(cfg: Config, w: World, w': World, mark: Mark, key: string)
    requires key in w.m.approvals && RecordTraced(cfg, w, key)
    requires key in w'.m.approvals && w'.m.approvals[key] == w.m.approvals[key]
    requires key in w'.h.provenance && w'.h.provenance[key] == w.h.provenance[key]
    requires w'.h.trail == w.h.trail + [mark] && !Concerns(mark, key) && !mark.ContinuedAsNew?
    requires mark.PushStarted? ==> mark.created != w.h.provenance[key].created
    ensures RecordTraced(cfg, w', key)
  {
    hide Gateway.Authorizes;
    var p := w.h.provenance[key];
    if !w.m.approvals[key].pending {
      DecidedByGrows(cfg, w.h.trail, mark, key, p.created, p.decided, |w.h.trail|, w.m.approvals[key].allowed);
    }
    assert forall i :: 0 <= i < |w.h.trail| ==> w'.h.trail[i] == w.h.trail[i];
  }

  // ---- the steps that touch approvals ----

  lemma RequestTraced(cfg: Config, w: World, tid: nat, request: OperationRequest)
    requires Traced(cfg, w) && Enabled(w.m, Step.RequestPush(tid, request))
    ensures Traced(cfg, Next(cfg, w, Step.RequestPush(tid, request)))
  {
    hide Next, Gateway.Authorizes, Config.KeyAt, DecidedBy;
    var step := Step.RequestPush(tid, request);
    var w' := Next(cfg, w, step);
    if Creates(cfg, w.m, step) {
      CreateStep(cfg, w, tid, request);
      CreateTraced(cfg, w, w', cfg.KeyAt(w.m.state.iterations), tid, request.commitMessage, w.m.state.iterations);
    } else {
      JoinStep(cfg, w, tid, request);
      DropTraced(cfg, w, w');
    }
  }

  lemma CreateTraced(cfg: Config, w: World, w': World, key: string, tid: nat, message: string, iteration: nat)
    requires Traced(cfg, w) && w'.h.trail == w.h.trail + [RecordCreated(key, tid, message, iteration)]
    requires w'.m.approvals == w.m.approvals[key := ApprovalState(key, true, false, "")]
    requires w'.h.provenance == w.h.provenance[key := Provenance(|w.h.trail|, 0)]
    ensures Traced(cfg, w')
  {
    hide Gateway.Authorizes, DecidedBy;
    var mark := RecordCreated(key, tid, message, iteration);
    PushesGrow(cfg, w.h.trail, mark);
    forall k | k in w'.m.approvals ensures RecordTraced(cfg, w', k) {
      if k != key {
        assert RecordTraced(cfg, w, k);
        RecordGrows(cfg, w, w', mark, k);
      } else {
        EarlierRecords(cfg, w.h.trail);
        assert forall i :: 0 <= i < |w.h.trail| ==> w'.h.trail[i] == w.h.trail[i];
      }
    }
  }

  lemma EarlierRecords(cfg: Config, trail: seq<Mark>)
    requires forall p :: 0 <= p < |trail| && trail[p].PushStarted? ==> PushTraced(cfg, trail, p)
    ensures forall p :: 0 <= p < |trail| && trail[p].PushStarted? ==> trail[p].created < |trail|
  {
    hide Gateway.Authorizes;
    forall p | 0 <= p < |trail| && trail[p].PushStarted? ensures trail[p].created < |trail| {
      assert PushTraced(cfg, trail, p);
    }
  }

  lemma SignalIsAuthorized(cfg: Config, c: Gateway.Comment)
    requires DecisionFor(cfg, c).Some?
    ensures var d := DecisionFor(cfg, c).value;
            Gateway.Authorizes(c, cfg.workflowId, d.approvalId, d.allowed)
  {
    var d := DecisionFor(cfg, c).value;
    Gateway.SignalsExactly(c, cfg.workflowId, d.approvalId, d.allowed);
  }

  /** A denial as the notifier prints it, written by a listed approver under any
      padding, reaches the pending record of its key with its reason unchanged. */
  lemma DenialReachesRecord(
    cfg: Config, m: Machine, c: Gateway.Comment, s0: string, s1: string, s2: string, id: string, s3: string,
    reason: string, s4: string
  )
    requires Enabled(m, Step.ApprovalComment(c)) && id in m.approvals
    requires c.onPullRequest && c.repoAllowed && Gateway.Lists(c.approverLogins, c.login)
    requires cfg.workflowId == Gateway.WorkflowId(c.owner, c.repo, c.number)
    requires Gateway.PaddedDenial(c.body, s0, s1, s2, id, s3, reason, s4)
    ensures After(cfg, m, Step.ApprovalComment(c))
         == m.(approvals := m.approvals[id := m.approvals[id].(pending := false, allowed := false, reason := reason)])
  {
    hide Gateway.ParseCommand, Gateway.Approvers, Gateway.Lists, Gateway.WorkflowId, Gateway.PaddedDenial;
    Gateway.ApproversExact(c.approverLogins, c.login);
    Gateway.DenyRoundTrip(c.body, s0, s1, s2, id, s3, reason, s4);
    assert DecisionFor(cfg, c) == Some(Gateway.Decision(cfg.workflowId, id, false, reason));
  }

  lemma DecisionGrows(cfg: Config, w: World, mark: Mark, key: string)
    requires key in w.m.approvals && RecordTraced(cfg, w, key)
    requires mark.Decided? && mark.key == key
    requires Gateway.Authorizes(mark.comment, cfg.workflowId, key, mark.allowed)
    ensures DecidedBy(cfg, w.h.trail + [mark], key, w.h.provenance[key].created, |w.h.trail|, |w.h.trail| + 1, mark.allowed)
  {
    hide Gateway.Authorizes;
    var trail := w.h.trail + [mark];
    assert forall i :: 0 <= i < |w.h.trail| ==> trail[i] == w.h.trail[i];
  }

  /** A decision replaces one record and leaves the others. */
  lemma DecidedWorldTraced(cfg: Config, w: World, w': World, mark: Mark)
    requires Traced(cfg, w) && mark.Decided? && mark.key in w.m.approvals
    requires Gateway.Authorizes(mark.comment, cfg.workflowId, mark.key, mark.allowed)
    requires w'.h.trail == w.h.trail + [mark]
    requires w'.m.approvals.Keys == w.m.approvals.Keys
    requires !w'.m.approvals[mark.key].pending && w'.m.approvals[mark.key].allowed == mark.allowed
    requires mark.key in w.h.provenance ==>
               mark.key in w'.h.provenance &&
               w'.h.provenance[mark.key] == w.h.provenance[mark.key].(decided := |w.h.trail|)
    requires forall k :: k in w.m.approvals && k != mark.key ==> w'.m.approvals[k] == w.m.approvals[k]
    requires forall k :: k in w.h.provenance && k != mark.key ==>
               k in w'.h.provenance && w'.h.provenance[k] == w.h.provenance[k]
    ensures Traced(cfg, w')
  {
    hide Gateway.Authorizes, DecidedBy;
    PushesGrow(cfg, w.h.trail, mark);
    DecisionGrows(cfg, w, mark, mark.key);
    assert RecordTraced(cfg, w', mark.key) by {
      assert RecordTraced(cfg, w, mark.key);
      assert forall i :: 0 <= i < |w.h.trail| ==> w'.h.trail[i] == w.h.trail[i];
    }
    forall k | k in w'.m.approvals && k != mark.key ensures RecordTraced(cfg, w', k) {
      assert RecordTraced(cfg, w, k);
      RecordGrows(cfg, w, w', mark, k);
    }
  }

  lemma DecideTraced(cfg: Config, w: World, c: Gateway.Comment)
    requires Traced(cfg, w) && Enabled(w.m, Step.ApprovalComment(c))
    ensures Traced(cfg, Next(cfg, w, Step.ApprovalComment(c)))
  {
    hide Next, DecisionFor, Gateway.Authorizes, RecordTraced, PushTraced;
    CommentStep(cfg, w, c);
    var w' := Next(cfg, w, Step.ApprovalComment(c));
    if DecisionFor(cfg, c).Some? && DecisionFor(cfg, c).value.approvalId in w.m.approvals {
      SignalIsAuthorized(cfg, c);
      var d := DecisionFor(cfg, c).value;
      DecidedWorldTraced(cfg, w, w', Decided(d.approvalId, d.allowed, c));
    }
  }

  lemma StartTraced(cfg: Config, w: World, step: Step)
    requires Traced(cfg, w) && Enabled(w.m, step) && Starts(w.m, step)
    ensures Traced(cfg, Next(cfg, w, step))
  {
    hide Next, Gateway.Authorizes;
    StartStep(cfg, w, step);
    var w' := Next(cfg, w, step);
    var key := w.m.tasks[step.tid].key;
    assert RecordTraced(cfg, w, key);
    var p, mark := w.h.provenance[key], Last(w'.h.trail);
    PushesGrow(cfg, w.h.trail, mark);
    DecidedByGrows(cfg, w.h.trail, mark, key, p.created, p.decided, |w.h.trail|, true);
    assert forall i :: 0 <= i < |w.h.trail| ==> w'.h.trail[i] == w.h.trail[i];
    assert PushTraced(cfg, w'.h.trail, |w.h.trail|);
    forall k | k in w'.m.approvals ensures RecordTraced(cfg, w', k) {
      assert RecordTraced(cfg, w, k);
      RecordGrows(cfg, w, w', mark, k);
    }
  }

  /** Forgetting records, with no new mark. */
  lemma DropTraced(cfg: Config, w: World, w': World)
    requires Traced(cfg, w) && w'.h.trail == w.h.trail
    requires forall k :: k in w'.m.approvals ==> k in w.m.approvals && w'.m.approvals[k] == w.m.approvals[k]
    requires forall k :: k in w'.m.approvals && k in w.h.provenance ==>
               k in w'.h.provenance && w'.h.provenance[k] == w.h.provenance[k]
    ensures Traced(cfg, w')
  {
    hide Gateway.Authorizes, DecidedBy;
    forall k | k in w'.m.approvals ensures RecordTraced(cfg, w', k) {
      assert RecordTraced(cfg, w, k);
    }
  }

  lemma OtherTraced(cfg: Config, w: World, w': World)
    requires Traced(cfg, w)
    requires w'.h.trail == w.h.trail || (w'.h.trail == w.h.trail + [ContinuedAsNew] && w'.m.approvals == map[])
    requires forall k :: k in w'.m.approvals ==> k in w.m.approvals && w'.m.approvals[k] == w.m.approvals[k]
    requires forall k :: k in w'.m.approvals && k in w.h.provenance ==>
               k in w'.h.provenance && w'.h.provenance[k] == w.h.provenance[k]
    ensures Traced(cfg, w')
  {
    if w'.h.trail == w.h.trail {
      DropTraced(cfg, w, w');
    } else {
      PushesGrow(cfg, w.h.trail, ContinuedAsNew);
    }
  }

  lemma TracedNext(cfg: Config, w: World, step: Step)
    requires Traced(cfg, w)
    ensures Traced(cfg, Next(cfg, w, step))
  {
    hide After, Observe, RecordTraced, PushTraced;
    if Enabled(w.m, step) {
      var w' := Next(cfg, w, step);
      if MovesMain(step) {
        MainStep(cfg, w, step);
        OtherTraced(cfg, w, w');
      } else if MovesOneTask(step) {
        WaitStep(cfg, w, step);
        OtherTraced(cfg, w, w');
      } else if step.RequestPush? {
        RequestTraced(cfg, w, step.tid, step.request);
      } else if step.ApprovalComment? {
        DecideTraced(cfg, w, step.comment);
      } else if Starts(w.m, step) {
        StartTraced(cfg, w, step);
      } else if Settles(w.m, step) {
        SettleStep(cfg, w, step);
        OtherTraced(cfg, w, w');
      } else {
        MissingStep(cfg, w, step);
        OtherTraced(cfg, w, w');
      }
    }
  }

  lemma {:induction false} TracedRun(cfg: Config, w: World, steps: seq<Step>)
    requires Traced(cfg, w)
    ensures Traced(cfg, Run(cfg, w, steps))
    decreases |steps|
  {
    if steps != [] {
      TracedNext(cfg, w, steps[0]);
      TracedRun(cfg, Next(cfg, w, steps[0]), steps[1..]);
    }
  }

  /** In every run, for every started push: its approval record was created
      before, in the same execution; after that a listed approver's comment that
      reads `approve` with this very key allowed it; no later decision, record or
      push for the key comes between; and no two pushes used the same record. */
  lemma EveryPushIsApproved(cfg: Config, init: WorkflowState, steps: seq<Step>)
    ensures var trail := Run(cfg, Begin(init), steps).h.trail;
            && (forall p :: 0 <= p < |trail| && trail[p].PushStarted? ==>
                  DecidedBy(cfg, trail, trail[p].key, trail[p].created, trail[p].decided, p, true))
            && (forall p, q :: 0 <= q < p < |trail| && trail[p].PushStarted? && trail[q].PushStarted? ==>
                  trail[q].created != trail[p].created)
  {
    TracedRun(cfg, Begin(init), steps);
    hide DecidedBy;
    var trail := Run(cfg, Begin(init), steps).h.trail;
    forall p | 0 <= p < |trail| && trail[p].PushStarted? ensures PushTraced(cfg, trail, p) {
    }
  }
}
