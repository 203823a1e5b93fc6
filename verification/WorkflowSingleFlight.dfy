/** One push per key, started by the approval of its own request: exactly as long
    as no request creates an operation while a `post_status` call is in flight. */
module WorkflowSingleFlight {
  import opened Sequences
  import opened Models
  import opened Workflow
  import opened WorkflowRuns
  import opened WorkflowSteps
  import opened WorkflowScenarios
  import WorkflowEvents
  import Gateway

  // ---- what is claimed of a trail ----

  ghost predicate Started(trail: seq<Mark>, key: string) {
    exists p :: 0 <= p < |trail| && trail[p].PushStarted? && trail[p].key == key
  }

  /** No key's push is started twice. */
  ghost predicate StartedOnce(trail: seq<Mark>) {
    forall p, q :: 0 <= p < q < |trail| && trail[p].PushStarted? && trail[q].PushStarted? ==> trail[p].key != trail[q].key
  }

  /** The record whose approval started a push was created by the very update
      that pushes, for the message it pushes. */
  ghost predicate OwnRecord(trail: seq<Mark>) {
    forall p :: 0 <= p < |trail| && trail[p].PushStarted? ==>
      trail[p].created < p && trail[trail[p].created].CreatedBy(trail[p].key, trail[p].tid, trail[p].message)
  }

  // ---- the runs in which it holds ----

  /** The guard: no request under a new key while `post_status` is in flight. */
  predicate NoCreate(cfg: Config, w: World, step: Step) {
    !(w.m.at.Posting? && Enabled(w.m, step) && Creates(cfg, w.m, step))
  }

  predicate NoCreates(cfg: Config, w: World, steps: seq<Step>)
    decreases |steps|
  {
    steps == [] || (NoCreate(cfg, w, steps[0]) && NoCreates(cfg, Next(cfg, w, steps[0]), steps[1..]))
  }

  lemma {:induction false} NoCreatesAppend(cfg: Config, w: World, first: seq<Step>, second: seq<Step>)
    ensures NoCreates(cfg, w, first + second) <==>
            NoCreates(cfg, w, first) && NoCreates(cfg, Run(cfg, w, first), second)
    decreases |first|
  {
    if first == [] {
      assert first + second == second;
    } else {
      assert (first + second)[1..] == first[1..] + second;
      hide Next, NoCreate;
      NoCreatesAppend(cfg, Next(cfg, w, first[0]), first[1..], second);
    }
  }

  lemma {:induction false} NoRequests(cfg: Config, w: World, steps: seq<Step>)
    requires forall s :: s in steps ==> !s.RequestPush?
    ensures NoCreates(cfg, w, steps)
    decreases |steps|
  {
    if steps != [] {
      assert steps[0] in steps;
      hide Next;
      NoRequests(cfg, Next(cfg, w, steps[0]), steps[1..]);
    }
  }

  // ---- the invariant ----

  ghost predicate SingleOwner(m: Machine) {
    forall t, u, k :: t in m.tasks && u in m.tasks && t != u && m.tasks[t].Owns(k) ==> !m.tasks[u].Owns(k)
  }

  /** What an update relies on: its key on record and, until it pushes, the
      approval record it created itself. */
  ghost predicate TaskKeyed(w: World, tid: nat)
    requires tid in w.m.tasks
  {
    match w.m.tasks[tid]
    case AwaitingResult(key) => key in w.m.state.operations
    case ResultReady(key) => key in w.m.state.operations
    case Notifying(key, message) => key in w.m.state.operations && HasOwnRecord(w, tid, key, message)
    case AwaitingDecision(key, message) => key in w.m.state.operations && HasOwnRecord(w, tid, key, message)
    case DecisionReady(key, message) => key in w.m.state.operations && HasOwnRecord(w, tid, key, message)
    case Pushing(key, _) => key in w.m.state.operations
    case Returned(_) => true
    case Raised => true
  }

  ghost predicate HasOwnRecord(w: World, tid: nat, key: string, message: string) {
    && key in w.m.approvals && key in w.h.provenance
    && w.h.provenance[key].created < |w.h.trail|
    && w.h.trail[w.h.provenance[key].created].CreatedBy(key, tid, message)
  }

  /** Once a key's push has started, no update is on its way to starting it. */
  ghost predicate StartedIsOver(w: World) {
    forall k :: Started(w.h.trail, k) ==>
      k in w.m.state.operations && forall t :: t in w.m.tasks && w.m.tasks[t].Owns(k) ==> w.m.tasks[t].Pushing?
  }

  ghost predicate Keyed(w: World) {
    && !w.m.stuck
    && (w.m.at.Posting? ==> w.m.at.copy.operations.Keys == w.m.state.operations.Keys)
    && (forall t :: t in w.m.tasks ==> TaskKeyed(w, t))
    && SingleOwner(w.m)
    && StartedOnce(w.h.trail)
    && StartedIsOver(w)
    && OwnRecord(w.h.trail)
  }

  // ---- the trail grows by a mark that starts nothing ----

  lemma QuietMark(trail: seq<Mark>, mark: Mark)
    requires !mark.PushStarted?
    ensures forall k :: Started(trail + [mark], k) <==> Started(trail, k)
    ensures StartedOnce(trail) ==> StartedOnce(trail + [mark])
    ensures OwnRecord(trail) ==> OwnRecord(trail + [mark])
  {
    var grown := trail + [mark];
    assert forall p :: 0 <= p < |trail| ==> grown[p] == trail[p];
    forall k | Started(trail, k) ensures Started(grown, k) {
      var p :| 0 <= p < |trail| && trail[p].PushStarted? && trail[p].key == k;
      assert grown[p].key == k;
    }
  }

  lemma StartMark(trail: seq<Mark>, mark: Mark)
    requires mark.PushStarted? && !Started(trail, mark.key) && StartedOnce(trail) && OwnRecord(trail)
    requires mark.created < |trail| && trail[mark.created].CreatedBy(mark.key, mark.tid, mark.message)
    ensures forall k :: Started(trail + [mark], k) ==> k == mark.key || Started(trail, k)
    ensures StartedOnce(trail + [mark]) && OwnRecord(trail + [mark])
  {
    var grown := trail + [mark];
    assert forall p :: 0 <= p < |trail| ==> grown[p] == trail[p];
    forall p | 0 <= p < |trail| && trail[p].PushStarted? ensures trail[p].key != mark.key {
      assert Started(trail, trail[p].key);
    }
  }

  // ---- steps ----

  /** One update moves on, alone in touching what it owns. */
  lemma TaskMoves(w: World, w': World, tid: nat)
    requires Keyed(w) && !w'.m.stuck && w'.m.at == w.m.at && w'.h.trail == w.h.trail
    requires w'.m.state.operations.Keys == w.m.state.operations.Keys
    requires tid in w'.m.tasks && w'.m.tasks == w.m.tasks[tid := w'.m.tasks[tid]] && TaskKeyed(w', tid)
    requires forall k :: w'.m.tasks[tid].Owns(k) ==> tid in w.m.tasks && w.m.tasks[tid].Owns(k)
    requires tid in w.m.tasks && w.m.tasks[tid].Pushing? ==> forall k :: !w'.m.tasks[tid].Owns(k)
    requires forall k :: k in w.m.approvals && !(tid in w.m.tasks && w.m.tasks[tid].Owns(k)) ==> k in w'.m.approvals
    requires forall k :: k in w.h.provenance && !(tid in w.m.tasks && w.m.tasks[tid].Owns(k)) ==>
               k in w'.h.provenance && w'.h.provenance[k] == w.h.provenance[k]
    ensures Keyed(w')
  {
    hide Started, StartedOnce, OwnRecord;
    forall t | t in w'.m.tasks ensures TaskKeyed(w', t) {
      if t != tid {
        assert TaskKeyed(w, t);
      }
    }
  }

  lemma WaitKeyed(cfg: Config, w: World, step: Step)
    requires Keyed(w) && Enabled(w.m, step) && MovesOneTask(step)
    ensures Keyed(Next(cfg, w, step))
  {
    hide Next, Started, StartedOnce, StartedIsOver, OwnRecord, SingleOwner;
    WaitStep(cfg, w, step);
    assert TaskKeyed(w, step.tid);
    TaskMoves(w, Next(cfg, w, step), step.tid);
  }

  lemma RequestKeyed(cfg: Config, w: World, step: Step)
    requires Keyed(w) && Enabled(w.m, step) && step.RequestPush? && NoCreate(cfg, w, step)
    ensures Keyed(Next(cfg, w, step))
  {
    hide Next, Started, StartedOnce, StartedIsOver, OwnRecord, SingleOwner, Config.KeyAt;
    if Creates(cfg, w.m, step) {
      CreateKeyed(cfg, w, step.tid, step.request);
    } else {
      JoinStep(cfg, w, step.tid, step.request);
      TaskMoves(w, Next(cfg, w, step), step.tid);
    }
  }

  lemma CreateKeyed(cfg: Config, w: World, tid: nat, request: OperationRequest)
    requires Keyed(w) && Enabled(w.m, Step.RequestPush(tid, request)) && !w.m.at.Posting?
    requires Creates(cfg, w.m, Step.RequestPush(tid, request))
    ensures Keyed(Next(cfg, w, Step.RequestPush(tid, request)))
  {
    hide Next, Started, StartedOnce, OwnRecord, Config.KeyAt, Enabled;
    CreateStep(cfg, w, tid, request);
    var key := cfg.KeyAt(w.m.state.iterations);
    var w' := Next(cfg, w, Step.RequestPush(tid, request));
    QuietMark(w.h.trail, RecordCreated(key, tid, request.commitMessage, w.m.state.iterations));
    forall t | t in w'.m.tasks ensures TaskKeyed(w', t) {
      if t != tid {
        assert TaskKeyed(w, t);
      }
    }
    forall t | t in w.m.tasks ensures !w.m.tasks[t].Owns(key) {
      assert TaskKeyed(w, t);
    }
  }

  lemma SettleKeyed(cfg: Config, w: World, step: Step)
    requires Keyed(w) && Enabled(w.m, step) && Settles(w.m, step)
    ensures Keyed(Next(cfg, w, step))
  {
    hide Next, Started, StartedOnce, StartedIsOver, OwnRecord, SingleOwner;
    SettleStep(cfg, w, step);
    assert TaskKeyed(w, step.tid) && w.m.tasks[step.tid].Owns(w.m.tasks[step.tid].key);
    TaskMoves(w, Next(cfg, w, step), step.tid);
  }

  lemma StartKeyed(cfg: Config, w: World, step: Step)
    requires Keyed(w) && Enabled(w.m, step) && Starts(w.m, step)
    ensures Keyed(Next(cfg, w, step))
  {
    hide Next, Started, StartedOnce, OwnRecord;
    StartStep(cfg, w, step);
    var t := w.m.tasks[step.tid];
    var w' := Next(cfg, w, step);
    assert TaskKeyed(w, step.tid) && t.Owns(t.key);
    StartMark(w.h.trail, Last(w'.h.trail));
    forall u | u in w'.m.tasks ensures TaskKeyed(w', u) {
      assert TaskKeyed(w, u);
      assert u != step.tid ==> !w.m.tasks[u].Owns(t.key);
    }
  }

  lemma CommentKeyed(cfg: Config, w: World, c: Gateway.Comment)
    requires Keyed(w) && Enabled(w.m, Step.ApprovalComment(c))
    ensures Keyed(Next(cfg, w, Step.ApprovalComment(c)))
  {
    hide Next, Started, StartedOnce, OwnRecord, DecisionFor;
    CommentStep(cfg, w, c);
    var w' := Next(cfg, w, Step.ApprovalComment(c));
    if w' != w {
      QuietMark(w.h.trail, Last(w'.h.trail));
      forall t | t in w'.m.tasks ensures TaskKeyed(w', t) {
        assert TaskKeyed(w, t);
      }
    }
  }

  lemma MainKeyed(cfg: Config, w: World, step: Step)
    requires Keyed(w) && Enabled(w.m, step) && MovesMain(step)
    ensures Keyed(Next(cfg, w, step))
  {
    MainStep(cfg, w, step);
    MainRecords(cfg, w.m, step);
    hide After, Observe, Started, StartedOnce, OwnRecord;
    QuietMark(w.h.trail, ContinuedAsNew);
    var w' := Next(cfg, w, step);
    forall t | t in w'.m.tasks ensures TaskKeyed(w', t) {
      assert TaskKeyed(w, t);
    }
  }

  lemma KeyedNext(cfg: Config, w: World, step: Step)
    requires Keyed(w) && NoCreate(cfg, w, step)
    ensures Keyed(Next(cfg, w, step))
  {
    hide After, Observe, NoCreate, StartedOnce, StartedIsOver, OwnRecord, SingleOwner, Creates;
    if Enabled(w.m, step) {
      if MovesMain(step) {
        MainKeyed(cfg, w, step);
      } else if MovesOneTask(step) {
        WaitKeyed(cfg, w, step);
      } else if step.RequestPush? {
        RequestKeyed(cfg, w, step);
      } else if step.ApprovalComment? {
        CommentKeyed(cfg, w, step.comment);
      } else {
        assert TaskKeyed(w, step.tid);
        if Starts(w.m, step) {
          StartKeyed(cfg, w, step);
        } else {
          SettleKeyed(cfg, w, step);
        }
      }
    }
  }

  lemma {:induction false} KeyedRun(cfg: Config, w: World, steps: seq<Step>)
    requires Keyed(w) && NoCreates(cfg, w, steps)
    ensures Keyed(Run(cfg, w, steps))
    decreases |steps|
  {
    if steps != [] {
      KeyedNext(cfg, w, steps[0]);
      hide Keyed, Next, NoCreate;
      KeyedRun(cfg, Next(cfg, w, steps[0]), steps[1..]);
    }
  }

  lemma BeginKeyed(init: WorkflowState)
    ensures Keyed(Begin(init))
  {
  }

  /** Single flight: whatever state a chain starts from, as long as no request
      creates an operation during a `post_status` call, no lookup fails, no key's
      push starts twice, and each push is started by the approval of the record
      that its own request created, for the message that request carried. */
  lemma SingleFlight(cfg: Config, init: WorkflowState, steps: seq<Step>)
    requires NoCreates(cfg, Begin(init), steps)
    ensures var w := Run(cfg, Begin(init), steps);
            !w.m.stuck && StartedOnce(w.h.trail) && OwnRecord(w.h.trail)
  {
    BeginKeyed(init);
    KeyedRun(cfg, Begin(init), steps);
  }

  // ---- and only as long ----

  /** From a call in flight with nothing on record under the current key, one
      request approved before the call returns and one approved after. */
  lemma PushedTwice(
    cfg: Config, w: World, t: nat, u: nat, a: OperationRequest, b: OperationRequest, c: Gateway.Comment
  )
    requires w.m.at.Posting? && !w.m.stuck && t != u && t !in w.m.tasks && u !in w.m.tasks
    requires w.m.at.copy.iterations == w.m.state.iterations
    requires cfg.KeyAt(w.m.state.iterations) !in w.m.state.operations
    requires cfg.KeyAt(w.m.state.iterations) !in w.m.at.copy.operations
    requires Approves(cfg, c, cfg.KeyAt(w.m.state.iterations))
    ensures !StartedOnce(Run(cfg, w, Requested(t, a) + Granted(t, c) + [POSTED] + (Requested(u, b) + Granted(u, c))).h.trail)
  {
    hide Next, Run, Requested, Granted, Approves, Config.KeyAt;
    var first, second := Requested(t, a) + Granted(t, c), Requested(u, b) + Granted(u, c);
    ApprovedRequestStarts(cfg, w, t, a, c);
    var w1 := Run(cfg, w, first);
    PostReturns(cfg, w1);
    var w2 := Run(cfg, w1, [POSTED]);
    RunAppend(cfg, w, first, [POSTED]);
    RunAppend(cfg, w, first + [POSTED], second);
    ApprovedRequestStarts(cfg, w2, u, b, c);
    var trail := Run(cfg, w2, second).h.trail;
    var p, q := |w.h.trail| + 2, |w2.h.trail| + 2;
    assert trail[p] == w2.h.trail[p];
    assert trail[p].PushStarted? && trail[q].PushStarted? && trail[p].key == trail[q].key;
  }

  /** From the same place, an approval that starts the push of another request:
      the first asks during the call, the second after it under the same key, and
      the approval of the second lets the first push its own message. */
  lemma ApprovalOfAnother(
    cfg: Config, w: World, t: nat, u: nat, a: OperationRequest, b: OperationRequest, c: Gateway.Comment
  )
    requires w.m.at.Posting? && !w.m.stuck && t != u && t !in w.m.tasks && u !in w.m.tasks
    requires w.m.at.copy.iterations == w.m.state.iterations
    requires cfg.KeyAt(w.m.state.iterations) !in w.m.state.operations
    requires cfg.KeyAt(w.m.state.iterations) !in w.m.at.copy.operations
    requires Approves(cfg, c, cfg.KeyAt(w.m.state.iterations))
    ensures var key := cfg.KeyAt(w.m.state.iterations);
            var n := |w.h.trail|;
            var trail := Run(cfg, w, Requested(t, a) + [POSTED] + (Requested(u, b) + Granted(t, c))).h.trail;
            && |trail| == n + 4
            && trail[n + 1].CreatedBy(key, u, b.commitMessage)
            && trail[n + 3] == PushStarted(key, t, a.commitMessage, n + 1, n + 2)
  {
    hide Next, Run, Requested, Granted, Approves, Config.KeyAt;
    RequestedCreates(cfg, w, t, a);
    var w1 := Run(cfg, w, Requested(t, a));
    PostReturns(cfg, w1);
    var w2 := Run(cfg, w1, [POSTED]);
    RequestedCreates(cfg, w2, u, b);
    var w3 := Run(cfg, w2, Requested(u, b));
    ApprovedStarts(cfg, w3, t, c);
    RunAppend(cfg, w, Requested(t, a), [POSTED]);
    RunAppend(cfg, w, Requested(t, a) + [POSTED], Requested(u, b) + Granted(t, c));
    RunAppend(cfg, w2, Requested(u, b), Granted(t, c));
  }

  /** A world reached without such a request. */
  ghost predicate Reached(cfg: Config, w: World) {
    exists init, steps :: NoCreates(cfg, Begin(init), steps) && w == Run(cfg, Begin(init), steps)
  }

  lemma ReachedKeyed(cfg: Config, w: World)
    requires Reached(cfg, w)
    ensures Keyed(w) && (w.m.at.Posting? ==> w.m.at.copy.iterations == w.m.state.iterations)
  {
    var init, steps :| NoCreates(cfg, Begin(init), steps) && w == Run(cfg, Begin(init), steps);
    hide Keyed, Run, NoCreates;
    BeginKeyed(init);
    KeyedRun(cfg, Begin(init), steps);
    WorkflowEvents.CountedRun(cfg, init, Begin(init), steps);
  }

  /** What the later part of a run must do, once a request has been made. */
  ghost predicate StaysSingle(cfg: Config, w: World) {
    forall later :: NoCreates(cfg, w, later) ==> StartedOnce(Run(cfg, w, later).h.trail)
  }

  ghost predicate StaysOwn(cfg: Config, w: World) {
    forall later :: NoCreates(cfg, w, later) ==> OwnRecord(Run(cfg, w, later).h.trail)
  }

  /** If the request creates nothing, all is well from then on. */
  lemma JoinStays(cfg: Config, w: World, step: Step)
    requires Reached(cfg, w) && NoCreate(cfg, w, step)
    ensures StaysSingle(cfg, Next(cfg, w, step)) && StaysOwn(cfg, Next(cfg, w, step))
  {
    ReachedKeyed(cfg, w);
    KeyedNext(cfg, w, step);
    var w1 := Next(cfg, w, step);
    hide Next, Run, NoCreates;
    forall later | NoCreates(cfg, w1, later)
      ensures StartedOnce(Run(cfg, w1, later).h.trail) && OwnRecord(Run(cfg, w1, later).h.trail)
    {
      KeyedRun(cfg, w1, later);
    }
  }

  /** A request made when no call is in flight creates nothing during one. */
  lemma OutsideNoCreates(cfg: Config, w: World, tid: nat, request: OperationRequest, rest: seq<Step>)
    requires !w.m.at.Posting?
    requires forall s :: s in rest ==> !s.RequestPush?
    ensures NoCreates(cfg, w, Requested(tid, request) + rest)
  {
    var steps := Requested(tid, request) + rest;
    assert steps[1..] == [Step.Notified(tid)] + rest;
    hide Next;
    NoRequests(cfg, Next(cfg, w, steps[0]), steps[1..]);
  }

  /** After a request, steps that make none, up to where no call is in flight, and
      then one more request: nothing is created during a call. */
  lemma OneMoreRequest(
    cfg: Config, w: World, first: Step, quiet: seq<Step>, u: nat, request: OperationRequest, rest: seq<Step>
  )
    requires forall s :: s in quiet || s in rest ==> !s.RequestPush?
    requires !Run(cfg, w, [first] + quiet).m.at.Posting?
    ensures var later := quiet + (Requested(u, request) + rest);
            && NoCreates(cfg, Next(cfg, w, first), later)
            && Run(cfg, Next(cfg, w, first), later) == Run(cfg, w, [first] + quiet + (Requested(u, request) + rest))
  {
    var w1 := Next(cfg, w, first);
    var asked := Requested(u, request) + rest;
    RunOne(cfg, w, first);
    NoRequests(cfg, w1, quiet);
    OutsideNoCreates(cfg, Run(cfg, w1, quiet), u, request, rest);
    hide Next, Run, NoCreates, Requested;
    RunAppend(cfg, w, [first], quiet);
    RunAppend(cfg, w, [first], quiet + asked);
    assert [first] + (quiet + asked) == [first] + quiet + asked;
    NoCreatesAppend(cfg, w1, quiet, asked);
  }

  lemma ReachedPosting(cfg: Config, w: World)
    requires Reached(cfg, w) && w.m.at.Posting?
    ensures !w.m.stuck && w.m.at.copy.iterations == w.m.state.iterations
    ensures w.m.at.copy.operations.Keys == w.m.state.operations.Keys
  {
    ReachedKeyed(cfg, w);
  }

  lemma QuietSteps(t: nat, request: OperationRequest, c: Gateway.Comment)
    ensures Requested(t, request) == [Step.RequestPush(t, request)] + [Step.Notified(t)]
    ensures forall s :: s in [Step.Notified(t)] + Granted(t, c) + [POSTED] ==> !s.RequestPush?
    ensures forall s :: s in Granted(t, c) ==> !s.RequestPush?
  {
  }

  /** Single flight fails after a request that creates during a call, even if
      none does later. */
  lemma CreateBreaksSingle(cfg: Config, w: World, t: nat, u: nat, request: OperationRequest, c: Gateway.Comment)
    requires Reached(cfg, w) && w.m.at.Posting? && t !in w.m.tasks && u !in w.m.tasks && t != u
    requires Creates(cfg, w.m, Step.RequestPush(t, request)) && Approves(cfg, c, cfg.KeyAt(w.m.state.iterations))
    ensures !StaysSingle(cfg, Next(cfg, w, Step.RequestPush(t, request)))
  {
    hide Reached, Next, Run, Approves, Config.KeyAt, NoCreates, StartedOnce, Requested, Granted;
    ReachedPosting(cfg, w);
    PushedTwice(cfg, w, t, u, request, request, c);
    ApprovedRequestStarts(cfg, w, t, request, c);
    PostReturns(cfg, Run(cfg, w, Requested(t, request) + Granted(t, c)));
    RunAppend(cfg, w, Requested(t, request) + Granted(t, c), [POSTED]);
    QuietSteps(t, request, c);
    QuietSteps(u, request, c);
    var first, quiet := Step.RequestPush(t, request), [Step.Notified(t)] + Granted(t, c) + [POSTED];
    assert [first] + quiet == Requested(t, request) + Granted(t, c) + [POSTED];
    OneMoreRequest(cfg, w, first, quiet, u, request, Granted(u, c));
  }

  /** And so does the tie between approval and request. */
  lemma CreateBreaksOwn(cfg: Config, w: World, t: nat, u: nat, request: OperationRequest, c: Gateway.Comment)
    requires Reached(cfg, w) && w.m.at.Posting? && t !in w.m.tasks && u !in w.m.tasks && t != u
    requires Creates(cfg, w.m, Step.RequestPush(t, request)) && Approves(cfg, c, cfg.KeyAt(w.m.state.iterations))
    ensures !StaysOwn(cfg, Next(cfg, w, Step.RequestPush(t, request)))
  {
    hide Reached, Next, Run, Approves, Config.KeyAt, NoCreates, Requested, Granted;
    ReachedPosting(cfg, w);
    ApprovalOfAnother(cfg, w, t, u, request, request, c);
    RequestedCreates(cfg, w, t, request);
    PostReturns(cfg, Run(cfg, w, Requested(t, request)));
    RunAppend(cfg, w, Requested(t, request), [POSTED]);
    QuietSteps(t, request, c);
    var first, quiet := Step.RequestPush(t, request), [Step.Notified(t)] + [POSTED];
    assert [first] + quiet == Requested(t, request) + [POSTED];
    OneMoreRequest(cfg, w, first, quiet, u, request, Granted(t, c));
    var trail := Run(cfg, w, Requested(t, request) + [POSTED] + (Requested(u, request) + Granted(t, c))).h.trail;
    assert trail[|w.h.trail| + 3].PushStarted?;
  }

  lemma AnotherTid(m: Machine, t: nat) returns (u: nat)
    ensures u !in m.tasks && u != t
  {
    var n := Bound(m.tasks.Keys);
    u := n + t + 1;
  }

  /** Exactly: a request made while `post_status` is in flight leaves single flight
      intact, whatever follows, if and only if its key is already on record. */
  lemma SingleFlightExactly(cfg: Config, w: World, t: nat, request: OperationRequest, c: Gateway.Comment)
    requires Reached(cfg, w) && w.m.at.Posting? && t !in w.m.tasks
    requires Approves(cfg, c, cfg.KeyAt(w.m.state.iterations))
    ensures StaysSingle(cfg, Next(cfg, w, Step.RequestPush(t, request))) <==>
            cfg.KeyAt(w.m.state.iterations) in w.m.state.operations
  {
    hide StaysSingle, StaysOwn, Next, Reached, Approves, Config.KeyAt;
    if Creates(cfg, w.m, Step.RequestPush(t, request)) {
      var u := AnotherTid(w.m, t);
      CreateBreaksSingle(cfg, w, t, u, request, c);
    } else {
      JoinStays(cfg, w, Step.RequestPush(t, request));
    }
  }

  /** The same condition decides whether pushes stay tied to the approval of their own request. */
  lemma OwnApprovalExactly(cfg: Config, w: World, t: nat, request: OperationRequest, c: Gateway.Comment)
    requires Reached(cfg, w) && w.m.at.Posting? && t !in w.m.tasks
    requires Approves(cfg, c, cfg.KeyAt(w.m.state.iterations))
    ensures StaysOwn(cfg, Next(cfg, w, Step.RequestPush(t, request))) <==>
            cfg.KeyAt(w.m.state.iterations) in w.m.state.operations
  {
    hide StaysSingle, StaysOwn, Next, Reached, Approves, Config.KeyAt;
    if Creates(cfg, w.m, Step.RequestPush(t, request)) {
      var u := AnotherTid(w.m, t);
      CreateBreaksOwn(cfg, w, t, u, request, c);
    } else {
      JoinStays(cfg, w, Step.RequestPush(t, request));
    }
  }

  /** Such a world is reached by every workflow on its first event, with nothing on record. */
  lemma FirstCallReached(cfg: Config, pr: PRRef, handle: SandboxHandle, event: GitHubEvent)
    ensures var w := Run(cfg, Begin(NewState(pr)), Iteration(handle, event));
            Reached(cfg, w) && w.m.at.Posting? && w.m.tasks == map[] && w.m.state.operations == map[]
  {
    hide Next, Run, Begin;
    IterationPosts(cfg, pr, handle, event);
    NoRequests(cfg, Begin(NewState(pr)), Iteration(handle, event));
  }

  /** From there a run starts the same push twice. */
  lemma PushedTwiceFromTheStart(
    cfg: Config, pr: PRRef, handle: SandboxHandle, event: GitHubEvent, a: OperationRequest, b: OperationRequest,
    c: Gateway.Comment
  )
    requires Approves(cfg, c, cfg.KeyAt(1))
    ensures var steps := Requested(0, a) + Granted(0, c) + [POSTED] + (Requested(1, b) + Granted(1, c));
            !StartedOnce(Run(cfg, Begin(NewState(pr)), Iteration(handle, event) + steps).h.trail)
  {
    hide Run, Iteration, Requested, Granted, Approves, StartedOnce, Config.KeyAt;
    IterationPosts(cfg, pr, handle, event);
    PushedTwice(cfg, Run(cfg, Begin(NewState(pr)), Iteration(handle, event)), 0, 1, a, b, c);
    RunAppend(cfg, Begin(NewState(pr)), Iteration(handle, event),
              Requested(0, a) + Granted(0, c) + [POSTED] + (Requested(1, b) + Granted(1, c)));
  }
}
