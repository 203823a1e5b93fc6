/** Runs of the workflow machine, with a history beside the state: what arrived,
    what was handed to the agent, what happened to approvals, what was returned.

    A run is any list of steps; a step that is not enabled does nothing, so every
    statement about `Run` is about every interleaving. One run spans a whole
    continue-as-new chain. */
module WorkflowRuns {
  import opened Sequences
  import opened Models
  import opened Workflow
  import Gateway

  /** An accepted event, with the number of the `post_status` call in flight
      when it was accepted, or 0. */
  datatype Arrival = Arrival(event: GitHubEvent, post: nat)

  datatype Mark =
    | RecordCreated(key: string, tid: nat, message: string, iteration: nat)
    | Decided(key: string, allowed: bool, comment: Gateway.Comment)
    | PushStarted(key: string, tid: nat, message: string, created: nat, decided: nat)
    | ContinuedAsNew
  {
    /** The record that an update created, for its message. */
    predicate CreatedBy(k: string, u: nat, m: string) {
      RecordCreated? && key == k && tid == u && message == m
    }
  }

  /** Where in the trail an approval record was created and last decided. */
  datatype Provenance = Provenance(created: nat, decided: nat)

  /** What a `push_changes` activity answered. */
  datatype Completion = Completion(key: string, outcome: CommitResult)

  datatype History = History(
    arrivals: seq<Arrival>,
    posts: nat,
    handed: seq<seq<GitHubEvent>>,
    trail: seq<Mark>,
    provenance: map<string, Provenance>,
    completions: seq<Completion>,
    returned: seq<OperationResult>
  ) {
    function Return(result: OperationResult): History {
      this.(returned := returned + [result])
    }

    function Forget(key: string): History {
      this.(provenance := provenance - {key})
    }

    function Origin(key: string): Provenance {
      if key in provenance then provenance[key] else Provenance(0, 0)
    }
  }

  datatype World = World(m: Machine, h: History)

  function ObserveMain(m: Machine, step: Step, h: History): History
    requires Enabled(m, step) && MovesMain(step)
  {
    match step
    case OnEvent(event) =>
      if event.deliveryId in m.state.processedDeliveryIds then h
      else h.(arrivals := h.arrivals + [Arrival(event, if m.at.Posting? then h.posts else 0)])
    case IterationDone(_, _) => h.(posts := h.posts + 1)
    case Wake =>
      if m.Wake().at.Iterating? then h.(handed := h.handed + [m.state.pendingEvents]) else h
    case StatusPosted(_, _, continueAsNew) =>
      if continueAsNew then h.(trail := h.trail + [ContinuedAsNew], provenance := map[]) else h
    case _ => h
  }

  function ObserveUpdate(cfg: Config, m: Machine, step: Step, h: History): History
    requires Enabled(m, step) && !MovesMain(step)
  {
    match step
    case RequestPush(tid, request) =>
      var key := cfg.KeyAt(m.state.iterations);
      if key !in m.state.operations then
        h.(trail := h.trail + [RecordCreated(key, tid, request.commitMessage, m.state.iterations)],
           provenance := h.provenance[key := Provenance(|h.trail|, 0)])
      else if m.state.operations[key].status.Pending? then h
      else h.Return(m.state.operations[key])
    case ApprovalComment(c) =>
      (match DecisionFor(cfg, c)
       case None => h
       case Some(d) =>
         if d.approvalId !in m.approvals then h
         else
           h.(trail := h.trail + [Decided(d.approvalId, d.allowed, c)],
              provenance := h.provenance[d.approvalId := h.Origin(d.approvalId).(decided := |h.trail|)]))
    case ResumeWithDecision(tid) =>
      var key := m.tasks[tid].key;
      if key !in m.approvals then h
      else if m.approvals[key].allowed then
        h.(trail := h.trail + [PushStarted(key, tid, m.tasks[tid].message, h.Origin(key).created, h.Origin(key).decided)])
          .Forget(key)
      else h.Forget(key).Return(DeniedResult(key, m.approvals[key].reason))
    case DecisionTimeout(tid) =>
      h.Forget(m.tasks[tid].key).Return(DeniedResult(m.tasks[tid].key, "approval timed out"))
    case PushCompleted(tid, pushed) =>
      h.(completions := h.completions + [Completion(m.tasks[tid].key, pushed)])
        .Return(PushResult(m.tasks[tid].key, pushed))
    case ResumeWithResult(tid) =>
      var key := m.tasks[tid].key;
      if key in m.state.operations then h.Return(m.state.operations[key]) else h
    case _ => h
  }

  function Observe(cfg: Config, m: Machine, step: Step, h: History): History
    requires Enabled(m, step)
  {
    if MovesMain(step) then ObserveMain(m, step, h) else ObserveUpdate(cfg, m, step, h)
  }

  function Begin(init: WorkflowState): World {
    World(Machine.Start(init), History([], 0, [], [], map[], [], []))
  }

  function Next(cfg: Config, w: World, step: Step): World {
    if Enabled(w.m, step) then World(After(cfg, w.m, step), Observe(cfg, w.m, step, w.h)) else w
  }

  function Run(cfg: Config, w: World, steps: seq<Step>): World
    decreases |steps|
  {
    if steps == [] then w else Run(cfg, Next(cfg, w, steps[0]), steps[1..])
  }

  lemma {:induction false} RunAppend(cfg: Config, w: World, first: seq<Step>, second: seq<Step>)
    ensures Run(cfg, w, first + second) == Run(cfg, Run(cfg, w, first), second)
    decreases |first|
  {
    if first == [] {
      assert first + second == second;
    } else {
      assert (first + second)[1..] == first[1..] + second;
      RunAppend(cfg, Next(cfg, w, first[0]), first[1..], second);
    }
  }
}
