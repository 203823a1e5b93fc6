/** What happens to events over every run: none is handed out twice, and exactly
    those accepted while a `post_status` call is in flight are lost. */
module WorkflowEvents {
  import opened Sequences
  import opened Models
  import opened Workflow
  import opened WorkflowRuns
  import Gateway

  // ---- conservation ----

  /** The accepted events, in order of arrival, without those that arrived during
      a `post_status` call other than the given one. */
  function Survivors(arrivals: seq<Arrival>, post: nat): seq<GitHubEvent> {
    if arrivals == [] then []
    else
      var a := Last(arrivals);
      Survivors(DropLast(arrivals), post) + (if a.post == 0 || a.post == post then [a.event] else [])
  }

  lemma SurvivorsSnoc(arrivals: seq<Arrival>, a: Arrival, post: nat)
    ensures Survivors(arrivals + [a], post)
         == Survivors(arrivals, post) + (if a.post == 0 || a.post == post then [a.event] else [])
  {
    assert DropLast(arrivals + [a]) == arrivals;
  }

  lemma {:induction false} SurvivorsOfUnusedPost(arrivals: seq<Arrival>, post: nat)
    requires forall a :: a in arrivals ==> a.post < post
    ensures Survivors(arrivals, post) == Survivors(arrivals, 0)
  {
    if arrivals != [] {
      SurvivorsOfUnusedPost(DropLast(arrivals), post);
      assert Last(arrivals) in arrivals;
    }
  }

  /** The `post_status` call in flight, or 0. */
  function PostInFlight(w: World): nat {
    if w.m.at.Posting? then w.h.posts else 0
  }

  ghost predicate Conserved(init: WorkflowState, w: World) {
    && Flatten(w.h.handed) + w.m.state.pendingEvents
       == init.pendingEvents + Survivors(w.h.arrivals, PostInFlight(w))
    && (forall a :: a in w.h.arrivals ==> a.post <= w.h.posts)
    && (w.m.at.Posting? ==>
          w.h.posts > 0 &&
          Flatten(w.h.handed) + w.m.at.copy.pendingEvents == init.pendingEvents + Survivors(w.h.arrivals, 0))
  }

  lemma ConservedArrival(init: WorkflowState, w: World, event: GitHubEvent)
    requires Conserved(init, w) && Enabled(w.m, Step.OnEvent(event))
    requires event.deliveryId !in w.m.state.processedDeliveryIds
    ensures Conserved(init, World(w.m.OnEvent(event),
              w.h.(arrivals := w.h.arrivals + [Arrival(event, PostInFlight(w))])))
  {
    var a := Arrival(event, PostInFlight(w));
    SurvivorsSnoc(w.h.arrivals, a, PostInFlight(w));
    SurvivorsSnoc(w.h.arrivals, a, 0);
    var kept := Survivors(w.h.arrivals, PostInFlight(w));
    var out := Flatten(w.h.handed);
    assert out + (w.m.state.pendingEvents + [event]) == (out + w.m.state.pendingEvents) + [event];
    assert init.pendingEvents + (kept + [event]) == (init.pendingEvents + kept) + [event];
    assert Survivors(w.h.arrivals, 0) + [] == Survivors(w.h.arrivals, 0);
  }

  /** The steps that touch what this module speaks of. */
  predicate MovesEvents(step: Step) {
    step.OnEvent? || step.Wake? || step.IterationDone? || step.StatusPosted?
  }

  /** An update writes nothing of the state but operation records. */
  lemma UpdateFrame(cfg: Config, w: World, step: Step)
    requires !MovesMain(step)
    ensures var w' := Next(cfg, w, step);
            && w'.m.state == w.m.state.(operations := w'.m.state.operations) && w'.m.at == w.m.at
            && w'.h.handed == w.h.handed && w'.h.arrivals == w.h.arrivals && w'.h.posts == w.h.posts
  {
    hide DecisionFor, Config.KeyAt, AfterMain, ObserveMain;
  }

  lemma MainFrame(cfg: Config, w: World, step: Step)
    requires MovesMain(step) && !MovesEvents(step)
    ensures var w' := Next(cfg, w, step);
            && w'.m.state.pendingEvents == w.m.state.pendingEvents
            && w'.m.state.processedDeliveryIds == w.m.state.processedDeliveryIds
            && (w'.m.at.Posting? || w.m.at.Posting? ==> w'.m.at == w.m.at)
            && w'.h == w.h
  {
    hide AfterUpdate, ObserveUpdate;
  }

  lemma OtherStepsFrame(cfg: Config, w: World, step: Step)
    requires !MovesEvents(step)
    ensures var w' := Next(cfg, w, step);
            && w'.m.state.pendingEvents == w.m.state.pendingEvents
            && w'.m.state.processedDeliveryIds == w.m.state.processedDeliveryIds
            && w'.h.handed == w.h.handed && w'.h.arrivals == w.h.arrivals && w'.h.posts == w.h.posts
            && (w'.m.at.Posting? || w.m.at.Posting? ==> w'.m.at == w.m.at)
  {
    hide Next;
    if MovesMain(step) {
      MainFrame(cfg, w, step);
    } else {
      UpdateFrame(cfg, w, step);
    }
  }

  /** What those steps do to it. */
  lemma EventsStep(cfg: Config, w: World, step: Step)
    requires MovesEvents(step) && Enabled(w.m, step)
    ensures var w' := Next(cfg, w, step);
            match step
            case OnEvent(event) =>
              w' == (if event.deliveryId in w.m.state.processedDeliveryIds then w
                     else World(w.m.OnEvent(event), w.h.(arrivals := w.h.arrivals + [Arrival(event, PostInFlight(w))])))
            case Wake =>
              && w'.m.state.processedDeliveryIds == w.m.state.processedDeliveryIds && !w'.m.at.Posting?
              && w'.h.arrivals == w.h.arrivals && w'.h.posts == w.h.posts
              && if w'.m.at.Iterating?
                 then w'.h.handed == w.h.handed + [w.m.state.pendingEvents] && w'.m.state.pendingEvents == []
                 else w'.h.handed == w.h.handed && w'.m.state.pendingEvents == w.m.state.pendingEvents
            case IterationDone(_, _) =>
              && w'.m.at == Posting(w'.m.state)
              && w'.m.state.pendingEvents == w.m.state.pendingEvents
              && w'.m.state.processedDeliveryIds == w.m.state.processedDeliveryIds
              && w'.h == w.h.(posts := w.h.posts + 1)
            case StatusPosted(_, _, _) =>
              && !w'.m.at.Posting?
              && w'.m.state.pendingEvents == w.m.at.copy.pendingEvents
              && w'.m.state.processedDeliveryIds == w.m.at.copy.processedDeliveryIds
              && w'.h.handed == w.h.handed && w'.h.arrivals == w.h.arrivals && w'.h.posts == w.h.posts
            case _ => true
  {
    hide AfterUpdate, ObserveUpdate;
  }

  lemma ConservedNext(cfg: Config, init: WorkflowState, w: World, step: Step)
    requires Conserved(init, w)
    ensures Conserved(init, Next(cfg, w, step))
  {
    if !MovesEvents(step) {
      OtherStepsFrame(cfg, w, step);
      hide Next;
    } else if Enabled(w.m, step) {
      EventsStep(cfg, w, step);
      hide Next;
      match step
      case OnEvent(event) =>
        if event.deliveryId !in w.m.state.processedDeliveryIds {
          ConservedArrival(init, w, event);
        }
      case Wake =>
        FlattenSnoc(w.h.handed, w.m.state.pendingEvents);
        var out := Flatten(w.h.handed) + w.m.state.pendingEvents;
        assert out + [] == out;
      case IterationDone(_, _) =>
        SurvivorsOfUnusedPost(w.h.arrivals, w.h.posts + 1);
      case StatusPosted(_, _, _) =>
    }
  }

  lemma {:induction false} ConservedRun(cfg: Config, init: WorkflowState, w: World, steps: seq<Step>)
    requires Conserved(init, w)
    ensures Conserved(init, Run(cfg, w, steps))
    decreases |steps|
  {
    if steps != [] {
      ConservedNext(cfg, init, w, steps[0]);
      ConservedRun(cfg, init, Next(cfg, w, steps[0]), steps[1..]);
    }
  }

  /** First in, first out, at every point of every run: the snapshots handed to
      iterations, one after the other, followed by what is pending, are the
      events the chain started with followed by those accepted since, without
      exactly the ones accepted during a `post_status` call that has returned. */
  lemma EventsConserved(cfg: Config, init: WorkflowState, steps: seq<Step>)
    ensures var w := Run(cfg, Begin(init), steps);
            Flatten(w.h.handed) + w.m.state.pendingEvents
              == init.pendingEvents + Survivors(w.h.arrivals, PostInFlight(w))
  {
    var w := Begin(init);
    assert Survivors([], 0) == [] && Flatten<GitHubEvent>([]) == [];
    assert [] + init.pendingEvents == init.pendingEvents + [];
    ConservedRun(cfg, init, w, steps);
  }

  // ---- delivery ids ----

  predicate DistinctIds(events: seq<GitHubEvent>) {
    forall i, j :: 0 <= i < j < |events| ==> events[i].deliveryId != events[j].deliveryId
  }

  predicate IdsWithin(events: seq<GitHubEvent>, ids: set<string>) {
    forall i :: 0 <= i < |events| ==> events[i].deliveryId in ids
  }

  predicate FreshIds(events: seq<GitHubEvent>, ids: set<string>) {
    DistinctIds(events) && IdsWithin(events, ids)
  }

  ghost predicate NoRepeat(w: World) {
    var s := w.m.state;
    && FreshIds(Flatten(w.h.handed) + s.pendingEvents, s.processedDeliveryIds)
    && (w.m.at.Posting? ==>
          var c := w.m.at.copy;
          FreshIds(Flatten(w.h.handed) + c.pendingEvents, c.processedDeliveryIds))
  }

  lemma NoRepeatNext(cfg: Config, w: World, step: Step)
    requires NoRepeat(w)
    ensures NoRepeat(Next(cfg, w, step))
  {
    var out := Flatten(w.h.handed);
    if !MovesEvents(step) {
      OtherStepsFrame(cfg, w, step);
      hide Next;
    } else if Enabled(w.m, step) {
      EventsStep(cfg, w, step);
      hide Next;
      match step
      case OnEvent(event) =>
        assert out + (w.m.state.pendingEvents + [event]) == (out + w.m.state.pendingEvents) + [event];
      case Wake =>
        FlattenSnoc(w.h.handed, w.m.state.pendingEvents);
        var all := out + w.m.state.pendingEvents;
        assert all + [] == all;
      case IterationDone(_, _) =>
      case StatusPosted(_, _, _) =>
    }
  }

  lemma {:induction false} NoRepeatRun(cfg: Config, w: World, steps: seq<Step>)
    requires NoRepeat(w)
    ensures NoRepeat(Run(cfg, w, steps))
    decreases |steps|
  {
    if steps != [] {
      NoRepeatNext(cfg, w, steps[0]);
      NoRepeatRun(cfg, Next(cfg, w, steps[0]), steps[1..]);
    }
  }

  /** Over a whole chain no delivery id is handed out twice, nor handed out and
      still pending, nor pending twice, and every one of them is remembered; the
      copy that `post_status` brings back takes ids and events back together. */
  lemma NoDeliveryTwice(cfg: Config, init: WorkflowState, steps: seq<Step>)
    requires FreshIds(init.pendingEvents, init.processedDeliveryIds)
    ensures var w := Run(cfg, Begin(init), steps);
            FreshIds(Flatten(w.h.handed) + w.m.state.pendingEvents, w.m.state.processedDeliveryIds)
  {
    assert Flatten<GitHubEvent>([]) + init.pendingEvents == init.pendingEvents;
    NoRepeatRun(cfg, Begin(init), steps);
  }

  // ---- iterations ----

  ghost predicate Counted(init: WorkflowState, w: World) {
    && w.m.state.iterations == init.iterations + |w.h.handed|
    && (w.h.handed == [] || w.m.state.iterations <= MAX_ITERATIONS)
    && (forall snapshot :: snapshot in w.h.handed ==> snapshot != [])
    && (w.m.at.Waiting? || w.m.at.Woken? ==> w.m.state.iterations < MAX_ITERATIONS)
    && (w.m.at.Woken? ==> w.m.state.pendingEvents != [] || w.m.state.closed)
    && (w.m.at.Posting? ==> w.m.at.copy.iterations == w.m.state.iterations)
  }

  lemma CountedNext(cfg: Config, init: WorkflowState, w: World, step: Step)
    requires Counted(init, w)
    ensures Counted(init, Next(cfg, w, step))
  {
    if MovesMain(step) {
      CountedMain(cfg, init, w, step);
    } else {
      UpdateFrame(cfg, w, step);
      hide Next;
    }
  }

  lemma CountedMain(cfg: Config, init: WorkflowState, w: World, step: Step)
    requires Counted(init, w) && MovesMain(step)
    ensures Counted(init, Next(cfg, w, step))
  {
    hide Gateway.HandleComment, Config.KeyAt, AfterUpdate, ObserveUpdate;
  }

  lemma {:induction false} CountedRun(cfg: Config, init: WorkflowState, w: World, steps: seq<Step>)
    requires Counted(init, w)
    ensures Counted(init, Run(cfg, w, steps))
    decreases |steps|
  {
    if steps != [] {
      CountedNext(cfg, init, w, steps[0]);
      CountedRun(cfg, init, Next(cfg, w, steps[0]), steps[1..]);
    }
  }

  /** A chain hands the agent at most MAX_ITERATIONS snapshots, however often it
      continues as new, and never an empty one. */
  lemma IterationsBounded(cfg: Config, init: WorkflowState, steps: seq<Step>)
    requires init.iterations <= MAX_ITERATIONS
    ensures var w := Run(cfg, Begin(init), steps);
            && w.m.state.iterations == init.iterations + |w.h.handed| <= MAX_ITERATIONS
            && forall snapshot :: snapshot in w.h.handed ==> snapshot != []
  {
    CountedRun(cfg, init, Begin(init), steps);
  }

  // ---- operation keys ----

  function IterationKeys(cfg: Config, n: nat): (keys: set<string>)
    ensures |keys| <= n
    ensures forall i :: 0 <= i < n ==> cfg.KeyAt(i) in keys
  {
    if n == 0 then {} else IterationKeys(cfg, n - 1) + {cfg.KeyAt(n - 1)}
  }

  ghost predicate KeysFromIterations(cfg: Config, w: World) {
    forall i :: 0 <= i < |w.h.trail| && w.h.trail[i].RecordCreated? ==>
      w.h.trail[i].key in IterationKeys(cfg, MAX_ITERATIONS + 1)
  }

  lemma KeysNext(cfg: Config, init: WorkflowState, w: World, step: Step)
    requires init.iterations <= MAX_ITERATIONS && Counted(init, w) && KeysFromIterations(cfg, w)
    ensures KeysFromIterations(cfg, Next(cfg, w, step))
  {
    var w' := Next(cfg, w, step);
    if step.RequestPush? {
      assert cfg.KeyAt(w.m.state.iterations) in IterationKeys(cfg, MAX_ITERATIONS + 1);
      hide Config.KeyAt;
    } else {
      TrailFrame(cfg, w, step);
      hide Next;
    }
  }

  lemma TrailFrame(cfg: Config, w: World, step: Step)
    requires !step.RequestPush?
    ensures var before, after := w.h.trail, Next(cfg, w, step).h.trail;
            before <= after && forall i :: |before| <= i < |after| ==> !after[i].RecordCreated?
  {
    hide Gateway.HandleComment, Config.KeyAt;
    if MovesMain(step) {
      hide AfterUpdate, ObserveUpdate;
    } else {
      hide AfterMain, ObserveMain;
    }
  }

  lemma {:induction false} KeysRun(cfg: Config, init: WorkflowState, w: World, steps: seq<Step>)
    requires init.iterations <= MAX_ITERATIONS && Counted(init, w) && KeysFromIterations(cfg, w)
    ensures KeysFromIterations(cfg, Run(cfg, w, steps))
    decreases |steps|
  {
    if steps != [] {
      CountedNext(cfg, init, w, steps[0]);
      KeysNext(cfg, init, w, steps[0]);
      hide Next, Counted, KeysFromIterations;
      KeysRun(cfg, init, Next(cfg, w, steps[0]), steps[1..]);
    }
  }

  /** All the operation keys a chain ever creates lie in a set of at most MAX_ITERATIONS + 1. */
  lemma OperationKeysBounded(cfg: Config, init: WorkflowState, steps: seq<Step>)
    requires init.iterations <= MAX_ITERATIONS
    ensures exists keys: set<string> :: |keys| <= MAX_ITERATIONS + 1 &&
              forall mark :: mark in Run(cfg, Begin(init), steps).h.trail && mark.RecordCreated? ==> mark.key in keys
  {
    KeysRun(cfg, init, Begin(init), steps);
    var keys := IterationKeys(cfg, MAX_ITERATIONS + 1);
    assert forall mark :: mark in Run(cfg, Begin(init), steps).h.trail && mark.RecordCreated? ==> mark.key in keys;
  }
}
