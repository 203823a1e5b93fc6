/** One commit per key also when attempts overlap and the clone is prepared under
    them: the guard is the same, at each commit of any attempt. */
module PublishOverlapCommits {
  import opened Sequences
  import opened Publish
  import opened PublishSafety
  import opened PublishOnce
  import opened PublishAttempt
  import opened PublishCommits
  import opened PublishOverlap

  predicate NoTurnRepeats(s: Shared, turns: seq<Turn>)
    decreases |turns|
  {
    turns == [] ||
    (Hygienic(turns[0].step) && !Repeats(s.As(turns[0].tid), turns[0].step) && NoTurnRepeats(NextTurn(s, turns[0]), turns[1..]))
  }

  ghost predicate AllSingle(s: Shared) {
    Single(s.repo) && forall tid :: tid in s.attempts ==> CleanAttempt(s.As(tid))
  }

  lemma FetchedStays(r: Repo, step: Step)
    requires r.fetched.Some?
    ensures Next(r, step).fetched.Some?
  {
    hide Lookup, Behind, FullMessage, HardReset, Ancestor;
  }

  lemma CleanElsewhere(r: Repo, r': Repo)
    requires CleanAttempt(r) && r'.attempt == r.attempt && (r.fetched.Some? ==> r'.fetched.Some?)
    ensures CleanAttempt(r')
  {
    hide IsKey, Unstamped;
  }

  lemma AllSingleNext(s: Shared, turn: Turn)
    requires AllSingle(s) && Hygienic(turn.step) && !Repeats(s.As(turn.tid), turn.step)
    ensures AllSingle(NextTurn(s, turn))
  {
    var r, s' := s.As(turn.tid), NextTurn(s, turn);
    assert Single(r) by {
      hide AtMostOne, IsKey, Unstamped;
    }
    SingleNext(r, turn.step);
    if r.fetched.Some? {
      FetchedStays(r, turn.step);
    }
    hide Next, AtMostOne, IsKey, Unstamped;
    forall tid | tid in s'.attempts ensures CleanAttempt(s'.As(tid)) {
      if tid == turn.tid {
        CleanElsewhere(Next(r, turn.step), s'.As(tid));
      } else {
        CleanElsewhere(s.As(tid), s'.As(tid));
      }
    }
  }

  lemma {:induction false} AllSingleTurns(s: Shared, turns: seq<Turn>)
    requires AllSingle(s) && NoTurnRepeats(s, turns)
    ensures AllSingle(RunTurns(s, turns))
    decreases |turns|
  {
    if turns != [] {
      AllSingleNext(s, turns[0]);
      hide NextTurn, AllSingle, Repeats, Hygienic;
      AllSingleTurns(NextTurn(s, turns[0]), turns[1..]);
    }
  }

  /** However many attempts overlap and wherever the clone is prepared: as long as
      no attempt commits for a key that HEAD holds already while HEAD contains the
      branch, the branch never holds two commits of one key. */
  lemma OverlapOneCommitPerKey(s: Shared, turns: seq<Turn>)
    requires Start(s.repo) && s.Quiet() && NoTurnRepeats(s, turns)
    ensures AtMostOne(RunTurns(s, turns).repo.remote)
  {
    AllSingleTurns(s, turns);
  }

  // ---- and only as long ----

  ghost predicate ReachedTogether(s: Shared) {
    exists start: Shared, turns: seq<Turn> ::
      Start(start.repo) && start.Quiet() && NoTurnRepeats(start, turns) && s == RunTurns(start, turns)
  }

  lemma ReachedAllSingle(s: Shared)
    requires ReachedTogether(s)
    ensures AllSingle(s)
  {
    var start: Shared, turns: seq<Turn> :|
      Start(start.repo) && start.Quiet() && NoTurnRepeats(start, turns) && s == RunTurns(start, turns);
    assert AllSingle(start);
    hide AllSingle, RunTurns, NoTurnRepeats;
    AllSingleTurns(start, turns);
  }

  ghost predicate StaysSingleTogether(s: Shared) {
    forall later :: NoTurnRepeats(s, later) ==> AtMostOne(RunTurns(s, later).repo.remote)
  }

  lemma {:induction false} AloneRepeatsNothing(s: Shared, tid: nat, steps: seq<Step>)
    requires NoRepeats(s.As(tid), steps)
    ensures NoTurnRepeats(s, TurnsOf(tid, steps))
    decreases |steps|
  {
    if steps != [] {
      var turns := TurnsOf(tid, steps);
      assert turns[1..] == TurnsOf(tid, steps[1..]);
      var s1 := NextTurn(s, turns[0]);
      assert s1.As(tid) == Next(s.As(tid), steps[0]);
      hide Next, Repeats, Hygienic;
      AloneRepeatsNothing(s1, tid, steps[1..]);
    }
  }

  lemma TogetherBreaks(s: Shared, a: nat, step: Step)
    requires AllSingle(s) && Repeats(s.As(a), step)
    ensures !StaysSingleTogether(NextTurn(s, Turn(a, step)))
  {
    var r := s.As(a);
    assert Single(r) by {
      hide AtMostOne, IsKey, Unstamped;
    }
    var r1 := Next(r, step);
    RepeatLandsTwo(r, step);
    var s1 := NextTurn(s, Turn(a, step));
    assert s1.As(a) == r1;
    hide Next, Run, RunTurns, NoRepeats, NoTurnRepeats, TurnsOf, AtMostOne;
    PublishingRepeatsNothing(r1);
    AloneRepeatsNothing(s1, a, PUBLISHING);
    Alone(s1, a, PUBLISHING);
    assert !AtMostOne(RunTurns(s1, TurnsOf(a, PUBLISHING)).repo.remote);
  }

  /** Exactly, as for one attempt at a time: whatever the others do later, a commit
      leaves the branch at one commit a key if and only if HEAD held no commit of
      the key before, or did not contain the branch. */
  lemma OverlapOneCommitExactly(s: Shared, a: nat, step: Step)
    requires ReachedTogether(s) && Enabled(s.As(a), step) && step.CommitStaged? && s.repo.index != s.repo.head.tree
    ensures StaysSingleTogether(NextTurn(s, Turn(a, step))) <==>
            Newest(s.repo.head, s.As(a).attempt.key).None? || !Ancestor(s.repo.remote, s.repo.head)
  {
    ReachedAllSingle(s);
    if Repeats(s.As(a), step) {
      hide Next, NextTurn, AllSingle, StaysSingleTogether;
      TogetherBreaks(s, a, step);
    } else {
      AllSingleNext(s, Turn(a, step));
      var s1 := NextTurn(s, Turn(a, step));
      hide Next, NextTurn, AllSingle, RunTurns, NoTurnRepeats, Ancestor, Newest;
      forall later | NoTurnRepeats(s1, later) ensures AtMostOne(RunTurns(s1, later).repo.remote) {
        AllSingleTurns(s1, later);
        AllSingleIsAtMostOne(RunTurns(s1, later));
      }
    }
  }

  lemma AllSingleIsAtMostOne(s: Shared)
    requires AllSingle(s)
    ensures AtMostOne(s.repo.remote)
  {
  }
}
