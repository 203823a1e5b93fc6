/** How many commits of one key the branch holds: at most one, exactly as long as
    no attempt commits on a HEAD that holds one already and could be published. */
module PublishCommits {
  import opened Sequences
  import opened Publish
  import opened PublishSafety
  import opened PublishOnce
  import opened PublishAttempt

  // ---- counting ----

  /** The number of commits of a history that carry the key. */
  function Keyed(c: Commit, key: string): nat {
    (if Carries(c.message, key) then 1 else 0) + (if c.parent.Some? then Keyed(c.parent.value, key) else 0)
  }

  ghost predicate AtMostOne(c: Commit) {
    forall key :: IsKey(key) ==> Keyed(c, key) <= 1
  }

  lemma {:induction false} KeyedGrows(a: Commit, c: Commit, key: string)
    requires Ancestor(a, c)
    ensures Keyed(a, key) <= Keyed(c, key)
    decreases c
  {
    if a != c {
      KeyedGrows(a, c.parent.value, key);
    }
  }

  lemma AtMostOneBelow(a: Commit, c: Commit)
    requires Ancestor(a, c) && AtMostOne(c)
    ensures AtMostOne(a)
  {
    forall key | IsKey(key) ensures Keyed(a, key) <= 1 {
      KeyedGrows(a, c, key);
    }
  }

  /** None counted, none found. */
  lemma {:induction false} KeyedNewest(c: Commit, key: string)
    ensures Keyed(c, key) == 0 <==> Newest(c, key).None?
  {
    if !Carries(c.message, key) && c.parent.Some? {
      KeyedNewest(c.parent.value, key);
    }
  }

  lemma KeyedStamped(r: Repo, message: string, key: string, tree: Tree, stamp: nat)
    requires IsKey(key) && Unstamped(message)
    ensures forall k :: IsKey(k) ==>
              Keyed(Commit(Some(r.head), tree, FullMessage(message, key), stamp), k)
              == Keyed(r.head, k) + (if k == key then 1 else 0)
  {
    forall k | IsKey(k)
      ensures Keyed(Commit(Some(r.head), tree, FullMessage(message, key), stamp), k)
           == Keyed(r.head, k) + (if k == key then 1 else 0)
    {
      StampCarriesOnlyItsKey(message, key, k);
      hide Carries;
    }
  }

  lemma KeyedForeign(c: Commit, tree: Tree, message: string, stamp: nat)
    requires Unstamped(message)
    ensures forall k :: Keyed(Commit(Some(c), tree, message, stamp), k) == Keyed(c, k)
  {
    forall k ensures Keyed(Commit(Some(c), tree, message, stamp), k) == Keyed(c, k) {
      UnstampedCarriesNothing(message, k);
    }
  }

  // ---- the guard ----

  /** A commit for a key on a HEAD that holds one of that key, and the branch below it. */
  predicate Repeats(r: Repo, step: Step) {
    step.CommitStaged? && Enabled(r, step) && r.index != r.head.tree &&
    Newest(r.head, r.attempt.key).Some? && Ancestor(r.remote, r.head)
  }

  predicate NoRepeats(r: Repo, steps: seq<Step>)
    decreases |steps|
  {
    steps == [] ||
    (Hygienic(steps[0]) && !Repeats(r, steps[0]) && NoRepeats(Next(r, steps[0]), steps[1..]))
  }

  // ---- the invariant ----

  predicate CleanAttempt(r: Repo) {
    match r.attempt
    case Idle => true
    case Begun(message, key) => IsKey(key) && Unstamped(message)
    case Fetched(message, key) => IsKey(key) && Unstamped(message) && r.fetched.Some?
    case Missed(message, key) => IsKey(key) && Unstamped(message) && r.fetched.Some?
    case Added(message, key) => IsKey(key) && Unstamped(message) && r.fetched.Some?
    case Staged(message, key) => IsKey(key) && Unstamped(message) && r.fetched.Some?
    case Unread(key) => IsKey(key) && r.fetched.Some?
    case Committed(key, _) => IsKey(key) && r.fetched.Some?
    case UpToDate(key, _) => IsKey(key) && r.fetched.Some?
  }

  /** The branch holds at most one commit a key, and so does HEAD if it can be pushed. */
  ghost predicate Single(r: Repo) {
    && CleanAttempt(r)
    && (r.fetched.Some? ==> Ancestor(r.fetched.value, r.remote))
    && AtMostOne(r.remote)
    && (Ancestor(r.remote, r.head) ==> AtMostOne(r.head))
  }

  lemma CommitSingle(r: Repo, step: Step)
    requires Single(r) && Enabled(r, step) && step.CommitStaged? && !Repeats(r, step)
    ensures Single(Next(r, step))
  {
    var r' := Next(r, step);
    if r.index != r.head.tree {
      var key := r.attempt.key;
      KeyedStamped(r, r.attempt.message, key, r.index, step.stamp);
      KeyedNewest(r.head, key);
      hide Unstamped, FullMessage, Newest, Keyed, IsKey;
      if r.remote == r'.head {
        assert AtMostOne(r'.head);
      } else if Ancestor(r.remote, r.head) {
        assert AtMostOne(r.head) && Keyed(r.head, key) == 0;
      }
    }
  }

  lemma AppendSingle(r: Repo, step: Step)
    requires Single(r) && step.Append? && Hygienic(step)
    ensures Single(Next(r, step))
  {
    KeyedForeign(r.remote, step.tree, step.message, step.stamp);
    hide Unstamped, Keyed, IsKey;
    var r' := Next(r, step);
    assert Ancestor(r.remote, r'.remote) by {
      assert Ancestor(r.remote, r.remote);
    }
    if r.fetched.Some? {
      AncestorTransitive(r.fetched.value, r.remote, r'.remote);
    }
    if Ancestor(r'.remote, r.head) {
      AncestorTransitive(r.remote, r'.remote, r.head);
    }
  }

  lemma ResetSingle(r: Repo, step: Step)
    requires Single(r) && Enabled(r, step) && step.PrepareReset?
    ensures Single(Next(r, step))
  {
    hide HardReset, Keyed, IsKey;
    AtMostOneBelow(r.fetched.value, r.remote);
  }

  lemma PushSingle(r: Repo, step: Step)
    requires Single(r) && Enabled(r, step) && step.Push?
    ensures Single(Next(r, step))
  {
    hide AtMostOne, IsKey;
    if Ancestor(r.remote, r.head) && r.fetched.Some? {
      AncestorTransitive(r.fetched.value, r.remote, r.head);
    }
  }

  lemma OtherSingle(r: Repo, step: Step)
    requires Single(r) && Enabled(r, step) && Hygienic(step)
    requires !step.CommitStaged? && !step.Append? && !step.PrepareReset? && !step.Push?
    ensures Single(Next(r, step))
  {
    hide AtMostOne, IsKey, Unstamped, Lookup, Behind;
    assert Ancestor(r.remote, r.remote);
  }

  lemma SingleNext(r: Repo, step: Step)
    requires Single(r) && Hygienic(step) && !Repeats(r, step)
    ensures Single(Next(r, step))
  {
    hide After, Single, Repeats;
    if Enabled(r, step) {
      match step
      case CommitStaged(_) => CommitSingle(r, step);
      case Append(_, _, _) => AppendSingle(r, step);
      case PrepareReset => ResetSingle(r, step);
      case Push(_, _) => PushSingle(r, step);
      case _ => OtherSingle(r, step);
    }
  }

  lemma {:induction false} SingleRun(r: Repo, steps: seq<Step>)
    requires Single(r) && NoRepeats(r, steps)
    ensures Single(Run(r, steps))
    decreases |steps|
  {
    if steps != [] {
      SingleNext(r, steps[0]);
      hide Next, Single, Repeats, Hygienic;
      SingleRun(Next(r, steps[0]), steps[1..]);
    }
  }

  ghost predicate Start(r: Repo) {
    Initial(r) && AtMostOne(r.remote) && AtMostOne(r.head)
  }

  /** One commit per operation: in every run in which no attempt commits for a key
      that the HEAD it pushes holds already, the branch never holds two commits of
      one key, whatever the lookups find or miss. */
  lemma OneCommitPerKey(r: Repo, steps: seq<Step>)
    requires Start(r) && NoRepeats(r, steps)
    ensures AtMostOne(Run(r, steps).remote)
  {
    SingleRun(r, steps);
  }

  // ---- and only as long ----

  /** A clone reached by such a run. */
  ghost predicate Reached(r: Repo) {
    exists start: Repo, steps: seq<Step> :: Start(start) && NoRepeats(start, steps) && r == Run(start, steps)
  }

  lemma ReachedSingle(r: Repo)
    requires Reached(r)
    ensures Single(r)
  {
    var start: Repo, steps: seq<Step> :| Start(start) && NoRepeats(start, steps) && r == Run(start, steps);
    assert Single(start);
    hide Single, Run, NoRepeats;
    SingleRun(start, steps);
  }

  ghost predicate StaysSingle(r: Repo) {
    forall later :: NoRepeats(r, later) ==> AtMostOne(Run(r, later).remote)
  }

  lemma PublishingRepeatsNothing(r: Repo)
    ensures NoRepeats(r, PUBLISHING)
  {
    assert PUBLISHING[1..] == [CountBehind, Push(true, Reported)];
    assert PUBLISHING[1..][1..] == [Push(true, Reported)];
    assert PUBLISHING[1..][1..][1..] == [];
    hide Next;
    var r1 := Next(r, ReadHead);
    assert NoRepeats(Next(r1, CountBehind), [Push(true, Reported)]);
    assert NoRepeats(r1, [CountBehind, Push(true, Reported)]);
  }

  /** Committed against the guard and published undisturbed, there are two. */
  lemma RepeatLandsTwo(r: Repo, step: Step)
    requires Single(r) && Repeats(r, step)
    ensures !AtMostOne(Run(Next(r, step), PUBLISHING).remote)
  {
    var key, r1 := r.attempt.key, Next(r, step);
    KeyedStamped(r, r.attempt.message, key, r.index, step.stamp);
    KeyedNewest(r.head, key);
    assert Ancestor(r.head, r1.head) by {
      assert Ancestor(r.head, r.head);
    }
    hide Next, Run, FullMessage, Newest, IsKey, Unstamped, Ancestor;
    AncestorTransitive(r.remote, r.head, r1.head);
    AncestorTransitive(r.fetched.value, r.remote, r1.head);
    PublishingExactly(r1);
    assert Run(r1, PUBLISHING).remote == r1.head && Keyed(r1.head, key) > 1;
  }

  lemma RepeatBreaks(r: Repo, step: Step)
    requires Single(r) && Repeats(r, step)
    ensures !StaysSingle(Next(r, step))
  {
    hide Next, Run, Single, Repeats, NoRepeats, AtMostOne;
    RepeatLandsTwo(r, step);
    PublishingRepeatsNothing(Next(r, step));
  }

  /** Exactly: once an attempt has committed, the branch keeps to one commit a key,
      whatever follows, if and only if HEAD held no commit of the key before, or did
      not contain the branch and so can never be pushed. */
  lemma OneCommitExactly(r: Repo, step: Step)
    requires Reached(r) && Enabled(r, step) && step.CommitStaged? && r.index != r.head.tree
    ensures StaysSingle(Next(r, step)) <==> Newest(r.head, r.attempt.key).None? || !Ancestor(r.remote, r.head)
  {
    ReachedSingle(r);
    if Repeats(r, step) {
      hide Next, Single, StaysSingle;
      RepeatBreaks(r, step);
    } else {
      SingleNext(r, step);
      var r1 := Next(r, step);
      hide Next, Single, Run, NoRepeats, Ancestor, Newest;
      forall later | NoRepeats(r1, later) ensures AtMostOne(Run(r1, later).remote) {
        SingleRun(r1, later);
        SingleIsAtMostOne(Run(r1, later));
      }
    }
  }

  lemma SingleIsAtMostOne(r: Repo)
    requires Single(r)
    ensures AtMostOne(r.remote)
  {
  }

  // ---- how it comes to that: a crash between commit and push, and an edit ----

  lemma HeadIsKeyed(r: Repo)
    requires Sound(r) && (r.attempt.Unread? || r.attempt.Committed? || r.attempt.UpToDate?)
    ensures Keyed(r.head, r.attempt.key) >= 1
  {
  }

  lemma CrashThenEdit(r: Repo, tree: Tree)
    ensures Run(r, [Crash, Edit(tree)]) == r.(attempt := Idle, worktree := tree)
  {
    NoSteps(r);
    RunSnoc(r, [], Crash);
    RunSnoc(r, [Crash], Edit(tree));
    assert [] + [Crash] == [Crash] && [Crash] + [Edit(tree)] == [Crash, Edit(tree)];
    hide Run;
  }

  /** An attempt cut short after its commit is not finished by its retry, which
      starts over on a HEAD that holds the commit. It finds the key published, or
      reports that there is nothing to publish exactly if nobody has edited the
      workspace since; if somebody has, it publishes two commits of the key at
      once, unless the branch has moved on. */
  lemma RetryAfterCommit(r: Repo, tree: Tree, message: string, key: string, stamp: nat)
    requires Sound(r) && (r.attempt.Unread? || r.attempt.Committed? || r.attempt.UpToDate?) && r.attempt.key == key
    requires IsKey(key) && Unstamped(message)
    ensures var r' := Run(r, [Crash, Edit(tree)] + Undisturbed(message, key, stamp));
            var sha := Commit(Some(r.head), tree, FullMessage(message, key), stamp);
            if IsFound(r, key) then
              r'.remote == r.remote &&
              r'.log == r.log + [Finished(key, Result(true, Newest(r.remote, key), ""), AlreadyThere)]
            else if tree == r.head.tree then
              r'.remote == r.remote &&
              r'.log == r.log + [Finished(key, Result(false, None, "no_changes"), NoChanges)]
            else if !Ancestor(r.remote, r.head) then
              r'.remote == r.remote &&
              r'.log == r.log + [Finished(key, Result(false, Some(sha), "remote_advanced"), RemoteAdvanced)]
            else
              && r'.remote == sha && Keyed(r'.remote, key) >= 2
              && r'.log == r.log + [Advanced(key, r.remote, sha)] +
                                   [Finished(key, Result(true, Some(sha), ""), PushedNow)]
  {
    hide Run, Keyed, Ancestor, Newest, OnTop, FullMessage, Unstamped, IsKey, Sound, Next;
    HeadIsKeyed(r);
    CrashThenEdit(r, tree);
    KeyedStamped(r, message, key, tree, stamp);
    var r2 := r.(attempt := Idle, worktree := tree);
    RunAppend(r, [Crash, Edit(tree)], Undisturbed(message, key, stamp));
    UndisturbedExactly(r2, message, key, stamp);
  }
}
