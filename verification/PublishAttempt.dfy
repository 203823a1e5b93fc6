/** One undisturbed attempt, from any clone: exactly what it does. */
module PublishAttempt {
  import opened Sequences
  import opened Publish
  import opened PublishSafety

  // ---- runs of a few steps ----

  lemma RunThree(r: Repo, a: Step, b: Step, c: Step)
    ensures Run(r, [a, b, c]) == Next(Next(Next(r, a), b), c)
  {
    NoSteps(r);
    hide Next, Run;
    assert [] + [a] == [a] && [a] + [b] == [a, b] && [a, b] + [c] == [a, b, c];
    RunSnoc(r, [], a);
    RunSnoc(r, [a], b);
    RunSnoc(r, [a, b], c);
  }

  function Looking(message: string, key: string): seq<Step> {
    [Begin(message, key), Fetch(None), LookUp(false)]
  }

  function Committing(stamp: nat): seq<Step> {
    [Stage, DiffCached, CommitStaged(stamp)]
  }

  const PUBLISHING: seq<Step> := [ReadHead, CountBehind, Push(true, Reported)]

  function Finishing(stamp: nat): seq<Step> {
    Committing(stamp) + PUBLISHING
  }

  function Undisturbed(message: string, key: string, stamp: nat): seq<Step> {
    Looking(message, key) + Finishing(stamp)
  }

  // ---- what they do ----

  /** The commit an attempt makes of the tree as it is. */
  function CommitOf(r: Repo, message: string, key: string, stamp: nat): Commit {
    Commit(Some(r.head), r.worktree, FullMessage(message, key), stamp)
  }

  /** Reading HEAD, counting and pushing: refused by the count, refused by the
      server, already there, or an advance. */
  function AfterPublishing(r: Repo): Repo
    requires r.attempt.Unread? && r.fetched.Some?
  {
    var key, sha := r.attempt.key, r.head;
    if !Ancestor(r.fetched.value, sha) then r.Finish(key, Result(false, Some(sha), "remote_advanced"), RemoteAdvanced)
    else if !Ancestor(r.remote, sha) then r.Finish(key, Result(false, Some(sha), "rejected"), PushFailed)
    else if r.remote == sha then r.Finish(key, Result(true, Some(sha), ""), PushedNow)
    else
      r.(remote := sha, log := r.log + [Advanced(key, r.remote, sha)])
        .Finish(key, Result(true, Some(sha), ""), PushedNow)
  }

  lemma PublishingExactly(r: Repo)
    requires r.attempt.Unread? && r.fetched.Some?
    ensures Run(r, PUBLISHING) == AfterPublishing(r)
  {
    RunThree(r, ReadHead, CountBehind, Push(true, Reported));
    BehindZero(r.head, r.fetched.value);
    hide Run, Behind, Ancestor;
    var r2 := Next(Next(r, ReadHead), CountBehind);
    if Ancestor(r.fetched.value, r.head) {
      assert r2 == r.(attempt := UpToDate(r.attempt.key, r.head));
    } else {
      assert r2.attempt.Idle?;
    }
  }

  lemma CommittingExactly(r: Repo, stamp: nat)
    requires r.attempt.Missed?
    ensures var added := r.(index := r.worktree);
            Run(r, Committing(stamp)) ==
              if r.worktree == r.head.tree
              then added.Finish(r.attempt.key, Result(false, None, "no_changes"), NoChanges)
              else added.(head := CommitOf(r, r.attempt.message, r.attempt.key, stamp), attempt := Unread(r.attempt.key))
  {
    RunThree(r, Stage, DiffCached, CommitStaged(stamp));
    hide Run, FullMessage;
  }

  /** A fetch that fails ends the attempt with what git said and changes nothing; a
      lookup that fails passes for a miss; a push that is answered with an error is reported with the commit and what git
      said, whether the branch was advanced or not. */
  lemma FailuresAreReported(r: Repo, message: string, key: string, error: string, delivered: bool)
    ensures r.attempt.Idle? ==>
              Run(r, [Begin(message, key), Fetch(Some(error)), Stage])
                == r.(log := r.log + [Finished(key, Result(false, None, error), FetchFailed)])
    ensures r.attempt.Fetched? && r.fetched.Some? ==>
              Run(r, [LookUp(true), ReadHead, CountBehind])
                == r.(attempt := Missed(r.attempt.message, r.attempt.key))
    ensures r.attempt.UpToDate? ==>
              var r' := Run(r, [Push(delivered, Failing(error)), ReadHead, Stage]);
              && r' == r.(attempt := Idle, remote := r'.remote, log := r'.log)
              && r'.remote == (if delivered && Ancestor(r.remote, r.head) then r.head else r.remote)
              && r'.log != [] && Last(r'.log)
                   == Finished(r.attempt.key, Result(false, Some(r.attempt.sha), error), PushFailed)
  {
    RunThree(r, Begin(message, key), Fetch(Some(error)), Stage);
    RunThree(r, Push(delivered, Failing(error)), ReadHead, Stage);
    RunThree(r, LookUp(true), ReadHead, CountBehind);
    hide Run, Ancestor;
  }

  predicate NeedsAttempt(s: Step) {
    s.Stage? || s.DiffCached? || s.CommitStaged? || s.ReadHead? || s.CountBehind? || s.Push?
  }

  lemma {:induction false} NothingWhenIdle(r: Repo, steps: seq<Step>)
    requires r.attempt.Idle? && forall s :: s in steps ==> NeedsAttempt(s)
    ensures Run(r, steps) == r
    decreases |steps|
  {
    if steps != [] {
      assert steps[0] in steps;
      NothingWhenIdle(r, steps[1..]);
    }
  }

  /** From the lookup on: nothing to commit, or a commit and what becomes of it. */
  function AfterFinishing(r: Repo, stamp: nat): Repo
    requires r.attempt.Missed? && r.fetched.Some?
  {
    var key := r.attempt.key;
    var added := r.(index := r.worktree);
    if r.worktree == r.head.tree then added.Finish(key, Result(false, None, "no_changes"), NoChanges)
    else AfterPublishing(added.(head := CommitOf(r, r.attempt.message, key, stamp), attempt := Unread(key)))
  }

  lemma FinishingExactly(r: Repo, stamp: nat)
    requires r.attempt.Missed? && r.fetched.Some?
    ensures Run(r, Finishing(stamp)) == AfterFinishing(r, stamp)
  {
    hide Run, Next, FullMessage, Ancestor;
    CommittingExactly(r, stamp);
    RunAppend(r, Committing(stamp), PUBLISHING);
    var r3 := Run(r, Committing(stamp));
    if r3.attempt.Idle? {
      NothingWhenIdle(r3, PUBLISHING);
    } else {
      PublishingExactly(r3);
    }
  }

  /** Such an attempt advances the branch exactly if the tree holds changes, HEAD is
      not behind what was fetched nor behind the branch, and the branch is not at
      the new commit already; nothing else matters, not even the key. */
  lemma FinishingAdvancesExactly(r: Repo, stamp: nat)
    requires r.attempt.Missed? && r.fetched.Some?
    ensures var sha := CommitOf(r, r.attempt.message, r.attempt.key, stamp);
            Run(r, Finishing(stamp)).remote != r.remote <==>
            r.worktree != r.head.tree && Ancestor(r.fetched.value, sha) && Ancestor(r.remote, sha) && r.remote != sha
    ensures Run(r, Finishing(stamp)).remote in {r.remote, CommitOf(r, r.attempt.message, r.attempt.key, stamp)}
  {
    FinishingExactly(r, stamp);
    hide Run, FullMessage, Ancestor;
  }

  /** A branch that somebody else moves on between the fetch and the push: the
      attempt commits, is refused and leaves the branch with the foreign commit. */
  lemma OvertakenIsRefused(r: Repo, tree: Tree, message: string, foreign: nat, stamp: nat)
    requires r.attempt.Missed? && r.fetched == Some(r.remote) && Ancestor(r.remote, r.head) && r.worktree != r.head.tree
    ensures var theirs := Commit(Some(r.remote), tree, message, foreign);
            var sha := CommitOf(r, r.attempt.message, r.attempt.key, stamp);
            !Ancestor(theirs, sha) ==>
              var r' := Run(r, [Append(tree, message, foreign)] + Finishing(stamp));
              r' == r.(attempt := Idle, head := sha, index := r.worktree, remote := theirs,
                       log := r.log + [Finished(r.attempt.key, Result(false, Some(sha), "rejected"), PushFailed)])
  {
    var theirs := Commit(Some(r.remote), tree, message, foreign);
    var r1 := r.(remote := theirs);
    NoSteps(r);
    RunSnoc(r, [], Append(tree, message, foreign));
    assert [] + [Append(tree, message, foreign)] == [Append(tree, message, foreign)];
    RunAppend(r, [Append(tree, message, foreign)], Finishing(stamp));
    FinishingExactly(r1, stamp);
    hide Run, FullMessage, Finishing;
  }

  predicate IsFound(r: Repo, key: string) {
    Newest(r.remote, key).Some? && OnTop(r.remote, key) < 50
  }

  lemma LookingExactly(r: Repo, message: string, key: string)
    requires r.attempt.Idle?
    ensures var fetched := r.(fetched := Some(r.remote));
            Run(r, Looking(message, key)) ==
              if IsFound(r, key) then fetched.Finish(key, Result(true, Newest(r.remote, key), ""), AlreadyThere)
              else fetched.(attempt := Missed(message, key))
  {
    LookupExact(r.remote, key, FETCH_DEPTH);
    RunThree(r, Begin(message, key), Fetch(None), LookUp(false));
    hide Run, Lookup, Carries, FullMessage;
  }

  /** A keyed commit at the branch would have been found. */
  lemma UnfoundIsNotThere(r: Repo, message: string, key: string, stamp: nat)
    requires !IsFound(r, key)
    ensures r.remote != CommitOf(r, message, key, stamp)
  {
    if r.remote == CommitOf(r, message, key, stamp) {
      CarriesOwnKey(message, key);
      assert Newest(r.remote, key) == Some(r.remote) && OnTop(r.remote, key) == 0;
    }
  }

  /** What an undisturbed attempt leaves, whatever clone it starts in. */
  function Outcome(r: Repo, message: string, key: string, stamp: nat): Repo {
    var fetched, sha := r.(fetched := Some(r.remote)), CommitOf(r, message, key, stamp);
    var committed := fetched.(index := r.worktree, head := sha);
    if IsFound(r, key) then fetched.Finish(key, Result(true, Newest(r.remote, key), ""), AlreadyThere)
    else if r.worktree == r.head.tree then
      fetched.(index := r.worktree).Finish(key, Result(false, None, "no_changes"), NoChanges)
    else if !Ancestor(r.remote, r.head) then
      committed.Finish(key, Result(false, Some(sha), "remote_advanced"), RemoteAdvanced)
    else
      committed.(remote := sha, log := r.log + [Advanced(key, r.remote, sha)])
        .Finish(key, Result(true, Some(sha), ""), PushedNow)
  }

  lemma UndisturbedExactly(r: Repo, message: string, key: string, stamp: nat)
    requires r.attempt.Idle?
    ensures Run(r, Undisturbed(message, key, stamp)) == Outcome(r, message, key, stamp)
  {
    var sha := CommitOf(r, message, key, stamp);
    assert Ancestor(r.remote, sha) <==> r.remote == sha || Ancestor(r.remote, r.head);
    hide Run, Next, FullMessage, Ancestor, IsFound, Newest;
    LookingExactly(r, message, key);
    RunAppend(r, Looking(message, key), Finishing(stamp));
    var r3 := Run(r, Looking(message, key));
    if r3.attempt.Idle? {
      NothingWhenIdle(r3, Finishing(stamp));
    } else {
      FinishingExactly(r3, stamp);
      UnfoundIsNotThere(r, message, key, stamp);
    }
  }

  /** An undisturbed attempt advances the branch exactly if the tree holds changes,
      HEAD contains the branch, and no commit that carries the key is among the
      newest 50 of the branch: a key buried deeper is published again. */
  lemma AttemptAdvancesExactly(r: Repo, message: string, key: string, stamp: nat)
    requires r.attempt.Idle?
    ensures var r' := Run(r, Undisturbed(message, key, stamp));
            && (r'.remote != r.remote <==>
                  !IsFound(r, key) && r.worktree != r.head.tree && Ancestor(r.remote, r.head))
            && r'.remote in {r.remote, CommitOf(r, message, key, stamp)}
  {
    UndisturbedExactly(r, message, key, stamp);
    hide Run, Ancestor, Newest, OnTop, FullMessage;
    if !IsFound(r, key) {
      UnfoundIsNotThere(r, message, key, stamp);
    }
  }
}
