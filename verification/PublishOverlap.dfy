/** Push attempts that overlap in one clone: they share HEAD, index, tree and
    FETCH_HEAD, and take turns command by command; the clone may be prepared by a
    new execution meanwhile. */
module PublishOverlap {
  import opened Sequences
  import opened Publish
  import opened PublishSafety
  import opened PublishOnce
  import opened PublishAttempt

  /** The clone, with every attempt that is at work in it. */
  datatype Shared = Shared(repo: Repo, attempts: map<nat, Attempt>) {
    predicate Quiet() {
      forall tid :: tid in attempts ==> attempts[tid].Idle?
    }

    /** The clone as one attempt sees it. */
    function As(tid: nat): Repo {
      repo.(attempt := if tid in attempts then attempts[tid] else Idle)
    }
  }

  datatype Turn = Turn(tid: nat, step: Step)

  function NextTurn(s: Shared, turn: Turn): Shared {
    var r := Next(s.As(turn.tid), turn.step);
    Shared(r.(attempt := Idle), s.attempts[turn.tid := r.attempt])
  }

  function RunTurns(s: Shared, turns: seq<Turn>): Shared
    decreases |turns|
  {
    if turns == [] then s else RunTurns(NextTurn(s, turns[0]), turns[1..])
  }

  lemma {:induction false} RunTurnsAppend(s: Shared, first: seq<Turn>, second: seq<Turn>)
    ensures RunTurns(s, first + second) == RunTurns(RunTurns(s, first), second)
    decreases |first|
  {
    if first == [] {
      assert first + second == second;
    } else {
      assert (first + second)[1..] == first[1..] + second;
      hide NextTurn;
      RunTurnsAppend(NextTurn(s, first[0]), first[1..], second);
    }
  }

  lemma RunTurn(s: Shared, turn: Turn)
    ensures RunTurns(s, [turn]) == NextTurn(s, turn)
  {
    hide NextTurn;
    assert [turn][1..] == [];
  }

  // ---- what nothing can spoil ----

  /** An advance is a fast-forward; a key found by the lookup is on the branch. */
  ghost predicate Truthful(remote: Commit, mark: Mark) {
    match mark
    case Advanced(_, before, after) => before != after && Ancestor(before, after) && Ancestor(after, remote)
    case Finished(key, result, exit) =>
      exit.AlreadyThere? ==>
        result.commit.Some? && Ancestor(result.commit.value, remote) && Carries(result.commit.value.message, key)
  }

  ghost predicate SeenSound(r: Repo) {
    && (r.fetched.Some? ==> Ancestor(r.fetched.value, r.remote))
    && (forall mark :: mark in r.log ==> Truthful(r.remote, mark))
  }

  lemma BranchGrows(r: Repo, step: Step)
    ensures Ancestor(r.remote, Next(r, step).remote)
  {
    hide Lookup, Behind, FullMessage, HardReset;
  }

  lemma TruthGrows(log: seq<Mark>, remote: Commit, later: Commit)
    requires Ancestor(remote, later) && forall mark :: mark in log ==> Truthful(remote, mark)
    ensures forall mark :: mark in log ==> Truthful(later, mark)
  {
    hide Carries;
    forall mark | mark in log ensures Truthful(later, mark) {
      assert Truthful(remote, mark);
      match mark
      case Advanced(_, _, after) => AncestorTransitive(after, remote, later);
      case Finished(_, result, exit) =>
        if exit.AlreadyThere? {
          AncestorTransitive(result.commit.value, remote, later);
        }
    }
  }

  lemma SeenRest(r: Repo, step: Step)
    requires SeenSound(r)
    ensures var r' := Next(r, step);
            && (forall mark :: mark in r.log ==> Truthful(r'.remote, mark))
            && (r.fetched.Some? ==> Ancestor(r.fetched.value, r'.remote))
            && Ancestor(r'.remote, r'.remote)
  {
    BranchGrows(r, step);
    TruthGrows(r.log, r.remote, Next(r, step).remote);
    hide Next, Truthful;
    if r.fetched.Some? {
      AncestorTransitive(r.fetched.value, r.remote, Next(r, step).remote);
    }
  }

  lemma FoundIsOnBranch(r: Repo, lost: bool)
    requires r.attempt.Fetched? && r.fetched.Some? && Ancestor(r.fetched.value, r.remote) && Found(r, lost).Some?
    ensures Ancestor(Found(r, lost).value, r.remote) && Carries(Found(r, lost).value.message, r.attempt.key)
  {
    LookupExact(r.fetched.value, r.attempt.key, FETCH_DEPTH);
    NewestIsNewest(r.fetched.value, r.attempt.key);
    hide Lookup, Carries;
    AncestorTransitive(Found(r, lost).value, r.fetched.value, r.remote);
  }

  lemma SeenLookUp(r: Repo, step: Step)
    requires SeenSound(r) && step.LookUp? && Enabled(r, step)
    ensures SeenSound(Next(r, step))
  {
    SeenRest(r, step);
    hide Carries, Lookup, Found;
    if Found(r, step.lost).Some? {
      FoundIsOnBranch(r, step.lost);
    }
  }

  lemma SeenPush(r: Repo, step: Step)
    requires SeenSound(r) && step.Push? && Enabled(r, step)
    ensures SeenSound(Next(r, step))
  {
    SeenRest(r, step);
    hide Carries;
  }

  lemma SeenOther(r: Repo, step: Step)
    requires SeenSound(r) && !step.LookUp? && !step.Push?
    ensures SeenSound(Next(r, step))
  {
    SeenRest(r, step);
    hide Carries, Behind, Lookup, FullMessage, HardReset, Ancestor;
  }

  lemma SeenNext(r: Repo, step: Step)
    requires SeenSound(r)
    ensures SeenSound(Next(r, step))
  {
    hide After, SeenSound;
    if Enabled(r, step) && step.LookUp? {
      SeenLookUp(r, step);
    } else if Enabled(r, step) && step.Push? {
      SeenPush(r, step);
    } else if !step.LookUp? && !step.Push? {
      SeenOther(r, step);
    }
  }

  lemma {:induction false} SoundTurns(s: Shared, turns: seq<Turn>)
    requires SeenSound(s.repo)
    ensures SeenSound(RunTurns(s, turns).repo) && Ancestor(s.repo.remote, RunTurns(s, turns).repo.remote)
    decreases |turns|
  {
    if turns != [] {
      var s1 := NextTurn(s, turns[0]);
      SeenNext(s.As(turns[0].tid), turns[0].step);
      BranchGrows(s.As(turns[0].tid), turns[0].step);
      hide Next, Truthful;
      assert SeenSound(s1.repo);
      SoundTurns(s1, turns[1..]);
      AncestorTransitive(s.repo.remote, s1.repo.remote, RunTurns(s, turns).repo.remote);
    }
  }

  /** However many attempts overlap, for whatever keys, however their commands
      interleave and wherever the clone is prepared: no commit that was ever on the
      branch is lost, every advance is a fast-forward, and a commit that a lookup
      found is on the branch and carries its key. */
  lemma OverlapLosesNothing(s: Shared, earlier: seq<Turn>, later: seq<Turn>)
    requires Initial(s.repo)
    ensures var now := RunTurns(s, earlier + later).repo;
            && Ancestor(RunTurns(s, earlier).repo.remote, now.remote)
            && forall mark :: mark in now.log ==> Truthful(now.remote, mark)
  {
    SoundTurns(s, earlier);
    RunTurnsAppend(s, earlier, later);
    SoundTurns(RunTurns(s, earlier), later);
  }

  // ---- what a reset can spoil ----

  predicate InHand(attempt: Attempt) {
    attempt.Unread? || attempt.Committed? || attempt.UpToDate?
  }

  /** The clone is not reset while an attempt is between its commit and its return. */
  predicate ResetsApart(s: Shared, turns: seq<Turn>)
    decreases |turns|
  {
    turns == [] ||
    ((turns[0].step.PrepareReset? ==> forall tid :: tid in s.attempts ==> !InHand(s.attempts[tid])) &&
     ResetsApart(NextTurn(s, turns[0]), turns[1..]))
  }

  /** What an attempt has committed, and what it read, is still below HEAD. */
  ghost predicate Kept(head: Commit, attempt: Attempt) {
    InHand(attempt) ==>
      Newest(head, attempt.key).Some? && (!attempt.Unread? ==> Ancestor(attempt.sha, head))
  }

  /** A success names a commit on the branch, and the branch holds one of the key. */
  ghost predicate Named(remote: Commit, mark: Mark) {
    mark.Finished? && mark.result.pushed ==>
      && mark.result.commit.Some? && Ancestor(mark.result.commit.value, remote)
      && Newest(remote, mark.key).Some?
  }

  ghost predicate AllKept(s: Shared) {
    && SeenSound(s.repo)
    && (forall tid :: tid in s.attempts ==> Kept(s.repo.head, s.attempts[tid]))
    && (forall mark :: mark in s.repo.log ==> Named(s.repo.remote, mark))
  }

  lemma NewestStays(a: Commit, c: Commit, key: string)
    requires Ancestor(a, c) && Newest(a, key).Some?
    ensures Newest(c, key).Some?
  {
    NewestIsNewest(a, key);
    NewestIsNewest(c, key);
    AncestorTransitive(Newest(a, key).value, a, c);
  }

  lemma KeptGrows(head: Commit, later: Commit, attempt: Attempt)
    requires Ancestor(head, later) && Kept(head, attempt)
    ensures Kept(later, attempt)
  {
    hide Newest;
    if InHand(attempt) {
      NewestStays(head, later, attempt.key);
      if !attempt.Unread? {
        AncestorTransitive(attempt.sha, head, later);
      }
    }
  }

  lemma NamedGrows(log: seq<Mark>, remote: Commit, later: Commit)
    requires Ancestor(remote, later) && forall mark :: mark in log ==> Named(remote, mark)
    ensures forall mark :: mark in log ==> Named(later, mark)
  {
    hide Newest;
    forall mark | mark in log ensures Named(later, mark) {
      assert Named(remote, mark);
      if mark.Finished? && mark.result.pushed {
        AncestorTransitive(mark.result.commit.value, remote, later);
        NewestStays(remote, later, mark.key);
      }
    }
  }

  /** HEAD moves up, except when the clone is reset. */
  lemma HeadGrows(r: Repo, step: Step)
    requires !step.PrepareReset?
    ensures Ancestor(r.head, Next(r, step).head)
  {
    hide Lookup, Behind, FullMessage, HardReset;
  }

  lemma OwnKept(r: Repo, step: Step)
    requires Kept(r.head, r.attempt) && (step.PrepareReset? ==> !InHand(r.attempt))
    ensures Kept(Next(r, step).head, Next(r, step).attempt)
  {
    if Enabled(r, step) && step.CommitStaged? {
      CarriesOwnKey(r.attempt.message, r.attempt.key);
    }
    hide Lookup, Behind, FullMessage, HardReset, Carries;
    assert Ancestor(r.head, r.head);
  }

  lemma NamedLookUp(r: Repo, step: Step)
    requires SeenSound(r) && Enabled(r, step) && step.LookUp? && Found(r, step.lost).Some?
    ensures Named(r.remote, Finished(r.attempt.key, Result(true, Found(r, step.lost), ""), AlreadyThere))
  {
    hide Found, Truthful;
    FoundIsOnBranch(r, step.lost);
    NewestIsNewest(r.remote, r.attempt.key);
  }

  lemma NamedNext(r: Repo, step: Step)
    requires SeenSound(r) && Kept(r.head, r.attempt) && forall mark :: mark in r.log ==> Named(r.remote, mark)
    ensures forall mark :: mark in Next(r, step).log ==> Named(Next(r, step).remote, mark)
  {
    BranchGrows(r, step);
    NamedGrows(r.log, r.remote, Next(r, step).remote);
    hide Lookup, Behind, FullMessage, HardReset, Carries, Found, Newest, SeenSound, Ancestor;
    if Enabled(r, step) && step.LookUp? {
      if Found(r, step.lost).Some? {
        NamedLookUp(r, step);
      }
    } else if Enabled(r, step) && step.Push? {
      NamedPush(r, step);
    }
  }

  lemma NamedPush(r: Repo, step: Step)
    requires Enabled(r, step) && step.Push? && Kept(r.head, r.attempt)
    requires forall mark :: mark in r.log ==> Named(Next(r, step).remote, mark)
    ensures forall mark :: mark in Next(r, step).log ==> Named(Next(r, step).remote, mark)
  {
    hide Newest;
  }

  lemma KeptNext(s: Shared, turn: Turn)
    requires AllKept(s) && ResetsApart(s, [turn])
    ensures AllKept(NextTurn(s, turn))
  {
    var r, head := s.As(turn.tid), NextTurn(s, turn).repo.head;
    assert Kept(s.repo.head, r.attempt);
    SeenNext(r, turn.step);
    OwnKept(r, turn.step);
    NamedNext(r, turn.step);
    if !turn.step.PrepareReset? {
      HeadGrows(r, turn.step);
    }
    hide Next, Truthful, Named, Newest;
    forall tid | tid in s.attempts && tid != turn.tid ensures Kept(head, s.attempts[tid]) {
      assert Kept(s.repo.head, s.attempts[tid]);
      if !turn.step.PrepareReset? {
        KeptGrows(s.repo.head, head, s.attempts[tid]);
      }
    }
  }

  lemma {:induction false} KeptTurns(s: Shared, turns: seq<Turn>)
    requires AllKept(s) && ResetsApart(s, turns)
    ensures AllKept(RunTurns(s, turns))
    decreases |turns|
  {
    if turns != [] {
      assert ResetsApart(s, [turns[0]]) by {
        assert [turns[0]][1..] == [];
      }
      KeptNext(s, turns[0]);
      hide NextTurn, AllKept;
      KeptTurns(NextTurn(s, turns[0]), turns[1..]);
    }
  }

  /** As long as the clone is not reset under an attempt that has committed: every
      result that says pushed names a commit that is on the branch, and the branch
      holds a commit of the result's key. */
  lemma OverlapPublishes(s: Shared, turns: seq<Turn>)
    requires Initial(s.repo) && s.Quiet() && ResetsApart(s, turns)
    ensures var now := RunTurns(s, turns).repo;
            forall mark :: mark in now.log ==> Named(now.remote, mark)
  {
    KeptTurns(s, turns);
  }

  /** At the push it is HEAD that counts: what is reported as pushed is on the
      branch exactly if HEAD still contains the commit that was read. */
  lemma NamedOnBranchExactly(r: Repo)
    requires r.attempt.UpToDate? && Ancestor(r.remote, r.head)
    ensures var r' := Next(r, Push(true, Reported));
            && Last(r'.log) == Finished(r.attempt.key, Result(true, Some(r.attempt.sha), ""), PushedNow)
            && (Ancestor(r.attempt.sha, r'.remote) <==> Ancestor(r.attempt.sha, r.head))
  {
    hide Ancestor;
  }

  /** And a reset can take it away: the branch is as it was, and yet the attempt
      reports success with a commit that is not on it. */
  lemma ResetMisleads(s: Shared, a: nat, b: nat)
    requires a != b && s.As(a).attempt.UpToDate? && s.As(b).attempt.Idle?
    requires !Ancestor(s.As(a).attempt.sha, s.repo.remote)
    ensures var key, sha := s.As(a).attempt.key, s.As(a).attempt.sha;
            var s' := RunTurns(s, [Turn(b, PrepareFetch), Turn(b, PrepareReset), Turn(a, Push(true, Reported))]);
            && s'.repo.remote == s.repo.remote
            && s'.repo.log == s.repo.log + [Finished(key, Result(true, Some(sha), ""), PushedNow)]
            && !Ancestor(sha, s'.repo.remote)
  {
    var fetch, reset, push := Turn(b, PrepareFetch), Turn(b, PrepareReset), Turn(a, Push(true, Reported));
    var s1 := NextTurn(s, fetch);
    var s2 := NextTurn(s1, reset);
    RunTurn(s, fetch);
    RunTurn(s1, reset);
    RunTurn(s2, push);
    assert Ancestor(s.repo.remote, s.repo.remote);
    assert s2.As(a).attempt == s.As(a).attempt && s2.repo.head == s2.repo.remote == s.repo.remote;
    hide RunTurns, Ancestor, HardReset;
    RunTurnsAppend(s, [fetch], [reset]);
    RunTurnsAppend(s, [fetch] + [reset], [push]);
    assert [fetch] + [reset] + [push] == [fetch, reset, push];
  }

  // ---- whose commit is named ----

  predicate Clean(attempt: Attempt) {
    match attempt
    case Idle => true
    case Begun(message, key) => IsKey(key) && Unstamped(message)
    case Fetched(message, key) => IsKey(key) && Unstamped(message)
    case Missed(message, key) => IsKey(key) && Unstamped(message)
    case Added(message, key) => IsKey(key) && Unstamped(message)
    case Staged(message, key) => IsKey(key) && Unstamped(message)
    case Unread(key) => IsKey(key)
    case Committed(key, _) => IsKey(key)
    case UpToDate(key, _) => IsKey(key)
  }

  predicate AllClean(s: Shared) {
    forall tid :: tid in s.attempts ==> Clean(s.attempts[tid])
  }

  lemma CleanNext(s: Shared, turn: Turn)
    requires AllClean(s) && Hygienic(turn.step)
    ensures AllClean(NextTurn(s, turn))
  {
    hide Unstamped, IsKey, Lookup, Behind, FullMessage, HardReset, Ancestor;
    assert Clean(s.As(turn.tid).attempt);
  }

  /** A turn that makes a commit. */
  predicate Commits(s: Shared, turn: Turn) {
    turn.step.CommitStaged? && s.As(turn.tid).attempt.Staged? && s.repo.index != s.repo.head.tree
  }

  /** The key of the last attempt that committed in these turns, if any did. */
  function LastKey(s: Shared, turns: seq<Turn>): Option<string> {
    if turns == [] then None
    else
      var before, turn := RunTurns(s, DropLast(turns)), Last(turns);
      if Commits(before, turn) then Some(before.As(turn.tid).attempt.key) else LastKey(s, DropLast(turns))
  }

  /** Turns of others: clean, and the clone is not reset. */
  predicate Others(a: nat, turns: seq<Turn>) {
    forall i :: 0 <= i < |turns| ==> turns[i].tid != a && Hygienic(turns[i].step) && !turns[i].step.PrepareReset?
  }

  lemma HeadMoves(s: Shared, turn: Turn)
    requires AllClean(s) && Hygienic(turn.step) && !turn.step.PrepareReset?
    ensures var s' := NextTurn(s, turn);
            if Commits(s, turn) then
              var key := s.As(turn.tid).attempt.key;
              IsKey(key) && forall k :: IsKey(k) ==> (Carries(s'.repo.head.message, k) <==> k == key)
            else s'.repo.head == s.repo.head
  {
    var r := s.As(turn.tid);
    if Commits(s, turn) {
      assert Clean(r.attempt);
      forall k | IsKey(k) ensures Carries(FullMessage(r.attempt.message, r.attempt.key), k) <==> k == r.attempt.key {
        StampCarriesOnlyItsKey(r.attempt.message, r.attempt.key, k);
      }
    }
    hide Unstamped, IsKey, Carries, Lookup, Behind, FullMessage, HardReset, Ancestor;
  }

  lemma {:induction false} HeadOfLast(s: Shared, a: nat, turns: seq<Turn>)
    requires AllClean(s) && Others(a, turns)
    ensures var s' := RunTurns(s, turns);
            && AllClean(s') && s'.As(a).attempt == s.As(a).attempt
            && match LastKey(s, turns)
               case None => s'.repo.head == s.repo.head
               case Some(key) =>
                 IsKey(key) && forall k :: IsKey(k) ==> (Carries(s'.repo.head.message, k) <==> k == key)
    decreases |turns|
  {
    if turns != [] {
      var before, turn := RunTurns(s, DropLast(turns)), Last(turns);
      HeadOfLast(s, a, DropLast(turns));
      assert DropLast(turns) + [turn] == turns;
      RunTurnsAppend(s, DropLast(turns), [turn]);
      RunTurn(before, turn);
      HeadMoves(before, turn);
      CleanNext(before, turn);
      hide RunTurns, Next, Commits, Carries, IsKey, AllClean;
    }
  }

  /** Exactly: whatever others do between an attempt's commit and its `rev-parse`,
      the commit it will name carries its key if and only if the last attempt to
      commit in between, if any, was for that key too. */
  lemma NamedCarriesExactly(s: Shared, a: nat, stamp: nat, between: seq<Turn>)
    requires AllClean(s) && Others(a, between) && Commits(s, Turn(a, CommitStaged(stamp)))
    ensures var key := s.As(a).attempt.key;
            var s1 := NextTurn(s, Turn(a, CommitStaged(stamp)));
            var s3 := NextTurn(RunTurns(s1, between), Turn(a, ReadHead));
            && s3.As(a).attempt.Committed? && s3.As(a).attempt.key == key
            && (Carries(s3.As(a).attempt.sha.message, key) <==>
                  LastKey(s1, between).None? || LastKey(s1, between) == Some(key))
  {
    var key := s.As(a).attempt.key;
    var s1 := NextTurn(s, Turn(a, CommitStaged(stamp)));
    assert s1.As(a).attempt == Unread(key) && Clean(s.As(a).attempt);
    HeadMoves(s, Turn(a, CommitStaged(stamp)));
    CleanNext(s, Turn(a, CommitStaged(stamp)));
    hide Commits, RunTurns, LastKey, Carries, IsKey, FullMessage, AllClean;
    HeadOfLast(s1, a, between);
  }

  // ---- one attempt at the machine ----

  function TurnsOf(tid: nat, steps: seq<Step>): seq<Turn> {
    seq(|steps|, i requires 0 <= i < |steps| => Turn(tid, steps[i]))
  }

  /** While one attempt has all the turns it is as if it were alone. */
  lemma {:induction false} Alone(s: Shared, tid: nat, steps: seq<Step>)
    ensures var s' := RunTurns(s, TurnsOf(tid, steps));
            && s'.As(tid) == Run(s.As(tid), steps)
            && forall other :: other != tid ==> s'.As(other).attempt == s.As(other).attempt
    decreases |steps|
  {
    if steps != [] {
      var turns := TurnsOf(tid, steps);
      assert turns[1..] == TurnsOf(tid, steps[1..]);
      var s1 := NextTurn(s, turns[0]);
      assert s1.As(tid) == Next(s.As(tid), steps[0]);
      hide Next;
      Alone(s1, tid, steps[1..]);
    }
  }

  lemma EditTurn(s: Shared, b: nat, tree: Tree)
    ensures RunTurns(s, [Turn(b, Edit(tree))]).repo == s.repo.(worktree := tree, attempt := Idle)
    ensures forall tid :: RunTurns(s, [Turn(b, Edit(tree))]).As(tid) == s.As(tid).(worktree := tree)
  {
    RunTurn(s, Turn(b, Edit(tree)));
    hide RunTurns;
  }

  /** The failing input: another attempt stages an edit and commits on top before
      HEAD is read; the first attempt returns success with the other's commit,
      which does not carry its key. */
  lemma NamesAnother(s: Shared, a: nat, b: nat, tree: Tree, stamp: nat, stamp': nat)
    requires AllClean(s) && a != b && Commits(s, Turn(a, CommitStaged(stamp))) && s.As(b).attempt.Missed?
    requires s.As(a).attempt.key != s.As(b).attempt.key && tree != s.repo.index
    requires s.repo.fetched.Some? && Ancestor(s.repo.fetched.value, s.repo.head) && Ancestor(s.repo.remote, s.repo.head)
    ensures var key := s.As(a).attempt.key;
            var r := RunTurns(s, CommitUnder(a, b, tree, stamp, stamp') + TurnsOf(a, PUBLISHING)).repo;
            && r.log != [] && Last(r.log) == Finished(key, Result(true, Some(r.head), ""), PushedNow)
            && r.remote == r.head && !Carries(r.head.message, key)
  {
    assert s.As(a).attempt.Staged?;
    hide RunTurns, TurnsOf, Run, CommitUnder, Carries, Commits, IsKey, Unstamped, Ancestor, FullMessage;
    var s3 := CommittedUnder(s, a, b, tree, stamp, stamp');
    OtherKey(s, a, b);
    var other := s.As(b).attempt;
    StampCarriesOnlyItsKey(other.message, other.key, s.As(a).attempt.key);
    Alone(s3, a, PUBLISHING);
    PublishingExactly(s3.As(a));
    RunTurnsAppend(s, CommitUnder(a, b, tree, stamp, stamp'), TurnsOf(a, PUBLISHING));
  }

  lemma OtherKey(s: Shared, a: nat, b: nat)
    requires AllClean(s) && s.As(a).attempt.Staged? && s.As(b).attempt.Missed?
    ensures IsKey(s.As(a).attempt.key) && IsKey(s.As(b).attempt.key) && Unstamped(s.As(b).attempt.message)
  {
    hide IsKey, Unstamped;
    assert Clean(s.As(a).attempt) && Clean(s.As(b).attempt);
  }

  /** One attempt commits; the tree is edited; another one stages that and commits on top. */
  function CommitUnder(a: nat, b: nat, tree: Tree, stamp: nat, stamp': nat): seq<Turn> {
    [Turn(a, CommitStaged(stamp))] + [Turn(b, Edit(tree))] + TurnsOf(b, Committing(stamp'))
  }

  lemma CommittedUnder(s: Shared, a: nat, b: nat, tree: Tree, stamp: nat, stamp': nat) returns (s3: Shared)
    requires a != b && Commits(s, Turn(a, CommitStaged(stamp))) && s.As(b).attempt.Missed? && tree != s.repo.index
    requires s.repo.fetched.Some? && Ancestor(s.repo.fetched.value, s.repo.head) && Ancestor(s.repo.remote, s.repo.head)
    ensures s3 == RunTurns(s, CommitUnder(a, b, tree, stamp, stamp'))
    ensures s3.As(a).attempt == Unread(s.As(a).attempt.key)
    ensures s3.repo.remote == s.repo.remote && s3.repo.fetched == s.repo.fetched
    ensures s3.repo.head.message == FullMessage(s.As(b).attempt.message, s.As(b).attempt.key)
    ensures Ancestor(s3.repo.fetched.value, s3.repo.head) && Ancestor(s3.repo.remote, s3.repo.head)
  {
    hide RunTurns, TurnsOf, Run, Committing, FullMessage, Ancestor;
    var commit, edit := Turn(a, CommitStaged(stamp)), Turn(b, Edit(tree));
    RunTurn(s, commit);
    var s1 := RunTurns(s, [commit]);
    EditTurn(s1, b, tree);
    var s2 := RunTurns(s1, [edit]);
    Alone(s2, b, Committing(stamp'));
    CommittingExactly(s2.As(b), stamp');
    s3 := RunTurns(s2, TurnsOf(b, Committing(stamp')));
    RunTurnsAppend(s, [commit], [edit]);
    RunTurnsAppend(s, [commit] + [edit], TurnsOf(b, Committing(stamp')));
    TwoAbove(s.repo.fetched.value, s.repo.head, s3.As(b).head);
    TwoAbove(s.repo.remote, s.repo.head, s3.As(b).head);
  }

  lemma TwoAbove(c: Commit, head: Commit, top: Commit)
    requires Ancestor(c, head) && top.parent.Some? && top.parent.value.parent == Some(head)
    ensures Ancestor(c, top)
  {
    assert Ancestor(c, top.parent.value);
  }

  /** Two attempts look, one after the other, and both miss. */
  lemma BothLooked(s: Shared, a: nat, b: nat, message: string, key: string, message': string, key': string)
    returns (s2: Shared)
    requires s.Quiet() && s.repo.attempt.Idle? && a != b && !IsFound(s.repo, key) && !IsFound(s.repo, key')
    ensures s2 == RunTurns(s, TurnsOf(a, Looking(message, key)) + TurnsOf(b, Looking(message', key')))
    ensures s2.As(a) == s.repo.(fetched := Some(s.repo.remote), attempt := Missed(message, key))
    ensures s2.As(b) == s.repo.(fetched := Some(s.repo.remote), attempt := Missed(message', key'))
  {
    hide RunTurns, TurnsOf, Run, Looking, Newest, OnTop;
    Alone(s, a, Looking(message, key));
    LookingExactly(s.As(a), message, key);
    var s1 := RunTurns(s, TurnsOf(a, Looking(message, key)));
    assert s1.repo.remote == s.repo.remote;
    Alone(s1, b, Looking(message', key'));
    LookingExactly(s1.As(b), message', key');
    RunTurnsAppend(s, TurnsOf(a, Looking(message, key)), TurnsOf(b, Looking(message', key')));
    s2 := RunTurns(s1, TurnsOf(b, Looking(message', key')));
  }

  lemma {:induction false} CleanTurns(s: Shared, turns: seq<Turn>)
    requires AllClean(s) && forall turn :: turn in turns ==> Hygienic(turn.step)
    ensures AllClean(RunTurns(s, turns))
    decreases |turns|
  {
    if turns != [] {
      assert turns[0] in turns;
      CleanNext(s, turns[0]);
      hide NextTurn, AllClean, Hygienic;
      CleanTurns(NextTurn(s, turns[0]), turns[1..]);
    }
  }

  lemma HygienicLooking(tid: nat, message: string, key: string)
    requires IsKey(key) && Unstamped(message)
    ensures forall turn :: turn in TurnsOf(tid, Looking(message, key)) ==> Hygienic(turn.step)
  {
    hide IsKey, Unstamped;
    assert forall step :: step in Looking(message, key) ==> Hygienic(step);
  }

  /** Such a clone is a few turns from every quiet one with changes to publish. */
  lemma NamesAnotherFromTheStart(
    s: Shared, a: nat, b: nat, message: string, key: string, message': string, key': string, tree: Tree
  )
    requires Initial(s.repo) && s.Quiet() && a != b && key != key' && Ancestor(s.repo.remote, s.repo.head)
    requires IsKey(key) && Unstamped(message) && IsKey(key') && Unstamped(message')
    requires !IsFound(s.repo, key) && !IsFound(s.repo, key')
    requires s.repo.worktree != s.repo.head.tree && tree != s.repo.worktree
    ensures var turns := TurnsOf(a, Looking(message, key)) + TurnsOf(b, Looking(message', key')) +
                         TurnsOf(a, [Stage, DiffCached]) + (CommitUnder(a, b, tree, 0, 0) + TurnsOf(a, PUBLISHING));
            var r := RunTurns(s, turns).repo;
            && r.log != [] && Last(r.log) == Finished(key, Result(true, Some(r.head), ""), PushedNow)
            && !Carries(r.head.message, key)
  {
    assert AllClean(s);
    HygienicLooking(a, message, key);
    HygienicLooking(b, message', key');
    hide RunTurns, TurnsOf, Run, Looking, CommitUnder, Newest, OnTop, Carries, IsKey, Unstamped, AllClean, Ancestor;
    var looking := TurnsOf(a, Looking(message, key)) + TurnsOf(b, Looking(message', key'));
    CleanTurns(s, looking);
    var s2 := BothLooked(s, a, b, message, key, message', key');
    var s3 := StagedToo(s2, a, b);
    NamesAnother(s3, a, b, tree, 0, 0);
    RunTurnsAppend(s, looking, TurnsOf(a, [Stage, DiffCached]));
    RunTurnsAppend(s, looking + TurnsOf(a, [Stage, DiffCached]), CommitUnder(a, b, tree, 0, 0) + TurnsOf(a, PUBLISHING));
  }

  lemma StagedToo(s: Shared, a: nat, b: nat) returns (s3: Shared)
    requires AllClean(s) && a != b && s.As(a).attempt.Missed? && s.repo.worktree != s.repo.head.tree
    ensures s3 == RunTurns(s, TurnsOf(a, [Stage, DiffCached])) && AllClean(s3)
    ensures s3.repo == s.repo.(index := s.repo.worktree, attempt := Idle)
    ensures s3.As(a).attempt == Staged(s.As(a).attempt.message, s.As(a).attempt.key)
    ensures s3.As(b).attempt == s.As(b).attempt
  {
    var steps := [Stage, DiffCached];
    s3 := RunTurns(s, TurnsOf(a, steps));
    assert forall turn :: turn in TurnsOf(a, steps) ==> Hygienic(turn.step);
    Alone(s, a, steps);
    RepoOfRun(s, TurnsOf(a, steps));
    NoSteps(s.As(a));
    RunSnoc(s.As(a), [], Stage);
    RunSnoc(s.As(a), [Stage], DiffCached);
    assert [] + [Stage] == [Stage] && [Stage] + [DiffCached] == steps;
    hide Run, RunTurns, TurnsOf, AllClean;
    CleanTurns(s, TurnsOf(a, steps));
  }

  lemma {:induction false} RepoOfRun(s: Shared, turns: seq<Turn>)
    requires turns != []
    ensures RunTurns(s, turns).repo.attempt.Idle?
    decreases |turns|
  {
    hide Next;
    if |turns| == 1 {
      assert turns == [turns[0]];
      RunTurn(s, turns[0]);
    } else {
      RepoOfRun(NextTurn(s, turns[0]), turns[1..]);
    }
  }

  // ---- how often the branch is advanced ----

  function Advances(log: seq<Mark>): nat {
    if log == [] then 0 else Advances(DropLast(log)) + (if Last(log).Advanced? then 1 else 0)
  }

  lemma AdvancesSnoc(log: seq<Mark>, mark: Mark)
    ensures Advances(log + [mark]) == Advances(log) + (if mark.Advanced? then 1 else 0)
  {
    assert DropLast(log + [mark]) == log;
  }

  predicate Prepares(step: Step) {
    step.PrepareFetch? || step.PrepareReset? || step.PrepareCheckout?
  }

  /** The clone is not prepared, and every edit makes the tree this one. */
  predicate EditsOnly(turns: seq<Turn>, tree: Tree) {
    forall i :: 0 <= i < |turns| ==> !Prepares(turns[i].step) && (turns[i].step.Edit? ==> turns[i].step.tree == tree)
  }

  predicate NothingStaged(s: Shared) {
    forall tid :: tid in s.attempts ==>
      s.attempts[tid].Idle? || s.attempts[tid].Begun? || s.attempts[tid].Fetched? || s.attempts[tid].Missed?
  }

  /** HEAD has moved by one commit of the tree. */
  predicate Moved(base: Commit, head: Commit, tree: Tree) {
    head.parent == Some(base) && head.tree == tree
  }

  predicate OnTree(base: Commit, tree: Tree, r: Repo) {
    && (r.attempt.Added? || r.attempt.Staged? ==> r.index == tree)
    && (InHand(r.attempt) ==> Moved(base, r.head, tree))
  }

  /** Since nothing was staged: at most one commit, at most one advance, and that to this commit. */
  ghost predicate OneTree(base: Commit, tree: Tree, n: nat, s: Shared) {
    && s.repo.worktree == tree
    && (s.repo.head == base || Moved(base, s.repo.head, tree))
    && (forall tid :: tid in s.attempts ==> OnTree(base, tree, s.As(tid)))
    && n <= Advances(s.repo.log) <= n + 1
    && (Advances(s.repo.log) == n + 1 ==> Moved(base, s.repo.head, tree) && Ancestor(s.repo.head, s.repo.remote))
  }

  lemma AncestorAntisymmetric(a: Commit, b: Commit)
    requires Ancestor(a, b) && Ancestor(b, a)
    ensures a == b
  {
    AncestorIsLower(a, b);
    AncestorIsLower(b, a);
  }

  lemma FinishAdvances(r: Repo, key: string, result: Result, exit: Exit)
    ensures Advances(r.Finish(key, result, exit).log) == Advances(r.log)
  {
    AdvancesSnoc(r.log, Finished(key, result, exit));
  }

  /** Only a push can add to the advances. */
  lemma OtherAdvances(r: Repo, step: Step)
    requires Enabled(r, step) && !step.Push?
    ensures Advances(After(r, step).log) == Advances(r.log)
  {
    hide Advances, Lookup, Behind, FullMessage, HardReset, Found, Ancestor;
    match step
    case Fetch(error) =>
      if error.Some? {
        FinishAdvances(r, r.attempt.key, Result(false, None, error.value), FetchFailed);
      }
    case LookUp(lost) => FinishAdvances(r, r.attempt.key, Result(true, Found(r, lost), ""), AlreadyThere);
    case DiffCached => FinishAdvances(r, r.attempt.key, Result(false, None, "no_changes"), NoChanges);
    case CountBehind =>
      FinishAdvances(r, r.attempt.key, Result(false, Some(r.attempt.sha), "remote_advanced"), RemoteAdvanced);
    case _ =>
  }

  lemma PushAdvances(r: Repo, delivered: bool, reply: Reply)
    requires r.attempt.UpToDate?
    ensures var r' := AfterPush(r, delivered, reply);
            var moves := delivered && Ancestor(r.remote, r.head) && r.remote != r.head;
            && r'.remote == (if moves then r.head else r.remote)
            && Advances(r'.log) == Advances(r.log) + (if moves then 1 else 0)
  {
    var key, sha := r.attempt.key, r.attempt.sha;
    var moves := delivered && Ancestor(r.remote, r.head) && r.remote != r.head;
    var r1 := if moves then r.(remote := r.head, log := r.log + [Advanced(key, r.remote, r.head)]) else r;
    AdvancesSnoc(r.log, Advanced(key, r.remote, r.head));
    hide Advances, Ancestor;
    match reply
    case Lost =>
    case Failing(error) => FinishAdvances(r1, key, Result(false, Some(sha), error), PushFailed);
    case Reported =>
      FinishAdvances(r1, key, Result(true, Some(sha), ""), PushedNow);
      FinishAdvances(r1, key, Result(false, Some(sha), "rejected"), PushFailed);
  }

  /** The one attempt whose turn it is: its commit is the only one the tree gives. */
  lemma TreeStep(base: Commit, tree: Tree, r: Repo, step: Step)
    requires !Prepares(step) && (step.Edit? ==> step.tree == tree)
    requires r.worktree == tree && (r.head == base || Moved(base, r.head, tree)) && OnTree(base, tree, r)
    ensures var r' := Next(r, step);
            && r'.worktree == tree && (r'.head == r.head || Moved(base, r'.head, tree)) && OnTree(base, tree, r')
            && (r'.index == r.index || r'.index == tree)
            && (Moved(base, r.head, tree) ==> r'.head == r.head)
  {
    hide Lookup, Behind, FullMessage, HardReset, Found, Ancestor;
  }

  lemma AdvanceStep(base: Commit, tree: Tree, n: nat, r: Repo, step: Step)
    requires !Prepares(step) && OnTree(base, tree, r)
    requires n <= Advances(r.log) <= n + 1 && (Advances(r.log) == n + 1 ==> Ancestor(r.head, r.remote))
    ensures var r' := Next(r, step);
            && n <= Advances(r'.log) <= n + 1
            && (Advances(r'.log) == n + 1 ==>
                  Ancestor(r.head, r'.remote) && (Advances(r.log) == n + 1 || Moved(base, r.head, tree)))
  {
    BranchGrows(r, step);
    hide Next, Advances, AfterPush;
    if Advances(r.log) == n + 1 {
      AncestorTransitive(r.head, r.remote, Next(r, step).remote);
    }
    assert Ancestor(r.head, r.head);
    if Enabled(r, step) {
      if step.Push? {
        PushAdvances(r, step.delivered, step.reply);
        assert Next(r, step) == AfterPush(r, step.delivered, step.reply) by {
          PushIsAfterPush(r, step);
        }
        if Ancestor(r.remote, r.head) && Ancestor(r.head, r.remote) {
          AncestorAntisymmetric(r.head, r.remote);
        }
      } else {
        OtherAdvances(r, step);
        assert Next(r, step) == After(r, step) by {
          NextIsAfter(r, step);
        }
      }
    } else {
      NextIsSame(r, step);
    }
  }

  lemma NextIsAfter(r: Repo, step: Step)
    requires Enabled(r, step)
    ensures Next(r, step) == After(r, step)
  {
    hide After;
  }

  lemma NextIsSame(r: Repo, step: Step)
    requires !Enabled(r, step)
    ensures Next(r, step) == r
  {
    hide After;
  }

  lemma PushIsAfterPush(r: Repo, step: Step)
    requires Enabled(r, step) && step.Push?
    ensures Next(r, step) == AfterPush(r, step.delivered, step.reply)
  {
    hide AfterPush;
  }

  lemma OneTreeNext(base: Commit, tree: Tree, n: nat, s: Shared, turn: Turn)
    requires OneTree(base, tree, n, s) && EditsOnly([turn], tree)
    ensures OneTree(base, tree, n, NextTurn(s, turn))
  {
    var r := s.As(turn.tid);
    assert [turn][0] == turn;
    assert OnTree(base, tree, r);
    TreeStep(base, tree, r, turn.step);
    AdvanceStep(base, tree, n, r, turn.step);
    hide Next, Advances, Ancestor;
    var s' := NextTurn(s, turn);
    forall tid | tid in s'.attempts ensures OnTree(base, tree, s'.As(tid)) {
      if tid != turn.tid {
        assert OnTree(base, tree, s.As(tid));
      }
    }
  }

  lemma {:induction false} OneTreeTurns(base: Commit, tree: Tree, n: nat, s: Shared, turns: seq<Turn>)
    requires OneTree(base, tree, n, s) && EditsOnly(turns, tree)
    ensures OneTree(base, tree, n, RunTurns(s, turns))
    decreases |turns|
  {
    if turns != [] {
      assert EditsOnly([turns[0]], tree) && EditsOnly(turns[1..], tree);
      OneTreeNext(base, tree, n, s, turns[0]);
      hide NextTurn, OneTree;
      OneTreeTurns(base, tree, n, NextTurn(s, turns[0]), turns[1..]);
    }
  }

  /** From a point where nothing is staged: however many attempts overlap, for
      whatever keys and however their commands interleave, as long as nobody edits
      the tree the branch is advanced at most once. */
  lemma UneditedAdvancesOnce(s: Shared, turns: seq<Turn>)
    requires NothingStaged(s) && EditsOnly(turns, s.repo.worktree)
    ensures Advances(RunTurns(s, turns).repo.log) <= Advances(s.repo.log) + 1
  {
    OneTreeTurns(s.repo.head, s.repo.worktree, Advances(s.repo.log), s, turns);
  }

  ghost predicate AdvancedTwice(log: seq<Mark>, key: string) {
    exists i, j :: 0 <= i < j < |log| &&
      log[i].Advanced? && log[i].key == key && log[j].Advanced? && log[j].key == key
  }

  lemma {:induction false} TwiceCounts(log: seq<Mark>, i: nat, j: nat)
    requires i < j < |log| && log[i].Advanced? && log[j].Advanced?
    ensures Advances(log) >= 2
  {
    if j == |log| - 1 {
      OnceCounts(DropLast(log), i);
    } else {
      TwiceCounts(DropLast(log), i, j);
    }
  }

  lemma {:induction false} OnceCounts(log: seq<Mark>, i: nat)
    requires i < |log| && log[i].Advanced?
    ensures Advances(log) >= 1
  {
    if i < |log| - 1 {
      OnceCounts(DropLast(log), i);
    }
  }

  // ---- and when twice ----

  /** From there one finishes, the tree is edited, and the other finishes. */
  function EditBetween(a: nat, b: nat, tree: Tree, stamp: nat, stamp': nat): seq<Turn> {
    TurnsOf(a, Finishing(stamp)) + [Turn(b, Edit(tree))] + TurnsOf(b, Finishing(stamp'))
  }

  lemma BothAdvance(s: Shared, a: nat, b: nat, key: string, tree: Tree, stamp: nat, stamp': nat)
    requires a != b && s.As(a).attempt.Missed? && s.As(b).attempt.Missed? && s.repo.log == []
    requires s.As(a).attempt.key == s.As(b).attempt.key == key && !IsFound(s.repo, key)
    requires s.repo.fetched == Some(s.repo.remote) && Ancestor(s.repo.remote, s.repo.head)
    requires s.repo.worktree != s.repo.head.tree && tree != s.repo.worktree
    ensures AdvancedTwice(RunTurns(s, EditBetween(a, b, tree, stamp, stamp')).repo.log, key)
  {
    hide Run, RunTurns, TurnsOf, Finishing, FullMessage, Newest, OnTop;
    var r := s.As(a);
    FinishingExactly(r, stamp);
    UnfoundIsNotThere(r, r.attempt.message, key, stamp);
    Alone(s, a, Finishing(stamp));
    var s1 := RunTurns(s, TurnsOf(a, Finishing(stamp)));
    var sha := CommitOf(r, r.attempt.message, key, stamp);
    assert Ancestor(s.repo.remote, sha);
    assert s1.repo.remote == s1.repo.head == sha && s1.repo.fetched == s.repo.fetched;
    assert s1.repo.log == [Advanced(key, r.remote, sha), Finished(key, Result(true, Some(sha), ""), PushedNow)];
    EditTurn(s1, b, tree);
    var s2 := RunTurns(s1, [Turn(b, Edit(tree))]);
    SecondAdvances(s2, b, key, stamp');
    RunTurnsAppend(s, TurnsOf(a, Finishing(stamp)), [Turn(b, Edit(tree))]);
    RunTurnsAppend(s, TurnsOf(a, Finishing(stamp)) + [Turn(b, Edit(tree))], TurnsOf(b, Finishing(stamp')));
    var log := RunTurns(s2, TurnsOf(b, Finishing(stamp'))).repo.log;
    assert log[0].Advanced? && log[2].Advanced? && log[0].key == key && log[2].key == key;
  }

  lemma SecondAdvances(s: Shared, b: nat, key: string, stamp: nat)
    requires s.As(b).attempt.Missed? && s.As(b).attempt.key == key && |s.repo.log| == 2
    requires s.repo.fetched.Some? && Ancestor(s.repo.fetched.value, s.repo.head) && s.repo.remote == s.repo.head
    requires s.repo.worktree != s.repo.head.tree
    ensures var log := RunTurns(s, TurnsOf(b, Finishing(stamp))).repo.log;
            |log| == 4 && log[0] == s.repo.log[0] && log[2].Advanced? && log[2].key == key
  {
    hide Run, RunTurns, TurnsOf, Finishing, FullMessage;
    var r := s.As(b);
    FinishingExactly(r, stamp);
    Alone(s, b, Finishing(stamp));
    var sha := CommitOf(r, r.attempt.message, key, stamp);
    assert Ancestor(r.remote, r.remote);
    assert Ancestor(r.fetched.value, sha) && Ancestor(r.remote, sha) && r.remote != sha;
  }

  lemma ScriptEdits(a: nat, b: nat, message: string, other: string, key: string, tree: Tree, stamp: nat, stamp': nat)
    ensures EditsOnly(TurnsOf(a, Looking(message, key)) + TurnsOf(b, Looking(other, key))
                      + EditBetween(a, b, tree, stamp, stamp'), tree)
  {
    QuietTurns(a, Looking(message, key), tree);
    QuietTurns(b, Looking(other, key), tree);
    QuietTurns(a, Finishing(stamp), tree);
    QuietTurns(b, Finishing(stamp'), tree);
    hide Looking, Finishing, TurnsOf;
  }

  lemma QuietTurns(tid: nat, steps: seq<Step>, tree: Tree)
    requires forall step :: step in steps ==> !Prepares(step) && !step.Edit?
    ensures EditsOnly(TurnsOf(tid, steps), tree)
  {
    assert forall i :: 0 <= i < |steps| ==> steps[i] in steps;
  }

  /** Exactly: from a quiet clone with changes to publish, some interleaving of any
      number of attempts advances the branch twice for the key, if and only if an
      edit can leave a tree that differs from the one there was. */
  lemma OverlapAdvancesTwiceExactly(s: Shared, key: string, tree: Tree)
    requires Initial(s.repo) && s.Quiet() && Ancestor(s.repo.remote, s.repo.head)
    requires s.repo.worktree != s.repo.head.tree && !IsFound(s.repo, key)
    ensures (exists turns :: EditsOnly(turns, tree) && AdvancedTwice(RunTurns(s, turns).repo.log, key))
            <==> tree != s.repo.worktree
  {
    hide RunTurns, TurnsOf, Looking, EditBetween, EditsOnly, Newest, OnTop;
    if tree != s.repo.worktree {
      var looking := TurnsOf(0, Looking("", key)) + TurnsOf(1, Looking("", key));
      var s2 := BothLooked(s, 0, 1, "", key, "", key);
      BothAdvance(s2, 0, 1, key, tree, 0, 0);
      RunTurnsAppend(s, looking, EditBetween(0, 1, tree, 0, 0));
      ScriptEdits(0, 1, "", "", key, tree, 0, 0);
    } else {
      forall turns | EditsOnly(turns, tree) ensures !AdvancedTwice(RunTurns(s, turns).repo.log, key) {
        UneditedAdvancesOnce(s, turns);
        var log := RunTurns(s, turns).repo.log;
        if AdvancedTwice(log, key) {
          var i, j :| 0 <= i < j < |log| &&
            log[i].Advanced? && log[i].key == key && log[j].Advanced? && log[j].key == key;
          TwiceCounts(log, i, j);
        }
      }
    }
  }
}
