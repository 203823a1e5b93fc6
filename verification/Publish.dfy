/** `_push_changes_at` and `_prepare_workdir_at` of src/activities/lifecycle.py,
    git command by git command: what a commit makes and what `rev-parse` then
    reads are two things, and a commit with nothing staged fails. A commit is its whole history, so equal commits
    have equal ids. Between any two commands the process may crash, files may be
    edited and others may push to the branch. */
module Publish {
  import opened Sequences

  const FETCH_DEPTH: nat := 50
  const BOT_TRAILER: string := "[autofix-bot]"
  const KEY_TRAILER: string := "Autofix-Idempotency: "

  type Tree = map<string, string>

  datatype Commit = Commit(parent: Option<Commit>, tree: Tree, message: string, stamp: nat)

  // ---- messages ----

  function FullMessage(message: string, key: string): string {
    message + "\n\n" + BOT_TRAILER + "\n" + KEY_TRAILER + key
  }

  /** `--fixed-strings --grep`; the pattern has no newline, so a line contains it or none does. */
  predicate Carries(message: string, key: string) {
    Contains(message, KEY_TRAILER + key)
  }

  // ---- histories ----

  /** `a` is `c` or one of its ancestors. */
  predicate Ancestor(a: Commit, c: Commit) {
    a == c || (c.parent.Some? && Ancestor(a, c.parent.value))
  }

  /** The first commit `git log --grep` lists, of the newest `depth`. */
  function Lookup(c: Commit, key: string, depth: nat): Option<Commit>
    decreases depth
  {
    if depth == 0 then None
    else if Carries(c.message, key) then Some(c)
    else if c.parent.None? then None
    else Lookup(c.parent.value, key, depth - 1)
  }

  /** `git rev-list --count head..fetched`. */
  function Behind(head: Commit, fetched: Commit): nat
    decreases fetched
  {
    (if Ancestor(fetched, head) then 0 else 1) +
    (if fetched.parent.Some? then Behind(head, fetched.parent.value) else 0)
  }

  // ---- trees ----

  /** `git reset --hard`: tracked files become the target's, files the index does
      not hold stay unless the target has them too. */
  function HardReset(worktree: Tree, index: Tree, target: Tree): Tree {
    (map path | path in worktree && path !in index :: worktree[path]) + target
  }

  /** So the tree is the target's exactly when no file is left over that neither
      the index nor the target holds. */
  lemma ResetIsCleanExactly(worktree: Tree, index: Tree, target: Tree)
    ensures HardReset(worktree, index, target) == target <==>
            forall path :: path in worktree && path !in index ==> path in target
  {
    var left := map path | path in worktree && path !in index :: worktree[path];
    if HardReset(worktree, index, target) == target {
      forall path | path in worktree && path !in index ensures path in target {
        assert path in left;
        assert path in left + target;
      }
    }
  }

  /** A left-over file goes into the next commit unchanged. */
  lemma LeftOverIsStaged(worktree: Tree, index: Tree, target: Tree, path: string)
    requires path in worktree && path !in index && path !in target
    ensures path in HardReset(worktree, index, target) && HardReset(worktree, index, target)[path] == worktree[path]
    ensures HardReset(worktree, index, target) != target
  {
    ResetIsCleanExactly(worktree, index, target);
  }

  // ---- the repository ----

  /** How far a push attempt has come. */
  datatype Attempt =
    | Idle
    | Begun(message: string, key: string)
    | Fetched(message: string, key: string)
    | Missed(message: string, key: string)
    | Added(message: string, key: string)
    | Staged(message: string, key: string)
    | Unread(key: string)
    | Committed(key: string, sha: Commit)
    | UpToDate(key: string, sha: Commit)

  datatype Result = Result(pushed: bool, commit: Option<Commit>, reason: string)

  /** Which return statement an attempt left by. */
  datatype Exit = FetchFailed | AlreadyThere | NoChanges | RemoteAdvanced | PushFailed | PushedNow

  datatype Mark =
    | Advanced(key: string, before: Commit, after: Commit)
    | Finished(key: string, result: Result, exit: Exit)

  datatype Repo = Repo(
    head: Commit,
    index: Tree,
    worktree: Tree,
    fetched: Option<Commit>,
    remote: Commit,
    attempt: Attempt,
    log: seq<Mark>
  ) {
    function Finish(key: string, result: Result, exit: Exit): Repo {
      this.(attempt := Idle, log := log + [Finished(key, result, exit)])
    }
  }

  datatype Reply = Reported | Failing(error: string) | Lost

  datatype Step =
    // commands of one attempt
    | Begin(message: string, key: string)
    | Fetch(error: Option<string>)
    | LookUp(lost: bool)
    | Stage
    | DiffCached
    | CommitStaged(stamp: nat)
    | ReadHead
    | CountBehind
    | Push(delivered: bool, reply: Reply)
    // an exception or the loss of the process
    | Crash
    // `prepare_workdir`, between attempts
    | PrepareFetch
    | PrepareReset
    | PrepareCheckout
    // others
    | Edit(tree: Tree)
    | Append(tree: Tree, message: string, stamp: nat)

  predicate Enabled(r: Repo, step: Step) {
    match step
    case Begin(_, _) => r.attempt.Idle?
    case Fetch(_) => r.attempt.Begun?
    case LookUp(_) => r.attempt.Fetched? && r.fetched.Some?
    case Stage => r.attempt.Missed?
    case DiffCached => r.attempt.Added?
    case CommitStaged(_) => r.attempt.Staged?
    case ReadHead => r.attempt.Unread?
    case CountBehind => r.attempt.Committed? && r.fetched.Some?
    case Push(_, _) => r.attempt.UpToDate?
    case Crash => true
    case PrepareFetch => r.attempt.Idle?
    case PrepareReset => r.attempt.Idle? && r.fetched.Some?
    case PrepareCheckout => r.attempt.Idle? && r.fetched == Some(r.head)
    case Edit(_) => true
    case Append(_, _, _) => true
  }

  /** The server takes a push only if it is a fast-forward, which leaves the branch
      alone if it is there already; the client may never hear of it. */
  function AfterPush(r: Repo, delivered: bool, reply: Reply): Repo
    requires r.attempt.UpToDate?
  {
    var key, sha := r.attempt.key, r.attempt.sha;
    var landed := delivered && Ancestor(r.remote, r.head);
    var r' := if landed && r.remote != r.head
              then r.(remote := r.head, log := r.log + [Advanced(key, r.remote, r.head)]) else r;
    match reply
    case Lost => r'.(attempt := Idle)
    case Failing(error) => r'.Finish(key, Result(false, Some(sha), error), PushFailed)
    case Reported =>
      if landed then r'.Finish(key, Result(true, Some(sha), ""), PushedNow)
      else r'.Finish(key, Result(false, Some(sha), "rejected"), PushFailed)
  }

  /** What the lookup prints; a `git log` that fails prints nothing, and its exit code is not read. */
  function Found(r: Repo, lost: bool): Option<Commit>
    requires r.attempt.Fetched? && r.fetched.Some?
  {
    if lost then None else Lookup(r.fetched.value, r.attempt.key, FETCH_DEPTH)
  }

  function After(r: Repo, step: Step): Repo
    requires Enabled(r, step)
  {
    match step
    case Begin(message, key) => r.(attempt := Begun(message, key))
    case Fetch(error) =>
      if error.Some? then r.Finish(r.attempt.key, Result(false, None, error.value), FetchFailed)
      else r.(fetched := Some(r.remote), attempt := Fetched(r.attempt.message, r.attempt.key))
    case LookUp(lost) =>
      var found := Found(r, lost);
      if found.Some? then r.Finish(r.attempt.key, Result(true, found, ""), AlreadyThere)
      else r.(attempt := Missed(r.attempt.message, r.attempt.key))
    case Stage => r.(index := r.worktree, attempt := Added(r.attempt.message, r.attempt.key))
    case DiffCached =>
      if r.index == r.head.tree then r.Finish(r.attempt.key, Result(false, None, "no_changes"), NoChanges)
      else r.(attempt := Staged(r.attempt.message, r.attempt.key))
    case CommitStaged(stamp) =>
      if r.index == r.head.tree then r.(attempt := Idle)
      else
        var sha := Commit(Some(r.head), r.index, FullMessage(r.attempt.message, r.attempt.key), stamp);
        r.(head := sha, attempt := Unread(r.attempt.key))
    case ReadHead => r.(attempt := Committed(r.attempt.key, r.head))
    case CountBehind =>
      if Behind(r.head, r.fetched.value) > 0 then
        r.Finish(r.attempt.key, Result(false, Some(r.attempt.sha), "remote_advanced"), RemoteAdvanced)
      else r.(attempt := UpToDate(r.attempt.key, r.attempt.sha))
    case Push(delivered, reply) => AfterPush(r, delivered, reply)
    case Crash => r.(attempt := Idle)
    case PrepareFetch => r.(fetched := Some(r.remote))
    case PrepareReset =>
      var target := r.fetched.value;
      r.(head := target, index := target.tree, worktree := HardReset(r.worktree, r.index, target.tree))
    case PrepareCheckout => r.(head := r.fetched.value)
    case Edit(tree) => r.(worktree := tree)
    case Append(tree, message, stamp) => r.(remote := Commit(Some(r.remote), tree, message, stamp))
  }

  function Next(r: Repo, step: Step): Repo {
    if Enabled(r, step) then After(r, step) else r
  }

  function Run(r: Repo, steps: seq<Step>): Repo
    decreases |steps|
  {
    if steps == [] then r else Run(Next(r, steps[0]), steps[1..])
  }

  lemma {:induction false} RunAppend(r: Repo, first: seq<Step>, second: seq<Step>)
    ensures Run(r, first + second) == Run(Run(r, first), second)
    decreases |first|
  {
    if first == [] {
      assert first + second == second;
    } else {
      assert (first + second)[1..] == first[1..] + second;
      RunAppend(Next(r, first[0]), first[1..], second);
    }
  }

  lemma RunSnoc(r: Repo, steps: seq<Step>, step: Step)
    ensures Run(r, steps + [step]) == Next(Run(r, steps), step)
  {
    RunAppend(r, steps, [step]);
    assert [step][1..] == [];
  }

  lemma NoSteps(r: Repo)
    ensures Run(r, []) == r
  {
  }

  // ---- the code ----

  predicate Foreign(step: Step) {
    step.Edit? || step.Append?
  }

  predicate AllForeign(steps: seq<Step>) {
    forall i :: 0 <= i < |steps| ==> Foreign(steps[i])
  }

  /** The tree after what others did: the last edit is what is there. */
  function Edited(worktree: Tree, steps: seq<Step>): Tree {
    if steps == [] then worktree
    else if Last(steps).Edit? then Last(steps).tree
    else Edited(worktree, DropLast(steps))
  }

  /** What an attempt meets: `gaps[i]` is what others do before its i-th command,
      the rest is how the fetch, the lookup and the push come out. */
  datatype Circumstances = Circumstances(
    gaps: seq<seq<Step>>,
    fetchError: Option<string>,
    lookupLost: bool,
    stamp: nat,
    delivered: bool,
    pushError: Option<string>
  ) {
    predicate Valid() {
      |gaps| == 8 && forall i :: 0 <= i < 8 ==> AllForeign(gaps[i])
    }
  }

  /** One `Begin` and after it only commands and interference. */
  predicate IsAttempt(script: seq<Step>, message: string, key: string) {
    script != [] && script[0] == Begin(message, key) &&
    forall i :: 1 <= i < |script| ==>
      !script[i].Begin? && !script[i].Crash? && !script[i].PrepareFetch? && !script[i].PrepareReset? &&
      !script[i].PrepareCheckout?
  }

  /** The attempt is over and its last act was to return this result for this key. */
  predicate Returned(r: Repo, key: string, result: Result) {
    r.attempt.Idle? && r.log != [] && Last(r.log).Finished? && Last(r.log).key == key && Last(r.log).result == result
  }

  /** The clone a push attempt works in, and the branch it publishes to. */
  class Workspace {
    var head: Commit
    var index: Tree
    var worktree: Tree
    var fetched: Option<Commit>
    var remote: Commit
    ghost var attempt: Attempt
    ghost var log: seq<Mark>

    ghost function View(): Repo
      reads this
    {
      Repo(head, index, worktree, fetched, remote, attempt, log)
    }

    /** A clone: of the pull request's branch, or of the default branch where the
        former is not there to clone; either way clean. */
    constructor (cloned: Commit, remote: Commit)
      ensures View() == Repo(cloned, cloned.tree, cloned.tree, None, remote, Idle, [])
    {
      head, index, worktree, fetched, this.remote := cloned, cloned.tree, cloned.tree, None, remote;
      attempt, log := Idle, [];
    }

    /** What others do while the attempt is between two commands. */
    method Interfere(ghost start: Repo, ghost script: seq<Step>, steps: seq<Step>) returns (ghost script': seq<Step>)
      requires View() == Run(start, script) && AllForeign(steps)
      modifies this`worktree, this`remote
      ensures script' == script + steps && View() == Run(start, script')
      ensures worktree == Edited(old(worktree), steps)
    {
      script' := script + steps;
      assert script + steps[..0] == script;
      for i := 0 to |steps|
        invariant View() == Run(start, script + steps[..i])
        invariant worktree == Edited(old(worktree), steps[..i])
      {
        assert DropLast(steps[..i + 1]) == steps[..i];
        RunSnoc(start, script + steps[..i], steps[i]);
        assert script + steps[..i + 1] == script + steps[..i] + [steps[i]];
        match steps[i]
        case Edit(tree) => worktree := tree;
        case Append(tree, message, stamp) => remote := Commit(Some(remote), tree, message, stamp);
      }
      assert script + steps[..|steps|] == script';
      assert steps[..|steps|] == steps;
    }

    ghost method Leave(key: string, result: Result, exit: Exit)
      modifies this`attempt, this`log
      ensures View() == old(View()).Finish(key, result, exit)
    {
      attempt := Idle;
      log := log + [Finished(key, result, exit)];
    }

    /** `_prepare_workdir_at` on an existing clone: fetch, reset, check out. What
        others leave in the tree before the reset stays where git does not track
        it, and what they do between reset and checkout stays altogether. */
    method PrepareWorkdir(early: seq<Step>, late: seq<Step>) returns (ghost script: seq<Step>)
      requires attempt.Idle? && AllForeign(early) && AllForeign(late)
      modifies this
      ensures script == [PrepareFetch] + early + [PrepareReset] + late + [PrepareCheckout]
      ensures View() == Run(old(View()), script)
      ensures head == old(remote) && index == old(remote).tree
      ensures worktree == Edited(HardReset(Edited(old(worktree), early), old(index), old(remote).tree), late)
    {
      hide Run, HardReset, Edited, Ancestor;
      ghost var start := View();
      assert Run(start, []) == start by {
        NoSteps(start);
      }
      RunSnoc(start, [], PrepareFetch);
      script := [] + [PrepareFetch];
      fetched := Some(remote);
      script := ResetHard(start, script, early);
      script := CheckOut(start, script, late);
    }

    method ResetHard(ghost start: Repo, ghost before: seq<Step>, early: seq<Step>) returns (ghost script: seq<Step>)
      requires View() == Run(start, before) && AllForeign(early)
      requires attempt.Idle? && fetched.Some?
      modifies this
      ensures script == before + early + [PrepareReset]
      ensures View() == Run(start, script)
      ensures fetched == old(fetched) && attempt.Idle? && Some(head) == fetched && index == head.tree
      ensures worktree == HardReset(Edited(old(worktree), early), old(index), head.tree)
    {
      hide Run, HardReset, Edited, Ancestor;
      script := Interfere(start, before, early);
      RunSnoc(start, script, PrepareReset);
      script := script + [PrepareReset];
      head := fetched.value;
      worktree := HardReset(worktree, index, head.tree);
      index := head.tree;
    }

    /** `checkout -B` of the commit that HEAD is at already. */
    method CheckOut(ghost start: Repo, ghost before: seq<Step>, late: seq<Step>) returns (ghost script: seq<Step>)
      requires View() == Run(start, before) && AllForeign(late)
      requires attempt.Idle? && fetched == Some(head)
      modifies this
      ensures script == before + late + [PrepareCheckout]
      ensures View() == Run(start, script)
      ensures head == old(head) && index == old(index) && worktree == Edited(old(worktree), late)
    {
      hide Run, Edited, Ancestor;
      script := Interfere(start, before, late);
      RunSnoc(start, script, PrepareCheckout);
      script := script + [PrepareCheckout];
      head := fetched.value;
    }

    /** One attempt that is not cut short. It is a run of the machine that ends by
        returning `result`. */
    method PushChangesAt(message: string, key: string, c: Circumstances) returns (result: Result, ghost script: seq<Step>)
      requires attempt.Idle? && c.Valid()
      modifies this
      ensures View() == Run(old(View()), script)
      ensures IsAttempt(script, message, key)
      ensures Returned(View(), key, result)
    {
      hide Run, Behind, Ancestor, FullMessage, Lookup;
      ghost var start := View();
      assert Run(start, []) == start by {
        NoSteps(start);
      }
      RunSnoc(start, [], Begin(message, key));
      attempt := Begun(message, key);
      script := [] + [Begin(message, key)];
      script := Interfere(start, script, c.gaps[0]);
      RunSnoc(start, script, Fetch(c.fetchError));
      script := script + [Fetch(c.fetchError)];
      if c.fetchError.Some? {
        result := Result(false, None, c.fetchError.value);
        Leave(key, result, FetchFailed);
        return;
      }
      fetched := Some(remote);
      attempt := Fetched(message, key);
      result, script := LookUpAndPush(start, script, message, key, c);
    }

    /** After the fetch: done if the key is found published. */
    method LookUpAndPush(ghost start: Repo, ghost before: seq<Step>, message: string, key: string, c: Circumstances)
      returns (result: Result, ghost script: seq<Step>)
      requires View() == Run(start, before) && IsAttempt(before, message, key) && c.Valid()
      requires attempt == Fetched(message, key) && fetched.Some?
      modifies this
      ensures View() == Run(start, script)
      ensures IsAttempt(script, message, key)
      ensures Returned(View(), key, result)
    {
      hide Run, Behind, Ancestor, FullMessage, Lookup;
      script := Interfere(start, before, c.gaps[1]);
      RunSnoc(start, script, LookUp(c.lookupLost));
      script := script + [LookUp(c.lookupLost)];
      var found := if c.lookupLost then None else Lookup(fetched.value, key, FETCH_DEPTH);
      if found.Some? {
        result := Result(true, found, "");
        Leave(key, result, AlreadyThere);
        return;
      }
      attempt := Missed(message, key);
      result, script := StageAndPush(start, script, message, key, c);
    }

    /** The second half of the attempt, once the lookup has found nothing. */
    method StageAndPush(ghost start: Repo, ghost before: seq<Step>, message: string, key: string, c: Circumstances)
      returns (result: Result, ghost script: seq<Step>)
      requires View() == Run(start, before) && IsAttempt(before, message, key) && c.Valid()
      requires attempt == Missed(message, key) && fetched.Some?
      modifies this
      ensures View() == Run(start, script)
      ensures IsAttempt(script, message, key)
      ensures Returned(View(), key, result)
    {
      hide Run, Behind, Ancestor, FullMessage, Lookup;
      script := Interfere(start, before, c.gaps[2]);
      RunSnoc(start, script, Stage);
      script := script + [Stage];
      index := worktree;
      attempt := Added(message, key);
      result, script := DiffAndPush(start, script, message, key, c);
    }

    method DiffAndPush(ghost start: Repo, ghost before: seq<Step>, message: string, key: string, c: Circumstances)
      returns (result: Result, ghost script: seq<Step>)
      requires View() == Run(start, before) && IsAttempt(before, message, key) && c.Valid()
      requires attempt == Added(message, key) && fetched.Some?
      modifies this
      ensures View() == Run(start, script)
      ensures IsAttempt(script, message, key)
      ensures Returned(View(), key, result)
    {
      hide Run, Behind, Ancestor, FullMessage, Lookup;
      script := Interfere(start, before, c.gaps[3]);
      RunSnoc(start, script, DiffCached);
      script := script + [DiffCached];
      if index == head.tree {
        result := Result(false, None, "no_changes");
        Leave(key, result, NoChanges);
        return;
      }
      attempt := Staged(message, key);
      result, script := CommitAndPush(start, script, message, key, c);
    }

    method CommitAndPush(ghost start: Repo, ghost before: seq<Step>, message: string, key: string, c: Circumstances)
      returns (result: Result, ghost script: seq<Step>)
      requires View() == Run(start, before) && IsAttempt(before, message, key) && c.Valid()
      requires attempt == Staged(message, key) && fetched.Some? && index != head.tree
      modifies this
      ensures View() == Run(start, script)
      ensures IsAttempt(script, message, key)
      ensures Returned(View(), key, result)
    {
      hide Run, Behind, Ancestor, FullMessage, Lookup;
      script := Interfere(start, before, c.gaps[4]);
      RunSnoc(start, script, CommitStaged(c.stamp));
      script := script + [CommitStaged(c.stamp)];
      head := Commit(Some(head), index, FullMessage(message, key), c.stamp);
      attempt := Unread(key);
      result, script := ReadAndPush(start, script, message, key, c);
    }

    method ReadAndPush(ghost start: Repo, ghost before: seq<Step>, message: string, key: string, c: Circumstances)
      returns (result: Result, ghost script: seq<Step>)
      requires View() == Run(start, before) && IsAttempt(before, message, key) && c.Valid()
      requires attempt == Unread(key) && fetched.Some?
      modifies this
      ensures View() == Run(start, script)
      ensures IsAttempt(script, message, key)
      ensures Returned(View(), key, result)
    {
      hide Run, Behind, Ancestor, FullMessage, Lookup;
      script := Interfere(start, before, c.gaps[5]);
      RunSnoc(start, script, ReadHead);
      script := script + [ReadHead];
      var sha := head;
      attempt := Committed(key, sha);
      result, script := CountAndPush(start, script, message, key, sha, c);
    }

    method CountAndPush(
      ghost start: Repo, ghost before: seq<Step>, message: string, key: string, sha: Commit, c: Circumstances
    ) returns (result: Result, ghost script: seq<Step>)
      requires View() == Run(start, before) && IsAttempt(before, message, key) && c.Valid()
      requires attempt == Committed(key, sha) && fetched.Some?
      modifies this
      ensures View() == Run(start, script)
      ensures IsAttempt(script, message, key)
      ensures Returned(View(), key, result)
    {
      hide Run, Behind, Ancestor, FullMessage, Lookup;
      script := Interfere(start, before, c.gaps[6]);
      RunSnoc(start, script, CountBehind);
      script := script + [CountBehind];
      var behind := Behind(head, fetched.value);
      if behind > 0 {
        result := Result(false, Some(sha), "remote_advanced");
        Leave(key, result, RemoteAdvanced);
        return;
      }
      attempt := UpToDate(key, sha);
      script := Interfere(start, script, c.gaps[7]);
      result, script := PushNow(start, script, message, key, sha, c);
    }

    method PushNow(
      ghost start: Repo, ghost before: seq<Step>, message: string, key: string, sha: Commit, c: Circumstances
    ) returns (result: Result, ghost script: seq<Step>)
      requires View() == Run(start, before) && IsAttempt(before, message, key)
      requires attempt == UpToDate(key, sha)
      modifies this
      ensures View() == Run(start, script)
      ensures IsAttempt(script, message, key)
      ensures Returned(View(), key, result)
    {
      hide Run, Ancestor;
      ghost var step := Push(c.delivered, if c.pushError.Some? then Failing(c.pushError.value) else Reported);
      RunSnoc(start, before, step);
      script := before + [step];
      var landed := c.delivered && Ancestor(remote, head);
      if landed && remote != head {
        log := log + [Advanced(key, remote, head)];
        remote := head;
      }
      if c.pushError.Some? {
        result := Result(false, Some(sha), c.pushError.value);
        Leave(key, result, PushFailed);
      } else if !landed {
        result := Result(false, Some(sha), "rejected");
        Leave(key, result, PushFailed);
      } else {
        result := Result(true, Some(sha), "");
        Leave(key, result, PushedNow);
      }
    }
  }
}
