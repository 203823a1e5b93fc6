/** At most one advance of the branch per key, and what a later attempt returns. */
module PublishOnce {
  import opened Sequences
  import opened Publish
  import opened PublishSafety

  // ---- messages that carry exactly their own key ----

  predicate IsKey(key: string) {
    |key| == 32 && forall i :: 0 <= i < |key| ==> '0' <= key[i] <= '9' || 'a' <= key[i] <= 'f'
  }

  /** The key trailer occurs nowhere: what is assumed of every message the code did not stamp. */
  predicate Unstamped(message: string) {
    !Contains(message, KEY_TRAILER)
  }

  lemma UnstampedCarriesNothing(message: string, key: string)
    requires Unstamped(message)
    ensures !Carries(message, key)
  {
    if Carries(message, key) {
      var p: nat :| p <= |message| && OccursAt(KEY_TRAILER + key, message, p);
      assert message[p..p + |KEY_TRAILER|] == (KEY_TRAILER + key)[..|KEY_TRAILER|] == KEY_TRAILER;
      assert OccursAt(KEY_TRAILER, message, p);
    }
  }

  lemma TrailerLetters()
    ensures |KEY_TRAILER| > 0 && KEY_TRAILER[0] == 'A'
    ensures forall i :: 0 < i < |KEY_TRAILER| ==> KEY_TRAILER[i] != 'A'
    ensures forall i :: 0 <= i < |KEY_TRAILER| ==> KEY_TRAILER[i] != '\n'
    ensures forall i :: 0 <= i < |BOT_TRAILER| ==> BOT_TRAILER[i] != 'A'
  {
  }

  lemma OccursInPrefix(pattern: string, text: string, after: string)
    ensures forall k: nat :: k + |pattern| <= |text| && OccursAt(pattern, text + after, k) ==> Contains(text, pattern)
  {
    forall k: nat | k + |pattern| <= |text| && OccursAt(pattern, text + after, k) ensures Contains(text, pattern) {
      assert text[k..k + |pattern|] == (text + after)[k..k + |pattern|];
      assert OccursAt(pattern, text, k);
    }
  }

  /** The one place where the trailer occurs in a stamped message. */
  lemma TrailerOccursOnce(message: string, key: string, p: nat)
    requires Unstamped(message) && IsKey(key)
    requires p <= |FullMessage(message, key)| && OccursAt(KEY_TRAILER, FullMessage(message, key), p)
    ensures p == |message| + 2 + |BOT_TRAILER| + 1
  {
    TrailerLetters();
    hide KEY_TRAILER, BOT_TRAILER;
    var full := FullMessage(message, key);
    var front := message + "\n\n" + BOT_TRAILER + "\n";
    var q := |front|;
    assert full == front + KEY_TRAILER + key;
    var after := "\n\n" + BOT_TRAILER + "\n" + KEY_TRAILER + key;
    assert full == message + after;
    OccursInPrefix(KEY_TRAILER, message, after);
    assert forall i :: p <= i < p + |KEY_TRAILER| ==> full[i] == full[p..p + |KEY_TRAILER|][i - p];
    assert forall i :: p <= i < p + |KEY_TRAILER| ==> full[i] == KEY_TRAILER[i - p];
    assert full[p] == 'A';
    assert forall i :: |message| + 2 <= i < q - 1 ==> full[i] == BOT_TRAILER[i - |message| - 2];
    assert forall i :: q <= i < q + |KEY_TRAILER| ==> full[i] == KEY_TRAILER[i - q];
    assert forall i :: q + |KEY_TRAILER| <= i < |full| ==> full[i] == key[i - q - |KEY_TRAILER|];
    assert full[|message|] == '\n' && full[|message| + 1] == '\n' && full[q - 1] == '\n';
  }

  /** The message of a commit: what was approved, the bot's mark that the gateway
      looks for, and the key. */
  lemma StampLayout(message: string, key: string)
    ensures FullMessage(message, key) == message + "\n\n[autofix-bot]\nAutofix-Idempotency: " + key
    ensures message <= FullMessage(message, key) && Contains(FullMessage(message, key), "[autofix-bot]")
    ensures Carries(message, key) <==> Contains(message, "Autofix-Idempotency: " + key)
  {
    var full := FullMessage(message, key);
    assert full[|message| + 2..|message| + 15] == "[autofix-bot]";
    assert OccursAt("[autofix-bot]", full, |message| + 2);
  }

  lemma StampCarriesOnlyItsKey(message: string, key: string, other: string)
    requires Unstamped(message) && IsKey(key) && IsKey(other)
    ensures Carries(FullMessage(message, key), other) <==> key == other
  {
    CarriesOwnKey(message, key);
    var full := FullMessage(message, key);
    if Carries(full, other) {
      hide KEY_TRAILER, BOT_TRAILER;
      var p: nat :| p <= |full| && OccursAt(KEY_TRAILER + other, full, p);
      var n := |KEY_TRAILER|;
      assert full[p..p + n] == full[p..p + n + |other|][..n];
      assert full[p + n..p + n + |other|] == full[p..p + n + |other|][n..] == other;
      assert OccursAt(KEY_TRAILER, full, p);
      TrailerOccursOnce(message, key, p);
      assert full[p + n..] == key;
    }
  }

  // ---- what is assumed of a run ----

  /** Keys are keys, and nobody but the code writes the trailer. */
  predicate Hygienic(step: Step) {
    match step
    case Begin(message, key) => IsKey(key) && Unstamped(message)
    case Append(_, message, _) => Unstamped(message)
    case _ => true
  }

  /** Where a commit carries the key, the lookup succeeds and that commit is among those fetched. */
  predicate InReach(r: Repo, step: Step) {
    step.LookUp? && Enabled(r, step) && Newest(r.fetched.value, r.attempt.key).Some? ==>
      !step.lost && OnTop(r.fetched.value, r.attempt.key) < FETCH_DEPTH
  }

  predicate Assumed(r: Repo, steps: seq<Step>)
    decreases |steps|
  {
    steps == [] || (Hygienic(steps[0]) && InReach(r, steps[0]) && Assumed(Next(r, steps[0]), steps[1..]))
  }

  // ---- the invariant ----

  predicate Published(r: Repo, key: string) {
    Newest(r.remote, key).Some?
  }

  /** Of a published key, the clone holds no commit that the branch does not. */
  ghost predicate NoSpare(r: Repo, key: string) {
    Published(r, key) && Newest(r.head, key).Some? ==> Ancestor(Newest(r.head, key).value, r.remote)
  }

  predicate KeyedAttempt(r: Repo) {
    match r.attempt
    case Idle => true
    case Begun(message, key) => IsKey(key) && Unstamped(message)
    case Fetched(message, key) =>
      IsKey(key) && Unstamped(message) && r.fetched.Some? && Newest(r.remote, key) == Newest(r.fetched.value, key)
    case Missed(message, key) => IsKey(key) && Unstamped(message) && !Published(r, key)
    case Added(message, key) => IsKey(key) && Unstamped(message) && !Published(r, key)
    case Staged(message, key) => IsKey(key) && Unstamped(message) && !Published(r, key)
    case Unread(key) => IsKey(key) && !Published(r, key)
    case Committed(key, _) => IsKey(key) && !Published(r, key)
    case UpToDate(key, _) => IsKey(key) && !Published(r, key)
  }

  /** Every advance was for a key now published; every success named the commit a lookup would find. */
  ghost predicate Named(r: Repo, mark: Mark) {
    match mark
    case Advanced(key, _, _) => IsKey(key) && Published(r, key)
    case Finished(key, result, _) =>
      IsKey(key) && (result.pushed ==> result.commit.Some? && Newest(r.remote, key) == result.commit)
  }

  /** Two marks, the first before the second. */
  predicate Ordered(first: Mark, second: Mark) {
    && (first.Advanced? && second.Advanced? ==> first.key != second.key)
    && (first.Finished? && first.result.pushed && first.key == second.key ==>
          second.Finished? && (second.exit.FetchFailed? ||
                               (second.result.pushed && second.result.commit == first.result.commit)))
  }

  predicate AllOrdered(log: seq<Mark>) {
    forall i, j :: 0 <= i < j < |log| ==> Ordered(log[i], log[j])
  }

  ghost predicate Once(r: Repo) {
    && Sound(r)
    && (forall key :: IsKey(key) ==> NoSpare(r, key))
    && KeyedAttempt(r)
    && (forall mark :: mark in r.log ==> Named(r, mark))
    && AllOrdered(r.log)
  }

  // ---- steps ----

  /** Foreign commits carry no key, so every key's newest commit stays. */
  lemma AppendOnce(r: Repo, step: Step)
    requires Once(r) && step.Append? && Hygienic(step)
    ensures Once(Next(r, step))
  {
    var r' := Next(r, step);
    SoundNext(r, step);
    RemoteGrows(r, step);
    forall key ensures Newest(r'.remote, key) == Newest(r.remote, key) {
      UnstampedCarriesNothing(step.message, key);
    }
    hide Newest, Carries, Unstamped, IsKey;
    forall key | IsKey(key) ensures NoSpare(r', key) {
      assert NoSpare(r, key);
      if Published(r, key) && Newest(r.head, key).Some? {
        AncestorTransitive(Newest(r.head, key).value, r.remote, r'.remote);
      }
    }
    forall mark | mark in r'.log ensures Named(r', mark) {
      assert Named(r, mark);
    }
  }

  lemma CommitOnce(r: Repo, step: Step)
    requires Once(r) && step.CommitStaged? && Enabled(r, step)
    ensures Once(Next(r, step))
  {
    var r' := Next(r, step);
    SoundNext(r, step);
    if r'.head == r.head {
      IdleOnce(r, r');
    } else {
      var message, key := r.attempt.message, r.attempt.key;
      forall k | IsKey(k) ensures NoSpare(r', k) {
        assert NoSpare(r, k);
        StampCarriesOnlyItsKey(message, key, k);
        hide Carries;
        assert k != key ==> Newest(r'.head, k) == Newest(r.head, k);
      }
      hide Carries, IsKey, Unstamped, FullMessage;
      forall mark | mark in r'.log ensures Named(r', mark) {
        assert Named(r, mark);
      }
    }
  }

  /** A fast-forward publishes the clone's history: published keys keep their
      newest commit, and the attempt's key becomes published by its own commit. */
  lemma LandingKeeps(r: Repo, key: string)
    requires Ancestor(r.remote, r.head) && NoSpare(r, key) && Published(r, key)
    ensures Newest(r.head, key) == Newest(r.remote, key)
  {
    hide Carries;
    NewestThrough(r.remote, r.head, key);
  }

  lemma SnocOrdered(log: seq<Mark>, mark: Mark)
    requires AllOrdered(log) && forall m :: m in log ==> Ordered(m, mark)
    ensures AllOrdered(log + [mark])
  {
  }

  predicate NoSuccess(r: Repo, key: string) {
    forall m :: m in r.log && m.Finished? && m.result.pushed ==> m.key != key
  }

  lemma UnpublishedNoSuccess(r: Repo, key: string)
    requires Once(r) && !Published(r, key)
    ensures NoSuccess(r, key)
  {
    forall m | m in r.log && m.Finished? && m.result.pushed ensures m.key != key {
      assert Named(r, m);
    }
  }

  /** An attempt returns. */
  lemma LeaveOnce(r: Repo, r': Repo, key: string, result: Result, exit: Exit)
    requires Once(r) && r' == r.Finish(key, result, exit) && Sound(r') && IsKey(key)
    requires result.pushed ==> result.commit.Some? && Newest(r.remote, key) == result.commit
    requires !result.pushed ==> exit.FetchFailed? || NoSuccess(r, key)
    ensures Once(r')
  {
    hide Newest, Carries, IsKey, Sound;
    var mark := Finished(key, result, exit);
    forall m | m in r.log ensures Ordered(m, mark) && Named(r', m) {
      assert Named(r, m);
    }
    SnocOrdered(r.log, mark);
    forall k | IsKey(k) ensures NoSpare(r', k) {
      assert NoSpare(r, k);
    }
  }

  /** The branch moves to HEAD on behalf of a key that was not published. */
  lemma LandOnce(r: Repo, r': Repo, key: string)
    requires Once(r) && r.attempt.UpToDate? && key == r.attempt.key && Ancestor(r.remote, r.head)
    requires r' == r.(remote := r.head, log := r.log + [Advanced(key, r.remote, r.head)], attempt := Idle)
    requires Sound(r')
    ensures Once(r') && Newest(r'.remote, key) == Some(r.head)
  {
    var mark := Advanced(key, r.remote, r.head);
    assert Newest(r.head, key) == Some(r.head);
    forall k ensures Newest(r.head, k).Some? ==> Ancestor(Newest(r.head, k).value, r.head) {
      NewestIsNewest(r.head, k);
    }
    forall k | IsKey(k) && Published(r, k) ensures Newest(r'.remote, k) == Newest(r.remote, k) {
      assert NoSpare(r, k);
      LandingKeeps(r, k);
    }
    hide Newest, Carries, IsKey, Sound;
    forall m | m in r.log ensures Ordered(m, mark) && Named(r', m) {
      assert Named(r, m);
    }
    SnocOrdered(r.log, mark);
  }

  lemma PushOnce(r: Repo, step: Step)
    requires Once(r) && step.Push? && Enabled(r, step)
    ensures Once(Next(r, step))
  {
    var r' := Next(r, step);
    SoundNext(r, step);
    var key := r.attempt.key;
    if step.delivered && Ancestor(r.remote, r.head) {
      var landed := r.(remote := r.head, log := r.log + [Advanced(key, r.remote, r.head)], attempt := Idle);
      SoundNext(r, Push(true, Lost));
      LandOnce(r, landed, key);
      if !step.reply.Lost? {
        UnpublishedNoSuccess(r, key);
        var result := if step.reply.Reported? then Result(true, Some(r.attempt.sha), "")
                      else Result(false, Some(r.attempt.sha), step.reply.error);
        LeaveOnce(landed, r', key, result, if step.reply.Reported? then PushedNow else PushFailed);
      }
    } else {
      var idle := r.(attempt := Idle);
      SoundNext(r, Push(false, Lost));
      IdleOnce(r, idle);
      if !step.reply.Lost? {
        UnpublishedNoSuccess(r, key);
        var result := Result(false, Some(r.attempt.sha), if step.reply.Failing? then step.reply.error else "rejected");
        LeaveOnce(idle, r', key, result, PushFailed);
      }
    }
  }

  lemma IdleOnce(r: Repo, r': Repo)
    requires Once(r) && r' == r.(attempt := Idle) && Sound(r')
    ensures Once(r')
  {
    hide Newest, Carries, IsKey, Sound;
    forall k | IsKey(k) ensures NoSpare(r', k) {
      assert NoSpare(r, k);
    }
    forall m | m in r'.log ensures Named(r', m) {
      assert Named(r, m);
    }
  }

  lemma FetchOnce(r: Repo, step: Step)
    requires Once(r) && step.Fetch? && Enabled(r, step)
    ensures Once(Next(r, step))
  {
    var r' := Next(r, step);
    SoundNext(r, step);
    if step.error.Some? {
      LeaveOnce(r, r', r.attempt.key, Result(false, None, step.error.value), FetchFailed);
    } else {
      FrameOnce(r, r');
    }
  }

  lemma LookUpOnce(r: Repo, step: Step)
    requires Once(r) && step.LookUp? && Enabled(r, step) && InReach(r, step)
    ensures Once(Next(r, step))
  {
    var r' := Next(r, step);
    SoundNext(r, step);
    var key := r.attempt.key;
    LookupExact(r.fetched.value, key, FETCH_DEPTH);
    var found := Found(r, step.lost);
    hide Lookup;
    if found.Some? {
      LeaveOnce(r, r', key, Result(true, found, ""), AlreadyThere);
    } else {
      FrameOnce(r, r');
    }
  }

  /** The commands that move neither HEAD nor the branch. */
  lemma LocalOnce(r: Repo, step: Step)
    requires Once(r) && Enabled(r, step) && Hygienic(step)
    requires step.Begin? || step.Stage? || step.DiffCached? || step.ReadHead? || step.CountBehind? || step.Crash? ||
             step.Edit? || step.PrepareFetch? || step.PrepareCheckout?
    ensures Once(Next(r, step))
  {
    var r' := Next(r, step);
    SoundNext(r, step);
    hide Behind, Newest, Carries, IsKey, Unstamped, Sound;
    if step.DiffCached? && r'.attempt.Idle? {
      UnpublishedNoSuccess(r, r.attempt.key);
      LeaveOnce(r, r', r.attempt.key, Result(false, None, "no_changes"), NoChanges);
    } else if step.CountBehind? && r'.attempt.Idle? {
      UnpublishedNoSuccess(r, r.attempt.key);
      LeaveOnce(r, r', r.attempt.key, Result(false, Some(r.attempt.sha), "remote_advanced"), RemoteAdvanced);
    } else {
      FrameOnce(r, r');
    }
  }

  lemma ResetOnce(r: Repo, step: Step)
    requires Once(r) && step.PrepareReset? && Enabled(r, step)
    ensures Once(Next(r, step))
  {
    var r' := Next(r, step);
    SoundNext(r, step);
    forall key | IsKey(key) ensures NoSpare(r', key) {
      NewestIsNewest(r'.head, key);
      if Newest(r'.head, key).Some? {
        AncestorTransitive(Newest(r'.head, key).value, r'.head, r'.remote);
      }
    }
    hide Newest, Carries, IsKey, Sound;
    forall mark | mark in r'.log ensures Named(r', mark) {
      assert Named(r, mark);
    }
  }

  /** Neither history nor log changes. */
  lemma FrameOnce(r: Repo, r': Repo)
    requires Once(r) && Sound(r') && KeyedAttempt(r')
    requires r'.head == r.head && r'.remote == r.remote && r'.log == r.log
    ensures Once(r')
  {
    hide Newest, Carries, IsKey, Sound, KeyedAttempt;
    forall key | IsKey(key) ensures NoSpare(r', key) {
      assert NoSpare(r, key);
    }
    forall mark | mark in r'.log ensures Named(r', mark) {
      assert Named(r, mark);
    }
  }

  lemma OnceNext(r: Repo, step: Step)
    requires Once(r) && Hygienic(step) && InReach(r, step)
    ensures Once(Next(r, step))
  {
    if Enabled(r, step) {
      hide After, Once;
      match step
      case Append(_, _, _) => AppendOnce(r, step);
      case CommitStaged(_) => CommitOnce(r, step);
      case Push(_, _) => PushOnce(r, step);
      case Fetch(_) => FetchOnce(r, step);
      case LookUp(_) => LookUpOnce(r, step);
      case PrepareReset => ResetOnce(r, step);
      case _ => LocalOnce(r, step);
    }
  }

  lemma {:induction false} OnceRun(r: Repo, steps: seq<Step>)
    requires Once(r) && Assumed(r, steps)
    ensures Once(Run(r, steps))
    decreases |steps|
  {
    if steps != [] {
      OnceNext(r, steps[0]);
      hide Next, Once;
      OnceRun(Next(r, steps[0]), steps[1..]);
    }
  }

  /** The start: as `prepare_workdir` leaves it, the clone is at a commit of the branch. */
  lemma StartOnce(r: Repo)
    requires Initial(r) && Ancestor(r.head, r.remote)
    ensures Once(r)
  {
    forall key | IsKey(key) ensures NoSpare(r, key) {
      NewestIsNewest(r.head, key);
      if Newest(r.head, key).Some? {
        AncestorTransitive(Newest(r.head, key).value, r.head, r.remote);
      }
    }
  }

  /** In every run the branch is advanced on behalf of a key at most once; after
      an attempt for a key has succeeded, none for that key advances the branch,
      and each that gets past its fetch returns success with the same commit. */
  lemma PublishedAtMostOnce(r: Repo, steps: seq<Step>)
    requires Initial(r) && Ancestor(r.head, r.remote) && Assumed(r, steps)
    ensures AllOrdered(Run(r, steps).log)
  {
    StartOnce(r);
    OnceRun(r, steps);
  }
}
