/** What every run of push attempts keeps, one at a time, with crashes, edits and
    foreign commits anywhere. */
module PublishSafety {
  import opened Sequences
  import opened Publish

  // ---- histories ----

  lemma {:induction false} AncestorTransitive(a: Commit, b: Commit, c: Commit)
    requires Ancestor(a, b) && Ancestor(b, c)
    ensures Ancestor(a, c)
    decreases c
  {
    if b != c {
      AncestorTransitive(a, b, c.parent.value);
    }
  }

  function Height(c: Commit): nat {
    if c.parent.None? then 0 else 1 + Height(c.parent.value)
  }

  lemma {:induction false} AncestorIsLower(a: Commit, c: Commit)
    requires Ancestor(a, c)
    ensures Height(a) <= Height(c)
    ensures Height(a) == Height(c) ==> a == c
    decreases c
  {
    if a != c {
      AncestorIsLower(a, c.parent.value);
    }
  }

  /** A behind-count of zero says the fetched branch is contained in HEAD. */
  lemma {:induction false} BehindZero(head: Commit, fetched: Commit)
    ensures Behind(head, fetched) == 0 <==> Ancestor(fetched, head)
    decreases fetched
  {
    if fetched.parent.Some? {
      var p := fetched.parent.value;
      BehindZero(head, p);
      if Ancestor(fetched, head) {
        assert Ancestor(p, fetched);
        AncestorTransitive(p, fetched, head);
      }
    }
  }

  /** The newest commit of a history that carries the key. */
  function Newest(c: Commit, key: string): Option<Commit> {
    if Carries(c.message, key) then Some(c)
    else if c.parent.None? then None
    else Newest(c.parent.value, key)
  }

  lemma {:induction false} NewestIsNewest(c: Commit, key: string)
    ensures match Newest(c, key)
            case Some(x) => Ancestor(x, c) && Carries(x.message, key)
            case None => true
    ensures forall a :: Ancestor(a, c) && Carries(a.message, key) ==>
              Newest(c, key).Some? && Ancestor(a, Newest(c, key).value)
    decreases c
  {
    if c.parent.Some? {
      NewestIsNewest(c.parent.value, key);
    }
    forall a | Ancestor(a, c) && Carries(a.message, key)
      ensures Newest(c, key).Some? && Ancestor(a, Newest(c, key).value)
    {
      if a != c && !Carries(c.message, key) {
        assert Ancestor(a, c.parent.value);
      }
    }
  }

  /** Seen through an ancestor whose newest keyed commit bounds the whole history's. */
  lemma NewestThrough(low: Commit, high: Commit, key: string)
    requires Ancestor(low, high) && Newest(low, key).Some?
    requires Newest(high, key).Some? ==> Ancestor(Newest(high, key).value, low)
    ensures Newest(high, key) == Newest(low, key)
  {
    NewestIsNewest(low, key);
    NewestIsNewest(high, key);
    var x := Newest(low, key).value;
    AncestorTransitive(x, low, high);
    var y := Newest(high, key).value;
    AncestorIsLower(x, y);
    AncestorIsLower(y, x);
  }

  /** How many commits lie above the newest keyed one. */
  function OnTop(c: Commit, key: string): nat {
    if Carries(c.message, key) || c.parent.None? then 0 else 1 + OnTop(c.parent.value, key)
  }

  /** The lookup finds the newest keyed commit exactly when fewer commits than
      were fetched lie on top of it. */
  lemma {:induction false} LookupExact(c: Commit, key: string, depth: nat)
    ensures Lookup(c, key, depth)
         == (if Newest(c, key).Some? && OnTop(c, key) < depth then Newest(c, key) else None)
    decreases depth
  {
    if 0 < depth && !Carries(c.message, key) && c.parent.Some? {
      LookupExact(c.parent.value, key, depth - 1);
    }
  }

  lemma {:induction false} OnTopIsDistance(c: Commit, key: string)
    ensures Newest(c, key).Some? ==> Height(c) == Height(Newest(c, key).value) + OnTop(c, key)
  {
    if !Carries(c.message, key) && c.parent.Some? {
      OnTopIsDistance(c.parent.value, key);
    }
  }

  /** What the lookup of an attempt prints: the keyed commit that every other keyed
      commit of the history is an ancestor of, if it is among the newest 50. */
  lemma FoundExactly(r: Repo, x: Commit)
    requires r.attempt.Fetched? && r.fetched.Some?
    ensures var c, key := r.fetched.value, r.attempt.key;
            Found(r, false) == Some(x) <==>
            && Ancestor(x, c) && Carries(x.message, key) && Height(c) < Height(x) + 50
            && forall a :: Ancestor(a, c) && Carries(a.message, key) ==> Ancestor(a, x)
    ensures Found(r, true) == None
  {
    var c, key := r.fetched.value, r.attempt.key;
    LookupExact(c, key, FETCH_DEPTH);
    NewestIsNewest(c, key);
    OnTopIsDistance(c, key);
    hide Lookup, Newest, OnTop, Carries, Ancestor, Height;
    if Newest(c, key).Some? {
      var y := Newest(c, key).value;
      if Ancestor(x, y) && Ancestor(y, x) {
        AncestorIsLower(x, y);
        AncestorIsLower(y, x);
      }
    }
  }

  // ---- one attempt at a time ----

  /** The marks of the log that say what is published. */
  ghost predicate Real(r: Repo, mark: Mark) {
    match mark
    case Advanced(key, before, after) =>
      Ancestor(before, after) && Ancestor(after, r.remote) && Carries(after.message, key)
    case Finished(key, result, _) =>
      result.pushed ==>
        result.commit.Some? && Ancestor(result.commit.value, r.remote) && Carries(result.commit.value.message, key)
  }

  ghost predicate Sound(r: Repo) {
    && (r.fetched.Some? ==> Ancestor(r.fetched.value, r.remote))
    && (r.attempt.Unread? ==> Carries(r.head.message, r.attempt.key))
    && (r.attempt.Committed? || r.attempt.UpToDate? ==>
          r.attempt.sha == r.head && Carries(r.head.message, r.attempt.key))
    && (forall mark :: mark in r.log ==> Real(r, mark))
  }

  lemma CarriesOwnKey(message: string, key: string)
    ensures Carries(FullMessage(message, key), key)
  {
    var front := message + "\n\n" + BOT_TRAILER + "\n";
    var pattern := KEY_TRAILER + key;
    var full := FullMessage(message, key);
    assert full == front + pattern;
    assert full[|front|..|front| + |pattern|] == pattern;
    assert OccursAt(pattern, full, |front|);
  }

  lemma RemoteGrows(r: Repo, step: Step)
    requires Sound(r)
    ensures Ancestor(r.remote, Next(r, step).remote)
  {
    hide Lookup, Behind, FullMessage;
  }

  lemma RealGrows(r: Repo, r': Repo)
    requires Ancestor(r.remote, r'.remote) && forall mark :: mark in r.log ==> Real(r, mark)
    ensures forall mark :: mark in r.log ==> Real(r', mark)
  {
    hide Carries;
    forall mark | mark in r.log ensures Real(r', mark) {
      assert Real(r, mark);
      match mark
      case Advanced(_, _, after) => AncestorTransitive(after, r.remote, r'.remote);
      case Finished(_, result, _) =>
        if result.pushed {
          AncestorTransitive(result.commit.value, r.remote, r'.remote);
        }
    }
  }

  /** What the remote's growth does for marks and for what was fetched. */
  lemma RestSound(r: Repo, step: Step)
    requires Sound(r)
    ensures var r' := Next(r, step);
            && (forall mark :: mark in r.log ==> Real(r', mark))
            && (r.fetched.Some? ==> Ancestor(r.fetched.value, r'.remote))
  {
    RemoteGrows(r, step);
    RealGrows(r, Next(r, step));
    hide Next, Real;
    if r.fetched.Some? {
      AncestorTransitive(r.fetched.value, r.remote, Next(r, step).remote);
    }
  }

  lemma LookUpSound(r: Repo, step: Step)
    requires Sound(r) && Enabled(r, step) && step.LookUp?
    ensures Sound(Next(r, step))
  {
    RestSound(r, step);
    LookupExact(r.fetched.value, r.attempt.key, FETCH_DEPTH);
    NewestIsNewest(r.fetched.value, r.attempt.key);
    hide Lookup, Carries;
    var found := Newest(r.fetched.value, r.attempt.key);
    if found.Some? {
      AncestorTransitive(found.value, r.fetched.value, r.remote);
    }
  }

  lemma CommitSound(r: Repo, step: Step)
    requires Sound(r) && Enabled(r, step) && step.CommitStaged?
    ensures Sound(Next(r, step))
  {
    RestSound(r, step);
    CarriesOwnKey(r.attempt.message, r.attempt.key);
    hide Carries, FullMessage, Behind, Lookup;
  }

  lemma PushSound(r: Repo, step: Step)
    requires Sound(r) && Enabled(r, step) && step.Push?
    ensures Sound(Next(r, step))
  {
    RestSound(r, step);
    hide Carries;
  }

  lemma OtherSound(r: Repo, step: Step)
    requires Sound(r) && Enabled(r, step) && !step.LookUp? && !step.CommitStaged? && !step.Push?
    ensures Sound(Next(r, step))
  {
    RestSound(r, step);
    hide Carries, Behind, Lookup, FullMessage, HardReset;
  }

  lemma SoundNext(r: Repo, step: Step)
    requires Sound(r)
    ensures Sound(Next(r, step))
  {
    hide After, Sound;
    if Enabled(r, step) {
      match step
      case LookUp(_) => LookUpSound(r, step);
      case CommitStaged(_) => CommitSound(r, step);
      case Push(_, _) => PushSound(r, step);
      case _ => OtherSound(r, step);
    }
  }

  lemma {:induction false} SoundRun(r: Repo, steps: seq<Step>)
    requires Sound(r)
    ensures Sound(Run(r, steps)) && Ancestor(r.remote, Run(r, steps).remote)
    decreases |steps|
  {
    if steps != [] {
      SoundNext(r, steps[0]);
      RemoteGrows(r, steps[0]);
      SoundRun(Next(r, steps[0]), steps[1..]);
      hide Next, Sound;
      AncestorTransitive(r.remote, Next(r, steps[0]).remote, Run(r, steps).remote);
    }
  }

  /** A workspace at the start: the log is empty and nothing is fetched yet. */
  predicate Initial(r: Repo) {
    r.attempt.Idle? && r.log == [] && r.fetched.None?
  }

  /** In every run of attempts one at a time, with crashes, edits and foreign commits
      anywhere: no commit that was ever on the branch is lost; every advance was a
      fast-forward to a commit that carries the key; and every result that says
      pushed names a commit that is on the branch and carries the key. */
  lemma NothingIsLost(r: Repo, earlier: seq<Step>, later: seq<Step>)
    requires Initial(r)
    ensures var now := Run(r, earlier + later);
            && Ancestor(Run(r, earlier).remote, now.remote)
            && forall mark :: mark in now.log ==> Real(now, mark)
  {
    SoundRun(r, earlier);
    RunAppend(r, earlier, later);
    SoundRun(Run(r, earlier), later);
  }
}
