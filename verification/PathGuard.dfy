/** The two path checks: the hook of plugins/tf-guardrails/hooks/restrict_paths.py
    and `safe_join` of src/tools/_workdir.py. Paths are text; the theorems say
    what the text tests mean for components. */
module PathGuard {
  import opened Sequences

  // ---- posixpath ----

  predicate IsAbsolute(p: string) {
    p != "" && p[0] == '/'
  }

  /** How many slashes normalisation keeps in front: exactly two stay two. */
  function LeadingSlashes(p: string): string {
    if !IsAbsolute(p) then ""
    else if "//" <= p && !("///" <= p) then "//"
    else "/"
  }

  /** The body of `normpath`'s loop: the components so far and the next one. */
  function PushComponent(absolute: bool, done: seq<string>, c: string): seq<string> {
    if c == "" || c == "." then done
    else if c != ".." || (!absolute && done == []) || (done != [] && Last(done) == "..") then done + [c]
    else if done != [] then DropLast(done)
    else done
  }

  function PushAll(absolute: bool, done: seq<string>, cs: seq<string>): seq<string>
    decreases |cs|
  {
    if cs == [] then done else PushAll(absolute, PushComponent(absolute, done, cs[0]), cs[1..])
  }

  function Components(p: string): seq<string> {
    PushAll(IsAbsolute(p), [], Split(p, '/'))
  }

  function JoinComponents(cs: seq<string>): string {
    if cs == [] then "" else Join(cs, '/')
  }

  function NormPath(p: string): string {
    if p == "" then "."
    else
      var text := LeadingSlashes(p) + JoinComponents(Components(p));
      if text == "" then "." else text
  }

  function JoinPaths(a: string, b: string): string {
    if IsAbsolute(b) then b
    else if a == "" || Last(a) == '/' then a + b
    else a + "/" + b
  }

  function AbsPath(cwd: string, p: string): string {
    NormPath(JoinPaths(cwd, p))
  }

  // ---- normal forms ----

  /** A component that normalisation leaves alone. */
  predicate Clean(c: string) {
    c != "" && c != "." && c != ".." && '/' !in c
  }

  predicate AllClean(cs: seq<string>) {
    forall i :: 0 <= i < |cs| ==> Clean(cs[i])
  }

  lemma {:induction false} PushAllClean(done: seq<string>, cs: seq<string>)
    requires AllClean(done) && AllFreeOf(cs, '/')
    ensures AllClean(PushAll(true, done, cs))
    decreases |cs|
  {
    if cs != [] {
      assert cs[0] in cs;
      assert AllFreeOf(cs[1..], '/');
      PushAllClean(PushComponent(true, done, cs[0]), cs[1..]);
    }
  }

  /** Of an absolute path no component is empty, `.` or `..`. */
  lemma ComponentsClean(p: string)
    requires IsAbsolute(p)
    ensures AllClean(Components(p))
  {
    JoinSplit(p, '/');
    PushAllClean([], Split(p, '/'));
  }

  lemma {:induction false} PushAllKeeps(done: seq<string>, cs: seq<string>)
    requires AllClean(cs)
    ensures PushAll(true, done, cs) == done + cs
    decreases |cs|
  {
    if cs != [] {
      PushAllKeeps(done + [cs[0]], cs[1..]);
      assert done + [cs[0]] + cs[1..] == done + cs;
    }
  }

  /** Components written out, each after a slash. */
  function TextOf(cs: seq<string>): string {
    if cs == [] then "" else "/" + cs[0] + TextOf(cs[1..])
  }

  lemma {:induction false} TextOfJoin(cs: seq<string>)
    requires cs != []
    ensures "/" + Join(cs, '/') == TextOf(cs)
  {
    if |cs| > 1 {
      TextOfJoin(cs[1..]);
      assert "/" + (cs[0] + ['/'] + Join(cs[1..], '/')) == "/" + cs[0] + ("/" + Join(cs[1..], '/'));
    } else {
      assert TextOf(cs[1..]) == "";
    }
  }

  lemma {:induction false} SplitTextOf(cs: seq<string>)
    requires cs != [] && AllClean(cs)
    ensures Split(TextOf(cs), '/') == [""] + cs
  {
    TextOfJoin(cs);
    SplitJoin(cs, '/');
    var text := TextOf(cs);
    assert text[1..] == Join(cs, '/') && text[0] == '/';
  }

  /** What `normpath` gives for an absolute path. */
  lemma NormPathText(p: string)
    requires IsAbsolute(p)
    ensures var cs := Components(p);
            NormPath(p) == (if cs == [] then LeadingSlashes(p) else LeadingSlashes(p)[1..] + TextOf(cs))
  {
    var cs := Components(p);
    if cs != [] {
      TextOfJoin(cs);
      var slashes := LeadingSlashes(p);
      assert slashes == slashes[1..] + "/";
      assert slashes[1..] + ("/" + Join(cs, '/')) == slashes + Join(cs, '/');
    } else {
      assert LeadingSlashes(p) + "" == LeadingSlashes(p);
    }
  }

  lemma TextStartsWithOneSlash(cs: seq<string>)
    requires cs != [] && AllClean(cs)
    ensures |TextOf(cs)| >= 2 && TextOf(cs)[0] == '/' && TextOf(cs)[1] != '/'
  {
    assert Clean(cs[0]);
    assert TextOf(cs)[1] == cs[0][0] && cs[0][0] in cs[0];
  }

  lemma BareSlashesRead(slashes: string)
    requires slashes == "/" || slashes == "//"
    ensures IsAbsolute(slashes) && LeadingSlashes(slashes) == slashes && Components(slashes) == []
  {
    assert Split("", '/') == [""];
    assert Split("/", '/') == [""] + Split("", '/');
    assert "//"[1..] == "/" && Split("//", '/') == [""] + Split("/", '/');
    hide Split;
    PushBlank([], Split(slashes, '/'));
  }

  lemma OneSlashReads(cs: seq<string>)
    requires AllClean(cs) && cs != []
    ensures var text := TextOf(cs);
            IsAbsolute(text) && LeadingSlashes(text) == "/" && Components(text) == cs
  {
    TextStartsWithOneSlash(cs);
    hide TextOf, AllClean, Split, PushComponent;
    SplitTextOf(cs);
    PushAllKeeps([], cs);
    BlankHead(cs);
    assert [] + cs == cs;
  }

  lemma TwoSlashesRead(cs: seq<string>)
    requires AllClean(cs) && cs != []
    ensures var text := "/" + TextOf(cs);
            IsAbsolute(text) && LeadingSlashes(text) == "//" && Components(text) == cs
  {
    TextStartsWithOneSlash(cs);
    var once := TextOf(cs);
    var text := "/" + once;
    assert text[1..] == once && text[0] == '/' && text[1] == '/' && text[2] != '/';
    assert "//" <= text && !("///" <= text);
    assert Split(text, '/') == [""] + Split(once, '/');
    hide TextOf, AllClean, Split, PushComponent;
    SplitTextOf(cs);
    PushAllKeeps([], cs);
    BlankHead(cs);
    BlankHead([""] + cs);
    assert [] + cs == cs;
  }

  /** Reading a normal form back. */
  lemma NormalFormReads(slashes: string, cs: seq<string>)
    requires AllClean(cs) && (slashes == "/" || slashes == "//")
    ensures var text := if cs == [] then slashes else slashes[1..] + TextOf(cs);
            IsAbsolute(text) && LeadingSlashes(text) == slashes && Components(text) == cs
  {
    assert "/"[1..] == "" && "//"[1..] == "/";
    hide TextOf, AllClean, Components, LeadingSlashes;
    if cs == [] {
      BareSlashesRead(slashes);
    } else if slashes == "/" {
      OneSlashReads(cs);
      assert "" + TextOf(cs) == TextOf(cs);
    } else {
      TwoSlashesRead(cs);
    }
  }

  lemma BlankHead(cs: seq<string>)
    ensures PushAll(true, [], [""] + cs) == PushAll(true, [], cs)
  {
    assert ([""] + cs)[1..] == cs;
  }

  lemma {:induction false} PushBlank(done: seq<string>, cs: seq<string>)
    requires forall i :: 0 <= i < |cs| ==> cs[i] == ""
    ensures PushAll(true, done, cs) == done
    decreases |cs|
  {
    if cs != [] {
      PushBlank(done, cs[1..]);
    }
  }

  /** Normalisation changes neither slashes nor components of an absolute path, so it is idempotent. */
  lemma NormPathIdempotent(p: string)
    requires IsAbsolute(p)
    ensures IsAbsolute(NormPath(p)) && NormPath(NormPath(p)) == NormPath(p)
    ensures LeadingSlashes(NormPath(p)) == LeadingSlashes(p) && Components(NormPath(p)) == Components(p)
  {
    ComponentsClean(p);
    NormPathText(p);
    NormalFormReads(LeadingSlashes(p), Components(p));
    NormPathText(NormPath(p));
  }

  lemma {:induction false} HeadUnique(c: string, s: string, d: string, t: string)
    requires '/' !in c && '/' !in d && (s == "" || s[0] == '/') && (t == "" || t[0] == '/')
    requires c + s == d + t
    ensures c == d && s == t
  {
    var text := c + s;
    assert forall i :: 0 <= i < |c| ==> text[i] == c[i] && c[i] in c;
    assert forall i :: 0 <= i < |d| ==> text[i] == d[i] && d[i] in d;
    assert s != "" ==> text[|c|] == '/';
    assert t != "" ==> text[|d|] == '/';
    assert |c| == |d|;
    assert text[..|c|] == c && text[..|d|] == d && text[|c|..] == s && text[|d|..] == t;
  }

  /** The first component of a text is what lies between its first two slashes. */
  lemma HeadComponent(cs: seq<string>, c: string, rest: string)
    requires AllClean(cs) && '/' !in c && (rest == "" || rest[0] == '/')
    ensures TextOf(cs) == "/" + c + rest <==> cs != [] && cs[0] == c && TextOf(cs[1..]) == rest
  {
    if cs != [] && TextOf(cs) == "/" + c + rest {
      assert Clean(cs[0]);
      var tail := TextOf(cs[1..]);
      assert TextOf(cs) == "/" + cs[0] + tail;
      assert tail == "" || tail[0] == '/';
      hide TextOf, AllClean;
      AfterSlash(cs[0], tail, c, rest);
      HeadUnique(cs[0], tail, c, rest);
    }
  }

  lemma AfterSlash(a: string, s: string, b: string, t: string)
    requires "/" + a + s == "/" + b + t
    ensures a + s == b + t
  {
    assert ("/" + a + s)[1..] == a + s && ("/" + b + t)[1..] == b + t;
  }

  // ---- components, one by one ----

  lemma {:induction false} PushAllSnoc(done: seq<string>, cs: seq<string>, c: string)
    ensures PushAll(true, done, cs + [c]) == PushComponent(true, PushAll(true, done, cs), c)
    decreases |cs|
  {
    hide PushComponent;
    if cs == [] {
      assert ([] + [c])[1..] == [] && cs + [c] == [c];
    } else {
      assert (cs + [c])[1..] == cs[1..] + [c] && (cs + [c])[0] == cs[0];
      PushAllSnoc(PushComponent(true, done, cs[0]), cs[1..], c);
    }
  }

  lemma SplitOpenPiece(open: string, c: string)
    requires '/' !in open && '/' !in c
    ensures Split(open + ("/" + c), '/') == [open, c]
  {
    var text := open + ("/" + c);
    assert text[..|open|] == open && text[|open| + 1..] == c;
    SplitAtFirst(text, |open|, '/');
    SplitFree(c, '/');
  }

  lemma SplitSnoc(p: string, c: string)
    requires '/' !in c
    ensures Split(p + "/" + c, '/') == Split(p, '/') + [c]
  {
    hide Split, Join;
    var pieces := Split(p, '/');
    JoinSplit(p, '/');
    var last := Last(pieces);
    assert last in pieces;
    SplitOpenPiece(last, c);
    SplitAppend(p, "/" + c, '/');
    assert p + "/" + c == p + ("/" + c);
    assert DropLast(pieces) + [last, c] == pieces + [c];
  }

  lemma ComponentsStep(p: string, c: string)
    requires IsAbsolute(p) && '/' !in c
    ensures Components(p + "/" + c) == PushComponent(true, Components(p), c)
  {
    SplitSnoc(p, c);
    PushAllSnoc([], Split(p, '/'), c);
  }

  /** What stands before the first component. */
  lemma FirstComponent(c: string)
    requires '/' !in c
    ensures Components("/" + c) == if c == "" || c == "." || c == ".." then [] else [c]
  {
    SplitOpenPiece("", c);
    assert "" + ("/" + c) == "/" + c;
    var pieces := ["", c];
    assert pieces[1..] == [c] && [c][1..] == [] && [] + [c] == [c];
    assert PushAll(true, [], pieces) == PushAll(true, [], [c]);
    var done := PushComponent(true, [], c);
    assert PushAll(true, [], [c]) == PushAll(true, done, []);
  }

  /** A slash and a name are one component more. */
  lemma NameIsAppended(p: string, c: string)
    requires p != "" && p[0] == '/' && c != "" && c != "." && c != ".." && '/' !in c
    ensures Components(p + "/" + c) == Components(p) + [c]
  {
    ComponentsStep(p, c);
    ComponentsClean(p);
  }

  /** A slash alone, or a slash and a dot, are nothing. */
  lemma DotIsNothing(p: string)
    requires p != "" && p[0] == '/'
    ensures Components(p + "/") == Components(p) && Components(p + "/.") == Components(p)
  {
    ComponentsStep(p, "");
    ComponentsStep(p, ".");
    assert p + "/" + "" == p + "/" && p + "/" + "." == p + "/.";
  }

  /** A slash and two dots take the last component away, if there is one. */
  lemma DotDotGoesUp(p: string)
    requires p != "" && p[0] == '/'
    ensures var cs := Components(p);
            Components(p + "/..") == if cs == [] then [] else cs[..|cs| - 1]
  {
    ComponentsStep(p, "..");
    ComponentsClean(p);
    assert p + "/" + ".." == p + "/..";
  }

  lemma TextStep(p: string, cs: seq<string>)
    requires cs != []
    ensures p + TextOf(cs) == p + "/" + cs[0] + TextOf(cs[1..])
  {
    assert p + ("/" + cs[0] + TextOf(cs[1..])) == p + "/" + cs[0] + TextOf(cs[1..]);
  }

  lemma NameStep(p: string, c: string)
    requires IsAbsolute(p) && Clean(c)
    ensures IsAbsolute(p + "/" + c) && Components(p + "/" + c) == Components(p) + [c]
  {
    NameIsAppended(p, c);
  }

  lemma {:induction false} NamesAreAppended(p: string, cs: seq<string>)
    requires IsAbsolute(p) && AllClean(cs)
    ensures IsAbsolute(p + TextOf(cs)) && Components(p + TextOf(cs)) == Components(p) + cs
    decreases |cs|
  {
    if cs == [] {
      NothingAppended(p);
    } else {
      assert Clean(cs[0]) && AllClean(cs[1..]);
      hide IsAbsolute, Components, TextOf, AllClean, Clean;
      var next := p + "/" + cs[0];
      NameStep(p, cs[0]);
      NamesAreAppended(next, cs[1..]);
      TextStep(p, cs);
      OneThenRest(Components(p), cs);
    }
  }

  lemma OneThenRest(front: seq<string>, cs: seq<string>)
    requires cs != []
    ensures front + [cs[0]] + cs[1..] == front + cs
  {
  }

  lemma NothingAppended(p: string)
    ensures p + TextOf([]) == p && Components(p) + [] == Components(p)
  {
    hide Components;
    assert TextOf([]) == "";
  }

  /** `/..`, so many times. */
  function Ups(n: nat): string {
    if n == 0 then "" else "/.." + Ups(n - 1)
  }

  /** The first of the components, without the last n; none if there are no more. */
  function Without(cs: seq<string>, n: nat): seq<string> {
    if n <= |cs| then cs[..|cs| - n] else []
  }

  lemma {:induction false} UpsGoUp(p: string, n: nat)
    requires IsAbsolute(p)
    ensures IsAbsolute(p + Ups(n)) && Components(p + Ups(n)) == Without(Components(p), n)
    decreases n
  {
    if n == 0 {
      assert p + Ups(n) == p;
    } else {
      DotDotGoesUp(p);
      UpsGoUp(p + "/..", n - 1);
      assert p + Ups(n) == p + "/.." + Ups(n - 1);
      hide Components;
      var cs := Components(p);
      if n <= |cs| {
        assert cs[..|cs| - 1][..|cs| - n] == cs[..|cs| - n];
      }
    }
  }

  /** Down some names, up so many times, and down again. */
  function Walk(down: seq<string>, ups: nat, again: seq<string>): string {
    TextOf(down) + Ups(ups) + TextOf(again)
  }

  lemma WalkParts(p: string, a: string, b: string, c: string)
    ensures p + (a + b + c) == p + a + b + c
  {
  }

  lemma WalkComponents(p: string, down: seq<string>, ups: nat, again: seq<string>)
    requires IsAbsolute(p) && AllClean(down) && AllClean(again)
    ensures IsAbsolute(p + Walk(down, ups, again))
    ensures Components(p + Walk(down, ups, again)) == Without(Components(p) + down, ups) + again
  {
    hide IsAbsolute, Components, AllClean, Without, TextOf, Ups;
    NamesAreAppended(p, down);
    UpsGoUp(p + TextOf(down), ups);
    NamesAreAppended(p + TextOf(down) + Ups(ups), again);
    WalkParts(p, TextOf(down), Ups(ups), TextOf(again));
  }

  // ---- the hook ----

  const PREFIX: string := "/tmp/autofix-"
  const REPO: string := "/repo"

  /** `(?:/|$)`: a slash, the end, or the end before a final newline. */
  predicate Bounded(rest: string) {
    rest == "" || rest[0] == '/' || rest == "\n"
  }

  /** The prefix pattern as a grammar: a fixed start, a non-empty name without a slash, a fixed end. */
  predicate Splits(text: string, name: string, rest: string) {
    text == PREFIX + name + REPO + rest && name != "" && '/' !in name && Bounded(rest)
  }

  /** The name and what follows `/repo`, if the pattern matches. */
  function MatchPrefix(text: string): Option<(string, string)> {
    if !(PREFIX <= text) then None
    else
      var after := text[|PREFIX|..];
      var n := Find(after, '/');
      if n == 0 || !(REPO <= after[n..]) || !Bounded(after[n + |REPO|..]) then None
      else Some((after[..n], after[n + |REPO|..]))
  }

  lemma MatchSplits(text: string, name: string, rest: string)
    requires MatchPrefix(text) == Some((name, rest))
    ensures Splits(text, name, rest)
  {
    hide PREFIX, REPO, Bounded;
    var after := text[|PREFIX|..];
    assert text == PREFIX + after;
    var tail := after[|name|..];
    assert tail == REPO + tail[|REPO|..];
    assert after == name + tail;
    assert forall i :: 0 <= i < |name| ==> name[i] == after[i];
    hide Find;
    FourParts(PREFIX, name, REPO, rest);
  }

  lemma FourParts(a: string, b: string, c: string, d: string)
    ensures a + (b + (c + d)) == a + b + c + d
  {
  }

  lemma SplitsMatch(text: string, name: string, rest: string)
    requires Splits(text, name, rest)
    ensures MatchPrefix(text) == Some((name, rest))
  {
    assert REPO != "" && REPO[0] == '/';
    hide PREFIX, REPO, Bounded;
    var after := name + (REPO + rest);
    assert PREFIX + after == PREFIX + name + REPO + rest;
    assert text[|PREFIX|..] == after;
    FindSlash(name, REPO + rest);
    assert after[|name|..] == REPO + rest;
    assert after[|name| + |REPO|..] == rest && after[..|name|] == name;
  }

  lemma MatchPrefixExact(text: string, name: string, rest: string)
    ensures MatchPrefix(text) == Some((name, rest)) <==> Splits(text, name, rest)
  {
    hide MatchPrefix, Splits;
    if MatchPrefix(text) == Some((name, rest)) {
      MatchSplits(text, name, rest);
    }
    if Splits(text, name, rest) {
      SplitsMatch(text, name, rest);
    }
  }

  lemma {:induction false} FindSlash(name: string, rest: string)
    requires '/' !in name && rest != "" && rest[0] == '/'
    ensures Find(name + rest, '/') == |name|
  {
    if name == "" {
      assert name + rest == rest;
    } else {
      assert (name + rest)[1..] == name[1..] + rest;
      FindSlash(name[1..], rest);
    }
  }

  /** `^literal(?:/|$)`. */
  predicate StartsWithin(text: string, subtree: string) {
    subtree <= text && Bounded(text[|subtree|..])
  }

  const GIT_HOOKS: string := ".git/hooks"
  const WORKFLOWS: string := ".github/workflows"
  const CLAUDE: string := ".claude"

  predicate DeniedWithin(relative: string) {
    StartsWithin(relative, GIT_HOOKS) || StartsWithin(relative, WORKFLOWS) || StartsWithin(relative, CLAUDE)
  }

  function StripSlashes(s: string): string {
    if s != "" && s[0] == '/' then StripSlashes(s[1..]) else s
  }

  datatype Verdict = Allowed | EmptyPath | Outside | Protected

  function CheckPath(cwd: string, p: string): Verdict {
    if p == "" then EmptyPath
    else
      var path := NormPath(AbsPath(cwd, p));
      match MatchPrefix(path)
      case None => Outside
      case Some((_, rest)) => if DeniedWithin(StripSlashes(rest)) then Protected else Allowed
  }

  // ---- what the hook means for components ----

  /** The last component may end in one newline, which `$` does not see. */
  predicate Named(cs: seq<string>, i: nat, name: string) {
    i < |cs| && (cs[i] == name || (i == |cs| - 1 && cs[i] == name + "\n"))
  }

  predicate InWorkdir(cs: seq<string>) {
    && |cs| >= 3 && cs[0] == "tmp"
    && "autofix-" <= cs[1] && |cs[1]| > 8
    && Named(cs, 2, "repo")
  }

  predicate InProtected(cs: seq<string>) {
    || (|cs| >= 2 && cs[0] == ".git" && Named(cs, 1, "hooks"))
    || (|cs| >= 2 && cs[0] == ".github" && Named(cs, 1, "workflows"))
    || Named(cs, 0, ".claude")
  }

  /** A component followed by the end, a slash or a final newline. */
  lemma LastNamed(cs: seq<string>, name: string)
    requires AllClean(cs) && '/' !in name
    ensures (exists rest :: Bounded(rest) && TextOf(cs) == "/" + name + rest) <==> Named(cs, 0, name)
  {
    if exists rest :: Bounded(rest) && TextOf(cs) == "/" + name + rest {
      var rest :| Bounded(rest) && TextOf(cs) == "/" + name + rest;
      if rest == "\n" {
        assert "/" + name + rest == "/" + (name + "\n") + "";
        HeadComponent(cs, name + "\n", "");
        assert |cs| == 1;
      } else {
        HeadComponent(cs, name, rest);
      }
    }
    if Named(cs, 0, name) {
      var tail := TextOf(cs[1..]);
      if cs[0] == name {
        assert Bounded(tail);
      } else {
        assert tail == "" && "/" + (name + "\n") + tail == "/" + name + "\n";
        assert Bounded("\n") && TextOf(cs) == "/" + name + "\n";
      }
    }
  }

  /** Two fixed components in a row. */
  lemma TwoNamed(cs: seq<string>, first: string, second: string)
    requires AllClean(cs) && '/' !in first && '/' !in second
    ensures (exists rest :: Bounded(rest) && TextOf(cs) == "/" + first + ("/" + second + rest))
            <==> |cs| >= 2 && cs[0] == first && Named(cs, 1, second)
  {
    if exists rest :: Bounded(rest) && TextOf(cs) == "/" + first + ("/" + second + rest) {
      var rest :| Bounded(rest) && TextOf(cs) == "/" + first + ("/" + second + rest);
      HeadComponent(cs, first, "/" + second + rest);
      LastNamed(cs[1..], second);
    }
    if |cs| >= 2 && cs[0] == first && Named(cs, 1, second) {
      LastNamed(cs[1..], second);
      var rest :| Bounded(rest) && TextOf(cs[1..]) == "/" + second + rest;
      assert TextOf(cs) == "/" + first + ("/" + second + rest);
    }
  }

  lemma StartsWithinText(cs: seq<string>, subtree: string)
    requires cs != []
    ensures StartsWithin(TextOf(cs)[1..], subtree) <==>
            exists rest :: Bounded(rest) && TextOf(cs) == "/" + subtree + rest
  {
    var text := TextOf(cs);
    var relative := text[1..];
    if StartsWithin(relative, subtree) {
      var rest := relative[|subtree|..];
      assert relative == subtree + rest;
      assert text == "/" + subtree + rest;
    }
    if exists rest :: Bounded(rest) && text == "/" + subtree + rest {
      var rest :| Bounded(rest) && text == "/" + subtree + rest;
      assert relative == subtree + rest;
      assert relative[|subtree|..] == rest;
    }
  }

  lemma TwoStartWithin(cs: seq<string>, first: string, second: string)
    requires AllClean(cs) && cs != [] && '/' !in first && '/' !in second
    ensures StartsWithin(TextOf(cs)[1..], first + "/" + second) <==>
            |cs| >= 2 && cs[0] == first && Named(cs, 1, second)
  {
    hide Bounded, StartsWithin, AllClean, Named, TextOf;
    StartsWithinText(cs, first + "/" + second);
    forall rest: string ensures "/" + (first + "/" + second) + rest == "/" + first + ("/" + second + rest) {
    }
    TwoNamed(cs, first, second);
  }

  lemma OneStartsWithin(cs: seq<string>, name: string)
    requires AllClean(cs) && cs != [] && '/' !in name
    ensures StartsWithin(TextOf(cs)[1..], name) <==> Named(cs, 0, name)
  {
    hide Bounded, StartsWithin, AllClean, Named, TextOf;
    StartsWithinText(cs, name);
    LastNamed(cs, name);
  }

  lemma DeniedMeansProtected(cs: seq<string>)
    requires AllClean(cs)
    ensures DeniedWithin(StripSlashes(TextOf(cs))) <==> InProtected(cs)
  {
    if cs == [] {
      assert StripSlashes("") == "";
    } else {
      TextStartsWithOneSlash(cs);
      assert StripSlashes(TextOf(cs)) == TextOf(cs)[1..];
      assert GIT_HOOKS == ".git" + "/" + "hooks" && WORKFLOWS == ".github" + "/" + "workflows";
      hide StartsWithin, Named, TextOf, AllClean;
      TwoStartWithin(cs, ".git", "hooks");
      TwoStartWithin(cs, ".github", "workflows");
      OneStartsWithin(cs, CLAUDE);
    }
  }

  /** The prefix pattern on a normal form with one leading slash. */
  lemma PrefixMeansWorkdir(cs: seq<string>)
    requires AllClean(cs)
    ensures MatchPrefix(TextOf(cs)).Some? <==> InWorkdir(cs)
    ensures InWorkdir(cs) ==>
              MatchPrefix(TextOf(cs)).value.1 == (if cs[2] == "repo" then TextOf(cs[3..]) else "\n")
  {
    if MatchPrefix(TextOf(cs)).Some? {
      var (name, rest) := MatchPrefix(TextOf(cs)).value;
      MatchPrefixExact(TextOf(cs), name, rest);
      SplitsIsWorkdir(cs, name, rest);
    }
    if InWorkdir(cs) {
      WorkdirSplits(cs);
    }
  }

  lemma SplitsText(name: string, rest: string)
    ensures PREFIX + name + REPO + rest == "/" + "tmp" + ("/" + ("autofix-" + name) + ("/" + "repo" + rest))
  {
    assert PREFIX == "/" + "tmp" + "/" + "autofix-";
    assert REPO == "/" + "repo";
    hide PREFIX, REPO;
  }

  lemma SplitsIsWorkdir(cs: seq<string>, name: string, rest: string)
    requires AllClean(cs) && Splits(TextOf(cs), name, rest)
    ensures InWorkdir(cs)
  {
    SplitsText(name, rest);
    hide PREFIX, REPO, TextOf, AllClean;
    HeadComponent(cs, "tmp", "/" + ("autofix-" + name) + ("/" + "repo" + rest));
    CleanTail(cs);
    var c := "autofix-" + name;
    HeadComponent(cs[1..], c, "/" + "repo" + rest);
    CleanTail(cs[1..]);
    LastNamed(cs[1..][1..], "repo");
    assert cs[1..][1..] == cs[2..];
    assert c[..8] == "autofix-";
  }

  lemma CleanTail(cs: seq<string>)
    requires AllClean(cs) && cs != []
    ensures AllClean(cs[1..])
  {
  }

  lemma WorkdirSplits(cs: seq<string>)
    requires AllClean(cs) && InWorkdir(cs)
    ensures MatchPrefix(TextOf(cs)) == Some((cs[1][8..], if cs[2] == "repo" then TextOf(cs[3..]) else "\n"))
  {
    var name := cs[1][8..];
    var rest := if cs[2] == "repo" then TextOf(cs[3..]) else "\n";
    assert Clean(cs[1]) && '/' !in name;
    assert cs[1] == "autofix-" + name;
    ThreeComponents(cs);
    assert cs[2] != "repo" ==> cs[2] == "repo" + "\n" && cs[3..] == [] && TextOf(cs[3..]) == "";
    assert "/" + cs[2] + TextOf(cs[3..]) == "/" + "repo" + rest;
    assert Bounded(rest) by {
      if cs[2] == "repo" && cs[3..] != [] {
        TextStartsWithOneSlash(cs[3..]);
      }
    }
    SplitsText(name, rest);
    SplitsMatch(TextOf(cs), name, rest);
  }

  lemma ThreeComponents(cs: seq<string>)
    requires |cs| >= 3
    ensures TextOf(cs) == "/" + cs[0] + ("/" + cs[1] + ("/" + cs[2] + TextOf(cs[3..])))
  {
    assert cs[1..][1..] == cs[2..] && cs[2..][1..] == cs[3..];
    assert TextOf(cs) == "/" + cs[0] + TextOf(cs[1..]);
    assert TextOf(cs[1..]) == "/" + cs[1] + TextOf(cs[2..]);
    assert TextOf(cs[2..]) == "/" + cs[2] + TextOf(cs[3..]);
  }

  /** The hook's verdict: a path is let through exactly when, normalised, it has one
      leading slash, lies in some workflow's workdir and outside the protected subtrees. */
  lemma CheckPathExact(cwd: string, p: string)
    requires IsAbsolute(cwd)
    ensures var full := JoinPaths(cwd, p);
            var cs := Components(full);
            CheckPath(cwd, p) ==
              if p == "" then EmptyPath
              else if LeadingSlashes(full) != "/" || !InWorkdir(cs) then Outside
              else if InProtected(cs[3..]) then Protected
              else Allowed
  {
    var full := JoinPaths(cwd, p);
    assert IsAbsolute(full);
    var cs := Components(full);
    NormPathIdempotent(full);
    NormPathText(full);
    ComponentsClean(full);
    hide NormPath, Components;
    if p != "" {
      if LeadingSlashes(full) == "//" {
        DoubleSlashOutside(cs);
      } else if cs == [] {
        assert !(PREFIX <= "/");
      } else {
        assert "/"[1..] + TextOf(cs) == TextOf(cs);
        VerdictOfText(cs);
      }
    }
  }

  lemma VerdictOfText(cs: seq<string>)
    requires AllClean(cs)
    ensures MatchPrefix(TextOf(cs)).Some? <==> InWorkdir(cs)
    ensures InWorkdir(cs) ==>
              (DeniedWithin(StripSlashes(MatchPrefix(TextOf(cs)).value.1)) <==> InProtected(cs[3..]))
  {
    PrefixMeansWorkdir(cs);
    if InWorkdir(cs) {
      DeniedMeansProtected(cs[3..]);
      if cs[2] != "repo" {
        assert cs[3..] == [];
        NewlineIsFree();
      }
    }
  }

  lemma NewlineIsFree()
    ensures !DeniedWithin(StripSlashes("\n"))
  {
    assert StripSlashes("\n") == "\n";
  }

  lemma DoubleSlashOutside(cs: seq<string>)
    requires AllClean(cs)
    ensures MatchPrefix(if cs == [] then "//" else "/" + TextOf(cs)) == None
  {
    var text := if cs == [] then "//" else "/" + TextOf(cs);
    if cs != [] {
      TextStartsWithOneSlash(cs);
    }
    assert text[1] == '/';
    assert PREFIX[1] == 't';
  }

  // ---- safe_join ----

  /** `Path.resolve` where no symbolic link is met: like `normpath`, but always
      with a single leading slash. */
  function Resolve(cwd: string, p: string): string {
    "/" + JoinComponents(Components(JoinPaths(cwd, p)))
  }

  /** None when the code raises. */
  function SafeJoin(cwd: string, workdir: string, relative: string): Option<string> {
    var root := Resolve(cwd, workdir);
    var candidate := Resolve(cwd, JoinPaths(root, relative));
    if root + "/" <= candidate || candidate == root then Some(candidate) else None
  }

  predicate IsPrefix(a: seq<string>, b: seq<string>) {
    |a| <= |b| && a == b[..|a|]
  }

  lemma PrefixCons(ws: seq<string>, cs: seq<string>)
    requires ws != [] && cs != []
    ensures IsPrefix(ws, cs) <==> ws[0] == cs[0] && IsPrefix(ws[1..], cs[1..])
  {
    if IsPrefix(ws, cs) {
      assert ws[0] == cs[..|ws|][0];
      assert ws[1..] == cs[..|ws|][1..] == cs[1..][..|ws| - 1];
    }
    if ws[0] == cs[0] && IsPrefix(ws[1..], cs[1..]) {
      assert ws == [ws[0]] + ws[1..] == [cs[0]] + cs[1..][..|ws| - 1] == cs[..|ws|];
    }
  }

  /** The text of a non-empty list, and the same text with a slash after it. */
  lemma TextCons(cs: seq<string>)
    requires cs != [] && AllClean(cs)
    ensures TextOf(cs) == "/" + cs[0] + TextOf(cs[1..])
    ensures TextOf(cs) + "/" == "/" + cs[0] + (TextOf(cs[1..]) + "/")
    ensures '/' !in cs[0] && AllClean(cs[1..])
    ensures TextOf(cs[1..]) == "" || TextOf(cs[1..])[0] == '/'
    ensures (TextOf(cs[1..]) + "/")[0] == '/'
  {
    assert Clean(cs[0]);
    var rest := TextOf(cs[1..]);
    assert "/" + cs[0] + rest + "/" == "/" + cs[0] + (rest + "/");
  }

  lemma {:induction false} TextPrefix(ws: seq<string>, cs: seq<string>)
    requires AllClean(ws) && AllClean(cs)
    ensures TextOf(ws) + "/" <= TextOf(cs) <==> |ws| < |cs| && IsPrefix(ws, cs)
    decreases |ws|
  {
    if ws == [] {
      assert TextOf(ws) + "/" == "/";
      if cs != [] {
        TextStartsWithOneSlash(cs);
      }
    } else if cs != [] {
      TextCons(ws);
      TextCons(cs);
      hide AllClean, IsPrefix, TextOf;
      TextPrefix(ws[1..], cs[1..]);
      PrefixCons(ws, cs);
      SamePrefix(ws[0], TextOf(ws[1..]) + "/", cs[0], TextOf(cs[1..]));
    }
  }

  lemma SamePrefix(a: string, s: string, b: string, t: string)
    requires '/' !in a && '/' !in b && s != "" && s[0] == '/' && (t == "" || t[0] == '/')
    ensures "/" + a + s <= "/" + b + t <==> a == b && s <= t
  {
    if "/" + a + s <= "/" + b + t {
      var text := "/" + b + t;
      var after := text[1 + |a| + |s|..];
      assert text == ("/" + a + s) + after;
      assert b + t == text[1..];
      assert b + t == a + (s + after);
      HeadUnique(b, t, a, s + after);
      assert t == s + after;
    }
    if a == b && s <= t {
      assert "/" + b + t == ("/" + a + s) + t[|s|..];
    }
  }

  function RootedText(cs: seq<string>): string {
    if cs == [] then "/" else TextOf(cs)
  }

  lemma ResolveReads(cwd: string, p: string)
    requires IsAbsolute(cwd)
    ensures var cs := Components(JoinPaths(cwd, p));
            AllClean(cs) && Resolve(cwd, p) == RootedText(cs)
    ensures IsAbsolute(Resolve(cwd, p)) && Components(Resolve(cwd, p)) == Components(JoinPaths(cwd, p))
  {
    var full := JoinPaths(cwd, p);
    assert IsAbsolute(full);
    var cs := Components(full);
    ComponentsClean(full);
    NormalFormReads("/", cs);
    if cs != [] {
      TextOfJoin(cs);
      assert "/"[1..] + TextOf(cs) == TextOf(cs);
    } else {
      assert "/" + "" == "/";
    }
  }

  /** The text test of `safe_join` is containment of components: for every
      workdir but the root directory a path is accepted exactly when it resolves to
      components that begin with the workdir's; with the root as workdir, only the
      root itself is. What is accepted is returned resolved. */
  lemma SafeJoinExact(cwd: string, workdir: string, relative: string)
    requires IsAbsolute(cwd)
    ensures var w := Components(JoinPaths(cwd, workdir));
            var c := Components(JoinPaths(cwd, JoinPaths(Resolve(cwd, workdir), relative)));
            SafeJoin(cwd, workdir, relative)
              == if (if w == [] then c == [] else IsPrefix(w, c)) then Some(RootedText(c)) else None
  {
    ResolveReads(cwd, workdir);
    var below := JoinPaths(Resolve(cwd, workdir), relative);
    ResolveReads(cwd, below);
    hide Components, Resolve;
    ContainmentOfText(Components(JoinPaths(cwd, workdir)), Components(JoinPaths(cwd, below)));
  }

  lemma ContainmentOfText(w: seq<string>, c: seq<string>)
    requires AllClean(w) && AllClean(c)
    ensures var root, candidate := RootedText(w), RootedText(c);
            (root + "/" <= candidate || candidate == root) <==> if w == [] then c == [] else IsPrefix(w, c)
  {
    if c != [] {
      TextStartsWithOneSlash(c);
    }
    if w != [] {
      TextStartsWithOneSlash(w);
      TextPrefix(w, c);
      if TextOf(w) == RootedText(c) {
        SplitTextOf(w);
        SplitTextOf(c);
        assert ([""] + w)[1..] == w && ([""] + c)[1..] == c;
      }
      assert c[..|c|] == c;
    }
  }

  /** `workdir_root` with the default WORKSPACE_ROOT. */
  function WorkdirRoot(id: string): string {
    "/tmp/autofix-" + id + "/repo"
  }

  /** Whatever `safe_join` accepts under a workflow's workdir, the hook's prefix pattern accepts. */
  lemma SafeJoinSatisfiesHook(cwd: string, id: string, relative: string)
    requires IsAbsolute(cwd) && id != "" && '/' !in id
    requires SafeJoin(cwd, WorkdirRoot(id), relative).Some?
    ensures MatchPrefix(SafeJoin(cwd, WorkdirRoot(id), relative).value).Some?
  {
    var cs := ["tmp", "autofix-" + id, "repo"];
    WorkdirRootReads(id);
    var w := WorkdirRoot(id);
    assert JoinPaths(cwd, w) == w;
    SafeJoinExact(cwd, w, relative);
    var below := JoinPaths(Resolve(cwd, w), relative);
    ResolveReads(cwd, below);
    hide Components, TextOf, Resolve, WorkdirRoot, SafeJoin;
    var found := Components(JoinPaths(cwd, below));
    assert found[..3] == cs;
    assert found[0] == cs[0] && found[1] == cs[1] && found[2] == cs[2];
    assert cs[1][..8] == "autofix-";
    assert InWorkdir(found);
    PrefixMeansWorkdir(found);
  }

  lemma WorkdirRootReads(id: string)
    requires id != "" && '/' !in id
    ensures IsAbsolute(WorkdirRoot(id)) && LeadingSlashes(WorkdirRoot(id)) == "/"
    ensures Components(WorkdirRoot(id)) == ["tmp", "autofix-" + id, "repo"]
  {
    var cs := ["tmp", "autofix-" + id, "repo"];
    assert cs[1][0] == 'a' && |cs[1]| > 2;
    assert AllClean(cs);
    ThreeComponents(cs);
    assert TextOf(cs[3..]) == "";
    assert WorkdirRoot(id) == TextOf(cs);
    NormalFormReads("/", cs);
    assert "/"[1..] + TextOf(cs) == TextOf(cs);
  }

  // ---- traversal ----

  lemma ExtraSlash(p: string)
    requires IsAbsolute(p)
    ensures IsAbsolute("/" + p) && Components("/" + p) == Components(p)
  {
    var text := "/" + p;
    assert text[..0] == "" && text[1..] == p;
    SplitAtFirst(text, 0, '/');
    BlankHead(Split(p, '/'));
  }

  /** A walk that is not empty starts with one slash. */
  lemma WalkStarts(down: seq<string>, ups: nat, again: seq<string>)
    requires AllClean(down) && AllClean(again)
    ensures var walk := Walk(down, ups, again);
            walk == "" || (|walk| >= 2 && walk[0] == '/' && walk[1] != '/')
  {
    var walk := Walk(down, ups, again);
    if down != [] {
      TextStartsWithOneSlash(down);
      assert walk[0] == TextOf(down)[0] && walk[1] == TextOf(down)[1];
    } else if ups > 0 {
      assert Ups(ups) == "/.." + Ups(ups - 1);
      assert walk == "/.." + (Ups(ups - 1) + TextOf(again));
      assert walk[0] == '/' && walk[1] == '.';
    } else if again != [] {
      TextStartsWithOneSlash(again);
      assert walk == TextOf(again);
    }
  }

  /** An absolute path stands for itself; a relative walk starts at the directory. */
  lemma RelativeWalk(cwd: string, p: string, down: seq<string>, ups: nat, again: seq<string>)
    requires IsAbsolute(cwd) && AllClean(down) && AllClean(again) && "/" + p == Walk(down, ups, again)
    ensures Components(JoinPaths(cwd, p)) == Without(Components(cwd) + down, ups) + again
  {
    hide AllClean, Components, Walk, Without;
    var walk := Walk(down, ups, again);
    WalkStarts(down, ups, again);
    assert ("/" + p)[1] == p[0];
    if Last(cwd) != '/' {
      WalkComponents(cwd, down, ups, again);
      assert cwd + "/" + p == cwd + ("/" + p);
    } else {
      var above := DropLast(cwd);
      assert cwd == above + "/" && cwd + p == above + ("/" + p);
      SlashAbove(above, walk, down, ups, again);
    }
  }

  lemma SlashAbove(above: string, walk: string, down: seq<string>, ups: nat, again: seq<string>)
    requires IsAbsolute(above + "/") && AllClean(down) && AllClean(again)
    requires walk == Walk(down, ups, again) && walk != "" && walk[0] == '/'
    ensures Components(above + walk) == Without(Components(above + "/") + down, ups) + again
  {
    hide AllClean, Components, Walk, Without;
    if above == "" {
      assert above + walk == walk && above + "/" == "/";
      ExtraSlash(walk);
      WalkComponents("/", down, ups, again);
    } else {
      assert above[0] == (above + "/")[0];
      DotIsNothing(above);
      WalkComponents(above, down, ups, again);
    }
  }

  /** A walk from a workflow's workdir, written out in full or relative to it. */
  ghost predicate WalkFrom(cwd: string, p: string, id: string, walk: string) {
    && IsAbsolute(cwd) && id != "" && '/' !in id
    && (p == WorkdirRoot(id) + walk || (cwd == WorkdirRoot(id) && "/" + p == walk))
  }

  lemma WalkLeads(cwd: string, p: string, id: string, down: seq<string>, ups: nat, again: seq<string>)
    requires AllClean(down) && AllClean(again) && WalkFrom(cwd, p, id, Walk(down, ups, again))
    ensures p != "" && LeadingSlashes(JoinPaths(cwd, p)) == "/"
    ensures Components(JoinPaths(cwd, p)) == Without(["tmp", "autofix-" + id, "repo"] + down, ups) + again
  {
    hide Walk, TextOf, AllClean, Components;
    WorkdirRootReads(id);
    var walk := Walk(down, ups, again);
    var root := WorkdirRoot(id);
    assert |root| >= 4 && root[0] == '/' && root[1] == 't' && Last(root) == 'o';
    hide WorkdirRoot;
    if p == root + walk {
      assert p[0] == '/' && p[1] == 't';
      WalkComponents(root, down, ups, again);
    } else {
      WalkStarts(down, ups, again);
      assert p[0] == ("/" + p)[1];
      RelativeWalk(cwd, p, down, ups, again);
      var full := root + "/" + p;
      assert full[0] == '/' && full[1] == 't';
    }
  }

  /** The hook's verdict on such a walk: what counts is where it ends. */
  lemma WalkVerdict(cwd: string, p: string, id: string, down: seq<string>, ups: nat, again: seq<string>)
    requires AllClean(down) && AllClean(again) && WalkFrom(cwd, p, id, Walk(down, ups, again))
    ensures var cs := Without(["tmp", "autofix-" + id, "repo"] + down, ups) + again;
            CheckPath(cwd, p) == if !InWorkdir(cs) then Outside else if InProtected(cs[3..]) then Protected else Allowed
  {
    hide Components, LeadingSlashes, JoinPaths, CheckPath, Without, InWorkdir, InProtected;
    WalkLeads(cwd, p, id, down, ups, again);
    CheckPathExact(cwd, p);
  }

  /** Up further than down is out: nothing above a workdir is allowed, nor is what
      lies beside it or, all the way up, outside /tmp. */
  lemma TraversalIsOutside(cwd: string, p: string, id: string, down: seq<string>, ups: nat, again: seq<string>)
    requires AllClean(down) && AllClean(again) && WalkFrom(cwd, p, id, Walk(down, ups, again)) && |down| < ups
    requires again != [] ==>
               if ups == |down| + 1 then again[0] != "repo" && again[0] != "repo\n"
               else ups >= |down| + 3 && again[0] != "tmp"
    ensures CheckPath(cwd, p) == Outside
  {
    WalkVerdict(cwd, p, id, down, ups, again);
    var here := ["tmp", "autofix-" + id, "repo"] + down;
    var cs := Without(here, ups) + again;
    hide CheckPath, Walk, Components;
    if ups <= |here| {
      assert |here[..|here| - ups]| == 3 + |down| - ups;
    }
    if again != [] {
      if ups == |down| + 1 {
        assert cs[2] == again[0];
      } else {
        assert cs[0] == again[0];
      }
    }
  }

  /** What that is for the paths below a workdir, written out: the three protected
      subtrees are, whatever lies in them, and of the rest all that does not end a
      protected name with a newline is allowed. */
  lemma BelowWorkdir(cwd: string, id: string, cs: seq<string>)
    requires IsAbsolute(cwd) && id != "" && '/' !in id && AllClean(cs) && forall c :: c in cs ==> '\n' !in c
    ensures CheckPath(cwd, "/tmp/autofix-" + id + "/repo" + TextOf(cs)) ==
              if ([".git", "hooks"] <= cs) || ([".github", "workflows"] <= cs) || ([".claude"] <= cs)
              then Protected else Allowed
  {
    assert AllClean([]);
    hide CheckPath, TextOf, AllClean, Without, InWorkdir, InProtected;
    PlainWalk(cs);
    WalkVerdict(cwd, "/tmp/autofix-" + id + "/repo" + TextOf(cs), id, cs, 0, []);
    PlainlyBelow(id, cs);
    ProtectedPlainly(cs);
  }

  lemma PlainlyBelow(id: string, cs: seq<string>)
    requires id != ""
    ensures var here := Without(["tmp", "autofix-" + id, "repo"] + cs, 0) + [];
            InWorkdir(here) && here[3..] == cs
  {
    var here := ["tmp", "autofix-" + id, "repo"] + cs;
    assert Without(here, 0) + [] == here;
    assert here[1][..8] == "autofix-";
  }

  lemma PlainWalk(cs: seq<string>)
    ensures Walk(cs, 0, []) == TextOf(cs)
  {
    assert TextOf(cs) + "" + "" == TextOf(cs);
  }

  lemma ProtectedPlainly(cs: seq<string>)
    requires forall c :: c in cs ==> '\n' !in c
    ensures InProtected(cs) <==> ([".git", "hooks"] <= cs) || ([".github", "workflows"] <= cs) || ([".claude"] <= cs)
  {
    forall i, name: string | 0 <= i < |cs| ensures cs[i] != name + "\n" {
      assert (name + "\n")[|name|] == '\n';
      assert cs[i] in cs;
    }
  }

  /** The same of `safe_join`, for every workdir: it accepts what ends below the
      workdir, and returns it with the names gone down; it refuses what goes up
      further than down, unless it comes down again by the workdir's own name. */
  lemma SafeJoinOfWalk(
    cwd: string, workdir: string, relative: string, down: seq<string>, ups: nat, again: seq<string>
  )
    requires IsAbsolute(cwd) && AllClean(down) && AllClean(again) && "/" + relative == Walk(down, ups, again)
    requires Components(JoinPaths(cwd, workdir)) != []
    ensures var ws := Components(JoinPaths(cwd, workdir));
            && (ups <= |down| ==> SafeJoin(cwd, workdir, relative) == Some(TextOf(ws + down[..|down| - ups] + again)))
            && (ups > |down| && (again == [] || again[0] !in ws) ==> SafeJoin(cwd, workdir, relative) == None)
  {
    var ws := Components(JoinPaths(cwd, workdir));
    ResolveReads(cwd, workdir);
    var root := Resolve(cwd, workdir);
    var below := JoinPaths(root, relative);
    SafeJoinExact(cwd, workdir, relative);
    RelativeWalk(root, relative, down, ups, again);
    assert IsAbsolute(below) && JoinPaths(cwd, below) == below;
    hide Components, Resolve, SafeJoin, Walk;
    WhereWalkEnds(ws, down, ups, again);
  }

  lemma WhereWalkEnds(ws: seq<string>, down: seq<string>, ups: nat, again: seq<string>)
    requires ws != []
    ensures var c := Without(ws + down, ups) + again;
            && (ups <= |down| ==> IsPrefix(ws, c) && c == ws + down[..|down| - ups] + again && c != [])
            && (ups > |down| && (again == [] || again[0] !in ws) ==> !IsPrefix(ws, c))
  {
    var here := ws + down;
    var c := Without(here, ups) + again;
    if ups <= |down| {
      assert here[..|here| - ups] == ws + down[..|down| - ups];
      assert c[..|ws|] == ws;
    } else {
      var kept := |Without(here, ups)|;
      assert kept < |ws|;
      if IsPrefix(ws, c) && again != [] {
        assert ws[kept] == c[..|ws|][kept] == c[kept] == again[0];
      }
    }
  }

  /** Of the slashes a path starts with, two stay two; one, or three and more, become one. */
  lemma SlashesKept(p: string)
    requires IsAbsolute(p)
    ensures |NormPath(p)| >= 2 && NormPath(p)[1] == '/' <==> |p| >= 2 && p[1] == '/' && (|p| == 2 || p[2] != '/')
  {
    NormPathText(p);
    ComponentsClean(p);
    var cs := Components(p);
    hide Components, NormPath;
    if cs != [] {
      TextStartsWithOneSlash(cs);
    }
    assert "//" <= p <==> |p| >= 2 && p[1] == '/';
    assert "///" <= p <==> |p| >= 3 && p[1] == '/' && p[2] == '/';
  }
}
