/** The search for the FixPlan object in an agent's final text, as the pattern
    `\{[^{}]*"action"[^{}]*\}` and `finditer` perform it in
    src/activities/agent_iteration.py. */
module FixPlanTail {
  import opened Sequences

  const ACTION: string := "\"action\""

  datatype Span = Span(start: nat, end: nat)

  predicate IsBrace(c: char) {
    c == '{' || c == '}'
  }

  predicate BraceFree(s: string, from: nat, to: nat)
    requires from <= to <= |s|
  {
    forall k :: from <= k < to ==> !IsBrace(s[k])
  }

  /** What the pattern accepts: an opening brace, brace-free text, the quoted
      word, brace-free text, a closing brace. */
  ghost predicate PatternMatches(s: string, m: Span) {
    m.start + 1 < m.end <= |s| && s[m.start] == '{' && s[m.end - 1] == '}' &&
    exists k: nat :: m.start < k && k + |ACTION| < m.end && OccursAt(ACTION, s, k) &&
      BraceFree(s, m.start + 1, k) && BraceFree(s, k + |ACTION|, m.end - 1)
  }

  // ---- the search ----

  function NextBrace(s: string, from: nat): (j: nat)
    requires from <= |s|
    ensures from <= j <= |s|
    ensures BraceFree(s, from, j)
    ensures j < |s| ==> IsBrace(s[j])
    decreases |s| - from
  {
    if from == |s| || IsBrace(s[from]) then from else NextBrace(s, from + 1)
  }

  predicate ClosesObject(s: string, start: nat, close: nat)
    requires start < close < |s|
  {
    s[close] == '}' && Contains(s[start + 1..close], ACTION)
  }

  function MatchAt(s: string, start: nat): Option<Span>
    requires start < |s|
  {
    if s[start] != '{' then None
    else
      var close := NextBrace(s, start + 1);
      if close < |s| && ClosesObject(s, start, close) then Some(Span(start, close + 1)) else None
  }

  /** What the search looks at: no brace inside, and the word occurs inside. */
  ghost predicate FlatObject(s: string, m: Span) {
    m.start + 1 < m.end <= |s| && s[m.start] == '{' && s[m.end - 1] == '}' &&
    BraceFree(s, m.start + 1, m.end - 1) && Contains(s[m.start + 1..m.end - 1], ACTION)
  }

  lemma SliceOfSlice(s: string, a: nat, b: nat, i: nat, j: nat)
    requires a <= b <= |s| && i <= j <= b - a
    ensures s[a..b][i..j] == s[a + i..a + j]
  {
    var left, right := s[a..b][i..j], s[a + i..a + j];
    assert forall k :: 0 <= k < j - i ==> left[k] == s[a..b][i + k] == right[k];
  }

  lemma WordIsBraceFree(s: string, k: nat)
    requires OccursAt(ACTION, s, k)
    ensures BraceFree(s, k, k + |ACTION|)
  {
    assert forall i :: 0 <= i < |ACTION| ==> !IsBrace(ACTION[i]);
    hide ACTION;
    assert forall i :: k <= i < k + |ACTION| ==> s[i] == s[k..k + |ACTION|][i - k];
  }

  lemma PatternIsFlatObject(s: string, m: Span)
    requires PatternMatches(s, m)
    ensures FlatObject(s, m)
  {
    var k: nat :| m.start < k && k + |ACTION| < m.end && OccursAt(ACTION, s, k) &&
      BraceFree(s, m.start + 1, k) && BraceFree(s, k + |ACTION|, m.end - 1);
    WordIsBraceFree(s, k);
    hide ACTION, IsBrace;
    var body := s[m.start + 1..m.end - 1];
    var at := k - m.start - 1;
    SliceOfSlice(s, m.start + 1, m.end - 1, at, at + |ACTION|);
    assert OccursAt(ACTION, body, at);
    hide OccursAt;
    assert Contains(body, ACTION);
  }

  lemma FlatObjectIsPattern(s: string, m: Span)
    requires FlatObject(s, m)
    ensures PatternMatches(s, m)
  {
    var body := s[m.start + 1..m.end - 1];
    var at: nat :| at <= |body| && OccursAt(ACTION, body, at);
    var k := at + m.start + 1;
    SliceOfSlice(s, m.start + 1, m.end - 1, at, at + |ACTION|);
    assert OccursAt(ACTION, s, k);
  }

  lemma MatchAtExact(s: string, m: Span)
    requires m.start < |s|
    ensures MatchAt(s, m.start) == Some(m) <==> PatternMatches(s, m)
  {
    if PatternMatches(s, m) {
      PatternIsFlatObject(s, m);
      assert NextBrace(s, m.start + 1) == m.end - 1;
    }
    if MatchAt(s, m.start) == Some(m) {
      FlatObjectIsPattern(s, m);
    }
  }

  /** `finditer`: leftmost match first, then on from where it ended. */
  function FindIter(s: string, from: nat): seq<Span>
    requires from <= |s|
    decreases |s| - from
  {
    if from == |s| then []
    else
      match MatchAt(s, from)
      case Some(m) => [m] + FindIter(s, m.end)
      case None => FindIter(s, from + 1)
  }

  /** Between the start and the end of a match no other match starts. */
  lemma NothingInside(s: string, found: Span, m: Span)
    requires PatternMatches(s, found) && PatternMatches(s, m) && found.start < m.start
    ensures found.end <= m.start
  {
    PatternIsFlatObject(s, found);
    hide PatternMatches, Contains;
    assert s[m.start] == '{' && (m.start < found.end - 1 ==> !IsBrace(s[m.start]));
  }

  lemma {:induction false} FindIterFinds(s: string, from: nat, m: Span)
    requires from <= |s|
    ensures m in FindIter(s, from) <==> from <= m.start && PatternMatches(s, m)
    decreases |s| - from
  {
    if from < |s| {
      if m.start == from {
        MatchAtExact(s, m);
      }
      match MatchAt(s, from)
      case None => FindIterFinds(s, from + 1, m);
      case Some(found) =>
        MatchAtExact(s, found);
        FindIterFinds(s, found.end, m);
        if PatternMatches(s, m) && from < m.start {
          NothingInside(s, found, m);
        }
    }
  }

  lemma {:induction false} FindIterOrdered(s: string, from: nat)
    requires from <= |s|
    ensures forall a, b :: 0 <= a < b < |FindIter(s, from)| ==>
              FindIter(s, from)[a].end <= FindIter(s, from)[b].start
    decreases |s| - from
  {
    if from < |s| {
      match MatchAt(s, from)
      case None => FindIterOrdered(s, from + 1);
      case Some(found) =>
        hide MatchAt;
        FindIterOrdered(s, found.end);
        var rest := FindIter(s, found.end);
        forall b | 0 <= b < |rest| ensures found.end <= rest[b].start {
          FindIterFinds(s, found.end, rest[b]);
        }
    }
  }

  /** No match is skipped and none is invented: `finditer` returns exactly the
      spans the pattern accepts, in order and without overlap. */
  lemma FindIterExact(s: string, from: nat)
    requires from <= |s|
    ensures forall m: Span :: m in FindIter(s, from) <==> from <= m.start && PatternMatches(s, m)
    ensures forall a, b :: 0 <= a < b < |FindIter(s, from)| ==>
              FindIter(s, from)[a].end <= FindIter(s, from)[b].start
  {
    FindIterOrdered(s, from);
    forall m: Span ensures m in FindIter(s, from) <==> from <= m.start && PatternMatches(s, m) {
      FindIterFinds(s, from, m);
    }
  }

  function Chosen(s: string): Option<Span> {
    var matches := FindIter(s, 0);
    if matches == [] then None else Some(Last(matches))
  }

  /** The span the plan is read from is the rightmost one the pattern accepts. */
  lemma ChosenIsRightmost(s: string, m: Span)
    ensures Chosen(s) == Some(m) <==>
            PatternMatches(s, m) && forall n: Span :: PatternMatches(s, n) ==> n.start <= m.start
    ensures Chosen(s) == None <==> forall n: Span :: !PatternMatches(s, n)
  {
    FindIterExact(s, 0);
    var matches := FindIter(s, 0);
    if matches != [] {
      var last := Last(matches);
      assert last in matches;
      forall n: Span | PatternMatches(s, n) ensures n.start <= last.start {
        assert n in matches;
      }
      if PatternMatches(s, m) && (forall n: Span :: PatternMatches(s, n) ==> n.start <= m.start) {
        assert m.start == last.start;
        MatchAtExact(s, m);
        MatchAtExact(s, last);
      }
    } else {
      forall n: Span ensures !PatternMatches(s, n) {
        assert n !in matches;
      }
    }
  }

  function NextOpen(s: string, from: nat, open: Option<nat>): Option<nat>
    requires from < |s|
  {
    if s[from] == '{' then Some(from) else if s[from] == '}' then None else open
  }

  function NextBest(s: string, from: nat, open: Option<nat>, best: Option<Span>): Option<Span>
    requires from < |s| && (open.Some? ==> open.value < from)
  {
    if open.Some? && ClosesObject(s, open.value, from) then Some(Span(open.value, from + 1)) else best
  }

  /** One left-to-right pass that remembers the last opening brace and the last
      object closed; the value of `Chosen` without collecting the matches. */
  function Scan(s: string, from: nat, open: Option<nat>, best: Option<Span>): Option<Span>
    requires from <= |s| && (open.Some? ==> open.value < from)
    decreases |s| - from
  {
    if from == |s| then best
    else Scan(s, from + 1, NextOpen(s, from, open), NextBest(s, from, open, best))
  }

  /** `best` is the rightmost match that ends by `from`. */
  ghost predicate BestBefore(s: string, from: nat, best: Option<Span>) {
    match best
    case Some(m) => PatternMatches(s, m) && m.end <= from &&
                    forall n: Span :: PatternMatches(s, n) && n.end <= from ==> n.start <= m.start
    case None => forall n: Span :: PatternMatches(s, n) ==> from < n.end
  }

  /** `open` is the last brace before `from`, when that brace opens an object. */
  ghost predicate OpenBefore(s: string, from: nat, open: Option<nat>)
    requires from <= |s|
  {
    match open
    case Some(i) => i < from && s[i] == '{' && BraceFree(s, i + 1, from)
    case None => forall i :: 0 <= i < from && s[i] == '{' ==> !BraceFree(s, i + 1, from)
  }

  /** A match ends at `from + 1` exactly when the open brace closes there. */
  lemma EndsHere(s: string, from: nat, open: Option<nat>, m: Span)
    requires from < |s| && OpenBefore(s, from, open)
    ensures PatternMatches(s, m) && m.end == from + 1 <==>
            open.Some? && m == Span(open.value, from + 1) && ClosesObject(s, open.value, from)
  {
    if m.start < |s| {
      MatchAtExact(s, m);
    }
    if PatternMatches(s, m) && m.end == from + 1 {
      PatternIsFlatObject(s, m);
      assert open.Some? ==> open.value >= m.start;
      assert open.Some? ==> open.value <= m.start;
    }
    if open.Some? && m == Span(open.value, from + 1) && ClosesObject(s, open.value, from) {
      FlatObjectIsPattern(s, m);
    }
  }

  /** One character more: the match that ends there, if any, becomes the best. */
  lemma BestAfter(s: string, from: nat, open: Option<nat>, best: Option<Span>)
    requires from < |s| && OpenBefore(s, from, open) && BestBefore(s, from, best)
    ensures BestBefore(s, from + 1, NextBest(s, from, open, best))
  {
    forall n: Span ensures PatternMatches(s, n) && n.end == from + 1 <==>
                           open.Some? && n == Span(open.value, from + 1) && ClosesObject(s, open.value, from) {
      EndsHere(s, from, open, n);
    }
    if open.Some? && ClosesObject(s, open.value, from) {
      var m := Span(open.value, from + 1);
      forall n: Span | PatternMatches(s, n) && n.end <= from ensures n.start <= m.start {
        assert s[n.start] == '{';
      }
    }
  }

  lemma OpenAfter(s: string, from: nat, open: Option<nat>)
    requires from < |s| && OpenBefore(s, from, open)
    ensures OpenBefore(s, from + 1, NextOpen(s, from, open))
  {
    if s[from] != '{' && (s[from] == '}' || open.None?) {
      forall i | 0 <= i < from + 1 && s[i] == '{' ensures !BraceFree(s, i + 1, from + 1) {
        assert if s[from] == '}' then IsBrace(s[from]) else !BraceFree(s, i + 1, from);
      }
    }
  }

  lemma ScanStep(s: string, from: nat, open: Option<nat>, best: Option<Span>)
    requires from < |s| && (open.Some? ==> open.value < from)
    ensures var open' := NextOpen(s, from, open);
            (open'.Some? ==> open'.value < from + 1) &&
            Scan(s, from, open, best) == Scan(s, from + 1, open', NextBest(s, from, open, best))
  {
  }

  lemma {:induction false} ScanFrom(s: string, from: nat, open: Option<nat>, best: Option<Span>)
    requires from <= |s| && OpenBefore(s, from, open) && BestBefore(s, from, best)
    requires open.Some? ==> open.value < from
    ensures BestBefore(s, |s|, Scan(s, from, open, best))
    decreases |s| - from
  {
    if from < |s| {
      hide Scan, BestBefore, OpenBefore, PatternMatches, BraceFree, NextOpen, NextBest;
      BestAfter(s, from, open, best);
      OpenAfter(s, from, open);
      ScanStep(s, from, open, best);
      ScanFrom(s, from + 1, NextOpen(s, from, open), NextBest(s, from, open, best));
    }
  }

  /** Collecting every match and taking the last is the same as a single pass. */
  lemma ScanIsChosen(s: string)
    ensures Scan(s, 0, None, None) == Chosen(s)
  {
    ScanFrom(s, 0, None, None);
    match Scan(s, 0, None, None)
    case None => ChosenIsRightmost(s, Span(0, 0));
    case Some(m) => ChosenIsRightmost(s, m);
  }

  // ---- the pattern, letter by letter ----

  /** A way to cut a text around a flat object that holds the word "action", quoted. */
  ghost predicate CutsAround(s: string, prefix: string, x: string, y: string, suffix: string) {
    && s == prefix + ("{" + x + "\"action\"" + y + "}") + suffix
    && forall c :: c in x || c in y ==> c != '{' && c != '}'
  }

  function CutSpan(prefix: string, x: string, y: string): Span {
    Span(|prefix|, |prefix| + |x| + |y| + 10)
  }

  lemma CutIsMatch(s: string, prefix: string, x: string, y: string, suffix: string)
    requires CutsAround(s, prefix, x, y, suffix)
    ensures PatternMatches(s, CutSpan(prefix, x, y))
  {
    var m := CutSpan(prefix, x, y);
    var k := |prefix| + 1 + |x|;
    CutIndices(prefix, x, y, suffix);
    assert |ACTION| == 8;
    assert OccursAt(ACTION, s, k);
    assert forall i :: m.start + 1 <= i < k ==> s[i] in x;
    assert forall i :: k + 8 <= i < m.end - 1 ==> s[i] in y;
    assert BraceFree(s, m.start + 1, k) && BraceFree(s, k + 8, m.end - 1);
  }

  lemma CutIndices(prefix: string, x: string, y: string, suffix: string)
    ensures var s := prefix + ("{" + x + "\"action\"" + y + "}") + suffix;
            var k := |prefix| + 1 + |x|;
            && s[|prefix|] == '{' && s[k..k + 8] == "\"action\"" && s[k + 8 + |y|] == '}'
            && (forall i :: |prefix| + 1 <= i < k ==> s[i] == x[i - |prefix| - 1])
            && (forall i :: k + 8 <= i < k + 8 + |y| ==> s[i] == y[i - k - 8])
  {
    var s := prefix + ("{" + x + "\"action\"" + y + "}") + suffix;
    assert s == (prefix + "{" + x) + "\"action\"" + (y + "}" + suffix);
  }

  lemma FourCuts(s: string, a: nat, k: nat, e: nat)
    requires a < k && k + 8 < e <= |s|
    ensures s == s[..a] + ([s[a]] + s[a + 1..k] + s[k..k + 8] + s[k + 8..e - 1] + [s[e - 1]]) + s[e..]
  {
    assert s == s[..a] + s[a..e] + s[e..];
    assert s[a..e] == [s[a]] + s[a + 1..k] + s[k..k + 8] + s[k + 8..e - 1] + [s[e - 1]];
  }

  lemma MatchIsCut(s: string, m: Span) returns (x: string, y: string)
    requires PatternMatches(s, m)
    ensures m.start < m.end <= |s|
    ensures CutsAround(s, s[..m.start], x, y, s[m.end..]) && CutSpan(s[..m.start], x, y) == m
  {
    var k: nat :| m.start < k && k + |ACTION| < m.end && OccursAt(ACTION, s, k) &&
      BraceFree(s, m.start + 1, k) && BraceFree(s, k + |ACTION|, m.end - 1);
    assert |ACTION| == 8;
    x, y := s[m.start + 1..k], s[k + 8..m.end - 1];
    forall c | c in x || c in y ensures c != '{' && c != '}' {
      assert !IsBrace(c);
    }
    hide IsBrace;
    FourCuts(s, m.start, k, m.end);
    assert s[k..k + 8] == "\"action\"";
  }

  /** Nothing is read exactly when the text cannot be cut so. */
  lemma NothingChosen(s: string)
    ensures Chosen(s) == None <==>
            forall prefix: string, x: string, y: string, suffix: string :: !CutsAround(s, prefix, x, y, suffix)
  {
    hide PatternMatches, CutsAround, Chosen;
    ChosenIsRightmost(s, Span(0, 0));
    forall prefix: string, x: string, y: string, suffix: string | CutsAround(s, prefix, x, y, suffix)
      ensures Chosen(s) != None
    {
      CutIsMatch(s, prefix, x, y, suffix);
    }
    if Chosen(s) != None {
      ChosenIsRightmost(s, Chosen(s).value);
      var x, y := MatchIsCut(s, Chosen(s).value);
    }
  }

  /** And otherwise what is read is the object of the cut furthest to the right. */
  lemma RightmostCutChosen(s: string, prefix: string, x: string, y: string, suffix: string)
    requires CutsAround(s, prefix, x, y, suffix)
    ensures Chosen(s) == Some(CutSpan(prefix, x, y)) <==>
            forall p: string, x': string, y': string, q: string :: CutsAround(s, p, x', y', q) ==> |p| <= |prefix|
  {
    hide PatternMatches, CutsAround, Chosen;
    var m := CutSpan(prefix, x, y);
    CutIsMatch(s, prefix, x, y, suffix);
    ChosenIsRightmost(s, m);
    if Chosen(s) == Some(m) {
      forall p: string, x': string, y': string, q: string | CutsAround(s, p, x', y', q) ensures |p| <= |prefix| {
        CutIsMatch(s, p, x', y', q);
      }
    }
    if forall p: string, x': string, y': string, q: string :: CutsAround(s, p, x', y', q) ==> |p| <= |prefix| {
      forall n: Span | PatternMatches(s, n) ensures n.start <= m.start {
        var x', y' := MatchIsCut(s, n);
        assert |s[..n.start]| == n.start;
      }
    }
  }

  /** Any text before a flat object and any brace-free text after it leave the
      object as the one that is read. */
  lemma TailObjectIsChosen(prefix: string, x: string, y: string, suffix: string)
    requires forall c :: c in x || c in y || c in suffix ==> c != '{' && c != '}'
    ensures Chosen(prefix + ("{" + x + "\"action\"" + y + "}") + suffix) == Some(CutSpan(prefix, x, y))
  {
    var s := prefix + ("{" + x + "\"action\"" + y + "}") + suffix;
    assert CutsAround(s, prefix, x, y, suffix);
    NoLaterOpening(prefix, x, y, suffix);
    forall p: string, x': string, y': string, q: string | CutsAround(s, p, x', y', q) ensures |p| <= |prefix| {
      assert s[|p|] == '{';
    }
    hide CutsAround;
    RightmostCutChosen(s, prefix, x, y, suffix);
  }

  lemma NoLaterOpening(prefix: string, x: string, y: string, suffix: string)
    requires forall c :: c in x || c in y || c in suffix ==> c != '{' && c != '}'
    ensures var s := prefix + ("{" + x + "\"action\"" + y + "}") + suffix;
            forall i :: |prefix| < i < |s| ==> s[i] != '{'
  {
    var s := prefix + ("{" + x + "\"action\"" + y + "}") + suffix;
    var rest := x + "\"action\"" + y + "}" + suffix;
    assert '{' !in rest;
    assert s == prefix + "{" + rest;
    assert forall i :: |prefix| < i < |s| ==> s[i] == rest[i - |prefix| - 1];
  }
}
