/** src/activities/idempotency.py: the text that is hashed into an operation key. */
module Idempotency {

  function Decimal(n: nat): string {
    if n < 10 then ["0123456789"[n]] else Decimal(n / 10) + ["0123456789"[n % 10]]
  }

  predicate IsDigit(c: char) {
    '0' <= c <= '9'
  }

  lemma {:induction false} DecimalIsDigits(n: nat)
    ensures Decimal(n) != "" && forall c :: c in Decimal(n) ==> IsDigit(c)
  {
    if n >= 10 {
      DecimalIsDigits(n / 10);
    }
  }

  lemma {:induction false} DecimalInjective(m: nat, n: nat)
    requires Decimal(m) == Decimal(n)
    ensures m == n
  {
    var a, b := Decimal(m), Decimal(n);
    if m >= 10 {
      DecimalIsDigits(m / 10);
    }
    if n >= 10 {
      DecimalIsDigits(n / 10);
    }
    assert a[|a| - 1] == b[|b| - 1];
    assert m % 10 == n % 10;
    if m >= 10 && n >= 10 {
      assert a[..|a| - 1] == Decimal(m / 10) && b[..|b| - 1] == Decimal(n / 10);
      DecimalInjective(m / 10, n / 10);
    }
  }

  /** Decimal notation, digit by digit. */
  lemma DecimalDigits(n: nat, d: nat)
    requires d < 10
    ensures Decimal(d) == "0123456789"[d..d + 1]
    ensures n > 0 ==> Decimal(10 * n + d) == Decimal(n) + Decimal(d)
  {
  }

  function ToolCallText(workflowId: string, iteration: nat, toolUseId: string): string {
    workflowId + "|" + Decimal(iteration) + "|" + toolUseId
  }

  /** `hexdigest()[:32]`, with the digest left abstract. */
  function ToolCallKey(digest: string -> string, workflowId: string, iteration: nat, toolUseId: string): string {
    var hex := digest(ToolCallText(workflowId, iteration, toolUseId));
    if |hex| < 32 then hex else hex[..32]
  }

  function PushOperationText(workflowId: string, iteration: nat): string {
    ToolCallText(workflowId, iteration, "push_changes")
  }

  function PushOperationKey(digest: string -> string, workflowId: string, iteration: nat): string {
    ToolCallKey(digest, workflowId, iteration, "push_changes")
  }

  /** When the first workflow id is the shorter one, two calls share a text
      exactly when the longer id continues with the first call's iteration and
      the first call's tool id spells out what is left of the second text. */
  ghost predicate Straddles(w1: string, i1: nat, t1: string, w2: string, i2: nat, t2: string) {
    exists rest: string :: w2 == w1 + "|" + Decimal(i1) + rest &&
      "|" + t1 == rest + "|" + Decimal(i2) + "|" + t2
  }

  lemma SameTextStraddles(w1: string, i1: nat, t1: string, w2: string, i2: nat, t2: string)
    requires |w1| < |w2| && ToolCallText(w1, i1, t1) == ToolCallText(w2, i2, t2)
    ensures Straddles(w1, i1, t1, w2, i2, t2)
  {
    DecimalIsDigits(i1);
    hide Decimal;
    var d1, d2 := Decimal(i1), Decimal(i2);
    var middle := w2[|w1|..];
    var after := "|" + d2 + "|" + t2;
    assert ToolCallText(w1, i1, t1) == w1 + ("|" + d1 + ("|" + t1));
    assert ToolCallText(w2, i2, t2) == w2 + after;
    LongerPrefix(w1, "|" + d1 + ("|" + t1), w2, after);
    FieldInside(d1, t1, middle, after);
    var rest := middle[|d1| + 1..];
    assert w2 == w1 + "|" + d1 + rest;
    assert rest + after == rest + "|" + d2 + "|" + t2;
  }

  lemma LongerPrefix(w1: string, s1: string, w2: string, s2: string)
    requires |w1| < |w2| && w1 + s1 == w2 + s2
    ensures w2 == w1 + w2[|w1|..] && s1 == w2[|w1|..] + s2
  {
    var text := w1 + s1;
    assert text[..|w1|] == w1 && text[|w1|..] == s1;
    assert (w2 + s2)[..|w1|] == w2[..|w1|] && (w2 + s2)[|w1|..] == w2[|w1|..] + s2;
  }

  /** A bar and a run of digits up to the next bar lie wholly inside a prefix
      that is followed by a bar. */
  lemma FieldInside(d: string, t: string, middle: string, after: string)
    requires forall c :: c in d ==> IsDigit(c)
    requires middle != "" && after != "" && after[0] == '|'
    requires "|" + d + ("|" + t) == middle + after
    ensures |d| < |middle| && middle == "|" + d + middle[|d| + 1..]
    ensures "|" + t == middle[|d| + 1..] + after
  {
    var text := "|" + d + ("|" + t);
    assert forall i :: 0 <= i < |d| ==> d[i] in d && text[i + 1] == d[i];
    assert forall i :: 0 < i <= |d| ==> text[i] == d[i - 1];
    assert text[|middle|] == '|';
    assert text[..|d| + 1] == "|" + d && text[|d| + 1..] == "|" + t;
  }

  lemma StraddlesSameText(w1: string, i1: nat, t1: string, w2: string, i2: nat, t2: string)
    requires Straddles(w1, i1, t1, w2, i2, t2)
    ensures ToolCallText(w1, i1, t1) == ToolCallText(w2, i2, t2)
  {
    var rest: string :| w2 == w1 + "|" + Decimal(i1) + rest &&
      "|" + t1 == rest + "|" + Decimal(i2) + "|" + t2;
    var front := w1 + "|" + Decimal(i1);
    calc {
      ToolCallText(w1, i1, t1);
      front + ("|" + t1);
      front + (rest + "|" + Decimal(i2) + "|" + t2);
      (front + rest) + "|" + Decimal(i2) + "|" + t2;
      ToolCallText(w2, i2, t2);
    }
  }

  lemma DigitsThenBar(d1: string, t1: string, d2: string, t2: string)
    requires forall c :: c in d1 || c in d2 ==> IsDigit(c)
    requires d1 + ("|" + t1) == d2 + ("|" + t2)
    ensures d1 == d2 && t1 == t2
  {
    var text := d1 + ("|" + t1);
    assert text[|d1|] == '|' && text[|d2|] == '|';
    assert forall i :: 0 <= i < |d1| ==> d1[i] in d1 && text[i] == d1[i];
    assert forall i :: 0 <= i < |d2| ==> d2[i] in d2 && text[i] == d2[i];
    assert text[..|d1|] == d1 && text[..|d2|] == d2;
    assert text[|d1| + 1..] == t1 && text[|d2| + 1..] == t2;
  }

  lemma SameWorkflowSameText(w1: string, i1: nat, t1: string, w2: string, i2: nat, t2: string)
    requires |w1| == |w2| && ToolCallText(w1, i1, t1) == ToolCallText(w2, i2, t2)
    ensures w1 == w2 && i1 == i2 && t1 == t2
  {
    var text := ToolCallText(w1, i1, t1);
    var d1, d2 := Decimal(i1), Decimal(i2);
    DecimalIsDigits(i1);
    DecimalIsDigits(i2);
    assert text == w1 + ("|" + (d1 + ("|" + t1))) == w2 + ("|" + (d2 + ("|" + t2)));
    assert text[..|w1|] == w1 && text[..|w2|] == w2;
    assert text[|w1| + 1..] == d1 + ("|" + t1) && text[|w2| + 1..] == d2 + ("|" + t2);
    DigitsThenBar(d1, t1, d2, t2);
    DecimalInjective(i1, i2);
  }

  /** Exactly when two tool calls are given the same text to hash. */
  lemma ToolCallTextCollisions(w1: string, i1: nat, t1: string, w2: string, i2: nat, t2: string)
    ensures ToolCallText(w1, i1, t1) == ToolCallText(w2, i2, t2) <==>
            || (w1 == w2 && i1 == i2 && t1 == t2)
            || (|w1| < |w2| && Straddles(w1, i1, t1, w2, i2, t2))
            || (|w2| < |w1| && Straddles(w2, i2, t2, w1, i1, t1))
  {
    if ToolCallText(w1, i1, t1) == ToolCallText(w2, i2, t2) {
      if |w1| < |w2| {
        SameTextStraddles(w1, i1, t1, w2, i2, t2);
      } else if |w2| < |w1| {
        SameTextStraddles(w2, i2, t2, w1, i1, t1);
      } else {
        SameWorkflowSameText(w1, i1, t1, w2, i2, t2);
      }
    }
    if Straddles(w1, i1, t1, w2, i2, t2) {
      StraddlesSameText(w1, i1, t1, w2, i2, t2);
    }
    if Straddles(w2, i2, t2, w1, i1, t1) {
      StraddlesSameText(w2, i2, t2, w1, i1, t1);
    }
  }

  lemma StraddlesNeedsBars(w1: string, i1: nat, t1: string, w2: string, i2: nat, t2: string)
    requires Straddles(w1, i1, t1, w2, i2, t2)
    ensures '|' in w2 && '|' in t1
  {
    var rest: string :| w2 == w1 + "|" + Decimal(i1) + rest &&
      "|" + t1 == rest + "|" + Decimal(i2) + "|" + t2;
    assert w2[|w1|] == '|';
    DecimalIsDigits(i2);
    var bar := |rest| + |Decimal(i2)|;
    assert ("|" + t1)[bar + 1] == '|';
    assert t1[bar] == '|';
  }

  /** Texts are distinct for distinct calls when no workflow id, or no tool id, contains a bar. */
  lemma ToolCallTextInjective(w1: string, i1: nat, t1: string, w2: string, i2: nat, t2: string)
    requires ('|' !in w1 && '|' !in w2) || ('|' !in t1 && '|' !in t2)
    ensures ToolCallText(w1, i1, t1) == ToolCallText(w2, i2, t2) <==> w1 == w2 && i1 == i2 && t1 == t2
  {
    ToolCallTextCollisions(w1, i1, t1, w2, i2, t2);
    if Straddles(w1, i1, t1, w2, i2, t2) {
      StraddlesNeedsBars(w1, i1, t1, w2, i2, t2);
    }
    if Straddles(w2, i2, t2, w1, i1, t1) {
      StraddlesNeedsBars(w2, i2, t2, w1, i1, t1);
    }
  }

  /** The publication key's text determines workflow and iteration, for every workflow id. */
  lemma PushOperationTextInjective(w1: string, i1: nat, w2: string, i2: nat)
    ensures PushOperationText(w1, i1) == PushOperationText(w2, i2) <==> w1 == w2 && i1 == i2
  {
    ToolCallTextInjective(w1, i1, "push_changes", w2, i2, "push_changes");
  }

  /** `hexdigest()[:32]`. */
  function FirstDigits(hex: string): string {
    if |hex| < 32 then hex else hex[..32]
  }

  /** A tool call's key is the first 32 digits of its hashed text, and tells calls
      apart as far as the digest does and no bar gets in the way. */
  lemma ToolCallKeys(digest: string -> string, w1: string, i1: nat, t1: string, w2: string, i2: nat, t2: string)
    ensures ToolCallKey(digest, w1, i1, t1) == FirstDigits(digest(w1 + "|" + Decimal(i1) + "|" + t1))
    ensures ('|' !in w1 && '|' !in w2) || ('|' !in t1 && '|' !in t2) ==>
            (var s1, s2 := ToolCallText(w1, i1, t1), ToolCallText(w2, i2, t2);
             FirstDigits(digest(s1)) == FirstDigits(digest(s2)) ==> s1 == s2) ==>
            (ToolCallKey(digest, w1, i1, t1) == ToolCallKey(digest, w2, i2, t2) <==> w1 == w2 && i1 == i2 && t1 == t2)
  {
    if ('|' !in w1 && '|' !in w2) || ('|' !in t1 && '|' !in t2) {
      ToolCallTextInjective(w1, i1, t1, w2, i2, t2);
    }
  }

  /** The publication key is the first 32 digits of the hashed text. So as far as a
      digest's first 32 digits tell two texts apart, they tell apart the requests of
      different workflows and of different iterations. */
  lemma PushOperationKeys(digest: string -> string, w1: string, i1: nat, w2: string, i2: nat)
    ensures PushOperationKey(digest, w1, i1) == FirstDigits(digest(w1 + "|" + Decimal(i1) + "|push_changes"))
    ensures (var t1, t2 := PushOperationText(w1, i1), PushOperationText(w2, i2);
             FirstDigits(digest(t1)) == FirstDigits(digest(t2)) ==> t1 == t2) ==>
            (PushOperationKey(digest, w1, i1) == PushOperationKey(digest, w2, i2) <==> w1 == w2 && i1 == i2)
  {
    PushOperationTextInjective(w1, i1, w2, i2);
    BarIsPrefix(w1, i1);
  }

  lemma BarIsPrefix(w: string, i: nat)
    ensures PushOperationText(w, i) == w + "|" + Decimal(i) + "|push_changes"
  {
    assert "|push_changes" == "|" + "push_changes";
    assert w + "|" + Decimal(i) + ("|" + "push_changes") == w + "|" + Decimal(i) + "|" + "push_changes";
  }

  /** With bars on both sides the text does not determine the call. */
  lemma ToolCallTextCollides(w: string, i: nat, j: nat, t: string)
    ensures ToolCallText(w + "|" + Decimal(i), j, t) == ToolCallText(w, i, Decimal(j) + "|" + t)
  {
  }
}
