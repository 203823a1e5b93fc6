// The approval commands of src/gateway/app.py and the comment that prints them,
// src/activities/approval.py.
//
// The pattern is
//   ^\s*/autofix\s+(approve|deny)\s+([a-f0-9]{16,64})(?:\s+(.+))?\s*$
// ignoring case, matched by backtracking: greedy, leftmost alternative first.
module Gateway {
  import opened Sequences
  import Idempotency

  // ---- characters ----

  /** `\s` on text. */
  predicate IsSpace(c: char) {
    || '\U{09}' <= c <= '\U{0D}' || '\U{1C}' <= c <= '\U{20}'
    || c in {'\U{85}', '\U{A0}', '\U{1680}', '\U{2028}', '\U{2029}', '\U{202F}', '\U{205F}', '\U{3000}'}
    || '\U{2000}' <= c <= '\U{200A}'
  }

  /** Only spaces from one position up to another. */
  predicate Blank(s: string, from: nat, to: nat)
    requires from <= to <= |s|
  {
    forall i :: from <= i < to ==> IsSpace(s[i])
  }

  predicate AllSpace(s: string) {
    Blank(s, 0, |s|)
  }

  predicate IsHex(c: char) {
    '0' <= c <= '9' || 'a' <= c <= 'f' || 'A' <= c <= 'F'
  }

  /** A character of the text against a lower-case pattern letter, ignoring
      case; dotted capital and dotless small i both count as i. */
  predicate SameLetter(c: char, p: char) {
    || c == p
    || ('a' <= p <= 'z' && 'A' <= c <= 'Z' && c as int + 32 == p as int)
    || (p == 'i' && c in {'\U{130}', '\U{131}'})
  }

  predicate SameWord(s: string, word: string) {
    |s| == |word| && forall i :: 0 <= i < |word| ==> SameLetter(s[i], word[i])
  }

  const AUTOFIX: string := "/autofix"
  const APPROVE: string := "approve"
  const DENY: string := "deny"

  /** What the pattern's three groups say; `allowed` is `action.lower() == "approve"`. */
  datatype Command = Command(allowed: bool, approvalId: string, reason: Option<string>)

  // ---- the optional reason, the part of the pattern after the id ----

  /** One way to match with the group taken: spaces up to k, a reason without a
      newline up to m, spaces to the end. */
  predicate ReasonAt(s: string, k: nat, m: nat) {
    1 <= k < m <= |s| && Blank(s, 0, k) && Blank(s, m, |s|) && forall i :: k <= i < m ==> s[i] != '\n'
  }

  /** Greedy backtracking takes the group if it can, with as many spaces before
      the reason as possible and then as long a reason as possible. */
  ghost predicate GreedyReasonAt(s: string, k: nat, m: nat) {
    ReasonAt(s, k, m) && forall k': nat, m': nat :: ReasonAt(s, k', m') ==> k' < k || (k' == k && m' <= m)
  }

  ghost predicate TailReads(s: string, reason: Option<string>) {
    match reason
    case Some(r) => exists k: nat, m: nat :: GreedyReasonAt(s, k, m) && r == s[k..m]
    case None => AllSpace(s) && forall k: nat, m: nat :: !ReasonAt(s, k, m)
  }

  /** Length of the leading run of spaces. */
  function Spaces(s: string): (n: nat)
    ensures n <= |s| && Blank(s, 0, n)
    ensures n < |s| ==> !IsSpace(s[n])
  {
    if s == "" || !IsSpace(s[0]) then 0 else 1 + Spaces(s[1..])
  }

  /** The last position but the first that holds something other than a newline; 0 if none. */
  function LastVisible(s: string): (k: nat)
    ensures k == 0 || k < |s|
    ensures k > 0 ==> s[k] != '\n'
    ensures forall i :: k < i < |s| && 0 < i ==> s[i] == '\n'
  {
    if |s| <= 1 then 0 else if Last(s) != '\n' then |s| - 1 else LastVisible(DropLast(s))
  }

  /** Where the line that starts at k ends. */
  function LineEnd(s: string, k: nat): (m: nat)
    requires k <= |s|
    ensures k <= m <= |s| && (m < |s| ==> s[m] == '\n')
    ensures forall i :: k <= i < m ==> s[i] != '\n'
    decreases |s| - k
  {
    if k == |s| || s[k] == '\n' then k else LineEnd(s, k + 1)
  }

  /** None: no match. Some(reason): a match with that last group. */
  function MatchTail(s: string): Option<Option<string>> {
    var k := Spaces(s);
    if k == |s| then
      var v := LastVisible(s);
      Some(if v == 0 then None else Some(s[v..v + 1]))
    else if 0 < k && Blank(s, LineEnd(s, k), |s|) then Some(Some(s[k..LineEnd(s, k)]))
    else None
  }

  lemma BlankReason(s: string)
    requires AllSpace(s)
    ensures LastVisible(s) == 0 ==> forall k: nat, m: nat :: !ReasonAt(s, k, m)
    ensures LastVisible(s) != 0 ==> GreedyReasonAt(s, LastVisible(s), LastVisible(s) + 1)
  {
    hide IsSpace;
    var v := LastVisible(s);
    forall k: nat, m: nat | ReasonAt(s, k, m) ensures 0 < v && (k < v || (k == v && m <= v + 1)) {
      assert s[k] != '\n' && s[m - 1] != '\n';
    }
  }

  /** With visible text after the leading spaces, a reason starts at the first
      visible character at the latest and ends with its line at the latest. */
  lemma WrittenReason(s: string)
    requires Spaces(s) < |s|
    ensures var k, m := Spaces(s), LineEnd(s, Spaces(s));
            if 0 < k && Blank(s, m, |s|) then GreedyReasonAt(s, k, m)
            else forall k': nat, m': nat :: !ReasonAt(s, k', m')
  {
    assert IsSpace('\n');
    hide IsSpace;
    var k, m := Spaces(s), LineEnd(s, Spaces(s));
    forall k': nat, m': nat | ReasonAt(s, k', m')
      ensures 0 < k && k' <= k < m' <= m && Blank(s, m, |s|)
    {
      assert IsSpace(s[0]);
    }
  }

  lemma GreedyUnique(s: string, k: nat, m: nat, k': nat, m': nat)
    requires GreedyReasonAt(s, k, m) && GreedyReasonAt(s, k', m')
    ensures k == k' && m == m'
  {
    hide IsSpace;
  }

  lemma TailReadsUnique(s: string, a: Option<string>, b: Option<string>)
    requires TailReads(s, a) && TailReads(s, b)
    ensures a == b
  {
    hide IsSpace;
    if a.Some? && b.Some? {
      var k: nat, m: nat :| GreedyReasonAt(s, k, m) && a.value == s[k..m];
      var k': nat, m': nat :| GreedyReasonAt(s, k', m') && b.value == s[k'..m'];
      GreedyUnique(s, k, m, k', m');
    }
  }

  lemma MatchTailReads(s: string)
    ensures match MatchTail(s)
            case Some(reason) => TailReads(s, reason)
            case None => forall reason :: !TailReads(s, reason)
  {
    hide IsSpace;
    if Spaces(s) == |s| {
      BlankReason(s);
    } else {
      WrittenReason(s);
      assert !IsSpace(s[Spaces(s)]);
    }
  }

  /** A tail of nothing but spaces always matches. */
  lemma BlankTail(s: string)
    requires AllSpace(s)
    ensures MatchTail(s).Some? && TailReads(s, MatchTail(s).value)
  {
    hide IsSpace, TailReads;
    MatchTailReads(s);
  }

  lemma MatchTailExact(s: string, reason: Option<string>)
    ensures MatchTail(s) == Some(reason) <==> TailReads(s, reason)
  {
    hide IsSpace, TailReads, MatchTail;
    MatchTailReads(s);
    if TailReads(s, reason) {
      TailReadsUnique(s, reason, MatchTail(s).value);
    }
  }

  // ---- the whole pattern ----

  function HexRun(s: string): (n: nat)
    ensures n <= |s| && forall i :: 0 <= i < n ==> IsHex(s[i])
    ensures n < |s| ==> !IsHex(s[n])
  {
    if s == "" || !IsHex(s[0]) then 0 else 1 + HexRun(s[1..])
  }

  predicate IsId(s: string) {
    16 <= |s| <= 64 && forall i :: 0 <= i < |s| ==> IsHex(s[i])
  }

  /** From the spaces before the id on. */
  function ParseOperand(allowed: bool, s: string): Option<Command> {
    var k := Spaces(s);
    var n := HexRun(s[k..]);
    if k == 0 || n < 16 || 64 < n then None
    else
      match MatchTail(s[k + n..])
      case None => None
      case Some(reason) => Some(Command(allowed, s[k..k + n], reason))
  }

  /** From the spaces before the verb on. */
  function ParseVerb(s: string): Option<Command> {
    var k := Spaces(s);
    var verb := s[k..];
    if k == 0 then None
    else if |APPROVE| <= |verb| && SameWord(verb[..|APPROVE|], APPROVE) then ParseOperand(true, verb[|APPROVE|..])
    else if |DENY| <= |verb| && SameWord(verb[..|DENY|], DENY) then ParseOperand(false, verb[|DENY|..])
    else None
  }

  function ParseCommand(body: string): Option<Command> {
    var s := body[Spaces(body)..];
    if |AUTOFIX| <= |s| && SameWord(s[..|AUTOFIX|], AUTOFIX) then ParseVerb(s[|AUTOFIX|..]) else None
  }

  /** The pattern read as a grammar. */
  ghost predicate IsCommand(body: string, command: Command) {
    exists s0: string, name: string, s1: string, verb: string, s2: string, tail: string ::
      Reads(body, command, s0, name, s1, verb, s2, tail)
  }

  ghost predicate Reads(
    body: string, command: Command, s0: string, name: string, s1: string, verb: string, s2: string, tail: string
  ) {
    && body == s0 + (name + (s1 + (verb + (s2 + (command.approvalId + tail)))))
    && AllSpace(s0) && SameWord(name, AUTOFIX)
    && s1 != "" && AllSpace(s1) && SameWord(verb, if command.allowed then APPROVE else DENY)
    && s2 != "" && AllSpace(s2) && IsId(command.approvalId) && TailReads(tail, command.reason)
  }

  lemma {:induction false} SpacesOf(pad: string, rest: string)
    requires AllSpace(pad) && (rest != "" ==> !IsSpace(rest[0]))
    ensures Spaces(pad + rest) == |pad|
    ensures (pad + rest)[|pad|..] == rest
  {
    hide IsSpace;
    if pad == "" {
      assert pad + rest == rest;
    } else {
      assert (pad + rest)[1..] == pad[1..] + rest;
      SpacesOf(pad[1..], rest);
    }
  }

  lemma {:induction false} HexRunOf(id: string, rest: string)
    requires (forall i :: 0 <= i < |id| ==> IsHex(id[i])) && (rest != "" ==> !IsHex(rest[0]))
    ensures HexRun(id + rest) == |id|
  {
    hide IsHex;
    if id == "" {
      assert id + rest == rest;
    } else {
      assert (id + rest)[1..] == id[1..] + rest;
      HexRunOf(id[1..], rest);
    }
  }

  lemma HexIsNotSpace()
    ensures forall c :: IsHex(c) ==> !IsSpace(c)
  {
  }

  lemma TailStartsBlank(s: string, reason: Option<string>)
    requires TailReads(s, reason)
    ensures s != "" ==> IsSpace(s[0])
  {
    hide IsSpace;
  }

  lemma OperandReads(allowed: bool, pad: string, id: string, tail: string, reason: Option<string>)
    requires pad != "" && AllSpace(pad) && IsId(id) && TailReads(tail, reason)
    ensures ParseOperand(allowed, pad + (id + tail)) == Some(Command(allowed, id, reason))
  {
    HexIsNotSpace();
    hide IsSpace, IsHex, TailReads, MatchTail;
    TailStartsBlank(tail, reason);
    MatchTailExact(tail, reason);
    var rest := id + tail;
    var s := pad + rest;
    SpacesOf(pad, rest);
    HexRunOf(id, tail);
    Segments(pad, id, tail);
    assert Spaces(s) == |pad| && HexRun(s[|pad|..]) == |id|;
  }

  lemma Segments(a: string, b: string, c: string)
    ensures var s := a + (b + c);
            s[|a|..] == b + c && s[|a|..|a| + |b|] == b && s[|a| + |b|..] == c
  {
  }

  lemma LetterIsNotSpace(c: char, p: char)
    requires SameLetter(c, p) && !IsSpace(p)
    ensures !IsSpace(c)
  {
  }

  lemma VerbReads(command: Command, pad: string, verb: string, s: string)
    requires pad != "" && AllSpace(pad) && SameWord(verb, if command.allowed then APPROVE else DENY)
    ensures ParseVerb(pad + (verb + s)) == ParseOperand(command.allowed, s)
  {
    var rest := verb + s;
    LetterIsNotSpace(verb[0], if command.allowed then 'a' else 'd');
    hide IsSpace;
    SpacesOf(pad, rest);
    assert rest[..|verb|] == verb && rest[|verb|..] == s;
    if !command.allowed && |APPROVE| <= |rest| {
      assert !SameLetter(rest[..|APPROVE|][0], APPROVE[0]);
    }
  }

  lemma ReadsParses(
    body: string, command: Command, s0: string, name: string, s1: string, verb: string, s2: string, tail: string
  )
    requires Reads(body, command, s0, name, s1, verb, s2, tail)
    ensures ParseCommand(body) == Some(command)
  {
    var afterVerb := s2 + (command.approvalId + tail);
    var afterName := s1 + (verb + afterVerb);
    var rest := name + afterName;
    LetterIsNotSpace(name[0], '/');
    hide IsSpace;
    SpacesOf(s0, rest);
    assert rest[..|name|] == name && rest[|name|..] == afterName;
    VerbReads(command, s1, verb, afterVerb);
    OperandReads(command.allowed, s2, command.approvalId, tail, command.reason);
  }

  lemma OperandParses(allowed: bool, s: string, command: Command) returns (s2: string, tail: string)
    requires ParseOperand(allowed, s) == Some(command)
    ensures command.allowed == allowed && IsId(command.approvalId)
    ensures s2 != "" && AllSpace(s2) && s == s2 + (command.approvalId + tail) && TailReads(tail, command.reason)
  {
    hide IsSpace, IsHex, MatchTail, TailReads;
    var j := Spaces(s);
    var n := HexRun(s[j..]);
    s2, tail := s[..j], s[j + n..];
    var id := s[j..j + n];
    assert forall i :: 0 <= i < n ==> id[i] == s[j..][i];
    MatchTailExact(tail, command.reason);
    assert s == s2 + (id + tail);
  }

  lemma VerbParses(s: string, command: Command) returns (s1: string, verb: string, afterVerb: string)
    requires ParseVerb(s) == Some(command)
    ensures s1 != "" && AllSpace(s1) && s == s1 + (verb + afterVerb)
    ensures SameWord(verb, if command.allowed then APPROVE else DENY)
    ensures ParseOperand(command.allowed, afterVerb) == Some(command)
  {
    hide IsSpace, SameWord, ParseOperand;
    var k := Spaces(s);
    var word := s[k..];
    s1 := s[..k];
    var m := if |APPROVE| <= |word| && SameWord(word[..|APPROVE|], APPROVE) then |APPROVE| else |DENY|;
    verb, afterVerb := word[..m], word[m..];
    assert word == verb + afterVerb && s == s1 + word;
    OperandAllowed(m == |APPROVE|, afterVerb, command);
  }

  lemma OperandAllowed(allowed: bool, s: string, command: Command)
    requires ParseOperand(allowed, s) == Some(command)
    ensures command.allowed == allowed
  {
  }

  lemma ParsesReads(body: string, command: Command)
    requires ParseCommand(body) == Some(command)
    ensures IsCommand(body, command)
  {
    hide IsSpace, SameWord, ParseOperand, ParseVerb, TailReads, IsId;
    var s0, rest := body[..Spaces(body)], body[Spaces(body)..];
    var name, afterName := rest[..|AUTOFIX|], rest[|AUTOFIX|..];
    var s1, verb, afterVerb := VerbParses(afterName, command);
    var s2, tail := OperandParses(command.allowed, afterVerb, command);
    assert rest == name + afterName && body == s0 + rest;
    assert Reads(body, command, s0, name, s1, verb, s2, tail);
  }

  /** The parser accepts a comment exactly when the pattern does, with the same groups. */
  lemma ParseCommandExact(body: string, command: Command)
    ensures ParseCommand(body) == Some(command) <==> IsCommand(body, command)
  {
    if IsCommand(body, command) {
      var s0: string, name: string, s1: string, verb: string, s2: string, tail: string :|
        Reads(body, command, s0, name, s1, verb, s2, tail);
      ReadsParses(body, command, s0, name, s1, verb, s2, tail);
    }
    if ParseCommand(body) == Some(command) {
      ParsesReads(body, command);
    }
  }

  // ---- what the notifier prints ----

  function ApproveCommand(approvalId: string): string {
    "/autofix approve " + approvalId
  }

  function DenyCommand(approvalId: string, reason: string): string {
    "/autofix deny " + approvalId + " " + reason
  }

  function Preamble(toolName: string, approvalId: string, toolInput: string): (text: string)
    ensures text != "" && text[0] == '*'
  {
    "**AutoFix needs approval** for `" + toolName + "` (approval_id `" + approvalId + "`).\n\n" +
    "```\n" + toolInput + "\n```\n\n" + "Reply with "
  }

  function Quoted(text: string): string {
    "`" + text + "`"
  }

  function RenderApprovalComment(toolName: string, approvalId: string, toolInput: string): string {
    Preamble(toolName, approvalId, toolInput) + Quoted(ApproveCommand(approvalId)) + " or "
      + Quoted(DenyCommand(approvalId, "<reason>")) + " to resolve."
  }

  lemma Spelled(allowed: bool)
    ensures SameWord("/autofix", AUTOFIX) && SameWord(if allowed then "approve" else "deny", if allowed then APPROVE else DENY)
    ensures AllSpace("") && AllSpace(" ")
  {
  }

  /** A printed approval, under any whitespace around and between its words, is
      read back as an approval of the same id. */
  lemma ApproveRoundTrip(s0: string, s1: string, s2: string, id: string, s3: string)
    requires AllSpace(s0) && AllSpace(s1) && AllSpace(s2) && AllSpace(s3) && s1 != "" && s2 != ""
    requires IsId(id)
    ensures var command := ParseCommand(s0 + "/autofix" + s1 + "approve" + s2 + id + s3);
            command.Some? && command.value.allowed && command.value.approvalId == id
  {
    Spelled(true);
    hide IsSpace, IsHex, SameWord;
    BlankTail(s3);
    var command := Command(true, id, MatchTail(s3).value);
    var body := s0 + "/autofix" + s1 + "approve" + s2 + id + s3;
    assert body == s0 + ("/autofix" + (s1 + ("approve" + (s2 + (id + s3)))));
    ReadsParses(body, command, s0, "/autofix", s1, "approve", s2, s3);
  }

  lemma ApproveCommandReadsBack(id: string)
    requires IsId(id)
    ensures ParseCommand(ApproveCommand(id)) == Some(Command(true, id, None))
  {
    Spelled(true);
    BlankTail("");
    hide IsSpace, IsHex, SameWord;
    assert ApproveCommand(id) == "" + ("/autofix" + (" " + ("approve" + (" " + (id + "")))));
    ReadsParses(ApproveCommand(id), Command(true, id, None), "", "/autofix", " ", "approve", " ", "");
  }

  /** A reason that survives: one non-empty line that does not start with a space. */
  predicate IsReason(s: string) {
    s != "" && !IsSpace(s[0]) && forall i :: 0 <= i < |s| ==> s[i] != '\n'
  }

  /** The printed denial with any spaces around and between its words and, after
      the reason, nothing but blank lines. */
  predicate PaddedDenial(
    body: string, s0: string, s1: string, s2: string, id: string, s3: string, reason: string, s4: string
  ) {
    && body == s0 + "/autofix" + s1 + "deny" + s2 + id + s3 + reason + s4
    && AllSpace(s0) && AllSpace(s1) && AllSpace(s2) && AllSpace(s3) && s1 != "" && s2 != "" && s3 != ""
    && IsId(id) && IsReason(reason)
    && AllSpace(s4) && (s4 != "" ==> s4[0] == '\n')
  }

  /** A denial carries its reason through unchanged. */
  lemma DenyRoundTrip(
    body: string, s0: string, s1: string, s2: string, id: string, s3: string, reason: string, s4: string
  )
    requires PaddedDenial(body, s0, s1, s2, id, s3, reason, s4)
    ensures ParseCommand(body) == Some(Command(false, id, Some(reason)))
  {
    Spelled(false);
    hide IsSpace, IsHex, SameWord;
    DenyTail(s3, reason, s4);
    var tail := s3 + (reason + s4);
    assert body == s0 + ("/autofix" + (s1 + ("deny" + (s2 + (id + tail)))));
    ReadsParses(body, Command(false, id, Some(reason)), s0, "/autofix", s1, "deny", s2, tail);
  }

  lemma DenyCommandReadsBack(id: string, reason: string)
    requires IsId(id) && IsReason(reason)
    ensures ParseCommand(DenyCommand(id, reason)) == Some(Command(false, id, Some(reason)))
  {
    Spelled(false);
    hide IsSpace, IsHex, SameWord, ParseCommand, IsReason;
    assert DenyCommand(id, reason) == "" + "/autofix" + " " + "deny" + " " + id + " " + reason + "";
    DenyRoundTrip(DenyCommand(id, reason), "", " ", " ", id, " ", reason, "");
  }

  lemma DenyTail(s3: string, reason: string, s4: string)
    requires AllSpace(s3) && s3 != "" && IsReason(reason)
    requires AllSpace(s4) && (s4 != "" ==> s4[0] == '\n')
    ensures TailReads(s3 + (reason + s4), Some(reason))
  {
    hide IsSpace;
    var s := s3 + (reason + s4);
    var k, m := |s3|, |s3| + |reason|;
    SpacesOf(s3, reason + s4);
    assert forall i :: k <= i < m ==> s[i] == reason[i - k];
    assert forall i :: m <= i < |s| ==> s[i] == s4[i - m];
    assert reason[0] == (reason + s4)[0];
    assert forall i :: k <= i < m ==> s[i] != '\n';
    assert m < |s| ==> s[m] == '\n';
    assert Spaces(s) == k && LineEnd(s, k) == m;
    WrittenReason(s);
    assert s[k..m] == reason;
  }

  lemma PlaceholderIsReason()
    ensures IsReason("<reason>")
  {
  }

  /** The notification quotes both commands, each of which reads back as printed,
      and is not itself taken for a command. */
  lemma NotificationReadsBack(toolName: string, approvalId: string, toolInput: string)
    requires IsId(approvalId)
    ensures var text := RenderApprovalComment(toolName, approvalId, toolInput);
            && Contains(text, "`/autofix approve " + approvalId + "`")
            && Contains(text, "`/autofix deny " + approvalId + " <reason>`")
            && ParseCommand(text) == None
    ensures ParseCommand("/autofix approve " + approvalId) == Some(Command(true, approvalId, None))
    ensures ParseCommand("/autofix deny " + approvalId + " <reason>") == Some(Command(false, approvalId, Some("<reason>")))
  {
    QuotedCommands(approvalId);
    PlaceholderIsReason();
    hide ParseCommand, IsReason, IsId, Preamble, Quoted, ApproveCommand, DenyCommand, Contains;
    ApproveCommandReadsBack(approvalId);
    DenyCommandReadsBack(approvalId, "<reason>");
    var head := Preamble(toolName, approvalId, toolInput);
    BothInside(head, Quoted(ApproveCommand(approvalId)), " or ",
               Quoted(DenyCommand(approvalId, "<reason>")), " to resolve.");
    StarIsNoCommand(RenderApprovalComment(toolName, approvalId, toolInput));
  }

  lemma QuotedCommands(id: string)
    ensures ApproveCommand(id) == "/autofix approve " + id
    ensures Quoted(ApproveCommand(id)) == "`/autofix approve " + id + "`"
    ensures DenyCommand(id, "<reason>") == "/autofix deny " + id + " <reason>"
    ensures Quoted(DenyCommand(id, "<reason>")) == "`/autofix deny " + id + " <reason>`"
  {
    assert " <reason>" == " " + "<reason>" && " <reason>`" == " <reason>" + "`";
    assert "`/autofix approve " == "`" + "/autofix approve " && "`/autofix deny " == "`" + "/autofix deny ";
  }

  lemma BothInside(head: string, a: string, between: string, b: string, end: string)
    ensures Contains(head + a + between + b + end, a) && Contains(head + a + between + b + end, b)
  {
    var text := head + a + between + b + end;
    assert text[|head|..|head| + |a|] == a;
    assert OccursAt(a, text, |head|);
    var k := |head| + |a| + |between|;
    assert text[k..k + |b|] == b;
    assert OccursAt(b, text, k);
  }

  lemma StarIsNoCommand(text: string)
    requires text != "" && text[0] == '*'
    ensures ParseCommand(text) == None
  {
    assert Spaces(text) == 0;
    assert text[0..] == text;
    if |AUTOFIX| <= |text| {
      assert !SameLetter(text[..|AUTOFIX|][0], AUTOFIX[0]);
    }
  }

  // ---- the pattern, letter by letter ----

  /** The characters that count as spaces, by code point. */
  lemma SpaceCodePoints(c: char)
    ensures IsSpace(c) <==>
            c as int in {9, 10, 11, 12, 13, 28, 29, 30, 31, 32, 133, 160, 5760, 8192, 8193, 8194, 8195, 8196, 8197,
                         8198, 8199, 8200, 8201, 8202, 8232, 8233, 8239, 8287, 12288}
  {
  }

  /** The letters of the two words may be capitals. */
  lemma CaseIsIgnored(name: string, verb: string, id: string)
    requires |name| == 8 && forall i :: 0 <= i < 8 ==>
               name[i] == "/autofix"[i] || (i > 0 && name[i] as int + 32 == "/autofix"[i] as int)
    requires |verb| == 7 && forall i :: 0 <= i < 7 ==>
               verb[i] == "approve"[i] || verb[i] as int + 32 == "approve"[i] as int
    requires IsId(id)
    ensures ParseCommand(name + " " + verb + " " + id) == Some(Command(true, id, None))
  {
    Spelled(true);
    assert SameWord(name, AUTOFIX);
    assert SameWord(verb, APPROVE);
    BlankTail("");
    hide IsSpace, IsHex, SameWord;
    var body := name + " " + verb + " " + id;
    assert body == "" + (name + (" " + (verb + (" " + (id + "")))));
    ReadsParses(body, Command(true, id, None), "", name, " ", verb, " ", "");
  }

  lemma OperandOf(id: string)
    requires forall i :: 0 <= i < |id| ==> IsHex(id[i])
    ensures ParseOperand(true, " " + id).Some? <==> 16 <= |id| <= 64
  {
    HexIsNotSpace();
    Spelled(true);
    BlankTail("");
    hide IsSpace, IsHex, TailReads, MatchTail;
    SpacesOf(" ", id);
    HexRunOf(id, "");
    assert id + "" == id;
    assert (" " + id)[1 + |id|..] == "";
  }

  lemma WordsRead(name: string, verb: string, s: string)
    requires SameWord(name, AUTOFIX) && SameWord(verb, APPROVE)
    ensures ParseCommand(name + (" " + (verb + s))) == ParseOperand(true, s)
  {
    Spelled(true);
    LetterIsNotSpace(name[0], '/');
    hide IsSpace, IsHex, SameWord, ParseOperand, ParseVerb;
    var afterName := " " + (verb + s);
    var body := name + afterName;
    assert Spaces(body) == 0 && body[0..] == body;
    assert body[..|name|] == name && body[|name|..] == afterName;
    VerbReads(Command(true, "", None), " ", verb, s);
  }

  lemma HexDigits(c: char)
    ensures IsHex(c) <==> c in "0123456789abcdefABCDEF"
  {
    var digits := "0123456789abcdefABCDEF";
    if IsHex(c) {
      var d := c as int;
      var k := if d < 58 then d - 48 else if d >= 97 then d - 87 else d - 49;
      assert digits[k] == c;
    }
  }

  lemma ApproveWords(id: string)
    ensures "/autofix approve " + id == "/autofix" + (" " + ("approve" + (" " + id)))
  {
  }

  /** An id has 16 to 64 hexadecimal digits. */
  lemma IdLengths(id: string)
    requires forall c :: c in id ==> c in "0123456789abcdefABCDEF"
    ensures ParseCommand("/autofix approve " + id).Some? <==> 16 <= |id| <= 64
  {
    hide IsHex, IsSpace, SameWord, ParseOperand, ParseCommand;
    forall i | 0 <= i < |id| ensures IsHex(id[i]) {
      HexDigits(id[i]);
    }
    Spelled(true);
    OperandOf(id);
    WordsRead("/autofix", "approve", " " + id);
    ApproveWords(id);
  }

  lemma TailDecides(id: string, tail: string)
    requires IsId(id) && (tail != "" ==> !IsHex(tail[0]))
    ensures ParseCommand("/autofix approve " + id + tail) ==
              match MatchTail(tail)
              case None => None
              case Some(reason) => Some(Command(true, id, reason))
  {
    Spelled(true);
    HexIsNotSpace();
    hide IsHex, IsSpace, SameWord, MatchTail;
    var s := " " + (id + tail);
    SpacesOf(" ", id + tail);
    HexRunOf(id, tail);
    Segments(" ", id, tail);
    assert s[1 + |id|..] == tail && s[1..1 + |id|] == id;
    assert ParseOperand(true, s) == match MatchTail(tail) case None => None case Some(reason) => Some(Command(true, id, reason));
    hide ParseOperand, ParseCommand;
    WordsRead("/autofix", "approve", s);
    ApproveWords(id + tail);
    assert "/autofix approve " + id + tail == "/autofix approve " + (id + tail);
  }

  lemma BlanksMatch(blanks: string)
    requires forall i :: 0 <= i < |blanks| ==> blanks[i] == ' '
    ensures MatchTail(blanks) == Some(if |blanks| <= 1 then None else Some(" "))
  {
    assert IsSpace(' ');
    hide IsSpace;
    var v := LastVisible(blanks);
    assert Spaces(blanks) == |blanks|;
    assert v == if |blanks| <= 1 then 0 else |blanks| - 1;
    assert v > 0 ==> blanks[v..v + 1] == " ";
  }

  /** After the id, blanks alone are no reason if there is at most one of them, and
      otherwise the last of them is the reason. */
  lemma BlanksAfterId(id: string, blanks: string)
    requires IsId(id) && forall i :: 0 <= i < |blanks| ==> blanks[i] == ' '
    ensures ParseCommand("/autofix approve " + id + blanks) ==
              Some(Command(true, id, if |blanks| <= 1 then None else Some(" ")))
  {
    hide ParseCommand, MatchTail;
    BlanksMatch(blanks);
    TailDecides(id, blanks);
  }

  lemma SecondLineFails(reason: string, more: string, i: nat)
    requires IsReason(reason) && i < |more| && !IsSpace(more[i])
    ensures MatchTail(" " + (reason + ("\n" + more))) == None
  {
    assert IsSpace(' ');
    hide IsSpace;
    var tail := " " + (reason + ("\n" + more));
    SpacesOf(" ", reason + ("\n" + more));
    var k, m := 1, 1 + |reason|;
    assert tail[m] == '\n';
    assert forall j :: k <= j < m ==> tail[j] == reason[j - 1];
    assert LineEnd(tail, k) == m;
    assert tail[m + 1 + i] == more[i];
  }

  /** A second line with anything visible on it makes the comment no command. */
  lemma SecondLineIsNoCommand(id: string, reason: string, more: string, i: nat)
    requires IsId(id) && IsReason(reason) && i < |more| && !IsSpace(more[i])
    ensures ParseCommand("/autofix approve " + id + (" " + (reason + ("\n" + more)))) == None
  {
    var tail := " " + (reason + ("\n" + more));
    assert tail[0] == ' ';
    hide ParseCommand, MatchTail, IsReason;
    SecondLineFails(reason, more, i);
    TailDecides(id, tail);
  }

  // ---- the webhook's approval branch ----

  datatype Comment = Comment(
    body: string,
    onPullRequest: bool,
    login: string,
    approverLogins: string,
    repoAllowed: bool,
    owner: string,
    repo: string,
    number: nat
  )

  datatype Decision = Decision(workflowId: string, approvalId: string, allowed: bool, reason: string)

  datatype Response = NotACommand | Forbidden | Signalled(decision: Decision)

  function Strip(s: string): string {
    var t := s[Spaces(s)..];
    StripEnd(t)
  }

  function StripEnd(s: string): string {
    if s != "" && IsSpace(Last(s)) then StripEnd(DropLast(s)) else s
  }

  function Approvers(logins: string): set<string> {
    set v | v in Split(logins, ',') && Strip(v) != "" :: Strip(v)
  }

  // ---- who is on the list ----

  /** A name is listed when it stands between commas, or commas and the ends, with
      nothing but spaces around it. */
  ghost predicate Lists(logins: string, login: string) {
    && login != "" && ',' !in login && !IsSpace(login[0]) && !IsSpace(login[|login| - 1])
    && exists before: string, pad0: string, pad1: string, after: string ::
         ListedAt(logins, login, before, pad0, pad1, after)
  }

  predicate ListedAt(logins: string, login: string, before: string, pad0: string, pad1: string, after: string) {
    && logins == before + pad0 + login + pad1 + after
    && AllSpace(pad0) && AllSpace(pad1)
    && (before == "" || before[|before| - 1] == ',') && (after == "" || after[0] == ',')
  }

  lemma {:induction false} StripEndReads(s: string) returns (pad: string)
    ensures s == StripEnd(s) + pad && AllSpace(pad)
    ensures StripEnd(s) == "" || !IsSpace(Last(StripEnd(s)))
  {
    hide IsSpace;
    if s != "" && IsSpace(Last(s)) {
      var inner := StripEndReads(DropLast(s));
      pad := inner + [Last(s)];
      assert StripEnd(DropLast(s)) + pad == DropLast(s) + [Last(s)] == s;
    } else {
      pad := "";
    }
  }

  lemma {:induction false} StripEndOf(s: string, pad: string)
    requires AllSpace(pad) && (s == "" || !IsSpace(Last(s)))
    ensures StripEnd(s + pad) == s
  {
    hide IsSpace;
    if pad == "" {
      assert s + pad == s;
    } else {
      assert DropLast(s + pad) == s + DropLast(pad);
      StripEndOf(s, DropLast(pad));
    }
  }

  lemma StripReads(v: string) returns (pad0: string, pad1: string)
    ensures v == pad0 + Strip(v) + pad1 && AllSpace(pad0) && AllSpace(pad1)
    ensures Strip(v) != "" ==> !IsSpace(Strip(v)[0]) && !IsSpace(Last(Strip(v)))
  {
    hide IsSpace;
    pad0 := v[..Spaces(v)];
    var t := v[Spaces(v)..];
    assert v == pad0 + t;
    pad1 := StripEndReads(t);
    hide Spaces, StripEnd;
    ThreeParts(pad0, StripEnd(t), pad1);
  }

  lemma ThreeParts(a: string, b: string, c: string)
    ensures a + (b + c) == a + b + c
    ensures b != "" ==> (b + c)[0] == b[0]
  {
  }

  lemma StripOf(pad0: string, name: string, pad1: string)
    requires AllSpace(pad0) && AllSpace(pad1) && name != "" && !IsSpace(name[0]) && !IsSpace(Last(name))
    ensures Strip(pad0 + name + pad1) == name
  {
    hide IsSpace;
    assert pad0 + name + pad1 == pad0 + (name + pad1);
    SpacesOf(pad0, name + pad1);
    StripEndOf(name, pad1);
  }

  lemma ListedIsApprover(
    logins: string, login: string, before: string, pad0: string, pad1: string, after: string
  )
    requires login != "" && ',' !in login && !IsSpace(login[0]) && !IsSpace(login[|login| - 1])
    requires ListedAt(logins, login, before, pad0, pad1, after)
    ensures login in Approvers(logins)
  {
    assert !IsSpace(',');
    hide IsSpace, Split, Strip;
    var v := pad0 + login + pad1;
    assert ',' !in pad0 && ',' !in pad1;
    FiveParts(before, pad0, login, pad1, after);
    StripOf(pad0, login, pad1);
    SplitCutOut(',', before, v, after);
  }

  lemma FiveParts(a: string, b: string, c: string, d: string, e: string)
    ensures a + (b + c + d) + e == a + b + c + d + e
  {
  }

  lemma ApproverIsListed(logins: string, login: string)
    requires login in Approvers(logins)
    ensures Lists(logins, login)
  {
    hide Split, Strip, IsSpace;
    var v :| v in Split(logins, ',') && Strip(v) != "" && Strip(v) == login;
    SplitPieces(logins, ',', v);
    var before, after :| CutOut(logins, ',', before, v, after);
    var pad0, pad1 := StripReads(v);
    assert forall ch :: ch in login ==> ch in v;
    FiveParts(before, pad0, login, pad1, after);
    assert ListedAt(logins, login, before, pad0, pad1, after);
  }

  lemma ApproversExact(logins: string, login: string)
    ensures login in Approvers(logins) <==> Lists(logins, login)
  {
    hide IsSpace, Approvers;
    if login in Approvers(logins) {
      ApproverIsListed(logins, login);
    }
    if Lists(logins, login) {
      var before: string, pad0: string, pad1: string, after: string :|
        ListedAt(logins, login, before, pad0, pad1, after);
      ListedIsApprover(logins, login, before, pad0, pad1, after);
    }
  }

  function WorkflowId(owner: string, repo: string, number: nat): string {
    "pr-autofix-" + owner + "-" + repo + "-" + Idempotency.Decimal(number)
  }

  // ---- which pull requests share a workflow ----

  lemma LastDash(a: string, d: string, b: string, e: string)
    requires '-' !in d && '-' !in e && a + "-" + d == b + "-" + e
    ensures a == b && d == e
  {
    var text := a + "-" + d;
    assert text[|a|] == '-' && text[|b|] == '-';
    assert forall i :: |a| < i < |text| ==> text[i] == d[i - |a| - 1] && d[i - |a| - 1] in d;
    assert forall i :: |b| < i < |text| ==> text[i] == e[i - |b| - 1] && e[i - |b| - 1] in e;
    assert |a| == |b|;
    assert text[..|a|] == a && text[..|b|] == b && text[|a| + 1..] == d && text[|b| + 1..] == e;
  }

  /** Two pull requests have one workflow id exactly when their numbers agree and
      owner and repository agree once joined. */
  lemma WorkflowIdExact(o1: string, r1: string, n1: nat, o2: string, r2: string, n2: nat)
    ensures WorkflowId(o1, r1, n1) == WorkflowId(o2, r2, n2) <==> n1 == n2 && o1 + "-" + r1 == o2 + "-" + r2
  {
    var d1, d2 := Idempotency.Decimal(n1), Idempotency.Decimal(n2);
    Idempotency.DecimalIsDigits(n1);
    Idempotency.DecimalIsDigits(n2);
    assert WorkflowId(o1, r1, n1) == "pr-autofix-" + (o1 + "-" + r1 + "-" + d1);
    assert WorkflowId(o2, r2, n2) == "pr-autofix-" + (o2 + "-" + r2 + "-" + d2);
    var prefix := "pr-autofix-";
    if WorkflowId(o1, r1, n1) == WorkflowId(o2, r2, n2) {
      assert (prefix + (o1 + "-" + r1 + "-" + d1))[|prefix|..] == o1 + "-" + r1 + "-" + d1;
      assert (prefix + (o2 + "-" + r2 + "-" + d2))[|prefix|..] == o2 + "-" + r2 + "-" + d2;
      LastDash(o1 + "-" + r1, d1, o2 + "-" + r2, d2);
      Idempotency.DecimalInjective(n1, n2);
    }
  }

  /** One owner's name goes on with a dash and the start of the other's repository. */
  ghost predicate Overlaps(o1: string, r1: string, o2: string, r2: string) {
    exists middle: string :: o2 == o1 + "-" + middle && r1 == middle + "-" + r2
  }

  lemma JoinedOverlap(o1: string, r1: string, o2: string, r2: string)
    requires |o1| < |o2|
    ensures o1 + "-" + r1 == o2 + "-" + r2 <==> Overlaps(o1, r1, o2, r2)
  {
    var left, right := o1 + "-" + r1, o2 + "-" + r2;
    if left == right {
      assert left[..|o1|] == o1 && left[..|o2|] == o2;
      assert left[|o1|] == '-' && left[|o2|] == '-';
      var middle := o2[|o1| + 1..];
      assert o2 == left[..|o1|] + [left[|o1|]] + middle;
      assert r1 == left[|o1| + 1..];
      assert left[|o1| + 1..] == middle + "-" + r2;
      assert Overlaps(o1, r1, o2, r2);
    }
    if Overlaps(o1, r1, o2, r2) {
      var middle: string :| o2 == o1 + "-" + middle && r1 == middle + "-" + r2;
      assert left == o1 + "-" + middle + "-" + r2 == right;
    }
  }

  /** So two different pull requests share a workflow exactly when they have the
      same number and one owner's name overlaps the other's repository. */
  lemma SharedWorkflowExactly(o1: string, r1: string, n1: nat, o2: string, r2: string, n2: nat)
    ensures WorkflowId(o1, r1, n1) == WorkflowId(o2, r2, n2) <==>
            n1 == n2 && ((o1 == o2 && r1 == r2) || (|o1| < |o2| && Overlaps(o1, r1, o2, r2)) ||
                         (|o2| < |o1| && Overlaps(o2, r2, o1, r1)))
  {
    WorkflowIdExact(o1, r1, n1, o2, r2, n2);
    hide WorkflowId, Overlaps;
    if |o1| < |o2| {
      JoinedOverlap(o1, r1, o2, r2);
    } else if |o2| < |o1| {
      JoinedOverlap(o2, r2, o1, r1);
    } else {
      var left, right := o1 + "-" + r1, o2 + "-" + r2;
      assert left[..|o1|] == o1 && right[..|o2|] == o2;
      assert left[|o1| + 1..] == r1 && right[|o2| + 1..] == r2;
    }
  }

  /** Where no owner's name, or no repository's, contains a dash, a workflow id is one pull request's. */
  lemma WorkflowIdInjective(o1: string, r1: string, n1: nat, o2: string, r2: string, n2: nat)
    requires ('-' !in o1 && '-' !in o2) || ('-' !in r1 && '-' !in r2)
    ensures WorkflowId(o1, r1, n1) == WorkflowId(o2, r2, n2) <==> o1 == o2 && r1 == r2 && n1 == n2
  {
    SharedWorkflowExactly(o1, r1, n1, o2, r2, n2);
    hide WorkflowId;
    if Overlaps(o1, r1, o2, r2) {
      OverlapNeedsDashes(o1, r1, o2, r2);
    }
    if Overlaps(o2, r2, o1, r1) {
      OverlapNeedsDashes(o2, r2, o1, r1);
    }
  }

  lemma OverlapNeedsDashes(o1: string, r1: string, o2: string, r2: string)
    requires Overlaps(o1, r1, o2, r2)
    ensures '-' in o2 && '-' in r1
  {
    var middle: string :| o2 == o1 + "-" + middle && r1 == middle + "-" + r2;
    assert o2[|o1|] == '-' && r1[|middle|] == '-';
  }

  /** A family that does share: the dash may belong to the owner or to the repository. */
  lemma WorkflowIdShared(a: string, b: string, c: string, n: nat)
    ensures WorkflowId(a + "-" + b, c, n) == WorkflowId(a, b + "-" + c, n)
    ensures a + "-" + b != a
  {
    assert (a + "-" + b) + "-" + c == a + "-" + (b + "-" + c);
    WorkflowIdExact(a + "-" + b, c, n, a, b + "-" + c, n);
  }

  function HandleComment(c: Comment): Response {
    var command := ParseCommand(c.body);
    if command.None? || !c.onPullRequest then NotACommand
    else if c.login !in Approvers(c.approverLogins) then Forbidden
    else if !c.repoAllowed then Forbidden
    else
      Signalled(Decision(
        WorkflowId(c.owner, c.repo, c.number),
        command.value.approvalId,
        command.value.allowed,
        if command.value.reason.Some? then command.value.reason.value else ""))
  }

  /** What stands behind a decision: a listed approver wrote a comment that the
      pattern reads as this verb and this id. */
  ghost predicate Authorizes(c: Comment, workflowId: string, approvalId: string, allowed: bool) {
    && c.onPullRequest && c.repoAllowed
    && Lists(c.approverLogins, c.login)
    && workflowId == "pr-autofix-" + c.owner + "-" + c.repo + "-" + Idempotency.Decimal(c.number)
    && exists reason :: IsCommand(c.body, Command(allowed, approvalId, reason))
  }

  /** What the gateway answers, for every comment: it signals the verb, id and
      reason that the pattern reads in a listed approver's comment on a pull request of
      an allowed repository, forbids every other command on a pull request, and takes
      nothing else for a command. */
  lemma AnswersExactly(c: Comment)
    ensures HandleComment(c) == NotACommand <==> !c.onPullRequest || forall command :: !IsCommand(c.body, command)
    ensures forall command :: IsCommand(c.body, command) && c.onPullRequest ==>
              HandleComment(c) ==
                if Lists(c.approverLogins, c.login) && c.repoAllowed then
                  Signalled(Decision(
                    "pr-autofix-" + c.owner + "-" + c.repo + "-" + Idempotency.Decimal(c.number),
                    command.approvalId, command.allowed,
                    match command.reason case None => "" case Some(r) => r))
                else Forbidden
  {
    hide ParseCommand, IsCommand, Approvers, Lists;
    ApproversExact(c.approverLogins, c.login);
    forall command ensures ParseCommand(c.body) == Some(command) <==> IsCommand(c.body, command) {
      ParseCommandExact(c.body, command);
    }
  }

  /** The gateway signals a decision exactly when some comment authorizes it. */
  lemma SignalsExactly(c: Comment, workflowId: string, approvalId: string, allowed: bool)
    ensures Authorizes(c, workflowId, approvalId, allowed) <==>
            exists reason :: HandleComment(c) == Signalled(Decision(workflowId, approvalId, allowed, reason))
  {
    AnswersExactly(c);
    hide HandleComment, IsCommand, Lists;
    if Authorizes(c, workflowId, approvalId, allowed) {
      var reason :| IsCommand(c.body, Command(allowed, approvalId, reason));
      assert HandleComment(c) == Signalled(Decision(workflowId, approvalId, allowed, HandleComment(c).decision.reason));
    }
    if HandleComment(c).Signalled? {
      var command :| IsCommand(c.body, command);
      assert Command(command.allowed, command.approvalId, command.reason) == command;
    }
  }

  /** Fail closed: a list of nothing but commas and spaces lets nobody decide. */
  lemma BlankApproversAuthorizeNobody(c: Comment)
    requires forall ch :: ch in c.approverLogins ==> ch == ',' || IsSpace(ch)
    ensures !HandleComment(c).Signalled?
  {
    JoinSplit(c.approverLogins, ',');
    forall v | v in Split(c.approverLogins, ',') ensures Strip(v) == "" {
      PieceIsPart(c.approverLogins, ',', v);
      assert AllSpace(v);
    }
  }

  lemma {:induction false} PieceIsPart(s: string, sep: char, v: string)
    requires v in Split(s, sep)
    ensures forall ch :: ch in v ==> ch in s && ch != sep
  {
    if s != "" {
      var rest := Split(s[1..], sep);
      if v in rest {
        PieceIsPart(s[1..], sep, v);
      } else if s[0] != sep {
        assert v == [s[0]] + rest[0];
        PieceIsPart(s[1..], sep, rest[0]);
      }
    }
  }
}
