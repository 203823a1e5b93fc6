/** `_run_iteration_impl` of src/activities/agent_iteration.py: the fold over the
    messages the sandbox prints, and the way from the printed bytes back to them. */
module AgentIteration {
  import opened Sequences
  import opened Models
  import opened Demux
  import FixPlanTail

  // ---- reading the plan ----

  /** `FixPlan.model_validate_json`: a plan, or the name of the exception raised. */
  datatype Validated = Valid(plan: FixPlan) | Invalid(exception: string)

  function BlockedPlan(summary: string, reason: string): FixPlan {
    FixPlan(Blocked, summary, [], [], None, Some(reason))
  }

  function ParseFixPlan(text: string, validate: string -> Validated): FixPlan {
    if text == "" then
      BlockedPlan("Agent produced no final output.", "agent output not parseable: empty")
    else
      match FixPlanTail.Chosen(text)
      case None =>
        BlockedPlan("Agent did not emit a FixPlan JSON tail.",
                    "agent output not parseable: no JSON object containing 'action'")
      case Some(m) =>
        FixPlanTail.ChosenIsRightmost(text, m);
        match validate(text[m.start..m.end])
        case Valid(plan) => plan
        case Invalid(exception) =>
          BlockedPlan("Agent FixPlan JSON did not validate.", "agent output not parseable: " + exception)
  }

  /** What is read is the object of the cut furthest to the right; what does not
      validate, or is not there, blocks. */
  lemma TextDecides(
    prefix: string, x: string, y: string, suffix: string, validate: string -> Validated
  )
    requires var text := prefix + ("{" + x + "\"action\"" + y + "}") + suffix;
             && FixPlanTail.CutsAround(text, prefix, x, y, suffix)
             && forall p: string, x': string, y': string, q: string ::
                  FixPlanTail.CutsAround(text, p, x', y', q) ==> |p| <= |prefix|
    ensures var flat := "{" + x + "\"action\"" + y + "}";
            ParseFixPlan(prefix + flat + suffix, validate) ==
              match validate(flat)
              case Valid(plan) => plan
              case Invalid(e) =>
                FixPlan(Blocked, "Agent FixPlan JSON did not validate.", [], [], None,
                        Some("agent output not parseable: " + e))
  {
    var flat := "{" + x + "\"action\"" + y + "}";
    var text := prefix + flat + suffix;
    hide FixPlanTail.CutsAround, FixPlanTail.Chosen;
    FixPlanTail.RightmostCutChosen(text, prefix, x, y, suffix);
    assert |flat| == |x| + |y| + 10;
    assert text[|prefix|..|prefix| + |flat|] == flat;
    assert text != "";
  }

  lemma TextBlocks(text: string, validate: string -> Validated)
    requires forall p: string, x: string, y: string, q: string :: !FixPlanTail.CutsAround(text, p, x, y, q)
    ensures ParseFixPlan(text, validate) ==
              if text == "" then
                FixPlan(Blocked, "Agent produced no final output.", [], [], None,
                        Some("agent output not parseable: empty"))
              else
                FixPlan(Blocked, "Agent did not emit a FixPlan JSON tail.", [], [], None,
                        Some("agent output not parseable: no JSON object containing 'action'"))
  {
    FixPlanTail.NothingChosen(text);
  }

  /** A flat object that ends the agent's answer is what the plan is read from,
      whatever was written before it. */
  lemma PlanComesFromTail(
    prefix: string, x: string, y: string, suffix: string, validate: string -> Validated, plan: FixPlan
  )
    requires forall c :: c in x || c in y || c in suffix ==> c != '{' && c != '}'
    requires validate("{" + x + "\"action\"" + y + "}") == Valid(plan)
    ensures ParseFixPlan(prefix + ("{" + x + "\"action\"" + y + "}") + suffix, validate) == plan
  {
    var flat := "{" + x + "\"action\"" + y + "}";
    var text := prefix + flat + suffix;
    FixPlanTail.TailObjectIsChosen(prefix, x, y, suffix);
    assert |flat| == |x| + |y| + 10;
    assert text[|prefix|..|prefix| + |flat|] == flat;
    assert text != "";
  }

  // ---- messages ----

  datatype Block = ToolUse | OtherBlock | NotADict

  /** What `json.loads` makes of one line, as far as the loop looks at it.

      `content` is None for a value that is true but no list: iterating it raises,
      or yields what has no `get`. Values that are false, and null, count as the
      empty list. `subtype` is None for a value that is false, else its text;
      `result` is None for a value that is true but no text, else the text, which
      is empty for a value that is false. */
  datatype Document =
    | Malformed
    | NotLoaded
    | NotAnObject
    | Assistant(content: Option<seq<Block>>)
    | ResultMessage(subtype: Option<string>, result: Option<string>)
    | OtherMessage

  /** An exception other than JSONDecodeError, which ends the activity. */
  predicate Raises(d: Document) {
    d.NotLoaded? || d.NotAnObject? || (d.Assistant? && (d.content.None? || NotADict in d.content.value))
  }

  datatype Outcome = Returned(plan: FixPlan) | Raised

  function FinalResult(docs: seq<Document>): (final: Option<Document>)
    ensures final.Some? ==> final.value.ResultMessage?
  {
    if docs == [] then None
    else if Last(docs).ResultMessage? then Some(Last(docs))
    else FinalResult(DropLast(docs))
  }

  /** What becomes of the last result message; searching what is no text raises. */
  function PlanOf(final: Option<Document>, validate: string -> Validated): Outcome
    requires final.Some? ==> final.value.ResultMessage?
  {
    match final
    case None => Returned(ParseFixPlan("", validate))
    case Some(d) =>
      if d.subtype.Some? && d.subtype.value != "success" then
        Returned(BlockedPlan("Agent terminated abnormally.", "ResultMessage.subtype=" + d.subtype.value))
      else if d.result.None? then Raised
      else Returned(ParseFixPlan(d.result.value, validate))
  }

  predicate AnyRaises(docs: seq<Document>) {
    exists d :: d in docs && Raises(d)
  }

  function IterationOutcome(docs: seq<Document>, validate: string -> Validated): Outcome {
    if AnyRaises(docs) then Raised else PlanOf(FinalResult(docs), validate)
  }

  function ToolCalls(blocks: seq<Block>): nat {
    if blocks == [] then 0 else ToolCalls(DropLast(blocks)) + (if Last(blocks).ToolUse? then 1 else 0)
  }

  function CallsIn(d: Document): nat {
    if d.Assistant? && d.content.Some? then ToolCalls(d.content.value) else 0
  }

  function AllToolCalls(docs: seq<Document>): nat {
    if docs == [] then 0 else AllToolCalls(DropLast(docs)) + CallsIn(Last(docs))
  }

  /** The documents on the stdout lines of the whole byte string. */
  function Documents(utf8: Bytes -> string, loads: string -> Document, received: Bytes): seq<Document> {
    Map(loads, Map(utf8, StreamLines(STDOUT, received)))
  }

  /** The whole activity, from the chunks `recv` returns to the plan and the two
      heartbeat counters. */
  method RunIteration(
    sandbox: Option<SandboxHandle>, chunks: seq<Bytes>,
    utf8: Bytes -> string, loads: string -> Document, validate: string -> Validated
  ) returns (outcome: Outcome, messages: nat, toolCalls: nat)
    ensures sandbox.None? ==>
              outcome == Returned(FixPlan(Blocked, "No sandbox provisioned.", [], [], None,
                                          Some("state.sandbox is None — provision_sandbox not run")))
    ensures sandbox.Some? ==> outcome == IterationOutcome(Documents(utf8, loads, Received(chunks)), validate)
    ensures sandbox.Some? && outcome.Returned? ==>
              messages == |Documents(utf8, loads, Received(chunks))| &&
              toolCalls == AllToolCalls(Documents(utf8, loads, Received(chunks)))
  {
    messages, toolCalls := 0, 0;
    if sandbox.None? {
      outcome := Returned(BlockedPlan("No sandbox provisioned.",
                                      "state.sandbox is None — provision_sandbox not run"));
      return;
    }
    var emitted := Dispatch(chunks, utf8);
    var lines := Texts(STDOUT, emitted);
    ghost var docs := Documents(utf8, loads, Received(chunks));
    var finalText: Option<string>, finalSubtype: Option<string> := Some(""), None;
    hide StreamLines, Received, Texts, Trace, ParseFixPlan, AllToolCalls, ToolCalls, AnyRaises;
    NothingYet(docs);
    for i := 0 to |lines|
      invariant messages == i && !AnyRaises(docs[..i]) && toolCalls == AllToolCalls(docs[..i])
      invariant match FinalResult(docs[..i])
                case None => finalText == Some("") && finalSubtype == None
                case Some(d) => finalText == d.result && finalSubtype == d.subtype
    {
      messages := messages + 1;
      var msg := loads(lines[i]);
      OneMore(docs, i);
      if Raises(msg) {
        outcome := Raised;
        return;
      }
      if msg.Assistant? {
        toolCalls := CountToolUses(msg.content.value, toolCalls);
      } else if msg.ResultMessage? {
        finalSubtype, finalText := msg.subtype, msg.result;
      }
    }
    assert docs[..|lines|] == docs;
    if finalSubtype.Some? && finalSubtype.value != "success" {
      outcome := Returned(BlockedPlan("Agent terminated abnormally.",
                                      "ResultMessage.subtype=" + finalSubtype.value));
    } else if finalText.None? {
      outcome := Raised;
    } else {
      outcome := Returned(ParseFixPlan(finalText.value, validate));
    }
  }

  lemma NothingYet(docs: seq<Document>)
    ensures !AnyRaises(docs[..0]) && AllToolCalls(docs[..0]) == 0 && FinalResult(docs[..0]) == None
  {
  }

  /** What reading one more document changes. */
  lemma OneMore(docs: seq<Document>, i: nat)
    requires i < |docs|
    ensures AnyRaises(docs[..i + 1]) <==> AnyRaises(docs[..i]) || Raises(docs[i])
    ensures Raises(docs[i]) ==> AnyRaises(docs)
    ensures AllToolCalls(docs[..i + 1]) == AllToolCalls(docs[..i]) + CallsIn(docs[i])
    ensures FinalResult(docs[..i + 1]) == if docs[i].ResultMessage? then Some(docs[i]) else FinalResult(docs[..i])
  {
    assert DropLast(docs[..i + 1]) == docs[..i];
    assert docs[..i + 1] == docs[..i] + [docs[i]];
  }

  method CountToolUses(blocks: seq<Block>, before: nat) returns (count: nat)
    ensures count == before + ToolCalls(blocks) == before + multiset(blocks)[ToolUse]
  {
    count := before;
    for i := 0 to |blocks|
      invariant count == before + ToolCalls(blocks[..i])
    {
      assert DropLast(blocks[..i + 1]) == blocks[..i];
      if blocks[i].ToolUse? {
        count := count + 1;
      }
    }
    assert blocks[..|blocks|] == blocks;
    ToolCallsCounted(blocks);
  }

  lemma {:induction false} ToolCallsCounted(blocks: seq<Block>)
    ensures ToolCalls(blocks) == multiset(blocks)[ToolUse]
  {
    if blocks != [] {
      ToolCallsCounted(DropLast(blocks));
      assert blocks == DropLast(blocks) + [Last(blocks)];
    }
  }

  lemma {:induction false} CallsAppend(docs: seq<Document>, more: seq<Document>)
    ensures AllToolCalls(docs + more) == AllToolCalls(docs) + AllToolCalls(more)
    decreases |more|
  {
    if more == [] {
      assert docs + more == docs;
    } else {
      assert DropLast(docs + more) == docs + DropLast(more) && Last(docs + more) == Last(more);
      CallsAppend(docs, DropLast(more));
    }
  }

  /** The counter is the number of tool_use blocks in the assistant messages. */
  lemma ToolCallsExactly(before: seq<Document>, d: Document, after: seq<Document>)
    ensures AllToolCalls([]) == 0
    ensures AllToolCalls(before + [d] + after) == AllToolCalls(before + after) +
              match d
              case Assistant(Some(blocks)) => multiset(blocks)[ToolUse]
              case _ => 0
  {
    hide ToolCalls;
    assert DropLast([d]) == [];
    assert AllToolCalls([d]) == CallsIn(d);
    CallsAppend(before, after);
    CallsAppend(before, [d]);
    CallsAppend(before + [d], after);
    if d.Assistant? && d.content.Some? {
      ToolCallsCounted(d.content.value);
    }
  }

  // ---- the outcome, message by message ----

  /** Of the messages none ends the activity: each was loaded, is an object, and if it
      is an assistant's, has a list of objects for content. */
  ghost predicate NoneEnds(docs: seq<Document>) {
    forall d :: d in docs ==>
      && d != NotLoaded && d != NotAnObject && d != Assistant(None)
      && (d.Assistant? && d.content.Some? ==> NotADict !in d.content.value)
  }

  lemma NoneEndsExactly(docs: seq<Document>)
    ensures NoneEnds(docs) <==> !AnyRaises(docs)
  {
  }

  ghost predicate NoResult(docs: seq<Document>) {
    forall d :: d in docs ==> !d.ResultMessage?
  }

  lemma {:induction false} FinalAppend(before: seq<Document>, after: seq<Document>)
    ensures NoResult(after) ==> FinalResult(before + after) == FinalResult(before)
    ensures !NoResult(after) ==> FinalResult(before + after) == FinalResult(after)
    decreases |after|
  {
    if after == [] {
      assert before + after == before;
    } else {
      var docs := before + after;
      assert Last(docs) == Last(after) && DropLast(docs) == before + DropLast(after);
      assert after == DropLast(after) + [Last(after)];
      FinalAppend(before, DropLast(after));
    }
  }

  lemma FinalIs(before: seq<Document>, final: Document, after: seq<Document>)
    requires final.ResultMessage? && NoResult(after)
    ensures FinalResult(before + [final] + after) == Some(final)
  {
    FinalAppend(before + [final], after);
    assert Last(before + [final]) == final;
  }

  lemma {:induction false} FinalSplits(docs: seq<Document>) returns (before: seq<Document>, after: seq<Document>)
    ensures match FinalResult(docs)
            case None => NoResult(docs)
            case Some(final) => docs == before + [final] + after && NoResult(after)
  {
    if docs == [] {
      before, after := [], [];
    } else if Last(docs).ResultMessage? {
      before, after := DropLast(docs), [];
      assert docs == before + [Last(docs)] + after;
    } else {
      var rest;
      before, rest := FinalSplits(DropLast(docs));
      after := rest + [Last(docs)];
      assert docs == DropLast(docs) + [Last(docs)];
      if FinalResult(docs).Some? {
        assert before + [FinalResult(docs).value] + rest + [Last(docs)] == before + [FinalResult(docs).value] + after;
      }
    }
  }

  lemma SkippedEndsNothing(before: seq<Document>, d: Document, after: seq<Document>)
    requires d == Malformed || d == OtherMessage || (d.Assistant? && d.content.Some? && NotADict !in d.content.value)
    ensures NoneEnds(before + [d] + after) <==> NoneEnds(before + after)
  {
    forall e ensures e in before + [d] + after <==> e == d || e in before + after {
    }
  }

  /** A line that is no JSON, a message of another type and an assistant's message
      with a proper list change nothing, wherever they stand. */
  lemma SkippedMessages(before: seq<Document>, d: Document, after: seq<Document>, validate: string -> Validated)
    requires d == Malformed || d == OtherMessage || (d.Assistant? && d.content.Some? && NotADict !in d.content.value)
    ensures IterationOutcome(before + [d] + after, validate) == IterationOutcome(before + after, validate)
  {
    NoneEndsExactly(before + [d] + after);
    NoneEndsExactly(before + after);
    SkippedEndsNothing(before, d, after);
    assert FinalResult([d]) == FinalResult([]) == None by {
      assert DropLast([d]) == [];
    }
    hide FinalResult, ParseFixPlan, AnyRaises, NoneEnds;
    assert before + [d] + after == before + ([d] + after);
    FinalAppend(before, [d] + after);
    FinalAppend([d], after);
    FinalAppend(before, after);
    assert NoResult([d] + after) <==> NoResult(after);
  }

  /** When the activity raises: some message ends it, or the last result is not
      abnormal and its text is no text. */
  lemma RaisedExactly(docs: seq<Document>, validate: string -> Validated)
    ensures IterationOutcome(docs, validate) == Raised <==>
            || !NoneEnds(docs)
            || exists before, subtype, after :: docs == before + [ResultMessage(subtype, None)] + after && NoResult(after) &&
                 (subtype == None || subtype == Some("success"))
  {
    hide FinalResult, ParseFixPlan;
    NoneEndsExactly(docs);
    var before, after := FinalSplits(docs);
    forall b, subtype, a | docs == b + [ResultMessage(subtype, None)] + a && NoResult(a)
      ensures FinalResult(docs) == Some(ResultMessage(subtype, None))
    {
      FinalIs(b, ResultMessage(subtype, None), a);
    }
    if NoneEnds(docs) && IterationOutcome(docs, validate) == Raised {
      var final := FinalResult(docs).value;
      assert docs == before + [ResultMessage(final.subtype, None)] + after;
    }
  }

  /** A run that did not end in success blocks, whatever plan its text holds. */
  lemma AbnormalEndBlocks(
    before: seq<Document>, subtype: string, result: Option<string>, after: seq<Document>, validate: string -> Validated
  )
    requires subtype != "success" && NoResult(after)
    requires NoneEnds(before + [ResultMessage(Some(subtype), result)] + after)
    ensures IterationOutcome(before + [ResultMessage(Some(subtype), result)] + after, validate) ==
              Returned(FixPlan(Blocked, "Agent terminated abnormally.", [], [], None,
                               Some("ResultMessage.subtype=" + subtype)))
  {
    hide FinalResult;
    NoneEndsExactly(before + [ResultMessage(Some(subtype), result)] + after);
    FinalIs(before, ResultMessage(Some(subtype), result), after);
  }

  /** A run without a result, or with an empty one, blocks. */
  lemma NoAnswerBlocks(docs: seq<Document>, validate: string -> Validated)
    requires NoneEnds(docs)
    requires NoResult(docs) ||
             exists before, subtype, after :: docs == before + [ResultMessage(subtype, Some(""))] + after && NoResult(after) &&
               (subtype == None || subtype == Some("success"))
    ensures IterationOutcome(docs, validate) ==
              Returned(FixPlan(Blocked, "Agent produced no final output.", [], [], None,
                               Some("agent output not parseable: empty")))
  {
    NoneEndsExactly(docs);
    if NoResult(docs) {
      FinalAppend([], docs);
      assert [] + docs == docs;
    } else {
      hide FinalResult;
      var before, subtype, after :| docs == before + [ResultMessage(subtype, Some(""))] + after && NoResult(after) &&
        (subtype == None || subtype == Some("success"));
      FinalIs(before, ResultMessage(subtype, Some("")), after);
    }
  }

  /** Otherwise the text of the last result decides, and nothing else that was said. */
  lemma AnswerDecides(
    before: seq<Document>, subtype: Option<string>, text: string, after: seq<Document>, validate: string -> Validated
  )
    requires (subtype == None || subtype == Some("success")) && NoResult(after)
    requires NoneEnds(before + [ResultMessage(subtype, Some(text))] + after)
    ensures IterationOutcome(before + [ResultMessage(subtype, Some(text))] + after, validate)
         == Returned(ParseFixPlan(text, validate))
  {
    hide FinalResult, ParseFixPlan;
    NoneEndsExactly(before + [ResultMessage(subtype, Some(text))] + after);
    FinalIs(before, ResultMessage(subtype, Some(text)), after);
  }

  // ---- what the host sees of what the sandbox said ----

  /** The runner's side: one encoded message a line. */
  function Printed(encode: Document -> Bytes, msgs: seq<Document>): Bytes {
    WriteLines(Map(encode, msgs))
  }

  /** What is assumed of encoding and decoding: messages are newline-free and read back. */
  ghost predicate Readable(
    msgs: seq<Document>, encode: Document -> Bytes, utf8: Bytes -> string, loads: string -> Document
  ) {
    forall m :: m in msgs ==> NEWLINE !in encode(m) && loads(utf8(encode(m))) == m
  }

  /** What the connection carries: printed messages cut into stdout frames,
      whatever frames of other streams between them, whatever incomplete frame last. */
  ghost predicate Carried(msgs: seq<Document>, encode: Document -> Bytes, frames: seq<Frame>, tail: Bytes, received: Bytes) {
    && AllWellFormed(frames) && PayloadOf(STDOUT, frames) == Printed(encode, msgs)
    && received == EncodeFrames(frames) + tail && !HasFrame(tail)
  }

  /** End to end: whatever the framing and the chunking, the host reads exactly
      the messages printed. */
  lemma EndToEnd(
    msgs: seq<Document>, encode: Document -> Bytes, utf8: Bytes -> string, loads: string -> Document,
    frames: seq<Frame>, tail: Bytes, chunks: seq<Bytes>
  )
    requires Readable(msgs, encode, utf8, loads) && Carried(msgs, encode, frames, tail, Received(chunks))
    ensures Documents(utf8, loads, Received(chunks)) == msgs
  {
    ParseUnique(Received(chunks), frames, tail);
    var lines := Map(encode, msgs);
    LinesOfWritten(lines, []);
    assert Printed(encode, msgs) + [] == Printed(encode, msgs);
    assert StreamLines(STDOUT, Received(chunks)) == lines;
  }

  /** From what the agent printed to the plan the workflow gets: if the last
      result message printed is a success that ends in a valid flat plan, that
      plan is what the activity returns, whatever else was printed and however it
      was framed, interleaved, cut off and chunked. */
  lemma PrintedPlanIsReturned(
    before: seq<Document>, after: seq<Document>, prefix: string, x: string, y: string, suffix: string, plan: FixPlan,
    encode: Document -> Bytes, utf8: Bytes -> string, loads: string -> Document, validate: string -> Validated,
    frames: seq<Frame>, tail: Bytes, chunks: seq<Bytes>
  )
    requires var flat := "{" + x + "\"action\"" + y + "}";
             var msgs := before + [ResultMessage(Some("success"), Some(prefix + flat + suffix))] + after;
             && Readable(msgs, encode, utf8, loads) && Carried(msgs, encode, frames, tail, Received(chunks))
             && NoResult(after) && NoneEnds(msgs) && validate(flat) == Valid(plan)
    requires forall c :: c in x || c in y || c in suffix ==> c != '{' && c != '}'
    ensures IterationOutcome(Documents(utf8, loads, Received(chunks)), validate) == Returned(plan)
  {
    var text := prefix + ("{" + x + "\"action\"" + y + "}") + suffix;
    var final := ResultMessage(Some("success"), Some(text));
    hide Readable, Carried, NoneEnds, Documents, ParseFixPlan, IterationOutcome;
    EndToEnd(before + [final] + after, encode, utf8, loads, frames, tail, chunks);
    AnswerDecides(before, Some("success"), text, after, validate);
    PlanComesFromTail(prefix, x, y, suffix, validate, plan);
  }
}
