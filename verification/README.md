# Verification of the PR autofix platform

A Temporal workflow watches a pull request, runs an agent in a sandbox on new
events, asks a human before anything is published, and then commits and pushes
once. This project models the parts of it where a mistake would lose data, lose
work or publish something nobody approved, and proves what they promise.

| file | what it models |
|---|---|
| `Demux.dfy` | the parser of the Docker exec stream: frames in arbitrary chunks, one line buffer per stream |
| `FixPlanTail.dfy`, `AgentIteration.dfy` | the fold over the agent's messages and the search for the FixPlan in its last answer |
| `Models.dfy`, `Workflow.dfy` | the workflow object: one method per stretch of code between two awaits, and the machine that specifies them |
| `WorkflowRuns.dfy`, `WorkflowDriver.dfy` | runs of the machine with a history beside the state, and the object driven through them |
| `WorkflowSteps.dfy`, `WorkflowScenarios.dfy` | what each kind of step changes, and the particular runs the counterexamples are made of |
| `WorkflowLifecycle.dfy`, `WorkflowKeys.dfy` | how a workflow ends, what a request comes to, and which iteration an operation belongs to |
| `WorkflowEvents.dfy`, `WorkflowApprovals.dfy`, `WorkflowReports.dfy` | what every run keeps: events, approvals, the truth of what is reported |
| `WorkflowSingleFlight.dfy`, `WorkflowResults.dfy`, `WorkflowDenials.dfy`, `WorkflowOrphans.dfy` | what a `post_status` call in flight can spoil, and exactly when it does |
| `Publish.dfy`, `PublishSafety.dfy`, `PublishOnce.dfy` | the push activity, git command by git command, with crashes, edits and foreign commits in between |
| `PublishAttempt.dfy`, `PublishCommits.dfy` | one undisturbed attempt from any clone, and how many commits of one key the branch comes to hold |
| `PublishOverlap.dfy`, `PublishOverlapCommits.dfy` | several push attempts at once in one clone, which may be prepared meanwhile |
| `S3Codec.dfy` | payload spilling to an object store |
| `PathGuard.dfy` | the hook's path check and `safe_join` |
| `Gateway.dfy` | the approval command grammar, the comment that prints it, and the webhook's approval branch |
| `Idempotency.dfy` | operation keys |
| `Sequences.dfy` | splitting, joining and occurrences, shared by the others |

How the pieces fit together. The imperative parts of the program are methods:
`Demux.Dispatch`, `AgentIteration.RunIteration` and the two codec methods are
proved equal to a functional specification; every method of
`Workflow.PRAutofixWorkflow` is one step of `Workflow.Machine`, and
`WorkflowDriver.Drive` shows that the object, called in any order, goes through a
`Run` of it; `Publish.Workspace.PushChangesAt` is a run of `Publish.Step`. The
theorems about the program are then about those specifications. What the
specifications themselves compute is fixed by laws in literal terms, such as
`Demux.LineOnTheWire`, `AgentIteration.RaisedExactly`, `Gateway.AnswersExactly`,
`Idempotency.PushOperationKeys` and `PathGuard.DotDotGoesUp`. Runs are
arbitrary lists of steps, a step that is not enabled does nothing, so a statement
about every run is a statement about every interleaving; one run of the workflow
machine spans a whole continue-as-new chain.

What the code does and its description does not say:

- The state that `post_status` returns replaces the workflow's state, so whatever
  a signal or an update wrote into it meanwhile is undone (`WindowIsUndone`).
  Exactly the events accepted meanwhile are lost (`EventsConserved`). Exactly the
  requests made meanwhile under a key that is not on record make it possible that
  one key's push starts twice (`SingleFlightExactly`) and that the approval of one
  request starts the push of another (`OwnApprovalExactly`); a caller can tell
  beforehand, because `get_state` shows the records. Exactly the steps that write a
  record meanwhile, by creating or settling an operation, make it possible that a
  result once returned is not the one on record (`OneResultExactly`). The requests
  named first also make it possible that a request which an approver allowed comes
  back denied, without a reason and by nobody's decision (`DenialsExplainedExactly`,
  `DeniedFromTheStart`).
- In every run a push needs an approval record of its key that a listed approver
  allowed and that no other push uses (`EveryPushIsApproved`), and what is reported
  as pushed was (`ReportsAreHonest`): approvals live outside that state.
- An operation still pending when the workflow continues as new is never
  published by the chain (`PendingAtContinueAsNew`), because no update carries it
  out any more; a pending operation is lost exactly then (`OrphanedExactly`).
- The repository's README.md:75-77 and README.md:100-103 promise one commit per
  operation. The branch keeps to it, whatever follows, exactly if no attempt commits
  for a key that HEAD holds already while HEAD contains the branch, with one attempt
  at a time (`OneCommitPerKey`, `OneCommitExactly`) and with several
  (`OverlapOneCommitPerKey`, `OverlapOneCommitExactly`). It comes to that when
  an attempt is cut short between commit and push: its retry reports `no_changes`
  if nobody has edited the workspace, and publishes two commits of the key with one
  push if somebody has (`RetryAfterCommit`); when a key is buried under 50 or more
  commits, because it is then published again (`AttemptAdvancesExactly`); and when
  `git log` fails, because its exit code is not read and a failure passes for a miss.
- Two pushes may run in one clone at once. Then nothing is lost
  (`OverlapLosesNothing`), but the commit that an attempt names is what HEAD is when
  `rev-parse` runs: it carries the attempt's key exactly if the last attempt to
  commit in between, if any, was for the same key (`NamedCarriesExactly`,
  `NamesAnotherFromTheStart`). Several attempts that find the key unpublished can
  advance the branch twice for it exactly if an edit can change the tree meanwhile
  (`OverlapAdvancesTwiceExactly`); without one they advance it at most once
  altogether (`UneditedAdvancesOnce`). If a new execution prepares the clone under
  an attempt that has committed, the attempt may report success with a commit that
  is not on the branch (`ResetMisleads`).
- Preparing the clone leaves untracked files in place, so the tree is the branch's
  exactly if none is left over (`ResetIsCleanExactly`); one that is left over goes
  into the next commit (`LeftOverIsStaged`).
- `$` in the path hook also matches before a final newline, so the workdir itself
  may be spelled `repo\n`; `normpath` keeps exactly two leading slashes, which
  the hook refuses. Both are part of `CheckPathExact`.
- A command with two or more spaces and nothing else after its id may carry one of
  those spaces as its reason: the reason group comes before the trailing `\s*` and
  is matched greedily (`MatchTailExact`).
- Two pull requests share a workflow id exactly if their numbers agree and one
  owner's name continues, after a dash, with the start of the other's repository
  (`SharedWorkflowExactly`); `a-b`/`c` and `a`/`b-c` do (`WorkflowIdShared`).
  Authorization is stated for the id, as the code does it.

## Model

| member | source | states |
|---|---|---|
| Demux.BigEndianInverse | src/activities/agent_iteration.py:146 | the four length bytes and the 32-bit length determine each other; which byte is the most significant one says the next row |
| Demux.LengthBytes | src/activities/agent_iteration.py:146 | the length is read most significant byte first |
| Demux.FrameLayout | src/activities/agent_iteration.py:144-150 | a frame is a stream byte, three bytes of padding, four of length and as many of payload |
| Demux.HeadFrameExact | src/activities/agent_iteration.py:144-150 | a buffer has a complete frame in front, and that frame is the one read, iff the frame's encoding is a prefix of the buffer |
| Demux.ParseExact | src/activities/agent_iteration.py:139-150 | the frames taken and the bytes left are the only way to write the input as encoded frames followed by a tail without a complete frame |
| Demux.LinesOfWritten | src/agent_runner/main.py:58-60 | newline-free lines written one per line are read back unchanged, with an unterminated rest as one more line unless it is empty |
| Demux.SplitLines | src/activities/agent_iteration.py:132-137 | the lines are all pieces but the last, and the rest the last piece, of the buffer split at every newline |
| Demux.Route | src/activities/agent_iteration.py:151-163 | loop invariant: what was emitted, and what each stream has open, are those of the frames consumed; a frame of an unknown stream changes nothing |
| Demux.TraceOfStream | src/activities/agent_iteration.py:151-172 | of each stream, what is yielded or logged is exactly the lines of all its payload, in order, decoded one by one |
| Demux.AccountedFrame | src/activities/agent_iteration.py:144-150 | loop invariant: every received byte is in a consumed frame, in `raw`, or still to come; taking a frame keeps it |
| Demux.AccountedAtEnd | src/activities/agent_iteration.py:139-144 | at end of file the frames consumed one by one are the frames of the whole byte string |
| Demux.Dispatch | src/activities/agent_iteration.py:128-172 | for every byte string and every chunking, truncated tails, empty payloads and unknown streams included, what is yielded and logged, in this order, is what the specification says of the whole string: frame by frame the lines each completes, then the open line of either stream, and of each stream exactly the lines of its payload; the next rows fix the bytes |
| Demux.LineOnTheWire | src/activities/agent_iteration.py:144-163 | byte by byte: a frame that holds one line and a newline yields exactly the line with first byte 1, logs it with first byte 2 and does nothing with any other |
| Demux.OpenLineOnTheWire | src/activities/agent_iteration.py:165-172 | and without the newline the line comes out at the end, in the same way |
| Demux.OrderOnTheWire | src/activities/agent_iteration.py:144-163 | lines come out in the order of their frames, across the two streams |
| Demux.OpenOrderOnTheWire | src/activities/agent_iteration.py:165-172 | what is left open comes out at the end, stdout first, whichever frame came first |
| Demux.DispatchLine | src/activities/agent_iteration.py:138-172 | so does the dispatcher, however the bytes of that frame arrive |
| FixPlanTail.MatchAtExact | src/activities/agent_iteration.py:55 | the search at one position finds a span iff the pattern, read declaratively, accepts it there |
| FixPlanTail.FindIterExact | src/activities/agent_iteration.py:65 | the matches are exactly the spans the pattern accepts, in order and disjoint |
| FixPlanTail.ChosenIsRightmost | src/activities/agent_iteration.py:65-75 | the span used is the rightmost the pattern accepts; there is none iff the pattern accepts none |
| FixPlanTail.ScanIsChosen | src/activities/agent_iteration.py:65-75 | a single left-to-right pass with two variables finds the same span |
| FixPlanTail.NothingChosen | src/activities/agent_iteration.py:65-66 | nothing is found iff the text cannot be cut into a prefix, a brace, brace-free text, the quoted word, brace-free text, a brace and a suffix |
| FixPlanTail.RightmostCutChosen | src/activities/agent_iteration.py:65-75 | and otherwise the object of such a cut is the one used iff no cut has a longer prefix |
| FixPlanTail.TailObjectIsChosen | src/activities/agent_iteration.py:55-75 | any text before a flat object that holds the word "action", quoted, and any text without braces after it leave that object the one chosen |
| AgentIteration.PlanComesFromTail | src/activities/agent_iteration.py:58-81 | an answer that ends in a valid flat FixPlan object yields that plan, whatever precedes it |
| AgentIteration.TextDecides | src/activities/agent_iteration.py:74-81 | the plan is what the object of the rightmost cut validates to; if it does not validate the plan is blocked and names the exception |
| AgentIteration.TextBlocks | src/activities/agent_iteration.py:59-73 | an empty text, and one that cannot be cut around a flat object, gives a blocked plan with its own reason |
| AgentIteration.CountToolUses | src/activities/agent_iteration.py:211-213 | the heartbeat counter grows by the multiplicity of tool-use blocks in the message |
| AgentIteration.ToolCallsExactly | src/activities/agent_iteration.py:210-213 | the counter is the number of tool-use blocks in assistant messages; every other message adds none |
| AgentIteration.RunIteration | src/activities/agent_iteration.py:186-228 | the activity's outcome and both counters are those of the documents on the stdout lines of the whole byte string; without a sandbox it returns the blocked plan that says so; the next five rows say what the outcome is |
| AgentIteration.SkippedMessages | src/activities/agent_iteration.py:206-213 | a line that is no JSON, a message of another type and an assistant's message with a list of objects change nothing, wherever they are inserted |
| AgentIteration.RaisedExactly | src/activities/agent_iteration.py:204-228 | the activity raises iff some line fails otherwise to load, is no object or is an assistant's message whose content is no list of objects, or the last result has no subtype or the subtype success and a result that is no text |
| AgentIteration.AbnormalEndBlocks | src/activities/agent_iteration.py:222-227 | a last result of any other subtype gives a blocked plan that names the subtype, whatever its text |
| AgentIteration.NoAnswerBlocks | src/activities/agent_iteration.py:201-216 | no result, and a last result with an empty text, gives a blocked plan |
| AgentIteration.AnswerDecides | src/activities/agent_iteration.py:214-228 | otherwise the text of the last result message decides, and no other message has influence |
| AgentIteration.EndToEnd | src/activities/agent_iteration.py:204-216 | messages printed one per line reach the host unchanged under every cut into frames, every interleaving with other streams, every incomplete last frame and every chunking |
| AgentIteration.PrintedPlanIsReturned | src/activities/agent_iteration.py:128-228 | end to end: if the last result message the agent printed is a success that ends in a valid flat plan, and no message has a shape the loop fails on, the activity returns that plan, whatever else was printed, lines without JSON included, and however it was framed and chunked |
| Idempotency.DecimalInjective | src/activities/idempotency.py:12 | decimal texts determine their numbers |
| Idempotency.DecimalDigits | src/activities/idempotency.py:12 | decimal notation digit by digit |
| Idempotency.ToolCallTextCollisions | src/activities/idempotency.py:11-13 | two calls are given the same text to hash iff they are equal or the longer workflow id continues with the other call's fields |
| Idempotency.ToolCallTextInjective | src/activities/idempotency.py:11-13 | no collision when no workflow id, or no tool id, contains a bar |
| Idempotency.ToolCallKeys | src/activities/idempotency.py:11-13 | the key is the first 32 digits of the hashed text, and as far as the digest's first 32 digits tell the texts apart, and no bar is in the way, keys are equal iff the calls are |
| Idempotency.PushOperationTextInjective | src/activities/idempotency.py:16-18 | the publication key's text determines workflow id and iteration, for every workflow id |
| Idempotency.PushOperationKeys | src/activities/idempotency.py:16-18 | the publication key is the first 32 digits of the digest of that text, written out, and as far as these tell the two texts apart, two keys are equal iff workflow and iteration are |
| Idempotency.ToolCallTextCollides | src/activities/idempotency.py:11-13 | a family of colliding calls, so the condition above cannot be dropped |
| Gateway.MatchTailExact | src/gateway/app.py:19 | what follows the id matches, with this reason, iff greedy backtracking picks it: latest start, then longest, among all ways to match |
| Gateway.ParseCommandExact | src/gateway/app.py:18-21 | a comment parses to a command iff the grammar accepts it with the same verb, id and reason, ignoring case |
| Gateway.SpaceCodePoints | src/gateway/app.py:19 | the characters that count as spaces, by code point |
| Gateway.CaseIsIgnored | src/gateway/app.py:20 | the letters of both words may be capitals, each on its own |
| Gateway.IdLengths | src/gateway/app.py:19 | of hexadecimal digits an id may have 16 to 64, and no other number |
| Gateway.BlanksAfterId | src/gateway/app.py:19 | after an id, blanks alone are no reason if there is at most one, and otherwise the last of them is the reason |
| Gateway.SecondLineIsNoCommand | src/gateway/app.py:19 | a second line with a visible character makes the comment no command |
| Gateway.ApproveRoundTrip | src/activities/approval.py:20 | a printed approval reads back as approval of its id under any whitespace around and between its words |
| Gateway.ApproveCommandReadsBack | src/activities/approval.py:20 | the approval exactly as printed reads back, with no reason |
| Gateway.DenyRoundTrip | src/activities/approval.py:21 | a denial reads back with id and reason unchanged, with any spaces before and between its words and only blank lines after the reason, for every one-line reason that starts with a visible character |
| Gateway.DenyCommandReadsBack | src/activities/approval.py:21 | the same for the command as printed |
| Gateway.NotificationReadsBack | src/activities/approval.py:15-22 | the notification quotes both commands, spelled out, both read back, and it is not itself taken for a command |
| Gateway.ApproversExact | src/gateway/app.py:142-146 | a name is on the list iff it is not empty, has no comma and no space at either end, and stands between commas, or a comma and an end, with nothing but spaces around it |
| Gateway.AnswersExactly | src/gateway/app.py:138-168 | for every comment: no command unless it is on a pull request and the pattern reads it; otherwise the verb, the id and the reason read, or an empty one, are signalled to the workflow id spelled out iff the author is on the list and the repository allowed, and forbidden if not |
| Gateway.SignalsExactly | src/gateway/app.py:138-168 | a decision is signalled iff a listed approver's comment on an allowed repository's pull request is read by the pattern as that verb and id, listing being meant as in the row before last |
| Gateway.BlankApproversAuthorizeNobody | src/gateway/app.py:142-149 | a list of approvers without a name lets nobody decide |
| Gateway.WorkflowIdExact | src/gateway/app.py:157-159 | two pull requests have one workflow id iff their numbers agree and owner and repository agree once joined by a dash |
| Gateway.SharedWorkflowExactly | src/gateway/app.py:190 | so two different pull requests share a workflow iff their numbers agree and one owner's name goes on with a dash and the start of the other's repository |
| Gateway.WorkflowIdInjective | src/gateway/app.py:190 | the id is one pull request's where no owner's name, or no repository's, contains a dash |
| Gateway.WorkflowIdShared | src/gateway/app.py:190 | the family of pull requests that do share: the dash may belong to the owner or to the repository |
| Workflow.PRAutofixWorkflow.constructor | src/workflows/pr_autofix.py:36-41 | a fresh pull request starts from the default state without approvals |
| Workflow.PRAutofixWorkflow.Continue | src/workflows/pr_autofix.py:36-41 | a state handed over by continue-as-new is taken as it is; approvals and updates are gone |
| Workflow.PRAutofixWorkflow.OnEvent | src/workflows/pr_autofix.py:43-48 | the step that accepts an event unless its delivery id is known |
| Workflow.PRAutofixWorkflow.Close | src/workflows/pr_autofix.py:50-52 | the step that closes the workflow |
| Workflow.PRAutofixWorkflow.RequestPushChanges | src/workflows/pr_autofix.py:59-85 | the step that returns a settled result, waits on a pending one, or records the operation and creates its approval, under the key of the present iteration |
| Workflow.PRAutofixWorkflow.AfterNotification | src/workflows/pr_autofix.py:81-90 | the step from notification to waiting for the decision |
| Workflow.PRAutofixWorkflow.CheckDecision | src/workflows/pr_autofix.py:87-90 | the step in which the wait's condition is evaluated, with its KeyError |
| Workflow.PRAutofixWorkflow.AfterDecision | src/workflows/pr_autofix.py:102-118 | the step that uses up the approval and denies or starts the push |
| Workflow.PRAutofixWorkflow.AfterDecisionTimeout | src/workflows/pr_autofix.py:91-101 | the step that denies after the timeout and drops the approval |
| Workflow.PRAutofixWorkflow.AfterPush | src/workflows/pr_autofix.py:119-128 | the step that records the push result and returns it |
| Workflow.PRAutofixWorkflow.CheckResult | src/workflows/pr_autofix.py:65-68 | the step in which a duplicate's wait condition is evaluated, with its KeyError |
| Workflow.PRAutofixWorkflow.AfterResult | src/workflows/pr_autofix.py:69 | the step that returns what is on record now |
| Workflow.PRAutofixWorkflow.UpdateFails | src/workflows/pr_autofix.py:113-118 | a failing push or an expired wait fails the update and leaves state and approvals as they are |
| Workflow.PRAutofixWorkflow.SubmitApprovalDecision | src/workflows/pr_autofix.py:130-140 | the decision signal changes exactly the record it names and nothing when there is none |
| Workflow.PRAutofixWorkflow.AfterPrepare | src/workflows/pr_autofix.py:144-148 | the step from preparing to provisioning |
| Workflow.PRAutofixWorkflow.AfterProvision | src/workflows/pr_autofix.py:150-157 | the step that stores the sandbox and enters the loop |
| Workflow.PRAutofixWorkflow.EnterLoop | src/workflows/pr_autofix.py:157 | the loop is entered below MAX_ITERATIONS and left otherwise |
| Workflow.PRAutofixWorkflow.LeaveLoop | src/workflows/pr_autofix.py:204-213 | leaving tears the sandbox down first, if there is one |
| Workflow.PRAutofixWorkflow.CheckWake | src/workflows/pr_autofix.py:159-162 | the step in which the main wait's condition is evaluated |
| Workflow.PRAutofixWorkflow.AfterWait | src/workflows/pr_autofix.py:166-171 | the step that leaves, or takes all pending events as the snapshot of a new iteration |
| Workflow.PRAutofixWorkflow.AfterIdleTimeout | src/workflows/pr_autofix.py:163-165 | the step that closes and leaves after the idle timeout |
| Workflow.PRAutofixWorkflow.AfterIteration | src/workflows/pr_autofix.py:185-199 | the step after an iteration: a failure closes, comment ids are recorded, `post_status` gets a copy of the state |
| Workflow.PRAutofixWorkflow.AfterPostStatus | src/workflows/pr_autofix.py:195-203 | the step that replaces the state by the returned copy and loops or continues as new |
| Workflow.PRAutofixWorkflow.AfterTeardown | src/workflows/pr_autofix.py:208-218 | the step from sandbox teardown to workdir cleanup |
| Workflow.PRAutofixWorkflow.AfterCleanup | src/workflows/pr_autofix.py:214-219 | the step that ends the run |
| WorkflowDriver.Handle | src/workflows/pr_autofix.py:34-222 | one call on the object, where it stands, is the machine's step; a call that cannot be made changes nothing |
| WorkflowDriver.Drive | src/workflows/pr_autofix.py:34-222 | the object driven by any list of steps goes through exactly the run the theorems speak of |
| WorkflowEvents.EventsConserved | src/workflows/pr_autofix.py:169-199 | at every point of every run, the snapshots handed out followed by what is pending are the initial pending events followed by the accepted ones in order of arrival, without exactly those accepted during a `post_status` call that has returned |
| WorkflowEvents.NoDeliveryTwice | src/workflows/pr_autofix.py:43-48 | over a whole chain no delivery id is handed out twice, pending twice, or both, and all are remembered, in spite of the state overwrite |
| WorkflowEvents.IterationsBounded | src/workflows/pr_autofix.py:157-170 | a chain runs at most MAX_ITERATIONS iterations, the counter is exact, and no iteration gets an empty snapshot |
| WorkflowEvents.OperationKeysBounded | src/workflows/pr_autofix.py:61 | all operation keys a chain creates lie in a set of at most MAX_ITERATIONS + 1 |
| WorkflowKeys.KeysOfIterations | src/workflows/pr_autofix.py:61 | in every run from a new pull request, as far as the digest tells the iterations' texts apart: each operation carries the first 32 digits for the iteration it was created at, and two share a key iff they were created at one iteration count |
| WorkflowKeys.LaterRequestCreates | src/workflows/pr_autofix.py:61-85 | a request at a later iteration count than every operation created so far is answered with none of their results: it creates an operation of its own under a new key, with a pending approval |
| WorkflowLifecycle.EveryCountIsReached | src/workflows/pr_autofix.py:157-170 | every number of iterations up to five is reached, the last included, by a pull request that keeps getting events |
| WorkflowLifecycle.ClosedForGood | src/workflows/pr_autofix.py:166-191 | after a failed iteration, and after a close signal outside iteration and post, with nothing pending, no iteration runs in any continuation without new events, later executions included |
| WorkflowLifecycle.IdleIsFinal | src/workflows/pr_autofix.py:163-165 | after the idle timeout the workflow is closed and no iteration runs any more, whatever arrives |
| WorkflowLifecycle.SandboxIsTornDown | src/workflows/pr_autofix.py:204-218 | no run reaches the cleanup of the working directory without having torn down the sandbox |
| WorkflowLifecycle.StartsFresh | src/workflows/pr_autofix.py:36-157 | what a new pull request's workflow starts with, field by field |
| WorkflowLifecycle.EndsOrderly | src/workflows/pr_autofix.py:159-208 | closed while it waits with nothing pending, it leaves the loop, towards teardown iff there is a sandbox |
| WorkflowLifecycle.CleansUp | src/workflows/pr_autofix.py:208-219 | teardown leads to cleanup and cleanup to the end |
| WorkflowLifecycle.IterationRecorded | src/workflows/pr_autofix.py:185-203 | what an iteration and its post leave in the state, field by field, and where the loop goes then |
| WorkflowLifecycle.StatusCommentIsOne | src/activities/lifecycle.py:142-155 | between any two points of a chain the status comment's id, once there, stays, and no addressed comment is forgotten |
| WorkflowApprovals.EveryPushIsApproved | src/workflows/pr_autofix.py:70-118 | in every run each started push uses up an approval record for its key that no other push uses, created before in the same execution and then allowed by an authorized comment that names the key, with nothing about the key in between |
| WorkflowApprovals.DenialReachesRecord | src/gateway/app.py:156-167 | a denial printed by the notifier and sent back by a listed approver under any padding sets exactly the record of its key to denied with its reason unchanged |
| WorkflowReports.ReportsAreHonest | src/workflows/pr_autofix.py:91-128 | in every run of a fresh chain, in spite of the state overwrite, each result returned and each record is filed under its key and carries it as approval id; pushed or failed repeats the answer of a started push that a listed approver had allowed, denied and pending carry no commit |
| WorkflowSingleFlight.SingleFlight | src/workflows/pr_autofix.py:61-118 | from any initial state, as long as no request creates an operation during a `post_status` call: no lookup fails, no key's push starts twice over the whole chain, and each push is started by the approval of the record its own request created, for the message that request carried |
| WorkflowSingleFlight.SingleFlightExactly | src/workflows/pr_autofix.py:61-63 | after any such run, a request made during a call leaves at most one push per key, in every continuation in which no further one creates, iff its key is on record already (the guard of the branch; given an approving comment for the key) |
| WorkflowSingleFlight.OwnApprovalExactly | src/workflows/pr_autofix.py:61-63 | and leaves every push tied to the approval of its own request, in the same continuations, iff its key is on record already |
| WorkflowSingleFlight.FirstCallReached | src/workflows/pr_autofix.py:142-199 | every pull request's first event leads to a call in flight as the two previous rows speak of, with nothing on record |
| WorkflowSingleFlight.PushedTwice | src/workflows/pr_autofix.py:195-199 | the failing family: one request approved before the call returns and one after it both push under the same key |
| WorkflowSingleFlight.PushedTwiceFromTheStart | src/workflows/pr_autofix.py:142-199 | a run of that family starts from every pull request's first event |
| WorkflowSingleFlight.ApprovalOfAnother | src/workflows/pr_autofix.py:81-118 | the other failing family: the approval of the second request starts the push of the first, with the first one's message |
| WorkflowScenarios.ApprovedRequestStarts | src/workflows/pr_autofix.py:61-118 | a request under a new key that is notified and then approved starts its push, wherever the main coroutine stands |
| WorkflowScenarios.PrintedCommandApproves | src/gateway/app.py:138-168 | a listed approver who sends the approval as printed approves |
| WorkflowLifecycle.ApprovedIsPushed | src/workflows/pr_autofix.py:61-128 | a request under a new key, approved, comes back with what the push answered, field by field, and so it is on record |
| WorkflowLifecycle.UnapprovedIsDenied | src/workflows/pr_autofix.py:91-112 | one that a comment denies comes back denied with the comment's reason, one that nobody answers with the timeout for reason |
| WorkflowLifecycle.DuplicateWaits | src/workflows/pr_autofix.py:61-68 | a second request at the same iteration count waits while the first is pending |
| WorkflowLifecycle.DuplicateReturns | src/workflows/pr_autofix.py:62-69 | and returns the result once there is one, as does at once a later one |
| WorkflowLifecycle.RaisingChangesNothing | src/workflows/pr_autofix.py:64-118 | a push that raises and a wait that expires leave the pending operation and everything else as it is |
| WorkflowDenials.DenialsAreExplained | src/workflows/pr_autofix.py:91-112 | in every run in which no request creates an operation during a `post_status` call, each denial returned or on record has its reason: the timeout, or an authorized comment that denied this key with exactly this reason |
| WorkflowDenials.DenialsExplainedExactly | src/workflows/pr_autofix.py:102-112 | after any such run, a request made during a call leaves every denial so explained, in every continuation in which no further one creates, iff its key is on record already (given an approving comment for the key) |
| WorkflowDenials.DeniedByNobody | src/workflows/pr_autofix.py:102-112 | the failing family: a request that was allowed is overtaken by one made after the call and comes back denied, with an empty reason, though no comment denied it |
| WorkflowDenials.DeniedFromTheStart | src/workflows/pr_autofix.py:142-199 | a run of that family starts from every pull request's first event |
| WorkflowResults.OneResult | src/workflows/pr_autofix.py:61-128 | in a run in which no record is written during a `post_status` call, all updates that return for a key return one result, the one on record |
| WorkflowResults.SettledNeverChanges | src/workflows/pr_autofix.py:91-128 | between any two points of such a run no record disappears and a pushed, denied or failed one is unchanged; every record is pending or settled |
| WorkflowResults.OneResultExactly | src/workflows/pr_autofix.py:195-199 | after any such run, a step taken during a call leaves the results returned the ones on record, in every continuation of that kind, iff it writes no record: it neither creates an operation nor settles one (given an approving comment for the current key) |
| WorkflowResults.FirstCallReachedCalmly | src/workflows/pr_autofix.py:142-199 | every pull request's first event leads to a call in flight as the previous row speaks of |
| WorkflowResults.WindowIsUndone | src/workflows/pr_autofix.py:195-199 | whatever is written into the state during a `post_status` call is gone when it returns |
| WorkflowOrphans.OrphanedForEver | src/workflows/pr_autofix.py:63-69 | a pending operation that no update carries out stays pending and is never pushed, in every run |
| WorkflowOrphans.PendingAtContinueAsNew | src/workflows/pr_autofix.py:201-203 | what is pending at a continue-as-new is never published by the chain |
| WorkflowOrphans.OrphanedExactly | src/workflows/pr_autofix.py:86-118 | a pending operation whose push has not started, in a run without creations during a call, is never pushed any more iff no update carries it out (given an approving comment for its key) |
| Publish.ResetIsCleanExactly | src/activities/lifecycle.py:90 | after the hard reset the tree is the branch's iff no file is left over that neither the index nor the branch holds |
| Publish.LeftOverIsStaged | src/activities/lifecycle.py:90 | a left-over file stays as it is and makes the tree differ from the branch's, so that the next attempt stages it |
| Publish.Workspace.constructor | src/activities/lifecycle.py:61-81 | a fresh clone is clean, at the head of the pull request's branch or, where that is not there to clone, of the default branch |
| Publish.Workspace.PrepareWorkdir | src/activities/lifecycle.py:84-91 | HEAD and index end at the branch as it was when it was fetched; the tree is what the reset leaves of it, with what others do between reset and checkout on top |
| Publish.Workspace.ResetHard | src/activities/lifecycle.py:90 | resetting moves HEAD and index to what was fetched and keeps the files that the index did not hold |
| Publish.Workspace.CheckOut | src/activities/lifecycle.py:91 | checking out the commit that HEAD is at keeps the tree as others left it |
| Publish.Workspace.PushChangesAt | src/activities/lifecycle.py:198-248 | one attempt, with any edits and foreign commits between any two commands, is a run of the command machine that ends by returning the result for its key |
| Publish.Workspace.LookUpAndPush | src/activities/lifecycle.py:219-248 | the same from the lookup on, where a `git log` that fails passes for a miss |
| Publish.Workspace.StageAndPush | src/activities/lifecycle.py:227-248 | the same from staging on |
| Publish.Workspace.DiffAndPush | src/activities/lifecycle.py:228-248 | the same from the staged diff on |
| Publish.Workspace.CommitAndPush | src/activities/lifecycle.py:231-248 | the same from the commit on |
| Publish.Workspace.ReadAndPush | src/activities/lifecycle.py:233-248 | the same from `rev-parse` on, which reads HEAD as it then is |
| Publish.Workspace.CountAndPush | src/activities/lifecycle.py:236-248 | the same from the behind-count on |
| Publish.Workspace.PushNow | src/activities/lifecycle.py:242-248 | the same for the push, whose answer and effect may disagree |
| PublishSafety.BehindZero | src/activities/lifecycle.py:236-241 | the behind-count is zero iff the fetched branch is contained in HEAD |
| PublishSafety.LookupExact | src/activities/lifecycle.py:219-225 | the lookup returns the newest commit that carries the key iff fewer commits than were fetched lie on top of it |
| PublishSafety.FoundExactly | src/activities/lifecycle.py:210-225 | an attempt's lookup finds a commit iff it carries the key, every other commit that carries it is an ancestor of it, and fewer than 50 commits lie on top of it; a lookup that fails finds none |
| PublishSafety.NothingIsLost | src/activities/lifecycle.py:231-248 | in every run with one attempt at a time, the clone prepared only between attempts and the branch never forced by others: no commit once on the branch is lost, each advance was a fast-forward to a commit that carries its key, and each result that says pushed names a commit on the branch that carries the key |
| PublishOnce.StampLayout | src/activities/lifecycle.py:220-231 | the message of a commit is the approved message, the bot's mark and the key, letter by letter, and the lookup searches for the last line |
| PublishOnce.StampCarriesOnlyItsKey | src/activities/lifecycle.py:231 | a stamped message carries its own key and no other |
| PublishOnce.PublishedAtMostOnce | src/activities/lifecycle.py:198-248 | in every run with one attempt at a time, with crashes between any two commands and from any commit of the branch, the branch is advanced at most once per key; after a success no attempt for the key advances it and each that gets past its fetch returns success with the same commit |
| PublishAttempt.UndisturbedExactly | src/activities/lifecycle.py:198-248 | the whole effect of an undisturbed attempt, in a clone in any state: found, nothing to commit, refused because the branch has moved on, or an advance to the new commit |
| PublishAttempt.FailuresAreReported | src/activities/lifecycle.py:217-248 | a failing fetch is reported with what git said and changes nothing; a failing lookup passes for a miss; a push answered with an error is reported with the commit and what git said, whether the branch was advanced or not |
| PublishAttempt.OvertakenIsRefused | src/activities/lifecycle.py:227-247 | if somebody else moves the branch on after the fetch, the attempt commits, is refused and leaves the branch with the foreign commit |
| PublishAttempt.AttemptAdvancesExactly | src/activities/lifecycle.py:210-248 | such an attempt advances the branch iff the tree holds changes, HEAD contains the branch and no commit that carries the key is among the newest 50 of the branch |
| PublishAttempt.FinishingAdvancesExactly | src/activities/lifecycle.py:227-248 | an attempt past its lookup, in a clone in any state and undisturbed from there on, advances the branch iff the tree holds changes, the new commit contains both what was fetched and the branch, and the branch is not at it already; whether the key is published does not matter |
| PublishCommits.OneCommitPerKey | src/activities/lifecycle.py:219-248 | in every run with one attempt at a time, whatever the lookups find or miss, in which no attempt commits for a key that HEAD holds already while HEAD contains the branch, the branch never holds two commits of one key |
| PublishCommits.OneCommitExactly | src/activities/lifecycle.py:231-232 | after any such run, a commit leaves the branch at one commit a key in every continuation of that kind iff HEAD held no commit of the key before, or did not contain the branch |
| PublishCommits.RetryAfterCommit | src/activities/lifecycle.py:219-248 | an attempt cut short after its commit and retried, with or without an edit: the key is found; or nothing is published, with `no_changes` iff the tree is HEAD's and `remote_advanced` if the branch has moved on; or two commits of the key are published with one advance |
| PublishOverlap.OverlapLosesNothing | src/activities/lifecycle.py:198-248 | however many attempts overlap in one clone, for whatever keys, however their commands interleave and wherever the clone is prepared, as long as others do not force the branch: no commit once on it is lost, each advance is a fast-forward, and a commit that a lookup found is on the branch and carries its key |
| PublishOverlap.OverlapPublishes | src/activities/lifecycle.py:231-248 | as long as the clone is not reset under an attempt that has committed, each result that says pushed names a commit on the branch, and the branch holds a commit of the result's key |
| PublishOverlap.NamedOnBranchExactly | src/activities/lifecycle.py:242-248 | a push that lands reports a commit that is on the branch iff HEAD still contains the commit that was read |
| PublishOverlap.ResetMisleads | src/activities/lifecycle.py:84-90 | the failing family: a reset between reading HEAD and pushing makes the attempt report success with a commit that is not on the branch |
| PublishOverlap.NamedCarriesExactly | src/activities/lifecycle.py:232-235 | whatever others do between an attempt's commit and its `rev-parse`, short of a reset, the commit named carries the attempt's key iff the last attempt to commit in between, if any, was for that key |
| PublishOverlap.NamesAnother | src/activities/lifecycle.py:232-248 | the failing family: another attempt commits an edit on top first, and the attempt returns success with a commit that does not carry its key |
| PublishOverlap.NamesAnotherFromTheStart | src/activities/lifecycle.py:198-248 | a run of that family starts from every quiet clone with changes to publish |
| PublishOverlap.UneditedAdvancesOnce | src/activities/lifecycle.py:227-248 | from a point where nothing is staged, without edits and without preparing the clone, any number of attempts for any keys in any interleaving advance the branch at most once altogether |
| PublishOverlap.OverlapAdvancesTwiceExactly | src/activities/lifecycle.py:210-248 | from a quiet clone with changes to publish and the key not found, some interleaving of any number of attempts advances the branch twice for the key iff an edit can leave a tree that differs from the one there was |
| PublishOverlapCommits.OverlapOneCommitPerKey | src/activities/lifecycle.py:198-248 | the same guard at each commit of any of several attempts, with the clone prepared anywhere, keeps the branch at one commit a key |
| PublishOverlapCommits.OverlapOneCommitExactly | src/activities/lifecycle.py:231-232 | and after any such interleaving a commit leaves the branch at one commit a key, in every continuation of that kind, iff HEAD held no commit of the key before, or did not contain the branch |
| S3Codec.RestoreHidden | src/payload_storage/s3_codec.py:68-71 | metadata survives being turned into Latin-1 text and back |
| S3Codec.TagSpelled | src/payload_storage/s3_codec.py:29 | what the tag spells |
| S3Codec.EncodedExactly | src/payload_storage/s3_codec.py:59-83 | a payload up to the threshold goes out as it is and the store stays; a longer one is stored under prefix, slash, uuid and `.bin`, and a payload with the tag for its only metadata refers to it and keeps the metadata, a character for each byte |
| S3Codec.UntaggedPasses | src/payload_storage/s3_codec.py:89-91 | a payload without the tag passes decoding as it is |
| S3Codec.ReferencesExactly | src/payload_storage/s3_codec.py:92-99 | a tagged payload decodes iff its data is a reference, the object is there and its metadata is Latin-1, and then to the object's data with that metadata |
| S3Codec.S3PayloadCodec.Encode | src/payload_storage/s3_codec.py:56-84 | the loop returns the payload-wise encoding and leaves in the store exactly the spilled data besides what was there |
| S3Codec.S3PayloadCodec.Decode | src/payload_storage/s3_codec.py:86-100 | the loop returns the payload-wise decoding in order, or fails if any payload does |
| S3Codec.RoundTripPointwise | src/payload_storage/s3_codec.py:56-100 | over any later store, whether a list comes back depends only on its tagged inline payloads |
| S3Codec.RoundTripExactly | src/payload_storage/s3_codec.py:56-100 | over any later store that only codecs with this threshold write, a list comes back in order, data and metadata, iff no payload at or under the threshold carries the codec's tag |
| S3Codec.InlineTagBreaks | src/payload_storage/s3_codec.py:59-61 | a tagged inline payload that is no reference makes decoding fail |
| S3Codec.EveryBatchDecodes | src/payload_storage/s3_codec.py:62-63 | every earlier batch still decodes after any number of later encodes |
| S3Codec.StackedRoundTrip | src/payload_storage/s3_codec.py:88-99 | n encodes followed by n decodes are the identity on untagged payloads for every n, whether references pass through inline or spill themselves |
| PathGuard.ComponentsClean | plugins/tf-guardrails/hooks/restrict_paths.py:98 | a normalised absolute path has no empty, `.` or `..` component |
| PathGuard.NormPathIdempotent | plugins/tf-guardrails/hooks/restrict_paths.py:98 | normalising again changes nothing, and normalising keeps leading slashes and components |
| PathGuard.FirstComponent | plugins/tf-guardrails/hooks/restrict_paths.py:98 | what a slash and one name, or nothing, or dots, come to |
| PathGuard.NameIsAppended | plugins/tf-guardrails/hooks/restrict_paths.py:98 | a slash and a name after an absolute path are one component more |
| PathGuard.DotIsNothing | plugins/tf-guardrails/hooks/restrict_paths.py:98 | a slash, and a slash and a dot, are nothing |
| PathGuard.DotDotGoesUp | plugins/tf-guardrails/hooks/restrict_paths.py:98 | a slash and two dots take the last component away, if there is one |
| PathGuard.SlashesKept | plugins/tf-guardrails/hooks/restrict_paths.py:98 | a normal form starts with two slashes iff the path starts with exactly two |
| PathGuard.RelativeWalk | plugins/tf-guardrails/hooks/restrict_paths.py:98 | a relative path that goes down some names, up some times and down again leads there from the working directory |
| PathGuard.MatchPrefixExact | plugins/tf-guardrails/hooks/restrict_paths.py:46 | the prefix test matches iff the text is the pattern's fixed parts around a non-empty slash-free name |
| PathGuard.CheckPathExact | plugins/tf-guardrails/hooks/restrict_paths.py:93-113 | for every working directory and every path, the hook's whole verdict: empty; outside unless the normal form has one leading slash and lies in some workflow's workdir; protected iff it lies in one of the three subtrees; allowed otherwise |
| PathGuard.WalkVerdict | plugins/tf-guardrails/hooks/restrict_paths.py:93-113 | the verdict on a path that goes from a workflow's workdir down, up and down again, in full or relative: what counts is where it ends |
| PathGuard.TraversalIsOutside | plugins/tf-guardrails/hooks/restrict_paths.py:97-104 | a path that goes up further than down is outside, unless it comes down again by the names it left |
| PathGuard.BelowWorkdir | plugins/tf-guardrails/hooks/restrict_paths.py:46-113 | a path below a workdir, written out, is protected iff it lies in `.git/hooks`, `.github/workflows` or `.claude`, and else allowed, if no component holds a newline |
| PathGuard.SafeJoinExact | src/tools/_workdir.py:34-40 | the string test accepts a path iff its components begin with the workdir's (only the root itself when the workdir is the root), and what is accepted is returned resolved |
| PathGuard.SafeJoinOfWalk | src/tools/_workdir.py:34-40 | for every workdir but the root: a path that goes up no further than down is accepted and returned as the workdir and the names left; one that goes up further is refused unless it comes down again by a name of the workdir |
| PathGuard.SafeJoinSatisfiesHook | src/tools/_workdir.py:28-40 | what `safe_join` accepts under a workflow's default workdir satisfies the hook's allowed prefix |

## Left out

- Demux.Dispatch: UTF-8 decoding with replacement is an arbitrary function applied line by line; only the texts given to the logger are modelled.
- AgentIteration.RunIteration: JSON loading and FixPlan validation are parameters; the prompt and the heartbeat loop are not modelled.
- AgentIteration.EndToEnd: that an encoded message is newline-free and decodes to itself (section 7 of RFC 8259) is assumed of the encoder; of `encode_message`'s non-JSON values nothing is said, and `decode_messages` is not used by the host loop.
- Idempotency.PushOperationKeys: SHA-256 is an arbitrary function here; that its first 32 digits tell the texts of one workflow's iterations apart is a hypothesis of what is said about keys.
- Gateway.SignalsExactly: the repository allowlist is one boolean and the signature check comes before; the projection of other events is not modelled.
- Workflow.PRAutofixWorkflow.AfterPostStatus: state fields are values that are replaced, not shared objects that are mutated; the only sharing that matters, between the state and the copy given to `post_status`, is modelled by the copy.
- Workflow.PRAutofixWorkflow.UpdateFails: prepare, provision, notification and status activities are retried without limit and do not raise here; cancellation and termination from outside are not modelled.
- Workflow.PRAutofixWorkflow.AfterCleanup: an update still open when the run has ended takes no more steps.
- WorkflowReports.ReportsAreHonest: says nothing of a denial's reason, which is the subject of `WorkflowDenials`.
- PublishOnce.PublishedAtMostOnce: assumes that the clone starts at a commit of the branch, that keys are 32 lower-case hex digits, that nobody but the code writes the key trailer into a message, and that at each lookup of a published key `git log` succeeds and a keyed commit is within the fetched depth; one attempt at a time, which the workflow does not guarantee when a push is started twice. It bounds advances; commits are the subject of `PublishCommits`.
- PublishSafety.NothingIsLost: one attempt at a time and the clone prepared only between attempts, which a continue-as-new does not guarantee; what holds without either is in `PublishOverlap`. Foreign force-pushes are not modelled anywhere.
- PublishOverlap.NamedCarriesExactly: for turns without a reset of the clone; what a reset does is in `ResetMisleads`.
- Publish.Workspace.PushChangesAt: a commit is its whole linear history, so merges, shallow boundaries, ignored files and git's clean-up of messages are not modelled; others edit files, not the index. A local git command whose exit code is checked and that fails is a crash; a `git log` that fails is a miss; a staged diff that fails passes for changes, after which the commit succeeds as it would have or is a crash. A failing fetch leaves FETCH_HEAD alone; a lookup in an emptied one is a miss, and a count against it a crash.
- S3Codec.RoundTripExactly: assumes fresh uuids and a lawful JSON encoding of references; creating the client on first use is not modelled.
- PathGuard.SafeJoinExact: no symbolic links, no NUL characters; the hook's JSON input and output and its list of tools are not modelled.
- Liveness: nothing is said about when a step happens; timeouts are steps that may happen at any time.
- Docker, HTTP, GitHub and Temporal calls, heartbeats, logging, tracing and process start.
- Sandbox provisioning, snapshots, capability registry, egress proxy, orphan listing and secret scan: lookups, filters and sequences of library calls.
