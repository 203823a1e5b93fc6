/** The records of src/models.py that the other modules share. */
module Models {
  import opened Sequences

  datatype Action = AppliedFix | NoActionNeeded | Blocked

  datatype FixPlan = FixPlan(
    action: Action,
    summary: string,
    addressedCommentIds: seq<int>,
    addressedFailures: seq<string>,
    commitSha: Option<string>,
    blockingReason: Option<string>
  )

  datatype SandboxHandle = SandboxHandle(containerId: string, workdir: string)

  datatype PRRef = PRRef(owner: string, repo: string, number: int, headSha: string, headRef: string)

  datatype EventKind = PrOpened | PrSynchronize | IssueComment | ReviewComment | CheckSuiteCompleted

  datatype GitHubEvent = GitHubEvent(kind: EventKind, deliveryId: string, payload: string)

  datatype Status = Pending | Approved | Denied | Pushed | Failed

  datatype OperationRequest = OperationRequest(summary: string, commitMessage: string)

  datatype OperationResult = OperationResult(
    operationKey: string,
    status: Status,
    approvalId: Option<string>,
    approvalDecision: Option<bool>,
    externalResultId: Option<string>,
    reason: string
  )

  datatype ApprovalState = ApprovalState(approvalId: string, pending: bool, allowed: bool, reason: string) {
    predicate Decided() {
      !pending
    }
  }

  datatype CommitResult = CommitResult(pushed: bool, commitSha: Option<string>, reason: Option<string>)

  datatype WorkflowState = WorkflowState(
    pr: PRRef,
    pendingEvents: seq<GitHubEvent>,
    processedDeliveryIds: set<string>,
    processedCommentIds: set<int>,
    iterations: nat,
    postedStatusCommentId: Option<int>,
    lastCheckRunId: Option<int>,
    closed: bool,
    sandbox: Option<SandboxHandle>,
    operations: map<string, OperationResult>
  )

  /** `WorkflowState(pr=pr)`: every other field at its default. */
  function NewState(pr: PRRef): WorkflowState {
    WorkflowState(pr, [], {}, {}, 0, None, None, false, None, map[])
  }
}
