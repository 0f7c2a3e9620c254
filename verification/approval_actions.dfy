/** Approving and rejecting a pending approval request as pure transitions of the two pieces of
    state they update: the pending-request list and the per-process workflow instances. */
module ApprovalActions {
  import opened Wrappers
  import Tables
  import Seqs
  import opened WorkflowDefinitions

  datatype ApprovalStatus = Pending | Approved | Rejected

  datatype ApprovalRequest = ApprovalRequest(
    id: string, processId: string, stepId: string, requesterId: string,
    responderId: Option<string>, status: ApprovalStatus, comments: Option<string>, responseDate: Option<int>)

  datatype WorkflowStatus = Active | Completed | OtherStatus(name: string)

  /** A workflow running for one process. */
  datatype ProcessWorkflow = ProcessWorkflow(
    processId: string, workflowId: string, currentStepId: string, status: WorkflowStatus,
    approvalHistory: seq<ApprovalRequest>)

  datatype State = State(pendingApprovals: seq<ApprovalRequest>, processWorkflows: seq<ProcessWorkflow>)

  /** `pendingApprovals.findIndex(req => req.id === requestId)`. */
  function FindRequest(pending: seq<ApprovalRequest>, requestId: string): (r: Option<nat>)
    ensures r.None? <==> forall i :: 0 <= i < |pending| ==> pending[i].id != requestId
    ensures r.Some? ==> r.value < |pending| && pending[r.value].id == requestId
    ensures r.Some? ==> forall i :: 0 <= i < r.value ==> pending[i].id != requestId
    decreases |pending|
  {
    if pending == [] then None
    else if pending[0].id == requestId then Some(0)
    else match FindRequest(pending[1..], requestId)
      case None => None
      case Some(i) => Some(i + 1)
  }

  /** `comments || request.comments`: an absent or empty new comment keeps the old one. */
  function KeepComments(newComments: Option<string>, previous: Option<string>): (r: Option<string>)
    ensures newComments.None? || newComments.value == "" ==> r == previous
    ensures newComments.Some? && newComments.value != "" ==> r == newComments
  {
    if newComments.Some? && newComments.value != "" then newComments else previous
  }

  /** The answered request written into the history of every instance of its process. */
  function RecordAnswer(workflows: seq<ProcessWorkflow>, request: ApprovalRequest, answered: ApprovalRequest): (r: seq<ProcessWorkflow>)
    ensures |r| == |workflows|
    ensures forall i :: 0 <= i < |workflows| ==>
              if workflows[i].processId == request.processId then
                r[i] == workflows[i].(approvalHistory := Seqs.Map(workflows[i].approvalHistory,
                          (h: ApprovalRequest) => if h.id == request.id then answered else h))
              else r[i] == workflows[i]
  {
    Seqs.Map(workflows, (w: ProcessWorkflow) =>
      if w.processId == request.processId then
        w.(approvalHistory := Seqs.Map(w.approvalHistory, (h: ApprovalRequest) => if h.id == request.id then answered else h))
      else w)
  }

  function Remove(pending: seq<ApprovalRequest>, requestId: string): seq<ApprovalRequest> {
    Seqs.Filter(pending, (r: ApprovalRequest) => r.id != requestId)
  }

  /** `processWorkflows.find(w => w.processId === processId)`. */
  function FindInstance(workflows: seq<ProcessWorkflow>, processId: string): (r: Option<ProcessWorkflow>)
    ensures r.None? <==> forall i :: 0 <= i < |workflows| ==> workflows[i].processId != processId
    ensures r.Some? ==> exists i :: 0 <= i < |workflows| && workflows[i] == r.value && r.value.processId == processId
                                    && forall j :: 0 <= j < i ==> workflows[j].processId != processId
  {
    Tables.FindFirst(workflows, (x: ProcessWorkflow) => x.processId == processId)
  }

  /** `workflows.find(w => w.id === workflowId)`. */
  function FindDefinition(defs: seq<WorkflowDefinition>, workflowId: string): (r: Option<WorkflowDefinition>)
    ensures r.None? <==> forall i :: 0 <= i < |defs| ==> defs[i].id != workflowId
    ensures r.Some? ==> exists i :: 0 <= i < |defs| && defs[i] == r.value && r.value.id == workflowId
                                    && forall j :: 0 <= j < i ==> defs[j].id != workflowId
  {
    Tables.FindFirst(defs, (x: WorkflowDefinition) => x.id == workflowId)
  }

  /** What approving a request does to its process's workflow. */
  datatype Advance = NoChange | MoveTo(stepId: string) | Complete

  /** With the instance and its definition found, approval moves to the approved step's
      `nextStepId` when it has one, and otherwise (including a step missing from the definition)
      completes the workflow. */
  function AdvanceFor(workflows: seq<ProcessWorkflow>, defs: seq<WorkflowDefinition>, request: ApprovalRequest): Advance {
    match FindInstance(workflows, request.processId)
    case None => NoChange
    case Some(instance) =>
      match FindDefinition(defs, instance.workflowId)
      case None => NoChange
      case Some(def) =>
        match Successor(def, request.stepId)
        case Some(next) => MoveTo(next)
        case None => Complete
  }

  function ApplyAdvance(workflows: seq<ProcessWorkflow>, processId: string, a: Advance): (r: seq<ProcessWorkflow>)
    ensures |r| == |workflows|
    ensures forall i :: 0 <= i < |workflows| && workflows[i].processId != processId ==> r[i] == workflows[i]
  {
    match a
    case NoChange => workflows
    case MoveTo(next) =>
      Seqs.Map(workflows, (w: ProcessWorkflow) => if w.processId == processId then w.(currentStepId := next) else w)
    case Complete =>
      Seqs.Map(workflows, (w: ProcessWorkflow) => if w.processId == processId then w.(status := Completed) else w)
  }

  /** `approveRequest`: `false` and no change for an unknown request; otherwise the request leaves
      the pending list, its history entry is answered, the process's workflow advances, and the
      result is `true`. `now` stands for `new Date()`. */
  function ApproveRequest(requestId: string, responderId: string, s: State, defs: seq<WorkflowDefinition>,
                          comments: Option<string>, now: int): (r: (bool, State))
    ensures !r.0 <==> forall i :: 0 <= i < |s.pendingApprovals| ==> s.pendingApprovals[i].id != requestId
    ensures !r.0 ==> r.1 == s
    ensures r.0 ==> r.1.pendingApprovals == Remove(s.pendingApprovals, requestId)
    ensures |r.1.processWorkflows| == |s.processWorkflows|
  {
    match FindRequest(s.pendingApprovals, requestId)
    case None => (false, s)
    case Some(k) =>
      var request := s.pendingApprovals[k];
      var answered := request.(status := Approved, responderId := Some(responderId), responseDate := Some(now),
                               comments := KeepComments(comments, request.comments));
      var recorded := RecordAnswer(s.processWorkflows, request, answered);
      (true, State(Remove(s.pendingApprovals, requestId),
                   ApplyAdvance(recorded, request.processId, AdvanceFor(s.processWorkflows, defs, request))))
  }

  /** `rejectRequest`: like approval, but the answer is `rejected` and the workflow stays where it
      is. */
  function RejectRequest(requestId: string, responderId: string, s: State, comments: Option<string>, now: int): (r: (bool, State))
    ensures !r.0 <==> forall i :: 0 <= i < |s.pendingApprovals| ==> s.pendingApprovals[i].id != requestId
    ensures !r.0 ==> r.1 == s
    ensures r.0 ==> r.1.pendingApprovals == Remove(s.pendingApprovals, requestId)
    ensures |r.1.processWorkflows| == |s.processWorkflows|
    ensures forall i :: 0 <= i < |s.processWorkflows| ==>
              r.1.processWorkflows[i].currentStepId == s.processWorkflows[i].currentStepId
              && r.1.processWorkflows[i].status == s.processWorkflows[i].status
  {
    match FindRequest(s.pendingApprovals, requestId)
    case None => (false, s)
    case Some(k) =>
      var request := s.pendingApprovals[k];
      var answered := request.(status := Rejected, responderId := Some(responderId), responseDate := Some(now),
                               comments := KeepComments(comments, request.comments));
      (true, State(Remove(s.pendingApprovals, requestId), RecordAnswer(s.processWorkflows, request, answered)))
  }

  /** After either answer no pending request carries the id, and every other pending request is
      still there in order. */
  lemma AnsweredLeavesPending(pending: seq<ApprovalRequest>, requestId: string)
    ensures forall i :: 0 <= i < |Remove(pending, requestId)| ==> Remove(pending, requestId)[i].id != requestId
    ensures forall i :: 0 <= i < |pending| && pending[i].id != requestId ==> pending[i] in Remove(pending, requestId)
    ensures Seqs.IsSubsequence(Remove(pending, requestId), pending)
  {
  }

  /** In every instance of the request's process, each history entry with the request's id is
      answered `approved` by the responder, keeping its old comment unless a new one is given, and
      no other entry changes. */
  lemma ApproveAnswersHistory(requestId: string, responderId: string, s: State, defs: seq<WorkflowDefinition>,
                              comments: Option<string>, now: int, i: int, h: int)
    requires FindRequest(s.pendingApprovals, requestId).Some?
    requires 0 <= i < |s.processWorkflows|
    requires s.processWorkflows[i].processId == s.pendingApprovals[FindRequest(s.pendingApprovals, requestId).value].processId
    requires 0 <= h < |s.processWorkflows[i].approvalHistory|
    ensures var before := s.processWorkflows[i].approvalHistory;
            var after := ApproveRequest(requestId, responderId, s, defs, comments, now).1.processWorkflows[i].approvalHistory;
            |after| == |before|
            && (before[h].id == requestId ==>
                  after[h].status == Approved && after[h].responderId == Some(responderId)
                  && after[h].id == requestId && after[h].responseDate == Some(now)
                  && (comments.None? ==> after[h].comments == s.pendingApprovals[FindRequest(s.pendingApprovals, requestId).value].comments))
            && (before[h].id != requestId ==> after[h] == before[h])
  {
  }

  /** Only instances of the request's process are touched by an approval. */
  lemma ApproveTouchesOnlyItsProcess(requestId: string, responderId: string, s: State, defs: seq<WorkflowDefinition>,
                                     comments: Option<string>, now: int, k: nat, i: int)
    requires k < |s.pendingApprovals| && s.pendingApprovals[k].id == requestId
    requires 0 <= i < |s.processWorkflows|
    requires s.processWorkflows[i].processId != s.pendingApprovals[FindRequest(s.pendingApprovals, requestId).value].processId
    ensures ApproveRequest(requestId, responderId, s, defs, comments, now).1.processWorkflows[i] == s.processWorkflows[i]
  {
  }

  /** In every instance of the request's process, each history entry with the request's id is
      answered `rejected` by the responder, keeping its old comment unless a new one is given, and
      no other entry changes. */
  lemma RejectAnswersHistory(requestId: string, responderId: string, s: State, comments: Option<string>, now: int,
                             i: int, h: int)
    requires FindRequest(s.pendingApprovals, requestId).Some?
    requires 0 <= i < |s.processWorkflows|
    requires s.processWorkflows[i].processId == s.pendingApprovals[FindRequest(s.pendingApprovals, requestId).value].processId
    requires 0 <= h < |s.processWorkflows[i].approvalHistory|
    ensures var before := s.processWorkflows[i].approvalHistory;
            var after := RejectRequest(requestId, responderId, s, comments, now).1.processWorkflows[i].approvalHistory;
            |after| == |before|
            && (before[h].id == requestId ==>
                  after[h].status == Rejected && after[h].responderId == Some(responderId)
                  && after[h].id == requestId && after[h].responseDate == Some(now)
                  && (comments.None? ==> after[h].comments == s.pendingApprovals[FindRequest(s.pendingApprovals, requestId).value].comments))
            && (before[h].id != requestId ==> after[h] == before[h])
  {
  }

  /** Only instances of the request's process are touched by a rejection. */
  lemma RejectTouchesOnlyItsProcess(requestId: string, responderId: string, s: State, comments: Option<string>,
                                    now: int, k: nat, i: int)
    requires k < |s.pendingApprovals| && s.pendingApprovals[k].id == requestId
    requires 0 <= i < |s.processWorkflows|
    requires s.processWorkflows[i].processId != s.pendingApprovals[FindRequest(s.pendingApprovals, requestId).value].processId
    ensures RejectRequest(requestId, responderId, s, comments, now).1.processWorkflows[i] == s.processWorkflows[i]
  {
  }

  /** Approval on any list of definitions: every instance of the request's process moves to the
      approved step's successor when the first instance's definition gives one, and is completed
      when the definition is found but gives none (the step is missing or has no successor). When
      the definition is not found, and for every other process, step and status stay as they were.
      Only the workflow-level fields listed here change. */
  lemma ApproveAdvances(requestId: string, responderId: string, s: State, defs: seq<WorkflowDefinition>,
                        comments: Option<string>, now: int, i: int)
    requires FindRequest(s.pendingApprovals, requestId).Some?
    requires 0 <= i < |s.processWorkflows|
    ensures var request := s.pendingApprovals[FindRequest(s.pendingApprovals, requestId).value];
            var instance := FindInstance(s.processWorkflows, request.processId);
            var def := if instance.Some? then FindDefinition(defs, instance.value.workflowId) else None;
            var before := s.processWorkflows[i];
            var after := ApproveRequest(requestId, responderId, s, defs, comments, now).1.processWorkflows[i];
            && after.processId == before.processId && after.workflowId == before.workflowId
            && if before.processId != request.processId || def.None? then
                 after.currentStepId == before.currentStepId && after.status == before.status
               else if Successor(def.value, request.stepId).Some? then
                 after.currentStepId == Successor(def.value, request.stepId).value && after.status == before.status
               else
                 after.status == Completed && after.currentStepId == before.currentStepId
  {
    var request := s.pendingApprovals[FindRequest(s.pendingApprovals, requestId).value];
    if s.processWorkflows[i].processId == request.processId {
      assert FindInstance(s.processWorkflows, request.processId).Some?;
    }
  }

  /** Approving the request for step `j` of a well-linked definition moves the process's workflow
      to step `j + 1`, or completes it when `j` is the last step; the status is untouched when it
      moves, and the step is untouched when it completes. */
  lemma ApproveFollowsChain(requestId: string, responderId: string, s: State, defs: seq<WorkflowDefinition>,
                            comments: Option<string>, now: int, def: WorkflowDefinition, j: int, i: int)
    requires FindRequest(s.pendingApprovals, requestId).Some?
    requires var request := s.pendingApprovals[FindRequest(s.pendingApprovals, requestId).value];
             var instance := FindInstance(s.processWorkflows, request.processId);
             instance.Some? && FindDefinition(defs, instance.value.workflowId) == Some(def)
             && WellLinked(def) && 0 <= j < |def.steps| && request.stepId == def.steps[j].id
    requires 0 <= i < |s.processWorkflows|
    requires s.processWorkflows[i].processId == s.pendingApprovals[FindRequest(s.pendingApprovals, requestId).value].processId
    ensures var w := ApproveRequest(requestId, responderId, s, defs, comments, now).1.processWorkflows[i];
            if j < |def.steps| - 1 then w.currentStepId == def.steps[j + 1].id && w.status == s.processWorkflows[i].status
            else w.status == Completed && w.currentStepId == s.processWorkflows[i].currentStepId
  {
    SuccessorIsNextInList(def, j);
  }
}
