/** Approval workflows: a definition is a chain of steps, each naming the role that approves it and
    linking to its neighbours by id. The five built-in definitions are constant data. */
module WorkflowDefinitions {
  import opened Wrappers
  import Tables

  /** A step of a definition (display name and description are not modelled). */
  datatype ApprovalStep = ApprovalStep(
    id: string, requiredRole: string, previousStepId: Option<string>, nextStepId: Option<string>)

  datatype WorkflowDefinition = WorkflowDefinition(id: string, initialStepId: string, steps: seq<ApprovalStep>)

  /** `steps.find(step => step.id === id)`. */
  function FindStep(steps: seq<ApprovalStep>, id: string): (r: Option<ApprovalStep>)
    ensures r.None? <==> forall i :: 0 <= i < |steps| ==> steps[i].id != id
    ensures r.Some? ==> exists i :: 0 <= i < |steps| && steps[i] == r.value && r.value.id == id
                                    && forall j :: 0 <= j < i ==> steps[j].id != id
  {
    Tables.FindFirst(steps, (x: ApprovalStep) => x.id == id)
  }

  /** The step that follows `id` when it is approved, if any; an empty `nextStepId` counts as
      none, as it is falsy. */
  function Successor(def: WorkflowDefinition, id: string): (r: Option<string>)
    ensures r.Some? ==> r.value != ""
    ensures r.Some? ==> exists i :: 0 <= i < |def.steps| && def.steps[i].id == id
                                    && def.steps[i].nextStepId == r && forall j :: 0 <= j < i ==> def.steps[j].id != id
    ensures r.None? ==> forall i ::
              (0 <= i < |def.steps| && def.steps[i].id == id && forall j :: 0 <= j < i ==> def.steps[j].id != id) ==>
                def.steps[i].nextStepId.None? || def.steps[i].nextStepId.value == ""
  {
    match FindStep(def.steps, id)
    case None => None
    case Some(step) => if step.nextStepId.Some? && step.nextStepId.value != "" then step.nextStepId else None
  }

  predicate DistinctStepIds(steps: seq<ApprovalStep>) {
    forall i, j :: 0 <= i < j < |steps| ==> steps[i].id != steps[j].id
  }

  /** The invariants every built-in definition keeps: distinct non-empty step ids, the initial step
      listed first, and each step linked forward to the next in the list and back to the previous,
      the ends having no link outward. */
  predicate WellLinked(def: WorkflowDefinition) {
    && |def.steps| >= 1
    && DistinctStepIds(def.steps)
    && (forall i :: 0 <= i < |def.steps| ==> def.steps[i].id != "")
    && def.initialStepId == def.steps[0].id
    && def.steps[0].previousStepId.None?
    && def.steps[|def.steps| - 1].nextStepId.None?
    && (forall i :: 0 <= i < |def.steps| - 1 ==>
          def.steps[i].nextStepId == Some(def.steps[i + 1].id)
          && def.steps[i + 1].previousStepId == Some(def.steps[i].id))
  }

  /** With distinct ids, a step is found under its own id. */
  lemma FindStepAt(steps: seq<ApprovalStep>, i: int)
    requires DistinctStepIds(steps) && 0 <= i < |steps|
    ensures FindStep(steps, steps[i].id) == Some(steps[i])
  {
    var r := FindStep(steps, steps[i].id);
    var k :| 0 <= k < |steps| && steps[k] == r.value && r.value.id == steps[i].id
             && forall j :: 0 <= j < k ==> steps[j].id != steps[i].id;
    assert !(k < i) && !(i < k);
  }

  /** In a well-linked definition, approving the step at position `i` leads to position `i + 1`,
      and approving the last step leads nowhere. */
  lemma SuccessorIsNextInList(def: WorkflowDefinition, i: int)
    requires WellLinked(def) && 0 <= i < |def.steps|
    ensures i < |def.steps| - 1 ==> Successor(def, def.steps[i].id) == Some(def.steps[i + 1].id)
    ensures i == |def.steps| - 1 ==> Successor(def, def.steps[i].id).None?
  {
    FindStepAt(def.steps, i);
  }

  /** The ids visited by following `link` from `id` for at most `n` hops, `id` included. */
  function Follow(link: string -> Option<string>, id: string, n: nat): (path: seq<string>)
    ensures |path| >= 1 && path[0] == id
    decreases n
  {
    if n == 0 then [id]
    else match link(id)
      case None => [id]
      case Some(next) => [id] + Follow(link, next, n - 1)
  }

  /** The ids visited by following `nextStepId` from `id` for at most `n` hops, `id` included. */
  function Walk(def: WorkflowDefinition, id: string, n: nat): (path: seq<string>)
    ensures |path| >= 1 && path[0] == id
  {
    Follow(s => Successor(def, s), id, n)
  }

  /** Along a chain of ids in which each leads to the next and the last to nothing, following the
      links with enough hops visits exactly the chain. */
  lemma {:induction false} FollowChain(link: string -> Option<string>, ids: seq<string>, n: nat)
    requires |ids| >= 1 && n >= |ids| - 1
    requires forall k :: 0 <= k < |ids| - 1 ==> link(ids[k]) == Some(ids[k + 1])
    requires link(ids[|ids| - 1]).None?
    ensures Follow(link, ids[0], n) == ids
    decreases |ids|
  {
    if |ids| > 1 {
      var rest := ids[1..];
      assert forall k :: 0 <= k < |rest| - 1 ==> link(rest[k]) == Some(rest[k + 1]) by {
        forall k | 0 <= k < |rest| - 1
          ensures link(rest[k]) == Some(rest[k + 1])
        {
          assert rest[k] == ids[k + 1] && rest[k + 1] == ids[k + 2];
        }
      }
      assert rest[|rest| - 1] == ids[|ids| - 1];
      FollowChain(link, rest, n - 1);
      assert ids == [ids[0]] + rest;
    }
  }

  /** Following the links from step `i` of a well-linked definition visits the remaining steps in
      list order, each once, and stops at the last. */
  lemma WalkFrom(def: WorkflowDefinition, i: int, n: nat)
    requires WellLinked(def) && 0 <= i < |def.steps|
    requires n >= |def.steps| - 1 - i
    ensures Walk(def, def.steps[i].id, n) == Ids(def.steps[i..])
  {
    var ids := Ids(def.steps[i..]);
    forall k | 0 <= k < |ids| - 1
      ensures Successor(def, ids[k]) == Some(ids[k + 1])
    {
      SuccessorIsNextInList(def, i + k);
    }
    SuccessorIsNextInList(def, |def.steps| - 1);
    FollowChain(s => Successor(def, s), ids, n);
  }

  function Ids(steps: seq<ApprovalStep>): (r: seq<string>)
    ensures |r| == |steps| && forall i :: 0 <= i < |steps| ==> r[i] == steps[i].id
  {
    seq(|steps|, i requires 0 <= i < |steps| => steps[i].id)
  }

  /** From the initial step the links of a well-linked definition visit every step exactly once,
      in list order, ending at a step without a successor: one approval per step completes it. */
  lemma WalkVisitsAll(def: WorkflowDefinition)
    requires WellLinked(def)
    ensures Walk(def, def.initialStepId, |def.steps|) == Ids(def.steps)
    ensures forall i, j :: 0 <= i < j < |def.steps| ==> Ids(def.steps)[i] != Ids(def.steps)[j]
    ensures Successor(def, Ids(def.steps)[|def.steps| - 1]).None?
  {
    WalkFrom(def, 0, |def.steps|);
    assert def.steps[0..] == def.steps;
    SuccessorIsNextInList(def, |def.steps| - 1);
  }

  function Chain3(workflowId: string, role1: string, id1: string, role2: string, id2: string,
                  role3: string, id3: string): WorkflowDefinition {
    WorkflowDefinition(workflowId, id1, [
      ApprovalStep(id1, role1, None, Some(id2)),
      ApprovalStep(id2, role2, Some(id1), Some(id3)),
      ApprovalStep(id3, role3, Some(id2), None)])
  }

  /** A three-step chain with distinct, non-empty ids is well linked. */
  lemma Chain3WellLinked(workflowId: string, role1: string, id1: string, role2: string, id2: string,
                         role3: string, id3: string)
    requires id1 != "" && id2 != "" && id3 != "" && id1 != id2 && id1 != id3 && id2 != id3
    ensures WellLinked(Chain3(workflowId, role1, id1, role2, id2, role3, id3))
  {
  }

  /** `workflowDefinitions`. */
  const Definitions: seq<WorkflowDefinition> := [
    Chain3("purchase-order-flow", "comprador", "po-creation", "gerente_compras", "po-approval",
           "comprador", "po-send"),
    Chain3("documents-validation-flow", "administrativo_importacao", "doc-receive",
           "analista_importacao", "doc-validation", "despachante_aduaneiro", "doc-customs"),
    Chain3("customs-release-flow", "despachante_aduaneiro", "customs-process",
           "analista_importacao", "customs-validation", "coordenador_logistico", "logistics-release"),
    Chain3("payment-flow", "financeiro", "payment-request", "gerente_financeiro", "payment-approval",
           "financeiro", "payment-execution"),
    Chain3("cargo-reception-flow", "operador_armazem", "cargo-arrival", "coordenador_logistico",
           "cargo-inspection", "operador_armazem", "cargo-storage")
  ]

  /** There are five built-in workflows with distinct ids, each a well-linked chain of three steps:
      three approvals from the initial step complete any of them. */
  lemma DefinitionsWellFormed()
    ensures |Definitions| == 5
    ensures forall i, j :: 0 <= i < j < |Definitions| ==> Definitions[i].id != Definitions[j].id
    ensures forall i :: 0 <= i < |Definitions| ==> WellLinked(Definitions[i]) && |Definitions[i].steps| == 3
  {
    DefinitionIdsDistinct();
    DistinctAt("po-creation", "po-approval", "po-send", 3);
    Chain3WellLinked("purchase-order-flow", "comprador", "po-creation", "gerente_compras", "po-approval",
                     "comprador", "po-send");
    DistinctAt("doc-receive", "doc-validation", "doc-customs", 4);
    Chain3WellLinked("documents-validation-flow", "administrativo_importacao", "doc-receive",
                     "analista_importacao", "doc-validation", "despachante_aduaneiro", "doc-customs");
    DistinctAt("customs-process", "customs-validation", "logistics-release", 8);
    Chain3WellLinked("customs-release-flow", "despachante_aduaneiro", "customs-process",
                     "analista_importacao", "customs-validation", "coordenador_logistico", "logistics-release");
    DistinctAt("payment-request", "payment-approval", "payment-execution", 8);
    Chain3WellLinked("payment-flow", "financeiro", "payment-request", "gerente_financeiro", "payment-approval",
                     "financeiro", "payment-execution");
    DistinctAt("cargo-arrival", "cargo-inspection", "cargo-storage", 6);
    Chain3WellLinked("cargo-reception-flow", "operador_armazem", "cargo-arrival", "coordenador_logistico",
                     "cargo-inspection", "operador_armazem", "cargo-storage");
  }

  /** Three strings that differ pairwise at position `k` are non-empty and distinct. */
  lemma DistinctAt(a: string, b: string, c: string, k: nat)
    requires k < |a| && k < |b| && k < |c|
    requires a[k] != b[k] && a[k] != c[k] && b[k] != c[k]
    ensures a != "" && b != "" && c != "" && a != b && a != c && b != c
  {
  }

  lemma DefinitionIdsDistinct()
    ensures forall i, j :: 0 <= i < j < |Definitions| ==> Definitions[i].id != Definitions[j].id
  {
    var ids := seq(|Definitions|, i requires 0 <= i < |Definitions| => Definitions[i].id);
    assert ids[0][0] == 'p' && ids[1][0] == 'd' && ids[2][0] == 'c' && ids[3][0] == 'p' && ids[4][0] == 'c';
    assert ids[0][1] == 'u' && ids[3][1] == 'a';
    assert ids[2][1] == 'u' && ids[4][1] == 'a';
  }
}
