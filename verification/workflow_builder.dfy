/** The custom workflow builder's step list: adding a step at the end, removing a step and
    relinking around it, editing one field of a step, and the validation run on save. Steps are
    chained by `nextStepId` in list order. */
module WorkflowBuilder {
  import opened Wrappers
  import opened Text

  datatype ConditionOperator = EqualsOp | NotEqualsOp | GreaterThanOp | LessThanOp

  datatype BuilderStep = BuilderStep(
    id: string, name: string, description: string, requiredRole: string, hasCondition: bool,
    conditionField: Option<string>, conditionValue: Option<string>,
    conditionOperator: Option<ConditionOperator>, nextStepId: Option<string>)

  /** `step-{k}`. */
  function StepId(k: nat): string {
    "step-" + NatToString(k)
  }

  lemma StepIdInjective(a: nat, b: nat)
    requires StepId(a) == StepId(b)
    ensures a == b
  {
    assert StepId(a)[5..] == NatToString(a);
    assert StepId(b)[5..] == NatToString(b);
    NatToStringInjective(a, b);
  }

  /** The builder's initial list: one step, `step-1`, approved by a buyer, with no condition. */
  const InitialSteps: seq<BuilderStep> := [
    BuilderStep(StepId(1), "Cria\U{00E7}\U{00E3}o do Pedido", "In\U{00ED}cio do processo de pedido", "comprador",
                false, None, None, None, None)
  ]

  /** Each step links to the one after it and the last links nowhere. */
  predicate Linked(steps: seq<BuilderStep>) {
    && (forall i :: 0 <= i < |steps| - 1 ==> steps[i].nextStepId == Some(steps[i + 1].id))
    && (steps != [] ==> steps[|steps| - 1].nextStepId.None?)
  }

  predicate DistinctIds(steps: seq<BuilderStep>) {
    forall i, j :: 0 <= i < j < |steps| ==> steps[i].id != steps[j].id
  }

  lemma InitialStepsLinked()
    ensures Linked(InitialSteps) && DistinctIds(InitialSteps)
    ensures |InitialSteps| == 1 && InitialSteps[0].id == StepId(1) && !InitialSteps[0].hasCondition
  {
  }

  /** A new step numbered `k`, approved by an administrator, without a condition. */
  function NewStep(k: nat): BuilderStep {
    BuilderStep(StepId(k), "Etapa " + NatToString(k), "", "admin", false, None, None, None, None)
  }

  /** Append a step with id `newId` and point the previous last step at it. */
  function AppendStep(steps: seq<BuilderStep>, step: BuilderStep): (r: seq<BuilderStep>)
    ensures |r| == |steps| + 1 && r[|steps|] == step
    ensures forall i :: 0 <= i < |steps| - 1 ==> r[i] == steps[i]
    ensures steps != [] ==> r[|steps| - 1] == steps[|steps| - 1].(nextStepId := Some(step.id))
  {
    if |steps| > 0 then steps[..|steps| - 1] + [steps[|steps| - 1].(nextStepId := Some(step.id))] + [step]
    else [step]
  }

  /** Appending keeps the chain linked. */
  lemma AppendKeepsLinked(steps: seq<BuilderStep>, step: BuilderStep)
    ensures Linked(steps) && step.nextStepId.None? ==> Linked(AppendStep(steps, step))
  {
  }

  /** `handleAddStep` as written: the new step is numbered after the current length. */
  function AddStep(steps: seq<BuilderStep>): (r: seq<BuilderStep>)
    ensures |r| == |steps| + 1
    ensures r[|steps|] == NewStep(|steps| + 1)
    ensures forall i :: 0 <= i < |steps| - 1 ==> r[i] == steps[i]
    ensures steps != [] ==> r[|steps| - 1] == steps[|steps| - 1].(nextStepId := Some(StepId(|steps| + 1)))
    ensures Linked(steps) ==> Linked(r)
  {
    AppendKeepsLinked(steps, NewStep(|steps| + 1));
    AppendStep(steps, NewStep(|steps| + 1))
  }

  /** `steps.findIndex(s => s.id === stepId)`. */
  function FindStepIndex(steps: seq<BuilderStep>, stepId: string): (r: Option<nat>)
    ensures r.None? <==> forall i :: 0 <= i < |steps| ==> steps[i].id != stepId
    ensures r.Some? ==> r.value < |steps| && steps[r.value].id == stepId
                        && forall i :: 0 <= i < r.value ==> steps[i].id != stepId
    decreases |steps|
  {
    if steps == [] then None
    else if steps[0].id == stepId then Some(0)
    else match FindStepIndex(steps[1..], stepId)
      case None => None
      case Some(i) => Some(i + 1)
  }

  /** `handleRemoveStep`: nothing happens with at most one step, for the first step, or for an
      unknown id; otherwise the first step with the id is removed and its predecessor inherits its
      `nextStepId`. */
  function RemoveStep(steps: seq<BuilderStep>, stepId: string): (r: seq<BuilderStep>)
    ensures |steps| <= 1 || steps[0].id == stepId || (forall i :: 0 <= i < |steps| ==> steps[i].id != stepId) ==> r == steps
    ensures |r| == |steps| || |r| == |steps| - 1
  {
    if |steps| <= 1 || steps[0].id == stepId then steps
    else match FindStepIndex(steps, stepId)
      case None => steps
      case Some(k) => steps[..k - 1] + [steps[k - 1].(nextStepId := steps[k].nextStepId)] + steps[k + 1..]
  }

  /** When the step at position `k` is removed, the steps before it stay, its predecessor now
      points where the removed step pointed, and the steps after it move up by one. */
  lemma RemoveStepShape(steps: seq<BuilderStep>, stepId: string, k: nat)
    requires |steps| > 1 && steps[0].id != stepId
    requires FindStepIndex(steps, stepId) == Some(k)
    ensures var r := RemoveStep(steps, stepId);
            && 0 < k && |r| == |steps| - 1
            && (forall i :: 0 <= i < k - 1 ==> r[i] == steps[i])
            && r[k - 1] == steps[k - 1].(nextStepId := steps[k].nextStepId)
            && (forall i :: k <= i < |r| ==> r[i] == steps[i + 1])
  {
    var r := RemoveStep(steps, stepId);
    var front, back := steps[..k - 1] + [steps[k - 1].(nextStepId := steps[k].nextStepId)], steps[k + 1..];
    assert r == front + back;
    forall i | k <= i < |r|
      ensures r[i] == steps[i + 1]
    {
      assert r[i] == back[i - k];
    }
  }

  /** Removing a step keeps the chain linked. */
  lemma RemoveStepRelinks(steps: seq<BuilderStep>, stepId: string)
    ensures Linked(steps) ==> Linked(RemoveStep(steps, stepId))
  {
    var r := RemoveStep(steps, stepId);
    if Linked(steps) && r != steps {
      var k := FindStepIndex(steps, stepId).value;
      RemoveStepShape(steps, stepId, k);
      forall i | 0 <= i < |r| - 1
        ensures r[i].nextStepId == Some(r[i + 1].id)
      {
        if i == k - 1 {
          assert r[k] == steps[k + 1];
        } else if k <= i {
          assert r[i] == steps[i + 1] && r[i + 1] == steps[i + 2];
        }
      }
      assert r[|r| - 1].nextStepId == steps[|steps| - 1].nextStepId;
    }
  }

  /** A field the step editor can change. */
  datatype StepField =
    | Name(name: string) | Description(description: string) | RequiredRole(role: string)
    | HasCondition(flag: bool) | ConditionField(field: string) | ConditionValue(value: string)
    | Operator(op: ConditionOperator)

  function SetField(step: BuilderStep, f: StepField): BuilderStep {
    match f
    case Name(v) => step.(name := v)
    case Description(v) => step.(description := v)
    case RequiredRole(v) => step.(requiredRole := v)
    case HasCondition(v) => step.(hasCondition := v)
    case ConditionField(v) => step.(conditionField := Some(v))
    case ConditionValue(v) => step.(conditionValue := Some(v))
    case Operator(v) => step.(conditionOperator := Some(v))
  }

  /** `handleUpdateStep`: the field changes on every step with the id, nothing else changes, and
      ids and links are never among the edited fields. */
  function UpdateStep(steps: seq<BuilderStep>, stepId: string, f: StepField): (r: seq<BuilderStep>)
    ensures |r| == |steps|
    ensures forall i :: 0 <= i < |steps| ==>
              r[i] == (if steps[i].id == stepId then SetField(steps[i], f) else steps[i])
              && r[i].id == steps[i].id && r[i].nextStepId == steps[i].nextStepId
  {
    seq(|steps|, i requires 0 <= i < |steps| => if steps[i].id == stepId then SetField(steps[i], f) else steps[i])
  }

  /** Editing keeps the chain linked and the ids as they were. */
  lemma UpdateKeepsLinked(steps: seq<BuilderStep>, stepId: string, f: StepField)
    requires Linked(steps)
    ensures Linked(UpdateStep(steps, stepId, f))
    ensures DistinctIds(steps) ==> DistinctIds(UpdateStep(steps, stepId, f))
  {
  }

  datatype SaveOutcome = Saved | NameRequired | TooFewSteps

  /** `handleSaveWorkflow`'s validation: the name, trimmed, must be non-empty, then there must be at
      least two steps. */
  function SaveWorkflow(workflowName: string, steps: seq<BuilderStep>): (r: SaveOutcome)
    ensures r == Saved <==> Trim(workflowName) != "" && |steps| >= 2
    ensures r == NameRequired <==> Trim(workflowName) == ""
  {
    if Trim(workflowName) == "" then NameRequired
    else if |steps| < 2 then TooFewSteps
    else Saved
  }

  /** A name of white space alone is refused. */
  lemma BlankNameRefused(workflowName: string, steps: seq<BuilderStep>)
    ensures SaveWorkflow(workflowName, steps) == NameRequired <==>
              forall i :: 0 <= i < |workflowName| ==> IsJsWhitespace(workflowName[i])
  {
    TrimEmptyIff(workflowName);
  }

  // ---------------------------------------------------------------------------------------------
  // Step ids after a removal

  /** Adding three steps' worth and removing the middle one leaves two steps; the next add then
      reuses the id `step-3` that the last step already has. */
  lemma AddAfterRemoveDuplicatesId()
    ensures var s := RemoveStep(AddStep(AddStep(InitialSteps)), StepId(2));
            var t := AddStep(s);
            |t| == 3 && t[1].id == StepId(3) && t[2].id == StepId(3) && !DistinctIds(t)
  {
    var s2 := AddStep(AddStep(InitialSteps));
    assert s2[0].id == StepId(1) && s2[1].id == StepId(2) && s2[2].id == StepId(3);
    assert StepId(1)[5] == DigitChar(1) && StepId(2)[5] == DigitChar(2);
    assert FindStepIndex(s2, StepId(2)) == Some(1);
    var s := RemoveStep(s2, StepId(2));
    assert s == [s2[0].(nextStepId := s2[1].nextStepId), s2[2]];
    var t := AddStep(s);
    assert t[1].id == StepId(3) && t[2].id == StepId(3);
  }

  /** The builder with a step counter that only grows: a new step takes the counter's number, so
      no id is ever handed out twice. */
  datatype Builder = Builder(steps: seq<BuilderStep>, nextNumber: nat)

  /** No step uses a number at or beyond the counter. */
  ghost predicate Fresh(b: Builder) {
    forall i, k :: 0 <= i < |b.steps| && k >= b.nextNumber ==> b.steps[i].id != StepId(k)
  }

  ghost predicate Valid(b: Builder) {
    Linked(b.steps) && DistinctIds(b.steps) && Fresh(b)
  }

  const InitialBuilder: Builder := Builder(InitialSteps, 2)

  lemma InitialBuilderValid()
    ensures Valid(InitialBuilder)
  {
    forall i, k | 0 <= i < 1 && k >= 2
      ensures InitialSteps[i].id != StepId(k)
    {
      if InitialSteps[i].id == StepId(k) { StepIdInjective(1, k); }
    }
  }

  /** Adding with the counter: the same step as `handleAddStep` builds, numbered by the counter. */
  function AddStepFresh(b: Builder): (r: Builder)
    ensures |r.steps| == |b.steps| + 1 && r.steps[|b.steps|] == NewStep(b.nextNumber)
    ensures r.steps == AppendStep(b.steps, NewStep(b.nextNumber)) && r.nextNumber == b.nextNumber + 1
    ensures Valid(b) ==> Valid(r)
  {
    AddFreshKeepsValid(b);
    Builder(AppendStep(b.steps, NewStep(b.nextNumber)), b.nextNumber + 1)
  }

  lemma AddFreshKeepsValid(b: Builder)
    ensures var r := Builder(AppendStep(b.steps, NewStep(b.nextNumber)), b.nextNumber + 1);
            Valid(b) ==> Valid(r)
  {
    var r := Builder(AppendStep(b.steps, NewStep(b.nextNumber)), b.nextNumber + 1);
    if Valid(b) {
      AppendKeepsLinked(b.steps, NewStep(b.nextNumber));
      forall i, k | 0 <= i < |r.steps| && k >= r.nextNumber
        ensures r.steps[i].id != StepId(k)
      {
        if i == |b.steps| {
          if StepId(b.nextNumber) == StepId(k) { StepIdInjective(b.nextNumber, k); }
        } else {
          assert r.steps[i].id == b.steps[i].id;
        }
      }
      forall i, j | 0 <= i < j < |r.steps|
        ensures r.steps[i].id != r.steps[j].id
      {
        assert r.steps[i].id == b.steps[i].id;
        if j < |b.steps| {
          assert r.steps[j].id == b.steps[j].id;
        }
      }
    }
  }

  /** Removing through the counter-based builder, which leaves the counter alone. */
  function RemoveStepFresh(b: Builder, stepId: string): (r: Builder)
    ensures r.steps == RemoveStep(b.steps, stepId) && r.nextNumber == b.nextNumber
    ensures Valid(b) ==> Valid(r)
  {
    RemoveFreshKeepsValid(b, stepId);
    Builder(RemoveStep(b.steps, stepId), b.nextNumber)
  }

  lemma RemoveFreshKeepsValid(b: Builder, stepId: string)
    ensures Valid(b) ==> Valid(Builder(RemoveStep(b.steps, stepId), b.nextNumber))
  {
    var r := RemoveStep(b.steps, stepId);
    RemoveStepRelinks(b.steps, stepId);
    if Valid(b) && r != b.steps {
      var k := FindStepIndex(b.steps, stepId).value;
      RemoveStepShape(b.steps, stepId, k);
      RemovedDistinct(b.steps, r, k);
      RemovedFresh(b, r, k);
    }
  }

  /** Dropping position `k` from distinct ids leaves distinct ids. */
  lemma RemovedDistinct(steps: seq<BuilderStep>, r: seq<BuilderStep>, k: nat)
    requires 0 < k < |steps| && |r| == |steps| - 1 && DistinctIds(steps)
    requires forall i :: 0 <= i < k ==> r[i].id == steps[i].id
    requires forall i :: k <= i < |r| ==> r[i].id == steps[i + 1].id
    ensures DistinctIds(r)
  {
    forall i, j | 0 <= i < j < |r|
      ensures r[i].id != r[j].id
    {
      var i', j' := if i < k then i else i + 1, if j < k then j else j + 1;
      assert r[i].id == steps[i'].id && r[j].id == steps[j'].id;
    }
  }

  /** Dropping a step uses no new number. */
  lemma RemovedFresh(b: Builder, r: seq<BuilderStep>, k: nat)
    requires 0 < k < |b.steps| && |r| == |b.steps| - 1 && Fresh(b)
    requires forall i :: 0 <= i < k ==> r[i].id == b.steps[i].id
    requires forall i :: k <= i < |r| ==> r[i].id == b.steps[i + 1].id
    ensures Fresh(Builder(r, b.nextNumber))
  {
    forall i, n | 0 <= i < |r| && n >= b.nextNumber
      ensures r[i].id != StepId(n)
    {
      var i' := if i < k then i else i + 1;
      assert r[i].id == b.steps[i'].id;
    }
  }

  /** With the counter, any sequence of adds and removes from the initial builder keeps ids
      distinct; in particular the sequence that duplicates `step-3` above does not. */
  lemma FreshAfterRemove()
    ensures var b := AddStepFresh(RemoveStepFresh(AddStepFresh(AddStepFresh(InitialBuilder)), StepId(2)));
            DistinctIds(b.steps) && |b.steps| == 3 && b.steps[2].id == StepId(4)
  {
    InitialBuilderValid();
    var b2 := AddStepFresh(AddStepFresh(InitialBuilder));
    assert b2.steps[0].id == StepId(1) && b2.steps[1].id == StepId(2);
    assert StepId(1) != StepId(2);
    assert FindStepIndex(b2.steps, StepId(2)) == Some(1);
  }
}
