/** The drawback act lifecycle: acts are created as drafts, submitted, and approved, and approval
    generates one credit for the act's value. Act and credit numbers are
    `DB-{company}-{count+1:06d}` and `DC-{company}-{count+1:06d}`. Timestamps come in as `now`. */
module Drawback {
  import opened Wrappers
  import opened Text
  import opened ProcessRefs

  datatype ActStatus = Draft | Submitted | Approved | Rejected | Cancelled
  datatype ActType = Suspension | Exemption | Refund

  datatype Act = Act(
    actNumber: DocumentNumber, actType: ActType, status: ActStatus, description: string,
    totalValue: real, currency: string, companyId: nat,
    importProcessId: Option<nat>, exportProcessId: Option<nat>, expirationDate: Option<int>,
    createdBy: nat, notes: Option<string>,
    submittedAt: Option<int>, approvedAt: Option<int>, approvedBy: Option<nat>, rejectionReason: Option<string>)

  datatype Credit = Credit(
    creditNumber: DocumentNumber, value: real, currency: string, usedValue: real, availableValue: real,
    isActive: bool, isUsed: bool, actId: nat, companyId: nat, generatedAt: int, expirationDate: Option<int>)

  datatype Db = Db(acts: map<nat, Act>, credits: map<nat, Credit>,
                   importProcesses: map<nat, nat>, exportProcesses: map<nat, nat>)

  datatype DrawbackError =
    | ProcessNotFound(which: ProcessRefError)
    | ActNotFound
    | NotDraft
    | NotSubmitted

  datatype ActCreate = ActCreate(
    actType: ActType, description: string, totalValue: real, currency: string,
    importProcessId: Option<nat>, exportProcessId: Option<nat>, expirationDate: Option<int>, notes: Option<string>)

  datatype ActUpdate = ActUpdate(
    description: Option<string>, totalValue: Option<real>, status: Option<ActStatus>,
    expirationDate: Option<int>, notes: Option<string>, rejectionReason: Option<string>)

  /** An act or credit number, `{prefix}-{company}-{sequence:06d}`, kept as its parts; `Render`
      gives the text stored in the database. */
  datatype DocumentNumber = DocumentNumber(prefix: string, companyId: nat, sequence: nat)

  /** `{prefix}-{company}-`. */
  function NumberHead(prefix: string, companyId: nat): string {
    prefix + "-" + NatToString(companyId) + "-"
  }

  /** The text of a number: its head, then at least six digits that read back as the sequence. */
  function Render(n: DocumentNumber): (r: string)
    ensures var head := NumberHead(n.prefix, n.companyId);
            && StartsWith(r, head) && |r| >= |head| + 6
            && AllDigits(r[|head|..]) && ParseNat(r[|head|..]) == n.sequence
  {
    var head, digits := NumberHead(n.prefix, n.companyId), ZeroPad(NatToString(n.sequence), 6);
    ParseNatToString(n.sequence);
    ZeroPadParse(NatToString(n.sequence), 6);
    assert (head + digits)[|head|..] == digits;
    head + digits
  }

  /** Within one prefix and company, different sequence numbers render differently. */
  lemma RenderInjective(m: DocumentNumber, n: DocumentNumber)
    requires m.prefix == n.prefix && m.companyId == n.companyId
    requires Render(m) == Render(n)
    ensures m == n
  {
  }

  /** The next number of a company whose count of documents is `count`. */
  function Numbered(prefix: string, companyId: nat, count: nat): DocumentNumber {
    DocumentNumber(prefix, companyId, count + 1)
  }

  function CountActs(db: Db, companyId: nat): nat {
    |set id | id in db.acts && db.acts[id].companyId == companyId|
  }

  function CountCredits(db: Db, companyId: nat): nat {
    |set id | id in db.credits && db.credits[id].companyId == companyId|
  }

  predicate Owns(db: Db, companyId: nat, actId: nat) {
    actId in db.acts && db.acts[actId].companyId == companyId
  }

  /** `create_drawback_act`: after the process checks, a draft numbered after the company's count. */
  function CreateAct(db: Db, companyId: nat, userId: nat, data: ActCreate, newId: nat): (r: Result<Db, DrawbackError>)
    requires newId !in db.acts
    ensures r.Ok? <==> Check(db.importProcesses, db.exportProcesses, companyId, data.importProcessId, data.exportProcessId) == None
    ensures r.Err? ==> r.error.ProcessNotFound?
  {
    match Check(db.importProcesses, db.exportProcesses, companyId, data.importProcessId, data.exportProcessId)
    case Some(e) => Err(ProcessNotFound(e))
    case None =>
      var act := DraftAct(data, companyId, userId, Numbered("DB", companyId, CountActs(db, companyId)));
      Ok(db.(acts := db.acts[newId := act]))
  }

  /** A successful creation adds exactly one act, a draft of the company numbered after its count of
      acts, and changes nothing else. */
  lemma CreateActAddsDraft(db: Db, companyId: nat, userId: nat, data: ActCreate, newId: nat)
    requires newId !in db.acts
    requires CreateAct(db, companyId, userId, data, newId).Ok?
    ensures var r := CreateAct(db, companyId, userId, data, newId).value;
            && r.credits == db.credits
            && r.acts.Keys == db.acts.Keys + {newId}
            && (forall id :: id in db.acts ==> r.acts[id] == db.acts[id])
            && var act := r.acts[newId];
               && act.status == Draft && act.companyId == companyId && act.createdBy == userId
               && act.actNumber == Numbered("DB", companyId, CountActs(db, companyId))
               && act.totalValue == data.totalValue
               && act.submittedAt.None? && act.approvedAt.None? && act.approvedBy.None?
  {
    var act := DraftAct(data, companyId, userId, Numbered("DB", companyId, CountActs(db, companyId)));
    assert CreateAct(db, companyId, userId, data, newId).value == db.(acts := db.acts[newId := act]);
  }

  /** The act a creation request describes, as a draft that was never submitted or approved. */
  function DraftAct(data: ActCreate, companyId: nat, userId: nat, actNumber: DocumentNumber): (act: Act)
    ensures act.status == Draft && act.companyId == companyId && act.createdBy == userId
    ensures act.actNumber == actNumber && act.totalValue == data.totalValue
    ensures act.submittedAt.None? && act.approvedAt.None? && act.approvedBy.None?
  {
    Act(actNumber, data.actType, Draft, data.description, data.totalValue, data.currency, companyId,
        data.importProcessId, data.exportProcessId, data.expirationDate, userId, data.notes,
        None, None, None, None)
  }

  function Or<T>(update: Option<T>, current: T): T {
    if update.Some? then update.value else current
  }

  /** `update_drawback_act` (PATCH): every field that is present overwrites the act, and a present
      status is set whatever the current one is; setting submitted stamps `submittedAt`, setting
      approved stamps `approvedAt` and `approvedBy`. No credit is generated. */
  function UpdateAct(db: Db, companyId: nat, userId: nat, actId: nat, data: ActUpdate, now: int): (r: Result<Db, DrawbackError>)
    ensures r.Ok? <==> Owns(db, companyId, actId)
    ensures r.Err? ==> r.error == ActNotFound
    ensures r.Ok? ==> r.value.credits == db.credits && r.value.acts.Keys == db.acts.Keys
  {
    if !Owns(db, companyId, actId) then Err(ActNotFound)
    else
      var a := db.acts[actId];
      var a1 := a.(description := Or(data.description, a.description), totalValue := Or(data.totalValue, a.totalValue));
      var a2 :=
        if data.status.None? then a1
        else if data.status.value == Submitted then a1.(status := Submitted, submittedAt := Some(now))
        else if data.status.value == Approved then a1.(status := Approved, approvedAt := Some(now), approvedBy := Some(userId))
        else a1.(status := data.status.value);
      var a3 := a2.(expirationDate := if data.expirationDate.Some? then data.expirationDate else a2.expirationDate,
                    notes := if data.notes.Some? then data.notes else a2.notes,
                    rejectionReason := if data.rejectionReason.Some? then data.rejectionReason else a2.rejectionReason);
      Ok(db.(acts := db.acts[actId := a3]))
  }

  /** A successful PATCH changes only its own act: the status and value are the requested ones or
      the old ones, the number and company stay, and only the submitted and approved statuses
      stamp their timestamps. */
  lemma UpdateActFields(db: Db, companyId: nat, userId: nat, actId: nat, data: ActUpdate, now: int)
    requires Owns(db, companyId, actId)
    ensures var r := UpdateAct(db, companyId, userId, actId, data, now).value;
            && (forall id :: id in db.acts && id != actId ==> r.acts[id] == db.acts[id])
            && var before, after := db.acts[actId], r.acts[actId];
               && after.status == (if data.status.Some? then data.status.value else before.status)
               && after.totalValue == (if data.totalValue.Some? then data.totalValue.value else before.totalValue)
               && after.actNumber == before.actNumber && after.companyId == before.companyId
               && (data.status == Some(Submitted) ==> after.submittedAt == Some(now))
               && (data.status == Some(Approved) ==> after.approvedAt == Some(now) && after.approvedBy == Some(userId))
               && (data.status != Some(Submitted) && data.status != Some(Approved) ==>
                     after.submittedAt == before.submittedAt && after.approvedAt == before.approvedAt)
  {
  }

  /** `submit_drawback_act`: only a draft can be submitted. */
  function SubmitAct(db: Db, companyId: nat, actId: nat, now: int): (r: Result<Db, DrawbackError>)
    ensures !Owns(db, companyId, actId) ==> r == Err(ActNotFound)
    ensures Owns(db, companyId, actId) && db.acts[actId].status != Draft ==> r == Err(NotDraft)
    ensures r.Ok? <==> Owns(db, companyId, actId) && db.acts[actId].status == Draft
    ensures r.Ok? ==> r.value == db.(acts := db.acts[actId := db.acts[actId].(status := Submitted, submittedAt := Some(now))])
  {
    if !Owns(db, companyId, actId) then Err(ActNotFound)
    else if db.acts[actId].status != Draft then Err(NotDraft)
    else Ok(db.(acts := db.acts[actId := db.acts[actId].(status := Submitted, submittedAt := Some(now))]))
  }

  /** The credit an approval generates: the whole value available, nothing used. */
  function CreditFor(db: Db, companyId: nat, actId: nat, now: int): (c: Credit)
    requires actId in db.acts
    ensures c.value == c.availableValue == db.acts[actId].totalValue && c.usedValue == 0.0
    ensures c.isActive && !c.isUsed && c.actId == actId && c.companyId == companyId
    ensures c.creditNumber == Numbered("DC", companyId, CountCredits(db, companyId))
  {
    var act := db.acts[actId];
    Credit(Numbered("DC", companyId, CountCredits(db, companyId)), act.totalValue, act.currency, 0.0,
           act.totalValue, true, false, actId, companyId, now, act.expirationDate)
  }

  /** `approve_drawback_act`: only a submitted act can be approved, and approval adds exactly one
      credit. */
  function ApproveAct(db: Db, companyId: nat, userId: nat, actId: nat, now: int, newCreditId: nat): (r: Result<Db, DrawbackError>)
    requires newCreditId !in db.credits
    ensures !Owns(db, companyId, actId) ==> r == Err(ActNotFound)
    ensures Owns(db, companyId, actId) && db.acts[actId].status != Submitted ==> r == Err(NotSubmitted)
    ensures r.Ok? <==> Owns(db, companyId, actId) && db.acts[actId].status == Submitted
    ensures r.Ok? ==>
              && r.value.acts == db.acts[actId := db.acts[actId].(status := Approved, approvedAt := Some(now), approvedBy := Some(userId))]
              && r.value.credits == db.credits[newCreditId := CreditFor(db, companyId, actId, now)]
  {
    if !Owns(db, companyId, actId) then Err(ActNotFound)
    else if db.acts[actId].status != Submitted then Err(NotSubmitted)
    else
      var approved := db.acts[actId].(status := Approved, approvedAt := Some(now), approvedBy := Some(userId));
      Ok(db.(acts := db.acts[actId := approved], credits := db.credits[newCreditId := CreditFor(db, companyId, actId, now)]))
  }

  /** Submitting an owned draft succeeds, keeping its value and the credits. */
  lemma SubmitDraft(db: Db, companyId: nat, actId: nat, now: int)
    requires Owns(db, companyId, actId) && db.acts[actId].status == Draft
    ensures var r := SubmitAct(db, companyId, actId, now);
            r.Ok? && Owns(r.value, companyId, actId) && r.value.acts[actId].status == Submitted
            && r.value.acts[actId].totalValue == db.acts[actId].totalValue && r.value.credits == db.credits
  {
  }

  /** Approving an owned submitted act succeeds and adds one credit worth the act's value. */
  lemma ApproveSubmitted(db: Db, companyId: nat, userId: nat, actId: nat, now: int, creditId: nat)
    requires Owns(db, companyId, actId) && db.acts[actId].status == Submitted && creditId !in db.credits
    ensures var r := ApproveAct(db, companyId, userId, actId, now, creditId);
            r.Ok? && r.value.acts[actId].status == Approved
            && r.value.credits.Keys == db.credits.Keys + {creditId}
            && r.value.credits[creditId].value == db.acts[actId].totalValue
            && r.value.credits[creditId].availableValue == db.acts[actId].totalValue
  {
    var c := CreditFor(db, companyId, actId, now);
    var r := ApproveAct(db, companyId, userId, actId, now, creditId);
    assert r.Ok?;
    assert r.value.acts[actId].status == Approved;
    assert r.value.credits == db.credits[creditId := c];
    assert r.value.credits[creditId] == c;
    assert r.value.credits.Keys == db.credits.Keys + {creditId};
  }

  /** Draft, then submit, then approve: each step succeeds, and the act ends approved with one
      credit carrying its full value. */
  lemma Lifecycle(db: Db, companyId: nat, userId: nat, data: ActCreate, actId: nat, t1: int, t2: int, creditId: nat)
    requires actId !in db.acts && creditId !in db.credits
    requires Check(db.importProcesses, db.exportProcesses, companyId, data.importProcessId, data.exportProcessId) == None
    ensures var created := CreateAct(db, companyId, userId, data, actId);
            created.Ok?
            && var submitted := SubmitAct(created.value, companyId, actId, t1);
               submitted.Ok?
               && var approved := ApproveAct(submitted.value, companyId, userId, actId, t2, creditId);
                  && approved.Ok?
                  && approved.value.acts[actId].status == Approved
                  && approved.value.credits.Keys == db.credits.Keys + {creditId}
                  && approved.value.credits[creditId].value == data.totalValue
                  && approved.value.credits[creditId].availableValue == data.totalValue
  {
    CreateActAddsDraft(db, companyId, userId, data, actId);
    var c := CreateAct(db, companyId, userId, data, actId).value;
    assert Owns(c, companyId, actId) && c.acts[actId].status == Draft;
    SubmitDraft(c, companyId, actId, t1);
    var s := SubmitAct(c, companyId, actId, t1).value;
    ApproveSubmitted(s, companyId, userId, actId, t2, creditId);
  }

  /** An act cannot be approved twice through the approval endpoint, so it yields one credit. */
  lemma ApproveOnce(db: Db, companyId: nat, userId: nat, actId: nat, t1: int, t2: int, c1: nat, c2: nat)
    requires c1 !in db.credits && c2 !in db.credits && c1 != c2
    requires ApproveAct(db, companyId, userId, actId, t1, c1).Ok?
    ensures ApproveAct(ApproveAct(db, companyId, userId, actId, t1, c1).value, companyId, userId, actId, t2, c2) == Err(NotSubmitted)
  {
  }

  /** PATCH moves an act to any status from any status without creating a credit; an act it marks
      approved can then never be approved through the endpoint that generates the credit. */
  lemma PatchBypassesLifecycle(db: Db, companyId: nat, userId: nat, actId: nat, now: int, t: int, creditId: nat)
    requires Owns(db, companyId, actId) && creditId !in db.credits
    ensures var patched := UpdateAct(db, companyId, userId, actId, ActUpdate(None, None, Some(Approved), None, None, None), now);
            && patched.Ok?
            && patched.value.acts[actId].status == Approved
            && patched.value.credits == db.credits
            && ApproveAct(patched.value, companyId, userId, actId, t, creditId) == Err(NotSubmitted)
  {
  }
}
