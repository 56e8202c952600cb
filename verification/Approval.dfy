/** The approval engine: a workflow value receives one decision, recorded in its history. */
module Approval {
  import opened Wrappers

  datatype PlanStep = PlanStep(id: Id, actionType: Id)

  datatype ActionPlan = ActionPlan(
    planId: Id, decisionId: Id, priority: Id, steps: seq<PlanStep>, users: seq<Id>, systems: seq<Id>)

  datatype WorkflowStatus = Pending | Approved | Rejected | Modified

  datatype ApprovalRecord = ApprovalRecord(
    approvalId: Id, planId: Id, decisionId: Id, status: WorkflowStatus, reviewer: Id)

  datatype Workflow = Workflow(id: Id, planId: Id, decisionId: Id, status: WorkflowStatus, history: seq<ApprovalRecord>)

  datatype ApprovalError = NoModifications | NoReviewer | AlreadyDecided

  /** `approve`, `reject` or `modify` as called by a reviewer. */
  datatype Attempt =
    | Approve(reviewer: Id)
    | Reject(reviewer: Id)
    | Modify(reviewer: Id, changes: set<Id>)

  function Decimal(n: nat): string {
    if n < 10 then [('0' as int + n) as char] else Decimal(n / 10) + Decimal(n % 10)
  }

  function CreateWorkflow(plan: ActionPlan): Workflow {
    Workflow(Id("AWF-" + plan.planId.text), plan.planId, plan.decisionId, Pending, [])
  }

  function StatusOf(a: Attempt): WorkflowStatus {
    match a
    case Approve(_) => Approved
    case Reject(_) => Rejected
    case Modify(_, _) => Modified
  }

  function Decide(w: Workflow, a: Attempt): Result<Workflow, ApprovalError> {
    if a.Modify? && a.changes == {} then Failure(NoModifications)
    else if a.reviewer.text == "" then Failure(NoReviewer)
    else if w.status != Pending then Failure(AlreadyDecided)
    else
      var approvalId := Id("APP-" + w.id.text + "-" + Decimal(|w.history| + 1));
      var record := ApprovalRecord(approvalId, w.planId, w.decisionId, StatusOf(a), a.reviewer);
      Success(w.(status := StatusOf(a), history := w.history + [record]))
  }

  /** The workflow of a plan after any attempts; one that is refused changes nothing. */
  function Decided(plan: ActionPlan, attempts: seq<Attempt>): Workflow {
    if attempts == [] then CreateWorkflow(plan) else
      var w := Decided(plan, attempts[..|attempts| - 1]);
      var r := Decide(w, attempts[|attempts| - 1]);
      if r.Success? then r.value else w
  }

  predicate Acceptable(a: Attempt) {
    a.reviewer.text != "" && (a.Modify? ==> a.changes != {})
  }

  /**
   A workflow receives at most one decision: the first acceptable attempt. Its status is the status
   of the one record in its history, and it never leaves its plan.
   */
  lemma {:induction false} FirstDecisionStands(plan: ActionPlan, attempts: seq<Attempt>)
    ensures
      var w := Decided(plan, attempts);
      && w.planId == plan.planId && w.decisionId == plan.decisionId && w.id == CreateWorkflow(plan).id
      && |w.history| <= 1 && (w.status == Pending <==> w.history == [])
      && (w.history != [] ==> w.history[0].status == w.status && w.history[0].planId == plan.planId)
      && (w.status == Pending <==> forall a | a in attempts :: !Acceptable(a))
      && (w.status != Pending ==> exists n ::
            && FirstAcceptable(attempts, n)
            && w.status == StatusOf(attempts[n]) && w.history[0].reviewer == attempts[n].reviewer)
  {
    if attempts != [] {
      var n := |attempts| - 1;
      var init := attempts[..n];
      assert attempts == init + [attempts[n]];
      FirstDecisionStands(plan, init);
      var before := Decided(plan, init);
      if before.status == Pending && Acceptable(attempts[n]) {
        assert FirstAcceptable(attempts, n);
      }
      if before.status != Pending {
        var m :| FirstAcceptable(init, m)
          && before.status == StatusOf(init[m]) && before.history[0].reviewer == init[m].reviewer;
        assert FirstAcceptable(attempts, m);
      }
    }
  }

  ghost predicate FirstAcceptable(attempts: seq<Attempt>, n: int) {
    0 <= n < |attempts| && Acceptable(attempts[n]) && forall m | 0 <= m < n :: !Acceptable(attempts[m])
  }

  /** The number that decimal digits stand for. */
  function Number(digits: string): int {
    if digits == [] then 0 else 10 * Number(digits[..|digits| - 1]) + (digits[|digits| - 1] as int - '0' as int)
  }

  lemma {:induction false} DecimalIsNumber(n: nat)
    ensures Decimal(n) != [] && Number(Decimal(n)) == n
    ensures forall c | c in Decimal(n) :: '0' <= c <= '9'
  {
    if n < 10 {
      assert Decimal(n)[..0] == [];
    } else {
      DecimalIsNumber(n / 10);
      var digits, last := Decimal(n / 10), Decimal(n % 10);
      assert (digits + last)[..|digits + last| - 1] == digits;
    }
  }

  /**
   An attempt is refused for missing modifications, then for a missing reviewer, then because the workflow is decided.
   Otherwise the workflow gets its status and one more record, with a number of its own.
   */
  lemma DecideIff(w: Workflow, a: Attempt)
    ensures
      var r := Decide(w, a);
      && (r == Failure(NoModifications) <==> a.Modify? && a.changes == {})
      && (r == Failure(NoReviewer) <==> !(a.Modify? && a.changes == {}) && a.reviewer == Id(""))
      && (r == Failure(AlreadyDecided) <==> Acceptable(a) && w.status != Pending)
      && (r.Success? <==> Acceptable(a) && w.status == Pending)
      && (r.Success? ==>
            && r.value.id == w.id && r.value.planId == w.planId && r.value.decisionId == w.decisionId
            && r.value.status == (if a.Approve? then Approved else if a.Reject? then Rejected else Modified)
            && |r.value.history| == |w.history| + 1 && r.value.history[..|w.history|] == w.history
            && var record := r.value.history[|w.history|];
            && record.planId == w.planId && record.decisionId == w.decisionId && record.reviewer == a.reviewer
            && record.status == r.value.status
            && record.approvalId == Id("APP-" + w.id.text + "-" + Decimal(|w.history| + 1)))
  {
    assert a.reviewer == Id("") <==> a.reviewer.text == "";
  }

  lemma NewWorkflowIs(plan: ActionPlan)
    ensures CreateWorkflow(plan) == Decided(plan, [])
    ensures Decided(plan, []) == Workflow(Id("AWF-" + plan.planId.text), plan.planId, plan.decisionId, Pending, [])
  {
  }
}
