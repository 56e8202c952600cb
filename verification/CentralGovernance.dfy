/** Central governance of requests from distributed nodes: ownership checks in front of human approval. */
module CentralGovernance {
  import opened Wrappers
  import opened Approval

  /**
   The last three never arise from plans as their constructor makes them: it insists on prefixed ids, and on a true
   need for approval, where only a value like 1, which is true without being `True`, gets past it to this check.
   */
  datatype Issue = WrongOrganization | WrongDeployment | WrongNode | ApprovalNotRequired | NoPlanId | NoDecisionId

  datatype Request = Request(id: Id, organization: Id, deployment: Id, node: Id, plan: ActionPlan, humanApproval: bool)

  datatype Status = ApprovedForReview | RejectedByGovernance

  datatype Outcome = Outcome(
    requestId: Id, organization: Id, deployment: Id, node: Id, workflow: Workflow, status: Status, issues: seq<Issue>)

  datatype GovernanceError = NaiveTime | UnknownRequest | NotEligible | Refused(error: ApprovalError)

  datatype Setting = Setting(organization: Id, deployment: Id, node: Id)

  datatype Registry = Registry(requests: map<Id, Request>, results: map<Id, Outcome>)

  function AddIf(issues: seq<Issue>, condition: bool, issue: Issue): seq<Issue> {
    if condition then issues + [issue] else issues
  }

  /** The ownership checks. */
  function OwnershipIssues(s: Setting, r: Request): seq<Issue> {
    var i1 := AddIf([], r.organization != s.organization, WrongOrganization);
    var i2 := AddIf(i1, r.deployment != s.deployment, WrongDeployment);
    AddIf(i2, r.node != s.node, WrongNode)
  }

  /** What is wrong with a request, in the order of the checks. */
  function Issues(s: Setting, r: Request): seq<Issue> {
    var i4 := AddIf(OwnershipIssues(s, r), !r.humanApproval, ApprovalNotRequired);
    var i5 := AddIf(i4, r.plan.planId.text == "", NoPlanId);
    AddIf(i5, r.plan.decisionId.text == "", NoDecisionId)
  }

  /** When an issue is there. */
  predicate Mismatch(s: Setting, r: Request, issue: Issue) {
    match issue
    case WrongOrganization => r.organization != s.organization
    case WrongDeployment => r.deployment != s.deployment
    case WrongNode => r.node != s.node
    case ApprovalNotRequired => !r.humanApproval
    case NoPlanId => r.plan.planId.text == ""
    case NoDecisionId => r.plan.decisionId.text == ""
  }

  /** The order in which issues are reported. */
  function Position(issue: Issue): nat {
    match issue
    case WrongOrganization => 0
    case WrongDeployment => 1
    case WrongNode => 2
    case ApprovalNotRequired => 3
    case NoPlanId => 4
    case NoDecisionId => 5
  }

  /** A list of exactly the issues there are, each once and in order: there is only one such list. */
  ghost predicate Reports(s: Setting, r: Request, issues: seq<Issue>) {
    && (forall issue :: issue in issues <==> Mismatch(s, r, issue))
    && (forall i, j | 0 <= i < j < |issues| :: Position(issues[i]) < Position(issues[j]))
  }

  /** The checks made so far, in order. */
  ghost predicate ReportsUpTo(s: Setting, r: Request, issues: seq<Issue>, n: nat) {
    && (forall issue :: issue in issues <==> Position(issue) < n && Mismatch(s, r, issue))
    && (forall i, j | 0 <= i < j < |issues| :: Position(issues[i]) < Position(issues[j]))
  }

  lemma OneMoreCheck(s: Setting, r: Request, issues: seq<Issue>, issue: Issue)
    requires ReportsUpTo(s, r, issues, Position(issue))
    ensures ReportsUpTo(s, r, AddIf(issues, Mismatch(s, r, issue), issue), Position(issue) + 1)
  {
    var more := AddIf(issues, Mismatch(s, r, issue), issue);
    forall other ensures other in more <==> other in issues || (other == issue && Mismatch(s, r, issue)) {}
    forall i | 0 <= i < |issues| ensures Position(issues[i]) < Position(issue) { assert issues[i] in issues; }
  }

  lemma OwnershipReports(s: Setting, r: Request)
    ensures ReportsUpTo(s, r, OwnershipIssues(s, r), 3)
  {
    var i1 := AddIf([], Mismatch(s, r, WrongOrganization), WrongOrganization);
    var i2 := AddIf(i1, Mismatch(s, r, WrongDeployment), WrongDeployment);
    OneMoreCheck(s, r, [], WrongOrganization);
    OneMoreCheck(s, r, i1, WrongDeployment);
    OneMoreCheck(s, r, i2, WrongNode);
  }

  lemma AllChecked(s: Setting, r: Request, issues: seq<Issue>)
    requires ReportsUpTo(s, r, issues, 6)
    ensures Reports(s, r, issues)
  {
  }

  /** The issues of a request: which there are, none twice, in the order of the checks. */
  lemma IssuesReport(s: Setting, r: Request)
    ensures Reports(s, r, Issues(s, r))
  {
    var i3 := OwnershipIssues(s, r);
    var i4 := AddIf(i3, Mismatch(s, r, ApprovalNotRequired), ApprovalNotRequired);
    var i5 := AddIf(i4, Mismatch(s, r, NoPlanId), NoPlanId);
    OwnershipReports(s, r);
    OneMoreCheck(s, r, i3, ApprovalNotRequired);
    OneMoreCheck(s, r, i4, NoPlanId);
    OneMoreCheck(s, r, i5, NoDecisionId);
    AllChecked(s, r, Issues(s, r));
  }

  function Opened(s: Setting, r: Request): Outcome {
    Outcome(r.id, r.organization, r.deployment, r.node, CreateWorkflow(r.plan),
            if Issues(s, r) == [] then ApprovedForReview else RejectedByGovernance, Issues(s, r))
  }

  // ------------------------------------------------------- the calls

  /** A submission, or a review: `approve`, `reject` or `modify` at a time that may lack a time zone. */
  datatype Action = Submit(request: Request) | Review(id: Id, attempt: Attempt, aware: bool)

  function SubmitAnswer(s: Setting, g: Registry, r: Request): Outcome {
    if Issues(s, r) == [] && r.id in g.results then g.results[r.id] else Opened(s, r)
  }

  function ReviewAnswer(g: Registry, id: Id, attempt: Attempt, aware: bool): Result<Outcome, GovernanceError> {
    if !aware then Failure(NaiveTime)
    else if id !in g.results || (attempt.Approve? && id !in g.requests) then Failure(UnknownRequest)
    else if attempt.Approve? && g.results[id].status != ApprovedForReview then Failure(NotEligible)
    else
      var decided := Decide(g.results[id].workflow, attempt);
      if decided.Failure? then Failure(Refused(decided.error))
      else Success(g.results[id].(workflow := decided.value, status := ApprovedForReview))
  }

  function Next(s: Setting, g: Registry, a: Action): Registry {
    match a
    case Submit(r) =>
      if Issues(s, r) == [] && r.id in g.results then g
      else Registry(g.requests[r.id := r], g.results[r.id := Opened(s, r)])
    case Review(id, attempt, aware) =>
      var answer := ReviewAnswer(g, id, attempt, aware);
      if answer.Success? then g.(results := g.results[id := answer.value]) else g
  }

  class DistributedCentralGovernance {
    const setting: Setting
    var requests: map<Id, Request>
    var results: map<Id, Outcome>

    constructor (setting: Setting)
      ensures this.setting == setting && Contents() == Registry(map[], map[])
    {
      this.setting := setting;
      requests, results := map[], map[];
    }

    ghost function Contents(): Registry
      reads this
    {
      Registry(requests, results)
    }

    /** The checks of `validate_request`, each appending its issue. */
    method ValidateRequest(r: Request) returns (issues: seq<Issue>)
      ensures issues == Issues(setting, r) && Reports(setting, r, issues)
    {
      IssuesReport(setting, r);
      issues := [];
      if r.organization != setting.organization { issues := issues + [WrongOrganization]; }
      if r.deployment != setting.deployment { issues := issues + [WrongDeployment]; }
      if r.node != setting.node { issues := issues + [WrongNode]; }
      if !r.humanApproval { issues := issues + [ApprovalNotRequired]; }
      if r.plan.planId.text == "" { issues := issues + [NoPlanId]; }
      if r.plan.decisionId.text == "" { issues := issues + [NoDecisionId]; }
    }

    method SubmitRequest(r: Request) returns (answer: Outcome)
      modifies this
      ensures Contents() == Next(setting, old(Contents()), Submit(r))
      ensures answer == SubmitAnswer(setting, old(Contents()), r)
      ensures r.id in results && answer == results[r.id]
    {
      var issues := ValidateRequest(r);
      if issues != [] {
        answer := Outcome(
          r.id, r.organization, r.deployment, r.node, CreateWorkflow(r.plan), RejectedByGovernance, issues);
        requests := requests[r.id := r];
        results := results[r.id := answer];
        return;
      }
      if r.id in results {
        return results[r.id];
      }
      answer := Outcome(r.id, r.organization, r.deployment, r.node, CreateWorkflow(r.plan), ApprovedForReview, []);
      requests := requests[r.id := r];
      results := results[r.id := answer];
    }

    method ApproveRequest(id: Id, reviewer: Id, aware: bool) returns (answer: Result<Outcome, GovernanceError>)
      modifies this
      ensures Contents() == Next(setting, old(Contents()), Review(id, Approve(reviewer), aware))
      ensures answer == ReviewAnswer(old(Contents()), id, Approve(reviewer), aware)
      ensures answer == Failure(NaiveTime) <==> !aware
      ensures answer == Failure(UnknownRequest) <==> aware && !(id in old(requests) && id in old(results))
      ensures answer == Failure(NotEligible)
              <==> aware && id in old(requests) && id in old(results) && old(results)[id].status == RejectedByGovernance
      ensures answer.Failure? && answer.error.Refused? ==>
                && id in old(results)
                && Decide(old(results)[id].workflow, Approve(reviewer)) == Failure(answer.error.error)
      ensures answer.Success? ==> id in results && answer.value == results[id]
    {
      if !aware {
        return Failure(NaiveTime);
      }
      if id !in requests || id !in results {
        return Failure(UnknownRequest);
      }
      var result := results[id];
      if result.status != ApprovedForReview {
        return Failure(NotEligible);
      }
      var decided := Decide(result.workflow, Approve(reviewer));
      if decided.Failure? {
        return Failure(Refused(decided.error));
      }
      results := results[id := result.(workflow := decided.value, status := ApprovedForReview)];
      answer := Success(results[id]);
    }

    /** `reject` and `modify` do not look at the governance status, and overwrite it. */
    method RejectOrModify(id: Id, attempt: Attempt, aware: bool) returns (answer: Result<Outcome, GovernanceError>)
      requires !attempt.Approve?
      modifies this
      ensures Contents() == Next(setting, old(Contents()), Review(id, attempt, aware))
      ensures answer == ReviewAnswer(old(Contents()), id, attempt, aware)
      ensures answer == Failure(NaiveTime) <==> !aware
      ensures answer == Failure(UnknownRequest) <==> aware && id !in old(results)
      ensures answer != Failure(NotEligible)
      ensures answer.Failure? && answer.error.Refused? ==>
                id in old(results) && Decide(old(results)[id].workflow, attempt) == Failure(answer.error.error)
      ensures answer.Success? ==> id in results && answer.value == results[id]
    {
      if !aware {
        return Failure(NaiveTime);
      }
      if id !in results {
        return Failure(UnknownRequest);
      }
      var decided := Decide(results[id].workflow, attempt);
      if decided.Failure? {
        return Failure(Refused(decided.error));
      }
      results := results[id := results[id].(workflow := decided.value, status := ApprovedForReview)];
      answer := Success(results[id]);
    }
  }

  // ------------------------------------------------------- every run

  /** The plan's own workflow, untouched or after one decision. */
  ghost predicate OwnWorkflow(plan: ActionPlan, w: Workflow) {
    w == CreateWorkflow(plan) || exists a :: Decide(CreateWorkflow(plan), a) == Success(w)
  }

  ghost predicate Governed(s: Setting, r: Request, o: Outcome) {
    && o.requestId == r.id && o.organization == r.organization && o.deployment == r.deployment && o.node == r.node
    && o.issues == Issues(s, r)
    && OwnWorkflow(r.plan, o.workflow)
    && (o.status == RejectedByGovernance <==> o.issues != [] && o.workflow.status == Pending)
    && (o.workflow.status == Approved ==> o.issues == [])
  }

  ghost predicate GovernedAt(s: Setting, g: Registry, id: Id) {
    && (id in g.requests <==> id in g.results)
    && (id in g.results ==> g.requests[id].id == id && Governed(s, g.requests[id], g.results[id]))
  }

  lemma ReviewKeepsGoverned(s: Setting, g: Registry, id: Id, attempt: Attempt, aware: bool)
    requires GovernedAt(s, g, id) && ReviewAnswer(g, id, attempt, aware).Success?
    ensures Governed(s, g.requests[id], ReviewAnswer(g, id, attempt, aware).value)
  {
    assert Decide(CreateWorkflow(g.requests[id].plan), attempt).Success?;
  }

  lemma NextKeepsGoverned(s: Setting, g: Registry, a: Action, id: Id)
    requires GovernedAt(s, g, id)
    ensures GovernedAt(s, Next(s, g, a), id)
  {
    if a.Review? && a.id == id && ReviewAnswer(g, id, a.attempt, a.aware).Success? {
      ReviewKeepsGoverned(s, g, id, a.attempt, a.aware);
    }
  }

  function Reach(s: Setting, actions: seq<Action>): Registry {
    if actions == [] then Registry(map[], map[])
    else Next(s, Reach(s, actions[..|actions| - 1]), actions[|actions| - 1])
  }

  /**
   In every run, requests and results have the same keys; each result carries its stored request's issues
   and the workflow of its stored request's plan, decided at most once; and one that is approved has no issues.
   */
  lemma {:induction false} EveryRunIsGoverned(s: Setting, actions: seq<Action>, id: Id)
    ensures GovernedAt(s, Reach(s, actions), id)
  {
    if actions != [] {
      var n := |actions| - 1;
      EveryRunIsGoverned(s, actions[..n], id);
      NextKeepsGoverned(s, Reach(s, actions[..n]), actions[n], id);
    }
  }

  /**
   An approval is recorded exactly when the request passed every check, is undecided, and someone reviews it at
   an aware time.
   */
  lemma {:induction false} ApprovalSucceedsIff(s: Setting, actions: seq<Action>, id: Id, reviewer: Id, aware: bool)
    ensures
      var g := Reach(s, actions);
      ReviewAnswer(g, id, Approve(reviewer), aware).Success? <==>
        && aware && id in g.requests && id in g.results && Issues(s, g.requests[id]) == []
        && g.results[id].workflow.status == Pending && reviewer.text != ""
  {
    EveryRunIsGoverned(s, actions, id);
  }

  /**
   A recorded decision stays, whatever is called, except that a submission with issues under the same id
   replaces request and result, even an approved one.
   */
  lemma {:induction false} DecisionStandsIff(s: Setting, actions: seq<Action>, a: Action, id: Id)
    requires id in Reach(s, actions).results && Reach(s, actions).results[id].workflow.status != Pending
    ensures
      var g := Reach(s, actions);
      var more := Reach(s, actions + [a]);
      && id in more.results
      && (more.results[id] == g.results[id] <==> !(a.Submit? && a.request.id == id && Issues(s, a.request) != []))
  {
    assert (actions + [a])[..|actions|] == actions;
    EveryRunIsGoverned(s, actions, id);
  }

  /** Submitting a request that passes the checks twice is the same as submitting it once. */
  lemma CleanResubmissionIsIdle(s: Setting, actions: seq<Action>, r: Request)
    requires Issues(s, r) == []
    ensures
      var once := Reach(s, actions + [Submit(r)]);
      Reach(s, actions + [Submit(r), Submit(r)]) == once && SubmitAnswer(s, once, r) == once.results[r.id]
  {
    var twice := actions + [Submit(r), Submit(r)];
    assert twice[..|twice| - 1] == actions + [Submit(r)];
    assert (actions + [Submit(r)])[..|actions|] == actions;
  }

  /**
   For any request that passes the checks: it is submitted and approved, and then a request of another node comes
   with the same plan and the same id. The approval is gone, and the workflow is pending again.
   */
  lemma ApprovalCanBeErased(s: Setting, r: Request, reviewer: Id, foreign: Id)
    requires Issues(s, r) == [] && reviewer.text != "" && foreign != s.node
    ensures
      var approved := [Submit(r)] + [Review(r.id, Approve(reviewer), true)];
      var before, after := Reach(s, approved), Reach(s, approved + [Submit(r.(node := foreign))]);
      && r.id in before.results && before.results[r.id].workflow.status == Approved
      && r.id in after.results && after.results[r.id].workflow == CreateWorkflow(r.plan)
      && after.results[r.id].issues == [WrongNode] && after.results[r.id].node == foreign
  {
    var bad := r.(node := foreign);
    var submit, review := Submit(r), Review(r.id, Approve(reviewer), true);
    var approved := [submit] + [review];
    assert approved[..1] == [submit] && [submit][..0] == [] && (approved + [Submit(bad)])[..2] == approved;
    assert Reach(s, [submit]) == Next(s, Registry(map[], map[]), submit);
    assert Reach(s, approved) == Next(s, Reach(s, [submit]), review);
    assert Reach(s, approved + [Submit(bad)]) == Next(s, Reach(s, approved), Submit(bad));
    OnlyTheNode(s, r, foreign);
  }

  lemma OnlyTheNode(s: Setting, r: Request, foreign: Id)
    requires Issues(s, r) == [] && foreign != s.node
    ensures Issues(s, r.(node := foreign)) == [WrongNode]
  {
    IssuesReport(s, r);
    forall issue ensures !Mismatch(s, r, issue) { assert issue !in Issues(s, r); }
    assert !Mismatch(s, r, WrongOrganization) && !Mismatch(s, r, WrongDeployment);
    assert !Mismatch(s, r, ApprovalNotRequired);
    assert !Mismatch(s, r, NoPlanId) && !Mismatch(s, r, NoDecisionId);
  }

  // ------------------------------------------------------- an outcome tells its calls

  /** The attempts that reach the approval engine: made at an aware time, and no approval unless there is no issue. */
  function Admitted(actions: seq<Action>, id: Id, clean: bool): seq<Attempt> {
    if actions == [] then []
    else
      var a := actions[|actions| - 1];
      Admitted(actions[..|actions| - 1], id, clean)
      + if a.Review? && a.id == id && a.aware && (a.attempt.Approve? ==> clean) then [a.attempt] else []
  }

  /** The outcome of a request after these later calls: its own data, and the decision of the first good attempt. */
  ghost predicate OutcomeTells(s: Setting, r: Request, later: seq<Action>, o: Outcome) {
    && o.requestId == r.id && o.organization == r.organization && o.deployment == r.deployment && o.node == r.node
    && Reports(s, r, o.issues)
    && o.workflow == Decided(r.plan, Admitted(later, r.id, o.issues == []))
    && o.status == if o.issues == [] || o.workflow.status != Pending then ApprovedForReview else RejectedByGovernance
  }

  ghost predicate SubmitsAt(actions: seq<Action>, id: Id, n: int) {
    0 <= n < |actions| && actions[n].Submit? && actions[n].request.id == id
  }

  /** Submission `n` is the one that counts: the last one with issues, or the first if none has any. */
  ghost predicate OpensAt(s: Setting, actions: seq<Action>, id: Id, n: int) {
    && SubmitsAt(actions, id, n)
    && (forall m | SubmitsAt(actions, id, m) && m > n :: Reports(s, actions[m].request, []))
    && (!Reports(s, actions[n].request, []) || forall m | SubmitsAt(actions, id, m) :: m >= n)
  }

  lemma IssuesIff(s: Setting, r: Request, issues: seq<Issue>)
    ensures Reports(s, r, []) <==> Issues(s, r) == []
    ensures Reports(s, r, Issues(s, r))
  {
    IssuesReport(s, r);
    assert Issues(s, r) != [] ==> Issues(s, r)[0] in Issues(s, r);
  }

  lemma AdmittedOneMore(later: seq<Action>, a: Action, id: Id, clean: bool)
    ensures Admitted(later + [a], id, clean)
            == Admitted(later, id, clean)
               + if a.Review? && a.id == id && a.aware && (a.attempt.Approve? ==> clean) then [a.attempt] else []
  {
    assert (later + [a])[..|later|] == later;
  }

  lemma DecidedOneMore(plan: ActionPlan, attempts: seq<Attempt>, a: Attempt)
    ensures
      var r := Decide(Decided(plan, attempts), a);
      Decided(plan, attempts + [a]) == if r.Success? then r.value else Decided(plan, attempts)
  {
    assert (attempts + [a])[..|attempts|] == attempts;
  }

  /** The call reaches the approval engine with an attempt on this request. */
  predicate Admits(a: Action, id: Id, clean: bool) {
    a.Review? && a.id == id && a.aware && (a.attempt.Approve? ==> clean)
  }

  /** The outcome of `id` after a call that does not replace it. */
  function OutcomeAfter(o: Outcome, a: Action, id: Id): Outcome {
    if Admits(a, id, o.issues == []) && Decide(o.workflow, a.attempt).Success? then
      o.(workflow := Decide(o.workflow, a.attempt).value, status := ApprovedForReview)
    else o
  }

  lemma NextOutcome(s: Setting, g: Registry, id: Id, a: Action)
    requires id in g.results && id in g.requests
    requires g.results[id].status == RejectedByGovernance
             <==> g.results[id].issues != [] && g.results[id].workflow.status == Pending
    requires a.Submit? && a.request.id == id ==> Issues(s, a.request) == []
    ensures id in Next(s, g, a).results && id in Next(s, g, a).requests
    ensures Next(s, g, a).results[id] == OutcomeAfter(g.results[id], a, id)
  {
    if a.Review? { DecideIff(g.results[id].workflow, a.attempt); }
  }

  lemma WorkflowTells(plan: ActionPlan, later: seq<Action>, a: Action, id: Id, clean: bool)
    ensures
      var w, more := Decided(plan, Admitted(later, id, clean)), Decided(plan, Admitted(later + [a], id, clean));
      more == if Admits(a, id, clean) && Decide(w, a.attempt).Success? then Decide(w, a.attempt).value else w
  {
    var admitted := Admitted(later, id, clean);
    AdmittedOneMore(later, a, id, clean);
    if Admits(a, id, clean) { DecidedOneMore(plan, admitted, a.attempt); } else { assert admitted + [] == admitted; }
  }

  /** One more call that does not replace the outcome. */
  lemma LaterCallTells(s: Setting, g: Registry, r: Request, later: seq<Action>, a: Action)
    requires r.id in g.results && r.id in g.requests && OutcomeTells(s, r, later, g.results[r.id])
    requires a.Submit? && a.request.id == r.id ==> Issues(s, a.request) == []
    ensures r.id in Next(s, g, a).results && r.id in Next(s, g, a).requests
    ensures OutcomeTells(s, r, later + [a], Next(s, g, a).results[r.id])
  {
    var o := g.results[r.id];
    NextOutcome(s, g, r.id, a);
    WorkflowTells(r.plan, later, a, r.id, o.issues == []);
    if a.Review? { DecideIff(o.workflow, a.attempt); }
  }

  lemma OpeningTells(s: Setting, g: Registry, r: Request)
    requires Issues(s, r) != [] || r.id !in g.results
    ensures
      var v := Next(s, g, Submit(r));
      r.id in v.results && r.id in v.requests && v.requests[r.id] == r && OutcomeTells(s, r, [], v.results[r.id])
  {
    IssuesIff(s, r, []);
    NewWorkflowIs(r.plan);
  }

  /** The outcome under an id, if there is one, tells the calls since the submission that opened it. */
  ghost predicate Told(s: Setting, actions: seq<Action>, g: Registry, id: Id, n: int) {
    if id in g.results then
      && OpensAt(s, actions, id, n) && id in g.requests && g.requests[id] == actions[n].request
      && OutcomeTells(s, actions[n].request, actions[n + 1..], g.results[id])
    else id !in g.requests && forall m :: !SubmitsAt(actions, id, m)
  }

  lemma SubmitsOneMore(init: seq<Action>, a: Action, id: Id, m: int)
    ensures SubmitsAt(init + [a], id, m)
            <==> SubmitsAt(init, id, m) || (m == |init| && a.Submit? && a.request.id == id)
  {
  }

  lemma OpensAnew(s: Setting, init: seq<Action>, a: Action, id: Id)
    requires a.Submit? && a.request.id == id
    requires Issues(s, a.request) != [] || forall m :: !SubmitsAt(init, id, m)
    ensures OpensAt(s, init + [a], id, |init|)
  {
    IssuesIff(s, a.request, []);
    forall m { SubmitsOneMore(init, a, id, m); }
    assert (init + [a])[|init|] == a;
  }

  lemma StaysOpen(s: Setting, init: seq<Action>, a: Action, id: Id, n: int)
    requires OpensAt(s, init, id, n)
    requires a.Submit? && a.request.id == id ==> Issues(s, a.request) == []
    ensures OpensAt(s, init + [a], id, n)
  {
    if a.Submit? { IssuesIff(s, a.request, []); }
    forall m { SubmitsOneMore(init, a, id, m); }
    assert forall m | 0 <= m < |init| :: (init + [a])[m] == init[m];
  }

  lemma UnknownStays(s: Setting, init: seq<Action>, g: Registry, a: Action, id: Id)
    requires id !in g.results && id !in g.requests && forall m :: !SubmitsAt(init, id, m)
    requires !(a.Submit? && a.request.id == id)
    ensures id !in Next(s, g, a).results && id !in Next(s, g, a).requests
    ensures forall m :: !SubmitsAt(init + [a], id, m)
  {
    forall m ensures !SubmitsAt(init + [a], id, m) { SubmitsOneMore(init, a, id, m); }
  }

  lemma StepTells(s: Setting, init: seq<Action>, g: Registry, a: Action, id: Id, n: int) returns (n': int)
    requires Told(s, init, g, id, n)
    ensures Told(s, init + [a], Next(s, g, a), id, n')
  {
    n' := n;
    if a.Submit? && a.request.id == id && (Issues(s, a.request) != [] || id !in g.results) {
      OpensAnew(s, init, a, id);
      OpeningTells(s, g, a.request);
      n' := |init|;
      assert (init + [a])[|init| + 1..] == [];
    } else if id in g.results {
      StaysOpen(s, init, a, id, n);
      LaterCallTells(s, g, init[n].request, init[n + 1..], a);
      assert (init + [a])[n + 1..] == init[n + 1..] + [a];
      RequestStays(s, g, a, id);
    } else {
      UnknownStays(s, init, g, a, id);
    }
  }

  lemma RequestStays(s: Setting, g: Registry, a: Action, id: Id)
    requires id in g.requests && id in g.results && (a.Submit? && a.request.id == id ==> Issues(s, a.request) == [])
    ensures id in Next(s, g, a).requests && Next(s, g, a).requests[id] == g.requests[id]
  {
  }

  /**
   After any run: a request is known exactly if it was submitted; it is the one submitted last with issues, or first if
   none had any; and its outcome is that request's, with the decision of the first acceptable attempt since then.
   */
  lemma {:induction false} OutcomeTellsItsCalls(s: Setting, actions: seq<Action>, id: Id) returns (n: int)
    ensures Told(s, actions, Reach(s, actions), id, n)
  {
    n := 0;
    if actions != [] {
      var k := |actions| - 1;
      n := OutcomeTellsItsCalls(s, actions[..k], id);
      n := StepTells(s, actions[..k], Reach(s, actions[..k]), actions[k], id, n);
      assert actions == actions[..k] + [actions[k]];
    }
  }
}
