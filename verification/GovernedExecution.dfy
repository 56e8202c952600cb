/**
 Governed execution: the policy check, the approval bridge and the execution gateway. An executor is
 foreign code that may call back into any of them before it returns, so a call to the gateway is split
 at the executor: `Begin` writes the record and enters it, `Finish` returns from it, and a stack holds
 the calls in between.
 */
module GovernedExecution {
  import opened Wrappers
  import opened Approval
  import opened Policy

  datatype RecordStatus = Running | Succeeded | Failed | Refused

  datatype Record = Record(actionId: Id, executor: Id, status: RecordStatus)

  /** How a call reached the gateway. */
  datatype Origin =
    | Direct
    | Bridged(workflow: Workflow, plan: ActionPlan)
    | Enforced(workflow: Workflow, plan: ActionPlan)

  /** An executor being entered. */
  datatype Invocation = Invocation(actionId: Id, executor: Id, origin: Origin)

  datatype ExecutionError =
    | NoActionId | NoActionType | NotRegistered | AlreadyExecuted | AlreadyRegistered
    | PolicyBlocked | PlanMismatch | DecisionMismatch | NotApproved | NoHistory | NoApprovalId | NoSteps

  datatype Gateway = Gateway(
    executors: set<Id>, records: map<Id, Record>, stack: seq<Record>, invoked: seq<Invocation>)

  function ExecutionId(actionId: Id): Id { Id("EXEC-" + actionId.text) }
  function RefusalId(actionId: Id): Id { Id("EXEC-" + actionId.text + "-REJECTED") }

  // ------------------------------------------------------- the gateway

  function CanBegin(g: Gateway, actionId: Id, actionType: Id, executor: Id): Result<(), ExecutionError> {
    if actionId.text == "" then Failure(NoActionId)
    else if actionType.text == "" then Failure(NoActionType)
    else if executor !in g.executors then Failure(NotRegistered)
    else if ExecutionId(actionId) in g.records then Failure(AlreadyExecuted)
    else Success(())
  }

  /** The running record is written before the executor is entered. */
  function Begin(g: Gateway, actionId: Id, actionType: Id, executor: Id, origin: Origin): Gateway {
    if CanBegin(g, actionId, actionType, executor).Failure? then g
    else
      var record := Record(actionId, executor, Running);
      g.(records := g.records[ExecutionId(actionId) := record], stack := g.stack + [record],
         invoked := g.invoked + [Invocation(actionId, executor, origin)])
  }

  /** The innermost executor returns, raises, or leaves by an exception the gateway does not catch (None). */
  function Finish(g: Gateway, outcome: Option<bool>): Gateway {
    if g.stack == [] then g
    else
      var top := g.stack[|g.stack| - 1];
      var left := g.(stack := g.stack[..|g.stack| - 1]);
      if outcome.None? then left
      else
        var ended := top.(status := if outcome.value then Succeeded else Failed);
        left.(records := g.records[ExecutionId(top.actionId) := ended])
  }

  /** `execute` with `approved=False`. */
  function Refuse(g: Gateway, actionId: Id, actionType: Id, executor: Id): Gateway {
    if actionId.text == "" || actionType.text == "" then g
    else g.(records := g.records[RefusalId(actionId) := Record(actionId, executor, Refused)])
  }

  // ------------------------------------------------------- the bridge and the enforcer

  /** Everything the bridge checks before it forwards the first step of the plan. */
  function BridgeCheck(w: Workflow, plan: ActionPlan): Result<PlanStep, ExecutionError> {
    if w.planId != plan.planId then Failure(PlanMismatch)
    else if w.decisionId != plan.decisionId then Failure(DecisionMismatch)
    else if w.status != Approved then Failure(NotApproved)
    else if w.history == [] then Failure(NoHistory)
    else if w.history[|w.history| - 1].approvalId.text == "" then Failure(NoApprovalId)
    else if plan.steps == [] then Failure(NoSteps)
    else if plan.steps[0].id.text == "" then Failure(NoActionId)
    else if plan.steps[0].actionType.text == "" then Failure(NoActionType)
    else Success(plan.steps[0])
  }

  function ViaBridge(g: Gateway, w: Workflow, plan: ActionPlan, executor: Id, origin: Origin): Gateway {
    var step := BridgeCheck(w, plan);
    if step.Failure? then g else Begin(g, step.value.id, step.value.actionType, executor, origin)
  }

  function ViaEnforcer(g: Gateway, constraints: seq<Constraint>, w: Workflow, plan: ActionPlan, executor: Id): Gateway {
    if CheckOf(constraints, plan).blocked then g else ViaBridge(g, w, plan, executor, Enforced(w, plan))
  }

  function BridgeAnswer(g: Gateway, w: Workflow, plan: ActionPlan, executor: Id): Result<(), ExecutionError> {
    var step := BridgeCheck(w, plan);
    if step.Failure? then Failure(step.error) else CanBegin(g, step.value.id, step.value.actionType, executor)
  }

  function EnforcerAnswer(g: Gateway, constraints: seq<Constraint>, w: Workflow, plan: ActionPlan, executor: Id)
    : Result<(), ExecutionError>
  {
    if CheckOf(constraints, plan).blocked then Failure(PolicyBlocked) else BridgeAnswer(g, w, plan, executor)
  }

  // ------------------------------------------------------- the objects

  class ActionExecutionGateway {
    var executors: set<Id>
    var records: map<Id, Record>
    /** The calls whose executors have not returned, innermost last. */
    var stack: seq<Record>
    ghost var invoked: seq<Invocation>

    ghost function Contents(): Gateway
      reads this
    {
      Gateway(executors, records, stack, invoked)
    }

    constructor ()
      ensures Contents() == Gateway({}, map[], [], [])
    {
      executors, records, stack := {}, map[], [];
      invoked := [];
    }

    method Register(name: Id) returns (ok: bool)
      modifies this
      ensures ok == (name !in old(executors))
      ensures Contents() == Next([], old(Contents()), DoRegister(name))
      ensures Contents() == old(Contents()).(executors := old(executors) + {name})
    {
      if name in executors {
        assert executors == executors + {name};
        return false;
      }
      executors := executors + {name};
      ok := true;
    }

    method Unregister(name: Id)
      modifies this
      ensures Contents() == Next([], old(Contents()), DoUnregister(name))
      ensures Contents() == old(Contents()).(executors := old(executors) - {name})
    {
      executors := executors - {name};
    }

    method BeginExecution(actionId: Id, actionType: Id, executor: Id, ghost origin: Origin)
      returns (r: Result<(), ExecutionError>)
      modifies this
      ensures r == CanBegin(old(Contents()), actionId, actionType, executor)
      ensures Contents() == Begin(old(Contents()), actionId, actionType, executor, origin)
      ensures r.Success? <==>
                && actionId.text != "" && actionType.text != "" && executor in old(executors)
                && Id("EXEC-" + actionId.text) !in old(records)
      ensures r == Failure(NoActionId) <==> actionId.text == ""
      ensures r == Failure(NoActionType) <==> actionId.text != "" && actionType.text == ""
      ensures r == Failure(NotRegistered)
              <==> actionId.text != "" && actionType.text != "" && executor !in old(executors)
      ensures r.Failure? ==> r.error in {NoActionId, NoActionType, NotRegistered, AlreadyExecuted}
      ensures executors == old(executors)
      ensures r.Failure? ==> records == old(records) && stack == old(stack) && invoked == old(invoked)
      ensures r.Success? ==>
                && records == old(records)[Id("EXEC-" + actionId.text) := Record(actionId, executor, Running)]
                && stack == old(stack) + [Record(actionId, executor, Running)]
                && invoked == old(invoked) + [Invocation(actionId, executor, origin)]
    {
      if actionId.text == "" {
        return Failure(NoActionId);
      }
      if actionType.text == "" {
        return Failure(NoActionType);
      }
      if executor !in executors {
        return Failure(NotRegistered);
      }
      var executionId := ExecutionId(actionId);
      if executionId in records {
        return Failure(AlreadyExecuted);
      }
      var record := Record(actionId, executor, Running);
      records := records[executionId := record];
      stack := stack + [record];
      invoked := invoked + [Invocation(actionId, executor, origin)];
      r := Success(());
    }

    method FinishExecution(outcome: Option<bool>)
      modifies this
      ensures Contents() == Finish(old(Contents()), outcome)
      ensures executors == old(executors) && invoked == old(invoked)
      ensures stack == if old(stack) == [] then [] else old(stack)[..|old(stack)| - 1]
      ensures
        if old(stack) == [] || outcome.None? then records == old(records)
        else
          var top := old(stack)[|old(stack)| - 1];
          records == old(records)[Id("EXEC-" + top.actionId.text) :=
                                    top.(status := if outcome == Some(true) then Succeeded else Failed)]
    {
      if stack == [] {
        return;
      }
      var top := stack[|stack| - 1];
      stack := stack[..|stack| - 1];
      if outcome.Some? {
        records := records[ExecutionId(top.actionId) := top.(status := if outcome.value then Succeeded else Failed)];
      }
    }

    method RefuseExecution(actionId: Id, actionType: Id, executor: Id)
      modifies this
      ensures Contents() == Refuse(old(Contents()), actionId, actionType, executor)
      ensures executors == old(executors) && stack == old(stack) && invoked == old(invoked)
      ensures
        if actionId.text == "" || actionType.text == "" then records == old(records)
        else records == old(records)[Id("EXEC-" + actionId.text + "-REJECTED") := Record(actionId, executor, Refused)]
    {
      if actionId.text != "" && actionType.text != "" {
        records := records[RefusalId(actionId) := Record(actionId, executor, Refused)];
      }
    }
  }

  class ExecutionPolicyEnforcer {
    const constraints: seq<Constraint>
    const gateway: ActionExecutionGateway

    constructor (constraints: seq<Constraint>, gateway: ActionExecutionGateway)
      ensures this.constraints == constraints && this.gateway == gateway
    {
      this.constraints, this.gateway := constraints, gateway;
    }

    method Execute(w: Workflow, plan: ActionPlan, executor: Id) returns (r: Result<(), ExecutionError>)
      modifies gateway
      ensures gateway.Contents() == ViaEnforcer(old(gateway.Contents()), constraints, w, plan, executor)
      ensures r == EnforcerAnswer(old(gateway.Contents()), constraints, w, plan, executor)
    {
      var check := Evaluate(constraints, plan);
      if check.blocked {
        return Failure(PolicyBlocked);
      }
      var step := BridgeCheck(w, plan);
      if step.Failure? {
        return Failure(step.error);
      }
      r := gateway.BeginExecution(step.value.id, step.value.actionType, executor, Enforced(w, plan));
    }
  }

  // ------------------------------------------------------- whole runs

  datatype Action =
    | DoRegister(name: Id)
    | DoUnregister(name: Id)
    | DoEnforce(workflow: Workflow, plan: ActionPlan, executor: Id)
    | DoBridge(workflow: Workflow, plan: ActionPlan, executor: Id)
    | DoExecute(actionId: Id, actionType: Id, executor: Id)
    | DoRefuse(actionId: Id, actionType: Id, executor: Id)
    | DoReturn(outcome: Option<bool>)

  function Next(constraints: seq<Constraint>, g: Gateway, a: Action): Gateway {
    match a
    case DoRegister(name) => g.(executors := g.executors + {name})
    case DoUnregister(name) => g.(executors := g.executors - {name})
    case DoEnforce(w, plan, executor) => ViaEnforcer(g, constraints, w, plan, executor)
    case DoBridge(w, plan, executor) => ViaBridge(g, w, plan, executor, Bridged(w, plan))
    case DoExecute(actionId, actionType, executor) => Begin(g, actionId, actionType, executor, Direct)
    case DoRefuse(actionId, actionType, executor) => Refuse(g, actionId, actionType, executor)
    case DoReturn(outcome) => Finish(g, outcome)
  }

  /** Any sequence of calls and returns; a call made while the stack is not empty is made by an executor. */
  function Reach(constraints: seq<Constraint>, actions: seq<Action>): Gateway {
    if actions == [] then Gateway({}, map[], [], [])
    else Next(constraints, Reach(constraints, actions[..|actions| - 1]), actions[|actions| - 1])
  }

  /** What stands behind an invocation. */
  ghost predicate Authorized(constraints: seq<Constraint>, i: Invocation) {
    match i.origin
    case Direct => true
    case Bridged(w, plan) => Backed(w, plan, i.actionId)
    case Enforced(w, plan) => Backed(w, plan, i.actionId) && !RuledOut(constraints, plan)
  }

  /**
   The workflow belongs to the plan, is approved, its last recorded decision has an id, and the action is the plan's
   first step.
   */
  ghost predicate Backed(w: Workflow, plan: ActionPlan, actionId: Id) {
    && w.planId == plan.planId && w.decisionId == plan.decisionId && w.status == Approved && w.history != []
    && w.history[|w.history| - 1].approvalId.text != ""
    && plan.steps != [] && plan.steps[0].id == actionId
  }

  ghost predicate Governed(constraints: seq<Constraint>, g: Gateway) {
    && (forall i | i in g.invoked :: ExecutionId(i.actionId) in g.records && Authorized(constraints, i))
    && (forall m, n | 0 <= m < n < |g.invoked| :: g.invoked[m].actionId != g.invoked[n].actionId)
  }

  lemma ExecutionIdInjective(a: Id, b: Id)
    requires ExecutionId(a) == ExecutionId(b)
    ensures a == b
  {
    assert ("EXEC-" + a.text)[5..] == a.text && ("EXEC-" + b.text)[5..] == b.text;
  }

  lemma BeginKeepsGoverned(constraints: seq<Constraint>, g: Gateway, actionId: Id, actionType: Id, executor: Id,
      origin: Origin)
    requires Governed(constraints, g) && Authorized(constraints, Invocation(actionId, executor, origin))
    ensures Governed(constraints, Begin(g, actionId, actionType, executor, origin))
  {
  }

  lemma BridgeKeepsGoverned(constraints: seq<Constraint>, g: Gateway, w: Workflow, plan: ActionPlan, executor: Id,
      origin: Origin)
    requires Governed(constraints, g)
    requires origin == Bridged(w, plan) || (origin == Enforced(w, plan) && !RuledOut(constraints, plan))
    ensures Governed(constraints, ViaBridge(g, w, plan, executor, origin))
  {
    if BridgeCheck(w, plan).Success? {
      BeginKeepsGoverned(constraints, g, plan.steps[0].id, plan.steps[0].actionType, executor, origin);
    }
  }

  lemma EnforcerKeepsGoverned(constraints: seq<Constraint>, g: Gateway, w: Workflow, plan: ActionPlan, executor: Id)
    requires Governed(constraints, g)
    ensures Governed(constraints, ViaEnforcer(g, constraints, w, plan, executor))
  {
    CheckMeaning(constraints, plan, plan.planId);
    if !RuledOut(constraints, plan) {
      BridgeKeepsGoverned(constraints, g, w, plan, executor, Enforced(w, plan));
    }
  }

  /**
   Over any run, with executors that call back into the enforcer, the bridge or the gateway: an
   executor is entered at most once per action id, and when it is entered through the enforcer no
   constraint rules the plan out and the plan's workflow is approved with a recorded decision.
   */
  lemma {:induction false} AtMostOnceAndAuthorized(constraints: seq<Constraint>, actions: seq<Action>)
    ensures Governed(constraints, Reach(constraints, actions))
  {
    if actions != [] {
      var n := |actions| - 1;
      AtMostOnceAndAuthorized(constraints, actions[..n]);
      StepKeepsGoverned(constraints, Reach(constraints, actions[..n]), actions[n]);
    }
  }

  lemma StepKeepsGoverned(constraints: seq<Constraint>, g: Gateway, a: Action)
    requires Governed(constraints, g)
    ensures Governed(constraints, Next(constraints, g, a))
  {
    match a {
      case DoEnforce(w, plan, executor) => EnforcerKeepsGoverned(constraints, g, w, plan, executor);
      case DoBridge(w, plan, executor) => BridgeKeepsGoverned(constraints, g, w, plan, executor, Bridged(w, plan));
      case DoExecute(actionId, actionType, executor) =>
        BeginKeepsGoverned(constraints, g, actionId, actionType, executor, Direct);
      case _ =>
    }
  }

  /** When the workflow came from the approval engine, the decision behind an execution is one approval of that plan. */
  lemma {:induction false} EnforcedMeansOneApproval(constraints: seq<Constraint>, actions: seq<Action>,
      i: Invocation, made: ActionPlan, attempts: seq<Attempt>)
    requires i in Reach(constraints, actions).invoked && i.origin.Enforced?
    requires i.origin.workflow == Decided(made, attempts)
    ensures made.planId == i.origin.plan.planId && !RuledOut(constraints, i.origin.plan)
    ensures |i.origin.workflow.history| == 1 && i.origin.workflow.history[0].status == Approved
    ensures exists n :: FirstAcceptable(attempts, n) && attempts[n].Approve?
  {
    AtMostOnceAndAuthorized(constraints, actions);
    FirstDecisionStands(made, attempts);
    var n :| FirstAcceptable(attempts, n) && Decided(made, attempts).status == StatusOf(attempts[n]);
  }

  // ------------------------------------------------------- what the enforcer answers

  /** What the bridge may object to: the error names what is the case. */
  ghost predicate BridgeObjects(w: Workflow, plan: ActionPlan, e: ExecutionError) {
    match e
    case PlanMismatch => w.planId != plan.planId
    case DecisionMismatch => w.decisionId != plan.decisionId
    case NotApproved => w.status != Approved
    case NoHistory => w.history == []
    case NoApprovalId => w.history != [] && w.history[|w.history| - 1].approvalId.text == ""
    case NoSteps => plan.steps == []
    case NoActionId => plan.steps != [] && plan.steps[0].id.text == ""
    case NoActionType => plan.steps != [] && plan.steps[0].actionType.text == ""
    case _ => false
  }

  /** The error has a reason, with the enforcer, the bridge or the gateway. */
  ghost predicate Objects(g: Gateway, constraints: seq<Constraint>, w: Workflow, plan: ActionPlan, executor: Id,
      e: ExecutionError)
  {
    || BridgeObjects(w, plan, e)
    || (e == PolicyBlocked && RuledOut(constraints, plan))
    || (e == NotRegistered && executor !in g.executors)
    || (e == AlreadyExecuted && plan.steps != [] && Id("EXEC-" + plan.steps[0].id.text) in g.records)
  }

  /** The place of an error in the order of the checks. */
  ghost function Rank(e: ExecutionError): nat {
    match e
    case PolicyBlocked => 0
    case PlanMismatch => 1
    case DecisionMismatch => 2
    case NotApproved => 3
    case NoHistory => 4
    case NoApprovalId => 5
    case NoSteps => 6
    case NoActionId => 7
    case NoActionType => 8
    case NotRegistered => 9
    case AlreadyExecuted => 10
    case AlreadyRegistered => 11
  }

  lemma BridgeObjectionRefuses(w: Workflow, plan: ActionPlan, e: ExecutionError)
    requires BridgeObjects(w, plan, e)
    ensures BridgeCheck(w, plan).Failure? && Rank(BridgeCheck(w, plan).error) <= Rank(e)
  {
  }

  lemma BridgeRefusalObjects(w: Workflow, plan: ActionPlan)
    ensures BridgeCheck(w, plan).Failure? ==>
              BridgeObjects(w, plan, BridgeCheck(w, plan).error) && Rank(BridgeCheck(w, plan).error) <= 8
    ensures BridgeCheck(w, plan).Success? ==>
              plan.steps != [] && BridgeCheck(w, plan).value == plan.steps[0]
              && plan.steps[0].id.text != "" && plan.steps[0].actionType.text != ""
  {
  }

  lemma GatewayObjectionIsAnswered(g: Gateway, w: Workflow, plan: ActionPlan, executor: Id, e: ExecutionError)
    requires BridgeObjects(w, plan, e) || (e == NotRegistered && executor !in g.executors)
             || (e == AlreadyExecuted && plan.steps != [] && Id("EXEC-" + plan.steps[0].id.text) in g.records)
    ensures BridgeAnswer(g, w, plan, executor).Failure?
    ensures Rank(BridgeAnswer(g, w, plan, executor).error) <= Rank(e)
  {
    var step := BridgeCheck(w, plan);
    BridgeRefusalObjects(w, plan);
    if BridgeObjects(w, plan, e) {
      BridgeObjectionRefuses(w, plan, e);
      assert BridgeAnswer(g, w, plan, executor) == Failure(step.error);
    } else if step.Failure? {
      assert BridgeAnswer(g, w, plan, executor) == Failure(step.error);
      assert Rank(step.error) <= 8;
    } else {
      assert BridgeAnswer(g, w, plan, executor) == CanBegin(g, step.value.id, step.value.actionType, executor);
    }
  }

  /** The policy decides first. */
  lemma EnforcerForwards(g: Gateway, constraints: seq<Constraint>, w: Workflow, plan: ActionPlan, executor: Id)
    ensures EnforcerAnswer(g, constraints, w, plan, executor)
            == if RuledOut(constraints, plan) then Failure(PolicyBlocked) else BridgeAnswer(g, w, plan, executor)
  {
    CheckMeaning(constraints, plan, plan.planId);
  }

  lemma PolicyRanksFirst(blocked: bool, bridge: Result<(), ExecutionError>, e: ExecutionError)
    requires blocked || (bridge.Failure? && Rank(bridge.error) <= Rank(e))
    ensures
      var r := if blocked then Failure(PolicyBlocked) else bridge;
      r.Failure? && Rank(r.error) <= Rank(e)
  {
  }

  /** An error that has a reason is answered, or an earlier one is. */
  lemma ObjectionIsAnswered(g: Gateway, constraints: seq<Constraint>, w: Workflow, plan: ActionPlan, executor: Id,
      e: ExecutionError)
    requires Objects(g, constraints, w, plan, executor, e)
    ensures EnforcerAnswer(g, constraints, w, plan, executor).Failure?
    ensures Rank(EnforcerAnswer(g, constraints, w, plan, executor).error) <= Rank(e)
  {
    var blocked := RuledOut(constraints, plan);
    EnforcerForwards(g, constraints, w, plan, executor);
    if !blocked { GatewayObjectionIsAnswered(g, w, plan, executor, e); }
    PolicyRanksFirst(blocked, BridgeAnswer(g, w, plan, executor), e);
  }

  /** What is answered has a reason. */
  lemma AnswerObjects(g: Gateway, constraints: seq<Constraint>, w: Workflow, plan: ActionPlan, executor: Id)
    requires EnforcerAnswer(g, constraints, w, plan, executor).Failure?
    ensures Objects(g, constraints, w, plan, executor, EnforcerAnswer(g, constraints, w, plan, executor).error)
    ensures ViaEnforcer(g, constraints, w, plan, executor) == g
  {
    CheckMeaning(constraints, plan, plan.planId);
    BridgeRefusalObjects(w, plan);
  }

  lemma NoErrorEnters(g: Gateway, constraints: seq<Constraint>, w: Workflow, plan: ActionPlan, executor: Id)
    requires EnforcerAnswer(g, constraints, w, plan, executor).Success?
    ensures plan.steps != []
    ensures
      var record := Record(plan.steps[0].id, executor, Running);
      ViaEnforcer(g, constraints, w, plan, executor)
      == Gateway(g.executors, g.records[Id("EXEC-" + plan.steps[0].id.text) := record], g.stack + [record],
                 g.invoked + [Invocation(plan.steps[0].id, executor, Enforced(w, plan))])
  {
  }

  /**
   The enforcer answers with the first error that has a reason, and then the gateway is as it was; so it answers
   "blocked by policy" exactly when some constraint rules the plan out. It enters the executor exactly when no error
   has a reason.
   */
  lemma EnforcerAnswers(g: Gateway, constraints: seq<Constraint>, w: Workflow, plan: ActionPlan, executor: Id)
    ensures
      var r, after := EnforcerAnswer(g, constraints, w, plan, executor), ViaEnforcer(g, constraints, w, plan, executor);
      && (r == Failure(PolicyBlocked) <==> RuledOut(constraints, plan))
      && (r.Failure? ==>
            && after == g && Objects(g, constraints, w, plan, executor, r.error)
            && forall e | Objects(g, constraints, w, plan, executor, e) :: Rank(r.error) <= Rank(e))
      && (r.Success? <==> forall e :: !Objects(g, constraints, w, plan, executor, e))
      && (r.Success? ==>
            && plan.steps != []
            && var record := Record(plan.steps[0].id, executor, Running);
            after == Gateway(g.executors, g.records[Id("EXEC-" + plan.steps[0].id.text) := record], g.stack + [record],
                             g.invoked + [Invocation(plan.steps[0].id, executor, Enforced(w, plan))]))
  {
    var r := EnforcerAnswer(g, constraints, w, plan, executor);
    CheckMeaning(constraints, plan, plan.planId);
    BridgeRefusalObjects(w, plan);
    forall e | Objects(g, constraints, w, plan, executor, e) ensures r.Failure? && Rank(r.error) <= Rank(e) {
      ObjectionIsAnswered(g, constraints, w, plan, executor, e);
    }
    if r.Failure? {
      AnswerObjects(g, constraints, w, plan, executor);
    } else {
      NoErrorEnters(g, constraints, w, plan, executor);
    }
  }

  // ------------------------------------------------------- finished records

  predicate EndsRejected(id: Id) {
    |id.text| > 9 && id.text[|id.text| - 9..] == "-REJECTED"
  }

  /** A call still on the stack has its running record, and no action is on the stack twice. */
  ghost predicate StackSound(g: Gateway) {
    && (forall r | r in g.stack ::
          && r.status == Running && ExecutionId(r.actionId) in g.records
          && g.records[ExecutionId(r.actionId)].status in {Running, Refused}
          && (EndsRejected(r.actionId) || g.records[ExecutionId(r.actionId)] == r))
    && (forall m, n | 0 <= m < n < |g.stack| :: g.stack[m].actionId != g.stack[n].actionId)
  }

  ghost predicate Finished(g: Gateway, a: Id) {
    ExecutionId(a) in g.records && g.records[ExecutionId(a)].status in {Succeeded, Failed}
  }

  lemma RefusalKey(x: Id, a: Id)
    ensures RefusalId(x) == ExecutionId(a) <==> a.text == x.text + "-REJECTED"
    ensures RefusalId(x) == ExecutionId(a) && x.text != "" ==> EndsRejected(a)
  {
    assert "EXEC-" + x.text + "-REJECTED" == "EXEC-" + (x.text + "-REJECTED");
    if RefusalId(x) == ExecutionId(a) {
      assert ("EXEC-" + (x.text + "-REJECTED"))[5..] == x.text + "-REJECTED" && ("EXEC-" + a.text)[5..] == a.text;
    }
  }

  /**
   A refusal rewrites the finished record of an action exactly when that action's id is the refused id plus
   "-REJECTED".
   */
  lemma RefusalOverwritesIff(g: Gateway, x: Id, actionType: Id, executor: Id, a: Id)
    requires Finished(g, a)
    ensures !Finished(Refuse(g, x, actionType, executor), a)
            <==> x.text != "" && actionType.text != "" && a.text == x.text + "-REJECTED"
  {
    RefusalKey(x, a);
  }

  lemma ReachNext(constraints: seq<Constraint>, actions: seq<Action>, a: Action)
    ensures Reach(constraints, actions + [a]) == Next(constraints, Reach(constraints, actions), a)
  {
    assert (actions + [a])[..|actions|] == actions;
  }

  /**
   For any refused id: an action whose id is that id and "-REJECTED" succeeds, and the refusal overwrites its
   record.
   */
  lemma RefusalCanOverwrite(constraints: seq<Constraint>, x: Id, actionType: Id, executor: Id)
    returns (before: seq<Action>, a: Id)
    requires x.text != "" && actionType.text != ""
    ensures ExecutionId(a) in Reach(constraints, before).records
    ensures Reach(constraints, before).records[ExecutionId(a)].status == Succeeded
    ensures
      var after := Reach(constraints, before + [DoRefuse(x, actionType, executor)]);
      ExecutionId(a) in after.records && after.records[ExecutionId(a)] == Record(x, executor, Refused)
  {
    a := Id(x.text + "-REJECTED");
    RefusalKey(x, a);
    ReachNext(constraints, [], DoRegister(executor));
    before := [] + [DoRegister(executor)];
    ReachNext(constraints, before, DoExecute(a, actionType, executor));
    before := before + [DoExecute(a, actionType, executor)];
    ReachNext(constraints, before, DoReturn(Some(true)));
    before := before + [DoReturn(Some(true))];
    ReachNext(constraints, before, DoRefuse(x, actionType, executor));
  }

  lemma StepKeepsStack(constraints: seq<Constraint>, g: Gateway, a: Action)
    requires StackSound(g)
    ensures StackSound(Next(constraints, g, a))
  {
    match a {
      case DoReturn(outcome) => ReturnKeepsStack(g, outcome);
      case DoRefuse(x, actionType, executor) => RefuseKeepsStack(g, x, actionType, executor);
      case DoEnforce(w, plan, executor) => BridgeKeepsStack(g, w, plan, executor, Enforced(w, plan));
      case DoBridge(w, plan, executor) => BridgeKeepsStack(g, w, plan, executor, Bridged(w, plan));
      case DoExecute(actionId, actionType, executor) => EnterKeepsStack(g, actionId, actionType, executor, Direct);
      case _ =>
    }
  }

  lemma RefuseKeepsStack(g: Gateway, x: Id, actionType: Id, executor: Id)
    requires StackSound(g)
    ensures StackSound(Refuse(g, x, actionType, executor))
  {
    forall r | r in g.stack { RefusalKey(x, r.actionId); }
  }

  lemma EnterKeepsStack(g: Gateway, actionId: Id, actionType: Id, executor: Id, origin: Origin)
    requires StackSound(g)
    ensures StackSound(Begin(g, actionId, actionType, executor, origin))
  {
    forall r | r in g.stack && ExecutionId(r.actionId) == ExecutionId(actionId) {
      ExecutionIdInjective(r.actionId, actionId);
    }
  }

  lemma BridgeKeepsStack(g: Gateway, w: Workflow, plan: ActionPlan, executor: Id, origin: Origin)
    requires StackSound(g)
    ensures StackSound(ViaBridge(g, w, plan, executor, origin))
  {
    if BridgeCheck(w, plan).Success? {
      EnterKeepsStack(g, plan.steps[0].id, plan.steps[0].actionType, executor, origin);
    }
  }

  lemma ReturnKeepsStack(g: Gateway, outcome: Option<bool>)
    requires StackSound(g)
    ensures StackSound(Finish(g, outcome))
  {
    if g.stack != [] {
      var n := |g.stack| - 1;
      forall m | 0 <= m < n ensures ExecutionId(g.stack[m].actionId) != ExecutionId(g.stack[n].actionId) {
        if ExecutionId(g.stack[m].actionId) == ExecutionId(g.stack[n].actionId) {
          ExecutionIdInjective(g.stack[m].actionId, g.stack[n].actionId);
        }
      }
      forall r | r in g.stack[..n] ensures exists m :: 0 <= m < n && g.stack[m] == r {
        var m :| 0 <= m < |g.stack[..n]| && g.stack[..n][m] == r;
        assert g.stack[m] == r;
      }
    }
  }

  /** The record of `id` is there and is the same. */
  ghost predicate Kept(before: Gateway, after: Gateway, id: Id)
    requires ExecutionId(id) in before.records
  {
    ExecutionId(id) in after.records && after.records[ExecutionId(id)] == before.records[ExecutionId(id)]
  }

  /** The call refuses an action whose refusal record has the key of this action's record. */
  predicate Overwrites(a: Action, id: Id) {
    a.DoRefuse? && a.actionId.text != "" && a.actionType.text != "" && id.text == a.actionId.text + "-REJECTED"
  }

  lemma ReturnKeepsFinished(g: Gateway, outcome: Option<bool>, id: Id)
    requires StackSound(g) && Finished(g, id)
    ensures Kept(g, Finish(g, outcome), id)
  {
    if g.stack != [] {
      var top := g.stack[|g.stack| - 1];
      assert top in g.stack;
      if ExecutionId(top.actionId) == ExecutionId(id) { ExecutionIdInjective(top.actionId, id); }
    }
  }

  lemma RefuseKeepsFinishedIff(g: Gateway, x: Id, actionType: Id, executor: Id, id: Id)
    requires Finished(g, id)
    ensures Kept(g, Refuse(g, x, actionType, executor), id) <==> !Overwrites(DoRefuse(x, actionType, executor), id)
  {
    RefusalKey(x, id);
  }

  lemma BridgeKeepsFinished(g: Gateway, w: Workflow, plan: ActionPlan, executor: Id, origin: Origin, id: Id)
    requires Finished(g, id)
    ensures Kept(g, ViaBridge(g, w, plan, executor, origin), id)
  {
  }

  lemma StepKeepsFinishedIff(constraints: seq<Constraint>, g: Gateway, a: Action, id: Id)
    requires StackSound(g) && Finished(g, id)
    ensures Kept(g, Next(constraints, g, a), id) <==> !Overwrites(a, id)
  {
    match a {
      case DoReturn(outcome) => ReturnKeepsFinished(g, outcome, id);
      case DoRefuse(x, actionType, executor) => RefuseKeepsFinishedIff(g, x, actionType, executor, id);
      case DoEnforce(w, plan, executor) => BridgeKeepsFinished(g, w, plan, executor, Enforced(w, plan), id);
      case DoBridge(w, plan, executor) => BridgeKeepsFinished(g, w, plan, executor, Bridged(w, plan), id);
      case _ =>
    }
  }

  lemma {:induction false} StackAlwaysSound(constraints: seq<Constraint>, actions: seq<Action>)
    ensures StackSound(Reach(constraints, actions))
  {
    if actions != [] {
      var n := |actions| - 1;
      StackAlwaysSound(constraints, actions[..n]);
      StepKeepsStack(constraints, Reach(constraints, actions[..n]), actions[n]);
    }
  }

  /** From call m on, up to call k, the record of `id` is what it was at m. */
  ghost predicate KeptFrom(constraints: seq<Constraint>, actions: seq<Action>, m: nat, k: nat, id: Id)
    requires m <= k <= |actions| && Finished(Reach(constraints, actions[..m]), id)
  {
    forall n | m <= n <= k :: Kept(Reach(constraints, actions[..m]), Reach(constraints, actions[..n]), id)
  }

  lemma KeptOneMore(constraints: seq<Constraint>, actions: seq<Action>, m: nat, k: nat, id: Id)
    requires m <= k < |actions| && Finished(Reach(constraints, actions[..m]), id)
    requires KeptFrom(constraints, actions, m, k, id)
    ensures KeptFrom(constraints, actions, m, k + 1, id) <==> !Overwrites(actions[k], id)
  {
    var g := Reach(constraints, actions[..k]);
    assert actions[..k + 1] == actions[..k] + [actions[k]];
    ReachNext(constraints, actions[..k], actions[k]);
    StackAlwaysSound(constraints, actions[..k]);
    assert Kept(Reach(constraints, actions[..m]), g, id);
    StepKeepsFinishedIff(constraints, g, actions[k], id);
  }

  /**
   Over any run, from any point at which an action's record is succeeded or failed: the record stays what it is
   exactly until a refusal names the id that, followed by "-REJECTED", is the action's own id.
   */
  lemma {:induction false} FinishedRecordsStandIff(
    constraints: seq<Constraint>, actions: seq<Action>, m: nat, k: nat, id: Id)
    requires m <= k <= |actions| && Finished(Reach(constraints, actions[..m]), id)
    ensures KeptFrom(constraints, actions, m, k, id) <==> forall n | m <= n < k :: !Overwrites(actions[n], id)
    decreases k
  {
    if k > m {
      FinishedRecordsStandIff(constraints, actions, m, k - 1, id);
      if KeptFrom(constraints, actions, m, k - 1, id) { KeptOneMore(constraints, actions, m, k - 1, id); }
    }
  }

  /** In particular a finished record never changes if the action's id does not end in "-REJECTED". */
  lemma FinishedRecordsAreFinal(constraints: seq<Constraint>, actions: seq<Action>, m: nat, id: Id)
    requires m <= |actions| && Finished(Reach(constraints, actions[..m]), id) && !EndsRejected(id)
    ensures Kept(Reach(constraints, actions[..m]), Reach(constraints, actions), id)
  {
    forall n | m <= n < |actions| ensures !Overwrites(actions[n], id) {
      if actions[n].DoRefuse? { RefusalKey(actions[n].actionId, id); }
    }
    FinishedRecordsStandIff(constraints, actions, m, |actions|, id);
    assert actions[..|actions|] == actions;
    assert Kept(Reach(constraints, actions[..m]), Reach(constraints, actions[..|actions|]), id);
  }
}
