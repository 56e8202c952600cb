/** The policy constraints: which plans are blocked before they can reach execution. */
module Policy {
  import opened Wrappers
  import opened Sorting
  import opened Approval

  datatype Constraint = Constraint(
    id: Id, allowed: bool,
    actionTypes: seq<Id>, priorities: seq<Id>, users: seq<Id>, systems: seq<Id>)

  datatype PolicyCheck = PolicyCheck(planId: Id, decisionId: Id, blocked: bool, passed: seq<Id>, failed: seq<Id>)

  predicate Meets(have: set<Id>, wanted: seq<Id>) {
    exists x :: x in wanted && x in have
  }

  function ActionTypes(plan: ActionPlan): set<Id> {
    set s | s in plan.steps :: s.actionType
  }

  predicate Matches(plan: ActionPlan, c: Constraint) {
    if c.actionTypes != [] && !Meets(ActionTypes(plan), c.actionTypes) then false
    else if c.priorities != [] && plan.priority !in c.priorities then false
    else if c.users != [] && !Meets((set u | u in plan.users), c.users) then false
    else if c.systems != [] && !Meets((set s | s in plan.systems), c.systems) then false
    else c.actionTypes != [] || c.priorities != [] || c.users != [] || c.systems != []
  }

  predicate Forbids(c: Constraint, plan: ActionPlan) { !c.allowed && Matches(plan, c) }

  // ------------------------------------------------------- which plans a constraint rules out

  /** A criterion that lists nothing always holds; otherwise something listed must be there. */
  ghost predicate Holds(listed: seq<Id>, there: seq<Id>) {
    listed == [] || exists x :: x in listed && x in there
  }

  ghost predicate TypesHold(listed: seq<Id>, steps: seq<PlanStep>) {
    listed == [] || exists step :: step in steps && step.actionType in listed
  }

  /** The constraint does not allow, has a criterion at all, and each of its criteria holds of the plan. */
  ghost predicate RulesOut(c: Constraint, plan: ActionPlan) {
    && !c.allowed
    && !(c.actionTypes == [] && c.priorities == [] && c.users == [] && c.systems == [])
    && TypesHold(c.actionTypes, plan.steps)
    && Holds(c.priorities, [plan.priority])
    && Holds(c.users, plan.users)
    && Holds(c.systems, plan.systems)
  }

  /** Some constraint rules the plan out. */
  ghost predicate RuledOut(constraints: seq<Constraint>, plan: ActionPlan) {
    exists c :: c in constraints && RulesOut(c, plan)
  }

  lemma TypesHoldIff(listed: seq<Id>, plan: ActionPlan)
    ensures TypesHold(listed, plan.steps) <==> listed == [] || Meets(ActionTypes(plan), listed)
  {
    if step :| step in plan.steps && step.actionType in listed { assert step.actionType in ActionTypes(plan); }
  }

  lemma ForbidsIff(c: Constraint, plan: ActionPlan)
    ensures Forbids(c, plan) <==> RulesOut(c, plan)
  {
    TypesHoldIff(c.actionTypes, plan);
    assert Holds(c.priorities, [plan.priority]) <==> c.priorities == [] || plan.priority in c.priorities by {
      assert plan.priority in [plan.priority];
    }
    assert Holds(c.users, plan.users) <==> c.users == [] || Meets((set u | u in plan.users), c.users);
    assert Holds(c.systems, plan.systems) <==> c.systems == [] || Meets((set u | u in plan.systems), c.systems);
  }

  /** The ids of the constraints that forbid the plan, or of those that do not. */
  function Reported(constraints: seq<Constraint>, plan: ActionPlan, failing: bool): seq<Id> {
    if constraints == [] then [] else
      var c := constraints[|constraints| - 1];
      Reported(constraints[..|constraints| - 1], plan, failing) + if Forbids(c, plan) == failing then [c.id] else []
  }

  function CheckOf(constraints: seq<Constraint>, plan: ActionPlan): PolicyCheck {
    var passed, failed := Reported(constraints, plan, false), Reported(constraints, plan, true);
    PolicyCheck(plan.planId, plan.decisionId, failed != [], Sort(IdLe, passed), Sort(IdLe, failed))
  }

  method Evaluate(constraints: seq<Constraint>, plan: ActionPlan) returns (r: PolicyCheck)
    ensures r == CheckOf(constraints, plan)
  {
    var passed, failed: seq<Id> := [], [];
    for k := 0 to |constraints|
      invariant passed == Reported(constraints[..k], plan, false)
      invariant failed == Reported(constraints[..k], plan, true)
    {
      var c := constraints[k];
      assert constraints[..k + 1][..k] == constraints[..k];
      if !Matches(plan, c) || c.allowed {
        passed := passed + [c.id];
      } else {
        failed := failed + [c.id];
      }
    }
    assert constraints[..|constraints|] == constraints;
    r := PolicyCheck(plan.planId, plan.decisionId, failed != [], Sort(IdLe, passed), Sort(IdLe, failed));
  }

  function ConstraintIds(constraints: seq<Constraint>): seq<Id> {
    if constraints == [] then []
    else ConstraintIds(constraints[..|constraints| - 1]) + [constraints[|constraints| - 1].id]
  }

  lemma {:induction false} ReportedHas(constraints: seq<Constraint>, plan: ActionPlan, failing: bool, i: Id)
    ensures i in Reported(constraints, plan, failing)
            <==> exists c :: c in constraints && c.id == i && Forbids(c, plan) == failing
  {
    if constraints != [] {
      var init, last := constraints[..|constraints| - 1], constraints[|constraints| - 1];
      assert constraints == init + [last];
      ReportedHas(init, plan, failing, i);
    }
  }

  lemma {:induction false} ReportedTogether(constraints: seq<Constraint>, plan: ActionPlan)
    ensures multiset(Reported(constraints, plan, false)) + multiset(Reported(constraints, plan, true))
            == multiset(ConstraintIds(constraints))
  {
    if constraints != [] { ReportedTogether(constraints[..|constraints| - 1], plan); }
  }

  /**
   The plan is blocked exactly when some constraint rules it out. Every constraint is reported once, as passed or
   failed, each list sorted, and it fails exactly when it rules the plan out.
   */
  lemma {:induction false} CheckMeaning(constraints: seq<Constraint>, plan: ActionPlan, i: Id)
    ensures
      var r := CheckOf(constraints, plan);
      && r.planId == plan.planId && r.decisionId == plan.decisionId
      && (r.blocked <==> RuledOut(constraints, plan))
      && multiset(r.passed) + multiset(r.failed) == multiset(ConstraintIds(constraints))
      && (i in r.failed <==> exists c :: c in constraints && c.id == i && RulesOut(c, plan))
      && (i in r.passed <==> exists c :: c in constraints && c.id == i && !RulesOut(c, plan))
      && Sorted(IdLe, r.passed) && Sorted(IdLe, r.failed)
  {
    var passed, failed := Reported(constraints, plan, false), Reported(constraints, plan, true);
    ReportedTogether(constraints, plan);
    forall c ensures Forbids(c, plan) <==> RulesOut(c, plan) { ForbidsIff(c, plan); }
    ReportedHas(constraints, plan, false, i);
    ReportedHas(constraints, plan, true, i);
    SameElements(Sort(IdLe, passed), passed);
    SameElements(Sort(IdLe, failed), failed);
    IdLeTotal();
    SortSorted(IdLe, passed);
    SortSorted(IdLe, failed);
    if failed != [] {
      ReportedHas(constraints, plan, true, failed[0]);
    }
    if c :| c in constraints && RulesOut(c, plan) {
      ReportedHas(constraints, plan, true, c.id);
    }
  }

  lemma IdLeTotal()
    ensures TotalPreorder(IdLe)
  {
    forall a, b ensures IdLe(a, b) || IdLe(b, a) { IdLeLinear(a, b, b); }
    forall a, b, c | IdLe(a, b) && IdLe(b, c) ensures IdLe(a, c) { IdLeLinear(a, b, c); }
  }
}
