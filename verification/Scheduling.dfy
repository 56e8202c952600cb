/** The execution scheduler: it freezes a dependency order into a schedule with a small life cycle. */
module Scheduling {
  import opened Wrappers
  import opened Layering
  import opened Plans
  import opened DependencyOrder

  /** A datetime: its instant, whether it carries a time zone, and its local time as printed. */
  datatype Moment = Moment(instant: int, aware: bool, stamp: string)

  datatype Status = Scheduled | Ready | Cancelled | Completed

  datatype Schedule = Schedule(
    id: Id, planId: Id, scheduledAt: Moment, createdAt: Moment,
    status: Status, ordered: seq<Id>, levels: seq<seq<Id>>)

  datatype SchedulingError =
    NaiveTime | ScheduledBeforeCreated | OrderRefused(error: OrderError) | BlockedActions | MissingDependencies
    | UnknownSchedule | NotReady

  /** What the scheduler and the dependency engine it shares have stored. */
  datatype World = World(orders: map<Id, ExecutionOrder>, schedules: map<Id, Schedule>)

  datatype Call =
    | CallOrder(plan: Plan)
    | CallSchedule(plan: Plan, at: Moment, created: Moment)
    | CallReady(id: Id, now: Moment)
    | CallCancel(id: Id)
    | CallComplete(id: Id)

  function ScheduleId(planId: Id, at: Moment): Id {
    Id("SCHED-" + planId.text + "-" + at.stamp)
  }

  // ------------------------------------------------------- what each call does

  function LookupOrder(orders: map<Id, ExecutionOrder>, plan: Plan): Result<ExecutionOrder, OrderError> {
    if OrderId(plan.id) in orders then Success(orders[OrderId(plan.id)]) else OrderOf(plan)
  }

  function AfterOrder(orders: map<Id, ExecutionOrder>, plan: Plan): map<Id, ExecutionOrder> {
    if OrderId(plan.id) !in orders && OrderOf(plan).Success? then orders[OrderId(plan.id) := OrderOf(plan).value]
    else orders
  }

  /** The answer of `schedule`, given the order the dependency engine returns. */
  function ScheduleAnswer(w: World, plan: Plan, at: Moment, created: Moment): Result<Schedule, SchedulingError> {
    var order := LookupOrder(w.orders, plan);
    var id := ScheduleId(plan.id, at);
    if !at.aware || !created.aware then Failure(NaiveTime)
    else if at.instant < created.instant then Failure(ScheduledBeforeCreated)
    else if order.Failure? then Failure(OrderRefused(order.error))
    else if order.value.blocked != [] then Failure(BlockedActions)
    else if order.value.missing != [] then Failure(MissingDependencies)
    else if id in w.schedules then Success(w.schedules[id])
    else Success(Schedule(id, plan.id, at, created, Scheduled, order.value.ordered, order.value.levels))
  }

  /** The order is computed only once the two times have been accepted. */
  function OrdersAfterSchedule(w: World, plan: Plan, at: Moment, created: Moment): map<Id, ExecutionOrder> {
    if at.aware && created.aware && at.instant >= created.instant then AfterOrder(w.orders, plan) else w.orders
  }

  function ReadyAnswer(w: World, id: Id, now: Moment): Result<Schedule, SchedulingError> {
    if id !in w.schedules then Failure(UnknownSchedule)
    else if !now.aware then Failure(NaiveTime)
    else
      var s := w.schedules[id];
      Success(if s.status == Scheduled && now.instant >= s.scheduledAt.instant then s.(status := Ready) else s)
  }

  function CancelAnswer(w: World, id: Id): Result<Schedule, SchedulingError> {
    if id !in w.schedules then Failure(UnknownSchedule)
    else
      var s := w.schedules[id];
      Success(if s.status in {Completed, Cancelled} then s else s.(status := Cancelled))
  }

  function CompleteAnswer(w: World, id: Id): Result<Schedule, SchedulingError> {
    if id !in w.schedules then Failure(UnknownSchedule)
    else if w.schedules[id].status != Ready then Failure(NotReady)
    else Success(w.schedules[id].(status := Completed))
  }

  function Stored(schedules: map<Id, Schedule>, answer: Result<Schedule, SchedulingError>, id: Id): map<Id, Schedule> {
    if answer.Success? then schedules[id := answer.value] else schedules
  }

  function Step(w: World, call: Call): World {
    match call
    case CallOrder(plan) => w.(orders := AfterOrder(w.orders, plan))
    case CallSchedule(plan, at, created) =>
      World(OrdersAfterSchedule(w, plan, at, created),
            Stored(w.schedules, ScheduleAnswer(w, plan, at, created), ScheduleId(plan.id, at)))
    case CallReady(id, now) => w.(schedules := Stored(w.schedules, ReadyAnswer(w, id, now), id))
    case CallCancel(id) => w.(schedules := Stored(w.schedules, CancelAnswer(w, id), id))
    case CallComplete(id) => w.(schedules := Stored(w.schedules, CompleteAnswer(w, id), id))
  }

  // ------------------------------------------------------- the engine

  class SchedulingEngine {
    const engine: DependencyEngine
    var schedules: map<Id, Schedule>

    constructor (engine: DependencyEngine)
      ensures this.engine == engine && schedules == map[]
    {
      this.engine := engine;
      schedules := map[];
    }

    ghost function Contents(): World
      reads this, engine
    {
      World(engine.orders, schedules)
    }

    method SchedulePlan(plan: Plan, at: Moment, created: Moment) returns (r: Result<Schedule, SchedulingError>)
      modifies this, engine
      ensures r == ScheduleAnswer(old(Contents()), plan, at, created)
      ensures Contents() == Step(old(Contents()), CallSchedule(plan, at, created))
      ensures
        var id := Id("SCHED-" + plan.id.text + "-" + at.stamp);
        && schedules == (if r.Success? then old(schedules)[id := r.value] else old(schedules))
        && (r.Success? && id in old(schedules) ==> r.value == old(schedules)[id])
    {
      if !at.aware || !created.aware {
        return Failure(NaiveTime);
      }
      if at.instant < created.instant {
        return Failure(ScheduledBeforeCreated);
      }
      var order := engine.Order(plan);
      if order.Failure? {
        return Failure(OrderRefused(order.error));
      }
      if order.value.blocked != [] {
        return Failure(BlockedActions);
      }
      if order.value.missing != [] {
        return Failure(MissingDependencies);
      }
      var id := ScheduleId(plan.id, at);
      if id in schedules {
        return Success(schedules[id]);
      }
      var schedule := Schedule(id, plan.id, at, created, Scheduled, order.value.ordered, order.value.levels);
      schedules := schedules[id := schedule];
      return Success(schedule);
    }

    method MarkReady(id: Id, now: Moment) returns (r: Result<Schedule, SchedulingError>)
      modifies this
      ensures r == ReadyAnswer(old(Contents()), id, now)
      ensures Contents() == Step(old(Contents()), CallReady(id, now))
      ensures r.Failure? <==> id !in old(schedules) || !now.aware
      ensures r.Failure? ==> r.error == if id !in old(schedules) then UnknownSchedule else NaiveTime
      ensures schedules == if r.Success? then old(schedules)[id := r.value] else old(schedules)
    {
      if id !in schedules {
        return Failure(UnknownSchedule);
      }
      var schedule := schedules[id];
      if !now.aware {
        return Failure(NaiveTime);
      }
      if schedule.status != Scheduled || now.instant < schedule.scheduledAt.instant {
        return Success(schedule);
      }
      schedules := schedules[id := schedule.(status := Ready)];
      return Success(schedules[id]);
    }

    method Cancel(id: Id) returns (r: Result<Schedule, SchedulingError>)
      modifies this
      ensures r == CancelAnswer(old(Contents()), id)
      ensures Contents() == Step(old(Contents()), CallCancel(id))
      ensures r.Failure? <==> id !in old(schedules)
      ensures r.Failure? ==> r.error == UnknownSchedule
      ensures schedules == if r.Success? then old(schedules)[id := r.value] else old(schedules)
    {
      if id !in schedules {
        return Failure(UnknownSchedule);
      }
      var schedule := schedules[id];
      if schedule.status == Completed || schedule.status == Cancelled {
        return Success(schedule);
      }
      schedules := schedules[id := schedule.(status := Cancelled)];
      return Success(schedules[id]);
    }

    method Complete(id: Id) returns (r: Result<Schedule, SchedulingError>)
      modifies this
      ensures r == CompleteAnswer(old(Contents()), id)
      ensures Contents() == Step(old(Contents()), CallComplete(id))
      ensures r.Success? <==> id in old(schedules) && old(schedules)[id].status == Ready
      ensures r.Failure? ==> r.error == if id !in old(schedules) then UnknownSchedule else NotReady
      ensures schedules == if r.Success? then old(schedules)[id := r.value] else old(schedules)
    {
      if id !in schedules {
        return Failure(UnknownSchedule);
      }
      var schedule := schedules[id];
      if schedule.status != Ready {
        return Failure(NotReady);
      }
      schedules := schedules[id := schedule.(status := Completed)];
      return Success(schedules[id]);
    }
  }

  // ------------------------------------------------------- whole runs

  function Run(w: World, calls: seq<Call>): World
    decreases |calls|
  {
    if calls == [] then w else Step(Run(w, calls[..|calls| - 1]), calls[|calls| - 1])
  }

  /** Completed and cancelled are final; ready never goes back to scheduled. */
  predicate CanBecome(s: Status, t: Status) {
    match s
    case Scheduled => true
    case Ready => t != Scheduled
    case Cancelled => t == Cancelled
    case Completed => t == Completed
  }

  lemma StepOnlyAdvances(w: World, call: Call, id: Id)
    requires id in w.schedules
    ensures id in Step(w, call).schedules
    ensures
      var s, t := w.schedules[id], Step(w, call).schedules[id];
      t == s.(status := t.status) && CanBecome(s.status, t.status)
  {
  }

  /** A stored schedule stays stored and changes nothing but its status, and that only forwards. */
  lemma {:induction false} SchedulesOnlyAdvance(w: World, calls: seq<Call>, id: Id)
    requires id in w.schedules
    ensures id in Run(w, calls).schedules
    ensures
      var s, t := w.schedules[id], Run(w, calls).schedules[id];
      t == s.(status := t.status) && CanBecome(s.status, t.status)
  {
    if calls != [] {
      SchedulesOnlyAdvance(w, calls[..|calls| - 1], id);
      StepOnlyAdvances(Run(w, calls[..|calls| - 1]), calls[|calls| - 1], id);
    }
  }

  ghost predicate Released(call: Call, id: Id, s: Schedule) {
    call.CallReady? && call.id == id && call.now.aware && call.now.instant >= s.scheduledAt.instant
  }

  // ------------------------------------------------------- the status tells the calls

  /** Call `i` says that the schedule is ready, no earlier than its time. */
  ghost predicate ReleasedAt(calls: seq<Call>, s: Schedule, i: int) {
    0 <= i < |calls| && Released(calls[i], s.id, s)
  }

  ghost predicate CancelledAt(calls: seq<Call>, s: Schedule, k: int) {
    0 <= k < |calls| && calls[k] == CallCancel(s.id)
  }

  /** Call `j` completes the schedule: it was released before, and not cancelled before. */
  ghost predicate CompletedAt(calls: seq<Call>, s: Schedule, j: int) {
    && 0 <= j < |calls| && calls[j] == CallComplete(s.id)
    && (exists i :: i < j && ReleasedAt(calls, s, i))
    && (forall k | k < j :: !CancelledAt(calls, s, k))
  }

  /** The status that a schedule has after these calls, one condition for each. */
  ghost predicate StatusAfter(calls: seq<Call>, s: Schedule, status: Status) {
    match status
    case Scheduled => (forall i :: !ReleasedAt(calls, s, i)) && forall k :: !CancelledAt(calls, s, k)
    case Ready =>
      && (exists i :: ReleasedAt(calls, s, i))
      && (forall k :: !CancelledAt(calls, s, k)) && forall j :: !CompletedAt(calls, s, j)
    case Cancelled => exists k :: CancelledAt(calls, s, k) && forall j | j < k :: !CompletedAt(calls, s, j)
    case Completed => exists j :: CompletedAt(calls, s, j)
  }

  lemma ReleasedOneMore(init: seq<Call>, call: Call, s: Schedule)
    ensures forall i | i < |init| :: ReleasedAt(init + [call], s, i) <==> ReleasedAt(init, s, i)
    ensures ReleasedAt(init + [call], s, |init|) <==> Released(call, s.id, s)
    ensures forall k | k < |init| :: CancelledAt(init + [call], s, k) <==> CancelledAt(init, s, k)
    ensures CancelledAt(init + [call], s, |init|) <==> call == CallCancel(s.id)
  {
  }

  lemma CompletedOneMore(init: seq<Call>, call: Call, s: Schedule)
    ensures forall j | j < |init| :: CompletedAt(init + [call], s, j) <==> CompletedAt(init, s, j)
    ensures CompletedAt(init + [call], s, |init|)
            <==> call == CallComplete(s.id)
                 && (exists i :: ReleasedAt(init, s, i)) && forall k :: !CancelledAt(init, s, k)
  {
    ReleasedOneMore(init, call, s);
    if i :| ReleasedAt(init, s, i) { assert ReleasedAt(init + [call], s, i); }
    if i :| i < |init| && ReleasedAt(init + [call], s, i) { assert ReleasedAt(init, s, i); }
    assert forall k :: CancelledAt(init, s, k) ==> k < |init| && CancelledAt(init + [call], s, k);
  }

  /** No two statuses have their condition met. */
  lemma OneStatus(calls: seq<Call>, s: Schedule, a: Status, b: Status)
    requires StatusAfter(calls, s, a) && StatusAfter(calls, s, b)
    ensures a == b
  {
    if a == Completed || b == Completed {
      var j :| CompletedAt(calls, s, j);
      var i :| i < j && ReleasedAt(calls, s, i);
    }
  }

  lemma StatusOneMore(w: World, init: seq<Call>, call: Call, s: Schedule)
    requires s.id in w.schedules && w.schedules[s.id].scheduledAt == s.scheduledAt
    requires StatusAfter(init, s, w.schedules[s.id].status)
    ensures s.id in Step(w, call).schedules
    ensures StatusAfter(init + [call], s, Step(w, call).schedules[s.id].status)
  {
    var before, after := w.schedules[s.id].status, Step(w, call).schedules[s.id].status;
    ReleasedOneMore(init, call, s);
    CompletedOneMore(init, call, s);
    match before {
      case Scheduled => ScheduledOneMore(w, init, call, s);
      case Ready => ReadyOneMore(w, init, call, s);
      case Cancelled =>
        var k :| CancelledAt(init, s, k) && forall j | j < k :: !CompletedAt(init, s, j);
        assert CancelledAt(init + [call], s, k) && forall j | j < k :: !CompletedAt(init + [call], s, j);
      case Completed =>
        var j :| CompletedAt(init, s, j);
        assert CompletedAt(init + [call], s, j);
    }
  }

  lemma ScheduledOneMore(w: World, init: seq<Call>, call: Call, s: Schedule)
    requires s.id in w.schedules && w.schedules[s.id].scheduledAt == s.scheduledAt
    requires w.schedules[s.id].status == Scheduled && StatusAfter(init, s, Scheduled)
    ensures s.id in Step(w, call).schedules
    ensures StatusAfter(init + [call], s, Step(w, call).schedules[s.id].status)
  {
    ReleasedOneMore(init, call, s);
    CompletedOneMore(init, call, s);
    assert forall j :: !CompletedAt(init + [call], s, j);
  }

  lemma ReadyOneMore(w: World, init: seq<Call>, call: Call, s: Schedule)
    requires s.id in w.schedules && w.schedules[s.id].scheduledAt == s.scheduledAt
    requires w.schedules[s.id].status == Ready && StatusAfter(init, s, Ready)
    ensures s.id in Step(w, call).schedules
    ensures StatusAfter(init + [call], s, Step(w, call).schedules[s.id].status)
  {
    ReleasedOneMore(init, call, s);
    CompletedOneMore(init, call, s);
    var i :| ReleasedAt(init, s, i);
    assert ReleasedAt(init + [call], s, i);
  }

  /**
   After any calls, the status of a schedule that was new is the one whose condition they meet: completed by a
   `complete` call after a timely `ready` call and before any cancellation; cancelled by a call that no such
   completion precedes; ready or scheduled otherwise, by whether a timely `ready` call was made.
   */
  lemma {:induction false} StatusTellsTheCalls(w: World, calls: seq<Call>, s: Schedule, status: Status)
    requires s.id in w.schedules && w.schedules[s.id] == s && s.status == Scheduled
    ensures s.id in Run(w, calls).schedules
    ensures Run(w, calls).schedules[s.id].status == status <==> StatusAfter(calls, s, status)
  {
    StatusIsAfter(w, calls, s);
    if StatusAfter(calls, s, status) { OneStatus(calls, s, status, Run(w, calls).schedules[s.id].status); }
  }

  lemma {:induction false} StatusIsAfter(w: World, calls: seq<Call>, s: Schedule)
    requires s.id in w.schedules && w.schedules[s.id] == s && s.status == Scheduled
    ensures s.id in Run(w, calls).schedules
    ensures StatusAfter(calls, s, Run(w, calls).schedules[s.id].status)
  {
    if calls != [] {
      var n := |calls| - 1;
      StatusIsAfter(w, calls[..n], s);
      SchedulesOnlyAdvance(w, calls[..n], s.id);
      StatusOneMore(Run(w, calls[..n]), calls[..n], calls[n], s);
      assert calls == calls[..n] + [calls[n]];
    }
  }

  lemma {:induction false} RunAppend(w: World, a: seq<Call>, b: seq<Call>)
    ensures Run(w, a + b) == Run(Run(w, a), b)
    decreases |b|
  {
    if b == [] {
      assert a + b == a;
    } else {
      assert (a + b)[..|a + b| - 1] == a + b[..|b| - 1];
      RunAppend(w, a, b[..|b| - 1]);
    }
  }

  lemma RunSplit(w: World, calls: seq<Call>, n: nat)
    requires n < |calls|
    ensures Run(w, calls) == Run(Step(Run(w, calls[..n]), calls[n]), calls[n + 1..])
  {
    assert calls[..n + 1][..n] == calls[..n] && calls == calls[..n + 1] + calls[n + 1..];
    RunAppend(w, calls[..n + 1], calls[n + 1..]);
  }

  /** A `schedule` call makes a schedule that was not there: new, with what the call was given. */
  ghost predicate Makes(w: World, call: Call, id: Id) {
    && call.CallSchedule? && id !in w.schedules && id in Step(w, call).schedules
    && var s := Step(w, call).schedules[id];
    && s.id == id && s.planId == call.plan.id && s.scheduledAt == call.at && s.createdAt == call.created
    && s.status == Scheduled
  }

  lemma StepMakes(w: World, call: Call, id: Id)
    requires id !in w.schedules && id in Step(w, call).schedules
    ensures Makes(w, call, id)
  {
  }

  /** Over any run from the start, each schedule was made by one call, and its status tells the calls after that. */
  lemma {:induction false} EveryScheduleTellsItsCalls(orders: map<Id, ExecutionOrder>, calls: seq<Call>, id: Id,
      status: Status) returns (n: nat)
    requires id in Run(World(orders, map[]), calls).schedules
    ensures n < |calls| && Makes(Run(World(orders, map[]), calls[..n]), calls[n], id)
    ensures
      var s := Step(Run(World(orders, map[]), calls[..n]), calls[n]).schedules[id];
      var t := Run(World(orders, map[]), calls).schedules[id];
      && t == s.(status := t.status) && (t.status == status <==> StatusAfter(calls[n + 1..], s, status))
  {
    var start := World(orders, map[]);
    n := MadeAt(start, calls, id);
    var w := Step(Run(start, calls[..n]), calls[n]);
    RunSplit(start, calls, n);
    StatusTellsTheCalls(w, calls[n + 1..], w.schedules[id], status);
    SchedulesOnlyAdvance(w, calls[n + 1..], id);
  }

  lemma {:induction false} MadeAt(start: World, calls: seq<Call>, id: Id) returns (n: nat)
    requires start.schedules == map[] && id in Run(start, calls).schedules
    ensures n < |calls| && Makes(Run(start, calls[..n]), calls[n], id)
  {
    n := |calls| - 1;
    if id in Run(start, calls[..n]).schedules {
      var m := MadeAt(start, calls[..n], id);
      assert calls[..n][..m] == calls[..m];
      n := m;
    } else {
      StepMakes(Run(start, calls[..n]), calls[n], id);
    }
  }

  /** The schedule carries the order that the dependency engine still answers for its plan. */
  ghost predicate Agrees(w: World, s: Schedule) {
    && OrderId(s.planId) in w.orders
    && var order := w.orders[OrderId(s.planId)];
    && order.blocked == [] && order.missing == []
    && s.ordered == order.ordered && s.levels == order.levels
  }

  ghost predicate Extends(larger: map<Id, ExecutionOrder>, orders: map<Id, ExecutionOrder>) {
    forall key | key in orders :: key in larger && larger[key] == orders[key]
  }

  /** Over any run, whoever else uses the dependency engine, every schedule agrees with it. */
  lemma {:induction false} SchedulesAgreeWithEngine(orders: map<Id, ExecutionOrder>, calls: seq<Call>)
    ensures
      var w := Run(World(orders, map[]), calls);
      && Extends(w.orders, orders)
      && forall id | id in w.schedules :: Agrees(w, w.schedules[id])
  {
    if calls != [] {
      var n := |calls| - 1;
      SchedulesAgreeWithEngine(orders, calls[..n]);
      StepKeepsAgreement(Run(World(orders, map[]), calls[..n]), calls[n]);
    }
  }

  lemma StepKeepsAgreement(w: World, call: Call)
    requires forall id | id in w.schedules :: Agrees(w, w.schedules[id])
    ensures Extends(Step(w, call).orders, w.orders)
    ensures forall id | id in Step(w, call).schedules :: Agrees(Step(w, call), Step(w, call).schedules[id])
  {
    var v := Step(w, call);
    forall id | id in v.schedules ensures Agrees(v, v.schedules[id]) {
      if id in w.schedules {
        assert Agrees(w, w.schedules[id]);
      }
    }
  }

  // ------------------------------------------------------- one plan under each id

  /** The plan that a call names, if it names one. */
  function PlanOf(call: Call): Option<Plan> {
    match call
    case CallOrder(plan) => Some(plan)
    case CallSchedule(plan, _, _) => Some(plan)
    case _ => None
  }

  /** No call names another plan under the id of `p`. */
  ghost predicate OnlyPlan(calls: seq<Call>, p: Plan) {
    forall call | call in calls :: PlanOf(call).Some? && PlanOf(call).value.id == p.id ==> PlanOf(call).value == p
  }

  ghost predicate HoldsOrderOf(orders: map<Id, ExecutionOrder>, p: Plan) {
    OrderId(p.id) in orders ==> OrderOf(p) == Success(orders[OrderId(p.id)])
  }

  lemma AfterOrderHolds(orders: map<Id, ExecutionOrder>, plan: Plan, p: Plan)
    requires HoldsOrderOf(orders, p) && (plan.id == p.id ==> plan == p)
    ensures HoldsOrderOf(AfterOrder(orders, plan), p)
  {
    assert ("ORDER-" + plan.id.text)[6..] == plan.id.text && ("ORDER-" + p.id.text)[6..] == p.id.text;
  }

  lemma {:induction false} EngineHoldsOrders(calls: seq<Call>, p: Plan)
    requires OnlyPlan(calls, p)
    ensures HoldsOrderOf(Run(World(map[], map[]), calls).orders, p)
  {
    if calls != [] {
      var n := |calls| - 1;
      assert calls[n] in calls && forall call | call in calls[..n] :: call in calls;
      EngineHoldsOrders(calls[..n], p);
      if PlanOf(calls[n]).Some? {
        AfterOrderHolds(Run(World(map[], map[]), calls[..n]).orders, PlanOf(calls[n]).value, p);
      }
    }
  }

  /**
   Over any run from the start in which `p` is the only plan under its id, every schedule of that id carries the
   order computed from `p`: its levels are the longest dependency chains of the plan.
   */
  lemma {:induction false} SchedulesHoldTheirPlansOrder(calls: seq<Call>, p: Plan, id: Id)
    requires OnlyPlan(calls, p)
    requires id in Run(World(map[], map[]), calls).schedules
        && Run(World(map[], map[]), calls).schedules[id].planId == p.id
    ensures
      var s := Run(World(map[], map[]), calls).schedules[id];
      && OrderOf(p).Success? && OrderOf(p).value.missing == [] && OrderOf(p).value.blocked == []
      && s.ordered == OrderOf(p).value.ordered && s.levels == OrderOf(p).value.levels
      && forall k, n | 0 <= k < |s.levels| && n in s.levels[k] :: LongestChainIs(GraphOf(p.actions), n, k + 1)
  {
    EngineHoldsOrders(calls, p);
    SchedulesAgreeWithEngine(map[], calls);
    var s := Run(World(map[], map[]), calls).schedules[id];
    assert Agrees(Run(World(map[], map[]), calls), s);
    forall k, n | 0 <= k < |s.levels| && n in s.levels[k] ensures LongestChainIs(GraphOf(p.actions), n, k + 1) {
      LevelMeansLongestChain(p, k, n);
    }
  }

  ghost predicate LongestChainIs(g: Graph, n: Id, length: nat) {
    (exists c :: ChainTo(g, c, n) && |c| == length) && forall c :: ChainTo(g, c, n) ==> |c| <= length
  }

  // ------------------------------------------------------- when `schedule` refuses

  /** The error names what is the case, of the two times or of the order that the engine answers. */
  ghost predicate Hinders(w: World, plan: Plan, at: Moment, created: Moment, e: SchedulingError) {
    match e
    case NaiveTime => !(at.aware && created.aware)
    case ScheduledBeforeCreated => at.instant < created.instant
    case OrderRefused(error) => OrderId(plan.id) !in w.orders && OrderOf(plan) == Failure(error)
    case BlockedActions =>
      if OrderId(plan.id) in w.orders then w.orders[OrderId(plan.id)].blocked != []
      else OrderOf(plan).Success? && OrderOf(plan).value.blocked != []
    case MissingDependencies =>
      if OrderId(plan.id) in w.orders then w.orders[OrderId(plan.id)].missing != []
      else OrderOf(plan).Success? && OrderOf(plan).value.missing != []
    case _ => false
  }

  ghost function Rank(e: SchedulingError): nat {
    match e
    case NaiveTime => 0
    case ScheduledBeforeCreated => 1
    case OrderRefused(_) => 2
    case BlockedActions => 3
    case MissingDependencies => 4
    case UnknownSchedule => 5
    case NotReady => 6
  }

  /**
   `schedule` refuses with the first error that something is wrong with, and exactly if there is one. The engine is
   asked exactly if the times are in order, and then it answers, and stores, what `order` would.
   */
  lemma ScheduleRefusesIff(w: World, plan: Plan, at: Moment, created: Moment)
    ensures
      var r, v := ScheduleAnswer(w, plan, at, created), Step(w, CallSchedule(plan, at, created));
      && (r.Failure? ==>
            && v.schedules == w.schedules && Hinders(w, plan, at, created, r.error)
            && forall e | Hinders(w, plan, at, created, e) :: Rank(r.error) <= Rank(e))
      && (r.Success? <==> forall e :: !Hinders(w, plan, at, created, e))
      && v.orders == (if at.aware && created.aware && created.instant <= at.instant then Step(w, CallOrder(plan)).orders
                      else w.orders)
  {
    var r := ScheduleAnswer(w, plan, at, created);
    forall e | Hinders(w, plan, at, created, e) ensures r.Failure? && Rank(r.error) <= Rank(e) {
      HindranceRefuses(w, plan, at, created, e);
    }
    if r.Failure? { assert Hinders(w, plan, at, created, r.error); }
  }

  lemma HindranceRefuses(w: World, plan: Plan, at: Moment, created: Moment, e: SchedulingError)
    requires Hinders(w, plan, at, created, e)
    ensures ScheduleAnswer(w, plan, at, created).Failure?
    ensures Rank(ScheduleAnswer(w, plan, at, created).error) <= Rank(e)
  {
  }

  /** A use of the engine by others stores an order exactly where there is none and the plan has one. */
  lemma OrderCallStores(w: World, plan: Plan)
    ensures
      var v, key := Step(w, CallOrder(plan)), Id("ORDER-" + plan.id.text);
      && v.schedules == w.schedules
      && v.orders == (if key !in w.orders && OrderOf(plan).Success? then w.orders[key := OrderOf(plan).value]
                      else w.orders)
  {
  }

  // ------------------------------------------------------- the instant that was asked for

  /** `schedule` answers for the instant asked exactly when its id is not taken by a schedule for another instant. */
  lemma AnswersAskedInstantIff(w: World, plan: Plan, at: Moment, created: Moment)
    requires ScheduleAnswer(w, plan, at, created).Success?
    ensures
      var id := ScheduleId(plan.id, at);
      ScheduleAnswer(w, plan, at, created).value.scheduledAt.instant == at.instant
      <==> (id in w.schedules ==> w.schedules[id].scheduledAt.instant == at.instant)
  {
  }

  /** Asked for the same local time in another zone, any plan that can be scheduled gets the first zone's schedule. */
  lemma TwoZonesShareASchedule(plan: Plan, first: Moment, second: Moment)
    requires OrderOf(plan).Success? && OrderOf(plan).value.blocked == [] && OrderOf(plan).value.missing == []
    requires first.aware && second.aware && first.stamp == second.stamp && first.instant != second.instant
    ensures
      var w := Run(World(map[], map[]), [CallSchedule(plan, first, first)]);
      var answer := ScheduleAnswer(w, plan, second, second);
      answer.Success? && answer.value.scheduledAt == first && answer.value.scheduledAt.instant != second.instant
  {
    var call := CallSchedule(plan, first, first);
    assert [call][..0] == [];
    assert Run(World(map[], map[]), [call]) == Step(World(map[], map[]), call);
  }

  /** The times that a run schedules for. */
  function Moments(calls: seq<Call>): set<Moment> {
    if calls == [] then {}
    else Moments(calls[..|calls| - 1]) + MomentOf(calls[|calls| - 1])
  }

  function MomentOf(call: Call): set<Moment> { if call.CallSchedule? then {call.at} else {} }

  /** Equal local times are equal instants; the stamps are of one length, as the format makes them. */
  ghost predicate OneZone(moments: set<Moment>) {
    forall a, b | a in moments && b in moments ::
      && |a.stamp| == |b.stamp|
      && (a.stamp == b.stamp ==> a.instant == b.instant)
  }

  lemma ScheduleIdParts(p: Id, a: Moment, q: Id, b: Moment)
    requires |a.stamp| == |b.stamp| && ScheduleId(p, a) == ScheduleId(q, b)
    ensures p == q && a.stamp == b.stamp
  {
    var s, t := ScheduleId(p, a).text, ScheduleId(q, b).text;
    assert |s| == 7 + |p.text| + |a.stamp| && |t| == 7 + |q.text| + |b.stamp|;
    assert s[6..6 + |p.text|] == p.text && t[6..6 + |q.text|] == q.text;
    assert s[7 + |p.text|..] == a.stamp && t[7 + |q.text|..] == b.stamp;
  }

  /** A schedule is stored under the id of its plan and its time, which the run has asked for. */
  ghost predicate Filed(w: World, moments: set<Moment>) {
    forall id | id in w.schedules ::
      id == ScheduleId(w.schedules[id].planId, w.schedules[id].scheduledAt) && w.schedules[id].scheduledAt in moments
  }

  lemma {:induction false} SchedulesAreFiled(calls: seq<Call>)
    ensures Filed(Run(World(map[], map[]), calls), Moments(calls))
  {
    if calls != [] {
      var n := |calls| - 1;
      SchedulesAreFiled(calls[..n]);
      StepKeepsFiled(Run(World(map[], map[]), calls[..n]), calls[n], Moments(calls[..n]));
    }
  }

  lemma StepKeepsFiled(w: World, call: Call, moments: set<Moment>)
    requires Filed(w, moments)
    ensures Filed(Step(w, call), moments + MomentOf(call))
  {
  }

  /**
   Over any run from the start whose scheduled times come from one zone, `schedule` answers with a schedule for the
   plan and the instant that were asked.
   */
  lemma {:induction false} OneZoneAnswersTheInstant(calls: seq<Call>, plan: Plan, at: Moment, created: Moment)
    requires OneZone(Moments(calls) + {at})
    requires ScheduleAnswer(Run(World(map[], map[]), calls), plan, at, created).Success?
    ensures
      var s := ScheduleAnswer(Run(World(map[], map[]), calls), plan, at, created).value;
      s.planId == plan.id && s.scheduledAt.instant == at.instant
  {
    var w, id := Run(World(map[], map[]), calls), ScheduleId(plan.id, at);
    SchedulesAreFiled(calls);
    if id in w.schedules { ScheduleIdParts(w.schedules[id].planId, w.schedules[id].scheduledAt, plan.id, at); }
  }
}
