/**
 Agent runs as an interleaved protocol. Each database transaction of create, approve, cancel and
 execute is one atomic step; between the steps of one executor any other request may run. The log
 is the audit trail the code writes with each step, plus the tool calls themselves.
 */
module AgentRuns {
  import opened Wrappers

  datatype RunStatus = Planned | AwaitingApproval | Running | Completed | Failed | Cancelled

  datatype StepStatus = StepPlanned | StepRunning | StepCompleted | StepFailed | StepCancelled

  datatype Entry =
    | Created | Approved | CancelledByUser | Started
    | StepStarted(step: nat) | ToolCalled(step: nat, inFull: bool) | StepDone(step: nat)
    | RunFailed | CancelObserved | RunCompleted

  /** What the planner decides; `omitted` are the steps whose stored arguments leave out the content. */
  datatype Plan = Plan(count: nat, needsApproval: bool, omitted: set<nat>)

  /** The row of the run, the rows of its steps, its pending arguments and its log. */
  datatype Run = Run(
    status: RunStatus, approvalRequired: bool, cancelRequested: bool,
    steps: seq<StepStatus>, pending: set<nat>, log: seq<Entry>)

  function Below(n: nat): set<nat> {
    if n == 0 then {} else Below(n - 1) + {n - 1}
  }

  lemma {:induction false} BelowIs(n: nat)
    ensures forall k :: k in Below(n) <==> 0 <= k < n
  {
    if n > 0 { BelowIs(n - 1); }
  }

  predicate Terminal(status: RunStatus) { status in {Completed, Failed, Cancelled} }

  // ------------------------------------------------------- the atomic blocks

  function CreateRun(p: Plan): Run {
    Run(if p.needsApproval then AwaitingApproval else Planned, p.needsApproval, false,
        seq(p.count, _ => StepPlanned), Below(p.count), [Created])
  }

  predicate Approvable(r: Run) { r.status == AwaitingApproval && r.approvalRequired }

  function ApproveRun(r: Run): Run {
    if Approvable(r) then r.(approvalRequired := false, status := Planned, log := r.log + [Approved]) else r
  }

  function CancelRun(r: Run): Run {
    if Terminal(r.status) then r
    else r.(cancelRequested := true, status := Cancelled, pending := {}, log := r.log + [CancelledByUser])
  }

  predicate Startable(r: Run) { !Terminal(r.status) && !r.approvalRequired }

  function StartRun(r: Run): Run {
    if Startable(r) then r.(status := Running, log := r.log + [Started]) else r
  }

  predicate CancelSeen(r: Run) { r.cancelRequested || r.status == Cancelled }

  /** Every step that is still planned becomes cancelled. */
  function Swept(steps: seq<StepStatus>): seq<StepStatus> {
    seq(|steps|, k requires 0 <= k < |steps| => if steps[k] == StepPlanned then StepCancelled else steps[k])
  }

  /** The block at the head of the loop, when the time limit is not exceeded. */
  function ClaimStep(r: Run, i: nat): Run
    requires i < |r.steps|
  {
    if CancelSeen(r) then r.(steps := Swept(r.steps), log := r.log + [CancelObserved])
    else r.(steps := r.steps[i := StepRunning], log := r.log + [StepStarted(i)])
  }

  /** The arguments are the pending ones, or else the stored ones, unless those leave the content out. */
  predicate ArgumentsAvailable(p: Plan, r: Run, i: nat) { i in r.pending || i !in p.omitted }

  function CallTool(r: Run, i: nat): Run {
    r.(log := r.log + [ToolCalled(i, i in r.pending)])
  }

  function CompleteStep(r: Run, i: nat): Run
    requires i < |r.steps|
  {
    r.(steps := r.steps[i := StepCompleted], log := r.log + [StepDone(i)])
  }

  /** `mark_agent_failure`: whatever the run's status was, it becomes failed. */
  function MarkFailure(r: Run, step: Option<nat>): Run
    requires step.Some? ==> step.value < |r.steps|
  {
    r.(steps := if step.Some? then r.steps[step.value := StepFailed] else r.steps,
       status := Failed, pending := {}, log := r.log + [RunFailed])
  }

  /** The else branch of the loop. */
  function FinishRun(r: Run): Run {
    if r.cancelRequested then r else r.(status := Completed, pending := {}, log := r.log + [RunCompleted])
  }

  // ------------------------------------------------------- the tables

  /** The row of one run with the rows of its steps; each method is one transaction of the request handlers. */
  class RunTable {
    var status: RunStatus
    var approvalRequired: bool
    var cancelRequested: bool
    var steps: array<StepStatus>
    var pending: set<nat>
    var log: seq<Entry>

    ghost function Contents(): Run
      reads this, steps
    {
      Run(status, approvalRequired, cancelRequested, steps[..], pending, log)
    }

    constructor (p: Plan)
      ensures Contents() == CreateRun(p) && fresh(steps)
      ensures status == (if p.needsApproval then AwaitingApproval else Planned) && approvalRequired == p.needsApproval
      ensures !cancelRequested && log == [Created]
      ensures steps.Length == p.count && forall k | 0 <= k < p.count :: steps[k] == StepPlanned
      ensures forall k :: k in pending <==> 0 <= k < p.count
    {
      status := if p.needsApproval then AwaitingApproval else Planned;
      approvalRequired, cancelRequested := p.needsApproval, false;
      steps := new StepStatus[p.count](_ => StepPlanned);
      pending, log := Below(p.count), [Created];
      new;
      BelowIs(p.count);
      assert steps[..] == seq(p.count, _ => StepPlanned);
    }

    method Approve() returns (ok: bool)
      modifies this
      ensures steps == old(steps) && Contents() == ApproveRun(old(Contents()))
      ensures ok <==> old(status) == AwaitingApproval && old(approvalRequired)
      ensures ok ==> Contents() == old(Contents()).(status := Planned, approvalRequired := false,
                                                    log := old(log) + [Approved])
      ensures !ok ==> Contents() == old(Contents())
    {
      if status != AwaitingApproval || !approvalRequired {
        return false;
      }
      approvalRequired, status := false, Planned;
      log := log + [Approved];
      ok := true;
    }

    method Cancel() returns (ok: bool)
      modifies this
      ensures steps == old(steps) && Contents() == CancelRun(old(Contents()))
      ensures ok <==> old(status) !in {Completed, Failed, Cancelled}
      ensures ok ==> Contents() == old(Contents()).(status := Cancelled, cancelRequested := true, pending := {},
                                                    log := old(log) + [CancelledByUser])
      ensures !ok ==> Contents() == old(Contents())
    {
      if Terminal(status) {
        return false;
      }
      cancelRequested, status := true, Cancelled;
      pending := {};
      log := log + [CancelledByUser];
      ok := true;
    }

    /** The first block of execute. */
    method Begin() returns (ok: bool)
      modifies this
      ensures steps == old(steps) && Contents() == StartRun(old(Contents()))
      ensures ok <==> old(status) !in {Completed, Failed, Cancelled} && !old(approvalRequired)
      ensures Contents() ==
        if ok then old(Contents()).(status := Running, log := old(log) + [Started]) else old(Contents())
    {
      if Terminal(status) || approvalRequired {
        return false;
      }
      status := Running;
      log := log + [Started];
      ok := true;
    }

    /** The block at the head of the loop; on a cancellation it sweeps the untouched steps. */
    method Claim(i: nat) returns (claimed: bool)
      requires i < steps.Length
      modifies this, steps
      ensures steps == old(steps) && Contents() == ClaimStep(old(Contents()), i)
      ensures claimed <==> !(old(cancelRequested) || old(status) == Cancelled)
      ensures claimed ==> Contents() == old(Contents()).(steps := old(steps[..])[i := StepRunning],
                                                         log := old(log) + [StepStarted(i)])
      ensures !claimed ==> Contents() == old(Contents()).(steps := steps[..], log := old(log) + [CancelObserved])
      ensures !claimed ==> forall k | 0 <= k < steps.Length ::
                steps[k] == if old(steps[k]) == StepPlanned then StepCancelled else old(steps[k])
    {
      ghost var before := steps[..];
      if cancelRequested || status == Cancelled {
        for k := 0 to steps.Length
          invariant Contents() == old(Contents()).(steps := steps[..]) && steps == old(steps)
          invariant forall j | 0 <= j < k :: steps[j] == if before[j] == StepPlanned then StepCancelled else before[j]
          invariant forall j | k <= j < steps.Length :: steps[j] == before[j]
        {
          if steps[k] == StepPlanned {
            steps[k] := StepCancelled;
          }
        }
        assert steps[..] == Swept(before);
        log := log + [CancelObserved];
        return false;
      }
      steps[i] := StepRunning;
      assert steps[..] == before[i := StepRunning];
      log := log + [StepStarted(i)];
      claimed := true;
    }

    method Complete(i: nat)
      requires i < steps.Length
      modifies this, steps
      ensures steps == old(steps) && Contents() == CompleteStep(old(Contents()), i)
      ensures Contents() == old(Contents()).(steps := old(steps[..])[i := StepCompleted],
                                             log := old(log) + [StepDone(i)])
    {
      ghost var before := steps[..];
      steps[i] := StepCompleted;
      assert steps[..] == before[i := StepCompleted];
      log := log + [StepDone(i)];
    }

    method Fail(step: Option<nat>)
      requires step.Some? ==> step.value < steps.Length
      modifies this, steps
      ensures steps == old(steps) && Contents() == MarkFailure(old(Contents()), step)
      ensures forall k | 0 <= k < steps.Length :: steps[k] == if step == Some(k) then StepFailed else old(steps[k])
      ensures Contents() == old(Contents()).(steps := steps[..], status := Failed, pending := {},
                                             log := old(log) + [RunFailed])
    {
      ghost var before := steps[..];
      if step.Some? {
        steps[step.value] := StepFailed;
        assert steps[..] == before[step.value := StepFailed];
      }
      status, pending := Failed, {};
      log := log + [RunFailed];
    }

    method Finish()
      modifies this
      ensures steps == old(steps) && Contents() == FinishRun(old(Contents()))
      ensures Contents() ==
        if old(cancelRequested) then old(Contents())
        else old(Contents()).(status := Completed, pending := {}, log := old(log) + [RunCompleted])
    {
      if !cancelRequested {
        status, pending := Completed, {};
        log := log + [RunCompleted];
      }
    }
  }

  // ------------------------------------------------------- the interleaving

  /** Where an execute request stands between two of its blocks. */
  datatype Pc =
    | AtStep(i: nat) | InTool(i: nat) | Calling(i: nat) | Settled(i: nat)
    | Failing(step: Option<nat>) | Finishing | Done

  /** How the outside of the database decides: the clock, the tool, an exception. */
  datatype Outcome = Proceeds | TimesOut | Raises

  datatype Action = DoApprove | DoCancel | DoExecute | Advance(executor: nat, outcome: Outcome)

  datatype System = System(run: Run, executors: seq<Pc>)

  function AfterStep(p: Plan, i: nat): Pc {
    if i < p.count then AtStep(i) else Finishing
  }

  predicate InRange(pc: Pc, count: nat) {
    match pc
    case AtStep(i) => i < count
    case InTool(i) => i < count
    case Calling(i) => i < count
    case Settled(i) => i < count
    case Failing(step) => step.Some? ==> step.value < count
    case Finishing => true
    case Done => true
  }

  /** One block of one executor. */
  function AdvanceOne(p: Plan, r: Run, pc: Pc, outcome: Outcome): (Run, Pc)
    requires |r.steps| == p.count && InRange(pc, p.count)
  {
    match pc
    case AtStep(i) =>
      if CancelSeen(r) then (ClaimStep(r, i), Done)
      else if outcome == TimesOut then (r, Failing(Some(i)))
      else (ClaimStep(r, i), InTool(i))
    case InTool(i) =>
      if outcome == Raises || !ArgumentsAvailable(p, r, i) then (r, Failing(Some(i))) else (CallTool(r, i), Calling(i))
    case Calling(i) =>
      if outcome == Raises then (r, Failing(Some(i))) else (CompleteStep(r, i), Settled(i))
    case Settled(i) =>
      if outcome == Raises then (r, Failing(Some(i)))
      else (r.(pending := r.pending - {i}), if outcome == TimesOut then Failing(None) else AfterStep(p, i + 1))
    case Failing(step) => (MarkFailure(r, step), Done)
    case Finishing => (FinishRun(r), Done)
    case Done => (r, Done)
  }

  ghost predicate WellFormed(p: Plan, s: System) {
    |s.run.steps| == p.count && forall e | 0 <= e < |s.executors| :: InRange(s.executors[e], p.count)
  }

  function Next(p: Plan, s: System, a: Action): (t: System)
    requires WellFormed(p, s)
    ensures WellFormed(p, t)
  {
    match a
    case DoApprove => s.(run := ApproveRun(s.run))
    case DoCancel => s.(run := CancelRun(s.run))
    case DoExecute =>
      if Startable(s.run) then System(StartRun(s.run), s.executors + [AfterStep(p, 0)]) else s
    case Advance(e, outcome) =>
      if e < |s.executors| then
        var (run, pc) := AdvanceOne(p, s.run, s.executors[e], outcome);
        System(run, s.executors[e := pc])
      else s
  }

  function Reach(p: Plan, actions: seq<Action>): (s: System)
    ensures WellFormed(p, s)
  {
    if actions == [] then System(CreateRun(p), [])
    else Next(p, Reach(p, actions[..|actions| - 1]), actions[|actions| - 1])
  }

  // ------------------------------------------------------- what every interleaving keeps

  predicate Starts(e: Entry) { e.Started? || e.StepStarted? || e.ToolCalled? }

  /** Nothing starts in the log before an approval. */
  ghost predicate ApprovedFirst(log: seq<Entry>) {
    forall j | 0 <= j < |log| && Starts(log[j]) :: Approved in log[..j]
  }

  /** After a cancellation no step starts, no execution starts, nothing is approved, nothing completes. */
  ghost predicate QuietAfterCancel(log: seq<Entry>) {
    forall j | 0 <= j < |log| && CancelledByUser in log[..j] ::
      !log[j].Started? && !log[j].StepStarted? && !log[j].Approved? && !log[j].RunCompleted?
  }

  /** A step whose stored arguments are incomplete is only ever called with the full ones. */
  ghost predicate NeverTruncated(p: Plan, log: seq<Entry>) {
    forall e | e in log :: e.ToolCalled? && e.step in p.omitted ==> e.inFull
  }

  ghost predicate Safe(p: Plan, s: System) {
    var r := s.run;
    && (r.status == AwaitingApproval ==> r.approvalRequired)
    && (r.approvalRequired ==> s.executors == [] && r.status in {AwaitingApproval, Cancelled})
    && (p.needsApproval && Approved !in r.log ==> r.approvalRequired)
    && (r.cancelRequested <==> CancelledByUser in r.log)
    && (r.cancelRequested ==> r.status in {Cancelled, Failed})
    && (r.status == Cancelled ==> r.cancelRequested)
    && (RunFailed in r.log ==> r.status in {Failed, Completed})
    && (r.status == Failed ==> RunFailed in r.log)
    && (Terminal(r.status) ==> r.pending == {})
    && (p.needsApproval ==> ApprovedFirst(r.log))
    && QuietAfterCancel(r.log)
    && NeverTruncated(p, r.log)
  }

  lemma LogGrows(p: Plan, log: seq<Entry>, e: Entry)
    ensures ApprovedFirst(log) && (Starts(e) ==> Approved in log) ==> ApprovedFirst(log + [e])
    ensures QuietAfterCancel(log)
            && (CancelledByUser in log ==> !e.Started? && !e.StepStarted? && !e.Approved? && !e.RunCompleted?)
            ==> QuietAfterCancel(log + [e])
    ensures NeverTruncated(p, log) && (e.ToolCalled? && e.step in p.omitted ==> e.inFull)
        ==> NeverTruncated(p, log + [e])
  {
    var longer := log + [e];
    assert forall j | 0 <= j <= |log| :: longer[..j] == log[..j];
    assert log[..|log|] == log;
  }

  lemma ApprovalKeepsSafe(p: Plan, s: System)
    requires WellFormed(p, s) && Safe(p, s)
    ensures Safe(p, Next(p, s, DoApprove))
  {
    LogGrows(p, s.run.log, Approved);
  }

  lemma CancelKeepsSafe(p: Plan, s: System)
    requires WellFormed(p, s) && Safe(p, s)
    ensures Safe(p, Next(p, s, DoCancel))
  {
    LogGrows(p, s.run.log, CancelledByUser);
  }

  lemma ExecuteKeepsSafe(p: Plan, s: System)
    requires WellFormed(p, s) && Safe(p, s)
    ensures Safe(p, Next(p, s, DoExecute))
  {
    LogGrows(p, s.run.log, Started);
  }

  lemma AdvanceKeepsSafe(p: Plan, s: System, e: nat, outcome: Outcome)
    requires WellFormed(p, s) && Safe(p, s)
    ensures Safe(p, Next(p, s, Advance(e, outcome)))
  {
    if e < |s.executors| {
      var r, log := s.run, s.run.log;
      match s.executors[e] {
        case AtStep(i) =>
          LogGrows(p, log, CancelObserved);
          LogGrows(p, log, StepStarted(i));
        case InTool(i) => LogGrows(p, log, ToolCalled(i, i in r.pending));
        case Calling(i) => LogGrows(p, log, StepDone(i));
        case Settled(i) =>
        case Failing(step) => LogGrows(p, log, RunFailed);
        case Finishing => LogGrows(p, log, RunCompleted);
        case Done =>
      }
    }
  }

  /** In every interleaving of any number of requests and executors the run stays safe. */
  lemma {:induction false} EveryInterleavingIsSafe(p: Plan, actions: seq<Action>)
    ensures Safe(p, Reach(p, actions))
  {
    if actions != [] {
      var s, a := Reach(p, actions[..|actions| - 1]), actions[|actions| - 1];
      EveryInterleavingIsSafe(p, actions[..|actions| - 1]);
      match a {
        case DoApprove => ApprovalKeepsSafe(p, s);
        case DoCancel => CancelKeepsSafe(p, s);
        case DoExecute => ExecuteKeepsSafe(p, s);
        case Advance(e, outcome) => AdvanceKeepsSafe(p, s, e, outcome);
      }
    }
  }

  // ------------------------------------------------------- one executor

  ghost predicate AllFrom(steps: seq<StepStatus>, lo: nat, hi: nat, status: StepStatus) {
    lo <= hi <= |steps| && forall k | lo <= k < hi :: steps[k] == status
  }

  /** The first k steps are completed and those from m on are untouched. */
  ghost predicate CompletedThenPlanned(steps: seq<StepStatus>, k: nat, m: nat) {
    AllFrom(steps, 0, k, StepCompleted) && AllFrom(steps, m, |steps|, StepPlanned)
  }

  /** The steps whose tools were called, in the order of the calls. */
  function ToolCalls(log: seq<Entry>): seq<nat> {
    if log == [] then [] else
      var e := log[|log| - 1];
      ToolCalls(log[..|log| - 1]) + if e.ToolCalled? then [e.step] else []
  }

  function Count(n: nat): seq<nat> {
    seq(n, i => i)
  }

  ghost predicate SoloAt(p: Plan, r: Run, pc: Pc) {
    var calls := ToolCalls(r.log);
    match pc
    case AtStep(i) => CompletedThenPlanned(r.steps, i, i) && calls == Count(i)
    case InTool(i) => CompletedThenPlanned(r.steps, i, i + 1) && r.steps[i] == StepRunning && calls == Count(i)
    case Calling(i) => CompletedThenPlanned(r.steps, i, i + 1) && r.steps[i] == StepRunning && calls == Count(i + 1)
    case Settled(i) => CompletedThenPlanned(r.steps, i + 1, i + 1) && calls == Count(i + 1)
    case Failing(None) => exists k | 0 < k <= p.count :: CompletedThenPlanned(r.steps, k, k) && calls == Count(k)
    case Failing(Some(i)) =>
      && CompletedThenPlanned(r.steps, i, i + 1) && r.steps[i] in {StepPlanned, StepRunning, StepCompleted}
      && calls in {Count(i), Count(i + 1)}
    case Finishing => AllFrom(r.steps, 0, p.count, StepCompleted) && calls == Count(p.count)
    case Done => Settles(p, r) && Ended(r)
  }

  /**
   The shape of the step table: a completed prefix; then untouched steps, or cancelled steps, or one
   running or failed step followed by untouched ones.
   */
  ghost predicate Shaped(steps: seq<StepStatus>, k: nat) {
    && AllFrom(steps, 0, k, StepCompleted)
    && (|| AllFrom(steps, k, |steps|, StepPlanned)
        || AllFrom(steps, k, |steps|, StepCancelled)
        || (k < |steps| && steps[k] in {StepRunning, StepFailed} && AllFrom(steps, k + 1, |steps|, StepPlanned)))
  }

  ghost predicate Settles(p: Plan, r: Run) {
    && (exists k | 0 <= k <= p.count :: Shaped(r.steps, k))
    && (exists c | 0 <= c <= p.count :: ToolCalls(r.log) == Count(c))
    && (r.status == Completed ==> AllFrom(r.steps, 0, p.count, StepCompleted) && ToolCalls(r.log) == Count(p.count))
  }

  /** The first k steps are completed, the next one failed, the rest are untouched. */
  ghost predicate FailedAt(steps: seq<StepStatus>, k: int) {
    && 0 <= k < |steps| && AllFrom(steps, 0, k, StepCompleted) && steps[k] == StepFailed
    && AllFrom(steps, k + 1, |steps|, StepPlanned)
  }

  /** The first k steps, one at least, are completed and the rest are untouched: a time-out after step k. */
  ghost predicate TimedOutAfter(steps: seq<StepStatus>, k: int) {
    0 < k <= |steps| && CompletedThenPlanned(steps, k, k)
  }

  /** The first k steps are completed and all others cancelled. */
  ghost predicate CancelledFrom(steps: seq<StepStatus>, k: int) {
    0 <= k <= |steps| && AllFrom(steps, 0, k, StepCompleted) && AllFrom(steps, k, |steps|, StepCancelled)
  }

  /** How the only executor of a run leaves it: the status of the run says what the steps look like. */
  ghost predicate Ended(r: Run) {
    match r.status
    case Completed => AllFrom(r.steps, 0, |r.steps|, StepCompleted)
    case Failed => exists k :: FailedAt(r.steps, k) || TimedOutAfter(r.steps, k)
    case Cancelled => exists k :: CancelledFrom(r.steps, k)
    case _ => false
  }

  ghost predicate Solo(p: Plan, s: System) {
    if s.executors == [] then
      s.run.status in {Planned, AwaitingApproval, Cancelled} && SoloAt(p, s.run, AfterStep(p, 0))
    else
      && SoloAt(p, s.run, s.executors[0])
      && (s.executors[0] != Done ==> s.run.status in {Running, Cancelled})
  }

  lemma LogOneMore(log: seq<Entry>, e: Entry)
    ensures e.ToolCalled? ==> ToolCalls(log + [e]) == ToolCalls(log) + [e.step]
    ensures !e.ToolCalled? ==> ToolCalls(log + [e]) == ToolCalls(log)
  {
    assert (log + [e])[..|log|] == log;
  }

  lemma CountOneMore(n: nat)
    ensures Count(n) + [n] == Count(n + 1)
  {
  }

  /** Before an executor is done, its position says everything about the steps and the calls. */
  lemma SoloFrame(p: Plan, r: Run, r': Run, pc: Pc)
    requires |r.steps| == p.count && InRange(pc, p.count) && pc != Done && SoloAt(p, r, pc)
    requires r'.steps == r.steps && ToolCalls(r'.log) == ToolCalls(r.log)
    ensures SoloAt(p, r', pc)
  {
  }

  ghost predicate SoloAdvances(p: Plan, r: Run, pc: Pc, outcome: Outcome)
    requires |r.steps| == p.count && InRange(pc, p.count)
  {
    var (r', pc') := AdvanceOne(p, r, pc, outcome);
    SoloAt(p, r', pc') && (pc' != Done ==> r'.status == r.status)
  }

  lemma SoloAtStep(p: Plan, r: Run, i: nat, outcome: Outcome)
    requires |r.steps| == p.count && i < p.count && SoloAt(p, r, AtStep(i))
    requires r.status in {Running, Cancelled} && (r.cancelRequested ==> r.status == Cancelled)
    ensures SoloAdvances(p, r, AtStep(i), outcome)
  {
    LogOneMore(r.log, CancelObserved);
    LogOneMore(r.log, StepStarted(i));
    if CancelSeen(r) {
      assert Shaped(ClaimStep(r, i).steps, i) && CancelledFrom(ClaimStep(r, i).steps, i);
    }
  }

  lemma SoloInTool(p: Plan, r: Run, i: nat, outcome: Outcome)
    requires |r.steps| == p.count && i < p.count && SoloAt(p, r, InTool(i))
    ensures SoloAdvances(p, r, InTool(i), outcome)
  {
    LogOneMore(r.log, ToolCalled(i, i in r.pending));
    CountOneMore(i);
  }

  lemma SoloCalling(p: Plan, r: Run, i: nat, outcome: Outcome)
    requires |r.steps| == p.count && i < p.count && SoloAt(p, r, Calling(i))
    ensures SoloAdvances(p, r, Calling(i), outcome)
  {
    LogOneMore(r.log, StepDone(i));
  }

  lemma SoloSettled(p: Plan, r: Run, i: nat, outcome: Outcome)
    requires |r.steps| == p.count && i < p.count && SoloAt(p, r, Settled(i))
    ensures SoloAdvances(p, r, Settled(i), outcome)
  {
  }

  lemma SoloFailing(p: Plan, r: Run, step: Option<nat>, outcome: Outcome)
    requires |r.steps| == p.count && InRange(Failing(step), p.count) && SoloAt(p, r, Failing(step))
    ensures SoloAdvances(p, r, Failing(step), outcome)
  {
    LogOneMore(r.log, RunFailed);
    if step.Some? {
      assert Shaped(MarkFailure(r, step).steps, step.value) && FailedAt(MarkFailure(r, step).steps, step.value);
    } else {
      var k :| 0 < k <= p.count && CompletedThenPlanned(r.steps, k, k) && ToolCalls(r.log) == Count(k);
      assert Shaped(r.steps, k) && TimedOutAfter(r.steps, k);
    }
  }

  lemma SoloFinishing(p: Plan, r: Run, outcome: Outcome)
    requires |r.steps| == p.count && SoloAt(p, r, Finishing)
    requires r.cancelRequested ==> r.status == Cancelled
    ensures SoloAdvances(p, r, Finishing, outcome)
  {
    LogOneMore(r.log, RunCompleted);
    assert Shaped(r.steps, p.count) && CancelledFrom(r.steps, p.count);
  }

  lemma SoloAdvance(p: Plan, r: Run, pc: Pc, outcome: Outcome)
    requires |r.steps| == p.count && InRange(pc, p.count) && pc != Done
    requires SoloAt(p, r, pc) && r.status in {Running, Cancelled} && (r.cancelRequested ==> r.status == Cancelled)
    ensures SoloAdvances(p, r, pc, outcome)
  {
    match pc {
      case AtStep(i) => SoloAtStep(p, r, i, outcome);
      case InTool(i) => SoloInTool(p, r, i, outcome);
      case Calling(i) => SoloCalling(p, r, i, outcome);
      case Settled(i) => SoloSettled(p, r, i, outcome);
      case Failing(step) => SoloFailing(p, r, step, outcome);
      case Finishing => SoloFinishing(p, r, outcome);
    }
  }

  lemma SoloAfterAdvance(p: Plan, s: System, e: nat, outcome: Outcome)
    requires WellFormed(p, s) && Safe(p, s) && Solo(p, s) && |s.executors| <= 1
    ensures Solo(p, Next(p, s, Advance(e, outcome)))
  {
    if e < |s.executors| && s.executors[0] != Done {
      SoloAdvance(p, s.run, s.executors[0], outcome);
    }
  }

  lemma SoloAfterRequest(p: Plan, s: System, a: Action)
    requires WellFormed(p, s) && Safe(p, s) && Solo(p, s) && |s.executors| <= 1 && !a.Advance?
    ensures |Next(p, s, a).executors| <= 1 ==> Solo(p, Next(p, s, a))
  {
    var pc := if s.executors == [] then AfterStep(p, 0) else s.executors[0];
    var run := Next(p, s, a).run;
    if pc == Done {
      assert run == s.run;
    } else {
      LogOneMore(s.run.log, Approved);
      LogOneMore(s.run.log, CancelledByUser);
      LogOneMore(s.run.log, Started);
      SoloFrame(p, s.run, run, pc);
    }
  }

  lemma ExecutorsGrow(p: Plan, s: System, a: Action)
    requires WellFormed(p, s)
    ensures |Next(p, s, a).executors| >= |s.executors|
  {
  }

  lemma SoloNext(p: Plan, s: System, a: Action)
    requires WellFormed(p, s) && Safe(p, s) && Solo(p, s) && |Next(p, s, a).executors| <= 1 && |s.executors| <= 1
    ensures Solo(p, Next(p, s, a))
  {
    if a.Advance? {
      SoloAfterAdvance(p, s, a.executor, a.outcome);
    } else {
      SoloAfterRequest(p, s, a);
    }
  }

  lemma SoloStarts(p: Plan)
    ensures Solo(p, Reach(p, []))
  {
    LogOneMore([], Created);
    assert [] + [Created] == [Created];
    assert Count(0) == [];
  }

  lemma {:induction false} SoloAlways(p: Plan, actions: seq<Action>)
    requires |Reach(p, actions).executors| <= 1
    ensures Solo(p, Reach(p, actions))
  {
    if actions == [] {
      SoloStarts(p);
    } else {
      var n := |actions| - 1;
      EveryInterleavingIsSafe(p, actions[..n]);
      ExecutorsGrow(p, Reach(p, actions[..n]), actions[n]);
      SoloAlways(p, actions[..n]);
      SoloNext(p, Reach(p, actions[..n]), actions[n]);
    }
  }

  lemma FailingIsShaped(p: Plan, r: Run, step: Option<nat>)
    requires |r.steps| == p.count && InRange(Failing(step), p.count) && SoloAt(p, r, Failing(step))
    ensures exists k | 0 <= k <= p.count :: Shaped(r.steps, k)
    ensures exists c | 0 <= c <= p.count :: ToolCalls(r.log) == Count(c)
  {
    if step.None? {
      var k :| 0 < k <= p.count && CompletedThenPlanned(r.steps, k, k) && ToolCalls(r.log) == Count(k);
      assert Shaped(r.steps, k);
    } else {
      var i := step.value;
      assert Shaped(r.steps, if r.steps[i] == StepCompleted then i + 1 else i);
    }
  }

  /**
   While a run has had one executor, whatever approvals and cancellations fall in between: its steps
   have the shape above, its tools were called for steps 0, 1, 2, ... in turn and once each, a completed
   run has every step completed, and an executor that has finished leaves the run completed, failed or
   cancelled, with the steps that this status calls for and none of them running.
   */
  lemma OneExecutorIsOrderly(p: Plan, actions: seq<Action>)
    requires |Reach(p, actions).executors| <= 1
    ensures Settles(p, Reach(p, actions).run)
    ensures Reach(p, actions).executors == [Done] ==>
              Ended(Reach(p, actions).run) && StepRunning !in Reach(p, actions).run.steps
  {
    var s := Reach(p, actions);
    SoloAlways(p, actions);
    var pc := if s.executors == [] then AfterStep(p, 0) else s.executors[0];
    match pc {
      case AtStep(i) => assert Shaped(s.run.steps, i);
      case InTool(i) => assert Shaped(s.run.steps, i);
      case Calling(i) => assert Shaped(s.run.steps, i);
      case Settled(i) => assert Shaped(s.run.steps, i + 1);
      case Failing(step) => FailingIsShaped(p, s.run, step);
      case Finishing => assert Shaped(s.run.steps, p.count);
      case Done =>
    }
  }

  /**
   With any number of executors: one that is about to record a failure turns the step it names, if any, into a
   failed one and leaves every other step as it is; the run becomes failed and loses its pending arguments.
   */
  lemma FailureMarksItsStep(p: Plan, actions: seq<Action>, e: nat, outcome: Outcome)
    requires e < |Reach(p, actions).executors| && Reach(p, actions).executors[e].Failing?
    ensures
      var s, t := Reach(p, actions), Reach(p, actions + [Advance(e, outcome)]);
      var step := s.executors[e].step;
      && t.executors == s.executors[e := Done] && |t.run.steps| == |s.run.steps|
      && (forall k | 0 <= k < |t.run.steps| :: t.run.steps[k] == if step == Some(k) then StepFailed else s.run.steps[k])
      && t.run.status == Failed && t.run.pending == {} && t.run.log == s.run.log + [RunFailed]
      && t.run.cancelRequested == s.run.cancelRequested && t.run.approvalRequired == s.run.approvalRequired
  {
    ReachNext(p, actions, Advance(e, outcome));
  }

  lemma ReachNext(p: Plan, actions: seq<Action>, a: Action)
    ensures Reach(p, actions + [a]) == Next(p, Reach(p, actions), a)
  {
    assert (actions + [a])[..|actions|] == actions;
  }

  /** What the three requests do to a system: only an execute request adds an executor. */
  lemma RequestsMean(p: Plan, s: System)
    requires WellFormed(p, s)
    ensures Next(p, s, DoApprove) ==
            if s.run.status == AwaitingApproval && s.run.approvalRequired then
              s.(run := s.run.(status := Planned, approvalRequired := false, log := s.run.log + [Approved]))
            else s
    ensures Next(p, s, DoCancel) ==
            if s.run.status in {Completed, Failed, Cancelled} then s
            else s.(run := s.run.(status := Cancelled, cancelRequested := true, pending := {},
                                  log := s.run.log + [CancelledByUser]))
    ensures Next(p, s, DoExecute) ==
            if s.run.status in {Completed, Failed, Cancelled} || s.run.approvalRequired then s
            else System(s.run.(status := Running, log := s.run.log + [Started]),
                        s.executors + [if p.count > 0 then AtStep(0) else Finishing])
  {
  }

  // ------------------------------------------------------- one block of an executor, outcome by outcome

  /** At the head of the loop a cancellation comes first, then the time limit; otherwise the step is claimed. */
  lemma HeadOfLoop(p: Plan, r: Run, i: nat, outcome: Outcome)
    requires |r.steps| == p.count && i < p.count
    ensures
      var (r', pc) := AdvanceOne(p, r, AtStep(i), outcome);
      if r.cancelRequested || r.status == Cancelled then
        && pc == Done && r' == r.(steps := r'.steps, log := r.log + [CancelObserved]) && |r'.steps| == |r.steps|
        && forall k | 0 <= k < |r.steps| ::
             r'.steps[k] == if r.steps[k] == StepPlanned then StepCancelled else r.steps[k]
      else if outcome == TimesOut then pc == Failing(Some(i)) && r' == r
      else pc == InTool(i) && r' == r.(steps := r.steps[i := StepRunning], log := r.log + [StepStarted(i)])
  {
  }

  /**
   The tool is called, with the pending arguments or else the stored ones, unless these are incomplete; the step is
   completed; its arguments are dropped; and a time-out after it fails the run, but not the step.
   */
  lemma BodyOfLoop(p: Plan, r: Run, i: nat, outcome: Outcome)
    requires |r.steps| == p.count && i < p.count
    ensures
      var called := outcome != Raises && (i in r.pending || i !in p.omitted);
      AdvanceOne(p, r, InTool(i), outcome)
      == if called then (r.(log := r.log + [ToolCalled(i, i in r.pending)]), Calling(i)) else (r, Failing(Some(i)))
    ensures AdvanceOne(p, r, Calling(i), outcome)
            == if outcome == Raises then (r, Failing(Some(i)))
               else (r.(steps := r.steps[i := StepCompleted], log := r.log + [StepDone(i)]), Settled(i))
    ensures AdvanceOne(p, r, Settled(i), outcome)
            == if outcome == Raises then (r, Failing(Some(i)))
               else (r.(pending := r.pending - {i}),
                     if outcome == TimesOut then Failing(None)
                     else if i + 1 < p.count then AtStep(i + 1)
                     else Finishing)
  {
  }
}
