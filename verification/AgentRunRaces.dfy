/** What concurrent requests can still do to an agent run, and exactly when. */
module AgentRunRaces {
  import opened Sorting
  import opened AgentRuns

  // ------------------------------------------------------- a failure after a cancellation

  /** The executor stands between the claim of a step and the block that settles or fails it. */
  predicate MidStep(pc: Pc) { pc.InTool? || pc.Calling? || pc.Settled? || pc.Failing? }

  ghost predicate SomeMidStep(s: System) {
    exists e :: 0 <= e < |s.executors| && MidStep(s.executors[e])
  }

  /** A cancelled run without an executor inside a step stays cancelled, and no executor gets inside one. */
  lemma QuietStaysCancelled(p: Plan, s: System, a: Action)
    requires WellFormed(p, s) && s.run.cancelRequested && s.run.status == Cancelled && !SomeMidStep(s)
    ensures Next(p, s, a).run.cancelRequested && Next(p, s, a).run.status == Cancelled && !SomeMidStep(Next(p, s, a))
  {
    if a.Advance? && a.executor < |s.executors| {
      assert !MidStep(s.executors[a.executor]);
      forall e | 0 <= e < |s.executors| ensures !MidStep(Next(p, s, a).executors[e]) {
        assert !MidStep(s.executors[e]);
      }
    }
  }

  lemma {:induction false} QuietForever(p: Plan, actions: seq<Action>, more: seq<Action>)
    requires
      var s := Reach(p, actions);
      s.run.cancelRequested && s.run.status == Cancelled && !SomeMidStep(s)
    ensures
      var t := Reach(p, actions + more);
      t.run.cancelRequested && t.run.status == Cancelled && !SomeMidStep(t)
  {
    if more == [] {
      assert actions + more == actions;
    } else {
      var n := |more| - 1;
      QuietForever(p, actions, more[..n]);
      assert actions + more == (actions + more[..n]) + [more[n]];
      ReachNext(p, actions + more[..n], more[n]);
      QuietStaysCancelled(p, Reach(p, actions + more[..n]), more[n]);
    }
  }

  /** An executor inside a step can raise, whatever has become of the run. */
  lemma MidStepCanFail(p: Plan, actions: seq<Action>, e: nat) returns (more: seq<Action>)
    requires e < |Reach(p, actions).executors| && MidStep(Reach(p, actions).executors[e])
    ensures Reach(p, actions + more).run.status == Failed
  {
    if Reach(p, actions).executors[e].Failing? {
      more := [Advance(e, Proceeds)];
      ReachNext(p, actions, Advance(e, Proceeds));
    } else {
      ReachNext(p, actions, Advance(e, Raises));
      more := [Advance(e, Raises)] + [Advance(e, Proceeds)];
      ReachNext(p, actions + [Advance(e, Raises)], Advance(e, Proceeds));
      AppendAssociates(actions, [Advance(e, Raises)], [Advance(e, Proceeds)]);
    }
  }

  /**
   A run that is cancelled now can still turn failed exactly when, at the moment of the cancellation, some
   executor is inside a step; otherwise it stays cancelled whatever is called.
   */
  lemma CancelCanFailIff(p: Plan, actions: seq<Action>)
    requires !Terminal(Reach(p, actions).run.status)
    ensures (exists more :: Reach(p, actions + [DoCancel] + more).run.status == Failed)
        <==> SomeMidStep(Reach(p, actions))
    ensures !SomeMidStep(Reach(p, actions)) ==>
      forall more :: Reach(p, actions + [DoCancel] + more).run.status == Cancelled
  {
    ReachNext(p, actions, DoCancel);
    if e :| 0 <= e < |Reach(p, actions).executors| && MidStep(Reach(p, actions).executors[e]) {
      var more := MidStepCanFail(p, actions + [DoCancel], e);
    } else {
      forall more ensures Reach(p, actions + [DoCancel] + more).run.status == Cancelled {
        QuietForever(p, actions + [DoCancel], more);
      }
    }
  }

  const ONE_STEP := Plan(1, false, {})

  /** One executor has claimed the only step. */
  lemma ClaimedOnce()
    ensures
      var s := Reach(ONE_STEP, [DoExecute] + [Advance(0, Proceeds)]);
      && s.executors == [InTool(0)] && s.run.steps == [StepRunning]
      && s.run.status == Running && !s.run.cancelRequested && !s.run.approvalRequired
  {
    ReachNext(ONE_STEP, [], DoExecute);
    ReachNext(ONE_STEP, [DoExecute], Advance(0, Proceeds));
    assert [] + [DoExecute] == [DoExecute];
  }

  /** A failure that arrives after a cancellation turns the cancelled run into a failed one. */
  lemma CancelledCanTurnFailed() returns (actions: seq<Action>)
    ensures |Reach(ONE_STEP, actions).executors| == 1
    ensures CancelledByUser in Reach(ONE_STEP, actions).run.log && Reach(ONE_STEP, actions).run.status == Failed
  {
    ClaimedOnce();
    actions := [DoExecute] + [Advance(0, Proceeds)];
    ReachNext(ONE_STEP, actions, DoCancel);
    actions := actions + [DoCancel];
    ReachNext(ONE_STEP, actions, Advance(0, Raises));
    actions := actions + [Advance(0, Raises)];
    ReachNext(ONE_STEP, actions, Advance(0, Proceeds));
    actions := actions + [Advance(0, Proceeds)];
  }

  // ------------------------------------------------------- two executors

  /**
   Two executors have begun: the first is at step i with all steps before it completed, the second has done
   nothing.
   */
  ghost predicate Ahead(p: Plan, s: System, pc: Pc, i: nat) {
    && s.executors == [pc, AtStep(0)] && |s.run.steps| == p.count
    && s.run.status == Running && !s.run.cancelRequested
    && (forall k | 0 <= k < i && k < p.count :: s.run.steps[k] == StepCompleted)
    && (forall k: nat | i <= k < p.count :: k in s.run.pending)
  }

  lemma {:induction false} BelowHas(n: nat, k: nat)
    ensures k in Below(n) <==> k < n
  {
    if n > 0 { BelowHas(n - 1, k); }
  }

  lemma BothBegin(p: Plan) returns (actions: seq<Action>)
    requires p.count > 0
    ensures Ahead(p, Reach(p, actions), AtStep(0), 0)
  {
    forall k: nat ensures k in Below(p.count) <==> k < p.count { BelowHas(p.count, k); }
    actions := [];
    ReachNext(p, actions, DoApprove);
    actions := actions + [DoApprove];
    ReachNext(p, actions, DoExecute);
    actions := actions + [DoExecute];
    ReachNext(p, actions, DoExecute);
    actions := actions + [DoExecute];
  }

  /** The first executor completes its step undisturbed, in four blocks. */
  lemma OneStepAhead(p: Plan, actions: seq<Action>, i: nat) returns (more: seq<Action>)
    requires i < p.count && Ahead(p, Reach(p, actions), AtStep(i), i)
    ensures Ahead(p, Reach(p, more), AfterStep(p, i + 1), i + 1)
  {
    var go := Advance(0, Proceeds);
    ReachNext(p, actions, go);
    ReachNext(p, actions + [go], go);
    ReachNext(p, actions + [go] + [go], go);
    ReachNext(p, actions + [go] + [go] + [go], go);
    more := actions + [go] + [go] + [go] + [go];
  }

  lemma {:induction false} StepsAhead(p: Plan, i: nat) returns (actions: seq<Action>)
    requires 0 < i <= p.count
    ensures Ahead(p, Reach(p, actions), AfterStep(p, i), i)
  {
    if i == 1 {
      actions := BothBegin(p);
    } else {
      actions := StepsAhead(p, i - 1);
    }
    actions := OneStepAhead(p, actions, i - 1);
  }

  /** With two executors any run with a step can be completed while its first step is running again. */
  lemma TwoExecutorsBreakCompletion(p: Plan) returns (actions: seq<Action>)
    requires p.count > 0
    ensures |Reach(p, actions).executors| == 2
    ensures Reach(p, actions).run.status == Completed && Reach(p, actions).run.steps[0] == StepRunning
  {
    actions := StepsAhead(p, p.count);
    ReachNext(p, actions, Advance(1, Proceeds));
    actions := actions + [Advance(1, Proceeds)];
    ReachNext(p, actions, Advance(0, Proceeds));
    actions := actions + [Advance(0, Proceeds)];
  }

  ghost predicate AllCompleted(p: Plan, s: System) {
    s.run.status == Completed ==> AllFrom(s.run.steps, 0, p.count, StepCompleted)
  }

  /**
   With up to n executors a completed run has every step completed exactly when n is at most one, or there is no
   step.
   */
  lemma OneExecutorIsTheBound(p: Plan, n: nat)
    ensures (forall actions | |Reach(p, actions).executors| <= n :: AllCompleted(p, Reach(p, actions)))
        <==> n <= 1 || p.count == 0
  {
    if n <= 1 || p.count == 0 {
      forall actions | |Reach(p, actions).executors| <= n ensures AllCompleted(p, Reach(p, actions)) {
        if n <= 1 { OneExecutorIsOrderly(p, actions); }
      }
    } else {
      var actions := TwoExecutorsBreakCompletion(p);
      assert !AllCompleted(p, Reach(p, actions));
    }
  }
}
