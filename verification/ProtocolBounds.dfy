/** Budgets and attempt caps hold in every reachable state, however calls interleave. */
module ProtocolBounds {
  import opened Model
  import opened Engine
  import opened EngineLaws
  import opened Tools
  import opened Protocol
  import opened ProtocolInvariant
  import opened ProtocolMoney

  /** What the policy loader accepts: budgets are not negative and at least one action is allowed. */
  ghost predicate Loaded(p: Policy) {
    && (p.budgetTokens.Some? ==> p.budgetTokens.value >= 0)
    && (p.budgetAmount.Some? ==> p.budgetAmount.value >= 0.0)
    && (p.maxActions.Some? ==> p.maxActions.value >= 1)
  }

  ghost predicate AllLoaded(cfg: Config) {
    forall p :: p in cfg.policies ==> Loaded(p)
  }

  lemma {:induction false} OverrunIsNonNegative(calls: seq<Call>)
    ensures Sum(OverrunOf, calls) >= 0.0
  {
    if calls != [] {
      OverrunIsNonNegative(calls[..|calls| - 1]);
    }
  }

  // ---- Budgets --------------------------------------------------------------------------------------

  ghost predicate TokensWithin(p: Policy, spent: int, overrun: real) {
    p.budgetTokens.Some? ==> spent as real <= p.budgetTokens.value as real + overrun
  }

  ghost predicate AmountWithin(p: Policy, spent: real) {
    p.budgetAmount.Some? ==> spent <= p.budgetAmount.value
  }

  ghost predicate Within(cfg: Config, tokens: int, amount: real, overrun: real) {
    forall p :: p in cfg.policies ==> TokensWithin(p, tokens, overrun) && AmountWithin(p, amount)
  }

  /** The call holding the lock with an allowance in hand still fits every budget when it reserves. */
  ghost predicate Cleared(cfg: Config, s: State) {
    s.lock.Some? && s.lock.value < |s.calls| ==>
      var k := s.calls[s.lock.value];
      (k.phase.Deciding? || k.phase.Recorded?) && k.verdict.Some? && k.verdict.value.decision.effect == Allow ==>
        Within(cfg, s.spentTokens + Price(k).tokens, s.spentAmount + Price(k).amount, Sum(OverrunOf, s.calls))
  }

  ghost predicate Budgeted(cfg: Config, s: State) {
    Within(cfg, s.spentTokens, s.spentAmount, Sum(OverrunOf, s.calls)) && Cleared(cfg, s)
  }

  /** An action that no policy denies fits every budget at the moment it is judged. */
  lemma JudgedFits(cfg: Config, s: State, a: Action, offset: int)
    requires Within(cfg, s.spentTokens, s.spentAmount, Sum(OverrunOf, s.calls))
    requires EvaluateAll(cfg.text, cfg.policies, a, Context(cfg, s, offset)).effect != Deny
    ensures Within(cfg, s.spentTokens + a.cost.tokens, s.spentAmount + a.cost.amount, Sum(OverrunOf, s.calls))
  {
    NotDeniedIsWithinLimits(cfg.text, cfg.policies, a, Context(cfg, s, offset));
    OverrunIsNonNegative(s.calls);
    forall p | p in cfg.policies
      ensures TokensWithin(p, s.spentTokens + a.cost.tokens, Sum(OverrunOf, s.calls))
      ensures AmountWithin(p, s.spentAmount + a.cost.amount)
    {
      assert TokensWithin(p, s.spentTokens, Sum(OverrunOf, s.calls)) && AmountWithin(p, s.spentAmount);
      var i :| 0 <= i < |cfg.policies| && cfg.policies[i] == p;
      assert WithinLimits(cfg.policies[i], a, Context(cfg, s, offset));
    }
  }

  lemma AdmitBudgeted(cfg: Config, s: State, c: nat, a: Admission)
    requires Budgeted(cfg, s) && CanAdmit(s, c, a) && Here(cfg, s, c)
    ensures Budgeted(cfg, Admitted(cfg, s, c, a))
  {
    var s' := Admitted(cfg, s, c, a);
    SumUpdate(OverrunOf, s.calls, c, s'.calls[c]);
    assert s'.calls == s.calls[c := s'.calls[c]];
    if a.Decide? && Build(cfg.lib, a.req).Some? {
      var action := Build(cfg.lib, a.req).value;
      var engine := EvaluateAll(cfg.text, cfg.policies, action, Context(cfg, s, 0));
      assert s'.calls[c].verdict.value.decision.effect == Allow ==> engine.effect == Allow;
      if engine.effect == Allow {
        JudgedFits(cfg, s, action, 0);
      }
    }
  }

  /** A step of call c that touches neither spend nor anything the lock holder has in hand. */
  ghost predicate SpendsNothing(s: State, s': State, c: nat, k': Call) {
    && c < |s.calls| && s'.calls == s.calls[c := k'] && (s'.lock == s.lock || s'.lock.None?)
    && s'.spentTokens == s.spentTokens && s'.spentAmount == s.spentAmount
    && OverrunOf(k') == OverrunOf(s.calls[c]) && !k'.phase.Deciding? && !k'.phase.Recorded?
  }

  lemma QuietBudgeted(cfg: Config, s: State, s': State, c: nat, k': Call)
    requires Budgeted(cfg, s) && SpendsNothing(s, s', c, k')
    ensures Budgeted(cfg, s')
  {
    SumUpdate(OverrunOf, s.calls, c, k');
  }

  lemma WaitSpendsNothing(cfg: Config, s: State, c: nat, w: Wait)
    requires CanHold(s, c, w)
    ensures exists k' :: SpendsNothing(s, Held(cfg, s, c, w), c, k')
  {
    var s' := Held(cfg, s, c, w);
    assert SpendsNothing(s, s', c, s'.calls[c]);
  }

  lemma ExecutionSpendsNothing(cfg: Config, s: State, c: nat, x: Execution)
    requires CanExecute(s, c, x) && !x.Recheck? && !x.Finish?
    ensures exists k' :: SpendsNothing(s, Executed(cfg, s, c, x), c, k')
  {
    var s' := Executed(cfg, s, c, x);
    assert SpendsNothing(s, s', c, s'.calls[c]);
  }

  lemma RecheckBudgeted(cfg: Config, s: State, c: nat, fails: bool)
    requires Budgeted(cfg, s) && CanExecute(s, c, Recheck(fails)) && Here(cfg, s, c)
    ensures Budgeted(cfg, AfterRecheck(cfg, s, c, fails))
  {
    var s' := AfterRecheck(cfg, s, c, fails);
    SumUpdate(OverrunOf, s.calls, c, s'.calls[c]);
    if OpinionOf(cfg, s, c, fails).Passes? {
      JudgedFits(cfg, s, s.calls[c].verdict.value.action, -1);
    }
  }

  lemma ExecuteBudgeted(cfg: Config, s: State, c: nat, x: Execution)
    requires Budgeted(cfg, s) && CanExecute(s, c, x) && Here(cfg, s, c)
    ensures Budgeted(cfg, Executed(cfg, s, c, x))
  {
    match x
    case Recheck(fails) => RecheckBudgeted(cfg, s, c, fails);
    case Finish(toolOk, reported) => FinishWidens(cfg, s, c, toolOk, reported);
    case _ =>
      ExecutionSpendsNothing(cfg, s, c, x);
      var k' :| SpendsNothing(s, Executed(cfg, s, c, x), c, k');
      QuietBudgeted(cfg, s, Executed(cfg, s, c, x), c, k');
  }

  /** Reconciling outside the lock moves the spend by no more than it moves the overrun. */
  lemma FinishWidens(cfg: Config, s: State, c: nat, toolOk: bool, reported: int)
    requires Budgeted(cfg, s) && Stands(s, c, Running) && Charged(s, c) && Here(cfg, s, c)
    ensures Budgeted(cfg, AfterFinish(s, c, toolOk, reported))
  {
    var s' := AfterFinish(s, c, toolOk, reported);
    var more := Sum(OverrunOf, s'.calls) - Sum(OverrunOf, s.calls);
    SumUpdate(OverrunOf, s.calls, c, s'.calls[c]);
    assert s'.calls == s.calls[c := s'.calls[c]];
    assert (s'.spentTokens - s.spentTokens) as real <= more;
    Widen(cfg, s.spentTokens, s'.spentTokens, s.spentAmount, Sum(OverrunOf, s.calls), Sum(OverrunOf, s'.calls));
    if s.lock.Some? && s.lock.value < |s.calls| && s.calls[s.lock.value].verdict.Some? {
      var cost := Price(s.calls[s.lock.value]);
      assert s.lock.value != c;
      if Within(cfg, s.spentTokens + cost.tokens, s.spentAmount + cost.amount, Sum(OverrunOf, s.calls)) {
        Widen(cfg, s.spentTokens + cost.tokens, s'.spentTokens + cost.tokens, s.spentAmount + cost.amount,
              Sum(OverrunOf, s.calls), Sum(OverrunOf, s'.calls));
      }
    }
  }

  lemma Widen(cfg: Config, tokens: int, tokens': int, amount: real, overrun: real, overrun': real)
    requires Within(cfg, tokens, amount, overrun)
    requires (tokens' - tokens) as real <= overrun' - overrun
    ensures Within(cfg, tokens', amount, overrun')
  {
    forall p | p in cfg.policies
      ensures TokensWithin(p, tokens', overrun') && AmountWithin(p, amount)
    {
      assert TokensWithin(p, tokens, overrun) && AmountWithin(p, amount);
    }
  }

  lemma HoldBudgeted(cfg: Config, s: State, c: nat, w: Wait)
    requires Budgeted(cfg, s) && CanHold(s, c, w)
    ensures Budgeted(cfg, Held(cfg, s, c, w))
  {
    WaitSpendsNothing(cfg, s, c, w);
    var k' :| SpendsNothing(s, Held(cfg, s, c, w), c, k');
    QuietBudgeted(cfg, s, Held(cfg, s, c, w), c, k');
  }

  lemma CancelBudgeted(cfg: Config, s: State, c: nat)
    requires Budgeted(cfg, s) && CanCancel(s, c) && Here(cfg, s, c)
    ensures Budgeted(cfg, AfterCancel(s, c))
  {
    var s' := AfterCancel(s, c);
    SumUpdate(OverrunOf, s.calls, c, s'.calls[c]);
    assert s'.calls == s.calls[c := s'.calls[c]];
  }

  lemma ArriveBudgeted(cfg: Config, s: State)
    requires Budgeted(cfg, s) && LockOk(s)
    ensures Budgeted(cfg, s.(calls := s.calls + [NEW_CALL]))
  {
    SumAppend(OverrunOf, s.calls, NEW_CALL);
  }

  lemma StepBudgeted(cfg: Config, s: State, e: Event)
    requires Inv(cfg, s) && Budgeted(cfg, s)
    ensures Budgeted(cfg, Step(cfg, s, e))
  {
    match e
    case Arrive => ArriveBudgeted(cfg, s);
    case Admit(c, a) =>
      if CanAdmit(s, c, a) {
        InvHere(cfg, s, c);
        AdmitBudgeted(cfg, s, c, a);
      }
    case Hold(c, w) =>
      if CanHold(s, c, w) {
        InvHere(cfg, s, c);
        HoldBudgeted(cfg, s, c, w);
      }
    case Execute(c, x) =>
      if CanExecute(s, c, x) {
        InvHere(cfg, s, c);
        ExecuteBudgeted(cfg, s, c, x);
      }
    case Cancel(c) =>
      if CanCancel(s, c) {
        InvHere(cfg, s, c);
        CancelBudgeted(cfg, s, c);
      }
    case _ => OutsideBudgeted(cfg, s, Step(cfg, s, e));
  }

  lemma OutsideBudgeted(cfg: Config, s: State, s': State)
    requires Budgeted(cfg, s)
    requires s'.calls == s.calls && s'.lock == s.lock && s'.spentTokens == s.spentTokens && s'.spentAmount == s.spentAmount
    ensures Budgeted(cfg, s')
  {
  }

  // ---- Attempts -------------------------------------------------------------------------------------

  ghost predicate Capped(cfg: Config, passed: real) {
    && passed <= cfg.cap as real
    && forall p :: p in cfg.policies && p.maxActions.Some? ==> passed <= p.maxActions.value as real
  }

  /** Every judged attempt took its own, already used, action count; and is priced by its tool. */
  ghost predicate AttemptOk(cfg: Config, s: State, c: nat)
    requires c < |s.calls|
  {
    s.calls[c].verdict.Some? ==>
      && 0 <= s.calls[c].verdict.value.ctx.actionCount < s.actionCount
      && s.calls[c].verdict.value.ctx.agentId == cfg.agentId && s.calls[c].verdict.value.ctx.sessionId == cfg.sessionId
      && exists req :: Build(cfg.lib, req) == Some(s.calls[c].verdict.value.action)
  }

  ghost predicate Distinct(s: State) {
    forall c, d :: 0 <= c < d < |s.calls| && s.calls[c].verdict.Some? && s.calls[d].verdict.Some? ==>
      s.calls[c].verdict.value.ctx.actionCount != s.calls[d].verdict.value.ctx.actionCount
  }

  ghost predicate Attempts(cfg: Config, s: State) {
    && Sum(PassedOf, s.calls) <= s.actionCount as real
    && Capped(cfg, Sum(PassedOf, s.calls))
    && (forall c :: 0 <= c < |s.calls| ==> AttemptOk(cfg, s, c))
    && Distinct(s)
  }

  /** A verdict that is not a denial was within every limit with the count it took. */
  lemma PassedIsCapped(cfg: Config, v: Verdict, action: Action, ctx: EvalContext, fails: bool)
    requires v == Judge(cfg, action, ctx, fails) && v.decision.effect != Deny
    ensures Capped(cfg, (ctx.actionCount + 1) as real)
  {
    NotDeniedIsWithinLimits(cfg.text, cfg.policies, action, ctx);
    forall p | p in cfg.policies && p.maxActions.Some?
      ensures ctx.actionCount + 1 <= p.maxActions.value
    {
      var i :| 0 <= i < |cfg.policies| && cfg.policies[i] == p;
      assert WithinLimits(cfg.policies[i], action, ctx);
    }
  }

  lemma JudgeAttempts(cfg: Config, s: State, s': State, c: nat, v: Verdict, req: Request)
    requires Attempts(cfg, s) && c < |s.calls| && s.calls[c].verdict.None? && Build(cfg.lib, req) == Some(v.action)
    requires s'.actionCount == s.actionCount + 1 && v.ctx == Context(cfg, s, 0)
    requires v.decision.effect != Deny ==> Capped(cfg, s'.actionCount as real)
    requires s'.calls == s.calls[c := s.calls[c].(phase := Deciding, verdict := Some(v))]
    ensures Attempts(cfg, s')
  {
    SumUpdate(PassedOf, s.calls, c, s'.calls[c]);
    forall d | 0 <= d < |s'.calls|
      ensures AttemptOk(cfg, s', d)
    {
      assert AttemptOk(cfg, s, d);
    }
    forall a, b | 0 <= a < b < |s'.calls| && s'.calls[a].verdict.Some? && s'.calls[b].verdict.Some?
      ensures s'.calls[a].verdict.value.ctx.actionCount != s'.calls[b].verdict.value.ctx.actionCount
    {
      assert AttemptOk(cfg, s, a) && AttemptOk(cfg, s, b);
    }
  }

  lemma DecideAttempts(cfg: Config, s: State, c: nat, req: Request, fails: bool)
    requires Attempts(cfg, s) && Stands(s, c, Arrived) && s.calls[c].verdict.None?
    ensures Attempts(cfg, AfterDecide(cfg, s, c, req, fails))
  {
    var s' := AfterDecide(cfg, s, c, req, fails);
    match Build(cfg.lib, req)
    case None => SameVerdicts(cfg, s, s');
    case Some(action) =>
      var v := Judge(cfg, action, Context(cfg, s, 0), fails);
      if v.decision.effect != Deny {
        PassedIsCapped(cfg, v, action, Context(cfg, s, 0), fails);
      }
      JudgeAttempts(cfg, s, s', c, v, req);
  }

  /** Steps that judge nothing leave the attempts as they were. */
  lemma SameVerdicts(cfg: Config, s: State, s': State)
    requires Attempts(cfg, s) && s'.actionCount >= s.actionCount && |s'.calls| == |s.calls|
    requires forall c :: 0 <= c < |s.calls| ==> s'.calls[c].verdict == s.calls[c].verdict
    ensures Attempts(cfg, s')
  {
    SamePassed(s.calls, s'.calls);
    forall c | 0 <= c < |s'.calls|
      ensures AttemptOk(cfg, s', c)
    {
      assert AttemptOk(cfg, s, c);
    }
  }

  lemma {:induction false} SamePassed(calls: seq<Call>, calls': seq<Call>)
    requires |calls'| == |calls|
    requires forall c :: 0 <= c < |calls| ==> calls'[c].verdict == calls[c].verdict
    ensures Sum(PassedOf, calls') == Sum(PassedOf, calls)
  {
    if calls != [] {
      SamePassed(calls[..|calls| - 1], calls'[..|calls| - 1]);
    }
  }

  lemma StepAttempts(cfg: Config, s: State, e: Event)
    requires Inv(cfg, s) && Attempts(cfg, s)
    ensures Attempts(cfg, Step(cfg, s, e))
  {
    if e.Arrive? {
      SumAppend(PassedOf, s.calls, NEW_CALL);
      var s' := Step(cfg, s, e);
      forall c | 0 <= c < |s'.calls|
        ensures AttemptOk(cfg, s', c)
      {
        if c < |s.calls| {
          assert AttemptOk(cfg, s, c);
        }
      }
    } else if e.Admit? && e.admission.Decide? {
      if CanAdmit(s, e.c, e.admission) {
        InvHere(cfg, s, e.c);
        DecideAttempts(cfg, s, e.c, e.admission.req, e.admission.engineFails);
      }
    } else {
      OtherKeepsVerdicts(cfg, s, e);
      SameVerdicts(cfg, s, Step(cfg, s, e));
    }
  }

  /** A step of call c that judges nothing. */
  ghost predicate KeepsVerdict(s: State, s': State, c: nat) {
    && s'.actionCount == s.actionCount && |s'.calls| == |s.calls|
    && (c < |s.calls| ==> s'.calls[c].verdict == s.calls[c].verdict)
  }

  lemma AdmissionKeepsVerdict(cfg: Config, s: State, c: nat, a: Admission)
    requires CanAdmit(s, c, a) && !a.Decide?
    ensures KeepsVerdict(s, Admitted(cfg, s, c, a), c)
  {
  }

  lemma WaitKeepsVerdict(cfg: Config, s: State, c: nat, w: Wait)
    requires CanHold(s, c, w)
    ensures KeepsVerdict(s, Held(cfg, s, c, w), c)
  {
  }

  lemma ExecutionKeepsVerdict(cfg: Config, s: State, c: nat, x: Execution)
    requires CanExecute(s, c, x)
    ensures KeepsVerdict(s, Executed(cfg, s, c, x), c)
  {
  }

  lemma OtherKeepsVerdicts(cfg: Config, s: State, e: Event)
    requires !e.Arrive? && !(e.Admit? && e.admission.Decide?)
    ensures var s' := Step(cfg, s, e);
            && s'.actionCount == s.actionCount && |s'.calls| == |s.calls|
            && forall c :: 0 <= c < |s.calls| ==> s'.calls[c].verdict == s.calls[c].verdict
  {
    StepFrames(cfg, s, e);
    if e.Admit? && CanAdmit(s, e.c, e.admission) {
      AdmissionKeepsVerdict(cfg, s, e.c, e.admission);
    } else if e.Hold? && CanHold(s, e.c, e.wait) {
      WaitKeepsVerdict(cfg, s, e.c, e.wait);
    } else if e.Execute? && CanExecute(s, e.c, e.execution) {
      ExecutionKeepsVerdict(cfg, s, e.c, e.execution);
    }
  }
}
