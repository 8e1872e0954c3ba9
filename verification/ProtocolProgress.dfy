/** The protocol gets somewhere: what the uninterrupted steps of a call lead to, from any run of the session. */
module ProtocolProgress {
  import opened Json
  import opened Model
  import opened Engine
  import opened EngineLaws
  import opened Tools
  import opened Protocol
  import opened ProtocolInvariant
  import opened ProtocolSafety

  lemma {:induction false} RunAdmit(cfg: Config, events: seq<Event>, c: nat, a: Admission)
    requires CanAdmit(Run(cfg, events), c, a)
    ensures Run(cfg, events + [Admit(c, a)]) == Admitted(cfg, Run(cfg, events), c, a)
  {
    RunStep(cfg, events, Admit(c, a));
  }

  lemma {:induction false} RunExecute(cfg: Config, events: seq<Event>, c: nat, x: Execution)
    requires CanExecute(Run(cfg, events), c, x)
    ensures Run(cfg, events + [Execute(c, x)]) == Executed(cfg, Run(cfg, events), c, x)
  {
    RunStep(cfg, events, Execute(c, x));
  }

  lemma {:induction false} RunCancel(cfg: Config, events: seq<Event>, c: nat)
    requires CanCancel(Run(cfg, events), c)
    ensures Run(cfg, events + [Cancel(c)]) == AfterCancel(Run(cfg, events), c)
  {
    RunStep(cfg, events, Cancel(c));
  }

  /** A call that arrives stands in line; rows written outside calls are in the log, and nothing else has moved. */
  lemma {:induction false} OutsideCalls(cfg: Config, events: seq<Event>, ruleId: string, progress: bool)
    ensures var s, s' := Run(cfg, events), Run(cfg, events + [Arrive]);
            && s'.calls == s.calls + [Call(Arrived, None, None, None, None)] && s' == s.(calls := s'.calls)
    ensures Run(cfg, events + [Refuse(ruleId)]) == Run(cfg, events).(audit := Run(cfg, events).audit + [Refused(ruleId)])
    ensures Run(cfg, events + [Report(progress)]) == Run(cfg, events).(audit := Run(cfg, events).audit + [Reported(progress)])
  {
    RunStep(cfg, events, Arrive);
    RunStep(cfg, events, Refuse(ruleId));
    RunStep(cfg, events, Report(progress));
  }

  // ---- Admission ------------------------------------------------------------------------------------

  /** What the attempt is judged with. */
  function Attempt(cfg: Config, s: State): EvalContext {
    EvalContext(cfg.agentId, cfg.sessionId, s.spentTokens, s.spentAmount, s.actionCount)
  }

  /** The decision recorded for an attempt made in this state: the cap comes first, then a failing engine, then its answer. */
  ghost predicate Answers(cfg: Config, s: State, a: Action, fails: bool, d: Decision, byEngine: bool) {
    && (byEngine <==> s.actionCount < cfg.cap && !fails)
    && (if s.actionCount >= cfg.cap then d.effect == Deny && d.ruleId == "harness:action-cap"
        else if fails then d.effect == Deny && d.ruleId == "harness:engine-error"
        else d == EvaluateAll(cfg.text, cfg.policies, a, Attempt(cfg, s)))
  }

  /** The attempt has been decided and recorded, and what was allowed is reserved. */
  ghost predicate Decides(cfg: Config, s: State, s': State, c: nat, a: Action, fails: bool) {
    && |s'.audit| == |s.audit| + 1 && s.audit <= s'.audit && s'.audit[|s.audit|].Decided?
    && var row := s'.audit[|s.audit|];
       && row == Row.Decided(c, a, cfg.digest(a), Attempt(cfg, s), row.decision, row.byEngine)
       && Answers(cfg, s, a, fails, row.decision, row.byEngine)
       && s'.lock == None && s'.actionCount == s.actionCount + 1 && |s'.calls| == |s.calls|
       && s'.spentTokens == s.spentTokens + (if row.decision.effect == Allow then a.cost.tokens else 0)
       && s'.spentAmount == s.spentAmount + (if row.decision.effect == Allow then a.cost.amount else 0.0)
       && c < |s.calls| && s'.calls[c].verdict.Some? && s'.calls[c].verdict.value.action == a
       && match row.decision.effect
          case Allow => s'.calls[c].phase == Granted && s'.calls[c].charge.Some?
          case Deny => s'.calls[c].phase == Done && s'.calls[c].charge.None?
          case RequireApproval => s'.calls[c].phase == Creating && s'.calls[c].charge.None?
  }

  lemma DecisionPath(cfg: Config, s: State, c: nat, req: Request, fails: bool)
    requires Stands(s, c, Arrived) && s.calls[c].charge.None? && Build(cfg.lib, req).Some?
    ensures var s1 := AfterDecide(cfg, s, c, req, fails);
            && Stands(s1, c, Deciding) && s1.calls[c].verdict.Some?
            && var s2 := AfterDecisionWritten(cfg, s1, c, true);
               && Stands(s2, c, Recorded) && s2.calls[c].verdict.Some?
               && Decides(cfg, s, AfterProceed(s2, c), c, Build(cfg.lib, req).value, fails)
  {
    var s2 := AfterDecisionWritten(cfg, AfterDecide(cfg, s, c, req, fails), c, true);
    assert s2.audit[|s.audit|] == DecisionRow(cfg, c, s2.calls[c].verdict.value);
  }

  /** From any run: an attempt with good arguments is judged, recorded, and carried out as decided; the lock is free again. */
  lemma {:induction false} AttemptIsDecided(cfg: Config, events: seq<Event>, c: nat, req: Request, fails: bool)
    requires Stands(Run(cfg, events), c, Arrived) && Run(cfg, events).lock.None? && Build(cfg.lib, req).Some?
    ensures var path := events + [Admit(c, Decide(req, fails))] + [Admit(c, DecisionWritten(true))] + [Admit(c, Proceed)];
            Decides(cfg, Run(cfg, events), Run(cfg, path), c, Build(cfg.lib, req).value, fails)
  {
    RunKeeps(cfg, events);
    InvHere(cfg, Run(cfg, events), c);
    DecisionPath(cfg, Run(cfg, events), c, req, fails);
    RunAdmit(cfg, events, c, Decide(req, fails));
    RunAdmit(cfg, events + [Admit(c, Decide(req, fails))], c, DecisionWritten(true));
    RunAdmit(cfg, events + [Admit(c, Decide(req, fails))] + [Admit(c, DecisionWritten(true))], c, Proceed);
  }

  /** A call allowed at once reaches its tool exactly if the engine answers, the cap is not used up and every policy allows. */
  lemma {:induction false} AllowedReachesTool(cfg: Config, events: seq<Event>, c: nat, req: Request, fails: bool)
    requires Stands(Run(cfg, events), c, Arrived) && Run(cfg, events).lock.None? && Build(cfg.lib, req).Some?
    ensures var path := events + [Admit(c, Decide(req, fails))] + [Admit(c, DecisionWritten(true))] + [Admit(c, Proceed)];
            var s := Run(cfg, events);
            Reached(Run(cfg, path + [Execute(c, Start)]), c) <==>
            && !fails && s.actionCount < cfg.cap && cfg.policies != []
            && forall i :: 0 <= i < |cfg.policies| ==>
                 Evaluate(cfg.text, cfg.policies[i], Build(cfg.lib, req).value, Attempt(cfg, s)).effect == Allow
  {
    var path := events + [Admit(c, Decide(req, fails))] + [Admit(c, DecisionWritten(true))] + [Admit(c, Proceed)];
    AttemptIsDecided(cfg, events, c, req, fails);
    AllowNeedsEveryPolicy(cfg.text, cfg.policies, Build(cfg.lib, req).value, Attempt(cfg, Run(cfg, events)));
    StartsIfGranted(cfg, path, c);
  }

  lemma {:induction false} StartsIfGranted(cfg: Config, events: seq<Event>, c: nat)
    requires c < |Run(cfg, events).calls| && Run(cfg, events).calls[c].verdict.Some?
    requires var k := Run(cfg, events).calls[c];
             if k.charge.Some? then k.phase == Granted else k.phase == Done || k.phase == Creating || k.phase == Blocked
    ensures Reached(Run(cfg, events + [Execute(c, Start)]), c) <==> Run(cfg, events).calls[c].phase == Granted
  {
    RunStep(cfg, events, Execute(c, Start));
  }

  /** The row is in the log, the call is over without a charge of its own, and the lock is not in its hands. */
  ghost predicate Concludes(s: State, s': State, c: nat, row: Row) {
    && Stands(s', c, Done) && s'.audit == s.audit + [row] && c < |s.calls| && s'.calls[c].charge == s.calls[c].charge
    && s'.lock == (if s.lock == Some(c) then None else s.lock) && s'.ledger == s.ledger
    && s'.spentTokens == s.spentTokens && s'.spentAmount == s.spentAmount && s'.actionCount == s.actionCount
  }

  lemma LastWriteConcludes(s: State, c: nat, row: Row)
    requires c < |s.calls| && (HoldsLock(s.calls[c].phase) <==> s.lock == Some(c))
    ensures Concludes(s, LastWrite(s, c, row, true), c, row)
  {
  }

  lemma RefusalPath(cfg: Config, s: State, c: nat, req: Request, fails: bool)
    requires Stands(s, c, Arrived) && s.lock.None? && Build(cfg.lib, req).None?
    ensures var s1 := AfterDecide(cfg, s, c, req, fails);
            && Stands(s1, c, Refusing) && s1.lock == Some(c) && s1.actionCount == s.actionCount + 1 && s1.audit == s.audit
            && s1.spentTokens == s.spentTokens && s1.spentAmount == s.spentAmount && s1.calls[c].charge == s.calls[c].charge
  {
  }

  /** Bad arguments: the refusal is recorded, the attempt counted, and the call is over. */
  lemma {:induction false} BadArgumentsAreRefused(cfg: Config, events: seq<Event>, c: nat, req: Request, fails: bool)
    requires Stands(Run(cfg, events), c, Arrived) && Run(cfg, events).lock.None? && Build(cfg.lib, req).None?
    ensures var s := Run(cfg, events);
            var s' := Run(cfg, events + [Admit(c, Decide(req, fails))] + [Admit(c, RefusalWritten(true))]);
            && Stands(s', c, Done) && s'.lock == None && s'.actionCount == s.actionCount + 1
            && s'.audit == s.audit + [Refused("harness:invalid-arguments")]
            && s'.spentTokens == s.spentTokens && s'.spentAmount == s.spentAmount && s'.calls[c].charge == s.calls[c].charge
  {
    var s1 := AfterDecide(cfg, Run(cfg, events), c, req, fails);
    RefusalPath(cfg, Run(cfg, events), c, req, fails);
    LastWriteConcludes(s1, c, Refused("harness:invalid-arguments"));
    RunAdmit(cfg, events, c, Decide(req, fails));
    RunAdmit(cfg, events + [Admit(c, Decide(req, fails))], c, RefusalWritten(true));
  }

  lemma UnrecordedPath(cfg: Config, s: State, c: nat, req: Request, fails: bool)
    requires Stands(s, c, Arrived) && s.lock.None? && Build(cfg.lib, req).Some?
    ensures var s1 := AfterDecide(cfg, s, c, req, fails);
            && Stands(s1, c, Deciding) && s1.calls[c].verdict.Some?
            && var s2 := AfterDecisionWritten(cfg, s1, c, false);
               && Stands(s2, c, Done) && s2.lock == None && s2.audit == s.audit && s2.calls[c].charge == s.calls[c].charge
               && s2.spentTokens == s.spentTokens && s2.spentAmount == s.spentAmount
  {
  }

  /** A decision that cannot be recorded ends the call: nothing is charged, and the lock is free. */
  lemma {:induction false} UnrecordedIsNotActedOn(cfg: Config, events: seq<Event>, c: nat, req: Request, fails: bool)
    requires Stands(Run(cfg, events), c, Arrived) && Run(cfg, events).lock.None? && Build(cfg.lib, req).Some?
    ensures var s := Run(cfg, events);
            var s' := Run(cfg, events + [Admit(c, Decide(req, fails))] + [Admit(c, DecisionWritten(false))]);
            && Stands(s', c, Done) && s'.lock == None && s'.audit == s.audit && s'.calls[c].charge == s.calls[c].charge
            && s'.spentTokens == s.spentTokens && s'.spentAmount == s.spentAmount
  {
    UnrecordedPath(cfg, Run(cfg, events), c, req, fails);
    RunAdmit(cfg, events, c, Decide(req, fails));
    RunAdmit(cfg, events + [Admit(c, Decide(req, fails))], c, DecisionWritten(false));
  }

  // ---- Execution ------------------------------------------------------------------------------------

  lemma ExecutionPath(cfg: Config, s: State, c: nat, ok: bool, reported: int)
    requires Stands(s, c, Granted) && Charged(s, c) && !s.calls[c].charge.value.acted
    ensures var s1 := AfterStart(s, c);
            && Stands(s1, c, Running) && Charged(s1, c) && !s1.calls[c].charge.value.acted
            && var s2 := AfterAct(s1, c);
               && Stands(s2, c, Running) && Charged(s2, c)
               && var s3 := AfterFinish(s2, c, ok, reported);
                  && Stands(s3, c, Reporting(ok)) && s3.audit == s.audit && s3.spentAmount == s.spentAmount
                  && s3.ledger == s.ledger + Moves(s.calls[c].verdict.value.action) && s3.lock == s.lock
                  && s3.spentTokens == s.spentTokens
                     + (if ok && reported != 0 then reported - s.calls[c].verdict.value.action.cost.tokens else 0)
  {
  }

  lemma {:induction false} GrantedIsCharged(cfg: Config, events: seq<Event>, c: nat)
    requires Stands(Run(cfg, events), c, Granted)
    ensures Charged(Run(cfg, events), c) && !Run(cfg, events).calls[c].charge.value.acted && Run(cfg, events).lock != Some(c)
  {
    RunKeeps(cfg, events);
    InvHere(cfg, Run(cfg, events), c);
  }

  /**
   * A granted call runs its tool once, moves what it was priced at, replaces the estimate by what was reported, if the
   * tool succeeded and reported anything, and records how it went.
   */
  lemma {:induction false} GrantedRunsToItsEnd(cfg: Config, events: seq<Event>, c: nat, ok: bool, reported: int)
    requires Stands(Run(cfg, events), c, Granted)
    ensures var s := Run(cfg, events);
            var running := events + [Execute(c, Start)] + [Execute(c, Act)];
            var s' := Run(cfg, running + [Execute(c, Finish(ok, reported))] + [Execute(c, OutcomeWritten(true))]);
            && Stands(s', c, Done) && s.calls[c].verdict.Some? && s'.spentAmount == s.spentAmount && s'.lock == s.lock
            && s'.ledger == s.ledger + Moves(s.calls[c].verdict.value.action) && s'.audit == s.audit + [Outcome(c, ok)]
            && s'.spentTokens == s.spentTokens
               + (if ok && reported != 0 then reported - s.calls[c].verdict.value.action.cost.tokens else 0)
  {
    var running := events + [Execute(c, Start)] + [Execute(c, Act)];
    GrantedIsCharged(cfg, events, c);
    ExecutionPath(cfg, Run(cfg, events), c, ok, reported);
    RunExecute(cfg, events, c, Start);
    RunExecute(cfg, events + [Execute(c, Start)], c, Act);
    RunExecute(cfg, running, c, Finish(ok, reported));
    LastWriteConcludes(Run(cfg, running + [Execute(c, Finish(ok, reported))]), c, Outcome(c, ok));
    RunExecute(cfg, running + [Execute(c, Finish(ok, reported))], c, OutcomeWritten(true));
  }

  // ---- Approval granted -----------------------------------------------------------------------------

  /** A rejected call was answered, and not with an approval. */
  lemma {:induction false} RejectedWasNotApproved(cfg: Config, events: seq<Event>, c: nat)
    requires Stands(Run(cfg, events), c, Rejected)
    ensures var k := Run(cfg, events).calls[c];
            k.ask.Some? && k.ask.value.reply.Some? && k.ask.value.reply.value.status != Approved && k.charge.None?
  {
    RunKeeps(cfg, events);
    InvHere(cfg, Run(cfg, events), c);
  }

  lemma ApprovalPath(cfg: Config, s: State, c: nat)
    requires Asking(s, c) && s.calls[c].phase == Resolving(Approved) && s.lock.None?
    requires s.calls[c].verdict.Some? && s.calls[c].charge.None?
    ensures var s1 := AfterResolutionWritten(s, c, true);
            && Stands(s1, c, Rechecking) && s1.lock.None? && s1.calls[c].verdict == s.calls[c].verdict
            && Context(cfg, s1, -1) == Context(cfg, s, -1) && s1.audit == s.audit + [Resolved(AskOf(s, c).aid, Approved)]
            && s1.calls[c].charge.None?
  {
  }

  /** The policies still permit the action, with all attempts made meanwhile counted and the call's own one not again. */
  ghost predicate StillPermitted(cfg: Config, s: State, c: nat)
    requires c < |s.calls| && s.calls[c].verdict.Some?
  {
    && cfg.policies != []
    && forall i :: 0 <= i < |cfg.policies| ==>
         Permits(cfg.text, cfg.policies[i], s.calls[c].verdict.value.action,
                 EvalContext(cfg.agentId, cfg.sessionId, s.spentTokens, s.spentAmount, s.actionCount - 1))
  }

  /** An approved call whose turn it is reaches its tool exactly if the engine answers and every policy still permits it. */
  lemma {:induction false} ApprovedReachesTool(cfg: Config, events: seq<Event>, c: nat, fails: bool)
    requires var s := Run(cfg, events); Asking(s, c) && s.calls[c].phase == Resolving(Approved) && s.lock.None?
    ensures var s := Run(cfg, events);
            var rechecked := events + [Hold(c, ResolutionWritten(true))] + [Execute(c, Recheck(fails))];
            && s.calls[c].verdict.Some?
            && (Reached(Run(cfg, rechecked + [Execute(c, Start)]), c) <==> !fails && StillPermitted(cfg, s, c))
  {
    var s := Run(cfg, events);
    RunKeeps(cfg, events);
    InvHere(cfg, s, c);
    ApprovalPath(cfg, s, c);
    RunHold(cfg, events, c, ResolutionWritten(true));
    var answered := events + [Hold(c, ResolutionWritten(true))];
    RunExecute(cfg, answered, c, Recheck(fails));
    RecheckPassesIff(cfg, Run(cfg, answered), c, fails);
    RecheckLeads(cfg, Run(cfg, answered), c, fails);
    StartsIfGranted(cfg, answered + [Execute(c, Recheck(fails))], c);
  }

  lemma RecheckLeads(cfg: Config, s: State, c: nat, fails: bool)
    requires CanExecute(s, c, Recheck(fails)) && s.calls[c].charge.None?
    ensures var k := Executed(cfg, s, c, Recheck(fails)).calls[c];
            && k.verdict == s.calls[c].verdict
            && (if k.charge.Some? then k.phase == Granted else k.phase == Done || k.phase == Blocked)
  {
  }

  /** What the recheck does: reserve what it lets pass, or go on to report the block; if the engine fails the call is over. */
  ghost predicate Rechecks(cfg: Config, s: State, s': State, c: nat, fails: bool)
    requires c < |s.calls| && s.calls[c].verdict.Some?
  {
    var passes, cost := !fails && StillPermitted(cfg, s, c), s.calls[c].verdict.value.action.cost;
    && s'.audit == s.audit && s'.actionCount == s.actionCount
    && (if fails then Stands(s', c, Done) else if passes then Stands(s', c, Granted) else Stands(s', c, Blocked))
    && s'.spentTokens == s.spentTokens + (if passes then cost.tokens else 0)
    && s'.spentAmount == s.spentAmount + (if passes then cost.amount else 0.0)
  }

  lemma RecheckTakes(cfg: Config, s: State, c: nat, fails: bool)
    requires CanExecute(s, c, Recheck(fails))
    ensures var s' := Executed(cfg, s, c, Recheck(fails));
            var granted, cost := Stands(s', c, Granted), s.calls[c].verdict.value.action.cost;
            && s'.audit == s.audit && s'.actionCount == s.actionCount
            && (if fails then Stands(s', c, Done) else granted || Stands(s', c, Blocked))
            && s'.spentTokens == s.spentTokens + (if granted then cost.tokens else 0)
            && s'.spentAmount == s.spentAmount + (if granted then cost.amount else 0.0)
  {
  }

  lemma RecheckReservesHere(cfg: Config, s: State, c: nat, fails: bool)
    requires CanExecute(s, c, Recheck(fails))
    ensures Rechecks(cfg, s, Executed(cfg, s, c, Recheck(fails)), c, fails)
  {
    RecheckPassesIff(cfg, s, c, fails);
    RecheckTakes(cfg, s, c, fails);
  }

  lemma {:induction false} RecheckReserves(cfg: Config, events: seq<Event>, c: nat, fails: bool)
    requires Stands(Run(cfg, events), c, Rechecking) && Run(cfg, events).lock.None?
    ensures Run(cfg, events).calls[c].verdict.Some?
    ensures Rechecks(cfg, Run(cfg, events), Run(cfg, events + [Execute(c, Recheck(fails))]), c, fails)
  {
    PhaseAloneEnables(cfg, events, c);
    RecheckReservesHere(cfg, Run(cfg, events), c, fails);
    RunExecute(cfg, events, c, Recheck(fails));
  }

  lemma {:induction false} BlockedAtHand(cfg: Config, events: seq<Event>, c: nat)
    requires var s := Run(cfg, events); Stands(s, c, Blocked) || Stands(s, c, Rejected)
    ensures var s := Run(cfg, events); s.calls[c].charge.None? && (HoldsLock(s.calls[c].phase) <==> s.lock == Some(c))
  {
    RunKeeps(cfg, events);
    InvHere(cfg, Run(cfg, events), c);
  }

  /** Denied by the recheck: the failure is recorded, nothing is charged, and the lock is free again. */
  lemma {:induction false} BlockedIsRecorded(cfg: Config, events: seq<Event>, c: nat)
    requires Stands(Run(cfg, events), c, Blocked)
    ensures var s, s' := Run(cfg, events), Run(cfg, events + [Execute(c, BlockWritten(true))]);
            Concludes(s, s', c, Outcome(c, false)) && s.lock == Some(c) && s.calls[c].charge.None?
  {
    BlockedAtHand(cfg, events, c);
    LastWriteConcludes(Run(cfg, events), c, Outcome(c, false));
    RunExecute(cfg, events, c, BlockWritten(true));
  }

  /** Not approved: the failure is recorded, and nothing is charged. */
  lemma {:induction false} RejectionIsRecorded(cfg: Config, events: seq<Event>, c: nat)
    requires Stands(Run(cfg, events), c, Rejected)
    ensures var s, s' := Run(cfg, events), Run(cfg, events + [Execute(c, RejectionWritten(true))]);
            Concludes(s, s', c, Outcome(c, false)) && s.lock != Some(c) && s.calls[c].charge.None?
  {
    BlockedAtHand(cfg, events, c);
    LastWriteConcludes(Run(cfg, events), c, Outcome(c, false));
    RunExecute(cfg, events, c, RejectionWritten(true));
  }
}
