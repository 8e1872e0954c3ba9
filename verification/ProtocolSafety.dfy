/** The protocol's promises, for every schedule of calls, approvers, timeouts, failures and cancellations. */
module ProtocolSafety {
  import opened Model
  import opened Engine
  import opened EngineLaws
  import opened Tools
  import opened Protocol
  import opened ProtocolInvariant
  import opened ProtocolMoney
  import opened ProtocolBounds

  /** All invariants of all schedules, in one place. */
  lemma {:induction false} Reachable(cfg: Config, events: seq<Event>)
    requires AllLoaded(cfg)
    ensures var s := Run(cfg, events); Inv(cfg, s) && Balanced(s) && Budgeted(cfg, s) && Attempts(cfg, s)
  {
    RunKeeps(cfg, events);
    if events != [] {
      var before := Run(cfg, events[..|events| - 1]);
      var e := events[|events| - 1];
      Reachable(cfg, events[..|events| - 1]);
      StepBalanced(cfg, before, e);
      StepBudgeted(cfg, before, e);
      StepAttempts(cfg, before, e);
    }
  }

  // ---- Nothing executes unless it was decided, recorded and authorised ------------------------------

  /** The recorded decision behind a call: allow, or require-approval with an approved row of the same digest. */
  ghost predicate ClearedBy(cfg: Config, s: State, c: nat, ref: nat) {
    && ref < |s.audit| && s.audit[ref].Decided? && s.audit[ref].call == c
    && c < |s.calls| && s.calls[c].verdict.Some?
    && s.audit[ref].action == s.calls[c].verdict.value.action
    && s.audit[ref].digest == cfg.digest(s.audit[ref].action)
    && s.audit[ref].byEngine
    && s.audit[ref].decision == EvaluateAll(cfg.text, cfg.policies, s.audit[ref].action, s.audit[ref].ctx)
    && match s.audit[ref].decision.effect
       case Allow => true
       case Deny => false
       case RequireApproval => exists aid :: ApprovedFor(cfg, s, aid, c, s.audit[ref].digest)
  }

  ghost predicate ApprovedFor(cfg: Config, s: State, aid: nat, c: nat, digest: string) {
    && aid < |s.approvals| && s.approvals[aid].call == c && s.approvals[aid].digest == digest
    && s.approvals[aid].status == Approved
    && (cfg.separation ==> s.approvals[aid].decidedBy != cfg.submittedBy)
  }

  /** No call executes without a committed decision of the engine, and an approval by someone else if asked for. */
  lemma {:induction false} ExecutesOnlyWhenCleared(cfg: Config, events: seq<Event>, c: nat)
    requires c < |Run(cfg, events).calls|
    requires Run(cfg, events).calls[c].charge.Some?
    ensures exists ref :: ClearedBy(cfg, Run(cfg, events), c, ref)
  {
    RunKeeps(cfg, events);
    var s := Run(cfg, events);
    InvHere(cfg, s, c);
    var k := s.calls[c];
    var ref := k.ref.value;
    assert s.audit[ref] == DecisionRow(cfg, c, k.verdict.value);
    if k.verdict.value.decision.effect == RequireApproval {
      assert ApprovalOk(cfg, s, k.ask.value.aid);
      assert ApprovedFor(cfg, s, k.ask.value.aid, c, s.audit[ref].digest);
    }
    assert ClearedBy(cfg, s, c, ref);
  }

  /** How often a tool has been invoked for a call along a schedule. */
  ghost function Starts(cfg: Config, events: seq<Event>, c: nat): nat {
    if events == [] then 0
    else
      var n := |events| - 1;
      Starts(cfg, events[..n], c) + (if StartsTool(Run(cfg, events[..n]), events[n], c) then 1 else 0)
  }

  ghost predicate Reached(s: State, c: nat) {
    c < |s.calls| && s.calls[c].charge.Some? && s.calls[c].charge.value.started
  }

  predicate StartsTool(s: State, e: Event, c: nat) {
    e == Execute(c, Start) && CanExecute(s, c, Start)
  }

  /** A call has reached its tool exactly from the step that starts it, and is not started again. */
  ghost predicate StartsOnce(s: State, s': State, e: Event, c: nat) {
    (Reached(s', c) <==> Reached(s, c) || StartsTool(s, e, c)) && !(Reached(s, c) && StartsTool(s, e, c))
  }

  lemma AdmissionStarts(cfg: Config, s: State, c: nat, a: Admission)
    requires CanAdmit(s, c, a) && Here(cfg, s, c)
    ensures StartsOnce(s, Admitted(cfg, s, c, a), Admit(c, a), c)
  {
  }

  lemma WaitStarts(cfg: Config, s: State, c: nat, w: Wait)
    requires CanHold(s, c, w)
    ensures StartsOnce(s, Held(cfg, s, c, w), Hold(c, w), c)
  {
  }

  lemma ExecutionStarts(cfg: Config, s: State, c: nat, x: Execution)
    requires CanExecute(s, c, x) && Here(cfg, s, c)
    ensures StartsOnce(s, Executed(cfg, s, c, x), Execute(c, x), c)
  {
  }

  lemma CancelStarts(s: State, c: nat)
    requires CanCancel(s, c)
    ensures StartsOnce(s, AfterCancel(s, c), Cancel(c), c)
  {
  }

  lemma OwnStepStarts(cfg: Config, s: State, e: Event, c: nat)
    requires Inv(cfg, s) && c < |s.calls| && TakenBy(e, c)
    ensures StartsOnce(s, Step(cfg, s, e), e, c)
  {
    InvHere(cfg, s, c);
    match e
    case Admit(_, a) =>
      if CanAdmit(s, c, a) {
        AdmissionStarts(cfg, s, c, a);
      }
    case Hold(_, w) =>
      if CanHold(s, c, w) {
        WaitStarts(cfg, s, c, w);
      }
    case Execute(_, x) =>
      if CanExecute(s, c, x) {
        ExecutionStarts(cfg, s, c, x);
      }
    case Cancel(_) =>
      if CanCancel(s, c) {
        CancelStarts(s, c);
      }
  }

  lemma OthersStart(s: State, s': State, e: Event, c: nat)
    requires Frames(s, s', e) && (c >= |s.calls| || !TakenBy(e, c))
    ensures StartsOnce(s, s', e, c)
  {
  }

  lemma StepStarts(cfg: Config, s: State, e: Event, c: nat)
    requires Inv(cfg, s)
    ensures StartsOnce(s, Step(cfg, s, e), e, c)
  {
    if c < |s.calls| && TakenBy(e, c) {
      OwnStepStarts(cfg, s, e, c);
    } else {
      StepFrames(cfg, s, e);
      OthersStart(s, Step(cfg, s, e), e, c);
    }
  }

  /** No call reaches its tool twice, and the history flag records exactly whether it did. */
  lemma {:induction false} ExecutesAtMostOnce(cfg: Config, events: seq<Event>, c: nat)
    ensures Starts(cfg, events, c) <= 1
    ensures Starts(cfg, events, c) == 1 <==> Reached(Run(cfg, events), c)
  {
    if events != [] {
      var n := |events| - 1;
      ExecutesAtMostOnce(cfg, events[..n], c);
      RunKeeps(cfg, events[..n]);
      StepStarts(cfg, Run(cfg, events[..n]), events[n], c);
    }
  }

  // ---- Approvals ------------------------------------------------------------------------------------

  /** A row leaves pending at most once: once decided it is never touched again, by anyone. */
  lemma {:induction false} DecidedOnce(cfg: Config, events: seq<Event>, more: seq<Event>, aid: nat)
    requires aid < |Run(cfg, events).approvals| && Run(cfg, events).approvals[aid].status != Pending
    ensures aid < |Run(cfg, events + more).approvals|
    ensures Run(cfg, events + more).approvals[aid] == Run(cfg, events).approvals[aid]
  {
    if more == [] {
      assert events + more == events;
    } else {
      var n := |more| - 1;
      DecidedOnce(cfg, events, more[..n], aid);
      assert (events + more)[..|events + more| - 1] == events + more[..n];
      StepFrames(cfg, Run(cfg, events + more[..n]), more[n]);
    }
  }

  /** This event gives the row its verdict: an approver who may decide, or the harness letting it expire. */
  ghost predicate Decides(cfg: Config, s: State, e: Event, aid: nat, row: Approval) {
    && aid < |s.approvals| && s.approvals[aid].status == Pending
    && row == s.approvals[aid].(status := row.status, decidedBy := row.decidedBy)
    && match row.status
       case Pending => false
       case Approved => e == HumanDecides(aid, true, row.decidedBy) && MayDecide(cfg, s, aid, row.decidedBy)
       case Denied => e == HumanDecides(aid, false, row.decidedBy) && MayDecide(cfg, s, aid, row.decidedBy)
       case Expired => e.Hold? && (e.wait.ExpireRow? || e.wait.FailRow? || e.wait.CancelRow?)
                       && Asking(s, e.c) && AskOf(s, e.c).aid == aid && row.decidedBy == HARNESS
  }

  lemma WaitDecides(cfg: Config, s: State, c: nat, w: Wait, aid: nat)
    requires CanHold(s, c, w) && aid < |Held(cfg, s, c, w).approvals|
    requires Held(cfg, s, c, w).approvals[aid].status != Pending
    ensures aid < |s.approvals|
    ensures Held(cfg, s, c, w).approvals[aid] == s.approvals[aid]
            || Decides(cfg, s, Hold(c, w), aid, Held(cfg, s, c, w).approvals[aid])
  {
  }

  lemma StepDecides(cfg: Config, s: State, e: Event, aid: nat)
    requires aid < |Step(cfg, s, e).approvals| && Step(cfg, s, e).approvals[aid].status != Pending
    ensures aid < |s.approvals|
    ensures Step(cfg, s, e).approvals[aid] == s.approvals[aid] || Decides(cfg, s, e, aid, Step(cfg, s, e).approvals[aid])
  {
    match e
    case Hold(c, w) =>
      if CanHold(s, c, w) {
        WaitDecides(cfg, s, c, w, aid);
      }
    case Admit(_, _) =>
    case Execute(_, _) =>
    case _ =>
  }

  /**
   * A decided row says what the first to decide it said: approved or denied by the approver it names, who was
   * allowed to, or expired by the harness on behalf of the call that waited.
   */
  lemma {:induction false} VerdictIsTheFirstDecision(cfg: Config, events: seq<Event>, aid: nat) returns (n: nat)
    requires aid < |Run(cfg, events).approvals| && Run(cfg, events).approvals[aid].status != Pending
    ensures n < |events|
    ensures Decides(cfg, Run(cfg, events[..n]), events[n], aid, Run(cfg, events).approvals[aid])
  {
    var m := |events| - 1;
    var s := Run(cfg, events[..m]);
    StepDecides(cfg, s, events[m], aid);
    if Run(cfg, events).approvals[aid] == s.approvals[aid] {
      n := VerdictIsTheFirstDecision(cfg, events[..m], aid);
      assert events[..m][..n] == events[..n];
    } else {
      n := m;
    }
  }

  /**
   * What waiting for an approval returned, against the row: an approval is always a real one, and the answer is
   * the row's final status however the decision raced with the listener, the timeout or a second approver,
   * unless an internal error decided it; then the answer is expired whatever the row says.
   */
  lemma {:induction false} AnswerMatchesRow(cfg: Config, events: seq<Event>, c: nat)
    requires var s := Run(cfg, events);
             c < |s.calls| && s.calls[c].ask.Some? && s.calls[c].ask.value.reply.Some?
    ensures var s := Run(cfg, events);
            var ask := s.calls[c].ask.value;
            && ask.aid < |s.approvals| && s.approvals[ask.aid].call == c
            && var answer, row := ask.reply.value.status, s.approvals[ask.aid].status;
            && answer != Pending && (answer == Approved ==> row == Approved)
            && (answer == row <==> !ask.failed || row == Expired)
  {
    RunKeeps(cfg, events);
    InvHere(cfg, Run(cfg, events), c);
  }

  // ---- Two schedules ending in surprising rows ------------------------------------------------------

  lemma {:induction false} RunStep(cfg: Config, events: seq<Event>, e: Event)
    ensures Run(cfg, events + [e]) == Step(cfg, Run(cfg, events), e)
  {
    assert (events + [e])[..|events + [e]| - 1] == events;
  }

  lemma {:induction false} Creates(cfg: Config, events: seq<Event>, c: nat)
    requires Stands(Run(cfg, events), c, Creating)
    ensures var s, s' := Run(cfg, events), Run(cfg, events + [Hold(c, ApprovalCreated(true))]);
            && |s'.calls| == |s.calls| && s'.calls[c].phase == Created && s'.calls[c].charge == None
            && Asking(s', c) && AskOf(s', c) == Ask(|s.approvals|, None, false, false, false, None)
            && RowOf(s', c).status == Pending && RowOf(s', c).call == c
  {
    RunKeeps(cfg, events);
    InvHere(cfg, Run(cfg, events), c);
    RunStep(cfg, events, Hold(c, ApprovalCreated(true)));
  }

  lemma CancelsAtCreation(cfg: Config, s: State, c: nat)
    requires Stands(s, c, Created) && Asking(s, c)
    ensures var s' := Step(cfg, s, Cancel(c));
            && Stands(s', c, Done) && s'.calls[c].charge == s.calls[c].charge && s'.approvals == s.approvals
  {
  }

  /** A cancellation that arrives just after the row was created ends the call and leaves the row pending. */
  lemma {:induction false} CancelledAtCreationLeavesRowPending(cfg: Config, events: seq<Event>, c: nat)
    requires Stands(Run(cfg, events), c, Creating)
    ensures var aid := |Run(cfg, events).approvals|;
            var s := Run(cfg, events + [Hold(c, ApprovalCreated(true))] + [Cancel(c)]);
            && c < |s.calls| && s.calls[c].phase == Done && s.calls[c].charge == None
            && aid < |s.approvals| && s.approvals[aid].call == c && s.approvals[aid].status == Pending
  {
    var created := events + [Hold(c, ApprovalCreated(true))];
    Creates(cfg, events, c);
    RunStep(cfg, created, Cancel(c));
    CancelsAtCreation(cfg, Run(cfg, created), c);
  }

  lemma {:induction false} RunHold(cfg: Config, events: seq<Event>, c: nat, w: Wait)
    requires CanHold(Run(cfg, events), c, w)
    ensures Run(cfg, events + [Hold(c, w)]) == Held(cfg, Run(cfg, events), c, w)
  {
    RunStep(cfg, events, Hold(c, w));
  }

  lemma {:induction false} RunHuman(cfg: Config, events: seq<Event>, aid: nat, approve: bool, who: string)
    requires MayDecide(cfg, Run(cfg, events), aid, who)
    ensures Run(cfg, events + [HumanDecides(aid, approve, who)]) == AfterHumanDecides(Run(cfg, events), aid, approve, who)
  {
    RunStep(cfg, events, HumanDecides(aid, approve, who));
  }

  lemma {:induction false} VerdictOfAnnouncing(cfg: Config, events: seq<Event>, c: nat)
    requires Stands(Run(cfg, events), c, Announcing)
    ensures Run(cfg, events).calls[c].verdict.Some?
  {
    RunKeeps(cfg, events);
    InvHere(cfg, Run(cfg, events), c);
  }

  lemma ApprovalTaken(s: State, c: nat, who: string)
    requires Stands(s, c, Announcing) && Asking(s, c) && RowOf(s, c).status == Pending
    ensures var s' := AfterHumanDecides(s, AskOf(s, c).aid, true, who);
            && s'.calls == s.calls && Asking(s', c) && AskOf(s', c) == AskOf(s, c) && RowOf(s', c).status == Approved
  {
  }

  lemma {:induction false} Approves(cfg: Config, events: seq<Event>, c: nat, who: string)
    requires Stands(Run(cfg, events), c, Announcing) && Asking(Run(cfg, events), c)
    requires RowOf(Run(cfg, events), c).status == Pending && (cfg.separation ==> who != cfg.submittedBy)
    ensures var s := Run(cfg, events);
            var s' := Run(cfg, events + [HumanDecides(AskOf(s, c).aid, true, who)]);
            && Stands(s', c, Announcing) && Asking(s', c) && AskOf(s', c) == AskOf(s, c) && s'.calls[c].verdict.Some?
            && RowOf(s', c).status == Approved
  {
    var s := Run(cfg, events);
    VerdictOfAnnouncing(cfg, events, c);
    RunHuman(cfg, events, AskOf(s, c).aid, true, who);
    ApprovalTaken(s, c, who);
  }

  /** Announcing fails, and the error handler answers for the human. */
  lemma FailingCloses(cfg: Config, s: State, c: nat)
    requires Stands(s, c, Announcing) && Asking(s, c) && s.calls[c].verdict.Some?
    ensures var s1 := AfterAnnounce(cfg, s, c, Io.Error);
            && Stands(s1, c, Failing) && Asking(s1, c)
            && var s2 := AfterFailRow(s1, c, true);
               && Asking(s2, c) && AskOf(s2, c).aid == AskOf(s, c).aid && s2.calls[c].phase == Closing(Some(Expired))
               && (RowOf(s, c).status == Approved ==> RowOf(s2, c) == RowOf(s, c))
  {
  }

  /** Whatever the row says, the reply is the answer the wait was closed with. */
  lemma AnswerPasses(s: State, c: nat)
    requires Asking(s, c) && s.calls[c].phase == Closing(Some(Expired))
    ensures var s1 := AfterLeave(s, c, true);
            && Asking(s1, c) && s1.calls[c].phase.Resolving?
            && var s2 := AfterResolutionWritten(s1, c, true);
               && Asking(s2, c) && AskOf(s2, c).aid == AskOf(s, c).aid && RowOf(s2, c) == RowOf(s, c)
               && Stands(s2, c, Rejected) && AskOf(s2, c).reply.Some? && AskOf(s2, c).reply.value.status == Expired
  {
  }

  lemma {:induction false} FailureAnswers(cfg: Config, events: seq<Event>, c: nat)
    requires var s := Run(cfg, events);
             Stands(s, c, Announcing) && Asking(s, c) && s.calls[c].verdict.Some? && RowOf(s, c).status == Approved
    ensures var failing := events + [Hold(c, Announce(Io.Error))] + [Hold(c, FailRow(true))];
            var s := Run(cfg, failing + [Hold(c, Leave(true))] + [Hold(c, ResolutionWritten(true))]);
            && Stands(s, c, Rejected) && Asking(s, c) && AskOf(s, c).aid == AskOf(Run(cfg, events), c).aid
            && AskOf(s, c).reply.Some? && AskOf(s, c).reply.value.status == Expired
            && RowOf(s, c).status == Approved
  {
    FailingCloses(cfg, Run(cfg, events), c);
    RunHold(cfg, events, c, Announce(Io.Error));
    var unheard := events + [Hold(c, Announce(Io.Error))];
    RunHold(cfg, unheard, c, FailRow(true));
    var failing := unheard + [Hold(c, FailRow(true))];
    AnswerPasses(Run(cfg, failing), c);
    RunHold(cfg, failing, c, Leave(true));
    RunHold(cfg, failing + [Hold(c, Leave(true))], c, ResolutionWritten(true));
  }

  /** If announcing the request fails after a human approved it, the call is told expired while the row says approved. */
  lemma {:induction false} ErrorHidesApproval(cfg: Config, events: seq<Event>, c: nat, who: string)
    requires Stands(Run(cfg, events), c, Announcing) && Asking(Run(cfg, events), c)
    requires RowOf(Run(cfg, events), c).status == Pending && (cfg.separation ==> who != cfg.submittedBy)
    ensures var aid := AskOf(Run(cfg, events), c).aid;
            var failing := events + [HumanDecides(aid, true, who)] + [Hold(c, Announce(Io.Error))] + [Hold(c, FailRow(true))];
            var s := Run(cfg, failing + [Hold(c, Leave(true))] + [Hold(c, ResolutionWritten(true))]);
            && Stands(s, c, Rejected) && Asking(s, c) && AskOf(s, c).aid == aid
            && AskOf(s, c).reply.Some? && AskOf(s, c).reply.value.status == Expired
            && RowOf(s, c).status == Approved
  {
    Approves(cfg, events, c, who);
    FailureAnswers(cfg, events + [HumanDecides(AskOf(Run(cfg, events), c).aid, true, who)], c);
  }

  /** In reachable states the bookkeeping the steps rely on is always there: only the phase enables a step. */
  lemma {:induction false} PhaseAloneEnables(cfg: Config, events: seq<Event>, c: nat)
    requires c < |Run(cfg, events).calls|
    ensures var s := Run(cfg, events);
            var p := s.calls[c].phase;
            && (p.Deciding? || p.Recorded? || p.Creating? || p.Announcing? || p.Rechecking? ==> s.calls[c].verdict.Some?)
            && (p.Created? || p.Announcing? || p.Announced? || p.Awaiting? ==> Asking(s, c))
            && (p.TimedOut? || p.Rereading? || p.Failing? || p.Cancelling? || p.Closing? || p.Resolving? ==> Asking(s, c))
            && (p.Granted? || p.Running? ==> Charged(s, c))
  {
    RunKeeps(cfg, events);
    InvHere(cfg, Run(cfg, events), c);
  }

  // ---- Money ----------------------------------------------------------------------------------------

  /**
   * Tokens charged are the reservations of unsettled calls plus the usage of settled ones, and exceed no
   * policy's token budget by more than the total overrun, although reconciliation takes no lock.
   */
  lemma {:induction false} TokensConservedAndBounded(cfg: Config, events: seq<Event>, p: Policy)
    requires AllLoaded(cfg)
    ensures var s := Run(cfg, events);
            && s.spentTokens as real == Sum(TokensOf, s.calls)
            && (p in cfg.policies && p.budgetTokens.Some? ==>
                  s.spentTokens as real <= p.budgetTokens.value as real + Sum(OverrunOf, s.calls))
  {
    Reachable(cfg, events);
    var s := Run(cfg, events);
    assert p in cfg.policies ==> TokensWithin(p, s.spentTokens, Sum(OverrunOf, s.calls));
  }

  /** What the ledger moved never exceeds what was reserved, nor any policy's amount budget. */
  lemma {:induction false} LedgerWithinBudget(cfg: Config, events: seq<Event>, p: Policy)
    requires AllLoaded(cfg)
    ensures var s := Run(cfg, events);
            && Total(s.ledger) <= s.spentAmount == Sum(AmountOf, s.calls)
            && (p in cfg.policies && p.budgetAmount.Some? ==> Total(s.ledger) <= p.budgetAmount.value)
  {
    Reachable(cfg, events);
    var s := Run(cfg, events);
    forall k | k in s.calls
      ensures MovedOf(k) <= AmountOf(k)
    {
      var c :| 0 <= c < |s.calls| && s.calls[c] == k;
      assert AttemptOk(cfg, s, c);
      MovesWhatItCosts(cfg, k);
    }
    SumOrdered(MovedOf, AmountOf, s.calls);
    assert p in cfg.policies ==> AmountWithin(p, s.spentAmount);
  }

  lemma MovesWhatItCosts(cfg: Config, k: Call)
    requires k.verdict.Some? ==> exists req :: Build(cfg.lib, req) == Some(k.verdict.value.action)
    ensures MovedOf(k) <= AmountOf(k)
  {
    if k.verdict.Some? {
      var req :| Build(cfg.lib, req) == Some(k.verdict.value.action);
      PricedAsMoved(cfg.lib, req);
      var a := k.verdict.value.action;
      assert Total([a.cost.amount]) == a.cost.amount by {
        assert [a.cost.amount][..0] == [];
      }
    }
  }

  // ---- Attempts -------------------------------------------------------------------------------------

  /** Tools reached by a session never exceed the harness cap or any policy's max_actions. */
  lemma {:induction false} ExecutionsCapped(cfg: Config, events: seq<Event>, p: Policy)
    requires AllLoaded(cfg)
    ensures var s := Run(cfg, events);
            && Sum(StartedOf, s.calls) <= cfg.cap as real
            && (p in cfg.policies && p.maxActions.Some? ==> Sum(StartedOf, s.calls) <= p.maxActions.value as real)
  {
    Reachable(cfg, events);
    var s := Run(cfg, events);
    forall k | k in s.calls
      ensures StartedOf(k) <= PassedOf(k)
    {
      var c :| 0 <= c < |s.calls| && s.calls[c] == k;
      InvHere(cfg, s, c);
    }
    SumOrdered(StartedOf, PassedOf, s.calls);
  }

  /** No two judged attempts saw the same action count. */
  lemma {:induction false} CountsAreDistinct(cfg: Config, events: seq<Event>, c: nat, d: nat)
    requires AllLoaded(cfg)
    requires var s := Run(cfg, events);
             c < d < |s.calls| && s.calls[c].verdict.Some? && s.calls[d].verdict.Some?
    ensures var s := Run(cfg, events);
            s.calls[c].verdict.value.ctx.actionCount != s.calls[d].verdict.value.ctx.actionCount
  {
    Reachable(cfg, events);
  }

  /** If nobody else was counted or charged while a call waited, judging it again gives the original decision. */
  lemma {:induction false} QuietRecheckAgrees(cfg: Config, events: seq<Event>, c: nat)
    requires AllLoaded(cfg)
    requires var s := Run(cfg, events);
             && Stands(s, c, Rechecking) && s.calls[c].verdict.Some?
             && var ctx := s.calls[c].verdict.value.ctx;
             && s.actionCount == ctx.actionCount + 1
             && s.spentTokens == ctx.spentTokens && s.spentAmount == ctx.spentAmount
    ensures var s := Run(cfg, events);
            && Rejudge(cfg, s, c) == s.calls[c].verdict.value.decision
            && (s.lock.None? ==> AfterRecheck(cfg, s, c, false).calls[c].phase == Granted)
  {
    Reachable(cfg, events);
    var s := Run(cfg, events);
    InvHere(cfg, s, c);
    assert AttemptOk(cfg, s, c);
    assert s.calls[c].verdict.value.ctx == Context(cfg, s, -1);
  }

  lemma GrantedUnlessDenied(cfg: Config, s: State, c: nat, fails: bool, d: Decision)
    requires CanExecute(s, c, Recheck(fails))
    requires d == EvaluateAll(cfg.text, cfg.policies, s.calls[c].verdict.value.action, Context(cfg, s, -1))
    ensures Executed(cfg, s, c, Recheck(fails)).calls[c].phase == Granted <==> !fails && d.effect != Deny
  {
  }

  /**
   * An approved call passes its recheck exactly if the engine answers and every policy still permits the action, with
   * the spend of now and all attempts made meanwhile counted.
   */
  lemma RecheckPassesIff(cfg: Config, s: State, c: nat, fails: bool)
    requires CanExecute(s, c, Recheck(fails))
    ensures Executed(cfg, s, c, Recheck(fails)).calls[c].phase == Granted <==>
            && !fails && cfg.policies != []
            && forall i :: 0 <= i < |cfg.policies| ==>
                 Permits(cfg.text, cfg.policies[i], s.calls[c].verdict.value.action, Context(cfg, s, -1))
  {
    PassesIffAllPermit(cfg.text, cfg.policies, s.calls[c].verdict.value.action, Context(cfg, s, -1));
    GrantedUnlessDenied(cfg, s, c, fails, EvaluateAll(cfg.text, cfg.policies, s.calls[c].verdict.value.action, Context(cfg, s, -1)));
  }

  /** The recheck counts attempts made meanwhile: it is denied as soon as more than max_actions have been made. */
  lemma LateRecheckIsDenied(cfg: Config, s: State, c: nat, p: Policy)
    requires c < |s.calls| && s.calls[c].verdict.Some?
    requires p in cfg.policies && p.maxActions.Some? && s.actionCount > p.maxActions.value
    ensures Rejudge(cfg, s, c).effect == Deny
  {
    OverLimitIsDenied(cfg.text, cfg.policies, p, s.calls[c].verdict.value.action, Context(cfg, s, -1));
  }

  // ---- Pauses ---------------------------------------------------------------------------------------

  /** The pending count is exactly the number of calls between pause and resume, so it never clamps. */
  lemma {:induction false} PendingCountsWaits(cfg: Config, events: seq<Event>, c: nat)
    ensures var s := Run(cfg, events);
            && s.pending as real == Sum(PausedOf, s.calls)
            && (c < |s.calls| && s.calls[c].ask.Some? && s.calls[c].ask.value.paused ==> s.pending > 0)
  {
    RunBalances(cfg, events);
    var s := Run(cfg, events);
    if c < |s.calls| && PausedOf(s.calls[c]) == 1.0 {
      PausedCounts(s, c);
    }
  }
}
