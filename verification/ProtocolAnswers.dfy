/** How an approval wait opens, and how it ends: by an answer, a timeout, an error or a cancellation, from any run. */
module ProtocolAnswers {
  import opened Model
  import opened Engine
  import opened Protocol
  import opened ProtocolInvariant
  import opened ProtocolSafety
  import opened ProtocolProgress

  // ---- A waiting call listens -----------------------------------------------------------------------

  predicate Expecting(p: Phase) {
    p.Announcing? || p.Announced? || p.Awaiting?
  }

  ghost predicate ListensFor(s: State, k: Call) {
    Expecting(k.phase) ==> k.ask.Some? && k.ask.value.aid in s.waiters
  }

  ghost predicate Listens(s: State) {
    forall c :: 0 <= c < |s.calls| ==> ListensFor(s, s.calls[c])
  }

  /** Nobody stops listening but the call whose wait is over. */
  ghost predicate Leaves(s: State, e: Event, aid: nat) {
    e.Hold? && e.wait.Leave? && Asking(s, e.c) && s.calls[e.c].phase.Closing? && AskOf(s, e.c).aid == aid
  }

  lemma WaitersStay(cfg: Config, s: State, e: Event, aid: nat)
    requires aid in s.waiters && !Leaves(s, e, aid)
    ensures aid in Step(cfg, s, e).waiters
  {
    match e
    case Admit(_, _) =>
    case Hold(_, _) =>
    case Execute(_, _) =>
    case _ =>
  }

  lemma WaitListens(cfg: Config, s: State, c: nat, w: Wait)
    requires CanHold(s, c, w) && ListensFor(s, s.calls[c])
    ensures c < |Held(cfg, s, c, w).calls| && ListensFor(Held(cfg, s, c, w), Held(cfg, s, c, w).calls[c])
  {
  }

  lemma OwnStepListens(cfg: Config, s: State, e: Event, c: nat)
    requires c < |s.calls| && TakenBy(e, c) && ListensFor(s, s.calls[c])
    ensures c < |Step(cfg, s, e).calls| && ListensFor(Step(cfg, s, e), Step(cfg, s, e).calls[c])
  {
    match e
    case Hold(_, w) =>
      if CanHold(s, c, w) {
        WaitListens(cfg, s, c, w);
      }
    case Admit(_, _) =>
    case Execute(_, _) =>
    case _ =>
  }

  lemma OneAskPerRow(cfg: Config, s: State, c: nat, d: nat)
    requires Inv(cfg, s) && c < |s.calls| && d < |s.calls| && s.calls[c].ask.Some? && s.calls[d].ask.Some?
    requires s.calls[c].ask.value.aid == s.calls[d].ask.value.aid
    ensures c == d
  {
    InvHere(cfg, s, c);
    InvHere(cfg, s, d);
  }

  lemma StepListens(cfg: Config, s: State, e: Event)
    requires Inv(cfg, s) && Listens(s)
    ensures Listens(Step(cfg, s, e))
  {
    var s' := Step(cfg, s, e);
    StepFrames(cfg, s, e);
    forall c: nat | c < |s'.calls|
      ensures ListensFor(s', s'.calls[c])
    {
      if c < |s.calls| && TakenBy(e, c) {
        OwnStepListens(cfg, s, e, c);
      } else if c < |s.calls| && Expecting(s.calls[c].phase) {
        var aid := s.calls[c].ask.value.aid;
        if Leaves(s, e, aid) {
          OneAskPerRow(cfg, s, c, e.c);
        }
        WaitersStay(cfg, s, e, aid);
      }
    }
  }

  lemma {:induction false} RunListens(cfg: Config, events: seq<Event>)
    ensures Listens(Run(cfg, events))
  {
    if events != [] {
      var n := |events| - 1;
      RunListens(cfg, events[..n]);
      RunKeeps(cfg, events[..n]);
      StepListens(cfg, Run(cfg, events[..n]), events[n]);
    }
  }

  // ---- The wait opens -------------------------------------------------------------------------------

  /** Call c waits for an answer to its row aid, which nobody has decided. */
  ghost predicate Waits(s: State, c: nat, aid: nat) {
    && Stands(s, c, Awaiting) && Asking(s, c) && AskOf(s, c).aid == aid && AskOf(s, c).paused
    && s.approvals[aid].status == Pending && aid in s.waiters && s.waiters[aid] == None
  }

  lemma OpeningPath(cfg: Config, s: State, c: nat)
    requires Stands(s, c, Creating) && s.calls[c].verdict.Some?
    ensures var aid, digest := |s.approvals|, cfg.digest(s.calls[c].verdict.value.action);
            var s1 := AfterApprovalCreated(cfg, s, c, true);
            && Stands(s1, c, Created) && Asking(s1, c)
            && var s2 := AfterListen(s1, c);
               && Stands(s2, c, Announcing) && Asking(s2, c) && s2.calls[c].verdict.Some?
               && var s3 := AfterAnnounce(cfg, s2, c, Fine);
                  && Stands(s3, c, Announced) && Asking(s3, c)
                  && var s4 := AfterPause(s3, c, Fine);
                     && Waits(s4, c, aid) && s4.pending == s.pending + 1 && s4.audit == s.audit + [Requested(aid, digest)]
                     && s4.approvals == s.approvals + [Approval(c, digest, Pending, "")]
  {
  }

  /** The events that open a wait. */
  function Opening(events: seq<Event>, c: nat): seq<Event> {
    events + [Hold(c, ApprovalCreated(true))] + [Hold(c, Listen)] + [Hold(c, Announce(Fine))] + [Hold(c, Wait.Pause(Fine))]
  }

  /** A call that has to ask creates its row, requests approval for exactly what was judged, and waits with the session paused. */
  lemma {:induction false} WaitOpens(cfg: Config, events: seq<Event>, c: nat)
    requires Stands(Run(cfg, events), c, Creating)
    ensures var s, s' := Run(cfg, events), Run(cfg, Opening(events, c));
            && s.calls[c].verdict.Some?
            && var aid, digest := |s.approvals|, cfg.digest(s.calls[c].verdict.value.action);
               && Waits(s', c, aid) && s'.pending == s.pending + 1 && s'.audit == s.audit + [Requested(aid, digest)]
               && s'.approvals == s.approvals + [Approval(c, digest, Pending, "")]
  {
    RunKeeps(cfg, events);
    InvHere(cfg, Run(cfg, events), c);
    OpeningPath(cfg, Run(cfg, events), c);
    RunHold(cfg, events, c, ApprovalCreated(true));
    RunHold(cfg, events + [Hold(c, ApprovalCreated(true))], c, Listen);
    RunHold(cfg, events + [Hold(c, ApprovalCreated(true))] + [Hold(c, Listen)], c, Announce(Fine));
    RunHold(cfg, events + [Hold(c, ApprovalCreated(true))] + [Hold(c, Listen)] + [Hold(c, Announce(Fine))], c, Wait.Pause(Fine));
  }

  // ---- The wait ends with an answer -----------------------------------------------------------------

  /** The call goes on with this answer: it has stopped waiting, and the answer is in the log. */
  ghost predicate Answered(s: State, s': State, c: nat, aid: nat, status: Status) {
    && Asking(s', c) && AskOf(s', c).aid == aid && AskOf(s', c).reply == Some(Reply(status, |s.audit|))
    && s'.calls[c].phase == (if status == Approved then Rechecking else Rejected)
    && s'.audit == s.audit + [Resolved(aid, status)] && !AskOf(s', c).paused && aid !in s'.waiters
    && s'.pending == (if c < |s.calls| && s.calls[c].ask.Some? && s.calls[c].ask.value.paused && s.pending > 0
                      then s.pending - 1 else s.pending)
    && s'.spentTokens == s.spentTokens && s'.spentAmount == s.spentAmount && s'.actionCount == s.actionCount
    && s'.lock == s.lock && s'.calls[c].charge == (if c < |s.calls| then s.calls[c].charge else None)
  }

  lemma ClosingPath(s: State, c: nat, status: Status)
    requires Asking(s, c) && s.calls[c].phase == Closing(Some(status))
    ensures var s1 := AfterLeave(s, c, true);
            && Asking(s1, c) && s1.calls[c].phase.Resolving?
            && var s2 := AfterResolutionWritten(s1, c, true);
               Answered(s, s2, c, AskOf(s, c).aid, status) && s2.approvals == s.approvals && s2.approvers == s.approvers
  {
  }

  /** The events of a call that leaves its wait with an answer. */
  function TakingIt(events: seq<Event>, c: nat): seq<Event> {
    events + [Hold(c, Leave(true))] + [Hold(c, ResolutionWritten(true))]
  }

  /** Once there is an answer, the call takes it along. */
  lemma {:induction false} AnswerIsTaken(cfg: Config, events: seq<Event>, c: nat, status: Status)
    requires var s := Run(cfg, events); Asking(s, c) && s.calls[c].phase == Closing(Some(status))
    ensures var s, s' := Run(cfg, events), Run(cfg, TakingIt(events, c));
            Answered(s, s', c, AskOf(s, c).aid, status) && s'.approvals == s.approvals && s'.approvers == s.approvers
  {
    ClosingPath(Run(cfg, events), c, status);
    RunHold(cfg, events, c, Leave(true));
    RunHold(cfg, events + [Hold(c, Leave(true))], c, ResolutionWritten(true));
  }

  /** Up to the answer, nothing but the row, the waiter and the phase has moved. */
  ghost predicate OnlyDecided(s: State, s': State, c: nat) {
    && s'.audit == s.audit && s'.pending == s.pending && s'.spentTokens == s.spentTokens && s'.spentAmount == s.spentAmount
    && s'.actionCount == s.actionCount && s'.lock == s.lock && c < |s.calls| && c < |s'.calls|
    && Asking(s, c) && Asking(s', c) && AskOf(s', c).aid == AskOf(s, c).aid && AskOf(s', c).paused == AskOf(s, c).paused
    && s'.calls[c].charge == s.calls[c].charge
  }

  lemma AnsweredThrough(s: State, s1: State, s2: State, c: nat, aid: nat, status: Status)
    requires OnlyDecided(s, s1, c) && Answered(s1, s2, c, aid, status)
    ensures Answered(s, s2, c, aid, status)
  {
  }

  lemma HumanPath(s: State, c: nat, aid: nat, approve: bool, who: string)
    requires Waits(s, c, aid)
    ensures var status := if approve then Approved else Denied;
            var s1 := AfterHumanDecides(s, aid, approve, who);
            && |s.approvers| < |s1.approvers| && !s1.approvers[|s.approvers|].notified
            && var s2 := AfterNotify(s1, |s.approvers|);
               && CanHold(s2, c, Wake)
               && var s3 := To(s2, c, Closing(s2.waiters[aid]));
                  && s3.calls[c].phase == Closing(Some(status)) && OnlyDecided(s, s3, c)
                  && s3.approvals == s.approvals[aid := s.approvals[aid].(status := status, decidedBy := who)]
  {
  }

  /** Waking a call a second time, or one that no longer listens, changes nothing for it. */
  lemma FirstWakeStands(s: State, d: nat)
    requires d < |s.approvers|
    requires var aid := s.approvers[d].aid; aid in s.waiters ==> s.waiters[aid].Some?
    ensures AfterNotify(s, d).waiters == s.waiters && AfterNotify(s, d).calls == s.calls
  {
  }

  /** The events of a human's answer to a waiting call. */
  function Human(events: seq<Event>, c: nat, aid: nat, approve: bool, who: string, d: nat): seq<Event> {
    events + [HumanDecides(aid, approve, who)] + [Notify(d)] + [Hold(c, Wake)]
  }

  lemma {:induction false} HumanWakes(cfg: Config, events: seq<Event>, c: nat, aid: nat, approve: bool, who: string)
    requires Waits(Run(cfg, events), c, aid) && MayDecide(cfg, Run(cfg, events), aid, who)
    ensures var s := Run(cfg, events);
            var status, s' := if approve then Approved else Denied, Run(cfg, Human(events, c, aid, approve, who, |s.approvers|));
            && Asking(s', c) && s'.calls[c].phase == Closing(Some(status)) && OnlyDecided(s, s', c)
            && s'.approvals == s.approvals[aid := s.approvals[aid].(status := status, decidedBy := who)]
  {
    var s := Run(cfg, events);
    HumanPath(s, c, aid, approve, who);
    RunStep(cfg, events, HumanDecides(aid, approve, who));
    var decided := events + [HumanDecides(aid, approve, who)];
    RunStep(cfg, decided, Notify(|s.approvers|));
    RunHold(cfg, decided + [Notify(|s.approvers|)], c, Wake);
  }

  /** A human who may decide answers a waiting call: the call goes on with exactly that answer. */
  lemma {:induction false} HumanAnswers(cfg: Config, events: seq<Event>, c: nat, approve: bool, who: string)
    requires var s := Run(cfg, events);
             Stands(s, c, Awaiting) && Asking(s, c) && RowOf(s, c).status == Pending && (cfg.separation ==> who != cfg.submittedBy)
    ensures var s := Run(cfg, events);
            var aid, status := AskOf(s, c).aid, if approve then Approved else Denied;
            var s' := Run(cfg, TakingIt(Human(events, c, aid, approve, who, |s.approvers|), c));
            && Answered(s, s', c, aid, status)
            && s'.approvals == s.approvals[aid := s.approvals[aid].(status := status, decidedBy := who)]
  {
    var s := Run(cfg, events);
    var aid := AskOf(s, c).aid;
    AwaitingWaits(cfg, events, c);
    HumanWakes(cfg, events, c, aid, approve, who);
    var woken := Human(events, c, aid, approve, who, |s.approvers|);
    AnswerIsTaken(cfg, woken, c, if approve then Approved else Denied);
    AnsweredThrough(s, Run(cfg, woken), Run(cfg, TakingIt(woken, c)), c, aid, if approve then Approved else Denied);
  }

  lemma {:induction false} AwaitingWaits(cfg: Config, events: seq<Event>, c: nat)
    requires var s := Run(cfg, events); Stands(s, c, Awaiting) && Asking(s, c) && RowOf(s, c).status == Pending
    ensures Waits(Run(cfg, events), c, AskOf(Run(cfg, events), c).aid)
  {
    var s := Run(cfg, events);
    RunKeeps(cfg, events);
    RunListens(cfg, events);
    InvHere(cfg, s, c);
    assert ListensFor(s, s.calls[c]);
    assert WaiterOk(s, AskOf(s, c).aid);
  }

  // ---- The wait ends with a timeout -----------------------------------------------------------------

  lemma TimeoutPath(s: State, c: nat)
    requires Stands(s, c, TimedOut) && Asking(s, c)
    ensures var s1 := AfterExpireRow(s, c, true);
            && Asking(s1, c) && OnlyDecided(s, s1, c)
            && (RowOf(s, c).status == Pending ==>
                  && s1.calls[c].phase == Closing(Some(Expired))
                  && s1.approvals == s.approvals[AskOf(s, c).aid := RowOf(s, c).(status := Expired, decidedBy := "harness")])
            && (RowOf(s, c).status != Pending ==>
                  && Stands(s1, c, Rereading) && s1.approvals == s.approvals
                  && var s2 := AfterReread(s1, c, true);
                     && s2.calls[c].phase == Closing(Some(RowOf(s, c).status)) && OnlyDecided(s, s2, c)
                     && s2.approvals == s.approvals)
  {
  }

  /** The events of a timeout: a row that is still pending expires, else its decision is looked up. */
  function RunningOut(events: seq<Event>, c: nat, pending: bool): seq<Event> {
    if pending then events + [Hold(c, ExpireRow(true))] else events + [Hold(c, ExpireRow(true))] + [Hold(c, Reread(true))]
  }

  /**
   * A call that has run out of time is answered with what its row says: expired, by the harness, if nobody has decided
   * it, and otherwise the decision that came in the last moment.
   */
  lemma TimeoutAnswers(cfg: Config, events: seq<Event>, c: nat)
    requires var s := Run(cfg, events); Stands(s, c, TimedOut) && Asking(s, c)
    ensures var s := Run(cfg, events);
            var row, aid := RowOf(s, c), AskOf(s, c).aid;
            var s' := Run(cfg, TakingIt(RunningOut(events, c, row.status == Pending), c));
            && Answered(s, s', c, aid, if row.status == Pending then Expired else row.status)
            && s'.approvals == (if row.status == Pending then s.approvals[aid := row.(status := Expired, decidedBy := "harness")]
                                else s.approvals)
  {
    var s := Run(cfg, events);
    var row, aid := RowOf(s, c), AskOf(s, c).aid;
    var status := if row.status == Pending then Expired else row.status;
    var out := RunningOut(events, c, row.status == Pending);
    TimeoutPath(s, c);
    RunHold(cfg, events, c, ExpireRow(true));
    if row.status != Pending {
      RunHold(cfg, events + [Hold(c, ExpireRow(true))], c, Reread(true));
    }
    AnswerIsTaken(cfg, out, c, status);
    AnsweredThrough(s, Run(cfg, out), Run(cfg, TakingIt(out, c)), c, aid, status);
  }

  /** Whoever waits can run out of time. */
  lemma {:induction false} TimesOutWaiting(cfg: Config, events: seq<Event>, c: nat)
    requires Stands(Run(cfg, events), c, Awaiting)
    ensures var s, s' := Run(cfg, events), Run(cfg, events + [Hold(c, GiveUp)]);
            Stands(s', c, TimedOut) && s' == s.(calls := s'.calls)
  {
    RunHold(cfg, events, c, GiveUp);
  }

  lemma InterruptedPath(cfg: Config, s: State, c: nat, io: Io)
    requires Asking(s, c) && s.calls[c].verdict.Some? && io != Fine
    ensures var s1, s2 := AfterAnnounce(cfg, s, c, io), AfterPause(s, c, io);
            && Stands(s1, c, if io.Timeout? then TimedOut else Failing) && Stands(s2, c, if io.Timeout? then TimedOut else Failing)
            && s1.audit == s2.audit == s.audit && s1.approvals == s2.approvals == s.approvals
            && s1.pending == s.pending && s2.pending == s.pending + 1
            && Asking(s1, c) && AskOf(s1, c).paused == AskOf(s, c).paused
            && Asking(s2, c) && AskOf(s2, c).paused
  {
  }

  /**
   * The request and the hook that freezes the session can time out or fail as well, and are dealt with as in the wait;
   * whatever happens, the session counts as paused from the hook on, and not before.
   */
  lemma {:induction false} InterruptedBefore(cfg: Config, events: seq<Event>, c: nat, io: Io)
    requires io != Fine
    requires var s := Run(cfg, events); Stands(s, c, Announcing) || (Stands(s, c, Announced) && s.pending == 0)
    ensures var s := Run(cfg, events);
            var announcing := s.calls[c].phase.Announcing?;
            var s' := Run(cfg, events + [Hold(c, if announcing then Announce(io) else Wait.Pause(io))]);
            && Stands(s', c, if io.Timeout? then TimedOut else Failing) && s'.audit == s.audit && s'.approvals == s.approvals
            && s'.pending == s.pending + (if announcing then 0 else 1) && Asking(s', c) && AskOf(s', c).paused == !announcing
  {
    var s := Run(cfg, events);
    RunKeeps(cfg, events);
    InvHere(cfg, s, c);
    InterruptedPath(cfg, s, c, io);
    RunHold(cfg, events, c, if s.calls[c].phase.Announcing? then Announce(io) else Wait.Pause(io));
  }

  // ---- The wait ends with an error or a cancellation ------------------------------------------------

  lemma ErrorPath(s: State, c: nat)
    requires Stands(s, c, Failing) && Asking(s, c)
    ensures var s1 := AfterFailRow(s, c, true);
            && s1.calls[c].phase == Closing(Some(Expired)) && OnlyDecided(s, s1, c)
            && s1.approvals == (if RowOf(s, c).status == Pending
                                then s.approvals[AskOf(s, c).aid := RowOf(s, c).(status := Expired, decidedBy := "harness")]
                                else s.approvals)
  {
  }

  /** After an internal error the answer is expired, and so is the row unless somebody had decided it. */
  lemma {:induction false} ErrorAnswersExpired(cfg: Config, events: seq<Event>, c: nat)
    requires var s := Run(cfg, events); Stands(s, c, Failing) && Asking(s, c)
    ensures var s := Run(cfg, events);
            var row, aid := RowOf(s, c), AskOf(s, c).aid;
            var s' := Run(cfg, TakingIt(events + [Hold(c, FailRow(true))], c));
            && Answered(s, s', c, aid, Expired)
            && s'.approvals == (if row.status == Pending then s.approvals[aid := row.(status := Expired, decidedBy := "harness")]
                                else s.approvals)
  {
    var s := Run(cfg, events);
    var failed := events + [Hold(c, FailRow(true))];
    ErrorPath(s, c);
    RunHold(cfg, events, c, FailRow(true));
    AnswerIsTaken(cfg, failed, c, Expired);
    AnsweredThrough(s, Run(cfg, failed), Run(cfg, TakingIt(failed, c)), c, AskOf(s, c).aid, Expired);
  }

  lemma CancelPath(s: State, c: nat)
    requires Asking(s, c) && (s.calls[c].phase.Announced? || s.calls[c].phase.Awaiting?)
    ensures var s1 := AfterCancel(s, c);
            && Stands(s1, c, Cancelling) && Asking(s1, c)
            && var s2 := AfterCancelRow(s1, c, true);
               && Asking(s2, c) && s2.calls[c].phase == Closing(None)
               && var s3 := AfterLeave(s2, c, true);
                  && Stands(s3, c, Done) && s3.audit == s.audit && s3.calls[c].charge == s.calls[c].charge
                  && AskOf(s, c).aid !in s3.waiters && s3.calls[c].ask.Some? && s3.calls[c].ask.value.reply == AskOf(s, c).reply
                  && s3.pending == (if AskOf(s, c).paused && s.pending > 0 then s.pending - 1 else s.pending)
                  && s3.approvals == (if RowOf(s, c).status == Pending
                                      then s.approvals[AskOf(s, c).aid := RowOf(s, c).(status := Expired, decidedBy := "harness")]
                                      else s.approvals)
  {
  }

  /** A call cancelled while it waits lets its row expire, resumes the session, and ends without an answer or a charge. */
  lemma {:induction false} CancelledWaitIsSettled(cfg: Config, events: seq<Event>, c: nat)
    requires var s := Run(cfg, events); c < |s.calls| && (s.calls[c].phase.Announced? || s.calls[c].phase.Awaiting?)
    ensures var s := Run(cfg, events);
            var s' := Run(cfg, events + [Cancel(c)] + [Hold(c, CancelRow(true))] + [Hold(c, Leave(true))]);
            && Asking(s, c) && Stands(s', c, Done) && s'.audit == s.audit && s'.calls[c].charge.None?
            && AskOf(s, c).aid !in s'.waiters && s'.calls[c].ask.Some? && s'.calls[c].ask.value.reply.None?
            && s'.pending == (if AskOf(s, c).paused && s.pending > 0 then s.pending - 1 else s.pending)
            && s'.approvals == (if RowOf(s, c).status == Pending
                                then s.approvals[AskOf(s, c).aid := RowOf(s, c).(status := Expired, decidedBy := "harness")]
                                else s.approvals)
  {
    RunKeeps(cfg, events);
    InvHere(cfg, Run(cfg, events), c);
    CancelPath(Run(cfg, events), c);
    RunCancel(cfg, events, c);
    RunHold(cfg, events + [Cancel(c)], c, CancelRow(true));
    RunHold(cfg, events + [Cancel(c)] + [Hold(c, CancelRow(true))], c, Leave(true));
  }

  // ---- Writes that fail -----------------------------------------------------------------------------

  /** Nothing has been recorded, decided or charged. */
  ghost predicate NothingDone(s: State, s': State, c: nat) {
    && s'.audit == s.audit && s'.approvals == s.approvals && s'.ledger == s.ledger
    && s'.spentTokens == s.spentTokens && s'.spentAmount == s.spentAmount
    && c < |s.calls| && c < |s'.calls| && s'.calls[c].charge == s.calls[c].charge
  }

  ghost predicate EndsWithNothing(s: State, s': State, c: nat) {
    NothingDone(s, s', c) && Stands(s', c, Done) && s'.lock != Some(c)
  }

  lemma LastWriteFails(s: State, c: nat, row: Row)
    requires c < |s.calls| && (HoldsLock(s.calls[c].phase) <==> s.lock == Some(c))
    ensures EndsWithNothing(s, LastWrite(s, c, row, false), c)
  {
  }

  lemma {:induction false} LockIsHeld(cfg: Config, events: seq<Event>, c: nat)
    requires c < |Run(cfg, events).calls|
    ensures var s := Run(cfg, events); HoldsLock(s.calls[c].phase) <==> s.lock == Some(c)
  {
    RunKeeps(cfg, events);
    InvHere(cfg, Run(cfg, events), c);
  }

  /** If the refusal, the decision or the outcome of a call cannot be written, the call is over and does not hold the lock. */
  lemma {:induction false} FailedAdmissionEndsCall(cfg: Config, events: seq<Event>, c: nat, a: Admission)
    requires (a == RefusalWritten(false) || a == DecisionWritten(false)) && CanAdmit(Run(cfg, events), c, a)
    ensures EndsWithNothing(Run(cfg, events), Run(cfg, events + [Admit(c, a)]), c)
  {
    LockIsHeld(cfg, events, c);
    LastWriteFails(Run(cfg, events), c, Refused("harness:invalid-arguments"));
    RunAdmit(cfg, events, c, a);
  }

  lemma {:induction false} FailedOutcomeEndsCall(cfg: Config, events: seq<Event>, c: nat, x: Execution)
    requires x == RejectionWritten(false) || x == BlockWritten(false) || x == OutcomeWritten(false)
    requires CanExecute(Run(cfg, events), c, x)
    ensures EndsWithNothing(Run(cfg, events), Run(cfg, events + [Execute(c, x)]), c)
  {
    LockIsHeld(cfg, events, c);
    var s := Run(cfg, events);
    LastWriteFails(s, c, Outcome(c, if x.OutcomeWritten? then s.calls[c].phase.ok else false));
    RunExecute(cfg, events, c, x);
  }

  /** So if its approval row cannot be created, or the answer cannot be recorded. */
  lemma {:induction false} FailedWaitRowEndsCall(cfg: Config, events: seq<Event>, c: nat, w: Wait)
    requires (w == ApprovalCreated(false) || w == ResolutionWritten(false)) && CanHold(Run(cfg, events), c, w)
    ensures EndsWithNothing(Run(cfg, events), Run(cfg, events + [Hold(c, w)]), c)
  {
    LockIsHeld(cfg, events, c);
    RunHold(cfg, events, c, w);
  }

  ghost predicate LeavesWith(s: State, s': State, c: nat, answer: Option<Status>) {
    NothingDone(s, s', c) && s'.calls[c].phase == Closing(answer) && s'.waiters == s.waiters && s'.pending == s.pending
  }

  lemma SettlingFails(s: State, c: nat)
    requires Asking(s, c)
    ensures LeavesWith(s, AfterExpireRow(s, c, false), c, None) && LeavesWith(s, AfterReread(s, c, false), c, None)
    ensures LeavesWith(s, AfterCancelRow(s, c, false), c, None) && LeavesWith(s, AfterFailRow(s, c, false), c, Some(Expired))
  {
  }

  /** If its row cannot be settled or read, the call leaves without an answer; after an error it leaves with expired. */
  lemma {:induction false} FailedSettlingLeaves(cfg: Config, events: seq<Event>, c: nat, w: Wait)
    requires w == ExpireRow(false) || w == Reread(false) || w == CancelRow(false) || w == FailRow(false)
    requires CanHold(Run(cfg, events), c, w)
    ensures LeavesWith(Run(cfg, events), Run(cfg, events + [Hold(c, w)]), c, if w.FailRow? then Some(Expired) else None)
  {
    SettlingFails(Run(cfg, events), c);
    RunHold(cfg, events, c, w);
  }

  /** The call is over, nobody listens for it any more, and the session resumes if it was paused for it. */
  ghost predicate WalksAway(s: State, s': State, c: nat)
    requires Asking(s, c)
  {
    && EndsWithNothing(s, s', c) && AskOf(s, c).aid !in s'.waiters
    && s'.pending == (if AskOf(s, c).paused && s.pending > 0 then s.pending - 1 else s.pending)
  }

  lemma LeavePath(s: State, c: nat, ok: bool)
    requires Asking(s, c) && s.calls[c].phase.Closing? && s.lock != Some(c) && (!ok || s.calls[c].phase.answer.None?)
    ensures WalksAway(s, AfterLeave(s, c, ok), c)
  {
  }

  /** Without an answer, or if the hook that thaws the session fails, leaving the wait ends the call. */
  lemma {:induction false} LeavingWithoutAnswerEnds(cfg: Config, events: seq<Event>, c: nat, ok: bool)
    requires var s := Run(cfg, events);
             && Asking(s, c) && s.calls[c].phase.Closing? && (ok ==> s.calls[c].phase.answer.None?)
             && (!ok ==> AskOf(s, c).paused && s.pending <= 1)
    ensures WalksAway(Run(cfg, events), Run(cfg, events + [Hold(c, Leave(ok))]), c)
  {
    LockIsHeld(cfg, events, c);
    LeavePath(Run(cfg, events), c, ok);
    RunHold(cfg, events, c, Leave(ok));
  }

  lemma CancelledOutside(s: State, c: nat)
    requires c < |s.calls| && (s.calls[c].phase in {Arrived, Recorded, Created, Rechecking, Granted, Running})
    requires HoldsLock(s.calls[c].phase) <==> s.lock == Some(c)
    ensures CanCancel(s, c) && EndsWithNothing(s, AfterCancel(s, c), c)
  {
  }

  /** A call cancelled outside its wait is over: what it reserved stays reserved, and it does not hold the lock. */
  lemma {:induction false} CancelledOutsideEnds(cfg: Config, events: seq<Event>, c: nat)
    requires var s := Run(cfg, events);
             c < |s.calls| && (s.calls[c].phase in {Arrived, Recorded, Created, Rechecking, Granted, Running})
    ensures EndsWithNothing(Run(cfg, events), Run(cfg, events + [Cancel(c)]), c)
  {
    LockIsHeld(cfg, events, c);
    CancelledOutside(Run(cfg, events), c);
    RunCancel(cfg, events, c);
  }

  /** A call cancelled on its way out of the wait leaves without an answer, whatever it was about to take along. */
  lemma {:induction false} CancelledLeaving(cfg: Config, events: seq<Event>, c: nat)
    requires var s := Run(cfg, events); c < |s.calls| && (s.calls[c].phase.Rereading? || s.calls[c].phase.Closing?)
    ensures LeavesWith(Run(cfg, events), Run(cfg, events + [Cancel(c)]), c, None)
  {
    RunCancel(cfg, events, c);
  }
}
