/** Which approvals are left pending by calls that have ended. */
module ProtocolPending {
  import opened Model
  import opened Protocol
  import opened ProtocolInvariant
  import opened ProtocolSafety

  /** From the created row to the write that settles it. */
  predicate InWait(p: Phase) {
    p.Created? || p.Announcing? || p.Announced? || p.Awaiting? || p.TimedOut? || p.Failing? || p.Cancelling?
  }

  ghost predicate Unsettled(s: State, c: nat) {
    c < |s.calls| && s.calls[c].ask.Some? && s.calls[c].ask.value.unsettled
  }

  /** The call gives its row up: cancelled as soon as it was created, or the settling write is lost. */
  predicate Drops(s: State, e: Event, c: nat) {
    || (e == Cancel(c) && CanCancel(s, c) && s.calls[c].phase.Created?)
    || (e.Hold? && e.c == c && CanHold(s, c, e.wait) && LosesWrite(e.wait))
  }

  // ---- What a step does to one call's wait ----------------------------------------------------------

  /** How the wait of call c may move: it never comes back, and is unsettled exactly from the moment it is dropped. */
  ghost predicate WaitMoves(s: State, s': State, e: Event, c: nat) {
    && c < |s'.calls|
    && (Unsettled(s', c) <==> Unsettled(s, c) || Drops(s, e, c))
    && (c < |s.calls| && s.calls[c].ask.Some? ==>
          && s'.calls[c].ask.Some? && s'.calls[c].ask.value.aid == s.calls[c].ask.value.aid
          && (!InWait(s.calls[c].phase) ==> !InWait(s'.calls[c].phase)))
  }

  /** The same for the call that takes the step. */
  ghost predicate OwnWait(k: Call, k': Call, drops: bool) {
    && (k'.ask.Some? && k'.ask.value.unsettled <==> (k.ask.Some? && k.ask.value.unsettled) || drops)
    && (k.ask.Some? ==>
          k'.ask.Some? && k'.ask.value.aid == k.ask.value.aid && (!InWait(k.phase) ==> !InWait(k'.phase)))
  }

  ghost predicate ShiftsTo(s: State, s': State, d: nat, k': Call, drops: bool) {
    d < |s.calls| && s'.calls == s.calls[d := k'] && OwnWait(s.calls[d], k', drops)
  }

  /** A step of call d. */
  ghost predicate Shifts(s: State, s': State, d: nat, drops: bool) {
    exists k' :: ShiftsTo(s, s', d, k', drops)
  }

  predicate LosesWrite(w: Wait) {
    w == ExpireRow(false) || w == FailRow(false) || w == CancelRow(false)
  }

  lemma AdmissionWaits(cfg: Config, s: State, d: nat, a: Admission)
    requires CanAdmit(s, d, a) && Here(cfg, s, d)
    ensures Shifts(s, Admitted(cfg, s, d, a), d, false)
  {
    var s' := Admitted(cfg, s, d, a);
    assert ShiftsTo(s, s', d, s'.calls[d], false);
  }

  /** The writes that settle a row. */
  lemma SettlingWaits(s: State, d: nat, ok: bool)
    requires Asking(s, d) && !s.calls[d].ask.value.unsettled
    ensures Shifts(s, AfterExpireRow(s, d, ok), d, !ok)
    ensures Shifts(s, AfterFailRow(s, d, ok), d, !ok)
    ensures Shifts(s, AfterCancelRow(s, d, ok), d, !ok)
  {
    assert ShiftsTo(s, AfterExpireRow(s, d, ok), d, AfterExpireRow(s, d, ok).calls[d], !ok);
    assert ShiftsTo(s, AfterFailRow(s, d, ok), d, AfterFailRow(s, d, ok).calls[d], !ok);
    assert ShiftsTo(s, AfterCancelRow(s, d, ok), d, AfterCancelRow(s, d, ok).calls[d], !ok);
  }

  lemma LeavingWaits(s: State, d: nat, ok: bool)
    requires Asking(s, d)
    ensures Shifts(s, AfterReread(s, d, ok), d, false)
    ensures s.calls[d].phase.Closing? ==> Shifts(s, AfterLeave(s, d, ok), d, false)
    ensures s.calls[d].phase.Resolving? ==> Shifts(s, AfterResolutionWritten(s, d, ok), d, false)
  {
    assert ShiftsTo(s, AfterReread(s, d, ok), d, AfterReread(s, d, ok).calls[d], false);
    if s.calls[d].phase.Closing? {
      assert ShiftsTo(s, AfterLeave(s, d, ok), d, AfterLeave(s, d, ok).calls[d], false);
    }
    if s.calls[d].phase.Resolving? {
      assert ShiftsTo(s, AfterResolutionWritten(s, d, ok), d, AfterResolutionWritten(s, d, ok).calls[d], false);
    }
  }

  lemma OpeningWaits(cfg: Config, s: State, d: nat, ok: bool)
    requires d < |s.calls| && s.calls[d].verdict.Some? && s.calls[d].ask.None?
    ensures Shifts(s, AfterApprovalCreated(cfg, s, d, ok), d, false)
  {
    var s' := AfterApprovalCreated(cfg, s, d, ok);
    assert ShiftsTo(s, s', d, s'.calls[d], false);
  }

  lemma AnnouncingWaits(cfg: Config, s: State, d: nat, io: Io)
    requires Asking(s, d) && s.calls[d].verdict.Some? && InWait(s.calls[d].phase)
    ensures Shifts(s, AfterListen(s, d), d, false)
    ensures Shifts(s, AfterAnnounce(cfg, s, d, io), d, false)
    ensures Shifts(s, AfterPause(s, d, io), d, false)
  {
    assert ShiftsTo(s, AfterListen(s, d), d, AfterListen(s, d).calls[d], false);
    assert ShiftsTo(s, AfterAnnounce(cfg, s, d, io), d, AfterAnnounce(cfg, s, d, io).calls[d], false);
    assert ShiftsTo(s, AfterPause(s, d, io), d, AfterPause(s, d, io).calls[d], false);
  }

  lemma PhaseWaits(s: State, d: nat, p: Phase)
    requires d < |s.calls| && InWait(s.calls[d].phase)
    ensures Shifts(s, To(s, d, p), d, false)
  {
    assert ShiftsTo(s, To(s, d, p), d, To(s, d, p).calls[d], false);
  }

  /** What the invariant knows of a call at a step of its wait. */
  ghost predicate WaitFacts(k: Call) {
    && (k.phase.Creating? ==> k.ask.None?)
    && (InWait(k.phase) ==> k.verdict.Some? && k.ask.Some? && !k.ask.value.unsettled)
  }

  lemma HereWaits(cfg: Config, s: State, d: nat)
    requires Here(cfg, s, d)
    ensures WaitFacts(s.calls[d])
  {
  }

  lemma HoldWaits(cfg: Config, s: State, d: nat, w: Wait)
    requires CanHold(s, d, w) && WaitFacts(s.calls[d])
    ensures Shifts(s, Held(cfg, s, d, w), d, LosesWrite(w))
  {
    match w
    case ExpireRow(ok) => SettlingWaits(s, d, ok);
    case FailRow(ok) => SettlingWaits(s, d, ok);
    case CancelRow(ok) => SettlingWaits(s, d, ok);
    case Reread(ok) => LeavingWaits(s, d, ok);
    case Leave(ok) => LeavingWaits(s, d, ok);
    case ResolutionWritten(ok) => LeavingWaits(s, d, ok);
    case ApprovalCreated(ok) => OpeningWaits(cfg, s, d, ok);
    case Listen => AnnouncingWaits(cfg, s, d, Fine);
    case Announce(io) => AnnouncingWaits(cfg, s, d, io);
    case Pause(io) => AnnouncingWaits(cfg, s, d, io);
    case Wake => PhaseWaits(s, d, Closing(s.waiters[AskOf(s, d).aid]));
    case GiveUp => PhaseWaits(s, d, TimedOut);
  }

  lemma RecheckWaits(s: State, d: nat, opinion: SecondOpinion)
    requires Stands(s, d, Rechecking) && s.calls[d].verdict.Some?
    ensures Shifts(s, Rechecked(s, d, opinion), d, false)
  {
    var s' := Rechecked(s, d, opinion);
    assert ShiftsTo(s, s', d, s'.calls[d], false);
  }

  lemma LastWriteWaits(s: State, d: nat, row: Row, ok: bool)
    requires d < |s.calls|
    ensures Shifts(s, LastWrite(s, d, row, ok), d, false)
  {
    assert ShiftsTo(s, LastWrite(s, d, row, ok), d, LastWrite(s, d, row, ok).calls[d], false);
  }

  lemma ChargedWaits(s: State, d: nat, toolOk: bool, reported: int)
    requires Charged(s, d)
    ensures Shifts(s, AfterStart(s, d), d, false)
    ensures s.calls[d].phase.Running? ==> Shifts(s, AfterAct(s, d), d, false)
    ensures Shifts(s, AfterFinish(s, d, toolOk, reported), d, false)
  {
    assert ShiftsTo(s, AfterStart(s, d), d, AfterStart(s, d).calls[d], false);
    if s.calls[d].phase.Running? {
      assert ShiftsTo(s, AfterAct(s, d), d, AfterAct(s, d).calls[d], false);
    }
    assert ShiftsTo(s, AfterFinish(s, d, toolOk, reported), d, AfterFinish(s, d, toolOk, reported).calls[d], false);
  }

  lemma ExecutionWaits(cfg: Config, s: State, d: nat, x: Execution)
    requires CanExecute(s, d, x)
    ensures Shifts(s, Executed(cfg, s, d, x), d, false)
  {
    match x
    case RejectionWritten(ok) => LastWriteWaits(s, d, Outcome(d, false), ok);
    case Recheck(fails) => RecheckWaits(s, d, OpinionOf(cfg, s, d, fails));
    case BlockWritten(ok) => LastWriteWaits(s, d, Outcome(d, false), ok);
    case Start => ChargedWaits(s, d, true, 0);
    case Act => ChargedWaits(s, d, true, 0);
    case Finish(toolOk, reported) => ChargedWaits(s, d, toolOk, reported);
    case OutcomeWritten(ok) => LastWriteWaits(s, d, Outcome(d, s.calls[d].phase.ok), ok);
  }

  lemma CancelWaits(cfg: Config, s: State, d: nat)
    requires CanCancel(s, d) && Here(cfg, s, d)
    ensures Shifts(s, AfterCancel(s, d), d, s.calls[d].phase.Created?)
  {
    var s' := AfterCancel(s, d);
    assert ShiftsTo(s, s', d, s'.calls[d], s.calls[d].phase.Created?);
  }

  lemma OthersWait(s: State, s': State, e: Event, d: nat, c: nat)
    requires Shifts(s, s', d, Drops(s, e, d)) && c < |s.calls|
    requires c != d ==> !Drops(s, e, c)
    ensures WaitMoves(s, s', e, c)
  {
  }

  /** The call that takes a step moves its own wait. */
  lemma OneWaits(cfg: Config, s: State, e: Event, d: nat)
    requires Inv(cfg, s)
    requires e.Admit? || e.Hold? || e.Execute? || e.Cancel?
    requires d == e.c && (e.Admit? ==> CanAdmit(s, d, e.admission)) && (e.Hold? ==> CanHold(s, d, e.wait))
    requires (e.Execute? ==> CanExecute(s, d, e.execution)) && (e.Cancel? ==> CanCancel(s, d))
    ensures Shifts(s, Step(cfg, s, e), d, Drops(s, e, d))
  {
    InvHere(cfg, s, d);
    match e
    case Admit(_, a) => AdmissionWaits(cfg, s, d, a);
    case Hold(_, w) =>
      HereWaits(cfg, s, d);
      HoldWaits(cfg, s, d, w);
    case Execute(_, x) => ExecutionWaits(cfg, s, d, x);
    case Cancel(_) => CancelWaits(cfg, s, d);
  }

  lemma StepWaits(cfg: Config, s: State, e: Event, c: nat)
    requires Inv(cfg, s) && c < |Step(cfg, s, e).calls|
    ensures WaitMoves(s, Step(cfg, s, e), e, c)
  {
    if (e.Admit? && CanAdmit(s, e.c, e.admission)) || (e.Hold? && CanHold(s, e.c, e.wait))
       || (e.Execute? && CanExecute(s, e.c, e.execution)) || (e.Cancel? && CanCancel(s, e.c)) {
      OneWaits(cfg, s, e, e.c);
      OthersWait(s, Step(cfg, s, e), e, e.c, c);
    } else {
      assert Step(cfg, s, e).calls == s.calls || Step(cfg, s, e).calls == s.calls + [NEW_CALL];
    }
  }

  // ---- Unsettled, in terms of events ----------------------------------------------------------------

  predicate DropsAt(cfg: Config, events: seq<Event>, n: nat, c: nat) {
    n < |events| && Drops(Run(cfg, events[..n]), events[n], c)
  }

  predicate Dropped(cfg: Config, events: seq<Event>, c: nat) {
    exists n: nat :: n < |events| && DropsAt(cfg, events, n, c)
  }

  lemma SamePast(cfg: Config, events: seq<Event>, n: nat, c: nat)
    requires n < |events| - 1
    ensures DropsAt(cfg, events[..|events| - 1], n, c) <==> DropsAt(cfg, events, n, c)
  {
    assert events[..|events| - 1][..n] == events[..n];
  }

  lemma DroppedSnoc(cfg: Config, events: seq<Event>, c: nat)
    requires events != []
    ensures var last := |events| - 1;
            Dropped(cfg, events, c) <==> Dropped(cfg, events[..last], c) || DropsAt(cfg, events, last, c)
  {
    var last := |events| - 1;
    forall n: nat | n < last
      ensures DropsAt(cfg, events[..last], n, c) <==> DropsAt(cfg, events, n, c)
    {
      SamePast(cfg, events, n, c);
    }
  }

  /** A wait is unsettled exactly if some event made its call drop the row. */
  lemma {:induction false} UnsettledIffDropped(cfg: Config, events: seq<Event>, c: nat)
    ensures Unsettled(Run(cfg, events), c) <==> Dropped(cfg, events, c)
  {
    if events != [] {
      var n := |events| - 1;
      UnsettledIffDropped(cfg, events[..n], c);
      DroppedSnoc(cfg, events, c);
      RunKeeps(cfg, events[..n]);
      if c < |Run(cfg, events).calls| {
        StepWaits(cfg, Run(cfg, events[..n]), events[n], c);
      } else {
        StepFrames(cfg, Run(cfg, events[..n]), events[n]);
      }
    }
  }

  // ---- Decided rows ---------------------------------------------------------------------------------

  /** An expired row was settled by its call; an approved or denied one has its approver on record. */
  ghost predicate RowSettled(s: State, aid: nat)
    requires aid < |s.approvals|
  {
    var row := s.approvals[aid];
    && (row.status == Expired ==>
          && row.call < |s.calls| && s.calls[row.call].ask.Some? && s.calls[row.call].ask.value.aid == aid
          && !s.calls[row.call].ask.value.unsettled && !InWait(s.calls[row.call].phase))
    && (row.status == Approved || row.status == Denied ==> exists d :: 0 <= d < |s.approvers| && s.approvers[d].aid == aid)
  }

  ghost predicate Settling(s: State) {
    forall aid :: 0 <= aid < |s.approvals| ==> RowSettled(s, aid)
  }

  lemma ApproversStay(cfg: Config, s: State, e: Event, d: nat)
    requires d < |s.approvers|
    ensures d < |Step(cfg, s, e).approvers| && Step(cfg, s, e).approvers[d].aid == s.approvers[d].aid
  {
    match e
    case Admit(_, _) =>
    case Hold(_, _) =>
    case Execute(_, _) =>
    case _ =>
  }

  /** Only a call that waits can drop its row. */
  lemma DropsInWait(s: State, e: Event, c: nat)
    requires Drops(s, e, c)
    ensures c < |s.calls| && InWait(s.calls[c].phase)
  {
  }

  lemma ExpiredStays(s: State, s': State, e: Event, aid: nat)
    requires aid < |s.approvals| && aid < |s'.approvals| && s'.approvals[aid] == s.approvals[aid]
    requires s.approvals[aid].status == Expired && RowSettled(s, aid) && WaitMoves(s, s', e, s.approvals[aid].call)
    ensures RowSettled(s', aid)
  {
    if Drops(s, e, s.approvals[aid].call) {
      DropsInWait(s, e, s.approvals[aid].call);
    }
  }

  lemma DecidedStays(cfg: Config, s: State, e: Event, aid: nat)
    requires aid < |s.approvals| && RowSettled(s, aid)
    requires s.approvals[aid].status == Approved || s.approvals[aid].status == Denied
    requires aid < |Step(cfg, s, e).approvals| && Step(cfg, s, e).approvals[aid] == s.approvals[aid]
    ensures RowSettled(Step(cfg, s, e), aid)
  {
    var d :| 0 <= d < |s.approvers| && s.approvers[d].aid == aid;
    ApproversStay(cfg, s, e, d);
  }

  /** A row that is as it was before the step is settled as before. */
  lemma OldRowSettled(cfg: Config, s: State, e: Event, aid: nat)
    requires Inv(cfg, s) && aid < |s.approvals| && RowSettled(s, aid)
    requires aid < |Step(cfg, s, e).approvals| && Step(cfg, s, e).approvals[aid] == s.approvals[aid]
    ensures RowSettled(Step(cfg, s, e), aid)
  {
    match s.approvals[aid].status
    case Pending =>
    case Expired =>
      StepFrames(cfg, s, e);
      StepWaits(cfg, s, e, s.approvals[aid].call);
      ExpiredStays(s, Step(cfg, s, e), e, aid);
    case _ => DecidedStays(cfg, s, e, aid);
  }

  /** Letting a row expire settles the wait it belongs to. */
  lemma ExpiredRowSettled(cfg: Config, s: State, c: nat, w: Wait, aid: nat)
    requires CanHold(s, c, w) && Here(cfg, s, c)
    requires aid < |Held(cfg, s, c, w).approvals| && Held(cfg, s, c, w).approvals[aid].status == Expired
    requires Decides(cfg, s, Hold(c, w), aid, Held(cfg, s, c, w).approvals[aid])
    ensures RowSettled(Held(cfg, s, c, w), aid)
  {
  }

  lemma NewRowSettled(cfg: Config, s: State, e: Event, aid: nat)
    requires Inv(cfg, s) && aid < |Step(cfg, s, e).approvals|
    requires Decides(cfg, s, e, aid, Step(cfg, s, e).approvals[aid])
    ensures RowSettled(Step(cfg, s, e), aid)
  {
    if e.Hold? && CanHold(s, e.c, e.wait) {
      InvHere(cfg, s, e.c);
      ExpiredRowSettled(cfg, s, e.c, e.wait, aid);
    } else if e.HumanDecides? {
      var s' := Step(cfg, s, e);
      assert s'.approvers[|s.approvers|].aid == aid;
    }
  }

  lemma StepSettles(cfg: Config, s: State, e: Event)
    requires Inv(cfg, s) && Settling(s)
    ensures Settling(Step(cfg, s, e))
  {
    var s' := Step(cfg, s, e);
    forall aid: nat | aid < |s'.approvals|
      ensures RowSettled(s', aid)
    {
      if s'.approvals[aid].status != Pending {
        StepDecides(cfg, s, e, aid);
        if s'.approvals[aid] == s.approvals[aid] {
          OldRowSettled(cfg, s, e, aid);
        } else {
          NewRowSettled(cfg, s, e, aid);
        }
      }
    }
  }

  lemma {:induction false} RunSettles(cfg: Config, events: seq<Event>)
    ensures Settling(Run(cfg, events))
  {
    if events != [] {
      var n := |events| - 1;
      RunSettles(cfg, events[..n]);
      RunKeeps(cfg, events[..n]);
      StepSettles(cfg, Run(cfg, events[..n]), events[n]);
    }
  }

  // ---- Approvals left pending -----------------------------------------------------------------------

  /** Every row belongs to the one call that asked for it. */
  ghost predicate Owned(s: State, aid: nat) {
    && aid < |s.approvals| && s.approvals[aid].call < |s.calls|
    && s.calls[s.approvals[aid].call].ask.Some? && s.calls[s.approvals[aid].call].ask.value.aid == aid
  }

  lemma {:induction false} RowFacts(cfg: Config, events: seq<Event>, aid: nat)
    requires aid < |Run(cfg, events).approvals|
    ensures var s := Run(cfg, events);
            var c := s.approvals[aid].call;
            && Owned(s, aid) && RowSettled(s, aid)
            && (s.calls[c].phase.Done? && s.approvals[aid].status == Pending ==> Unsettled(s, c))
            && (forall d :: 0 <= d < |s.approvers| && s.approvers[d].aid == aid ==> s.approvals[aid].status != Pending)
  {
    var s := Run(cfg, events);
    RunKeeps(cfg, events);
    RunSettles(cfg, events);
    assert ApprovalOk(cfg, s, aid);
    InvHere(cfg, s, s.approvals[aid].call);
    forall d | 0 <= d < |s.approvers| && s.approvers[d].aid == aid
      ensures s.approvals[aid].status != Pending
    {
      assert ApproverOk(s, d);
    }
  }

  /** Once its call has ended, a row is pending exactly if the call never settled it and no approver won it. */
  lemma {:induction false} NoApprovalLeftPending(cfg: Config, events: seq<Event>, aid: nat)
    requires aid < |Run(cfg, events).approvals|
    ensures var s := Run(cfg, events);
            var c := s.approvals[aid].call;
            && Owned(s, aid)
            && (s.calls[c].phase.Done? ==>
                  (s.approvals[aid].status == Pending <==>
                     Unsettled(s, c) && forall d :: 0 <= d < |s.approvers| ==> s.approvers[d].aid != aid))
  {
    RowFacts(cfg, events, aid);
  }

  /** Someone entitled to decided the row at this point of the schedule. */
  predicate HumanAt(cfg: Config, events: seq<Event>, n: nat, aid: nat) {
    n < |events| && events[n].HumanDecides? && events[n].aid == aid && MayDecide(cfg, Run(cfg, events[..n]), aid, events[n].who)
  }

  lemma HumanStep(cfg: Config, s: State, aid: nat, approve: bool, who: string)
    requires MayDecide(cfg, s, aid, who)
    ensures var s' := Step(cfg, s, HumanDecides(aid, approve, who));
            aid < |s'.approvals| && s'.approvals[aid].status != Pending
  {
  }

  lemma {:induction false} HumanSettles(cfg: Config, events: seq<Event>, n: nat, aid: nat)
    requires HumanAt(cfg, events, n, aid)
    ensures aid < |Run(cfg, events).approvals| && Run(cfg, events).approvals[aid].status != Pending
  {
    var upTo := events[..n + 1];
    assert upTo == events[..n] + [events[n]];
    RunStep(cfg, events[..n], events[n]);
    HumanStep(cfg, Run(cfg, events[..n]), aid, events[n].approve, events[n].who);
    DecidedOnce(cfg, upTo, events[n + 1..], aid);
    assert upTo + events[n + 1..] == events;
  }

  /**
   * In terms of what happened: once its call has ended, a row is pending exactly if the call dropped it, cancelled
   * as soon as the row was created or losing the write that would have settled it, and no approver decided it.
   */
  lemma {:induction false} PendingIffDropped(cfg: Config, events: seq<Event>, aid: nat)
    requires aid < |Run(cfg, events).approvals|
    requires var s := Run(cfg, events); Owned(s, aid) && s.calls[s.approvals[aid].call].phase.Done?
    ensures var s := Run(cfg, events);
            s.approvals[aid].status == Pending <==>
              && Dropped(cfg, events, s.approvals[aid].call)
              && forall n: nat :: n < |events| ==> !HumanAt(cfg, events, n, aid)
  {
    var s := Run(cfg, events);
    RowFacts(cfg, events, aid);
    UnsettledIffDropped(cfg, events, s.approvals[aid].call);
    if s.approvals[aid].status == Pending {
      forall n: nat | n < |events|
        ensures !HumanAt(cfg, events, n, aid)
      {
        if HumanAt(cfg, events, n, aid) {
          HumanSettles(cfg, events, n, aid);
        }
      }
    } else {
      var n := VerdictIsTheFirstDecision(cfg, events, aid);
      assert s.approvals[aid].status != Expired ==> HumanAt(cfg, events, n, aid);
    }
  }
}
