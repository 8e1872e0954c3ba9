/** What every step of the protocol keeps about calls, the lock and the stored rows. */
module ProtocolInvariant {
  import opened Model
  import opened Engine
  import opened Tools
  import opened Protocol

  // ---- One call against the stored rows -------------------------------------------------------------

  ghost predicate Unasked(k: Call) {
    k.ask.None? && k.charge.None?
  }

  /** Inside an approval wait that has met no internal error. */
  ghost predicate Waiting(k: Call, announced: bool, paused: bool) {
    k.charge.None? && k.ask.Some? && k.ask.value.reply.None? && !k.ask.value.failed && !k.ask.value.unsettled
    && k.ask.value.announcedAt.Some? == announced && k.ask.value.paused == paused
  }

  /** Interrupted wait: announced or not, paused or not. */
  ghost predicate Interrupted(k: Call) {
    k.charge.None? && k.ask.Some? && k.ask.value.reply.None? && !k.ask.value.failed && !k.ask.value.unsettled
  }

  ghost predicate Replied(k: Call) {
    k.charge.None? && k.ask.Some? && k.ask.value.reply.Some? && !k.ask.value.paused
  }

  ghost predicate Executing(k: Call, started: bool, settled: bool) {
    k.charge.Some? && k.charge.value.started == started && k.charge.value.settled == settled
    && (k.ask.Some? ==> !k.ask.value.paused)
  }

  /** An answer agrees with the row exactly if nothing went wrong; after an internal error it is no. */
  ghost predicate Agrees(answer: Status, failed: bool, row: Approval) {
    if failed then answer == Expired else answer == row.status != Pending
  }

  /** A wait on its way out: its row is decided, unless the deciding write was lost. */
  ghost predicate Leaving(approvals: seq<Approval>, k: Call) {
    && k.charge.None? && k.ask.Some? && k.ask.value.reply.None? && k.ask.value.aid < |approvals|
    && (!k.ask.value.unsettled ==> approvals[k.ask.value.aid].status != Pending)
  }

  ghost predicate PhaseOk(approvals: seq<Approval>, k: Call) {
    var p := k.phase;
    && (p.Arrived? || p.Refusing? ==> k.verdict.None? && k.ref.None? && Unasked(k))
    && (p.Deciding? ==> k.verdict.Some? && k.ref.None? && Unasked(k))
    && (p.Recorded? || p.Creating? ==> k.ref.Some? && Unasked(k))
    && (p.Creating? ==> k.verdict.Some? && k.verdict.value.decision.effect == RequireApproval)
    && (p.Created? || p.Announcing? ==> Waiting(k, false, false))
    && (p.Announced? ==> Waiting(k, true, false))
    && (p.Awaiting? ==> Waiting(k, true, true))
    && (p.TimedOut? || p.Rereading? || p.Failing? || p.Cancelling? ==> Interrupted(k))
    && (p.Rereading? || p.Closing? || p.Resolving? ==> Leaving(approvals, k))
    && (p.Closing? && p.answer.Some? ==> Agrees(p.answer.value, k.ask.value.failed, approvals[k.ask.value.aid]))
    && (p.Resolving? ==> !k.ask.value.paused && Agrees(p.status, k.ask.value.failed, approvals[k.ask.value.aid]))
    && (p.Rejected? || p.Rechecking? || p.Blocked? ==> Replied(k))
    && (p.Rechecking? || p.Blocked? ==> k.ask.value.reply.value.status == Approved)
    && (p.Rejected? ==> k.ask.value.reply.value.status != Approved)
    && (p.Granted? ==> Executing(k, false, false))
    && (p.Running? ==> Executing(k, true, false))
    && (p.Reporting? ==> Executing(k, true, true))
    && (p.Done? && k.ask.Some? ==> !k.ask.value.paused && Finished(approvals, k.ask.value))
  }

  ghost predicate Finished(approvals: seq<Approval>, ask: Ask) {
    ask.aid < |approvals| && (!ask.unsettled ==> approvals[ask.aid].status != Pending)
  }

  ghost predicate VerdictOk(cfg: Config, v: Verdict) {
    if v.byEngine then v.decision == EvaluateAll(cfg.text, cfg.policies, v.action, v.ctx)
    else v.decision.effect == Deny
  }

  /** The row an approval wait owns, and the two log rows it wrote, in order after the decision. */
  ghost predicate AskOk(audit: seq<Row>, approvals: seq<Approval>, c: nat, digest: string, ref: nat, ask: Ask) {
    && ask.aid < |approvals| && approvals[ask.aid].call == c && approvals[ask.aid].digest == digest
    && (ask.announcedAt.Some? ==>
          ref < ask.announcedAt.value < |audit| && audit[ask.announcedAt.value] == Requested(ask.aid, digest))
    && (ask.reply.Some? ==>
          && ask.reply.value.at < |audit| && audit[ask.reply.value.at] == Resolved(ask.aid, ask.reply.value.status)
          && (ask.announcedAt.Some? ==> ask.announcedAt.value < ask.reply.value.at)
          && Agrees(ask.reply.value.status, ask.failed, approvals[ask.aid])
          && Finished(approvals, ask))
  }

  /** What lets a call spend: its recorded decision allows, or asks and the answer was an approval. */
  ghost predicate Authorised(k: Call) {
    && k.verdict.Some? && k.ref.Some?
    && match k.verdict.value.decision.effect
       case Allow => true
       case Deny => false
       case RequireApproval => k.ask.Some? && k.ask.value.reply.Some? && k.ask.value.reply.value.status == Approved
  }

  ghost predicate ChargeOk(k: Call, g: Charge) {
    && Authorised(k)
    && (!g.settled ==> g.tokens == k.verdict.value.action.cost.tokens)
    && (g.acted || g.settled ==> g.started)
  }

  ghost predicate CallOk(cfg: Config, audit: seq<Row>, approvals: seq<Approval>, c: nat, k: Call) {
    && PhaseOk(approvals, k)
    && (k.verdict.Some? ==> VerdictOk(cfg, k.verdict.value))
    && (k.ref.Some? ==>
          k.verdict.Some? && k.ref.value < |audit| && audit[k.ref.value] == DecisionRow(cfg, c, k.verdict.value))
    && (k.ask.Some? ==>
          && k.verdict.Some? && k.verdict.value.decision.effect == RequireApproval && k.ref.Some?
          && AskOk(audit, approvals, c, cfg.digest(k.verdict.value.action), k.ref.value, k.ask.value))
    && (k.charge.Some? ==> ChargeOk(k, k.charge.value))
  }

  /** Approval rows only gain a decision, once. */
  ghost predicate Evolves(old_: seq<Approval>, new_: seq<Approval>) {
    && |old_| <= |new_|
    && forall i :: 0 <= i < |old_| ==>
         && new_[i].call == old_[i].call && new_[i].digest == old_[i].digest
         && (old_[i].status != Pending ==> new_[i] == old_[i])
  }

  lemma CallOkGrows(cfg: Config, audit: seq<Row>, audit': seq<Row>, rows: seq<Approval>, rows': seq<Approval>, c: nat, k: Call)
    requires CallOk(cfg, audit, rows, c, k)
    requires audit <= audit' && Evolves(rows, rows')
    ensures CallOk(cfg, audit', rows', c, k)
  {
  }

  // ---- What a step touches --------------------------------------------------------------------------

  /** One call at most changes, the log only grows, and approval rows only gain a decision. */
  ghost predicate Touches(s: State, s': State, c: nat) {
    && c < |s.calls| && |s'.calls| == |s.calls| && s'.calls == s.calls[c := s'.calls[c]]
    && s.audit <= s'.audit && Evolves(s.approvals, s'.approvals)
  }

  /** The call that takes this step. */
  predicate TakenBy(e: Event, c: nat) {
    (e.Admit? || e.Hold? || e.Execute? || e.Cancel?) && e.c == c
  }

  lemma AdmissionTouches(cfg: Config, s: State, c: nat, a: Admission)
    requires CanAdmit(s, c, a)
    ensures Touches(s, Admitted(cfg, s, c, a), c)
  {
  }

  lemma WaitTouches(cfg: Config, s: State, c: nat, w: Wait)
    requires CanHold(s, c, w)
    ensures Touches(s, Held(cfg, s, c, w), c)
  {
  }

  lemma ExecutionTouches(cfg: Config, s: State, c: nat, x: Execution)
    requires CanExecute(s, c, x)
    ensures Touches(s, Executed(cfg, s, c, x), c)
  {
  }

  /** A step leaves every other call alone, keeps the log and keeps every decision. */
  ghost predicate Frames(s: State, s': State, e: Event) {
    && |s.calls| <= |s'.calls| && s.audit <= s'.audit && Evolves(s.approvals, s'.approvals)
    && (forall c :: 0 <= c < |s.calls| && !TakenBy(e, c) ==> s'.calls[c] == s.calls[c])
    && (forall c :: |s.calls| <= c < |s'.calls| ==> s'.calls[c] == NEW_CALL)
  }

  lemma StepFrames(cfg: Config, s: State, e: Event)
    ensures Frames(s, Step(cfg, s, e), e)
  {
    if e.Admit? && CanAdmit(s, e.c, e.admission) {
      AdmissionTouches(cfg, s, e.c, e.admission);
    } else if e.Hold? && CanHold(s, e.c, e.wait) {
      WaitTouches(cfg, s, e.c, e.wait);
    } else if e.Execute? && CanExecute(s, e.c, e.execution) {
      ExecutionTouches(cfg, s, e.c, e.execution);
    }
  }

  // ---- The tables against the calls -----------------------------------------------------------------

  ghost predicate LockOk(s: State) {
    && (s.lock.Some? ==> s.lock.value < |s.calls|)
    && forall c :: 0 <= c < |s.calls| ==> (HoldsLock(s.calls[c].phase) <==> s.lock == Some(c))
  }

  ghost predicate ApprovalOk(cfg: Config, s: State, i: nat)
    requires i < |s.approvals|
  {
    var row := s.approvals[i];
    && row.call < |s.calls| && s.calls[row.call].ask.Some? && s.calls[row.call].ask.value.aid == i
    && (row.status == Approved && cfg.separation ==> row.decidedBy != cfg.submittedBy)
  }

  /** Every row written belongs to the one call that remembers its position. */
  ghost predicate LogOk(s: State, p: nat)
    requires p < |s.audit|
  {
    match s.audit[p]
    case Decided(c, _, _, _, _, _) => c < |s.calls| && s.calls[c].ref == Some(p)
    case Requested(aid, _) => Asked(s, aid) && AskAbout(s, aid).announcedAt == Some(p)
    case Resolved(aid, _) => Asked(s, aid) && AskAbout(s, aid).reply.Some? && AskAbout(s, aid).reply.value.at == p
    case _ => true
  }

  ghost predicate Asked(s: State, aid: nat) {
    aid < |s.approvals| && s.approvals[aid].call < |s.calls| && s.calls[s.approvals[aid].call].ask.Some?
    && s.calls[s.approvals[aid].call].ask.value.aid == aid
  }

  ghost function AskAbout(s: State, aid: nat): Ask
    requires Asked(s, aid)
  {
    s.calls[s.approvals[aid].call].ask.value
  }

  ghost predicate WaiterOk(s: State, aid: nat)
    requires aid in s.waiters
  {
    aid < |s.approvals| &&
    (s.waiters[aid].Some? ==> s.waiters[aid].value != Pending && s.approvals[aid].status == s.waiters[aid].value)
  }

  ghost predicate ApproverOk(s: State, d: nat)
    requires d < |s.approvers|
  {
    var a := s.approvers[d];
    a.aid < |s.approvals| && a.status != Pending && s.approvals[a.aid].status == a.status
  }

  ghost predicate CallsOk(cfg: Config, s: State) {
    forall c :: 0 <= c < |s.calls| ==> CallOk(cfg, s.audit, s.approvals, c, s.calls[c])
  }

  ghost predicate TablesOk(cfg: Config, s: State) {
    && (forall i :: 0 <= i < |s.approvals| ==> ApprovalOk(cfg, s, i))
    && (forall p :: 0 <= p < |s.audit| ==> LogOk(s, p))
    && (forall aid :: aid in s.waiters ==> WaiterOk(s, aid))
    && (forall d :: 0 <= d < |s.approvers| ==> ApproverOk(s, d))
  }

  ghost predicate Inv(cfg: Config, s: State) {
    CallsOk(cfg, s) && LockOk(s) && TablesOk(cfg, s)
  }

  // ---- Steps keep it --------------------------------------------------------------------------------

  /** A call never forgets the rows it wrote. */
  ghost predicate Remembers(k: Call, k': Call) {
    && (k.ref.Some? ==> k'.ref == k.ref)
    && (k.ask.Some? ==>
          && k'.ask.Some? && k'.ask.value.aid == k.ask.value.aid
          && (k.ask.value.announcedAt.Some? ==> k'.ask.value.announcedAt == k.ask.value.announcedAt)
          && (k.ask.value.reply.Some? ==> k'.ask.value.reply == k.ask.value.reply))
  }

  /** What a step taken by call c, leaving it as k', may do to the shared tables. */
  ghost predicate Local(cfg: Config, s: State, s': State, c: nat, k': Call) {
    && c < |s.calls| && s'.calls == s.calls[c := k']
    && CallOk(cfg, s'.audit, s'.approvals, c, k')
    && Remembers(s.calls[c], k')
    && s.audit <= s'.audit && (forall p :: |s.audit| <= p < |s'.audit| ==> LogOk(s', p))
    && Evolves(s.approvals, s'.approvals) && (forall i :: |s.approvals| <= i < |s'.approvals| ==> ApprovalOk(cfg, s', i))
    && (forall i :: 0 <= i < |s.approvals| ==> s'.approvals[i] == s.approvals[i] || s'.approvals[i].status != Approved)
    && (forall aid :: aid in s'.waiters ==>
          (aid in s.waiters && s'.waiters[aid] == s.waiters[aid]) || (aid < |s'.approvals| && s'.waiters[aid].None?))
    && s'.approvers == s.approvers
    && (HoldsLock(k'.phase) <==> s'.lock == Some(c))
    && (s'.lock == s.lock || ((s.lock.None? || s.lock == Some(c)) && (s'.lock.None? || s'.lock == Some(c))))
  }

  lemma LocalKeepsCalls(cfg: Config, s: State, s': State, c: nat, k': Call)
    requires CallsOk(cfg, s) && Local(cfg, s, s', c, k')
    ensures CallsOk(cfg, s')
  {
    forall i | 0 <= i < |s'.calls|
      ensures CallOk(cfg, s'.audit, s'.approvals, i, s'.calls[i])
    {
      if i != c {
        CallOkGrows(cfg, s.audit, s'.audit, s.approvals, s'.approvals, i, s.calls[i]);
      }
    }
  }

  lemma LocalKeepsLock(cfg: Config, s: State, s': State, c: nat, k': Call)
    requires LockOk(s) && Local(cfg, s, s', c, k')
    ensures LockOk(s')
  {
  }

  lemma LocalKeepsTables(cfg: Config, s: State, s': State, c: nat, k': Call)
    requires TablesOk(cfg, s) && Local(cfg, s, s', c, k')
    ensures TablesOk(cfg, s')
  {
    forall p | 0 <= p < |s'.audit|
      ensures LogOk(s', p)
    {
      if p < |s.audit| {
        assert LogOk(s, p) && s'.audit[p] == s.audit[p];
      }
    }
    forall i | 0 <= i < |s'.approvals|
      ensures ApprovalOk(cfg, s', i)
    {
      if i < |s.approvals| {
        assert ApprovalOk(cfg, s, i);
      }
    }
    forall aid | aid in s'.waiters
      ensures WaiterOk(s', aid)
    {
      if aid in s.waiters {
        assert WaiterOk(s, aid);
      }
    }
    forall d | 0 <= d < |s'.approvers|
      ensures ApproverOk(s', d)
    {
      assert ApproverOk(s, d);
    }
  }

  /** One call took a step of its own. */
  ghost predicate OneMoved(cfg: Config, s: State, s': State) {
    exists c, k' :: Local(cfg, s, s', c, k')
  }

  lemma OneMovedKeeps(cfg: Config, s: State, s': State)
    requires Inv(cfg, s) && OneMoved(cfg, s, s')
    ensures Inv(cfg, s')
  {
    var c, k' :| Local(cfg, s, s', c, k');
    LocalKeepsCalls(cfg, s, s', c, k');
    LocalKeepsLock(cfg, s, s', c, k');
    LocalKeepsTables(cfg, s, s', c, k');
  }

  /** All a step of call c may assume about it. */
  ghost predicate Here(cfg: Config, s: State, c: nat) {
    && c < |s.calls|
    && CallOk(cfg, s.audit, s.approvals, c, s.calls[c])
    && (HoldsLock(s.calls[c].phase) <==> s.lock == Some(c))
  }

  /** A step that creates no row and wakes nobody: it may take or give up the lock, and add one row to the log. */
  lemma CallMoves(cfg: Config, s: State, s': State, c: nat, k': Call)
    requires c < |s.calls| && s'.calls == s.calls[c := k']
    requires s'.approvals == s.approvals && s'.waiters == s.waiters && s'.approvers == s.approvers
    requires s'.audit == s.audit || (|s'.audit| == |s.audit| + 1 && s.audit <= s'.audit && LogOk(s', |s.audit|))
    requires CallOk(cfg, s'.audit, s.approvals, c, k') && Remembers(s.calls[c], k')
    requires HoldsLock(k'.phase) <==> s'.lock == Some(c)
    requires s'.lock == s.lock || ((s.lock.None? || s.lock == Some(c)) && (s'.lock.None? || s'.lock == Some(c)))
    ensures OneMoved(cfg, s, s')
  {
    assert Local(cfg, s, s', c, k');
  }

  /** A call whose last row is being written may end. */
  lemma DoneIsOk(cfg: Config, audit: seq<Row>, rows: seq<Approval>, c: nat, k: Call)
    requires CallOk(cfg, audit, rows, c, k)
    requires k.phase.Refusing? || k.phase.Rejected? || k.phase.Blocked? || k.phase.Reporting?
    ensures CallOk(cfg, audit, rows, c, k.(phase := Done))
  {
  }

  lemma LastWriteMoves(cfg: Config, s: State, c: nat, row: Row, ok: bool)
    requires c < |s.calls| && (HoldsLock(s.calls[c].phase) <==> s.lock == Some(c))
    requires row.Refused? || row.Outcome?
    requires CallOk(cfg, s.audit, s.approvals, c, s.calls[c].(phase := Done))
    ensures OneMoved(cfg, s, LastWrite(s, c, row, ok))
  {
    var s' := LastWrite(s, c, row, ok);
    CallOkGrows(cfg, s.audit, s'.audit, s.approvals, s'.approvals, c, s'.calls[c]);
    CallMoves(cfg, s, s', c, s'.calls[c]);
  }

  /** A call on its way out of the wait, once its row is decided or the deciding write is lost. */
  lemma ClosingIsOk(cfg: Config, audit: seq<Row>, rows: seq<Approval>, c: nat, k: Call, ask: Ask, answer: Option<Status>)
    requires CallOk(cfg, audit, rows, c, k) && Interrupted(k)
    requires ask == k.ask.value.(failed := ask.failed, unsettled := ask.unsettled)
    requires ask.aid < |rows| && (!ask.unsettled ==> rows[ask.aid].status != Pending)
    requires answer.Some? ==> Agrees(answer.value, ask.failed, rows[ask.aid])
    ensures CallOk(cfg, audit, rows, c, k.(phase := Closing(answer), ask := Some(ask)))
  {
  }

  /** A timeout that lost the race for the row looks it up. */
  lemma RereadingIsOk(cfg: Config, audit: seq<Row>, rows: seq<Approval>, c: nat, k: Call)
    requires CallOk(cfg, audit, rows, c, k) && Interrupted(k) && rows[k.ask.value.aid].status != Pending
    ensures CallOk(cfg, audit, rows, c, k.(phase := Rereading))
  {
  }

  lemma AnnouncedIsOk(cfg: Config, audit: seq<Row>, rows: seq<Approval>, c: nat, k: Call, at: nat)
    requires CallOk(cfg, audit, rows, c, k) && k.phase.Announcing? && k.verdict.Some? && k.ref.Some?
    requires k.ref.value < at < |audit|
    requires audit[at] == Requested(k.ask.value.aid, cfg.digest(k.verdict.value.action))
    ensures CallOk(cfg, audit, rows, c, k.(phase := Announced, ask := Some(k.ask.value.(announcedAt := Some(at)))))
  {
  }

  lemma RepliedIsOk(cfg: Config, audit: seq<Row>, rows: seq<Approval>, c: nat, k: Call, at: nat)
    requires CallOk(cfg, audit, rows, c, k) && k.phase.Resolving?
    requires k.ask.value.announcedAt.Some? ==> k.ask.value.announcedAt.value < at
    requires at < |audit| && audit[at] == Resolved(k.ask.value.aid, k.phase.status)
    ensures CallOk(cfg, audit, rows, c, k.(ask := Some(k.ask.value.(reply := Some(Reply(k.phase.status, at)))),
                                           phase := if k.phase.status == Approved then Rechecking else Rejected))
  {
  }

  lemma CreatedIsOk(cfg: Config, audit: seq<Row>, rows: seq<Approval>, c: nat, k: Call, aid: nat)
    requires CallOk(cfg, audit, rows, c, k) && k.phase.Creating?
    requires aid < |rows| && rows[aid].call == c && rows[aid].digest == cfg.digest(k.verdict.value.action)
    ensures CallOk(cfg, audit, rows, c, k.(phase := Created, ask := Some(Ask(aid, None, false, false, false, None))))
  {
  }

  lemma ReservedIsOk(cfg: Config, audit: seq<Row>, rows: seq<Approval>, c: nat, k: Call)
    requires CallOk(cfg, audit, rows, c, k) && k.phase.Rechecking? && k.verdict.Some?
    ensures CallOk(cfg, audit, rows, c, Reserved(k))
    ensures CallOk(cfg, audit, rows, c, k.(phase := Blocked))
    ensures CallOk(cfg, audit, rows, c, k.(phase := Done))
  {
  }

  lemma StartedIsOk(cfg: Config, audit: seq<Row>, rows: seq<Approval>, c: nat, k: Call)
    requires CallOk(cfg, audit, rows, c, k) && k.phase.Granted?
    ensures CallOk(cfg, audit, rows, c, k.(phase := Running, charge := Some(k.charge.value.(started := true))))
  {
  }

  lemma DecideMoves(cfg: Config, s: State, c: nat, req: Request, fails: bool)
    requires Here(cfg, s, c) && Stands(s, c, Arrived) && s.lock.None?
    ensures OneMoved(cfg, s, AfterDecide(cfg, s, c, req, fails))
  {
    var s' := AfterDecide(cfg, s, c, req, fails);
    var k' := s'.calls[c];
    assert CallOk(cfg, s'.audit, s'.approvals, c, k');
    assert Local(cfg, s, s', c, k');
  }

  lemma RefusalWrittenMoves(cfg: Config, s: State, c: nat, ok: bool)
    requires Here(cfg, s, c) && Stands(s, c, Refusing)
    ensures OneMoved(cfg, s, LastWrite(s, c, Refused("harness:invalid-arguments"), ok))
  {
    DoneIsOk(cfg, s.audit, s.approvals, c, s.calls[c]);
    LastWriteMoves(cfg, s, c, Refused("harness:invalid-arguments"), ok);
  }

  lemma DecisionWrittenMoves(cfg: Config, s: State, c: nat, ok: bool)
    requires Here(cfg, s, c) && Stands(s, c, Deciding) && s.calls[c].verdict.Some?
    ensures OneMoved(cfg, s, AfterDecisionWritten(cfg, s, c, ok))
  {
    var s' := AfterDecisionWritten(cfg, s, c, ok);
    var k' := s'.calls[c];
    assert CallOk(cfg, s'.audit, s'.approvals, c, k');
    assert Local(cfg, s, s', c, k');
  }

  lemma ProceedMoves(cfg: Config, s: State, c: nat)
    requires Here(cfg, s, c) && Stands(s, c, Recorded) && s.calls[c].verdict.Some?
    ensures OneMoved(cfg, s, AfterProceed(s, c))
  {
    var s' := AfterProceed(s, c);
    CallMoves(cfg, s, s', c, s'.calls[c]);
  }

  lemma AdmissionMoves(cfg: Config, s: State, c: nat, a: Admission)
    requires Here(cfg, s, c) && CanAdmit(s, c, a)
    ensures OneMoved(cfg, s, Admitted(cfg, s, c, a))
  {
    match a
    case Decide(req, fails) => DecideMoves(cfg, s, c, req, fails);
    case RefusalWritten(ok) => RefusalWrittenMoves(cfg, s, c, ok);
    case DecisionWritten(ok) => DecisionWrittenMoves(cfg, s, c, ok);
    case Proceed => ProceedMoves(cfg, s, c);
  }

  lemma CreatedMoves(cfg: Config, s: State, c: nat)
    requires Here(cfg, s, c) && Stands(s, c, Creating) && s.calls[c].verdict.Some?
    ensures OneMoved(cfg, s, AfterApprovalCreated(cfg, s, c, true))
  {
    var s' := AfterApprovalCreated(cfg, s, c, true);
    CallOkGrows(cfg, s.audit, s'.audit, s.approvals, s'.approvals, c, s.calls[c]);
    CreatedIsOk(cfg, s'.audit, s'.approvals, c, s.calls[c], |s.approvals|);
    assert ApprovalOk(cfg, s', |s.approvals|);
    assert Local(cfg, s, s', c, s'.calls[c]);
  }

  lemma ApprovalCreatedMoves(cfg: Config, s: State, c: nat, ok: bool)
    requires Here(cfg, s, c) && Stands(s, c, Creating) && s.calls[c].verdict.Some?
    ensures OneMoved(cfg, s, AfterApprovalCreated(cfg, s, c, ok))
  {
    if ok {
      CreatedMoves(cfg, s, c);
    } else {
      var s' := AfterApprovalCreated(cfg, s, c, ok);
      CallMoves(cfg, s, s', c, s'.calls[c]);
    }
  }

  lemma ListenMoves(cfg: Config, s: State, c: nat)
    requires Here(cfg, s, c) && Stands(s, c, Created) && Asking(s, c)
    ensures OneMoved(cfg, s, AfterListen(s, c))
  {
    var s' := AfterListen(s, c);
    var k' := s'.calls[c];
    assert CallOk(cfg, s'.audit, s'.approvals, c, k');
    assert Local(cfg, s, s', c, k');
  }

  lemma AnnouncedMoves(cfg: Config, s: State, c: nat)
    requires Here(cfg, s, c) && Stands(s, c, Announcing) && Asking(s, c) && s.calls[c].verdict.Some?
    ensures OneMoved(cfg, s, AfterAnnounce(cfg, s, c, Fine))
  {
    var s' := AfterAnnounce(cfg, s, c, Fine);
    CallOkGrows(cfg, s.audit, s'.audit, s.approvals, s'.approvals, c, s.calls[c]);
    AnnouncedIsOk(cfg, s'.audit, s'.approvals, c, s.calls[c], |s.audit|);
    CallMoves(cfg, s, s', c, s'.calls[c]);
  }

  lemma AnnounceMoves(cfg: Config, s: State, c: nat, io: Io)
    requires Here(cfg, s, c) && Stands(s, c, Announcing) && Asking(s, c) && s.calls[c].verdict.Some?
    ensures OneMoved(cfg, s, AfterAnnounce(cfg, s, c, io))
  {
    if io.Fine? {
      AnnouncedMoves(cfg, s, c);
    } else {
      var s' := AfterAnnounce(cfg, s, c, io);
      CallMoves(cfg, s, s', c, s'.calls[c]);
    }
  }

  lemma PauseMoves(cfg: Config, s: State, c: nat, io: Io)
    requires Here(cfg, s, c) && Stands(s, c, Announced) && Asking(s, c)
    ensures OneMoved(cfg, s, AfterPause(s, c, io))
  {
    var s' := AfterPause(s, c, io);
    CallMoves(cfg, s, s', c, s'.calls[c]);
  }

  lemma WakeMoves(cfg: Config, s: State, c: nat)
    requires Here(cfg, s, c) && Stands(s, c, Awaiting) && Asking(s, c) && AskOf(s, c).aid in s.waiters && s.waiters[AskOf(s, c).aid].Some? && WaiterOk(s, AskOf(s, c).aid)
    ensures OneMoved(cfg, s, To(s, c, Closing(s.waiters[AskOf(s, c).aid])))
  {
    var s' := To(s, c, Closing(s.waiters[AskOf(s, c).aid]));
    CallMoves(cfg, s, s', c, s'.calls[c]);
  }

  lemma GiveUpMoves(cfg: Config, s: State, c: nat)
    requires Here(cfg, s, c) && Stands(s, c, Awaiting)
    ensures OneMoved(cfg, s, To(s, c, TimedOut))
  {
    var s' := To(s, c, TimedOut);
    CallMoves(cfg, s, s', c, s'.calls[c]);
  }

  lemma ExpireRowMoves(cfg: Config, s: State, c: nat, ok: bool)
    requires Here(cfg, s, c) && Stands(s, c, TimedOut) && Asking(s, c)
    ensures OneMoved(cfg, s, AfterExpireRow(s, c, ok))
  {
    var s' := AfterExpireRow(s, c, ok);
    var k' := s'.calls[c];
    CallOkGrows(cfg, s.audit, s'.audit, s.approvals, s'.approvals, c, s.calls[c]);
    if k'.phase.Closing? {
      ClosingIsOk(cfg, s'.audit, s'.approvals, c, s.calls[c], k'.ask.value, k'.phase.answer);
    } else {
      RereadingIsOk(cfg, s'.audit, s'.approvals, c, s.calls[c]);
    }
    assert Local(cfg, s, s', c, k');
  }

  lemma RereadMoves(cfg: Config, s: State, c: nat, ok: bool)
    requires Here(cfg, s, c) && Stands(s, c, Rereading) && Asking(s, c)
    ensures OneMoved(cfg, s, AfterReread(s, c, ok))
  {
    var s' := AfterReread(s, c, ok);
    CallMoves(cfg, s, s', c, s'.calls[c]);
  }

  lemma FailRowMoves(cfg: Config, s: State, c: nat, ok: bool)
    requires Here(cfg, s, c) && Stands(s, c, Failing) && Asking(s, c)
    ensures OneMoved(cfg, s, AfterFailRow(s, c, ok))
  {
    var s' := AfterFailRow(s, c, ok);
    var k' := s'.calls[c];
    CallOkGrows(cfg, s.audit, s'.audit, s.approvals, s'.approvals, c, s.calls[c]);
    ClosingIsOk(cfg, s'.audit, s'.approvals, c, s.calls[c], k'.ask.value, k'.phase.answer);
    assert Local(cfg, s, s', c, k');
  }

  lemma CancelRowMoves(cfg: Config, s: State, c: nat, ok: bool)
    requires Here(cfg, s, c) && Stands(s, c, Cancelling) && Asking(s, c)
    ensures OneMoved(cfg, s, AfterCancelRow(s, c, ok))
  {
    var s' := AfterCancelRow(s, c, ok);
    var k' := s'.calls[c];
    CallOkGrows(cfg, s.audit, s'.audit, s.approvals, s'.approvals, c, s.calls[c]);
    ClosingIsOk(cfg, s'.audit, s'.approvals, c, s.calls[c], k'.ask.value, k'.phase.answer);
    assert Local(cfg, s, s', c, k');
  }

  lemma LeaveMoves(cfg: Config, s: State, c: nat, ok: bool)
    requires Here(cfg, s, c) && Asking(s, c) && s.calls[c].phase.Closing?
    ensures OneMoved(cfg, s, AfterLeave(s, c, ok))
  {
    var s' := AfterLeave(s, c, ok);
    var k' := s'.calls[c];
    assert CallOk(cfg, s'.audit, s'.approvals, c, k');
    assert Local(cfg, s, s', c, k');
  }

  lemma RepliedMoves(cfg: Config, s: State, c: nat)
    requires Here(cfg, s, c) && Asking(s, c) && s.calls[c].phase.Resolving?
    ensures OneMoved(cfg, s, AfterResolutionWritten(s, c, true))
  {
    var s' := AfterResolutionWritten(s, c, true);
    CallOkGrows(cfg, s.audit, s'.audit, s.approvals, s'.approvals, c, s.calls[c]);
    RepliedIsOk(cfg, s'.audit, s'.approvals, c, s.calls[c], |s.audit|);
    CallMoves(cfg, s, s', c, s'.calls[c]);
  }

  lemma ResolutionWrittenMoves(cfg: Config, s: State, c: nat, ok: bool)
    requires Here(cfg, s, c) && Asking(s, c) && s.calls[c].phase.Resolving?
    ensures OneMoved(cfg, s, AfterResolutionWritten(s, c, ok))
  {
    if ok {
      RepliedMoves(cfg, s, c);
    } else {
      var s' := AfterResolutionWritten(s, c, ok);
      CallMoves(cfg, s, s', c, s'.calls[c]);
    }
  }

  lemma WaitMoves(cfg: Config, s: State, c: nat, w: Wait)
    requires Here(cfg, s, c) && CanHold(s, c, w)
    requires w.Wake? ==> WaiterOk(s, AskOf(s, c).aid)
    ensures OneMoved(cfg, s, Held(cfg, s, c, w))
  {
    match w
    case ApprovalCreated(ok) => ApprovalCreatedMoves(cfg, s, c, ok);
    case Listen => ListenMoves(cfg, s, c);
    case Announce(io) => AnnounceMoves(cfg, s, c, io);
    case Pause(io) => PauseMoves(cfg, s, c, io);
    case Wake => WakeMoves(cfg, s, c);
    case GiveUp => GiveUpMoves(cfg, s, c);
    case ExpireRow(ok) => ExpireRowMoves(cfg, s, c, ok);
    case Reread(ok) => RereadMoves(cfg, s, c, ok);
    case FailRow(ok) => FailRowMoves(cfg, s, c, ok);
    case CancelRow(ok) => CancelRowMoves(cfg, s, c, ok);
    case Leave(ok) => LeaveMoves(cfg, s, c, ok);
    case ResolutionWritten(ok) => ResolutionWrittenMoves(cfg, s, c, ok);
  }

  lemma RejectionWrittenMoves(cfg: Config, s: State, c: nat, ok: bool)
    requires Here(cfg, s, c) && Stands(s, c, Rejected)
    ensures OneMoved(cfg, s, LastWrite(s, c, Outcome(c, false), ok))
  {
    DoneIsOk(cfg, s.audit, s.approvals, c, s.calls[c]);
    LastWriteMoves(cfg, s, c, Outcome(c, false), ok);
  }

  lemma RecheckMoves(cfg: Config, s: State, c: nat, opinion: SecondOpinion)
    requires Here(cfg, s, c) && Stands(s, c, Rechecking) && s.lock.None? && s.calls[c].verdict.Some?
    ensures OneMoved(cfg, s, Rechecked(s, c, opinion))
  {
    var s' := Rechecked(s, c, opinion);
    ReservedIsOk(cfg, s.audit, s.approvals, c, s.calls[c]);
    CallMoves(cfg, s, s', c, s'.calls[c]);
  }

  lemma BlockWrittenMoves(cfg: Config, s: State, c: nat, ok: bool)
    requires Here(cfg, s, c) && Stands(s, c, Blocked)
    ensures OneMoved(cfg, s, LastWrite(s, c, Outcome(c, false), ok))
  {
    DoneIsOk(cfg, s.audit, s.approvals, c, s.calls[c]);
    LastWriteMoves(cfg, s, c, Outcome(c, false), ok);
  }

  lemma StartMoves(cfg: Config, s: State, c: nat)
    requires Here(cfg, s, c) && Stands(s, c, Granted) && Charged(s, c)
    ensures OneMoved(cfg, s, AfterStart(s, c))
  {
    var s' := AfterStart(s, c);
    StartedIsOk(cfg, s.audit, s.approvals, c, s.calls[c]);
    CallMoves(cfg, s, s', c, s'.calls[c]);
  }

  lemma ActMoves(cfg: Config, s: State, c: nat)
    requires Here(cfg, s, c) && Stands(s, c, Running) && Charged(s, c)
    ensures OneMoved(cfg, s, AfterAct(s, c))
  {
    var s' := AfterAct(s, c);
    CallMoves(cfg, s, s', c, s'.calls[c]);
  }

  lemma FinishMoves(cfg: Config, s: State, c: nat, toolOk: bool, reported: int)
    requires Here(cfg, s, c) && Stands(s, c, Running) && Charged(s, c)
    ensures OneMoved(cfg, s, AfterFinish(s, c, toolOk, reported))
  {
    var s' := AfterFinish(s, c, toolOk, reported);
    CallMoves(cfg, s, s', c, s'.calls[c]);
  }

  lemma OutcomeWrittenMoves(cfg: Config, s: State, c: nat, ok: bool)
    requires Here(cfg, s, c) && c < |s.calls| && s.calls[c].phase.Reporting?
    ensures OneMoved(cfg, s, LastWrite(s, c, Outcome(c, s.calls[c].phase.ok), ok))
  {
    DoneIsOk(cfg, s.audit, s.approvals, c, s.calls[c]);
    LastWriteMoves(cfg, s, c, Outcome(c, s.calls[c].phase.ok), ok);
  }

  lemma ExecutionMoves(cfg: Config, s: State, c: nat, x: Execution)
    requires Here(cfg, s, c) && CanExecute(s, c, x)
    ensures OneMoved(cfg, s, Executed(cfg, s, c, x))
  {
    match x
    case RejectionWritten(ok) => RejectionWrittenMoves(cfg, s, c, ok);
    case Recheck(fails) => RecheckMoves(cfg, s, c, OpinionOf(cfg, s, c, fails));
    case BlockWritten(ok) => BlockWrittenMoves(cfg, s, c, ok);
    case Start => StartMoves(cfg, s, c);
    case Act => ActMoves(cfg, s, c);
    case Finish(toolOk, reported) => FinishMoves(cfg, s, c, toolOk, reported);
    case OutcomeWritten(ok) => OutcomeWrittenMoves(cfg, s, c, ok);
  }

  lemma CancelWaitingMoves(cfg: Config, s: State, c: nat)
    requires Here(cfg, s, c) && (s.calls[c].phase.Announced? || s.calls[c].phase.Awaiting?)
    ensures OneMoved(cfg, s, AfterCancel(s, c))
  {
    var s' := AfterCancel(s, c);
    CallMoves(cfg, s, s', c, s'.calls[c]);
  }

  lemma CancelLeavingMoves(cfg: Config, s: State, c: nat)
    requires Here(cfg, s, c) && (s.calls[c].phase.Rereading? || s.calls[c].phase.Closing?)
    ensures OneMoved(cfg, s, AfterCancel(s, c))
  {
    var s' := AfterCancel(s, c);
    CallMoves(cfg, s, s', c, s'.calls[c]);
  }

  lemma CancelCreatedMoves(cfg: Config, s: State, c: nat)
    requires Here(cfg, s, c) && s.calls[c].phase.Created?
    ensures OneMoved(cfg, s, AfterCancel(s, c))
  {
    var s' := AfterCancel(s, c);
    CallMoves(cfg, s, s', c, s'.calls[c]);
  }

  lemma CancelOutsideMoves(cfg: Config, s: State, c: nat)
    requires Here(cfg, s, c) && CancelTo(s.calls[c].phase) == Some(Done) && !s.calls[c].phase.Created?
    ensures OneMoved(cfg, s, AfterCancel(s, c))
  {
    var s' := AfterCancel(s, c);
    CallMoves(cfg, s, s', c, s'.calls[c]);
  }

  lemma CancelMoves(cfg: Config, s: State, c: nat)
    requires Here(cfg, s, c) && CanCancel(s, c)
    ensures OneMoved(cfg, s, AfterCancel(s, c))
  {
    var p := s.calls[c].phase;
    if p.Created? {
      CancelCreatedMoves(cfg, s, c);
    } else if p.Announced? || p.Awaiting? {
      CancelWaitingMoves(cfg, s, c);
    } else if p.Rereading? || p.Closing? {
      CancelLeavingMoves(cfg, s, c);
    } else {
      CancelOutsideMoves(cfg, s, c);
    }
  }

  lemma ArriveKeeps(cfg: Config, s: State)
    requires Inv(cfg, s)
    ensures Inv(cfg, s.(calls := s.calls + [NEW_CALL]))
  {
    var s' := s.(calls := s.calls + [NEW_CALL]);
    assert CallOk(cfg, s.audit, s.approvals, |s.calls|, NEW_CALL);
    forall i | 0 <= i < |s.approvals|
      ensures ApprovalOk(cfg, s', i)
    {
      assert ApprovalOk(cfg, s, i);
    }
    forall p | 0 <= p < |s.audit|
      ensures LogOk(s', p)
    {
      assert LogOk(s, p);
    }
    forall aid | aid in s'.waiters
      ensures WaiterOk(s', aid)
    {
      assert WaiterOk(s, aid);
    }
    forall d | 0 <= d < |s'.approvers|
      ensures ApproverOk(s', d)
    {
      assert ApproverOk(s, d);
    }
  }

  lemma NoteKeeps(cfg: Config, s: State, row: Row)
    requires Inv(cfg, s) && (row.Refused? || row.Reported?)
    ensures Inv(cfg, s.(audit := s.audit + [row]))
  {
    var s' := s.(audit := s.audit + [row]);
    forall c | 0 <= c < |s.calls|
      ensures CallOk(cfg, s'.audit, s'.approvals, c, s'.calls[c])
    {
      CallOkGrows(cfg, s.audit, s'.audit, s.approvals, s.approvals, c, s.calls[c]);
    }
    forall i | 0 <= i < |s.approvals|
      ensures ApprovalOk(cfg, s', i)
    {
      assert ApprovalOk(cfg, s, i);
    }
    forall p | 0 <= p < |s'.audit|
      ensures LogOk(s', p)
    {
      if p < |s.audit| {
        assert LogOk(s, p);
      }
    }
    forall aid | aid in s'.waiters
      ensures WaiterOk(s', aid)
    {
      assert WaiterOk(s, aid);
    }
    forall d | 0 <= d < |s'.approvers|
      ensures ApproverOk(s', d)
    {
      assert ApproverOk(s, d);
    }
  }

  lemma HumanKeeps(cfg: Config, s: State, aid: nat, approve: bool, who: string)
    requires Inv(cfg, s) && aid < |s.approvals| && (cfg.separation ==> who != cfg.submittedBy)
    ensures Inv(cfg, AfterHumanDecides(s, aid, approve, who))
  {
    var s' := AfterHumanDecides(s, aid, approve, who);
    forall c | 0 <= c < |s.calls|
      ensures CallOk(cfg, s.audit, s'.approvals, c, s.calls[c])
    {
      CallOkGrows(cfg, s.audit, s.audit, s.approvals, s'.approvals, c, s.calls[c]);
    }
    forall i | 0 <= i < |s'.approvals|
      ensures ApprovalOk(cfg, s', i)
    {
      assert ApprovalOk(cfg, s, i);
    }
    forall p | 0 <= p < |s.audit|
      ensures LogOk(s', p)
    {
      assert LogOk(s, p);
    }
    forall a | a in s.waiters
      ensures WaiterOk(s', a)
    {
      assert WaiterOk(s, a);
    }
    forall d | 0 <= d < |s'.approvers|
      ensures ApproverOk(s', d)
    {
      if d < |s.approvers| {
        assert ApproverOk(s, d);
      }
    }
  }

  lemma NotifyKeeps(cfg: Config, s: State, d: nat)
    requires Inv(cfg, s) && d < |s.approvers|
    ensures Inv(cfg, AfterNotify(s, d))
  {
    var s' := AfterNotify(s, d);
    forall i | 0 <= i < |s.approvals|
      ensures ApprovalOk(cfg, s', i)
    {
      assert ApprovalOk(cfg, s, i);
    }
    forall p | 0 <= p < |s.audit|
      ensures LogOk(s', p)
    {
      assert LogOk(s, p);
    }
    assert ApproverOk(s, d);
    forall a | a in s'.waiters
      ensures WaiterOk(s', a)
    {
      assert a in s.waiters && WaiterOk(s, a);
    }
    forall x | 0 <= x < |s'.approvers|
      ensures ApproverOk(s', x)
    {
      assert ApproverOk(s, x);
    }
  }

  lemma InvHere(cfg: Config, s: State, c: nat)
    requires Inv(cfg, s) && c < |s.calls|
    ensures Here(cfg, s, c)
  {
    assert forall i :: 0 <= i < |s.calls| && i == c ==> CallOk(cfg, s.audit, s.approvals, i, s.calls[i]);
  }

  lemma StepKeeps(cfg: Config, s: State, e: Event)
    requires Inv(cfg, s)
    ensures Inv(cfg, Step(cfg, s, e))
  {
    match e
    case Refuse(rule) => NoteKeeps(cfg, s, Refused(rule));
    case Report(progress) => NoteKeeps(cfg, s, Reported(progress));
    case Arrive => ArriveKeeps(cfg, s);
    case Admit(c, a) => AdmitKeeps(cfg, s, c, a);
    case Hold(c, w) => HoldKeeps(cfg, s, c, w);
    case Execute(c, x) => ExecuteKeeps(cfg, s, c, x);
    case Cancel(c) => CancelKeeps(cfg, s, c);
    case HumanDecides(aid, approve, who) =>
      if MayDecide(cfg, s, aid, who) {
        HumanKeeps(cfg, s, aid, approve, who);
      }
    case Notify(d) =>
      if d < |s.approvers| {
        NotifyKeeps(cfg, s, d);
      }
  }

  lemma AdmitKeeps(cfg: Config, s: State, c: nat, a: Admission)
    requires Inv(cfg, s)
    ensures CanAdmit(s, c, a) ==> Inv(cfg, Admitted(cfg, s, c, a))
  {
    if CanAdmit(s, c, a) {
      InvHere(cfg, s, c);
      AdmissionMoves(cfg, s, c, a);
      OneMovedKeeps(cfg, s, Admitted(cfg, s, c, a));
    }
  }

  lemma HoldKeeps(cfg: Config, s: State, c: nat, w: Wait)
    requires Inv(cfg, s)
    ensures CanHold(s, c, w) ==> Inv(cfg, Held(cfg, s, c, w))
  {
    if CanHold(s, c, w) {
      InvHere(cfg, s, c);
      WaitMoves(cfg, s, c, w);
      OneMovedKeeps(cfg, s, Held(cfg, s, c, w));
    }
  }

  lemma ExecuteKeeps(cfg: Config, s: State, c: nat, x: Execution)
    requires Inv(cfg, s)
    ensures CanExecute(s, c, x) ==> Inv(cfg, Executed(cfg, s, c, x))
  {
    if CanExecute(s, c, x) {
      InvHere(cfg, s, c);
      ExecutionMoves(cfg, s, c, x);
      OneMovedKeeps(cfg, s, Executed(cfg, s, c, x));
    }
  }

  lemma CancelKeeps(cfg: Config, s: State, c: nat)
    requires Inv(cfg, s)
    ensures CanCancel(s, c) ==> Inv(cfg, AfterCancel(s, c))
  {
    if CanCancel(s, c) {
      InvHere(cfg, s, c);
      CancelMoves(cfg, s, c);
      OneMovedKeeps(cfg, s, AfterCancel(s, c));
    }
  }

  /** Every schedule keeps the protocol consistent. */
  lemma {:induction false} RunKeeps(cfg: Config, events: seq<Event>)
    ensures Inv(cfg, Run(cfg, events))
  {
    if events != [] {
      RunKeeps(cfg, events[..|events| - 1]);
      StepKeeps(cfg, Run(cfg, events[..|events| - 1]), events[|events| - 1]);
    }
  }
}
