/**
 * The enforcement protocol of one session as a state machine. A step is one stretch of code between two
 * suspension points, or one store call; calls, approvers and timers interleave freely between steps.
 * A store call succeeds or fails as a whole, and a cancellation arrives before it is issued or after it ran.
 */
module Protocol {
  import opened Model
  import opened Engine
  import opened Tools

  datatype Config = Config(
    text: Text, lib: Library, digest: Action -> string,
    policies: seq<Policy>, agentId: string, sessionId: string, submittedBy: string,
    cap: nat, separation: bool)

  // ---- Stored rows ----------------------------------------------------------------------------------

  datatype Status = Pending | Approved | Denied | Expired

  datatype Approval = Approval(call: nat, digest: string, status: Status, decidedBy: string)

  const HARNESS := "harness"

  datatype Row =
    | Refused(ruleId: string)
    | Reported(progress: bool)         // a progress message, or a session lifecycle row
    | Decided(call: nat, action: Action, digest: string, ctx: EvalContext, decision: Decision, byEngine: bool)
    | Requested(aid: nat, digest: string)
    | Resolved(aid: nat, status: Status)
    | Outcome(call: nat, ok: bool)

  // ---- Calls in flight ------------------------------------------------------------------------------

  datatype Phase =
    | Arrived                          // waits for the session lock
    | Refusing                         // bad arguments, refusal being written; holds the lock
    | Deciding                         // decision being written; holds the lock
    | Recorded                         // decision written; holds the lock
    | Creating                         // approval row being created
    | Created                          // row exists, nobody listens yet
    | Announcing                       // listening; approval.requested being written
    | Announced                        // about to pause the session
    | Awaiting                         // paused, waiting for an answer
    | TimedOut                         // handling a timeout
    | Rereading                        // the timeout lost the race for the row
    | Failing                          // handling an internal error
    | Cancelling                       // handling a cancellation
    | Closing(answer: Option<Status>)  // leaving the wait; None: an exception is on its way out
    | Resolving(status: Status)        // approval.resolved being written
    | Rejected                         // not approved, outcome being written
    | Rechecking                       // approved, waits for the session lock again
    | Blocked                          // recheck denied, outcome being written; holds the lock
    | Granted                          // cost reserved, about to execute
    | Running                          // the tool is executing
    | Reporting(ok: bool)              // spend reconciled, outcome being written
    | Done

  predicate HoldsLock(p: Phase) {
    p.Refusing? || p.Deciding? || p.Recorded? || p.Blocked?
  }

  /** What the engine was asked and what came out; byEngine is false when the harness overrode it. */
  datatype Verdict = Verdict(action: Action, ctx: EvalContext, decision: Decision, byEngine: bool)

  /** What waiting returned, and where approval.resolved was written. */
  datatype Reply = Reply(status: Status, at: nat)

  /** One approval wait: its row, where approval.requested was written, and how it went. */
  datatype Ask = Ask(
    aid: nat, announcedAt: Option<nat>, paused: bool,
    failed: bool,      // an internal error decided the answer
    unsettled: bool,   // the write that should have decided the row never happened
    reply: Option<Reply>)

  /** Reserved spend of a call: tokens charged so far, and how far its execution got. */
  datatype Charge = Charge(tokens: int, started: bool, acted: bool, settled: bool)

  datatype Call = Call(
    phase: Phase, verdict: Option<Verdict>,
    ref: Option<nat>,  // position of the decision row once written
    ask: Option<Ask>, charge: Option<Charge>)

  const NEW_CALL := Call(Arrived, None, None, None, None)

  /** An approver that won the row and has yet to wake the waiting call. */
  datatype Approver = Approver(aid: nat, status: Status, notified: bool)

  datatype State = State(
    audit: seq<Row>, approvals: seq<Approval>,
    waiters: map<nat, Option<Status>>, approvers: seq<Approver>,
    lock: Option<nat>, actionCount: nat, spentTokens: int, spentAmount: real, pending: nat,
    calls: seq<Call>, ledger: seq<real>)

  const INIT := State([], [], map[], [], None, 0, 0, 0.0, 0, [], [])

  /** How an awaited operation inside the approval wait ended. */
  datatype Io = Fine | Timeout | Error

  /** From the session lock to the recorded decision. */
  datatype Admission =
    | Decide(req: Request, engineFails: bool)
    | RefusalWritten(ok: bool)
    | DecisionWritten(ok: bool)
    | Proceed

  /** Holding a call open for a human. */
  datatype Wait =
    | ApprovalCreated(ok: bool)
    | Listen
    | Announce(io: Io)
    | Pause(io: Io)
    | Wake
    | GiveUp
    | ExpireRow(ok: bool)
    | Reread(ok: bool)
    | FailRow(ok: bool)
    | CancelRow(ok: bool)
    | Leave(ok: bool)
    | ResolutionWritten(ok: bool)

  /** From the answer to the outcome. */
  datatype Execution =
    | RejectionWritten(ok: bool)
    | Recheck(engineFails: bool)
    | BlockWritten(ok: bool)
    | Start
    | Act
    | Finish(toolOk: bool, reported: int)
    | OutcomeWritten(ok: bool)

  datatype Event =
    | Refuse(ruleId: string)
    | Report(progress: bool)
    | Arrive
    | Admit(c: nat, admission: Admission)
    | Hold(c: nat, wait: Wait)
    | Execute(c: nat, execution: Execution)
    | Cancel(c: nat)
    | HumanDecides(aid: nat, approve: bool, who: string)
    | Notify(d: nat)

  // ---- Steps ----------------------------------------------------------------------------------------

  predicate Stands(s: State, c: nat, p: Phase) {
    c < |s.calls| && s.calls[c].phase == p
  }

  function To(s: State, c: nat, p: Phase): State
    requires c < |s.calls|
  {
    s.(calls := s.calls[c := s.calls[c].(phase := p)])
  }

  function Log(audit: seq<Row>, row: Row, ok: bool): seq<Row> {
    if ok then audit + [row] else audit
  }

  /** Write a row, if the store accepts it, and be done with the call. */
  function LastWrite(s: State, c: nat, row: Row, ok: bool): State
    requires c < |s.calls|
  {
    s.(audit := Log(s.audit, row, ok),
       lock := if HoldsLock(s.calls[c].phase) then None else s.lock,
       calls := s.calls[c := s.calls[c].(phase := Done)])
  }

  function Context(cfg: Config, s: State, offset: int): EvalContext {
    EvalContext(cfg.agentId, cfg.sessionId, s.spentTokens, s.spentAmount, s.actionCount + offset)
  }

  const ENGINE_ERROR := Decision(Deny, "harness:engine-error", "", 0, "policy evaluation failed", [])
  const ACTION_CAP := Decision(Deny, "harness:action-cap", "", 0, "session action cap reached", [])

  function Judge(cfg: Config, action: Action, ctx: EvalContext, engineFails: bool): Verdict {
    var judged := if engineFails then ENGINE_ERROR else EvaluateAll(cfg.text, cfg.policies, action, ctx);
    var capped := ctx.actionCount >= cfg.cap;
    Verdict(action, ctx, if capped then ACTION_CAP else judged, !engineFails && !capped)
  }

  function Judged(cfg: Config, k: Call, action: Option<Action>, ctx: EvalContext, engineFails: bool): Call {
    match action
    case None => k.(phase := Refusing)
    case Some(a) => k.(phase := Deciding, verdict := Some(Judge(cfg, a, ctx, engineFails)))
  }

  /** Lock acquired: canonicalise, evaluate, count the attempt. */
  function AfterDecide(cfg: Config, s: State, c: nat, req: Request, engineFails: bool): State
    requires c < |s.calls|
  {
    s.(lock := Some(c), actionCount := s.actionCount + 1,
       calls := s.calls[c := Judged(cfg, s.calls[c], Build(cfg.lib, req), Context(cfg, s, 0), engineFails)])
  }

  function DecisionRow(cfg: Config, c: nat, v: Verdict): Row {
    Decided(c, v.action, cfg.digest(v.action), v.ctx, v.decision, v.byEngine)
  }

  function AfterDecisionWritten(cfg: Config, s: State, c: nat, ok: bool): State
    requires c < |s.calls| && s.calls[c].verdict.Some?
  {
    var k := s.calls[c];
    s.(audit := Log(s.audit, DecisionRow(cfg, c, k.verdict.value), ok),
       lock := if ok then s.lock else None,
       calls := s.calls[c := if ok then k.(phase := Recorded, ref := Some(|s.audit|)) else k.(phase := Done)])
  }

  function Price(k: Call): Cost
    requires k.verdict.Some?
  {
    k.verdict.value.action.cost
  }

  function Reserved(k: Call): Call
    requires k.verdict.Some?
  {
    k.(phase := Granted, charge := Some(Charge(Price(k).tokens, false, false, false)))
  }

  function Proceeded(k: Call): Call
    requires k.verdict.Some?
  {
    match k.verdict.value.decision.effect
    case Allow => Reserved(k)
    case Deny => k.(phase := Done)
    case RequireApproval => k.(phase := Creating)
  }

  /** Decision recorded: reserve the cost if allowed, and release the lock. */
  function AfterProceed(s: State, c: nat): State
    requires c < |s.calls| && s.calls[c].verdict.Some?
  {
    var k := s.calls[c];
    var allowed := k.verdict.value.decision.effect == Allow;
    s.(lock := None,
       spentTokens := if allowed then s.spentTokens + Price(k).tokens else s.spentTokens,
       spentAmount := if allowed then s.spentAmount + Price(k).amount else s.spentAmount,
       calls := s.calls[c := Proceeded(k)])
  }

  function AfterApprovalCreated(cfg: Config, s: State, c: nat, ok: bool): State
    requires c < |s.calls| && s.calls[c].verdict.Some?
  {
    var k := s.calls[c];
    s.(approvals := if ok then s.approvals + [Approval(c, cfg.digest(k.verdict.value.action), Pending, "")]
                    else s.approvals,
       calls := s.calls[c := if ok then k.(phase := Created, ask := Some(Ask(|s.approvals|, None, false, false, false, None)))
                             else k.(phase := Done)])
  }

  /** The approval row a waiting call is about. */
  predicate Asking(s: State, c: nat) {
    c < |s.calls| && s.calls[c].ask.Some? && s.calls[c].ask.value.aid < |s.approvals|
  }

  function AskOf(s: State, c: nat): Ask
    requires Asking(s, c)
  {
    s.calls[c].ask.value
  }

  function RowOf(s: State, c: nat): Approval
    requires Asking(s, c)
  {
    s.approvals[AskOf(s, c).aid]
  }

  function AfterListen(s: State, c: nat): State
    requires Asking(s, c)
  {
    s.(waiters := s.waiters[AskOf(s, c).aid := None], calls := s.calls[c := s.calls[c].(phase := Announcing)])
  }

  /** Where an awaited operation inside the approval wait leads. */
  function Caught(io: Io, fine: Phase): Phase {
    match io case Fine => fine case Timeout => TimedOut case Error => Failing
  }

  function AfterAnnounce(cfg: Config, s: State, c: nat, io: Io): State
    requires Asking(s, c) && s.calls[c].verdict.Some?
  {
    var k, ask := s.calls[c], AskOf(s, c);
    s.(audit := Log(s.audit, Requested(ask.aid, cfg.digest(k.verdict.value.action)), io.Fine?),
       calls := s.calls[c := k.(phase := Caught(io, Announced),
                                ask := Some(ask.(announcedAt := if io.Fine? then Some(|s.audit|) else ask.announcedAt)))])
  }

  function AfterPause(s: State, c: nat, io: Io): State
    requires Asking(s, c)
  {
    s.(pending := s.pending + 1,
       calls := s.calls[c := s.calls[c].(phase := Caught(io, Awaiting), ask := Some(AskOf(s, c).(paused := true)))])
  }

  /** Decide a row unless someone was faster. */
  function Settle(rows: seq<Approval>, aid: nat, status: Status, who: string): seq<Approval>
    requires aid < |rows|
  {
    if rows[aid].status == Pending then rows[aid := rows[aid].(status := status, decidedBy := who)] else rows
  }

  function Expire(s: State, c: nat, ok: bool): seq<Approval>
    requires Asking(s, c)
  {
    if ok then Settle(s.approvals, AskOf(s, c).aid, Expired, HARNESS) else s.approvals
  }

  function AfterExpireRow(s: State, c: nat, ok: bool): State
    requires Asking(s, c)
  {
    var won := RowOf(s, c).status == Pending;
    s.(approvals := Expire(s, c, ok),
       calls := s.calls[c := s.calls[c].(
         ask := Some(AskOf(s, c).(unsettled := !ok)),
         phase := if !ok then Closing(None) else if won then Closing(Some(Expired)) else Rereading)])
  }

  function AfterReread(s: State, c: nat, ok: bool): State
    requires Asking(s, c)
  {
    To(s, c, Closing(if ok then Some(RowOf(s, c).status) else None))
  }

  function AfterFailRow(s: State, c: nat, ok: bool): State
    requires Asking(s, c)
  {
    s.(approvals := Expire(s, c, ok),
       calls := s.calls[c := s.calls[c].(phase := Closing(Some(Expired)),
                                         ask := Some(AskOf(s, c).(failed := true, unsettled := !ok)))])
  }

  function AfterCancelRow(s: State, c: nat, ok: bool): State
    requires Asking(s, c)
  {
    s.(approvals := Expire(s, c, ok),
       calls := s.calls[c := s.calls[c].(phase := Closing(None), ask := Some(AskOf(s, c).(unsettled := !ok)))])
  }

  /** max(0, pending - 1) */
  function Resumed(pending: nat): nat {
    if pending == 0 then 0 else pending - 1
  }

  function AfterLeave(s: State, c: nat, ok: bool): State
    requires Asking(s, c) && s.calls[c].phase.Closing?
  {
    var k, ask := s.calls[c], AskOf(s, c);
    var answer := k.phase.answer;
    s.(waiters := s.waiters - {ask.aid}, pending := if ask.paused then Resumed(s.pending) else s.pending,
       calls := s.calls[c := k.(ask := Some(ask.(paused := false)),
                                phase := if !ok || answer.None? then Done else Resolving(answer.value))])
  }

  function AfterResolutionWritten(s: State, c: nat, ok: bool): State
    requires Asking(s, c) && s.calls[c].phase.Resolving?
  {
    var k, ask := s.calls[c], AskOf(s, c);
    var status := k.phase.status;
    s.(audit := Log(s.audit, Resolved(ask.aid, status), ok),
       calls := s.calls[c := if !ok then k.(phase := Done)
                             else k.(ask := Some(ask.(reply := Some(Reply(status, |s.audit|)))),
                                     phase := if status == Approved then Rechecking else Rejected)])
  }

  /** Judging an approved action again: the attempt itself is not counted twice. */
  function Rejudge(cfg: Config, s: State, c: nat): Decision
    requires c < |s.calls| && s.calls[c].verdict.Some?
  {
    EvaluateAll(cfg.text, cfg.policies, s.calls[c].verdict.value.action, Context(cfg, s, -1))
  }

  datatype SecondOpinion = Raised | Denies | Passes

  function OpinionOf(cfg: Config, s: State, c: nat, engineFails: bool): SecondOpinion
    requires c < |s.calls| && s.calls[c].verdict.Some?
  {
    if engineFails then Raised else if Rejudge(cfg, s, c).effect == Deny then Denies else Passes
  }

  /** Reserve, or report the block, before the lock is given up. */
  function Rechecked(s: State, c: nat, opinion: SecondOpinion): State
    requires c < |s.calls| && s.calls[c].verdict.Some?
  {
    var k := s.calls[c];
    s.(lock := if opinion.Denies? then Some(c) else s.lock,
       spentTokens := if opinion.Passes? then s.spentTokens + Price(k).tokens else s.spentTokens,
       spentAmount := if opinion.Passes? then s.spentAmount + Price(k).amount else s.spentAmount,
       calls := s.calls[c := if opinion.Passes? then Reserved(k) else k.(phase := if opinion.Denies? then Blocked else Done)])
  }

  /** Approved, lock acquired again: re-evaluate. */
  function AfterRecheck(cfg: Config, s: State, c: nat, engineFails: bool): State
    requires c < |s.calls| && s.calls[c].verdict.Some?
  {
    Rechecked(s, c, OpinionOf(cfg, s, c, engineFails))
  }

  predicate Charged(s: State, c: nat) {
    c < |s.calls| && s.calls[c].charge.Some? && s.calls[c].verdict.Some?
  }

  function AfterStart(s: State, c: nat): State
    requires Charged(s, c)
  {
    var k := s.calls[c];
    s.(calls := s.calls[c := k.(phase := Running, charge := Some(k.charge.value.(started := true)))])
  }

  function AfterAct(s: State, c: nat): State
    requires Charged(s, c)
  {
    var k := s.calls[c];
    s.(ledger := s.ledger + Moves(k.verdict.value.action),
       calls := s.calls[c := k.(charge := Some(k.charge.value.(acted := true)))])
  }

  /** Reported usage if the tool succeeded and reported any, else the estimate. */
  function Usage(k: Call, toolOk: bool, reported: int): int
    requires k.verdict.Some?
  {
    if toolOk && reported != 0 then reported else Price(k).tokens
  }

  /** The tool returned, failed or timed out: replace the estimate by the usage. */
  function AfterFinish(s: State, c: nat, toolOk: bool, reported: int): State
    requires Charged(s, c)
  {
    var k := s.calls[c];
    s.(spentTokens := s.spentTokens + (Usage(k, toolOk, reported) - Price(k).tokens),
       calls := s.calls[c := k.(phase := Reporting(toolOk),
                                charge := Some(k.charge.value.(tokens := Usage(k, toolOk, reported), settled := true)))])
  }

  /** Where a cancellation takes a suspended call; None while a store call is on its way. */
  function CancelTo(p: Phase): Option<Phase> {
    if p.Announced? || p.Awaiting? then Some(Cancelling)
    else if p.Rereading? || p.Closing? then Some(Closing(None))
    else if p.Arrived? || p.Recorded? || p.Created? || p.Rechecking? || p.Granted? || p.Running? then Some(Done)
    else None
  }

  /** Cancelled right after its approval row was created, a call leaves the row to nobody. */
  function AfterCancel(s: State, c: nat): State
    requires c < |s.calls| && CancelTo(s.calls[c].phase).Some?
  {
    var k := s.calls[c];
    s.(lock := if HoldsLock(k.phase) then None else s.lock,
       calls := s.calls[c := k.(phase := CancelTo(k.phase).value,
                                ask := if k.phase.Created? && k.ask.Some? then Some(k.ask.value.(unsettled := true))
                                       else k.ask)])
  }

  function AfterHumanDecides(s: State, aid: nat, approve: bool, who: string): State
    requires aid < |s.approvals|
  {
    var status := if approve then Approved else Denied;
    s.(approvals := Settle(s.approvals, aid, status, who),
       approvers := if s.approvals[aid].status == Pending then s.approvers + [Approver(aid, status, false)] else s.approvers)
  }

  function AfterNotify(s: State, d: nat): State
    requires d < |s.approvers|
  {
    var a := s.approvers[d];
    s.(approvers := s.approvers[d := a.(notified := true)],
       waiters := if a.aid in s.waiters && s.waiters[a.aid].None? then s.waiters[a.aid := Some(a.status)] else s.waiters)
  }

  // ---- Schedules ------------------------------------------------------------------------------------

  predicate CanAdmit(s: State, c: nat, a: Admission) {
    match a
    case Decide(_, _) => Stands(s, c, Arrived) && s.lock.None?
    case RefusalWritten(_) => Stands(s, c, Refusing)
    case DecisionWritten(_) => Stands(s, c, Deciding) && s.calls[c].verdict.Some?
    case Proceed => Stands(s, c, Recorded) && s.calls[c].verdict.Some?
  }

  function Admitted(cfg: Config, s: State, c: nat, a: Admission): State
    requires CanAdmit(s, c, a)
  {
    match a
    case Decide(req, fails) => AfterDecide(cfg, s, c, req, fails)
    case RefusalWritten(ok) => LastWrite(s, c, Refused("harness:invalid-arguments"), ok)
    case DecisionWritten(ok) => AfterDecisionWritten(cfg, s, c, ok)
    case Proceed => AfterProceed(s, c)
  }

  /** Hooks run, and can fail, only when the session freezes or thaws. */
  predicate CanHold(s: State, c: nat, w: Wait) {
    match w
    case ApprovalCreated(_) => Stands(s, c, Creating) && s.calls[c].verdict.Some?
    case Listen => Stands(s, c, Created) && Asking(s, c)
    case Announce(_) => Stands(s, c, Announcing) && Asking(s, c) && s.calls[c].verdict.Some?
    case Pause(io) => Stands(s, c, Announced) && Asking(s, c) && (s.pending == 0 || io.Fine?)
    case Wake => Stands(s, c, Awaiting) && Asking(s, c)
                 && AskOf(s, c).aid in s.waiters && s.waiters[AskOf(s, c).aid].Some?
    case GiveUp => Stands(s, c, Awaiting)
    case ExpireRow(_) => Stands(s, c, TimedOut) && Asking(s, c)
    case Reread(_) => Stands(s, c, Rereading) && Asking(s, c)
    case FailRow(_) => Stands(s, c, Failing) && Asking(s, c)
    case CancelRow(_) => Stands(s, c, Cancelling) && Asking(s, c)
    case Leave(ok) => Asking(s, c) && s.calls[c].phase.Closing? && (ok || (AskOf(s, c).paused && s.pending <= 1))
    case ResolutionWritten(_) => Asking(s, c) && s.calls[c].phase.Resolving?
  }

  function Held(cfg: Config, s: State, c: nat, w: Wait): State
    requires CanHold(s, c, w)
  {
    match w
    case ApprovalCreated(ok) => AfterApprovalCreated(cfg, s, c, ok)
    case Listen => AfterListen(s, c)
    case Announce(io) => AfterAnnounce(cfg, s, c, io)
    case Pause(io) => AfterPause(s, c, io)
    case Wake => To(s, c, Closing(s.waiters[AskOf(s, c).aid]))
    case GiveUp => To(s, c, TimedOut)
    case ExpireRow(ok) => AfterExpireRow(s, c, ok)
    case Reread(ok) => AfterReread(s, c, ok)
    case FailRow(ok) => AfterFailRow(s, c, ok)
    case CancelRow(ok) => AfterCancelRow(s, c, ok)
    case Leave(ok) => AfterLeave(s, c, ok)
    case ResolutionWritten(ok) => AfterResolutionWritten(s, c, ok)
  }

  predicate CanExecute(s: State, c: nat, x: Execution) {
    match x
    case RejectionWritten(_) => Stands(s, c, Rejected)
    case Recheck(_) => Stands(s, c, Rechecking) && s.lock.None? && s.calls[c].verdict.Some?
    case BlockWritten(_) => Stands(s, c, Blocked)
    case Start => Stands(s, c, Granted) && Charged(s, c)
    case Act => Stands(s, c, Running) && Charged(s, c) && !s.calls[c].charge.value.acted
    case Finish(_, _) => Stands(s, c, Running) && Charged(s, c)
    case OutcomeWritten(_) => c < |s.calls| && s.calls[c].phase.Reporting?
  }

  function Executed(cfg: Config, s: State, c: nat, x: Execution): State
    requires CanExecute(s, c, x)
  {
    match x
    case RejectionWritten(ok) => LastWrite(s, c, Outcome(c, false), ok)
    case Recheck(fails) => AfterRecheck(cfg, s, c, fails)
    case BlockWritten(ok) => LastWrite(s, c, Outcome(c, false), ok)
    case Start => AfterStart(s, c)
    case Act => AfterAct(s, c)
    case Finish(ok, reported) => AfterFinish(s, c, ok, reported)
    case OutcomeWritten(ok) => LastWrite(s, c, Outcome(c, s.calls[c].phase.ok), ok)
  }

  predicate CanCancel(s: State, c: nat) {
    c < |s.calls| && CancelTo(s.calls[c].phase).Some?
  }

  predicate MayDecide(cfg: Config, s: State, aid: nat, who: string) {
    aid < |s.approvals| && (cfg.separation ==> who != cfg.submittedBy)
  }

  /** An event that cannot happen now leaves the state alone, so any list of events is a schedule. */
  function Step(cfg: Config, s: State, e: Event): State {
    match e
    case Refuse(rule) => s.(audit := s.audit + [Refused(rule)])
    case Report(progress) => s.(audit := s.audit + [Reported(progress)])
    case Arrive => s.(calls := s.calls + [NEW_CALL])
    case Admit(c, a) => if CanAdmit(s, c, a) then Admitted(cfg, s, c, a) else s
    case Hold(c, w) => if CanHold(s, c, w) then Held(cfg, s, c, w) else s
    case Execute(c, x) => if CanExecute(s, c, x) then Executed(cfg, s, c, x) else s
    case Cancel(c) => if CanCancel(s, c) then AfterCancel(s, c) else s
    case HumanDecides(aid, approve, who) => if MayDecide(cfg, s, aid, who) then AfterHumanDecides(s, aid, approve, who) else s
    case Notify(d) => if d < |s.approvers| && !s.approvers[d].notified then AfterNotify(s, d) else s
  }

  function Run(cfg: Config, events: seq<Event>): State {
    if events == [] then INIT
    else Step(cfg, Run(cfg, events[..|events| - 1]), events[|events| - 1])
  }
}
