/**
 * The broker and the approval service as objects with mutable state. Every method is one stretch of code
 * between two suspension points and is proved to take exactly the protocol step it stands for.
 */
module Broker {
  import opened Model
  import opened Engine
  import opened Tools
  import opened Protocol

  class SessionGov {
    const cfg: Config
    var actionCount: nat
    var spentTokens: int
    var spentAmount: real
    var lock: Option<nat>
    var pending: nat

    constructor (cfg: Config)
      ensures this.cfg == cfg && actionCount == 0 && spentTokens == 0 && spentAmount == 0.0
      ensures lock == None && pending == 0
    {
      this.cfg := cfg;
      actionCount, spentTokens, spentAmount, lock, pending := 0, 0, 0.0, None, 0;
    }

    function Now(offset: int): (ctx: EvalContext)
      reads this
    {
      EvalContext(cfg.agentId, cfg.sessionId, spentTokens, spentAmount, actionCount + offset)
    }

    /** True when the pause hook has to run. */
    method Pause() returns (freeze: bool)
      modifies this`pending
      ensures pending == old(pending) + 1
      ensures freeze <==> old(pending) == 0
    {
      pending := pending + 1;
      freeze := pending == 1;
    }

    /** True when the resume hook has to run. */
    method Resume() returns (thaw: bool)
      modifies this`pending
      ensures pending == Resumed(old(pending))
      ensures thaw <==> old(pending) <= 1
    {
      pending := if pending - 1 > 0 then pending - 1 else 0;
      thaw := pending == 0;
    }

    method Reserve(tokens: int, amount: real)
      modifies this`spentTokens, this`spentAmount
      ensures spentTokens == old(spentTokens) + tokens && spentAmount == old(spentAmount) + amount
    {
      spentTokens := spentTokens + tokens;
      spentAmount := spentAmount + amount;
    }
  }

  class Broker {
    const cfg: Config
    const gov: SessionGov
    var audit: seq<Row>                      // store: audit_events of this session
    var approvals: seq<Approval>             // store: approvals of this session
    var waiters: map<nat, Option<Status>>    // approval service: futures of the listening calls
    var approvers: seq<Approver>             // decide() calls between winning the row and waking the call
    var calls: seq<Call>                     // one coroutine per call
    var ledger: seq<real>                    // backends: amounts transferred

    constructor (cfg: Config)
      ensures fresh(gov) && this.cfg == cfg && gov.cfg == cfg && Abs() == INIT
    {
      this.cfg := cfg;
      gov := new SessionGov(cfg);
      audit, approvals, waiters, approvers, calls, ledger := [], [], map[], [], [], [];
    }

    function Abs(): State
      reads this, gov
    {
      State(audit, approvals, waiters, approvers, gov.lock, gov.actionCount, gov.spentTokens, gov.spentAmount,
            gov.pending, calls, ledger)
    }

    method Move(c: nat, p: Phase)
      requires c < |calls|
      modifies this`calls
      ensures calls == old(calls)[c := old(calls)[c].(phase := p)]
    {
      calls := calls[c := calls[c].(phase := p)];
    }

    method Append(row: Row, ok: bool)
      modifies this`audit
      ensures audit == Log(old(audit), row, ok)
    {
      if ok {
        audit := audit + [row];
      }
    }

    // ---- handle_call: admission -----------------------------------------------------------------------

    method Decide(c: nat, req: Request, engineFails: bool)
      requires gov.cfg == cfg && Stands(Abs(), c, Arrived) && gov.lock.None?
      modifies this, gov
      ensures Abs() == AfterDecide(cfg, old(Abs()), c, req, engineFails)
    {
      gov.lock := Some(c);
      var built := Build(cfg.lib, req);
      if built.None? {
        gov.actionCount := gov.actionCount + 1;
        Move(c, Refusing);
        return;
      }
      var action, ctx := built.value, gov.Now(0);
      var decision := ENGINE_ERROR;
      if !engineFails {
        decision := EvaluateAll(cfg.text, cfg.policies, action, ctx);
      }
      var capped := gov.actionCount >= cfg.cap;
      if capped {
        decision := ACTION_CAP;
      }
      gov.actionCount := gov.actionCount + 1;
      calls := calls[c := calls[c].(phase := Deciding,
                                    verdict := Some(Verdict(action, ctx, decision, !engineFails && !capped)))];
    }

    /** The last row of a call: its refusal, rejection, block or outcome. */
    method Conclude(c: nat, row: Row, ok: bool)
      requires c < |calls|
      modifies this, gov
      ensures Abs() == LastWrite(old(Abs()), c, row, ok)
    {
      Append(row, ok);
      if HoldsLock(calls[c].phase) {
        gov.lock := None;
      }
      Move(c, Done);
    }

    method RecordDecision(c: nat, ok: bool)
      requires Stands(Abs(), c, Deciding) && calls[c].verdict.Some?
      modifies this, gov
      ensures Abs() == AfterDecisionWritten(cfg, old(Abs()), c, ok)
    {
      if !ok {
        gov.lock := None;
        Move(c, Done);
        return;
      }
      var ref := |audit|;
      Append(DecisionRow(cfg, c, calls[c].verdict.value), true);
      calls := calls[c := calls[c].(phase := Recorded, ref := Some(ref))];
    }

    method Proceed(c: nat)
      requires Stands(Abs(), c, Recorded) && calls[c].verdict.Some?
      modifies this, gov
      ensures Abs() == AfterProceed(old(Abs()), c)
    {
      var v := calls[c].verdict.value;
      if v.decision.effect == Allow {
        gov.Reserve(v.action.cost.tokens, v.action.cost.amount);
      }
      gov.lock := None;
      if v.decision.effect == Deny {
        Move(c, Done);
      } else if v.decision.effect == RequireApproval {
        Move(c, Creating);
      } else {
        calls := calls[c := Reserved(calls[c])];
      }
    }

    // ---- ApprovalService.request ----------------------------------------------------------------------

    method CreateApproval(c: nat, ok: bool)
      requires Stands(Abs(), c, Creating) && calls[c].verdict.Some?
      modifies this
      ensures Abs() == AfterApprovalCreated(cfg, old(Abs()), c, ok)
    {
      if !ok {
        Move(c, Done);
        return;
      }
      var aid := |approvals|;
      approvals := approvals + [Approval(c, cfg.digest(calls[c].verdict.value.action), Pending, "")];
      calls := calls[c := calls[c].(phase := Created, ask := Some(Ask(aid, None, false, false, false, None)))];
    }

    method Listen(c: nat)
      requires Stands(Abs(), c, Created) && Asking(Abs(), c)
      modifies this
      ensures Abs() == AfterListen(old(Abs()), c)
    {
      waiters := waiters[calls[c].ask.value.aid := None];
      Move(c, Announcing);
    }

    method Announce(c: nat, io: Io)
      requires Stands(Abs(), c, Announcing) && Asking(Abs(), c) && calls[c].verdict.Some?
      modifies this
      ensures Abs() == AfterAnnounce(cfg, old(Abs()), c, io)
    {
      if io.Fine? {
        var at, ask := |audit|, calls[c].ask.value;
        Append(Requested(ask.aid, cfg.digest(calls[c].verdict.value.action)), true);
        calls := calls[c := calls[c].(phase := Announced, ask := Some(ask.(announcedAt := Some(at))))];
      } else {
        Move(c, if io.Timeout? then TimedOut else Failing);
      }
    }

    method Freeze(c: nat, io: Io)
      requires Stands(Abs(), c, Announced) && Asking(Abs(), c) && (gov.pending == 0 || io.Fine?)
      modifies this, gov
      ensures Abs() == AfterPause(old(Abs()), c, io)
    {
      var freeze := gov.Pause();
      calls := calls[c := calls[c].(ask := Some(calls[c].ask.value.(paused := true)))];
      Move(c, if !freeze || io.Fine? then Awaiting else if io.Timeout? then TimedOut else Failing);
    }

    /** decide_approval in the store: whoever finds the row pending decides it, and learns that it was the one. */
    method SettleRow(aid: nat, status: Status, who: string) returns (won: bool)
      requires aid < |approvals|
      modifies this`approvals
      ensures approvals == Settle(old(approvals), aid, status, who)
      ensures won <==> old(approvals)[aid].status == Pending
    {
      won := approvals[aid].status == Pending;
      if won {
        approvals := approvals[aid := approvals[aid].(status := status, decidedBy := who)];
      }
    }

    method HandleTimeout(c: nat, ok: bool)
      requires Stands(Abs(), c, TimedOut) && Asking(Abs(), c)
      modifies this
      ensures Abs() == AfterExpireRow(old(Abs()), c, ok)
    {
      var ask := calls[c].ask.value;
      calls := calls[c := calls[c].(ask := Some(ask.(unsettled := !ok)))];
      if !ok {
        Move(c, Closing(None));
        return;
      }
      var won := SettleRow(ask.aid, Expired, HARNESS);
      Move(c, if won then Closing(Some(Expired)) else Rereading);
    }

    method HandleError(c: nat, ok: bool)
      requires Stands(Abs(), c, Failing) && Asking(Abs(), c)
      modifies this
      ensures Abs() == AfterFailRow(old(Abs()), c, ok)
    {
      var ask := calls[c].ask.value;
      if ok {
        var _ := SettleRow(ask.aid, Expired, HARNESS);
      }
      calls := calls[c := calls[c].(phase := Closing(Some(Expired)), ask := Some(ask.(failed := true, unsettled := !ok)))];
    }

    method HandleCancellation(c: nat, ok: bool)
      requires Stands(Abs(), c, Cancelling) && Asking(Abs(), c)
      modifies this
      ensures Abs() == AfterCancelRow(old(Abs()), c, ok)
    {
      var ask := calls[c].ask.value;
      if ok {
        var _ := SettleRow(ask.aid, Expired, HARNESS);
      }
      calls := calls[c := calls[c].(phase := Closing(None), ask := Some(ask.(unsettled := !ok)))];
    }

    /** The finally block: stop listening, resume the session if this call had paused it. */
    method Leave(c: nat, ok: bool)
      requires Asking(Abs(), c) && calls[c].phase.Closing?
      modifies this, gov
      ensures Abs() == AfterLeave(old(Abs()), c, ok)
    {
      var ask, answer := calls[c].ask.value, calls[c].phase.answer;
      waiters := waiters - {ask.aid};
      if ask.paused {
        var _ := gov.Resume();
      }
      calls := calls[c := calls[c].(ask := Some(ask.(paused := false)))];
      Move(c, if !ok || answer.None? then Done else Resolving(answer.value));
    }

    method RecordResolution(c: nat, ok: bool)
      requires Asking(Abs(), c) && calls[c].phase.Resolving?
      modifies this
      ensures Abs() == AfterResolutionWritten(old(Abs()), c, ok)
    {
      var ask, status := calls[c].ask.value, calls[c].phase.status;
      if !ok {
        Move(c, Done);
        return;
      }
      var at := |audit|;
      Append(Resolved(ask.aid, status), true);
      calls := calls[c := calls[c].(ask := Some(ask.(reply := Some(Reply(status, at)))))];
      Move(c, if status == Approved then Rechecking else Rejected);
    }

    // ---- ApprovalService.decide -----------------------------------------------------------------------

    method HumanDecides(aid: nat, approve: bool, who: string)
      requires MayDecide(cfg, Abs(), aid, who)
      modifies this
      ensures Abs() == AfterHumanDecides(old(Abs()), aid, approve, who)
    {
      var status := if approve then Approved else Denied;
      var won := SettleRow(aid, status, who);
      if won {
        approvers := approvers + [Approver(aid, status, false)];
      }
    }

    method Notify(d: nat)
      requires d < |approvers| && !approvers[d].notified
      modifies this
      ensures Abs() == AfterNotify(old(Abs()), d)
    {
      var a := approvers[d];
      if a.aid in waiters && waiters[a.aid].None? {
        waiters := waiters[a.aid := Some(a.status)];
      }
      approvers := approvers[d := a.(notified := true)];
    }

    // ---- handle_call: execution -----------------------------------------------------------------------

    /** evaluate_all under the lock, as if this attempt had not been counted. */
    method JudgeAgain(c: nat) returns (denied: bool)
      requires gov.cfg == cfg && c < |calls| && calls[c].verdict.Some?
      ensures denied <==> Rejudge(cfg, Abs(), c).effect == Deny
    {
      var recheck := EvaluateAll(cfg.text, cfg.policies, calls[c].verdict.value.action, gov.Now(-1));
      denied := recheck.effect == Deny;
    }

    method Recheck(c: nat, engineFails: bool)
      requires gov.cfg == cfg && Stands(Abs(), c, Rechecking) && gov.lock.None? && calls[c].verdict.Some?
      modifies this, gov
      ensures Abs() == AfterRecheck(cfg, old(Abs()), c, engineFails)
    {
      ghost var s := Abs();
      var denied := JudgeAgain(c);
      if engineFails {
        Move(c, Done);
        assert Abs() == Rechecked(s, c, Raised);
      } else if denied {
        gov.lock := Some(c);
        Move(c, Blocked);
        assert Abs() == Rechecked(s, c, Denies);
      } else {
        var cost := calls[c].verdict.value.action.cost;
        gov.Reserve(cost.tokens, cost.amount);
        calls := calls[c := Reserved(calls[c])];
      }
    }

    method Start(c: nat)
      requires Stands(Abs(), c, Granted) && Charged(Abs(), c)
      modifies this
      ensures Abs() == AfterStart(old(Abs()), c)
    {
      calls := calls[c := calls[c].(phase := Running, charge := Some(calls[c].charge.value.(started := true)))];
    }

    method Act(c: nat)
      requires Stands(Abs(), c, Running) && Charged(Abs(), c)
      modifies this
      ensures Abs() == AfterAct(old(Abs()), c)
    {
      ledger := ledger + Moves(calls[c].verdict.value.action);
      calls := calls[c := calls[c].(charge := Some(calls[c].charge.value.(acted := true)))];
    }

    method Finish(c: nat, toolOk: bool, reported: int)
      requires Stands(Abs(), c, Running) && Charged(Abs(), c)
      modifies this, gov
      ensures Abs() == AfterFinish(old(Abs()), c, toolOk, reported)
    {
      var estimate := calls[c].verdict.value.action.cost.tokens;
      var actual := estimate;
      if toolOk && reported != 0 {
        actual := reported;
      }
      if actual != estimate {
        gov.Reserve(actual - estimate, 0.0);
      }
      calls := calls[c := calls[c].(phase := Reporting(toolOk),
                                    charge := Some(calls[c].charge.value.(tokens := actual, settled := true)))];
    }

    method Cancel(c: nat)
      requires CanCancel(Abs(), c)
      modifies this, gov
      ensures Abs() == AfterCancel(old(Abs()), c)
    {
      var k := calls[c];
      if HoldsLock(k.phase) {
        gov.lock := None;
      }
      if k.phase.Created? && k.ask.Some? {
        calls := calls[c := k.(ask := Some(k.ask.value.(unsettled := true)))];
      }
      Move(c, CancelTo(k.phase).value);
    }

    // ---- Schedules ------------------------------------------------------------------------------------

    method Admit(c: nat, a: Admission)
      requires gov.cfg == cfg && CanAdmit(Abs(), c, a)
      modifies this, gov
      ensures Abs() == Admitted(cfg, old(Abs()), c, a)
    {
      match a
      case Decide(req, fails) => Decide(c, req, fails);
      case RefusalWritten(ok) => Conclude(c, Refused("harness:invalid-arguments"), ok);
      case DecisionWritten(ok) => RecordDecision(c, ok);
      case Proceed => Proceed(c);
    }

    method Hold(c: nat, w: Wait)
      requires CanHold(Abs(), c, w)
      modifies this, gov
      ensures Abs() == Held(cfg, old(Abs()), c, w)
    {
      match w
      case ApprovalCreated(ok) => CreateApproval(c, ok);
      case Listen => Listen(c);
      case Announce(io) => Announce(c, io);
      case Pause(io) => Freeze(c, io);
      case Wake => Move(c, Closing(waiters[calls[c].ask.value.aid]));
      case GiveUp => Move(c, TimedOut);
      case ExpireRow(ok) => HandleTimeout(c, ok);
      case Reread(ok) => Move(c, Closing(if ok then Some(approvals[calls[c].ask.value.aid].status) else None));
      case FailRow(ok) => HandleError(c, ok);
      case CancelRow(ok) => HandleCancellation(c, ok);
      case Leave(ok) => Leave(c, ok);
      case ResolutionWritten(ok) => RecordResolution(c, ok);
    }

    method Execute(c: nat, x: Execution)
      requires gov.cfg == cfg && CanExecute(Abs(), c, x)
      modifies this, gov
      ensures Abs() == Executed(cfg, old(Abs()), c, x)
    {
      match x
      case RejectionWritten(ok) => Conclude(c, Outcome(c, false), ok);
      case Recheck(fails) => Recheck(c, fails);
      case BlockWritten(ok) => Conclude(c, Outcome(c, false), ok);
      case Start => Start(c);
      case Act => Act(c);
      case Finish(ok, reported) => Finish(c, ok, reported);
      case OutcomeWritten(ok) => Conclude(c, Outcome(c, calls[c].phase.ok), ok);
    }

    method Take(e: Event)
      requires gov.cfg == cfg
      modifies this, gov
      ensures Abs() == Step(cfg, old(Abs()), e)
    {
      match e
      case Refuse(rule) => Append(Refused(rule), true);
      case Report(progress) => Append(Reported(progress), true);
      case Arrive => calls := calls + [NEW_CALL];
      case Admit(c, a) =>
        if CanAdmit(Abs(), c, a) {
          Admit(c, a);
        }
      case Hold(c, w) =>
        if CanHold(Abs(), c, w) {
          Hold(c, w);
        }
      case Execute(c, x) =>
        if CanExecute(Abs(), c, x) {
          Execute(c, x);
        }
      case Cancel(c) =>
        if CanCancel(Abs(), c) {
          Cancel(c);
        }
      case HumanDecides(aid, approve, who) =>
        if MayDecide(cfg, Abs(), aid, who) {
          HumanDecides(aid, approve, who);
        }
      case Notify(d) =>
        if d < |approvers| && !approvers[d].notified {
          Notify(d);
        }
    }
  }

  /** The objects driven by any schedule reach the state of the protocol run. */
  method Play(cfg: Config, events: seq<Event>) returns (b: Broker)
    ensures fresh(b) && fresh(b.gov) && b.Abs() == Run(cfg, events)
  {
    b := new Broker(cfg);
    for n := 0 to |events|
      invariant b.cfg == cfg && b.gov.cfg == cfg && fresh(b) && fresh(b.gov)
      invariant b.Abs() == Run(cfg, events[..n])
    {
      assert events[..n + 1][..n] == events[..n];
      b.Take(events[n]);
    }
    assert events[..|events|] == events;
  }
}
