/**
 * A session from submission to its terminal status, through cancellations, store failures, crashes and restarts.
 * A step is one store call, or one stretch of code between two suspension points.
 */
module Lifecycle {
  import opened Model

  datatype Status = Queued | Running | Succeeded | Failed | Cancelled

  predicate Active(s: Status) {
    s.Queued? || s.Running?
  }

  datatype Task =
    | Submitting              // row stored, task not created yet
    | NotStarted              // task created, not yet scheduled
    | Waiting                 // queued for a slot
    | Starting                // loading agent and policies
    | Executing
    | Finalizing(outcome: Status)  // about to read the row
    | Finishing(outcome: Status)   // about to set the status, if still active
    | Reporting(outcome: Status)   // status set, session.finished being written
    | Gone

  /** finished: the session.finished rows written. */
  datatype Session = Session(status: Status, task: Task, finished: seq<Status>)

  datatype Verdict = Pending | Approved | Denied | Expired

  datatype Approval = Approval(session: nat, verdict: Verdict)

  datatype Process = Down | Recovering | Up

  datatype State = State(process: Process, sessions: seq<Session>, approvals: seq<Approval>)

  const INIT := State(Down, [], [])

  /** What one session's task, or a cancellation of it, does next. */
  datatype Move =
    | Launch(ok: bool)
    | Begin
    | Acquire
    | MarkRunning(ok: bool)
    | Leave(succeeded: bool)
    | Cancel
    | ReadRow(ok: bool)
    | Finish(ok: bool)
    | Report(ok: bool)

  datatype Event =
    | Submit
    | Act(sid: nat, move: Move)
    | Ask(sid: nat)
    | Decide(aid: nat, verdict: Verdict)
    | Crash
    | RecoverSessions(ok: bool)
    | RecoverApprovals(ok: bool)

  // ---- One session ----------------------------------------------------------------------------------

  /** Its task ends early: an exception the finalizer does not handle, or a cancellation before its first step. */
  function Lost(s: Session): Session {
    s.(task := Gone)
  }

  function AfterLaunch(s: Session, ok: bool): Session {
    if ok then s.(task := NotStarted) else Lost(s)
  }

  /** The status is overwritten without a guard. */
  function AfterMarkRunning(s: Session, ok: bool): Session {
    if ok then s.(status := Running, task := Executing) else s.(task := Finalizing(Failed))
  }

  /** Only a running body can succeed; anything raised before is a failure. */
  function AfterLeave(s: Session, succeeded: bool): Session {
    s.(task := Finalizing(if succeeded && s.task.Executing? then Succeeded else Failed))
  }

  /** A task cancelled before its first step never enters its body, so nothing finalizes it. */
  function AfterCancel(s: Session): Session {
    if s.task.NotStarted? then Lost(s)
    else if s.task.Waiting? || s.task.Starting? || s.task.Executing? then s.(task := Finalizing(Cancelled))
    else s
  }

  function AfterReadRow(s: Session, ok: bool): Session
    requires s.task.Finalizing?
  {
    if ok then s.(task := Finishing(s.task.outcome)) else Lost(s)
  }

  /** The outcome becomes the status, unless the session has ended some other way meanwhile. */
  function AfterFinish(s: Session, ok: bool): Session
    requires s.task.Finishing?
  {
    if !ok then Lost(s)
    else if Active(s.status) then s.(status := s.task.outcome, task := Reporting(s.task.outcome))
    else s.(task := Gone)
  }

  function AfterReport(s: Session, ok: bool): Session
    requires s.task.Reporting?
  {
    s.(task := Gone, finished := if ok then s.finished + [s.task.outcome] else s.finished)
  }

  predicate Ready(s: Session, m: Move) {
    match m
    case Launch(_) => s.task.Submitting?
    case Begin => s.task.NotStarted?
    case Acquire => s.task.Waiting?
    case MarkRunning(_) => s.task.Starting?
    case Leave(_) => s.task.Starting? || s.task.Executing?
    case Cancel => true
    case ReadRow(_) => s.task.Finalizing?
    case Finish(_) => s.task.Finishing?
    case Report(_) => s.task.Reporting?
  }

  function Moved(s: Session, m: Move): Session
    requires Ready(s, m)
  {
    match m
    case Launch(ok) => AfterLaunch(s, ok)
    case Begin => s.(task := Waiting)
    case Acquire => s.(task := Starting)
    case MarkRunning(ok) => AfterMarkRunning(s, ok)
    case Leave(succeeded) => AfterLeave(s, succeeded)
    case Cancel => AfterCancel(s)
    case ReadRow(ok) => AfterReadRow(s, ok)
    case Finish(ok) => AfterFinish(s, ok)
    case Report(ok) => AfterReport(s, ok)
  }

  // ---- The whole harness ----------------------------------------------------------------------------

  /** The process is gone, and every task with it. */
  function Killed(s: Session): Session {
    s.(task := Gone)
  }

  function Orphaned(s: Session): Session {
    if Active(s.status) then s.(status := Failed) else s
  }

  function Stale(a: Approval): Approval {
    if a.verdict.Pending? then a.(verdict := Expired) else a
  }

  function KilledAll(xs: seq<Session>): seq<Session> {
    seq(|xs|, i requires 0 <= i < |xs| => Killed(xs[i]))
  }

  function OrphanedAll(xs: seq<Session>): seq<Session> {
    seq(|xs|, i requires 0 <= i < |xs| => Orphaned(xs[i]))
  }

  function StaleAll(xs: seq<Approval>): seq<Approval> {
    seq(|xs|, i requires 0 <= i < |xs| => Stale(xs[i]))
  }

  /** An approver's answer, which counts only if it is the first. */
  function Settled(a: Approval, verdict: Verdict): Approval {
    if a.verdict.Pending? then a.(verdict := verdict) else a
  }

  predicate Enabled(s: State, e: Event) {
    match e
    case Submit => s.process.Up?
    case Act(sid, m) => s.process.Up? && sid < |s.sessions| && Ready(s.sessions[sid], m)
    case Ask(sid) => s.process.Up? && sid < |s.sessions| && s.sessions[sid].task.Executing?
    case Decide(aid, verdict) => s.process.Up? && aid < |s.approvals| && !verdict.Pending?
    case Crash => true
    case RecoverSessions(_) => s.process.Down?
    case RecoverApprovals(_) => s.process.Recovering?
  }

  function Done(s: State, e: Event): State
    requires Enabled(s, e)
  {
    match e
    case Submit => s.(sessions := s.sessions + [Session(Queued, Submitting, [])])
    case Act(sid, m) => s.(sessions := s.sessions[sid := Moved(s.sessions[sid], m)])
    case Ask(sid) => s.(approvals := s.approvals + [Approval(sid, Pending)])
    case Decide(aid, verdict) => s.(approvals := s.approvals[aid := Settled(s.approvals[aid], verdict)])
    case Crash => s.(process := Down, sessions := KilledAll(s.sessions))
    case RecoverSessions(ok) => if ok then s.(process := Recovering, sessions := OrphanedAll(s.sessions)) else s
    case RecoverApprovals(ok) => if ok then s.(process := Up, approvals := StaleAll(s.approvals)) else s.(process := Down)
  }

  /** An event that cannot happen now leaves the state alone, so any list of events is a schedule. */
  function Step(s: State, e: Event): State {
    if Enabled(s, e) then Done(s, e) else s
  }

  function Run(events: seq<Event>): State {
    if events == [] then INIT else Step(Run(events[..|events| - 1]), events[|events| - 1])
  }

  // ---- The store and the session manager ------------------------------------------------------------

  function Count(xs: seq<Approval>): nat {
    if xs == [] then 0 else Count(xs[..|xs| - 1]) + (if xs[|xs| - 1].verdict.Pending? then 1 else 0)
  }

  class Harness {
    var process: Process
    var sessions: seq<Session>
    var approvals: seq<Approval>

    function Abs(): State
      reads this
    {
      State(process, sessions, approvals)
    }

    constructor ()
      ensures Abs() == INIT
    {
      process, sessions, approvals := Down, [], [];
    }

    /** True if the status was still active and has been set. */
    method FinishSessionIfActive(sid: nat, status: Status) returns (changed: bool)
      requires sid < |sessions|
      modifies this`sessions
      ensures changed <==> Active(old(sessions)[sid].status)
      ensures sessions == if changed then old(sessions)[sid := old(sessions)[sid].(status := status)] else old(sessions)
    {
      changed := Active(sessions[sid].status);
      if changed {
        sessions := sessions[sid := sessions[sid].(status := status)];
      }
    }

    /** Everything left active by a dead process fails; the ids that were. */
    method FailOrphanedSessions() returns (ids: set<nat>)
      modifies this`sessions
      ensures sessions == OrphanedAll(old(sessions))
      ensures ids == set i: nat | i < |old(sessions)| && Active(old(sessions)[i].status)
    {
      ids := {};
      for n := 0 to |sessions|
        invariant |sessions| == |old(sessions)|
        invariant forall i :: 0 <= i < n ==> sessions[i] == Orphaned(old(sessions)[i])
        invariant forall i :: n <= i < |sessions| ==> sessions[i] == old(sessions)[i]
        invariant ids == set i: nat | i < n && Active(old(sessions)[i].status)
      {
        var changed := FinishSessionIfActive(n, Failed);
        if changed {
          ids := ids + {n};
        }
      }
    }

    /** True if the row was still pending. */
    method DecideApproval(aid: nat, verdict: Verdict) returns (won: bool)
      requires aid < |approvals|
      modifies this`approvals
      ensures won <==> old(approvals)[aid].verdict.Pending?
      ensures approvals == old(approvals)[aid := Settled(old(approvals)[aid], verdict)]
    {
      won := approvals[aid].verdict.Pending?;
      if won {
        approvals := approvals[aid := approvals[aid].(verdict := verdict)];
      }
    }

    method ExpireStaleApprovals() returns (count: nat)
      modifies this`approvals
      ensures approvals == StaleAll(old(approvals)) && count == Count(old(approvals))
    {
      count := 0;
      for n := 0 to |approvals|
        invariant |approvals| == |old(approvals)|
        invariant forall i :: 0 <= i < n ==> approvals[i] == Stale(old(approvals)[i])
        invariant forall i :: n <= i < |approvals| ==> approvals[i] == old(approvals)[i]
        invariant count == Count(old(approvals)[..n])
      {
        assert old(approvals)[..n + 1][..n] == old(approvals)[..n];
        var won := DecideApproval(n, Expired);
        count := count + (if won then 1 else 0);
      }
      assert old(approvals)[..|approvals|] == old(approvals);
    }

    /** The finalizer's store call, and what it decides about the session.finished row. */
    method Finish(sid: nat, ok: bool)
      requires sid < |sessions| && sessions[sid].task.Finishing?
      modifies this`sessions
      ensures sessions == old(sessions)[sid := AfterFinish(old(sessions)[sid], ok)]
    {
      if ok {
        var outcome := sessions[sid].task.outcome;
        var changed := FinishSessionIfActive(sid, outcome);
        sessions := sessions[sid := sessions[sid].(task := if changed then Reporting(outcome) else Gone)];
      } else {
        sessions := sessions[sid := sessions[sid].(task := Gone)];
      }
    }

    method Take(e: Event)
      modifies this
      ensures Abs() == Step(old(Abs()), e)
    {
      if !Enabled(Abs(), e) {
        return;
      }
      match e
      case Submit => sessions := sessions + [Session(Queued, Submitting, [])];
      case Act(sid, m) =>
        if m.Finish? {
          Finish(sid, m.ok);
        } else {
          sessions := sessions[sid := Moved(sessions[sid], m)];
        }
      case Ask(sid) => approvals := approvals + [Approval(sid, Pending)];
      case Decide(aid, verdict) =>
        var _ := DecideApproval(aid, verdict);
      case Crash => process, sessions := Down, KilledAll(sessions);
      case RecoverSessions(ok) =>
        if ok {
          var _ := FailOrphanedSessions();
          process := Recovering;
        }
      case RecoverApprovals(ok) =>
        if ok {
          var _ := ExpireStaleApprovals();
          process := Up;
        } else {
          process := Down;
        }
    }
  }

  /** The object driven by any schedule reaches the state of the run. */
  method Play(events: seq<Event>) returns (h: Harness)
    ensures fresh(h) && h.Abs() == Run(events)
  {
    h := new Harness();
    for n := 0 to |events|
      invariant fresh(h) && h.Abs() == Run(events[..n])
    {
      assert events[..n + 1][..n] == events[..n];
      h.Take(events[n]);
    }
    assert events[..|events|] == events;
  }

  // ---- What holds throughout ------------------------------------------------------------------------

  ghost predicate SessionOk(s: Session) {
    var t := s.task;
    && (t.Submitting? || t.NotStarted? || t.Waiting? || t.Starting? ==> s.status.Queued?)
    && (t.Executing? ==> s.status.Running?)
    && (t.Finalizing? || t.Finishing? ==> Active(s.status) && !Active(t.outcome))
    && (t.Reporting? ==> s.status == t.outcome && !Active(s.status) && s.finished == [])
    && (Active(s.status) ==> s.finished == [])
    && (s.finished == [] || s.finished == [s.status])
  }

  ghost predicate Inv(s: State) {
    && (forall i :: 0 <= i < |s.sessions| ==> SessionOk(s.sessions[i]))
    && (!s.process.Up? ==> forall i :: 0 <= i < |s.sessions| ==> s.sessions[i].task.Gone?)
    && (s.process.Recovering? ==> forall i :: 0 <= i < |s.sessions| ==> !Active(s.sessions[i].status))
  }

  lemma MovedOk(s: Session, m: Move)
    requires SessionOk(s) && Ready(s, m)
    ensures SessionOk(Moved(s, m))
    ensures !Active(s.status) ==> Moved(s, m).status == s.status
  {
  }

  lemma StepKeeps(s: State, e: Event)
    requires Inv(s)
    ensures Inv(Step(s, e))
  {
    if e.Act? && Enabled(s, e) {
      MovedOk(s.sessions[e.sid], e.move);
    }
  }

  lemma {:induction false} RunKeeps(events: seq<Event>)
    ensures Inv(Run(events))
  {
    if events != [] {
      RunKeeps(events[..|events| - 1]);
      StepKeeps(Run(events[..|events| - 1]), events[|events| - 1]);
    }
  }

  /** Rows stay; decided ones stay as they are. */
  ghost predicate Later(s: State, s': State) {
    && |s.sessions| <= |s'.sessions| && |s.approvals| <= |s'.approvals|
    && (forall i :: 0 <= i < |s.sessions| && !Active(s.sessions[i].status) ==> s'.sessions[i].status == s.sessions[i].status)
    && (forall a :: 0 <= a < |s.approvals| && !s.approvals[a].verdict.Pending? ==> s'.approvals[a] == s.approvals[a])
  }

  lemma StepIsLater(s: State, e: Event)
    requires Inv(s)
    ensures Later(s, Step(s, e))
  {
    if e.Act? && Enabled(s, e) {
      MovedOk(s.sessions[e.sid], e.move);
    }
  }

  lemma {:induction false} RunIsLater(events: seq<Event>, more: seq<Event>)
    ensures Later(Run(events), Run(events + more))
  {
    if more == [] {
      assert events + more == events;
    } else {
      var n := |more| - 1;
      assert (events + more)[..|events + more| - 1] == events + more[..n];
      RunIsLater(events, more[..n]);
      RunKeeps(events + more[..n]);
      StepIsLater(Run(events + more[..n]), more[n]);
    }
  }

  // ---- Promises -------------------------------------------------------------------------------------

  /** A terminal status never changes, although the transition to running is not guarded. */
  lemma {:induction false} TerminalIsFinal(events: seq<Event>, more: seq<Event>, sid: nat)
    requires sid < |Run(events).sessions| && !Active(Run(events).sessions[sid].status)
    ensures sid < |Run(events + more).sessions|
    ensures Run(events + more).sessions[sid].status == Run(events).sessions[sid].status
  {
    RunIsLater(events, more);
  }

  /** At most one session.finished row, and it states the terminal status. */
  lemma {:induction false} FinishedOnce(events: seq<Event>, sid: nat)
    requires sid < |Run(events).sessions|
    ensures var s := Run(events).sessions[sid];
            s.finished == [] || (s.finished == [s.status] && !Active(s.status))
  {
    RunKeeps(events);
    assert SessionOk(Run(events).sessions[sid]);
  }

  /** This event ends the session's task and leaves the session active. */
  predicate Strands(s: State, e: Event, sid: nat) {
    && Enabled(s, e) && sid < |s.sessions|
    && var x := s.sessions[sid];
    || (e.Act? && e.sid == sid
        && (e.move == Launch(false) || (e.move.Cancel? && x.task.NotStarted?) || e.move == ReadRow(false) || e.move == Finish(false)))
    || (e.Crash? && Active(x.status))
  }

  /** No task works on the session, yet its status is active. */
  predicate Left(s: Session) {
    s.task.Gone? && Active(s.status)
  }

  predicate Recovers(s: State, e: Event) {
    e == RecoverSessions(true) && Enabled(s, e)
  }

  predicate StrandsAt(events: seq<Event>, n: nat, sid: nat) {
    n < |events| && Strands(Run(events[..n]), events[n], sid)
  }

  predicate RecoversAt(events: seq<Event>, n: nat) {
    n < |events| && Recovers(Run(events[..n]), events[n])
  }

  predicate RecoveredSince(events: seq<Event>, n: nat) {
    exists m: nat :: n < m < |events| && RecoversAt(events, m)
  }

  /** Some event stranded the session, and no recovery has come since. */
  predicate Stranded(events: seq<Event>, sid: nat) {
    exists n: nat :: n < |events| && StrandsAt(events, n, sid) && !RecoveredSince(events, n)
  }

  lemma StepLeaves(s: State, e: Event, sid: nat)
    requires Inv(s) && sid < |Step(s, e).sessions|
    ensures Left(Step(s, e).sessions[sid]) <==>
            Strands(s, e, sid) || (sid < |s.sessions| && Left(s.sessions[sid]) && !Recovers(s, e))
  {
    if sid < |s.sessions| {
      assert SessionOk(s.sessions[sid]);
    }
  }

  lemma SamePast(events: seq<Event>, n: nat, sid: nat)
    requires n < |events| - 1
    ensures StrandsAt(events[..|events| - 1], n, sid) <==> StrandsAt(events, n, sid)
    ensures RecoversAt(events[..|events| - 1], n) <==> RecoversAt(events, n)
  {
    assert events[..|events| - 1][..n] == events[..n];
  }

  lemma RecoveredSnoc(events: seq<Event>, n: nat)
    requires n < |events| - 1
    ensures RecoveredSince(events, n) <==> RecoveredSince(events[..|events| - 1], n) || RecoversAt(events, |events| - 1)
  {
    var last := |events| - 1;
    var past := events[..last];
    if RecoveredSince(past, n) {
      var m: nat :| n < m < |past| && RecoversAt(past, m);
      SamePast(events, m, 0);
    }
    if RecoveredSince(events, n) {
      var m: nat :| n < m < |events| && RecoversAt(events, m);
      if m < last {
        SamePast(events, m, 0);
        assert RecoversAt(past, m);
      }
    }
  }

  /** One more event: it strands the session, or the session was stranded and it is no recovery. */
  lemma StrandedSnoc(events: seq<Event>, sid: nat)
    requires events != []
    ensures var last := |events| - 1;
            Stranded(events, sid) <==>
              StrandsAt(events, last, sid) || (Stranded(events[..last], sid) && !RecoversAt(events, last))
  {
    var last := |events| - 1;
    forall n: nat | n < last
      ensures StrandsAt(events[..last], n, sid) <==> StrandsAt(events, n, sid)
      ensures RecoveredSince(events, n) <==> RecoveredSince(events[..last], n) || RecoversAt(events, last)
    {
      SamePast(events, n, sid);
      RecoveredSnoc(events, n);
    }
    assert !RecoveredSince(events, last);
  }

  lemma SessionsStay(s: State, e: Event)
    ensures |s.sessions| <= |Step(s, e).sessions|
  {
  }

  /**
   * A task that is gone has left its session terminal, except exactly if an event stranded the session since the
   * last recovery: the submission failed before the task was created, the task was cancelled before its first step,
   * the finalizer could not read or set the row, or the process crashed.
   */
  lemma {:induction false} GoneIsTerminal(events: seq<Event>, sid: nat)
    ensures Stranded(events, sid) <==> sid < |Run(events).sessions| && Left(Run(events).sessions[sid])
  {
    if events != [] {
      var n := |events| - 1;
      GoneIsTerminal(events[..n], sid);
      StrandedSnoc(events, sid);
      RunKeeps(events[..n]);
      if sid < |Run(events).sessions| {
        StepLeaves(Run(events[..n]), events[n], sid);
      }
      SessionsStay(Run(events[..n]), events[n]);
    }
  }

  lemma {:induction false} RunStep(events: seq<Event>, e: Event)
    ensures Run(events + [e]) == Step(Run(events), e)
  {
    assert (events + [e])[..|events + [e]| - 1] == events;
  }

  function Restart(events: seq<Event>): seq<Event> {
    events + [Crash] + [RecoverSessions(true)] + [RecoverApprovals(true)]
  }

  /**
   * After a crash and a restart, whenever it comes: no session of before is active, none of their approvals is
   * pending, and nothing that happens later changes them; what was not approved before the crash never will be.
   */
  lemma {:induction false} RecoveryIsFinal(events: seq<Event>, more: seq<Event>, sid: nat, aid: nat)
    ensures var before, after := Run(events), Run(Restart(events) + more);
            && (sid < |before.sessions| ==>
                  sid < |after.sessions| && !Active(after.sessions[sid].status)
                  && after.sessions[sid].status == Orphaned(before.sessions[sid]).status)
            && (aid < |before.approvals| ==>
                  aid < |after.approvals| && !after.approvals[aid].verdict.Pending?
                  && (after.approvals[aid].verdict.Approved? <==> before.approvals[aid].verdict.Approved?))
  {
    var s := Run(events);
    RunStep(events, Crash);
    RunStep(events + [Crash], RecoverSessions(true));
    RunStep(events + [Crash] + [RecoverSessions(true)], RecoverApprovals(true));
    RunIsLater(Restart(events), more);
  }

  /** What a restart makes of one session, and of one approval. */
  ghost predicate Recovered(x: Session, x': Session) {
    && x'.finished == x.finished && x'.task == Gone
    && x'.status == if x.status == Queued || x.status == Running then Failed else x.status
  }

  ghost predicate Closed(a: Approval, a': Approval) {
    a'.session == a.session && a'.verdict == if a.verdict == Pending then Expired else a.verdict
  }

  /** A restart fails what was active, expires what was pending, and only then lets anything in. */
  lemma {:induction false} RestartCloses(events: seq<Event>)
    ensures var s, s' := Run(events), Run(Restart(events));
            && s'.process == Up && |s'.sessions| == |s.sessions| && |s'.approvals| == |s.approvals|
            && (forall i :: 0 <= i < |s.sessions| ==> Recovered(s.sessions[i], s'.sessions[i]))
            && (forall i :: 0 <= i < |s.approvals| ==> Closed(s.approvals[i], s'.approvals[i]))
    ensures !Run(events + [Crash] + [RecoverSessions(false)]).process.Up?
    ensures !Run(events + [Crash] + [RecoverSessions(true)]).process.Up?
    ensures !Run(events + [Crash] + [RecoverSessions(true)] + [RecoverApprovals(false)]).process.Up?
  {
    RunStep(events, Crash);
    RunStep(events + [Crash], RecoverSessions(false));
    RunStep(events + [Crash], RecoverSessions(true));
    RunStep(events + [Crash] + [RecoverSessions(true)], RecoverApprovals(true));
    RunStep(events + [Crash] + [RecoverSessions(true)], RecoverApprovals(false));
  }

  predicate Restarts(e: Event) {
    e.RecoverSessions?
  }

  /** A session cancelled before its task's first step stays queued until a restart. */
  lemma {:induction false} CancelledBeforeStartStaysQueued(events: seq<Event>, more: seq<Event>, sid: nat)
    requires Enabled(Run(events), Act(sid, Cancel)) && Run(events).sessions[sid].task.NotStarted?
    requires forall i :: 0 <= i < |more| ==> !Restarts(more[i])
    ensures var s := Run(events + [Act(sid, Cancel)] + more);
            sid < |s.sessions| && s.sessions[sid].status == Queued && s.sessions[sid].task == Gone
  {
    var start := events + [Act(sid, Cancel)];
    if more == [] {
      RunKeeps(events);
      assert SessionOk(Run(events).sessions[sid]);
      RunStep(events, Act(sid, Cancel));
      assert start + more == start;
    } else {
      var n := |more| - 1;
      CancelledBeforeStartStaysQueued(events, more[..n], sid);
      assert start + more == (start + more[..n]) + [more[n]];
      RunStep(start + more[..n], more[n]);
    }
  }

  // ---- A session's course ---------------------------------------------------------------------------

  lemma {:induction false} RunAct(events: seq<Event>, sid: nat, m: Move)
    requires Enabled(Run(events), Act(sid, m))
    ensures var s, s' := Run(events), Run(events + [Act(sid, m)]);
            s' == s.(sessions := s.sessions[sid := Moved(s.sessions[sid], m)])
  {
    RunStep(events, Act(sid, m));
  }

  /** The task of session sid is at this point, in a process that is up. */
  predicate At(s: State, sid: nat, t: Task) {
    s.process.Up? && sid < |s.sessions| && s.sessions[sid].task == t
  }

  /** A submitted session is queued; launched and given a slot it is running, with its body executing. */
  lemma {:induction false} SubmittedStarts(events: seq<Event>)
    requires Run(events).process.Up?
    ensures var sid := |Run(events).sessions|;
            var launched := events + [Submit] + [Act(sid, Launch(true))];
            var s := Run(launched + [Act(sid, Begin)] + [Act(sid, Acquire)] + [Act(sid, MarkRunning(true))]);
            && At(Run(events + [Submit]), sid, Submitting) && Run(events + [Submit]).sessions[sid].status == Queued
            && At(s, sid, Executing) && s.sessions[sid].status == Running && s.sessions[sid].finished == []
  {
    var sid := |Run(events).sessions|;
    RunStep(events, Submit);
    RunAct(events + [Submit], sid, Launch(true));
    var launched := events + [Submit] + [Act(sid, Launch(true))];
    RunAct(launched, sid, Begin);
    RunAct(launched + [Act(sid, Begin)], sid, Acquire);
    RunAct(launched + [Act(sid, Begin)] + [Act(sid, Acquire)], sid, MarkRunning(true));
  }

  /** The finalizer leaves a session alone that has ended meanwhile; marking it running asks nothing; only bodies ask approvals. */
  lemma {:induction false} GuardsOfTheStore(s: Session, ok: bool, events: seq<Event>, sid: nat)
    ensures s.task.Finishing? && s.status != Queued && s.status != Running ==>
              AfterFinish(s, ok) == Session(s.status, Gone, s.finished)
    ensures AfterMarkRunning(s, true) == Session(Running, Executing, s.finished)
    ensures !At(Run(events), sid, Executing) ==> Run(events + [Ask(sid)]) == Run(events)
  {
    RunStep(events, Ask(sid));
  }

  /** What the finalizer does when its store calls succeed. */
  function Finalized(events: seq<Event>, sid: nat): seq<Event> {
    events + [Act(sid, ReadRow(true))] + [Act(sid, Finish(true))] + [Act(sid, Report(true))]
  }

  /** The finalizer gives the session its outcome and records it. */
  lemma {:induction false} FinalizerReports(events: seq<Event>, sid: nat, outcome: Status)
    requires At(Run(events), sid, Finalizing(outcome))
    ensures var s := Run(Finalized(events, sid));
            At(s, sid, Gone) && s.sessions[sid].status == outcome && s.sessions[sid].finished == [outcome]
  {
    RunKeeps(events);
    assert SessionOk(Run(events).sessions[sid]);
    RunAct(events, sid, ReadRow(true));
    RunAct(events + [Act(sid, ReadRow(true))], sid, Finish(true));
    RunAct(events + [Act(sid, ReadRow(true))] + [Act(sid, Finish(true))], sid, Report(true));
  }

  /** How a session ends: as its body did, if it ran; failed, if it could not be started; cancelled, if it was. */
  lemma {:induction false} BodyDecidesStatus(events: seq<Event>, sid: nat, m: Move)
    requires Run(events).process.Up? && sid < |Run(events).sessions|
    requires var t := Run(events).sessions[sid].task;
             || (m.Leave? && (t.Starting? || t.Executing?)) || (t.Starting? && m == MarkRunning(false))
             || (m.Cancel? && (t.Waiting? || t.Starting? || t.Executing?))
    ensures var t := Run(events).sessions[sid].task;
            var s := Run(Finalized(events + [Act(sid, m)], sid));
            var outcome := if m.Cancel? then Cancelled else if t.Executing? && m.succeeded then Succeeded else Failed;
            At(s, sid, Gone) && s.sessions[sid].status == outcome && s.sessions[sid].finished == [outcome]
  {
    var t := Run(events).sessions[sid].task;
    RunAct(events, sid, m);
    var outcome := if m.Cancel? then Cancelled else if t.Executing? && m.succeeded then Succeeded else Failed;
    FinalizerReports(events + [Act(sid, m)], sid, outcome);
  }

  /** An approver's answer stands if it is the first, and no later one changes it. */
  lemma {:induction false} FirstAnswerStands(events: seq<Event>, sid: nat, verdict: Verdict, later: Verdict)
    requires At(Run(events), sid, Executing) && !verdict.Pending? && !later.Pending?
    ensures var aid := |Run(events).approvals|;
            var asked := events + [Ask(sid)];
            && Run(asked).approvals == Run(events).approvals + [Approval(sid, Pending)]
            && Run(asked + [Decide(aid, verdict)]).approvals == Run(events).approvals + [Approval(sid, verdict)]
            && Run(asked + [Decide(aid, verdict)] + [Decide(aid, later)]).approvals
               == Run(events).approvals + [Approval(sid, verdict)]
  {
    var aid := |Run(events).approvals|;
    RunStep(events, Ask(sid));
    RunStep(events + [Ask(sid)], Decide(aid, verdict));
    RunStep(events + [Ask(sid)] + [Decide(aid, verdict)], Decide(aid, later));
  }

  // ---- Where a terminal status comes from -----------------------------------------------------------

  /** What a session is bound to end with, if its task has left its body. */
  function Bound(s: Session): Option<Status> {
    if s.task.Finalizing? || s.task.Finishing? || s.task.Reporting? then Some(s.task.outcome) else None
  }

  /** Whichever way one event takes a session, it keeps a status or an outcome it already had, or this event gave it. */
  ghost predicate Gave(before: State, e: Event, sid: nat, outcome: Status) {
    && sid < |before.sessions|
    && match outcome
       case Succeeded => e == Act(sid, Leave(true)) && before.process.Up? && before.sessions[sid].task.Executing?
       case Cancelled => e == Act(sid, Cancel) && before.process.Up?
                         && (before.sessions[sid].task.Waiting? || before.sessions[sid].task.Starting? || before.sessions[sid].task.Executing?)
       case _ => true
  }

  lemma MovedGave(s: Session, m: Move, outcome: Status)
    requires SessionOk(s) && Ready(s, m) && (outcome.Succeeded? || outcome.Cancelled?)
    requires Moved(s, m).status == outcome || Bound(Moved(s, m)) == Some(outcome)
    ensures || s.status == outcome || Bound(s) == Some(outcome)
            || (outcome.Succeeded? && m == Leave(true) && s.task.Executing?)
            || (outcome.Cancelled? && m == Cancel && (s.task.Waiting? || s.task.Starting? || s.task.Executing?))
  {
  }

  lemma StepGave(s: State, e: Event, sid: nat, outcome: Status)
    requires Inv(s) && sid < |Step(s, e).sessions| && (outcome.Succeeded? || outcome.Cancelled?)
    requires Step(s, e).sessions[sid].status == outcome || Bound(Step(s, e).sessions[sid]) == Some(outcome)
    ensures (sid < |s.sessions| && (s.sessions[sid].status == outcome || Bound(s.sessions[sid]) == Some(outcome)))
            || Gave(s, e, sid, outcome)
  {
    if Enabled(s, e) && e.Act? && e.sid == sid {
      MovedGave(s.sessions[sid], e.move, outcome);
    }
  }

  lemma {:induction false} OutcomeGiven(events: seq<Event>, sid: nat, outcome: Status) returns (n: nat)
    requires outcome.Succeeded? || outcome.Cancelled?
    requires sid < |Run(events).sessions|
    requires Run(events).sessions[sid].status == outcome || Bound(Run(events).sessions[sid]) == Some(outcome)
    ensures n < |events| && Gave(Run(events[..n]), events[n], sid, outcome)
  {
    var m := |events| - 1;
    var s := Run(events[..m]);
    RunKeeps(events[..m]);
    StepGave(s, events[m], sid, outcome);
    if Gave(s, events[m], sid, outcome) {
      n := m;
    } else {
      n := OutcomeGiven(events[..m], sid, outcome);
      assert events[..m][..n] == events[..n];
    }
  }

  /** A session succeeded only if its body ran and returned success; it was cancelled only if a live body was cancelled. */
  lemma {:induction false} StatusIsEarned(events: seq<Event>, sid: nat)
    requires sid < |Run(events).sessions|
    ensures Run(events).sessions[sid].status == Succeeded ==>
              exists n :: 0 <= n < |events| && Gave(Run(events[..n]), events[n], sid, Succeeded)
    ensures Run(events).sessions[sid].status == Cancelled ==>
              exists n :: 0 <= n < |events| && Gave(Run(events[..n]), events[n], sid, Cancelled)
  {
    var status := Run(events).sessions[sid].status;
    if status.Succeeded? || status.Cancelled? {
      var n := OutcomeGiven(events, sid, status);
    }
  }

  ghost predicate Doomed(s: State, sid: nat) {
    && sid < |s.sessions| && !s.sessions[sid].status.Succeeded?
    && (s.sessions[sid].task.Gone? || Bound(s.sessions[sid]) == Some(Cancelled))
  }

  lemma CancelDooms(s: State, sid: nat)
    requires Inv(s) && Enabled(s, Act(sid, Cancel))
    requires var t := s.sessions[sid].task; t.Waiting? || t.Starting? || t.Executing?
    ensures Doomed(Step(s, Act(sid, Cancel)), sid)
  {
    assert SessionOk(s.sessions[sid]);
  }

  lemma StepDooms(s: State, e: Event, sid: nat)
    requires Inv(s) && Doomed(s, sid)
    ensures Doomed(Step(s, e), sid)
  {
    assert SessionOk(s.sessions[sid]);
  }

  /** A cancelled body never succeeds: it ends cancelled, or failed by a restart. */
  lemma {:induction false} CancelIsHonoured(events: seq<Event>, more: seq<Event>, sid: nat)
    requires Enabled(Run(events), Act(sid, Cancel))
    requires var t := Run(events).sessions[sid].task; t.Waiting? || t.Starting? || t.Executing?
    ensures Doomed(Run(events + [Act(sid, Cancel)] + more), sid)
  {
    var start := events + [Act(sid, Cancel)];
    if more == [] {
      RunKeeps(events);
      CancelDooms(Run(events), sid);
      RunStep(events, Act(sid, Cancel));
      assert start + more == start;
    } else {
      var n := |more| - 1;
      CancelIsHonoured(events, more[..n], sid);
      RunKeeps(start + more[..n]);
      StepDooms(Run(start + more[..n]), more[n], sid);
      assert start + more == (start + more[..n]) + [more[n]];
      RunStep(start + more[..n], more[n]);
    }
  }
}
