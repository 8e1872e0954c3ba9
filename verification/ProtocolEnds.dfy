/** No call is ever stuck: from any run, it can come to its end without a human, a failure or a cancellation. */
module ProtocolEnds {
  import opened Model
  import opened Engine
  import opened Tools
  import opened Protocol
  import opened ProtocolInvariant
  import opened ProtocolSafety

  /** Nothing fails, nobody interferes, and nobody answers. */
  predicate Untroubled(e: Event) {
    match e
    case Admit(_, a) => a == Proceed || a == RefusalWritten(true) || a == DecisionWritten(true) || (a.Decide? && !a.engineFails)
    case Hold(_, w) =>
      w in {ApprovalCreated(true), Listen, Announce(Fine), Wait.Pause(Fine), GiveUp, ExpireRow(true), Reread(true),
            FailRow(true), CancelRow(true), Leave(true), ResolutionWritten(true)}
    case Execute(_, x) =>
      x in {RejectionWritten(true), Recheck(false), BlockWritten(true), Start, Act, OutcomeWritten(true)}
      || (x.Finish? && x.toolOk)
    case _ => false
  }

  /** What a call does next. */
  function Next(c: nat, p: Phase, req: Request): (e: Event)
    requires !p.Done?
    ensures Untroubled(e) && TakenBy(e, c)
  {
    match p
    case Arrived => Admit(c, Decide(req, false))
    case Refusing => Admit(c, RefusalWritten(true))
    case Deciding => Admit(c, DecisionWritten(true))
    case Recorded => Admit(c, Proceed)
    case Creating => Hold(c, ApprovalCreated(true))
    case Created => Hold(c, Listen)
    case Announcing => Hold(c, Announce(Fine))
    case Announced => Hold(c, Wait.Pause(Fine))
    case Awaiting => Hold(c, GiveUp)
    case TimedOut => Hold(c, ExpireRow(true))
    case Rereading => Hold(c, Reread(true))
    case Failing => Hold(c, FailRow(true))
    case Cancelling => Hold(c, CancelRow(true))
    case Closing(_) => Hold(c, Leave(true))
    case Resolving(_) => Hold(c, ResolutionWritten(true))
    case Rejected => Execute(c, RejectionWritten(true))
    case Rechecking => Execute(c, Recheck(false))
    case Blocked => Execute(c, BlockWritten(true))
    case Granted => Execute(c, Start)
    case Running => Execute(c, Finish(true, 0))
    case Reporting(_) => Execute(c, OutcomeWritten(true))
  }

  /** How many steps are ahead of a call at most. */
  function Ahead(p: Phase): nat {
    match p
    case Done => 0
    case Refusing => 1
    case Rejected => 1
    case Blocked => 1
    case Reporting(_) => 1
    case Running => 2
    case Granted => 3
    case Rechecking => 4
    case Resolving(_) => 5
    case Closing(_) => 6
    case Rereading => 7
    case TimedOut => 8
    case Failing => 8
    case Cancelling => 8
    case Awaiting => 9
    case Announced => 10
    case Announcing => 11
    case Created => 12
    case Creating => 13
    case Recorded => 14
    case Deciding => 15
    case Arrived => 16
  }

  predicate NeedsLock(p: Phase) {
    p.Arrived? || p.Rechecking?
  }

  /** The step brings the call further, and takes the lock from nobody. */
  ghost predicate Advances(s: State, s': State, c: nat) {
    && c < |s.calls| && c < |s'.calls| && Ahead(s'.calls[c].phase) < Ahead(s.calls[c].phase)
    && (s'.lock == s.lock || s'.lock == None || s'.lock == Some(c))
  }

  /** In a reachable state the bookkeeping a call needs for its next step is there. */
  lemma Equipped(cfg: Config, s: State, c: nat)
    requires Here(cfg, s, c)
    ensures var p := s.calls[c].phase;
            && (p.Deciding? || p.Recorded? || p.Creating? || p.Announcing? || p.Rechecking? ==> s.calls[c].verdict.Some?)
            && (p.Created? || p.Announcing? || p.Announced? || p.Awaiting? ==> Asking(s, c))
            && (p.TimedOut? || p.Rereading? || p.Failing? || p.Cancelling? || p.Closing? || p.Resolving? ==> Asking(s, c))
            && (p.Granted? || p.Running? ==> Charged(s, c))
  {
  }

  lemma DecideAdvances(cfg: Config, s: State, c: nat, req: Request)
    requires Stands(s, c, Arrived) && s.lock.None?
    ensures Advances(s, Step(cfg, s, Admit(c, Decide(req, false))), c)
  {
  }

  lemma RefuseAdvances(cfg: Config, s: State, c: nat)
    requires Stands(s, c, Refusing)
    ensures Advances(s, Step(cfg, s, Admit(c, RefusalWritten(true))), c)
  {
  }

  lemma RecordAdvances(cfg: Config, s: State, c: nat)
    requires Stands(s, c, Deciding) && s.calls[c].verdict.Some?
    ensures Advances(s, Step(cfg, s, Admit(c, DecisionWritten(true))), c)
  {
  }

  lemma ProceedAdvances(cfg: Config, s: State, c: nat)
    requires Stands(s, c, Recorded) && s.calls[c].verdict.Some?
    ensures Advances(s, Step(cfg, s, Admit(c, Proceed)), c)
  {
  }

  lemma CreateAdvances(cfg: Config, s: State, c: nat)
    requires Stands(s, c, Creating) && s.calls[c].verdict.Some?
    ensures Advances(s, Step(cfg, s, Hold(c, ApprovalCreated(true))), c)
  {
  }

  lemma ListenAdvances(cfg: Config, s: State, c: nat)
    requires Stands(s, c, Created) && Asking(s, c)
    ensures Advances(s, Step(cfg, s, Hold(c, Listen)), c)
  {
  }

  lemma AnnounceAdvances(cfg: Config, s: State, c: nat)
    requires Stands(s, c, Announcing) && Asking(s, c) && s.calls[c].verdict.Some?
    ensures Advances(s, Step(cfg, s, Hold(c, Announce(Fine))), c)
  {
  }

  lemma PauseAdvances(cfg: Config, s: State, c: nat)
    requires Stands(s, c, Announced) && Asking(s, c)
    ensures Advances(s, Step(cfg, s, Hold(c, Wait.Pause(Fine))), c)
  {
  }

  lemma GiveUpAdvances(cfg: Config, s: State, c: nat)
    requires Stands(s, c, Awaiting)
    ensures Advances(s, Step(cfg, s, Hold(c, GiveUp)), c)
  {
  }

  lemma ExpireAdvances(cfg: Config, s: State, c: nat)
    requires Stands(s, c, TimedOut) && Asking(s, c)
    ensures Advances(s, Step(cfg, s, Hold(c, ExpireRow(true))), c)
  {
  }

  lemma RereadAdvances(cfg: Config, s: State, c: nat)
    requires Stands(s, c, Rereading) && Asking(s, c)
    ensures Advances(s, Step(cfg, s, Hold(c, Reread(true))), c)
  {
  }

  lemma FailAdvances(cfg: Config, s: State, c: nat)
    requires Stands(s, c, Failing) && Asking(s, c)
    ensures Advances(s, Step(cfg, s, Hold(c, FailRow(true))), c)
  {
  }

  lemma CancelAdvances(cfg: Config, s: State, c: nat)
    requires Stands(s, c, Cancelling) && Asking(s, c)
    ensures Advances(s, Step(cfg, s, Hold(c, CancelRow(true))), c)
  {
  }

  lemma LeaveAdvances(cfg: Config, s: State, c: nat)
    requires Asking(s, c) && s.calls[c].phase.Closing?
    ensures Advances(s, Step(cfg, s, Hold(c, Leave(true))), c)
  {
  }

  lemma ResolveAdvances(cfg: Config, s: State, c: nat)
    requires Asking(s, c) && s.calls[c].phase.Resolving?
    ensures Advances(s, Step(cfg, s, Hold(c, ResolutionWritten(true))), c)
  {
  }

  lemma RejectAdvances(cfg: Config, s: State, c: nat)
    requires Stands(s, c, Rejected)
    ensures Advances(s, Step(cfg, s, Execute(c, RejectionWritten(true))), c)
  {
  }

  lemma OpinionAdvances(s: State, c: nat, opinion: SecondOpinion)
    requires Stands(s, c, Rechecking) && s.lock.None? && s.calls[c].verdict.Some?
    ensures Advances(s, Rechecked(s, c, opinion), c)
  {
  }

  lemma RecheckAdvances(cfg: Config, s: State, c: nat)
    requires Stands(s, c, Rechecking) && s.lock.None? && s.calls[c].verdict.Some?
    ensures Advances(s, Step(cfg, s, Execute(c, Recheck(false))), c)
  {
    OpinionAdvances(s, c, OpinionOf(cfg, s, c, false));
    assert Step(cfg, s, Execute(c, Recheck(false))) == Rechecked(s, c, OpinionOf(cfg, s, c, false));
  }

  lemma BlockAdvances(cfg: Config, s: State, c: nat)
    requires Stands(s, c, Blocked)
    ensures Advances(s, Step(cfg, s, Execute(c, BlockWritten(true))), c)
  {
  }

  lemma StartAdvances(cfg: Config, s: State, c: nat)
    requires Stands(s, c, Granted) && Charged(s, c)
    ensures Advances(s, Step(cfg, s, Execute(c, Start)), c)
  {
  }

  lemma FinishAdvances(cfg: Config, s: State, c: nat)
    requires Stands(s, c, Running) && Charged(s, c)
    ensures Advances(s, Step(cfg, s, Execute(c, Finish(true, 0))), c)
  {
  }

  lemma ReportAdvances(cfg: Config, s: State, c: nat)
    requires c < |s.calls| && s.calls[c].phase.Reporting?
    ensures Advances(s, Step(cfg, s, Execute(c, OutcomeWritten(true))), c)
  {
  }

  lemma NextAdvances(cfg: Config, s: State, c: nat, req: Request)
    requires Here(cfg, s, c) && !s.calls[c].phase.Done? && (NeedsLock(s.calls[c].phase) ==> s.lock.None?)
    ensures Advances(s, Step(cfg, s, Next(c, s.calls[c].phase, req)), c)
  {
    Equipped(cfg, s, c);
    match s.calls[c].phase
    case Arrived => DecideAdvances(cfg, s, c, req);
    case Refusing => RefuseAdvances(cfg, s, c);
    case Deciding => RecordAdvances(cfg, s, c);
    case Recorded => ProceedAdvances(cfg, s, c);
    case Creating => CreateAdvances(cfg, s, c);
    case Created => ListenAdvances(cfg, s, c);
    case Announcing => AnnounceAdvances(cfg, s, c);
    case Announced => PauseAdvances(cfg, s, c);
    case Awaiting => GiveUpAdvances(cfg, s, c);
    case TimedOut => ExpireAdvances(cfg, s, c);
    case Rereading => RereadAdvances(cfg, s, c);
    case Failing => FailAdvances(cfg, s, c);
    case Cancelling => CancelAdvances(cfg, s, c);
    case Closing(_) => LeaveAdvances(cfg, s, c);
    case Resolving(_) => ResolveAdvances(cfg, s, c);
    case Rejected => RejectAdvances(cfg, s, c);
    case Rechecking => RecheckAdvances(cfg, s, c);
    case Blocked => BlockAdvances(cfg, s, c);
    case Granted => StartAdvances(cfg, s, c);
    case Running => FinishAdvances(cfg, s, c);
    case Reporting(_) => ReportAdvances(cfg, s, c);
  }

  /** Where more events lead. */
  function Goes(cfg: Config, s: State, more: seq<Event>): State
    decreases |more|
  {
    if more == [] then s else Goes(cfg, Step(cfg, s, more[0]), more[1..])
  }

  lemma {:induction false} RunGoes(cfg: Config, events: seq<Event>, more: seq<Event>)
    ensures Run(cfg, events + more) == Goes(cfg, Run(cfg, events), more)
    decreases |more|
  {
    if more == [] {
      assert events + more == events;
    } else {
      RunStep(cfg, events, more[0]);
      RunGoes(cfg, events + [more[0]], more[1..]);
      assert events + [more[0]] + more[1..] == events + more;
    }
  }

  /** How far the call that holds the lock is from giving it up. */
  function Held(s: State): nat {
    if s.lock.Some? && s.lock.value < |s.calls| then Ahead(s.calls[s.lock.value].phase) else 0
  }

  /** The holder of the lock is a call on its way to giving it up. */
  lemma HolderAdvances(cfg: Config, s: State, c: nat, req: Request)
    requires Inv(cfg, s) && c < |s.calls| && NeedsLock(s.calls[c].phase) && s.lock.Some?
    ensures var d := s.lock.value;
            && d < |s.calls| && d != c && !s.calls[d].phase.Done?
            && var s' := Step(cfg, s, Next(d, s.calls[d].phase, req));
               && Inv(cfg, s') && Held(s') < Held(s) && c < |s'.calls| && s'.calls[c] == s.calls[c]
  {
    var d := s.lock.value;
    InvHere(cfg, s, c);
    InvHere(cfg, s, d);
    var e := Next(d, s.calls[d].phase, req);
    NextAdvances(cfg, s, d, req);
    StepKeeps(cfg, s, e);
    StepFrames(cfg, s, e);
  }

  /** The call is nearer to its end, or just as near and nearer to its turn. */
  ghost predicate Nearer(cfg: Config, s: State, s': State, c: nat) {
    && Inv(cfg, s') && c < |s.calls| && c < |s'.calls|
    && var before, after := Ahead(s.calls[c].phase), Ahead(s'.calls[c].phase);
       after < before || (after == before && Held(s') < Held(s))
  }

  lemma {:induction false} OneStepNearer(cfg: Config, s: State, c: nat, req: Request) returns (e: Event)
    requires Inv(cfg, s) && c < |s.calls| && !s.calls[c].phase.Done?
    ensures Untroubled(e) && Nearer(cfg, s, Step(cfg, s, e), c)
  {
    var p := s.calls[c].phase;
    if NeedsLock(p) && s.lock.Some? {
      HolderAdvances(cfg, s, c, req);
      e := Next(s.lock.value, s.calls[s.lock.value].phase, req);
    } else {
      InvHere(cfg, s, c);
      NextAdvances(cfg, s, c, req);
      e := Next(c, p, req);
      StepKeeps(cfg, s, e);
    }
  }

  lemma {:induction false} EndsFrom(cfg: Config, s: State, c: nat, req: Request) returns (more: seq<Event>)
    requires Inv(cfg, s) && c < |s.calls|
    ensures forall i :: 0 <= i < |more| ==> Untroubled(more[i])
    ensures Stands(Goes(cfg, s, more), c, Done)
    decreases Ahead(s.calls[c].phase), Held(s)
  {
    if s.calls[c].phase.Done? {
      more := [];
    } else {
      var e := OneStepNearer(cfg, s, c, req);
      var rest := EndsFrom(cfg, Step(cfg, s, e), c, req);
      more := [e] + rest;
      assert more[1..] == rest;
    }
  }

  /** From any run and for whatever it asks, every call can come to its end, though nobody ever answers it. */
  lemma {:induction false} EveryCallCanEnd(cfg: Config, events: seq<Event>, c: nat, req: Request) returns (more: seq<Event>)
    requires c < |Run(cfg, events).calls|
    ensures forall i :: 0 <= i < |more| ==> Untroubled(more[i])
    ensures Stands(Run(cfg, events + more), c, Done)
  {
    RunKeeps(cfg, events);
    more := EndsFrom(cfg, Run(cfg, events), c, req);
    RunGoes(cfg, events, more);
  }
}
