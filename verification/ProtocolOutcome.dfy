/** What the outcome rows of the log say, against what the tools did. */
module ProtocolOutcome {
  import opened Model
  import opened Protocol
  import opened ProtocolInvariant

  /** Attempts counted so far: calls that got as far as canonicalisation, valid or not. */
  ghost function AttemptsMade(cfg: Config, events: seq<Event>): nat {
    if events == [] then 0
    else
      var n := |events| - 1;
      var e := events[n];
      AttemptsMade(cfg, events[..n])
      + (if e.Admit? && e.admission.Decide? && CanAdmit(Run(cfg, events[..n]), e.c, e.admission) then 1 else 0)
  }

  lemma StepCounts(cfg: Config, s: State, e: Event)
    ensures Step(cfg, s, e).actionCount
         == s.actionCount + (if e.Admit? && e.admission.Decide? && CanAdmit(s, e.c, e.admission) then 1 else 0)
  {
    match e
    case Admit(_, _) =>
    case Hold(_, _) =>
    case Execute(_, _) =>
    case _ =>
  }

  /** The action count is the number of attempts made, rejected arguments included; an approved call counts once. */
  lemma {:induction false} EveryAttemptCounts(cfg: Config, events: seq<Event>)
    ensures Run(cfg, events).actionCount == AttemptsMade(cfg, events)
  {
    if events != [] {
      EveryAttemptCounts(cfg, events[..|events| - 1]);
      StepCounts(cfg, Run(cfg, events[..|events| - 1]), events[|events| - 1]);
    }
  }

  // ---- Outcome rows ---------------------------------------------------------------------------------

  /** How the tool of a call ended along a schedule, if it did. */
  ghost function ToolEnd(cfg: Config, events: seq<Event>, c: nat): Option<bool> {
    if events == [] then None
    else
      var n := |events| - 1;
      var e := events[n];
      if e.Execute? && e.c == c && e.execution.Finish? && CanExecute(Run(cfg, events[..n]), c, e.execution)
      then Some(e.execution.toolOk)
      else ToolEnd(cfg, events[..n], c)
  }

  ghost predicate IsFinish(s: State, e: Event, c: nat) {
    e.Execute? && e.c == c && e.execution.Finish? && CanExecute(s, c, e.execution)
  }

  lemma DoneTakesNoStep(s: State, e: Event, c: nat)
    requires c < |s.calls| && s.calls[c].phase.Done? && TakenBy(e, c)
    ensures (e.Admit? ==> !CanAdmit(s, c, e.admission)) && (e.Hold? ==> !CanHold(s, c, e.wait))
    ensures (e.Execute? ==> !CanExecute(s, c, e.execution)) && !CanCancel(s, c)
  {
  }

  /** A call that has ended is never touched again. */
  lemma DoneStays(cfg: Config, s: State, e: Event, c: nat)
    requires c < |s.calls| && s.calls[c].phase.Done?
    ensures c < |Step(cfg, s, e).calls| && Step(cfg, s, e).calls[c] == s.calls[c] && !IsFinish(s, e, c)
  {
    if TakenBy(e, c) {
      DoneTakesNoStep(s, e, c);
    } else {
      StepFrames(cfg, s, e);
    }
  }

  /** The outcome row at p closes a decided call, after its decision and its approval. */
  ghost predicate OutcomeOk(s: State, p: nat)
    requires p < |s.audit|
  {
    s.audit[p].Outcome? ==>
      var c := s.audit[p].call;
      && c < |s.calls| && s.calls[c].phase.Done? && s.calls[c].ref.Some? && s.calls[c].ref.value < p
      && (s.calls[c].ask.Some? && s.calls[c].ask.value.reply.Some? ==> s.calls[c].ask.value.reply.value.at < p)
      && (s.audit[p].ok ==> s.calls[c].charge.Some? && s.calls[c].charge.value.settled)
  }

  ghost predicate Outcomes(s: State) {
    && (forall p :: 0 <= p < |s.audit| ==> OutcomeOk(s, p))
    && (forall p, q :: 0 <= p < q < |s.audit| && s.audit[p].Outcome? && s.audit[q].Outcome? ==> s.audit[p].call != s.audit[q].call)
  }

  /** Rows written by a step: at most one, and an outcome only by the call that ends with it. */
  ghost predicate Writes(s: State, s': State) {
    && (s'.audit == s.audit || (|s'.audit| == |s.audit| + 1 && s.audit <= s'.audit))
    && (|s'.audit| > |s.audit| && s'.audit[|s.audit|].Outcome? ==>
          var c := s'.audit[|s.audit|].call;
          && c < |s.calls| && !s.calls[c].phase.Done? && OutcomeOk(s', |s.audit|)
          && (s.calls[c].phase.Reporting? || (s.calls[c].charge.None? && !s'.audit[|s.audit|].ok))
          && (s.calls[c].phase.Reporting? ==> s'.audit[|s.audit|].ok == s.calls[c].phase.ok))
  }

  lemma ConcludeWrites(cfg: Config, s: State, c: nat, said: bool, ok: bool)
    requires Here(cfg, s, c)
    requires s.calls[c].phase.Rejected? || s.calls[c].phase.Blocked? || s.calls[c].phase.Reporting?
    requires if s.calls[c].phase.Reporting? then said == s.calls[c].phase.ok else !said
    ensures Writes(s, LastWrite(s, c, Outcome(c, said), ok))
  {
  }

  lemma ExecutionWrites(cfg: Config, s: State, c: nat, x: Execution)
    requires CanExecute(s, c, x) && Here(cfg, s, c)
    ensures Writes(s, Executed(cfg, s, c, x))
  {
    match x
    case RejectionWritten(ok) => ConcludeWrites(cfg, s, c, false, ok);
    case BlockWritten(ok) => ConcludeWrites(cfg, s, c, false, ok);
    case OutcomeWritten(ok) => ConcludeWrites(cfg, s, c, s.calls[c].phase.ok, ok);
    case _ =>
  }

  lemma WaitWrites(cfg: Config, s: State, c: nat, w: Wait)
    requires CanHold(s, c, w)
    ensures Writes(s, Held(cfg, s, c, w))
  {
  }

  lemma AdmissionWrites(cfg: Config, s: State, c: nat, a: Admission)
    requires CanAdmit(s, c, a)
    ensures Writes(s, Admitted(cfg, s, c, a))
  {
  }

  lemma StepWrites(cfg: Config, s: State, e: Event)
    requires Inv(cfg, s)
    ensures Writes(s, Step(cfg, s, e))
  {
    match e
    case Admit(c, a) =>
      if CanAdmit(s, c, a) {
        AdmissionWrites(cfg, s, c, a);
      }
    case Hold(c, w) =>
      if CanHold(s, c, w) {
        WaitWrites(cfg, s, c, w);
      }
    case Execute(c, x) =>
      if CanExecute(s, c, x) {
        InvHere(cfg, s, c);
        ExecutionWrites(cfg, s, c, x);
      }
    case _ =>
  }

  ghost predicate Settles(s: State, s': State) {
    && |s.calls| <= |s'.calls|
    && forall c :: 0 <= c < |s.calls| && s.calls[c].phase.Done? ==> s'.calls[c] == s.calls[c]
  }

  lemma OutcomesGrow(s: State, s': State)
    requires Outcomes(s) && Writes(s, s') && Settles(s, s')
    ensures Outcomes(s')
  {
    forall p | 0 <= p < |s'.audit|
      ensures OutcomeOk(s', p)
    {
      if p < |s.audit| {
        assert OutcomeOk(s, p) && s'.audit[p] == s.audit[p];
      }
    }
    forall p, q | 0 <= p < q < |s'.audit| && s'.audit[p].Outcome? && s'.audit[q].Outcome?
      ensures s'.audit[p].call != s'.audit[q].call
    {
      assert OutcomeOk(s, p) && s'.audit[p] == s.audit[p];
    }
  }

  lemma StepSettles(cfg: Config, s: State, e: Event)
    ensures Settles(s, Step(cfg, s, e))
  {
    forall c | 0 <= c < |s.calls| && s.calls[c].phase.Done?
      ensures c < |Step(cfg, s, e).calls| && Step(cfg, s, e).calls[c] == s.calls[c]
    {
      DoneStays(cfg, s, e, c);
    }
    StepFrames(cfg, s, e);
  }

  lemma {:induction false} RunOutcomes(cfg: Config, events: seq<Event>)
    ensures Outcomes(Run(cfg, events))
  {
    if events != [] {
      var n := |events| - 1;
      var s := Run(cfg, events[..n]);
      RunOutcomes(cfg, events[..n]);
      RunKeeps(cfg, events[..n]);
      StepWrites(cfg, s, events[n]);
      StepSettles(cfg, s, events[n]);
      OutcomesGrow(s, Step(cfg, s, events[n]));
    }
  }

  // ---- What the tool did ----------------------------------------------------------------------------

  ghost predicate Settled(k: Call) {
    k.charge.Some? && k.charge.value.settled
  }

  /** Nothing is known of a tool before its call is settled, and a call reports what is known. */
  ghost predicate Known(s: State, ends: nat -> Option<bool>) {
    && (forall c: nat :: c >= |s.calls| || !Settled(s.calls[c]) ==> ends(c).None?)
    && (forall c: nat :: c < |s.calls| && s.calls[c].phase.Reporting? ==> ends(c) == Some(s.calls[c].phase.ok))
    && (forall p :: 0 <= p < |s.audit| && s.audit[p].Outcome? ==> (s.audit[p].ok <==> ends(s.audit[p].call) == Some(true)))
  }

  /** One step of one call, as far as its tool is concerned. */
  ghost predicate Follows(s: State, s': State, e: Event, c: nat) {
    && (IsFinish(s, e, c) ==> c < |s.calls| && s.calls[c].phase.Running? && c < |s'.calls| && Settled(s'.calls[c])
                              && s'.calls[c].phase == Reporting(e.execution.toolOk))
    && (!IsFinish(s, e, c) && c < |s'.calls| ==>
          && (!Settled(s'.calls[c]) ==> c >= |s.calls| || !Settled(s.calls[c]))
          && (s'.calls[c].phase.Reporting? ==> c < |s.calls| && s.calls[c].phase == s'.calls[c].phase))
    && (c >= |s'.calls| ==> c >= |s.calls|)
  }

  /** A step of call d that does not finish a tool. */
  ghost predicate Quiet(s: State, s': State, d: nat) {
    && d < |s.calls| && |s'.calls| == |s.calls| && s'.calls == s.calls[d := s'.calls[d]]
    && (Settled(s.calls[d]) ==> Settled(s'.calls[d])) && !s'.calls[d].phase.Reporting?
  }

  lemma AdmissionIsQuiet(cfg: Config, s: State, d: nat, a: Admission)
    requires CanAdmit(s, d, a) && Here(cfg, s, d)
    ensures Quiet(s, Admitted(cfg, s, d, a), d)
  {
  }

  lemma WaitIsQuiet(cfg: Config, s: State, d: nat, w: Wait)
    requires CanHold(s, d, w)
    ensures Quiet(s, Held(cfg, s, d, w), d)
  {
  }

  lemma ExecutionIsQuiet(cfg: Config, s: State, d: nat, x: Execution)
    requires CanExecute(s, d, x) && Here(cfg, s, d) && !x.Finish?
    ensures Quiet(s, Executed(cfg, s, d, x), d)
  {
  }

  lemma QuietFollows(s: State, s': State, e: Event, d: nat, c: nat)
    requires Quiet(s, s', d) && !IsFinish(s, e, c)
    ensures Follows(s, s', e, c)
  {
  }

  lemma FinishFollows(cfg: Config, s: State, e: Event, c: nat)
    requires e.Execute? && e.execution.Finish? && CanExecute(s, e.c, e.execution) && Here(cfg, s, e.c)
    ensures Follows(s, Executed(cfg, s, e.c, e.execution), e, c)
  {
  }

  lemma OtherFollows(s: State, s': State, e: Event, c: nat)
    requires s'.calls == s.calls || s'.calls == s.calls + [NEW_CALL] || (e.Cancel? && CanCancel(s, e.c) && s' == AfterCancel(s, e.c))
    requires !IsFinish(s, e, c)
    ensures Follows(s, s', e, c)
  {
  }

  lemma StepFollows(cfg: Config, s: State, e: Event, c: nat)
    requires Inv(cfg, s)
    ensures Follows(s, Step(cfg, s, e), e, c)
  {
    if e.Admit? && CanAdmit(s, e.c, e.admission) {
      InvHere(cfg, s, e.c);
      AdmissionIsQuiet(cfg, s, e.c, e.admission);
      QuietFollows(s, Step(cfg, s, e), e, e.c, c);
    } else if e.Hold? && CanHold(s, e.c, e.wait) {
      WaitIsQuiet(cfg, s, e.c, e.wait);
      QuietFollows(s, Step(cfg, s, e), e, e.c, c);
    } else if e.Execute? && CanExecute(s, e.c, e.execution) {
      ExecutionFollows(cfg, s, e, c);
    } else {
      OtherFollows(s, Step(cfg, s, e), e, c);
    }
  }

  lemma ExecutionFollows(cfg: Config, s: State, e: Event, c: nat)
    requires Inv(cfg, s) && e.Execute? && CanExecute(s, e.c, e.execution)
    ensures Follows(s, Executed(cfg, s, e.c, e.execution), e, c)
  {
    InvHere(cfg, s, e.c);
    if e.execution.Finish? {
      FinishFollows(cfg, s, e, c);
    } else {
      ExecutionIsQuiet(cfg, s, e.c, e.execution);
      QuietFollows(s, Executed(cfg, s, e.c, e.execution), e, e.c, c);
    }
  }

  ghost function Ends(cfg: Config, events: seq<Event>): nat -> Option<bool> {
    (c: nat) => ToolEnd(cfg, events, c)
  }

  lemma KnownGrows(s: State, s': State, e: Event, ends: nat -> Option<bool>, ends': nat -> Option<bool>)
    requires Known(s, ends) && Outcomes(s) && Writes(s, s') && Settles(s, s')
    requires forall c: nat :: Follows(s, s', e, c)
    requires forall c: nat :: ends'(c) == if IsFinish(s, e, c) then Some(e.execution.toolOk) else ends(c)
    ensures Known(s', ends')
  {
    forall p | 0 <= p < |s'.audit| && s'.audit[p].Outcome?
      ensures s'.audit[p].ok <==> ends'(s'.audit[p].call) == Some(true)
    {
      var c := s'.audit[p].call;
      assert Follows(s, s', e, c);
      if p < |s.audit| {
        assert s'.audit[p] == s.audit[p] && OutcomeOk(s, p);
      }
    }
    forall c: nat
      ensures c >= |s'.calls| || !Settled(s'.calls[c]) ==> ends'(c).None?
      ensures c < |s'.calls| && s'.calls[c].phase.Reporting? ==> ends'(c) == Some(s'.calls[c].phase.ok)
    {
      assert Follows(s, s', e, c);
    }
  }

  lemma {:induction false} RunKnown(cfg: Config, events: seq<Event>)
    ensures Known(Run(cfg, events), Ends(cfg, events))
  {
    if events != [] {
      var n := |events| - 1;
      var s, e := Run(cfg, events[..n]), events[n];
      RunKnown(cfg, events[..n]);
      RunOutcomes(cfg, events[..n]);
      RunKeeps(cfg, events[..n]);
      StepWrites(cfg, s, e);
      StepSettles(cfg, s, e);
      forall c: nat
        ensures Follows(s, Step(cfg, s, e), e, c)
      {
        StepFollows(cfg, s, e, c);
      }
      KnownGrows(s, Step(cfg, s, e), e, Ends(cfg, events[..n]), Ends(cfg, events));
    }
  }

  /**
   * The log tells the truth about outcomes: an outcome row closes a decided call, after the decision and after any
   * approval, no call has two, and it says executed exactly if the tool came back without an error.
   */
  lemma {:induction false} OutcomesAreTrue(cfg: Config, events: seq<Event>, p: nat, q: nat)
    requires var audit := Run(cfg, events).audit; p < |audit| && audit[p].Outcome?
    ensures var s := Run(cfg, events);
            var c := s.audit[p].call;
            && c < |s.calls| && s.calls[c].phase.Done?
            && s.calls[c].ref.Some? && s.calls[c].ref.value < p
            && (s.calls[c].ask.Some? && s.calls[c].ask.value.reply.Some? ==> s.calls[c].ask.value.reply.value.at < p)
            && (s.audit[p].ok <==> ToolEnd(cfg, events, c) == Some(true))
            && (q < |s.audit| && q != p && s.audit[q].Outcome? ==> s.audit[q].call != c)
  {
    RunKnown(cfg, events);
    RunOutcomes(cfg, events);
    assert OutcomeOk(Run(cfg, events), p);
  }
}
