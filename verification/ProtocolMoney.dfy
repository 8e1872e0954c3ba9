/** Conservation and bounds over every schedule: spend, ledger, attempts, pauses. */
module ProtocolMoney {
  import opened Model
  import opened Tools
  import opened Protocol
  import opened ProtocolInvariant

  // ---- Sums over calls ------------------------------------------------------------------------------

  ghost function Sum(f: Call -> real, calls: seq<Call>): real {
    if calls == [] then 0.0 else Sum(f, calls[..|calls| - 1]) + f(calls[|calls| - 1])
  }

  lemma {:induction false} SumUpdate(f: Call -> real, calls: seq<Call>, c: nat, k: Call)
    requires c < |calls|
    ensures Sum(f, calls[c := k]) == Sum(f, calls) - f(calls[c]) + f(k)
  {
    var n := |calls| - 1;
    if c == n {
      assert calls[c := k][..n] == calls[..n];
    } else {
      assert calls[c := k][..n] == calls[..n][c := k];
      SumUpdate(f, calls[..n], c, k);
    }
  }

  lemma {:induction false} SumAppend(f: Call -> real, calls: seq<Call>, k: Call)
    ensures Sum(f, calls + [k]) == Sum(f, calls) + f(k)
  {
    assert (calls + [k])[..|calls|] == calls;
  }

  lemma {:induction false} SumOrdered(f: Call -> real, g: Call -> real, calls: seq<Call>)
    requires forall k :: k in calls ==> f(k) <= g(k)
    ensures Sum(f, calls) <= Sum(g, calls)
  {
    if calls != [] {
      SumOrdered(f, g, calls[..|calls| - 1]);
    }
  }

  // ---- What each call contributes -------------------------------------------------------------------

  /** Tokens charged: the reserved cost until settled, the usage afterwards. */
  function TokensOf(k: Call): real {
    if k.charge.Some? then k.charge.value.tokens as real else 0.0
  }

  /** Usage beyond the reservation. */
  function OverrunOf(k: Call): real {
    if k.charge.Some? && k.verdict.Some? && k.charge.value.tokens > Price(k).tokens
    then (k.charge.value.tokens - Price(k).tokens) as real else 0.0
  }

  /** Amount reserved. */
  function AmountOf(k: Call): real {
    if k.charge.Some? && k.verdict.Some? then Price(k).amount else 0.0
  }

  /** Amount the tool has moved. */
  function MovedOf(k: Call): real {
    if k.charge.Some? && k.charge.value.acted && k.verdict.Some? then Total(Moves(k.verdict.value.action)) else 0.0
  }

  /** One for every call waiting between pause and resume. */
  function PausedOf(k: Call): real {
    if k.ask.Some? && k.ask.value.paused then 1.0 else 0.0
  }

  /** One for every call whose decision was not a denial. */
  function PassedOf(k: Call): real {
    if k.verdict.Some? && k.verdict.value.decision.effect != Deny then 1.0 else 0.0
  }

  /** One for every call that reached its tool. */
  function StartedOf(k: Call): real {
    if k.charge.Some? && k.charge.value.started then 1.0 else 0.0
  }

  function Total(xs: seq<real>): real {
    if xs == [] then 0.0 else Total(xs[..|xs| - 1]) + xs[|xs| - 1]
  }

  lemma {:induction false} TotalConcat(xs: seq<real>, ys: seq<real>)
    ensures Total(xs + ys) == Total(xs) + Total(ys)
  {
    if ys == [] {
      assert xs + ys == xs;
    } else {
      var n := |ys| - 1;
      assert (xs + ys)[..|xs + ys| - 1] == xs + ys[..n];
      TotalConcat(xs, ys[..n]);
    }
  }

  // ---- Conservation ---------------------------------------------------------------------------------

  ghost predicate Balanced(s: State) {
    && s.spentTokens as real == Sum(TokensOf, s.calls)
    && s.spentAmount == Sum(AmountOf, s.calls)
    && Total(s.ledger) == Sum(MovedOf, s.calls)
    && s.pending as real == Sum(PausedOf, s.calls)
  }

  /** How one call's new contributions change every sum at once. */
  lemma BalanceUpdate(s: State, c: nat, k: Call)
    requires c < |s.calls|
    ensures var calls := s.calls[c := k];
            && Sum(TokensOf, calls) == Sum(TokensOf, s.calls) - TokensOf(s.calls[c]) + TokensOf(k)
            && Sum(AmountOf, calls) == Sum(AmountOf, s.calls) - AmountOf(s.calls[c]) + AmountOf(k)
            && Sum(MovedOf, calls) == Sum(MovedOf, s.calls) - MovedOf(s.calls[c]) + MovedOf(k)
            && Sum(PausedOf, calls) == Sum(PausedOf, s.calls) - PausedOf(s.calls[c]) + PausedOf(k)
  {
    SumUpdate(TokensOf, s.calls, c, k);
    SumUpdate(AmountOf, s.calls, c, k);
    SumUpdate(MovedOf, s.calls, c, k);
    SumUpdate(PausedOf, s.calls, c, k);
  }

  lemma {:induction false} PausedIsNonNegative(calls: seq<Call>)
    ensures Sum(PausedOf, calls) >= 0.0
  {
    if calls != [] {
      PausedIsNonNegative(calls[..|calls| - 1]);
    }
  }

  /** While some call is paused the pending count is positive, so max(0, ...) never clamps. */
  lemma PausedCounts(s: State, c: nat)
    requires Balanced(s) && c < |s.calls| && PausedOf(s.calls[c]) == 1.0
    ensures s.pending > 0
  {
    var k := s.calls[c];
    SumUpdate(PausedOf, s.calls, c, NEW_CALL);
    PausedIsNonNegative(s.calls[c := NEW_CALL]);
  }

  lemma AdmitBalanced(cfg: Config, s: State, c: nat, a: Admission)
    requires Balanced(s) && CanAdmit(s, c, a) && Here(cfg, s, c)
    ensures Balanced(Admitted(cfg, s, c, a))
  {
    var s' := Admitted(cfg, s, c, a);
    BalanceUpdate(s, c, s'.calls[c]);
    assert s'.calls == s.calls[c := s'.calls[c]];
  }

  lemma HoldBalanced(cfg: Config, s: State, c: nat, w: Wait)
    requires Balanced(s) && CanHold(s, c, w) && Here(cfg, s, c)
    ensures Balanced(Held(cfg, s, c, w))
  {
    var s' := Held(cfg, s, c, w);
    BalanceUpdate(s, c, s'.calls[c]);
    assert s'.calls == s.calls[c := s'.calls[c]];
    if w.Leave? && AskOf(s, c).paused {
      PausedCounts(s, c);
    }
  }

  lemma ExecuteBalanced(cfg: Config, s: State, c: nat, x: Execution)
    requires Balanced(s) && CanExecute(s, c, x) && Here(cfg, s, c)
    ensures Balanced(Executed(cfg, s, c, x))
  {
    var s' := Executed(cfg, s, c, x);
    BalanceUpdate(s, c, s'.calls[c]);
    assert s'.calls == s.calls[c := s'.calls[c]];
    if x.Act? {
      TotalConcat(s.ledger, Moves(s.calls[c].verdict.value.action));
    }
  }

  lemma ArriveBalanced(s: State)
    requires Balanced(s)
    ensures Balanced(s.(calls := s.calls + [NEW_CALL]))
  {
    SumAppend(TokensOf, s.calls, NEW_CALL);
    SumAppend(AmountOf, s.calls, NEW_CALL);
    SumAppend(MovedOf, s.calls, NEW_CALL);
    SumAppend(PausedOf, s.calls, NEW_CALL);
  }

  lemma CancelBalanced(s: State, c: nat)
    requires Balanced(s) && CanCancel(s, c)
    ensures Balanced(AfterCancel(s, c))
  {
    BalanceUpdate(s, c, AfterCancel(s, c).calls[c]);
  }

  lemma StepBalanced(cfg: Config, s: State, e: Event)
    requires Inv(cfg, s) && Balanced(s)
    ensures Balanced(Step(cfg, s, e))
  {
    match e
    case Arrive => ArriveBalanced(s);
    case Admit(c, a) =>
      if CanAdmit(s, c, a) {
        InvHere(cfg, s, c);
        AdmitBalanced(cfg, s, c, a);
      }
    case Hold(c, w) =>
      if CanHold(s, c, w) {
        InvHere(cfg, s, c);
        HoldBalanced(cfg, s, c, w);
      }
    case Execute(c, x) =>
      if CanExecute(s, c, x) {
        InvHere(cfg, s, c);
        ExecuteBalanced(cfg, s, c, x);
      }
    case Cancel(c) =>
      if CanCancel(s, c) {
        CancelBalanced(s, c);
      }
    case _ =>
  }

  lemma {:induction false} RunBalances(cfg: Config, events: seq<Event>)
    ensures Balanced(Run(cfg, events))
  {
    if events != [] {
      var n := |events| - 1;
      RunBalances(cfg, events[..n]);
      RunKeeps(cfg, events[..n]);
      StepBalanced(cfg, Run(cfg, events[..n]), events[n]);
    }
  }
}
