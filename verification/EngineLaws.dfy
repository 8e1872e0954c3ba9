/** What the engine promises about uncertainty, order, limits and composition. */
module EngineLaws {
  import opened Json
  import opened Model
  import opened Engine

  // ---- One policy: the effect as a property of which rules fire -------------------------------------

  ghost predicate SomePicked(p: Policy, pick: nat -> bool, e: Effect) {
    exists i :: 0 <= i < |p.rules| && pick(i) && p.rules[i].decision == e
  }

  ghost predicate NonePicked(p: Policy, pick: nat -> bool) {
    forall i :: 0 <= i < |p.rules| ==> !pick(i)
  }

  /** The picked positions below n, in order. */
  ghost function Positions(n: nat, pick: nat -> bool): (ks: seq<nat>)
    ensures forall i :: 0 <= i < |ks| ==> ks[i] < n && pick(ks[i])
    ensures forall i, j :: 0 <= i < j < |ks| ==> ks[i] < ks[j]
    ensures forall k: nat :: k < n && pick(k) ==> k in ks
  {
    if n == 0 then [] else Positions(n - 1, pick) + (if pick(n - 1) then [n - 1] else [])
  }

  ghost function RulesAt(rules: seq<Rule>, ks: seq<nat>): (rs: seq<Rule>)
    requires forall i :: 0 <= i < |ks| ==> ks[i] < |rules|
    ensures |rs| == |ks| && forall i :: 0 <= i < |ks| ==> rs[i] == rules[ks[i]]
  {
    seq(|ks|, i requires 0 <= i < |ks| => rules[ks[i]])
  }

  /** The fired rules are the rules at the picked positions: each as often as it stands there, in the policy's order. */
  lemma {:induction false} PickedInOrder(rules: seq<Rule>, pick: nat -> bool)
    ensures Picked(rules, pick) == RulesAt(rules, Positions(|rules|, pick))
  {
    if rules != [] {
      var n := |rules| - 1;
      var before := Positions(n, pick);
      PickedInOrder(rules[..n], pick);
      assert RulesAt(rules[..n], before) == RulesAt(rules, before);
      if pick(n) {
        assert RulesAt(rules, before + [n]) == RulesAt(rules, before) + [rules[n]];
      } else {
        assert before + [] == before;
      }
    }
  }

  /** The winning rule was picked, and no picked rule is stricter. */
  lemma WinnerIsStrictest(p: Policy, pick: nat -> bool) returns (w: nat)
    requires Picked(p.rules, pick) != []
    ensures w < |p.rules| && pick(w) && p.rules[w].decision == Combine(p, Picked(p.rules, pick)).effect
    ensures forall i :: 0 <= i < |p.rules| && pick(i) ==> Strictness(p.rules[i].decision) <= Strictness(p.rules[w].decision)
  {
    var fired := Picked(p.rules, pick);
    var effects := seq(|fired|, i requires 0 <= i < |fired| => fired[i].decision);
    var k := FirstStrictest(effects);
    assert fired[k] in fired;
    w :| 0 <= w < |p.rules| && pick(w) && p.rules[w] == fired[k];
    forall i | 0 <= i < |p.rules| && pick(i)
      ensures Strictness(p.rules[i].decision) <= Strictness(fired[k].decision)
    {
      var j :| 0 <= j < |fired| && fired[j] == p.rules[i];
      assert effects[j] == p.rules[i].decision;
    }
  }

  lemma CombineEffect(p: Policy, pick: nat -> bool)
    ensures var e := Combine(p, Picked(p.rules, pick)).effect;
            && (e == Deny <==> SomePicked(p, pick, Deny) || NonePicked(p, pick))
            && (e == RequireApproval <==> !SomePicked(p, pick, Deny) && SomePicked(p, pick, RequireApproval))
            && (e == Allow <==> !NonePicked(p, pick) && !SomePicked(p, pick, Deny) && !SomePicked(p, pick, RequireApproval))
  {
    if Picked(p.rules, pick) == [] {
      assert NonePicked(p, pick);
    } else {
      var w := WinnerIsStrictest(p, pick);
      assert SomePicked(p, pick, p.rules[w].decision);
    }
  }

  // ---- Conditions -----------------------------------------------------------------------------------

  /** One holds exactly when the other does not, and both are unknown together. */
  ghost predicate Opposite(s: Tri, t: Tri) {
    (s == Yes <==> t == No) && (s == No <==> t == Yes)
  }

  /** The operators come in opposite pairs, on every value, literal and missing field. */
  lemma NegatedOperators(text: Text, field: string, value: Json, ns: Json)
    ensures Opposite(EvalCondition(text, Condition(field, Gt, value), ns), EvalCondition(text, Condition(field, Lte, value), ns))
    ensures Opposite(EvalCondition(text, Condition(field, Lt, value), ns), EvalCondition(text, Condition(field, Gte, value), ns))
    ensures Opposite(EvalCondition(text, Condition(field, Eq, value), ns), EvalCondition(text, Condition(field, Ne, value), ns))
    ensures Opposite(EvalCondition(text, Condition(field, In, value), ns), EvalCondition(text, Condition(field, NotIn, value), ns))
  {
  }

  /** On numbers exactly one of less, equal and greater holds, whether they are written as integers or not. */
  lemma {:induction false} NumbersAreOrdered(text: Text, field: string, value: Json, ns: Json, actual: Json)
    requires At(ns, Split(field, '.')) == Some(actual) && IsNum(actual) && IsNum(value)
    ensures var less, equal, greater := EvalCondition(text, Condition(field, Lt, value), ns),
                EvalCondition(text, Condition(field, Eq, value), ns), EvalCondition(text, Condition(field, Gt, value), ns);
            && less != Unknown && equal != Unknown && greater != Unknown
            && (less == Yes <==> Number(actual) < Number(value)) && (greater == Yes <==> Number(actual) > Number(value))
            && (equal == Yes <==> less == No && greater == No)
  {
    assert Plain(actual) == Num(Number(actual)) && Plain(value) == Num(Number(value));
  }

  lemma {:induction false} TwoKeys(ns: Json, outer: string, inner: string)
    requires '.' !in outer && '.' !in inner
    requires ns.Obj? && outer in ns.fields && ns.fields[outer].Obj? && inner in ns.fields[outer].fields
    ensures At(ns, Split(outer + "." + inner, '.')) == Some(ns.fields[outer].fields[inner])
  {
    var path := [outer, inner];
    assert path[1..] == [inner];
    assert Join(path, '.') == outer + "." + inner;
    SplitJoin(path, '.');
    assert At(ns.fields[outer], [inner]) == At(ns.fields[outer].fields[inner], [inner][1..]);
  }

  /** The budget check denies what costs tokens and a rule on the spend after the action would catch. */
  lemma SpendAfterIsWhatBudgetsSee(text: Text, p: Policy, a: Action, ctx: EvalContext)
    requires p.budgetTokens.Some?
    ensures OverTokens(p, a, ctx) <==>
            && a.cost.tokens > 0
            && EvalCondition(text, Condition("spend" + "." + "tokens_after", Gt, Int(p.budgetTokens.value)), Namespace(a, ctx)) == Yes
  {
    TwoKeys(Namespace(a, ctx), "spend", "tokens_after");
  }

  // ---- Uncertainty ----------------------------------------------------------------------------------

  /** One way of reading every condition that cannot be evaluated, per rule and condition position. */
  type Resolution = (nat, nat) -> bool

  predicate Settle(t: Tri, b: bool) {
    t == Yes || (t == Unknown && b)
  }

  predicate ResolvedFires(text: Text, p: Policy, a: Action, ctx: EvalContext, rho: Resolution, i: nat) {
    && i < |p.rules|
    && Targets(text, p.rules[i], a)
    && forall j :: 0 <= j < |p.rules[i].when| ==>
         Settle(EvalCondition(text, p.rules[i].when[j], Namespace(a, ctx)), rho(i, j))
  }

  function ResolvedPick(text: Text, p: Policy, a: Action, ctx: EvalContext, rho: Resolution): nat -> bool {
    (i: nat) => ResolvedFires(text, p, a, ctx, rho, i)
  }

  /** The two-valued policy obtained by fixing the unknown conditions as rho says. */
  function Resolved(text: Text, p: Policy, a: Action, ctx: EvalContext, rho: Resolution): Decision {
    var limited := Limits(p, a, ctx);
    if limited.Some? then limited.value
    else Combine(p, Picked(p.rules, ResolvedPick(text, p, a, ctx, rho)))
  }

  function Refute(i: nat, j: nat): bool {
    false
  }

  function Grant(i: nat, j: nat): bool {
    true
  }

  /** The engine's reading of a rule lies at the strict end: permits as if refuted, restricts as if granted. */
  lemma StrictReading(text: Text, p: Policy, a: Action, ctx: EvalContext, i: nat)
    requires i < |p.rules|
    ensures p.rules[i].decision == Allow ==>
              (EngineFires(text, p, a, ctx)(i) <==> ResolvedPick(text, p, a, ctx, Refute)(i))
    ensures p.rules[i].decision != Allow ==>
              (EngineFires(text, p, a, ctx)(i) <==> ResolvedPick(text, p, a, ctx, Grant)(i))
  {
  }

  /** Firing only grows as more unknowns are granted. */
  lemma FiringIsMonotone(text: Text, p: Policy, a: Action, ctx: EvalContext, rho: Resolution, i: nat)
    ensures ResolvedPick(text, p, a, ctx, Refute)(i) ==> ResolvedPick(text, p, a, ctx, rho)(i)
    ensures ResolvedPick(text, p, a, ctx, rho)(i) ==> ResolvedPick(text, p, a, ctx, Grant)(i)
  {
  }

  /** How the engine's firing set sits between the refuted, resolved and granted ones, effect by effect. */
  lemma ReadEffects(text: Text, p: Policy, a: Action, ctx: EvalContext, rho: Resolution)
    ensures var engine, refuted, granted, res := EngineFires(text, p, a, ctx), ResolvedPick(text, p, a, ctx, Refute),
                ResolvedPick(text, p, a, ctx, Grant), ResolvedPick(text, p, a, ctx, rho);
            && (forall e :: e != Allow ==> (SomePicked(p, engine, e) <==> SomePicked(p, granted, e)))
            && (SomePicked(p, engine, Allow) <==> SomePicked(p, refuted, Allow))
            && (forall e :: SomePicked(p, refuted, e) ==> SomePicked(p, res, e))
            && (forall e :: SomePicked(p, res, e) ==> SomePicked(p, granted, e))
  {
    var engine, refuted, granted, res := EngineFires(text, p, a, ctx), ResolvedPick(text, p, a, ctx, Refute),
        ResolvedPick(text, p, a, ctx, Grant), ResolvedPick(text, p, a, ctx, rho);
    forall i: nat | i < |p.rules|
      ensures p.rules[i].decision == Allow ==> (engine(i) <==> refuted(i))
      ensures p.rules[i].decision != Allow ==> (engine(i) <==> granted(i))
      ensures refuted(i) ==> res(i)
      ensures res(i) ==> granted(i)
    {
      StrictReading(text, p, a, ctx, i);
      FiringIsMonotone(text, p, a, ctx, rho, i);
    }
  }

  lemma NonePickedIsNoEffect(p: Policy, pick: nat -> bool)
    ensures NonePicked(p, pick) <==>
              !SomePicked(p, pick, Allow) && !SomePicked(p, pick, RequireApproval) && !SomePicked(p, pick, Deny)
  {
    if !NonePicked(p, pick) {
      var i :| 0 <= i < |p.rules| && pick(i);
      assert SomePicked(p, pick, p.rules[i].decision);
    }
  }

  /** Everything the theorems below need about one resolution. */
  lemma Compare(text: Text, p: Policy, a: Action, ctx: EvalContext, rho: Resolution)
    ensures var granted := ResolvedPick(text, p, a, ctx, Grant);
            var res := ResolvedPick(text, p, a, ctx, rho);
            var engine := Evaluate(text, p, a, ctx).effect;
            var reading := Resolved(text, p, a, ctx, rho).effect;
            && (!WithinLimits(p, a, ctx) ==> engine == reading == Deny)
            && (WithinLimits(p, a, ctx) ==>
                 && (engine == Allow ==> reading == Allow)
                 && (SomePicked(p, res, Deny) ==> engine == Deny)
                 && (engine == RequireApproval <==> !SomePicked(p, granted, Deny) && SomePicked(p, granted, RequireApproval))
                 && (reading == Deny <==> SomePicked(p, res, Deny) || NonePicked(p, res)))
  {
    var engine, refuted, granted, res := EngineFires(text, p, a, ctx), ResolvedPick(text, p, a, ctx, Refute),
        ResolvedPick(text, p, a, ctx, Grant), ResolvedPick(text, p, a, ctx, rho);
    ReadEffects(text, p, a, ctx, rho);
    CombineEffect(p, engine);
    CombineEffect(p, res);
    NonePickedIsNoEffect(p, engine);
    NonePickedIsNoEffect(p, res);
  }

  /** A policy allows exactly when it would allow however its unevaluable conditions turned out. */
  lemma AllowIffCertain(text: Text, p: Policy, a: Action, ctx: EvalContext)
    ensures Evaluate(text, p, a, ctx).effect == Allow <==>
            forall rho: Resolution :: Resolved(text, p, a, ctx, rho).effect == Allow
  {
    forall rho: Resolution
      ensures Evaluate(text, p, a, ctx).effect == Allow ==> Resolved(text, p, a, ctx, rho).effect == Allow
    {
      Compare(text, p, a, ctx, rho);
    }
    if forall rho: Resolution :: Resolved(text, p, a, ctx, rho).effect == Allow {
      assert Resolved(text, p, a, ctx, Refute).effect == Allow;
      assert Resolved(text, p, a, ctx, Grant).effect == Allow;
      var refuted, granted := ResolvedPick(text, p, a, ctx, Refute), ResolvedPick(text, p, a, ctx, Grant);
      ReadEffects(text, p, a, ctx, Refute);
      CombineEffect(p, refuted);
      CombineEffect(p, granted);
      CombineEffect(p, EngineFires(text, p, a, ctx));
      NonePickedIsNoEffect(p, refuted);
      NonePickedIsNoEffect(p, EngineFires(text, p, a, ctx));
    }
  }

  /** If any reading of the unknowns makes a deny rule fire, the engine denies. */
  lemma PossibleDenyDenies(text: Text, p: Policy, a: Action, ctx: EvalContext, rho: Resolution, i: nat)
    requires i < |p.rules| && p.rules[i].decision == Deny
    requires ResolvedFires(text, p, a, ctx, rho, i)
    ensures Evaluate(text, p, a, ctx).effect == Deny
  {
    assert SomePicked(p, ResolvedPick(text, p, a, ctx, rho), Deny);
    Compare(text, p, a, ctx, rho);
  }

  ghost predicate SomeReadingPicks(text: Text, p: Policy, a: Action, ctx: EvalContext, e: Effect) {
    exists rho: Resolution :: SomePicked(p, ResolvedPick(text, p, a, ctx, rho), e)
  }

  lemma PossibleIffGranted(text: Text, p: Policy, a: Action, ctx: EvalContext, e: Effect)
    ensures SomeReadingPicks(text, p, a, ctx, e) <==> SomePicked(p, ResolvedPick(text, p, a, ctx, Grant), e)
  {
    if rho: Resolution :| SomePicked(p, ResolvedPick(text, p, a, ctx, rho), e) {
      ReadEffects(text, p, a, ctx, rho);
    }
  }

  /** The engine asks for approval exactly when some reading makes an approval rule fire and none a deny rule. */
  lemma ApprovalIffPossible(text: Text, p: Policy, a: Action, ctx: EvalContext)
    requires WithinLimits(p, a, ctx)
    ensures Evaluate(text, p, a, ctx).effect == RequireApproval <==>
            SomeReadingPicks(text, p, a, ctx, RequireApproval) && !SomeReadingPicks(text, p, a, ctx, Deny)
  {
    PossibleIffGranted(text, p, a, ctx, RequireApproval);
    PossibleIffGranted(text, p, a, ctx, Deny);
    Compare(text, p, a, ctx, Grant);
  }

  lemma StricterReading(text: Text, p: Policy, a: Action, ctx: EvalContext, rho: Resolution)
    requires Strictness(Resolved(text, p, a, ctx, rho).effect) > Strictness(Evaluate(text, p, a, ctx).effect)
    ensures Evaluate(text, p, a, ctx).effect == RequireApproval
    ensures NonePicked(p, ResolvedPick(text, p, a, ctx, Refute))
  {
    Compare(text, p, a, ctx, rho);
    assert NonePicked(p, ResolvedPick(text, p, a, ctx, rho));
    NoneWhenRefuted(text, p, a, ctx, rho);
  }

  /** If nothing fires in some reading, nothing does with every unknown refuted. */
  lemma NoneWhenRefuted(text: Text, p: Policy, a: Action, ctx: EvalContext, rho: Resolution)
    requires NonePicked(p, ResolvedPick(text, p, a, ctx, rho))
    ensures NonePicked(p, ResolvedPick(text, p, a, ctx, Refute))
  {
    forall i: nat | i < |p.rules|
      ensures !ResolvedPick(text, p, a, ctx, Refute)(i)
    {
      FiringIsMonotone(text, p, a, ctx, rho, i);
    }
  }

  /**
   * "Uncertainty resolves strictly" has one exception: an uncertain approval rule displaces default deny.
   * Some reading is stricter than the engine exactly when the action is within limits, some approval rule and no
   * deny rule fires with every unevaluable condition taken as true, and no rule at all with every one taken as false.
   */
  lemma WhenAReadingIsStricter(text: Text, p: Policy, a: Action, ctx: EvalContext)
    ensures var granted, refuted := ResolvedPick(text, p, a, ctx, Grant), ResolvedPick(text, p, a, ctx, Refute);
            (exists rho: Resolution ::
               Strictness(Resolved(text, p, a, ctx, rho).effect) > Strictness(Evaluate(text, p, a, ctx).effect))
            <==>
            && WithinLimits(p, a, ctx)
            && SomePicked(p, granted, RequireApproval) && !SomePicked(p, granted, Deny)
            && NonePicked(p, refuted)
  {
    Compare(text, p, a, ctx, Refute);
    forall rho: Resolution
      | Strictness(Resolved(text, p, a, ctx, rho).effect) > Strictness(Evaluate(text, p, a, ctx).effect)
      ensures Evaluate(text, p, a, ctx).effect == RequireApproval && NonePicked(p, ResolvedPick(text, p, a, ctx, Refute))
    {
      StricterReading(text, p, a, ctx, rho);
    }
  }

  /** The exception happens: one approval rule on an absent field, and nothing else in the policy. */
  lemma DisplacedDefaultDeny(text: Text, p: Policy, a: Action, ctx: EvalContext)
    requires text.glob(a.kind, "*") && text.glob(a.resource, "*")
    requires p.rules == [Rule("r", RequireApproval, "*", "*", [Condition("x", Gt, Int(1))], "")]
    requires WithinLimits(p, a, ctx)
    ensures Evaluate(text, p, a, ctx).effect == RequireApproval
    ensures Resolved(text, p, a, ctx, Refute).effect == Deny
  {
    AbsentFieldIsUnknown(text, a, ctx);
    assert SomePicked(p, EngineFires(text, p, a, ctx), RequireApproval) by {
      assert EngineFires(text, p, a, ctx)(0);
    }
    CombineEffect(p, EngineFires(text, p, a, ctx));
    assert NonePicked(p, ResolvedPick(text, p, a, ctx, Refute)) by {
      assert !Settle(EvalCondition(text, p.rules[0].when[0], Namespace(a, ctx)), Refute(0, 0));
    }
    CombineEffect(p, ResolvedPick(text, p, a, ctx, Refute));
  }

  lemma AbsentFieldIsUnknown(text: Text, a: Action, ctx: EvalContext)
    ensures EvalCondition(text, Condition("x", Gt, Int(1)), Namespace(a, ctx)) == Unknown
  {
    SplitJoin(["x"], '.');
    assert "x" !in Namespace(a, ctx).fields;
    assert At(Namespace(a, ctx), ["x"]) == None;
  }

  // ---- Order, limits, composition -------------------------------------------------------------------

  /** Reordering or repeating rules cannot change the outcome, nor can the policy's version. */
  lemma OrderIrrelevant(text: Text, p: Policy, q: Policy, a: Action, ctx: EvalContext)
    requires forall r :: r in p.rules <==> r in q.rules
    requires q == p.(rules := q.rules, version := q.version)
    ensures Evaluate(text, p, a, ctx).effect == Evaluate(text, q, a, ctx).effect
  {
    forall e ensures SomePicked(p, EngineFires(text, p, a, ctx), e) <==> SomePicked(q, EngineFires(text, q, a, ctx), e)
    {
      SameRulesSamePicks(text, p, q, a, ctx, e);
      SameRulesSamePicks(text, q, p, a, ctx, e);
    }
    CombineEffect(p, EngineFires(text, p, a, ctx));
    CombineEffect(q, EngineFires(text, q, a, ctx));
    NonePickedIsNoEffect(p, EngineFires(text, p, a, ctx));
    NonePickedIsNoEffect(q, EngineFires(text, q, a, ctx));
  }

  lemma SameRulesSamePicks(text: Text, p: Policy, q: Policy, a: Action, ctx: EvalContext, e: Effect)
    requires forall r :: r in p.rules ==> r in q.rules
    ensures SomePicked(p, EngineFires(text, p, a, ctx), e) ==> SomePicked(q, EngineFires(text, q, a, ctx), e)
  {
    if SomePicked(p, EngineFires(text, p, a, ctx), e) {
      var i :| 0 <= i < |p.rules| && EngineFires(text, p, a, ctx)(i) && p.rules[i].decision == e;
      assert p.rules[i] in q.rules;
      var j :| 0 <= j < |q.rules| && q.rules[j] == p.rules[i];
      assert EngineFires(text, q, a, ctx)(j);
    }
  }

  /** The composed decision is the strictest single decision, and one of them. */
  lemma AllStrictest(text: Text, ps: seq<Policy>, a: Action, ctx: EvalContext)
    requires ps != []
    ensures forall i :: 0 <= i < |ps| ==>
              Strictness(Evaluate(text, ps[i], a, ctx).effect) <= Strictness(EvaluateAll(text, ps, a, ctx).effect)
    ensures exists i :: 0 <= i < |ps| && Evaluate(text, ps[i], a, ctx) == EvaluateAll(text, ps, a, ctx)
  {
    var k := FirstStrictest(Effects(text, ps, a, ctx));
    assert Effects(text, ps, a, ctx)[k] == Evaluate(text, ps[k], a, ctx).effect;
  }

  /** An action passes only if at least one policy is attached and every attached policy allows it. */
  lemma AllowNeedsEveryPolicy(text: Text, ps: seq<Policy>, a: Action, ctx: EvalContext)
    ensures EvaluateAll(text, ps, a, ctx).effect == Allow <==>
            ps != [] && forall i :: 0 <= i < |ps| ==> Evaluate(text, ps[i], a, ctx).effect == Allow
  {
    if ps != [] {
      AllStrictest(text, ps, a, ctx);
    }
  }

  /** Adding policies can only make the outcome stricter. */
  lemma MorePoliciesNarrow(text: Text, base: seq<Policy>, extra: seq<Policy>, a: Action, ctx: EvalContext)
    requires base != []
    ensures Strictness(EvaluateAll(text, base, a, ctx).effect) <= Strictness(EvaluateAll(text, base + extra, a, ctx).effect)
  {
    AllStrictest(text, base, a, ctx);
    AllStrictest(text, base + extra, a, ctx);
    var i :| 0 <= i < |base| && Evaluate(text, base[i], a, ctx) == EvaluateAll(text, base, a, ctx);
    assert (base + extra)[i] == base[i];
  }

  lemma OverIsDenied(text: Text, p: Policy, a: Action, ctx: EvalContext)
    ensures !WithinLimits(p, a, ctx) ==> Evaluate(text, p, a, ctx).effect == Deny
  {
  }

  /** Nothing that exceeds a limit of any attached policy escapes a denial. */
  lemma NotDeniedIsWithinLimits(text: Text, ps: seq<Policy>, a: Action, ctx: EvalContext)
    requires EvaluateAll(text, ps, a, ctx).effect != Deny
    ensures ps != []
    ensures forall i :: 0 <= i < |ps| ==> WithinLimits(ps[i], a, ctx)
  {
    AllStrictest(text, ps, a, ctx);
    forall i | 0 <= i < |ps|
      ensures WithinLimits(ps[i], a, ctx)
    {
      OverIsDenied(text, ps[i], a, ctx);
    }
  }

  /** Within the limits, some rule fires, and no deny rule does. */
  ghost predicate Permits(text: Text, p: Policy, a: Action, ctx: EvalContext) {
    && WithinLimits(p, a, ctx)
    && !SomePicked(p, EngineFires(text, p, a, ctx), Deny) && !NonePicked(p, EngineFires(text, p, a, ctx))
  }

  lemma PolicyPasses(text: Text, p: Policy, a: Action, ctx: EvalContext)
    ensures Evaluate(text, p, a, ctx).effect != Deny <==> Permits(text, p, a, ctx)
  {
    CombineEffect(p, EngineFires(text, p, a, ctx));
  }

  /** An action escapes denial exactly if some policy is attached and every attached one permits it. */
  lemma PassesIffAllPermit(text: Text, ps: seq<Policy>, a: Action, ctx: EvalContext)
    ensures EvaluateAll(text, ps, a, ctx).effect != Deny <==>
            ps != [] && forall i :: 0 <= i < |ps| ==> Permits(text, ps[i], a, ctx)
  {
    if ps != [] {
      AllStrictest(text, ps, a, ctx);
      forall i | 0 <= i < |ps|
        ensures Evaluate(text, ps[i], a, ctx).effect != Deny <==> Permits(text, ps[i], a, ctx)
      {
        PolicyPasses(text, ps[i], a, ctx);
      }
    }
  }

  /** Exceeding a limit of one attached policy is enough for a denial. */
  lemma OverLimitIsDenied(text: Text, ps: seq<Policy>, p: Policy, a: Action, ctx: EvalContext)
    requires p in ps && !WithinLimits(p, a, ctx)
    ensures EvaluateAll(text, ps, a, ctx).effect == Deny
  {
    AllStrictest(text, ps, a, ctx);
    var i :| 0 <= i < |ps| && ps[i] == p;
    assert Evaluate(text, ps[i], a, ctx).effect == Deny;
  }
}
