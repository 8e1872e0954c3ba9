/** What the engine's decisions mean on policies, actions and contexts: limits, patterns, conditions, fields. */
module EngineMeaning {
  import opened Json
  import opened Model
  import opened Splitting
  import opened Engine
  import opened EngineLaws

  // ---- One policy -----------------------------------------------------------------------------------

  /** The limits of the policy leave room for this action. */
  ghost predicate Room(p: Policy, a: Action, ctx: EvalContext) {
    && (p.maxActions.Some? ==> ctx.actionCount < p.maxActions.value)
    && (p.budgetTokens.Some? && a.cost.tokens > 0 ==> ctx.spentTokens + a.cost.tokens <= p.budgetTokens.value)
    && (p.budgetAmount.Some? && a.cost.amount > 0.0 ==> ctx.spentAmount + a.cost.amount <= p.budgetAmount.value)
  }

  /** The rule is about actions of this kind on this resource. */
  ghost predicate About(text: Text, r: Rule, a: Action) {
    text.glob(a.kind, r.kind) && text.glob(a.resource, r.resource)
  }

  ghost predicate Every(text: Text, r: Rule, ns: Json, t: Tri) {
    forall j :: 0 <= j < |r.when| ==> EvalCondition(text, r.when[j], ns) == t
  }

  ghost predicate Any(text: Text, r: Rule, ns: Json, t: Tri) {
    exists j :: 0 <= j < |r.when| && EvalCondition(text, r.when[j], ns) == t
  }

  /** The action is allowed exactly if there is room, an allow rule about it holds, and every restriction about it is refuted. */
  lemma AllowedIff(text: Text, p: Policy, a: Action, ctx: EvalContext)
    ensures var ns := Namespace(a, ctx);
            Evaluate(text, p, a, ctx).effect == Allow <==>
            && Room(p, a, ctx)
            && (exists r :: r in p.rules && r.decision == Allow && About(text, r, a) && Every(text, r, ns, Yes))
            && (forall r :: r in p.rules && r.decision != Allow && About(text, r, a) ==> Any(text, r, ns, No))
  {
    CombineEffect(p, EngineFires(text, p, a, ctx));
    NonePickedIsNoEffect(p, EngineFires(text, p, a, ctx));
    PickedRules(text, p, a, ctx);
  }

  /** Approval is asked exactly if there is room, every denial about the action is refuted and some approval rule is not. */
  lemma ApprovalIff(text: Text, p: Policy, a: Action, ctx: EvalContext)
    ensures var ns := Namespace(a, ctx);
            Evaluate(text, p, a, ctx).effect == RequireApproval <==>
            && Room(p, a, ctx)
            && (exists r :: r in p.rules && r.decision == RequireApproval && About(text, r, a) && !Any(text, r, ns, No))
            && (forall r :: r in p.rules && r.decision == Deny && About(text, r, a) ==> Any(text, r, ns, No))
  {
    CombineEffect(p, EngineFires(text, p, a, ctx));
    PickedRules(text, p, a, ctx);
  }

  /** Denied is what is short of room, what a denial about it is not refuted for, and what no rule answers for. */
  lemma DeniedIff(text: Text, p: Policy, a: Action, ctx: EvalContext)
    ensures var ns := Namespace(a, ctx);
            Evaluate(text, p, a, ctx).effect == Deny <==>
            || !Room(p, a, ctx)
            || (exists r :: r in p.rules && r.decision == Deny && About(text, r, a) && !Any(text, r, ns, No))
            || (forall r :: r in p.rules && About(text, r, a) ==>
                  if r.decision == Allow then !Every(text, r, ns, Yes) else Any(text, r, ns, No))
  {
    AllowedIff(text, p, a, ctx);
    ApprovalIff(text, p, a, ctx);
  }

  /** Which rules fire, effect by effect. */
  lemma PickedRules(text: Text, p: Policy, a: Action, ctx: EvalContext)
    ensures var ns, engine := Namespace(a, ctx), EngineFires(text, p, a, ctx);
            && (SomePicked(p, engine, Allow) <==>
                  exists r :: r in p.rules && r.decision == Allow && About(text, r, a) && Every(text, r, ns, Yes))
            && (forall e :: e != Allow ==>
                  (SomePicked(p, engine, e) <==>
                     exists r :: r in p.rules && r.decision == e && About(text, r, a) && !Any(text, r, ns, No)))
  {
    var ns, engine := Namespace(a, ctx), EngineFires(text, p, a, ctx);
    forall e: Effect
      ensures SomePicked(p, engine, e) <==> exists r :: r in p.rules && r.decision == e && Fires(text, r, a, ns)
    {
      if r :| r in p.rules && r.decision == e && Fires(text, r, a, ns) {
        var i :| 0 <= i < |p.rules| && p.rules[i] == r;
        assert engine(i);
      }
    }
    forall r: Rule
      ensures r.decision == Allow ==> (Fires(text, r, a, ns) <==> About(text, r, a) && Every(text, r, ns, Yes))
      ensures r.decision != Allow ==> (Fires(text, r, a, ns) <==> About(text, r, a) && !Any(text, r, ns, No))
    {
    }
  }

  /** A rule about other kinds or resources might as well not be there. */
  lemma UnrelatedRule(text: Text, p: Policy, a: Action, ctx: EvalContext, k: nat)
    requires k < |p.rules| && (!text.glob(a.kind, p.rules[k].kind) || !text.glob(a.resource, p.rules[k].resource))
    ensures var without := p.(rules := p.rules[..k] + p.rules[k + 1..]);
            Evaluate(text, without, a, ctx) == Evaluate(text, p, a, ctx)
  {
    var without := p.(rules := p.rules[..k] + p.rules[k + 1..]);
    DropUnfired(text, a, Namespace(a, ctx), p.rules, k);
    SameFired(text, p, a, ctx);
    SameFired(text, without, a, ctx);
  }

  /** The rules that fire, in order. */
  ghost function Fired(text: Text, a: Action, ns: Json, rules: seq<Rule>): seq<Rule> {
    if rules == [] then []
    else
      Fired(text, a, ns, rules[..|rules| - 1])
      + (if Fires(text, rules[|rules| - 1], a, ns) then [rules[|rules| - 1]] else [])
  }

  lemma {:induction false} FiredConcat(text: Text, a: Action, ns: Json, xs: seq<Rule>, ys: seq<Rule>)
    ensures Fired(text, a, ns, xs + ys) == Fired(text, a, ns, xs) + Fired(text, a, ns, ys)
  {
    if ys == [] {
      assert xs + ys == xs;
    } else {
      var n := |ys| - 1;
      assert (xs + ys)[..|xs + ys| - 1] == xs + ys[..n];
      FiredConcat(text, a, ns, xs, ys[..n]);
    }
  }

  lemma {:induction false} DropUnfired(text: Text, a: Action, ns: Json, rules: seq<Rule>, k: nat)
    requires k < |rules| && !Fires(text, rules[k], a, ns)
    ensures Fired(text, a, ns, rules[..k] + rules[k + 1..]) == Fired(text, a, ns, rules)
  {
    assert rules == rules[..k] + [rules[k]] + rules[k + 1..];
    assert [rules[k]][..0] == [];
    FiredConcat(text, a, ns, rules[..k] + [rules[k]], rules[k + 1..]);
    FiredConcat(text, a, ns, rules[..k], [rules[k]]);
    FiredConcat(text, a, ns, rules[..k], rules[k + 1..]);
  }

  lemma {:induction false} PickedIsFired(text: Text, a: Action, ns: Json, rules: seq<Rule>, pick: nat -> bool)
    requires forall i: nat :: i < |rules| ==> (pick(i) <==> Fires(text, rules[i], a, ns))
    ensures Picked(rules, pick) == Fired(text, a, ns, rules)
  {
    if rules != [] {
      PickedIsFired(text, a, ns, rules[..|rules| - 1], pick);
    }
  }

  lemma {:induction false} SameFired(text: Text, p: Policy, a: Action, ctx: EvalContext)
    ensures Evaluate(text, p, a, ctx)
         == if Limits(p, a, ctx).Some? then Limits(p, a, ctx).value else Combine(p, Fired(text, a, Namespace(a, ctx), p.rules))
  {
    PickedIsFired(text, a, Namespace(a, ctx), p.rules, EngineFires(text, p, a, ctx));
  }

  /** The only rule of a policy decides what it is about, if there is room and its conditions do not stand in the way. */
  lemma SoleRuleDecides(text: Text, p: Policy, a: Action, ctx: EvalContext, r: Rule)
    requires p.rules == [r]
    ensures var ns := Namespace(a, ctx);
            Evaluate(text, p, a, ctx).effect
            == if && Room(p, a, ctx) && text.glob(a.kind, r.kind) && text.glob(a.resource, r.resource)
                  && !Any(text, r, ns, No) && (r.decision == Allow ==> !Any(text, r, ns, Unknown))
               then r.decision else Deny
  {
    AllowedIff(text, p, a, ctx);
    ApprovalIff(text, p, a, ctx);
    assert r in p.rules;
  }

  // ---- What a decision says -------------------------------------------------------------------------

  /** A decision for want of room names the first limit that is exceeded. */
  lemma LimitIsNamed(text: Text, p: Policy, a: Action, ctx: EvalContext)
    requires !Room(p, a, ctx)
    ensures var d := Evaluate(text, p, a, ctx);
            && d.effect == Deny && d.policyId == p.id && d.policyVersion == p.version && d.matched == []
            && d.ruleId == if p.maxActions.Some? && ctx.actionCount >= p.maxActions.value then "limit:max_actions"
                           else if p.budgetTokens.Some? && a.cost.tokens > 0
                                   && ctx.spentTokens + a.cost.tokens > p.budgetTokens.value then "budget:tokens"
                           else "budget:amount"
  {
  }

  /**
   * Within the limits a decision names the first of the strictest rules that fired, and lists all that fired in the
   * policy's order; if none did, it is the default denial.
   */
  lemma {:induction false} RuleIsNamed(text: Text, p: Policy, a: Action, ctx: EvalContext)
    requires Room(p, a, ctx)
    ensures var d := Evaluate(text, p, a, ctx);
            var fired := Fired(text, a, Namespace(a, ctx), p.rules);
            && d.policyId == p.id && d.policyVersion == p.version && |d.matched| == |fired|
            && (forall i :: 0 <= i < |fired| ==> d.matched[i] == fired[i].id)
            && (fired == [] ==> d.effect == Deny && d.ruleId == "default-deny")
            && (fired != [] ==> exists k :: Leads(fired, k) && d.ruleId == fired[k].id && d.reason == fired[k].reason
                                            && d.effect == fired[k].decision)
  {
    SameFired(text, p, a, ctx);
    var fired := Fired(text, a, Namespace(a, ctx), p.rules);
    if fired != [] {
      var effects := seq(|fired|, i requires 0 <= i < |fired| => fired[i].decision);
      var k := FirstStrictest(effects);
      assert forall i :: 0 <= i < |fired| ==> effects[i] == fired[i].decision;
      assert Leads(fired, k);
    }
  }

  /** Nothing is stricter than the rule at k, and everything before it is milder. */
  ghost predicate Leads(fired: seq<Rule>, k: int) {
    && 0 <= k < |fired|
    && (forall i :: 0 <= i < |fired| ==> Strictness(fired[i].decision) <= Strictness(fired[k].decision))
    && (forall i :: 0 <= i < k ==> Strictness(fired[i].decision) < Strictness(fired[k].decision))
  }

  /** Of several policies the first of the strictest speaks. */
  lemma FirstStrictestPolicy(text: Text, ps: seq<Policy>, a: Action, ctx: EvalContext)
    requires ps != []
    ensures exists k :: 0 <= k < |ps| && EvaluateAll(text, ps, a, ctx) == Evaluate(text, ps[k], a, ctx)
                        && forall i :: 0 <= i < k ==>
                             Strictness(Evaluate(text, ps[i], a, ctx).effect) < Strictness(Evaluate(text, ps[k], a, ctx).effect)
  {
    var k := FirstStrictest(Effects(text, ps, a, ctx));
    assert EvaluateAll(text, ps, a, ctx) == Evaluate(text, ps[k], a, ctx);
  }

  // ---- What a condition sees ------------------------------------------------------------------------

  /** The value a condition's path leads to, if any. */
  function Value(ns: Json, field: string): Option<Json> {
    At(ns, Split(field, '.'))
  }

  lemma OneKey(ns: Json, key: string)
    requires '.' !in key && ns.Obj? && key in ns.fields
    ensures Value(ns, key) == Some(ns.fields[key])
  {
    NoSeparator(key, '.');
    assert At(ns.fields[key], [key][1..]) == Some(ns.fields[key]);
  }

  /** Rules see the kind of the action they are asked about. */
  lemma SeesKind(a: Action, ctx: EvalContext, field: string)
    requires field == "type"
    ensures Value(Namespace(a, ctx), field) == Some(Str(a.kind))
  {
    OneKey(Namespace(a, ctx), field);
  }

  /** Its resource. */
  lemma SeesResource(a: Action, ctx: EvalContext, field: string)
    requires field == "resource"
    ensures Value(Namespace(a, ctx), field) == Some(Str(a.resource))
  {
    OneKey(Namespace(a, ctx), field);
  }

  /** Its price. */
  lemma SeesPrice(a: Action, ctx: EvalContext)
    ensures Value(Namespace(a, ctx), "cost" + "." + "tokens") == Some(Int(a.cost.tokens))
    ensures Value(Namespace(a, ctx), "cost" + "." + "amount") == Some(Num(a.cost.amount))
  {
    TwoKeys(Namespace(a, ctx), "cost", "tokens");
    TwoKeys(Namespace(a, ctx), "cost", "amount");
  }

  /** Its parameters. */
  lemma SeesParameter(a: Action, ctx: EvalContext, key: string)
    requires '.' !in key && key in a.params
    ensures Value(Namespace(a, ctx), "params" + "." + key) == Some(a.params[key])
  {
    TwoKeys(Namespace(a, ctx), "params", key);
  }

  /** They see who acts. */
  lemma SeesSession(a: Action, ctx: EvalContext)
    ensures var ns := Namespace(a, ctx);
            && Value(ns, "agent" + "." + "id") == Some(Str(ctx.agentId))
            && Value(ns, "session" + "." + "id") == Some(Str(ctx.sessionId))
            && Value(ns, "session" + "." + "action_count") == Some(Int(ctx.actionCount))
  {
    var ns := Namespace(a, ctx);
    TwoKeys(ns, "agent", "id");
    TwoKeys(ns, "session", "id");
    TwoKeys(ns, "session", "action_count");
  }

  /** They see what has been spent. */
  lemma SeesSpent(a: Action, ctx: EvalContext)
    ensures Value(Namespace(a, ctx), "spend" + "." + "tokens") == Some(Int(ctx.spentTokens))
    ensures Value(Namespace(a, ctx), "spend" + "." + "amount") == Some(Num(ctx.spentAmount))
  {
    TwoKeys(Namespace(a, ctx), "spend", "tokens");
    TwoKeys(Namespace(a, ctx), "spend", "amount");
  }

  /** They see what will have been spent. */
  lemma SeesSpendAfter(a: Action, ctx: EvalContext)
    ensures Value(Namespace(a, ctx), "spend" + "." + "tokens_after") == Some(Int(ctx.spentTokens + a.cost.tokens))
    ensures Value(Namespace(a, ctx), "spend" + "." + "amount_after") == Some(Num(ctx.spentAmount + a.cost.amount))
  {
    TwoKeys(Namespace(a, ctx), "spend", "tokens_after");
    TwoKeys(Namespace(a, ctx), "spend", "amount_after");
  }

  // ---- What a condition says ------------------------------------------------------------------------

  /** Nothing but exists can be answered about a missing field. */
  lemma MissingIsUnknown(text: Text, c: Condition, ns: Json)
    requires Value(ns, c.field).None?
    ensures EvalCondition(text, c, ns) == Unknown <==> c.op != Exists
  {
  }

  /** exists is always answered: by whether the field is there, or for a literal that counts as false by whether it is not. */
  lemma ExistsMeans(text: Text, field: string, literal: Json, ns: Json)
    ensures var c := Condition(field, Exists, literal);
            && EvalCondition(text, c, ns) != Unknown
            && (EvalCondition(text, c, ns) == Yes <==>
                  (Value(ns, field).Some? <==>
                     literal !in {Null, Bool(false), Int(0), Num(0.0), Str(""), Arr([]), Obj(map[])}))
  {
  }

  /** The text operators compare without regard to case, and need text on both sides. */
  lemma TextOperators(text: Text, field: string, literal: Json, ns: Json, actual: Json)
    requires Value(ns, field) == Some(actual)
    ensures var glob, prefix, contains := EvalCondition(text, Condition(field, Glob, literal), ns),
                EvalCondition(text, Condition(field, Op.Prefix, literal), ns),
                EvalCondition(text, Condition(field, Op.Contains, literal), ns);
            if actual.Str? && literal.Str? then
              var have, want := text.lower(actual.s), text.lower(literal.s);
              && (glob == if text.glob(have, want) then Yes else No)
              && prefix != Unknown && (prefix == Yes <==> exists rest :: have == want + rest)
              && contains != Unknown && (contains == Yes <==> exists before, rest :: have == before + want + rest)
            else glob == Unknown && prefix == Unknown && contains == Unknown
  {
    if actual.Str? && literal.Str? {
      var have, want := text.lower(actual.s), text.lower(literal.s);
      PrefixMeans(want, have);
      OccursMeans(want, have);
    }
  }

  lemma PrefixMeans(want: string, have: string)
    ensures StartsWith(have, want) <==> exists rest :: have == want + rest
  {
    if StartsWith(have, want) {
      assert have == want + have[|want|..];
    }
  }

  lemma OccursMeans(want: string, have: string)
    ensures Occurs(want, have) <==> exists before, rest :: have == before + want + rest
  {
    if Occurs(want, have) {
      var i :| 0 <= i <= |have| && want <= have[i..];
      assert have[i..] == want + have[i..][|want|..];
      assert have == have[..i] + have[i..] == have[..i] + want + have[i..][|want|..];
    }
    if before, rest :| have == before + want + rest {
      assert have[|before|..] == want + rest;
    }
  }

  /** On a resource in lower case, a glob condition with a pattern in lower case is the rule's own resource pattern. */
  lemma GlobIsResourcePattern(text: Text, a: Action, ctx: EvalContext, field: string, pattern: string)
    requires field == "resource" && text.lower(a.resource) == a.resource && text.lower(pattern) == pattern
    ensures EvalCondition(text, Condition(field, Glob, Str(pattern)), Namespace(a, ctx)) == Yes
            <==> text.glob(a.resource, pattern)
  {
    SeesResource(a, ctx, field);
    TextOperators(text, field, Str(pattern), Namespace(a, ctx), Str(a.resource));
  }

  /** Texts are equal if they are the same; text and anything else cannot be compared. */
  lemma TextEquality(text: Text, field: string, literal: string, ns: Json, actual: Json)
    requires Value(ns, field) == Some(actual)
    ensures EvalCondition(text, Condition(field, Eq, Str(literal)), ns)
         == if actual.Str? then Holds(actual.s == literal) else Unknown
  {
  }

  /** Numbers compare with numbers only: a truth value is none. */
  lemma NumbersOnly(text: Text, field: string, op: Op, literal: Json, ns: Json, actual: Json)
    requires Value(ns, field) == Some(actual) && (op == Gt || op == Gte || op == Lt || op == Lte)
    ensures EvalCondition(text, Condition(field, op, literal), ns) == Unknown <==>
            !((actual.Int? || actual.Num?) && (literal.Int? || literal.Num?))
  {
  }

  /** A value is in a list if it equals one of its elements as Python has it: 1, 1.0 and True are equal, at every depth. */
  lemma {:induction false} Membership(text: Text, field: string, list: Json, ns: Json, actual: Json)
    requires Value(ns, field) == Some(actual)
    ensures var v := EvalCondition(text, Condition(field, In, list), ns);
            && (v == Unknown <==> !list.Arr?)
            && (list.Arr? ==> (v == Yes <==> exists x :: x in list.elems && Same(actual, x)))
  {
    if list.Arr? {
      forall x
        ensures Same(actual, x) <==> Equal(actual, x)
      {
        SameIsEqual(actual, x);
      }
    }
  }

  /** Equality is never guessed: known values are compared as Python does, a number or a text only with its like. */
  lemma {:induction false} EqualityMeans(text: Text, field: string, literal: Json, ns: Json, actual: Json)
    requires Value(ns, field) == Some(actual)
    ensures var v := EvalCondition(text, Condition(field, Eq, literal), ns);
            && (v == Yes ==> Same(actual, literal)) && (v == No ==> !Same(actual, literal))
            && (v == Unknown <==> || (actual.Int? || actual.Num?) != (literal.Int? || literal.Num?)
                                  || actual.Str? != literal.Str?)
  {
    SameIsEqual(actual, literal);
  }

  /** An operator the engine does not know never lets a rule permit, and never keeps a rule from restricting. */
  lemma UnrecognisedIsStrict(text: Text, r: Rule, a: Action, ns: Json, j: nat, field: string, value: Json)
    requires j < |r.when| && r.when[j] == Condition(field, Unrecognised, value)
    ensures Fires(text, r, a, ns) <==>
            && r.decision != Allow
            && text.glob(a.kind, r.kind) && text.glob(a.resource, r.resource)
            && forall k :: 0 <= k < |r.when| && k != j ==> EvalCondition(text, r.when[k], ns) != No
  {
    assert EvalCondition(text, r.when[j], ns) == Unknown;
  }

  predicate Numeric(j: Json) {
    j.Bool? || j.Int? || j.Num?
  }

  function Amount(j: Json): real
    requires Numeric(j)
  {
    match j
    case Bool(b) => if b then 1.0 else 0.0
    case Int(i) => i as real
    case Num(n) => n
  }

  /** Equality spelled out: by value between numbers and truth values, element by element, key by key. */
  predicate Same(a: Json, b: Json)
    decreases a
  {
    if Numeric(a) && Numeric(b) then Amount(a) == Amount(b)
    else
      match a
      case Str(s) => b == Str(s)
      case Null => b == Null
      case Arr(xs) => b.Arr? && |xs| == |b.elems| && forall i :: 0 <= i < |xs| ==> Same(xs[i], b.elems[i])
      case Obj(xs) => b.Obj? && xs.Keys == b.fields.Keys && forall k :: k in xs ==> Same(xs[k], b.fields[k])
      case _ => false
  }

  lemma {:induction false} SameIsEqual(a: Json, b: Json)
    ensures Same(a, b) <==> Equal(a, b)
    decreases a
  {
    if a.Arr? && b.Arr? && |a.elems| == |b.elems| {
      forall i | 0 <= i < |a.elems|
        ensures Same(a.elems[i], b.elems[i]) <==> Equal(a.elems[i], b.elems[i])
      {
        SameIsEqual(a.elems[i], b.elems[i]);
      }
      ArraysEqual(a, b);
    } else if a.Obj? && b.Obj? {
      ObjectsEqual(a, b);
      if Same(a, b) {
        forall k | k in a.fields && k in b.fields
          ensures Equal(a.fields[k], b.fields[k])
        {
          assert Same(a.fields[k], b.fields[k]);
          SameIsEqual(a.fields[k], b.fields[k]);
        }
      }
      if Equal(a, b) {
        forall k | k in a.fields
          ensures k in b.fields && Same(a.fields[k], b.fields[k])
        {
          assert k in b.fields.Keys;
          SameIsEqual(a.fields[k], b.fields[k]);
        }
      }
    } else if a.Arr? && b.Arr? {
      assert |Plain(a).elems| != |Plain(b).elems|;
    }
  }

  lemma ArraysEqual(a: Json, b: Json)
    requires a.Arr? && b.Arr? && |a.elems| == |b.elems|
    ensures Equal(a, b) <==> forall i :: 0 <= i < |a.elems| ==> Equal(a.elems[i], b.elems[i])
  {
    var x, y := Plain(a).elems, Plain(b).elems;
    assert forall i :: 0 <= i < |a.elems| ==> x[i] == Plain(a.elems[i]) && y[i] == Plain(b.elems[i]);
    if forall i :: 0 <= i < |a.elems| ==> Equal(a.elems[i], b.elems[i]) {
      assert x == y;
    }
  }

  lemma ObjectsEqual(a: Json, b: Json)
    requires a.Obj? && b.Obj?
    ensures Equal(a, b) <==>
            a.fields.Keys == b.fields.Keys && forall k :: k in a.fields && k in b.fields ==> Equal(a.fields[k], b.fields[k])
  {
    var x, y := Plain(a).fields, Plain(b).fields;
    assert x.Keys == a.fields.Keys && y.Keys == b.fields.Keys;
    assert forall k :: k in a.fields ==> x[k] == Plain(a.fields[k]);
    assert forall k :: k in b.fields ==> y[k] == Plain(b.fields[k]);
    if a.fields.Keys == b.fields.Keys && forall k :: k in a.fields && k in b.fields ==> Equal(a.fields[k], b.fields[k]) {
      assert x == y;
    }
  }
}
