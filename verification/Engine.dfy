/** The policy decision point: three-valued conditions, limits first, strictest rule wins, default deny. */
module Engine {
  import opened Json
  import opened Model

  datatype Tri = Yes | No | Unknown

  function Holds(b: bool): Tri {
    if b then Yes else No
  }

  // ---- Field lookup ---------------------------------------------------------------------------------

  function Namespace(a: Action, ctx: EvalContext): Json {
    Obj(map[
      "type" := Str(a.kind),
      "resource" := Str(a.resource),
      "params" := Obj(a.params),
      "cost" := Obj(map["tokens" := Int(a.cost.tokens), "amount" := Num(a.cost.amount)]),
      "agent" := Obj(map["id" := Str(ctx.agentId)]),
      "session" := Obj(map["id" := Str(ctx.sessionId), "action_count" := Int(ctx.actionCount)]),
      "spend" := Obj(map[
        "tokens" := Int(ctx.spentTokens),
        "amount" := Num(ctx.spentAmount),
        "tokens_after" := Int(ctx.spentTokens + a.cost.tokens),
        "amount_after" := Num(ctx.spentAmount + a.cost.amount)])])
  }

  /** The value reached by following a path of keys, if every key on the way is present. */
  function At(cur: Json, path: seq<string>): Option<Json> {
    if path == [] then Some(cur)
    else if cur.Obj? && path[0] in cur.fields then At(cur.fields[path[0]], path[1..])
    else None
  }

  method Lookup(ns: Json, path: string) returns (r: Option<Json>)
    ensures r == At(ns, Split(path, '.'))
  {
    var parts := Split(path, '.');
    var cur := ns;
    for k := 0 to |parts|
      invariant At(ns, parts) == At(cur, parts[k..])
    {
      if cur.Obj? && parts[k] in cur.fields {
        cur := cur.fields[parts[k]];
      } else {
        return None;
      }
    }
    return Some(cur);
  }

  // ---- Conditions -----------------------------------------------------------------------------------

  predicate StartsWith(s: string, prefix: string) {
    prefix <= s
  }

  predicate Occurs(needle: string, hay: string) {
    exists i :: 0 <= i <= |hay| && needle <= hay[i..]
  }

  /** Yes, No, or Unknown when the condition cannot be evaluated on this namespace. */
  function EvalCondition(text: Text, c: Condition, ns: Json): Tri {
    var actual := At(ns, Split(c.field, '.'));
    if c.op == Exists then Holds(actual.Some? == Truthy(c.value))
    else if actual.None? then Unknown
    else
      var a, e := actual.value, c.value;
      match c.op
      case Gt => if IsNum(a) && IsNum(e) then Holds(Number(a) > Number(e)) else Unknown
      case Gte => if IsNum(a) && IsNum(e) then Holds(Number(a) >= Number(e)) else Unknown
      case Lt => if IsNum(a) && IsNum(e) then Holds(Number(a) < Number(e)) else Unknown
      case Lte => if IsNum(a) && IsNum(e) then Holds(Number(a) <= Number(e)) else Unknown
      case Eq => if IsNum(a) != IsNum(e) || a.Str? != e.Str? then Unknown else Holds(Equal(a, e))
      case Ne => if IsNum(a) != IsNum(e) || a.Str? != e.Str? then Unknown else Holds(!Equal(a, e))
      case In => if e.Arr? then Holds(exists x :: x in e.elems && Equal(a, x)) else Unknown
      case NotIn => if e.Arr? then Holds(!exists x :: x in e.elems && Equal(a, x)) else Unknown
      case Glob => if a.Str? && e.Str? then Holds(text.glob(text.lower(a.s), text.lower(e.s))) else Unknown
      case Prefix => if a.Str? && e.Str? then Holds(StartsWith(text.lower(a.s), text.lower(e.s))) else Unknown
      case Contains => if a.Str? && e.Str? then Holds(Occurs(text.lower(e.s), text.lower(a.s))) else Unknown
      case _ => Unknown
  }

  predicate Targets(text: Text, r: Rule, a: Action) {
    text.glob(a.kind, r.kind) && text.glob(a.resource, r.resource)
  }

  /** A rule fires when nothing about it is false and, if it permits, nothing about it is unknown. */
  predicate Fires(text: Text, r: Rule, a: Action, ns: Json) {
    && Targets(text, r, a)
    && (forall j :: 0 <= j < |r.when| ==> EvalCondition(text, r.when[j], ns) != No)
    && (r.decision == Allow ==> forall j :: 0 <= j < |r.when| ==> EvalCondition(text, r.when[j], ns) == Yes)
  }

  method RuleFires(text: Text, r: Rule, a: Action, ns: Json) returns (fires: bool)
    ensures fires == Fires(text, r, a, ns)
  {
    if !text.glob(a.kind, r.kind) {
      return false;
    }
    if !text.glob(a.resource, r.resource) {
      return false;
    }
    var unknown := false;
    for k := 0 to |r.when|
      invariant forall j :: 0 <= j < k ==> EvalCondition(text, r.when[j], ns) != No
      invariant unknown <==> exists j :: 0 <= j < k && EvalCondition(text, r.when[j], ns) == Unknown
    {
      var v := EvalCondition(text, r.when[k], ns);
      if v == No {
        return false;
      }
      if v == Unknown {
        unknown := true;
      }
    }
    return !unknown || r.decision != Allow;
  }

  // ---- Limits ---------------------------------------------------------------------------------------

  predicate OverActions(p: Policy, ctx: EvalContext) {
    p.maxActions.Some? && ctx.actionCount + 1 > p.maxActions.value
  }

  predicate OverTokens(p: Policy, a: Action, ctx: EvalContext) {
    p.budgetTokens.Some? && a.cost.tokens > 0 && ctx.spentTokens + a.cost.tokens > p.budgetTokens.value
  }

  predicate OverAmount(p: Policy, a: Action, ctx: EvalContext) {
    p.budgetAmount.Some? && a.cost.amount > 0.0 && ctx.spentAmount + a.cost.amount > p.budgetAmount.value
  }

  predicate WithinLimits(p: Policy, a: Action, ctx: EvalContext) {
    !OverActions(p, ctx) && !OverTokens(p, a, ctx) && !OverAmount(p, a, ctx)
  }

  function Limits(p: Policy, a: Action, ctx: EvalContext): (d: Option<Decision>)
    ensures d.None? <==> WithinLimits(p, a, ctx)
    ensures d.Some? ==> d.value.effect == Deny
  {
    if OverActions(p, ctx) then
      Some(Decision(Deny, "limit:max_actions", p.id, p.version, "session exceeded its actions", []))
    else if OverTokens(p, a, ctx) then
      Some(Decision(Deny, "budget:tokens", p.id, p.version, "token budget would be exceeded", []))
    else if OverAmount(p, a, ctx) then
      Some(Decision(Deny, "budget:amount", p.id, p.version, "spend budget would be exceeded", []))
    else None
  }

  // ---- Combining rules and policies -----------------------------------------------------------------

  /** Position of the first of the strictest effects: Python's max(..., key=strictness). */
  function FirstStrictest(es: seq<Effect>): (k: nat)
    requires es != []
    ensures k < |es|
    ensures forall i :: 0 <= i < |es| ==> Strictness(es[i]) <= Strictness(es[k])
    ensures forall i :: 0 <= i < k ==> Strictness(es[i]) < Strictness(es[k])
  {
    if |es| == 1 then 0
    else
      var best := FirstStrictest(es[..|es| - 1]);
      if Strictness(es[|es| - 1]) > Strictness(es[best]) then |es| - 1 else best
  }

  /** The rules at the picked positions, in order. */
  function Picked(rules: seq<Rule>, pick: nat -> bool): (fired: seq<Rule>)
    ensures forall i :: 0 <= i < |rules| && pick(i) ==> rules[i] in fired
    ensures forall r :: r in fired ==> exists i :: 0 <= i < |rules| && pick(i) && rules[i] == r
  {
    if rules == [] then []
    else
      var n := |rules| - 1;
      var before := Picked(rules[..n], pick);
      if pick(n) then before + [rules[n]] else before
  }

  function Combine(p: Policy, fired: seq<Rule>): Decision {
    if fired == [] then Decision(Deny, "default-deny", p.id, p.version, "no rule allows this action", [])
    else
      var winner := fired[FirstStrictest(seq(|fired|, i requires 0 <= i < |fired| => fired[i].decision))];
      Decision(winner.decision, winner.id, p.id, p.version, winner.reason,
               seq(|fired|, i requires 0 <= i < |fired| => fired[i].id))
  }

  function EngineFires(text: Text, p: Policy, a: Action, ctx: EvalContext): nat -> bool {
    (i: nat) => i < |p.rules| && Fires(text, p.rules[i], a, Namespace(a, ctx))
  }

  function Evaluate(text: Text, p: Policy, a: Action, ctx: EvalContext): Decision {
    var limited := Limits(p, a, ctx);
    if limited.Some? then limited.value
    else Combine(p, Picked(p.rules, EngineFires(text, p, a, ctx)))
  }

  const NO_POLICY := Decision(Deny, "no-policy", "", 0, "agent has no policy attached (default deny)", [])

  function Effects(text: Text, ps: seq<Policy>, a: Action, ctx: EvalContext): (es: seq<Effect>)
    ensures |es| == |ps| && forall i :: 0 <= i < |ps| ==> es[i] == Evaluate(text, ps[i], a, ctx).effect
  {
    seq(|ps|, i requires 0 <= i < |ps| => Evaluate(text, ps[i], a, ctx).effect)
  }

  function EvaluateAll(text: Text, ps: seq<Policy>, a: Action, ctx: EvalContext): Decision {
    if ps == [] then NO_POLICY
    else Evaluate(text, ps[FirstStrictest(Effects(text, ps, a, ctx))], a, ctx)
  }
}
