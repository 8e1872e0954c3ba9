/** Plain data shared by the engine, the broker and the simulator. */
module Model {
  import opened Json

  datatype Option<+T> = None | Some(value: T)

  datatype Effect = Allow | RequireApproval | Deny

  /** The order in which effects prevail over each other. */
  function Strictness(e: Effect): nat {
    match e
    case Allow => 0
    case RequireApproval => 1
    case Deny => 2
  }

  datatype Cost = Cost(tokens: int, amount: real)

  datatype Action = Action(kind: string, resource: string, params: map<string, Json>, cost: Cost)

  datatype EvalContext = EvalContext(
    agentId: string, sessionId: string, spentTokens: int, spentAmount: real, actionCount: int)

  datatype Op =
    | Eq | Ne | Gt | Gte | Lt | Lte | In | NotIn | Glob | Prefix | Contains | Exists
    | Unrecognised

  datatype Condition = Condition(field: string, op: Op, value: Json)

  datatype Rule = Rule(
    id: string, decision: Effect, kind: string, resource: string, when: seq<Condition>, reason: string)

  datatype Policy = Policy(
    id: string, rules: seq<Rule>, version: nat,
    budgetTokens: Option<int>, budgetAmount: Option<real>, maxActions: Option<int>, scope: seq<string>)

  datatype Decision = Decision(
    effect: Effect, ruleId: string, policyId: string, policyVersion: nat, reason: string, matched: seq<string>)

  /** Library text functions the engine calls, left abstract: shell globbing and str.lower. */
  datatype Text = Text(glob: (string, string) -> bool, lower: string -> string)
}
