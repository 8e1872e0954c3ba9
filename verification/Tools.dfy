/** How raw arguments become a priced action, and what an action moves when it executes. */
module Tools {
  import opened Json
  import opened Model

  /** Library functions on agent-supplied text: resource canonicalisation (None: refused) and blankness. */
  datatype Library = Library(canon: string -> Option<string>, blank: string -> bool)

  datatype PlainTool = DataRead | DataExport | TicketCreate | ProductionModify | ProductionDelete | HttpGet

  /** A call after its tool was found. Plain tools check their own arguments and never carry a cost. */
  datatype Request =
    | Transfer(args: map<string, Json>)
    | Complete(args: map<string, Json>)
    | Plain(tool: PlainTool, target: Option<string>, params: map<string, Json>)

  function KindOf(t: PlainTool): string {
    match t
    case DataRead => "data.read"
    case DataExport => "data.export"
    case TicketCreate => "ticket.create"
    case ProductionModify => "production.modify"
    case ProductionDelete => "production.delete"
    case HttpGet => "network.request"
  }

  predicate ValidText(lib: Library, args: map<string, Json>, key: string, maxlen: nat) {
    key in args && args[key].Str? && !lib.blank(args[key].s) && |args[key].s| <= maxlen
  }

  const CURRENCIES := {"USD", "EUR", "GBP", "INR"}
  const PAYMENT_KIND := "payment.transfer"

  function BuildTransfer(lib: Library, args: map<string, Json>): Option<Action> {
    if !(args.Keys <= {"to", "amount", "currency"}) then None
    else if "amount" !in args || !IsNum(args["amount"]) then None
    else if Number(args["amount"]) <= 0.0 || Number(args["amount"]) > 1000000000.0 then None
    else
      var currency := if "currency" in args then args["currency"] else Str("USD");
      if !currency.Str? || currency.s !in CURRENCIES || !ValidText(lib, args, "to", 256) then None
      else match lib.canon(args["to"].s)
        case None => None
        case Some(to) =>
          Some(Action(PAYMENT_KIND, to, map["amount" := args["amount"], "currency" := currency],
                      Cost(0, Number(args["amount"]))))
  }

  function EstimateTokens(prompt: string): nat {
    if |prompt| / 4 < 1 then 1 else |prompt| / 4
  }

  function BuildComplete(lib: Library, args: map<string, Json>): Option<Action> {
    var limit := if "max_tokens" in args then args["max_tokens"] else Int(256);
    if !(args.Keys <= {"prompt", "max_tokens"}) || !ValidText(lib, args, "prompt", 32000) then None
    else if !limit.Int? || limit.i < 1 || limit.i > 2048 then None
    else match lib.canon("llm")
      case None => None
      case Some(r) =>
        Some(Action("llm.complete", r, map["prompt" := args["prompt"], "max_tokens" := limit],
                    Cost(EstimateTokens(args["prompt"].s) + limit.i, 0.0)))
  }

  /** The canonical action of a request, or None when the tool rejects its arguments. */
  function Build(lib: Library, req: Request): Option<Action> {
    match req
    case Transfer(args) => BuildTransfer(lib, args)
    case Complete(args) => BuildComplete(lib, args)
    case Plain(tool, target, params) =>
      if target.None? then None
      else match lib.canon(target.value)
        case None => None
        case Some(r) => Some(Action(KindOf(tool), r, params, Cost(0, 0.0)))
  }

  /** What executing the action appends to the payment ledger: the amount parameter of a transfer. */
  function Moves(a: Action): seq<real> {
    if a.kind == PAYMENT_KIND && "amount" in a.params && IsNum(a.params["amount"])
    then [Number(a.params["amount"])]
    else []
  }

  /** The price the engine checks is the amount the ledger will move; nothing is free of charge but zero. */
  lemma PricedAsMoved(lib: Library, req: Request)
    requires Build(lib, req).Some?
    ensures var a := Build(lib, req).value;
            && a.cost.amount >= 0.0 && a.cost.tokens >= 0
            && Moves(a) == (if req.Transfer? then [a.cost.amount] else [])
  {
    if req.Plain? {
      var k := KindOf(req.tool);
      assert k[0] != 'p' || k[1] != 'a';
    } else if req.Complete? {
      assert "llm.complete"[0] != PAYMENT_KIND[0];
    }
  }
}
