/** Which requests are accepted, what their actions say, and what they are priced at. */
module ToolLaws {
  import opened Json
  import opened Model
  import opened Engine
  import opened EngineLaws
  import opened Tools

  /** Text that is not blank and not longer than allowed. */
  predicate TextUpTo(lib: Library, args: map<string, Json>, key: string, length: nat) {
    key in args && args[key].Str? && !lib.blank(args[key].s) && |args[key].s| <= length
  }

  // ---- Transfers ------------------------------------------------------------------------------------

  predicate GoodTransfer(lib: Library, args: map<string, Json>) {
    && (forall k :: k in args ==> k == "to" || k == "amount" || k == "currency")
    && TextUpTo(lib, args, "to", 256) && lib.canon(args["to"].s).Some?
    && "amount" in args && (args["amount"].Int? || args["amount"].Num?)
    && 0.0 < Number(args["amount"]) <= 1000000000.0
    && ("currency" in args ==>
          args["currency"] == Str("USD") || args["currency"] == Str("EUR") || args["currency"] == Str("GBP") || args["currency"] == Str("INR"))
  }

  /** A transfer is accepted exactly if its arguments are good; its action names the payee and costs the amount. */
  lemma TransferBuilt(lib: Library, args: map<string, Json>)
    ensures Build(lib, Transfer(args)).Some? <==> GoodTransfer(lib, args)
    ensures GoodTransfer(lib, args) ==>
              var a := Build(lib, Transfer(args)).value;
              && a.kind == "payment.transfer" && lib.canon(args["to"].s) == Some(a.resource)
              && a.params.Keys == {"amount", "currency"} && a.params["amount"] == args["amount"]
              && a.params["currency"] == (if "currency" in args then args["currency"] else Str("USD"))
              && a.cost.tokens == 0 && a.cost.amount == Number(args["amount"])
  {
    assert args.Keys <= {"to", "amount", "currency"} <==> forall k :: k in args ==> k == "to" || k == "amount" || k == "currency";
  }

  // ---- Completions ----------------------------------------------------------------------------------

  predicate GoodCompletion(lib: Library, args: map<string, Json>) {
    && (forall k :: k in args ==> k == "prompt" || k == "max_tokens")
    && TextUpTo(lib, args, "prompt", 32000) && lib.canon("llm").Some?
    && ("max_tokens" in args ==> args["max_tokens"].Int? && 1 <= args["max_tokens"].i <= 2048)
  }

  /** The answer length asked for. */
  function Asked(lib: Library, args: map<string, Json>): int
    requires GoodCompletion(lib, args)
  {
    if "max_tokens" in args then args["max_tokens"].i else 256
  }

  lemma CompletionBuilt(lib: Library, args: map<string, Json>)
    ensures Build(lib, Complete(args)).Some? <==> GoodCompletion(lib, args)
    ensures GoodCompletion(lib, args) ==>
              var a := Build(lib, Complete(args)).value;
              && a.kind == "llm.complete" && lib.canon("llm") == Some(a.resource)
              && a.params.Keys == {"prompt", "max_tokens"} && a.params["prompt"] == args["prompt"]
              && a.params["max_tokens"] == Int(Asked(lib, args)) && a.cost.amount == 0.0
  {
    assert args.Keys <= {"prompt", "max_tokens"} <==> forall k :: k in args ==> k == "prompt" || k == "max_tokens";
  }

  /** A completion is priced at the longest answer asked for plus a token for every full four characters, at least one. */
  lemma CompletionPrice(lib: Library, args: map<string, Json>)
    requires Build(lib, Complete(args)).Some?
    ensures GoodCompletion(lib, args)
    ensures var m, n, tokens := Asked(lib, args), |args["prompt"].s|, Build(lib, Complete(args)).value.cost.tokens;
            && tokens > m
            && (if n >= 4 then 4 * (tokens - m) <= n < 4 * (tokens - m) + 4 else tokens == m + 1)
  {
    CompletionBuilt(lib, args);
  }

  /** However long the prompt: a completion whose answer alone would reach what is left of some token budget is denied. */
  lemma LongAnswersAreDenied(lib: Library, args: map<string, Json>, text: Text, ps: seq<Policy>, p: Policy, ctx: EvalContext)
    requires Build(lib, Complete(args)).Some? && GoodCompletion(lib, args)
    requires p in ps && p.budgetTokens.Some? && ctx.spentTokens + Asked(lib, args) >= p.budgetTokens.value
    ensures EvaluateAll(text, ps, Build(lib, Complete(args)).value, ctx).effect == Deny
  {
    CompletionPrice(lib, args);
    OverLimitIsDenied(text, ps, p, Build(lib, Complete(args)).value, ctx);
  }

  // ---- Plain tools ----------------------------------------------------------------------------------

  /** A plain tool's action names the canonical target, carries its parameters and is free. */
  lemma PlainBuilt(lib: Library, tool: PlainTool, target: Option<string>, params: map<string, Json>)
    ensures Build(lib, Plain(tool, target, params)).Some? <==> target.Some? && lib.canon(target.value).Some?
    ensures Build(lib, Plain(tool, target, params)).Some? ==>
              var a := Build(lib, Plain(tool, target, params)).value;
              && lib.canon(target.value) == Some(a.resource) && a.params == params && a.cost == Cost(0, 0.0)
              && (tool == DataRead ==> a.kind == "data.read") && (tool == DataExport ==> a.kind == "data.export")
              && (tool == TicketCreate ==> a.kind == "ticket.create") && (tool == HttpGet ==> a.kind == "network.request")
              && (tool == ProductionModify ==> a.kind == "production.modify")
              && (tool == ProductionDelete ==> a.kind == "production.delete")
  {
  }

  /** Only completions cost tokens, and all of them do; only transfers cost money, and all of them do. */
  lemma WhatCostsWhat(lib: Library, req: Request)
    requires Build(lib, req).Some?
    ensures Build(lib, req).value.cost.tokens > 0 <==> req.Complete?
    ensures Build(lib, req).value.cost.amount > 0.0 <==> req.Transfer?
    ensures Build(lib, req).value.cost.tokens >= 0 && Build(lib, req).value.cost.amount >= 0.0
  {
  }
}
