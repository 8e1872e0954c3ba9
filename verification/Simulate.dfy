/** Replaying recorded actions against candidate policies, and what a replay of one's own log reports. */
module Simulate {
  import CanonicalJson
  import opened Json
  import opened Model
  import opened Engine
  import opened EngineLaws
  import EngineMeaning
  import Protocol
  import ProtocolInvariant

  // ---- Actions and contexts as JSON -----------------------------------------------------------------

  function ActionToDict(a: Action): Json {
    Obj(map["type" := Str(a.kind), "resource" := Str(a.resource), "params" := Obj(a.params),
            "cost" := Obj(map["tokens" := Int(a.cost.tokens), "amount" := Num(a.cost.amount)])])
  }

  /** Python's int(value) and float(value) on numbers and booleans; int truncates towards zero. */
  function ToInt(j: Json): Option<int> {
    match j
    case Int(i) => Some(i)
    case Bool(b) => Some(if b then 1 else 0)
    case Num(n) => Some(if n >= 0.0 then n.Floor else -(-n).Floor)
    case _ => None
  }

  function ToReal(j: Json): Option<real> {
    match j
    case Int(i) => Some(i as real)
    case Bool(b) => Some(if b then 1.0 else 0.0)
    case Num(n) => Some(n)
    case _ => None
  }

  function Get(fields: map<string, Json>, key: string, default: Json): Json {
    if key in fields then fields[key] else default
  }

  /** value or {} */
  function OrEmpty(j: Json): Json {
    if Truthy(j) then j else Obj(map[])
  }

  /** None when a key is missing or a value has the wrong type. */
  function ActionFromDict(d: map<string, Json>): Option<Action> {
    var cost, params := OrEmpty(Get(d, "cost", Null)), OrEmpty(Get(d, "params", Null));
    if "type" !in d || "resource" !in d || !d["type"].Str? || !d["resource"].Str? || !cost.Obj? || !params.Obj? then None
    else
      var tokens, amount := ToInt(Get(cost.fields, "tokens", Int(0))), ToReal(Get(cost.fields, "amount", Num(0.0)));
      if tokens.None? || amount.None? then None
      else Some(Action(d["type"].s, d["resource"].s, params.fields, Cost(tokens.value, amount.value)))
  }

  function ContextToDict(c: EvalContext): Json {
    Obj(map["agent_id" := Str(c.agentId), "session_id" := Str(c.sessionId), "spent_tokens" := Int(c.spentTokens),
            "spent_amount" := Num(c.spentAmount), "action_count" := Int(c.actionCount)])
  }

  function ContextFromDict(d: map<string, Json>): Option<EvalContext> {
    var session := Get(d, "session_id", Str(""));
    if "agent_id" !in d || !d["agent_id"].Str? || !session.Str? then None
    else
      var tokens, amount, count := ToInt(Get(d, "spent_tokens", Int(0))), ToReal(Get(d, "spent_amount", Num(0.0))),
          ToInt(Get(d, "action_count", Int(0)));
      if tokens.None? || amount.None? || count.None? then None
      else Some(EvalContext(d["agent_id"].s, session.s, tokens.value, amount.value, count.value))
  }

  lemma ActionSurvives(a: Action)
    ensures ActionFromDict(ActionToDict(a).fields) == Some(a)
  {
    var d := ActionToDict(a).fields;
    assert Get(d, "params", Null) == Obj(a.params);
    assert Get(d, "cost", Null).Obj? && "tokens" in Get(d, "cost", Null).fields;
    assert OrEmpty(Get(d, "params", Null)) == Obj(a.params);
  }

  lemma ContextSurvives(c: EvalContext)
    ensures ContextFromDict(ContextToDict(c).fields) == Some(c)
  {
  }

  /** Numbers are read as they are; truth values count as 0 and 1, fractions are cut off towards zero, all else is refused. */
  lemma NumbersAreRead(j: Json)
    ensures ToReal(j) == if EngineMeaning.Numeric(j) then Some(EngineMeaning.Amount(j)) else None
    ensures ToInt(j).Some? <==> EngineMeaning.Numeric(j)
    ensures EngineMeaning.Numeric(j) ==>
              var n, x := ToInt(j).value as real, EngineMeaning.Amount(j);
              if x >= 0.0 then n <= x < n + 1.0 else n - 1.0 < x <= n
  {
  }

  /** What a stored action names directly, if it can be read at all. */
  predicate Names(d: map<string, Json>, kind: string, resource: string) {
    "type" in d && d["type"] == Str(kind) && "resource" in d && d["resource"] == Str(resource)
  }

  /** A part that is missing, or empty in any way, is an empty object; anything else must be one. */
  ghost predicate PartIs(d: map<string, Json>, key: string, part: map<string, Json>) {
    if key in d && Truthy(d[key]) then d[key] == Obj(part) else part == map[]
  }

  /** A number of an object, or the default if it has none. */
  ghost predicate EntryIs(part: map<string, Json>, key: string, default: Json, j: Json) {
    j == if key in part then part[key] else default
  }

  /** A stored action reads as the kind, resource and parameters it names, and costs what it says; nothing if it says nothing. */
  lemma ActionIsRead(d: map<string, Json>, a: Action)
    ensures ActionFromDict(d) == Some(a) <==>
            && Names(d, a.kind, a.resource) && PartIs(d, "params", a.params)
            && exists cost, tokens, amount ::
                 PartIs(d, "cost", cost) && EntryIs(cost, "tokens", Int(0), tokens) && EntryIs(cost, "amount", Num(0.0), amount)
                 && ToInt(tokens) == Some(a.cost.tokens) && ToReal(amount) == Some(a.cost.amount)
  {
    var cost := OrEmpty(Get(d, "cost", Null));
    if cost.Obj? {
      assert PartIs(d, "cost", cost.fields);
      assert EntryIs(cost.fields, "tokens", Int(0), Get(cost.fields, "tokens", Int(0)));
      assert EntryIs(cost.fields, "amount", Num(0.0), Get(cost.fields, "amount", Num(0.0)));
    }
  }

  /** A stored context must name its agent; what else it leaves out is empty or zero. */
  lemma ContextIsRead(d: map<string, Json>, c: EvalContext)
    ensures ContextFromDict(d) == Some(c) <==>
            && "agent_id" in d && d["agent_id"] == Str(c.agentId)
            && EntryIs(d, "session_id", Str(""), Str(c.sessionId))
            && exists tokens, amount, count ::
                 EntryIs(d, "spent_tokens", Int(0), tokens) && EntryIs(d, "spent_amount", Num(0.0), amount)
                 && EntryIs(d, "action_count", Int(0), count) && ToInt(tokens) == Some(c.spentTokens)
                 && ToReal(amount) == Some(c.spentAmount) && ToInt(count) == Some(c.actionCount)
  {
    assert EntryIs(d, "spent_tokens", Int(0), Get(d, "spent_tokens", Int(0)));
    assert EntryIs(d, "spent_amount", Num(0.0), Get(d, "spent_amount", Num(0.0)));
    assert EntryIs(d, "action_count", Int(0), Get(d, "action_count", Int(0)));
  }

  /** Actions with the same digest text are the same action: an approved digest approves one action only. */
  lemma {:induction false} DigestTextTellsActions(fl: CanonicalJson.Floats, a: Action, b: Action)
    requires CanonicalJson.Faithful(fl) && fl.isFloat(a.cost.amount) && fl.isFloat(b.cost.amount)
    requires CanonicalJson.Printable(fl, Obj(a.params)) && CanonicalJson.Printable(fl, Obj(b.params))
    ensures CanonicalJson.Canonical(fl, ActionToDict(a)) == CanonicalJson.Canonical(fl, ActionToDict(b)) <==> a == b
  {
    CanonicalJson.CanonicalIsInjective(fl, ActionToDict(a), ActionToDict(b));
    ActionSurvives(a);
    ActionSurvives(b);
  }

  // ---- The simulator --------------------------------------------------------------------------------

  datatype HistoricalAction = HistoricalAction(
    ref: int, action: Action, context: EvalContext, originalEffect: Effect, originalRule: string)

  datatype Row = Row(
    ref: int, kind: string, resource: string, originalEffect: Effect, originalRule: string,
    effect: Effect, ruleId: string, policyId: string, policyVersion: nat, changed: bool)

  /** One counter per effect: a dictionary with these three keys. */
  datatype Counts = Counts(allow: nat, deny: nat, requireApproval: nat)

  function Bump(c: Counts, e: Effect): Counts {
    match e
    case Allow => c.(allow := c.allow + 1)
    case Deny => c.(deny := c.deny + 1)
    case RequireApproval => c.(requireApproval := c.requireApproval + 1)
  }

  datatype Report = Report(total: nat, changed: nat, would: Counts, results: seq<Row>)

  function Replayed(text: Text, policies: seq<Policy>, h: HistoricalAction): Row {
    var d := EvaluateAll(text, policies, h.action, h.context);
    Row(h.ref, h.action.kind, h.action.resource, h.originalEffect, h.originalRule,
        d.effect, d.ruleId, d.policyId, d.policyVersion, d.effect != h.originalEffect)
  }

  function Tally<T>(xs: seq<T>, p: T -> bool): nat {
    if xs == [] then 0 else Tally(xs[..|xs| - 1], p) + (if p(xs[|xs| - 1]) then 1 else 0)
  }

  /** The policies would decide a recorded action differently. */
  function Moved(text: Text, policies: seq<Policy>): HistoricalAction -> bool {
    (h: HistoricalAction) => EvaluateAll(text, policies, h.action, h.context).effect != h.originalEffect
  }

  predicate Differs(r: Row) {
    r.effect != r.originalEffect
  }

  function Replay(text: Text, policies: seq<Policy>): HistoricalAction -> Row {
    (h: HistoricalAction) => Replayed(text, policies, h)
  }

  function Each<T, U>(f: T -> U, xs: seq<T>): seq<U> {
    if xs == [] then [] else Each(f, xs[..|xs| - 1]) + [f(xs[|xs| - 1])]
  }

  lemma {:induction false} EachAt<T, U>(f: T -> U, xs: seq<T>)
    ensures |Each(f, xs)| == |xs|
    ensures forall i :: 0 <= i < |xs| ==> Each(f, xs)[i] == f(xs[i])
  {
    if xs != [] {
      EachAt(f, xs[..|xs| - 1]);
    }
  }

  /** Counting over images is counting over the things themselves. */
  lemma {:induction false} TallyEach<T, U>(f: T -> U, xs: seq<T>, p: U -> bool, q: T -> bool)
    requires forall i :: 0 <= i < |xs| ==> (p(f(xs[i])) <==> q(xs[i]))
    ensures Tally(Each(f, xs), p) == Tally(xs, q)
  {
    if xs != [] {
      var n := |xs| - 1;
      TallyEach(f, xs[..n], p, q);
      TallySnoc(Each(f, xs[..n]), f(xs[n]), p);
    }
  }

  function Says(e: Effect): Row -> bool {
    (r: Row) => r.effect == e
  }

  lemma {:induction false} TallySnoc<T>(xs: seq<T>, x: T, p: T -> bool)
    ensures Tally(xs + [x], p) == Tally(xs, p) + (if p(x) then 1 else 0)
  {
    assert (xs + [x])[..|xs|] == xs;
  }

  /** Counters per effect agree with the rows so far, and together count every row. */
  ghost predicate Counted(c: Counts, rows: seq<Row>) {
    && c.allow == Tally(rows, Says(Allow)) && c.deny == Tally(rows, Says(Deny))
    && c.requireApproval == Tally(rows, Says(RequireApproval))
    && |rows| == c.allow + c.deny + c.requireApproval
  }

  lemma CountRow(c: Counts, rows: seq<Row>, row: Row)
    requires Counted(c, rows)
    ensures Counted(Bump(c, row.effect), rows + [row])
  {
    TallySnoc(rows, row, Says(Allow));
    TallySnoc(rows, row, Says(Deny));
    TallySnoc(rows, row, Says(RequireApproval));
  }

  /** The row repeats what was recorded, says what the policies decide now, and whether that is something else. */
  ghost predicate Reports(text: Text, policies: seq<Policy>, h: HistoricalAction, r: Row) {
    && r.ref == h.ref && r.kind == h.action.kind && r.resource == h.action.resource
    && r.originalEffect == h.originalEffect && r.originalRule == h.originalRule
    && var d := EvaluateAll(text, policies, h.action, h.context);
       && r.effect == d.effect && r.ruleId == d.ruleId && r.policyId == d.policyId && r.policyVersion == d.policyVersion
       && (r.changed <==> d.effect != h.originalEffect)
  }

  method Simulate(text: Text, policies: seq<Policy>, history: seq<HistoricalAction>) returns (report: Report)
    ensures |report.results| == |history| == report.total
    ensures forall i :: 0 <= i < |history| ==> report.results[i] == Replay(text, policies)(history[i])
    ensures forall i :: 0 <= i < |history| ==> Reports(text, policies, history[i], report.results[i])
    ensures report.changed == Tally(history, Moved(text, policies))
    ensures Counted(report.would, report.results)
  {
    report := Collect(text, policies, history);
    EachAt(Replay(text, policies), history);
    TallyEach(Replay(text, policies), history, Differs, Moved(text, policies));
  }

  /** The loop: rows, changes and counters accumulate together. */
  method Collect(text: Text, policies: seq<Policy>, history: seq<HistoricalAction>) returns (report: Report)
    ensures report.results == Each(Replay(text, policies), history) && report.total == |report.results|
    ensures report.changed == Tally(report.results, Differs)
    ensures Counted(report.would, report.results)
  {
    var rows: seq<Row>, changed: nat, counts := [], 0, Counts(0, 0, 0);
    for n := 0 to |history|
      invariant rows == Each(Replay(text, policies), history[..n])
      invariant changed == Tally(rows, Differs)
      invariant Counted(counts, rows)
    {
      var row := Replayed(text, policies, history[n]);
      assert history[..n + 1][..n] == history[..n];
      CountRow(counts, rows, row);
      TallySnoc(rows, row, Differs);
      counts := Bump(counts, row.effect);
      changed := changed + (if row.changed then 1 else 0);
      rows := rows + [row];
    }
    assert history[..|history|] == history;
    report := Report(|rows|, changed, counts, rows);
  }

  // ---- History from the audit log -------------------------------------------------------------------

  /** A stored action.decided row: its payload and the columns the simulator reads. */
  datatype Stored = Stored(id: int, payload: map<string, Json>, effect: Effect, ruleId: string)

  /** Refusals and truncated payloads are skipped; anything else unreadable raises. */
  datatype Reading = Skipped | Loaded(item: HistoricalAction) | Malformed

  function Read(r: Stored): Reading {
    if "action" !in r.payload then Skipped
    else if !r.payload["action"].Obj? || "type" !in r.payload["action"].fields then Skipped
    else if "context" !in r.payload || !r.payload["context"].Obj? then Malformed
    else
      var a, c := ActionFromDict(r.payload["action"].fields), ContextFromDict(r.payload["context"].fields);
      if a.None? || c.None? then Malformed
      else Loaded(HistoricalAction(r.id, a.value, c.value, r.effect, r.ruleId))
  }

  /** The row holds an action that says what it is. */
  predicate HoldsAction(r: Stored) {
    "action" in r.payload && r.payload["action"].Obj? && "type" in r.payload["action"].fields
  }

  /** Rows without an action are skipped; of the others those with a readable action and context are loaded as recorded. */
  lemma RowsAreSorted(r: Stored, a: Action, c: EvalContext)
    ensures Read(r) == Skipped <==> !HoldsAction(r)
    ensures Read(r) == Loaded(HistoricalAction(r.id, a, c, r.effect, r.ruleId)) <==>
            && HoldsAction(r) && ActionFromDict(r.payload["action"].fields) == Some(a)
            && "context" in r.payload && r.payload["context"].Obj? && ContextFromDict(r.payload["context"].fields) == Some(c)
  {
  }

  function Readings(rows: seq<Stored>): seq<Reading> {
    seq(|rows|, i requires 0 <= i < |rows| => Read(rows[i]))
  }

  function Loads(readings: seq<Reading>): seq<HistoricalAction> {
    if readings == [] then []
    else
      var n := |readings| - 1;
      Loads(readings[..n]) + (if readings[n].Loaded? then [readings[n].item] else [])
  }

  predicate IsSkipped(r: Reading) {
    r.Skipped?
  }

  method BuildHistory(rows: seq<Stored>) returns (hist: seq<HistoricalAction>, skipped: nat, ok: bool)
    ensures ok <==> forall i :: 0 <= i < |rows| ==> !Read(rows[i]).Malformed?
    ensures ok ==> hist == Loads(Readings(rows)) && skipped == Tally(Readings(rows), IsSkipped)
  {
    hist, skipped := [], 0;
    ghost var all := Readings(rows);
    for n := 0 to |rows|
      invariant forall i :: 0 <= i < n ==> !Read(rows[i]).Malformed?
      invariant hist == Loads(all[..n]) && skipped == Tally(all[..n], IsSkipped)
    {
      assert all[..n + 1][..n] == all[..n];
      var reading := Read(rows[n]);
      assert all[n] == reading;
      if reading.Malformed? {
        return hist, skipped, false;
      } else if reading.Skipped? {
        skipped := skipped + 1;
      } else {
        hist := hist + [reading.item];
      }
    }
    assert all[..|rows|] == all;
    ok := true;
  }

  // ---- What the broker records ----------------------------------------------------------------------

  /** What rows carry besides the protocol's own data, and how payloads print: None if they do not. */
  datatype Wire = Wire(
    id: nat -> int, callId: nat -> string, tool: nat -> string, args: nat -> Json, context: nat -> EvalContext,
    size: Json -> Option<nat>, preview: Json -> string)

  function Shortened(w: Wire, value: Json, limit: nat): Json {
    match w.size(value)
    case None => Obj(map["unserializable" := Bool(true)])
    case Some(n) => if n <= limit then value else Obj(map["truncated" := Bool(true), "preview" := Str(w.preview(value))])
  }

  function EffectText(e: Effect): string {
    match e
    case Allow => "allow"
    case Deny => "deny"
    case RequireApproval => "require-approval"
  }

  function DecisionToDict(d: Decision): Json {
    Obj(map["effect" := Str(EffectText(d.effect)), "rule_id" := Str(d.ruleId), "policy_id" := Str(d.policyId),
            "policy_version" := Int(d.policyVersion), "reason" := Str(d.reason),
            "matched_rules" := Arr(seq(|d.matched|, i requires 0 <= i < |d.matched| => Str(d.matched[i])))])
  }

  predicate Decides(row: Protocol.Row) {
    row.Decided? || row.Refused?
  }

  function StoredRow(w: Wire, p: nat, row: Protocol.Row): Stored
    requires Decides(row)
  {
    match row
    case Decided(_, action, digest, ctx, decision, _) =>
      Stored(w.id(p),
             map["call_id" := Str(w.callId(p)), "tool" := Str(w.tool(p)), "action" := Shortened(w, ActionToDict(action), 8000),
                 "action_digest" := Str(digest), "context" := ContextToDict(ctx), "decision" := DecisionToDict(decision)],
             decision.effect, decision.ruleId)
    case Refused(rule) =>
      Stored(w.id(p),
             map["call_id" := Str(w.callId(p)), "tool" := Str(w.tool(p)), "args" := Shortened(w, w.args(p), 2000),
                 "context" := ContextToDict(w.context(p)), "decision" := DecisionToDict(Decision(Deny, rule, "", 0, "", []))],
             Deny, rule)
  }

  /** No part of a decision is lost on its way into a row. */
  lemma DecisionTextTellsDecisions(d: Decision, e: Decision)
    ensures DecisionToDict(d) == DecisionToDict(e) <==> d == e
  {
    if DecisionToDict(d) == DecisionToDict(e) {
      var f, g := DecisionToDict(d).fields, DecisionToDict(e).fields;
      assert f["effect"] == g["effect"] && f["rule_id"] == g["rule_id"] && f["policy_id"] == g["policy_id"];
      assert f["policy_version"] == g["policy_version"] && f["reason"] == g["reason"];
      var xs, ys := f["matched_rules"].elems, g["matched_rules"].elems;
      assert xs == ys;
      assert forall i :: 0 <= i < |d.matched| ==> xs[i] == Str(d.matched[i]);
      assert forall i :: 0 <= i < |e.matched| ==> ys[i] == Str(e.matched[i]);
      assert d.matched == e.matched;
    }
  }

  /** A row says which call and tool it is about and carries the decision; an action too long for it, only its beginning. */
  lemma RowTells(w: Wire, p: nat, row: Protocol.Row)
    requires Decides(row)
    ensures var r := StoredRow(w, p, row);
            && r.id == w.id(p) && {"call_id", "tool", "context", "decision"} <= r.payload.Keys
            && r.payload["call_id"] == Str(w.callId(p)) && r.payload["tool"] == Str(w.tool(p))
            && (row.Decided? ==>
                  && {"action", "action_digest"} <= r.payload.Keys && r.payload["action_digest"] == Str(row.digest)
                  && r.payload["decision"] == DecisionToDict(row.decision) && r.payload["context"] == ContextToDict(row.ctx)
                  && r.effect == row.decision.effect && r.ruleId == row.decision.ruleId
                  && (r.payload["action"] == ActionToDict(row.action) <==> Whole(w, row)))
            && (row.Refused? ==> "action" !in r.payload && r.effect == Deny && r.ruleId == row.ruleId)
  {
    if row.Decided? && !Whole(w, row) {
      assert "type" in ActionToDict(row.action).fields;
      assert "type" !in Shortened(w, ActionToDict(row.action), 8000).fields;
    }
  }

  /** The action was short enough to be recorded whole. */
  predicate Whole(w: Wire, row: Protocol.Row) {
    row.Decided? && w.size(ActionToDict(row.action)).Some? && w.size(ActionToDict(row.action)).value <= 8000
  }

  /** Reading back a recorded decision gives the action, the context and the effect it was made with, or skips it. */
  lemma ReadBack(w: Wire, p: nat, row: Protocol.Row)
    requires Decides(row)
    ensures Read(StoredRow(w, p, row)) ==
            if Whole(w, row)
            then Loaded(HistoricalAction(w.id(p), row.action, row.ctx, row.decision.effect, row.decision.ruleId))
            else Skipped
  {
    if row.Decided? {
      ActionSurvives(row.action);
      ContextSurvives(row.ctx);
    }
  }

  // ---- Replaying one's own log ----------------------------------------------------------------------

  /** A recorded decision whose effect was not the engine's: the harness overrode it with a denial. */
  predicate Overridden(text: Text, policies: seq<Policy>, row: Protocol.Row) {
    row.Decided? && !row.byEngine && EvaluateAll(text, policies, row.action, row.ctx).effect != Deny
  }

  function Altered(cfg: Protocol.Config, w: Wire, audit: seq<Protocol.Row>): nat -> bool {
    (p: nat) => p < |audit| && Whole(w, audit[p]) && Overridden(cfg.text, cfg.policies, audit[p])
  }

  ghost predicate Selects(audit: seq<Protocol.Row>, ps: seq<nat>) {
    forall i :: 0 <= i < |ps| ==> ps[i] < |audit| && Decides(audit[ps[i]])
  }

  function Selected(w: Wire, audit: seq<Protocol.Row>, ps: seq<nat>): seq<Stored>
    requires Selects(audit, ps)
  {
    seq(|ps|, i requires 0 <= i < |ps| => StoredRow(w, ps[i], audit[ps[i]]))
  }

  /** A row of a protocol run changes under its own policies exactly if the harness overrode the engine. */
  lemma {:induction false} RowReplays(cfg: Protocol.Config, events: seq<Protocol.Event>, w: Wire, p: nat)
    requires var audit := Protocol.Run(cfg, events).audit; p < |audit| && Whole(w, audit[p])
    ensures var row := Protocol.Run(cfg, events).audit[p];
            var h := HistoricalAction(w.id(p), row.action, row.ctx, row.decision.effect, row.decision.ruleId);
            Moved(cfg.text, cfg.policies)(h) <==> Overridden(cfg.text, cfg.policies, row)
  {
    var s := Protocol.Run(cfg, events);
    ProtocolInvariant.RunKeeps(cfg, events);
    assert ProtocolInvariant.LogOk(s, p);
    ProtocolInvariant.InvHere(cfg, s, s.audit[p].call);
  }

  lemma {:induction false} SelectedRow(cfg: Protocol.Config, events: seq<Protocol.Event>, w: Wire, p: nat)
    requires var audit := Protocol.Run(cfg, events).audit; p < |audit| && Decides(audit[p])
    ensures var audit := Protocol.Run(cfg, events).audit;
            var reading := Read(StoredRow(w, p, audit[p]));
            && !reading.Malformed?
            && (reading.Loaded? && Moved(cfg.text, cfg.policies)(reading.item) <==> Altered(cfg, w, audit)(p))
  {
    var audit := Protocol.Run(cfg, events).audit;
    ReadBack(w, p, audit[p]);
    if Whole(w, audit[p]) {
      RowReplays(cfg, events, w, p);
    }
  }

  /** If rows move exactly where the log says so, they are counted exactly so. */
  lemma {:induction false} TallyHistory(rs: seq<Reading>, ps: seq<nat>, moved: HistoricalAction -> bool, altered: nat -> bool)
    requires |rs| == |ps|
    requires forall i :: 0 <= i < |ps| ==> !rs[i].Malformed? && (rs[i].Loaded? && moved(rs[i].item) <==> altered(ps[i]))
    ensures Tally(Loads(rs), moved) == Tally(ps, altered)
    ensures |Loads(rs)| + Tally(rs, IsSkipped) == |rs|
  {
    if ps != [] {
      var n := |ps| - 1;
      TallyHistory(rs[..n], ps[..n], moved, altered);
      if rs[n].Loaded? {
        TallySnoc(Loads(rs[..n]), rs[n].item, moved);
      } else {
        assert Loads(rs) == Loads(rs[..n]);
      }
    }
  }

  /**
   * Simulating a session's own policies over any selection of its recorded decisions: the rows reported as
   * changed are exactly the whole ones the harness overrode, and every row is replayed or counted as skipped.
   */
  lemma {:induction false} ReplayFidelity(cfg: Protocol.Config, events: seq<Protocol.Event>, w: Wire, ps: seq<nat>)
    requires Selects(Protocol.Run(cfg, events).audit, ps)
    ensures var audit := Protocol.Run(cfg, events).audit;
            var rs := Readings(Selected(w, audit, ps));
            && (forall i :: 0 <= i < |rs| ==> !rs[i].Malformed?)
            && Tally(Loads(rs), Moved(cfg.text, cfg.policies)) == Tally(ps, Altered(cfg, w, audit))
            && |Loads(rs)| + Tally(rs, IsSkipped) == |ps|
  {
    var audit := Protocol.Run(cfg, events).audit;
    var rs, moved, altered := Readings(Selected(w, audit, ps)), Moved(cfg.text, cfg.policies), Altered(cfg, w, audit);
    forall i | 0 <= i < |ps|
      ensures !rs[i].Malformed? && (rs[i].Loaded? && moved(rs[i].item) <==> altered(ps[i]))
    {
      SelectedRow(cfg, events, w, ps[i]);
    }
    TallyHistory(rs, ps, moved, altered);
  }

  lemma {:induction false} NoneTallied<T>(xs: seq<T>, p: T -> bool)
    ensures Tally(xs, p) == 0 <==> forall i :: 0 <= i < |xs| ==> !p(xs[i])
  {
    if xs != [] {
      NoneTallied(xs[..|xs| - 1], p);
    }
  }

  /** Nothing changes exactly when no recorded decision was overridden; engine decisions never change. */
  lemma {:induction false} OwnPoliciesChangeNothing(cfg: Protocol.Config, events: seq<Protocol.Event>, w: Wire, ps: seq<nat>)
    requires Selects(Protocol.Run(cfg, events).audit, ps)
    ensures var audit := Protocol.Run(cfg, events).audit;
            Tally(Loads(Readings(Selected(w, audit, ps))), Moved(cfg.text, cfg.policies)) == 0
            <==> forall i :: 0 <= i < |ps| && Whole(w, audit[ps[i]]) ==> !Overridden(cfg.text, cfg.policies, audit[ps[i]])
  {
    var audit := Protocol.Run(cfg, events).audit;
    ReplayFidelity(cfg, events, w, ps);
    NoneTallied(ps, Altered(cfg, w, audit));
  }

  // ---- Documents instead of stored versions ---------------------------------------------------------

  /** The same policies but for their versions. */
  ghost predicate SameButVersions(ps: seq<Policy>, qs: seq<Policy>) {
    |ps| == |qs| && forall i :: 0 <= i < |ps| ==> ps[i] == qs[i].(version := ps[i].version)
  }

  lemma VersionIsNotJudged(text: Text, p: Policy, version: nat, a: Action, ctx: EvalContext)
    ensures Evaluate(text, p.(version := version), a, ctx).effect == Evaluate(text, p, a, ctx).effect
  {
    OrderIrrelevant(text, p.(version := version), p, a, ctx);
  }

  lemma NoStricter(text: Text, ps: seq<Policy>, qs: seq<Policy>, a: Action, ctx: EvalContext)
    requires ps != [] && SameButVersions(ps, qs)
    ensures Strictness(EvaluateAll(text, ps, a, ctx).effect) <= Strictness(EvaluateAll(text, qs, a, ctx).effect)
  {
    AllStrictest(text, ps, a, ctx);
    AllStrictest(text, qs, a, ctx);
    var i :| 0 <= i < |ps| && Evaluate(text, ps[i], a, ctx) == EvaluateAll(text, ps, a, ctx);
    VersionIsNotJudged(text, qs[i], ps[i].version, a, ctx);
  }

  /** Simulating policy documents, which have no version, gives the effects of the stored versions they became. */
  lemma VersionsDoNotMatter(text: Text, ps: seq<Policy>, qs: seq<Policy>, h: HistoricalAction)
    requires SameButVersions(ps, qs)
    ensures Moved(text, ps)(h) == Moved(text, qs)(h)
  {
    if ps != [] {
      assert SameButVersions(qs, ps);
      NoStricter(text, ps, qs, h.action, h.context);
      NoStricter(text, qs, ps, h.action, h.context);
    }
  }
}
