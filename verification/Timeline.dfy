/** The console's fold of a session's audit stream into calls, and who the session is waiting for. */
module Timeline {
  import opened Model
  import opened Sorting

  datatype Kind = Decided | Executed | Failed | Requested | Resolved | Progress | Session | Other

  datatype AuditEvent = AuditEvent(
    id: int, kind: Kind, ts: string, effect: Option<Effect>,
    callId: Option<string>, digest: Option<string>, approvalId: Option<string>)

  datatype Approval = Approval(requested: AuditEvent, resolved: Option<AuditEvent>)

  datatype CallItem = CallItem(
    callId: string, decided: AuditEvent, approval: Option<Approval>, outcome: Option<AuditEvent>)

  /** Call items are shared objects: a timeline item and the two maps refer to them by cell. */
  datatype Item = CallRef(cell: nat) | ProgressItem(event: AuditEvent) | LifecycleItem(event: AuditEvent)

  datatype Folded = Folded(
    cells: seq<CallItem>,
    order: seq<string>,            // keys of byCall in insertion order
    byCall: map<string, nat>,
    byApproval: map<string, nat>,
    items: seq<Item>)

  const EMPTY := Folded([], [], map[], map[], [])

  datatype FrozenInfo = FrozenInfo(approvalId: string, callId: string, since: string)

  // ---- One event ------------------------------------------------------------------------------------

  /** The name of a call: its id, or one made from the row when there is none. */
  function NameOf(e: AuditEvent, name: int -> string): string {
    if e.callId.Some? then e.callId.value else name(e.id)
  }

  predicate WantsApproval(c: CallItem, digest: Option<string>) {
    c.approval.None? && c.decided.effect == Some(RequireApproval) && c.decided.digest == digest
  }

  /** The most recently inserted of the first k calls that still wants an approval of this digest. */
  function Target(t: Folded, digest: Option<string>, k: nat): Option<nat>
    requires k <= |t.order|
  {
    if k == 0 then None
    else if t.order[k - 1] in t.byCall && t.byCall[t.order[k - 1]] < |t.cells|
            && WantsApproval(t.cells[t.byCall[t.order[k - 1]]], digest)
    then Some(t.byCall[t.order[k - 1]])
    else Target(t, digest, k - 1)
  }

  function WithCell(t: Folded, c: nat, item: CallItem): Folded
    requires c < |t.cells|
  {
    t.(cells := t.cells[c := item])
  }

  function OnDecided(t: Folded, e: AuditEvent, name: int -> string): Folded {
    var key, cell := NameOf(e, name), |t.cells|;
    t.(cells := t.cells + [CallItem(key, e, None, None)],
       order := if key in t.byCall then t.order else t.order + [key],
       byCall := t.byCall[key := cell],
       items := t.items + [CallRef(cell)])
  }

  function OnOutcome(t: Folded, e: AuditEvent): Folded {
    if e.callId.Some? && e.callId.value != "" && e.callId.value in t.byCall && t.byCall[e.callId.value] < |t.cells|
    then
      var c := t.byCall[e.callId.value];
      WithCell(t, c, t.cells[c].(outcome := Some(e)))
    else t
  }

  function OnRequested(t: Folded, e: AuditEvent): Folded {
    var target := Target(t, e.digest, |t.order|);
    if target.Some? && target.value < |t.cells| && e.approvalId.Some? && e.approvalId.value != ""
    then
      var c := target.value;
      WithCell(t, c, t.cells[c].(approval := Some(Approval(e, None)))).(
        byApproval := t.byApproval[e.approvalId.value := c])
    else t
  }

  function OnResolved(t: Folded, e: AuditEvent): Folded {
    if e.approvalId.Some? && e.approvalId.value in t.byApproval && t.byApproval[e.approvalId.value] < |t.cells|
       && t.cells[t.byApproval[e.approvalId.value]].approval.Some?
    then
      var c := t.byApproval[e.approvalId.value];
      WithCell(t, c, t.cells[c].(approval := Some(t.cells[c].approval.value.(resolved := Some(e)))))
    else t
  }

  function Absorb(t: Folded, e: AuditEvent, name: int -> string): Folded {
    match e.kind
    case Decided => OnDecided(t, e, name)
    case Executed => OnOutcome(t, e)
    case Failed => OnOutcome(t, e)
    case Requested => OnRequested(t, e)
    case Resolved => OnResolved(t, e)
    case Progress => t.(items := t.items + [ProgressItem(e)])
    case Session => t.(items := t.items + [LifecycleItem(e)])
    case Other => t
  }

  function Fold(log: seq<AuditEvent>, name: int -> string): Folded {
    if log == [] then EMPTY else Absorb(Fold(log[..|log| - 1], name), log[|log| - 1], name)
  }

  predicate Open(t: Folded, key: string) {
    && key in t.byCall && t.byCall[key] < |t.cells|
    && t.cells[t.byCall[key]].approval.Some? && t.cells[t.byCall[key]].approval.value.resolved.None?
  }

  function InfoOf(t: Folded, key: string): FrozenInfo
    requires Open(t, key)
  {
    var c := t.cells[t.byCall[key]];
    var r := c.approval.value.requested;
    FrozenInfo(if r.approvalId.Some? then r.approvalId.value else "", c.callId, r.ts)
  }

  // ---- The console's loops --------------------------------------------------------------------------

  function IdOf(e: AuditEvent): int {
    e.id
  }

  method FindTarget(t: Folded, digest: Option<string>) returns (found: Option<nat>)
    ensures found == Target(t, digest, |t.order|)
  {
    var k := |t.order|;
    while k > 0
      invariant 0 <= k <= |t.order|
      invariant Target(t, digest, k) == Target(t, digest, |t.order|)
    {
      var key := t.order[k - 1];
      if key in t.byCall && t.byCall[key] < |t.cells| && WantsApproval(t.cells[t.byCall[key]], digest) {
        return Some(t.byCall[key]);
      }
      k := k - 1;
    }
    return None;
  }

  method BuildTimeline(events: seq<AuditEvent>, name: int -> string)
    returns (t: Folded, frozen: Option<FrozenInfo>)
    ensures t == Fold(SortBy(IdOf, events), name)
    ensures frozen.Some? <==> exists k :: 0 <= k < |t.order| && Open(t, t.order[k])
    ensures frozen.Some? ==> exists k :: 0 <= k < |t.order| && Open(t, t.order[k]) && frozen.value == InfoOf(t, t.order[k])
                                         && forall j :: k < j < |t.order| ==> !Open(t, t.order[j])
  {
    var sorted := SortBy(IdOf, events);
    t := EMPTY;
    for n := 0 to |sorted|
      invariant t == Fold(sorted[..n], name)
    {
      var e := sorted[n];
      assert sorted[..n + 1][..n] == sorted[..n];
      match e.kind {
        case Decided =>
          var key, cell := NameOf(e, name), |t.cells|;
          t := t.(cells := t.cells + [CallItem(key, e, None, None)],
                  order := if key in t.byCall then t.order else t.order + [key],
                  byCall := t.byCall[key := cell],
                  items := t.items + [CallRef(cell)]);
        case Executed => t := OnOutcome(t, e);
        case Failed => t := OnOutcome(t, e);
        case Requested =>
          var target := FindTarget(t, e.digest);
          if target.Some? && target.value < |t.cells| && e.approvalId.Some? && e.approvalId.value != "" {
            var c := target.value;
            t := t.(cells := t.cells[c := t.cells[c].(approval := Some(Approval(e, None)))],
                    byApproval := t.byApproval[e.approvalId.value := c]);
          }
        case Resolved => t := OnResolved(t, e);
        case Progress => t := t.(items := t.items + [ProgressItem(e)]);
        case Session => t := t.(items := t.items + [LifecycleItem(e)]);
        case Other =>
      }
    }
    assert sorted[..|sorted|] == sorted;
    frozen := LastOpen(t);
  }

  /** The last call in insertion order that still waits. */
  method LastOpen(t: Folded) returns (frozen: Option<FrozenInfo>)
    ensures frozen.Some? <==> exists k :: 0 <= k < |t.order| && Open(t, t.order[k])
    ensures frozen.Some? ==> exists k :: 0 <= k < |t.order| && Open(t, t.order[k]) && frozen.value == InfoOf(t, t.order[k])
                                         && forall j :: k < j < |t.order| ==> !Open(t, t.order[j])
  {
    frozen := None;
    for k := 0 to |t.order|
      invariant frozen.Some? <==> exists j :: 0 <= j < k && Open(t, t.order[j])
      invariant frozen.Some? ==> exists j :: 0 <= j < k && Open(t, t.order[j]) && frozen.value == InfoOf(t, t.order[j])
                                             && forall i :: j < i < k ==> !Open(t, t.order[i])
    {
      if Open(t, t.order[k]) {
        frozen := Some(InfoOf(t, t.order[k]));
      }
    }
  }

  /** The call at position k of the order wants an approval of this digest. */
  ghost predicate WantsAt(t: Folded, digest: Option<string>, k: int) {
    && 0 <= k < |t.order| && t.order[k] in t.byCall && t.byCall[t.order[k]] < |t.cells|
    && WantsApproval(t.cells[t.byCall[t.order[k]]], digest)
  }

  /** The search from the end finds the most recent call that wants an approval of the digest, and nothing only if none does. */
  lemma {:induction false} TargetIsMostRecent(t: Folded, digest: Option<string>, n: nat)
    requires n <= |t.order|
    ensures match Target(t, digest, n)
            case None => forall k :: 0 <= k < n ==> !WantsAt(t, digest, k)
            case Some(c) => exists k :: 0 <= k < n && WantsAt(t, digest, k) && t.byCall[t.order[k]] == c
                                        && forall j :: k < j < n ==> !WantsAt(t, digest, j)
  {
    if n > 0 {
      if WantsAt(t, digest, n - 1) {
        assert Target(t, digest, n) == Some(t.byCall[t.order[n - 1]]);
      } else {
        TargetIsMostRecent(t, digest, n - 1);
      }
    }
  }

  // ---- What the broker emits ------------------------------------------------------------------------

  predicate AsksAt(log: seq<AuditEvent>, i: nat) {
    i < |log| && log[i].kind == Decided && log[i].effect == Some(RequireApproval)
  }

  predicate RequestAt(log: seq<AuditEvent>, p: nat) {
    p < |log| && log[p].kind == Requested
  }

  predicate ResolvedAt(log: seq<AuditEvent>, p: nat, aid: Option<string>) {
    p < |log| && log[p].kind == Resolved && log[p].approvalId == aid
  }

  /** Every request names its approval, asks for a decision made before it, and no two share either. */
  ghost predicate RequestOk(log: seq<AuditEvent>, own: nat -> nat, p: nat)
    requires RequestAt(log, p)
  {
    && log[p].approvalId.Some? && log[p].approvalId.value != ""
    && own(p) < p && AsksAt(log, own(p)) && log[own(p)].digest == log[p].digest
    && (forall q: nat :: RequestAt(log, q) && q != p ==> log[q].approvalId != log[p].approvalId && own(q) != own(p))
    && (forall r: nat :: ResolvedAt(log, r, log[p].approvalId) ==> p < r)
  }

  /** Decisions carry a call id, and an id that asked for approval is not decided again. */
  ghost predicate DecisionOk(log: seq<AuditEvent>, i: nat) {
    AsksAt(log, i) ==>
      && log[i].callId.Some?
      && forall j :: i < j < |log| && log[j].kind == Decided ==> log[j].callId.Some? && log[j].callId != log[i].callId
  }

  ghost predicate Emitted(log: seq<AuditEvent>, own: nat -> nat) {
    && (forall p: nat :: RequestAt(log, p) ==> RequestOk(log, own, p))
    && (forall i: nat :: DecisionOk(log, i))
  }

  /** A request in the log that no later row resolves. */
  ghost predicate Unanswered(log: seq<AuditEvent>, p: nat) {
    RequestAt(log, p) && forall r: nat :: !ResolvedAt(log, r, log[p].approvalId)
  }

  // ---- What the fold knows after a prefix -----------------------------------------------------------

  /** Cell of the decision at position i: decisions fill cells in order. */
  ghost function CellOf(log: seq<AuditEvent>, i: nat): nat
    requires i <= |log|
  {
    if i == 0 then 0 else CellOf(log, i - 1) + (if log[i - 1].kind == Decided then 1 else 0)
  }

  /** The call asked about at position i is listed under its id. */
  ghost predicate Listed(log: seq<AuditEvent>, t: Folded, i: nat) {
    AsksAt(log, i) && log[i].callId.Some? ==>
      && CellOf(log, i) < |t.cells| && t.cells[CellOf(log, i)].decided == log[i]
      && log[i].callId.value in t.byCall && t.byCall[log[i].callId.value] == CellOf(log, i)
      && log[i].callId.value in t.order
  }

  /** Cell c is what some position below n asked for. */
  ghost predicate Asked(log: seq<AuditEvent>, n: nat, c: nat) {
    exists i: nat :: i < n && AsksAt(log, i) && CellOf(log, i) == c
  }

  /** The request at position p found a call, and has been resolved or not as the prefix says. */
  ghost predicate Attached(log: seq<AuditEvent>, n: nat, t: Folded, p: nat)
    requires RequestAt(log, p) && log[p].approvalId.Some?
  {
    && log[p].approvalId.value in t.byApproval
    && var c := t.byApproval[log[p].approvalId.value];
    && c < |t.cells| && Asked(log, n, c)
    && t.cells[c].approval.Some? && t.cells[c].approval.value.requested == log[p]
    && t.cells[c].decided.digest == log[p].digest
    && (t.cells[c].approval.value.resolved.Some? <==> exists r: nat :: r < n && ResolvedAt(log, r, log[p].approvalId))
  }

  /** An approval shown on a cell came from a request in the prefix that is attached to it. */
  ghost predicate Sourced(log: seq<AuditEvent>, n: nat, t: Folded, c: nat)
    requires c < |t.cells|
  {
    t.cells[c].approval.Some? ==>
      exists p: nat :: p < n && RequestAt(log, p) && log[p].approvalId.Some?
                       && log[p].approvalId.value in t.byApproval && t.byApproval[log[p].approvalId.value] == c
                       && t.cells[c].approval.value.requested == log[p]
  }

  ghost predicate Known(log: seq<AuditEvent>, n: nat, key: string) {
    exists p: nat :: p < n && RequestAt(log, p) && log[p].approvalId == Some(key)
  }

  ghost predicate Tracks(log: seq<AuditEvent>, n: nat, t: Folded)
    requires n <= |log|
  {
    && |t.cells| == CellOf(log, n)
    && (forall k :: 0 <= k < |t.order| ==> t.order[k] in t.byCall && t.byCall[t.order[k]] < |t.cells|)
    && (forall key :: key in t.byCall ==> key in t.order)
    && (forall i: nat :: i < n ==> Listed(log, t, i))
    && (forall p: nat :: p < n && RequestAt(log, p) ==> log[p].approvalId.Some? && Attached(log, n, t, p))
    && (forall c: nat :: c < |t.cells| ==> Sourced(log, n, t, c))
    && (forall key :: key in t.byApproval ==> Known(log, n, key))
    && (forall c: nat :: c < |t.cells| && t.cells[c].decided.effect == Some(RequireApproval) ==> Asked(log, n, c))
  }

  lemma {:induction false} CellOfGrows(log: seq<AuditEvent>, i: nat, j: nat)
    requires i <= j <= |log|
    ensures CellOf(log, i) <= CellOf(log, j)
    ensures i < j && log[i].kind == Decided ==> CellOf(log, i) < CellOf(log, j)
    decreases j
  {
    if i < j {
      CellOfGrows(log, i, j - 1);
    }
  }

  lemma AskedGrows(log: seq<AuditEvent>, n: nat, c: nat)
    ensures Asked(log, n, c) ==> Asked(log, n + 1, c)
  {
  }

  /** Unless a resolution was read, an attachment stays as long as its cell and its key do. */
  lemma AttachedStays(log: seq<AuditEvent>, n: nat, t: Folded, t': Folded, p: nat)
    requires n < |log| && log[n].kind != Resolved
    requires RequestAt(log, p) && log[p].approvalId.Some? && Attached(log, n, t, p)
    requires var key := log[p].approvalId.value;
             key in t'.byApproval && t'.byApproval[key] == t.byApproval[key]
    requires var c := t.byApproval[log[p].approvalId.value];
             c < |t'.cells| && t'.cells[c].approval == t.cells[c].approval && t'.cells[c].decided == t.cells[c].decided
    ensures Attached(log, n + 1, t', p)
  {
    AskedGrows(log, n, t.byApproval[log[p].approvalId.value]);
  }

  /** So does the source of a cell's approval. */
  lemma SourcedStays(log: seq<AuditEvent>, n: nat, t: Folded, t': Folded, c: nat)
    requires c < |t.cells| && Sourced(log, n, t, c) && c < |t'.cells| && t'.cells[c].approval == t.cells[c].approval
    requires forall key :: key in t.byApproval && t.byApproval[key] == c ==> key in t'.byApproval && t'.byApproval[key] == c
    ensures Sourced(log, n + 1, t', c)
  {
    if t.cells[c].approval.Some? {
      var p := SourceOf(log, n, t, c);
    }
  }

  /** The request an occupied cell got its approval from. */
  ghost function SourceOf(log: seq<AuditEvent>, n: nat, t: Folded, c: nat): (p: nat)
    requires c < |t.cells| && t.cells[c].approval.Some? && Sourced(log, n, t, c)
    ensures p < n && RequestAt(log, p) && log[p].approvalId.Some?
    ensures log[p].approvalId.value in t.byApproval && t.byApproval[log[p].approvalId.value] == c
    ensures t.cells[c].approval.value.requested == log[p]
  {
    var p: nat :| p < n && RequestAt(log, p) && log[p].approvalId.Some?
                  && log[p].approvalId.value in t.byApproval && t.byApproval[log[p].approvalId.value] == c
                  && t.cells[c].approval.value.requested == log[p];
    p
  }

  lemma {:induction false} DecidedListed(log: seq<AuditEvent>, n: nat, t: Folded, name: int -> string, i: nat)
    requires n < |log| && log[n].kind == Decided && i < n + 1 && |t.cells| == CellOf(log, n) && DecisionOk(log, i)
    requires (i < n ==> Listed(log, t, i)) && forall key :: key in t.byCall ==> key in t.order
    ensures Listed(log, OnDecided(t, log[n], name), i)
  {
    if i < n && AsksAt(log, i) {
      assert log[n].callId != log[i].callId;
    }
  }

  lemma {:induction false} DecidedCell(log: seq<AuditEvent>, n: nat, t: Folded, name: int -> string, c: nat)
    requires n < |log| && log[n].kind == Decided && |t.cells| == CellOf(log, n) && c < |t.cells| + 1
    requires c < |t.cells| ==> Sourced(log, n, t, c) && (t.cells[c].decided.effect == Some(RequireApproval) ==> Asked(log, n, c))
    ensures var t' := OnDecided(t, log[n], name);
            && Sourced(log, n + 1, t', c)
            && (t'.cells[c].decided.effect == Some(RequireApproval) ==> Asked(log, n + 1, c))
  {
    var t' := OnDecided(t, log[n], name);
    if c < |t.cells| {
      SourcedStays(log, n, t, t', c);
      AskedGrows(log, n, c);
    } else if t'.cells[c].decided.effect == Some(RequireApproval) {
      assert AsksAt(log, n) && CellOf(log, n) == c;
    }
  }

  lemma DecidedTracks(log: seq<AuditEvent>, own: nat -> nat, n: nat, t: Folded, name: int -> string)
    requires Emitted(log, own) && n < |log| && Tracks(log, n, t) && log[n].kind == Decided
    ensures Tracks(log, n + 1, OnDecided(t, log[n], name))
  {
    var t' := OnDecided(t, log[n], name);
    forall i: nat | i < n + 1
      ensures Listed(log, t', i)
    {
      DecidedListed(log, n, t, name, i);
    }
    forall c: nat | c < |t'.cells|
      ensures Sourced(log, n + 1, t', c)
      ensures t'.cells[c].decided.effect == Some(RequireApproval) ==> Asked(log, n + 1, c)
    {
      DecidedCell(log, n, t, name, c);
    }
    forall p: nat | p < n + 1 && RequestAt(log, p)
      ensures log[p].approvalId.Some? && Attached(log, n + 1, t', p)
    {
      AttachedStays(log, n, t, t', p);
    }
    KnownGrows(log, n, t);
  }

  lemma KnownGrows(log: seq<AuditEvent>, n: nat, t: Folded)
    requires forall key :: key in t.byApproval ==> Known(log, n, key)
    ensures forall key :: key in t.byApproval ==> Known(log, n + 1, key)
  {
    forall key | key in t.byApproval
      ensures Known(log, n + 1, key)
    {
      assert Known(log, n, key);
    }
  }

  /** Rows that decide, request and resolve nothing change nothing that is tracked. */
  lemma QuietTracks(log: seq<AuditEvent>, n: nat, t: Folded, t': Folded)
    requires n < |log| && Tracks(log, n, t)
    requires log[n].kind != Decided && log[n].kind != Requested && log[n].kind != Resolved
    requires |t'.cells| == |t.cells| && t'.order == t.order && t'.byCall == t.byCall && t'.byApproval == t.byApproval
    requires forall c :: 0 <= c < |t.cells| ==> t'.cells[c].decided == t.cells[c].decided && t'.cells[c].approval == t.cells[c].approval
    ensures Tracks(log, n + 1, t')
  {
    forall i: nat | i < n + 1
      ensures Listed(log, t', i)
    {
      assert i < n ==> Listed(log, t, i);
    }
    forall c: nat | c < |t'.cells|
      ensures Sourced(log, n + 1, t', c)
      ensures t'.cells[c].decided.effect == Some(RequireApproval) ==> Asked(log, n + 1, c)
    {
      SourcedStays(log, n, t, t', c);
      AskedGrows(log, n, c);
    }
    forall p: nat | p < n + 1 && RequestAt(log, p)
      ensures log[p].approvalId.Some? && Attached(log, n + 1, t', p)
    {
      AttachedStays(log, n, t, t', p);
    }
    KnownGrows(log, n, t);
  }

  // ---- A request always finds its call --------------------------------------------------------------

  lemma {:induction false} InjectionBound(xs: set<nat>, ys: set<nat>, f: map<nat, nat>)
    requires f.Keys == xs && (forall x :: x in xs ==> f[x] in ys)
    requires forall x, x' :: x in xs && x' in xs && x != x' ==> f[x] != f[x']
    ensures |xs| <= |ys|
  {
    if xs != {} {
      var x :| x in xs;
      var g := map y | y in xs - {x} :: f[y];
      InjectionBound(xs - {x}, ys - {f[x]}, g);
    }
  }

  ghost function Asking(log: seq<AuditEvent>, n: nat, digest: Option<string>): set<nat>
    requires n <= |log|
  {
    set i: nat | i < n && AsksAt(log, i) && log[i].digest == digest
  }

  ghost function Requesting(log: seq<AuditEvent>, n: nat, digest: Option<string>): set<nat>
    requires n <= |log|
  {
    set p: nat | p < n && RequestAt(log, p) && log[p].digest == digest
  }

  /** One more call has asked than has been requested for: the request at n brings its own. */
  lemma MoreAskedThanRequested(log: seq<AuditEvent>, own: nat -> nat, n: nat)
    requires Emitted(log, own) && RequestAt(log, n)
    ensures |Requesting(log, n, log[n].digest)| + 1 <= |Asking(log, n, log[n].digest)|
  {
    var d := log[n].digest;
    var requests := Requesting(log, n, d) + {n};
    var f := map p | p in requests :: own(p);
    forall p | p in requests
      ensures f[p] in Asking(log, n, d)
    {
      assert RequestOk(log, own, p);
    }
    forall p, q | p in requests && q in requests && p != q
      ensures f[p] != f[q]
    {
      assert RequestOk(log, own, p);
    }
    InjectionBound(requests, Asking(log, n, d), f);
  }

  ghost predicate Free(log: seq<AuditEvent>, t: Folded, i: nat, digest: Option<string>) {
    && AsksAt(log, i) && log[i].digest == digest
    && CellOf(log, i) < |t.cells| && t.cells[CellOf(log, i)].approval.None?
  }

  /** So some call that asked with this digest has no approval yet, even if many share the digest. */
  lemma FreeCall(log: seq<AuditEvent>, own: nat -> nat, n: nat, t: Folded)
    requires Emitted(log, own) && RequestAt(log, n) && Tracks(log, n, t)
    ensures exists i: nat :: i < n && Free(log, t, i, log[n].digest)
  {
    var d := log[n].digest;
    var asking := Asking(log, n, d);
    forall i | i in asking
      ensures CellOf(log, i) < |t.cells| && t.cells[CellOf(log, i)].decided == log[i]
    {
      assert Listed(log, t, i) && DecisionOk(log, i);
    }
    if forall i: nat :: i < n ==> !Free(log, t, i, d) {
      forall i | i in asking
        ensures t.cells[CellOf(log, i)].approval.Some?
      {
        assert !Free(log, t, i, d);
      }
      Occupied(log, n, t, d);
      MoreAskedThanRequested(log, own, n);
    }
  }

  lemma {:induction false} Occupied(log: seq<AuditEvent>, n: nat, t: Folded, d: Option<string>)
    requires n <= |log| && Tracks(log, n, t)
    requires forall i :: i in Asking(log, n, d) ==>
               CellOf(log, i) < |t.cells| && t.cells[CellOf(log, i)].decided == log[i]
               && t.cells[CellOf(log, i)].approval.Some?
    ensures |Asking(log, n, d)| <= |Requesting(log, n, d)|
  {
    var asking := Asking(log, n, d);
    forall i | i in asking
      ensures Sourced(log, n, t, CellOf(log, i))
    {
    }
    var f := map i | i in asking :: SourceOf(log, n, t, CellOf(log, i));
    forall i | i in asking
      ensures f[i] in Requesting(log, n, d)
    {
      assert Attached(log, n, t, f[i]);
    }
    forall i, j | i in asking && j in asking && i != j
      ensures f[i] != f[j]
    {
      if i < j {
        CellOfGrows(log, i, j);
      } else {
        CellOfGrows(log, j, i);
      }
    }
    InjectionBound(asking, Requesting(log, n, d), f);
  }

  lemma {:induction false} TargetFound(t: Folded, digest: Option<string>, k: nat, j: nat)
    requires j < k <= |t.order| && t.order[j] in t.byCall && t.byCall[t.order[j]] < |t.cells|
    requires WantsApproval(t.cells[t.byCall[t.order[j]]], digest)
    ensures var c := Target(t, digest, k);
            c.Some? && c.value < |t.cells| && WantsApproval(t.cells[c.value], digest)
  {
    if j < k - 1 {
      TargetFound(t, digest, k - 1, j);
    }
  }

  lemma {:induction false} RequestFindsCall(log: seq<AuditEvent>, own: nat -> nat, n: nat, t: Folded)
    requires Emitted(log, own) && RequestAt(log, n) && Tracks(log, n, t)
    ensures var c := Target(t, log[n].digest, |t.order|);
            c.Some? && c.value < |t.cells| && WantsApproval(t.cells[c.value], log[n].digest)
  {
    FreeCall(log, own, n, t);
    var i: nat :| i < n && Free(log, t, i, log[n].digest);
    assert Listed(log, t, i) && DecisionOk(log, i);
    var j :| 0 <= j < |t.order| && t.order[j] == log[i].callId.value;
    TargetFound(t, log[n].digest, |t.order|, j);
  }

  /** A request is attached to the call it found, and leaves earlier attachments alone. */
  lemma {:induction false} RequestedAttached(log: seq<AuditEvent>, own: nat -> nat, n: nat, t: Folded, p: nat)
    requires Emitted(log, own) && n < |log| && Tracks(log, n, t) && log[n].kind == Requested
    requires p < n + 1 && RequestAt(log, p)
    requires var c := Target(t, log[n].digest, |t.order|);
             c.Some? && c.value < |t.cells| && WantsApproval(t.cells[c.value], log[n].digest)
    ensures log[p].approvalId.Some? && Attached(log, n + 1, OnRequested(t, log[n]), p)
  {
    assert RequestOk(log, own, n);
    if p < n {
      assert Attached(log, n, t, p) && log[p].approvalId != log[n].approvalId;
      AttachedStays(log, n, t, OnRequested(t, log[n]), p);
    } else {
      AskedGrows(log, n, Target(t, log[n].digest, |t.order|).value);
    }
  }

  lemma {:induction false} RequestedCell(log: seq<AuditEvent>, own: nat -> nat, n: nat, t: Folded, c0: nat, c: nat)
    requires Emitted(log, own) && RequestAt(log, n) && RequestOk(log, own, n)
    requires Target(t, log[n].digest, |t.order|) == Some(c0) && c0 < |t.cells| && WantsApproval(t.cells[c0], log[n].digest)
    requires c < |t.cells| && Sourced(log, n, t, c)
    requires forall key :: key in t.byApproval ==> Known(log, n, key)
    ensures Sourced(log, n + 1, OnRequested(t, log[n]), c)
  {
    var t' := OnRequested(t, log[n]);
    if c != c0 {
      assert !Known(log, n, log[n].approvalId.value);
      SourcedStays(log, n, t, t', c);
    } else {
      assert RequestAt(log, n) && t'.cells[c].approval.value.requested == log[n];
    }
  }

  lemma RequestedTracks(log: seq<AuditEvent>, own: nat -> nat, n: nat, t: Folded)
    requires Emitted(log, own) && n < |log| && Tracks(log, n, t) && log[n].kind == Requested
    ensures Tracks(log, n + 1, OnRequested(t, log[n]))
  {
    assert RequestOk(log, own, n);
    RequestFindsCall(log, own, n, t);
    var t' := OnRequested(t, log[n]);
    forall i: nat | i < n + 1
      ensures Listed(log, t', i)
    {
      assert i < n ==> Listed(log, t, i);
    }
    forall c: nat | c < |t'.cells|
      ensures Sourced(log, n + 1, t', c)
      ensures t'.cells[c].decided.effect == Some(RequireApproval) ==> Asked(log, n + 1, c)
    {
      RequestedCell(log, own, n, t, Target(t, log[n].digest, |t.order|).value, c);
      AskedGrows(log, n, c);
    }
    forall p: nat | p < n + 1 && RequestAt(log, p)
      ensures log[p].approvalId.Some? && Attached(log, n + 1, t', p)
    {
      RequestedAttached(log, own, n, t, p);
    }
    KnownGrows(log, n, t);
  }

  lemma {:induction false} ResolvedHere(log: seq<AuditEvent>, n: nat, t: Folded, p: nat)
    requires n < |log| && log[n].kind == Resolved && p < n && RequestAt(log, p)
    requires log[p].approvalId.Some? && log[n].approvalId == log[p].approvalId && Attached(log, n, t, p)
    ensures Attached(log, n + 1, OnResolved(t, log[n]), p)
  {
    AskedGrows(log, n, t.byApproval[log[p].approvalId.value]);
    assert ResolvedAt(log, n, log[p].approvalId);
  }

  lemma {:induction false} ResolvedNotHere(log: seq<AuditEvent>, n: nat, t: Folded, t': Folded, p: nat)
    requires n < |log| && p < n && RequestAt(log, p) && log[p].approvalId.Some? && Attached(log, n, t, p)
    requires log[n].approvalId != log[p].approvalId && t'.byApproval == t.byApproval && |t'.cells| == |t.cells|
    requires var c := t.byApproval[log[p].approvalId.value]; t'.cells[c] == t.cells[c]
    ensures Attached(log, n + 1, t', p)
  {
    AskedGrows(log, n, t.byApproval[log[p].approvalId.value]);
    assert forall r: nat :: r < n + 1 && ResolvedAt(log, r, log[p].approvalId) ==> r < n;
  }

  /** A resolution settles the request of its own approval and no other. */
  lemma ResolvedAttached(log: seq<AuditEvent>, own: nat -> nat, n: nat, t: Folded, p: nat)
    requires Emitted(log, own) && n < |log| && Tracks(log, n, t) && log[n].kind == Resolved
    requires p < n && RequestAt(log, p)
    ensures log[p].approvalId.Some? && Attached(log, n + 1, OnResolved(t, log[n]), p)
  {
    assert Attached(log, n, t, p);
    if log[n].approvalId == log[p].approvalId {
      ResolvedHere(log, n, t, p);
    } else {
      ResolvedElsewhere(log, n, t, p);
      ResolvedNotHere(log, n, t, OnResolved(t, log[n]), p);
    }
  }

  /** The cell of another approval is another cell, and stays as it is. */
  lemma {:induction false} ResolvedElsewhere(log: seq<AuditEvent>, n: nat, t: Folded, p: nat)
    requires n < |log| && Tracks(log, n, t) && log[n].kind == Resolved
    requires p < n && RequestAt(log, p) && log[p].approvalId.Some? && log[n].approvalId != log[p].approvalId
    ensures var c := t.byApproval[log[p].approvalId.value]; OnResolved(t, log[n]).cells[c] == t.cells[c]
  {
    assert Attached(log, n, t, p);
    if log[n].approvalId.Some? && log[n].approvalId.value in t.byApproval {
      assert Known(log, n, log[n].approvalId.value);
      var q: nat :| q < n && RequestAt(log, q) && log[q].approvalId == log[n].approvalId;
      assert Attached(log, n, t, q);
    }
  }

  lemma ResolvedSourced(log: seq<AuditEvent>, n: nat, t: Folded, c: nat)
    requires n < |log| && Tracks(log, n, t) && log[n].kind == Resolved && c < |t.cells|
    ensures var t' := OnResolved(t, log[n]);
            && c < |t'.cells| && Sourced(log, n + 1, t', c)
            && (t'.cells[c].decided.effect == Some(RequireApproval) ==> Asked(log, n + 1, c))
  {
    assert Sourced(log, n, t, c);
  }

  lemma {:induction false} ResolvedListed(log: seq<AuditEvent>, n: nat, t: Folded, i: nat)
    requires n < |log| && log[n].kind == Resolved && i < n + 1 && (i < n ==> Listed(log, t, i))
    ensures Listed(log, OnResolved(t, log[n]), i)
  {
  }

  lemma {:induction false} ResolvedTracks(log: seq<AuditEvent>, own: nat -> nat, n: nat, t: Folded)
    requires Emitted(log, own) && n < |log| && Tracks(log, n, t) && log[n].kind == Resolved
    ensures Tracks(log, n + 1, OnResolved(t, log[n]))
  {
    var t' := OnResolved(t, log[n]);
    forall i: nat | i < n + 1
      ensures Listed(log, t', i)
    {
      ResolvedListed(log, n, t, i);
    }
    forall c: nat | c < |t'.cells|
      ensures Sourced(log, n + 1, t', c)
      ensures t'.cells[c].decided.effect == Some(RequireApproval) ==> Asked(log, n + 1, c)
    {
      ResolvedSourced(log, n, t, c);
    }
    forall p: nat | p < n + 1 && RequestAt(log, p)
      ensures log[p].approvalId.Some? && Attached(log, n + 1, t', p)
    {
      ResolvedAttached(log, own, n, t, p);
    }
    KnownGrows(log, n, t);
  }

  lemma AbsorbTracks(log: seq<AuditEvent>, own: nat -> nat, n: nat, t: Folded, name: int -> string)
    requires Emitted(log, own) && n < |log| && Tracks(log, n, t)
    ensures Tracks(log, n + 1, Absorb(t, log[n], name))
  {
    match log[n].kind
    case Decided => DecidedTracks(log, own, n, t, name);
    case Requested => RequestedTracks(log, own, n, t);
    case Resolved => ResolvedTracks(log, own, n, t);
    case _ => QuietTracks(log, n, t, Absorb(t, log[n], name));
  }

  lemma NothingTracks(log: seq<AuditEvent>)
    ensures Tracks(log, 0, EMPTY)
  {
  }

  lemma {:induction false} FoldTracks(log: seq<AuditEvent>, own: nat -> nat, n: nat, name: int -> string)
    requires Emitted(log, own) && n <= |log|
    ensures Tracks(log, n, Fold(log[..n], name))
  {
    if n == 0 {
      NothingTracks(log);
    } else {
      FoldTracks(log, own, n - 1, name);
      AbsorbTracks(log, own, n - 1, Fold(log[..n - 1], name), name);
      assert log[..n][..n - 1] == log[..n - 1];
    }
  }

  lemma OpenIsUnanswered(log: seq<AuditEvent>, t: Folded, key: string)
    requires Tracks(log, |log|, t) && Open(t, key)
    ensures exists p: nat :: Unanswered(log, p)
  {
    var p := OpenRequest(log, t, key);
  }

  lemma UnansweredIsOpen(log: seq<AuditEvent>, own: nat -> nat, t: Folded, p: nat) returns (k: nat)
    requires Emitted(log, own) && Tracks(log, |log|, t) && Unanswered(log, p)
    ensures k < |t.order| && Open(t, t.order[k])
  {
    var n := |log|;
    assert Attached(log, n, t, p);
    var c := t.byApproval[log[p].approvalId.value];
    var i: nat :| i < n && AsksAt(log, i) && CellOf(log, i) == c;
    assert Listed(log, t, i) && DecisionOk(log, i);
    k :| 0 <= k < |t.order| && t.order[k] == log[i].callId.value;
  }

  ghost predicate SomeOpen(t: Folded) {
    exists k :: 0 <= k < |t.order| && Open(t, t.order[k])
  }

  lemma {:induction false} OpenIff(log: seq<AuditEvent>, own: nat -> nat, t: Folded)
    requires Emitted(log, own) && Tracks(log, |log|, t)
    ensures SomeOpen(t) <==> exists p: nat :: Unanswered(log, p)
  {
    if k :| 0 <= k < |t.order| && Open(t, t.order[k]) {
      OpenIsUnanswered(log, t, t.order[k]);
    }
    if p: nat :| Unanswered(log, p) {
      var k := UnansweredIsOpen(log, own, t, p);
    }
  }

  /** The console shows a frozen call exactly when some approval request in the log has no resolution. */
  lemma {:induction false} FrozenIffUnanswered(log: seq<AuditEvent>, own: nat -> nat, name: int -> string)
    requires Emitted(log, own)
    ensures var t := Fold(log, name);
            (exists k :: 0 <= k < |t.order| && Open(t, t.order[k])) <==> exists p: nat :: Unanswered(log, p)
  {
    FoldTracks(log, own, |log|, name);
    assert log[..|log|] == log;
    OpenIff(log, own, Fold(log, name));
    assert SomeOpen(Fold(log, name)) <==> exists p: nat :: Unanswered(log, p);
  }

  lemma NewCellIsNamed(t: Folded, e: AuditEvent, name: int -> string, c: nat)
    requires c < |Absorb(t, e, name).cells|
    ensures var k := Absorb(t, e, name).cells[c];
            if c < |t.cells| then k.callId == t.cells[c].callId && k.decided == t.cells[c].decided
            else k.callId == NameOf(k.decided, name)
  {
  }

  lemma {:induction false} CellsAreNamed(log: seq<AuditEvent>, name: int -> string, c: nat)
    requires c < |Fold(log, name).cells|
    ensures Fold(log, name).cells[c].callId == NameOf(Fold(log, name).cells[c].decided, name)
  {
    var n := |log| - 1;
    NewCellIsNamed(Fold(log[..n], name), log[n], name, c);
    if c < |Fold(log[..n], name).cells| {
      CellsAreNamed(log[..n], name, c);
    }
  }

  /** What the console shows as frozen: an unanswered request, since when, and a call of the digest it asks about. */
  ghost predicate Shows(log: seq<AuditEvent>, info: FrozenInfo, p: nat, i: nat) {
    && Unanswered(log, p) && AsksAt(log, i) && log[i].digest == log[p].digest
    && log[p].approvalId == Some(info.approvalId) && log[p].ts == info.since && log[i].callId == Some(info.callId)
  }

  lemma OpenRequest(log: seq<AuditEvent>, t: Folded, key: string) returns (p: nat)
    requires Tracks(log, |log|, t) && Open(t, key)
    ensures Unanswered(log, p) && log[p].approvalId == Some(InfoOf(t, key).approvalId) && log[p].ts == InfoOf(t, key).since
    ensures Asked(log, |log|, t.byCall[key]) && t.cells[t.byCall[key]].decided.digest == log[p].digest
  {
    var n, c := |log|, t.byCall[key];
    assert Sourced(log, n, t, c);
    p := SourceOf(log, n, t, c);
    assert Attached(log, n, t, p);
    assert Unanswered(log, p);
  }

  lemma CallAsked(log: seq<AuditEvent>, own: nat -> nat, t: Folded, c: nat) returns (i: nat)
    requires Emitted(log, own) && Tracks(log, |log|, t) && Asked(log, |log|, c)
    ensures AsksAt(log, i) && log[i].callId.Some? && c < |t.cells| && t.cells[c].decided == log[i]
  {
    i :| i < |log| && AsksAt(log, i) && CellOf(log, i) == c;
    assert Listed(log, t, i) && DecisionOk(log, i);
  }

  lemma {:induction false} FrozenNamesTheRequest(log: seq<AuditEvent>, own: nat -> nat, name: int -> string, key: string)
    requires Emitted(log, own) && Open(Fold(log, name), key)
    ensures exists p: nat, i: nat :: Shows(log, InfoOf(Fold(log, name), key), p, i)
  {
    var t := Fold(log, name);
    FoldTracks(log, own, |log|, name);
    assert log[..|log|] == log;
    var p := OpenRequest(log, t, key);
    var i := CallAsked(log, own, t, t.byCall[key]);
    CellsAreNamed(log, name, t.byCall[key]);
    assert Shows(log, InfoOf(t, key), p, i);
  }

  /** A row that does not say what it is about: an outcome without a call, a request or resolution without an approval. */
  predicate Nameless(e: AuditEvent) {
    || ((e.kind == Executed || e.kind == Failed) && (e.callId == None || e.callId == Some("")))
    || (e.kind == Requested && (e.approvalId == None || e.approvalId == Some("")))
    || (e.kind == Resolved && e.approvalId == None)
    || e.kind == Other
  }

  lemma {:induction false} NamelessIsIgnored(t: Folded, e: AuditEvent, name: int -> string)
    requires Nameless(e)
    ensures Absorb(t, e, name) == t
  {
  }

  /** Such rows, and rows of other kinds, change nothing on the console. */
  lemma {:induction false} NamelessRowsAreIgnored(log: seq<AuditEvent>, e: AuditEvent, name: int -> string)
    requires Nameless(e)
    ensures Fold(log + [e], name) == Fold(log, name)
  {
    var more := log + [e];
    assert more[..|more| - 1] == log && more[|more| - 1] == e;
    NamelessIsIgnored(Fold(log, name), e, name);
  }

  /** One call asked, and its approval was requested. */
  lemma OneWait(name: int -> string, asked: AuditEvent, request: AuditEvent)
    requires asked.kind == Decided && asked.effect == Some(RequireApproval) && asked.callId.Some?
    requires request.kind == Requested && request.digest == asked.digest
    requires request.approvalId.Some? && request.approvalId.value != ""
    ensures var t := Fold([asked, request], name);
            && t.cells == [CallItem(asked.callId.value, asked, Some(Approval(request, None)), None)]
            && t.order == [asked.callId.value] && t.byCall == map[asked.callId.value := 0]
  {
    assert [asked, request][..1] == [asked] && [asked][..0] == [];
    var t1 := Absorb(EMPTY, asked, name);
    assert Fold([asked], name) == t1;
    assert t1.cells == [CallItem(asked.callId.value, asked, None, None)] && t1.order == [asked.callId.value];
    assert Target(t1, request.digest, 1) == Some(0);
    assert Fold([asked, request], name) == Absorb(t1, request, name);
  }

  /** A call id that is decided again while it waits hides the wait: distinct ids are needed. */
  lemma ReusedIdHidesTheWait(name: int -> string, asked: AuditEvent, request: AuditEvent, again: AuditEvent)
    requires asked.kind == Decided && asked.effect == Some(RequireApproval) && asked.callId.Some?
    requires request.kind == Requested && request.digest == asked.digest
    requires request.approvalId.Some? && request.approvalId.value != ""
    requires again.kind == Decided && again.callId == asked.callId
    ensures Unanswered([asked, request, again], 1)
    ensures var t := Fold([asked, request, again], name);
            |t.order| == 1 && !Open(t, t.order[0])
  {
    var log := [asked, request, again];
    var key := asked.callId.value;
    assert RequestAt(log, 1);
    assert log[..2] == [asked, request];
    OneWait(name, asked, request);
    var t3 := Absorb(Fold([asked, request], name), again, name);
    assert Fold(log, name) == t3;
    assert t3.order == [key] && t3.byCall[key] == 1 && t3.cells[1] == CallItem(key, again, None, None);
  }

  /** Whatever order the rows arrived in. */
  lemma {:induction false} ArrivalOrderIrrelevant(log: seq<AuditEvent>, arrived: seq<AuditEvent>, name: int -> string)
    requires Ascending(IdOf, log) && multiset(arrived) == multiset(log)
    ensures Fold(SortBy(IdOf, arrived), name) == Fold(log, name)
  {
    SortRecovers(IdOf, log, arrived);
  }
}
