/** The stream of events one session's protocol writes, and what the console makes of it. */
module EventStream {
  import opened Model
  import opened Sorting
  import Protocol
  import ProtocolInvariant
  import ProtocolOutcome
  import Timeline
  import TimelineItems

  /**
   * How stored rows are named: database ids grow with the position, call ids come from the agent (of a call,
   * or of the request refused at a position), approval ids from the store.
   */
  datatype Naming = Naming(
    id: nat -> int, ts: nat -> string, call: nat -> string, refusal: nat -> string, approval: nat -> string)

  /** Calls of the session carry distinct ids, and so do approvals, which are never empty. */
  ghost predicate Distinct(n: Naming) {
    && (forall p: nat, q: nat :: p < q ==> n.id(p) < n.id(q))
    && (forall c: nat, d: nat :: c != d ==> n.call(c) != n.call(d))
    && (forall c: nat, p: nat :: n.call(c) != n.refusal(p))
    && (forall a: nat, b: nat :: a != b ==> n.approval(a) != n.approval(b))
    && (forall a: nat :: n.approval(a) != "")
  }

  /** The event the stream sends for the row at position p. */
  function View(n: Naming, p: nat, row: Protocol.Row): Timeline.AuditEvent {
    match row
    case Refused(_) =>
      Timeline.AuditEvent(n.id(p), Timeline.Decided, n.ts(p), Some(Deny), Some(n.refusal(p)), None, None)
    case Reported(progress) =>
      Timeline.AuditEvent(n.id(p), if progress then Timeline.Progress else Timeline.Session, n.ts(p), None, None, None, None)
    case Decided(c, _, digest, _, decision, _) =>
      Timeline.AuditEvent(n.id(p), Timeline.Decided, n.ts(p), Some(decision.effect), Some(n.call(c)), Some(digest), None)
    case Requested(aid, digest) =>
      Timeline.AuditEvent(n.id(p), Timeline.Requested, n.ts(p), Some(RequireApproval), None, Some(digest), Some(n.approval(aid)))
    case Resolved(aid, _) =>
      Timeline.AuditEvent(n.id(p), Timeline.Resolved, n.ts(p), Some(RequireApproval), None, None, Some(n.approval(aid)))
    case Outcome(c, ok) =>
      Timeline.AuditEvent(n.id(p), if ok then Timeline.Executed else Timeline.Failed, n.ts(p), None, Some(n.call(c)), None, None)
  }

  function Events(n: Naming, audit: seq<Protocol.Row>): seq<Timeline.AuditEvent> {
    seq(|audit|, p requires 0 <= p < |audit| => View(n, p, audit[p]))
  }

  /** The decision row behind the approval request at position p. */
  ghost function Origin(s: Protocol.State, p: nat): nat {
    if p < |s.audit| && s.audit[p].Requested? && ProtocolInvariant.Asked(s, s.audit[p].aid)
       && s.calls[s.approvals[s.audit[p].aid].call].ref.Some?
    then s.calls[s.approvals[s.audit[p].aid].call].ref.value
    else 0
  }

  lemma OriginOf(cfg: Protocol.Config, s: Protocol.State, p: nat)
    requires ProtocolInvariant.Inv(cfg, s) && p < |s.audit| && s.audit[p].Requested?
    ensures var aid, o := s.audit[p].aid, Origin(s, p);
            && ProtocolInvariant.Asked(s, aid) && o < p && s.audit[o].Decided? && s.audit[o].call == s.approvals[aid].call
            && s.audit[o].digest == s.audit[p].digest && s.audit[o].decision.effect == RequireApproval
            && ProtocolInvariant.AskAbout(s, aid).announcedAt == Some(p)
  {
    assert ProtocolInvariant.LogOk(s, p);
    ProtocolInvariant.InvHere(cfg, s, s.approvals[s.audit[p].aid].call);
  }

  /** A resolution of the approval requested at position p comes later. */
  lemma ResolvedLater(cfg: Protocol.Config, s: Protocol.State, p: nat, r: nat)
    requires ProtocolInvariant.Inv(cfg, s) && p < |s.audit| && s.audit[p].Requested?
    requires r < |s.audit| && s.audit[r].Resolved? && s.audit[r].aid == s.audit[p].aid
    ensures p < r
  {
    OriginOf(cfg, s, p);
    assert ProtocolInvariant.LogOk(s, r);
    ProtocolInvariant.InvHere(cfg, s, s.approvals[s.audit[p].aid].call);
  }

  /** Two requests are about different approvals and go back to different decisions. */
  lemma OriginsDiffer(cfg: Protocol.Config, s: Protocol.State, p: nat, q: nat)
    requires ProtocolInvariant.Inv(cfg, s) && p < |s.audit| && q < |s.audit| && p != q
    requires s.audit[p].Requested? && s.audit[q].Requested?
    ensures s.audit[p].aid != s.audit[q].aid && Origin(s, p) != Origin(s, q)
  {
    OriginOf(cfg, s, p);
    OriginOf(cfg, s, q);
  }

  lemma RequestsDiffer(cfg: Protocol.Config, s: Protocol.State, n: Naming, p: nat, q: nat)
    requires Distinct(n) && ProtocolInvariant.Inv(cfg, s) && p != q
    requires Timeline.RequestAt(Events(n, s.audit), p) && Timeline.RequestAt(Events(n, s.audit), q)
    ensures Events(n, s.audit)[q].approvalId != Events(n, s.audit)[p].approvalId && Origin(s, q) != Origin(s, p)
  {
    OriginsDiffer(cfg, s, p, q);
  }

  lemma AnswerIsLater(cfg: Protocol.Config, s: Protocol.State, n: Naming, p: nat, r: nat)
    requires Distinct(n) && ProtocolInvariant.Inv(cfg, s) && Timeline.RequestAt(Events(n, s.audit), p)
    requires Timeline.ResolvedAt(Events(n, s.audit), r, Events(n, s.audit)[p].approvalId)
    ensures p < r
  {
    ResolvedLater(cfg, s, p, r);
  }

  lemma RequestHasOrigin(cfg: Protocol.Config, s: Protocol.State, n: Naming, p: nat)
    requires Distinct(n) && ProtocolInvariant.Inv(cfg, s) && Timeline.RequestAt(Events(n, s.audit), p)
    ensures var log := Events(n, s.audit);
            && log[p].approvalId.Some? && log[p].approvalId.value != ""
            && Origin(s, p) < p && Timeline.AsksAt(log, Origin(s, p)) && log[Origin(s, p)].digest == log[p].digest
  {
    OriginOf(cfg, s, p);
  }

  lemma RequestIsOk(cfg: Protocol.Config, s: Protocol.State, n: Naming, p: nat)
    requires Distinct(n) && ProtocolInvariant.Inv(cfg, s)
    requires Timeline.RequestAt(Events(n, s.audit), p)
    ensures Timeline.RequestOk(Events(n, s.audit), q => Origin(s, q), p)
  {
    var log := Events(n, s.audit);
    RequestHasOrigin(cfg, s, n, p);
    forall q: nat | Timeline.RequestAt(log, q) && q != p
      ensures log[q].approvalId != log[p].approvalId && Origin(s, q) != Origin(s, p)
    {
      RequestsDiffer(cfg, s, n, p, q);
    }
    forall r: nat | Timeline.ResolvedAt(log, r, log[p].approvalId)
      ensures p < r
    {
      AnswerIsLater(cfg, s, n, p, r);
    }
  }

  lemma DecisionIsOk(cfg: Protocol.Config, s: Protocol.State, n: Naming, i: nat)
    requires Distinct(n) && ProtocolInvariant.Inv(cfg, s)
    ensures Timeline.DecisionOk(Events(n, s.audit), i)
  {
    var log := Events(n, s.audit);
    if Timeline.AsksAt(log, i) {
      assert ProtocolInvariant.LogOk(s, i);
      forall j | i < j < |log| && log[j].kind == Timeline.Decided
        ensures log[j].callId.Some? && log[j].callId != log[i].callId
      {
        assert ProtocolInvariant.LogOk(s, j);
      }
    }
  }

  /** Every schedule of the protocol writes a log the timeline can follow. */
  lemma {:induction false} ProtocolEmits(cfg: Protocol.Config, events: seq<Protocol.Event>, n: Naming)
    requires Distinct(n)
    ensures var s := Protocol.Run(cfg, events);
            Timeline.Emitted(Events(n, s.audit), q => Origin(s, q))
  {
    var s := Protocol.Run(cfg, events);
    ProtocolInvariant.RunKeeps(cfg, events);
    var log := Events(n, s.audit);
    forall p: nat | Timeline.RequestAt(log, p)
      ensures Timeline.RequestOk(log, q => Origin(s, q), p)
    {
      RequestIsOk(cfg, s, n, p);
    }
    forall i: nat
      ensures Timeline.DecisionOk(log, i)
    {
      DecisionIsOk(cfg, s, n, i);
    }
  }

  /** The approval requested at position p has no resolution row. */
  ghost predicate Unresolved(audit: seq<Protocol.Row>, p: nat) {
    p < |audit| && audit[p].Requested?
    && forall r: nat :: r < |audit| && audit[r].Resolved? ==> audit[r].aid != audit[p].aid
  }

  /**
   * For every schedule and any arrival order of its rows, the console shows a frozen call exactly when the
   * log holds an approval request without a resolution, however many waiting calls share a digest.
   */
  lemma {:induction false} ConsoleShowsTheWait(
      cfg: Protocol.Config, events: seq<Protocol.Event>, n: Naming, arrived: seq<Timeline.AuditEvent>, name: int -> string)
    requires Distinct(n)
    requires multiset(arrived) == multiset(Events(n, Protocol.Run(cfg, events).audit))
    ensures var t := Timeline.Fold(SortBy(Timeline.IdOf, arrived), name);
            (exists k :: 0 <= k < |t.order| && Timeline.Open(t, t.order[k]))
            <==> exists p: nat :: Unresolved(Protocol.Run(cfg, events).audit, p)
  {
    var s := Protocol.Run(cfg, events);
    var log := Events(n, s.audit);
    ProtocolEmits(cfg, events, n);
    Timeline.ArrivalOrderIrrelevant(log, arrived, name);
    Timeline.FrozenIffUnanswered(log, q => Origin(s, q), name);
    forall p: nat
      ensures Timeline.Unanswered(log, p) <==> Unresolved(s.audit, p)
    {
      SameGaps(s.audit, n, p);
    }
  }

  /** In particular a call that is waiting for its answer is always shown. */
  lemma {:induction false} WaitIsShown(
      cfg: Protocol.Config, events: seq<Protocol.Event>, n: Naming, arrived: seq<Timeline.AuditEvent>,
      name: int -> string, c: nat)
    requires Distinct(n) && Protocol.Stands(Protocol.Run(cfg, events), c, Protocol.Awaiting)
    requires multiset(arrived) == multiset(Events(n, Protocol.Run(cfg, events).audit))
    ensures var t := Timeline.Fold(SortBy(Timeline.IdOf, arrived), name);
            exists k :: 0 <= k < |t.order| && Timeline.Open(t, t.order[k])
  {
    var s := Protocol.Run(cfg, events);
    ProtocolInvariant.RunKeeps(cfg, events);
    ProtocolInvariant.InvHere(cfg, s, c);
    var ask := s.calls[c].ask.value;
    forall r: nat | r < |s.audit| && s.audit[r].Resolved?
      ensures s.audit[r].aid != ask.aid
    {
      assert ProtocolInvariant.LogOk(s, r);
    }
    assert Unresolved(s.audit, ask.announcedAt.value);
    ConsoleShowsTheWait(cfg, events, n, arrived, name);
  }

  lemma SameGaps(audit: seq<Protocol.Row>, n: Naming, p: nat)
    requires Distinct(n)
    ensures Timeline.Unanswered(Events(n, audit), p) <==> Unresolved(audit, p)
  {
    var log := Events(n, audit);
    if Timeline.Unanswered(log, p) {
      forall r: nat | r < |audit| && audit[r].Resolved?
        ensures audit[r].aid != audit[p].aid
      {
        assert !Timeline.ResolvedAt(log, r, log[p].approvalId);
      }
    }
  }

  // ---- Outcomes on the console ----------------------------------------------------------------------

  /** The decision row of a call that has ended is the only row that starts it on the console. */
  lemma {:induction false} OutcomeCloses(
      cfg: Protocol.Config, events: seq<Protocol.Event>, n: Naming, name: int -> string, p: nat)
    requires var audit := Protocol.Run(cfg, events).audit; p < |audit| && audit[p].Outcome? && n.call(audit[p].call) != ""
    requires Distinct(n)
    ensures var audit := Protocol.Run(cfg, events).audit;
            TimelineItems.Closes(Events(n, audit), p, |audit|, n.call(audit[p].call), name)
  {
    var s := Protocol.Run(cfg, events);
    var log, c := Events(n, s.audit), s.audit[p].call;
    ProtocolInvariant.RunKeeps(cfg, events);
    ProtocolOutcome.OutcomesAreTrue(cfg, events, p, p);
    ProtocolInvariant.InvHere(cfg, s, c);
    assert TimelineItems.Starts(log[s.calls[c].ref.value], n.call(c), name);
    forall d | p < d < |log|
      ensures !TimelineItems.Starts(log[d], n.call(c), name)
    {
      assert ProtocolInvariant.LogOk(s, d);
    }
  }

  lemma {:induction false} EndingRow(audit: seq<Protocol.Row>, n: Naming, c: nat, q: nat)
    requires Distinct(n) && q < |audit| && TimelineItems.EndsCall(Events(n, audit)[q], n.call(c))
    ensures audit[q].Outcome? && audit[q].call == c
  {
  }

  /** What the console shows as the end of a call is the call's only outcome row. */
  lemma {:induction false} OnlyOutcome(
      cfg: Protocol.Config, events: seq<Protocol.Event>, n: Naming, p: nat, shown: Timeline.AuditEvent)
    requires var audit := Protocol.Run(cfg, events).audit; p < |audit| && audit[p].Outcome?
    requires var audit := Protocol.Run(cfg, events).audit;
             Distinct(n) && TimelineItems.Ended(Events(n, audit), |audit|, n.call(audit[p].call), shown)
    ensures shown == View(n, p, Protocol.Run(cfg, events).audit[p])
  {
    var audit := Protocol.Run(cfg, events).audit;
    var log, c := Events(n, audit), audit[p].call;
    var q :| 0 <= q < |log| && TimelineItems.EndsCall(log[q], n.call(c)) && log[q] == shown;
    EndingRow(audit, n, c, q);
    ProtocolOutcome.OutcomesAreTrue(cfg, events, p, q);
  }

  /** The console shows this event as the end of the call. */
  ghost predicate ShowsEnd(t: Timeline.Folded, key: string, e: Timeline.AuditEvent) {
    TimelineItems.ShowsOutcome(t, key) && t.cells[t.byCall[key]].outcome == Some(e)
  }

  lemma {:induction false} LogShowsTheOutcome(
      cfg: Protocol.Config, events: seq<Protocol.Event>, n: Naming, name: int -> string, p: nat)
    requires var audit := Protocol.Run(cfg, events).audit; p < |audit| && audit[p].Outcome? && n.call(audit[p].call) != ""
    requires Distinct(n)
    ensures var audit := Protocol.Run(cfg, events).audit;
            ShowsEnd(Timeline.Fold(Events(n, audit), name), n.call(audit[p].call), View(n, p, audit[p]))
  {
    var audit := Protocol.Run(cfg, events).audit;
    var log, key := Events(n, audit), n.call(audit[p].call);
    OutcomeCloses(cfg, events, n, name, p);
    TimelineItems.OutcomesAreShown(log, p, key, name);
    var t := Timeline.Fold(log, name);
    OnlyOutcome(cfg, events, n, p, t.cells[t.byCall[key]].outcome.value);
  }

  /** What the console should show for the outcome at position p of call c. */
  ghost function Ending(cfg: Protocol.Config, events: seq<Protocol.Event>, n: Naming, p: nat, c: nat): Timeline.AuditEvent {
    var ok := ProtocolOutcome.ToolEnd(cfg, events, c) == Some(true);
    Timeline.AuditEvent(n.id(p), if ok then Timeline.Executed else Timeline.Failed, n.ts(p), None, Some(n.call(c)), None, None)
  }

  /**
   * For every schedule and arrival order: once a call's outcome is in the log, the console shows exactly that row on the
   * call, as executed if its tool came back without an error and as failed otherwise.
   */
  lemma {:induction false} ConsoleShowsTheOutcome(
      cfg: Protocol.Config, events: seq<Protocol.Event>, n: Naming, arrived: seq<Timeline.AuditEvent>,
      name: int -> string, p: nat)
    requires Distinct(n) && multiset(arrived) == multiset(Events(n, Protocol.Run(cfg, events).audit))
    requires var audit := Protocol.Run(cfg, events).audit; p < |audit| && audit[p].Outcome? && n.call(audit[p].call) != ""
    ensures var c := Protocol.Run(cfg, events).audit[p].call;
            ShowsEnd(Timeline.Fold(SortBy(Timeline.IdOf, arrived), name), n.call(c), Ending(cfg, events, n, p, c))
  {
    ArrivedIsLog(n, Protocol.Run(cfg, events).audit, arrived, name);
    LogShowsTheOutcome(cfg, events, n, name, p);
    OutcomeIsTold(cfg, events, n, p);
  }

  lemma {:induction false} ArrivedIsLog(
      n: Naming, audit: seq<Protocol.Row>, arrived: seq<Timeline.AuditEvent>, name: int -> string)
    requires Distinct(n) && multiset(arrived) == multiset(Events(n, audit))
    ensures Timeline.Fold(SortBy(Timeline.IdOf, arrived), name) == Timeline.Fold(Events(n, audit), name)
  {
    Timeline.ArrivalOrderIrrelevant(Events(n, audit), arrived, name);
  }

  lemma {:induction false} OutcomeIsTold(cfg: Protocol.Config, events: seq<Protocol.Event>, n: Naming, p: nat)
    requires var audit := Protocol.Run(cfg, events).audit; p < |audit| && audit[p].Outcome?
    ensures var audit := Protocol.Run(cfg, events).audit;
            View(n, p, audit[p]) == Ending(cfg, events, n, p, audit[p].call)
  {
    ProtocolOutcome.OutcomesAreTrue(cfg, events, p, p);
  }

  // ---- Items on the console -------------------------------------------------------------------------

  /** Positions of the rows the console lists. */
  ghost function Positions(audit: seq<Protocol.Row>): (ps: seq<nat>)
    ensures forall i :: 0 <= i < |ps| ==> ps[i] < |audit|
  {
    if audit == [] then []
    else
      var last := |audit| - 1;
      var lists := audit[last].Decided? || audit[last].Refused? || audit[last].Reported?;
      Positions(audit[..last]) + (if lists then [last] else [])
  }

  lemma {:induction false} ShownRows(n: Naming, audit: seq<Protocol.Row>)
    ensures var shown, ps := TimelineItems.Shown(Events(n, audit)), Positions(audit);
            |shown| == |ps| && forall i :: 0 <= i < |ps| ==> shown[i] == View(n, ps[i], audit[ps[i]])
  {
    if audit != [] {
      var last := |audit| - 1;
      ShownRows(n, audit[..last]);
      assert Events(n, audit)[..last] == Events(n, audit[..last]);
    }
  }

  /** The item of a row: a call for a decision or a refusal, a message or a lifecycle item for a report. */
  ghost predicate Lists(n: Naming, p: nat, row: Protocol.Row, t: Timeline.Folded, item: Timeline.Item) {
    && TimelineItems.EventOf(t, item).Some? && TimelineItems.EventOf(t, item).value.id == n.id(p)
    && (row.Decided? || row.Refused? ==> item.CallRef?)
    && (row.Reported? ==> if row.progress then item.ProgressItem? else item.LifecycleItem?)
  }

  /** The console lists the decisions, refusals, messages and lifecycle rows of the log, each as what it is, in order. */
  lemma {:induction false} ConsoleListsTheLog(
      n: Naming, audit: seq<Protocol.Row>, arrived: seq<Timeline.AuditEvent>, name: int -> string)
    requires Distinct(n) && multiset(arrived) == multiset(Events(n, audit))
    ensures var t, ps := Timeline.Fold(SortBy(Timeline.IdOf, arrived), name), Positions(audit);
            |t.items| == |ps| && forall i :: 0 <= i < |ps| ==> Lists(n, ps[i], audit[ps[i]], t, t.items[i])
  {
    ArrivedIsLog(n, audit, arrived, name);
    ShownRows(n, audit);
    TimelineItems.ItemsFollowLog(Events(n, audit), name);
    var t, ps := Timeline.Fold(Events(n, audit), name), Positions(audit);
    forall i | 0 <= i < |ps|
      ensures Lists(n, ps[i], audit[ps[i]], t, t.items[i])
    {
      RowIsListed(audit, i);
    }
  }

  lemma {:induction false} RowIsListed(audit: seq<Protocol.Row>, i: nat)
    requires i < |Positions(audit)|
    ensures var row := audit[Positions(audit)[i]]; row.Decided? || row.Refused? || row.Reported?
  {
    var last := |audit| - 1;
    if i < |Positions(audit[..last])| {
      RowIsListed(audit[..last], i);
    }
  }
}
