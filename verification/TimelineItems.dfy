/** What the timeline lists: every call, progress message and lifecycle row in order, and each call's outcome. */
module TimelineItems {
  import opened Model
  import opened Timeline

  predicate Listed(e: AuditEvent) {
    e.kind == Decided || e.kind == Progress || e.kind == Session
  }

  function Shown(log: seq<AuditEvent>): seq<AuditEvent> {
    if log == [] then []
    else Shown(log[..|log| - 1]) + (if Listed(log[|log| - 1]) then [log[|log| - 1]] else [])
  }

  function EventOf(t: Folded, item: Item): Option<AuditEvent> {
    match item
    case CallRef(c) => if c < |t.cells| then Some(t.cells[c].decided) else None
    case ProgressItem(e) => Some(e)
    case LifecycleItem(e) => Some(e)
  }

  /** Calls are listed as calls, messages as messages, lifecycle rows as such. */
  predicate Fits(item: Item, e: AuditEvent) {
    && (e.kind == Decided <==> item.CallRef?) && (e.kind == Progress <==> item.ProgressItem?)
    && (e.kind == Session <==> item.LifecycleItem?)
  }

  /** Items are only added, and calls keep the decision and the id they were made with. */
  ghost predicate Extends(t: Folded, t': Folded) {
    && t.items <= t'.items && |t.cells| <= |t'.cells|
    && forall c :: 0 <= c < |t.cells| ==> t'.cells[c].decided == t.cells[c].decided && t'.cells[c].callId == t.cells[c].callId
  }

  lemma AbsorbExtends(t: Folded, e: AuditEvent, name: int -> string)
    ensures var t' := Absorb(t, e, name);
            && Extends(t, t')
            && |t'.items| == |t.items| + (if Listed(e) then 1 else 0)
            && (Listed(e) ==> EventOf(t', t'.items[|t.items|]) == Some(e) && Fits(t'.items[|t.items|], e))
  {
  }

  /** The items are exactly the listed rows, in order. */
  lemma {:induction false} ItemsFollowLog(log: seq<AuditEvent>, name: int -> string)
    ensures var t := Fold(log, name);
            && |t.items| == |Shown(log)|
            && forall i :: 0 <= i < |t.items| ==> EventOf(t, t.items[i]) == Some(Shown(log)[i]) && Fits(t.items[i], Shown(log)[i])
  {
    if log != [] {
      var n := |log| - 1;
      var t := Fold(log[..n], name);
      ItemsFollowLog(log[..n], name);
      AbsorbExtends(t, log[n], name);
      var t' := Fold(log, name);
      forall i | 0 <= i < |t'.items|
        ensures EventOf(t', t'.items[i]) == Some(Shown(log)[i]) && Fits(t'.items[i], Shown(log)[i])
      {
        if i < |t.items| {
          assert t'.items[i] == t.items[i] && EventOf(t, t.items[i]) == Some(Shown(log[..n])[i]);
        }
      }
    }
  }

  // ---- Outcomes -------------------------------------------------------------------------------------

  predicate EndsCall(e: AuditEvent, key: string) {
    (e.kind == Executed || e.kind == Failed) && e.callId == Some(key) && key != ""
  }

  predicate Starts(e: AuditEvent, key: string, name: int -> string) {
    e.kind == Decided && NameOf(e, name) == key
  }

  /** Keys lead to cells of that name, and every outcome shown on a cell is a row of the log for it. */
  ghost predicate Sound(log: seq<AuditEvent>, n: nat, t: Folded)
    requires n <= |log|
  {
    && (forall key :: key in t.byCall ==> t.byCall[key] < |t.cells| && t.cells[t.byCall[key]].callId == key)
    && (forall c :: 0 <= c < |t.cells| && t.cells[c].outcome.Some? ==> Ended(log, n, t.cells[c].callId, t.cells[c].outcome.value))
  }

  ghost predicate Ended(log: seq<AuditEvent>, n: nat, key: string, outcome: AuditEvent)
    requires n <= |log|
  {
    exists p :: 0 <= p < n && EndsCall(log[p], key) && log[p] == outcome
  }

  lemma {:induction false} FoldIsSound(log: seq<AuditEvent>, n: nat, name: int -> string)
    requires n <= |log|
    ensures Sound(log, n, Fold(log[..n], name))
  {
    if n > 0 {
      FoldIsSound(log, n - 1, name);
      assert log[..n][..n - 1] == log[..n - 1];
      AbsorbIsSound(log, n - 1, Fold(log[..n - 1], name), name);
    }
  }

  lemma EndedStays(log: seq<AuditEvent>, n: nat, key: string, outcome: AuditEvent)
    requires n < |log| && Ended(log, n, key, outcome)
    ensures Ended(log, n + 1, key, outcome)
  {
  }

  /** Where the outcome of a cell comes from after one more event. */
  lemma OutcomeSource(t: Folded, e: AuditEvent, name: int -> string, c: nat)
    requires forall key :: key in t.byCall ==> t.byCall[key] < |t.cells| && t.cells[t.byCall[key]].callId == key
    requires c < |Absorb(t, e, name).cells| && Absorb(t, e, name).cells[c].outcome.Some?
    ensures var t' := Absorb(t, e, name);
            || (c < |t.cells| && t.cells[c].outcome == t'.cells[c].outcome && t.cells[c].callId == t'.cells[c].callId)
            || (EndsCall(e, t'.cells[c].callId) && e == t'.cells[c].outcome.value)
  {
  }

  /** Keys keep leading to cells of their name. */
  lemma KeysStay(t: Folded, e: AuditEvent, name: int -> string, key: string)
    requires forall k :: k in t.byCall ==> t.byCall[k] < |t.cells| && t.cells[t.byCall[k]].callId == k
    requires key in Absorb(t, e, name).byCall
    ensures var t' := Absorb(t, e, name); t'.byCall[key] < |t'.cells| && t'.cells[t'.byCall[key]].callId == key
  {
  }

  lemma CellIsSound(log: seq<AuditEvent>, n: nat, t: Folded, name: int -> string, c: nat)
    requires n < |log| && Sound(log, n, t)
    requires c < |Absorb(t, log[n], name).cells| && Absorb(t, log[n], name).cells[c].outcome.Some?
    ensures var t' := Absorb(t, log[n], name); Ended(log, n + 1, t'.cells[c].callId, t'.cells[c].outcome.value)
  {
    OutcomeSource(t, log[n], name, c);
    var k' := Absorb(t, log[n], name).cells[c];
    if c < |t.cells| && t.cells[c].outcome == k'.outcome && t.cells[c].callId == k'.callId {
      EndedStays(log, n, t.cells[c].callId, t.cells[c].outcome.value);
    } else {
      assert EndsCall(log[n], k'.callId);
    }
  }

  lemma AbsorbIsSound(log: seq<AuditEvent>, n: nat, t: Folded, name: int -> string)
    requires n < |log| && Sound(log, n, t)
    ensures Sound(log, n + 1, Absorb(t, log[n], name))
  {
    var t' := Absorb(t, log[n], name);
    forall key | key in t'.byCall
      ensures t'.byCall[key] < |t'.cells| && t'.cells[t'.byCall[key]].callId == key
    {
      KeysStay(t, log[n], name, key);
    }
    forall c: nat | c < |t'.cells| && t'.cells[c].outcome.Some?
      ensures Ended(log, n + 1, t'.cells[c].callId, t'.cells[c].outcome.value)
    {
      CellIsSound(log, n, t, name, c);
    }
  }

  /** The outcome row at p belongs to a call decided before it and not decided again up to n. */
  ghost predicate Closes(log: seq<AuditEvent>, p: nat, n: nat, key: string, name: int -> string)
    requires n <= |log|
  {
    && p < n && EndsCall(log[p], key)
    && (exists d :: 0 <= d < p && Starts(log[d], key, name))
    && (forall d :: p < d < n ==> !Starts(log[d], key, name))
  }

  lemma {:induction false} DecidedIsKnown(log: seq<AuditEvent>, n: nat, d: nat, key: string, name: int -> string)
    requires d < n <= |log| && Starts(log[d], key, name)
    ensures key in Fold(log[..n], name).byCall
  {
    assert log[..n][..n - 1] == log[..n - 1];
    if d < n - 1 {
      DecidedIsKnown(log, n - 1, d, key, name);
    }
  }

  ghost predicate ShowsOutcome(t: Folded, key: string) {
    key in t.byCall && t.byCall[key] < |t.cells| && t.cells[t.byCall[key]].outcome.Some?
  }

  lemma OutcomeStays(t: Folded, e: AuditEvent, key: string, name: int -> string)
    requires ShowsOutcome(t, key) && !Starts(e, key, name)
    ensures ShowsOutcome(Absorb(t, e, name), key)
  {
  }

  lemma OutcomeArrives(t: Folded, e: AuditEvent, key: string, name: int -> string)
    requires key in t.byCall && t.byCall[key] < |t.cells| && EndsCall(e, key)
    ensures ShowsOutcome(Absorb(t, e, name), key)
  {
  }

  lemma LastOutcomeIsShown(log: seq<AuditEvent>, n: nat, key: string, name: int -> string)
    requires n < |log| && Closes(log, n, n + 1, key, name)
    ensures ShowsOutcome(Absorb(Fold(log[..n], name), log[n], name), key)
  {
    var d :| 0 <= d < n && Starts(log[d], key, name);
    DecidedIsKnown(log, n, d, key, name);
    FoldIsSound(log, n, name);
    OutcomeArrives(Fold(log[..n], name), log[n], key, name);
  }

  /** A call that has ended shows its outcome. */
  lemma {:induction false} OutcomeIsShown(log: seq<AuditEvent>, n: nat, p: nat, key: string, name: int -> string)
    requires n <= |log| && Closes(log, p, n, key, name)
    ensures ShowsOutcome(Fold(log[..n], name), key)
  {
    assert log[..n][..n - 1] == log[..n - 1];
    if p < n - 1 {
      OutcomeIsShown(log, n - 1, p, key, name);
      OutcomeStays(Fold(log[..n - 1], name), log[n - 1], key, name);
    } else {
      LastOutcomeIsShown(log, n - 1, key, name);
    }
  }

  /**
   * Every outcome the timeline shows on a call is a row of the log with that call's id, and a call that was decided,
   * ended and not decided again shows one.
   */
  lemma {:induction false} OutcomesAreShown(log: seq<AuditEvent>, p: nat, key: string, name: int -> string)
    ensures var t := Fold(log, name);
            && Sound(log, |log|, t)
            && (Closes(log, p, |log|, key, name) ==>
                  ShowsOutcome(t, key) && t.cells[t.byCall[key]].callId == key)
  {
    assert log[..|log|] == log;
    FoldIsSound(log, |log|, name);
    if Closes(log, p, |log|, key, name) {
      OutcomeIsShown(log, |log|, p, key, name);
    }
  }

  // ---- Resolutions ----------------------------------------------------------------------------------

  /** This row is a resolution of the approval. */
  ghost predicate Resolves(log: seq<AuditEvent>, n: nat, aid: Option<string>, row: AuditEvent)
    requires n <= |log|
  {
    exists r :: 0 <= r < n && log[r] == row && log[r].kind == Resolved && log[r].approvalId == aid
  }

  /** The approval shown on a cell was requested under the id that leads there, and its resolution is one of that id. */
  ghost predicate Honest(log: seq<AuditEvent>, n: nat, t: Folded)
    requires n <= |log|
  {
    && (forall key :: key in t.byApproval ==>
          && t.byApproval[key] < |t.cells| && t.cells[t.byApproval[key]].approval.Some?
          && t.cells[t.byApproval[key]].approval.value.requested.approvalId == Some(key))
    && (forall c :: 0 <= c < |t.cells| && t.cells[c].approval.Some? && t.cells[c].approval.value.resolved.Some? ==>
          Resolves(log, n, t.cells[c].approval.value.requested.approvalId, t.cells[c].approval.value.resolved.value))
  }

  lemma ResolvesStays(log: seq<AuditEvent>, n: nat, aid: Option<string>, row: AuditEvent)
    requires n < |log| && Resolves(log, n, aid, row)
    ensures Resolves(log, n + 1, aid, row)
  {
  }

  /** A cell keeps its approval; it gets one where there was none, and a resolution from the row just read. */
  lemma ApprovalSource(t: Folded, e: AuditEvent, name: int -> string, c: nat)
    requires forall key :: key in t.byApproval ==>
               && t.byApproval[key] < |t.cells| && t.cells[t.byApproval[key]].approval.Some?
               && t.cells[t.byApproval[key]].approval.value.requested.approvalId == Some(key)
    requires c < |Absorb(t, e, name).cells| && Absorb(t, e, name).cells[c].approval.Some?
    requires Absorb(t, e, name).cells[c].approval.value.resolved.Some?
    ensures var a := Absorb(t, e, name).cells[c].approval.value;
            || (c < |t.cells| && t.cells[c].approval == Some(a))
            || (e.kind == Resolved && a.resolved.value == e && a.requested.approvalId == e.approvalId)
  {
  }

  lemma IdsStay(t: Folded, e: AuditEvent, name: int -> string, key: string)
    requires forall k :: k in t.byApproval ==>
               && t.byApproval[k] < |t.cells| && t.cells[t.byApproval[k]].approval.Some?
               && t.cells[t.byApproval[k]].approval.value.requested.approvalId == Some(k)
    requires key in Absorb(t, e, name).byApproval
    ensures var t' := Absorb(t, e, name);
            && t'.byApproval[key] < |t'.cells| && t'.cells[t'.byApproval[key]].approval.Some?
            && t'.cells[t'.byApproval[key]].approval.value.requested.approvalId == Some(key)
  {
    if e.kind == Requested {
      TargetIsMostRecent(t, e.digest, |t.order|);
    }
  }

  lemma AbsorbIsHonest(log: seq<AuditEvent>, n: nat, t: Folded, name: int -> string)
    requires n < |log| && Honest(log, n, t)
    ensures Honest(log, n + 1, Absorb(t, log[n], name))
  {
    var t' := Absorb(t, log[n], name);
    forall key | key in t'.byApproval
      ensures && t'.byApproval[key] < |t'.cells| && t'.cells[t'.byApproval[key]].approval.Some?
              && t'.cells[t'.byApproval[key]].approval.value.requested.approvalId == Some(key)
    {
      IdsStay(t, log[n], name, key);
    }
    forall c: nat | c < |t'.cells| && t'.cells[c].approval.Some? && t'.cells[c].approval.value.resolved.Some?
      ensures Resolves(log, n + 1, t'.cells[c].approval.value.requested.approvalId, t'.cells[c].approval.value.resolved.value)
    {
      ApprovalSource(t, log[n], name, c);
      if c < |t.cells| && t.cells[c].approval == t'.cells[c].approval {
        ResolvesStays(log, n, t.cells[c].approval.value.requested.approvalId, t.cells[c].approval.value.resolved.value);
      }
    }
  }

  lemma {:induction false} FoldIsHonest(log: seq<AuditEvent>, n: nat, name: int -> string)
    requires n <= |log|
    ensures Honest(log, n, Fold(log[..n], name))
  {
    if n > 0 {
      FoldIsHonest(log, n - 1, name);
      assert log[..n][..n - 1] == log[..n - 1];
      AbsorbIsHonest(log, n - 1, Fold(log[..n - 1], name), name);
    }
  }

  /** Every resolution shown on a call is a row of the log about the very approval that was requested for it. */
  lemma {:induction false} ResolutionsAreTrue(log: seq<AuditEvent>, name: int -> string, c: nat)
    requires var t := Fold(log, name);
             c < |t.cells| && t.cells[c].approval.Some? && t.cells[c].approval.value.resolved.Some?
    ensures var a := Fold(log, name).cells[c].approval.value;
            exists r :: 0 <= r < |log| && log[r] == a.resolved.value && log[r].kind == Resolved
                        && log[r].approvalId == a.requested.approvalId
  {
    assert log[..|log|] == log;
    FoldIsHonest(log, |log|, name);
    var a := Fold(log, name).cells[c].approval.value;
    assert Resolves(log, |log|, a.requested.approvalId, a.resolved.value);
  }
}
