/** Policy versions, attachments, and the documents a session is pinned to when it is submitted. */
module Pinning {
  import opened Model
  import opened Engine
  import opened EngineLaws
  import opened Sorting

  datatype PolicyRow = PolicyRow(id: string, version: nat, document: string)

  /** version None follows the latest version at session start. */
  datatype Attachment = Attachment(agentId: string, policyId: string, version: Option<nat>)

  datatype Source = AgentLevel | SessionLevel

  datatype Ref = Ref(id: string, version: Option<nat>, source: Source)

  datatype Pin = Pin(id: string, version: nat, source: Source)

  datatype Failure = NotFound(id: string) | Invalid(id: string) | OutOfScope(id: string)

  datatype Resolution = Resolved(policies: seq<Policy>, pins: seq<Pin>) | Failed(failure: Failure)

  /** The policy loader, and the database's order of policy ids. */
  datatype Env = Env(parse: string -> Option<Policy>, rank: string -> int)

  // ---- Versions -------------------------------------------------------------------------------------

  function MaxVersion(rows: seq<PolicyRow>, id: string): nat {
    if rows == [] then 0
    else
      var last, before := rows[|rows| - 1], MaxVersion(rows[..|rows| - 1], id);
      if last.id == id && last.version > before then last.version else before
  }

  /** The row with this id and version, if any. */
  function Find(rows: seq<PolicyRow>, id: string, version: nat): Option<PolicyRow> {
    if rows == [] then None
    else if rows[0].id == id && rows[0].version == version then Some(rows[0])
    else Find(rows[1..], id, version)
  }

  /** A missing version, or 0, means the latest. */
  function GetPolicy(rows: seq<PolicyRow>, id: string, version: Option<nat>): Option<PolicyRow> {
    if version.Some? && version.value != 0 then Find(rows, id, version.value)
    else if MaxVersion(rows, id) == 0 then None
    else Find(rows, id, MaxVersion(rows, id))
  }

  /** Versions of an id are numbered from 1 in order of creation, without gaps. */
  ghost predicate Numbered(rows: seq<PolicyRow>) {
    forall n :: 0 <= n < |rows| ==> rows[n].version == MaxVersion(rows[..n], rows[n].id) + 1
  }

  // ---- Resolution -----------------------------------------------------------------------------------

  function ResolveOne(env: Env, rows: seq<PolicyRow>, agentId: string, ref: Ref): Resolution {
    match GetPolicy(rows, ref.id, ref.version)
    case None => Failed(NotFound(ref.id))
    case Some(row) =>
      match env.parse(row.document)
      case None => Failed(Invalid(ref.id))
      case Some(policy) =>
        if policy.scope != [] && agentId !in policy.scope then Failed(OutOfScope(ref.id))
        else Resolved([policy.(version := row.version)], [Pin(ref.id, row.version, ref.source)])
  }

  function ResolveAll(env: Env, rows: seq<PolicyRow>, agentId: string, refs: seq<Ref>): Resolution {
    if refs == [] then Resolved([], [])
    else
      var n := |refs| - 1;
      var before := ResolveAll(env, rows, agentId, refs[..n]);
      if before.Failed? then before
      else
        var one := ResolveOne(env, rows, agentId, refs[n]);
        if one.Failed? then one else Resolved(before.policies + one.policies, before.pins + one.pins)
  }

  function Attached(attachments: seq<Attachment>, agentId: string): seq<Attachment> {
    if attachments == [] then []
    else
      var n := |attachments| - 1;
      Attached(attachments[..n], agentId) + (if attachments[n].agentId == agentId then [attachments[n]] else [])
  }

  function AgentRefs(env: Env, attachments: seq<Attachment>, agentId: string): seq<Ref> {
    var listed := SortBy((a: Attachment) => env.rank(a.policyId), Attached(attachments, agentId));
    seq(|listed|, i requires 0 <= i < |listed| => Ref(listed[i].policyId, listed[i].version, AgentLevel))
  }

  function SessionRefs(refs: seq<(string, Option<nat>)>): seq<Ref> {
    seq(|refs|, i requires 0 <= i < |refs| => Ref(refs[i].0, refs[i].1, SessionLevel))
  }

  datatype Store = Store(rows: seq<PolicyRow>, attachments: seq<Attachment>)

  /** Without an agent-level policy the session gets none at all, whatever it asks for. */
  function Resolve(env: Env, s: Store, agentId: string, refs: seq<(string, Option<nat>)>): Resolution {
    if Attached(s.attachments, agentId) == [] then Resolved([], [])
    else ResolveAll(env, s.rows, agentId, AgentRefs(env, s.attachments, agentId) + SessionRefs(refs))
  }

  // ---- The store ------------------------------------------------------------------------------------

  function Without(attachments: seq<Attachment>, agentId: string, policyId: string): seq<Attachment> {
    if attachments == [] then []
    else
      var n := |attachments| - 1;
      Without(attachments[..n], agentId, policyId)
      + (if attachments[n].agentId == agentId && attachments[n].policyId == policyId then [] else [attachments[n]])
  }

  datatype Change =
    | Create(id: string, document: string)
    | Attach(agentId: string, policyId: string, version: Option<nat>)
    | Detach(agentId: string, policyId: string)

  function Apply(s: Store, c: Change): Store {
    match c
    case Create(id, document) => s.(rows := s.rows + [PolicyRow(id, MaxVersion(s.rows, id) + 1, document)])
    case Attach(agent, policy, version) =>
      s.(attachments := Without(s.attachments, agent, policy) + [Attachment(agent, policy, version)])
    case Detach(agent, policy) => s.(attachments := Without(s.attachments, agent, policy))
  }

  function ApplyAll(s: Store, changes: seq<Change>): Store {
    if changes == [] then s else Apply(ApplyAll(s, changes[..|changes| - 1]), changes[|changes| - 1])
  }

  class PolicyStore {
    var rows: seq<PolicyRow>
    var attachments: seq<Attachment>

    function Abs(): Store
      reads this
    {
      Store(rows, attachments)
    }

    constructor ()
      ensures Abs() == Store([], [])
    {
      rows, attachments := [], [];
    }

    method CreatePolicyVersion(id: string, document: string) returns (version: nat)
      modifies this`rows
      ensures Abs() == Apply(old(Abs()), Create(id, document))
      ensures version == MaxVersion(old(rows), id) + 1
    {
      var latest: nat := 0;
      for n := 0 to |rows|
        invariant latest == MaxVersion(rows[..n], id)
      {
        assert rows[..n + 1][..n] == rows[..n];
        if rows[n].id == id && rows[n].version > latest {
          latest := rows[n].version;
        }
      }
      assert rows[..|rows|] == rows;
      version := latest + 1;
      rows := rows + [PolicyRow(id, version, document)];
    }

    method Remove(agentId: string, policyId: string)
      modifies this`attachments
      ensures attachments == Without(old(attachments), agentId, policyId)
    {
      var kept: seq<Attachment> := [];
      for n := 0 to |attachments|
        invariant kept == Without(attachments[..n], agentId, policyId)
      {
        assert attachments[..n + 1][..n] == attachments[..n];
        if !(attachments[n].agentId == agentId && attachments[n].policyId == policyId) {
          kept := kept + [attachments[n]];
        }
      }
      assert attachments[..|attachments|] == attachments;
      attachments := kept;
    }

    method AttachPolicy(agentId: string, policyId: string, version: Option<nat>)
      modifies this`attachments
      ensures Abs() == Apply(old(Abs()), Attach(agentId, policyId, version))
    {
      Remove(agentId, policyId);
      attachments := attachments + [Attachment(agentId, policyId, version)];
    }

    /** True if there was something to detach. */
    method DetachPolicy(agentId: string, policyId: string) returns (found: bool)
      modifies this`attachments
      ensures Abs() == Apply(old(Abs()), Detach(agentId, policyId))
      ensures found <==> |attachments| < |old(attachments)|
    {
      var before := |attachments|;
      Remove(agentId, policyId);
      WithoutIsShorter(old(attachments), agentId, policyId);
      found := |attachments| != before;
    }

    method ResolveRefs(env: Env, agentId: string, refs: seq<Ref>) returns (r: Resolution)
      ensures r == ResolveAll(env, rows, agentId, refs)
    {
      var policies: seq<Policy>, pins: seq<Pin> := [], [];
      for n := 0 to |refs|
        invariant ResolveAll(env, rows, agentId, refs[..n]) == Resolved(policies, pins)
      {
        assert refs[..n + 1][..n] == refs[..n];
        var one := ResolveOne(env, rows, agentId, refs[n]);
        if one.Failed? {
          FirstFailureDecides(env, rows, agentId, refs, n + 1);
          return one;
        }
        policies := policies + one.policies;
        pins := pins + one.pins;
      }
      assert refs[..|refs|] == refs;
      return Resolved(policies, pins);
    }

    method ResolvePolicies(env: Env, agentId: string, sessionRefs: seq<(string, Option<nat>)>) returns (r: Resolution)
      ensures r == Resolve(env, Abs(), agentId, sessionRefs)
    {
      if Attached(attachments, agentId) == [] {
        return Resolved([], []);
      }
      r := ResolveRefs(env, agentId, AgentRefs(env, attachments, agentId) + SessionRefs(sessionRefs));
    }
  }

  lemma {:induction false} WithoutIsShorter(attachments: seq<Attachment>, agentId: string, policyId: string)
    ensures |Without(attachments, agentId, policyId)| <= |attachments|
  {
    if attachments != [] {
      WithoutIsShorter(attachments[..|attachments| - 1], agentId, policyId);
    }
  }

  lemma {:induction false} FirstFailureDecides(env: Env, rows: seq<PolicyRow>, agentId: string, refs: seq<Ref>, n: nat)
    requires n <= |refs| && ResolveAll(env, rows, agentId, refs[..n]).Failed?
    ensures ResolveAll(env, rows, agentId, refs) == ResolveAll(env, rows, agentId, refs[..n])
    decreases |refs| - n
  {
    if n == |refs| {
      assert refs[..n] == refs;
    } else {
      assert refs[..n + 1][..n] == refs[..n];
      FirstFailureDecides(env, rows, agentId, refs, n + 1);
    }
  }

  // ---- Versions never change ------------------------------------------------------------------------

  lemma {:induction false} FindStays(rows: seq<PolicyRow>, more: seq<PolicyRow>, id: string, version: nat)
    requires rows <= more && Find(rows, id, version).Some?
    ensures Find(more, id, version) == Find(rows, id, version)
  {
    if !(rows[0].id == id && rows[0].version == version) {
      FindStays(rows[1..], more[1..], id, version);
    }
  }

  lemma {:induction false} FindIs(rows: seq<PolicyRow>, id: string, version: nat)
    requires Find(rows, id, version).Some?
    ensures Find(rows, id, version).value.id == id && Find(rows, id, version).value.version == version
  {
    if !(rows[0].id == id && rows[0].version == version) {
      FindIs(rows[1..], id, version);
    }
  }

  lemma {:induction false} FindFinds(rows: seq<PolicyRow>, n: nat)
    requires n < |rows|
    ensures Find(rows, rows[n].id, rows[n].version).Some?
  {
    if n > 0 {
      FindFinds(rows[1..], n - 1);
    }
  }

  lemma {:induction false} MaxVersionBounds(rows: seq<PolicyRow>, id: string)
    ensures forall n :: 0 <= n < |rows| && rows[n].id == id ==> rows[n].version <= MaxVersion(rows, id)
  {
    if rows != [] {
      MaxVersionBounds(rows[..|rows| - 1], id);
    }
  }

  /** A version, once created, is found with the same document after any further changes. */
  lemma {:induction false} RowsOnlyGrow(s: Store, changes: seq<Change>)
    ensures s.rows <= ApplyAll(s, changes).rows
  {
    if changes != [] {
      RowsOnlyGrow(s, changes[..|changes| - 1]);
    }
  }

  lemma {:induction false} VersionsStayNumbered(changes: seq<Change>)
    ensures Numbered(ApplyAll(Store([], []), changes).rows)
  {
    if changes != [] {
      var n := |changes| - 1;
      VersionsStayNumbered(changes[..n]);
      var rows, rows' := ApplyAll(Store([], []), changes[..n]).rows, ApplyAll(Store([], []), changes).rows;
      if changes[n].Create? {
        forall k | 0 <= k < |rows'|
          ensures rows'[k].version == MaxVersion(rows'[..k], rows'[k].id) + 1
        {
          assert rows'[..k] == rows[..k];
        }
      }
    }
  }

  lemma {:induction false} EveryVersionExists(rows: seq<PolicyRow>, id: string, v: nat)
    requires Numbered(rows) && 1 <= v <= MaxVersion(rows, id)
    ensures exists n :: 0 <= n < |rows| && rows[n].id == id && rows[n].version == v
  {
    var n := |rows| - 1;
    assert rows[..n + 1] == rows;
    if rows[n].id != id || rows[n].version != v {
      forall k | 0 <= k < n
        ensures rows[..n][k].version == MaxVersion(rows[..n][..k], rows[..n][k].id) + 1
      {
        assert rows[..n][..k] == rows[..k];
      }
      EveryVersionExists(rows[..n], id, v);
      var k :| 0 <= k < n && rows[..n][k].id == id && rows[..n][k].version == v;
      assert rows[k].id == id && rows[k].version == v;
    }
  }

  /** The versions of a policy are 1, 2, ... up to the latest, in order of creation, each existing once. */
  lemma {:induction false} VersionsAreSequential(changes: seq<Change>, i: nat, j: nat, v: nat)
    requires var rows := ApplyAll(Store([], []), changes).rows; i < j < |rows| && rows[i].id == rows[j].id
    ensures var rows := ApplyAll(Store([], []), changes).rows;
            && 1 <= rows[i].version < rows[j].version <= MaxVersion(rows, rows[j].id)
            && (1 <= v <= MaxVersion(rows, rows[j].id) ==> exists n :: 0 <= n < |rows| && rows[n].id == rows[j].id && rows[n].version == v)
  {
    var rows := ApplyAll(Store([], []), changes).rows;
    VersionsStayNumbered(changes);
    MaxVersionBounds(rows, rows[j].id);
    MaxVersionBounds(rows[..j], rows[j].id);
    assert rows[..j][i] == rows[i];
    if 1 <= v <= MaxVersion(rows, rows[j].id) {
      EveryVersionExists(rows, rows[j].id, v);
    }
  }

  // ---- Pinning --------------------------------------------------------------------------------------

  /** What a session loads when it starts, from the versions it was pinned to. */
  function Reload(env: Env, rows: seq<PolicyRow>, pins: seq<Pin>): Option<seq<Policy>> {
    if pins == [] then Some([])
    else
      var n := |pins| - 1;
      var before, row := Reload(env, rows, pins[..n]), GetPolicy(rows, pins[n].id, Some(pins[n].version));
      if before.None? || row.None? then None
      else
        match env.parse(row.value.document)
        case None => None
        case Some(policy) => Some(before.value + [policy.(version := pins[n].version)])
  }

  lemma OnePinReloads(env: Env, rows: seq<PolicyRow>, more: seq<PolicyRow>, agentId: string, ref: Ref)
    requires rows <= more && ResolveOne(env, rows, agentId, ref).Resolved?
    ensures var one := ResolveOne(env, rows, agentId, ref);
            && |one.pins| == |one.policies| == 1
            && var row := GetPolicy(more, one.pins[0].id, Some(one.pins[0].version));
               && row.Some? && env.parse(row.value.document).Some?
               && env.parse(row.value.document).value.(version := one.pins[0].version) == one.policies[0]
  {
    var row := GetPolicy(rows, ref.id, ref.version).value;
    FindIs(rows, ref.id, if ref.version.Some? && ref.version.value != 0 then ref.version.value else MaxVersion(rows, ref.id));
    FindStays(rows, more, ref.id, row.version);
  }

  lemma {:induction false} PinsReload(env: Env, rows: seq<PolicyRow>, more: seq<PolicyRow>, agentId: string, refs: seq<Ref>)
    requires rows <= more && ResolveAll(env, rows, agentId, refs).Resolved?
    ensures var r := ResolveAll(env, rows, agentId, refs);
            Reload(env, more, r.pins) == Some(r.policies)
  {
    if refs != [] {
      var n := |refs| - 1;
      var before, one := ResolveAll(env, rows, agentId, refs[..n]), ResolveOne(env, rows, agentId, refs[n]);
      PinsReload(env, rows, more, agentId, refs[..n]);
      OnePinReloads(env, rows, more, agentId, refs[n]);
      assert (before.pins + one.pins)[..|before.pins|] == before.pins;
      assert one.policies == [one.policies[0]];
    }
  }

  /**
   * Whatever versions are created and attachments changed after submission, a session runs under exactly the
   * policies that were resolved when it was submitted.
   */
  lemma {:induction false} PinnedAtSubmission(env: Env, s: Store, agentId: string, refs: seq<(string, Option<nat>)>, changes: seq<Change>)
    requires Resolve(env, s, agentId, refs).Resolved?
    ensures var r := Resolve(env, s, agentId, refs);
            Reload(env, ApplyAll(s, changes).rows, r.pins) == Some(r.policies)
  {
    RowsOnlyGrow(s, changes);
    if Attached(s.attachments, agentId) != [] {
      PinsReload(env, s.rows, ApplyAll(s, changes).rows, agentId, AgentRefs(env, s.attachments, agentId) + SessionRefs(refs));
    }
  }

  // ---- Narrowing ------------------------------------------------------------------------------------

  lemma {:induction false} OnePolicyPerRef(env: Env, rows: seq<PolicyRow>, agentId: string, refs: seq<Ref>)
    requires ResolveAll(env, rows, agentId, refs).Resolved?
    ensures |ResolveAll(env, rows, agentId, refs).policies| == |refs|
  {
    if refs != [] {
      OnePolicyPerRef(env, rows, agentId, refs[..|refs| - 1]);
    }
  }

  lemma {:induction false} ResolveSplit(env: Env, rows: seq<PolicyRow>, agentId: string, first: seq<Ref>, more: seq<Ref>)
    requires ResolveAll(env, rows, agentId, first + more).Resolved?
    ensures ResolveAll(env, rows, agentId, first).Resolved?
    ensures ResolveAll(env, rows, agentId, first).policies <= ResolveAll(env, rows, agentId, first + more).policies
  {
    if more == [] {
      assert first + more == first;
    } else {
      var n := |more| - 1;
      assert (first + more)[..|first + more| - 1] == first + more[..n];
      ResolveSplit(env, rows, agentId, first, more[..n]);
    }
  }

  lemma {:induction false} AttachedAreRefs(env: Env, attachments: seq<Attachment>, agentId: string)
    ensures |AgentRefs(env, attachments, agentId)| == |Attached(attachments, agentId)|
  {
    var key := (a: Attachment) => env.rank(a.policyId);
    SortProperties(key, Attached(attachments, agentId));
    assert |multiset(SortBy(key, Attached(attachments, agentId)))| == |multiset(Attached(attachments, agentId))|;
  }

  /** A session's decision is never less strict than the policies attached to its agent would give alone. */
  lemma {:induction false} SessionPoliciesOnlyNarrow(
      env: Env, s: Store, agentId: string, refs: seq<(string, Option<nat>)>, text: Text, a: Action, ctx: EvalContext)
    requires Attached(s.attachments, agentId) != [] && Resolve(env, s, agentId, refs).Resolved?
    ensures var alone := Resolve(env, s, agentId, []);
            && alone.Resolved? && alone.policies != []
            && Strictness(EvaluateAll(text, alone.policies, a, ctx).effect)
               <= Strictness(EvaluateAll(text, Resolve(env, s, agentId, refs).policies, a, ctx).effect)
  {
    var own := AgentRefs(env, s.attachments, agentId);
    ResolveSplit(env, s.rows, agentId, own, SessionRefs(refs));
    OnePolicyPerRef(env, s.rows, agentId, own);
    AttachedAreRefs(env, s.attachments, agentId);
    assert own + SessionRefs([]) == own;
    var base, all := ResolveAll(env, s.rows, agentId, own).policies, Resolve(env, s, agentId, refs).policies;
    assert all == base + all[|base|..];
    MorePoliciesNarrow(text, base, all[|base|..], a, ctx);
  }

  /** Without a policy attached to the agent, whatever the session asks for, every action is denied. */
  lemma {:induction false} NoAgentPolicyDeniesAll(
      env: Env, s: Store, agentId: string, refs: seq<(string, Option<nat>)>, text: Text, a: Action, ctx: EvalContext)
    requires Attached(s.attachments, agentId) == []
    ensures Resolve(env, s, agentId, refs).Resolved?
    ensures EvaluateAll(text, Resolve(env, s, agentId, refs).policies, a, ctx) == NO_POLICY && NO_POLICY.effect == Deny
  {
  }

  // ---- Attachments and versions ---------------------------------------------------------------------

  lemma {:induction false} WithoutMembers(attachments: seq<Attachment>, agentId: string, policyId: string)
    ensures forall a :: a in Without(attachments, agentId, policyId) <==>
                        a in attachments && !(a.agentId == agentId && a.policyId == policyId)
  {
    if attachments != [] {
      var n := |attachments| - 1;
      WithoutMembers(attachments[..n], agentId, policyId);
      assert attachments == attachments[..n] + [attachments[n]];
    }
  }

  /** Attaching leaves exactly one attachment of that policy to that agent, with the version given, and all others. */
  lemma AttachReplaces(s: Store, agentId: string, policyId: string, version: Option<nat>)
    ensures forall a :: a in Apply(s, Attach(agentId, policyId, version)).attachments <==>
              if a.agentId == agentId && a.policyId == policyId then a.version == version else a in s.attachments
  {
    WithoutMembers(s.attachments, agentId, policyId);
    forall a: Attachment | a.agentId == agentId && a.policyId == policyId && a.version == version
      ensures a == Attachment(agentId, policyId, version)
    {
    }
  }

  /** Detaching removes exactly that attachment. */
  lemma DetachRemoves(s: Store, agentId: string, policyId: string)
    ensures forall a :: a in Apply(s, Detach(agentId, policyId)).attachments <==>
              a in s.attachments && !(a.agentId == agentId && a.policyId == policyId)
  {
    WithoutMembers(s.attachments, agentId, policyId);
  }

  /** A reference without a version resolves to the latest one there is, one with a version to that one. */
  lemma {:induction false} ResolvedVersion(env: Env, changes: seq<Change>, agentId: string, ref: Ref)
    requires ResolveOne(env, ApplyAll(Store([], []), changes).rows, agentId, ref).Resolved?
    ensures var rows := ApplyAll(Store([], []), changes).rows;
            var pin := ResolveOne(env, rows, agentId, ref).pins[0];
            && pin.id == ref.id
            && (ref.version.Some? && ref.version.value != 0 ==> pin.version == ref.version.value)
            && (ref.version.None? ==> forall n :: 0 <= n < |rows| && rows[n].id == ref.id ==> rows[n].version <= pin.version)
            && exists n :: 0 <= n < |rows| && rows[n].id == ref.id && rows[n].version == pin.version
  {
    var rows := ApplyAll(Store([], []), changes).rows;
    var version := if ref.version.Some? && ref.version.value != 0 then ref.version.value else MaxVersion(rows, ref.id);
    FindIs(rows, ref.id, version);
    MaxVersionBounds(rows, ref.id);
    var n := FoundRow(rows, ref.id, version);
  }

  // ---- Which policies a session gets ----------------------------------------------------------------

  /** The row a reference means: the version it names, or else the latest there is. */
  ghost predicate Means(rows: seq<PolicyRow>, ref: Ref, n: int) {
    && 0 <= n < |rows| && rows[n].id == ref.id
    && if ref.version.Some? && ref.version.value != 0 then rows[n].version == ref.version.value
       else forall m :: 0 <= m < |rows| && rows[m].id == ref.id ==> rows[m].version <= rows[n].version
  }

  lemma {:induction false} FoundRow(rows: seq<PolicyRow>, id: string, version: nat) returns (n: nat)
    requires Find(rows, id, version).Some?
    ensures n < |rows| && Find(rows, id, version) == Some(rows[n]) && rows[n].id == id && rows[n].version == version
  {
    if rows[0].id == id && rows[0].version == version {
      n := 0;
    } else {
      n := FoundRow(rows[1..], id, version);
      n := n + 1;
    }
  }

  lemma {:induction false} LatestIsHighest(rows: seq<PolicyRow>, id: string, n: nat)
    requires Numbered(rows) && n < |rows| && rows[n].id == id
    requires forall m :: 0 <= m < |rows| && rows[m].id == id ==> rows[m].version <= rows[n].version
    ensures rows[n].version == MaxVersion(rows, id) > 0
  {
    MaxVersionBounds(rows, id);
    assert rows[n].version >= 1;
    EveryVersionExists(rows, id, MaxVersion(rows, id));
  }

  lemma {:induction false} OnlyOne(rows: seq<PolicyRow>, n: nat)
    requires Numbered(rows) && n < |rows|
    ensures Find(rows, rows[n].id, rows[n].version) == Some(rows[n])
  {
    FindFinds(rows, n);
    var k := FoundRow(rows, rows[n].id, rows[n].version);
    if k < n {
      LaterIsHigher(rows, k, n);
    } else if n < k {
      LaterIsHigher(rows, n, k);
    }
  }

  lemma MeantIsFound(rows: seq<PolicyRow>, ref: Ref, n: nat)
    requires Numbered(rows) && Means(rows, ref, n)
    ensures GetPolicy(rows, ref.id, ref.version) == Some(rows[n])
  {
    OnlyOne(rows, n);
    if ref.version.None? || ref.version.value == 0 {
      LatestIsHighest(rows, ref.id, n);
    }
  }

  lemma LaterIsHigher(rows: seq<PolicyRow>, i: nat, j: nat)
    requires Numbered(rows) && i < j < |rows| && rows[i].id == rows[j].id
    ensures rows[i].version < rows[j].version
  {
    MaxVersionBounds(rows[..j], rows[j].id);
    assert rows[..j][i] == rows[i];
  }

  lemma {:induction false} CreateKeepsNumbers(changes: seq<Change>, c: Change)
    ensures Numbered(Apply(ApplyAll(Store([], []), changes), c).rows)
  {
    assert (changes + [c])[..|changes|] == changes;
    VersionsStayNumbered(changes + [c]);
  }

  lemma NewestIsLatest(rows: seq<PolicyRow>, row: PolicyRow)
    requires Numbered(rows + [row])
    ensures GetPolicy(rows + [row], row.id, None) == Some(row)
  {
    var all := rows + [row];
    assert all[..|rows|] == rows && all[|rows|] == row;
    MaxVersionBounds(rows, row.id);
    assert Means(all, Ref(row.id, None, AgentLevel), |rows|);
    MeantIsFound(all, Ref(row.id, None, AgentLevel), |rows|);
  }

  lemma NewestStays(rows: seq<PolicyRow>, row: PolicyRow, later: seq<PolicyRow>)
    requires GetPolicy(rows + [row], row.id, None) == Some(row) && rows + [row] <= later && row.version != 0
    ensures GetPolicy(later, row.id, Some(row.version)) == Some(row)
  {
    FindIs(rows + [row], row.id, MaxVersion(rows + [row], row.id));
    FindStays(rows + [row], later, row.id, row.version);
  }

  /** A version just created is the latest, and whatever changes later, asking for it gives its document. */
  lemma {:induction false} CreatedIsKept(changes: seq<Change>, id: string, document: string, more: seq<Change>)
    ensures var before := ApplyAll(Store([], []), changes);
            var s, row := Apply(before, Create(id, document)), PolicyRow(id, MaxVersion(before.rows, id) + 1, document);
            && GetPolicy(s.rows, id, None) == Some(row)
            && GetPolicy(ApplyAll(s, more).rows, id, Some(row.version)) == Some(row)
  {
    var before := ApplyAll(Store([], []), changes);
    var s, row := Apply(before, Create(id, document)), PolicyRow(id, MaxVersion(before.rows, id) + 1, document);
    CreateKeepsNumbers(changes, Create(id, document));
    assert s.rows == before.rows + [row];
    NewestIsLatest(before.rows, row);
    RowsOnlyGrow(s, more);
    NewestStays(before.rows, row, ApplyAll(s, more).rows);
  }

  lemma FoundIsMeant(rows: seq<PolicyRow>, ref: Ref)
    requires GetPolicy(rows, ref.id, ref.version).Some?
    ensures exists n :: Means(rows, ref, n)
  {
    var version := if ref.version.Some? && ref.version.value != 0 then ref.version.value else MaxVersion(rows, ref.id);
    var n := FoundRow(rows, ref.id, version);
    MaxVersionBounds(rows, ref.id);
    assert Means(rows, ref, n);
  }

  /** What a reference gives: its document's policy under its version, or the reason why it cannot be used. */
  ghost predicate Gives(env: Env, rows: seq<PolicyRow>, agentId: string, ref: Ref, r: Resolution) {
    || ((forall n :: !Means(rows, ref, n)) && r == Failed(NotFound(ref.id)))
    || exists n :: Means(rows, ref, n) && GivesRow(env, rows[n], agentId, ref, r)
  }

  ghost predicate GivesRow(env: Env, row: PolicyRow, agentId: string, ref: Ref, r: Resolution) {
    match env.parse(row.document)
    case None => r == Failed(Invalid(ref.id))
    case Some(policy) =>
      if policy.scope == [] || agentId in policy.scope
      then r == Resolved([policy.(version := row.version)], [Pin(ref.id, row.version, ref.source)])
      else r == Failed(OutOfScope(ref.id))
  }

  lemma {:induction false} OneGives(env: Env, changes: seq<Change>, agentId: string, ref: Ref)
    ensures var rows := ApplyAll(Store([], []), changes).rows; Gives(env, rows, agentId, ref, ResolveOne(env, rows, agentId, ref))
  {
    var rows := ApplyAll(Store([], []), changes).rows;
    VersionsStayNumbered(changes);
    if n: nat :| Means(rows, ref, n) {
      MeantIsFound(rows, ref, n);
      assert GivesRow(env, rows[n], agentId, ref, ResolveOne(env, rows, agentId, ref));
    } else if GetPolicy(rows, ref.id, ref.version).Some? {
      FoundIsMeant(rows, ref);
    }
  }

  ghost predicate GiveAll(
      env: Env, rows: seq<PolicyRow>, agentId: string, refs: seq<Ref>, policies: seq<Policy>, pins: seq<Pin>)
  {
    && |policies| == |pins| == |refs|
    && forall i :: 0 <= i < |refs| ==> Gives(env, rows, agentId, refs[i], Resolved([policies[i]], [pins[i]]))
  }

  ghost predicate Usable(env: Env, rows: seq<PolicyRow>, agentId: string, ref: Ref) {
    exists policy, pin :: Gives(env, rows, agentId, ref, Resolved([policy], [pin]))
  }

  ghost predicate FirstUnusable(env: Env, rows: seq<PolicyRow>, agentId: string, refs: seq<Ref>, k: int, why: Failure) {
    && 0 <= k < |refs|
    && Gives(env, rows, agentId, refs[k], Failed(why))
    && forall i :: 0 <= i < k ==> Usable(env, rows, agentId, refs[i])
  }

  ghost predicate Outcome(env: Env, rows: seq<PolicyRow>, agentId: string, refs: seq<Ref>, r: Resolution) {
    match r
    case Resolved(policies, pins) => GiveAll(env, rows, agentId, refs, policies, pins)
    case Failed(why) => exists k :: FirstUnusable(env, rows, agentId, refs, k, why)
  }

  lemma GiveMore(
      env: Env, rows: seq<PolicyRow>, agentId: string, refs: seq<Ref>, policies: seq<Policy>, pins: seq<Pin>,
      ref: Ref, policy: Policy, pin: Pin)
    requires GiveAll(env, rows, agentId, refs, policies, pins) && Gives(env, rows, agentId, ref, Resolved([policy], [pin]))
    ensures GiveAll(env, rows, agentId, refs + [ref], policies + [policy], pins + [pin])
  {
  }

  lemma GiveAllAreUsable(
      env: Env, rows: seq<PolicyRow>, agentId: string, refs: seq<Ref>, policies: seq<Policy>, pins: seq<Pin>,
      ref: Ref, why: Failure)
    requires GiveAll(env, rows, agentId, refs, policies, pins) && Gives(env, rows, agentId, ref, Failed(why))
    ensures FirstUnusable(env, rows, agentId, refs + [ref], |refs|, why)
  {
    forall i | 0 <= i < |refs|
      ensures Usable(env, rows, agentId, (refs + [ref])[i])
    {
      assert Gives(env, rows, agentId, refs[i], Resolved([policies[i]], [pins[i]]));
    }
  }

  /** Every reference in turn gives one policy and one pin; the first that cannot be used fails the whole. */
  lemma {:induction false} AllGive(env: Env, changes: seq<Change>, agentId: string, refs: seq<Ref>)
    ensures var rows := ApplyAll(Store([], []), changes).rows;
            Outcome(env, rows, agentId, refs, ResolveAll(env, rows, agentId, refs))
  {
    if refs != [] {
      var rows := ApplyAll(Store([], []), changes).rows;
      var n := |refs| - 1;
      var before, one := ResolveAll(env, rows, agentId, refs[..n]), ResolveOne(env, rows, agentId, refs[n]);
      assert refs == refs[..n] + [refs[n]];
      AllGive(env, changes, agentId, refs[..n]);
      OneGives(env, changes, agentId, refs[n]);
      if before.Failed? {
        var k :| FirstUnusable(env, rows, agentId, refs[..n], k, before.failure);
        assert FirstUnusable(env, rows, agentId, refs, k, before.failure);
      } else if one.Resolved? {
        assert one == Resolved([one.policies[0]], [one.pins[0]]);
        GiveMore(env, rows, agentId, refs[..n], before.policies, before.pins, refs[n], one.policies[0], one.pins[0]);
      } else {
        GiveAllAreUsable(env, rows, agentId, refs[..n], before.policies, before.pins, refs[n], one.failure);
      }
    }
  }

  /** The agent's own references: one for each of its attachments, in the order of policy ids. */
  lemma AgentRefsAreAttachments(env: Env, attachments: seq<Attachment>, agentId: string)
    ensures var refs := AgentRefs(env, attachments, agentId);
            && (forall i :: 0 <= i < |refs| ==> refs[i].source == AgentLevel)
            && (forall i :: 0 <= i < |refs| ==> Attachment(agentId, refs[i].id, refs[i].version) in attachments)
            && (forall a :: a in attachments && a.agentId == agentId ==> Ref(a.policyId, a.version, AgentLevel) in refs)
            && (forall i, j :: 0 <= i < j < |refs| ==> env.rank(refs[i].id) <= env.rank(refs[j].id))
  {
    var key := (a: Attachment) => env.rank(a.policyId);
    var own := Attached(attachments, agentId);
    var listed, refs := SortBy(key, own), AgentRefs(env, attachments, agentId);
    SortProperties(key, own);
    AttachedMembers(attachments, agentId);
    assert forall i :: 0 <= i < |listed| ==> refs[i] == Ref(listed[i].policyId, listed[i].version, AgentLevel);
    forall i | 0 <= i < |refs|
      ensures Attachment(agentId, refs[i].id, refs[i].version) in attachments
    {
      assert listed[i] in multiset(listed) && listed[i] in multiset(own);
    }
    forall a | a in attachments && a.agentId == agentId
      ensures Ref(a.policyId, a.version, AgentLevel) in refs
    {
      assert a in multiset(own) && a in multiset(listed);
      var i :| 0 <= i < |listed| && listed[i] == a;
      assert refs[i] == Ref(a.policyId, a.version, AgentLevel);
    }
  }

  lemma {:induction false} AttachedMembers(attachments: seq<Attachment>, agentId: string)
    ensures forall a :: a in Attached(attachments, agentId) <==> a in attachments && a.agentId == agentId
  {
    if attachments != [] {
      var n := |attachments| - 1;
      AttachedMembers(attachments[..n], agentId);
      assert attachments == attachments[..n] + [attachments[n]];
    }
  }

  /** An agent with a policy gets those of its own attachments first and then those the session asked for. */
  lemma {:induction false} ResolveTakesBoth(env: Env, s: Store, agentId: string, refs: seq<(string, Option<nat>)>, own: Attachment)
    requires own in s.attachments && own.agentId == agentId
    ensures var all := AgentRefs(env, s.attachments, agentId);
            && Resolve(env, s, agentId, refs) == ResolveAll(env, s.rows, agentId, all + SessionRefs(refs))
            && |SessionRefs(refs)| == |refs|
            && forall i :: 0 <= i < |refs| ==> SessionRefs(refs)[i] == Ref(refs[i].0, refs[i].1, SessionLevel)
  {
    AttachedMembers(s.attachments, agentId);
  }
}
