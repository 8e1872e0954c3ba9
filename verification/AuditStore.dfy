/** The shared audit table under interleaved appends, each split into lock, read, insert and release. */
module AuditStore {
  import opened Json
  import opened Model
  import opened Sorting
  import opened Chain

  // ---- One session's rows ---------------------------------------------------------------------------

  /** The rows of a session, in table order. */
  function Of(table: seq<Row>, sid: string): seq<Row> {
    if table == [] then []
    else
      var n := |table| - 1;
      Of(table[..n], sid) + (if table[n].body.sessionId == sid then [table[n]] else [])
  }

  lemma {:induction false} OfAppend(table: seq<Row>, row: Row, sid: string)
    ensures Of(table + [row], sid) == Of(table, sid) + (if row.body.sessionId == sid then [row] else [])
  {
    assert (table + [row])[..|table|] == table;
  }

  lemma {:induction false} OfPrefix(table: seq<Row>, n: nat, sid: string)
    requires n <= |table|
    ensures Of(table[..n], sid) <= Of(table, sid)
  {
    if n < |table| {
      assert table[..|table| - 1][..n] == table[..n];
      OfPrefix(table[..|table| - 1], n, sid);
    } else {
      assert table[..n] == table;
    }
  }

  /** The link the next row of a session continues. */
  function Next(rows: seq<Row>): (int, string) {
    (|rows| + 1, PrevOf(rows, |rows|))
  }

  lemma AppendVerifies(h: Hashing, rows: seq<Row>, row: Row)
    requires Verifies(h, rows)
    requires row.body.seqNo == |rows| + 1 && row.prevHash == PrevOf(rows, |rows|)
    requires row.hash == EventHash(h, PrevOf(rows, |rows|), row.body)
    ensures Verifies(h, rows + [row])
  {
    var longer := rows + [row];
    forall i | 0 <= i < |longer|
      ensures LinkOk(h, longer, i)
    {
      assert PrevOf(longer, i) == PrevOf(rows, i);
      if i < |rows| {
        assert LinkOk(h, rows, i);
      }
    }
  }

  /** Appending a row that continues its own session's chain keeps every session's chain. */
  lemma {:induction false} TableAppend(h: Hashing, table: seq<Row>, row: Row)
    requires forall sid :: Verifies(h, Of(table, sid))
    requires (row.body.seqNo, row.prevHash) == Next(Of(table, row.body.sessionId))
    requires row.hash == EventHash(h, row.prevHash, row.body)
    ensures forall sid :: Verifies(h, Of(table + [row], sid))
    ensures forall sid :: sid != row.body.sessionId ==> Of(table + [row], sid) == Of(table, sid)
  {
    forall sid
      ensures Verifies(h, Of(table + [row], sid))
      ensures sid != row.body.sessionId ==> Of(table + [row], sid) == Of(table, sid)
    {
      OfAppend(table, row, sid);
      if sid == row.body.sessionId {
        AppendVerifies(h, Of(table, sid), row);
      } else {
        assert Verifies(h, Of(table, sid)) && Of(table + [row], sid) == Of(table, sid);
      }
    }
  }

  /** Scanning one more row: it is the session's newest so far exactly if it belongs to the session. */
  lemma {:induction false} ScanStep(h: Hashing, table: seq<Row>, i: nat, sid: string)
    requires i < |table| && Verifies(h, Of(table, sid))
    ensures var before, after := Of(table[..i], sid), Of(table[..i + 1], sid);
            && (table[i].body.sessionId != sid ==> after == before)
            && (table[i].body.sessionId == sid ==>
                  after == before + [table[i]]
                  && (before != [] ==> before[|before| - 1].body.seqNo < table[i].body.seqNo))
  {
    assert table[..i + 1] == table[..i] + [table[i]];
    OfAppend(table[..i], table[i], sid);
    OfPrefix(table, i + 1, sid);
    var n := |Of(table[..i], sid)|;
    if table[i].body.sessionId == sid && n > 0 {
      assert LinkOk(h, Of(table, sid), n) && LinkOk(h, Of(table, sid), n - 1);
    }
  }

  /** What the next row continues can be read off the last one. */
  lemma {:induction false} NextIs(h: Hashing, rows: seq<Row>)
    requires Verifies(h, rows)
    ensures Next(rows) == if rows == [] then (1, GENESIS) else (rows[|rows| - 1].body.seqNo + 1, rows[|rows| - 1].hash)
  {
    if rows != [] {
      assert LinkOk(h, rows, |rows| - 1);
    }
  }

  // ---- Interleaved appends --------------------------------------------------------------------------

  datatype Entry = Entry(sid: string, agentId: string, kind: string, payload: Json, copies: seq<Option<string>>)

  datatype Stage =
    | Waiting                          // for the session's lock
    | Locked                           // lock held, nothing read
    | Linked(seqNo: int, prev: string) // last row read
    | Ended(row: Option<Row>)          // committed, or failed before; lock still held
    | Gone(row: Option<Row>)           // the caller has its answer: the row, or an exception

  predicate Holding(st: Stage) {
    st.Locked? || st.Linked? || st.Ended?
  }

  datatype Writer = Writer(entry: Entry, stage: Stage)

  function Answer(x: Writer): Option<Row> {
    if x.stage.Ended? || x.stage.Gone? then x.stage.row else None
  }

  /** The table, who holds each session's lock, and one append in progress per thread. */
  datatype Store = Store(table: seq<Row>, nextId: nat, locks: map<string, nat>, writers: seq<Writer>)

  datatype Event =
    | Begin(entry: Entry)
    | Acquire(w: nat)
    | ReadLast(w: nat, ok: bool)
    | Insert(w: nat, ts: string, ok: bool)
    | Release(w: nat)

  const EMPTY := Store([], 1, map[], [])

  function Turn(s: Store, w: nat, st: Stage): seq<Writer>
    requires w < |s.writers|
  {
    s.writers[w := s.writers[w].(stage := st)]
  }

  function Link(s: Store, entry: Entry): Stage {
    var (seqNo, prev) := Next(Of(s.table, entry.sid));
    Linked(seqNo, prev)
  }

  function NewRow(h: Hashing, s: Store, w: nat, ts: string): Row
    requires w < |s.writers| && s.writers[w].stage.Linked?
  {
    var x, link := s.writers[w].entry, s.writers[w].stage;
    var body := Body(x.sid, link.seqNo, ts, x.agentId, x.kind, x.payload);
    Row(s.nextId, body, x.copies, link.prev, EventHash(h, link.prev, body))
  }

  predicate Enabled(s: Store, e: Event) {
    match e
    case Begin(_) => true
    case Acquire(w) => w < |s.writers| && s.writers[w].stage.Waiting? && s.writers[w].entry.sid !in s.locks
    case ReadLast(w, _) => w < |s.writers| && s.writers[w].stage.Locked?
    case Insert(w, _, _) => w < |s.writers| && s.writers[w].stage.Linked?
    case Release(w) => w < |s.writers| && s.writers[w].stage.Ended?
  }

  function Step(h: Hashing, s: Store, e: Event): Store {
    if !Enabled(s, e) then s
    else match e
      case Begin(entry) => s.(writers := s.writers + [Writer(entry, Waiting)])
      case Acquire(w) => s.(locks := s.locks[s.writers[w].entry.sid := w], writers := Turn(s, w, Locked))
      case ReadLast(w, ok) => s.(writers := Turn(s, w, if ok then Link(s, s.writers[w].entry) else Ended(None)))
      case Insert(w, ts, ok) =>
        var row := NewRow(h, s, w, ts);
        s.(table := if ok then s.table + [row] else s.table, nextId := s.nextId + 1,
           writers := Turn(s, w, Ended(if ok then Some(row) else None)))
      case Release(w) => s.(locks := s.locks - {s.writers[w].entry.sid}, writers := Turn(s, w, Gone(s.writers[w].stage.row)))
  }

  function Run(h: Hashing, events: seq<Event>): Store {
    if events == [] then EMPTY
    else Step(h, Run(h, events[..|events| - 1]), events[|events| - 1])
  }

  // ---- What every interleaving keeps ----------------------------------------------------------------

  /** A writer holds its session's lock from start to end, and what it read is still the end of the chain. */
  ghost predicate WriterOk(s: Store, w: nat)
    requires w < |s.writers|
  {
    var x := s.writers[w];
    && (Holding(x.stage) <==> x.entry.sid in s.locks && s.locks[x.entry.sid] == w)
    && (x.stage.Linked? ==> (x.stage.seqNo, x.stage.prev) == Next(Of(s.table, x.entry.sid)))
  }

  ghost predicate LocksOk(s: Store) {
    && (forall w :: 0 <= w < |s.writers| ==> WriterOk(s, w))
    && (forall sid :: sid in s.locks ==> s.locks[sid] < |s.writers| && s.writers[s.locks[sid]].entry.sid == sid)
  }

  ghost predicate ChainsOk(h: Hashing, s: Store) {
    forall sid :: Verifies(h, Of(s.table, sid))
  }

  function IdOf(row: Row): int {
    row.id
  }

  ghost predicate IdsOk(s: Store) {
    Ascending(IdOf, s.table) && forall i :: 0 <= i < |s.table| ==> s.table[i].id < s.nextId
  }

  ghost predicate Records(row: Row, x: Entry) {
    && row.body.sessionId == x.sid && row.body.agentId == x.agentId && row.body.kind == x.kind
    && row.body.payload == x.payload && row.copies == x.copies
  }

  ghost predicate Answered(s: Store, row: Row) {
    exists w :: 0 <= w < |s.writers| && Answer(s.writers[w]) == Some(row)
  }

  /** The rows of the table are the answers the writers got, each writer's own. */
  ghost predicate AnswersOk(s: Store) {
    && (forall w :: 0 <= w < |s.writers| && Answer(s.writers[w]).Some? ==>
          Answer(s.writers[w]).value in s.table && Records(Answer(s.writers[w]).value, s.writers[w].entry))
    && (forall v, w :: 0 <= v < w < |s.writers| && Answer(s.writers[v]).Some? ==>
          Answer(s.writers[v]) != Answer(s.writers[w]))
    && (forall i :: 0 <= i < |s.table| ==> Answered(s, s.table[i]))
  }

  ghost predicate Inv(h: Hashing, s: Store) {
    LocksOk(s) && ChainsOk(h, s) && IdsOk(s) && AnswersOk(s)
  }

  lemma InsertLinks(h: Hashing, s: Store, w: nat, ts: string)
    requires Inv(h, s) && Enabled(s, Insert(w, ts, true))
    ensures var row := NewRow(h, s, w, ts);
            && (forall sid :: Verifies(h, Of(s.table + [row], sid)))
            && (forall sid :: sid != s.writers[w].entry.sid ==> Of(s.table + [row], sid) == Of(s.table, sid))
  {
    assert WriterOk(s, w);
    TableAppend(h, s.table, NewRow(h, s, w, ts));
  }

  lemma WriterStays(h: Hashing, s: Store, e: Event, w: nat)
    requires Inv(h, s) && w < |Step(h, s, e).writers|
    ensures WriterOk(Step(h, s, e), w)
  {
    if w < |s.writers| {
      assert WriterOk(s, w);
    }
    if !e.Begin? && Enabled(s, e) {
      assert WriterOk(s, e.w);
      if e.Insert? {
        InsertLinks(h, s, e.w, e.ts);
      }
    }
  }

  lemma StepKeepsLocks(h: Hashing, s: Store, e: Event)
    requires Inv(h, s)
    ensures LocksOk(Step(h, s, e))
  {
    forall w: nat | w < |Step(h, s, e).writers|
      ensures WriterOk(Step(h, s, e), w)
    {
      WriterStays(h, s, e, w);
    }
  }

  lemma StepKeepsChains(h: Hashing, s: Store, e: Event)
    requires Inv(h, s)
    ensures ChainsOk(h, Step(h, s, e)) && IdsOk(Step(h, s, e))
  {
    if e.Insert? && Enabled(s, e) {
      InsertLinks(h, s, e.w, e.ts);
    }
  }

  /** Rows stay, and so does what a writer was asked and has answered. */
  ghost predicate Extends(s: Store, s': Store) {
    && s.table <= s'.table && |s.writers| <= |s'.writers|
    && forall w :: 0 <= w < |s.writers| ==>
         s'.writers[w].entry == s.writers[w].entry
         && (Answer(s.writers[w]).Some? ==> Answer(s'.writers[w]) == Answer(s.writers[w]))
  }

  lemma StepExtends(h: Hashing, s: Store, e: Event)
    ensures Extends(s, Step(h, s, e))
  {
  }

  /** An answer is given once, by the insert that commits. */
  lemma AnswerSource(h: Hashing, s: Store, e: Event, w: nat)
    requires w < |Step(h, s, e).writers| && Answer(Step(h, s, e).writers[w]).Some?
    ensures || (w < |s.writers| && Answer(s.writers[w]) == Answer(Step(h, s, e).writers[w]))
            || (e.Insert? && e.w == w && e.ok && Enabled(s, e) && Answer(s.writers[w]).None?
                && Answer(Step(h, s, e).writers[w]) == Some(NewRow(h, s, w, e.ts)))
  {
  }

  lemma AnswerStays(h: Hashing, s: Store, e: Event, w: nat)
    requires Inv(h, s) && w < |Step(h, s, e).writers| && Answer(Step(h, s, e).writers[w]).Some?
    ensures var x, s' := Step(h, s, e).writers[w], Step(h, s, e);
            Answer(x).value in s'.table && Records(Answer(x).value, x.entry)
  {
    StepExtends(h, s, e);
    AnswerSource(h, s, e, w);
    if w < |s.writers| && Answer(s.writers[w]).Some? {
      var i :| 0 <= i < |s.table| && s.table[i] == Answer(s.writers[w]).value;
      assert Step(h, s, e).table[i] == s.table[i];
    } else {
      assert WriterOk(s, w);
      assert Step(h, s, e).table[|s.table|] == NewRow(h, s, w, e.ts);
    }
  }

  lemma AnswersDiffer(h: Hashing, s: Store, e: Event, v: nat, w: nat)
    requires Inv(h, s) && v < |Step(h, s, e).writers| && w < |Step(h, s, e).writers| && v != w
    requires Answer(Step(h, s, e).writers[v]).Some?
    ensures Answer(Step(h, s, e).writers[v]) != Answer(Step(h, s, e).writers[w])
  {
    AnswerSource(h, s, e, v);
    if Answer(Step(h, s, e).writers[w]).Some? {
      AnswerSource(h, s, e, w);
    }
  }

  lemma RowIsAnswered(h: Hashing, s: Store, e: Event, i: nat)
    requires Inv(h, s) && i < |Step(h, s, e).table|
    ensures Answered(Step(h, s, e), Step(h, s, e).table[i])
  {
    StepExtends(h, s, e);
    if i < |s.table| {
      assert Answered(s, s.table[i]);
      var w :| 0 <= w < |s.writers| && Answer(s.writers[w]) == Some(s.table[i]);
      assert Answer(Step(h, s, e).writers[w]) == Some(s.table[i]);
    } else {
      assert Answer(Step(h, s, e).writers[e.w]) == Some(Step(h, s, e).table[i]);
    }
  }

  lemma StepKeepsAnswers(h: Hashing, s: Store, e: Event)
    requires Inv(h, s)
    ensures AnswersOk(Step(h, s, e))
  {
    var s' := Step(h, s, e);
    forall w: nat | w < |s'.writers| && Answer(s'.writers[w]).Some?
      ensures Answer(s'.writers[w]).value in s'.table && Records(Answer(s'.writers[w]).value, s'.writers[w].entry)
    {
      AnswerStays(h, s, e, w);
    }
    forall v: nat, w: nat | v < w < |s'.writers| && Answer(s'.writers[v]).Some?
      ensures Answer(s'.writers[v]) != Answer(s'.writers[w])
    {
      AnswersDiffer(h, s, e, v, w);
    }
    forall i: nat | i < |s'.table|
      ensures Answered(s', s'.table[i])
    {
      RowIsAnswered(h, s, e, i);
    }
  }

  /** Every step of every writer keeps every session's chain. */
  lemma StepKeeps(h: Hashing, s: Store, e: Event)
    requires Inv(h, s)
    ensures Inv(h, Step(h, s, e))
  {
    StepKeepsLocks(h, s, e);
    StepKeepsChains(h, s, e);
    StepKeepsAnswers(h, s, e);
  }

  lemma {:induction false} RunKeeps(h: Hashing, events: seq<Event>)
    ensures Inv(h, Run(h, events))
  {
    if events == [] {
      assert forall sid :: Of(EMPTY.table, sid) == [];
    } else {
      var n := |events| - 1;
      RunKeeps(h, events[..n]);
      StepKeeps(h, Run(h, events[..n]), events[n]);
    }
  }

  // ---- What callers may rely on ---------------------------------------------------------------------

  /**
   * However appends interleave and wherever they fail, every session's chain verifies, an append that returned has
   * written the row it returned, saying what its caller asked for, no two returned the same row, and no other row exists.
   */
  lemma {:induction false} AppendsAreRows(h: Hashing, events: seq<Event>, w: nat, v: nat)
    requires var s := Run(h, events); v < |s.writers| && w < |s.writers| && Answer(s.writers[w]).Some?
    ensures var s := Run(h, events);
            var row := Answer(s.writers[w]).value;
            && row in s.table && Records(row, s.writers[w].entry) && Verifies(h, Of(s.table, row.body.sessionId))
            && (Answer(s.writers[v]) == Some(row) ==> v == w)
            && (forall i :: 0 <= i < |s.table| ==> Answered(s, s.table[i]))
  {
    RunKeeps(h, events);
  }

  lemma {:induction false} RunExtends(h: Hashing, events: seq<Event>, more: seq<Event>)
    ensures Extends(Run(h, events), Run(h, events + more))
  {
    if more == [] {
      assert events + more == events;
    } else {
      var n := |more| - 1;
      RunExtends(h, events, more[..n]);
      assert (events + more)[..|events + more| - 1] == events + more[..n];
      StepExtends(h, Run(h, events + more[..n]), more[n]);
    }
  }

  /** Where the row at position i stands in its session's chain. */
  lemma {:induction false} PlaceInChain(table: seq<Row>, i: nat)
    requires i < |table|
    ensures var own, place := Of(table, table[i].body.sessionId), |Of(table[..i], table[i].body.sessionId)|;
            place < |own| && own[place] == table[i]
  {
    var sid := table[i].body.sessionId;
    assert table[..i + 1] == table[..i] + [table[i]];
    OfAppend(table[..i], table[i], sid);
    OfPrefix(table, i + 1, sid);
  }

  lemma PlacesAscend(table: seq<Row>, i: nat, j: nat)
    requires i < j < |table|
    ensures var sid := table[i].body.sessionId; |Of(table[..i], sid)| < |Of(table[..j], sid)|
  {
    var sid := table[i].body.sessionId;
    assert table[..j][..i + 1] == table[..i] + [table[i]];
    OfAppend(table[..i], table[i], sid);
    OfPrefix(table[..j], i + 1, sid);
  }

  /** Rows of one session further down the table have higher sequence numbers. */
  lemma {:induction false} SeqNosAscend(h: Hashing, table: seq<Row>, i: nat, j: nat)
    requires i < j < |table| && table[i].body.sessionId == table[j].body.sessionId
    requires Verifies(h, Of(table, table[i].body.sessionId))
    ensures table[i].body.seqNo < table[j].body.seqNo
  {
    var sid := table[i].body.sessionId;
    var own, m, n := Of(table, sid), |Of(table[..i], sid)|, |Of(table[..j], sid)|;
    PlaceInChain(table, i);
    PlaceInChain(table, j);
    PlacesAscend(table, i, j);
    assert LinkOk(h, own, m) && LinkOk(h, own, n);
  }

  /** The row of a writer that came later is a later row. */
  lemma LaterRow(s: Store, s': Store, w: nat, j: nat)
    requires AnswersOk(s) && AnswersOk(s') && Extends(s, s')
    requires |s.writers| <= w < |s'.writers| && j < |s'.table| && Answer(s'.writers[w]) == Some(s'.table[j])
    ensures |s.table| <= j
  {
  }

  /** An append that begins after another one of its session has returned comes later in the chain. */
  lemma {:induction false} ChainFollowsCalls(h: Hashing, events: seq<Event>, more: seq<Event>, v: nat, w: nat)
    requires var s, s' := Run(h, events), Run(h, events + more);
             && v < |s.writers| <= w < |s'.writers| && s.writers[v].entry.sid == s'.writers[w].entry.sid
             && Answer(s.writers[v]).Some? && Answer(s'.writers[w]).Some?
    ensures var s, s' := Run(h, events), Run(h, events + more);
            Answer(s.writers[v]).value.body.seqNo < Answer(s'.writers[w]).value.body.seqNo
  {
    var s, s' := Run(h, events), Run(h, events + more);
    RunKeeps(h, events);
    RunKeeps(h, events + more);
    RunExtends(h, events, more);
    var i :| 0 <= i < |s.table| && s.table[i] == Answer(s.writers[v]).value;
    var j :| 0 <= j < |s'.table| && s'.table[j] == Answer(s'.writers[w]).value;
    LaterRow(s, s', w, j);
    SeqNosAscend(h, s'.table, i, j);
  }

  /** The steps of one append from the lock on. */
  function Appending(events: seq<Event>, w: nat, ts: string): seq<Event> {
    events + [Acquire(w)] + [ReadLast(w, true)] + [Insert(w, ts, true)] + [Release(w)]
  }

  lemma {:induction false} RunStep(h: Hashing, events: seq<Event>, e: Event)
    ensures Run(h, events + [e]) == Step(h, Run(h, events), e)
  {
    assert (events + [e])[..|events + [e]| - 1] == events;
  }

  /** The append waits, and nobody holds the lock of its session. */
  ghost predicate NextIn(s: Store, w: nat) {
    w < |s.writers| && s.writers[w].stage.Waiting? && s.writers[w].entry.sid !in s.locks
  }

  /** An append that begins waits for its turn, and has it at once if nobody holds the lock. */
  lemma {:induction false} BeginsWaiting(h: Hashing, events: seq<Event>, entry: Entry)
    ensures var s, s' := Run(h, events), Run(h, events + [Begin(entry)]);
            && s'.writers == s.writers + [Writer(entry, Waiting)] && s' == s.(writers := s'.writers)
            && (NextIn(s', |s.writers|) <==> entry.sid !in s.locks)
  {
    RunStep(h, events, Begin(entry));
  }

  /** An append whose turn it is adds one row, numbered after its session's last and linked to it, and frees the lock. */
  lemma {:induction false} AppendCompletes(h: Hashing, events: seq<Event>, w: nat, ts: string)
    requires NextIn(Run(h, events), w)
    ensures var s, s' := Run(h, events), Run(h, Appending(events, w, ts));
            var x, own := s.writers[w].entry, Of(s.table, s.writers[w].entry.sid);
            && |s'.table| == |s.table| + 1 && s.table <= s'.table && s'.locks == s.locks && |s'.writers| == |s.writers|
            && var row := s'.table[|s.table|];
               && row.body == Body(x.sid, |own| + 1, ts, x.agentId, x.kind, x.payload) && row.copies == x.copies
               && row.prevHash == (if own == [] then Zeros(64) else own[|own| - 1].hash)
               && row.hash == EventHash(h, row.prevHash, row.body)
               && Answer(s'.writers[w]) == Some(row) && s'.writers[w].stage.Gone?
  {
    RunStep(h, events, Acquire(w));
    RunStep(h, events + [Acquire(w)], ReadLast(w, true));
    RunStep(h, events + [Acquire(w)] + [ReadLast(w, true)], Insert(w, ts, true));
    RunStep(h, events + [Acquire(w)] + [ReadLast(w, true)] + [Insert(w, ts, true)], Release(w));
    assert Run(h, Appending(events, w, ts)).locks == Run(h, events).locks;
  }

  /**
   * A failed read or insert leaves the table as it was, and the lock is free again; the caller gets an exception, and a
   * failed insert has used up an id.
   */
  lemma {:induction false} FailedAppendLeavesNothing(h: Hashing, events: seq<Event>, w: nat, ts: string, read: bool)
    requires NextIn(Run(h, events), w)
    ensures var s := Run(h, events);
            var tried := if read then events + [Acquire(w)] + [ReadLast(w, true)] + [Insert(w, ts, false)]
                         else events + [Acquire(w)] + [ReadLast(w, false)];
            var s' := Run(h, tried + [Release(w)]);
            && s'.table == s.table && s'.locks == s.locks && |s'.writers| == |s.writers|
            && s'.nextId == s.nextId + (if read then 1 else 0)
            && s'.writers[w].stage.Gone? && Answer(s'.writers[w]).None?
  {
    RunStep(h, events, Acquire(w));
    if read {
      RunStep(h, events + [Acquire(w)], ReadLast(w, true));
      RunStep(h, events + [Acquire(w)] + [ReadLast(w, true)], Insert(w, ts, false));
      RunStep(h, events + [Acquire(w)] + [ReadLast(w, true)] + [Insert(w, ts, false)], Release(w));
    } else {
      RunStep(h, events + [Acquire(w)], ReadLast(w, false));
      RunStep(h, events + [Acquire(w)] + [ReadLast(w, false)], Release(w));
    }
  }

  // ---- The store ------------------------------------------------------------------------------------

  function SeqNoOf(row: Row): int {
    row.body.seqNo
  }

  /** A verifying list is already in sequence order. */
  lemma {:induction false} VerifiedIsSorted(h: Hashing, rows: seq<Row>)
    requires Verifies(h, rows)
    ensures SortBy(SeqNoOf, rows) == rows
  {
    forall i, j | 0 <= i < j < |rows|
      ensures SeqNoOf(rows[i]) < SeqNoOf(rows[j])
    {
      assert LinkOk(h, rows, i) && LinkOk(h, rows, j);
    }
    SortRecovers(SeqNoOf, rows, rows);
  }

  class AuditStore {
    const h: Hashing
    var table: seq<Row>
    var nextId: nat
    var locks: map<string, nat>
    var writers: seq<Writer>

    function State(): Store
      reads this
    {
      Store(table, nextId, locks, writers)
    }

    /** Every session's chain verifies, whatever appends are half done. */
    ghost predicate Valid()
      reads this
    {
      Inv(h, State())
    }

    constructor (h: Hashing)
      ensures this.h == h && State() == EMPTY && Valid()
    {
      this.h := h;
      table, nextId, locks, writers := [], 1, map[], [];
    }

    /** append_audit is called: the writer now waits for its session's lock. */
    method Begin(entry: Entry) returns (w: nat)
      requires Valid()
      modifies this`writers
      ensures w == |old(writers)| && State() == Step(h, old(State()), Event.Begin(entry)) && Valid()
    {
      StepKeeps(h, State(), Event.Begin(entry));
      w := |writers|;
      writers := writers + [Writer(entry, Waiting)];
    }

    method Acquire(w: nat)
      requires Valid() && Enabled(State(), Event.Acquire(w))
      modifies this`locks, this`writers
      ensures State() == Step(h, old(State()), Event.Acquire(w)) && Valid()
    {
      StepKeeps(h, State(), Event.Acquire(w));
      var x := writers[w];
      locks := locks[x.entry.sid := w];
      writers := writers[w := x.(stage := Locked)];
    }

    /** The row of the session with the highest sequence number. */
    method LastOf(sid: string) returns (last: Option<Row>)
      requires Valid()
      ensures last.None? <==> Of(table, sid) == []
      ensures last.Some? ==> last.value == Of(table, sid)[|Of(table, sid)| - 1]
    {
      last := None;
      assert table[..0] == [];
      for i := 0 to |table|
        invariant last.None? <==> Of(table[..i], sid) == []
        invariant last.Some? ==> last.value == Of(table[..i], sid)[|Of(table[..i], sid)| - 1]
      {
        ScanStep(h, table, i, sid);
        if table[i].body.sessionId == sid && (last.None? || last.value.body.seqNo < table[i].body.seqNo) {
          last := Some(table[i]);
        }
      }
      assert table[..|table|] == table;
    }

    /** The row to continue is read, or the read fails and the append is over. */
    method ReadLast(w: nat, ok: bool)
      requires Valid() && Enabled(State(), Event.ReadLast(w, ok))
      modifies this`writers
      ensures State() == Step(h, old(State()), Event.ReadLast(w, ok)) && Valid()
    {
      StepKeeps(h, State(), Event.ReadLast(w, ok));
      var x := writers[w];
      if !ok {
        writers := writers[w := x.(stage := Ended(None))];
        return;
      }
      var last := LastOf(x.entry.sid);
      var seqNo, prev := 1, GENESIS;
      if last.Some? {
        seqNo, prev := last.value.body.seqNo + 1, last.value.hash;
      }
      NextIs(h, Of(table, x.entry.sid));
      assert Link(State(), x.entry) == Linked(seqNo, prev);
      writers := writers[w := x.(stage := Linked(seqNo, prev))];
    }

    /** The insert commits, or fails and leaves the table as it was; an id is used up either way. */
    method Insert(w: nat, ts: string, ok: bool)
      requires Valid() && Enabled(State(), Event.Insert(w, ts, ok))
      modifies this`table, this`nextId, this`writers
      ensures State() == Step(h, old(State()), Event.Insert(w, ts, ok)) && Valid()
    {
      StepKeeps(h, State(), Event.Insert(w, ts, ok));
      var x := writers[w];
      var body := Body(x.entry.sid, x.stage.seqNo, ts, x.entry.agentId, x.entry.kind, x.entry.payload);
      var row := Row(nextId, body, x.entry.copies, x.stage.prev, EventHash(h, x.stage.prev, body));
      if ok {
        table := table + [row];
      }
      nextId := nextId + 1;
      writers := writers[w := x.(stage := Ended(if ok then Some(row) else None))];
    }

    method Release(w: nat)
      requires Valid() && Enabled(State(), Event.Release(w))
      modifies this`locks, this`writers
      ensures State() == Step(h, old(State()), Event.Release(w)) && Valid()
    {
      StepKeeps(h, State(), Event.Release(w));
      var x := writers[w];
      locks := locks - {x.entry.sid};
      writers := writers[w := x.(stage := Gone(x.stage.row))];
    }

    method Take(e: Event)
      requires Valid()
      modifies this
      ensures State() == Step(h, old(State()), e) && Valid()
    {
      if !Enabled(State(), e) {
        return;
      }
      match e
      case Begin(entry) => var w := Begin(entry);
      case Acquire(w) => Acquire(w);
      case ReadLast(w, ok) => ReadLast(w, ok);
      case Insert(w, ts, ok) => Insert(w, ts, ok);
      case Release(w) => Release(w);
    }

    /** verify_chain: the session's rows by sequence number, checked in one pass. */
    method VerifyChain(sid: string) returns (r: Report)
      ensures r.Valid? <==> Verifies(h, SortBy(SeqNoOf, Of(table, sid)))
      ensures Valid() ==> r == Report.Valid(|Of(table, sid)|, PrevOf(Of(table, sid), |Of(table, sid)|))
    {
      var rows := SortBy(SeqNoOf, Of(table, sid));
      if Valid() {
        VerifiedIsSorted(h, Of(table, sid));
      }
      r := VerifyRows(h, rows);
    }
  }

  /** Appends driven through any schedule reach the store of the run. */
  method Play(h: Hashing, events: seq<Event>) returns (store: AuditStore)
    ensures fresh(store) && store.h == h && store.State() == Run(h, events) && store.Valid()
  {
    store := new AuditStore(h);
    assert events[..0] == [];
    for i := 0 to |events|
      invariant fresh(store) && store.h == h && store.Valid() && store.State() == Run(h, events[..i])
    {
      assert events[..i + 1][..i] == events[..i];
      store.Take(events[i]);
    }
    assert events[..|events|] == events;
  }
}
