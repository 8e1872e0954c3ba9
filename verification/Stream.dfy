/** A session's live event stream: the server's cursor loop, the console's reconnect loop, and what gets through. */
module Stream {
  import opened Model
  import opened Paging

  datatype Frame = Event(row: Row) | End | KeepAlive

  /** One connection: the server's cursor, whether it found nothing new, and frames not yet delivered. */
  datatype Conn = Conn(cursor: int, checking: bool, closed: bool, wire: seq<Frame>)

  datatype View = View(last: int, ended: bool, events: seq<Row>)

  // ---- The server's generator -----------------------------------------------------------------------

  const BATCH := 200

  function Frames(rows: seq<Row>): seq<Frame> {
    seq(|rows|, i requires 0 <= i < |rows| => Event(rows[i]))
  }

  function Fetched(table: seq<Row>, want: Row -> bool, cursor: int): seq<Row> {
    Query(table, want, cursor, None, false, BATCH)
  }

  function AfterPoll(k: Conn, table: seq<Row>, want: Row -> bool): Conn {
    var rows := Fetched(table, want, k.cursor);
    if rows == [] then k.(checking := true)
    else k.(cursor := rows[|rows| - 1].id, wire := k.wire + Frames(rows))
  }

  /** Nothing new: end if the session has a terminal status, else keep the connection alive. */
  function AfterCheck(k: Conn, terminal: bool): Conn {
    if terminal then k.(checking := false, closed := true, wire := k.wire + [End])
    else k.(checking := false, wire := k.wire + [KeepAlive])
  }

  class Source {
    var cursor: int
    var checking: bool
    var closed: bool
    var wire: seq<Frame>

    function Abs(): Conn
      reads this
    {
      Conn(cursor, checking, closed, wire)
    }

    constructor (after: int)
      ensures Abs() == Conn(after, false, false, [])
    {
      cursor, checking, closed, wire := after, false, false, [];
    }

    method Poll(table: seq<Row>, want: Row -> bool)
      modifies this
      ensures Abs() == AfterPoll(old(Abs()), table, want)
    {
      var rows := Fetched(table, want, cursor);
      ghost var sent := wire;
      for n := 0 to |rows|
        invariant checking == old(checking) && closed == old(closed)
        invariant wire == sent + Frames(rows[..n])
        invariant cursor == if n == 0 then old(cursor) else rows[n - 1].id
      {
        cursor := rows[n].id;
        wire := wire + [Event(rows[n])];
        assert Frames(rows[..n + 1]) == Frames(rows[..n]) + [Event(rows[n])];
      }
      assert rows[..|rows|] == rows;
      if rows == [] {
        checking := true;
      }
    }

    method Check(terminal: bool)
      modifies this
      ensures Abs() == AfterCheck(old(Abs()), terminal)
    {
      checking := false;
      if terminal {
        wire := wire + [End];
        closed := true;
      } else {
        wire := wire + [KeepAlive];
      }
    }
  }

  // ---- The console's hook ---------------------------------------------------------------------------

  predicate Seen(events: seq<Row>, id: int) {
    exists i :: 0 <= i < |events| && events[i].id == id
  }

  function AfterFrame(v: View, f: Frame): View {
    match f
    case KeepAlive => v
    case End => v.(ended := true)
    case Event(r) => v.(last := if r.id > v.last then r.id else v.last,
                        events := if Seen(v.events, r.id) then v.events else v.events + [r])
  }

  class Hook {
    var last: int
    var ended: bool
    var events: seq<Row>

    function Abs(): View
      reads this
    {
      View(last, ended, events)
    }

    constructor ()
      ensures Abs() == View(0, false, [])
    {
      last, ended, events := 0, false, [];
    }

    method OnFrame(f: Frame)
      modifies this
      ensures Abs() == AfterFrame(old(Abs()), f)
    {
      match f
      case KeepAlive =>
      case End => ended := true;
      case Event(r) =>
        if r.id > last {
          last := r.id;
        }
        var k := 0;
        while k < |events| && events[k].id != r.id
          invariant 0 <= k <= |events|
          invariant forall i :: 0 <= i < k ==> events[i].id != r.id
        {
          k := k + 1;
        }
        if k == |events| {
          events := events + [r];
        }
    }
  }

  // ---- Schedules ------------------------------------------------------------------------------------

  /** quiet: how many rows the session had when the current connection last found nothing new. */
  datatype State = State(table: seq<Row>, terminal: bool, conn: Option<Conn>, view: View, quiet: nat)

  const INIT := State([], false, None, View(0, false, []), 0)

  datatype Happening = Append(row: Row) | Settle | Connect | Poll | Check | Deliver | Drop

  /** A row id is positive and above all earlier ones. */
  predicate Fits(table: seq<Row>, r: Row) {
    r.id > 0 && (table != [] ==> r.id > table[|table| - 1].id)
  }

  function Mine(s: State, want: Row -> bool): seq<Row> {
    Matching(s.table, want, 0, None)
  }

  function Step(want: Row -> bool, s: State, h: Happening): State {
    match h
    case Append(r) => if Fits(s.table, r) then s.(table := s.table + [r]) else s
    case Settle => s.(terminal := true)
    case Connect => if s.conn.None? && !s.view.ended then s.(conn := Some(Conn(s.view.last, false, false, []))) else s
    case Poll =>
      if s.conn.None? || s.conn.value.checking || s.conn.value.closed then s
      else
        var k := AfterPoll(s.conn.value, s.table, want);
        s.(conn := Some(k), quiet := if k.checking then |Mine(s, want)| else s.quiet)
    case Check =>
      if s.conn.None? || !s.conn.value.checking then s else s.(conn := Some(AfterCheck(s.conn.value, s.terminal)))
    case Deliver =>
      if s.conn.None? || s.conn.value.wire == [] then s
      else
        var k := s.conn.value;
        s.(conn := Some(k.(wire := k.wire[1..])), view := AfterFrame(s.view, k.wire[0]))
    case Drop => s.(conn := None)
  }

  function Run(want: Row -> bool, hs: seq<Happening>): State {
    if hs == [] then INIT else Step(want, Run(want, hs[..|hs| - 1]), hs[|hs| - 1])
  }

  // ---- What holds throughout ------------------------------------------------------------------------

  /** The cursor value standing for the first n rows. */
  function CursorAt(rows: seq<Row>, n: nat): int
    requires n <= |rows|
  {
    if n == 0 then 0 else rows[n - 1].id
  }

  /** Rows on the wire, in order. */
  function Carried(wire: seq<Frame>): seq<Row> {
    if wire == [] then []
    else if wire[0].Event? then [wire[0].row] + Carried(wire[1..])
    else Carried(wire[1..])
  }

  /** The console holds the first rows of the session. */
  ghost predicate ViewOk(mine: seq<Row>, v: View) {
    v.events <= mine && v.last == CursorAt(mine, |v.events|)
  }

  /** How far the server has come: rows the console holds, then rows on the wire. */
  ghost function Sent(v: View, k: Conn): nat {
    |v.events| + |Carried(k.wire)|
  }

  /** What is on the wire continues what the console holds, and the cursor stands behind it. */
  ghost predicate ConnOk(mine: seq<Row>, v: View, k: Conn, quiet: nat) {
    && Sent(v, k) <= |mine| && Carried(k.wire) == mine[|v.events|..Sent(v, k)]
    && k.cursor == CursorAt(mine, Sent(v, k))
    && (k.checking || k.closed ==> Sent(v, k) == quiet)
    && !(k.checking && k.closed)
    && (forall i :: 0 <= i < |k.wire| && k.wire[i] == End ==> k.closed && i == |k.wire| - 1)
  }

  ghost predicate Inv(want: Row -> bool, s: State) {
    && Ordered(s.table)
    && ViewOk(Mine(s, want), s.view)
    && (s.conn.Some? ==> ConnOk(Mine(s, want), s.view, s.conn.value, s.quiet))
    && (s.view.ended ==> |s.view.events| == s.quiet && (s.conn.Some? ==> s.conn.value.closed && s.conn.value.wire == []))
  }

  /** Above the cursor of the first n rows lie exactly the others. */
  lemma {:induction false} AboveCursor(table: seq<Row>, want: Row -> bool, n: nat)
    requires Ordered(table) && n <= |Matching(table, want, 0, None)|
    ensures var mine := Matching(table, want, 0, None);
            Matching(table, want, CursorAt(mine, n), None) == mine[n..]
  {
    var mine := Matching(table, want, 0, None);
    var c := CursorAt(mine, n);
    var above := Matching(table, want, c, None);
    MatchingOrdered(table, want, 0, None);
    MatchingMembers(table, want, 0, None);
    MatchingOrdered(table, want, c, None);
    MatchingMembers(table, want, c, None);
    forall r
      ensures r in above <==> r in mine[n..]
    {
      AboveInSuffix(mine, n, r);
      assert r in above ==> r in mine;
      assert n > 0 ==> mine[n - 1] in mine;
    }
    OrderedIsUnique(above, mine[n..]);
  }

  lemma AboveInSuffix(rows: seq<Row>, n: nat, r: Row)
    requires Ordered(rows) && n <= |rows|
    ensures r in rows[n..] <==> r in rows && r.id > CursorAt(rows, n)
  {
    if r in rows && r.id > CursorAt(rows, n) {
      var i :| 0 <= i < |rows| && rows[i] == r;
      assert i >= n;
      assert rows[n..][i - n] == r;
    }
  }

  lemma {:induction false} CarriedConcat(a: seq<Frame>, b: seq<Frame>)
    ensures Carried(a + b) == Carried(a) + Carried(b)
  {
    if a == [] {
      assert a + b == b;
    } else {
      CarriedConcat(a[1..], b);
      assert (a + b)[1..] == a[1..] + b;
    }
  }

  lemma {:induction false} CarriedFrames(rows: seq<Row>)
    ensures Carried(Frames(rows)) == rows
  {
    if rows != [] {
      CarriedFrames(rows[1..]);
      assert Frames(rows)[1..] == Frames(rows[1..]);
    }
  }

  /** A newer row never is among the first ones. */
  lemma NewIsUnseen(mine: seq<Row>, n: nat)
    requires Ordered(mine) && n < |mine|
    ensures !Seen(mine[..n], mine[n].id) && mine[n].id > CursorAt(mine, n)
  {
  }

  lemma MoreRows(mine: seq<Row>, mine': seq<Row>, v: View, k: Conn, quiet: nat)
    requires mine <= mine' && ConnOk(mine, v, k, quiet)
    ensures ConnOk(mine', v, k, quiet)
  {
    assert mine == mine'[..|mine|];
  }

  lemma {:induction false} MineGrows(table: seq<Row>, want: Row -> bool, r: Row)
    ensures Matching(table, want, 0, None) <= Matching(table + [r], want, 0, None)
  {
    assert (table + [r])[..|table|] == table;
  }

  lemma AppendKeeps(want: Row -> bool, s: State, r: Row)
    requires Inv(want, s)
    ensures Inv(want, Step(want, s, Append(r)))
  {
    if Fits(s.table, r) {
      var s' := Step(want, s, Append(r));
      MineGrows(s.table, want, r);
      if s.conn.Some? {
        MoreRows(Mine(s, want), Mine(s', want), s.view, s.conn.value, s.quiet);
      }
    }
  }

  lemma PollRows(mine: seq<Row>, v: View, k: Conn, quiet: nat, rows: seq<Row>)
    requires ConnOk(mine, v, k, quiet) && !k.checking && !k.closed
    requires rows != [] && rows <= mine[Sent(v, k)..]
    ensures ConnOk(mine, v, k.(cursor := rows[|rows| - 1].id, wire := k.wire + Frames(rows)), quiet)
  {
    var n := Sent(v, k);
    CarriedFrames(rows);
    CarriedConcat(k.wire, Frames(rows));
    assert rows == mine[n..n + |rows|];
    assert rows[|rows| - 1] == mine[n + |rows| - 1];
  }

  /** A poll fetches the rows that come next, and nothing only if there are none. */
  lemma {:induction false} FetchedNext(table: seq<Row>, want: Row -> bool, n: nat)
    requires Ordered(table) && n <= |Matching(table, want, 0, None)|
    ensures var mine := Matching(table, want, 0, None);
            var rows := Fetched(table, want, CursorAt(mine, n));
            rows <= mine[n..] && (rows == [] ==> n == |mine|)
  {
    AboveCursor(table, want, n);
  }

  lemma {:induction false} PollConn(table: seq<Row>, want: Row -> bool, v: View, k: Conn, quiet: nat)
    requires Ordered(table) && ConnOk(Matching(table, want, 0, None), v, k, quiet) && !k.checking && !k.closed
    ensures var mine, k' := Matching(table, want, 0, None), AfterPoll(k, table, want);
            ConnOk(mine, v, k', if k'.checking then |mine| else quiet)
  {
    var mine := Matching(table, want, 0, None);
    FetchedNext(table, want, Sent(v, k));
    var rows := Fetched(table, want, k.cursor);
    if rows != [] {
      PollRows(mine, v, k, quiet, rows);
    }
  }

  lemma PollKeeps(want: Row -> bool, s: State)
    requires Inv(want, s)
    ensures Inv(want, Step(want, s, Poll))
  {
    if s.conn.Some? && !s.conn.value.checking && !s.conn.value.closed {
      PollConn(s.table, want, s.view, s.conn.value, s.quiet);
    }
  }

  lemma CheckKeeps(want: Row -> bool, s: State)
    requires Inv(want, s)
    ensures Inv(want, Step(want, s, Check))
  {
    if s.conn.Some? && s.conn.value.checking {
      var k := s.conn.value;
      CarriedConcat(k.wire, [End]);
      CarriedConcat(k.wire, [KeepAlive]);
    }
  }

  /** Receiving the next frame moves it from the wire to the list. */
  lemma DeliverConn(mine: seq<Row>, v: View, k: Conn, quiet: nat)
    requires Ordered(mine) && ViewOk(mine, v) && ConnOk(mine, v, k, quiet) && k.wire != []
    ensures var v' := AfterFrame(v, k.wire[0]);
            && ViewOk(mine, v') && ConnOk(mine, v', k.(wire := k.wire[1..]), quiet)
            && Sent(v', k.(wire := k.wire[1..])) == Sent(v, k)
  {
    var n := |v.events|;
    if k.wire[0].Event? {
      var r := k.wire[0].row;
      assert Carried(k.wire)[0] == r == mine[n];
      NewIsUnseen(mine, n);
      assert mine[..n] == v.events;
      assert AfterFrame(v, k.wire[0]).events == mine[..n + 1];
      assert Carried(k.wire[1..]) == Carried(k.wire)[1..];
    }
  }

  lemma DeliverKeeps(want: Row -> bool, s: State)
    requires Inv(want, s)
    ensures Inv(want, Step(want, s, Deliver))
  {
    if s.conn.Some? && s.conn.value.wire != [] {
      var k := s.conn.value;
      MatchingOrdered(s.table, want, 0, None);
      DeliverConn(Mine(s, want), s.view, k, s.quiet);
      if k.wire[0].End? {
        assert k.wire[1..] == [];
      }
    }
  }

  lemma StepKeeps(want: Row -> bool, s: State, h: Happening)
    requires Inv(want, s)
    ensures Inv(want, Step(want, s, h))
  {
    match h
    case Append(r) => AppendKeeps(want, s, r);
    case Poll => PollKeeps(want, s);
    case Check => CheckKeeps(want, s);
    case Deliver => DeliverKeeps(want, s);
    case _ =>
  }

  lemma {:induction false} RunKeeps(want: Row -> bool, hs: seq<Happening>)
    ensures Inv(want, Run(want, hs))
  {
    if hs != [] {
      RunKeeps(want, hs[..|hs| - 1]);
      StepKeeps(want, Run(want, hs[..|hs| - 1]), hs[|hs| - 1]);
    }
  }

  // ---- Promises -------------------------------------------------------------------------------------

  /**
   * Through any number of disconnects the console's list is a prefix of the session's rows in id order:
   * no gap, no duplicate, whatever was lost on the way.
   */
  lemma {:induction false} ConsoleHoldsPrefix(want: Row -> bool, hs: seq<Happening>)
    ensures var s := Run(want, hs);
            && s.view.events <= Mine(s, want) && Ordered(s.view.events)
            && s.view.last == CursorAt(s.view.events, |s.view.events|)
  {
    RunKeeps(want, hs);
    MatchingOrdered(Run(want, hs).table, want, 0, None);
  }

  lemma {:induction false} MineOnlyGrows(want: Row -> bool, hs: seq<Happening>, n: nat)
    requires n <= |hs|
    ensures Mine(Run(want, hs[..n]), want) <= Mine(Run(want, hs), want)
    decreases |hs| - n
  {
    if n == |hs| {
      assert hs[..n] == hs;
    } else {
      MineOnlyGrows(want, hs, n + 1);
      assert hs[..n + 1][..n] == hs[..n];
      var s := Run(want, hs[..n]);
      if hs[n].Append? {
        MineGrows(s.table, want, hs[n].row);
      }
    }
  }

  /** The server has found nothing new, and may have said so. */
  ghost predicate Quiet(s: State) {
    s.view.ended || (s.conn.Some? && (s.conn.value.checking || s.conn.value.closed))
  }

  /** This step is a poll that finds nothing new. */
  ghost predicate EmptyPoll(want: Row -> bool, s: State, h: Happening) {
    h.Poll? && s.conn.Some? && !s.conn.value.checking && !s.conn.value.closed
    && Fetched(s.table, want, s.conn.value.cursor) == []
  }

  lemma QuietComesFromPoll(want: Row -> bool, s: State, h: Happening)
    requires Inv(want, s) && Quiet(Step(want, s, h))
    ensures (Quiet(s) && Step(want, s, h).quiet == s.quiet)
            || (EmptyPoll(want, s, h) && Step(want, s, h).quiet == |Mine(s, want)|)
  {
  }

  lemma {:induction false} QuietMoment(want: Row -> bool, hs: seq<Happening>) returns (n: nat)
    requires Quiet(Run(want, hs))
    ensures n < |hs| && EmptyPoll(want, Run(want, hs[..n]), hs[n])
    ensures |Mine(Run(want, hs[..n]), want)| == Run(want, hs).quiet
  {
    var m := |hs| - 1;
    var s := Run(want, hs[..m]);
    RunKeeps(want, hs[..m]);
    QuietComesFromPoll(want, s, hs[m]);
    if EmptyPoll(want, s, hs[m]) && Run(want, hs).quiet == |Mine(s, want)| {
      n := m;
    } else {
      n := QuietMoment(want, hs[..m]);
      assert hs[..m][..n] == hs[..n];
    }
  }

  /**
   * When the console is told the stream ended, it holds every row the session had at the poll at which the server
   * last found nothing new; rows written after that poll are not promised.
   */
  lemma {:induction false} EndedMeansCaughtUp(want: Row -> bool, hs: seq<Happening>)
    requires Run(want, hs).view.ended
    ensures exists n :: 0 <= n < |hs| && EmptyPoll(want, Run(want, hs[..n]), hs[n])
                        && Run(want, hs).view.events == Mine(Run(want, hs[..n]), want)
  {
    RunKeeps(want, hs);
    var n := QuietMoment(want, hs);
    MineOnlyGrows(want, hs, n);
    assert Run(want, hs).view.events == Mine(Run(want, hs[..n]), want);
  }

  lemma {:induction false} RunStep(want: Row -> bool, hs: seq<Happening>, h: Happening)
    ensures Run(want, hs + [h]) == Step(want, Run(want, hs), h)
  {
    assert (hs + [h])[..|hs + [h]| - 1] == hs;
  }

  /** A connected console that is up to date, with nothing on the way. */
  ghost predicate CaughtUp(want: Row -> bool, s: State) {
    && s.conn.Some? && !s.conn.value.checking && !s.conn.value.closed && s.conn.value.wire == []
    && s.view.events == Mine(s, want)
  }

  lemma EndWithoutNews(want: Row -> bool, s: State)
    requires Inv(want, s) && CaughtUp(want, s)
    ensures var s' := Step(want, Step(want, Step(want, Step(want, s, Settle), Poll), Check), Deliver);
            s'.view == s.view.(ended := true) && s'.table == s.table
  {
    var s1 := Step(want, s, Settle);
    AboveCursor(s.table, want, |s.view.events|);
    assert Fetched(s.table, want, s.conn.value.cursor) == [];
    var s2 := Step(want, s1, Poll);
    assert s2.conn == Some(s.conn.value.(checking := true));
    var s3 := Step(want, s2, Check);
    assert s3.conn.value.wire == [End];
  }

  /**
   * A row written after the status became terminal can be missed for good: the status is set before
   * session.finished is appended, and the stream may end in between.
   */
  lemma {:induction false} FinishedRowCanBeMissed(want: Row -> bool, hs: seq<Happening>, r: Row)
    requires CaughtUp(want, Run(want, hs)) && Fits(Run(want, hs).table, r) && want(r)
    ensures var s := Run(want, hs + [Settle] + [Poll] + [Check] + [Deliver] + [Append(r)]);
            s.view.ended && r in Mine(s, want) && r !in s.view.events
  {
    var s := Run(want, hs);
    RunKeeps(want, hs);
    RunStep(want, hs, Settle);
    RunStep(want, hs + [Settle], Poll);
    RunStep(want, hs + [Settle] + [Poll], Check);
    RunStep(want, hs + [Settle] + [Poll] + [Check], Deliver);
    RunStep(want, hs + [Settle] + [Poll] + [Check] + [Deliver], Append(r));
    EndWithoutNews(want, s);
    MatchingMembers(s.table, want, 0, None);
    MatchingMembers(s.table + [r], want, 0, None);
    assert r in s.table + [r];
    assert r !in s.table;
  }
}
