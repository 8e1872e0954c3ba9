/** Cursors over the audit table: queries, newest-first pages, and the event stream with its resuming client. */
module Paging {
  import opened Model

  /** A stored row as cursors see it; the table assigns growing, positive ids. */
  datatype Row = Row(id: int, sessionId: string, kind: string)

  ghost predicate Ordered(rows: seq<Row>) {
    && (forall i :: 0 <= i < |rows| ==> rows[i].id > 0)
    && (forall i, j :: 0 <= i < j < |rows| ==> rows[i].id < rows[j].id)
  }

  // ---- Queries --------------------------------------------------------------------------------------

  predicate Within(r: Row, after: int, before: Option<int>) {
    r.id > after && (before.Some? ==> r.id < before.value)
  }

  /** The rows wanted between the cursors, oldest first. */
  function Matching(table: seq<Row>, want: Row -> bool, after: int, before: Option<int>): seq<Row> {
    if table == [] then []
    else
      var n := |table| - 1;
      Matching(table[..n], want, after, before) + (if want(table[n]) && Within(table[n], after, before) then [table[n]] else [])
  }

  function Reversed(rows: seq<Row>): seq<Row> {
    seq(|rows|, i requires 0 <= i < |rows| => rows[|rows| - 1 - i])
  }

  function Clamp(limit: int): nat {
    if limit < 1 then 1 else if limit > 1000 then 1000 else limit
  }

  function Take(rows: seq<Row>, n: nat): seq<Row> {
    if |rows| <= n then rows else rows[..n]
  }

  function Query(table: seq<Row>, want: Row -> bool, after: int, before: Option<int>, descending: bool, limit: int): seq<Row> {
    var rows := Matching(table, want, after, before);
    Take(if descending || before.Some? then Reversed(rows) else rows, Clamp(limit))
  }

  // ---- Sequences of rows ----------------------------------------------------------------------------

  lemma {:induction false} MatchingMembers(table: seq<Row>, want: Row -> bool, after: int, before: Option<int>)
    ensures forall r :: r in Matching(table, want, after, before) <==> r in table && want(r) && Within(r, after, before)
  {
    if table != [] {
      MatchingMembers(table[..|table| - 1], want, after, before);
      assert table == table[..|table| - 1] + [table[|table| - 1]];
    }
  }

  lemma OrderedSnoc(rows: seq<Row>, r: Row)
    requires Ordered(rows) && r.id > 0 && forall x :: x in rows ==> x.id < r.id
    ensures Ordered(rows + [r])
  {
    forall i | 0 <= i < |rows|
      ensures rows[i].id < r.id
    {
      assert rows[i] in rows;
    }
  }

  lemma {:induction false} MatchingOrdered(table: seq<Row>, want: Row -> bool, after: int, before: Option<int>)
    requires Ordered(table)
    ensures Ordered(Matching(table, want, after, before))
  {
    if table != [] {
      var front, r := table[..|table| - 1], table[|table| - 1];
      var rows := Matching(front, want, after, before);
      MatchingOrdered(front, want, after, before);
      MatchingMembers(front, want, after, before);
      forall x | x in rows
        ensures x.id < r.id
      {
        assert x in front;
      }
      OrderedSnoc(rows, r);
      assert rows + [] == rows;
    }
  }

  lemma FirstIsIn(xs: seq<Row>)
    requires xs != []
    ensures xs[0] in xs
  {
  }

  lemma NoneIsEmpty(xs: seq<Row>)
    requires forall r :: r !in xs
    ensures xs == []
  {
    if xs != [] {
      FirstIsIn(xs);
    }
  }

  lemma FrontsAgree(xs: seq<Row>, x: Row, ys: seq<Row>, y: Row)
    requires Ordered(xs + [x]) && Ordered(ys + [y]) && forall r :: r in xs + [x] <==> r in ys + [y]
    ensures x == y && forall r :: r in xs <==> r in ys
  {
    assert (xs + [x])[|xs|] == x && (ys + [y])[|ys|] == y;
    assert x in ys + [y] && y in xs + [x];
    forall r
      ensures r in xs ==> r != x && r in xs + [x]
      ensures r in ys ==> r != y && r in ys + [y]
    {
      if r in xs {
        var i :| 0 <= i < |xs| && xs[i] == r;
        assert (xs + [x])[i] == r;
      }
      if r in ys {
        var i :| 0 <= i < |ys| && ys[i] == r;
        assert (ys + [y])[i] == r;
      }
    }
  }

  /** Two ordered lists with the same rows are the same list. */
  lemma {:induction false} OrderedIsUnique(xs: seq<Row>, ys: seq<Row>)
    requires Ordered(xs) && Ordered(ys) && forall r :: r in xs <==> r in ys
    ensures xs == ys
    decreases |xs|
  {
    if xs == [] {
      NoneIsEmpty(ys);
    } else if ys == [] {
      NoneIsEmpty(xs);
    } else {
      var n, m := |xs| - 1, |ys| - 1;
      assert xs == xs[..n] + [xs[n]] && ys == ys[..m] + [ys[m]];
      FrontsAgree(xs[..n], xs[n], ys[..m], ys[m]);
      OrderedIsUnique(xs[..n], ys[..m]);
    }
  }

  // ---- One query ------------------------------------------------------------------------------------

  /** The row is one the query is about. */
  ghost predicate Wanted(table: seq<Row>, want: Row -> bool, after: int, before: Option<int>, r: Row) {
    r in table && want(r) && r.id > after && (before.Some? ==> r.id < before.value)
  }

  /** No wanted row that is not in the list comes before one that is. */
  ghost predicate Nearest(rows: seq<Row>, table: seq<Row>, want: Row -> bool, after: int, before: Option<int>, newest: bool) {
    forall r, x :: x in rows && r !in rows && Wanted(table, want, after, before, r) ==> if newest then r.id < x.id else r.id > x.id
  }

  ghost predicate InOrder(rows: seq<Row>, newest: bool) {
    forall i, j :: 0 <= i < j < |rows| ==> if newest then rows[i].id > rows[j].id else rows[i].id < rows[j].id
  }

  /** The first rows of the list, as many as fit. */
  ghost predicate Firsts(rows: seq<Row>, whole: seq<Row>, most: nat, newest: bool) {
    && |rows| <= most && InOrder(rows, newest) && (forall r :: r in rows ==> r in whole)
    && (forall r, x :: x in rows && r !in rows && r in whole ==> if newest then r.id < x.id else r.id > x.id)
    && (|rows| < most ==> forall r :: r in whole ==> r in rows)
  }

  lemma TakeIsFirsts(whole: seq<Row>, n: nat, newest: bool)
    requires InOrder(whole, newest)
    ensures Firsts(Take(whole, n), whole, n, newest)
  {
    var rows := Take(whole, n);
    assert forall k :: 0 <= k < |rows| ==> rows[k] == whole[k];
    forall r, x | x in rows && r !in rows && r in whole
      ensures if newest then r.id < x.id else r.id > x.id
    {
      var i :| 0 <= i < |rows| && rows[i] == x;
      var j :| 0 <= j < |whole| && whole[j] == r;
      assert whole[i] == x;
    }
  }

  lemma ReversedOrder(rows: seq<Row>)
    requires Ordered(rows)
    ensures InOrder(Reversed(rows), true) && InOrder(rows, false)
    ensures forall r :: r in Reversed(rows) <==> r in rows
  {
    var back := Reversed(rows);
    forall r | r in rows
      ensures r in back
    {
      var k :| 0 <= k < |rows| && rows[k] == r;
      assert back[|rows| - 1 - k] == r;
    }
  }

  /**
   * A query answers with wanted rows only, in the order asked for, and with those that come first in it: up to the
   * limit, which counts as 1 if it is lower and as 1000 if it is higher; with fewer only if there are no more.
   */
  lemma QueryAnswers(table: seq<Row>, want: Row -> bool, after: int, before: Option<int>, descending: bool, limit: int)
    requires Ordered(table)
    ensures var rows := Query(table, want, after, before, descending, limit);
            var newest, most := descending || before.Some?, if limit < 1 then 1 else if limit > 1000 then 1000 else limit;
            && |rows| <= most && InOrder(rows, newest) && (forall r :: r in rows ==> Wanted(table, want, after, before, r))
            && Nearest(rows, table, want, after, before, newest)
            && (|rows| < most ==> forall r :: Wanted(table, want, after, before, r) ==> r in rows)
  {
    var all := Matching(table, want, after, before);
    var newest := descending || before.Some?;
    MatchingOrdered(table, want, after, before);
    MatchingMembers(table, want, after, before);
    ReversedOrder(all);
    TakeIsFirsts(if newest then Reversed(all) else all, Clamp(limit), newest);
    assert forall r :: r in all <==> Wanted(table, want, after, before, r);
  }

  // ---- Pages towards older rows ---------------------------------------------------------------------

  /** Following next_before_id, one request after another; each request sees the table as it is by then. */
  function Pages(tables: seq<seq<Row>>, want: Row -> bool, before: Option<int>, limit: int): seq<Row> {
    if tables == [] then []
    else
      var page := Query(tables[0], want, 0, before, true, limit);
      if page == [] then [] else page + Pages(tables[1..], want, Some(page[|page| - 1].id), limit)
  }

  ghost predicate Growing(tables: seq<seq<Row>>) {
    && (forall i :: 0 <= i < |tables| ==> Ordered(tables[i]))
    && (forall i, j :: 0 <= i < j < |tables| ==> tables[i] <= tables[j])
  }

  /** Rows appended later do not show below a cursor taken from an earlier table. */
  lemma {:induction false} LaterTableSameBelow(old_: seq<Row>, new_: seq<Row>, want: Row -> bool, cut: Row)
    requires Ordered(new_) && old_ <= new_ && cut in old_
    ensures Matching(new_, want, 0, Some(cut.id)) == Matching(old_, want, 0, Some(cut.id))
  {
    assert Ordered(old_);
    MatchingOrdered(new_, want, 0, Some(cut.id));
    MatchingMembers(new_, want, 0, Some(cut.id));
    MatchingOrdered(old_, want, 0, Some(cut.id));
    MatchingMembers(old_, want, 0, Some(cut.id));
    forall r
      ensures r in Matching(new_, want, 0, Some(cut.id)) <==> r in Matching(old_, want, 0, Some(cut.id))
    {
      if r in new_ && r.id < cut.id {
        var i :| 0 <= i < |new_| && new_[i] == r;
        var j :| 0 <= j < |old_| && old_[j] == cut;
        assert new_[j] == cut;
        assert i < j;
        assert old_[i] == r;
      }
    }
    OrderedIsUnique(Matching(new_, want, 0, Some(cut.id)), Matching(old_, want, 0, Some(cut.id)));
  }

  /** Below the row at position k of the matching rows lie exactly the k rows before it. */
  lemma {:induction false} BelowCursor(table: seq<Row>, want: Row -> bool, before: Option<int>, k: nat)
    requires Ordered(table) && k < |Matching(table, want, 0, before)|
    ensures var rows := Matching(table, want, 0, before);
            Matching(table, want, 0, Some(rows[k].id)) == rows[..k]
  {
    var rows := Matching(table, want, 0, before);
    var below := Matching(table, want, 0, Some(rows[k].id));
    MatchingOrdered(table, want, 0, before);
    MatchingMembers(table, want, 0, before);
    MatchingOrdered(table, want, 0, Some(rows[k].id));
    MatchingMembers(table, want, 0, Some(rows[k].id));
    assert rows[k] in rows;
    forall r
      ensures r in below <==> r in rows[..k]
    {
      BelowInPrefix(rows, k, r);
    }
    OrderedIsUnique(below, rows[..k]);
  }

  lemma BelowInPrefix(rows: seq<Row>, k: nat, r: Row)
    requires Ordered(rows) && k < |rows|
    ensures r in rows[..k] <==> r in rows && r.id < rows[k].id
  {
    if r in rows && r.id < rows[k].id {
      var i :| 0 <= i < |rows| && rows[i] == r;
      assert i < k;
      assert rows[..k][i] == r;
    }
  }

  /** The newest n rows, and the rest. */
  function Cut(rows: seq<Row>, n: nat): nat {
    if |rows| <= n then 0 else |rows| - n
  }

  lemma TakeReversed(rows: seq<Row>, n: nat, m: nat)
    ensures Take(Reversed(rows), n) == Reversed(rows[Cut(rows, n)..])
    ensures Take(Reversed(rows), n + m) == Take(Reversed(rows), n) + Take(Reversed(rows[..Cut(rows, n)]), m)
  {
  }

  /**
   * Newest-first pages, put together, are the rows below the first cursor in reverse, cut off after as many full
   * pages as were requested: nothing twice, nothing missing, although rows are appended between requests.
   */
  lemma {:induction false} PagesAreReversedLog(tables: seq<seq<Row>>, want: Row -> bool, before: Option<int>, limit: int)
    requires Growing(tables) && tables != []
    ensures Pages(tables, want, before, limit)
         == Take(Reversed(Matching(tables[0], want, 0, before)), |tables| * Clamp(limit))
    decreases |tables|
  {
    var rows, size := Matching(tables[0], want, 0, before), Clamp(limit);
    var k, rest := Cut(rows, size), |tables[1..]| * size;
    TakeReversed(rows, size, rest);
    assert |tables| * size == size + rest;
    if rows != [] {
      FirstPage(tables, want, before, limit);
      OlderPages(tables, want, before, limit, k);
    }
  }

  lemma {:induction false} FirstPage(tables: seq<seq<Row>>, want: Row -> bool, before: Option<int>, limit: int)
    requires tables != [] && Matching(tables[0], want, 0, before) != []
    ensures var rows := Matching(tables[0], want, 0, before);
            var k := Cut(rows, Clamp(limit));
            Pages(tables, want, before, limit)
            == Take(Reversed(rows), Clamp(limit)) + Pages(tables[1..], want, Some(rows[k].id), limit)
  {
    var rows := Matching(tables[0], want, 0, before);
    var page := Query(tables[0], want, 0, before, true, limit);
    TakeReversed(rows, Clamp(limit), 0);
    assert page[|page| - 1] == rows[Cut(rows, Clamp(limit))];
  }

  /** The pages after the first: the rows before its last one. */
  lemma {:induction false} OlderPages(tables: seq<seq<Row>>, want: Row -> bool, before: Option<int>, limit: int, k: nat)
    requires Growing(tables) && tables != [] && k < |Matching(tables[0], want, 0, before)|
    ensures var rows := Matching(tables[0], want, 0, before);
            Pages(tables[1..], want, Some(rows[k].id), limit) == Take(Reversed(rows[..k]), |tables[1..]| * Clamp(limit))
    decreases |tables|, 0
  {
    var rows := Matching(tables[0], want, 0, before);
    if |tables| > 1 {
      MatchingMembers(tables[0], want, 0, before);
      assert rows[k] in rows;
      BelowCursor(tables[0], want, before, k);
      LaterTableSameBelow(tables[0], tables[1], want, rows[k]);
      PagesAreReversedLog(tables[1..], want, Some(rows[k].id), limit);
    }
  }
}
