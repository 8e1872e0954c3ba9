/** The live stream gets somewhere: every poll sends what comes next, the console can catch up, and the end is reached. */
module StreamProgress {
  import opened Model
  import opened Paging
  import opened Stream

  /** Rows of the session neither held by the console nor on their way to it. */
  ghost function Remaining(want: Row -> bool, s: State): seq<Row>
    requires Inv(want, s) && s.conn.Some?
  {
    Mine(s, want)[Sent(s.view, s.conn.value)..]
  }

  /** The server looks for rows. */
  predicate Polling(s: State) {
    s.conn.Some? && !s.conn.value.checking && !s.conn.value.closed
  }

  lemma {:induction false} LongTake(rows: seq<Row>, n: nat)
    ensures Take(rows, n) == rows[..if |rows| < n then |rows| else n]
  {
    assert rows[..|rows|] == rows;
  }

  /** A poll puts the next rows on the wire, in order and at most two hundred; finding none, the server looks at the status. */
  lemma {:induction false} PollSendsNext(want: Row -> bool, hs: seq<Happening>)
    requires Polling(Run(want, hs))
    ensures Inv(want, Run(want, hs)) && Run(want, hs + [Poll]).conn.Some?
    ensures var s, s' := Run(want, hs), Run(want, hs + [Poll]);
            var left, k, k' := Remaining(want, s), s.conn.value, s'.conn.value;
            var n := if |left| < 200 then |left| else 200;
            && s' == s.(conn := s'.conn, quiet := s'.quiet)
            && |k'.wire| == |k.wire| + n && k.wire <= k'.wire
            && (forall i :: 0 <= i < n ==> k'.wire[|k.wire| + i] == Event(left[i]))
            && !k'.closed && (k'.checking <==> n == 0)
  {
    var s := Run(want, hs);
    var k := s.conn.value;
    RunKeeps(want, hs);
    RunStep(want, hs, Poll);
    AboveCursor(s.table, want, Sent(s.view, k));
    LongTake(Remaining(want, s), 200);
  }

  /** Having found nothing, the server ends the stream if the status is terminal, and else says it is alive and looks again. */
  lemma {:induction false} StatusDecides(want: Row -> bool, hs: seq<Happening>)
    requires var s := Run(want, hs); s.conn.Some? && s.conn.value.checking
    ensures Run(want, hs + [Check]).conn.Some?
    ensures var s, s' := Run(want, hs), Run(want, hs + [Check]);
            var k, k' := s.conn.value, s'.conn.value;
            && s' == s.(conn := s'.conn) && !k'.checking && k'.cursor == k.cursor
            && (s.terminal ==> k'.closed && k'.wire == k.wire + [End])
            && (!s.terminal ==> Polling(s') && k'.wire == k.wire + [KeepAlive])
  {
    RunKeeps(want, hs);
    RunStep(want, hs, Check);
  }

  /** A lost connection takes what was on the wire with it; the next one starts behind the highest id the console has seen. */
  lemma {:induction false} ResumesAtCursor(want: Row -> bool, hs: seq<Happening>)
    ensures var s, lost := Run(want, hs), Run(want, hs + [Drop]);
            && lost == s.(conn := None)
            && (!s.view.ended ==>
                  Run(want, hs + [Drop] + [Connect]) == s.(conn := Some(Conn(s.view.last, false, false, []))))
  {
    RunStep(want, hs, Drop);
    RunStep(want, hs + [Drop], Connect);
    DropThenConnect(want, Run(want, hs));
  }

  lemma DropThenConnect(want: Row -> bool, s: State)
    ensures var lost := Step(want, s, Drop);
            && lost == s.(conn := None)
            && (!s.view.ended ==> Step(want, lost, Connect) == s.(conn := Some(Conn(s.view.last, false, false, []))))
  {
  }

  // ---- Whatever arrives -----------------------------------------------------------------------------

  /** What the console holds after these frames. */
  function Watched(frames: seq<Frame>): View {
    if frames == [] then View(0, false, []) else AfterFrame(Watched(frames[..|frames| - 1]), frames[|frames| - 1])
  }

  ghost predicate Carries(frames: seq<Frame>, r: Row) {
    Event(r) in frames
  }

  /** In whatever order and however often rows arrive, the console holds each id once, and its cursor is the highest. */
  lemma {:induction false} HoldsEachOnce(frames: seq<Frame>)
    ensures var v := Watched(frames);
            && (forall i, j :: 0 <= i < j < |v.events| ==> v.events[i].id != v.events[j].id)
            && (forall r :: r in v.events ==> Carries(frames, r))
            && (forall r :: Carries(frames, r) ==> Seen(v.events, r.id) && r.id <= v.last)
            && (v.last == 0 || exists r :: Carries(frames, r) && r.id == v.last)
            && (v.ended <==> End in frames)
  {
    if frames != [] {
      var n := |frames| - 1;
      var v, v' := Watched(frames[..n]), Watched(frames);
      HoldsEachOnce(frames[..n]);
      assert frames == frames[..n] + [frames[n]];
      forall r
        ensures Carries(frames, r) <==> Carries(frames[..n], r) || frames[n] == Event(r)
      {
      }
      if frames[n].Event? {
        SeenAfter(v, frames[n].row);
      }
    }
  }

  lemma SeenAfter(v: View, r: Row)
    ensures var v' := AfterFrame(v, Event(r));
            && Seen(v'.events, r.id) && (forall id :: Seen(v.events, id) ==> Seen(v'.events, id))
            && (forall x :: x in v'.events ==> x in v.events || x == r)
            && r.id <= v'.last && v.last <= v'.last && (v'.last == v.last || v'.last == r.id)
  {
    var v' := AfterFrame(v, Event(r));
    if !Seen(v.events, r.id) {
      assert v'.events[|v.events|] == r;
    }
    forall id | Seen(v.events, id)
      ensures Seen(v'.events, id)
    {
      var i :| 0 <= i < |v.events| && v.events[i].id == id;
      assert v'.events[i] == v.events[i];
    }
  }

  // ---- Going on -------------------------------------------------------------------------------------

  /** What a live connection does by itself: no rows are added, no status set, nothing lost. */
  ghost predicate OfItself(more: seq<Happening>) {
    forall i :: 0 <= i < |more| ==> more[i].Connect? || more[i].Poll? || more[i].Check? || more[i].Deliver?
  }

  /** Where more happenings lead. */
  function Goes(want: Row -> bool, s: State, more: seq<Happening>): State
    decreases |more|
  {
    if more == [] then s else Goes(want, Step(want, s, more[0]), more[1..])
  }

  lemma {:induction false} GoesConcat(want: Row -> bool, s: State, a: seq<Happening>, b: seq<Happening>)
    ensures Goes(want, s, a + b) == Goes(want, Goes(want, s, a), b)
    decreases |a|
  {
    if a == [] {
      assert a + b == b;
    } else {
      assert (a + b)[1..] == a[1..] + b;
      GoesConcat(want, Step(want, s, a[0]), a[1..], b);
    }
  }

  lemma {:induction false} RunGoes(want: Row -> bool, hs: seq<Happening>, more: seq<Happening>)
    ensures Run(want, hs + more) == Goes(want, Run(want, hs), more)
    decreases |more|
  {
    if more == [] {
      assert hs + more == hs;
    } else {
      RunStep(want, hs, more[0]);
      RunGoes(want, hs + [more[0]], more[1..]);
      assert hs + [more[0]] + more[1..] == hs + more;
    }
  }

  // ---- Everything on the wire arrives ---------------------------------------------------------------

  /** Only what was on the wire has changed hands. */
  ghost predicate Drained(s: State, s': State) {
    && s.conn.Some? && s'.table == s.table && s'.terminal == s.terminal && s'.quiet == s.quiet
    && s'.conn == Some(s.conn.value.(wire := []))
    && |s'.view.events| == Sent(s.view, s.conn.value)
  }

  lemma OneDelivered(want: Row -> bool, s: State)
    requires Inv(want, s) && s.conn.Some? && s.conn.value.wire != []
    ensures var s' := Step(want, s, Deliver);
            && Inv(want, s') && s'.table == s.table && s'.terminal == s.terminal && s'.quiet == s.quiet
            && s'.conn == Some(s.conn.value.(wire := s.conn.value.wire[1..]))
            && Sent(s'.view, s'.conn.value) == Sent(s.view, s.conn.value)
  {
    StepKeeps(want, s, Deliver);
    MatchingOrdered(s.table, want, 0, None);
    DeliverConn(Mine(s, want), s.view, s.conn.value, s.quiet);
  }

  lemma {:induction false} DeliverAll(want: Row -> bool, s: State) returns (more: seq<Happening>)
    requires Inv(want, s) && s.conn.Some?
    ensures OfItself(more) && Inv(want, Goes(want, s, more)) && Drained(s, Goes(want, s, more))
    decreases |s.conn.value.wire|
  {
    if s.conn.value.wire == [] {
      more := [];
    } else {
      OneDelivered(want, s);
      var rest := DeliverAll(want, Step(want, s, Deliver));
      more := [Deliver] + rest;
      assert more[1..] == rest;
    }
  }

  // ---- Catching up ----------------------------------------------------------------------------------

  /** The server has not decided to end the stream. */
  predicate Going(s: State) {
    !s.view.ended && (s.conn.Some? ==> !s.conn.value.closed && !(s.conn.value.checking && s.terminal))
  }

  /** Connected, polling, nothing on the way; rows and status as in an earlier state. */
  ghost predicate Listening(want: Row -> bool, s: State, before: State) {
    && Inv(want, s) && Polling(s) && s.conn.value.wire == [] && !s.view.ended
    && s.table == before.table && s.terminal == before.terminal
  }

  /** Connected and looking for rows, whatever is still on the way. */
  lemma {:induction false} Reconnects(want: Row -> bool, s: State)
    requires Inv(want, s) && Going(s)
    ensures var s' := Goes(want, s, [Connect, Check]);
            Inv(want, s') && Polling(s') && s'.table == s.table && s'.terminal == s.terminal && !s'.view.ended
  {
    var s1 := Step(want, s, Connect);
    StepKeeps(want, s, Connect);
    StepKeeps(want, s1, Check);
    assert [Connect, Check][1..] == [Check] && [Check][1..] == [];
  }

  lemma ComesToRest(want: Row -> bool, s: State) returns (more: seq<Happening>)
    requires Inv(want, s) && Going(s)
    ensures OfItself(more) && Listening(want, Goes(want, s, more), s)
  {
    Reconnects(want, s);
    var rest := DeliverAll(want, Goes(want, s, [Connect, Check]));
    more := [Connect, Check] + rest;
    GoesConcat(want, s, [Connect, Check], rest);
  }

  lemma PollBrings(want: Row -> bool, s: State)
    requires Listening(want, s, s) && s.view.events != Mine(s, want)
    ensures var s' := Step(want, s, Poll);
            && Inv(want, s') && Polling(s') && s'.table == s.table && s'.terminal == s.terminal && s'.view == s.view
            && Sent(s'.view, s'.conn.value) > |s.view.events|
  {
    var k := s.conn.value;
    StepKeeps(want, s, Poll);
    AboveCursor(s.table, want, |s.view.events|);
    LongTake(Mine(s, want)[|s.view.events|..], 200);
    CarriedFrames(Fetched(s.table, want, k.cursor));
    assert [] + Frames(Fetched(s.table, want, k.cursor)) == Frames(Fetched(s.table, want, k.cursor));
  }

  /** One round: the next rows are sent and arrive. */
  lemma OneRound(want: Row -> bool, s: State) returns (more: seq<Happening>)
    requires Listening(want, s, s) && s.view.events != Mine(s, want)
    ensures OfItself(more) && Listening(want, Goes(want, s, more), s)
    ensures |Goes(want, s, more).view.events| > |s.view.events|
  {
    PollBrings(want, s);
    var rest := DeliverAll(want, Step(want, s, Poll));
    more := [Poll] + rest;
    assert more[1..] == rest;
  }

  lemma {:induction false} CatchUpFrom(want: Row -> bool, s: State) returns (more: seq<Happening>)
    requires Listening(want, s, s)
    ensures OfItself(more) && Listening(want, Goes(want, s, more), s)
    ensures Goes(want, s, more).view.events == Mine(s, want)
    decreases |Mine(s, want)| - |s.view.events|
  {
    if s.view.events == Mine(s, want) {
      more := [];
    } else {
      var round := OneRound(want, s);
      var rest := CatchUpFrom(want, Goes(want, s, round));
      more := round + rest;
      GoesConcat(want, s, round, rest);
    }
  }

  /** Unless the server has decided to end it, a stream left alone brings the console every row the session has. */
  lemma CatchesUp(want: Row -> bool, hs: seq<Happening>) returns (more: seq<Happening>)
    requires Going(Run(want, hs))
    ensures OfItself(more) && Going(Run(want, hs + more)) && Polling(Run(want, hs + more))
    ensures Run(want, hs + more).table == Run(want, hs).table && Run(want, hs + more).terminal == Run(want, hs).terminal
    ensures Run(want, hs + more).view.events == Mine(Run(want, hs), want)
  {
    var s := Run(want, hs);
    RunKeeps(want, hs);
    var first := ComesToRest(want, s);
    var rest := CatchUpFrom(want, Goes(want, s, first));
    more := first + rest;
    GoesConcat(want, s, first, rest);
    RunGoes(want, hs, more);
  }

  // ---- The end --------------------------------------------------------------------------------------

  /** A stream that was closed has its end frame at the end of the wire, or has been seen to end. */
  ghost predicate EndComes(s: State) {
    s.conn.Some? && s.conn.value.closed ==>
      s.view.ended || (s.conn.value.wire != [] && s.conn.value.wire[|s.conn.value.wire| - 1] == End)
  }

  lemma StepEndComes(want: Row -> bool, s: State, h: Happening)
    requires Inv(want, s) && EndComes(s)
    ensures EndComes(Step(want, s, h))
  {
    if h.Deliver? && s.conn.Some? && |s.conn.value.wire| > 1 {
      assert s.conn.value.wire[1..][|s.conn.value.wire| - 2] == s.conn.value.wire[|s.conn.value.wire| - 1];
    }
  }

  lemma {:induction false} GoesEndComes(want: Row -> bool, s: State, more: seq<Happening>)
    requires Inv(want, s) && EndComes(s)
    ensures EndComes(Goes(want, s, more))
    decreases |more|
  {
    if more != [] {
      StepKeeps(want, s, more[0]);
      StepEndComes(want, s, more[0]);
      GoesEndComes(want, Step(want, s, more[0]), more[1..]);
    }
  }

  /** The server looks at a terminal status, says so, and everything arrives. */
  lemma ClosesFrom(want: Row -> bool, s: State) returns (more: seq<Happening>)
    requires Inv(want, s) && EndComes(s) && s.conn.Some? && s.terminal && (s.conn.value.closed || s.conn.value.checking)
    ensures OfItself(more) && Goes(want, s, more).view.ended && Inv(want, Goes(want, s, more))
    ensures Goes(want, s, more).table == s.table && Goes(want, s, more).quiet == s.quiet
  {
    StepKeeps(want, s, Check);
    StepEndComes(want, s, Check);
    var s1 := Step(want, s, Check);
    var rest := DeliverAll(want, s1);
    GoesEndComes(want, s1, rest);
    more := [Check] + rest;
    assert more[1..] == rest;
  }

  lemma PollFindsNothing(want: Row -> bool, s: State)
    requires Listening(want, s, s) && s.view.events == Mine(s, want)
    ensures var s' := Step(want, s, Poll);
            && Inv(want, s') && s'.table == s.table && s'.terminal == s.terminal && s'.view == s.view
            && s'.conn == Some(s.conn.value.(checking := true)) && s'.quiet == |Mine(s, want)|
  {
    StepKeeps(want, s, Poll);
    AboveCursor(s.table, want, |s.view.events|);
    LongTake(Mine(s, want)[|s.view.events|..], 200);
  }

  /** From a state in which the console holds everything. */
  lemma EndsFrom(want: Row -> bool, s: State) returns (more: seq<Happening>)
    requires Listening(want, s, s) && s.terminal && s.view.events == Mine(s, want)
    ensures OfItself(more) && Goes(want, s, more).view.ended && Goes(want, s, more).view.events == Mine(s, want)
  {
    PollFindsNothing(want, s);
    var s1 := Step(want, s, Poll);
    var rest := ClosesFrom(want, s1);
    more := [Poll] + rest;
    assert more[1..] == rest;
  }

  /** Once the status is terminal, a stream left alone brings every row the session has, and then ends. */
  lemma ThenItEnds(want: Row -> bool, hs: seq<Happening>) returns (more: seq<Happening>)
    requires Going(Run(want, hs)) && Run(want, hs).terminal
    ensures OfItself(more) && Run(want, hs + more).view.ended
    ensures Run(want, hs + more).view.events == Mine(Run(want, hs), want)
  {
    var s := Run(want, hs);
    RunKeeps(want, hs);
    var first := ComesToRest(want, s);
    var middle := CatchUpFrom(want, Goes(want, s, first));
    var last := EndsFrom(want, Goes(want, Goes(want, s, first), middle));
    more := first + middle + last;
    GoesConcat(want, s, first, middle);
    GoesConcat(want, s, first + middle, last);
    RunGoes(want, hs, more);
  }
}
