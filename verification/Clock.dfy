/** The clock that charges a session for its active time only, and the hooks that freeze and thaw it. */
module Clock {
  import opened Model
  import Protocol
  import ProtocolMoney
  import ProtocolSafety

  /**
   * pending counts the calls between pause and resume; thawing counts resume hooks whose container call has not
   * returned. held is the time spent so far with a call waiting or a thaw under way.
   */
  datatype Clock = Clock(
    now: real, started: real, pausedTotal: real, pausedAt: Option<real>, pending: nat, thawing: nat, held: real)

  datatype Beat = Tick(d: real) | Pause | Resume | Thawed | ThawAborted

  /** A reading of 0.0 counts as not paused. */
  predicate Paused(c: Clock) {
    c.pausedAt.Some? && c.pausedAt.value != 0.0
  }

  function PausedSeconds(c: Clock): real {
    c.pausedTotal + (if Paused(c) then c.now - c.pausedAt.value else 0.0)
  }

  function ActiveSeconds(c: Clock): real {
    c.now - c.started - PausedSeconds(c)
  }

  predicate Holding(c: Clock) {
    c.pending > 0 || c.thawing > 0
  }

  // ---- The session object ---------------------------------------------------------------------------

  class ActiveSession {
    var started: real
    var pausedTotal: real
    var pausedAt: Option<real>
    var killed: bool

    ghost predicate Shows(c: Clock)
      reads this
    {
      started == c.started && pausedTotal == c.pausedTotal && pausedAt == c.pausedAt
    }

    constructor (now: real)
      ensures Shows(Start(now)) && !killed
    {
      started, pausedTotal, pausedAt, killed := now, 0.0, None, false;
    }

    method Active(now: real) returns (seconds: real)
      ensures forall c: Clock :: Shows(c) && c.now == now ==> seconds == ActiveSeconds(c)
    {
      var paused := pausedTotal + (if pausedAt.Some? && pausedAt.value != 0.0 then now - pausedAt.value else 0.0);
      seconds := now - started - paused;
    }

    /** on_pause, up to the container call. */
    method OnPause(now: real)
      modifies this`pausedAt
      ensures forall c: Clock :: old(Shows(c)) && c.now == now && c.pending == 0 ==> Shows(Step(c, Beat.Pause))
    {
      pausedAt := Some(now);
    }

    /** on_resume, after the container call. */
    method OnThawed(now: real)
      modifies this`pausedAt, this`pausedTotal
      ensures forall c: Clock :: old(Shows(c)) && c.now == now && c.thawing > 0 ==> Shows(Step(c, Thawed))
    {
      if pausedAt.Some? && pausedAt.value != 0.0 {
        pausedTotal := pausedTotal + (now - pausedAt.value);
        pausedAt := None;
      }
    }

    /** One look of the watchdog. */
    method Watch(now: real, limit: real)
      modifies this`killed
      ensures forall c: Clock :: old(Shows(c)) && c.now == now ==> (killed <==> old(killed) || ActiveSeconds(c) > limit)
    {
      var seconds := Active(now);
      if seconds > limit {
        killed := true;
      }
    }
  }

  // ---- Schedules ------------------------------------------------------------------------------------

  function Start(now: real): Clock {
    Clock(now, now, 0.0, None, 0, 0, 0.0)
  }

  function Step(c: Clock, b: Beat): Clock {
    match b
    case Tick(d) =>
      if d <= 0.0 then c else c.(now := c.now + d, held := if Holding(c) then c.held + d else c.held)
    case Pause =>
      c.(pending := c.pending + 1, pausedAt := if c.pending == 0 then Some(c.now) else c.pausedAt)
    case Resume =>
      c.(pending := Protocol.Resumed(c.pending),
         thawing := if Protocol.Resumed(c.pending) == 0 then c.thawing + 1 else c.thawing)
    case Thawed =>
      if c.thawing == 0 then c
      else c.(thawing := c.thawing - 1, pausedTotal := PausedSeconds(c), pausedAt := if Paused(c) then None else c.pausedAt)
    case ThawAborted =>
      if c.thawing == 0 then c else c.(thawing := c.thawing - 1)
  }

  function Run(t0: real, beats: seq<Beat>): Clock {
    if beats == [] then Start(t0) else Step(Run(t0, beats[..|beats| - 1]), beats[|beats| - 1])
  }

  /** Hooks do not overlap: nothing is paused during a thaw, no thaw is cut short, and resumes follow pauses. */
  predicate InTurn(c: Clock, b: Beat) {
    && (b.Pause? ==> c.thawing == 0 || c.pending > 0)
    && (b.Resume? ==> c.pending > 0)
    && (b.ThawAborted? ==> c.thawing == 0)
  }

  ghost predicate Orderly(t0: real, beats: seq<Beat>) {
    forall n :: 0 <= n < |beats| ==> InTurn(Run(t0, beats[..n]), beats[n])
  }

  // ---- Freeze accounting ----------------------------------------------------------------------------

  /** The clock stands still exactly while a call waits or a thaw is under way, and has subtracted exactly that time. */
  ghost predicate Faithful(c: Clock) {
    && c.started > 0.0 && c.now >= c.started
    && (c.pausedAt.Some? ==> c.pausedAt.value >= c.started)
    && (Paused(c) <==> Holding(c))
    && !(c.pending > 0 && c.thawing > 0) && c.thawing <= 1
    && PausedSeconds(c) == c.held
  }

  /** From a faithful clock, exactly the beats that come in turn lead to a faithful clock. */
  lemma InTurnIffFaithful(c: Clock, b: Beat)
    requires Faithful(c)
    ensures InTurn(c, b) <==> Faithful(Step(c, b))
  {
  }

  lemma {:induction false} OrderlyIsFaithful(t0: real, beats: seq<Beat>)
    requires t0 > 0.0 && Orderly(t0, beats)
    ensures Faithful(Run(t0, beats))
  {
    if beats != [] {
      var n := |beats| - 1;
      forall m | 0 <= m < n
        ensures InTurn(Run(t0, beats[..n][..m]), beats[..n][m])
      {
        assert beats[..n][..m] == beats[..m];
      }
      OrderlyIsFaithful(t0, beats[..n]);
      InTurnIffFaithful(Run(t0, beats[..n]), beats[n]);
    }
  }

  /**
   * With hooks in turn, active time plus held time is elapsed time, time does not count while a call waits or a
   * thaw is under way and counts fully otherwise, and the watchdog kills exactly when the rest exceeds the limit.
   */
  lemma {:induction false} ActivePlusHeldIsElapsed(t0: real, beats: seq<Beat>, d: real, limit: real)
    requires t0 > 0.0 && Orderly(t0, beats) && d > 0.0
    ensures var c := Run(t0, beats);
            && ActiveSeconds(c) + c.held == c.now - c.started
            && ActiveSeconds(Step(c, Tick(d))) == ActiveSeconds(c) + (if Holding(c) then 0.0 else d)
            && (ActiveSeconds(c) > limit <==> c.now - c.started - c.held > limit)
  {
    OrderlyIsFaithful(t0, beats);
  }

  /** A pause during a thaw: once the thaw returns, waiting time is charged although a call still waits. */
  lemma PauseDuringThawIsCharged(c: Clock, d: real)
    requires Faithful(c) && c.pending == 0 && d > 0.0
    ensures var waiting := Step(Step(c, Beat.Pause), Thawed);
            && waiting.pending > 0
            && (ActiveSeconds(Step(waiting, Tick(d))) == ActiveSeconds(waiting) <==> c.thawing == 0)
            && (c.thawing > 0 ==> ActiveSeconds(Step(waiting, Tick(d))) == ActiveSeconds(waiting) + d)
  {
  }

  /** A thaw cut short: the clock never counts again, so the watchdog is blind until the next full freeze. */
  lemma AbortedThawStopsTheClock(c: Clock, d: real)
    requires Faithful(c) && c.thawing > 0 && d > 0.0
    ensures var aborted := Step(c, ThawAborted);
            !Holding(aborted) && ActiveSeconds(Step(aborted, Tick(d))) == ActiveSeconds(aborted)
  {
  }

  // ---- Hooks of a session ---------------------------------------------------------------------------

  /** What a protocol step does to the pending count. */
  function BeatOf(s: Protocol.State, e: Protocol.Event): Option<Beat> {
    match e
    case Hold(c, w) =>
      if !Protocol.CanHold(s, c, w) then None
      else if w.Pause? then Some(Beat.Pause)
      else if w.Leave? && Protocol.AskOf(s, c).paused then Some(Beat.Resume)
      else None
    case _ => None
  }

  /** The pauses and resumes of a protocol run, in order. */
  function BeatsOf(cfg: Protocol.Config, events: seq<Protocol.Event>): seq<Beat> {
    if events == [] then []
    else
      var n := |events| - 1;
      var b := BeatOf(Protocol.Run(cfg, events[..n]), events[n]);
      BeatsOf(cfg, events[..n]) + (if b.Some? then [b.value] else [])
  }

  /** Which hooks start: freezing (true) when the count leaves zero, thawing (false) when it returns there. */
  function HookStarts(t0: real, beats: seq<Beat>): seq<bool> {
    if beats == [] then []
    else
      var n := |beats| - 1;
      var c := Run(t0, beats[..n]);
      HookStarts(t0, beats[..n]) +
      (if beats[n].Pause? && c.pending == 0 then [true]
       else if beats[n].Resume? && Protocol.Resumed(c.pending) == 0 then [false]
       else [])
  }

  lemma BeatMovesPending(cfg: Protocol.Config, s: Protocol.State, e: Protocol.Event)
    requires ProtocolMoney.Balanced(s)
    ensures var b := BeatOf(s, e);
            var s' := Protocol.Step(cfg, s, e);
            && (b.None? ==> s'.pending == s.pending)
            && (b == Some(Beat.Pause) ==> s'.pending == s.pending + 1)
            && (b == Some(Beat.Resume) ==> s.pending > 0 && s'.pending == s.pending - 1)
            && (b.Some? ==> b.value.Pause? || b.value.Resume?)
  {
    match e
    case Hold(c, w) =>
      if Protocol.CanHold(s, c, w) && w.Leave? && Protocol.AskOf(s, c).paused {
        ProtocolMoney.PausedCounts(s, c);
      }
    case Admit(_, _) =>
    case Execute(_, _) =>
    case _ =>
  }

  ghost predicate NeverClamps(t0: real, beats: seq<Beat>) {
    forall n :: 0 <= n < |beats| ==>
      && (beats[n].Pause? || beats[n].Resume?)
      && (beats[n].Resume? ==> Run(t0, beats[..n]).pending > 0)
  }

  lemma {:induction false} OneMoreBeat(t0: real, beats: seq<Beat>, b: Beat)
    requires NeverClamps(t0, beats) && (b.Pause? || b.Resume?)
    requires b.Resume? ==> Run(t0, beats).pending > 0
    ensures NeverClamps(t0, beats + [b]) && Run(t0, beats + [b]) == Step(Run(t0, beats), b)
  {
    var more := beats + [b];
    assert more[..|beats|] == beats;
    forall n | 0 <= n < |more|
      ensures more[n].Pause? || more[n].Resume?
      ensures more[n].Resume? ==> Run(t0, more[..n]).pending > 0
    {
      assert more[..n] == beats[..n];
    }
  }

  /** Whatever the schedule, the count is the clock's, and every resume finds it positive: max(0, ...) never clamps. */
  lemma {:induction false} ResumesNeverClamp(cfg: Protocol.Config, events: seq<Protocol.Event>, t0: real)
    ensures NeverClamps(t0, BeatsOf(cfg, events))
    ensures Run(t0, BeatsOf(cfg, events)).pending == Protocol.Run(cfg, events).pending
  {
    if events != [] {
      var n := |events| - 1;
      var s, before := Protocol.Run(cfg, events[..n]), BeatsOf(cfg, events[..n]);
      ResumesNeverClamp(cfg, events[..n], t0);
      ProtocolMoney.RunBalances(cfg, events[..n]);
      BeatMovesPending(cfg, s, events[n]);
      var b := BeatOf(s, events[n]);
      if b.Some? {
        assert BeatsOf(cfg, events) == before + [b.value];
        OneMoreBeat(t0, before, b.value);
      } else {
        assert BeatsOf(cfg, events) == before;
      }
    }
  }

  /** Freeze and thaw hooks start strictly in turn, a freeze first. */
  lemma {:induction false} StartsAlternate(t0: real, beats: seq<Beat>)
    requires NeverClamps(t0, beats)
    ensures var starts := HookStarts(t0, beats);
            && (forall i :: 0 <= i < |starts| ==> starts[i] == (i % 2 == 0))
            && (|starts| % 2 == 1 <==> Run(t0, beats).pending > 0)
  {
    if beats != [] {
      var n := |beats| - 1;
      forall m | 0 <= m < n
        ensures beats[..n][m].Resume? ==> Run(t0, beats[..n][..m]).pending > 0
      {
        assert beats[..n][..m] == beats[..m];
      }
      StartsAlternate(t0, beats[..n]);
    }
  }

  /** In every run of the protocol. */
  lemma {:induction false} HooksAlternate(cfg: Protocol.Config, events: seq<Protocol.Event>, t0: real)
    ensures var starts := HookStarts(t0, BeatsOf(cfg, events));
            && (forall i :: 0 <= i < |starts| ==> starts[i] == (i % 2 == 0))
            && (|starts| % 2 == 1 <==> Protocol.Run(cfg, events).pending > 0)
  {
    ResumesNeverClamp(cfg, events, t0);
    StartsAlternate(t0, BeatsOf(cfg, events));
  }

  // ---- Hooks taken as atomic ------------------------------------------------------------------------

  /** A session's life: time passing between steps of its protocol. */
  datatype Moment = Passes(d: real) | Happens(event: Protocol.Event)

  function EventsIn(life: seq<Moment>): seq<Protocol.Event> {
    if life == [] then []
    else
      var n := |life| - 1;
      EventsIn(life[..n]) + (if life[n].Happens? then [life[n].event] else [])
  }

  /** Thaws return before anything else happens. */
  function AfterMoment(cfg: Protocol.Config, c: Clock, s: Protocol.State, m: Moment): Clock {
    match m
    case Passes(d) => Step(c, Tick(d))
    case Happens(e) =>
      var b := BeatOf(s, e);
      if b.None? then c
      else
        var c' := Step(c, b.value);
        if c'.thawing > 0 then Step(c', Thawed) else c'
  }

  function Live(cfg: Protocol.Config, t0: real, life: seq<Moment>): Clock {
    if life == [] then Start(t0)
    else
      var n := |life| - 1;
      AfterMoment(cfg, Live(cfg, t0, life[..n]), Protocol.Run(cfg, EventsIn(life[..n])), life[n])
  }

  lemma MomentKeeps(cfg: Protocol.Config, c: Clock, s: Protocol.State, m: Moment)
    requires Faithful(c) && c.thawing == 0 && c.pending == s.pending && ProtocolMoney.Balanced(s)
    ensures var c' := AfterMoment(cfg, c, s, m);
            && Faithful(c') && c'.thawing == 0
            && c'.pending == (if m.Happens? then Protocol.Step(cfg, s, m.event).pending else s.pending)
  {
    if m.Happens? {
      BeatMovesPending(cfg, s, m.event);
      var b := BeatOf(s, m.event);
      if b.Some? {
        InTurnIffFaithful(c, b.value);
        InTurnIffFaithful(Step(c, b.value), Thawed);
      }
    } else {
      InTurnIffFaithful(c, Tick(m.d));
    }
  }

  lemma {:induction false} LiveIsFaithful(cfg: Protocol.Config, t0: real, life: seq<Moment>)
    requires t0 > 0.0
    ensures var c := Live(cfg, t0, life);
            Faithful(c) && c.thawing == 0 && c.pending == Protocol.Run(cfg, EventsIn(life)).pending
  {
    if life != [] {
      var n := |life| - 1;
      var events := EventsIn(life[..n]);
      LiveIsFaithful(cfg, t0, life[..n]);
      ProtocolMoney.RunBalances(cfg, events);
      MomentKeeps(cfg, Live(cfg, t0, life[..n]), Protocol.Run(cfg, events), life[n]);
      if life[n].Happens? {
        ProtocolSafety.RunStep(cfg, events, life[n].event);
      } else {
        assert EventsIn(life) == events;
      }
    }
  }

  /**
   * With atomic hooks, for every schedule and any passage of time: active time plus the time some call waited is
   * the elapsed time, and a session the watchdog kills has run unfrozen for longer than its limit.
   */
  lemma {:induction false} ActiveTimeIsUnfrozenTime(cfg: Protocol.Config, t0: real, life: seq<Moment>, limit: real)
    requires t0 > 0.0
    ensures var c := Live(cfg, t0, life);
            && ActiveSeconds(c) + c.held == c.now - c.started
            && (Holding(c) <==> Protocol.Run(cfg, EventsIn(life)).pending > 0)
            && (ActiveSeconds(c) > limit <==> c.now - c.started - c.held > limit)
  {
    LiveIsFaithful(cfg, t0, life);
  }
}
