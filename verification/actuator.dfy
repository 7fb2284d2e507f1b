/**
 * The two motor channels of the robot and the last-move timestamp that the
 * control server keeps beside them. Every transition here is one atomic step
 * taken under the server's `hat_lock`.
 */
module Actuator {
  import opened Basics

  /** What one channel was last told to do. */
  datatype Motor = Stopped | Forward | Backward

  /** Channel one, channel two, and the `time()` of the last `/move` that named a direction. */
  datatype State = State(one: Motor, two: Motor, lastMove: real)

  datatype Direction = Forwards | Backwards | Left | Right

  /** Channels start idle and `last_move` starts at 0. */
  const Initial: State := State(Stopped, Stopped, 0.0)

  /** Seconds of silence after which the watchdog stops both channels. */
  const StaleAfter: real := 2000.0

  /** The query value that selects each direction. */
  function Name(d: Direction): string {
    match d
    case Forwards => "forwards"
    case Backwards => "backwards"
    case Left => "left"
    case Right => "right"
  }

  /** Recognise a direction by its exact (case-sensitive) name. */
  function ParseDirection(v: string): (r: Option<Direction>)
    ensures r.Some? ==> Name(r.value) == v
    ensures r.None? ==> forall d: Direction :: Name(d) != v
  {
    if v == "forwards" then Some(Forwards)
    else if v == "backwards" then Some(Backwards)
    else if v == "left" then Some(Left)
    else if v == "right" then Some(Right)
    else None
  }

  /** The channel pair each direction drives. */
  function Drive(d: Direction): (m: (Motor, Motor))
    ensures m.0 != Stopped && m.1 != Stopped
    ensures m.0 == m.1 <==> d == Forwards || d == Backwards
  {
    match d
    case Forwards => (Forward, Forward)
    case Backwards => (Backward, Backward)
    case Left => (Backward, Forward)
    case Right => (Forward, Backward)
  }

  /** Every direction drives a different channel pair, so the pair identifies the command. */
  lemma DriveInjective(d: Direction, e: Direction)
    ensures Drive(d) == Drive(e) ==> d == e
  {
  }

  /**
   * The locked section of `/move`, given the query's first values. A present
   * `direction` key sets the channels when its value is recognised and stamps
   * the time in any case; a missing key changes nothing.
   */
  function Move(s: State, data: map<string, string>, now: real): (r: State)
    ensures "direction" !in data ==> r == s
    ensures "direction" in data ==> r.lastMove == now
    ensures "direction" in data && data["direction"] == "forwards" ==> r.one == Forward && r.two == Forward
    ensures "direction" in data && data["direction"] == "backwards" ==> r.one == Backward && r.two == Backward
    ensures "direction" in data && data["direction"] == "left" ==> r.one == Backward && r.two == Forward
    ensures "direction" in data && data["direction"] == "right" ==> r.one == Forward && r.two == Backward
    ensures "direction" in data && data["direction"] !in {"forwards", "backwards", "left", "right"} ==>
      r.one == s.one && r.two == s.two
  {
    if "direction" !in data then s
    else
      match ParseDirection(data["direction"])
      case None => s.(lastMove := now)
      case Some(d) => State(Drive(d).0, Drive(d).1, now)
  }

  /** `/stop`: both channels stopped, the timestamp untouched. */
  function Stop(s: State): (r: State)
    ensures r.one == Stopped && r.two == Stopped
    ensures r.lastMove == s.lastMove
  {
    s.(one := Stopped, two := Stopped)
  }

  lemma StopIdempotent(s: State)
    ensures Stop(Stop(s)) == Stop(s)
  {
  }

  /** The watchdog's test: strictly more than `StaleAfter` since the last move. */
  predicate IsStale(s: State, now: real) {
    now - s.lastMove > StaleAfter
  }

  /** One check of the watchdog loop: stop both channels when the last move is stale. */
  function Watchdog(s: State, now: real): (r: State)
    ensures IsStale(s, now) ==> r.one == Stopped && r.two == Stopped && r.lastMove == s.lastMove
    ensures !IsStale(s, now) ==> r == s
    ensures r.lastMove == s.lastMove
  {
    if IsStale(s, now) then Stop(s) else s
  }

  /** The watchdog acts exactly when the gap exceeds 2000; a gap of exactly 2000 is not stale. */
  lemma WatchdogThreshold(s: State, now: real)
    ensures Watchdog(s, now) != s <==> now - s.lastMove > 2000.0 && (s.one != Stopped || s.two != Stopped)
    ensures Watchdog(s, s.lastMove + 2000.0) == s
  {
  }

  /** Checking again at the same or a later time changes nothing further. */
  lemma WatchdogIdempotent(s: State, now: real, later: real)
    requires now <= later
    ensures Watchdog(Watchdog(s, now), later) == Watchdog(s, later)
  {
  }

  /** The watchdog and `/stop` commute: both only ever stop channels. */
  lemma WatchdogStopCommute(s: State, now: real)
    ensures Watchdog(Stop(s), now) == Stop(Watchdog(s, now)) == Stop(s)
  {
  }

  /** Right after a move that named a direction, the watchdog leaves the channels alone for 2000 seconds. */
  lemma FreshMoveNotStale(s: State, data: map<string, string>, now: real, later: real)
    requires "direction" in data
    requires now <= later <= now + StaleAfter
    ensures Watchdog(Move(s, data, now), later) == Move(s, data, now)
  {
  }
}
