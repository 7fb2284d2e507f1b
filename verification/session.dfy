/**
 * Runs of the control server: a sequence of handled requests, optionally
 * interleaved with checks of the watchdog rule, each one atomic.
 */
module Session {
  import opened Actuator
  import opened Control

  /** A request handled at a clock reading, or one check of the staleness rule. */
  datatype Event = Http(req: Request, at: real) | Tick(at: real)

  function Step(site: Site, s: State, e: Event): State {
    match e
    case Http(req, at) => Handle(req, site, at, s).next
    case Tick(at) => Watchdog(s, at)
  }

  /** The state after the events, applied first to last. */
  function Run(site: Site, s: State, events: seq<Event>): State
    decreases |events|
  {
    if |events| == 0 then s
    else Step(site, Run(site, s, events[..|events| - 1]), events[|events| - 1])
  }

  /** A request that sets the channels moving: a parsed `/move` naming a known direction. */
  predicate Drives(req: Request) {
    && req.rawPath != "/"
    && req.urlPath == "/move"
    && FirstValues(req.query).Success?
    && "direction" in FirstValues(req.query).value
    && ParseDirection(FirstValues(req.query).value["direction"]).Some?
  }

  /** Clock readings that never go backwards and never precede `start`. */
  predicate ClockFrom(start: real, events: seq<Event>) {
    && (forall i :: 0 <= i < |events| ==> start <= events[i].at)
    && (forall i, j :: 0 <= i < j < |events| ==> events[i].at <= events[j].at)
  }

  /** The timestamp after a run is the starting one or the clock reading of one of the events. */
  lemma {:induction false} LastMoveOrigin(site: Site, s: State, events: seq<Event>)
    ensures
      var t := Run(site, s, events).lastMove;
      t == s.lastMove || exists k :: 0 <= k < |events| && t == events[k].at
  {
    if |events| > 0 {
      var n := |events| - 1;
      var prefix := events[..n];
      LastMoveOrigin(site, s, prefix);
      var t := Run(site, s, prefix).lastMove;
      if t != s.lastMove {
        var k :| 0 <= k < n && t == prefix[k].at;
        assert events[k].at == t;
      }
    }
  }

  /** With a forward-running clock, each event leaves the timestamp where it was or moves it forward. */
  lemma StepMonotone(site: Site, s: State, events: seq<Event>, j: nat)
    requires ClockFrom(s.lastMove, events)
    requires j < |events|
    ensures Run(site, s, events[..j]).lastMove <= Run(site, s, events[..j + 1]).lastMove
  {
    var before := Run(site, s, events[..j]);
    assert events[..j + 1][..j] == events[..j];
    LastMoveOrigin(site, s, events[..j]);
    if before.lastMove != s.lastMove {
      var k :| 0 <= k < j && before.lastMove == events[..j][k].at;
      assert events[k].at <= events[j].at;
    }
  }

  /** The last-move timestamp never decreases along a run whose clock never goes backwards. */
  lemma {:induction false} LastMoveMonotone(site: Site, s: State, events: seq<Event>, i: nat, j: nat)
    requires ClockFrom(s.lastMove, events)
    requires i <= j <= |events|
    ensures Run(site, s, events[..i]).lastMove <= Run(site, s, events[..j]).lastMove
    decreases j - i
  {
    if i < j {
      StepMonotone(site, s, events, i);
      LastMoveMonotone(site, s, events, i + 1, j);
    }
  }

  /** Once both channels are stopped, only a request that drives them can start them again. */
  lemma {:induction false} StaysStopped(site: Site, s: State, events: seq<Event>)
    requires s.one == Stopped && s.two == Stopped
    requires forall i :: 0 <= i < |events| && events[i].Http? ==> !Drives(events[i].req)
    ensures Run(site, s, events).one == Stopped && Run(site, s, events).two == Stopped
  {
    if |events| > 0 {
      var n := |events| - 1;
      StaysStopped(site, s, events[..n]);
      var before := Run(site, s, events[..n]);
      match events[n]
      case Tick(at) =>
      case Http(req, at) =>
        assert !Drives(req);
        if req.rawPath != "/" && req.urlPath == "/move" && FirstValues(req.query).Success? {
          MoveRequest(req, site, at, before);
        }
    }
  }

  /** A check of the rule after more than 2000 seconds without a move leaves both channels stopped. */
  lemma StaleTickStops(site: Site, s: State, events: seq<Event>, at: real)
    requires at - Run(site, s, events).lastMove > StaleAfter
    ensures
      var r := Run(site, s, events + [Tick(at)]);
      r.one == Stopped && r.two == Stopped
  {
    assert (events + [Tick(at)])[..|events|] == events;
  }

  /** From power-up, the channels stay stopped until a request names a recognised direction. */
  lemma StoppedFromStart(site: Site, events: seq<Event>)
    requires forall i :: 0 <= i < |events| && events[i].Http? ==> !Drives(events[i].req)
    ensures Run(site, Initial, events).one == Stopped && Run(site, Initial, events).two == Stopped
  {
    StaysStopped(site, Initial, events);
  }
}
