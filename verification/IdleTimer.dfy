/** The idle timeout of a connection: an activity time in whole seconds, a one-shot timer that is
    armed again until the connection has been idle long enough. Times are in nanoseconds. */
module IdleTimer {
  import opened Prelude

  const SECOND: int := 1_000_000_000

  datatype Fired = RequestClose | Rearm(after: int)

  /** time.Unix(x, 0) of the recorded seconds. */
  function Recorded(activeTime: int): int {
    activeTime * SECOND
  }

  /** time.Now().Unix(). */
  function UnixSeconds(now: int): (s: int)
    ensures Recorded(s) <= now < Recorded(s) + SECOND
  {
    now / SECOND
  }

  /** The function handed to the timing wheel. */
  function CloseTimeoutConn(idleTime: int, activeTime: int, now: int): Fired {
    var intervals := now - Recorded(activeTime);
    if intervals >= idleTime then RequestClose else Rearm(idleTime - intervals)
  }

  datatype Request = Request(at: int, lastActivity: int)

  datatype Timer = Timer(
    now: int,
    activeTime: int,            // whole seconds
    lastActivity: int,          // history: the exact time recorded in activeTime
    armed: Option<int>,         // the deadline of the pending timer
    requested: Option<Request>, // history: the close that was requested
    refused: Option<Request>)   // history: a close asked of a connection that was not open

  /** Fire: the timer goes off; a close is refused by a connection that is not open. */
  datatype Step = Pass(to: int) | Activity | Fire(open: bool)

  /** A connection made at time start. */
  function Made(idleTime: int, start: int): Timer {
    Timer(start, UnixSeconds(start), start, Some(start + idleTime), None, None)
  }

  /** The clock does not go back, and does not leave a pending timer more than slack behind. */
  predicate Enabled(slack: nat, t: Timer, step: Step) {
    match step
    case Pass(to) => t.now <= to && (t.armed.Some? ==> to <= t.armed.value + slack)
    case Activity => true
    case Fire(_) => t.armed.Some? && t.armed.value <= t.now
  }

  function Apply(idleTime: int, t: Timer, step: Step): Timer {
    match step
    case Pass(to) => t.(now := to)
    case Activity => t.(activeTime := UnixSeconds(t.now), lastActivity := t.now)
    case Fire(open) =>
      match CloseTimeoutConn(idleTime, t.activeTime, t.now)
      case RequestClose =>
        var r := Some(Request(t.now, t.lastActivity));
        if open then t.(armed := None, requested := r) else t.(armed := None, refused := r)
      case Rearm(after) => t.(armed := Some(t.now + after))
  }

  predicate Legal(idleTime: int, slack: nat, start: int, steps: seq<Step>) {
    steps == []
    || (Legal(idleTime, slack, start, steps[..|steps| - 1])
        && Enabled(slack, Run(idleTime, start, steps[..|steps| - 1]), steps[|steps| - 1]))
  }

  function Run(idleTime: int, start: int, steps: seq<Step>): Timer {
    if steps == [] then Made(idleTime, start)
    else Apply(idleTime, Run(idleTime, start, steps[..|steps| - 1]), steps[|steps| - 1])
  }

  /** More than idleTime less a second, and at most idleTime plus the slack. */
  predicate InTime(idleTime: int, slack: nat, r: Request) {
    idleTime - SECOND < r.at - r.lastActivity <= idleTime + slack
  }

  ghost predicate Inv(idleTime: int, slack: nat, t: Timer) {
    && Recorded(t.activeTime) <= t.lastActivity < Recorded(t.activeTime) + SECOND
    && t.lastActivity <= t.now
    && (t.armed.Some? <==> t.requested.None? && t.refused.None?)
    && (t.armed.Some? ==> t.armed.value <= t.lastActivity + idleTime && t.now <= t.armed.value + slack)
    && (t.requested.Some? ==> InTime(idleTime, slack, t.requested.value))
    && (t.refused.Some? ==> InTime(idleTime, slack, t.refused.value))
    && (t.requested.None? || t.refused.None?)
  }

  lemma InvStep(idleTime: int, slack: nat, t: Timer, step: Step)
    requires idleTime > 0
    requires Inv(idleTime, slack, t) && Enabled(slack, t, step)
    ensures Inv(idleTime, slack, Apply(idleTime, t, step))
  {
  }

  lemma {:induction false} Invariant(idleTime: int, slack: nat, start: int, steps: seq<Step>)
    requires idleTime > 0 && Legal(idleTime, slack, start, steps)
    ensures Inv(idleTime, slack, Run(idleTime, start, steps))
  {
    if steps != [] {
      var before := steps[..|steps| - 1];
      Invariant(idleTime, slack, start, before);
      InvStep(idleTime, slack, Run(idleTime, start, before), steps[|steps| - 1]);
    }
  }

  /** In every run: the request comes more than idleTime less a second after the last activity, though
      activity is kept in whole seconds, and no later than idleTime plus the slack of the timers. A timer
      is pending, and no more than that has passed since the last activity, exactly while no close has
      been asked for, successfully or not. */
  lemma IdleBound(idleTime: int, slack: nat, start: int, steps: seq<Step>)
    requires idleTime > 0 && Legal(idleTime, slack, start, steps)
    ensures var t := Run(idleTime, start, steps);
            && (t.armed.Some? <==> t.requested.None? && t.refused.None?)
            && (t.requested.None? || t.refused.None?)
            && (t.armed.Some? ==> t.now - t.lastActivity <= idleTime + slack)
            && (t.requested.Some? ==> InTime(idleTime, slack, t.requested.value))
            && (t.refused.Some? ==> InTime(idleTime, slack, t.refused.value))
  {
    Invariant(idleTime, slack, start, steps);
  }

  /** What a timer that goes off at time now makes of t, told by the exact time of the last activity: it
      asks for a close when no more than a second of idleTime is missing, and always after idleTime;
      otherwise it is armed again, for a moment still to come no later than idleTime after the activity. */
  predicate FiredAt(idleTime: int, slack: nat, t: Timer, d: Timer, now: int, open: bool, fired: Fired) {
    var last := t.lastActivity;
    && t.requested == None && t.refused == None
    && Enabled(slack, d, Pass(now)) && d.activeTime == t.activeTime && d.lastActivity == last
    && match fired
       case RequestClose =>
         && idleTime - SECOND < now - last <= idleTime + slack
         && d.armed == None
         && d.requested == (if open then Some(Request(now, last)) else None)
         && d.refused == (if open then None else Some(Request(now, last)))
       case Rearm(after) =>
         && after > 0 && last + idleTime - SECOND < now + after <= last + idleTime
         && d.armed == Some(now + after) && d.requested == None && d.refused == None
  }

  lemma FireSteps(idleTime: int, slack: nat, start: int, steps: seq<Step>, now: int, open: bool)
    returns (after: seq<Step>)
    requires idleTime > 0 && Legal(idleTime, slack, start, steps)
    requires var t := Run(idleTime, start, steps);
             Enabled(slack, t, Pass(now)) && t.armed.Some? && t.armed.value <= now
    ensures Legal(idleTime, slack, start, after)
    ensures var t := Run(idleTime, start, steps);
            FiredAt(idleTime, slack, t, Run(idleTime, start, after), now, open,
                    CloseTimeoutConn(idleTime, t.activeTime, now))
  {
    Invariant(idleTime, slack, start, steps);
    after := Then(idleTime, slack, start, steps, Pass(now));
    after := Then(idleTime, slack, start, after, Fire(open));
  }

  /** Rearming always moves the deadline past the present, so the timer cannot fire in a loop. */
  lemma RearmMovesOn(idleTime: int, t: Timer)
    ensures forall open :: var d := Apply(idleTime, t, Fire(open)); d.armed.Some? ==> d.armed.value > t.now
  {
  }

  /** With no slack a close can be requested exactly idleTime after the last activity. */
  lemma LatestRequest(idleTime: int) returns (steps: seq<Step>)
    requires idleTime > SECOND
    ensures Legal(idleTime, 0, 0, steps) && Run(idleTime, 0, steps).requested == Some(Request(idleTime, 0))
  {
    steps := Then(idleTime, 0, 0, [], Pass(idleTime));
    steps := Then(idleTime, 0, 0, steps, Fire(true));
  }

  lemma LateActivity(idleTime: int) returns (steps: seq<Step>)
    requires idleTime > SECOND
    ensures Legal(idleTime, 0, 0, steps)
    ensures Run(idleTime, 0, steps) == Timer(SECOND - 1, 0, SECOND - 1, Some(idleTime), None, None)
  {
    steps := Then(idleTime, 0, 0, [], Pass(SECOND - 1));
    steps := Then(idleTime, 0, 0, steps, Activity);
  }

  /** And it can come a nanosecond short of a whole second earlier, when the activity was at the very
      end of its second. */
  lemma EarliestRequest(idleTime: int) returns (steps: seq<Step>)
    requires idleTime > SECOND
    ensures Legal(idleTime, 0, 0, steps)
    ensures Run(idleTime, 0, steps).requested == Some(Request(idleTime, SECOND - 1))
  {
    steps := LateActivity(idleTime);
    steps := Then(idleTime, 0, 0, steps, Pass(idleTime));
    steps := Then(idleTime, 0, 0, steps, Fire(true));
  }

  lemma Then(idleTime: int, slack: nat, start: int, steps: seq<Step>, step: Step) returns (longer: seq<Step>)
    requires Legal(idleTime, slack, start, steps) && Enabled(slack, Run(idleTime, start, steps), step)
    ensures longer == steps + [step] && Legal(idleTime, slack, start, longer)
    ensures Run(idleTime, start, longer) == Apply(idleTime, Run(idleTime, start, steps), step)
  {
    longer := steps + [step];
    assert longer[..|steps|] == steps;
  }
}
