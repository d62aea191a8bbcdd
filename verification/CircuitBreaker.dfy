/** The per-provider circuit breaker over a trace of attempts, successes and failures with a clock. */
module CircuitBreaker {
  import opened Text

  datatype State = CLOSED | OPEN | HALF_OPEN

  datatype Circuit = Circuit(state: State, failures: nat, lastFailureAt: Option<int>, openedAt: Option<int>)

  const NEW_CIRCUIT: Circuit := Circuit(CLOSED, 0, None, None)

  datatype Event = Attempt(at: int) | Success(at: int) | Failure(at: int)

  /** What is fixed over a trace. */
  datatype Settings = Settings(threshold: int, cooldown: int)

  function Elapsed(c: Circuit, now: int, cooldown: int): bool {
    c.openedAt.Some? && now - c.openedAt.value >= cooldown
  }

  function Allows(c: Circuit, now: int, cooldown: int): bool {
    c.state != OPEN || Elapsed(c, now, cooldown)
  }

  function OnAttempt(c: Circuit, now: int, cooldown: int): Circuit {
    if c.state == OPEN && Elapsed(c, now, cooldown) then c.(state := HALF_OPEN) else c
  }

  function OnFailure(c: Circuit, now: int, threshold: int): Circuit {
    var n := c.(failures := c.failures + 1, lastFailureAt := Some(now));
    if c.state == HALF_OPEN || (c.state == CLOSED && n.failures >= threshold)
    then n.(state := OPEN, openedAt := Some(now))
    else n
  }

  function Next(c: Circuit, e: Event, s: Settings): Circuit {
    match e
    case Attempt(at) => OnAttempt(c, at, s.cooldown)
    case Success(_) => NEW_CIRCUIT
    case Failure(at) => OnFailure(c, at, s.threshold)
  }

  function After(trace: seq<Event>, s: Settings): Circuit {
    if trace == [] then NEW_CIRCUIT else Next(After(trace[..|trace| - 1], s), trace[|trace| - 1], s)
  }

  /** The circuit as it runs: fields updated by its methods, should_attempt included. */
  class ProviderCircuit {
    var state: State
    var consecutiveFailures: nat
    var lastFailureAt: Option<int>
    var openedAt: Option<int>
    const cooldownSeconds: int

    constructor (cooldown: int)
      ensures View() == NEW_CIRCUIT && cooldownSeconds == cooldown
    {
      state, consecutiveFailures, lastFailureAt, openedAt := CLOSED, 0, None, None;
      cooldownSeconds := cooldown;
    }

    ghost function View(): Circuit
      reads this
    {
      Circuit(state, consecutiveFailures, lastFailureAt, openedAt)
    }

    method ShouldAttempt(now: int) returns (allowed: bool)
      modifies this
      ensures allowed == Allows(old(View()), now, cooldownSeconds)
      ensures View() == OnAttempt(old(View()), now, cooldownSeconds)
    {
      if state == CLOSED {
        return true;
      }
      if state == OPEN {
        allowed := TryHalfOpen(now);
        return;
      }
      allowed := true;
    }

    method TryHalfOpen(now: int) returns (moved: bool)
      modifies this
      ensures moved == (old(state) == OPEN && Elapsed(old(View()), now, cooldownSeconds))
      ensures View() == OnAttempt(old(View()), now, cooldownSeconds)
    {
      if state != OPEN || openedAt == None {
        return false;
      }
      if now - openedAt.value >= cooldownSeconds {
        state := HALF_OPEN;
        return true;
      }
      moved := false;
    }

    method RecordSuccess()
      modifies this
      ensures View() == NEW_CIRCUIT
    {
      state, consecutiveFailures, lastFailureAt, openedAt := CLOSED, 0, None, None;
    }

    method RecordFailure(now: int, threshold: int)
      modifies this
      ensures View() == OnFailure(old(View()), now, threshold)
    {
      lastFailureAt := Some(now);
      if state == HALF_OPEN {
        state := OPEN;
        openedAt := Some(now);
        consecutiveFailures := consecutiveFailures + 1;
        return;
      }
      consecutiveFailures := consecutiveFailures + 1;
      if state == CLOSED && consecutiveFailures >= threshold {
        state := OPEN;
        openedAt := Some(now);
      }
    }
  }

  // ---------------------------------------------------------------- over every trace

  ghost predicate Monotone(trace: seq<Event>) {
    forall i, j :: 0 <= i < j < |trace| ==> trace[i].at <= trace[j].at
  }

  /** Counted on the history alone. */
  function FailuresSinceSuccess(trace: seq<Event>): nat {
    if trace == [] then 0
    else
      match trace[|trace| - 1]
      case Success(_) => 0
      case Failure(_) => FailuresSinceSuccess(trace[..|trace| - 1]) + 1
      case Attempt(_) => FailuresSinceSuccess(trace[..|trace| - 1])
  }

  lemma {:induction false} CounterIsHistory(trace: seq<Event>, s: Settings)
    ensures After(trace, s).failures == FailuresSinceSuccess(trace)
  {
    if trace != [] {
      CounterIsHistory(trace[..|trace| - 1], s);
    }
  }

  /** The time of the last failure since the last success. */
  function LastFailure(trace: seq<Event>): Option<int> {
    if trace == [] then None
    else
      match trace[|trace| - 1]
      case Success(_) => None
      case Failure(at) => Some(at)
      case Attempt(_) => LastFailure(trace[..|trace| - 1])
  }

  lemma {:induction false} LastFailureIsHistory(trace: seq<Event>, s: Settings)
    ensures After(trace, s).lastFailureAt == LastFailure(trace)
  {
    if trace != [] {
      LastFailureIsHistory(trace[..|trace| - 1], s);
    }
  }

  lemma {:induction false} ClosedBelow(trace: seq<Event>, s: Settings)
    requires s.threshold >= 1
    ensures var c := After(trace, s); c.state == CLOSED <==> c.failures < s.threshold
  {
    if trace != [] {
      ClosedBelow(trace[..|trace| - 1], s);
    }
  }

  /** For a threshold: after every trace the circuit is closed exactly when the failures since the last
      success are below it, if and only if the threshold is at least one. */
  lemma ClosedIffBelowThreshold(s: Settings)
    ensures (forall trace :: After(trace, s).state == CLOSED <==> FailuresSinceSuccess(trace) < s.threshold)
            <==> s.threshold >= 1
  {
    if s.threshold >= 1 {
      forall trace ensures After(trace, s).state == CLOSED <==> FailuresSinceSuccess(trace) < s.threshold {
        CounterIsHistory(trace, s);
        ClosedBelow(trace, s);
      }
    } else {
      assert After([], s).state == CLOSED && FailuresSinceSuccess([]) == 0;
    }
  }

  /** The circuit is open or probing since its last trip, and probes only once the cooldown is over. */
  ghost predicate Timed(c: Circuit, now: int, cooldown: int) {
    && (c.state == CLOSED <==> c.openedAt == None)
    && (c.openedAt.Some? ==> c.openedAt.value <= now)
    && (c.state == HALF_OPEN ==> Elapsed(c, now, cooldown))
  }

  lemma {:induction false} StaysTimed(trace: seq<Event>, s: Settings, now: int)
    requires Monotone(trace) && forall e :: e in trace ==> e.at <= now
    ensures Timed(After(trace, s), now, s.cooldown)
  {
    if trace != [] {
      var init, e := trace[..|trace| - 1], trace[|trace| - 1];
      assert e in trace;
      forall x | x in init ensures x.at <= e.at {
        var i :| 0 <= i < |init| && init[i] == x;
        assert trace[i] == x;
      }
      StaysTimed(init, s, e.at);
    }
  }

  /** Whether an attempt is allowed, for every trace: exactly when the failures since the last success are
      below the threshold or the cooldown since the last trip is over. */
  lemma AttemptAllowedIff(trace: seq<Event>, s: Settings, now: int)
    requires s.threshold >= 1 && Monotone(trace) && forall e :: e in trace ==> e.at <= now
    ensures var c := After(trace, s);
            Allows(c, now, s.cooldown) <==>
              FailuresSinceSuccess(trace) < s.threshold
              || (c.openedAt.Some? && now - c.openedAt.value >= s.cooldown)
  {
    CounterIsHistory(trace, s);
    ClosedBelow(trace, s);
    StaysTimed(trace, s, now);
  }

  /** The last event opened the circuit. */
  ghost predicate Trips(trace: seq<Event>, s: Settings) {
    && trace != [] && trace[|trace| - 1].Failure?
    && After(trace[..|trace| - 1], s).state != OPEN && After(trace, s).state == OPEN
  }

  /** From a trip on, without a success, the circuit stays open since that trip until the cooldown is over. */
  lemma {:induction false} OpenDuringCooldown(trip: seq<Event>, more: seq<Event>, s: Settings)
    requires Trips(trip, s)
    requires forall e :: e in more ==> !e.Success? && e.at < trip[|trip| - 1].at + s.cooldown
    ensures var c := After(trip + more, s); c.state == OPEN && c.openedAt == Some(trip[|trip| - 1].at)
    decreases |more|
  {
    if more == [] {
      assert trip + more == trip;
    } else {
      var init, e := more[..|more| - 1], more[|more| - 1];
      assert (trip + more)[..|trip + more| - 1] == trip + init && (trip + more)[|trip + more| - 1] == e;
      assert e in more;
      OpenDuringCooldown(trip, init, s);
    }
  }

  /** No attempt is allowed from a trip until the cooldown is over unless a success is recorded in between. */
  lemma NoAttemptDuringCooldown(trip: seq<Event>, more: seq<Event>, s: Settings, now: int)
    requires Trips(trip, s)
    requires (forall e :: e in more ==> !e.Success? && e.at <= now) && now < trip[|trip| - 1].at + s.cooldown
    ensures !Allows(After(trip + more, s), now, s.cooldown)
  {
    OpenDuringCooldown(trip, more, s);
  }

  function Feed(c: Circuit, events: seq<Event>, s: Settings): Circuit {
    if events == [] then c else Next(Feed(c, events[..|events| - 1], s), events[|events| - 1], s)
  }

  /** Some attempt after event i came when the cooldown from it was over. */
  predicate ProbedSince(events: seq<Event>, i: nat, cooldown: int)
    requires i < |events|
  {
    exists j | i < j < |events| :: events[j].Attempt? && events[j].at - events[i].at >= cooldown
  }

  /** Counted on the history after a probe alone: the last failure that was the first one, or the first one after
      another probe. */
  function LastTrip(events: seq<Event>, cooldown: int): (trip: Option<nat>)
    ensures trip.Some? ==> trip.value < |events| && events[trip.value].Failure?
    ensures trip == None <==> forall e :: e in events ==> !e.Failure?
  {
    if events == [] then None
    else
      var n := |events| - 1;
      assert events == events[..n] + [events[n]];
      var trip := LastTrip(events[..n], cooldown);
      if events[n].Failure? && (trip == None || ProbedSince(events[..n], trip.value, cooldown)) then Some(n) else trip
  }

  lemma ProbedSinceSnoc(events: seq<Event>, i: nat, cooldown: int)
    requires i < |events| - 1
    ensures var n := |events| - 1;
            ProbedSince(events, i, cooldown)
            <==> ProbedSince(events[..n], i, cooldown)
                 || (events[n].Attempt? && events[n].at - events[i].at >= cooldown)
  {
    var init := events[..|events| - 1];
    if j :| i < j < |events| && events[j].Attempt? && events[j].at - events[i].at >= cooldown {
      assert j < |init| ==> init[j] == events[j];
    }
    if j :| i < j < |init| && init[j].Attempt? && init[j].at - init[i].at >= cooldown {
      assert events[j] == init[j];
    }
  }

  /** After the probe, whatever is attempted and fails: another attempt is refused exactly when a failure has
      tripped the circuit again and the cooldown from the last such one was over neither at an attempt since
      nor now. */
  lemma {:induction false} SecondProbeIff(c: Circuit, s: Settings, events: seq<Event>, now: int)
    requires c.state == HALF_OPEN && forall e :: e in events ==> !e.Success?
    ensures var d, trip := Feed(c, events, s), LastTrip(events, s.cooldown);
            && (trip == None ==> d == c && Allows(d, now, s.cooldown))
            && (trip.Some? ==>
                  && d.openedAt == Some(events[trip.value].at)
                  && d.state == (if ProbedSince(events, trip.value, s.cooldown) then HALF_OPEN else OPEN)
                  && (Allows(d, now, s.cooldown)
                      <==> ProbedSince(events, trip.value, s.cooldown) || now - events[trip.value].at >= s.cooldown))
    decreases |events|
  {
    if events != [] {
      var n := |events| - 1;
      var init, last := events[..n], events[n];
      assert last in events && events == init + [last];
      SecondProbeIff(c, s, init, now);
      var trip := LastTrip(init, s.cooldown);
      if trip.Some? {
        ProbedSinceSnoc(events, trip.value, s.cooldown);
      }
      hide ProbedSince;
      NothingSinceLast(events, s.cooldown);
    }
  }

  lemma NothingSinceLast(events: seq<Event>, cooldown: int)
    requires events != []
    ensures !ProbedSince(events, |events| - 1, cooldown)
  {
  }

  /** A success forgets everything before it: the circuit is as after the events since, from the start. */
  lemma {:induction false} SuccessForgets(c: Circuit, s: Settings, before: seq<Event>, at: int, events: seq<Event>)
    ensures Feed(c, before + [Success(at)] + events, s) == After(events, s)
    decreases |events|
  {
    var all := before + [Success(at)] + events;
    if events == [] {
      assert all == before + [Success(at)] && all[..|all| - 1] == before;
    } else {
      var init := events[..|events| - 1];
      assert all[..|all| - 1] == before + [Success(at)] + init && all[|all| - 1] == events[|events| - 1];
      SuccessForgets(c, s, before, at, init);
    }
  }

  function Attempts(n: nat, at: int): seq<Event> {
    if n == 0 then [] else Attempts(n - 1, at) + [Attempt(at)]
  }

  /** Half-open does not mean one probe: any number of attempts in a row is allowed. */
  lemma {:induction false} ProbesAreNotLimited(c: Circuit, s: Settings, n: nat, at: int)
    requires c.state == OPEN && Elapsed(c, at, s.cooldown)
    ensures Allows(Feed(c, Attempts(n, at), s), at, s.cooldown)
    ensures Feed(c, Attempts(n, at), s) == if n == 0 then c else c.(state := HALF_OPEN)
  {
    if n > 0 {
      ProbesAreNotLimited(c, s, n - 1, at);
      assert Attempts(n, at)[..|Attempts(n, at)| - 1] == Attempts(n - 1, at);
    }
  }
}
