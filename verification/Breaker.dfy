/** One replica's circuit breaker (gateway/upstream/breaker.py).

    `Breaker` is the value of a breaker at one moment, with one function per
    operation; `ReplicaBreaker` is the mutable object, each of whose methods is
    proved to move the value exactly as its function says. The clock is always
    passed in. Times are reals. */
module Breakers {
  import opened Basics

  datatype State = Closed | Open | HalfOpen

  datatype FailureKind = Connect | ReadTimeout | ServerError | Throttled | ClientError | Wedge

  const TRIP_SCORE := 6
  const INITIAL_OPEN_SEC := 15.0
  const MAX_OPEN_SEC := 60.0
  const PROBE_INTERVAL_SEC := 5.0
  const PROBES_TO_CLOSE := 2
  const PROBATION_SEC := 60.0

  function Weight(kind: FailureKind): int {
    match kind
    case Connect => 3
    case ReadTimeout => 3
    case ServerError => 1
    case Throttled => 0
    case ClientError => 0
    case Wedge => 6
  }

  datatype Breaker = Breaker(
    tripScore: int,
    state: State,
    score: int,
    openedAt: Option<real>,
    openSec: real,
    goodProbes: int,
    lastProbeAt: Option<real>,
    probationUntil: real,
    wedgeConfirmations: int,
    trips: int)
  {
    function Threshold(now: real): int {
      if now < probationUntil then (if tripScore / 2 < 1 then 1 else tripScore / 2) else tripScore
    }

    predicate Allows() {
      state.Closed?
    }

    predicate DueForProbe(now: real) {
      match state
      case Closed => false
      case Open => openedAt.Some? && now - openedAt.value >= openSec
      case HalfOpen => lastProbeAt.None? || now - lastProbeAt.value >= PROBE_INTERVAL_SEC
    }

    function SecondsUntilProbe(now: real): real {
      if state.Closed? then 0.0
      else if state.Open? && openedAt.Some? then Max(0.0, openSec - (now - openedAt.value))
      else if lastProbeAt.Some? then Max(0.0, PROBE_INTERVAL_SEC - (now - lastProbeAt.value))
      else 0.0
    }

    function OnSuccess(): Breaker {
      this.(score := 0, wedgeConfirmations := 0)
    }

    function OnFailure(kind: FailureKind, now: real): Breaker {
      var scored := this.(score := score + Weight(kind));
      if Weight(kind) > 0 && state.Closed? && scored.score >= Threshold(now)
      then scored.Opened(now)
      else scored
    }

    function OnWedge(suspected: bool, now: real): Breaker {
      var counted := this.(wedgeConfirmations := if suspected then wedgeConfirmations + 1 else 0);
      if suspected && counted.wedgeConfirmations != 1 && state.Closed? then counted.OnFailure(Wedge, now) else counted
    }

    function Opened(now: real): Breaker {
      this.(state := Open, openedAt := Some(now), goodProbes := 0, lastProbeAt := None, trips := trips + 1)
    }

    function OnProbe(ok: bool, now: real, suspected: bool): Breaker {
      var stamped := this.(lastProbeAt := Some(now));
      if !ok || suspected then
        stamped.(goodProbes := 0, state := Open, openedAt := Some(now),
                 openSec := Min(openSec * 2.0, MAX_OPEN_SEC))
      else if goodProbes + 1 >= PROBES_TO_CLOSE then stamped.Reclosed(now)
      else stamped.(state := HalfOpen, goodProbes := goodProbes + 1)
    }

    function Reclosed(now: real): Breaker {
      this.(state := Closed, score := 0, goodProbes := 0, openedAt := None,
            openSec := INITIAL_OPEN_SEC, wedgeConfirmations := 0, probationUntil := now + PROBATION_SEC)
    }
  }

  function Fresh(): Breaker {
    Breaker(TRIP_SCORE, Closed, 0, None, INITIAL_OPEN_SEC, 0, None, 0.0, 0, 0)
  }

  /** What every gateway breaker satisfies between events. */
  predicate Sane(b: Breaker) {
    && b.tripScore == TRIP_SCORE
    && b.score >= 0
    && 0 <= b.wedgeConfirmations
    && INITIAL_OPEN_SEC <= b.openSec <= MAX_OPEN_SEC
    && (b.state.Closed? ==>
          b.goodProbes == 0 && b.openedAt.None? && b.openSec == INITIAL_OPEN_SEC && b.wedgeConfirmations <= 1)
    && (b.state.Open? ==> b.goodProbes == 0 && b.openedAt.Some?)
    && (b.state.HalfOpen? ==> b.goodProbes == 1 && b.openedAt.Some? && b.lastProbeAt.Some?)
  }

  /** No timer of the breaker was started after `clock`. */
  predicate TimersPast(b: Breaker, clock: real) {
    && (b.openedAt.Some? ==> b.openedAt.value <= clock)
    && (b.lastProbeAt.Some? ==> b.lastProbeAt.value <= clock)
  }

  /** The wait advertised for a breaker that is not closed is zero exactly when
      its probe is due, never exceeds the longest open window, and is honest:
      once it has elapsed the probe is due, and not an instant earlier. */
  lemma WaitIsHonest(b: Breaker, now: real, later: real)
    requires Sane(b) && TimersPast(b, now) && !b.state.Closed? && now <= later
    ensures b.SecondsUntilProbe(now) == 0.0 <==> b.DueForProbe(now)
    ensures 0.0 <= b.SecondsUntilProbe(now) <= MAX_OPEN_SEC
    ensures b.DueForProbe(later) <==> later >= now + b.SecondsUntilProbe(now)
  {
  }

  /** The mutable breaker. */
  class ReplicaBreaker {
    const url: string
    const tripScore: int
    var state: State
    var score: int
    var openedAt: Option<real>
    var openSec: real
    var goodProbes: int
    var lastProbeAt: Option<real>
    var probationUntil: real
    var wedgeConfirmations: int
    var trips: int

    function View(): Breaker
      reads this
    {
      Breaker(tripScore, state, score, openedAt, openSec, goodProbes,
              lastProbeAt, probationUntil, wedgeConfirmations, trips)
    }

    constructor (url: string)
      ensures this.url == url && View() == Fresh()
    {
      this.url := url;
      tripScore := TRIP_SCORE;
      state, score, openedAt, openSec := Closed, 0, None, INITIAL_OPEN_SEC;
      goodProbes, lastProbeAt, probationUntil := 0, None, 0.0;
      wedgeConfirmations, trips := 0, 0;
    }

    function Threshold(now: real): (t: int)
      reads this
      ensures t == View().Threshold(now)
    {
      if now < probationUntil then (if tripScore / 2 < 1 then 1 else tripScore / 2) else tripScore
    }

    predicate Allows()
      reads this
    {
      state.Closed?
    }

    method RecordSuccess(now: real)
      modifies this
      ensures View() == old(View()).OnSuccess()
    {
      score := 0;
      wedgeConfirmations := 0;
    }

    method RecordFailure(kind: FailureKind, now: real)
      modifies this
      ensures View() == old(View()).OnFailure(kind, now)
    {
      var weight := Weight(kind);
      if weight == 0 {
        return;
      }
      score := score + weight;
      if state.Closed? && score >= Threshold(now) {
        Trip(now);
      }
    }

    method RecordWedge(suspected: bool, now: real)
      modifies this
      ensures View() == old(View()).OnWedge(suspected, now)
    {
      if !suspected {
        wedgeConfirmations := 0;
        return;
      }
      wedgeConfirmations := wedgeConfirmations + 1;
      if wedgeConfirmations == 1 {
        return;
      }
      if state.Closed? {
        RecordFailure(Wedge, now);
      }
    }

    method Trip(now: real)
      modifies this
      ensures View() == old(View()).Opened(now)
    {
      state := Open;
      openedAt := Some(now);
      goodProbes := 0;
      lastProbeAt := None;
      trips := trips + 1;
    }

    method DueForProbe(now: real) returns (due: bool)
      ensures due == View().DueForProbe(now)
    {
      if state.Closed? {
        return false;
      }
      if state.Open? {
        return openedAt.Some? && now - openedAt.value >= openSec;
      }
      return lastProbeAt.None? || now - lastProbeAt.value >= PROBE_INTERVAL_SEC;
    }

    method RecordProbe(ok: bool, now: real, suspected: bool)
      modifies this
      ensures View() == old(View()).OnProbe(ok, now, suspected)
    {
      lastProbeAt := Some(now);
      if !ok || suspected {
        goodProbes := 0;
        state := Open;
        openedAt := Some(now);
        openSec := Min(openSec * 2.0, MAX_OPEN_SEC);
        return;
      }
      state := HalfOpen;
      goodProbes := goodProbes + 1;
      if goodProbes >= PROBES_TO_CLOSE {
        Reclose(now);
      }
    }

    method Reclose(now: real)
      modifies this
      ensures View() == old(View()).Reclosed(now)
    {
      state := Closed;
      score := 0;
      goodProbes := 0;
      openedAt := None;
      openSec := INITIAL_OPEN_SEC;
      wedgeConfirmations := 0;
      probationUntil := now + PROBATION_SEC;
    }

    /** The breaker as other tasks leave it. */
    method Become(b: Breaker)
      requires b.tripScore == tripScore
      modifies this
      ensures View() == b
    {
      state, score, openedAt, openSec := b.state, b.score, b.openedAt, b.openSec;
      goodProbes, lastProbeAt, probationUntil := b.goodProbes, b.lastProbeAt, b.probationUntil;
      wedgeConfirmations, trips := b.wedgeConfirmations, b.trips;
    }

    method SecondsUntilProbe(now: real) returns (wait: real)
      ensures wait == View().SecondsUntilProbe(now)
    {
      if state.Closed? {
        return 0.0;
      }
      if state.Open? && openedAt.Some? {
        return Max(0.0, openSec - (now - openedAt.value));
      }
      if lastProbeAt.Some? {
        return Max(0.0, PROBE_INTERVAL_SEC - (now - lastProbeAt.value));
      }
      return 0.0;
    }
  }
}
