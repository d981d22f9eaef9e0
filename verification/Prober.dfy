/** One replica's health as the gateway runs it: scrapes, request outcomes,
    prober visits and probe results interleave freely on one clock
    (gateway/main.py, _breaker_prober and _scrape_loop).

    The prober reads the clock once per pass and then visits the breakers one
    after another, awaiting probes on the way, so a visit's `loopNow` may be
    arbitrarily older than the moment `at` of the visit. A scrape is stamped when
    its poll starts and takes effect when it completes. */
module Prober {
  import opened Basics
  import opened Breakers
  import opened Scrape
  import opened Wedges
  import BreakerHistory

  datatype Health = Health(
    breaker: Breaker,
    detector: Option<Detector>,  // created by the first poll
    probing: Option<real>,       // a probe is in flight, found due at this loop time
    lastPoll: real,              // when the latest poll completed
    lastVisit: real,             // when the prober was last here
    clock: real)

  datatype Event =
    | Polled(poll: Poll, at: real)
    | Outcome(failure: Option<FailureKind>, at: real)
    | Visit(loopNow: real, at: real)
    | ProbeDone(ok: bool, recorded: real, at: real)

  function Start(): Health {
    Health(Fresh(), None, None, 0.0, 0.0, 0.0)
  }

  predicate Suspects(d: Option<Detector>, now: real) {
    d.Some? && d.value.Suspected(now)
  }

  /** Clock readings never go back; polls of one replica follow one another; the
      prober is one task, so it visits nothing while its probe is in flight, and
      a pass reads its clock after the pass before it has left. */
  predicate Enabled(s: Health, e: Event) {
    && s.clock <= e.at
    && match e
       case Polled(poll, at) => poll.Scraped? ==> s.lastPoll <= poll.stamp <= at
       case Outcome(failure, at) => failure != Some(Wedge)
       case Visit(loopNow, at) => s.probing.None? && s.lastVisit <= loopNow <= at
       case ProbeDone(ok, recorded, at) => s.probing.Some? && s.clock <= recorded <= at
  }

  /** Nothing blocks here either: scrapes and requests may end at any time and in
      any way, and the prober may come round, or its probe end, at any time. */
  lemma NothingBlocks(s: Health, poll: Poll, failure: Option<FailureKind>, ok: bool, loopNow: real, at: real)
    requires s.clock <= at && failure != Some(Wedge)
    ensures poll.Failed? || s.lastPoll <= poll.stamp <= at ==> Enabled(s, Polled(poll, at))
    ensures Enabled(s, Outcome(failure, at))
    ensures s.probing.None? && s.lastVisit <= loopNow <= at ==> Enabled(s, Visit(loopNow, at))
    ensures s.probing.Some? ==> Enabled(s, ProbeDone(ok, at, at))
  {
  }

  function Step(windowSec: real, s: Health, e: Event): Health {
    var t := s.(clock := e.at);
    match e
    case Polled(poll, at) =>
      var d := if s.detector.Some? then s.detector.value else NewDetector(windowSec);
      t.(detector := Some(if poll.Failed? then d else d.Observe(poll.snapshot, poll.stamp)), lastPoll := at)
    case Outcome(failure, at) =>
      t.(breaker := if failure.None? then s.breaker.OnSuccess() else s.breaker.OnFailure(failure.value, at))
    case Visit(loopNow, at) =>
      var v := t.(lastVisit := at);
      if s.breaker.Allows() then v.(breaker := s.breaker.OnWedge(Suspects(s.detector, at), loopNow))
      else if s.breaker.DueForProbe(loopNow) then v.(probing := Some(loopNow))
      else v
    case ProbeDone(ok, recorded, at) =>
      t.(breaker := s.breaker.OnProbe(ok, recorded, Suspects(s.detector, at)), probing := None, lastVisit := at)
  }

  function At(windowSec: real, h: seq<Event>, n: nat): Health
    requires n <= |h|
  {
    if n == 0 then Start() else Step(windowSec, At(windowSec, h, n - 1), h[n - 1])
  }

  predicate Valid(windowSec: real, h: seq<Event>, n: nat)
    requires n <= |h|
  {
    n == 0 || (Valid(windowSec, h, n - 1) && Enabled(At(windowSec, h, n - 1), h[n - 1]))
  }

  // ---- What every step keeps ---------------------------------------------

  predicate Inv(s: Health) {
    && Sane(s.breaker)
    && TimersPast(s.breaker, s.clock)
    && 0.0 <= s.lastVisit <= s.clock && s.lastPoll <= s.clock
    && (s.probing.Some? ==>
          !s.breaker.state.Closed? && s.probing.value <= s.clock && s.breaker.DueForProbe(s.probing.value))
  }

  lemma StepKeepsInv(windowSec: real, s: Health, e: Event)
    requires Inv(s) && Enabled(s, e)
    ensures Inv(Step(windowSec, s, e))
  {
  }

  lemma {:induction false} Reachable(windowSec: real, h: seq<Event>, n: nat)
    requires n <= |h| && Valid(windowSec, h, n)
    ensures Inv(At(windowSec, h, n))
  {
    if n > 0 {
      Reachable(windowSec, h, n - 1);
      StepKeepsInv(windowSec, At(windowSec, h, n - 1), h[n - 1]);
    }
  }

  /** At every moment of every run an open replica's advertised wait is honest. */
  lemma AdvertisedWait(windowSec: real, h: seq<Event>, n: nat, now: real, later: real)
    requires n <= |h| && Valid(windowSec, h, n)
    requires At(windowSec, h, n).clock <= now <= later
    requires !At(windowSec, h, n).breaker.Allows()
    ensures var b := At(windowSec, h, n).breaker;
            && (b.SecondsUntilProbe(now) == 0.0 <==> b.DueForProbe(now))
            && 0.0 <= b.SecondsUntilProbe(now) <= MAX_OPEN_SEC
            && (b.DueForProbe(later) <==> later >= now + b.SecondsUntilProbe(now))
  {
    Reachable(windowSec, h, n);
    WaitIsHonest(At(windowSec, h, n).breaker, now, later);
  }

  /** The calls the breaker receives in a run. */
  function Calls(windowSec: real, h: seq<Event>, n: nat): seq<BreakerHistory.Event>
    requires n <= |h|
  {
    if n == 0 then []
    else
      var s := At(windowSec, h, n - 1);
      var before := Calls(windowSec, h, n - 1);
      match h[n - 1]
      case Polled(poll, at) => before
      case Outcome(failure, at) =>
        before + [if failure.None? then BreakerHistory.Success(at) else BreakerHistory.Failure(failure.value, at)]
      case Visit(loopNow, at) =>
        if s.breaker.Allows() then before + [BreakerHistory.WedgeCheck(Suspects(s.detector, at), loopNow)] else before
      case ProbeDone(ok, recorded, at) =>
        before + [BreakerHistory.Probe(ok, Suspects(s.detector, at), recorded)]
  }

  /** The prober's gates hold in every run: what it does to the breaker is a
      gated history in the sense of BreakerHistory, whose results all apply. */
  lemma {:induction false} RunsAreGated(windowSec: real, h: seq<Event>, n: nat)
    requires n <= |h| && Valid(windowSec, h, n)
    ensures var calls := Calls(windowSec, h, n);
            BreakerHistory.Gated(calls, |calls|) && BreakerHistory.At(calls, |calls|) == At(windowSec, h, n).breaker
  {
    if n > 0 {
      RunsAreGated(windowSec, h, n - 1);
      Reachable(windowSec, h, n - 1);
      var before, calls := Calls(windowSec, h, n - 1), Calls(windowSec, h, n);
      if |calls| > |before| {
        BreakerHistory.OneMore(before, calls[|before|], calls);
      }
    }
  }

  /** ... with the stamps that the clock guarantees. */
  lemma {:induction false} RunsAreTimed(windowSec: real, h: seq<Event>, n: nat)
    requires n <= |h| && Valid(windowSec, h, n)
    ensures BreakerHistory.Timed(Calls(windowSec, h, n), At(windowSec, h, n).clock)
  {
    if n > 0 {
      RunsAreTimed(windowSec, h, n - 1);
      Reachable(windowSec, h, n - 1);
      var before, calls := Calls(windowSec, h, n - 1), Calls(windowSec, h, n);
      if |calls| > |before| {
        BreakerHistory.OneMoreTimed(before, At(windowSec, h, n - 1).clock, calls[|before|], h[n - 1].at, calls);
      }
    }
  }

  /** So at every moment of every run a closed breaker is below the threshold in
      force, now and later. */
  lemma {:induction false} RunsStayBelowThreshold(windowSec: real, h: seq<Event>, n: nat, now: real)
    requires n <= |h| && Valid(windowSec, h, n) && At(windowSec, h, n).clock <= now
    requires At(windowSec, h, n).breaker.Allows()
    ensures At(windowSec, h, n).breaker.score < At(windowSec, h, n).breaker.Threshold(now)
  {
    var calls := Calls(windowSec, h, n);
    RunsAreGated(windowSec, h, n);
    RunsAreTimed(windowSec, h, n);
    BreakerHistory.ClosedIsBelowThreshold(calls, |calls|, now);
  }

  // ---- How long an outage lasts ------------------------------------------

  /** The open window after k failed probes. */
  function Window(k: nat): real {
    Min(INITIAL_OPEN_SEC * Pow2(k) as real, MAX_OPEN_SEC)
  }

  function Windows(k: nat): real {
    if k == 0 then 0.0 else Windows(k - 1) + Window(k - 1)
  }

  /** The shortest outage with k failed probes: the windows 0..k, then the gap
      between the two good probes. */
  function OutageFloor(k: nat): real {
    Windows(k + 1) + PROBE_INTERVAL_SEC
  }

  /** 20, 50, 110, 170, ... seconds. */
  lemma {:induction false} OutageFloorClosedForm(k: nat)
    ensures OutageFloor(k) == if k == 0 then 20.0 else 60.0 * k as real - 10.0
    ensures k >= 2 ==> Pow2(k) >= 4
  {
    if k >= 2 {
      OutageFloorClosedForm(k - 1);
    } else {
      assert Pow2(1) == 2 * Pow2(0);
      assert Windows(1) == Windows(0) + Window(0);
    }
  }

  lemma WindowDoubles(k: nat)
    ensures Window(0) == INITIAL_OPEN_SEC
    ensures Window(k + 1) == Min(Window(k) * 2.0, MAX_OPEN_SEC)
    ensures Windows(k + 1) == Windows(k) + Window(k)
  {
    assert Pow2(k + 1) == 2 * Pow2(k);
  }

  predicate FailsProbe(s: Health, e: Event) {
    e.ProbeDone? && (!e.ok || Suspects(s.detector, e.at))
  }

  /** The failed probes among events lo..hi. */
  function FailedProbes(windowSec: real, h: seq<Event>, lo: nat, hi: nat): nat
    requires lo <= hi <= |h|
  {
    if lo == hi then 0
    else
      FailedProbes(windowSec, h, lo, hi - 1)
      + (if FailsProbe(At(windowSec, h, hi - 1), h[hi - 1]) then 1 else 0)
  }

  /** Event i opened the breaker, and it has not closed since. */
  ghost predicate OpenSince(windowSec: real, h: seq<Event>, i: nat, n: nat)
    requires i < n <= |h|
  {
    && At(windowSec, h, i).breaker.Allows()
    && forall m :: i < m <= n ==> !At(windowSec, h, m).breaker.Allows()
  }

  /** A breaker opened at t0, k failed probes later. */
  predicate OutageState(b: Breaker, t0: real, k: nat) {
    && b.openSec == Window(k)
    && (b.state.Open? ==> b.openedAt.Some? && b.openedAt.value >= t0 + Windows(k))
    && (b.state.HalfOpen? ==> b.lastProbeAt.Some? && b.lastProbeAt.value >= t0 + Windows(k + 1))
  }

  lemma OutageStep(windowSec: real, s: Health, e: Event, t0: real, k: nat)
    requires Inv(s) && Enabled(s, e) && !s.breaker.Allows() && OutageState(s.breaker, t0, k)
    ensures var next := Step(windowSec, s, e).breaker;
            if next.Allows() then e.ProbeDone? && e.recorded - t0 >= OutageFloor(k)
            else OutageState(next, t0, if FailsProbe(s, e) then k + 1 else k)
  {
    WindowDoubles(k);
    WindowDoubles(k + 1);
  }

  /** Throughout an outage the window is a function of the failed probes so far,
      half-open flaps included, and the timers respect all earlier windows. */
  lemma {:induction false} OutageTimers(windowSec: real, h: seq<Event>, i: nat, n: nat)
    requires i < n <= |h| && Valid(windowSec, h, n) && OpenSince(windowSec, h, i, n)
    ensures At(windowSec, h, i + 1).breaker.openedAt.Some?
    ensures OutageState(At(windowSec, h, n).breaker, At(windowSec, h, i + 1).breaker.openedAt.value,
                        FailedProbes(windowSec, h, i + 1, n))
  {
    Reachable(windowSec, h, n - 1);
    if n > i + 1 {
      assert OpenSince(windowSec, h, i, n - 1);
      OutageTimers(windowSec, h, i, n - 1);
      OutageStep(windowSec, At(windowSec, h, n - 1), h[n - 1],
                 At(windowSec, h, i + 1).breaker.openedAt.value, FailedProbes(windowSec, h, i + 1, n - 1));
    } else {
      WindowDoubles(0);
    }
  }

  /** No replica returns to service sooner than its failed probes allow. */
  lemma MinimumOutage(windowSec: real, h: seq<Event>, i: nat, j: nat)
    requires i < j < |h| && Valid(windowSec, h, j + 1)
    requires OpenSince(windowSec, h, i, j) && At(windowSec, h, j + 1).breaker.Allows()
    ensures h[j].ProbeDone? && At(windowSec, h, i + 1).breaker.openedAt.Some?
    ensures h[j].recorded - At(windowSec, h, i + 1).breaker.openedAt.value
         >= OutageFloor(FailedProbes(windowSec, h, i + 1, j))
  {
    Reachable(windowSec, h, j);
    OutageTimers(windowSec, h, i, j);
    OutageStep(windowSec, At(windowSec, h, j), h[j],
               At(windowSec, h, i + 1).breaker.openedAt.value, FailedProbes(windowSec, h, i + 1, j));
  }

  lemma {:induction false} Prefix(windowSec: real, x: seq<Event>, y: seq<Event>, lo: nat, n: nat)
    requires lo <= n <= |x|
    ensures At(windowSec, x + y, n) == At(windowSec, x, n)
    ensures Valid(windowSec, x + y, n) == Valid(windowSec, x, n)
    ensures FailedProbes(windowSec, x + y, lo, n) == FailedProbes(windowSec, x, lo, n)
    decreases n
  {
    if n > 0 {
      Prefix(windowSec, x, y, if lo < n then lo else n - 1, n - 1);
    }
  }

  lemma {:induction false} ClockRuns(windowSec: real, h: seq<Event>, m: nat, n: nat)
    requires m <= n <= |h| && Valid(windowSec, h, n)
    ensures At(windowSec, h, m).clock <= At(windowSec, h, n).clock
    decreases n
  {
    if m < n {
      ClockRuns(windowSec, h, m, n - 1);
    }
  }

  lemma {:induction false} ValidPrefix(windowSec: real, h: seq<Event>, p: nat, n: nat)
    requires p <= n <= |h| && Valid(windowSec, h, n)
    ensures Valid(windowSec, h, p)
    decreases n
  {
    if p < n {
      ValidPrefix(windowSec, h, p, n - 1);
    }
  }

  /** A replica that is back in service after a trip, however often it has been
      down since, is so at least the shortest outage after that trip's stamp. */
  lemma {:induction false} BackInService(windowSec: real, h: seq<Event>, i: nat, n: nat)
    requires i + 1 < n <= |h| && Valid(windowSec, h, n)
    requires At(windowSec, h, i).breaker.Allows() && !At(windowSec, h, i + 1).breaker.Allows()
    requires At(windowSec, h, n).breaker.Allows()
    ensures At(windowSec, h, i + 1).breaker.openedAt.Some?
    ensures At(windowSec, h, n).clock - At(windowSec, h, i + 1).breaker.openedAt.value >= OutageFloor(0)
    decreases n
  {
    if m: nat :| i + 1 < m < n && At(windowSec, h, m).breaker.Allows() {
      ValidPrefix(windowSec, h, m, n);
      BackInService(windowSec, h, i, m);
      ClockRuns(windowSec, h, m, n);
    } else {
      var k := FailedProbes(windowSec, h, i + 1, n - 1);
      MinimumOutage(windowSec, h, i, n - 1);
      OutageFloorClosedForm(k);
      OutageFloorClosedForm(0);
    }
  }

  /** One more event. */
  lemma {:induction false} OneMore(windowSec: real, h: seq<Event>, e: Event, more: seq<Event>)
    requires more == h + [e]
    ensures At(windowSec, more, |more|) == Step(windowSec, At(windowSec, h, |h|), e)
    ensures Valid(windowSec, more, |more|) <==> Valid(windowSec, h, |h|) && Enabled(At(windowSec, h, |h|), e)
  {
    Prefix(windowSec, h, [e], |h|, |h|);
  }

  /** A run whose event 1 opened the breaker at time 0, still open after k failed
      probes. */
  ghost predicate Down(windowSec: real, h: seq<Event>, k: nat) {
    && |h| >= 2
    && Valid(windowSec, h, |h|)
    && OpenSince(windowSec, h, 1, |h|)
    && At(windowSec, h, 2).breaker.openedAt == Some(0.0)
    && FailedProbes(windowSec, h, 2, |h|) == k
  }

  lemma StaysDown(windowSec: real, x: seq<Event>, k: nat, e: Event)
    requires Down(windowSec, x, k) && Enabled(At(windowSec, x, |x|), e)
    requires !Step(windowSec, At(windowSec, x, |x|), e).breaker.Allows()
    ensures Down(windowSec, x + [e], if FailsProbe(At(windowSec, x, |x|), e) then k + 1 else k)
    ensures At(windowSec, x + [e], |x + [e]|) == Step(windowSec, At(windowSec, x, |x|), e)
  {
    forall n: nat | n <= |x| ensures At(windowSec, x + [e], n) == At(windowSec, x, n) {
      Prefix(windowSec, x, [e], n, n);
    }
    Prefix(windowSec, x, [e], 2, |x|);
  }

  /** Two connect failures at time 0, then k probes, each failing the moment it
      is due. */
  function FailingFast(k: nat): seq<Event> {
    if k == 0 then [Outcome(Some(Connect), 0.0), Outcome(Some(Connect), 0.0)]
    else FailingFast(k - 1) + [Visit(Windows(k), Windows(k))] + [ProbeDone(false, Windows(k), Windows(k))]
  }

  /** ... and then a good probe as soon as it is due, and a visit when the second
      one is. */
  function FlappingFast(k: nat): seq<Event> {
    var t := Windows(k + 1);
    FailingFast(k) + [Visit(t, t)] + [ProbeDone(true, t, t)]
    + [Visit(t + PROBE_INTERVAL_SEC, t + PROBE_INTERVAL_SEC)]
  }

  predicate OpenedAndFailed(s: Health, k: nat) {
    && s.breaker.state.Open? && s.breaker.openedAt == Some(Windows(k)) && s.breaker.openSec == Window(k)
    && s.breaker.goodProbes == 0 && s.detector.None? && s.probing.None?
    && 0.0 <= s.lastVisit <= s.clock == Windows(k)
  }

  predicate OneGood(s: Health, t: real, due: bool) {
    && s.breaker.state.HalfOpen? && s.breaker.goodProbes == 1 && s.breaker.lastProbeAt == Some(t)
    && s.detector.None? && s.probing.Some? == due
    && s.clock == (if due then t + PROBE_INTERVAL_SEC else t) && 0.0 <= s.lastVisit <= s.clock
  }

  lemma FailOnce(windowSec: real, s: Health, k: nat, t: real)
    requires OpenedAndFailed(s, k) && t == Windows(k + 1)
    ensures var s1 := Step(windowSec, s, Visit(t, t));
            && Enabled(s, Visit(t, t)) && s1 == s.(probing := Some(t), lastVisit := t, clock := t)
            && Enabled(s1, ProbeDone(false, t, t))
            && OpenedAndFailed(Step(windowSec, s1, ProbeDone(false, t, t)), k + 1)
  {
    WindowDoubles(k);
  }

  lemma FlapOnce(windowSec: real, s: Health, k: nat, t: real)
    requires OpenedAndFailed(s, k) && t == Windows(k + 1)
    ensures var s1 := Step(windowSec, s, Visit(t, t));
            && Enabled(s, Visit(t, t)) && s1 == s.(probing := Some(t), lastVisit := t, clock := t)
            && Enabled(s1, ProbeDone(true, t, t))
            && OneGood(Step(windowSec, s1, ProbeDone(true, t, t)), t, false)
  {
    WindowDoubles(k);
  }

  lemma {:induction false} TwoConnectFailures(windowSec: real)
    ensures var h := FailingFast(0);
            Down(windowSec, h, 0) && OpenedAndFailed(At(windowSec, h, |h|), 0)
  {
    var h := FailingFast(0);
    assert At(windowSec, h, 0) == Start() && Valid(windowSec, h, 0);
    assert At(windowSec, h, 1) == Start().(breaker := Fresh().(score := 3));
    assert At(windowSec, h, 2) == Step(windowSec, At(windowSec, h, 1), h[1]);
    assert Valid(windowSec, h, 1);
  }

  lemma {:induction false} FailingFastState(windowSec: real, k: nat)
    ensures var h := FailingFast(k);
            Down(windowSec, h, k) && OpenedAndFailed(At(windowSec, h, |h|), k)
  {
    if k == 0 {
      TwoConnectFailures(windowSec);
    } else {
      var x, t := FailingFast(k - 1), Windows(k);
      FailingFastState(windowSec, k - 1);
      FailOnce(windowSec, At(windowSec, x, |x|), k - 1, t);
      StaysDown(windowSec, x, k - 1, Visit(t, t));
      StaysDown(windowSec, x + [Visit(t, t)], k - 1, ProbeDone(false, t, t));
    }
  }

  lemma {:induction false} ThenDueAgain(windowSec: real, c: seq<Event>, k: nat, t: real)
    requires Down(windowSec, c, k) && OneGood(At(windowSec, c, |c|), t, false)
    ensures var d := c + [Visit(t + PROBE_INTERVAL_SEC, t + PROBE_INTERVAL_SEC)];
            Down(windowSec, d, k) && OneGood(At(windowSec, d, |d|), t, true)
  {
    StaysDown(windowSec, c, k, Visit(t + PROBE_INTERVAL_SEC, t + PROBE_INTERVAL_SEC));
  }

  lemma {:induction false} FlappingFastState(windowSec: real, k: nat)
    ensures var h := FlappingFast(k);
            Down(windowSec, h, k) && OneGood(At(windowSec, h, |h|), Windows(k + 1), true)
  {
    var a, t := FailingFast(k), Windows(k + 1);
    FailingFastState(windowSec, k);
    FlapOnce(windowSec, At(windowSec, a, |a|), k, t);
    StaysDown(windowSec, a, k, Visit(t, t));
    StaysDown(windowSec, a + [Visit(t, t)], k, ProbeDone(true, t, t));
    ThenDueAgain(windowSec, a + [Visit(t, t)] + [ProbeDone(true, t, t)], k, t);
  }

  /** Event 1 opens the breaker, the last event closes it again after k failed
      probes, and the outage lasted exactly the floor. */
  ghost predicate MeetsFloor(windowSec: real, h: seq<Event>, k: nat) {
    && |h| >= 3
    && Valid(windowSec, h, |h|)
    && OpenSince(windowSec, h, 1, |h| - 1)
    && At(windowSec, h, |h|).breaker.Allows()
    && FailedProbes(windowSec, h, 2, |h| - 1) == k
    && At(windowSec, h, 2).breaker.openedAt.Some?
    && h[|h| - 1].ProbeDone?
    && h[|h| - 1].recorded - At(windowSec, h, 2).breaker.openedAt.value == OutageFloor(k)
  }

  /** The bound is exact: for every k some run meets it. */
  lemma MinimumOutageIsTight(windowSec: real, k: nat)
    ensures exists h :: MeetsFloor(windowSec, h, k)
  {
    FlappingFastState(windowSec, k);
    var d := FlappingFast(k);
    var e := ProbeDone(true, Windows(k + 1) + PROBE_INTERVAL_SEC, Windows(k + 1) + PROBE_INTERVAL_SEC);
    forall n: nat | n <= |d| ensures At(windowSec, d + [e], n) == At(windowSec, d, n) {
      Prefix(windowSec, d, [e], n, n);
    }
    Prefix(windowSec, d, [e], 2, |d|);
    assert MeetsFloor(windowSec, d + [e], k);
  }

  // ---- How long a recovery takes -----------------------------------------

  /** By when the prober must act: it is back at a replica `tick` seconds after it
      left it, or after `from`, and a probe takes `probe` seconds, at most. */
  function Deadline(s: Health, from: real, tick: real, probe: real): real {
    Max(from, s.lastVisit) + (if s.probing.Some? then probe else tick)
  }

  /** An event of a recovery: nothing happens past the prober's deadline, a visit's
      clock reading is at most `late` seconds old, and a probe that ends is good,
      without a live wedge signal. */
  predicate Recovers(s: Health, e: Event, from: real, tick: real, late: real, probe: real) {
    && e.at <= Deadline(s, from, tick, probe)
    && (e.Visit? ==> e.at - e.loopNow <= late)
    && !FailsProbe(s, e)
  }

  ghost predicate Recovering(
    windowSec: real, h: seq<Event>, a: nat, n: nat, tick: real, late: real, probe: real)
    requires a <= n <= |h|
  {
    forall k :: a <= k < n ==>
      Recovers(At(windowSec, h, k), h[k], At(windowSec, h, a).clock, tick, late, probe)
  }

  /** Where a recovery that started at `from` is, at the latest: waiting for the
      first probe, in it, waiting for the second, in it. */
  predicate OnSchedule(s: Health, from: real, tick: real, late: real, probe: real) {
    var first := from + MAX_OPEN_SEC + late;
    var second := first + tick + probe + PROBE_INTERVAL_SEC + late;
    match s.breaker.state
    case Closed => true
    case Open =>
      && s.breaker.openedAt.Some? && s.breaker.openedAt.value <= from
      && s.lastVisit <= (if s.probing.None? then first else first + tick)
      && s.clock <= (if s.probing.None? then first + tick else first + tick + probe)
    case HalfOpen =>
      && s.breaker.lastProbeAt.Some? && s.breaker.lastProbeAt.value <= first + tick + probe
      && s.lastVisit <= (if s.probing.None? then second else second + tick)
      && s.clock <= (if s.probing.None? then second + tick else second + tick + probe)
  }

  lemma RecoveryStep(windowSec: real, s: Health, e: Event, from: real, tick: real, late: real, probe: real)
    requires Inv(s) && Enabled(s, e) && Recovers(s, e, from, tick, late, probe)
    requires tick >= 0.0 && late >= 0.0 && probe >= 0.0 && from <= s.clock
    requires !s.breaker.Allows() && OnSchedule(s, from, tick, late, probe)
    ensures OnSchedule(Step(windowSec, s, e), from, tick, late, probe)
    ensures Step(windowSec, s, e).clock <= from + 65.0 + 2.0 * (tick + late + probe)
  {
  }

  lemma {:induction false} StaysOnSchedule(
    windowSec: real, h: seq<Event>, a: nat, n: nat, tick: real, late: real, probe: real)
    requires a <= n <= |h| && Valid(windowSec, h, n) && Recovering(windowSec, h, a, n, tick, late, probe)
    requires tick >= 0.0 && late >= 0.0 && probe >= 0.0
    requires forall m :: a <= m < n ==> !At(windowSec, h, m).breaker.Allows()
    ensures OnSchedule(At(windowSec, h, n), At(windowSec, h, a).clock, tick, late, probe)
    ensures At(windowSec, h, n).clock <= At(windowSec, h, a).clock + 65.0 + 2.0 * (tick + late + probe)
    decreases n
  {
    var from := At(windowSec, h, a).clock;
    Reachable(windowSec, h, n);
    if a < n {
      StaysOnSchedule(windowSec, h, a, n - 1, tick, late, probe);
      Reachable(windowSec, h, n - 1);
      ClockRuns(windowSec, h, a, n - 1);
      RecoveryStep(windowSec, At(windowSec, h, n - 1), h[n - 1], from, tick, late, probe);
    }
  }

  /** A replica that is well again is in service within 65 seconds, plus twice what
      the prober takes to come round, read its clock and probe: if from moment a on
      no probe fails, the breaker is closed at the end of that time or has been in
      between. */
  lemma {:induction false} RecoveryIsPrompt(
    windowSec: real, h: seq<Event>, a: nat, n: nat, tick: real, late: real, probe: real)
    requires a <= n <= |h| && Valid(windowSec, h, n) && Recovering(windowSec, h, a, n, tick, late, probe)
    requires tick >= 0.0 && late >= 0.0 && probe >= 0.0
    requires At(windowSec, h, n).clock > At(windowSec, h, a).clock + 65.0 + 2.0 * (tick + late + probe)
    ensures exists m :: a <= m < n && At(windowSec, h, m).breaker.Allows()
  {
    if forall m :: a <= m < n ==> !At(windowSec, h, m).breaker.Allows() {
      StaysOnSchedule(windowSec, h, a, n, tick, late, probe);
    }
  }

  // ---- Wedge trips -------------------------------------------------------

  /** The polls completed during the first n events. */
  function Polls(h: seq<Event>, n: nat): seq<Poll>
    requires n <= |h|
  {
    if n == 0 then []
    else if h[n - 1].Polled? then Polls(h, n - 1) + [h[n - 1].poll]
    else Polls(h, n - 1)
  }

  /** The informative scrapes completed during the first n events. */
  function Seen(h: seq<Event>, n: nat): seq<Observation>
    requires n <= |h|
  {
    Informative(Polls(h, n), |Polls(h, n)|)
  }

  lemma {:induction false} DetectorHasSeen(windowSec: real, h: seq<Event>, n: nat)
    requires n <= |h| && Valid(windowSec, h, n)
    ensures var s, polls := At(windowSec, h, n), Polls(h, n);
            && (s.detector.None? <==> polls == [])
            && (s.detector.Some? ==> s.detector.value == DetectorAt(windowSec, polls, |polls|))
    ensures StampsOrdered(Seen(h, n))
    ensures forall j :: 0 <= j < |Seen(h, n)| ==> Seen(h, n)[j].stamp <= At(windowSec, h, n).lastPoll
  {
    if n > 0 {
      DetectorHasSeen(windowSec, h, n - 1);
      Reachable(windowSec, h, n - 1);
      if h[n - 1].Polled? {
        PrefixDecides(windowSec, Polls(h, n - 1), [h[n - 1].poll], |Polls(h, n - 1)|);
      }
    }
  }

  /** A poll that tells the detector something. */
  predicate Tells(e: Event) {
    e.Polled? && Informs(e.poll)
  }

  lemma {:induction false} SeenOneMore(h: seq<Event>, n: nat)
    requires n < |h|
    ensures Seen(h, n) <= Seen(h, n + 1)
    ensures |Seen(h, n + 1)| == |Seen(h, n)| + (if Tells(h[n]) then 1 else 0)
    ensures Tells(h[n]) ==> Reads(Seen(h, n + 1)[|Seen(h, n)|], h[n].poll)
  {
    if h[n].Polled? {
      var polls := Polls(h, n);
      PrefixDecides(0.0, polls, [h[n].poll], |polls|);
    }
  }

  /** The telling ones among the first n events. */
  function ToldAt(h: seq<Event>, n: nat): seq<nat>
    requires n <= |h|
  {
    if n == 0 then [] else if Tells(h[n - 1]) then ToldAt(h, n - 1) + [n - 1] else ToldAt(h, n - 1)
  }

  /** What has been seen is what the telling polls show, all of it and in order. */
  lemma {:induction false} SeenIsTold(h: seq<Event>, n: nat)
    requires n <= |h|
    ensures |Seen(h, n)| == |ToldAt(h, n)|
    ensures forall k :: 0 <= k < |ToldAt(h, n)| ==>
              && ToldAt(h, n)[k] < n && Tells(h[ToldAt(h, n)[k]])
              && Reads(Seen(h, n)[k], h[ToldAt(h, n)[k]].poll)
    ensures forall j, k :: 0 <= j < k < |ToldAt(h, n)| ==> ToldAt(h, n)[j] < ToldAt(h, n)[k]
    ensures forall i: nat :: i < n && Tells(h[i]) ==> i in ToldAt(h, n)
  {
    if n > 0 {
      SeenIsTold(h, n - 1);
      SeenOneMore(h, n - 1);
      if Tells(h[n - 1]) {
        assert ToldAt(h, n)[|ToldAt(h, n - 1)|] == n - 1;
      }
    }
  }

  /** From scrape m on the replica was stalled: every scrape from there, and every
      scrape stamped later than m, had requests waiting and m's token counter,
      which the scrape before m had already shown. And m is a window old. */
  ghost predicate StallOfWindow(windowSec: real, obs: seq<Observation>, m: int, now: real) {
    && 1 <= m < |obs|
    && obs[m].stamp <= now - windowSec
    && obs[m - 1].gen == obs[m].gen
    && (forall j :: 0 <= j < |obs| && (m <= j || obs[m].stamp < obs[j].stamp) ==>
          obs[j].waiting > 0.0 && obs[j].gen == obs[m].gen)
  }

  lemma {:induction false} StallIsFlat(obs: seq<Observation>, m: int, hi: nat)
    requires StalledFrom(obs, m) && hi <= |obs|
    ensures forall j :: m <= j < hi ==> Stalled(obs, j) && obs[j].gen == obs[m].gen
  {
    if hi > 0 {
      StallIsFlat(obs, m, hi - 1);
    }
  }

  /** For a positive window, suspecting a wedge at time t means that something of
      that kind was observed ... */
  lemma SuspicionOfObservations(windowSec: real, h: seq<Event>, n: nat, t: real)
    requires n <= |h| && Valid(windowSec, h, n) && windowSec > 0.0
    ensures Suspects(At(windowSec, h, n).detector, t)
       <==> exists m :: StallOfWindow(windowSec, Seen(h, n), m, t)
  {
    DetectorHasSeen(windowSec, h, n);
    var polls, obs := Polls(h, n), Seen(h, n);
    SuspectedExactlyWhenStalled(windowSec, polls, |polls|, t, obs);
    forall m ensures StallOfWindow(windowSec, obs, m, t) <==> StalledFrom(obs, m) && obs[m].stamp <= t - windowSec {
      if StalledFrom(obs, m) {
        assert Stalled(obs, m);
        StallIsFlat(obs, m, |obs|);
      }
    }
    if Suspects(At(windowSec, h, n).detector, t) {
      var m :| StalledFrom(obs, m) && t - obs[m].stamp >= windowSec;
      assert StallOfWindow(windowSec, obs, m, t);
    }
  }

  /** At time t some stall has lasted a window. */
  ghost predicate Covers(windowSec: real, obs: seq<Observation>, t: real) {
    exists m :: StallOfWindow(windowSec, obs, m, t)
  }

  /** In terms of the polls: a and b are telling polls in a row with one counter, a
      is a window old at time t, and every telling poll from a on, or stamped
      later than a, shows requests waiting and that same counter. */
  ghost predicate StallSince(windowSec: real, h: seq<Event>, b: nat, a: nat, n: nat, t: real) {
    && b < a < n <= |h| && Tells(h[b]) && Tells(h[a])
    && (forall q :: b < q < a ==> !Tells(h[q]))
    && CounterOf(h[b].poll) == CounterOf(h[a].poll)
    && h[a].poll.stamp <= t - windowSec
    && (forall q :: 0 <= q < n && Tells(h[q]) && (a <= q || h[a].poll.stamp < h[q].poll.stamp) ==>
          Queues(h[q].poll) && CounterOf(h[q].poll) == CounterOf(h[a].poll))
  }

  ghost predicate StallLasts(windowSec: real, h: seq<Event>, n: nat, t: real) {
    exists b, a :: StallSince(windowSec, h, b, a, n, t)
  }

  lemma Increasing(told: seq<nat>, j: nat, k: nat)
    requires j < |told| && k < |told|
    requires forall j, k :: 0 <= j < k < |told| ==> told[j] < told[k]
    ensures j < k <==> told[j] < told[k]
  {
  }

  lemma {:induction false} CoveredLasts(windowSec: real, h: seq<Event>, n: nat, t: real, m: nat)
    requires n <= |h| && StallOfWindow(windowSec, Seen(h, n), m, t)
    ensures StallLasts(windowSec, h, n, t)
  {
    var obs, told := Seen(h, n), ToldAt(h, n);
    SeenIsTold(h, n);
    var b, a := told[m - 1], told[m];
    forall q: nat | q < n && Tells(h[q])
      ensures exists j :: 0 <= j < |told| && told[j] == q && Reads(obs[j], h[q].poll)
    {
      assert q in told;
    }
    forall q: nat | q < n && Tells(h[q]) ensures q <= b || a <= q {
      var j :| 0 <= j < |told| && told[j] == q;
      Increasing(told, m - 1, j);
      Increasing(told, j, m);
    }
    forall q | 0 <= q < n && Tells(h[q]) && (a <= q || h[a].poll.stamp < h[q].poll.stamp)
      ensures Queues(h[q].poll) && CounterOf(h[q].poll) == CounterOf(h[a].poll)
    {
      var j :| 0 <= j < |told| && told[j] == q && Reads(obs[j], h[q].poll);
      assert j < m ==> told[j] < told[m];
    }
    assert StallSince(windowSec, h, b, a, n, t);
  }

  lemma {:induction false} LastsIsCovered(windowSec: real, h: seq<Event>, n: nat, t: real, b: nat, a: nat)
    requires n <= |h| && StallSince(windowSec, h, b, a, n, t)
    ensures Covers(windowSec, Seen(h, n), t)
  {
    var obs, told := Seen(h, n), ToldAt(h, n);
    SeenIsTold(h, n);
    assert a in told && b in told;
    var m :| 0 <= m < |told| && told[m] == a;
    var k :| 0 <= k < |told| && told[k] == b;
    Increasing(told, k, m);
    Increasing(told, m - 1, m);
    assert Tells(h[told[m - 1]]) && told[m - 1] <= b;
    Increasing(told, k, m - 1);
    forall j | 0 <= j < |obs| && (m <= j || obs[m].stamp < obs[j].stamp)
      ensures obs[j].waiting > 0.0 && obs[j].gen == obs[m].gen
    {
      assert m < j ==> told[m] < told[j];
      assert Reads(obs[j], h[told[j]].poll);
    }
    assert StallOfWindow(windowSec, obs, m, t);
  }

  lemma {:induction false} CoversIsStall(windowSec: real, h: seq<Event>, n: nat, t: real)
    requires n <= |h|
    ensures Covers(windowSec, Seen(h, n), t) <==> StallLasts(windowSec, h, n, t)
  {
    if Covers(windowSec, Seen(h, n), t) {
      var m :| StallOfWindow(windowSec, Seen(h, n), m, t);
      CoveredLasts(windowSec, h, n, t, m);
    }
    if StallLasts(windowSec, h, n, t) {
      var b: nat, a: nat :| StallSince(windowSec, h, b, a, n, t);
      LastsIsCovered(windowSec, h, n, t, b, a);
    }
  }

  /** ... and that the polls show it: for a positive window a wedge is suspected at
      time t exactly if a stall has lasted a window by then. */
  lemma {:induction false} SuspicionMeaning(windowSec: real, h: seq<Event>, n: nat, t: real)
    requires n <= |h| && Valid(windowSec, h, n) && windowSec > 0.0
    ensures Suspects(At(windowSec, h, n).detector, t) <==> StallLasts(windowSec, h, n, t)
  {
    SuspicionOfObservations(windowSec, h, n, t);
    CoversIsStall(windowSec, h, n, t);
  }

  /** Visit p found the wedge signature, and nothing between it and event n took
      the confirmation back: no success, no other visit, no trip. */
  ghost predicate ConfirmedBy(windowSec: real, h: seq<Event>, p: int, n: nat)
    requires n <= |h|
  {
    && 0 <= p < n
    && h[p].Visit? && Suspects(At(windowSec, h, p).detector, h[p].at)
    && (forall q :: p < q < n ==> !h[q].Visit? && h[q] != Outcome(None, h[q].at))
    && (forall q :: p <= q <= n ==> At(windowSec, h, q).breaker.Allows())
  }

  /** A confirmation stands after an event because a visit has just found the
      signature, or because it stood before and the event was no success. */
  lemma ConfirmationStands(windowSec: real, s: Health, e: Event)
    requires Inv(s) && Enabled(s, e)
    requires Step(windowSec, s, e).breaker.Allows() && Step(windowSec, s, e).breaker.wedgeConfirmations > 0
    ensures s.breaker.Allows()
    ensures if e.Visit? then Suspects(s.detector, e.at)
            else s.breaker.wedgeConfirmations > 0 && e != Outcome(None, e.at)
  {
  }

  lemma {:induction false} ConfirmationHasVisit(windowSec: real, h: seq<Event>, n: nat)
    requires n <= |h| && Valid(windowSec, h, n)
    requires At(windowSec, h, n).breaker.Allows() && At(windowSec, h, n).breaker.wedgeConfirmations > 0
    ensures exists p :: ConfirmedBy(windowSec, h, p, n)
  {
    if n > 0 {
      Reachable(windowSec, h, n - 1);
      ConfirmationStands(windowSec, At(windowSec, h, n - 1), h[n - 1]);
      if h[n - 1].Visit? {
        assert ConfirmedBy(windowSec, h, n - 1, n);
      } else {
        ConfirmationHasVisit(windowSec, h, n - 1);
        var p :| ConfirmedBy(windowSec, h, p, n - 1);
        assert ConfirmedBy(windowSec, h, p, n);
      }
    }
  }

  /** A breaker that opens does so at a request failure or at a visit; and when
      at a visit, that visit and the one before it both saw a stall of at least a
      window, unbroken up to the latest scrape, with no success between. */
  lemma WedgeTripIsSound(windowSec: real, h: seq<Event>, n: nat)
    requires n < |h| && Valid(windowSec, h, n + 1) && windowSec > 0.0
    requires At(windowSec, h, n).breaker.Allows() && !At(windowSec, h, n + 1).breaker.Allows()
    ensures h[n].Outcome? || h[n].Visit?
    ensures h[n].Visit? ==> StallLasts(windowSec, h, n, h[n].at)
    ensures h[n].Visit? ==>
              exists p: nat :: ConfirmedBy(windowSec, h, p, n) && StallLasts(windowSec, h, p, h[p].at)
  {
    Reachable(windowSec, h, n);
    if h[n].Visit? {
      SuspicionMeaning(windowSec, h, n, h[n].at);
      ConfirmationHasVisit(windowSec, h, n);
      var p :| ConfirmedBy(windowSec, h, p, n);
      ValidPrefix(windowSec, h, p, n);
      SuspicionMeaning(windowSec, h, p, h[p].at);
    }
  }

  /** p was the visit before n, and saw a stall of a whole window; no success and
      no outage since. */
  ghost predicate StallSeenBefore(windowSec: real, h: seq<Event>, p: int, n: nat)
    requires n <= |h|
  {
    && 0 <= p < n
    && h[p].Visit? && StallLasts(windowSec, h, p, h[p].at)
    && (forall q :: p < q < n ==> !h[q].Visit? && h[q] != Outcome(None, h[q].at))
    && (forall q :: p <= q <= n ==> At(windowSec, h, q).breaker.Allows())
  }

  lemma {:induction false} ConfirmedMeansSeen(windowSec: real, h: seq<Event>, p: nat, n: nat)
    requires n <= |h| && Valid(windowSec, h, n) && windowSec > 0.0
    ensures ConfirmedBy(windowSec, h, p, n) <==> StallSeenBefore(windowSec, h, p, n)
  {
    if p < n {
      ValidPrefix(windowSec, h, p, n);
      SuspicionMeaning(windowSec, h, p, h[p].at);
    }
  }

  /** What does not revoke a confirmation leaves it standing. */
  lemma ConfirmationIsKept(windowSec: real, s: Health, e: Event)
    requires Inv(s) && Enabled(s, e) && s.breaker.Allows() && Step(windowSec, s, e).breaker.Allows()
    requires if e.Visit? then Suspects(s.detector, e.at)
             else s.breaker.wedgeConfirmations > 0 && e != Outcome(None, e.at)
    ensures Step(windowSec, s, e).breaker.wedgeConfirmations > 0
  {
  }

  lemma {:induction false} ConfirmedStands(windowSec: real, h: seq<Event>, p: nat, n: nat)
    requires n <= |h| && Valid(windowSec, h, n) && ConfirmedBy(windowSec, h, p, n)
    ensures At(windowSec, h, n).breaker.wedgeConfirmations > 0
    decreases n
  {
    Reachable(windowSec, h, n - 1);
    if p < n - 1 {
      assert ConfirmedBy(windowSec, h, p, n - 1);
      ConfirmedStands(windowSec, h, p, n - 1);
    }
    assert At(windowSec, h, n).breaker.Allows();
    ConfirmationIsKept(windowSec, At(windowSec, h, n - 1), h[n - 1]);
  }

  /** A visit opens a closed breaker exactly if it finds the signature with a
      confirmation standing. */
  lemma VisitTrips(windowSec: real, s: Health, e: Event)
    requires Inv(s) && Enabled(s, e) && s.breaker.Allows() && e.Visit?
    ensures !Step(windowSec, s, e).breaker.Allows()
       <==> Suspects(s.detector, e.at) && s.breaker.wedgeConfirmations > 0
  {
    assert s.breaker.Threshold(e.loopNow) <= TRIP_SCORE;
  }

  /** For a positive window a visit opens a closed breaker exactly if it sees a
      stall of a whole window and so did the visit before it, with no success and
      no outage in between. */
  lemma {:induction false} WedgeTripsExactly(windowSec: real, h: seq<Event>, n: nat)
    requires n < |h| && Valid(windowSec, h, n + 1) && windowSec > 0.0
    requires At(windowSec, h, n).breaker.Allows() && h[n].Visit?
    ensures !At(windowSec, h, n + 1).breaker.Allows()
       <==> StallLasts(windowSec, h, n, h[n].at) && exists p: nat :: StallSeenBefore(windowSec, h, p, n)
  {
    Reachable(windowSec, h, n);
    VisitTrips(windowSec, At(windowSec, h, n), h[n]);
    SuspicionMeaning(windowSec, h, n, h[n].at);
    if At(windowSec, h, n).breaker.wedgeConfirmations > 0 {
      ConfirmationHasVisit(windowSec, h, n);
      var p :| ConfirmedBy(windowSec, h, p, n);
      ConfirmedMeansSeen(windowSec, h, p, n);
    }
    if p: nat :| StallSeenBefore(windowSec, h, p, n) {
      ConfirmedMeansSeen(windowSec, h, p, n);
      ConfirmedStands(windowSec, h, p, n);
    }
  }

  /** Between two moments more was seen exactly if a poll told something. */
  lemma {:induction false} SeenBetween(h: seq<Event>, p: nat, n: nat)
    requires p <= n <= |h|
    ensures Seen(h, p) <= Seen(h, n)
    ensures |Seen(h, p)| < |Seen(h, n)| <==> exists q :: p <= q < n && Tells(h[q])
    decreases n
  {
    if p < n {
      SeenBetween(h, p, n - 1);
      SeenOneMore(h, n - 1);
      if Tells(h[n - 1]) {
        assert p <= n - 1 < n && Tells(h[n - 1]);
      }
    }
  }

  lemma {:induction false} VisitsFollow(windowSec: real, h: seq<Event>, p: nat, n: nat)
    requires p < n <= |h| && Valid(windowSec, h, n) && h[p].Visit?
    ensures h[p].at <= At(windowSec, h, n).lastVisit
    decreases n
  {
    Reachable(windowSec, h, n - 1);
    if p < n - 1 {
      VisitsFollow(windowSec, h, p, n - 1);
    }
  }

  /** Event n is a visit that opens the breaker, and p is the visit it confirms. */
  ghost predicate WedgeTrip(windowSec: real, h: seq<Event>, p: int, n: nat) {
    && n < |h| && Valid(windowSec, h, n + 1)
    && h[n].Visit?
    && At(windowSec, h, n).breaker.Allows()
    && !At(windowSec, h, n + 1).breaker.Allows()
    && ConfirmedBy(windowSec, h, p, n)
  }

  /** From observation k on, each one that broke the stall was followed by one
      that is a window old at time t. */
  ghost predicate RestartsAreOld(windowSec: real, obs: seq<Observation>, k: nat, t: real) {
    forall j :: k <= j < |obs| && !Stalled(obs, j) ==> j + 1 < |obs| && obs[j + 1].stamp <= t - windowSec
  }

  /** In a stall of a window every observation from its start on is stalled. */
  lemma StallBegins(windowSec: real, obs: seq<Observation>, m: int, t: real)
    requires StallOfWindow(windowSec, obs, m, t)
    ensures StalledFrom(obs, m)
  {
  }

  lemma StallFrom(windowSec: real, obs: seq<Observation>, m: int, t: real)
    requires StalledFrom(obs, m) && StampsOrdered(obs) && obs[m].stamp <= t - windowSec
    ensures Covers(windowSec, obs, t)
  {
    assert Stalled(obs, m);
    StallIsFlat(obs, m, |obs|);
    assert StallOfWindow(windowSec, obs, m, t);
  }

  lemma SameStall(before: seq<Observation>, obs: seq<Observation>, m: int)
    requires before <= obs && StalledFrom(before, m)
    requires StallStart(obs) <= |before|
    ensures StalledFrom(obs, m)
  {
    forall j | m <= j < |obs| ensures Stalled(obs, j) {
      if j < |before| {
        assert Stalled(before, j);
      }
    }
  }

  lemma {:induction false} CoveredStallIsOld(windowSec: real, obs: seq<Observation>, k: nat, t: real)
    requires StampsOrdered(obs) && Covers(windowSec, obs, t)
    ensures RestartsAreOld(windowSec, obs, k, t)
  {
    var m :| StallOfWindow(windowSec, obs, m, t);
    StallBegins(windowSec, obs, m, t);
  }

  lemma {:induction false} OldStallIsCovered(
    windowSec: real, before: seq<Observation>, obs: seq<Observation>, m: int, t: real)
    requires StampsOrdered(obs) && before <= obs && RestartsAreOld(windowSec, obs, |before|, t)
    requires StallStart(obs) < |obs|
    requires StalledFrom(before, m) && before[m].stamp <= t - windowSec
    ensures Covers(windowSec, obs, t)
  {
    var start := StallStart(obs);
    if start > |before| {
      assert !Stalled(obs, start - 1);
      StallFrom(windowSec, obs, start, t);
    } else {
      SameStall(before, obs, m);
      StallFrom(windowSec, obs, m, t);
    }
  }

  /** An earlier stall of a window, seen up to observation k, is one at t too
      exactly if it has restarted, if at all, a window before t. */
  lemma {:induction false} StallCarriesOver(
    windowSec: real, before: seq<Observation>, obs: seq<Observation>, earlier: real, t: real, now: real)
    requires windowSec > 0.0 && StampsOrdered(obs) && before <= obs && earlier <= t
    requires Covers(windowSec, before, earlier) && Covers(windowSec, obs, now)
    ensures Covers(windowSec, obs, t) <==> RestartsAreOld(windowSec, obs, |before|, t)
  {
    if Covers(windowSec, obs, t) {
      CoveredStallIsOld(windowSec, obs, |before|, t);
    }
    if RestartsAreOld(windowSec, obs, |before|, t) {
      var m0 :| StallOfWindow(windowSec, before, m0, earlier);
      var m1 :| StallOfWindow(windowSec, obs, m1, now);
      StallBegins(windowSec, before, m0, earlier);
      StallBegins(windowSec, obs, m1, now);
      MaximalStall(obs, m1);
      OldStallIsCovered(windowSec, before, obs, m0, t);
    }
  }

  /** The trip is stamped with the pass's clock reading, though the suspicion was
      read later. Counted back from that stamp the stall has lasted a window
      exactly if it has restarted, if at all since the visit confirmed, a window
      before the stamp: so always, unless it broke between the two visits. */
  lemma {:induction false} TripStampCoversWindow(windowSec: real, h: seq<Event>, p: nat, n: nat)
    requires windowSec > 0.0 && WedgeTrip(windowSec, h, p, n)
    ensures At(windowSec, h, n + 1).breaker.openedAt == Some(h[n].loopNow)
    ensures Covers(windowSec, Seen(h, n), h[n].loopNow)
       <==> RestartsAreOld(windowSec, Seen(h, n), |Seen(h, p)|, h[n].loopNow)
  {
    Reachable(windowSec, h, n);
    ValidPrefix(windowSec, h, p, n);
    SuspicionOfObservations(windowSec, h, p, h[p].at);
    SuspicionOfObservations(windowSec, h, n, h[n].at);
    DetectorHasSeen(windowSec, h, n);
    SeenBetween(h, p, n);
    VisitsFollow(windowSec, h, p, n);
    StallCarriesOver(windowSec, Seen(h, p), Seen(h, n), h[p].at, h[n].loopNow, h[n].at);
  }

  /** A scrape that is not the first to complete after a moment starts after it. */
  lemma {:induction false} LaterScrapes(windowSec: real, h: seq<Event>, p: nat, n: nat)
    requires p <= n <= |h| && Valid(windowSec, h, n)
    ensures |Seen(h, p)| <= |Seen(h, n)|
    ensures |Seen(h, p)| < |Seen(h, n)| ==> At(windowSec, h, p).clock <= At(windowSec, h, n).lastPoll
    ensures forall k :: |Seen(h, p)| < k < |Seen(h, n)| ==> At(windowSec, h, p).clock <= Seen(h, n)[k].stamp
    decreases n
  {
    if p < n {
      LaterScrapes(windowSec, h, p, n - 1);
      SeenOneMore(h, n - 1);
      ClockRuns(windowSec, h, p, n);
    }
  }

  /** If less than a window has passed between the two confirming visits, the
      stamp covers the window: only a pass held up that long can miss it. */
  lemma {:induction false} PromptPassCoversWindow(windowSec: real, h: seq<Event>, p: nat, n: nat)
    requires windowSec > 0.0 && WedgeTrip(windowSec, h, p, n) && h[n].at - h[p].at < windowSec
    ensures Covers(windowSec, Seen(h, n), h[n].loopNow)
  {
    var obs, k, t := Seen(h, n), |Seen(h, p)|, h[n].loopNow;
    TripStampCoversWindow(windowSec, h, p, n);
    SuspicionOfObservations(windowSec, h, n, h[n].at);
    LaterScrapes(windowSec, h, p + 1, n);
    var m :| StallOfWindow(windowSec, obs, m, h[n].at);
    StallBegins(windowSec, obs, m, h[n].at);
    assert Seen(h, p + 1) == Seen(h, p) && At(windowSec, h, p + 1).clock == h[p].at;
    assert m <= k;
  }

  /** Requests waiting, this many tokens generated. */
  function StalledSnapshot(tokens: real): (snapshot: map<string, real>)
    ensures GENERATION in snapshot && snapshot[GENERATION] == tokens && WaitingIn(snapshot) == 1.0
  {
    assert WAITING[5] != GENERATION[5];
    map[WAITING := 1.0, GENERATION := tokens]
  }

  function StalledPoll(tokens: real, t: real): Event {
    Polled(Scraped(StalledSnapshot(tokens), t), t)
  }

  /** Two polls that start a stall at t, the counter having just moved if it was
      known at all. */
  lemma StallStarts(windowSec: real, s: Health, tokens: real, before: real, t: real)
    requires 0.0 <= s.clock <= before <= t && s.lastPoll <= before
    requires s.detector.None? || (s.detector.value.windowSec == windowSec && s.detector.value.lastGen.Some?
                                  && s.detector.value.lastGen.value < tokens)
    ensures var first, second := StalledPoll(tokens, before), StalledPoll(tokens, t);
            var mid := Step(windowSec, s, first);
            && Enabled(s, first) && Enabled(mid, second)
            && mid.breaker == s.breaker
            && Step(windowSec, mid, second)
               == s.(detector := Some(Detector(windowSec, Some(tokens), Some(t))), lastPoll := t, clock := t)
  {
    var d := if s.detector.Some? then s.detector.value else NewDetector(windowSec);
    assert d.Observe(StalledSnapshot(tokens), before) == Detector(windowSec, Some(tokens), None);
  }

  /** Stalled since 1.0, and seen so by one visit a window later. */
  function SeenOnce(windowSec: real): seq<Event> {
    [StalledPoll(5.0, 0.0), StalledPoll(5.0, 1.0), Visit(windowSec + 1.0, windowSec + 1.0)]
  }

  function SeenOnceState(windowSec: real): Health {
    Health(Fresh().(wedgeConfirmations := 1), Some(Detector(windowSec, Some(5.0), Some(1.0))), None, 1.0,
           windowSec + 1.0, windowSec + 1.0)
  }

  lemma {:induction false} SeenOnceRun(windowSec: real, h: seq<Event>)
    requires windowSec > 0.0 && |h| >= 3 && h[0] == StalledPoll(5.0, 0.0) && h[1] == StalledPoll(5.0, 1.0)
    requires h[2] == Visit(windowSec + 1.0, windowSec + 1.0)
    ensures Valid(windowSec, h, 3) && At(windowSec, h, 3) == SeenOnceState(windowSec)
    ensures At(windowSec, h, 2).breaker.Allows() && Suspects(At(windowSec, h, 2).detector, h[2].at)
  {
    var d := Some(Detector(windowSec, Some(5.0), Some(1.0)));
    StallStarts(windowSec, Start(), 5.0, 0.0, 1.0);
    assert At(windowSec, h, 0) == Start() && Valid(windowSec, h, 0);
    assert At(windowSec, h, 1) == Step(windowSec, Start(), h[0]) && Valid(windowSec, h, 1);
    assert At(windowSec, h, 2) == Health(Fresh(), d, None, 1.0, 0.0, 1.0) && Valid(windowSec, h, 2);
    assert Suspects(d, windowSec + 1.0);
    assert Fresh().OnWedge(true, windowSec + 1.0) == Fresh().(wedgeConfirmations := 1);
  }

  lemma SecondConfirmation(windowSec: real, s: Health, loopNow: real, at: real)
    requires s.breaker == Fresh().(wedgeConfirmations := 1) && s.probing.None?
    requires s.lastVisit <= loopNow <= at && s.clock <= at && Suspects(s.detector, at)
    ensures Enabled(s, Visit(loopNow, at))
    ensures var b := Step(windowSec, s, Visit(loopNow, at)).breaker;
            !b.Allows() && b.openedAt == Some(loopNow)
  {
    assert s.breaker.OnWedge(true, loopNow) == s.breaker.(wedgeConfirmations := 2).OnFailure(Wedge, loopNow);
  }

  /** ... then the counter moves, a new stall starts, and the next pass reads its
      clock at that moment but gets to this replica only a window later. */
  function RestartedStall(windowSec: real): seq<Event> {
    SeenOnce(windowSec)
    + [StalledPoll(6.0, windowSec + 2.0), StalledPoll(6.0, windowSec + 3.0),
       Visit(windowSec + 3.0, 2.0 * windowSec + 3.0)]
  }

  /** So, whatever the window, a trip can be stamped with a time at which no stall
      had lasted a window. */
  lemma {:induction false} TripStampCanPredateWindow(windowSec: real)
    requires windowSec > 0.0
    ensures exists h: seq<Event>, p: nat, n: nat ::
              WedgeTrip(windowSec, h, p, n) && !Covers(windowSec, Seen(h, n), h[n].loopNow)
  {
    var h, t := RestartedStall(windowSec), windowSec + 3.0;
    var s := SeenOnceState(windowSec);
    var r := s.(detector := Some(Detector(windowSec, Some(6.0), Some(t))), lastPoll := t, clock := t);
    SeenOnceRun(windowSec, h);
    StallStarts(windowSec, s, 6.0, windowSec + 2.0, t);
    assert At(windowSec, h, 4) == Step(windowSec, s, h[3]) && Valid(windowSec, h, 4);
    assert At(windowSec, h, 5) == r && Valid(windowSec, h, 5);
    SecondConfirmation(windowSec, r, t, h[5].at);
    assert At(windowSec, h, 6) == Step(windowSec, r, h[5]) && Valid(windowSec, h, 6);
    assert ConfirmedBy(windowSec, h, 2, 5);
    SuspicionOfObservations(windowSec, h, 5, t);
    assert WedgeTrip(windowSec, h, 2, 5) && !Covers(windowSec, Seen(h, 5), h[5].loopNow);
  }

  // ---- What a confirmation costs -----------------------------------------

  /** The second visit of a wedge trip has seen another scrape than the first one
      exactly if an informative poll completed in between. */
  lemma {:induction false} ConfirmedOnNewScrape(windowSec: real, h: seq<Event>, p: nat, n: nat)
    requires WedgeTrip(windowSec, h, p, n)
    ensures Seen(h, p) != Seen(h, n) <==> exists q :: p < q < n && Tells(h[q])
  {
    SeenBetween(h, p + 1, n);
  }

  lemma {:induction false} TimesRun(windowSec: real, h: seq<Event>, i: nat, j: nat)
    requires i <= j < |h| && Valid(windowSec, h, j + 1)
    ensures h[i].at <= h[j].at
  {
    ClockRuns(windowSec, h, i + 1, j + 1);
    ValidPrefix(windowSec, h, i + 1, j + 1);
  }

  /** In terms of the periods: if the latest telling poll is at most `gap` seconds
      old at the second visit, visits further apart than that confirm on a new
      scrape. */
  lemma {:induction false} SlowVisitsSeeNewScrape(
    windowSec: real, h: seq<Event>, p: nat, n: nat, i: nat, gap: real)
    requires WedgeTrip(windowSec, h, p, n) && i < n && Tells(h[i])
    requires h[n].at - h[i].at <= gap < h[n].at - h[p].at
    ensures Seen(h, p) != Seen(h, n)
  {
    ConfirmedOnNewScrape(windowSec, h, p, n);
    if i <= p {
      ValidPrefix(windowSec, h, p + 1, n + 1);
      TimesRun(windowSec, h, i, p);
    }
  }

  ghost predicate PollsApart(h: seq<Event>, gap: real) {
    forall i, j :: 0 <= i < j < |h| && Tells(h[i]) && Tells(h[j]) ==> h[j].at - h[i].at >= gap
  }

  /** And if telling polls are at least `gap` seconds apart, two visits within that
      time of one of them confirm on that one scrape. */
  lemma {:induction false} FastVisitsSeeSameScrape(
    windowSec: real, h: seq<Event>, p: nat, n: nat, i: nat, gap: real)
    requires WedgeTrip(windowSec, h, p, n) && PollsApart(h, gap) && i < p && Tells(h[i])
    requires h[n].at - h[i].at < gap
    ensures Seen(h, p) == Seen(h, n)
  {
    ConfirmedOnNewScrape(windowSec, h, p, n);
    if q :| p < q < n && Tells(h[q]) {
      TimesRun(windowSec, h, q, n);
    }
  }

  /** And nothing need: whatever the window, two visits can confirm, and trip, on
      the very same polls, where the source's documentation has the second
      confirmation cost a scrape interval. */
  lemma {:induction false} OneScrapeCanConfirmItself(windowSec: real)
    requires windowSec > 0.0
    ensures exists h: seq<Event>, p: nat, n: nat :: WedgeTrip(windowSec, h, p, n) && Polls(h, p) == Polls(h, n)
  {
    var h := SeenOnce(windowSec) + [Visit(windowSec + 2.0, windowSec + 2.0)];
    SeenOnceRun(windowSec, h);
    SecondConfirmation(windowSec, SeenOnceState(windowSec), windowSec + 2.0, windowSec + 2.0);
    assert At(windowSec, h, 4) == Step(windowSec, SeenOnceState(windowSec), h[3]) && Valid(windowSec, h, 4);
    assert ConfirmedBy(windowSec, h, 2, 3);
    assert Polls(h, 3) == Polls(h, 2);
    assert WedgeTrip(windowSec, h, 2, 3) && Polls(h, 2) == Polls(h, 3);
  }

  // ---- The prober's two halves, on the objects ---------------------------

  function DetectorIn(views: map<string, Detector>, url: string): Option<Detector> {
    if url in views then Some(views[url]) else None
  }

  /** One breaker's turn in a pass, up to the await if there is one. */
  method VisitBreaker(b: ReplicaBreaker, metrics: UpstreamMetricsPoller, loopNow: real, at: real) returns (probe: bool)
    requires metrics.Valid()
    modifies b
    ensures probe == (!old(b.View()).Allows() && old(b.View()).DueForProbe(loopNow))
    ensures b.View() == if old(b.View()).Allows()
                        then old(b.View()).OnWedge(Suspects(old(DetectorIn(metrics.Views(), b.url)), at), loopNow)
                        else old(b.View())
  {
    if b.state.Closed? {
      b.RecordWedge(metrics.WedgeSuspected(b.url, at), loopNow);
      return false;
    }
    probe := b.DueForProbe(loopNow);
  }

  /** What follows the await: fold the probe's verdict in. */
  method FinishProbe(b: ReplicaBreaker, metrics: UpstreamMetricsPoller, ok: bool, recorded: real, at: real)
    requires metrics.Valid()
    modifies b
    ensures b.View() == old(b.View()).OnProbe(ok, recorded, Suspects(old(DetectorIn(metrics.Views(), b.url)), at))
  {
    b.RecordProbe(ok, recorded, metrics.WedgeSuspected(b.url, at));
  }
}
