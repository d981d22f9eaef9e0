/** The whole of it: many requests (Gateway) over many replicas, each with its
    scrapes, its prober visits and its probes (Prober), on one clock. What the two
    partial systems leave arbitrary is what the other one does, so every run of
    the whole is a run of each, and their theorems meet. */
module Fleet {
  import opened Basics
  import opened Pool
  import BreakerHistory
  import Gateway
  import Prober

  datatype Sys = Sys(clock: real, gateway: Gateway.Sys, replicas: map<string, Prober.Health>)

  datatype Event = Request(r: Gateway.Event) | Replica(url: string, p: Prober.Event)

  function Start(c: Gateway.Config): Sys {
    Sys(0.0, Gateway.Start(c), map u | u in c.urls :: Prober.Start())
  }

  /** The call, if any, that an event at a replica makes to its breaker. */
  function CallMade(s: Prober.Health, e: Prober.Event): Option<BreakerHistory.Event> {
    match e
    case Visit(loopNow, at) =>
      if s.breaker.Allows() then Some(BreakerHistory.WedgeCheck(Prober.Suspects(s.detector, at), loopNow)) else None
    case ProbeDone(ok, recorded, at) => Some(BreakerHistory.Probe(ok, Prober.Suspects(s.detector, at), recorded))
    case _ => None
  }

  /** The request events that read the clock, and when. */
  function ReadAt(e: Gateway.Event): Option<real> {
    match e
    case Attempt(_, now) => Some(now)
    case Reply(_, _, _, now) => Some(now)
    case _ => None
  }

  /** What each kind of event asks of its own half, and of the clock. */
  predicate Ready(c: Gateway.Config, s: Sys, e: Event) {
    match e
    case Request(r) =>
      !r.Probed? && Gateway.Enabled(c, s.gateway, r) && (ReadAt(r).Some? ==> s.clock <= ReadAt(r).value)
    case Replica(u, p) =>
      && u in s.replicas && !p.Outcome? && Prober.Enabled(s.replicas[u], p) && s.clock <= p.at
      && (p.ProbeDone? ==> s.clock <= p.recorded)
  }

  /** What a half is told by the other one it must be able to take. */
  predicate Joint(c: Gateway.Config, s: Sys, e: Event)
    requires Ready(c, s, e)
  {
    match e
    case Request(r) => r.Reply? ==> s.gateway.reqs[r.id].phase.upstream in s.replicas
    case Replica(u, p) =>
      var call := CallMade(s.replicas[u], p);
      call.Some? ==> Gateway.Enabled(c, s.gateway, Gateway.Probed(u, call.value, p.at))
  }

  predicate Enabled(c: Gateway.Config, s: Sys, e: Event) {
    Ready(c, s, e) && Joint(c, s, e)
  }

  predicate Agrees(s: Sys, u: string)
    requires u in s.replicas && u in s.gateway.breakers
  {
    && s.replicas[u].breaker == s.gateway.breakers[u]
    && Prober.Inv(s.replicas[u]) && s.replicas[u].clock <= s.clock
  }

  /** The two halves agree on every breaker, and none is ahead of the clock. */
  predicate Coupled(c: Gateway.Config, s: Sys) {
    && c.urls != []
    && Gateway.UpstreamsKnown(c, s.gateway)
    && (forall u :: u in c.urls ==> u in s.replicas)
    && s.replicas.Keys == s.gateway.breakers.Keys
    && s.gateway.clock <= s.clock
    && (forall u :: u in s.replicas ==> Agrees(s, u))
  }

  /** What replica u sees of an event: a reply is an outcome of the replica it comes
      from. */
  function SeenBy(c: Gateway.Config, s: Sys, e: Event, u: string): Option<Prober.Event>
    requires Enabled(c, s, e)
  {
    match e
    case Request(r) =>
      if r.Reply? && s.gateway.reqs[r.id].phase.upstream == u
      then Some(Prober.Outcome(Classify(r.outcome), r.now)) else None
    case Replica(v, p) => if v == u then Some(p) else None
  }

  /** A visit or a probe result is a call to the breaker that the requests see. */
  function Step(c: Gateway.Config, windowSec: real, s: Sys, e: Event): Sys
    requires c.urls != [] && Enabled(c, s, e)
  {
    match e
    case Request(r) =>
      var clock := if ReadAt(r).Some? then ReadAt(r).value else s.clock;
      var replicas :=
        if r.Reply? then
          var u := s.gateway.reqs[r.id].phase.upstream;
          s.replicas[u := Prober.Step(windowSec, s.replicas[u], Prober.Outcome(Classify(r.outcome), r.now))]
        else s.replicas;
      Sys(clock, Gateway.Step(c, s.gateway, r), replicas)
    case Replica(u, p) =>
      var call := CallMade(s.replicas[u], p);
      var g := if call.Some? then Gateway.Step(c, s.gateway, Gateway.Probed(u, call.value, p.at)) else s.gateway;
      Sys(p.at, g, s.replicas[u := Prober.Step(windowSec, s.replicas[u], p)])
  }

  /** So neither half ever holds the other up. */
  lemma ReadyIsEnabled(c: Gateway.Config, s: Sys, e: Event)
    requires Coupled(c, s) && Ready(c, s, e)
    ensures Enabled(c, s, e)
  {
    if e.Replica? {
      assert Agrees(s, e.url);
    }
  }

  lemma {:induction false} StepAgrees(c: Gateway.Config, windowSec: real, s: Sys, e: Event, u: string)
    requires c.urls != [] && Enabled(c, s, e) && s.gateway.clock <= s.clock
    requires u in s.replicas && u in s.gateway.breakers && Agrees(s, u)
    ensures var t := Step(c, windowSec, s, e);
            && u in t.replicas && u in t.gateway.breakers && Agrees(t, u)
  {
    var seen := SeenBy(c, s, e, u);
    if seen.Some? {
      Prober.StepKeepsInv(windowSec, s.replicas[u], seen.value);
    }
  }

  lemma {:induction false} StepKeepsCoupled(c: Gateway.Config, windowSec: real, s: Sys, e: Event)
    requires Coupled(c, s) && Enabled(c, s, e)
    ensures Coupled(c, Step(c, windowSec, s, e))
  {
    var t := Step(c, windowSec, s, e);
    if e.Request? {
      Gateway.StepKeepsUpstreams(c, s.gateway, e.r);
    }
    assert t.replicas.Keys == s.replicas.Keys == t.gateway.breakers.Keys;
    forall u | u in t.replicas ensures Agrees(t, u) {
      assert u in s.replicas && Agrees(s, u);
      StepAgrees(c, windowSec, s, e, u);
    }
  }

  predicate Valid(c: Gateway.Config, windowSec: real, h: seq<Event>, n: nat)
    requires n <= |h|
    decreases n, 0
  {
    c.urls != [] && (n == 0 || (Valid(c, windowSec, h, n - 1) && Enabled(c, At(c, windowSec, h, n - 1), h[n - 1])))
  }

  function At(c: Gateway.Config, windowSec: real, h: seq<Event>, n: nat): Sys
    requires n <= |h| && Valid(c, windowSec, h, n)
    decreases n, 1
  {
    if n == 0 then Start(c) else Step(c, windowSec, At(c, windowSec, h, n - 1), h[n - 1])
  }

  lemma {:induction false} StaysCoupled(c: Gateway.Config, windowSec: real, h: seq<Event>, n: nat)
    requires n <= |h| && Valid(c, windowSec, h, n)
    ensures Coupled(c, At(c, windowSec, h, n))
  {
    if n > 0 {
      StaysCoupled(c, windowSec, h, n - 1);
      StepKeepsCoupled(c, windowSec, At(c, windowSec, h, n - 1), h[n - 1]);
    }
  }

  // ---- The two projections -----------------------------------------------

  /** The run as the requests see it. */
  function GatewayRun(c: Gateway.Config, windowSec: real, h: seq<Event>, n: nat): seq<Gateway.Event>
    requires n <= |h| && Valid(c, windowSec, h, n)
  {
    if n == 0 then []
    else
      var before := GatewayRun(c, windowSec, h, n - 1);
      match h[n - 1]
      case Request(r) => before + [r]
      case Replica(u, p) =>
        var call := CallMade(At(c, windowSec, h, n - 1).replicas[u], p);
        if call.Some? then before + [Gateway.Probed(u, call.value, p.at)] else before
  }

  /** The run as replica u sees it. */
  function ReplicaRun(c: Gateway.Config, windowSec: real, h: seq<Event>, n: nat, u: string): seq<Prober.Event>
    requires n <= |h| && Valid(c, windowSec, h, n)
  {
    if n == 0 then []
    else
      var before, seen := ReplicaRun(c, windowSec, h, n - 1, u), SeenBy(c, At(c, windowSec, h, n - 1), h[n - 1], u);
      if seen.Some? then before + [seen.value] else before
  }

  /** Every run of the whole is, for its requests, a run of Gateway. */
  lemma {:induction false} RunsAreGatewayRuns(c: Gateway.Config, windowSec: real, h: seq<Event>, n: nat)
    requires n <= |h| && Valid(c, windowSec, h, n)
    ensures var run := GatewayRun(c, windowSec, h, n);
            Gateway.Valid(c, run, |run|) && Gateway.At(c, run, |run|) == At(c, windowSec, h, n).gateway
  {
    if n > 0 {
      RunsAreGatewayRuns(c, windowSec, h, n - 1);
      var before, run := GatewayRun(c, windowSec, h, n - 1), GatewayRun(c, windowSec, h, n);
      if |run| > |before| {
        Gateway.OneMore(c, before, run[|before|], run);
      }
    }
  }

  lemma {:induction false} StepAt(c: Gateway.Config, windowSec: real, s: Sys, e: Event, u: string)
    requires c.urls != [] && Enabled(c, s, e) && u in s.replicas
    requires s.gateway.breakers.Keys == s.replicas.Keys && Agrees(s, u)
    ensures var seen, t := SeenBy(c, s, e, u), Step(c, windowSec, s, e);
            && u in t.replicas
            && if seen.None? then t.replicas[u] == s.replicas[u]
               else Prober.Enabled(s.replicas[u], seen.value)
                    && t.replicas[u] == Prober.Step(windowSec, s.replicas[u], seen.value)
  {
  }

  lemma {:induction false} RunGrows(
    windowSec: real, before: seq<Prober.Event>, seen: Option<Prober.Event>, run: seq<Prober.Event>, s: Prober.Health)
    requires Prober.Valid(windowSec, before, |before|) && s == Prober.At(windowSec, before, |before|)
    requires seen.Some? ==> Prober.Enabled(s, seen.value)
    requires run == if seen.Some? then before + [seen.value] else before
    ensures Prober.Valid(windowSec, run, |run|)
    ensures Prober.At(windowSec, run, |run|) == if seen.Some? then Prober.Step(windowSec, s, seen.value) else s
  {
    if seen.Some? {
      Prober.OneMore(windowSec, before, seen.value, run);
    }
  }

  /** And for each of its replicas a run of Prober, with the breaker that the
      requests are routed by: all that holds of one replica's runs holds of it. */
  lemma {:induction false} RunsAreProberRuns(
    c: Gateway.Config, windowSec: real, h: seq<Event>, n: nat, u: string, s: Sys, run: seq<Prober.Event>)
    requires n <= |h| && Valid(c, windowSec, h, n) && u in c.urls
    requires s == At(c, windowSec, h, n) && run == ReplicaRun(c, windowSec, h, n, u)
    ensures u in s.replicas && u in s.gateway.breakers && s.replicas[u].breaker == s.gateway.breakers[u]
    ensures Prober.Valid(windowSec, run, |run|) && Prober.At(windowSec, run, |run|) == s.replicas[u]
    decreases n
  {
    StaysCoupled(c, windowSec, h, n);
    assert Agrees(s, u);
    if n > 0 {
      var m, was := n - 1, At(c, windowSec, h, n - 1);
      var before, seen := ReplicaRun(c, windowSec, h, m, u), SeenBy(c, was, h[m], u);
      StaysCoupled(c, windowSec, h, m);
      RunsAreProberRuns(c, windowSec, h, m, u, was, before);
      assert Agrees(was, u);
      StepAt(c, windowSec, was, h[m], u);
      RunGrows(windowSec, before, seen, run, was.replicas[u]);
    }
  }

  lemma {:induction false} ReplicaRunGrows(c: Gateway.Config, windowSec: real, h: seq<Event>, m: nat, n: nat, u: string)
    requires m <= n <= |h| && Valid(c, windowSec, h, n)
    ensures Valid(c, windowSec, h, m)
    ensures ReplicaRun(c, windowSec, h, m, u) <= ReplicaRun(c, windowSec, h, n, u)
    decreases n
  {
    if m < n {
      ReplicaRunGrows(c, windowSec, h, m, n - 1, u);
    }
  }

  // ---- Where they meet ---------------------------------------------------

  /** Between these two states the breaker of u trips. */
  predicate Trips(s: Sys, t: Sys, u: string) {
    && u in s.replicas && s.replicas[u].breaker.Allows()
    && u in t.replicas && !t.replicas[u].breaker.Allows()
  }

  lemma {:induction false} PrefixOfRun(windowSec: real, x: seq<Prober.Event>, run: seq<Prober.Event>)
    requires x <= run
    ensures Prober.At(windowSec, run, |x|) == Prober.At(windowSec, x, |x|)
  {
    Prober.Prefix(windowSec, x, run[|x|..], |x|, |x|);
    assert run == x + run[|x|..];
  }

  /** The replica's own history at moment m is a prefix of its whole one. */
  lemma {:induction false} ReplicaAt(
    c: Gateway.Config, windowSec: real, h: seq<Event>, m: nat, n: nat, u: string, x: seq<Prober.Event>,
    run: seq<Prober.Event>, s: Sys)
    requires m <= n <= |h| && Valid(c, windowSec, h, n) && Valid(c, windowSec, h, m) && u in c.urls
    requires run == ReplicaRun(c, windowSec, h, n, u) && x == ReplicaRun(c, windowSec, h, m, u)
    requires s == At(c, windowSec, h, m)
    ensures |x| <= |run| && u in s.replicas && Prober.At(windowSec, run, |x|) == s.replicas[u]
  {
    ReplicaRunGrows(c, windowSec, h, m, n, u);
    RunsAreProberRuns(c, windowSec, h, m, u, s, x);
    PrefixOfRun(windowSec, x, run);
  }

  /** A trip is a trip in the replica's own run. */
  lemma {:induction false} TripIsSeen(
    c: Gateway.Config, windowSec: real, h: seq<Event>, i: nat, u: string, s: Sys, t: Sys)
    requires i < |h| && Valid(c, windowSec, h, i) && Valid(c, windowSec, h, i + 1)
    requires s == At(c, windowSec, h, i) && t == At(c, windowSec, h, i + 1) && Trips(s, t, u)
    ensures |ReplicaRun(c, windowSec, h, i + 1, u)| == |ReplicaRun(c, windowSec, h, i, u)| + 1
  {
    StaysCoupled(c, windowSec, h, i);
    assert Agrees(s, u);
    StepAt(c, windowSec, s, h[i], u);
  }

  lemma {:induction false} PickedClosed(
    c: Gateway.Config, windowSec: real, s: Sys, id: nat, now: real, u: string)
    requires Coupled(c, s) && c.enabled && Gateway.PoolOk(c, s.gateway)
    requires Enabled(c, s, Request(Gateway.Attempt(id, now)))
    requires var t := Step(c, windowSec, s, Request(Gateway.Attempt(id, now)));
             t.gateway.reqs[id].phase == Gateway.Sending(u)
    ensures u in c.urls && u in s.replicas && s.replicas[u].breaker.Allows() && s.replicas[u].clock <= now
  {
    Gateway.PicksWell(c, s.gateway, s.gateway.reqs[id], now);
    assert Agrees(s, u);
  }

  lemma {:induction false} SentWhileClosed(
    c: Gateway.Config, windowSec: real, h: seq<Event>, j: nat, u: string, id: nat, now: real, s: Sys, t: Sys)
    requires j < |h| && Valid(c, windowSec, h, j) && Valid(c, windowSec, h, j + 1) && c.enabled
    requires s == At(c, windowSec, h, j) && t == At(c, windowSec, h, j + 1)
    requires h[j] == Request(Gateway.Attempt(id, now))
    requires id in t.gateway.reqs && t.gateway.reqs[id].phase == Gateway.Sending(u)
    ensures u in c.urls && u in s.replicas && s.replicas[u].breaker.Allows() && s.replicas[u].clock <= now
  {
    var run := GatewayRun(c, windowSec, h, j);
    RunsAreGatewayRuns(c, windowSec, h, j);
    StaysCoupled(c, windowSec, h, j);
    Gateway.PoolInvariant(c, run, |run|);
    PickedClosed(c, windowSec, s, id, now, u);
  }

  lemma {:induction false} BackLate(
    windowSec: real, run: seq<Prober.Event>, k: nat, down: Prober.Health, up: Prober.Health, now: real)
    requires k + 1 <= |run| && Prober.Valid(windowSec, run, |run|) && Prober.At(windowSec, run, k).breaker.Allows()
    requires down == Prober.At(windowSec, run, k + 1) && !down.breaker.Allows()
    requires up == Prober.At(windowSec, run, |run|) && up.breaker.Allows() && up.clock <= now
    ensures down.breaker.openedAt.Some? && now - down.breaker.openedAt.value >= 20.0
  {
    Prober.BackInService(windowSec, run, k, |run|);
    Prober.OutageFloorClosedForm(0);
  }

  /** From the trip of u at event i to moment j, as u itself sees it. */
  lemma {:induction false} RunSinceTrip(
    c: Gateway.Config, windowSec: real, h: seq<Event>, i: nat, j: nat, u: string, before: Sys, tripped: Sys, s: Sys,
    run: seq<Prober.Event>, x: seq<Prober.Event>, y: seq<Prober.Event>)
    requires i < j <= |h| && u in c.urls
    requires Valid(c, windowSec, h, i) && Valid(c, windowSec, h, i + 1) && Valid(c, windowSec, h, j)
    requires before == At(c, windowSec, h, i) && tripped == At(c, windowSec, h, i + 1) && Trips(before, tripped, u)
    requires s == At(c, windowSec, h, j) && run == ReplicaRun(c, windowSec, h, j, u)
    requires x == ReplicaRun(c, windowSec, h, i, u) && y == ReplicaRun(c, windowSec, h, i + 1, u)
    ensures |x| + 1 == |y| <= |run|
    ensures Prober.At(windowSec, run, |x|) == before.replicas[u]
    ensures Prober.At(windowSec, run, |y|) == tripped.replicas[u]
  {
    ReplicaAt(c, windowSec, h, i, j, u, x, run, before);
    ReplicaAt(c, windowSec, h, i + 1, j, u, y, run, tripped);
    TripIsSeen(c, windowSec, h, i, u, before, tripped);
  }

  /** End to end: whatever scrapes, probes and other requests do, once event i has
      tripped a replica no attempt of any request is sent there for at least 20
      seconds after the trip's stamp. */
  lemma {:induction false} NoTrafficSoonAfterTrip(
    c: Gateway.Config, windowSec: real, h: seq<Event>, i: nat, j: nat, u: string, id: nat, now: real,
    before: Sys, tripped: Sys, picking: Sys, sending: Sys)
    requires i < j < |h| && Valid(c, windowSec, h, i) && Valid(c, windowSec, h, i + 1)
    requires Valid(c, windowSec, h, j) && Valid(c, windowSec, h, j + 1) && c.enabled
    requires before == At(c, windowSec, h, i) && tripped == At(c, windowSec, h, i + 1)
    requires picking == At(c, windowSec, h, j) && sending == At(c, windowSec, h, j + 1)
    requires Trips(before, tripped, u) && h[j] == Request(Gateway.Attempt(id, now))
    requires id in sending.gateway.reqs && sending.gateway.reqs[id].phase == Gateway.Sending(u)
    ensures tripped.replicas[u].breaker.openedAt.Some?
    ensures now - tripped.replicas[u].breaker.openedAt.value >= 20.0
  {
    SentWhileClosed(c, windowSec, h, j, u, id, now, picking, sending);
    var run, x := ReplicaRun(c, windowSec, h, j, u), ReplicaRun(c, windowSec, h, i, u);
    RunSinceTrip(
      c, windowSec, h, i, j, u, before, tripped, picking, run, x, ReplicaRun(c, windowSec, h, i + 1, u));
    RunsAreProberRuns(c, windowSec, h, j, u, picking, run);
    BackLate(windowSec, run, |x|, tripped.replicas[u], picking.replicas[u], now);
  }
}
