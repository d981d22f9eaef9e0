/** Whole histories of one breaker: what its counters mean in terms of the
    events it has seen. `At(h, n)` is the breaker after the first n events of h,
    so a statement about every n is a statement about every moment of the run. */
module BreakerHistory {
  import opened Basics
  import opened Breakers

  datatype Event =
    | Success(now: real)
    | Failure(kind: FailureKind, now: real)
    | WedgeCheck(suspected: bool, now: real)
    | Probe(ok: bool, suspected: bool, now: real)

  predicate GoodProbe(e: Event) {
    e.Probe? && e.ok && !e.suspected
  }

  function Step(b: Breaker, e: Event): Breaker {
    match e
    case Success(now) => b.OnSuccess()
    case Failure(kind, now) => b.OnFailure(kind, now)
    case WedgeCheck(suspected, now) => b.OnWedge(suspected, now)
    case Probe(ok, suspected, now) => b.OnProbe(ok, now, suspected)
  }

  function At(h: seq<Event>, n: nat): Breaker
    requires n <= |h|
  {
    if n == 0 then Fresh() else Step(At(h, n - 1), h[n - 1])
  }

  /** The prober looks for a wedge on closed breakers only and probes the others
      only; a request outcome is never classified as a wedge. */
  predicate Admissible(b: Breaker, e: Event) {
    match e
    case Success(now) => true
    case Failure(kind, now) => kind != Wedge
    case WedgeCheck(suspected, now) => b.state.Closed?
    case Probe(ok, suspected, now) => !b.state.Closed?
  }

  predicate Gated(h: seq<Event>, n: nat)
    requires n <= |h|
  {
    n == 0 || (Gated(h, n - 1) && Admissible(At(h, n - 1), h[n - 1]))
  }

  lemma {:induction false} PrefixDecides(x: seq<Event>, y: seq<Event>, n: nat)
    requires n <= |x|
    ensures At(x + y, n) == At(x, n) && Gated(x + y, n) == Gated(x, n)
  {
    if n > 0 {
      PrefixDecides(x, y, n - 1);
    }
  }

  /** One more call. */
  lemma {:induction false} OneMore(h: seq<Event>, e: Event, more: seq<Event>)
    requires more == h + [e]
    ensures At(more, |more|) == Step(At(h, |h|), e)
    ensures Gated(more, |more|) <==> Gated(h, |h|) && Admissible(At(h, |h|), e)
  {
    PrefixDecides(h, [e], |h|);
  }

  predicate ClosesAt(h: seq<Event>, i: nat)
    requires i < |h|
  {
    !At(h, i).state.Closed? && At(h, i + 1).state.Closed?
  }

  predicate OpensAt(h: seq<Event>, i: nat)
    requires i < |h|
  {
    At(h, i).state.Closed? && !At(h, i + 1).state.Closed?
  }

  // ---- Reachable states --------------------------------------------------

  /** One admissible event keeps a breaker sane, and keeps its timers in the
      past of any clock the event's stamp is in the past of. */
  lemma StepKeepsSane(b: Breaker, e: Event)
    requires Sane(b) && Admissible(b, e)
    ensures Sane(Step(b, e))
    ensures forall clock :: TimersPast(b, clock) && e.now <= clock ==> TimersPast(Step(b, e), clock)
  {
  }

  lemma {:induction false} ReachableSane(h: seq<Event>, n: nat)
    requires n <= |h| && Gated(h, n)
    ensures Sane(At(h, n))
  {
    if n > 0 {
      ReachableSane(h, n - 1);
      StepKeepsSane(At(h, n - 1), h[n - 1]);
    }
  }

  /** How many of the first n events closed the breaker. */
  function Closes(h: seq<Event>, n: nat): nat
    requires n <= |h|
  {
    if n == 0 then 0 else Closes(h, n - 1) + (if ClosesAt(h, n - 1) then 1 else 0)
  }

  /** Trips and closes alternate. */
  lemma {:induction false} TripsMinusCloses(h: seq<Event>, n: nat)
    requires n <= |h| && Gated(h, n)
    ensures At(h, n).trips - Closes(h, n) == if At(h, n).state.Closed? then 0 else 1
  {
    if n > 0 {
      TripsMinusCloses(h, n - 1);
      ReachableSane(h, n - 1);
    }
  }

  // ---- The score ---------------------------------------------------------

  predicate ResetAt(h: seq<Event>, i: nat)
    requires i < |h|
  {
    h[i].Success? || ClosesAt(h, i)
  }

  /** Just after the latest success or close among the first n events; 0 if none. */
  function LastReset(h: seq<Event>, n: nat): (r: nat)
    requires n <= |h|
    ensures r <= n
    ensures r > 0 ==> ResetAt(h, r - 1)
    ensures forall i :: r <= i < n ==> !ResetAt(h, i)
  {
    if n == 0 then 0 else if ResetAt(h, n - 1) then n else LastReset(h, n - 1)
  }

  /** The summed weight of the request failures among events lo..hi. */
  function FailureWeight(h: seq<Event>, lo: nat, hi: nat): int
    requires lo <= hi <= |h|
  {
    if lo == hi then 0
    else FailureWeight(h, lo, hi - 1) + (if h[hi - 1].Failure? then Weight(h[hi - 1].kind) else 0)
  }

  /** While closed, the incremental score is the summed weight of the request
      failures since the latest of start, success and close. */
  lemma {:induction false} ScoreIsFailureWeight(h: seq<Event>, n: nat)
    requires n <= |h| && Gated(h, n) && At(h, n).state.Closed?
    ensures At(h, n).score == FailureWeight(h, LastReset(h, n), n)
  {
    if n > 0 && !ResetAt(h, n - 1) {
      ReachableSane(h, n - 1);
      ScoreIsFailureWeight(h, n - 1);
    }
  }

  /** Some close among the first n events is both the latest and less than the
      probation time old. */
  predicate OnProbation(h: seq<Event>, n: nat, now: real)
    requires n <= |h|
  {
    n > 0 && (if ClosesAt(h, n - 1) then now < h[n - 1].now + PROBATION_SEC else OnProbation(h, n - 1, now))
  }

  function ThresholdInForce(h: seq<Event>, n: nat, now: real): int
    requires n <= |h|
  {
    if OnProbation(h, n, now) then TRIP_SCORE / 2 else TRIP_SCORE
  }

  lemma {:induction false} ThresholdIsProbation(h: seq<Event>, n: nat, now: real)
    requires n <= |h| && Gated(h, n) && 0.0 <= now
    ensures At(h, n).tripScore == TRIP_SCORE
    ensures At(h, n).Threshold(now) == ThresholdInForce(h, n, now)
  {
    if n > 0 {
      ThresholdIsProbation(h, n - 1, now);
      ReachableSane(h, n - 1);
    }
  }

  ghost predicate ConfirmedBy(h: seq<Event>, p: int, n: nat)
    requires n <= |h|
  {
    && 0 <= p < n
    && h[p].WedgeCheck? && h[p].suspected
    && (forall q :: p < q < n ==> !h[q].WedgeCheck? && !h[q].Success?)
    && (forall q :: p <= q <= n ==> At(h, q).state.Closed?)
  }

  /** The latest wedge check before event n was a confirmation, with no success
      since and the breaker closed throughout. */
  ghost predicate Confirmed(h: seq<Event>, n: nat)
    requires n <= |h|
  {
    exists p :: ConfirmedBy(h, p, n)
  }

  lemma {:induction false} ConfirmationsMeanConfirmed(h: seq<Event>, n: nat)
    requires n <= |h| && Gated(h, n) && At(h, n).state.Closed?
    ensures At(h, n).wedgeConfirmations == if Confirmed(h, n) then 1 else 0
  {
    if n > 0 {
      var b := At(h, n - 1);
      ReachableSane(h, n - 1);
      if b.state.Closed? {
        ConfirmationsMeanConfirmed(h, n - 1);
        if h[n - 1] == WedgeCheck(true, h[n - 1].now) {
          assert ConfirmedBy(h, n - 1, n);
        } else if h[n - 1].Failure? {
          if Confirmed(h, n - 1) {
            var p :| ConfirmedBy(h, p, n - 1);
            assert ConfirmedBy(h, p, n);
          }
          if Confirmed(h, n) {
            var p :| ConfirmedBy(h, p, n);
            assert ConfirmedBy(h, p, n - 1);
          }
        } else {
          assert !Confirmed(h, n);
        }
      } else {
        assert !Confirmed(h, n);
      }
    }
  }

  /** A closed breaker opens at exactly one of two moments: a request failure
      that carries weight and brings the sum since the last reset to the
      threshold in force, or a wedge check that confirms the one before it. */
  lemma OpensExactlyAtThreshold(h: seq<Event>, n: nat)
    requires n < |h| && Gated(h, n + 1) && At(h, n).state.Closed? && 0.0 <= h[n].now
    ensures OpensAt(h, n) <==>
              || (h[n].Failure? && Weight(h[n].kind) > 0
                  && FailureWeight(h, LastReset(h, n), n) + Weight(h[n].kind)
                     >= ThresholdInForce(h, n, h[n].now))
              || (h[n].WedgeCheck? && h[n].suspected && Confirmed(h, n))
    ensures OpensAt(h, n) ==> At(h, n + 1).state.Open? && At(h, n + 1).openedAt == Some(h[n].now)
  {
    ReachableSane(h, n);
    ScoreIsFailureWeight(h, n);
    ThresholdIsProbation(h, n, h[n].now);
    ConfirmationsMeanConfirmed(h, n);
  }

  /** How many of the events lo..hi are failures of this kind. */
  function Count(h: seq<Event>, lo: nat, hi: nat, kind: FailureKind): nat
    requires lo <= hi <= |h|
  {
    if lo == hi then 0
    else Count(h, lo, hi - 1, kind) + (if h[hi - 1].Failure? && h[hi - 1].kind == kind then 1 else 0)
  }

  lemma {:induction false} WeightInCounts(h: seq<Event>, lo: nat, hi: nat)
    requires lo <= hi <= |h| && Gated(h, hi)
    ensures FailureWeight(h, lo, hi)
         == 3 * (Count(h, lo, hi, Connect) + Count(h, lo, hi, ReadTimeout)) + Count(h, lo, hi, ServerError)
    decreases hi
  {
    if lo < hi {
      WeightInCounts(h, lo, hi - 1);
    }
  }

  ghost predicate LatestClose(h: seq<Event>, i: int, n: nat)
    requires n <= |h|
  {
    0 <= i < n && ClosesAt(h, i) && forall j :: i < j < n ==> !ClosesAt(h, j)
  }

  /** The latest close before event n is less than a minute old. */
  ghost predicate JustClosed(h: seq<Event>, n: nat, now: real)
    requires n <= |h|
  {
    exists i :: LatestClose(h, i, n) && now < h[i].now + 60.0
  }

  lemma {:induction false} ProbationMeansJustClosed(h: seq<Event>, n: nat, now: real)
    requires n <= |h|
    ensures OnProbation(h, n, now) <==> JustClosed(h, n, now)
  {
    if n > 0 {
      if ClosesAt(h, n - 1) {
        assert LatestClose(h, n - 1, n);
      } else {
        ProbationMeansJustClosed(h, n - 1, now);
        forall i ensures LatestClose(h, i, n) <==> LatestClose(h, i, n - 1) {
        }
      }
    }
  }

  lemma {:induction false} SumInCounts(h: seq<Event>, n: nat, lo: nat)
    requires lo <= n < |h| && Gated(h, n + 1) && h[n].Failure?
    ensures FailureWeight(h, lo, n) + Weight(h[n].kind)
         == 3 * (Count(h, lo, n + 1, Connect) + Count(h, lo, n + 1, ReadTimeout)) + Count(h, lo, n + 1, ServerError)
    ensures Weight(h[n].kind) > 0 <==> h[n].kind in {Connect, ReadTimeout, ServerError}
  {
    WeightInCounts(h, lo, n + 1);
  }

  /** In numbers: a failure opens a closed breaker exactly if it is a failed
      connect, a read timeout or a server error, and three times the former two
      plus the latter, since the latest of start, success and close, reach 6, or
      3 less than a minute after a close. */
  lemma {:induction false} OpensInCounts(h: seq<Event>, n: nat, lo: nat)
    requires n < |h| && Gated(h, n + 1) && At(h, n).state.Closed? && 0.0 <= h[n].now && h[n].Failure?
    requires lo == LastReset(h, n)
    ensures OpensAt(h, n) <==>
              && h[n].kind in {Connect, ReadTimeout, ServerError}
              && 3 * (Count(h, lo, n + 1, Connect) + Count(h, lo, n + 1, ReadTimeout))
                 + Count(h, lo, n + 1, ServerError)
                 >= if JustClosed(h, n, h[n].now) then 3 else 6
  {
    OpensExactlyAtThreshold(h, n);
    ProbationMeansJustClosed(h, n, h[n].now);
    SumInCounts(h, n, lo);
  }

  /** Request outcomes and probes are stamped in order; the stamp of a wedge
      check may be old, because it is read once per pass over all replicas. */
  ghost predicate Ordered(h: seq<Event>) {
    forall i, j :: 0 <= i < j < |h| && !h[i].WedgeCheck? && !h[j].WedgeCheck? ==> h[i].now <= h[j].now
  }

  /** With ordered stamps a closed breaker is always strictly below the threshold
      in force, so it opened at the first failure that could have opened it. */
  lemma {:induction false} ClosedIsBelowThreshold(h: seq<Event>, n: nat, now: real)
    requires n <= |h| && Gated(h, n) && Ordered(h) && At(h, n).state.Closed?
    requires forall i :: 0 <= i < n && !h[i].WedgeCheck? ==> h[i].now <= now
    ensures At(h, n).score < At(h, n).Threshold(now)
  {
    if n > 0 {
      ReachableSane(h, n - 1);
      if At(h, n - 1).state.Closed? {
        ClosedIsBelowThreshold(h, n - 1, now);
      }
    }
  }

  /** What the clock guarantees of a history up to the moment `clock`: no stamp is
      negative, and those of outcomes and probes are in order and not ahead. */
  ghost predicate Timed(h: seq<Event>, clock: real) {
    && Ordered(h)
    && forall i :: 0 <= i < |h| ==> 0.0 <= h[i].now && (h[i].WedgeCheck? || h[i].now <= clock)
  }

  lemma OneMoreTimed(h: seq<Event>, clock: real, e: Event, later: real, more: seq<Event>)
    requires Timed(h, clock) && more == h + [e] && clock <= later
    requires 0.0 <= e.now && (e.WedgeCheck? || clock <= e.now <= later)
    ensures Timed(more, later)
  {
  }

  // ---- Reclosing ---------------------------------------------------------

  ghost predicate PendingBy(h: seq<Event>, p: int, n: nat)
    requires n <= |h|
  {
    && 0 <= p < n
    && GoodProbe(h[p])
    && (forall q :: p < q < n ==> !h[q].Probe?)
    && (forall q :: p <= q <= n ==> !At(h, q).state.Closed?)
  }

  /** The latest probe before event n was good and belongs to the outage that is
      still on. */
  ghost predicate GoodProbePending(h: seq<Event>, n: nat)
    requires n <= |h|
  {
    exists p :: PendingBy(h, p, n)
  }

  lemma {:induction false} HalfOpenMeansPending(h: seq<Event>, n: nat)
    requires n <= |h| && Gated(h, n)
    ensures At(h, n).state.HalfOpen? <==> GoodProbePending(h, n)
  {
    if n > 0 {
      HalfOpenMeansPending(h, n - 1);
      ReachableSane(h, n - 1);
      if h[n - 1].Probe? {
        if At(h, n).state.HalfOpen? {
          assert PendingBy(h, n - 1, n);
        }
      } else {
        if GoodProbePending(h, n - 1) {
          var p :| PendingBy(h, p, n - 1);
          assert PendingBy(h, p, n);
        }
        if GoodProbePending(h, n) {
          var p :| PendingBy(h, p, n);
          assert PendingBy(h, p, n - 1);
        }
      }
    }
  }

  /** A breaker closes at exactly the second of two good probes in a row within
      one outage. No request outcome and no wedge check ever closes it. */
  lemma ClosesExactlyOnSecondGoodProbe(h: seq<Event>, n: nat)
    requires n < |h| && Gated(h, n + 1) && !At(h, n).state.Closed?
    ensures ClosesAt(h, n) <==> GoodProbe(h[n]) && GoodProbePending(h, n)
  {
    HalfOpenMeansPending(h, n);
    ReachableSane(h, n);
  }

  // ---- Erasure -----------------------------------------------------------

  /** Events that must not matter: outcomes without weight, and any request
      outcome that lands while the breaker is not closed. */
  predicate Noise(b: Breaker, e: Event) {
    || (e.Failure? && Weight(e.kind) == 0)
    || (!b.state.Closed? && (e.Success? || e.Failure?))
  }

  function Erase(h: seq<Event>, n: nat): seq<Event>
    requires n <= |h|
  {
    if n == 0 then []
    else if Noise(At(h, n - 1), h[n - 1]) then Erase(h, n - 1)
    else Erase(h, n - 1) + [h[n - 1]]
  }

  /** Equal but for the two counters nobody reads outside CLOSED. */
  predicate SameDecisions(a: Breaker, b: Breaker) {
    && a.(score := 0, wedgeConfirmations := 0) == b.(score := 0, wedgeConfirmations := 0)
    && (a.state.Closed? ==> a == b)
  }

  lemma SameDecisionsStep(a: Breaker, b: Breaker, e: Event)
    requires SameDecisions(a, b)
    ensures SameDecisions(Step(a, e), Step(b, e))
    ensures Noise(a, e) ==> SameDecisions(Step(a, e), b)
  {
    assert b == a.(score := b.score, wedgeConfirmations := b.wedgeConfirmations);
  }

  /** Deleting all noise from any history, whatever its stamps and whether or not
      the prober kept to its gates, changes no state, timer, trip count, routing
      decision, probe decision or advertised wait at any moment. */
  lemma {:induction false} ErasingNoise(h: seq<Event>, n: nat, now: real)
    requires n <= |h|
    ensures var a, b := At(h, n), At(Erase(h, n), |Erase(h, n)|);
            && SameDecisions(a, b)
            && a.Allows() == b.Allows()
            && a.DueForProbe(now) == b.DueForProbe(now)
            && a.SecondsUntilProbe(now) == b.SecondsUntilProbe(now)
  {
    if n > 0 {
      ErasingNoise(h, n - 1, now);
      var kept := Erase(h, n - 1);
      SameDecisionsStep(At(h, n - 1), At(kept, |kept|), h[n - 1]);
      if !Noise(At(h, n - 1), h[n - 1]) {
        OneMore(kept, h[n - 1], kept + [h[n - 1]]);
      }
    }
  }

  lemma {:induction false} ErasureStep(h: seq<Event>, n: nat)
    requires n < |h|
    ensures || Erase(h, n + 1) == Erase(h, n) + [h[n]]
            || (Erase(h, n + 1) == Erase(h, n) && (h[n].Success? || h[n].Failure?))
  {
  }

  lemma {:induction false} ErasureKeepsTheRest(h: seq<Event>, n: nat, e: Event)
    requires n <= |h| && (e.WedgeCheck? || e.Probe?)
    ensures multiset(Erase(h, n))[e] == multiset(h[..n])[e]
  {
    if n > 0 {
      var kept, last := Erase(h, n - 1), h[n - 1];
      ErasureKeepsTheRest(h, n - 1, e);
      CountOneMore(h[..n], h[..n - 1], last, e);
      ErasureStep(h, n - 1);
      if Erase(h, n) == kept + [last] {
        CountOneMore(Erase(h, n), kept, last, e);
      }
    }
  }

  /** Nothing that must not matter is left: no 429, no client error, and no request
      outcome while the breaker is not closed. */
  lemma {:induction false} NoNoiseIsLeft(h: seq<Event>, n: nat, i: nat)
    requires n <= |h| && i < |Erase(h, n)|
    ensures var o := Erase(h, n)[i];
            && !(o.Failure? && (o.kind == Throttled || o.kind == ClientError))
            && (o.Success? || o.Failure? ==> At(Erase(h, n), i).state.Closed?)
  {
    var kept, last := Erase(h, n - 1), h[n - 1];
    if i < |kept| {
      NoNoiseIsLeft(h, n - 1, i);
      PrefixDecides(kept, [last], i);
    } else {
      ErasingNoise(h, n - 1, 0.0);
      PrefixDecides(kept, [last], i);
    }
  }

  /** And all the rest is: every wedge check and every probe. */
  lemma {:induction false} ErasureIsThorough(h: seq<Event>, n: nat, e: Event)
    requires n <= |h|
    ensures forall i :: 0 <= i < |Erase(h, n)| ==>
              var o := Erase(h, n)[i];
              && !(o.Failure? && (o.kind == Throttled || o.kind == ClientError))
              && (o.Success? || o.Failure? ==> At(Erase(h, n), i).state.Closed?)
    ensures e.WedgeCheck? || e.Probe? ==> multiset(Erase(h, n))[e] == multiset(h[..n])[e]
  {
    forall i | 0 <= i < |Erase(h, n)|
      ensures var o := Erase(h, n)[i];
              && !(o.Failure? && (o.kind == Throttled || o.kind == ClientError))
              && (o.Success? || o.Failure? ==> At(Erase(h, n), i).state.Closed?)
    {
      NoNoiseIsLeft(h, n, i);
    }
    if e.WedgeCheck? || e.Probe? {
      ErasureKeepsTheRest(h, n, e);
    }
  }

  /** So two histories that differ only in noise can never be told apart. */
  lemma {:induction false} NoiseIsInvisible(g: seq<Event>, h: seq<Event>, now: real)
    requires Erase(g, |g|) == Erase(h, |h|)
    ensures SameDecisions(At(g, |g|), At(h, |h|))
    ensures At(g, |g|).Allows() == At(h, |h|).Allows()
    ensures At(g, |g|).DueForProbe(now) == At(h, |h|).DueForProbe(now)
  {
    ErasingNoise(g, |g|, now);
    ErasingNoise(h, |h|, now);
  }
}
