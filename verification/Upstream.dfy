/** The mutable pool: registry, pick, and the bounded retry loop
    (gateway/upstream/breaker.py BreakerRegistry, gateway/upstream/client.py
    UpstreamPool).

    Other tasks run at every await of the retry loop. What they do there is an
    arbitrary function of the state they find, so that nothing a call does
    before an await is lost from what is said about the state after it. */
module Upstream {
  import opened Basics
  import opened Breakers
  import opened Pool

  class BreakerRegistry {
    var breakers: map<string, ReplicaBreaker>

    /** Every breaker is filed under its own URL, so no two URLs share one. */
    ghost predicate Valid()
      reads this, breakers.Values
    {
      forall u :: u in breakers ==> breakers[u].url == u && breakers[u].tripScore == TRIP_SCORE
    }

    function Views(): map<string, Breaker>
      reads this, breakers.Values
    {
      map u | u in breakers :: breakers[u].View()
    }

    constructor ()
      ensures Valid() && breakers == map[]
    {
      breakers := map[];
    }

    method Reset(urls: seq<string>)
      modifies this
      ensures Valid() && fresh(breakers.Values)
      ensures breakers.Keys == set u | u in urls
      ensures Views() == map u | u in urls :: Fresh()
    {
      var built: map<string, ReplicaBreaker> := map[];
      for i := 0 to |urls|
        invariant built.Keys == set u | u in urls[..i]
        invariant forall u :: u in built ==>
          fresh(built[u]) && built[u].url == u && built[u].tripScore == TRIP_SCORE && built[u].View() == Fresh()
      {
        var b := new ReplicaBreaker(urls[i]);
        built := built[urls[i] := b];
      }
      breakers := built;
    }

    method Get(url: string) returns (b: ReplicaBreaker)
      requires Valid()
      modifies this
      ensures Valid() && fresh(breakers.Values - old(breakers.Values))
      ensures breakers.Keys == old(breakers.Keys) + {url} && b == breakers[url]
      ensures url in old(breakers) ==> breakers == old(breakers)
      ensures b.View() == old(BreakerOf(Views(), url))
      ensures Views() == old(Views())[url := old(BreakerOf(Views(), url))]
    {
      if url !in breakers {
        var made := new ReplicaBreaker(url);
        breakers := breakers[url := made];
      }
      b := breakers[url];
    }

    method Fold(url: string, o: Outcome, now: real, ghost views: map<string, Breaker>, ghost was: Breaker)
      requires Valid() && url in breakers && breakers[url].View() == was
      requires Views() == views[url := was]
      modifies breakers[url]
      ensures Valid()
      ensures Views() == views[url := Recorded(was, o, now)]
    {
      var kind := Classify(o);
      if kind.None? {
        breakers[url].RecordSuccess(now);
      } else {
        breakers[url].RecordFailure(kind.value, now);
      }
    }

    /** The breakers as other tasks leave them. */
    method Become(views: map<string, Breaker>)
      requires Valid() && views.Keys == breakers.Keys
      requires forall u :: u in views ==> views[u].tripScore == TRIP_SCORE
      modifies breakers.Values
      ensures Valid() && Views() == views
    {
      var todo := breakers.Keys;
      while todo != {}
        invariant todo <= breakers.Keys && breakers == old(breakers)
        invariant forall u :: u in breakers && u !in todo ==> breakers[u].View() == views[u]
        decreases |todo|
      {
        var u :| u in todo;
        breakers[u].Become(views[u]);
        todo := todo - {u};
      }
    }

    /** One outcome moves one breaker. */
    method RecordFor(url: string, o: Outcome, now: real)
      requires Valid()
      modifies this, breakers.Values
      ensures Valid() && fresh(breakers.Values - old(breakers.Values))
      ensures breakers.Keys == old(breakers.Keys) + {url}
      ensures url in old(breakers) ==> breakers == old(breakers)
      ensures Views() == old(Views())[url := Recorded(old(BreakerOf(Views(), url)), o, now)]
    {
      ghost var views := Views();
      ghost var was := BreakerOf(views, url);
      var b := Get(url);
      Fold(url, o, now, views, was);
    }
  }

  /** What a pool's decisions depend on. */
  datatype World = World(next: nat, breakers: map<string, Breaker>)

  predicate AllIn(urls: seq<string>, known: set<string>) {
    forall u :: u in urls ==> u in known
  }

  predicate Fits(urls: seq<string>, w: World) {
    && w.next < |urls|
    && AllIn(urls, w.breakers.Keys)
    && (forall u :: u in w.breakers ==> w.breakers[u].tripScore == TRIP_SCORE)
  }

  /** The state that other tasks make of w: anything at all, as long as the list of
      replicas and their set of breakers stay. */
  function Meanwhile(urls: seq<string>, w: World, others: World -> World): World {
    var v := others(w);
    if Fits(urls, v) && v.breakers.Keys == w.breakers.Keys then v else w
  }

  /** Any state at all can come of it that has a valid cursor and the same set of
      breakers, and no other. */
  lemma MeanwhileAnything(urls: seq<string>, w: World, v: World, f: World -> World)
    requires Fits(urls, w)
    ensures v.breakers.Keys == w.breakers.Keys && Fits(urls, v) && f(w) == v ==> Meanwhile(urls, w, f) == v
    ensures Fits(urls, Meanwhile(urls, w, f)) && Meanwhile(urls, w, f).breakers.Keys == w.breakers.Keys
  {
  }

  /** One attempt as far as it is not the pool's doing: what the send comes back
      with, the clock readings, and what other tasks do during the send and
      between this attempt and the next. */
  datatype Trial = Trial(
    reply: Outcome, pickedAt: real, recordedAt: real, during: World -> World, between: World -> World)

  datatype CallResult =
    | Delivered(upstream: string, status: int)
    | Unreachable(upstream: string)
    | NoReplica(retryAfter: real)

  /** What an attempt that is not retried ends the call with. */
  function Final(url: string, o: Outcome): CallResult {
    if o.Response? then Delivered(url, o.status) else Unreachable(url)
  }

  /** One attempt, and the states in which it was picked for, came back, and had
      been recorded. */
  datatype Attempt = Attempt(
    exclude: Option<string>, pickedIn: World, upstream: string, outcome: Outcome, returnedIn: World, recordedIn: World)

  datatype Call = Call(result: CallResult, log: seq<Attempt>, closed: nat, world: World)

  function PickIn(urls: seq<string>, enabled: bool, w: World, exclude: Option<string>, now: real): (Pick, World)
    requires urls != []
  {
    var (p, next) := PickFrom(urls, w.breakers, w.next, exclude, now, enabled);
    (p, w.(next := next))
  }

  function RecordIn(w: World, url: string, o: Outcome, now: real): World {
    w.(breakers := w.breakers[url := Recorded(BreakerOf(w.breakers, url), o, now)])
  }

  /** Pick, send, record. */
  function TryIn(urls: seq<string>, enabled: bool, w: World, exclude: Option<string>, t: Trial): (Pick, World)
    requires urls != []
  {
    var (p, sent) := PickIn(urls, enabled, w, exclude, t.pickedAt);
    if p.AllOpen? then (p, sent) else (p, RecordIn(Meanwhile(urls, sent, t.during), p.url, t.reply, t.recordedAt))
  }

  predicate Again(n: nat, o: Outcome) {
    !Succeeds(o) && n + 1 < MAX_ATTEMPTS && ShouldRetry(o)
  }

  /** A call from its attempt n on. */
  function CallIn(
    urls: seq<string>, enabled: bool, stream: bool, w: World, exclude: Option<string>, trials: seq<Trial>, n: nat): Call
    requires urls != [] && n < |trials| == MAX_ATTEMPTS
    decreases MAX_ATTEMPTS - n
  {
    var t := trials[n];
    var sent := PickIn(urls, enabled, w, exclude, t.pickedAt).1;
    var (p, after) := TryIn(urls, enabled, w, exclude, t);
    if p.AllOpen? then Call(NoReplica(p.retryAfter), [], 0, after)
    else
      var a := Attempt(exclude, w, p.url, t.reply, Meanwhile(urls, sent, t.during), after);
      if !Again(n, t.reply) then Call(Final(p.url, t.reply), [a], 0, after)
      else
        var rest := CallIn(urls, enabled, stream, Meanwhile(urls, after, t.between), Some(p.url), trials, n + 1);
        rest.(log := [a] + rest.log, closed := rest.closed + if stream && t.reply.Response? then 1 else 0)
  }

  // ---- What a call promises ----------------------------------------------

  /** With the breaker enabled an attempt starts on a listed replica that is
      closed at that moment, and elsewhere than the excluded one whenever another
      is closed. */
  ghost predicate WellRouted(urls: seq<string>, enabled: bool, a: Attempt) {
    && a.upstream in urls
    && (enabled ==> BreakerOf(a.pickedIn.breakers, a.upstream).Allows())
    && (enabled && a.exclude == Some(a.upstream) ==>
          forall v :: v in urls && BreakerOf(a.pickedIn.breakers, v).Allows() ==> v == a.upstream)
  }

  /** It comes back to what other tasks made, during the send, of the state it was
      sent in: the one picked in, but for the cursor. */
  ghost predicate CameBack(urls: seq<string>, a: Attempt, t: Trial) {
    exists next :: a.returnedIn == Meanwhile(urls, a.pickedIn.(next := next), t.during)
  }

  /** It is recorded once, in the breaker of the replica it used, as it stands
      when the send comes back; nothing else moves. */
  ghost predicate RecordedOnce(a: Attempt, now: real) {
    var was, b := a.returnedIn.breakers, a.recordedIn.breakers;
    && a.recordedIn.next == a.returnedIn.next
    && b.Keys == was.Keys + {a.upstream}
    && (forall u :: u in was && u != a.upstream ==> b[u] == was[u])
    && BreakerOf(b, a.upstream)
       == (if Succeeds(a.outcome) then BreakerOf(was, a.upstream).OnSuccess()
           else if a.outcome.Raised? then
             BreakerOf(was, a.upstream).OnFailure(if a.outcome.readTimeout then ReadTimeout else Connect, now)
           else if a.outcome.status == 429 then BreakerOf(was, a.upstream).OnFailure(Throttled, now)
           else BreakerOf(was, a.upstream).OnFailure(if a.outcome.status >= 500 then ServerError else ClientError, now))
  }

  ghost predicate Sound(urls: seq<string>, enabled: bool, a: Attempt, t: Trial) {
    a.outcome == t.reply && WellRouted(urls, enabled, a) && CameBack(urls, a, t) && RecordedOnce(a, t.recordedAt)
  }

  /** The outcomes after which a second attempt is made. */
  predicate MayRetry(o: Outcome) {
    if o.Raised? then !o.readTimeout else o.status == 429 || o.status == 502 || o.status == 503 || o.status == 504
  }

  /** Each attempt goes and is recorded as it must. The first starts the call; a
      second follows a retryable first, avoids its replica, and starts in what
      other tasks made of the state it left. */
  ghost predicate AttemptsKeep(urls: seq<string>, enabled: bool, w: World, trials: seq<Trial>, log: seq<Attempt>)
    requires |trials| == MAX_ATTEMPTS
  {
    && |log| <= MAX_ATTEMPTS
    && (forall i :: 0 <= i < |log| ==> Sound(urls, enabled, log[i], trials[i]))
    && (|log| > 0 ==> log[0].pickedIn == w && log[0].exclude.None?)
    && (|log| > 1 ==>
          && MayRetry(log[0].outcome) && log[1].exclude == Some(log[0].upstream)
          && log[1].pickedIn == Meanwhile(urls, log[0].recordedIn, trials[0].between))
  }

  /** A call ends with its last attempt's outcome, not before a retry that was due;
      or, with an attempt left, because no replica is closed. */
  ghost predicate EndKeeps(urls: seq<string>, enabled: bool, w: World, trials: seq<Trial>, c: Call)
    requires urls != [] && |trials| == MAX_ATTEMPTS && |c.log| <= MAX_ATTEMPTS
  {
    if c.result.NoReplica? then
      && enabled && |c.log| < MAX_ATTEMPTS
      && c.world == (if c.log == [] then w else Meanwhile(urls, c.log[0].recordedIn, trials[0].between))
      && (forall u :: u in urls ==> !BreakerOf(c.world.breakers, u).Allows())
      && c.result.retryAfter == MinWait(urls, c.world.breakers, trials[|c.log|].pickedAt)
    else
      && c.log != []
      && var last := c.log[|c.log| - 1];
      && c.world == last.recordedIn
      && c.result == (if last.outcome.Raised? then Unreachable(last.upstream)
                      else Delivered(last.upstream, last.outcome.status))
      && (|c.log| == 1 ==> !MayRetry(last.outcome))
  }

  /** Every streamed response but the delivered one has been closed. */
  predicate ResponsesKeep(stream: bool, c: Call)
    requires |c.log| <= MAX_ATTEMPTS
  {
    c.closed + (if stream && c.result.Delivered? then 1 else 0)
    == if !stream then 0
       else (if |c.log| > 0 && c.log[0].outcome.Response? then 1 else 0)
            + (if |c.log| > 1 && c.log[1].outcome.Response? then 1 else 0)
  }

  /** What a call that starts in state w promises. */
  ghost predicate Keeps(urls: seq<string>, enabled: bool, stream: bool, w: World, trials: seq<Trial>, c: Call)
    requires urls != [] && |trials| == MAX_ATTEMPTS
  {
    AttemptsKeep(urls, enabled, w, trials, c.log) && EndKeeps(urls, enabled, w, trials, c) && ResponsesKeep(stream, c)
  }

  lemma {:induction false} PickIsRouted(urls: seq<string>, enabled: bool, a: Attempt, now: real)
    requires urls != [] && PickIn(urls, enabled, a.pickedIn, a.exclude, now).0 == Picked(a.upstream)
    ensures WellRouted(urls, enabled, a)
  {
    PickKnown(urls, a.pickedIn.breakers, a.pickedIn.next, a.exclude, now, enabled, a.upstream);
    PickIsSafe(urls, a.pickedIn.breakers, a.pickedIn.next, a.exclude, now);
  }

  lemma RecordIsOnce(a: Attempt, now: real)
    requires a.recordedIn == RecordIn(a.returnedIn, a.upstream, a.outcome, now)
    ensures RecordedOnce(a, now)
  {
  }

  lemma {:induction false} AttemptIsSound(urls: seq<string>, enabled: bool, a: Attempt, t: Trial, sent: World)
    requires urls != [] && a.outcome == t.reply
    requires PickIn(urls, enabled, a.pickedIn, a.exclude, t.pickedAt) == (Picked(a.upstream), sent)
    requires a.returnedIn == Meanwhile(urls, sent, t.during)
    requires a.recordedIn == RecordIn(a.returnedIn, a.upstream, t.reply, t.recordedAt)
    ensures Sound(urls, enabled, a, t)
  {
    PickIsRouted(urls, enabled, a, t.pickedAt);
    RecordIsOnce(a, t.recordedAt);
    assert sent == a.pickedIn.(next := sent.next);
    assert CameBack(urls, a, t);
  }

  /** What a call comes to that has but one attempt left, with nothing to retry
      after it. */
  ghost predicate LastOne(urls: seq<string>, enabled: bool, w: World, exclude: Option<string>, t: Trial, c: Call)
    requires urls != []
  {
    if c.log == [] then
      && enabled && c.world == w && c.closed == 0
      && (forall u :: u in urls ==> !BreakerOf(w.breakers, u).Allows())
      && c.result == NoReplica(MinWait(urls, w.breakers, t.pickedAt))
    else
      && |c.log| == 1 && c.closed == 0
      && var a := c.log[0];
      && a.pickedIn == w && a.exclude == exclude && Sound(urls, enabled, a, t)
      && c.result == Final(a.upstream, a.outcome) && c.world == a.recordedIn
  }

  lemma {:induction false} LastAttempt(
    urls: seq<string>, enabled: bool, stream: bool, w: World, exclude: Option<string>, trials: seq<Trial>, n: nat,
    c: Call)
    requires urls != [] && n < |trials| == MAX_ATTEMPTS && c == CallIn(urls, enabled, stream, w, exclude, trials, n)
    requires PickIn(urls, enabled, w, exclude, trials[n].pickedAt).0.AllOpen? || !Again(n, trials[n].reply)
    ensures LastOne(urls, enabled, w, exclude, trials[n], c)
  {
    if c.log != [] {
      AttemptIsSound(urls, enabled, c.log[0], trials[n], PickIn(urls, enabled, w, exclude, trials[n].pickedAt).1);
    } else {
      PickIsSafe(urls, w.breakers, w.next, exclude, trials[n].pickedAt);
    }
  }

  lemma {:induction false} OneAttempt(
    urls: seq<string>, enabled: bool, stream: bool, w: World, trials: seq<Trial>, c: Call)
    requires urls != [] && |trials| == MAX_ATTEMPTS && LastOne(urls, enabled, w, None, trials[0], c)
    requires c.log != [] ==> !Again(0, trials[0].reply)
    ensures Keeps(urls, enabled, stream, w, trials, c)
  {
  }

  lemma {:induction false} TwoSound(
    urls: seq<string>, enabled: bool, w: World, trials: seq<Trial>, log: seq<Attempt>, a: Attempt, rest: seq<Attempt>)
    requires |trials| == MAX_ATTEMPTS && log == [a] + rest && |rest| <= 1
    requires a.pickedIn == w && a.exclude.None? && Sound(urls, enabled, a, trials[0]) && ShouldRetry(a.outcome)
    requires rest != [] ==>
               && rest[0].exclude == Some(a.upstream) && Sound(urls, enabled, rest[0], trials[1])
               && rest[0].pickedIn == Meanwhile(urls, a.recordedIn, trials[0].between)
    ensures AttemptsKeep(urls, enabled, w, trials, log)
  {
    forall i | 0 <= i < |log| ensures Sound(urls, enabled, log[i], trials[i]) {
      assert log[i] == if i == 0 then a else rest[0];
    }
  }

  lemma {:induction false} TwoEnd(
    urls: seq<string>, enabled: bool, w: World, trials: seq<Trial>, c: Call, a: Attempt, rest: Call, next: World)
    requires urls != [] && |trials| == MAX_ATTEMPTS && next == Meanwhile(urls, a.recordedIn, trials[0].between)
    requires LastOne(urls, enabled, next, Some(a.upstream), trials[1], rest)
    requires c.log == [a] + rest.log && c.result == rest.result && c.world == rest.world
    ensures EndKeeps(urls, enabled, w, trials, c)
  {
  }

  lemma {:induction false} TwoResponses(stream: bool, c: Call, a: Attempt, rest: Call)
    requires |rest.log| <= 1 && rest.closed == 0
    requires rest.result.Delivered? <==> rest.log != [] && rest.log[0].outcome.Response?
    requires c.log == [a] + rest.log && c.result == rest.result
    requires c.closed == if stream && a.outcome.Response? then 1 else 0
    ensures ResponsesKeep(stream, c)
  {
    assert c.log[1..] == rest.log && c.log[0] == a;
  }

  lemma {:induction false} TwoAttempts(
    urls: seq<string>, enabled: bool, stream: bool, w: World, trials: seq<Trial>, c: Call, a: Attempt, rest: Call,
    next: World)
    requires urls != [] && |trials| == MAX_ATTEMPTS && ShouldRetry(a.outcome)
    requires a.pickedIn == w && a.exclude.None? && Sound(urls, enabled, a, trials[0])
    requires next == Meanwhile(urls, a.recordedIn, trials[0].between)
    requires LastOne(urls, enabled, next, Some(a.upstream), trials[1], rest)
    requires c == rest.(log := [a] + rest.log, closed := if stream && a.outcome.Response? then 1 else 0)
    ensures Keeps(urls, enabled, stream, w, trials, c)
  {
    TwoSound(urls, enabled, w, trials, c.log, a, rest.log);
    TwoEnd(urls, enabled, w, trials, c, a, rest, next);
    TwoResponses(stream, c, a, rest);
  }

  /** Every call, whatever it meets and whatever other tasks do, keeps it. */
  lemma {:induction false} CallPromises(
    urls: seq<string>, enabled: bool, stream: bool, w: World, trials: seq<Trial>, c: Call)
    requires urls != [] && |trials| == MAX_ATTEMPTS && c == CallIn(urls, enabled, stream, w, None, trials, 0)
    ensures Keeps(urls, enabled, stream, w, trials, c)
  {
    var t := trials[0];
    var (p, after) := TryIn(urls, enabled, w, None, t);
    if p.AllOpen? || !Again(0, t.reply) {
      LastAttempt(urls, enabled, stream, w, None, trials, 0, c);
      OneAttempt(urls, enabled, stream, w, trials, c);
    } else {
      var next := Meanwhile(urls, after, t.between);
      var rest := CallIn(urls, enabled, stream, next, Some(p.url), trials, 1);
      LastAttempt(urls, enabled, stream, next, Some(p.url), trials, 1, rest);
      AttemptIsSound(urls, enabled, c.log[0], t, PickIn(urls, enabled, w, None, t.pickedAt).1);
      TwoAttempts(urls, enabled, stream, w, trials, c, c.log[0], rest, next);
    }
  }

  // ---- The pool itself ---------------------------------------------------

  function Upstreams(log: seq<Attempt>): seq<string> {
    if log == [] then [] else [log[0].upstream] + Upstreams(log[1..])
  }

  /** How a call continues: what it has done, and what the rest will do, make up
      the whole. */
  ghost predicate Continues(whole: Call, tried: seq<string>, closed: nat, rest: Call) {
    && whole.result == rest.result && whole.world == rest.world
    && whole.closed == closed + rest.closed
    && Upstreams(whole.log) == tried + Upstreams(rest.log)
  }

  /** What can be observed of a call. */
  ghost predicate IsCall(c: Call, result: CallResult, tried: seq<string>, closed: nat, world: World) {
    c.result == result && Upstreams(c.log) == tried && c.closed == closed && c.world == world
  }

  /** With one more attempt made, a call either ends with it, or continues. */
  lemma {:induction false} CallStops(
    urls: seq<string>, enabled: bool, stream: bool, w: World, exclude: Option<string>, trials: seq<Trial>, n: nat,
    p: Pick, after: World, c: Call, whole: Call, tried: seq<string>, closed: nat)
    requires urls != [] && n < |trials| == MAX_ATTEMPTS && c == CallIn(urls, enabled, stream, w, exclude, trials, n)
    requires (p, after) == TryIn(urls, enabled, w, exclude, trials[n]) && (p.AllOpen? || !Again(n, trials[n].reply))
    requires Continues(whole, tried, closed, c)
    ensures IsCall(whole, if p.AllOpen? then NoReplica(p.retryAfter) else Final(p.url, trials[n].reply),
                   if p.AllOpen? then tried else tried + [p.url], closed, after)
  {
    assert Upstreams(c.log) == if p.AllOpen? then [] else [p.url];
  }

  lemma {:induction false} CallGoesOn(
    urls: seq<string>, enabled: bool, stream: bool, w: World, exclude: Option<string>, trials: seq<Trial>, n: nat,
    p: Pick, after: World, c: Call, whole: Call, tried: seq<string>, closed: nat,
    rest: Call, tried': seq<string>, closed': nat)
    requires urls != [] && n < |trials| == MAX_ATTEMPTS && c == CallIn(urls, enabled, stream, w, exclude, trials, n)
    requires (p, after) == TryIn(urls, enabled, w, exclude, trials[n]) && p.Picked? && Again(n, trials[n].reply)
    requires Continues(whole, tried, closed, c)
    requires
      rest == CallIn(urls, enabled, stream, Meanwhile(urls, after, trials[n].between), Some(p.url), trials, n + 1)
    requires tried' == tried + [p.url] && closed' == closed + if stream && trials[n].reply.Response? then 1 else 0
    ensures Continues(whole, tried', closed', rest)
  {
    assert c.log[1..] == rest.log && c.log[0].upstream == p.url;
    Reassociate(tried, [p.url], Upstreams(rest.log));
  }

  class UpstreamPool {
    const enabled: bool
    const breakers: BreakerRegistry
    var urls: seq<string>
    var next: nat

    ghost predicate Valid()
      reads this, breakers, breakers.breakers.Values
    {
      && breakers.Valid()
      && urls != []
      && next < |urls|
      && AllIn(urls, breakers.breakers.Keys)
    }

    function State(): World
      reads `next, breakers, breakers.breakers.Values
    {
      World(next, breakers.Views())
    }

    lemma StateFits()
      requires Valid()
      ensures Fits(urls, State())
    {
    }

    constructor (urls: seq<string>, enabled: bool)
      requires urls != []
      ensures Valid() && fresh(breakers) && fresh(breakers.breakers.Values)
      ensures this.urls == urls && this.enabled == enabled
      ensures State() == World(0, map u | u in urls :: Fresh())
    {
      this.enabled := enabled;
      breakers := new BreakerRegistry();
      this.urls, next := urls, 0;
      new;
      breakers.Reset(urls);
    }

    /** An empty list is refused; otherwise nothing keyed to the old list stays. */
    method SetUrls(urls: seq<string>) returns (ok: bool)
      requires Valid()
      modifies this, breakers
      ensures ok <==> urls != []
      ensures !ok ==> unchanged(this) && unchanged(breakers)
      ensures ok ==> Valid() && this.urls == urls && State() == World(0, map u | u in urls :: Fresh())
      ensures ok ==> fresh(breakers.breakers.Values)
    {
      if urls == [] {
        return false;
      }
      this.urls := urls;
      next := 0;
      breakers.Reset(urls);
      return true;
    }

    /** The closed replicas other than the excluded one, in list order. */
    method Closed(exclude: Option<string>) returns (candidates: seq<string>)
      requires Valid()
      ensures candidates == ClosedUrls(urls, breakers.Views(), exclude)
    {
      candidates := [];
      ghost var views := breakers.Views();
      for i := 0 to |urls|
        invariant candidates == ClosedUrls(urls[..i], views, exclude)
      {
        var u := urls[i];
        assert u in urls;
        ScanOneMore(urls, i, views, exclude, 0.0);
        if breakers.breakers[u].Allows() && Some(u) != exclude {
          candidates := candidates + [u];
        }
      }
      assert urls[..|urls|] == urls;
    }

    method ShortestWait(now: real) returns (wait: real)
      requires Valid()
      ensures wait == MinWait(urls, breakers.Views(), now)
    {
      assert urls[0] in urls;
      ghost var views := breakers.Views();
      wait := breakers.breakers[urls[0]].SecondsUntilProbe(now);
      ScanOneMore(urls, 0, views, None, now);
      for i := 1 to |urls|
        invariant wait == MinWait(urls[..i], views, now)
      {
        var u := urls[i];
        assert u in urls;
        ScanOneMore(urls, i, views, None, now);
        var w := breakers.breakers[u].SecondsUntilProbe(now);
        wait := Min(wait, w);
      }
      assert urls[..|urls|] == urls;
    }

    method CandidateList(exclude: Option<string>) returns (candidates: seq<string>)
      requires Valid()
      ensures candidates == Candidates(urls, breakers.Views(), exclude)
    {
      candidates := Closed(exclude);
      if candidates == [] {
        candidates := Closed(None);
      }
    }

    method PickReplica(exclude: Option<string>, now: real) returns (p: Pick)
      requires Valid()
      modifies this`next
      ensures Valid()
      ensures (p, next) == PickFrom(urls, breakers.Views(), old(next), exclude, now, enabled)
    {
      if !enabled {
        next := (next + 1) % |urls|;
        return Picked(urls[next]);
      }
      ghost var views := breakers.Views();
      var candidates := CandidateList(exclude);
      if candidates == [] {
        var wait := ShortestWait(now);
        return AllOpen(wait);
      }
      next := (next + 1) % |candidates|;
      return Picked(candidates[next]);
    }

    method Record(url: string, o: Outcome, now: real)
      requires Valid()
      modifies breakers, breakers.breakers.Values
      ensures Valid() && fresh(breakers.breakers.Values - old(breakers.breakers.Values))
      ensures url in old(breakers.breakers) ==> breakers.breakers == old(breakers.breakers)
      ensures State() == RecordIn(old(State()), url, o, now)
    {
      breakers.RecordFor(url, o, now);
    }

    method Become(w: World)
      requires Valid() && Fits(urls, w) && w.breakers.Keys == breakers.breakers.Keys
      modifies this`next, breakers.breakers.Values
      ensures Valid() && State() == w
    {
      next := w.next;
      breakers.Become(w.breakers);
    }

    /** The steps of other tasks at an await. */
    method Await(others: World -> World)
      requires Valid()
      modifies this`next, breakers.breakers.Values
      ensures Valid() && State() == Meanwhile(urls, old(State()), others)
    {
      StateFits();
      Become(Meanwhile(urls, State(), others));
    }

    /** One attempt: pick, send, record. */
    method TryOnce(exclude: Option<string>, t: Trial) returns (p: Pick)
      requires Valid()
      modifies this`next, breakers, breakers.breakers.Values
      ensures Valid() && breakers.breakers == old(breakers.breakers)
      ensures (p, State()) == TryIn(urls, enabled, old(State()), exclude, t)
    {
      ghost var w := State();
      p := PickReplica(exclude, t.pickedAt);
      assert (p, State()) == PickIn(urls, enabled, w, exclude, t.pickedAt);
      if p.Picked? {
        PickKnown(urls, w.breakers, w.next, exclude, t.pickedAt, enabled, p.url);
        Await(t.during);
        Record(p.url, t.reply, t.recordedAt);
      }
    }

    /** One turn of the retry loop, up to the point where the next one starts. */
    method Turn(exclude: Option<string>, t: Trial, n: nat) returns (p: Pick, again: bool)
      requires Valid()
      modifies this`next, breakers, breakers.breakers.Values
      ensures Valid() && breakers.breakers == old(breakers.breakers)
      ensures p == TryIn(urls, enabled, old(State()), exclude, t).0 && again == (p.Picked? && Again(n, t.reply))
      ensures var after := TryIn(urls, enabled, old(State()), exclude, t).1;
              State() == if again then Meanwhile(urls, after, t.between) else after
    {
      p := TryOnce(exclude, t);
      again := p.Picked? && Again(n, t.reply);
      if again {
        Await(t.between);  // aclose, and the backoff sleep
      }
    }

    /** The loop body: attempt n of a call, and what becomes of the call. */
    method Round(
      stream: bool, trials: seq<Trial>, n: nat, exclude: Option<string>, tried: seq<string>, closed: nat,
      ghost whole: Call, ghost rest: Call)
      returns (
        result: Option<CallResult>, upstream: Option<string>, tried': seq<string>, closed': nat,
        ghost rest': Call)
      requires Valid() && n < |trials| == MAX_ATTEMPTS
      requires rest == CallIn(urls, enabled, stream, State(), exclude, trials, n)
      requires Continues(whole, tried, closed, rest)
      modifies this`next, breakers, breakers.breakers.Values
      ensures Valid() && breakers.breakers == old(breakers.breakers)
      ensures result.Some? ==> IsCall(whole, result.value, tried', closed', State())
      ensures result.None? ==>
                && n + 1 < MAX_ATTEMPTS
                && rest' == CallIn(urls, enabled, stream, State(), upstream, trials, n + 1)
                && Continues(whole, tried', closed', rest')
    {
      var t := trials[n];
      ghost var w := State();
      var p, again := Turn(exclude, t, n);
      ghost var after := TryIn(urls, enabled, w, exclude, t).1;
      if !again {
        CallStops(urls, enabled, stream, w, exclude, trials, n, p, after, rest, whole, tried, closed);
        result := Some(if p.AllOpen? then NoReplica(p.retryAfter) else Final(p.url, t.reply));
        return result, None, if p.AllOpen? then tried else tried + [p.url], closed, rest;
      }
      result, upstream := None, Some(p.url);
      tried', closed' := tried + [p.url], if stream && t.reply.Response? then closed + 1 else closed;
      rest' := CallIn(urls, enabled, stream, State(), upstream, trials, n + 1);
      CallGoesOn(urls, enabled, stream, w, exclude, trials, n, p, after, rest, whole, tried, closed,
                 rest', tried', closed');
    }

    /** Bounded retry: the call is exactly the specified one, in its result, the
        replicas it tried, the responses it closed and the state it leaves. */
    method WithRetry(stream: bool, trials: seq<Trial>, ghost call: Call)
      returns (result: CallResult, tried: seq<string>, closed: nat)
      requires Valid() && |trials| == MAX_ATTEMPTS
      requires call == CallIn(urls, enabled, stream, State(), None, trials, 0)
      modifies this`next, breakers, breakers.breakers.Values
      ensures Valid() && breakers.breakers == old(breakers.breakers)
      ensures IsCall(call, result, tried, closed, State())
    {
      var n, exclude: Option<string> := 0, None;
      tried, closed := [], 0;
      ghost var rest := call;
      while true
        invariant Valid() && breakers.breakers == old(breakers.breakers)
        invariant n < MAX_ATTEMPTS
        invariant rest == CallIn(urls, enabled, stream, State(), exclude, trials, n)
        invariant Continues(call, tried, closed, rest)
        decreases MAX_ATTEMPTS - n
      {
        var end;
        end, exclude, tried, closed, rest := Round(stream, trials, n, exclude, tried, closed, call, rest);
        if end.Some? {
          return end.value, tried, closed;
        }
        n := n + 1;
      }
    }
  }
}
