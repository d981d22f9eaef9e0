/** The upstream pool: classification of outcomes, replica choice, and the
    breaker registry (gateway/upstream/client.py, gateway/upstream/breaker.py). */
module Pool {
  import opened Basics
  import opened Breakers

  const MAX_ATTEMPTS := 2
  const MAX_RETRY_DELAY_SEC := 2.0
  const JITTER_BASE_SEC := 0.25

  /** What one send came back with. `retryAfter` is the Retry-After header when
      it is there and parses as a number. */
  datatype Outcome = Raised(readTimeout: bool) | Response(status: int, retryAfter: Option<real>)

  /** The breaker's view of an outcome; None is a success. */
  function Classify(o: Outcome): Option<FailureKind> {
    match o
    case Raised(readTimeout) => Some(if readTimeout then ReadTimeout else Connect)
    case Response(status, _) =>
      if status == 429 then Some(Throttled)
      else if status >= 500 then Some(ServerError)
      else if status >= 400 then Some(ClientError)
      else None
  }

  predicate Succeeds(o: Outcome) {
    o.Response? && o.status < 400
  }

  predicate RetryableStatus(status: int) {
    status == 429 || status == 502 || status == 503 || status == 504
  }

  predicate ShouldRetry(o: Outcome) {
    match o
    case Raised(_) => Classify(o) == Some(Connect)
    case Response(status, _) => RetryableStatus(status)
  }

  /** Recording an outcome in the breaker of the replica it came from. */
  function Recorded(b: Breaker, o: Outcome, now: real): Breaker {
    var kind := Classify(o);
    if kind.None? then b.OnSuccess() else b.OnFailure(kind.value, now)
  }

  /** The two taxonomies: an outcome is a success exactly when it is below 400,
      and is never taken for a wedge; only a success and a bare rejection carry
      no weight; everything retried is a failure; and a retryable failure that
      weighs nothing is a 429. */
  lemma Taxonomies(o: Outcome)
    ensures Classify(o).None? <==> Succeeds(o)
    ensures Classify(o) != Some(Wedge)
    ensures ShouldRetry(o) ==> Classify(o).Some?
    ensures ShouldRetry(o) && Weight(Classify(o).value) == 0 <==> o.Response? && o.status == 429
    ensures o == Raised(true) ==> !ShouldRetry(o) && Weight(Classify(o).value) == Weight(Connect)
    ensures Succeeds(o) <==> o.Response? && o.status < 400
    ensures ShouldRetry(o) <==> if o.Raised? then !o.readTimeout else o.status in {429, 502, 503, 504}
  {
  }

  function JitterCap(attempt: nat): real {
    Min(JITTER_BASE_SEC * Pow2(attempt) as real, MAX_RETRY_DELAY_SEC)
  }

  /** `draw` is the jitter drawn for this attempt. */
  function RetryDelay(attempt: nat, o: Outcome, draw: real): real
    requires 0.0 <= draw <= JitterCap(attempt)
  {
    if o.Response? && o.retryAfter.Some? then Min(o.retryAfter.value, MAX_RETRY_DELAY_SEC) else draw
  }

  /** No retry waits longer than two seconds; a Retry-After below that is honoured
      to the letter, also a negative one; without one the first retry waits at
      most a quarter of a second and the next at most half a second. */
  lemma DelayBounded(attempt: nat, o: Outcome, draw: real)
    requires 0.0 <= draw <= JitterCap(attempt)
    ensures RetryDelay(attempt, o, draw) <= MAX_RETRY_DELAY_SEC
    ensures RetryDelay(attempt, o, draw) < 0.0 <==> o.Response? && o.retryAfter.Some? && o.retryAfter.value < 0.0
    ensures o.Response? && o.retryAfter.Some? ==>
              RetryDelay(attempt, o, draw) == (if o.retryAfter.value <= 2.0 then o.retryAfter.value else 2.0)
    ensures o.Raised? || o.retryAfter.None? ==>
              && 0.0 <= RetryDelay(attempt, o, draw) <= 2.0
              && (attempt == 0 ==> RetryDelay(attempt, o, draw) <= 0.25)
              && (attempt == 1 ==> RetryDelay(attempt, o, draw) <= 0.5)
  {
  }

  // ---- Choosing a replica ------------------------------------------------

  datatype Pick = Picked(url: string) | AllOpen(retryAfter: real)

  /** A replica the registry does not know gets a new breaker. */
  function BreakerOf(breakers: map<string, Breaker>, url: string): Breaker {
    if url in breakers then breakers[url] else Fresh()
  }

  function ClosedUrls(urls: seq<string>, breakers: map<string, Breaker>, exclude: Option<string>): (c: seq<string>)
    ensures |c| <= |urls|
  {
    if urls == [] then []
    else
      var last := urls[|urls| - 1];
      ClosedUrls(urls[..|urls| - 1], breakers, exclude)
      + (if BreakerOf(breakers, last).Allows() && Some(last) != exclude then [last] else [])
  }

  lemma {:induction false} ClosedUrlsMembers(
    urls: seq<string>, breakers: map<string, Breaker>, exclude: Option<string>, u: string)
    ensures u in ClosedUrls(urls, breakers, exclude)
       <==> u in urls && BreakerOf(breakers, u).Allows() && Some(u) != exclude
  {
    if urls != [] {
      ClosedUrlsMembers(urls[..|urls| - 1], breakers, exclude, u);
      assert urls == urls[..|urls| - 1] + [urls[|urls| - 1]];
    }
  }

  /** Replicas of the list are kept or dropped, all their listings alike. */
  lemma {:induction false} ClosedUrlsCount(
    urls: seq<string>, breakers: map<string, Breaker>, exclude: Option<string>, u: string)
    ensures multiset(ClosedUrls(urls, breakers, exclude))[u]
         == if BreakerOf(breakers, u).Allows() && Some(u) != exclude then multiset(urls)[u] else 0
  {
    if urls != [] {
      var front, last := urls[..|urls| - 1], urls[|urls| - 1];
      ClosedUrlsCount(front, breakers, exclude, u);
      CountOneMore(urls, front, last, u);
      if BreakerOf(breakers, last).Allows() && Some(last) != exclude {
        CountOneMore(ClosedUrls(urls, breakers, exclude), ClosedUrls(front, breakers, exclude), last, u);
      }
    }
  }

  function Candidates(urls: seq<string>, breakers: map<string, Breaker>, exclude: Option<string>): seq<string> {
    var preferred := ClosedUrls(urls, breakers, exclude);
    if preferred == [] then ClosedUrls(urls, breakers, None) else preferred
  }

  function MinWait(urls: seq<string>, breakers: map<string, Breaker>, now: real): real
    requires urls != []
  {
    var n := |urls| - 1;
    var last := BreakerOf(breakers, urls[n]).SecondsUntilProbe(now);
    if n == 0 then last else Min(MinWait(urls[..n], breakers, now), last)
  }

  /** Both scans of the list go one replica further. */
  lemma {:induction false} ScanOneMore(
    urls: seq<string>, i: nat, breakers: map<string, Breaker>, exclude: Option<string>, now: real)
    requires i < |urls|
    ensures ClosedUrls(urls[..i + 1], breakers, exclude)
         == ClosedUrls(urls[..i], breakers, exclude)
            + (if BreakerOf(breakers, urls[i]).Allows() && Some(urls[i]) != exclude then [urls[i]] else [])
    ensures var last := BreakerOf(breakers, urls[i]).SecondsUntilProbe(now);
            MinWait(urls[..i + 1], breakers, now)
            == if i == 0 then last else Min(MinWait(urls[..i], breakers, now), last)
  {
    var front := urls[..i + 1];
    assert front[..i] == urls[..i];
  }

  lemma {:induction false} MinWaitIsLeast(urls: seq<string>, breakers: map<string, Breaker>, now: real, v: string)
    requires v in urls
    ensures MinWait(urls, breakers, now) <= BreakerOf(breakers, v).SecondsUntilProbe(now)
  {
    var n := |urls| - 1;
    if n > 0 && v != urls[n] {
      MinWaitIsLeast(urls[..n], breakers, now, v);
    }
  }

  /** The shortest wait is that of some replica u. */
  lemma {:induction false} MinWaitIsOnes(urls: seq<string>, breakers: map<string, Breaker>, now: real)
    returns (u: string)
    requires urls != []
    ensures u in urls && MinWait(urls, breakers, now) == BreakerOf(breakers, u).SecondsUntilProbe(now)
  {
    var n := |urls| - 1;
    u := urls[n];
    if n > 0 {
      var w := MinWaitIsOnes(urls[..n], breakers, now);
      if BreakerOf(breakers, u).SecondsUntilProbe(now) > MinWait(urls[..n], breakers, now) {
        u := w;
      }
    }
  }

  /** The choice and the new cursor. */
  function PickFrom(
    urls: seq<string>, breakers: map<string, Breaker>, next: nat,
    exclude: Option<string>, now: real, enabled: bool): (Pick, nat)
    requires urls != []
  {
    var list := if enabled then Candidates(urls, breakers, exclude) else urls;
    if list == [] then (AllOpen(MinWait(urls, breakers, now)), next)
    else
      var cursor := (next + 1) % |list|;
      (Picked(list[cursor]), cursor)
  }

  /** Candidates are closed replicas of the list; there are none exactly when no
      replica is closed; the excluded one is among them only when no other is. */
  lemma CandidatesAreClosed(urls: seq<string>, breakers: map<string, Breaker>, exclude: Option<string>)
    ensures var list := Candidates(urls, breakers, exclude);
            && |list| <= |urls|
            && (list == [] <==> forall u :: u in urls ==> !BreakerOf(breakers, u).Allows())
            && (forall u :: u in list ==> u in urls && BreakerOf(breakers, u).Allows())
            && (forall u, v :: u in list && exclude == Some(u) && v in urls && BreakerOf(breakers, v).Allows() ==>
                  v == u)
  {
    var preferred, any := ClosedUrls(urls, breakers, exclude), ClosedUrls(urls, breakers, None);
    forall u
      ensures u in preferred <==> u in urls && BreakerOf(breakers, u).Allows() && Some(u) != exclude
      ensures u in any <==> u in urls && BreakerOf(breakers, u).Allows()
    {
      ClosedUrlsMembers(urls, breakers, exclude, u);
      ClosedUrlsMembers(urls, breakers, None, u);
    }
    if any != [] {
      assert any[0] in any;
    }
    if preferred != [] {
      assert preferred[0] in preferred;
    }
  }

  /** And all of them are: without exclusion each closed replica as often as it is
      listed; with one, each closed replica but the excluded one if there is such
      a replica, and else each closed one. */
  lemma {:induction false} CandidatesAreAllClosed(
    urls: seq<string>, breakers: map<string, Breaker>, exclude: Option<string>, u: string)
    ensures multiset(Candidates(urls, breakers, None))[u]
         == if BreakerOf(breakers, u).Allows() then multiset(urls)[u] else 0
    ensures multiset(Candidates(urls, breakers, exclude))[u]
         == if !BreakerOf(breakers, u).Allows() then 0
            else if Some(u) != exclude then multiset(urls)[u]
            else if exists v :: v in urls && v != u && BreakerOf(breakers, v).Allows() then 0
            else multiset(urls)[u]
  {
    var preferred := ClosedUrls(urls, breakers, exclude);
    ClosedUrlsCount(urls, breakers, exclude, u);
    ClosedUrlsCount(urls, breakers, None, u);
    if preferred == [] {
      if v :| v in urls && v != u && BreakerOf(breakers, v).Allows() {
        ClosedUrlsMembers(urls, breakers, exclude, v);
      }
    } else {
      ClosedUrlsMembers(urls, breakers, exclude, preferred[0]);
      assert preferred[0] in preferred;
    }
  }

  /** With the breaker enabled: only a closed replica is picked; picking fails
      exactly when none is closed, whatever is excluded; an excluded replica is
      picked only when no other is closed. The cursor stays a valid index of the
      whole list, however the candidate list grows and shrinks. */
  lemma PickIsSafe(
    urls: seq<string>, breakers: map<string, Breaker>, next: nat, exclude: Option<string>, now: real)
    requires urls != []
    ensures var p := PickFrom(urls, breakers, next, exclude, now, true).0;
            && (p.AllOpen? <==> forall u :: u in urls ==> !BreakerOf(breakers, u).Allows())
            && (p.Picked? ==> p.url in urls && BreakerOf(breakers, p.url).Allows())
            && (p.Picked? && exclude == Some(p.url) ==>
                  forall u :: u in urls && BreakerOf(breakers, u).Allows() ==> u == p.url)
    ensures next < |urls| ==> PickFrom(urls, breakers, next, exclude, now, true).1 < |urls|
  {
    CandidatesAreClosed(urls, breakers, exclude);
    var list := Candidates(urls, breakers, exclude);
    if list != [] {
      assert list[(next + 1) % |list|] in list;
    }
  }

  /** A retry goes elsewhere whenever any other replica is closed. */
  lemma RetryGoesElsewhere(
    urls: seq<string>, breakers: map<string, Breaker>, next: nat, exclude: Option<string>, now: real, url: string)
    requires urls != [] && PickFrom(urls, breakers, next, exclude, now, true).0 == Picked(url)
    ensures url in urls && BreakerOf(breakers, url).Allows()
    ensures ClosedUrls(urls, breakers, Some(url)) != [] ==> exclude != Some(url)
  {
    PickIsSafe(urls, breakers, next, exclude, now);
    var others := ClosedUrls(urls, breakers, Some(url));
    if others != [] {
      assert others[0] in others;
      ClosedUrlsMembers(urls, breakers, Some(url), others[0]);
    }
  }

  lemma PickKnown(
    urls: seq<string>, breakers: map<string, Breaker>, next: nat, exclude: Option<string>, now: real, enabled: bool,
    url: string)
    requires urls != [] && PickFrom(urls, breakers, next, exclude, now, enabled).0 == Picked(url)
    ensures url in urls
  {
    if enabled {
      PickIsSafe(urls, breakers, next, exclude, now);
    }
  }

  // ---- Fairness ----------------------------------------------------------

  /** What a pick without exclusion chooses from. */
  function Rotation(urls: seq<string>, breakers: map<string, Breaker>, enabled: bool): seq<string> {
    if enabled then Candidates(urls, breakers, None) else urls
  }

  lemma {:induction false} SameClosedUrls(
    urls: seq<string>, a: map<string, Breaker>, b: map<string, Breaker>, exclude: Option<string>)
    requires forall u :: u in urls ==> BreakerOf(a, u).Allows() == BreakerOf(b, u).Allows()
    ensures ClosedUrls(urls, a, exclude) == ClosedUrls(urls, b, exclude)
  {
    if urls != [] {
      assert urls[|urls| - 1] in urls;
      SameClosedUrls(urls[..|urls| - 1], a, b, exclude);
    }
  }

  /** The list changes only when some breaker closes, or one that was closed no
      longer is. */
  lemma {:induction false} SameRotation(
    urls: seq<string>, a: map<string, Breaker>, b: map<string, Breaker>, enabled: bool)
    requires enabled ==> forall u :: u in urls ==> BreakerOf(a, u).Allows() == BreakerOf(b, u).Allows()
    ensures Rotation(urls, a, enabled) == Rotation(urls, b, enabled)
  {
    if enabled {
      SameClosedUrls(urls, a, b, None);
    }
  }

  /** What one pick finds: the breakers and the clock, as they are by then. */
  datatype Moment = Moment(breakers: map<string, Breaker>, now: real)

  /** Whatever happened in between, every pick chooses from the same list. */
  ghost predicate Steady(urls: seq<string>, moments: seq<Moment>, enabled: bool, list: seq<string>) {
    forall i :: 0 <= i < |moments| ==> Rotation(urls, moments[i].breakers, enabled) == list
  }

  /** The cursor after these picks in a row, none excluding. */
  function CursorAfter(urls: seq<string>, moments: seq<Moment>, next: nat, enabled: bool): nat
    requires urls != []
  {
    if moments == [] then next
    else
      var m, before := moments[|moments| - 1], moments[..|moments| - 1];
      PickFrom(urls, m.breakers, CursorAfter(urls, before, next, enabled), None, m.now, enabled).1
  }

  /** The replicas they choose. */
  function PickMany(urls: seq<string>, moments: seq<Moment>, next: nat, enabled: bool): seq<Pick>
    requires urls != []
  {
    if moments == [] then []
    else
      var m, before := moments[|moments| - 1], moments[..|moments| - 1];
      PickMany(urls, before, next, enabled)
      + [PickFrom(urls, m.breakers, CursorAfter(urls, before, next, enabled), None, m.now, enabled).0]
  }

  lemma {:induction false} OneMorePick(urls: seq<string>, before: seq<Moment>, m: Moment, next: nat, enabled: bool)
    requires urls != []
    ensures var p := PickFrom(urls, m.breakers, CursorAfter(urls, before, next, enabled), None, m.now, enabled);
            && CursorAfter(urls, before + [m], next, enabled) == p.1
            && PickMany(urls, before + [m], next, enabled) == PickMany(urls, before, next, enabled) + [p.0]
  {
    assert (before + [m])[..|before|] == before;
  }

  lemma MulAtLeast(d: int, k: int)
    requires d >= 1 && k >= 0
    ensures d * k >= k
  {
  }

  lemma Distribute(q: int, q': int, k: int)
    ensures (q' - q) * k == q' * k - q * k
  {
  }

  lemma DivMod(a: nat, k: nat)
    requires k > 0
    ensures a == (a / k) * k + a % k && 0 <= a % k < k
  {
  }

  lemma ModUnique(a: nat, k: nat, q: nat, r: nat)
    requires k > 0 && a == q * k + r && r < k
    ensures a % k == r
  {
    var q' := a / k;
    DivMod(a, k);
    Distribute(q, q', k);
    Distribute(q', q, k);
    if q < q' {
      MulAtLeast(q' - q, k);
    } else if q' < q {
      MulAtLeast(q - q', k);
    }
  }

  /** Adding i < k to a wraps around at most once. */
  lemma ModAdd(a: nat, i: nat, k: nat)
    requires i < k
    ensures (a + i) % k == if a % k + i < k then a % k + i else a % k + i - k
  {
    DivMod(a, k);
    var q, r := a / k, a % k;
    if r + i < k {
      ModUnique(a + i, k, q, r + i);
    } else {
      Distribute(-1, q, k);
      ModUnique(a + i, k, q + 1, r + i - k);
    }
  }

  lemma ModStep(a: nat, k: nat)
    requires k > 0
    ensures (a % k + 1) % k == (a + 1) % k
  {
    DivMod(a, k);
    if k == 1 {
      ModUnique(a + 1, 1, a + 1, 0);
    } else {
      ModAdd(a, 1, k);
      if a % k + 1 < k {
        ModUnique(a % k + 1, k, 0, a % k + 1);
      } else {
        ModUnique(a % k + 1, k, 1, 0);
      }
    }
  }

  /** Position i of a list of n, read from position r on and around. */
  function Around(r: nat, i: nat, n: nat): (j: nat)
    requires r < n && i < n
    ensures j < n
  {
    if r + i < n then r + i else r + i - n
  }

  lemma {:induction false} PicksLength(urls: seq<string>, moments: seq<Moment>, next: nat, enabled: bool)
    requires urls != []
    ensures |PickMany(urls, moments, next, enabled)| == |moments|
  {
    if moments != [] {
      PicksLength(urls, moments[..|moments| - 1], next, enabled);
    }
  }

  /** A pick from a list moves the cursor one on, and takes what is there. */
  lemma PickFromRotation(urls: seq<string>, m: Moment, next: nat, enabled: bool, list: seq<string>)
    requires urls != [] && list == Rotation(urls, m.breakers, enabled) != []
    ensures PickFrom(urls, m.breakers, next, None, m.now, enabled)
         == (Picked(list[(next + 1) % |list|]), (next + 1) % |list|)
  {
  }

  lemma SteadyBefore(
    urls: seq<string>, moments: seq<Moment>, before: seq<Moment>, m: Moment, enabled: bool, list: seq<string>)
    requires moments == before + [m] && Steady(urls, moments, enabled, list)
    ensures Steady(urls, before, enabled, list) && Rotation(urls, m.breakers, enabled) == list
  {
    assert moments[|before|] == m;
    assert forall i :: 0 <= i < |before| ==> moments[i] == before[i];
  }

  lemma {:induction false} CursorOneOn(
    urls: seq<string>, before: seq<Moment>, m: Moment, next: nat, enabled: bool, list: seq<string>, k: nat)
    requires urls != [] && list == Rotation(urls, m.breakers, enabled) != []
    requires CursorAfter(urls, before, next, enabled) == k
    ensures CursorAfter(urls, before + [m], next, enabled) == (k + 1) % |list|
  {
    OneMorePick(urls, before, m, next, enabled);
    PickFromRotation(urls, m, k, enabled, list);
  }

  lemma {:induction false} CursorAdvances(
    urls: seq<string>, moments: seq<Moment>, next: nat, enabled: bool, list: seq<string>)
    requires urls != [] && list != [] && moments != [] && Steady(urls, moments, enabled, list)
    ensures CursorAfter(urls, moments, next, enabled) == (next + |moments|) % |list|
  {
    var n := |moments| - 1;
    var m, before := moments[n], moments[..n];
    assert moments == before + [m];
    SteadyBefore(urls, moments, before, m, enabled, list);
    if n > 0 {
      CursorAdvances(urls, before, next, enabled, list);
      ModStep(next + n, |list|);
    }
    CursorOneOn(urls, before, m, next, enabled, list, CursorAfter(urls, before, next, enabled));
  }

  lemma TurnIndex(next: nat, m: nat, n: nat, k: nat)
    requires n > 0 && k == if m == 0 then next else (next + m) % n
    ensures (k + 1) % n == (next + m + 1) % n
  {
    ModStep(next + m, n);
  }

  lemma {:induction false} LastPickTakesTurn(
    urls: seq<string>, before: seq<Moment>, m: Moment, next: nat, enabled: bool, list: seq<string>)
    requires urls != [] && list == Rotation(urls, m.breakers, enabled) != [] && Steady(urls, before, enabled, list)
    ensures PickFrom(urls, m.breakers, CursorAfter(urls, before, next, enabled), None, m.now, enabled).0
         == Picked(list[(next + |before| + 1) % |list|])
  {
    var k := CursorAfter(urls, before, next, enabled);
    PickFromRotation(urls, m, k, enabled, list);
    if before != [] {
      CursorAdvances(urls, before, next, enabled, list);
    }
    TurnIndex(next, |before|, |list|, k);
  }

  /** Pick number i takes the i-th turn, whatever happens between the picks. */
  lemma {:induction false} PickTakesTurn(
    urls: seq<string>, moments: seq<Moment>, next: nat, enabled: bool, list: seq<string>, i: nat)
    requires urls != [] && list != [] && Steady(urls, moments, enabled, list) && i < |moments|
    ensures |PickMany(urls, moments, next, enabled)| == |moments|
    ensures PickMany(urls, moments, next, enabled)[i] == Picked(list[(next + i + 1) % |list|])
    decreases |moments|
  {
    var n := |moments| - 1;
    var m, before := moments[n], moments[..n];
    assert moments == before + [m];
    SteadyBefore(urls, moments, before, m, enabled, list);
    PicksLength(urls, before, next, enabled);
    OneMorePick(urls, before, m, next, enabled);
    if i < n {
      PickTakesTurn(urls, before, next, enabled, list, i);
    } else {
      LastPickTakesTurn(urls, before, m, next, enabled, list);
    }
  }

  /** Reading a sequence around from anywhere permutes it. */
  lemma ReadAround<T>(picks: seq<T>, all: seq<T>, r: nat, front: seq<T>, back: seq<T>)
    requires r < |all| == |picks| && front == all[..r] && back == all[r..]
    requires forall i :: 0 <= i < |picks| ==> picks[i] == all[Around(r, i, |all|)]
    ensures multiset(picks) == multiset(all)
  {
    assert picks == back + front;
    assert all == front + back;
  }

  function AllPicked(list: seq<string>): seq<Pick> {
    seq(|list|, i requires 0 <= i < |list| => Picked(list[i]))
  }

  lemma {:induction false} TurnsPermute(picks: seq<Pick>, all: seq<Pick>, list: seq<string>, next: nat)
    requires |picks| == |list| > 0 && all == AllPicked(list)
    requires forall i :: 0 <= i < |picks| ==> picks[i] == Picked(list[(next + i + 1) % |list|])
    ensures multiset(picks) == multiset(all)
  {
    var n := |list|;
    var r := (next + 1) % n;
    forall i | 0 <= i < n ensures picks[i] == all[Around(r, i, n)] {
      ModAdd(next + 1, i, n);
    }
    ReadAround(picks, all, r, all[..r], all[r..]);
  }

  /** As many picks in a row as there are candidates return, from any cursor,
      every candidate exactly as often as it is listed: each replica once. What
      else happens between the picks does not matter while the list stays. */
  lemma {:induction false} RoundRobinIsFair(
    urls: seq<string>, moments: seq<Moment>, next: nat, enabled: bool, list: seq<string>)
    requires urls != [] && list != [] && Steady(urls, moments, enabled, list) && |moments| == |list|
    ensures multiset(PickMany(urls, moments, next, enabled)) == multiset(AllPicked(list))
  {
    var picks := PickMany(urls, moments, next, enabled);
    PicksLength(urls, moments, next, enabled);
    forall i | 0 <= i < |moments| ensures picks[i] == Picked(list[(next + i + 1) % |list|]) {
      PickTakesTurn(urls, moments, next, enabled, list, i);
    }
    TurnsPermute(picks, AllPicked(list), list, next);
  }

  /** The replicas of the list that may be sent to: those that are closed, or all
      of them with the breaker disabled. */
  ghost predicate Serve(serving: set<string>, urls: seq<string>, breakers: map<string, Breaker>, enabled: bool) {
    forall u :: u in urls ==> (u in serving <==> !enabled || BreakerOf(breakers, u).Allows())
  }

  ghost function ServingCount(urls: seq<string>, serving: set<string>): nat {
    |set i | 0 <= i < |urls| && urls[i] in serving|
  }

  lemma {:induction false} ServingCountStep(urls: seq<string>, serving: set<string>, front: seq<string>, last: string)
    requires urls == front + [last]
    ensures ServingCount(urls, serving) == ServingCount(front, serving) + if last in serving then 1 else 0
  {
    var all, some := set i | 0 <= i < |urls| && urls[i] in serving, set i | 0 <= i < |front| && front[i] in serving;
    assert all == if last in serving then some + {|front|} else some;
  }

  lemma {:induction false} ClosedUrlsLength(
    urls: seq<string>, breakers: map<string, Breaker>, serving: set<string>)
    requires Serve(serving, urls, breakers, true)
    ensures |ClosedUrls(urls, breakers, None)| == ServingCount(urls, serving)
  {
    if urls != [] {
      var front, last := urls[..|urls| - 1], urls[|urls| - 1];
      assert urls == front + [last];
      assert forall u :: u in front ==> u in urls;
      assert last in urls;
      ClosedUrlsLength(front, breakers, serving);
      ServingCountStep(urls, serving, front, last);
    }
  }

  lemma {:induction false} AllServe(urls: seq<string>, serving: set<string>)
    requires forall u :: u in urls ==> u in serving
    ensures ServingCount(urls, serving) == |urls|
  {
    if urls != [] {
      var front, last := urls[..|urls| - 1], urls[|urls| - 1];
      assert urls == front + [last];
      AllServe(front, serving);
      ServingCountStep(urls, serving, front, last);
    }
  }

  /** The list picks are made from, in terms of the replicas that serve. */
  lemma {:induction false} RotationServes(
    urls: seq<string>, breakers: map<string, Breaker>, enabled: bool, serving: set<string>)
    requires Serve(serving, urls, breakers, enabled)
    ensures var list := Rotation(urls, breakers, enabled);
            && |list| == ServingCount(urls, serving)
            && forall u :: multiset(list)[u] == if u in serving then multiset(urls)[u] else 0
  {
    if enabled {
      ClosedUrlsLength(urls, breakers, serving);
      forall u ensures multiset(Candidates(urls, breakers, None))[u] == if u in serving then multiset(urls)[u] else 0 {
        CandidatesAreAllClosed(urls, breakers, None, u);
        assert u in multiset(urls) <==> u in urls;
      }
    } else {
      AllServe(urls, serving);
      forall u ensures multiset(urls)[u] == if u in serving then multiset(urls)[u] else 0 {
        assert u in multiset(urls) <==> u in urls;
      }
    }
  }

  lemma OneMorePicked(list: seq<string>, u: string)
    ensures AllPicked(list + [u]) == AllPicked(list) + [Picked(u)]
  {
  }

  lemma {:induction false} PickedCounts(list: seq<string>, u: string)
    ensures multiset(AllPicked(list))[Picked(u)] == multiset(list)[u]
  {
    if list != [] {
      var front, last := list[..|list| - 1], list[|list| - 1];
      PickedCounts(front, u);
      assert list == front + [last] && AllPicked(list) == AllPicked(front) + [Picked(last)];
    }
  }

  lemma {:induction false} ServingIsSteady(
    urls: seq<string>, moments: seq<Moment>, enabled: bool, serving: set<string>, list: seq<string>)
    requires moments != [] && list == Rotation(urls, moments[0].breakers, enabled)
    requires forall i :: 0 <= i < |moments| ==> Serve(serving, urls, moments[i].breakers, enabled)
    ensures Steady(urls, moments, enabled, list)
  {
    forall i | 0 <= i < |moments| ensures Rotation(urls, moments[i].breakers, enabled) == list {
      SameRotation(urls, moments[i].breakers, moments[0].breakers, enabled);
    }
  }

  /** So: while the same replicas serve, as many picks in a row as there are of
      them choose each exactly as often as it is listed, and no other. */
  lemma {:induction false} PicksAreFair(
    urls: seq<string>, moments: seq<Moment>, next: nat, enabled: bool, serving: set<string>, u: string)
    requires urls != [] && moments != [] && |moments| == ServingCount(urls, serving)
    requires forall i :: 0 <= i < |moments| ==> Serve(serving, urls, moments[i].breakers, enabled)
    ensures multiset(PickMany(urls, moments, next, enabled))[Picked(u)] == if u in serving then multiset(urls)[u] else 0
  {
    var list := Rotation(urls, moments[0].breakers, enabled);
    RotationServes(urls, moments[0].breakers, enabled, serving);
    ServingIsSteady(urls, moments, enabled, serving, list);
    RoundRobinIsFair(urls, moments, next, enabled, list);
    PickedCounts(list, u);
  }

  // ---- Retry-After -------------------------------------------------------

  /** The smallest whole number that is not less. */
  function Ceil(x: real): int {
    -((-x).Floor)
  }

  /** The Retry-After header of the 503. */
  function RetryAfterHeader(wait: real): int {
    if Ceil(wait) < 1 then 1 else Ceil(wait)
  }

  /** When every replica is open the advertised header is between 1 and 60
      seconds, and it is exact: that many seconds later some replica is due for
      its probe, and one second less is too few unless the header is 1. */
  lemma RetryAfterIsHonest(
    urls: seq<string>, breakers: map<string, Breaker>, next: nat, exclude: Option<string>, now: real)
    requires urls != []
    requires forall u :: u in urls ==> Sane(BreakerOf(breakers, u)) && TimersPast(BreakerOf(breakers, u), now)
    requires PickFrom(urls, breakers, next, exclude, now, true).0.AllOpen?
    ensures var wait := PickFrom(urls, breakers, next, exclude, now, true).0.retryAfter;
            var header := RetryAfterHeader(wait);
            && 0.0 <= wait <= MAX_OPEN_SEC
            && 1 <= header <= 60
            && (exists u :: u in urls && BreakerOf(breakers, u).DueForProbe(now + header as real))
            && (header > 1 ==>
                  forall u :: u in urls ==> !BreakerOf(breakers, u).DueForProbe(now + (header - 1) as real))
  {
    PickIsSafe(urls, breakers, next, exclude, now);
    var u := MinWaitIsOnes(urls, breakers, now);
    var wait := MinWait(urls, breakers, now);
    var header := RetryAfterHeader(wait);
    WaitIsHonest(BreakerOf(breakers, u), now, now + header as real);
    if header > 1 {
      forall v | v in urls ensures !BreakerOf(breakers, v).DueForProbe(now + (header - 1) as real) {
        MinWaitIsLeast(urls, breakers, now, v);
        WaitIsHonest(BreakerOf(breakers, v), now, now + (header - 1) as real);
      }
    }
  }
}
