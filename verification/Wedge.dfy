/** The wedge detector and the metrics poller
    (gateway/upstream/metrics_scraper.py). */
module Wedges {
  import opened Basics
  import opened Scrape

  function WaitingIn(snapshot: map<string, real>): real {
    if WAITING in snapshot then snapshot[WAITING] else 0.0
  }

  /** One replica's detector as a value. */
  datatype Detector = Detector(windowSec: real, lastGen: Option<real>, stallSince: Option<real>)
  {
    function Observe(snapshot: map<string, real>, now: real): Detector {
      if GENERATION !in snapshot then this
      else
        var gen := snapshot[GENERATION];
        var seen := this.(lastGen := Some(gen));
        if lastGen.None? then seen
        else if gen < lastGen.value then seen.(stallSince := None)
        else if WaitingIn(snapshot) > 0.0 && gen == lastGen.value then
          (if stallSince.None? then seen.(stallSince := Some(now)) else seen)
        else seen.(stallSince := None)
    }

    function StallSeconds(now: real): real {
      if stallSince.None? then 0.0 else Max(0.0, now - stallSince.value)
    }

    predicate Suspected(now: real) {
      StallSeconds(now) >= windowSec
    }
  }

  function NewDetector(windowSec: real): Detector {
    Detector(windowSec, None, None)
  }

  // ---- What the detector means -------------------------------------------

  datatype Poll = Failed | Scraped(snapshot: map<string, real>, stamp: real)

  /** The detector after the first n polls; a failed one is no information. */
  function DetectorAt(windowSec: real, h: seq<Poll>, n: nat): Detector
    requires n <= |h|
  {
    if n == 0 then NewDetector(windowSec)
    else if h[n - 1].Failed? then DetectorAt(windowSec, h, n - 1)
    else DetectorAt(windowSec, h, n - 1).Observe(h[n - 1].snapshot, h[n - 1].stamp)
  }

  datatype Observation = Observation(waiting: real, gen: real, stamp: real)

  /** What the first n polls tell: scrapes that carry the token counter. */
  function Informative(h: seq<Poll>, n: nat): seq<Observation>
    requires n <= |h|
  {
    if n == 0 then []
    else if h[n - 1].Scraped? && GENERATION in h[n - 1].snapshot then
      Informative(h, n - 1)
      + [Observation(WaitingIn(h[n - 1].snapshot), h[n - 1].snapshot[GENERATION], h[n - 1].stamp)]
    else Informative(h, n - 1)
  }

  /** A scrape that carries the token counter, and what that reads. */
  predicate Informs(p: Poll) {
    p.Scraped? && "vllm:generation_tokens_total" in p.snapshot
  }

  function CounterOf(p: Poll): real
    requires Informs(p)
  {
    p.snapshot["vllm:generation_tokens_total"]
  }

  /** A scrape that shows requests waiting. */
  predicate Queues(p: Poll) {
    p.Scraped? && "vllm:num_requests_waiting" in p.snapshot && p.snapshot["vllm:num_requests_waiting"] > 0.0
  }

  /** The informing ones among the first n polls. */
  function Told(h: seq<Poll>, n: nat): seq<nat>
    requires n <= |h|
  {
    if n == 0 then [] else if Informs(h[n - 1]) then Told(h, n - 1) + [n - 1] else Told(h, n - 1)
  }

  /** An observation reads what its scrape shows. */
  ghost predicate Reads(o: Observation, p: Poll) {
    Informs(p) && o.gen == CounterOf(p) && o.stamp == p.stamp && (o.waiting > 0.0 <==> Queues(p))
  }

  /** The observations are the informing scrapes, all of them and in their order. */
  lemma {:induction false} ObservationsAreScrapes(h: seq<Poll>, n: nat)
    requires n <= |h|
    ensures |Informative(h, n)| == |Told(h, n)|
    ensures forall k :: 0 <= k < |Told(h, n)| ==> Told(h, n)[k] < n && Reads(Informative(h, n)[k], h[Told(h, n)[k]])
    ensures forall j, k :: 0 <= j < k < |Told(h, n)| ==> Told(h, n)[j] < Told(h, n)[k]
    ensures forall i: nat :: i < n && Informs(h[i]) ==> i in Told(h, n)
  {
    if n > 0 {
      ObservationsAreScrapes(h, n - 1);
      if Informs(h[n - 1]) {
        assert Told(h, n)[|Told(h, n - 1)|] == n - 1;
      }
    }
  }

  /** Observation j shows requests waiting and the counter where it was. */
  predicate Stalled(obs: seq<Observation>, j: int) {
    1 <= j < |obs| && obs[j].waiting > 0.0 && obs[j].gen == obs[j - 1].gen
  }

  /** Every observation from m on is stalled, and there is one. */
  ghost predicate StalledFrom(obs: seq<Observation>, m: int) {
    0 <= m < |obs| && forall j :: m <= j < |obs| ==> Stalled(obs, j)
  }

  function StallStartFrom(obs: seq<Observation>, n: nat): (m: nat)
    requires n <= |obs|
    ensures m <= n
    ensures forall j :: m <= j < n ==> Stalled(obs, j)
    ensures m > 0 ==> !Stalled(obs, m - 1)
  {
    if n > 0 && Stalled(obs, n - 1) then StallStartFrom(obs, n - 1) else n
  }

  /** The start of the maximal stalled suffix. */
  function StallStart(obs: seq<Observation>): (m: nat)
    ensures m <= |obs|
    ensures forall j :: m <= j < |obs| ==> Stalled(obs, j)
    ensures m > 0 ==> !Stalled(obs, m - 1)
    decreases |obs|
  {
    StallStartFrom(obs, |obs|)
  }

  /** A detector remembers exactly the last counter, and the stamp at which the
      maximal stalled suffix of the observations begins. */
  predicate Remembers(d: Detector, windowSec: real, obs: seq<Observation>) {
    && d.windowSec == windowSec
    && d.lastGen == (if obs == [] then None else Some(obs[|obs| - 1].gen))
    && d.stallSince == (if StallStart(obs) == |obs| then None else Some(obs[StallStart(obs)].stamp))
  }

  lemma StallStartUnique(before: seq<Observation>, obs: seq<Observation>)
    requires |obs| == |before| + 1 && obs[..|before|] == before
    ensures StallStart(obs) == if Stalled(obs, |before|) then StallStart(before) else |obs|
  {
    assert forall j :: 0 <= j < |before| ==> Stalled(obs, j) == Stalled(before, j);
    if Stalled(obs, |before|) {
      var m, k := StallStart(obs), StallStart(before);
      assert k > 0 ==> !Stalled(obs, k - 1);
      assert 0 < m <= |before| ==> !Stalled(before, m - 1);
    }
  }

  lemma {:induction false} RemembersOneMore(
    d: Detector, windowSec: real, before: seq<Observation>, snapshot: map<string, real>, stamp: real)
    requires Remembers(d, windowSec, before) && GENERATION in snapshot
    ensures Remembers(d.Observe(snapshot, stamp), windowSec,
                      before + [Observation(WaitingIn(snapshot), snapshot[GENERATION], stamp)])
  {
    StallStartUnique(before, before + [Observation(WaitingIn(snapshot), snapshot[GENERATION], stamp)]);
  }

  /** The detector's fold remembers just that of the informative scrapes. */
  lemma {:induction false} DetectorMeaning(windowSec: real, h: seq<Poll>, n: nat)
    requires n <= |h|
    ensures Remembers(DetectorAt(windowSec, h, n), windowSec, Informative(h, n))
  {
    if n > 0 {
      DetectorMeaning(windowSec, h, n - 1);
      if h[n - 1].Scraped? && GENERATION in h[n - 1].snapshot {
        RemembersOneMore(
          DetectorAt(windowSec, h, n - 1), windowSec, Informative(h, n - 1), h[n - 1].snapshot, h[n - 1].stamp);
      }
    }
  }

  /** Failed scrapes and scrapes without the counter can be erased. */
  lemma {:induction false} OnlyInformativeScrapesMatter(windowSec: real, g: seq<Poll>, h: seq<Poll>)
    requires Informative(g, |g|) == Informative(h, |h|)
    ensures DetectorAt(windowSec, g, |g|) == DetectorAt(windowSec, h, |h|)
  {
    DetectorMeaning(windowSec, g, |g|);
    DetectorMeaning(windowSec, h, |h|);
  }

  lemma {:induction false} PrefixDecides(windowSec: real, x: seq<Poll>, y: seq<Poll>, n: nat)
    requires n <= |x|
    ensures DetectorAt(windowSec, x + y, n) == DetectorAt(windowSec, x, n)
    ensures Informative(x + y, n) == Informative(x, n)
  {
    if n > 0 {
      PrefixDecides(windowSec, x, y, n - 1);
    }
  }

  ghost predicate StampsOrdered(obs: seq<Observation>) {
    forall i, j :: 0 <= i < j < |obs| ==> obs[i].stamp <= obs[j].stamp
  }

  lemma MaximalStall(obs: seq<Observation>, m: int)
    requires StalledFrom(obs, m)
    ensures StallStart(obs) <= m
  {
    var start := StallStart(obs);
    assert start > 0 ==> !Stalled(obs, start - 1);
  }

  /** A wedge is suspected exactly when some stall that reaches the latest
      informative scrape began at least a window ago. A window that is not
      positive suspects everything, at once and always. */
  lemma SuspectedExactlyWhenStalled(windowSec: real, h: seq<Poll>, n: nat, now: real, obs: seq<Observation>)
    requires n <= |h| && obs == Informative(h, n) && StampsOrdered(obs)
    ensures DetectorAt(windowSec, h, n).Suspected(now)
       <==> windowSec <= 0.0 || exists m :: StalledFrom(obs, m) && now - obs[m].stamp >= windowSec
  {
    DetectorMeaning(windowSec, h, n);
    var d, start := DetectorAt(windowSec, h, n), StallStart(obs);
    if windowSec > 0.0 && d.Suspected(now) {
      assert StalledFrom(obs, start);
    }
    if exists m :: StalledFrom(obs, m) && now - obs[m].stamp >= windowSec {
      var m :| StalledFrom(obs, m) && now - obs[m].stamp >= windowSec;
      MaximalStall(obs, m);
      assert start < m ==> obs[start].stamp <= obs[m].stamp;
    }
  }

  predicate Idle(obs: seq<Observation>, j: int) {
    0 <= j < |obs| ==> obs[j].waiting <= 0.0
  }

  predicate Moved(obs: seq<Observation>, j: int) {
    1 <= j < |obs| ==> obs[j].gen != obs[j - 1].gen
  }

  /** Idle replicas, and replicas whose counter moves (forward, or back through a
      restart) at every scrape, are never suspected. */
  lemma IdleOrMovingIsNeverSuspected(windowSec: real, h: seq<Poll>, n: nat, now: real, obs: seq<Observation>)
    requires n <= |h| && windowSec > 0.0 && obs == Informative(h, n)
    requires (forall j :: Idle(obs, j)) || (forall j :: Moved(obs, j))
    ensures !DetectorAt(windowSec, h, n).Suspected(now)
  {
    DetectorMeaning(windowSec, h, n);
    var last := |obs| - 1;
    assert Idle(obs, last) || Moved(obs, last);
  }

  // ---- The mutable detector ----------------------------------------------

  class WedgeDetector {
    const windowSec: real
    var lastGenTokens: Option<real>
    var stallSince: Option<real>

    ghost function View(): Detector
      reads this
    {
      Detector(windowSec, lastGenTokens, stallSince)
    }

    constructor (windowSec: real)
      ensures View() == NewDetector(windowSec)
    {
      this.windowSec := windowSec;
      lastGenTokens, stallSince := None, None;
    }

    method Observe(snapshot: map<string, real>, now: real)
      modifies this
      ensures View() == old(View()).Observe(snapshot, now)
    {
      var waiting := if WAITING in snapshot then snapshot[WAITING] else 0.0;
      if GENERATION !in snapshot {
        return;
      }
      var gen := snapshot[GENERATION];
      var previous := lastGenTokens;
      lastGenTokens := Some(gen);
      if previous.None? {
        return;
      }
      if gen < previous.value {
        stallSince := None;
        return;
      }
      if waiting > 0.0 && gen == previous.value {
        if stallSince.None? {
          stallSince := Some(now);
        }
      } else {
        stallSince := None;
      }
    }

    function Suspected(now: real): (s: bool)
      reads this
      ensures s == View().Suspected(now)
    {
      (if stallSince.None? then 0.0 else Max(0.0, now - stallSince.value)) >= windowSec
    }
  }

  /** What one GET of a replica's /metrics produced. */
  datatype Reply = Raised | Answer(status: int, families: seq<seq<Sample>>)

  class UpstreamMetricsPoller {
    const windowSec: real
    var detectors: map<string, WedgeDetector>
    var lastOk: map<string, real>
    var failing: set<string>

    /** No two replicas share a detector. */
    ghost predicate Valid()
      reads this`detectors
    {
      forall u, v :: u in detectors && v in detectors && u != v ==> detectors[u] != detectors[v]
    }

    ghost function Views(): map<string, Detector>
      reads this`detectors, detectors.Values
    {
      map u | u in detectors :: detectors[u].View()
    }

    /** A replica without a detector yet reads as a new one. */
    ghost function ViewOf(url: string): Detector
      reads this`detectors, detectors.Values
    {
      if url in detectors then detectors[url].View() else NewDetector(windowSec)
    }

    constructor (windowSec: real)
      ensures Valid() && Views() == map[] && this.windowSec == windowSec
    {
      this.windowSec := windowSec;
      detectors, lastOk, failing := map[], map[], {};
    }

    /** The breaker's read side: no detector, no suspicion. */
    function WedgeSuspected(url: string, now: real): (s: bool)
      reads this, detectors.Values
      ensures s <==> url in Views() && Views()[url].Suspected(now)
    {
      url in detectors && detectors[url].Suspected(now)
    }

    /** The detector of a replica, created at its first poll. */
    method DetectorOf(url: string) returns (d: WedgeDetector)
      requires Valid()
      modifies this`detectors
      ensures Valid() && url in detectors && d == detectors[url]
      ensures fresh(detectors.Values - old(detectors.Values))
      ensures d.View() == old(ViewOf(url))
      ensures Views() == old(Views())[url := old(ViewOf(url))]
    {
      if url !in detectors {
        d := new WedgeDetector(windowSec);
        detectors := detectors[url := d];
      }
      d := detectors[url];
    }

    static method Snapshot(reply: Reply) returns (snapshot: Option<map<string, real>>)
      ensures snapshot.Some? <==>
                reply.Answer? && reply.status < 400 && !Reduces(SERIES, Flatten(reply.families), map[])
      ensures snapshot.Some? ==> Reduces(SERIES, Flatten(reply.families), snapshot.value)
    {
      if reply.Raised? || reply.status >= 400 {
        return None;
      }
      var parsed := Parse(reply.families);
      if parsed == map[] {
        return None;
      }
      if Reduces(SERIES, Flatten(reply.families), map[]) {
        OnlyTheBagMatters(reply.families, reply.families, parsed, map[]);
      }
      return Some(parsed);
    }

    /** Feeding one snapshot to one replica's detector moves no other detector. */
    method ObserveFor(url: string, snapshot: map<string, real>, now: real, ghost was: Detector)
      requires Valid() && url in detectors && detectors[url].View() == was
      modifies detectors[url]
      ensures Views() == old(Views())[url := was.Observe(snapshot, now)]
    {
      detectors[url].Observe(snapshot, now);
    }

    /** What one poll produced, fed to its replica's detector. */
    method Feed(url: string, snapshot: Option<map<string, real>>, now: real)
      requires Valid()
      modifies this`detectors, detectors.Values
      ensures Valid() && fresh(detectors.Values - old(detectors.Values))
      ensures Views() == old(Views())[url :=
                if snapshot.Some? then old(ViewOf(url)).Observe(snapshot.value, now) else old(ViewOf(url))]
    {
      ghost var was, views := ViewOf(url), Views();
      var d := DetectorOf(url);
      if snapshot.Some? {
        ObserveFor(url, snapshot.value, now, was);
        assert Views() == views[url := was.Observe(snapshot.value, now)];
      }
    }

    /** Folding in what one poll produced. Only that replica's detector can
        change, and only by a scrape that parsed to something. */
    method Apply(url: string, snapshot: Option<map<string, real>>, now: real)
      requires Valid()
      modifies this, detectors.Values
      ensures Valid() && fresh(detectors.Values - old(detectors.Values))
      ensures Views() == old(Views())[url :=
                if snapshot.Some? then old(ViewOf(url)).Observe(snapshot.value, now) else old(ViewOf(url))]
      ensures lastOk == if snapshot.Some? then old(lastOk)[url := now] else old(lastOk)
      ensures failing == if snapshot.Some? then old(failing) - {url} else old(failing) + {url}
    {
      Feed(url, snapshot, now);
      if snapshot.Some? {
        lastOk := lastOk[url := now];
        failing := failing - {url};
      } else {
        failing := failing + {url};
      }
    }

    /** One poll of one replica. */
    method PollOne(url: string, reply: Reply, now: real) returns (snapshot: Option<map<string, real>>)
      requires Valid()
      modifies this, detectors.Values
      ensures Valid() && fresh(detectors.Values - old(detectors.Values))
      ensures snapshot.Some? <==>
                reply.Answer? && reply.status < 400 && !Reduces(SERIES, Flatten(reply.families), map[])
      ensures snapshot.Some? ==> Reduces(SERIES, Flatten(reply.families), snapshot.value)
      ensures Views() == old(Views())[url :=
                if snapshot.Some? then old(ViewOf(url)).Observe(snapshot.value, now) else old(ViewOf(url))]
      ensures lastOk == if snapshot.Some? then old(lastOk)[url := now] else old(lastOk)
      ensures failing == if snapshot.Some? then old(failing) - {url} else old(failing) + {url}
    {
      snapshot := Snapshot(reply);
      Apply(url, snapshot, now);
    }
  }
}
