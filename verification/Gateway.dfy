/** Many chat requests over many keys, interleaved with each other and with the
    prober (gateway/routes/chat.py, gateway/quota.py, gateway/upstream/client.py).

    A step is a stretch of code without an await. Between steps anything may
    happen; what upstreams answer is arbitrary. */
module Gateway {
  import opened Basics
  import opened Breakers
  import opened Pool
  import opened Quotas
  import BreakerHistory

  /** Fixed for a run: the replicas, the kill switch, and the limits of the keys
      that have them. */
  datatype Config = Config(urls: seq<string>, enabled: bool, budgets: map<string, int>, caps: map<string, int>)

  datatype Usage = Usage(prompt: Option<int>, completion: Option<int>)

  datatype Exit =
    | Rejected(reason: Reject)
    | NoReplica(retryAfterHeader: int)
    | Unreachable
    | UpstreamStatus(status: int)
    | BadResponse
    | Answered
    | StreamEnded(broken: bool)

  datatype Phase =
    | Ready(exclude: Option<string>)   // about to pick: first attempt, or after the backoff
    | Sending(upstream: string)
    | Discarding(upstream: string)     // closing a streamed response before its retry
    | Draining(status: int)            // a streamed error response in hand
    | Relaying                         // a streamed answer in hand
    | Finished(exit: Exit)

  /** One request, with a ledger of everything it did: where it sent, what was
      recorded where, slots taken and given back, streamed responses opened and
      closed. */
  datatype Request = Request(
    key: Option<string>,
    stream: bool,
    phase: Phase,
    sent: seq<string>,
    recorded: seq<string>,
    outcomes: seq<Outcome>,
    taken: nat,
    given: nat,
    opens: nat,
    closes: nat)

  datatype Sys = Sys(clock: real, next: nat, breakers: map<string, Breaker>, quota: Quota, reqs: map<nat, Request>)

  datatype Event =
    | Arrive(id: nat, key: Option<string>, stream: bool)
    | Attempt(id: nat, now: real)
    | Reply(id: nat, outcome: Outcome, body: Option<Usage>, now: real)  // body: None if it is not JSON
    | Discarded(id: nat)
    | Drained(id: nat)
    | RelayDone(id: nat, broken: bool, usage: Usage)
    | Probed(url: string, call: BreakerHistory.Event, now: real)

  function Start(c: Config): Sys {
    Sys(0.0, 0, map u | u in c.urls :: Fresh(), Empty(), map[])
  }

  // ---- Slots -------------------------------------------------------------

  /** The quota and the request that may hold one of its slots. */
  type Held = (Quota, Request)

  function GiveBack(p: Held): Held {
    if p.1.key.None? then p
    else (Apply(p.0, Release(p.1.key.value)), p.1.(given := p.1.given + 1))
  }

  /** The route's `finally`: not for streams, which release elsewhere. */
  function RouteFinally(p: Held): Held {
    if p.1.taken > 0 && !p.1.stream then GiveBack(p) else p
  }

  /** The `except` of the streaming half, for everything that fails before a
      response is handed back. */
  function StreamExcept(p: Held): Held {
    if p.1.taken > 0 then GiveBack(p) else p
  }

  /** The `finally` of the relay. */
  function RelayFinally(p: Held): Held {
    if p.1.taken > 0 then GiveBack(p) else p
  }

  /** An exception leaving the pool passes both handlers of a stream, and only
      the route's otherwise. */
  function Fails(p: Held): Held {
    RouteFinally(if p.1.stream then StreamExcept(p) else p)
  }

  /** What a usage report adds to its key; a report without either count adds
      nothing and is not recorded. */
  function ChargeOf(u: Usage): Option<int> {
    if u.prompt.None? && u.completion.None? then None
    else
      Some((if u.prompt.Some? then u.prompt.value else 0) + (if u.completion.Some? then u.completion.value else 0))
  }

  function Charge(p: Held, u: Usage): Held {
    if p.1.key.Some? && ChargeOf(u).Some?
    then (Apply(p.0, RecordUsage(p.1.key.value, ChargeOf(u).value)), p.1)
    else p
  }

  function End(p: Held, exit: Exit): Held {
    (p.0, p.1.(phase := Finished(exit)))
  }

  // ---- Steps -------------------------------------------------------------

  function NewRequest(key: Option<string>, stream: bool, phase: Phase, taken: nat): Request {
    Request(key, stream, phase, [], [], [], taken, 0, 0, 0)
  }

  /** Budget first, then the slot; a request without a key passes both. */
  function Admit(c: Config, q: Quota, key: Option<string>, stream: bool): Held {
    var overBudget := key.Some? && key.value in c.budgets
                      && Verdict(q, CheckBudget(key.value, c.budgets[key.value])).Some?;
    if overBudget then (q, NewRequest(key, stream, Finished(Rejected(TokenBudgetExceeded)), 0))
    else if key.Some? && key.value in c.caps then
      var op := Acquire(key.value, c.caps[key.value]);
      if Verdict(q, op).Some? then (q, NewRequest(key, stream, Finished(Rejected(ConcurrencyCapExceeded)), 0))
      else (Apply(q, op), NewRequest(key, stream, Ready(None), 1))
    else (q, NewRequest(key, stream, Ready(None), 0))
  }

  /** What a pick leads to: a send is started, or the pool's exception leaves. */
  function Chosen(q: Quota, r: Request, p: Pick): Held {
    match p
    case AllOpen(wait) => End(Fails((q, r)), NoReplica(RetryAfterHeader(wait)))
    case Picked(url) => (q, r.(phase := Sending(url), sent := r.sent + [url]))
  }

  /** pick, up to the start of the send. */
  function Choice(c: Config, s: Sys, r: Request, now: real): (Pick, nat)
    requires c.urls != [] && r.phase.Ready?
  {
    PickFrom(c.urls, s.breakers, s.next, r.phase.exclude, now, c.enabled)
  }

  /** The send came back, and has been recorded in the breaker of its replica. */
  function Resolve(q: Quota, r: Request, o: Outcome, body: Option<Usage>): Held
    requires r.phase.Sending?
  {
    var u := r.phase.upstream;
    var l := r.(recorded := r.recorded + [u], outcomes := r.outcomes + [o],
                opens := if r.stream && o.Response? then r.opens + 1 else r.opens);
    if Succeeds(o) then
      (if r.stream then RouteFinally((q, l.(phase := Relaying)))
       else if body.None? then End(RouteFinally((q, l)), BadResponse)
       else End(Charge(RouteFinally((q, l)), body.value), Answered))
    else if |r.sent| < MAX_ATTEMPTS && ShouldRetry(o) then
      (q, l.(phase := if r.stream && o.Response? then Discarding(u) else Ready(Some(u))))
    else match o
      case Raised(_) => End(Fails((q, l)), Unreachable)
      case Response(status, _) =>
        if r.stream then (q, l.(phase := Draining(status)))
        else End(Charge(RouteFinally((q, l)), Usage(None, None)), UpstreamStatus(status))
  }

  predicate Enabled(c: Config, s: Sys, e: Event) {
    match e
    case Arrive(id, _, _) => id !in s.reqs
    case Attempt(id, now) => id in s.reqs && s.reqs[id].phase.Ready? && s.clock <= now
    case Reply(id, _, _, now) => id in s.reqs && s.reqs[id].phase.Sending? && s.clock <= now
    case Discarded(id) => id in s.reqs && s.reqs[id].phase.Discarding?
    case Drained(id) => id in s.reqs && s.reqs[id].phase.Draining?
    case RelayDone(id, _, _) => id in s.reqs && s.reqs[id].phase.Relaying?
    case Probed(url, call, now) =>
      && url in s.breakers && BreakerHistory.Admissible(s.breakers[url], call)
      && (call.Probe? || call.WedgeCheck?) && 0.0 <= call.now <= now && s.clock <= now
      && (call.Probe? ==> s.clock <= call.now)
  }

  /** Nothing ever blocks: a new request may arrive with any key, and whatever an
      unfinished one waits for may come at any later time, with any outcome. */
  lemma NothingBlocks(c: Config, s: Sys, id: nat, key: Option<string>, stream: bool, now: real, o: Outcome,
                      body: Option<Usage>, broken: bool, usage: Usage)
    requires s.clock <= now
    ensures id !in s.reqs ==> Enabled(c, s, Arrive(id, key, stream))
    ensures id in s.reqs ==>
              match s.reqs[id].phase
              case Ready(_) => Enabled(c, s, Attempt(id, now))
              case Sending(_) => Enabled(c, s, Reply(id, o, body, now))
              case Discarding(_) => Enabled(c, s, Discarded(id))
              case Draining(_) => Enabled(c, s, Drained(id))
              case Relaying => Enabled(c, s, RelayDone(id, broken, usage))
              case Finished(_) => true
  {
  }

  function Put(s: Sys, id: nat, p: Held): Sys {
    s.(quota := p.0, reqs := s.reqs[id := p.1])
  }

  function Step(c: Config, s: Sys, e: Event): Sys
    requires c.urls != [] && Enabled(c, s, e)
  {
    match e
    case Arrive(id, key, stream) => Put(s, id, Admit(c, s.quota, key, stream))
    case Attempt(id, now) =>
      var (p, next) := Choice(c, s, s.reqs[id], now);
      Put(s.(clock := now, next := next), id, Chosen(s.quota, s.reqs[id], p))
    case Reply(id, o, body, now) =>
      var u := s.reqs[id].phase.upstream;
      Put(s.(clock := now, breakers := s.breakers[u := Recorded(BreakerOf(s.breakers, u), o, now)]), id,
          Resolve(s.quota, s.reqs[id], o, body))
    case Discarded(id) =>
      var r := s.reqs[id];
      Put(s, id, (s.quota, r.(phase := Ready(Some(r.phase.upstream)), closes := r.closes + 1)))
    case Drained(id) =>
      var r := s.reqs[id];
      Put(s, id, End(Fails((s.quota, r.(closes := r.closes + 1))), UpstreamStatus(r.phase.status)))
    case RelayDone(id, broken, usage) =>
      var r := s.reqs[id];
      Put(s, id, End(Charge(RelayFinally((s.quota, r.(closes := r.closes + 1))), usage), StreamEnded(broken)))
    case Probed(url, call, now) =>
      s.(clock := now, breakers := s.breakers[url := BreakerHistory.Step(s.breakers[url], call)])
  }

  /** The first n events of h are a run, and these are the states it visits. */
  predicate Valid(c: Config, h: seq<Event>, n: nat)
    requires n <= |h|
    decreases n, 0
  {
    c.urls != [] && (n == 0 || (Valid(c, h, n - 1) && Enabled(c, At(c, h, n - 1), h[n - 1])))
  }

  function At(c: Config, h: seq<Event>, n: nat): Sys
    requires n <= |h| && Valid(c, h, n)
    decreases n, 1
  {
    if n == 0 then Start(c) else Step(c, At(c, h, n - 1), h[n - 1])
  }

  lemma {:induction false} PrefixDecides(c: Config, x: seq<Event>, y: seq<Event>, n: nat)
    requires n <= |x|
    ensures Valid(c, x + y, n) == Valid(c, x, n)
    ensures Valid(c, x, n) ==> At(c, x + y, n) == At(c, x, n)
  {
    if n > 0 {
      PrefixDecides(c, x, y, n - 1);
    }
  }

  /** One more event. */
  lemma {:induction false} OneMore(c: Config, h: seq<Event>, e: Event, more: seq<Event>)
    requires more == h + [e] && Valid(c, h, |h|) && Enabled(c, At(c, h, |h|), e)
    ensures Valid(c, more, |more|) && At(c, more, |more|) == Step(c, At(c, h, |h|), e)
  {
    PrefixDecides(c, h, [e], |h|);
  }

  // ---- One request at a time ---------------------------------------------

  function Responses(outcomes: seq<Outcome>): nat {
    if outcomes == [] then 0
    else Responses(outcomes[..|outcomes| - 1]) + (if outcomes[|outcomes| - 1].Response? then 1 else 0)
  }

  predicate HasCap(c: Config, r: Request) {
    r.key.Some? && r.key.value in c.caps
  }

  predicate HoldsSlot(r: Request) {
    r.taken > 0 && !r.phase.Finished?
  }

  /** Attempts: at most two, the second only after a retryable first, each
      completed one recorded once against the replica it used. */
  predicate AttemptsOk(r: Request) {
    && |r.sent| <= MAX_ATTEMPTS
    && |r.outcomes| == |r.recorded|
    && r.recorded <= r.sent
    && (|r.sent| == 2 ==> r.outcomes != [] && ShouldRetry(r.outcomes[0]))
    && match r.phase
       case Ready(exclude) =>
         && r.recorded == r.sent
         && (exclude.None? ==> r.sent == [])
         && (exclude.Some? ==> r.sent == [exclude.value] && ShouldRetry(r.outcomes[0]))
       case Sending(u) => r.sent == r.recorded + [u]
       case Discarding(u) => r.recorded == r.sent == [u] && ShouldRetry(r.outcomes[0])
       case Draining(_) => r.recorded == r.sent
       case Relaying => r.recorded == r.sent
       case Finished(_) => r.recorded == r.sent
  }

  /** Slots: a keyed request with a cap takes one unless it is turned away, and
      has given back exactly what it took when, and only when, it has finished. */
  predicate SlotsOk(c: Config, r: Request) {
    && r.taken == (if HasCap(c, r) && !(r.phase.Finished? && r.phase.exit.Rejected?) then 1 else 0)
    && r.given == (if r.phase.Finished? then r.taken else 0)
  }

  /** Responses: every streamed response is counted open, and all but the one in
      hand have been closed once. */
  predicate ResponsesOk(r: Request) {
    && (r.phase.Discarding? || r.phase.Draining? || r.phase.Relaying? ==> r.stream)
    && r.opens == (if r.stream then Responses(r.outcomes) else 0)
    && r.opens == r.closes + (if r.phase.Discarding? || r.phase.Draining? || r.phase.Relaying? then 1 else 0)
  }

  predicate RequestOk(c: Config, r: Request) {
    AttemptsOk(r) && SlotsOk(c, r) && ResponsesOk(r)
  }

  lemma AdmitOk(c: Config, q: Quota, key: Option<string>, stream: bool)
    ensures RequestOk(c, Admit(c, q, key, stream).1)
  {
  }

  lemma ChosenOk(c: Config, q: Quota, r: Request, p: Pick)
    requires r.phase.Ready? && RequestOk(c, r)
    ensures RequestOk(c, Chosen(q, r, p).1)
  {
  }

  /** What a reply does to the attempt ledger, whichever way it goes. */
  lemma ResolveShape(q: Quota, r: Request, o: Outcome, body: Option<Usage>)
    requires r.phase.Sending?
    ensures var u, t := r.phase.upstream, Resolve(q, r, o, body).1;
            && t.sent == r.sent && t.recorded == r.recorded + [u] && t.outcomes == r.outcomes + [o]
            && if t.phase.Discarding? || t.phase.Ready? then
                 && ShouldRetry(o) && |r.sent| < MAX_ATTEMPTS
                 && t.phase == (if t.phase.Ready? then Ready(Some(u)) else Discarding(u))
               else t.phase.Draining? || t.phase.Relaying? || t.phase.Finished?
  {
  }

  lemma {:induction false} LedgerMoves(r: Request, t: Request, o: Outcome)
    requires r.phase.Sending? && AttemptsOk(r)
    requires t.sent == r.sent && t.recorded == r.recorded + [r.phase.upstream] && t.outcomes == r.outcomes + [o]
    requires if t.phase.Discarding? || t.phase.Ready? then
               && ShouldRetry(o) && |r.sent| < MAX_ATTEMPTS
               && t.phase == (if t.phase.Ready? then Ready(Some(r.phase.upstream)) else Discarding(r.phase.upstream))
             else t.phase.Draining? || t.phase.Relaying? || t.phase.Finished?
    ensures AttemptsOk(t)
  {
    assert t.sent == t.recorded;
    if r.outcomes != [] {
      assert t.outcomes[0] == r.outcomes[0];
    }
  }

  lemma {:induction false} ResolveAttempts(q: Quota, r: Request, o: Outcome, body: Option<Usage>)
    requires r.phase.Sending? && AttemptsOk(r)
    ensures AttemptsOk(Resolve(q, r, o, body).1)
  {
    ResolveShape(q, r, o, body);
    LedgerMoves(r, Resolve(q, r, o, body).1, o);
  }

  lemma ResolveSlots(c: Config, q: Quota, r: Request, o: Outcome, body: Option<Usage>)
    requires r.phase.Sending? && SlotsOk(c, r)
    ensures SlotsOk(c, Resolve(q, r, o, body).1)
  {
  }

  lemma ResolveResponses(q: Quota, r: Request, o: Outcome, body: Option<Usage>)
    requires r.phase.Sending? && ResponsesOk(r)
    ensures ResponsesOk(Resolve(q, r, o, body).1)
  {
    assert (r.outcomes + [o])[..|r.outcomes|] == r.outcomes;
    assert Resolve(q, r, o, body).1.outcomes == r.outcomes + [o];
  }

  lemma {:induction false} NextOk(c: Config, s: Sys, e: Event)
    requires c.urls != [] && Enabled(c, s, e) && !e.Probed?
    requires e.Arrive? || RequestOk(c, s.reqs[e.id])
    ensures e.id in Step(c, s, e).reqs && RequestOk(c, Step(c, s, e).reqs[e.id])
  {
    match e
    case Arrive(id, key, stream) => AdmitOk(c, s.quota, key, stream);
    case Attempt(id, now) => ChosenOk(c, s.quota, s.reqs[id], Choice(c, s, s.reqs[id], now).0);
    case Reply(id, o, body, now) =>
      ResolveAttempts(s.quota, s.reqs[id], o, body);
      ResolveSlots(c, s.quota, s.reqs[id], o, body);
      ResolveResponses(s.quota, s.reqs[id], o, body);
    case Discarded(id) =>
    case Drained(id) =>
    case RelayDone(id, broken, usage) =>
  }

  /** A step touches no request but its own. */
  lemma OthersUntouched(c: Config, s: Sys, e: Event)
    requires c.urls != [] && Enabled(c, s, e)
    ensures Step(c, s, e).reqs.Keys == s.reqs.Keys + (if e.Probed? then {} else {e.id})
    ensures forall id :: id in s.reqs && (e.Probed? || id != e.id) ==> Step(c, s, e).reqs[id] == s.reqs[id]
  {
  }

  /** Every request of every run keeps all three ledgers in order at every
      moment; a finished one has closed what it opened and given back what it
      took. */
  lemma {:induction false} LedgersBalance(c: Config, h: seq<Event>, n: nat)
    requires n <= |h| && Valid(c, h, n)
    ensures forall id :: id in At(c, h, n).reqs ==> RequestOk(c, At(c, h, n).reqs[id])
  {
    if n > 0 {
      LedgersBalance(c, h, n - 1);
      var s, e := At(c, h, n - 1), h[n - 1];
      OthersUntouched(c, s, e);
      if !e.Probed? {
        NextOk(c, s, e);
      }
    }
  }

  // ---- How requests end --------------------------------------------------

  /** Nothing is left to retry: both attempts are used up, or the outcome is not
      one to retry. */
  predicate Settled(r: Request, last: Outcome) {
    |r.sent| >= MAX_ATTEMPTS || !ShouldRetry(last)
  }

  /** A request ends the way its last attempt did, and not before a retry that
      was due; or in the pool, with an attempt left; or before its first one. */
  predicate ExitOk(r: Request) {
    if r.outcomes == [] then
      match r.phase
      case Draining(_) => false
      case Relaying => false
      case Finished(exit) => r.sent == [] && (exit.Rejected? || exit.NoReplica?)
      case _ => true
    else
      var last := r.outcomes[|r.outcomes| - 1];
      match r.phase
      case Draining(status) => last.Response? && last.status == status >= 400 && Settled(r, last)
      case Relaying => Succeeds(last)
      case Finished(Rejected(_)) => false
      case Finished(NoReplica(_)) => |r.sent| < MAX_ATTEMPTS && ShouldRetry(last)
      case Finished(Unreachable) => last.Raised? && Settled(r, last)
      case Finished(UpstreamStatus(status)) => last.Response? && last.status == status >= 400 && Settled(r, last)
      case Finished(StreamEnded(_)) => r.stream && Succeeds(last)
      case Finished(_) => !r.stream && Succeeds(last)
      case _ => true
  }

  lemma ResolveExits(q: Quota, r: Request, o: Outcome, body: Option<Usage>)
    requires r.phase.Sending?
    ensures ExitOk(Resolve(q, r, o, body).1)
  {
  }

  lemma {:induction false} ChosenExits(c: Config, q: Quota, r: Request, p: Pick)
    requires r.phase.Ready? && RequestOk(c, r)
    ensures ExitOk(Chosen(q, r, p).1)
  {
  }

  lemma {:induction false} NextExits(c: Config, s: Sys, e: Event)
    requires c.urls != [] && Enabled(c, s, e) && !e.Probed?
    requires e.Arrive? || (RequestOk(c, s.reqs[e.id]) && ExitOk(s.reqs[e.id]))
    ensures ExitOk(Step(c, s, e).reqs[e.id])
  {
    match e
    case Attempt(id, now) => ChosenExits(c, s.quota, s.reqs[id], Choice(c, s, s.reqs[id], now).0);
    case Reply(id, o, body, now) => ResolveExits(s.quota, s.reqs[id], o, body);
    case _ =>
  }

  /** In every run, what a client is told is what its last attempt came to. */
  lemma {:induction false} ExitsAreHonest(c: Config, h: seq<Event>, n: nat)
    requires n <= |h| && Valid(c, h, n)
    ensures forall id :: id in At(c, h, n).reqs ==> ExitOk(At(c, h, n).reqs[id])
  {
    if n > 0 {
      ExitsAreHonest(c, h, n - 1);
      LedgersBalance(c, h, n - 1);
      var s, e := At(c, h, n - 1), h[n - 1];
      OthersUntouched(c, s, e);
      if !e.Probed? {
        NextExits(c, s, e);
      }
    }
  }

  /** And the last reply or the end of the stream decides how: a body that is not
      JSON is a bad response, any other is the answer, and a broken stream is
      reported as one. */
  lemma {:induction false} EndsAreTold(c: Config, h: seq<Event>, n: nat)
    requires n < |h| && Valid(c, h, n + 1)
    ensures h[n].Reply? && !At(c, h, n).reqs[h[n].id].stream && h[n].outcome.Response? && h[n].outcome.status < 400 ==>
              At(c, h, n + 1).reqs[h[n].id].phase == Finished(if h[n].body.Some? then Answered else BadResponse)
    ensures h[n].RelayDone? ==> At(c, h, n + 1).reqs[h[n].id].phase == Finished(StreamEnded(h[n].broken))
  {
  }

  // ---- Attempts over a whole run -----------------------------------------

  /** The requests behind the sends started by the first n events. */
  ghost function Sends(c: Config, h: seq<Event>, n: nat): multiset<nat>
    requires n <= |h| && Valid(c, h, n)
  {
    if n == 0 then multiset{}
    else if h[n - 1].Attempt? && At(c, h, n).reqs[h[n - 1].id].phase.Sending?
    then Sends(c, h, n - 1) + multiset{h[n - 1].id}
    else Sends(c, h, n - 1)
  }

  lemma SentGrows(c: Config, s: Sys, e: Event)
    requires c.urls != [] && Enabled(c, s, e)
    ensures !e.Probed? ==>
              |Step(c, s, e).reqs[e.id].sent| == (if e.Arrive? then 0 else |s.reqs[e.id].sent|)
                + (if e.Attempt? && Step(c, s, e).reqs[e.id].phase.Sending? then 1 else 0)
  {
  }

  lemma {:induction false} SendsGrow(c: Config, h: seq<Event>, n: nat, id: nat, s: Sys, t: Sys, e: Event)
    requires n < |h| && Valid(c, h, n + 1) && s == At(c, h, n) && t == At(c, h, n + 1) && e == h[n]
    ensures Sends(c, h, n + 1)[id]
         == Sends(c, h, n)[id] + (if e.Attempt? && e.id == id && t.reqs[id].phase.Sending? then 1 else 0)
  {
  }

  lemma {:induction false} SendsAreSent(c: Config, h: seq<Event>, n: nat, id: nat)
    requires n <= |h| && Valid(c, h, n)
    ensures Sends(c, h, n)[id] == if id in At(c, h, n).reqs then |At(c, h, n).reqs[id].sent| else 0
  {
    if n > 0 {
      var m, s, t, e := n - 1, At(c, h, n - 1), At(c, h, n), h[n - 1];
      SendsAreSent(c, h, m, id);
      SendsGrow(c, h, m, id, s, t, e);
      OthersUntouched(c, s, e);
      SentGrows(c, s, e);
    }
  }

  lemma {:induction false} TwiceBounded(m: multiset<nat>, ids: set<nat>)
    requires forall id :: id in m ==> id in ids && m[id] <= 2
    ensures |m| <= 2 * |ids|
    decreases |ids|
  {
    if ids == {} {
      assert m == multiset{};
    } else {
      var id :| id in ids;
      var rest := m[id := 0];
      TwiceBounded(rest, ids - {id});
      assert |ids - {id}| == |ids| - 1;
      assert m == rest[id := m[id]];
    }
  }

  /** n client requests cause at most 2n upstream requests, however they and
      everything else interleave. */
  lemma AttemptBound(c: Config, h: seq<Event>, n: nat)
    requires n <= |h| && Valid(c, h, n)
    ensures |Sends(c, h, n)| <= 2 * |At(c, h, n).reqs|
  {
    LedgersBalance(c, h, n);
    forall id | id in Sends(c, h, n) ensures id in At(c, h, n).reqs && Sends(c, h, n)[id] <= 2 {
      SendsAreSent(c, h, n, id);
    }
    TwiceBounded(Sends(c, h, n), At(c, h, n).reqs.Keys);
    assert |At(c, h, n).reqs.Keys| == |At(c, h, n).reqs|;
  }

  // ---- Routing over a whole run ------------------------------------------

  predicate PoolOk(c: Config, s: Sys) {
    && s.next < |c.urls|
    && (forall u :: u in c.urls ==> u in s.breakers)
    && (forall u :: u in s.breakers ==> Sane(s.breakers[u]) && TimersPast(s.breakers[u], s.clock))
  }

  lemma CursorOk(c: Config, s: Sys, exclude: Option<string>, now: real)
    requires c.urls != [] && s.next < |c.urls|
    ensures PickFrom(c.urls, s.breakers, s.next, exclude, now, c.enabled).1 < |c.urls|
  {
    PickIsSafe(c.urls, s.breakers, s.next, exclude, now);
  }

  lemma RecordedSane(b: Breaker, o: Outcome, clock: real, now: real)
    requires Sane(b) && TimersPast(b, clock) && clock <= now
    ensures Sane(Recorded(b, o, now)) && TimersPast(Recorded(b, o, now), now)
  {
    var e := if Classify(o).None? then BreakerHistory.Success(now) else BreakerHistory.Failure(Classify(o).value, now);
    BreakerHistory.StepKeepsSane(b, e);
  }

  lemma StepKeepsPool(c: Config, s: Sys, e: Event)
    requires c.urls != [] && Enabled(c, s, e) && PoolOk(c, s)
    requires e.Reply? ==> s.reqs[e.id].phase.upstream in s.breakers
    ensures PoolOk(c, Step(c, s, e))
  {
    match e
    case Attempt(id, now) => CursorOk(c, s, s.reqs[id].phase.exclude, now);
    case Reply(id, o, body, now) => RecordedSane(s.breakers[s.reqs[id].phase.upstream], o, s.clock, now);
    case Probed(url, call, now) => BreakerHistory.StepKeepsSane(s.breakers[url], call);
    case _ =>
  }

  /** Sends only ever go to replicas of the list. */
  predicate UpstreamsKnown(c: Config, s: Sys) {
    forall id :: id in s.reqs && s.reqs[id].phase.Sending? ==> s.reqs[id].phase.upstream in c.urls
  }

  lemma PicksFromList(c: Config, s: Sys, exclude: Option<string>, now: real)
    requires c.urls != []
    ensures var p := PickFrom(c.urls, s.breakers, s.next, exclude, now, c.enabled).0;
            p.Picked? ==> p.url in c.urls
  {
    PickIsSafe(c.urls, s.breakers, s.next, exclude, now);
  }

  lemma {:induction false} StepKeepsUpstreams(c: Config, s: Sys, e: Event)
    requires c.urls != [] && Enabled(c, s, e) && UpstreamsKnown(c, s)
    ensures UpstreamsKnown(c, Step(c, s, e))
  {
    OthersUntouched(c, s, e);
    if e.Attempt? {
      PicksFromList(c, s, s.reqs[e.id].phase.exclude, e.now);
    }
  }

  lemma {:induction false} PoolInvariant(c: Config, h: seq<Event>, n: nat)
    requires n <= |h| && Valid(c, h, n)
    ensures PoolOk(c, At(c, h, n)) && UpstreamsKnown(c, At(c, h, n))
  {
    if n > 0 {
      PoolInvariant(c, h, n - 1);
      StepKeepsPool(c, At(c, h, n - 1), h[n - 1]);
      StepKeepsUpstreams(c, At(c, h, n - 1), h[n - 1]);
    }
  }

  /** What the next phase of a request says about the pick that led to it: a send
      starts exactly when some replica is closed, on a closed one, and elsewhere
      than before whenever another is closed; otherwise the request ends with a
      Retry-After that is exact. */
  ghost predicate WellPicked(c: Config, s: Sys, exclude: Option<string>, now: real, next: Phase) {
    match next
    case Sending(u) =>
      && u in c.urls && BreakerOf(s.breakers, u).Allows()
      && (exclude == Some(u) ==> forall v :: v in c.urls && BreakerOf(s.breakers, v).Allows() ==> v == u)
    case Finished(NoReplica(header)) =>
      && (forall u :: u in c.urls ==> !BreakerOf(s.breakers, u).Allows())
      && 1 <= header <= 60
      && (exists u :: u in c.urls && BreakerOf(s.breakers, u).DueForProbe(now + header as real))
      && (header > 1 ==>
            forall u :: u in c.urls ==> !BreakerOf(s.breakers, u).DueForProbe(now + (header - 1) as real))
    case _ => false
  }

  lemma {:induction false} PicksWell(c: Config, s: Sys, r: Request, now: real)
    requires c.urls != [] && c.enabled && r.phase.Ready? && PoolOk(c, s) && s.clock <= now
    ensures WellPicked(c, s, r.phase.exclude, now, Chosen(s.quota, r, Choice(c, s, r, now).0).1.phase)
  {
    var p := Choice(c, s, r, now).0;
    PickIsSafe(c.urls, s.breakers, s.next, r.phase.exclude, now);
    if p.AllOpen? {
      RetryAfterIsHonest(c.urls, s.breakers, s.next, r.phase.exclude, now);
    }
  }

  /** With the breaker enabled, every attempt of every run is well picked. */
  lemma {:induction false} RoutingSafety(c: Config, h: seq<Event>, n: nat)
    requires n < |h| && Valid(c, h, n + 1) && c.enabled && h[n].Attempt?
    ensures WellPicked(c, At(c, h, n), At(c, h, n).reqs[h[n].id].phase.exclude, h[n].now,
                       At(c, h, n + 1).reqs[h[n].id].phase)
  {
    PoolInvariant(c, h, n);
    PicksWell(c, At(c, h, n), At(c, h, n).reqs[h[n].id], h[n].now);
  }

  // ---- Fairness over a whole run -----------------------------------------

  /** What the attempts among events lo..hi find when they pick. */
  function Moments(c: Config, h: seq<Event>, lo: nat, hi: nat): seq<Moment>
    requires lo <= hi <= |h| && Valid(c, h, hi)
    decreases hi
  {
    if lo == hi then []
    else if h[hi - 1].Attempt? then
      Moments(c, h, lo, hi - 1) + [Moment(At(c, h, hi - 1).breakers, h[hi - 1].now)]
    else Moments(c, h, lo, hi - 1)
  }

  /** What they pick. */
  function Picks(c: Config, h: seq<Event>, lo: nat, hi: nat): seq<Pick>
    requires lo <= hi <= |h| && Valid(c, h, hi)
    decreases hi
  {
    if lo == hi then []
    else if h[hi - 1].Attempt? then
      var s := At(c, h, hi - 1);
      Picks(c, h, lo, hi - 1) + [Choice(c, s, s.reqs[h[hi - 1].id], h[hi - 1].now).0]
    else Picks(c, h, lo, hi - 1)
  }

  /** None of them is a retry that excludes a replica. */
  predicate NoneExcludes(c: Config, h: seq<Event>, lo: nat, hi: nat)
    requires lo <= hi <= |h| && Valid(c, h, hi)
    decreases hi
  {
    lo == hi
    || (NoneExcludes(c, h, lo, hi - 1)
        && (h[hi - 1].Attempt? ==> At(c, h, hi - 1).reqs[h[hi - 1].id].phase == Ready(None)))
  }

  /** Only attempts move the cursor, so a run's picks are picks in a row. */
  lemma {:induction false} PicksInARow(c: Config, h: seq<Event>, lo: nat, hi: nat, start: nat)
    requires lo <= hi <= |h| && Valid(c, h, lo) && Valid(c, h, hi) && NoneExcludes(c, h, lo, hi)
    requires start == At(c, h, lo).next
    ensures Picks(c, h, lo, hi) == PickMany(c.urls, Moments(c, h, lo, hi), start, c.enabled)
    ensures At(c, h, hi).next == CursorAfter(c.urls, Moments(c, h, lo, hi), start, c.enabled)
    decreases hi
  {
    if lo < hi {
      var s, e := At(c, h, hi - 1), h[hi - 1];
      PicksInARow(c, h, lo, hi - 1, start);
      if e.Attempt? {
        OneMorePick(c.urls, Moments(c, h, lo, hi - 1), Moment(s.breakers, e.now), start, c.enabled);
      }
    }
  }

  /** In every run: while every attempt finds the same candidates, and none
      excludes any, each takes the next turn, whatever is recorded, probed and
      admitted in between. */
  lemma {:induction false} RunsTakeTurns(c: Config, h: seq<Event>, lo: nat, hi: nat, list: seq<string>)
    requires lo <= hi <= |h| && Valid(c, h, lo) && Valid(c, h, hi) && NoneExcludes(c, h, lo, hi)
    requires list != [] && Steady(c.urls, Moments(c, h, lo, hi), c.enabled, list)
    ensures forall i :: 0 <= i < |Picks(c, h, lo, hi)| ==>
              Picks(c, h, lo, hi)[i] == Picked(list[(At(c, h, lo).next + i + 1) % |list|])
  {
    var moments, start := Moments(c, h, lo, hi), At(c, h, lo).next;
    PicksInARow(c, h, lo, hi, start);
    PicksLength(c.urls, moments, start, c.enabled);
    forall i | 0 <= i < |moments|
      ensures PickMany(c.urls, moments, start, c.enabled)[i] == Picked(list[(start + i + 1) % |list|])
    {
      PickTakesTurn(c.urls, moments, start, c.enabled, list, i);
    }
  }

  /** Where the attempts among events lo..hi are sent. */
  function SentTo(c: Config, h: seq<Event>, lo: nat, hi: nat): seq<string>
    requires lo <= hi <= |h| && Valid(c, h, hi)
    decreases hi
  {
    if lo == hi then []
    else
      var before, e := SentTo(c, h, lo, hi - 1), h[hi - 1];
      if e.Attempt? && At(c, h, hi).reqs[e.id].phase.Sending?
      then before + [At(c, h, hi).reqs[e.id].phase.upstream] else before
  }

  /** Whenever one of them picks, these are the replicas that may be sent to. */
  ghost predicate StillServe(c: Config, h: seq<Event>, lo: nat, hi: nat, serving: set<string>)
    requires lo <= hi <= |h| && Valid(c, h, hi)
    decreases hi
  {
    lo == hi
    || (StillServe(c, h, lo, hi - 1, serving)
        && (h[hi - 1].Attempt? ==> Serve(serving, c.urls, At(c, h, hi - 1).breakers, c.enabled)))
  }

  lemma {:induction false} MomentsServe(c: Config, h: seq<Event>, lo: nat, hi: nat, serving: set<string>)
    requires lo <= hi <= |h| && Valid(c, h, hi) && StillServe(c, h, lo, hi, serving)
    ensures forall i :: 0 <= i < |Moments(c, h, lo, hi)| ==>
              Serve(serving, c.urls, Moments(c, h, lo, hi)[i].breakers, c.enabled)
    decreases hi
  {
    if lo < hi {
      MomentsServe(c, h, lo, hi - 1, serving);
    }
  }

  lemma AttemptSends(c: Config, s: Sys, id: nat, now: real, list: seq<string>)
    requires c.urls != [] && Enabled(c, s, Attempt(id, now)) && s.reqs[id].phase == Ready(None)
    requires list == Rotation(c.urls, s.breakers, c.enabled) != []
    ensures Step(c, s, Attempt(id, now)).reqs[id].phase == Sending(list[(s.next + 1) % |list|])
    ensures Choice(c, s, s.reqs[id], now).0 == Picked(list[(s.next + 1) % |list|])
  {
    PickFromRotation(c.urls, Moment(s.breakers, now), s.next, c.enabled, list);
  }

  lemma {:induction false} SentAsPicked(c: Config, h: seq<Event>, lo: nat, hi: nat, list: seq<string>)
    requires lo <= hi <= |h| && Valid(c, h, hi) && NoneExcludes(c, h, lo, hi)
    requires list != [] && Steady(c.urls, Moments(c, h, lo, hi), c.enabled, list)
    ensures Picks(c, h, lo, hi) == AllPicked(SentTo(c, h, lo, hi))
    ensures |SentTo(c, h, lo, hi)| == |Moments(c, h, lo, hi)|
    decreases hi
  {
    if lo < hi {
      var s, e, before := At(c, h, hi - 1), h[hi - 1], Moments(c, h, lo, hi - 1);
      if e.Attempt? {
        SteadyBefore(c.urls, Moments(c, h, lo, hi), before, Moment(s.breakers, e.now), c.enabled, list);
        AttemptSends(c, s, e.id, e.now, list);
        OneMorePicked(SentTo(c, h, lo, hi - 1), list[(s.next + 1) % |list|]);
      }
      SentAsPicked(c, h, lo, hi - 1, list);
    }
  }

  /** In every run: while the same replicas are closed whenever an attempt picks,
      and none excludes any, as many attempts as there are closed replicas send to
      each of them exactly as often as it is listed, and to no other; whatever is
      recorded, probed and admitted in between. */
  lemma {:induction false} RunsAreFair(c: Config, h: seq<Event>, lo: nat, hi: nat, serving: set<string>, u: string)
    requires lo <= hi <= |h| && Valid(c, h, lo) && Valid(c, h, hi) && NoneExcludes(c, h, lo, hi)
    requires StillServe(c, h, lo, hi, serving)
    requires |Moments(c, h, lo, hi)| == ServingCount(c.urls, serving) > 0
    ensures |SentTo(c, h, lo, hi)| == ServingCount(c.urls, serving)
    ensures multiset(SentTo(c, h, lo, hi))[u] == if u in serving then multiset(c.urls)[u] else 0
  {
    var moments, start, sent := Moments(c, h, lo, hi), At(c, h, lo).next, SentTo(c, h, lo, hi);
    var list := Rotation(c.urls, moments[0].breakers, c.enabled);
    MomentsServe(c, h, lo, hi, serving);
    ServingIsSteady(c.urls, moments, c.enabled, serving, list);
    RotationServes(c.urls, moments[0].breakers, c.enabled, serving);
    PicksInARow(c, h, lo, hi, start);
    SentAsPicked(c, h, lo, hi, list);
    PicksAreFair(c.urls, moments, start, c.enabled, serving, u);
    PickedCounts(sent, u);
  }

  // ---- One breaker in a whole run ----------------------------------------

  /** How a reply counts in the history of the breaker it is recorded in. */
  function CallOf(o: Outcome, now: real): BreakerHistory.Event {
    if Succeeds(o) then BreakerHistory.Success(now)
    else
      var kind := Classify(o);
      BreakerHistory.Failure(if kind.Some? then kind.value else Connect, now)
  }

  /** The calls meant for the breaker of u: the replies to sends that went to u,
      and what the prober did there. */
  function CallsFor(c: Config, h: seq<Event>, n: nat, u: string): seq<BreakerHistory.Event>
    requires n <= |h| && Valid(c, h, n)
  {
    if n == 0 then []
    else
      var before := CallsFor(c, h, n - 1, u);
      match h[n - 1]
      case Reply(id, o, _, now) =>
        if At(c, h, n - 1).reqs[id].phase.upstream == u then before + [CallOf(o, now)] else before
      case Probed(url, call, _) => if url == u then before + [call] else before
      case _ => before
  }

  lemma RecordedIsCall(b: Breaker, o: Outcome, now: real)
    ensures Recorded(b, o, now) == BreakerHistory.Step(b, CallOf(o, now))
    ensures BreakerHistory.Admissible(b, CallOf(o, now))
  {
  }

  /** The breaker of u moves with the calls meant for it, and with nothing else. */
  lemma BreakerMoves(c: Config, s: Sys, e: Event, u: string)
    requires c.urls != [] && Enabled(c, s, e) && u in s.breakers
    ensures u in Step(c, s, e).breakers
    ensures Step(c, s, e).breakers[u]
         == match e
            case Reply(id, o, _, now) =>
              if s.reqs[id].phase.upstream == u then Recorded(s.breakers[u], o, now) else s.breakers[u]
            case Probed(url, call, _) => if url == u then BreakerHistory.Step(s.breakers[u], call) else s.breakers[u]
            case _ => s.breakers[u]
  {
  }

  /** However requests interleave, the breaker of each replica is what its own
      calls alone make of it, and they are a gated history: all that holds of
      such histories holds of every breaker of every run. */
  lemma {:induction false} BreakersAreHistories(c: Config, h: seq<Event>, n: nat, u: string)
    requires n <= |h| && Valid(c, h, n) && u in c.urls
    ensures u in At(c, h, n).breakers
    ensures var calls := CallsFor(c, h, n, u);
            BreakerHistory.Gated(calls, |calls|) && BreakerHistory.At(calls, |calls|) == At(c, h, n).breakers[u]
  {
    if n > 0 {
      BreakersAreHistories(c, h, n - 1, u);
      var s, e := At(c, h, n - 1), h[n - 1];
      var before, calls := CallsFor(c, h, n - 1, u), CallsFor(c, h, n, u);
      BreakerMoves(c, s, e, u);
      if e.Reply? && s.reqs[e.id].phase.upstream == u {
        RecordedIsCall(s.breakers[u], e.outcome, e.now);
        BreakerHistory.OneMore(before, CallOf(e.outcome, e.now), calls);
      } else if e.Probed? && e.url == u {
        BreakerHistory.OneMore(before, e.call, calls);
      }
    }
  }

  /** ... with the stamps that the clock guarantees. */
  lemma {:induction false} BreakersAreTimed(c: Config, h: seq<Event>, n: nat, u: string)
    requires n <= |h| && Valid(c, h, n)
    ensures BreakerHistory.Timed(CallsFor(c, h, n, u), At(c, h, n).clock) && 0.0 <= At(c, h, n).clock
  {
    if n > 0 {
      BreakersAreTimed(c, h, n - 1, u);
      var before, calls := CallsFor(c, h, n - 1, u), CallsFor(c, h, n, u);
      var was, now := At(c, h, n - 1).clock, At(c, h, n).clock;
      if |calls| > |before| {
        BreakerHistory.OneMoreTimed(before, was, calls[|before|], now, calls);
      }
    }
  }

  /** So at every moment of every run every closed breaker is below the threshold
      in force, now and later. */
  lemma {:induction false} BreakersStayBelowThreshold(c: Config, h: seq<Event>, n: nat, u: string, now: real)
    requires n <= |h| && Valid(c, h, n) && u in c.urls && At(c, h, n).clock <= now
    ensures u in At(c, h, n).breakers
    ensures var b := At(c, h, n).breakers[u];
            b.Allows() ==> b.score < b.Threshold(now)
  {
    var calls := CallsFor(c, h, n, u);
    BreakersAreHistories(c, h, n, u);
    BreakersAreTimed(c, h, n, u);
    if BreakerHistory.At(calls, |calls|).state.Closed? {
      BreakerHistory.ClosedIsBelowThreshold(calls, |calls|, now);
    }
  }

  // ---- Slots over a whole run --------------------------------------------

  predicate HoldsFor(r: Request, key: string) {
    r.key == Some(key) && HoldsSlot(r)
  }

  /** The requests holding a slot of this key. */
  function Holders(reqs: map<nat, Request>, key: string): set<nat> {
    set id | id in reqs && HoldsFor(reqs[id], key)
  }

  lemma HoldersAfterPut(reqs: map<nat, Request>, id: nat, r: Request, key: string)
    ensures Holders(reqs[id := r], key)
         == if HoldsFor(r, key) then Holders(reqs, key) + {id} else Holders(reqs, key) - {id}
  {
  }

  /** From quota q, one request's stretch of code led to p: as seen by one key,
      the in-flight count moved with that request's hold on a slot. */
  predicate CountsHold(q: Quota, heldBefore: bool, p: Held, key: string) {
    p.0.Inflight(key) - q.Inflight(key) == (if HoldsFor(p.1, key) then 1 else 0) - (if heldBefore then 1 else 0)
  }

  lemma AdmitCounts(c: Config, q: Quota, who: Option<string>, stream: bool, key: string)
    ensures CountsHold(q, false, Admit(c, q, who, stream), key)
  {
  }

  lemma ChosenCounts(c: Config, q: Quota, r: Request, p: Pick, key: string)
    requires r.phase.Ready? && SlotsOk(c, r) && (HoldsFor(r, key) ==> q.Inflight(key) >= 1)
    ensures CountsHold(q, HoldsFor(r, key), Chosen(q, r, p), key)
  {
  }

  lemma ResolveCounts(c: Config, q: Quota, r: Request, o: Outcome, body: Option<Usage>, key: string)
    requires r.phase.Sending? && SlotsOk(c, r) && (HoldsFor(r, key) ==> q.Inflight(key) >= 1)
    ensures CountsHold(q, HoldsFor(r, key), Resolve(q, r, o, body), key)
  {
  }

  /** A step of one request moves the in-flight count of a key with that request's
      hold on a slot, and with nothing else. The floor under a release never
      matters to a count that is positive. */
  lemma {:induction false} CountMovesWithHold(c: Config, s: Sys, e: Event, key: string)
    requires c.urls != [] && Enabled(c, s, e) && !e.Probed?
    requires e.Arrive? || RequestOk(c, s.reqs[e.id])
    requires e.id in s.reqs && HoldsFor(s.reqs[e.id], key) ==> s.quota.Inflight(key) >= 1
    ensures var t := Step(c, s, e);
            CountsHold(s.quota, e.id in s.reqs && HoldsFor(s.reqs[e.id], key), (t.quota, t.reqs[e.id]), key)
  {
    match e
    case Arrive(id, who, stream) => AdmitCounts(c, s.quota, who, stream, key);
    case Attempt(id, now) => ChosenCounts(c, s.quota, s.reqs[id], Choice(c, s, s.reqs[id], now).0, key);
    case Reply(id, o, body, now) => ResolveCounts(c, s.quota, s.reqs[id], o, body, key);
    case Discarded(id) =>
    case Drained(id) =>
    case RelayDone(id, broken, usage) =>
  }

  /** A hold begins only at an arrival, below the cap. */
  lemma HoldsBeginBelowCap(c: Config, s: Sys, e: Event, key: string)
    requires c.urls != [] && Enabled(c, s, e) && !e.Probed?
    requires e.Arrive? || RequestOk(c, s.reqs[e.id])
    requires HoldsFor(Step(c, s, e).reqs[e.id], key) && !(e.id in s.reqs && HoldsFor(s.reqs[e.id], key))
    ensures e.Arrive? && key in c.caps && s.quota.Inflight(key) < c.caps[key]
  {
  }

  predicate SlotsConserved(c: Config, s: Sys, key: string) {
    && s.quota.Inflight(key) == |Holders(s.reqs, key)|
    && (key in c.caps ==> s.quota.Inflight(key) <= (if c.caps[key] < 0 then 0 else c.caps[key]))
    && (key !in c.caps ==> s.quota.Inflight(key) == 0)
  }

  lemma ReqsAfterStep(c: Config, s: Sys, e: Event)
    requires c.urls != [] && Enabled(c, s, e) && !e.Probed?
    ensures e.id in Step(c, s, e).reqs && Step(c, s, e).reqs == s.reqs[e.id := Step(c, s, e).reqs[e.id]]
  {
  }

  lemma {:induction false} StepConservesSlots(c: Config, s: Sys, e: Event, key: string)
    requires c.urls != [] && Enabled(c, s, e) && SlotsConserved(c, s, key)
    requires e.Probed? || e.Arrive? || RequestOk(c, s.reqs[e.id])
    ensures SlotsConserved(c, Step(c, s, e), key)
  {
    if !e.Probed? {
      var t := Step(c, s, e);
      var held := e.id in s.reqs && HoldsFor(s.reqs[e.id], key);
      assert held <==> e.id in Holders(s.reqs, key);
      CountMovesWithHold(c, s, e, key);
      ReqsAfterStep(c, s, e);
      HoldersAfterPut(s.reqs, e.id, t.reqs[e.id], key);
      if HoldsFor(t.reqs[e.id], key) && !held {
        HoldsBeginBelowCap(c, s, e, key);
      }
    }
  }

  /** At every moment of every run the in-flight count of a key is the number of
      its requests that hold a slot, and is within the key's cap. */
  lemma {:induction false} SlotConservation(c: Config, h: seq<Event>, n: nat, key: string)
    requires n <= |h| && Valid(c, h, n)
    ensures SlotsConserved(c, At(c, h, n), key)
  {
    if n > 0 {
      SlotConservation(c, h, n - 1, key);
      LedgersBalance(c, h, n - 1);
      StepConservesSlots(c, At(c, h, n - 1), h[n - 1], key);
    }
  }

  /** So no release is ever stray: a step that ends a request's hold finds the
      count positive and lowers it by exactly one; the floor never binds. */
  lemma {:induction false} FloorNeverBinds(c: Config, h: seq<Event>, n: nat, key: string)
    requires n < |h| && Valid(c, h, n + 1) && !h[n].Probed? && h[n].id in At(c, h, n).reqs
    requires HoldsFor(At(c, h, n).reqs[h[n].id], key) && !HoldsFor(At(c, h, n + 1).reqs[h[n].id], key)
    ensures At(c, h, n).quota.Inflight(key) >= 1
    ensures At(c, h, n + 1).quota.Inflight(key) == At(c, h, n).quota.Inflight(key) - 1
  {
    SlotConservation(c, h, n, key);
    LedgersBalance(c, h, n);
    assert h[n].id in Holders(At(c, h, n).reqs, key);
    CountMovesWithHold(c, At(c, h, n), h[n], key);
  }

  // ---- Tokens over a whole run -------------------------------------------

  /** A count that is missing is none. */
  function CountOf(count: Option<int>): int {
    if count.Some? then count.value else 0
  }

  /** No report made by event e adds more than `most` tokens. */
  predicate ReportsAtMost(e: Event, most: int) {
    match e
    case Reply(_, _, body, _) => body.Some? ==> CountOf(body.value.prompt) + CountOf(body.value.completion) <= most
    case RelayDone(_, _, usage) => CountOf(usage.prompt) + CountOf(usage.completion) <= most
    case _ => true
  }

  /** From quota q, one request's stretch of code led to p: it spent at most
      `most` tokens of the key, and none unless it ended a request of the key. */
  predicate SpendsAtEnd(q: Quota, p: Held, key: string, most: int) {
    && q.Used(key) <= p.0.Used(key) <= q.Used(key) + most
    && (p.0.Used(key) != q.Used(key) ==> p.1.key == Some(key) && p.1.phase.Finished?)
  }

  lemma ResolveSpends(q: Quota, r: Request, o: Outcome, body: Option<Usage>, key: string, most: int)
    requires r.phase.Sending? && 0 <= most
    requires body.Some? ==> CountOf(body.value.prompt) + CountOf(body.value.completion) <= most
    ensures SpendsAtEnd(q, Resolve(q, r, o, body), key, most)
  {
  }

  lemma ChosenSpends(q: Quota, r: Request, p: Pick, key: string)
    requires r.phase.Ready?
    ensures SpendsAtEnd(q, Chosen(q, r, p), key, 0)
  {
  }

  /** A step that spends tokens of a key ends a request of that key. */
  lemma {:induction false} SpendingEndsRequest(c: Config, s: Sys, e: Event, key: string, most: int)
    requires c.urls != [] && Enabled(c, s, e) && !e.Probed? && 0 <= most && ReportsAtMost(e, most)
    requires e.Arrive? || RequestOk(c, s.reqs[e.id])
    ensures var t := Step(c, s, e);
            SpendsAtEnd(s.quota, (t.quota, t.reqs[e.id]), key, most)
    ensures Step(c, s, e).quota.Used(key) != s.quota.Used(key) ==>
              e.id in s.reqs && s.reqs[e.id].key == Some(key) && !s.reqs[e.id].phase.Finished?
  {
    match e
    case Arrive(id, who, stream) =>
    case Attempt(id, now) => ChosenSpends(s.quota, s.reqs[id], Choice(c, s, s.reqs[id], now).0, key);
    case Reply(id, o, body, now) => ResolveSpends(s.quota, s.reqs[id], o, body, key, most);
    case Discarded(id) =>
    case Drained(id) =>
    case RelayDone(id, broken, usage) =>
  }

  function Positive(u: Usage): int {
    var total := CountOf(u.prompt) + CountOf(u.completion);
    if total > 0 then total else 0
  }

  /** What event e reports for a key: the usage in the body of an answer, or the
      last one seen in a stream, of a request made with that key. */
  function ReportFor(c: Config, s: Sys, e: Event, key: string): int
    requires Enabled(c, s, e)
  {
    match e
    case Reply(id, o, body, _) =>
      var r := s.reqs[id];
      if r.key == Some(key) && !r.stream && Succeeds(o) && body.Some? then Positive(body.value) else 0
    case RelayDone(id, _, usage) => if s.reqs[id].key == Some(key) then Positive(usage) else 0
    case _ => 0
  }

  lemma ResolveReports(q: Quota, r: Request, o: Outcome, body: Option<Usage>, key: string)
    requires r.phase.Sending?
    ensures Resolve(q, r, o, body).0.Used(key) - q.Used(key)
         == if r.key == Some(key) && !r.stream && Succeeds(o) && body.Some? then Positive(body.value) else 0
  {
  }

  lemma {:induction false} StepReports(c: Config, s: Sys, e: Event, key: string)
    requires c.urls != [] && Enabled(c, s, e)
    ensures Step(c, s, e).quota.Used(key) == s.quota.Used(key) + ReportFor(c, s, e, key)
  {
    match e
    case Attempt(id, now) => ChosenSpends(s.quota, s.reqs[id], Choice(c, s, s.reqs[id], now).0, key);
    case Reply(id, o, body, now) => ResolveReports(s.quota, s.reqs[id], o, body, key);
    case _ =>
  }

  function Reported(c: Config, h: seq<Event>, n: nat, key: string): int
    requires n <= |h| && Valid(c, h, n)
  {
    if n == 0 then 0 else Reported(c, h, n - 1, key) + ReportFor(c, At(c, h, n - 1), h[n - 1], key)
  }

  /** In every run a key has used exactly what was reported for its requests. */
  lemma {:induction false} TokensAreExact(c: Config, h: seq<Event>, n: nat, key: string)
    requires n <= |h| && Valid(c, h, n)
    ensures At(c, h, n).quota.Used(key) == Reported(c, h, n, key)
  {
    if n > 0 {
      TokensAreExact(c, h, n - 1, key);
      StepReports(c, At(c, h, n - 1), h[n - 1], key);
    }
  }

  /** The usage event e reports for a key, if any. */
  function UsageFor(c: Config, s: Sys, e: Event, key: string): Option<Usage>
    requires Enabled(c, s, e)
  {
    match e
    case Reply(id, o, body, _) =>
      if s.reqs[id].key == Some(key) && !s.reqs[id].stream && Succeeds(o) then body else None
    case RelayDone(id, _, usage) => if s.reqs[id].key == Some(key) then Some(usage) else None
    case _ => None
  }

  function PromptTokens(c: Config, h: seq<Event>, n: nat, key: string): int
    requires n <= |h| && Valid(c, h, n)
  {
    if n == 0 then 0
    else
      var u := UsageFor(c, At(c, h, n - 1), h[n - 1], key);
      PromptTokens(c, h, n - 1, key) + (if u.Some? && u.value.prompt.Some? then u.value.prompt.value else 0)
  }

  function CompletionTokens(c: Config, h: seq<Event>, n: nat, key: string): int
    requires n <= |h| && Valid(c, h, n)
  {
    if n == 0 then 0
    else
      var u := UsageFor(c, At(c, h, n - 1), h[n - 1], key);
      CompletionTokens(c, h, n - 1, key) + (if u.Some? && u.value.completion.Some? then u.value.completion.value else 0)
  }

  /** A report whose counts are not negative. */
  predicate CountsUp(e: Event) {
    match e
    case Reply(_, _, body, _) => body.Some? ==> CountOf(body.value.prompt) >= 0 && CountOf(body.value.completion) >= 0
    case RelayDone(_, _, usage) => CountOf(usage.prompt) >= 0 && CountOf(usage.completion) >= 0
    case _ => true
  }

  /** As long as no count is negative, a key has used the prompt tokens and the
      completion tokens reported for its requests, all of both. */
  lemma {:induction false} TokensArePromptAndCompletion(c: Config, h: seq<Event>, n: nat, key: string)
    requires n <= |h| && Valid(c, h, n) && forall i :: 0 <= i < n ==> CountsUp(h[i])
    ensures At(c, h, n).quota.Used(key) == PromptTokens(c, h, n, key) + CompletionTokens(c, h, n, key)
  {
    if n > 0 {
      TokensArePromptAndCompletion(c, h, n - 1, key);
      StepReports(c, At(c, h, n - 1), h[n - 1], key);
      assert CountsUp(h[n - 1]);
    }
  }

  // ---- Admission over a whole run ----------------------------------------

  lemma Admits(c: Config, q: Quota, key: Option<string>, stream: bool)
    ensures var r := Admit(c, q, key, stream).1;
            var over := key.Some? && key.value in c.budgets && q.Used(key.value) >= c.budgets[key.value];
            var full := key.Some? && key.value in c.caps && q.Inflight(key.value) >= c.caps[key.value];
            && r.key == key && r.stream == stream
            && r.phase == (if over then Finished(Rejected(TokenBudgetExceeded))
                           else if full then Finished(Rejected(ConcurrencyCapExceeded)) else Ready(None))
            && (HoldsSlot(r) <==> !over && !full && key.Some? && key.value in c.caps)
  {
  }

  /** In every run: a request is turned away for its budget exactly if its key has
      one and the tokens reported for the key so far reach it; for concurrency
      exactly if not that, and its key has a cap and at least as many requests of
      the key hold a slot; and is otherwise let in, with a slot exactly if its key
      has a cap. */
  lemma {:induction false} AdmissionIsExact(c: Config, h: seq<Event>, n: nat, key: Option<string>)
    requires n < |h| && Valid(c, h, n + 1) && h[n].Arrive? && h[n].key == key
    ensures var r := At(c, h, n + 1).reqs[h[n].id];
            var over := key.Some? && key.value in c.budgets && Reported(c, h, n, key.value) >= c.budgets[key.value];
            var full := key.Some? && key.value in c.caps
                        && |Holders(At(c, h, n).reqs, key.value)| >= c.caps[key.value];
            && r.key == key && r.stream == h[n].stream
            && (r.phase == Finished(Rejected(TokenBudgetExceeded)) <==> over)
            && (r.phase == Finished(Rejected(ConcurrencyCapExceeded)) <==> !over && full)
            && (r.phase == Ready(None) <==> !over && !full)
            && (HoldsSlot(r) <==> !over && !full && key.Some? && key.value in c.caps)
  {
    Admits(c, At(c, h, n).quota, key, h[n].stream);
    if key.Some? {
      TokensAreExact(c, h, n, key.value);
      SlotConservation(c, h, n, key.value);
    }
  }

  lemma AdmittedUnderBudget(c: Config, s: Sys, e: Event, key: string)
    requires c.urls != [] && Enabled(c, s, e) && e.Arrive? && key in c.budgets && key in c.caps
    requires HoldsFor(Step(c, s, e).reqs[e.id], key)
    ensures s.quota.Used(key) < c.budgets[key]
  {
  }

  lemma OneSlotLess(i: int, most: int)
    ensures (i - 1) * most == i * most - most
  {
  }

  lemma SlotsTimesMost(i: int, cap: int, most: int)
    requires i <= cap && 0 <= most
    ensures i * most <= cap * most
  {
  }

  lemma {:induction false} StepKeepsTokenBound(c: Config, s: Sys, e: Event, key: string, most: int)
    requires c.urls != [] && Enabled(c, s, e) && SlotsConserved(c, s, key)
    requires e.Probed? || e.Arrive? || RequestOk(c, s.reqs[e.id])
    requires key in c.budgets && key in c.caps && c.caps[key] >= 0 && 0 <= most && ReportsAtMost(e, most)
    requires s.quota.Used(key) + s.quota.Inflight(key) * most <= c.budgets[key] - 1 + c.caps[key] * most
    ensures var q := Step(c, s, e).quota;
            q.Used(key) + q.Inflight(key) * most <= c.budgets[key] - 1 + c.caps[key] * most
  {
    if !e.Probed? {
      var t := Step(c, s, e);
      var held := e.id in s.reqs && HoldsFor(s.reqs[e.id], key);
      assert held <==> e.id in Holders(s.reqs, key);
      CountMovesWithHold(c, s, e, key);
      SpendingEndsRequest(c, s, e, key, most);
      if HoldsFor(t.reqs[e.id], key) && !held {
        HoldsBeginBelowCap(c, s, e, key);
        AdmittedUnderBudget(c, s, e, key);
        SlotsTimesMost(t.quota.Inflight(key), c.caps[key], most);
      }
      OneSlotLess(s.quota.Inflight(key), most);
    }
  }

  /** A key with budget B >= 1 and cap k overshoots its budget by less than k
      requests' worth: if no request reports more than `most` tokens, the key
      never uses more than B - 1 + k * most. */
  lemma {:induction false} TokenOvershootBound(c: Config, h: seq<Event>, n: nat, key: string, most: int)
    requires n <= |h| && Valid(c, h, n)
    requires key in c.budgets && c.budgets[key] >= 1 && key in c.caps && c.caps[key] >= 0
    requires 0 <= most && forall i :: 0 <= i < n ==> ReportsAtMost(h[i], most)
    ensures var q := At(c, h, n).quota;
            && q.Used(key) + q.Inflight(key) * most <= c.budgets[key] - 1 + c.caps[key] * most
            && q.Used(key) <= c.budgets[key] - 1 + c.caps[key] * most
  {
    if n > 0 {
      TokenOvershootBound(c, h, n - 1, key, most);
      SlotConservation(c, h, n - 1, key);
      LedgersBalance(c, h, n - 1);
      StepKeepsTokenBound(c, At(c, h, n - 1), h[n - 1], key, most);
    } else {
      SlotsTimesMost(0, c.caps[key], most);
    }
    SlotConservation(c, h, n, key);
    SlotsTimesMost(0, At(c, h, n).quota.Inflight(key), most);
  }
}
