/** The chat route on the mutable quota: where a slot is taken, who owns it, and
    which of the three releases gives it back (gateway/routes/chat.py). Each
    method is one stretch of code without an await, and is proved to be the step
    of the same request in Gateway; the theorems there are about these steps. */
module Route {
  import opened Basics
  import opened Pool
  import opened Quotas
  import opened Gateway
  import Relay

  /** The gate before the pool: budget, then slot. */
  method Admission(c: Config, quota: QuotaTracker, key: Option<string>, stream: bool) returns (r: Request)
    modifies quota
    ensures (quota.View(), r) == Admit(c, old(quota.View()), key, stream)
  {
    if key.Some? && key.value in c.budgets {
      var rejected := quota.CheckTokenBudget(key.value, c.budgets[key.value]);
      if rejected.Some? {
        return NewRequest(key, stream, Finished(Rejected(rejected.value)), 0);
      }
    }
    var taken := 0;
    if key.Some? && key.value in c.caps {
      var rejected := quota.AcquireSlot(key.value, c.caps[key.value]);
      if rejected.Some? {
        return NewRequest(key, stream, Finished(Rejected(rejected.value)), 0);
      }
      taken := 1;
    }
    return NewRequest(key, stream, Ready(None), taken);
  }

  method ReleaseSlotOf(quota: QuotaTracker, r: Request) returns (t: Request)
    modifies quota
    ensures (quota.View(), t) == GiveBack((old(quota.View()), r))
  {
    t := r;
    if r.key.Some? {
      quota.ReleaseSlot(r.key.value);
      t := r.(given := r.given + 1);
    }
  }

  method RecordUsage(quota: QuotaTracker, r: Request, usage: Usage)
    modifies quota
    ensures (quota.View(), r) == Charge((old(quota.View()), r), usage)
  {
    if usage.prompt.None? && usage.completion.None? {
      return;
    }
    var prompt := if usage.prompt.Some? then usage.prompt.value else 0;
    var completion := if usage.completion.Some? then usage.completion.value else 0;
    if r.key.Some? {
      quota.Charge(r.key.value, prompt + completion);
    }
  }

  /** An exception leaving the pool or the streaming half, on its way out through
      their handlers. */
  method Fail(quota: QuotaTracker, r: Request, exit: Exit) returns (t: Request)
    modifies quota
    ensures (quota.View(), t) == End(Fails((old(quota.View()), r)), exit)
  {
    t := r;
    if r.stream && r.taken > 0 {
      t := ReleaseSlotOf(quota, t);
    }
    if r.taken > 0 && !r.stream {
      t := ReleaseSlotOf(quota, t);
    }
    t := t.(phase := Finished(exit));
  }

  /** A pick that found no replica ends the request; one that did starts a send. */
  method AfterPick(quota: QuotaTracker, r: Request, p: Pick) returns (t: Request)
    requires r.phase.Ready?
    modifies quota
    ensures (quota.View(), t) == Chosen(old(quota.View()), r, p)
  {
    if p.AllOpen? {
      t := Fail(quota, r, NoReplica(RetryAfterHeader(p.retryAfter)));
    } else {
      t := r.(phase := Sending(p.url), sent := r.sent + [p.url]);
    }
  }

  /** From the moment a send came back and was recorded to the next await. */
  method AfterSend(quota: QuotaTracker, r: Request, o: Outcome, body: Option<Usage>) returns (t: Request)
    requires r.phase.Sending?
    modifies quota
    ensures (quota.View(), t) == Resolve(old(quota.View()), r, o, body)
  {
    var u := r.phase.upstream;
    t := r.(recorded := r.recorded + [u], outcomes := r.outcomes + [o],
            opens := if r.stream && o.Response? then r.opens + 1 else r.opens);
    if !Succeeds(o) && |r.sent| < MAX_ATTEMPTS && ShouldRetry(o) {
      return t.(phase := if r.stream && o.Response? then Discarding(u) else Ready(Some(u)));
    }
    if o.Raised? {
      t := Fail(quota, t, Unreachable);
      return;
    }
    if r.stream {
      return t.(phase := if o.status < 400 then Relaying else Draining(o.status));
    }
    if t.taken > 0 {
      t := ReleaseSlotOf(quota, t);
    }
    if o.status < 400 && body.None? {
      return t.(phase := Finished(BadResponse));
    }
    RecordUsage(quota, t, if o.status < 400 then body.value else Usage(None, None));
    return t.(phase := Finished(if o.status < 400 then Answered else UpstreamStatus(o.status)));
  }

  /** A streamed error response has been drained and closed. */
  method AfterDrain(quota: QuotaTracker, r: Request) returns (t: Request)
    requires r.phase.Draining?
    modifies quota
    ensures (quota.View(), t)
         == End(Fails((old(quota.View()), r.(closes := r.closes + 1))), UpstreamStatus(r.phase.status))
  {
    t := Fail(quota, r.(closes := r.closes + 1), UpstreamStatus(r.phase.status));
  }

  /** The relay's `finally`, once the response is closed. */
  method AfterRelay(quota: QuotaTracker, r: Request, broken: bool, usage: Usage) returns (t: Request)
    requires r.phase.Relaying?
    modifies quota
    ensures (quota.View(), t)
         == End(Charge(RelayFinally((old(quota.View()), r.(closes := r.closes + 1))), usage), StreamEnded(broken))
  {
    t := r.(closes := r.closes + 1);
    if t.taken > 0 {
      t := ReleaseSlotOf(quota, t);
    }
    RecordUsage(quota, t, usage);
    t := t.(phase := Finished(StreamEnded(broken)));
  }

  /** The usage a stream ends with: an empty one unless some event carried one. */
  function UsageOf(seen: Option<Usage>): Usage {
    if seen.Some? then seen.value else Usage(None, None)
  }

  /** A whole relayed answer, with the quota as the relay's `finally` finds it. */
  method RelayAnswer(
    quota: QuotaTracker, r: Request, chunks: seq<Relay.Bytes>, broken: bool, read: Relay.Bytes -> Relay.Reading<Usage>,
    error: seq<Relay.Bytes>)
    returns (yielded: seq<Relay.Bytes>, t: Request)
    requires r.phase.Relaying?
    modifies quota
    ensures yielded == chunks + (if broken then error else [])
    ensures var usage := UsageOf(Relay.LastUsage(Relay.Split(Relay.Concat(chunks)).events, Relay.Reader(read)));
            (quota.View(), t)
            == End(Charge(RelayFinally((old(quota.View()), r.(closes := r.closes + 1))), usage), StreamEnded(broken))
  {
    var seen;
    yielded, seen := Relay.RelayUsage(chunks, broken, read, error);
    t := AfterRelay(quota, r, broken, UsageOf(seen));
  }

  /** The end of a stream charges its key the last usage among the events found in
      the stream; so nothing if none carries one, and nothing if the stream has
      no separator at all, whatever its lines say. */
  lemma {:induction false} StreamIsCharged(
    c: Config, s: Sys, id: nat, broken: bool, b: Relay.Bytes, parse: Relay.Bytes -> Option<Usage>, key: string,
    e: Event)
    requires c.urls != [] && e == RelayDone(id, broken, UsageOf(Relay.LastUsage(Relay.Split(b).events, parse)))
    requires Enabled(c, s, e)
    ensures var seen := Relay.LastUsage(Relay.Split(b).events, parse);
            Step(c, s, e).quota.Used(key) - s.quota.Used(key)
            == if s.reqs[id].key == Some(key) && seen.Some? then
                 var total := (if seen.value.prompt.Some? then seen.value.prompt.value else 0)
                              + (if seen.value.completion.Some? then seen.value.completion.value else 0);
                 if total > 0 then total else 0
               else 0
    ensures (forall i :: !Relay.SeparatorAt(b, i)) ==> Step(c, s, e).quota.Used(key) == s.quota.Used(key)
  {
    StepReports(c, s, e, key);
    Relay.SplitFindsNothing(b);
  }
}
