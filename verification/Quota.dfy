/** Per-key token budgets and concurrency caps (gateway/quota.py). */
module Quotas {
  import opened Basics

  datatype Reject = TokenBudgetExceeded | ConcurrencyCapExceeded

  datatype Quota = Quota(inflight: map<string, int>, used: map<string, int>)
  {
    function Inflight(key: string): int {
      if key in inflight then inflight[key] else 0
    }

    function Used(key: string): int {
      if key in used then used[key] else 0
    }
  }

  function Empty(): Quota {
    Quota(map[], map[])
  }

  datatype Op =
    | CheckBudget(key: string, budget: int)
    | Acquire(key: string, cap: int)
    | Release(key: string)
    | RecordUsage(key: string, total: int)

  /** The exception an operation raises, if any. */
  function Verdict(q: Quota, op: Op): Option<Reject> {
    match op
    case CheckBudget(key, budget) => if q.Used(key) >= budget then Some(TokenBudgetExceeded) else None
    case Acquire(key, cap) => if q.Inflight(key) >= cap then Some(ConcurrencyCapExceeded) else None
    case Release(_) => None
    case RecordUsage(_, _) => None
  }

  function Apply(q: Quota, op: Op): Quota {
    match op
    case CheckBudget(_, _) => q
    case Acquire(key, cap) =>
      if q.Inflight(key) >= cap then q else q.(inflight := q.inflight[key := q.Inflight(key) + 1])
    case Release(key) =>
      q.(inflight := q.inflight[key := if q.Inflight(key) < 1 then 0 else q.Inflight(key) - 1])
    case RecordUsage(key, total) =>
      if total > 0 then q.(used := q.used[key := q.Used(key) + total]) else q
  }

  // ---- Runs of operations ------------------------------------------------

  function After(h: seq<Op>, n: nat): Quota
    requires n <= |h|
  {
    if n == 0 then Empty() else Apply(After(h, n - 1), h[n - 1])
  }

  /** The verdicts on one key's operations. */
  function Verdicts(h: seq<Op>, n: nat, key: string): seq<Option<Reject>>
    requires n <= |h|
  {
    if n == 0 then []
    else if h[n - 1].key == key then Verdicts(h, n - 1, key) + [Verdict(After(h, n - 1), h[n - 1])]
    else Verdicts(h, n - 1, key)
  }

  function Project(h: seq<Op>, n: nat, key: string): seq<Op>
    requires n <= |h|
  {
    if n == 0 then []
    else if h[n - 1].key == key then Project(h, n - 1, key) + [h[n - 1]]
    else Project(h, n - 1, key)
  }

  lemma {:induction false} PrefixDecides(x: seq<Op>, y: seq<Op>, n: nat, key: string)
    requires n <= |x|
    ensures After(x + y, n) == After(x, n)
    ensures Verdicts(x + y, n, key) == Verdicts(x, n, key)
  {
    if n > 0 {
      PrefixDecides(x, y, n - 1, key);
    }
  }

  /** The projection holds all operations on the key, as often as they occur, and
      no others; each has its verdict. */
  lemma {:induction false} ProjectIsOneKeys(h: seq<Op>, n: nat, key: string, op: Op)
    requires n <= |h|
    ensures multiset(Project(h, n, key))[op] == if op.key == key then multiset(h[..n])[op] else 0
    ensures |Verdicts(h, n, key)| == |Project(h, n, key)|
  {
    if n > 0 {
      ProjectIsOneKeys(h, n - 1, key, op);
      assert h[..n] == h[..n - 1] + [h[n - 1]];
    }
  }

  /** Key isolation: however the keys' operations interleave, one key sees the
      verdicts and the counters it would see if it were alone. */
  lemma {:induction false} KeyIsolation(h: seq<Op>, n: nat, key: string)
    requires n <= |h|
    ensures var alone := Project(h, n, key);
            && Verdicts(h, n, key) == Verdicts(alone, |alone|, key)
            && After(h, n).Inflight(key) == After(alone, |alone|).Inflight(key)
            && After(h, n).Used(key) == After(alone, |alone|).Used(key)
  {
    if n > 0 {
      KeyIsolation(h, n - 1, key);
      if h[n - 1].key == key {
        var before := Project(h, n - 1, key);
        PrefixDecides(before, [h[n - 1]], |before|, key);
      }
    }
  }

  /** The positive totals recorded for one key. */
  function Charged(h: seq<Op>, n: nat, key: string): int
    requires n <= |h|
  {
    if n == 0 then 0
    else
      Charged(h, n - 1, key)
      + (if h[n - 1].RecordUsage? && h[n - 1].key == key && h[n - 1].total > 0 then h[n - 1].total else 0)
  }

  /** The slots of one key granted, and given back, by the first n operations. */
  function Granted(h: seq<Op>, n: nat, key: string): nat
    requires n <= |h|
  {
    if n == 0 then 0
    else
      Granted(h, n - 1, key)
      + (if h[n - 1].Acquire? && h[n - 1].key == key && Verdict(After(h, n - 1), h[n - 1]).None? then 1 else 0)
  }

  function GivenBack(h: seq<Op>, n: nat, key: string): nat
    requires n <= |h|
  {
    if n == 0 then 0
    else GivenBack(h, n - 1, key) + (if h[n - 1] == Release(key) then 1 else 0)
  }

  /** `used` is the exact sum of the positive totals. `inflight` is never
      negative, and is grants minus releases as long as no release was stray. */
  lemma {:induction false} CountersAreExact(h: seq<Op>, n: nat, key: string)
    requires n <= |h|
    ensures After(h, n).Used(key) == Charged(h, n, key)
    ensures After(h, n).Inflight(key) >= 0
    ensures (forall m: nat :: m <= n ==> GivenBack(h, m, key) <= Granted(h, m, key)) ==>
              After(h, n).Inflight(key) == Granted(h, n, key) - GivenBack(h, n, key)
  {
    if n > 0 {
      CountersAreExact(h, n - 1, key);
    }
  }

  /** In terms of the run: a budget check rejects exactly if the positive totals
      recorded for the key reach the budget, and an acquisition exactly if the
      slots granted and not given back reach the cap, as long as no release was
      stray. */
  lemma {:induction false} VerdictsAreExact(h: seq<Op>, n: nat, key: string, limit: int)
    requires n <= |h|
    ensures Verdict(After(h, n), CheckBudget(key, limit))
         == if Charged(h, n, key) >= limit then Some(TokenBudgetExceeded) else None
    ensures (forall m: nat :: m <= n ==> GivenBack(h, m, key) <= Granted(h, m, key)) ==>
              Verdict(After(h, n), Acquire(key, limit))
              == if Granted(h, n, key) - GivenBack(h, n, key) >= limit then Some(ConcurrencyCapExceeded) else None
  {
    CountersAreExact(h, n, key);
  }

  // ---- The mutable tracker -----------------------------------------------

  class QuotaTracker {
    var inflight: map<string, int>
    var tokensUsed: map<string, int>

    ghost function View(): Quota
      reads this
    {
      Quota(inflight, tokensUsed)
    }

    constructor ()
      ensures View() == Empty()
    {
      inflight, tokensUsed := map[], map[];
    }

    function TokensUsed(key: string): (t: int)
      reads this
      ensures t == View().Used(key)
    {
      if key in tokensUsed then tokensUsed[key] else 0
    }

    method CheckTokenBudget(key: string, budget: int) returns (rejected: Option<Reject>)
      ensures rejected == Verdict(View(), CheckBudget(key, budget))
    {
      return if TokensUsed(key) >= budget then Some(TokenBudgetExceeded) else None;
    }

    method Charge(key: string, total: int)
      modifies this
      ensures View() == Apply(old(View()), RecordUsage(key, total))
    {
      if total > 0 {
        tokensUsed := tokensUsed[key := TokensUsed(key) + total];
      }
    }

    method AcquireSlot(key: string, cap: int) returns (rejected: Option<Reject>)
      modifies this
      ensures rejected == Verdict(old(View()), Acquire(key, cap))
      ensures View() == Apply(old(View()), Acquire(key, cap))
    {
      var current := if key in inflight then inflight[key] else 0;
      if current >= cap {
        return Some(ConcurrencyCapExceeded);
      }
      inflight := inflight[key := current + 1];
      return None;
    }

    method ReleaseSlot(key: string)
      modifies this
      ensures View() == Apply(old(View()), Release(key))
    {
      var current := if key in inflight then inflight[key] else 0;
      inflight := inflight[key := if current - 1 < 0 then 0 else current - 1];
    }

    method Reset()
      modifies this
      ensures View() == Empty()
    {
      inflight, tokensUsed := map[], map[];
    }
  }
}
