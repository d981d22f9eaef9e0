/** Reducing a vLLM metrics exposition to a handful of numbers
    (gateway/upstream/metrics_scraper.py, SERIES and parse). The text parser's
    output, families of named samples, is the input here. */
module Scrape {
  datatype Sample = Sample(name: string, value: real)

  datatype Combine = Summed | Largest

  const WAITING := "vllm:num_requests_waiting"
  const GENERATION := "vllm:generation_tokens_total"

  const SERIES: map<string, Combine> := map[
    WAITING := Summed,
    "vllm:num_requests_running" := Summed,
    GENERATION := Summed,
    "vllm:prompt_tokens_total" := Summed,
    "vllm:num_preemptions_total" := Summed,
    "vllm:prefix_cache_hits_total" := Summed,
    "vllm:prefix_cache_queries_total" := Summed,
    "vllm:kv_cache_usage_perc" := Largest
  ]

  /** The samples of all families, in order. */
  function Flatten(families: seq<seq<Sample>>): seq<Sample> {
    if families == [] then []
    else Flatten(families[..|families| - 1]) + families[|families| - 1]
  }

  function Total(samples: seq<Sample>, name: string): real {
    if samples == [] then 0.0
    else
      var last := samples[|samples| - 1];
      Total(samples[..|samples| - 1], name) + (if last.name == name then last.value else 0.0)
  }

  ghost predicate Occurs(samples: seq<Sample>, name: string) {
    exists s :: s in samples && s.name == name
  }

  /** A listed series that occurs is reported, by its sum or by its maximum over
      every sample of exactly that name; any other name is not reported. */
  ghost predicate EntryReduces(
    series: map<string, Combine>, samples: seq<Sample>, out: map<string, real>, name: string)
  {
    && (name in out <==> name in series && Occurs(samples, name))
    && (name in out ==>
          match series[name]
          case Summed => out[name] == Total(samples, name)
          case Largest =>
            && Sample(name, out[name]) in samples
            && forall s :: s in samples && s.name == name ==> s.value <= out[name])
  }

  ghost predicate Reduces(series: map<string, Combine>, samples: seq<Sample>, out: map<string, real>) {
    forall name :: EntryReduces(series, samples, out, name)
  }

  /** The families' samples are all there, in order. */
  lemma {:induction false} FlattenIsAll(f: seq<seq<Sample>>, g: seq<seq<Sample>>, x: seq<Sample>)
    ensures Flatten([]) == [] && Flatten([x]) == x
    ensures Flatten(f + g) == Flatten(f) + Flatten(g)
  {
    if g == [] {
      assert f + g == f;
    } else {
      var front, last := g[..|g| - 1], g[|g| - 1];
      FlattenIsAll(f, front, x);
      assert (f + g)[..|f + g| - 1] == f + front;
    }
  }

  /** And a total adds up the values of the samples of that name, and no others. */
  lemma {:induction false} TotalIsSum(a: seq<Sample>, b: seq<Sample>, name: string, s: Sample)
    ensures Total([], name) == 0.0 && Total([s], name) == (if s.name == name then s.value else 0.0)
    ensures Total(a + b, name) == Total(a, name) + Total(b, name)
  {
    if b == [] {
      assert a + b == a;
    } else {
      var front := b[..|b| - 1];
      TotalIsSum(a, front, name, s);
      assert (a + b)[..|a + b| - 1] == a + front;
    }
  }

  /** Which series are reported, and how: these seven by their sums, the cache
      ratio by its maximum, and no other. */
  lemma {:induction false} SeriesAre(samples: seq<Sample>, out: map<string, real>, name: string)
    requires Reduces(SERIES, samples, out)
    ensures name in {"vllm:num_requests_waiting", "vllm:num_requests_running", "vllm:generation_tokens_total",
                     "vllm:prompt_tokens_total", "vllm:num_preemptions_total", "vllm:prefix_cache_hits_total",
                     "vllm:prefix_cache_queries_total"} ==>
              (name in out <==> Occurs(samples, name)) && (name in out ==> out[name] == Total(samples, name))
    ensures name == "vllm:kv_cache_usage_perc" ==>
              && (name in out <==> Occurs(samples, name))
              && (name in out ==>
                    && Sample(name, out[name]) in samples
                    && forall s :: s in samples && s.name == name ==> s.value <= out[name])
    ensures name !in {"vllm:num_requests_waiting", "vllm:num_requests_running", "vllm:generation_tokens_total",
                      "vllm:prompt_tokens_total", "vllm:num_preemptions_total", "vllm:prefix_cache_hits_total",
                      "vllm:prefix_cache_queries_total", "vllm:kv_cache_usage_perc"} ==>
              name !in out
  {
    assert EntryReduces(SERIES, samples, out, name);
    assert |name| > 5 && name[5] != 'k' ==> name != "vllm:kv_cache_usage_perc";
  }

  /** Folding in one more sample. */
  function Folded(series: map<string, Combine>, out: map<string, real>, s: Sample): map<string, real>
    requires out.Keys <= series.Keys
  {
    if s.name !in series then out
    else if s.name !in out then out[s.name := s.value]
    else if series[s.name].Summed? then out[s.name := out[s.name] + s.value]
    else out[s.name := if out[s.name] < s.value then s.value else out[s.name]]
  }

  lemma {:induction false} NoneTotalsZero(samples: seq<Sample>, name: string)
    requires !Occurs(samples, name)
    ensures Total(samples, name) == 0.0
  {
    if samples != [] {
      NoneTotalsZero(samples[..|samples| - 1], name);
    }
  }

  lemma OneMore(series: map<string, Combine>, samples: seq<Sample>, out: map<string, real>, s: Sample)
    requires Reduces(series, samples, out)
    ensures out.Keys <= series.Keys
    ensures Reduces(series, samples + [s], Folded(series, out, s))
  {
    forall name | name in out ensures name in series {
      assert EntryReduces(series, samples, out, name);
    }
    forall name ensures EntryReduces(series, samples + [s], Folded(series, out, s), name) {
      assert EntryReduces(series, samples, out, name);
      assert (samples + [s])[..|samples|] == samples;
      if name != s.name {
        assert Occurs(samples + [s], name) <==> Occurs(samples, name) by {
          if Occurs(samples, name) {
            var t :| t in samples && t.name == name;
            assert t in samples + [s];
          }
        }
      } else {
        assert s in samples + [s];
        if name in series && name !in out {
          NoneTotalsZero(samples, name);
        }
      }
    }
  }

  method Parse(families: seq<seq<Sample>>) returns (out: map<string, real>)
    ensures Reduces(SERIES, Flatten(families), out)
  {
    out := map[];
    ghost var done: seq<Sample> := [];
    for i := 0 to |families|
      invariant done == Flatten(families[..i])
      invariant Reduces(SERIES, done, out)
    {
      var family := families[i];
      for j := 0 to |family|
        invariant done == Flatten(families[..i]) + family[..j]
        invariant Reduces(SERIES, done, out)
      {
        var s := family[j];
        OneMore(SERIES, done, out, s);
        if s.name in SERIES {
          if s.name !in out {
            out := out[s.name := s.value];
          } else if SERIES[s.name].Summed? {
            out := out[s.name := out[s.name] + s.value];
          } else {
            out := out[s.name := if out[s.name] < s.value then s.value else out[s.name]];
          }
        }
        done := done + [s];
      }
      assert families[..i + 1][..i] == families[..i];
    }
    assert families[..|families|] == families;
  }

  /** Only the samples of listed series. */
  function Relevant(samples: seq<Sample>): (r: seq<Sample>)
    ensures forall s :: s in r <==> s in samples && s.name in SERIES
  {
    if samples == [] then []
    else
      var last := samples[|samples| - 1];
      Relevant(samples[..|samples| - 1]) + (if last.name in SERIES then [last] else [])
  }

  lemma {:induction false} RelevantTotal(samples: seq<Sample>, name: string)
    requires name in SERIES
    ensures Total(Relevant(samples), name) == Total(samples, name)
  {
    if samples != [] {
      var rest, last := samples[..|samples| - 1], samples[|samples| - 1];
      RelevantTotal(rest, name);
      if last.name in SERIES {
        assert Relevant(samples)[..|Relevant(rest)|] == Relevant(rest);
      } else {
        assert Relevant(samples) == Relevant(rest);
      }
    }
  }

  lemma {:induction false} TotalWithout(samples: seq<Sample>, i: nat, name: string)
    requires i < |samples|
    ensures Total(samples, name)
         == Total(samples[..i] + samples[i + 1..], name) + (if samples[i].name == name then samples[i].value else 0.0)
  {
    var n := |samples| - 1;
    if i < n {
      TotalWithout(samples[..n], i, name);
      assert samples[..n][..i] == samples[..i];
      assert (samples[..i] + samples[i + 1..])[..n - 1] == samples[..i] + samples[..n][i + 1..];
    } else {
      assert samples[..i] + samples[i + 1..] == samples[..n];
    }
  }

  lemma BagWithout(a: seq<Sample>, b: seq<Sample>, i: nat, front: seq<Sample>, rest: seq<Sample>)
    requires multiset(a) == multiset(b) && a != [] && i < |b| && b[i] == a[|a| - 1]
    requires front == a[..|a| - 1] && rest == b[..i] + b[i + 1..]
    ensures multiset(front) == multiset(rest)
  {
    var s := a[|a| - 1];
    assert a == front + [s];
    assert b == b[..i] + [s] + b[i + 1..];
    assert multiset(front) == multiset(a) - multiset{s};
    assert multiset(rest) == multiset(b) - multiset{s};
  }

  lemma {:induction false} TotalIgnoresOrder(a: seq<Sample>, b: seq<Sample>, name: string)
    requires multiset(a) == multiset(b)
    ensures Total(a, name) == Total(b, name)
  {
    if a == [] {
      assert |multiset(b)| == 0;
    } else {
      var front, s := a[..|a| - 1], a[|a| - 1];
      assert s in multiset(a);
      var i :| 0 <= i < |b| && b[i] == s;
      var rest := b[..i] + b[i + 1..];
      BagWithout(a, b, i, front, rest);
      TotalIgnoresOrder(front, rest, name);
      TotalWithout(b, i, name);
    }
  }

  lemma {:induction false} SameListedSamples(a: seq<Sample>, b: seq<Sample>, s: Sample)
    requires multiset(Relevant(a)) == multiset(Relevant(b)) && s.name in SERIES && s in a
    ensures s in b
  {
    assert s in Relevant(a);
    assert s in multiset(Relevant(a));
    assert s in Relevant(b);
  }

  lemma {:induction false} SameEntry(
    a: seq<Sample>, b: seq<Sample>, x: map<string, real>, y: map<string, real>, name: string)
    requires multiset(Relevant(a)) == multiset(Relevant(b))
    requires Reduces(SERIES, a, x) && Reduces(SERIES, b, y) && name in x
    ensures name in y && y[name] == x[name]
  {
    assert EntryReduces(SERIES, a, x, name) && EntryReduces(SERIES, b, y, name);
    var s :| s in a && s.name == name;
    SameListedSamples(a, b, s);
    if SERIES[name].Summed? {
      RelevantTotal(a, name);
      RelevantTotal(b, name);
      TotalIgnoresOrder(Relevant(a), Relevant(b), name);
    } else {
      SameListedSamples(a, b, Sample(name, x[name]));
      SameListedSamples(b, a, Sample(name, y[name]));
    }
  }

  /** Reordering samples, regrouping them into other families, and adding or
      removing samples of unlisted names never changes the result: it is a
      function of the bag of listed samples alone. */
  lemma {:induction false} OnlyTheBagMatters(
    f: seq<seq<Sample>>, g: seq<seq<Sample>>, x: map<string, real>, y: map<string, real>)
    requires multiset(Relevant(Flatten(f))) == multiset(Relevant(Flatten(g)))
    requires Reduces(SERIES, Flatten(f), x) && Reduces(SERIES, Flatten(g), y)
    ensures x == y
  {
    forall name | name in x ensures name in y && y[name] == x[name] {
      SameEntry(Flatten(f), Flatten(g), x, y, name);
    }
    forall name | name in y ensures name in x {
      SameEntry(Flatten(g), Flatten(f), y, x, name);
    }
  }
}
