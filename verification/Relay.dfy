/** The streaming relay: bytes pass through while complete events are cut off a
    buffer and searched for a usage report (gateway/routes/chat.py). The event
    format is server-sent events, section 9.2 of the WHATWG HTML Standard, of
    which only the LF LF separator is recognised. */
module Relay {
  import opened Basics

  newtype Byte = x: int | 0 <= x < 256

  type Bytes = seq<Byte>

  const LF: Byte := 10
  const CR: Byte := 13
  const SEPARATOR: Bytes := [LF, LF]

  predicate SeparatorAt(b: Bytes, i: int) {
    0 <= i && i + 1 < |b| && b[i] == LF && b[i + 1] == LF
  }

  /** The first separator at or after i; |b| if there is none. */
  function FindSeparator(b: Bytes, i: nat): (j: nat)
    requires i <= |b|
    ensures i <= j && (j == |b| || j + 2 <= |b|)
    decreases |b| - i
  {
    if i == |b| || SeparatorAt(b, i) then i else FindSeparator(b, i + 1)
  }

  predicate HasSeparator(b: Bytes) {
    FindSeparator(b, 0) < |b|
  }

  ghost predicate FirstSeparator(b: Bytes, i: int) {
    SeparatorAt(b, i) && forall k :: 0 <= k < i ==> !SeparatorAt(b, k)
  }

  lemma {:induction false} FindsNext(b: Bytes, i: nat)
    requires i <= |b|
    ensures forall k :: i <= k < FindSeparator(b, i) ==> !SeparatorAt(b, k)
    ensures FindSeparator(b, i) < |b| ==> SeparatorAt(b, FindSeparator(b, i))
    decreases |b| - i
  {
    if i < |b| && !SeparatorAt(b, i) {
      FindsNext(b, i + 1);
    }
  }

  lemma FindsFirst(b: Bytes, i: nat)
    ensures FindSeparator(b, 0) == i < |b| <==> FirstSeparator(b, i)
  {
    FindsNext(b, 0);
  }

  /** A byte string cut at its leftmost separators. */
  datatype Cut = Cut(events: seq<Bytes>, rest: Bytes)

  function Split(b: Bytes): Cut
    decreases |b|
  {
    var i := FindSeparator(b, 0);
    if i == |b| then Cut([], b)
    else
      var later := Split(b[i + 2..]);
      Cut([b[..i]] + later.events, later.rest)
  }

  // ---- Splitting is exact ------------------------------------------------

  function Join(events: seq<Bytes>): Bytes {
    if events == [] then [] else events[0] + SEPARATOR + Join(events[1..])
  }

  /** An event cut at the leftmost separator: none before its own end. */
  predicate IsEvent(e: Bytes) {
    FindSeparator(e + SEPARATOR, 0) == |e|
  }

  ghost predicate IsCut(c: Cut) {
    (forall i :: 0 <= i < |c.events| ==> IsEvent(c.events[i])) && !HasSeparator(c.rest)
  }

  /** Where the first separator is does not depend on what follows it. */
  lemma FirstIsLocal(b: Bytes, i: nat, more: Bytes)
    requires FirstSeparator(b, i)
    ensures FirstSeparator(b + more, i)
    ensures FirstSeparator(b[..i + 2], i) && b[..i + 2] == b[..i] + SEPARATOR
  {
    forall k | 0 <= k < i ensures !SeparatorAt(b + more, k) {
      assert !SeparatorAt(b, k);
    }
    var head := b[..i + 2];
    forall k | 0 <= k < i ensures !SeparatorAt(head, k) {
      assert !SeparatorAt(b, k);
    }
    assert FirstSeparator(head, i) && head == b[..i] + SEPARATOR;
  }

  lemma {:induction false} SplitAtFirst(b: Bytes, i: nat, e: Bytes, tail: Bytes)
    requires FirstSeparator(b, i) && e == b[..i] && tail == b[i + 2..]
    ensures Split(b) == Cut([e] + Split(tail).events, Split(tail).rest)
  {
    FindsFirst(b, i);
  }

  lemma JoinCons(e: Bytes, events: seq<Bytes>)
    ensures Join([e] + events) == e + SEPARATOR + Join(events)
  {
    assert ([e] + events)[1..] == events;
  }

  lemma GluesBack(b: Bytes, i: nat, c: Cut)
    requires FirstSeparator(b, i) && IsCut(c) && Join(c.events) + c.rest == b[i + 2..]
    ensures IsCut(Cut([b[..i]] + c.events, c.rest))
    ensures Join([b[..i]] + c.events) + c.rest == b
  {
    FirstIsLocal(b, i, []);
    FindsFirst(b[..i] + SEPARATOR, i);
    JoinCons(b[..i], c.events);
    assert b == b[..i] + SEPARATOR + b[i + 2..];
  }

  /** A splitter's output always glues back to its input, byte for byte, and each
      event ends at the first separator there was. */
  lemma {:induction false} SplitIsCut(b: Bytes)
    ensures Join(Split(b).events) + Split(b).rest == b
    ensures IsCut(Split(b))
    decreases |b|
  {
    var i := FindSeparator(b, 0);
    if i < |b| {
      FindsFirst(b, i);
      SplitAtFirst(b, i, b[..i], b[i + 2..]);
      SplitIsCut(b[i + 2..]);
      GluesBack(b, i, Split(b[i + 2..]));
    }
  }

  lemma {:induction false} EventFirst(e: Bytes, tail: Bytes, b: Bytes)
    requires IsEvent(e) && b == e + SEPARATOR + tail
    ensures FirstSeparator(b, |e|) && b[..|e|] == e && b[|e| + 2..] == tail
  {
    FindsFirst(e + SEPARATOR, |e|);
    FirstIsLocal(e + SEPARATOR, |e|, tail);
  }

  lemma {:induction false} JoinFirst(e: Bytes, events: seq<Bytes>, rest: Bytes, tail: Bytes, b: Bytes)
    requires tail == Join(events) + rest && b == e + SEPARATOR + tail
    ensures Join([e] + events) + rest == b
  {
    JoinCons(e, events);
  }

  lemma {:induction false} Prepend(e: Bytes, later: Cut, tail: Bytes)
    requires IsEvent(e) && tail == Join(later.events) + later.rest && Split(tail) == later
    ensures Split(Join([e] + later.events) + later.rest) == Cut([e] + later.events, later.rest)
  {
    var b := e + SEPARATOR + tail;
    EventFirst(e, tail, b);
    SplitAtFirst(b, |e|, e, tail);
    JoinFirst(e, later.events, later.rest, tail, b);
  }

  /** And there is no other way to cut the same bytes: splitting inverts gluing. */
  lemma {:induction false} SplitInvertsJoin(c: Cut)
    requires IsCut(c)
    ensures Split(Join(c.events) + c.rest) == c
    decreases |c.events|
  {
    if c.events == [] {
      assert Join(c.events) + c.rest == c.rest;
    } else {
      var e, later := c.events[0], Cut(c.events[1..], c.rest);
      SplitInvertsJoin(later);
      assert IsEvent(e) && c.events == [e] + later.events;
      Prepend(e, later, Join(later.events) + later.rest);
    }
  }

  // ---- Splitting chunk by chunk ------------------------------------------

  lemma {:induction false} SplitOfMore(a: Bytes, b: Bytes, i: nat, e: Bytes, tail: Bytes)
    requires FirstSeparator(a, i) && e == a[..i] && tail == a[i + 2..]
    ensures Split(a + b) == Cut([e] + Split(tail + b).events, Split(tail + b).rest)
  {
    FirstIsLocal(a, i, b);
    assert (a + b)[i + 2..] == tail + b && (a + b)[..i] == e;
    SplitAtFirst(a + b, i, e, tail + b);
  }

  /** Splitting can stop after any prefix and go on from its leftover. */
  lemma {:induction false} SplitResumes(a: Bytes, b: Bytes)
    ensures var first := Split(a);
            var second := Split(first.rest + b);
            Split(a + b) == Cut(first.events + second.events, second.rest)
    decreases |a|
  {
    var i := FindSeparator(a, 0);
    if i < |a| {
      var e, tail := a[..i], a[i + 2..];
      FindsFirst(a, i);
      SplitAtFirst(a, i, e, tail);
      SplitOfMore(a, b, i, e, tail);
      SplitResumes(tail, b);
      Reassociate([e], Split(tail).events, Split(Split(tail).rest + b).events);
    }
  }

  function Concat(chunks: seq<Bytes>): Bytes {
    if chunks == [] then [] else Concat(chunks[..|chunks| - 1]) + chunks[|chunks| - 1]
  }

  lemma ConcatOneMore(chunks: seq<Bytes>, n: nat)
    requires n < |chunks|
    ensures Concat(chunks[..n + 1]) == Concat(chunks[..n]) + chunks[n]
    ensures chunks[..n + 1] == chunks[..n] + [chunks[n]]
  {
    assert chunks[..n + 1][..n] == chunks[..n];
  }

  /** All chunks are there, in order. */
  lemma {:induction false} ConcatIsAll(x: seq<Bytes>, y: seq<Bytes>, chunk: Bytes)
    ensures Concat([]) == [] && Concat([chunk]) == chunk
    ensures Concat(x + y) == Concat(x) + Concat(y)
  {
    if y == [] {
      assert x + y == x;
    } else {
      var front := y[..|y| - 1];
      ConcatIsAll(x, front, chunk);
      assert (x + y)[..|x + y| - 1] == x + front;
    }
  }

  /** The report of the latest event that carries one. */
  function LastUsage<U>(events: seq<Bytes>, parse: Bytes -> Option<U>): Option<U> {
    if events == [] then None
    else
      var last := parse(events[|events| - 1]);
      if last.Some? then last else LastUsage(events[..|events| - 1], parse)
  }

  lemma LastUsageAppend<U>(events: seq<Bytes>, e: Bytes, parse: Bytes -> Option<U>)
    ensures LastUsage(events + [e], parse) == if parse(e).Some? then parse(e) else LastUsage(events, parse)
  {
    assert (events + [e])[..|events|] == events;
  }

  /** Some event carries it, and none after that event carries one. */
  lemma {:induction false} LastUsageIsLast<U>(events: seq<Bytes>, parse: Bytes -> Option<U>, usage: U)
    ensures LastUsage(events, parse) == Some(usage)
       <==> exists i :: 0 <= i < |events| && parse(events[i]) == Some(usage)
                        && forall j :: i < j < |events| ==> parse(events[j]).None?
  {
    if events != [] {
      var n := |events| - 1;
      var front := events[..n];
      LastUsageIsLast(front, parse, usage);
      if parse(events[n]).None? {
        if LastUsage(events, parse) == Some(usage) {
          var i :| 0 <= i < |front| && parse(front[i]) == Some(usage)
                   && forall j :: i < j < |front| ==> parse(front[j]).None?;
          assert forall j :: i < j < |events| ==> parse(events[j]).None?;
          assert parse(events[i]) == Some(usage);
        }
        if i :| 0 <= i < |events| && parse(events[i]) == Some(usage)
                && forall j :: i < j < |events| ==> parse(events[j]).None? {
          assert parse(front[i]) == Some(usage);
          assert forall j :: i < j < |front| ==> parse(front[j]) == parse(events[j]);
        }
      }
    }
  }

  /** The inner loop: cut every complete event off the buffer. */
  method CutEvents<U>(pending: Bytes, before: seq<Bytes>, known: Option<U>, parse: Bytes -> Option<U>)
    returns (events: seq<Bytes>, buf: Bytes, usage: Option<U>)
    requires known == LastUsage(before, parse)
    ensures events == before + Split(pending).events
    ensures buf == Split(pending).rest
    ensures usage == LastUsage(events, parse)
  {
    events, buf, usage := before, pending, known;
    while HasSeparator(buf)
      invariant events + Split(buf).events == before + Split(pending).events
      invariant Split(buf).rest == Split(pending).rest
      invariant usage == LastUsage(events, parse)
      decreases |buf|
    {
      var i := FindSeparator(buf, 0);
      FindsFirst(buf, i);
      SplitAtFirst(buf, i, buf[..i], buf[i + 2..]);
      var rawEvent := buf[..i];
      buf := buf[i + 2..];
      Reassociate(events, [rawEvent], Split(buf).events);
      var parsed := parse(rawEvent);
      if parsed.Some? {
        usage := parsed;
      }
      LastUsageAppend(events, rawEvent, parse);
      events := events + [rawEvent];
    }
  }

  /** The relay. `broken` says whether the upstream fails after these chunks; the
      usage parser is arbitrary. Whatever the chunking, it extracts the events of
      the whole stream, keeps the whole stream's leftover, reports the last usage
      among those events, and yields the bytes it received, followed on a broken
      stream by an explicit error event. */
  method RelayStream<U>(chunks: seq<Bytes>, broken: bool, parse: Bytes -> Option<U>, error: seq<Bytes>)
    returns (yielded: seq<Bytes>, events: seq<Bytes>, buf: Bytes, usage: Option<U>)
    ensures Cut(events, buf) == Split(Concat(chunks))
    ensures usage == LastUsage(Split(Concat(chunks)).events, parse)
    ensures yielded == chunks + (if broken then error else [])
  {
    yielded, events, buf, usage := [], [], [], None;
    ghost var seen: Bytes := [];
    for n := 0 to |chunks|
      invariant seen == Concat(chunks[..n]) && yielded == chunks[..n]
      invariant Cut(events, buf) == Split(seen)
      invariant usage == LastUsage(events, parse)
    {
      var chunk := chunks[n];
      SplitResumes(seen, chunk);
      ConcatOneMore(chunks, n);
      events, buf, usage := CutEvents(buf + chunk, events, usage, parse);
      yielded := yielded + [chunk];
      seen := seen + chunk;
    }
    assert chunks[..|chunks|] == chunks;
    if broken {
      yielded := yielded + error;
    }
  }

  /** So two chunkings of the same bytes give the same events, leftover and
      usage. */
  lemma ChunkingIsInvisible<U>(x: seq<Bytes>, y: seq<Bytes>, parse: Bytes -> Option<U>, cx: Cut, cy: Cut)
    requires Concat(x) == Concat(y)
    requires Join(cx.events) + cx.rest == Concat(x) && IsCut(cx)
    requires Join(cy.events) + cy.rest == Concat(y) && IsCut(cy)
    ensures cx == cy && LastUsage(cx.events, parse) == LastUsage(cy.events, parse)
  {
    SplitInvertsJoin(cx);
    SplitInvertsJoin(cy);
  }

  // ---- The standard's events ---------------------------------------------

  /** A line ends just before offset e: after an LF, or after a CR that no LF
      follows. A CR LF pair is one end. */
  predicate LineEnds(b: Bytes, e: int) {
    0 < e <= |b| && (b[e - 1] == LF || (b[e - 1] == CR && !(e < |b| && b[e] == LF)))
  }

  /** Where the line end that stops at e starts. */
  function EndStart(b: Bytes, e: int): (t: int)
    requires LineEnds(b, e)
    ensures 0 <= t < e
  {
    if b[e - 1] == LF && e >= 2 && b[e - 2] == CR then e - 2 else e - 1
  }

  /** The line that ends just before e has nothing in it. */
  predicate Blank(b: Bytes, e: int) {
    LineEnds(b, e) && (EndStart(b, e) == 0 || LineEnds(b, EndStart(b, e)))
  }

  /** An event ends just before e: at the first blank line after one that is not.
      Further blank lines end nothing. */
  predicate EventEnds(b: Bytes, e: int) {
    && Blank(b, e)
    && EndStart(b, e) > 0
    && !Blank(b, EndStart(b, e))
  }

  /** The splitter cuts an event off just before e. */
  ghost predicate CutsAt(c: Cut, e: int) {
    exists k :: 0 < k <= |c.events| && e == |Join(c.events[..k])|
  }

  lemma SplitFindsNothing(b: Bytes)
    ensures Split(b).events == [] <==> forall i :: 0 <= i < |b| - 1 ==> !(b[i] == 10 && b[i + 1] == 10)
    ensures Split(b).events == [] <==> forall i :: !SeparatorAt(b, i)
  {
    FindsNext(b, 0);
    forall i | 0 <= i < |b| - 1 ensures SeparatorAt(b, i) <==> b[i] == 10 && b[i + 1] == 10 {
    }
  }

  /** The same, step by step. */
  predicate CutAt(b: Bytes, e: int)
    decreases |b|
  {
    var i := FindSeparator(b, 0);
    i < |b| && (e == i + 2 || CutAt(b[i + 2..], e - (i + 2)))
  }

  lemma {:induction false} JoinFront(e: Bytes, later: seq<Bytes>, events: seq<Bytes>, k: nat)
    requires events == [e] + later && 0 < k <= |events|
    ensures |Join(events[..k])| == |e| + 2 + |Join(later[..k - 1])|
  {
    assert events[..k] == [e] + later[..k - 1];
    JoinCons(e, later[..k - 1]);
  }

  lemma {:induction false} CutAtIsCut(b: Bytes, e: int)
    ensures CutAt(b, e) <==> CutsAt(Split(b), e)
    decreases |b|
  {
    var i := FindSeparator(b, 0);
    if i < |b| {
      var tail, events := b[i + 2..], Split(b).events;
      var later := Split(tail).events;
      CutAtIsCut(tail, e - (i + 2));
      if CutsAt(Split(b), e) {
        var k :| 0 < k <= |events| && e == |Join(events[..k])|;
        JoinFront(b[..i], later, events, k);
        if k == 1 {
          assert later[..0] == [];
        } else {
          assert e - (i + 2) == |Join(later[..k - 1])|;
        }
      }
      if e == i + 2 {
        JoinFront(b[..i], later, events, 1);
        assert later[..0] == [];
        assert e == |Join(events[..1])|;
      } else if CutAt(tail, e - (i + 2)) {
        var k :| 0 < k <= |later| && e - (i + 2) == |Join(later[..k])|;
        JoinFront(b[..i], later, events, k + 1);
        assert later[..k + 1 - 1] == later[..k];
      }
    } else {
      assert Split(b).events == [];
    }
  }

  /** Two LFs in a row always end a blank line. */
  lemma SeparatorIsBlank(b: Bytes, i: int)
    requires SeparatorAt(b, i)
    ensures Blank(b, i + 2)
  {
    assert LineEnds(b, i + 1);
  }

  lemma {:induction false} CutIsSeparator(b: Bytes, e: int)
    requires CutAt(b, e)
    ensures SeparatorAt(b, e - 2)
    decreases |b|
  {
    var i := FindSeparator(b, 0);
    FindsNext(b, 0);
    if e != i + 2 {
      CutIsSeparator(b[i + 2..], e - (i + 2));
    }
  }

  /** A separator that no other one overlaps from the left is cut at. */
  lemma {:induction false} LoneSeparatorIsCut(b: Bytes, i: int)
    requires SeparatorAt(b, i) && !SeparatorAt(b, i - 1)
    ensures CutAt(b, i + 2)
    decreases |b|
  {
    var first := FindSeparator(b, 0);
    FindsNext(b, 0);
    if first != i {
      assert first + 1 < i;
      var tail := b[first + 2..];
      LoneSeparatorIsCut(tail, i - (first + 2));
    }
  }

  /** The relay never cuts inside a line: wherever it cuts, the standard has a
      blank line end. */
  lemma {:induction false} CutsAtBlankLines(b: Bytes, e: int)
    requires CutsAt(Split(b), e)
    ensures Blank(b, e)
  {
    CutAtIsCut(b, e);
    CutIsSeparator(b, e);
    SeparatorIsBlank(b, e - 2);
  }

  /** Where the standard ends an event the relay cuts exactly if the blank line
      that ends it is a bare LF, without a CR. */
  lemma {:induction false} EventIsFound(b: Bytes, e: int)
    requires EventEnds(b, e)
    ensures CutsAt(Split(b), e) <==> b[EndStart(b, e)] == 10
  {
    CutAtIsCut(b, e);
    if CutAt(b, e) {
      CutIsSeparator(b, e);
    }
    if b[EndStart(b, e)] == LF {
      if SeparatorAt(b, e - 3) {
        SeparatorIsBlank(b, e - 3);
      }
      LoneSeparatorIsCut(b, e - 2);
    }
  }

  /** A CR at the start of a line, the line before it not being blank. */
  predicate CrEndsEvent(b: Bytes, t: int) {
    0 < t < |b| && b[t] == CR && LineEnds(b, t) && !Blank(b, t)
  }

  /** So the relay finds every event of a stream exactly if in no place a CR
      directly follows the end of a line that is not blank. */
  lemma {:induction false} EveryEventIsFound(b: Bytes)
    ensures (forall e :: EventEnds(b, e) ==> CutsAt(Split(b), e)) <==> (forall t :: !CrEndsEvent(b, t))
  {
    if forall t :: !CrEndsEvent(b, t) {
      forall e | EventEnds(b, e) ensures CutsAt(Split(b), e) {
        EventIsFound(b, e);
        assert !CrEndsEvent(b, EndStart(b, e));
      }
    }
    if forall e :: EventEnds(b, e) ==> CutsAt(Split(b), e) {
      forall t ensures !CrEndsEvent(b, t) {
        if CrEndsEvent(b, t) {
          var e := if t + 1 < |b| && b[t + 1] == LF then t + 2 else t + 1;
          assert EndStart(b, e) == t;
          EventIsFound(b, e);
        }
      }
    }
  }

  /** In particular every event of a stream without a CR ... */
  lemma {:induction false} CrFreeStreamIsFound(b: Bytes)
    requires forall i :: 0 <= i < |b| ==> b[i] != 13
    ensures forall e :: EventEnds(b, e) ==> CutsAt(Split(b), e)
  {
    EveryEventIsFound(b);
  }

  /** ... and none at all of a stream whose every LF follows a CR, so that it never
      yields a usage report. */
  lemma CrLfStreamHasNoEvents<U>(b: Bytes, parse: Bytes -> Option<U>)
    requires forall i :: 0 <= i < |b| && b[i] == 10 ==> i > 0 && b[i - 1] == 13
    ensures Split(b) == Cut([], b) && LastUsage(Split(b).events, parse) == None
  {
    FindsNext(b, 0);
  }

  // ---- The usage report inside one event ---------------------------------

  /** The lines of an event: its pieces between LFs. */
  function Lines(b: Bytes): (lines: seq<Bytes>)
    ensures lines != []
  {
    if b == [] then [[]]
    else
      var later := Lines(b[1..]);
      if b[0] == LF then [[]] + later else [[b[0]] + later[0]] + later[1..]
  }

  function JoinLines(lines: seq<Bytes>): Bytes
    requires lines != []
  {
    if |lines| == 1 then lines[0] else lines[0] + [LF] + JoinLines(lines[1..])
  }

  ghost predicate NoBreaks(lines: seq<Bytes>) {
    lines != [] && forall i :: 0 <= i < |lines| ==> LF !in lines[i]
  }

  lemma {:induction false} NewLine(first: Bytes, later: seq<Bytes>)
    requires later != []
    ensures JoinLines([first] + later) == first + [LF] + JoinLines(later)
  {
    assert ([first] + later)[1..] == later;
  }

  lemma {:induction false} SameLine(x: Byte, first: Bytes, later: seq<Bytes>)
    ensures JoinLines([[x] + first] + later) == [x] + JoinLines([first] + later)
  {
    assert ([[x] + first] + later)[1..] == later == ([first] + later)[1..];
    if later != [] {
      NewLine([x] + first, later);
      NewLine(first, later);
      assert [x] + first + [LF] + JoinLines(later) == [x] + (first + [LF] + JoinLines(later));
    }
  }

  /** They glue back together, and there is no LF in any of them ... */
  lemma {:induction false} LinesAreCut(b: Bytes)
    ensures JoinLines(Lines(b)) == b && NoBreaks(Lines(b))
  {
    if b != [] {
      var later := Lines(b[1..]);
      LinesAreCut(b[1..]);
      assert b == [b[0]] + b[1..];
      if b[0] == LF {
        NewLine([], later);
      } else {
        SameLine(b[0], later[0], later[1..]);
        assert [later[0]] + later[1..] == later;
      }
    }
  }

  /** ... and nothing else does and has. */
  lemma {:induction false} LinesInvertJoin(lines: seq<Bytes>)
    requires NoBreaks(lines)
    ensures Lines(JoinLines(lines)) == lines
    decreases |lines|, |lines[0]|
  {
    var first, rest := lines[0], lines[1..];
    assert lines == [first] + rest;
    if first != [] {
      var shorter := [first[1..]] + rest;
      assert first[0] in first && first == [first[0]] + first[1..];
      forall i | 0 <= i < |shorter| ensures LF !in shorter[i] {
        assert LF !in lines[i];
      }
      LinesInvertJoin(shorter);
      SameLine(first[0], first[1..], rest);
    } else if rest != [] {
      LinesInvertJoin(rest);
      NewLine(first, rest);
    }
  }

  const DATA: Bytes := [100, 97, 116, 97, 58]  // "data:"

  /** What the text after "data:" reads as: the end marker or something that is
      not JSON; an object without a usage; an object with one. */
  datatype Reading<U> = Stop | Plain | Report(usage: U)

  predicate IsData(line: Bytes) {
    DATA <= line
  }

  function FrameUsage<U>(lines: seq<Bytes>, read: Bytes -> Reading<U>): Option<U> {
    if lines == [] then None
    else if !IsData(lines[0]) then FrameUsage(lines[1..], read)
    else match read(lines[0][|DATA|..])
      case Stop => None
      case Plain => FrameUsage(lines[1..], read)
      case Report(usage) => Some(usage)
  }

  /** A line that starts with "data:". */
  predicate DataLine(line: Bytes) {
    |line| >= 5 && line[0] == 100 && line[1] == 97 && line[2] == 116 && line[3] == 97 && line[4] == 58
  }

  lemma DataLineIs(line: Bytes)
    ensures DataLine(line) <==> IsData(line)
  {
    if DataLine(line) {
      assert line[..5] == DATA;
    }
  }

  ghost predicate Reports<U>(lines: seq<Bytes>, read: Bytes -> Reading<U>, i: int, usage: U) {
    && 0 <= i < |lines|
    && DataLine(lines[i]) && read(lines[i][5..]) == Report(usage)
    && forall j :: 0 <= j < i && DataLine(lines[j]) ==> read(lines[j][5..]).Plain?
  }

  lemma ReportsLater<U>(lines: seq<Bytes>, read: Bytes -> Reading<U>, i: int, usage: U)
    requires lines != [] && (DataLine(lines[0]) ==> read(lines[0][5..]).Plain?)
    ensures Reports(lines, read, i + 1, usage) <==> Reports(lines[1..], read, i, usage)
  {
  }

  /** An event reports a usage exactly when some data line carries it and every
      data line before that one is an object without. */
  lemma {:induction false} FrameUsageMeaning<U>(lines: seq<Bytes>, read: Bytes -> Reading<U>, usage: U)
    ensures FrameUsage(lines, read) == Some(usage) <==> exists i :: Reports(lines, read, i, usage)
  {
    if lines != [] {
      var rest := lines[1..];
      FrameUsageMeaning(rest, read, usage);
      DataLineIs(lines[0]);
      if IsData(lines[0]) && !read(lines[0][|DATA|..]).Plain? {
        if read(lines[0][|DATA|..]) == Report(usage) {
          assert Reports(lines, read, 0, usage);
        }
      } else {
        if exists i :: Reports(lines, read, i, usage) {
          var i :| Reports(lines, read, i, usage);
          ReportsLater(lines, read, i - 1, usage);
        }
        if exists i :: Reports(rest, read, i, usage) {
          var i :| Reports(rest, read, i, usage);
          ReportsLater(lines, read, i, usage);
        }
      }
    }
  }

  /** What one event reports. */
  function EventUsage<U>(event: Bytes, read: Bytes -> Reading<U>): Option<U> {
    FrameUsage(Lines(event), read)
  }

  function Reader<U>(read: Bytes -> Reading<U>): Bytes -> Option<U> {
    e => EventUsage(e, read)
  }

  /** The relay with the source's own reading of an event. */
  method RelayUsage<U>(chunks: seq<Bytes>, broken: bool, read: Bytes -> Reading<U>, error: seq<Bytes>)
    returns (yielded: seq<Bytes>, usage: Option<U>)
    ensures usage == LastUsage(Split(Concat(chunks)).events, Reader(read))
    ensures yielded == chunks + (if broken then error else [])
  {
    var events, buf;
    yielded, events, buf, usage := RelayStream(chunks, broken, Reader(read), error);
  }
}
