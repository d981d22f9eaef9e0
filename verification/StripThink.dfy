/** Removing reasoning blocks from an answer (scripts/b3_probe.py, strip_think):
    delete every terminated block, then everything from an unterminated one on,
    then trim. The searches and deletions are stated for any two tags. */
module StripThink {
  import opened Basics

  const OPEN := "<think>"
  const CLOSE := "</think>"

  /** A pattern to search for. */
  type Tag = s: string | |s| > 0 witness "t"

  predicate OccursAt(s: string, pat: Tag, i: int) {
    0 <= i && i + |pat| <= |s| && s[i..i + |pat|] == pat
  }

  /** The first occurrence at or after i; |s| if there is none. */
  function Find(s: string, pat: Tag, i: nat): (j: nat)
    requires i <= |s|
    ensures i <= j && (j == |s| || j + |pat| <= |s|)
    decreases |s| - i
  {
    if i == |s| || OccursAt(s, pat, i) then i else Find(s, pat, i + 1)
  }

  ghost predicate FirstAt(s: string, pat: Tag, lo: nat, i: int) {
    lo <= i && OccursAt(s, pat, i) && forall k :: lo <= k < i ==> !OccursAt(s, pat, k)
  }

  predicate Contains(s: string, pat: Tag) {
    Find(s, pat, 0) < |s|
  }

  datatype Block = NoBlock | Block(start: nat, end: nat)

  /** The leftmost match of the pattern "open, as little as possible, close". */
  function FirstBlock(open: Tag, close: Tag, s: string): (b: Block)
    ensures b.Block? ==> b.start < b.end <= |s|
  {
    var i := Find(s, open, 0);
    if i == |s| then NoBlock
    else
      var j := Find(s, close, i + |open|);
      if j == |s| then NoBlock else Block(i, j + |close|)
  }

  /** Deleting every such match; what follows one is scanned on its own. */
  function StripBlocks(open: Tag, close: Tag, s: string): string
    decreases |s|
  {
    match FirstBlock(open, close, s)
    case NoBlock => s
    case Block(start, end) => s[..start] + StripBlocks(open, close, s[end..])
  }

  /** Substitution of the pattern "open, then everything to the end". */
  function StripUnterminated(open: Tag, s: string): string {
    s[..Find(s, open, 0)]
  }

  predicate IsSpace(c: char) {
    var n := c as int;
    || 9 <= n <= 13 || 28 <= n <= 32 || n == 0x85 || n == 0xA0 || n == 0x1680
    || 0x2000 <= n <= 0x200A || n == 0x2028 || n == 0x2029 || n == 0x202F || n == 0x205F || n == 0x3000
  }

  function TrimLeft(s: string): string {
    if s != [] && IsSpace(s[0]) then TrimLeft(s[1..]) else s
  }

  function TrimRight(s: string): string {
    if s != [] && IsSpace(s[|s| - 1]) then TrimRight(s[..|s| - 1]) else s
  }

  function Trim(s: string): string {
    TrimRight(TrimLeft(s))
  }

  function StripTags(open: Tag, close: Tag, text: string): string {
    Trim(StripUnterminated(open, StripBlocks(open, close, text)))
  }

  function StripThink(text: string): string {
    StripTags(OPEN, CLOSE, text)
  }

  // ---- Searching ---------------------------------------------------------

  lemma {:induction false} FindsNext(s: string, pat: Tag, lo: nat)
    requires lo <= |s|
    ensures forall k :: lo <= k < Find(s, pat, lo) ==> !OccursAt(s, pat, k)
    ensures Find(s, pat, lo) < |s| ==> OccursAt(s, pat, Find(s, pat, lo))
    decreases |s| - lo
  {
    if lo < |s| && !OccursAt(s, pat, lo) {
      FindsNext(s, pat, lo + 1);
    }
  }

  lemma FindsFirst(s: string, pat: Tag, lo: nat, i: int)
    requires lo <= |s|
    ensures Find(s, pat, lo) == i < |s| <==> FirstAt(s, pat, lo, i)
  {
    FindsNext(s, pat, lo);
  }

  lemma ContainsMeans(s: string, pat: Tag)
    ensures Contains(s, pat) <==> exists i :: OccursAt(s, pat, i)
  {
    FindsNext(s, pat, 0);
  }

  lemma PieceOfPiece(s: string, lo: nat, hi: nat, a: nat, b: nat)
    requires lo <= hi <= |s| && a <= b && lo + b <= hi
    ensures s[lo..hi][a..b] == s[lo + a..lo + b]
  {
    var x, y := s[lo..hi][a..b], s[lo + a..lo + b];
    assert |x| == |y| && forall i :: 0 <= i < |x| ==> x[i] == y[i];
  }

  lemma OccursInPiece(s: string, lo: nat, hi: nat, pat: Tag, k: int)
    requires lo <= hi <= |s|
    ensures OccursAt(s[lo..hi], pat, k) <==> 0 <= k && lo + k + |pat| <= hi && OccursAt(s, pat, lo + k)
  {
    if 0 <= k && lo + k + |pat| <= hi {
      PieceOfPiece(s, lo, hi, k, k + |pat|);
    }
  }

  /** A piece of a string contains nothing the string does not. */
  lemma PieceContains(s: string, lo: nat, hi: nat, pat: Tag)
    requires lo <= hi <= |s| && !Contains(s, pat)
    ensures !Contains(s[lo..hi], pat)
  {
    ContainsMeans(s, pat);
    ContainsMeans(s[lo..hi], pat);
    forall k ensures !OccursAt(s[lo..hi], pat, k) {
      OccursInPiece(s, lo, hi, pat, k);
    }
  }

  /** Where a pattern is first found in a piece is where it is first found. */
  lemma FirstInPiece(s: string, lo: nat, hi: nat, pat: Tag, i: nat)
    requires lo <= hi <= |s| && FirstAt(s[lo..hi], pat, 0, i)
    ensures FirstAt(s, pat, lo, lo + i)
  {
    OccursInPiece(s, lo, hi, pat, i);
    forall k | lo <= k < lo + i ensures !OccursAt(s, pat, k) {
      OccursInPiece(s, lo, hi, pat, k - lo);
    }
  }

  // ---- Trimming ----------------------------------------------------------

  ghost predicate AllSpace(s: string, lo: nat, hi: nat)
    requires lo <= hi <= |s|
  {
    forall i :: lo <= i < hi ==> IsSpace(s[i])
  }

  ghost predicate TrimmedTo(s: string, t: string, lo: nat, hi: nat) {
    && lo <= hi <= |s| && t == s[lo..hi]
    && AllSpace(s, 0, lo) && AllSpace(s, hi, |s|)
    && (lo < hi ==> !IsSpace(s[lo]) && !IsSpace(s[hi - 1]))
  }

  /** t is s without the white space at its ends, and nothing else. */
  ghost predicate IsTrimmed(s: string, t: string) {
    exists lo, hi :: TrimmedTo(s, t, lo, hi)
  }

  lemma {:induction false} TrimLeftPiece(s: string) returns (lo: nat)
    ensures lo <= |s| && TrimLeft(s) == s[lo..] && AllSpace(s, 0, lo)
    ensures lo < |s| ==> !IsSpace(s[lo])
  {
    if s != [] && IsSpace(s[0]) {
      var l := TrimLeftPiece(s[1..]);
      lo := l + 1;
      assert forall i :: 0 < i < lo ==> s[i] == s[1..][i - 1];
    } else {
      lo := 0;
    }
  }

  lemma {:induction false} TrimRightPiece(s: string) returns (hi: nat)
    ensures hi <= |s| && TrimRight(s) == s[..hi] && AllSpace(s, hi, |s|)
    ensures hi > 0 ==> !IsSpace(s[hi - 1])
  {
    if s != [] && IsSpace(s[|s| - 1]) {
      hi := TrimRightPiece(s[..|s| - 1]);
    } else {
      hi := |s|;
    }
  }

  /** Trimming takes exactly the white space at both ends away. */
  lemma {:induction false} TrimPiece(s: string) returns (lo: nat, hi: nat)
    ensures TrimmedTo(s, Trim(s), lo, hi)
    ensures Trim(Trim(s)) == Trim(s)
  {
    lo := TrimLeftPiece(s);
    var rest := s[lo..];
    var n := TrimRightPiece(rest);
    hi := lo + n;
    var t := s[lo..hi];
    assert t == rest[..n];
    assert forall i :: hi <= i < |s| ==> s[i] == rest[i - lo];
    if lo < hi {
      assert s[lo] == t[0] && s[hi - 1] == rest[n - 1];
    }
    assert TrimLeft(t) == t;
    assert TrimRight(t) == t;
  }

  /** There is only one way to trim. */
  lemma {:induction false} TrimmedOnce(s: string, t: string)
    ensures IsTrimmed(s, t) <==> t == Trim(s)
  {
    var lo, hi := TrimPiece(s);
    if IsTrimmed(s, t) {
      var a: nat, b: nat :| TrimmedTo(s, t, a, b);
      if a < b {
        assert !IsSpace(s[a]) && !IsSpace(s[b - 1]);
      }
      if lo < hi {
        assert !IsSpace(s[lo]) && !IsSpace(s[hi - 1]);
      }
      assert s[a..b] == s[lo..hi];
    }
  }

  /** Blank, tab and line breaks are white space; no other printable character of
      ASCII is. */
  lemma VisibleIsKept(c: char)
    ensures '!' <= c <= '~' ==> !IsSpace(c)
    ensures c in {' ', '\t', '\n', '\r'} ==> IsSpace(c)
  {
  }

  /** Line breaks and nothing else. */
  ghost predicate Breaks(w: string) {
    forall i :: 0 <= i < |w| ==> w[i] == '\n'
  }

  /** Line breaks in front are as good as none. */
  lemma {:induction false} TrimSkipsBreaks(w: string, s: string)
    requires Breaks(w)
    ensures Trim(w + s) == Trim(s)
  {
    if w == [] {
      assert w + s == s;
    } else {
      TrimSkipsBreaks(w[1..], s);
      assert (w + s)[0] == '\n' && (w + s)[1..] == w[1..] + s;
    }
  }

  // ---- What is deleted ---------------------------------------------------

  lemma FirstBlockIs(open: Tag, close: Tag, s: string, i: nat, j: nat)
    requires FirstAt(s, open, 0, i) && FirstAt(s, close, i + |open|, j)
    ensures FirstBlock(open, close, s) == Block(i, j + |close|)
  {
    FindsFirst(s, open, 0, i);
    FindsFirst(s, close, i + |open|, j);
  }

  lemma {:induction false} NotFoundLater(s: string, pat: Tag, lo: nat)
    requires lo <= |s| && !Contains(s[lo..|s|], pat)
    ensures Find(s, pat, lo) == |s|
  {
    FindsNext(s, pat, lo);
    ContainsMeans(s[lo..|s|], pat);
    OccursInPiece(s, lo, |s|, pat, Find(s, pat, lo) - lo);
  }

  lemma {:induction false} FirstBlockIsNone(open: Tag, close: Tag, s: string, i: nat)
    requires FirstAt(s, open, 0, i) && !Contains(s[i + |open|..], close)
    ensures FirstBlock(open, close, s) == NoBlock && StripUnterminated(open, s) == s[..i]
  {
    FindsFirst(s, open, 0, i);
    assert s[i + |open|..] == s[i + |open|..|s|];
    NotFoundLater(s, close, i + |open|);
  }

  /** One block: with no opening tag before it and no closing tag inside, exactly
      it is deleted, and the rest is treated as a text of its own. */
  lemma {:induction false} BlockIsDeleted(open: Tag, close: Tag, p: string, x: string, t: string)
    requires FirstAt(p + open, open, 0, |p|) && FirstAt(x + close, close, 0, |x|)
    ensures StripBlocks(open, close, p + open + x + close + t) == p + StripBlocks(open, close, t)
  {
    var s := p + open + x + close + t;
    var lo := |p| + |open|;
    var hi := lo + |x| + |close|;
    assert s[0..lo] == p + open && s[lo..hi] == x + close;
    FirstInPiece(s, 0, lo, open, |p|);
    FirstInPiece(s, lo, hi, close, |x|);
    FirstBlockIs(open, close, s, |p|, lo + |x|);
    assert s[hi..] == t && s[..|p|] == p;
  }

  /** Without a closing tag after the first opening tag, no block is deleted, and
      everything from that tag on is. */
  lemma {:induction false} CutOffReasoning(open: Tag, close: Tag, p: string, x: string)
    requires FirstAt(p + open, open, 0, |p|) && !Contains(x, close)
    ensures StripTags(open, close, p + open + x) == Trim(p) && IsTrimmed(p, StripTags(open, close, p + open + x))
  {
    var s := p + open + x;
    assert s[0..|p| + |open|] == p + open;
    FirstInPiece(s, 0, |p| + |open|, open, |p|);
    assert s[|p| + |open|..] == x;
    FirstBlockIsNone(open, close, s, |p|);
    assert s[..|p|] == p;
    TrimmedOnce(p, Trim(p));
  }

  // ---- The promises ------------------------------------------------------

  lemma UnterminatedLeavesNone(open: Tag, s: string)
    ensures !Contains(StripUnterminated(open, s), open)
  {
    FindsNext(s, open, 0);
    var i := Find(s, open, 0);
    ContainsMeans(s[0..i], open);
    forall k ensures !OccursAt(s[0..i], open, k) {
      OccursInPiece(s, 0, i, open, k);
    }
    assert s[0..i] == s[..i];
  }

  /** A text without an opening tag loses the white space at its ends and nothing
      else; without any there it stays as it is. */
  lemma {:induction false} PlainTextIsTrimmed(open: Tag, close: Tag, s: string)
    requires !Contains(s, open)
    ensures StripTags(open, close, s) == Trim(s) && IsTrimmed(s, StripTags(open, close, s))
    ensures s != [] && !IsSpace(s[0]) && !IsSpace(s[|s| - 1]) ==> StripTags(open, close, s) == s
  {
    assert Find(s, open, 0) == |s|;
    assert StripBlocks(open, close, s) == s;
    assert StripUnterminated(open, s) == s;
    TrimmedOnce(s, Trim(s));
    if s != [] && !IsSpace(s[0]) && !IsSpace(s[|s| - 1]) {
      assert TrimmedTo(s, s, 0, |s|);
      TrimmedOnce(s, s);
    }
  }

  /** No opening tag survives, whatever the text, also when deleting a block
      joins two halves of a new tag; and stripping twice is stripping once. */
  lemma NoTagSurvives(open: Tag, close: Tag, s: string)
    ensures !Contains(StripTags(open, close, s), open)
    ensures StripTags(open, close, StripTags(open, close, s)) == StripTags(open, close, s)
  {
    var u := StripUnterminated(open, StripBlocks(open, close, s));
    UnterminatedLeavesNone(open, StripBlocks(open, close, s));
    var lo, hi := TrimPiece(u);
    PieceContains(u, lo, hi, open);
    PlainTextIsTrimmed(open, close, Trim(u));
  }

  // ---- The reasoning printer ---------------------------------------------

  /** How the stub server prints reasoning in front of an answer. */
  function WithReasoning(open: Tag, close: Tag, reasoning: string, answer: string): string {
    open + ("\n" + reasoning + "\n") + close + ("\n\n" + answer)
  }

  /** Tags that a line break cannot be part of. */
  ghost predicate OneLine(pat: Tag) {
    forall i :: 0 <= i < |pat| ==> pat[i] != '\n'
  }

  lemma NoBreakInside(s: string, pat: Tag, k: int, n: int)
    requires OneLine(pat) && 0 <= k <= n < k + |pat| <= |s| && s[n] == '\n'
    ensures !OccursAt(s, pat, k)
  {
    assert s[k..k + |pat|][n - k] == '\n';
  }

  lemma NoEarlyClose(reasoning: string, close: Tag)
    requires OneLine(close) && !Contains(reasoning, close)
    ensures FirstAt("\n" + reasoning + "\n" + close, close, 0, |reasoning| + 2)
  {
    var s := "\n" + reasoning + "\n" + close;
    var n := |reasoning| + 2;
    ContainsMeans(reasoning, close);
    assert s[n..n + |close|] == close;
    assert s[1..n - 1] == reasoning;
    forall k | 0 <= k < n ensures !OccursAt(s, close, k) {
      if k == 0 {
        NoBreakInside(s, close, k, 0);
      } else if n - 1 < k + |close| {
        NoBreakInside(s, close, k, n - 1);
      } else {
        OccursInPiece(s, 1, n - 1, close, k - 1);
      }
    }
  }

  lemma {:induction false} FindBehind(w: string, t: string, pat: Tag, lo: nat)
    requires lo <= |t|
    ensures Find(w + t, pat, |w| + lo) == |w| + Find(t, pat, lo)
    decreases |t| - lo
  {
    var s := w + t;
    assert s[|w|..|s|] == t;
    OccursInPiece(s, |w|, |s|, pat, lo);
    if lo < |t| {
      FindBehind(w, t, pat, lo + 1);
    }
  }

  lemma {:induction false} FindsNothingInBreaks(w: string, t: string, pat: Tag, k: nat)
    requires Breaks(w) && OneLine(pat) && k <= |w|
    ensures Find(w + t, pat, k) == |w| + Find(t, pat, 0)
    decreases |w| - k
  {
    if k == |w| {
      FindBehind(w, t, pat, 0);
    } else {
      var s := w + t;
      assert s[k] == '\n';
      if k + |pat| <= |s| {
        NoBreakInside(s, pat, k, k);
      }
      FindsNothingInBreaks(w, t, pat, k + 1);
    }
  }

  lemma CutBehind(w: string, t: string, n: nat)
    requires n <= |t|
    ensures (w + t)[..|w| + n] == w + t[..n]
    ensures (w + t)[|w| + n..] == t[n..]
  {
  }

  /** The first block, from where its tags are found. */
  lemma {:induction false} FirstBlockFound(open: Tag, close: Tag, s: string, i: nat, from: nat, j: nat)
    requires i == Find(s, open, 0) < |s| && from == i + |open| && j == Find(s, close, from)
    ensures FirstBlock(open, close, s) == if j == |s| then NoBlock else Block(i, j + |close|)
  {
  }

  function Shifted(b: Block, n: nat): Block {
    if b.Block? then Block(n + b.start, n + b.end) else b
  }

  lemma {:induction false} BlockBehindBreaks(
    open: Tag, close: Tag, w: string, t: string, s: string, i: nat, from: nat)
    requires s == w + t && i == Find(t, open, 0) < |t| && from == i + |open| && Find(s, open, 0) == |w| + i
    ensures FirstBlock(open, close, s) == Shifted(FirstBlock(open, close, t), |w|)
  {
    var j := Find(t, close, from);
    FindBehind(w, t, close, from);
    FirstBlockFound(open, close, t, i, from, j);
    FirstBlockFound(open, close, s, |w| + i, |w| + from, |w| + j);
  }

  lemma {:induction false} FirstBlockBehindBreaks(open: Tag, close: Tag, w: string, t: string, s: string)
    requires Breaks(w) && OneLine(open) && s == w + t
    ensures FirstBlock(open, close, s) == Shifted(FirstBlock(open, close, t), |w|)
  {
    var i := Find(t, open, 0);
    FindsNothingInBreaks(w, t, open, 0);
    if i < |t| {
      BlockBehindBreaks(open, close, w, t, s, i, i + |open|);
    }
  }

  lemma {:induction false} DeletedFirst(open: Tag, close: Tag, s: string, start: nat, end: nat, later: string)
    requires FirstBlock(open, close, s) == Block(start, end) && later == StripBlocks(open, close, s[end..])
    ensures StripBlocks(open, close, s) == s[..start] + later
  {
  }

  /** s is t but for w in front, and so are their first blocks. */
  lemma {:induction false} DeletedBehind(
    open: Tag, close: Tag, w: string, t: string, s: string, b: Block, c: Block, head: string, tail: string)
    requires b.Block? && FirstBlock(open, close, t) == b && head == t[..b.start] && tail == t[b.end..]
    requires c.Block? && FirstBlock(open, close, s) == c && w + head == s[..c.start] && tail == s[c.end..]
    ensures StripBlocks(open, close, s) == w + StripBlocks(open, close, t)
  {
    var later := StripBlocks(open, close, tail);
    DeletedFirst(open, close, t, b.start, b.end, later);
    DeletedFirst(open, close, s, c.start, c.end, later);
    Reassociate(w, head, later);
  }

  lemma {:induction false} BlocksBehindBreaks(open: Tag, close: Tag, w: string, t: string)
    requires Breaks(w) && OneLine(open)
    ensures StripBlocks(open, close, w + t) == w + StripBlocks(open, close, t)
  {
    FirstBlockBehindBreaks(open, close, w, t, w + t);
    match FirstBlock(open, close, t)
    case NoBlock =>
    case Block(start, end) =>
      CutBehind(w, t, start);
      CutBehind(w, t, end);
      DeletedBehind(open, close, w, t, w + t, Block(start, end), Block(|w| + start, |w| + end), t[..start], t[end..]);
  }

  lemma BreaksInFront(open: Tag, close: Tag, w: string, t: string)
    requires Breaks(w) && OneLine(open)
    ensures StripTags(open, close, w + t) == StripTags(open, close, t)
  {
    var u := StripBlocks(open, close, t);
    BlocksBehindBreaks(open, close, w, t);
    FindsNothingInBreaks(w, u, open, 0);
    CutBehind(w, u, Find(u, open, 0));
    TrimSkipsBreaks(w, StripUnterminated(open, u));
  }

  lemma FirstAtFront(open: Tag)
    ensures FirstAt([] + open, open, 0, 0)
  {
    assert [] + open == open;
    assert open[0..|open|] == open;
  }

  lemma {:induction false} LeadingBlock(open: Tag, close: Tag, x: string, t: string)
    requires FirstAt(x + close, close, 0, |x|)
    ensures StripTags(open, close, [] + open + x + close + t) == StripTags(open, close, t)
  {
    FirstAtFront(open);
    BlockIsDeleted(open, close, [], x, t);
    assert [] + StripBlocks(open, close, t) == StripBlocks(open, close, t);
  }

  lemma PrinterShape(open: Tag, close: Tag, reasoning: string, answer: string)
    ensures WithReasoning(open, close, reasoning, answer)
         == [] + open + ("\n" + reasoning + "\n") + close + ("\n\n" + answer)
  {
  }

  /** Stripping undoes the printer for any reasoning that does not close its own
      block and any answer, even one with blocks of its own. */
  lemma {:induction false} ReasoningIsRemoved(open: Tag, close: Tag, reasoning: string, answer: string)
    requires OneLine(open) && OneLine(close) && !Contains(reasoning, close)
    ensures StripTags(open, close, WithReasoning(open, close, reasoning, answer)) == StripTags(open, close, answer)
  {
    var x, w := "\n" + reasoning + "\n", "\n\n";
    NoEarlyClose(reasoning, close);
    PrinterShape(open, close, reasoning, answer);
    LeadingBlock(open, close, x, w + answer);
    BreaksInFront(open, close, w, answer);
  }

  /** All of it for the two tags of the source. */
  lemma {:induction false} StripThinkPromises(text: string, reasoning: string, answer: string)
    ensures !Contains(StripThink(text), "<think>")
    ensures StripThink(StripThink(text)) == StripThink(text)
    ensures !Contains(text, "<think>") ==> IsTrimmed(text, StripThink(text))
    ensures !Contains(reasoning, "</think>") ==>
              StripThink("<think>" + ("\n" + reasoning + "\n") + "</think>" + ("\n\n" + answer)) == StripThink(answer)
    ensures !Contains(reasoning, "</think>") && !Contains(answer, "<think>") ==>
              IsTrimmed(answer, StripThink("<think>" + ("\n" + reasoning + "\n") + "</think>" + ("\n\n" + answer)))
  {
    NoTagSurvives(OPEN, CLOSE, text);
    if !Contains(text, OPEN) {
      PlainTextIsTrimmed(OPEN, CLOSE, text);
    }
    if !Contains(reasoning, CLOSE) {
      ReasoningIsRemoved(OPEN, CLOSE, reasoning, answer);
    }
    if !Contains(answer, OPEN) {
      PlainTextIsTrimmed(OPEN, CLOSE, answer);
    }
  }
}
