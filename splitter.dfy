/**
 * The depth-counting splitter that both telemetry parsers use
 * (experiments/log.py, `parse_setting` and the string branch of
 * `write_to_csv`). It scans the text inside the outer parentheses once,
 * counting `(` as +1 and `)` as -1, remembers where the current top-level
 * group opened, and collects the group when the depth comes back to zero.
 *
 * The scan is specified by `Step`/`Scan`, one scanner state per prefix, and
 * `CollectTopLevel` is the loop that runs it. `ScanInv` says what the state
 * means: the collected spans are exactly the top-level groups of the prefix
 * (the stretches that open at depth 0 and stay above 0 until they close), in
 * left-to-right order and without overlap.
 */
module Splitter {
  import opened Wrappers
  import opened Text

  /** How one character moves the depth counter. */
  function Delta(c: char): int {
    if c == '(' then 1 else if c == ')' then -1 else 0
  }

  /** The value of the depth counter after the first `n` characters of `s`. */
  function Depth(s: string, n: nat): int
    requires n <= |s|
  {
    if n == 0 then 0 else Depth(s, n - 1) + Delta(s[n - 1])
  }

  /** The half-open index range `s[start..end]` of one collected element. */
  datatype Span = Span(start: nat, end: nat)

  /** The loop variables `depth`, `start` (None or an index) and the collected spans. */
  datatype ScanState = ScanState(depth: int, start: Option<nat>, spans: seq<Span>)

  /** One iteration of the scan, on character `c` at index `i`. */
  function Step(st: ScanState, i: nat, c: char): ScanState {
    if c == '(' then
      ScanState(st.depth + 1, if st.depth == 0 then Some(i) else st.start, st.spans)
    else if c == ')' then
      if st.depth - 1 == 0 && st.start.Some? then
        ScanState(0, None, st.spans + [Span(st.start.value, i + 1)])
      else
        ScanState(st.depth - 1, st.start, st.spans)
    else
      st
  }

  /** The scanner state after the first `n` characters of `s`. */
  function Scan(s: string, n: nat): ScanState
    requires n <= |s|
  {
    if n == 0 then ScanState(0, None, []) else Step(Scan(s, n - 1), n - 1, s[n - 1])
  }

  /** The spans collected from the whole of `s`. */
  function Spans(s: string): seq<Span> {
    Scan(s, |s|).spans
  }

  /**
   * A top-level group of `s`: it opens with `(` where the depth is 0, the
   * depth stays positive inside it, and it is back at 0 right after its end.
   */
  predicate IsGroup(s: string, g: Span) {
    g.start < g.end <= |s| && s[g.start] == '(' &&
    Depth(s, g.start) == 0 && Depth(s, g.end) == 0 &&
    forall k :: g.start < k < g.end ==> Depth(s, k) > 0
  }

  /** A group that opened at `lo` and is still open after `n` characters. */
  predicate IsOpen(s: string, n: nat, lo: nat)
    requires n <= |s|
  {
    lo < n && s[lo] == '(' && Depth(s, lo) == 0 &&
    forall k :: lo < k <= n ==> Depth(s, k) > 0
  }

  /** What the scanner state after `n` characters means. */
  ghost predicate ScanOk(s: string, n: nat, st: ScanState)
    requires n <= |s|
  {
    && st.depth == Depth(s, n)
    && (st.start.Some? <==> st.depth > 0)
    && (st.start.Some? ==> IsOpen(s, n, st.start.value))
    && (forall j :: 0 <= j < |st.spans| ==> IsGroup(s, st.spans[j]) && st.spans[j].end <= n)
    && (forall i, j :: 0 <= i < j < |st.spans| ==> st.spans[i].end <= st.spans[j].start)
    && (st.start.Some? ==> forall j :: 0 <= j < |st.spans| ==> st.spans[j].end <= st.start.value)
    && (forall g :: IsGroup(s, g) && g.end <= n ==> g in st.spans)
  }

  /**
   * The scan invariant: after every prefix the counter is the depth, `start`
   * is set exactly while the depth is positive and then marks the open group,
   * and the spans are all the top-level groups completed so far, in order and
   * without overlap.
   */
  lemma {:induction false} ScanInv(s: string, n: nat)
    requires n <= |s|
    ensures ScanOk(s, n, Scan(s, n))
  {
    if n > 0 {
      ScanInv(s, n - 1);
      StepOk(s, n - 1, Scan(s, n - 1));
    }
  }

  /** `Step` keeps `ScanOk`. */
  lemma StepOk(s: string, n: nat, st: ScanState)
    requires n < |s|
    requires ScanOk(s, n, st)
    ensures ScanOk(s, n + 1, Step(st, n, s[n]))
  {
    var c := s[n];
    var st' := Step(st, n, c);
    assert Depth(s, n + 1) == st.depth + Delta(c);
    if c == '(' {
      StepOpen(s, n, st);
    } else if c == ')' {
      if st.depth - 1 == 0 && st.start.Some? {
        StepClose(s, n, st);
      } else {
        StepInside(s, n, st);
      }
    } else {
      StepOther(s, n, st);
    }
  }

  lemma StepOpen(s: string, n: nat, st: ScanState)
    requires n < |s| && s[n] == '('
    requires ScanOk(s, n, st)
    ensures ScanOk(s, n + 1, Step(st, n, s[n]))
  {
    var st' := Step(st, n, s[n]);
    assert Depth(s, n + 1) == st.depth + 1;
  }

  lemma StepClose(s: string, n: nat, st: ScanState)
    requires n < |s| && s[n] == ')'
    requires ScanOk(s, n, st)
    requires st.depth == 1 && st.start.Some?
    ensures ScanOk(s, n + 1, Step(st, n, s[n]))
  {
    var lo := st.start.value;
    var g' := Span(lo, n + 1);
    var st' := Step(st, n, s[n]);
    assert st'.spans == st.spans + [g'];
    assert Depth(s, n + 1) == 0;
    assert IsGroup(s, g');
    forall g | IsGroup(s, g) && g.end <= n + 1 ensures g in st'.spans {
      if g.end == n + 1 {
        assert g == g';
      } else {
        assert g in st.spans;
      }
    }
  }

  lemma StepInside(s: string, n: nat, st: ScanState)
    requires n < |s| && s[n] == ')'
    requires ScanOk(s, n, st)
    requires !(st.depth == 1 && st.start.Some?)
    ensures ScanOk(s, n + 1, Step(st, n, s[n]))
  {
    var st' := Step(st, n, s[n]);
    assert Depth(s, n + 1) == st.depth - 1;
    assert st.depth != 1;
  }

  lemma StepOther(s: string, n: nat, st: ScanState)
    requires n < |s| && s[n] != '(' && s[n] != ')'
    requires ScanOk(s, n, st)
    ensures ScanOk(s, n + 1, Step(st, n, s[n]))
  {
    var st' := Step(st, n, s[n]);
    assert Depth(s, n + 1) == st.depth;
  }

  /** The substrings `s[g.start..g.end]` of a list of spans. */
  function Slices(s: string, spans: seq<Span>): seq<string>
    requires forall j :: 0 <= j < |spans| ==> spans[j].start <= spans[j].end <= |s|
  {
    seq(|spans|, j requires 0 <= j < |spans| => s[spans[j].start..spans[j].end])
  }

  /**
   * The top-level elements of `s`: one contiguous substring per span, each
   * a top-level group that opens with `(` and closes with `)`.
   */
  function TopLevel(s: string): (items: seq<string>)
    ensures |items| == |Spans(s)|
    ensures forall j :: 0 <= j < |items| ==>
              IsGroup(s, Spans(s)[j]) &&
              items[j] == s[Spans(s)[j].start..Spans(s)[j].end] &&
              |items[j]| >= 2 && items[j][0] == '(' && items[j][|items[j]| - 1] == ')'
  {
    SpansAreGroups(s);
    Slices(s, Spans(s))
  }

  /** Every collected span is a top-level group, at least `()` long and ending in `)`. */
  lemma SpansAreGroups(s: string)
    ensures forall j :: 0 <= j < |Spans(s)| ==>
              var g := Spans(s)[j];
              IsGroup(s, g) && g.start + 2 <= g.end && s[g.end - 1] == ')'
  {
    ScanInv(s, |s|);
    forall j | 0 <= j < |Spans(s)|
      ensures var g := Spans(s)[j]; IsGroup(s, g) && g.start + 2 <= g.end && s[g.end - 1] == ')'
    {
      GroupCloses(s, Spans(s)[j]);
    }
  }

  /** A group is at least `()` long and its last character is `)`. */
  lemma GroupCloses(s: string, g: Span)
    requires IsGroup(s, g)
    ensures g.end >= g.start + 2 && s[g.end - 1] == ')'
  {
    assert Depth(s, g.start + 1) == 1;
    if g.end - 1 > g.start {
      assert Depth(s, g.end - 1) > 0;
    }
  }

  /**
   * The loop of `parse_setting` (log.py:153-165) and of `write_to_csv`
   * (log.py:211-223): it collects the top-level elements and returns the
   * final depth, which both callers then compare with zero.
   */
  method CollectTopLevel(content: string) returns (items: seq<string>, depth: int)
    ensures depth == Depth(content, |content|)
    ensures items == TopLevel(content)
  {
    items, depth := [], 0;
    var start: Option<nat> := None;
    ghost var spans: seq<Span> := [];
    for i := 0 to |content|
      invariant ScanState(depth, start, spans) == Scan(content, i)
      invariant ScanBounded(content, i, Scan(content, i))
      invariant items == Slices(content, spans)
    {
      ScanBounds(content, i + 1);
      var ch := content[i];
      if ch == '(' {
        if depth == 0 {
          start := Some(i);
        }
        depth := depth + 1;
      } else if ch == ')' {
        depth := depth - 1;
        if depth == 0 && start.Some? {
          items := items + [content[start.value..i + 1]];
          spans := spans + [Span(start.value, i + 1)];
          start := None;
        }
      }
    }
    ScanInv(content, |content|);
  }

  /** The open group and the spans of a scanner state lie within the first `n` characters. */
  predicate ScanBounded(s: string, n: nat, st: ScanState)
    requires n <= |s|
  {
    (st.start.Some? ==> st.start.value < n) &&
    forall j :: 0 <= j < |st.spans| ==> st.spans[j].start <= st.spans[j].end <= n
  }

  /** Everything the scan has marked in a prefix lies inside that prefix. */
  lemma ScanBounds(s: string, n: nat)
    requires n <= |s|
    ensures ScanBounded(s, n, Scan(s, n))
  {
    ScanInv(s, n);
  }

  /** Elements come out in left-to-right order and never overlap. */
  lemma SpansOrdered(s: string, i: nat, j: nat)
    requires i < j < |Spans(s)|
    ensures Spans(s)[i].end <= Spans(s)[j].start
  {
    ScanInv(s, |s|);
  }

  /** Every top-level group of `s` is collected: nothing is missed. */
  lemma GroupsCollected(s: string, g: Span)
    requires IsGroup(s, g)
    ensures g in Spans(s)
  {
    ScanInv(s, |s|);
  }

  /**
   * An element is emitted exactly when a `)` brings the depth from 1 back to
   * 0; at that moment `start` is always set, so the `start is not None` test
   * of the source never fails.
   */
  lemma EmitWhenDepthReturnsToZero(s: string, n: nat)
    requires n < |s|
    ensures var st := Scan(s, n);
            (|Scan(s, n + 1).spans| == |st.spans| + 1 <==> s[n] == ')' && st.depth == 1)
    ensures Scan(s, n).depth == 1 ==> Scan(s, n).start.Some?
  {
    ScanInv(s, n);
  }

  /** Depth measured inside a slice is the difference of depths in `s`. */
  lemma {:induction false} DepthSlice(s: string, a: nat, b: nat, k: nat)
    requires a <= b <= |s| && k <= b - a
    ensures Depth(s[a..b], k) == Depth(s, a + k) - Depth(s, a)
  {
    if k > 0 {
      DepthSlice(s, a, b, k - 1);
      assert s[a..b][k - 1] == s[a + k - 1];
    }
  }

  /**
   * Each element is balanced on its own: its depth is 0 at the end and
   * positive everywhere strictly inside it.
   */
  lemma ElementBalanced(s: string, j: nat)
    requires j < |TopLevel(s)|
    ensures var e := TopLevel(s)[j];
            Depth(e, |e|) == 0 && forall k :: 0 < k < |e| ==> Depth(e, k) > 0
  {
    var g := Spans(s)[j];
    var e := TopLevel(s)[j];
    DepthSlice(s, g.start, g.end, |e|);
    forall k | 0 < k < |e| ensures Depth(e, k) > 0 {
      DepthSlice(s, g.start, g.end, k);
    }
  }

  predicate IsParen(c: char) {
    c == '(' || c == ')'
  }

  /** Position `k` lies inside one of the collected elements. */
  predicate InElement(s: string, k: nat) {
    exists j :: 0 <= j < |Spans(s)| && Spans(s)[j].start <= k < Spans(s)[j].end
  }

  /** The scan reads nothing but the positions of the parentheses. */
  lemma {:induction false} ScanSeesOnlyParens(s: string, t: string, n: nat)
    requires n <= |s| == |t|
    requires forall k :: 0 <= k < |s| ==> (s[k] == '(' <==> t[k] == '(') && (s[k] == ')' <==> t[k] == ')')
    ensures Scan(s, n) == Scan(t, n)
  {
    if n > 0 {
      ScanSeesOnlyParens(s, t, n - 1);
    }
  }

  /**
   * Characters outside every top-level group are ignored: changing any of
   * them, other than into or out of a parenthesis, changes neither the
   * elements nor the final depth.
   */
  lemma OutsideGroupsIgnored(s: string, t: string)
    requires |s| == |t|
    requires forall k :: 0 <= k < |s| && s[k] != t[k] ==>
               !IsParen(s[k]) && !IsParen(t[k]) && !InElement(s, k)
    ensures TopLevel(s) == TopLevel(t)
    ensures Depth(s, |s|) == Depth(t, |t|)
  {
    ScanSeesOnlyParens(s, t, |s|);
    ScanInv(s, |s|);
    ScanInv(t, |t|);
    var sp := Spans(s);
    forall j | 0 <= j < |sp| ensures TopLevel(s)[j] == TopLevel(t)[j] {
      var g := sp[j];
      forall k | g.start <= k < g.end ensures s[k] == t[k] {
        if s[k] != t[k] {
          assert InElement(s, k);
        }
      }
      assert s[g.start..g.end] == t[g.start..g.end];
    }
  }

  /**
   * Text that is one balanced group on its own: it opens with `(`, its depth
   * stays positive inside and it ends back at depth 0.
   */
  predicate IsGroupText(g: string) {
    |g| >= 2 && g[0] == '(' && Depth(g, |g|) == 0 &&
    forall m :: 0 < m < |g| ==> Depth(g, m) > 0
  }

  /** Depth over a concatenation: the depth of `a`, then that of the prefix of `b`. */
  lemma {:induction false} DepthAppend(a: string, b: string, m: nat)
    requires m <= |b|
    ensures Depth(a + b, |a| + m) == Depth(a, |a|) + Depth(b, m)
  {
    if m == 0 {
      DepthPrefix(a + b, a, |a|);
    } else {
      DepthAppend(a, b, m - 1);
      assert (a + b)[|a| + m - 1] == b[m - 1];
    }
  }

  /** Depth after `n` characters depends on the first `n` characters only. */
  lemma {:induction false} DepthPrefix(s: string, t: string, n: nat)
    requires n <= |s| && n <= |t| && s[..n] == t[..n]
    ensures Depth(s, n) == Depth(t, n)
  {
    if n > 0 {
      assert s[..n - 1] == t[..n - 1];
      assert s[n - 1] == s[..n][n - 1];
      DepthPrefix(s, t, n - 1);
    }
  }

  /** The scanner state after `n` characters depends on the first `n` characters only. */
  lemma {:induction false} ScanPrefix(s: string, t: string, n: nat)
    requires n <= |s| && n <= |t| && s[..n] == t[..n]
    ensures Scan(s, n) == Scan(t, n)
  {
    if n > 0 {
      assert s[..n - 1] == t[..n - 1];
      assert s[n - 1] == s[..n][n - 1];
      ScanPrefix(s, t, n - 1);
    }
  }

  /** Inside an appended group, `start` marks its opening and nothing is emitted. */
  lemma {:induction false} ScanInsideGroup(a: string, g: string, m: nat)
    requires Closed(a)
    requires IsGroupText(g) && 0 < m < |g|
    ensures Scan(a + g, |a| + m) == ScanState(Depth(g, m), Some(|a|), Scan(a, |a|).spans)
  {
    var s := a + g;
    assert s[|a| + m - 1] == g[m - 1];
    assert Depth(g, m) == Depth(g, m - 1) + Delta(g[m - 1]);
    if m == 1 {
      assert s[..|a|] == a[..|a|];
      ScanPrefix(s, a, |a|);
    } else {
      ScanInsideGroup(a, g, m - 1);
    }
  }

  /** Appending a balanced group to text scanned back to depth 0 emits exactly that group. */
  lemma {:induction false} ScanGroupAppend(a: string, g: string)
    requires Closed(a)
    requires IsGroupText(g)
    ensures Scan(a + g, |a| + |g|) == ScanState(0, None, Scan(a, |a|).spans + [Span(|a|, |a| + |g|)])
  {
    var s := a + g;
    var n := |g|;
    ScanInsideGroup(a, g, n - 1);
    var st := Scan(s, |a| + n - 1);
    assert s[|a| + n - 1] == g[n - 1];
    assert Depth(g, n) == Depth(g, n - 1) + Delta(g[n - 1]);
    assert Depth(g, n - 1) == 1 && g[n - 1] == ')';
    assert Scan(s, |a| + n) == Step(st, |a| + n - 1, g[n - 1]);
  }

  /** Appending a balanced group to text scanned back to depth 0 adds exactly that element. */
  lemma {:induction false} TopLevelAppendGroup(a: string, g: string)
    requires Closed(a)
    requires IsGroupText(g)
    ensures TopLevel(a + g) == TopLevel(a) + [g]
  {
    var s := a + g;
    ScanGroupAppend(a, g);
    ScanInv(a, |a|);
    var sp := Spans(a);
    assert Spans(s) == sp + [Span(|a|, |s|)];
    var l, r := TopLevel(s), TopLevel(a) + [g];
    assert |l| == |r|;
    forall j | 0 <= j < |l| ensures l[j] == r[j] {
      if j < |sp| {
        assert sp[j].end <= |a|;
        assert s[sp[j].start..sp[j].end] == a[sp[j].start..sp[j].end];
      } else {
        assert s[|a|..|s|] == g;
      }
    }
  }

  /** The scan of all of `s` ends back at depth 0 with no group open. */
  predicate Closed(s: string) {
    Scan(s, |s|).depth == 0 && Scan(s, |s|).start.None?
  }

  /** Text with no parenthesis in it. */
  predicate Flat(w: string) {
    forall k :: 0 <= k < |w| ==> !IsParen(w[k])
  }

  /** Flat text leaves the scanner state as it was. */
  lemma {:induction false} ScanFlatAppend(a: string, w: string, m: nat)
    requires Flat(w) && m <= |w|
    ensures Scan(a + w, |a| + m) == Scan(a, |a|)
  {
    if m == 0 {
      assert (a + w)[..|a|] == a[..|a|];
      ScanPrefix(a + w, a, |a|);
    } else {
      ScanFlatAppend(a, w, m - 1);
      assert (a + w)[|a| + m - 1] == w[m - 1];
    }
  }

  /** Appending flat text adds no element and leaves the scanner state as it was. */
  lemma TopLevelAppendFlat(a: string, w: string)
    requires Flat(w)
    ensures Scan(a + w, |a + w|) == Scan(a, |a|)
    ensures TopLevel(a + w) == TopLevel(a)
  {
    var s := a + w;
    ScanFlatAppend(a, w, |w|);
    ScanInv(a, |a|);
    var sp := Spans(a);
    assert Spans(s) == sp;
    forall j | 0 <= j < |sp| ensures TopLevel(s)[j] == TopLevel(a)[j] {
      assert s[sp[j].start..sp[j].end] == a[sp[j].start..sp[j].end];
    }
  }

  /** Flat text followed by one group: that group is the only element, and the scan closes. */
  lemma TopLevelAfterFlat(w: string, g: string)
    requires Flat(w) && IsGroupText(g)
    ensures Closed(w + g) && TopLevel(w + g) == [g]
  {
    var none: string := [];
    assert none + w == w;
    ClosedAppend(none, w, g);
    TopLevelAppendFlat(none, w);
    assert TopLevel(none) == [];
    TopLevelAppendGroup(w, g);
  }

  /** Pieces without parentheses, with gaps without parentheses, make text without parentheses. */
  lemma {:induction false} SpacedFlat(gs: seq<string>, seps: seq<string>)
    requires Gaps(|gs|, seps)
    requires forall j :: 0 <= j < |gs| ==> Flat(gs[j])
    requires forall j :: 0 <= j < |seps| ==> Flat(seps[j])
    ensures Flat(Spaced(gs, seps))
  {
    if |gs| > 1 {
      var front, sfront := gs[..|gs| - 1], seps[..|seps| - 1];
      var a, w, g := Spaced(front, sfront), seps[|seps| - 1], gs[|gs| - 1];
      SpacedFlat(front, sfront);
      var s := a + w + g;
      forall k | 0 <= k < |s| ensures !IsParen(s[k]) {
        if k < |a| {
          assert s[k] == a[k];
        } else if k < |a| + |w| {
          assert s[k] == w[k - |a|];
        } else {
          assert s[k] == g[k - |a| - |w|];
        }
      }
    }
  }

  /** Appending flat text or a balanced group keeps the scan closed. */
  lemma ClosedAppend(a: string, w: string, g: string)
    requires Closed(a) && Flat(w) && IsGroupText(g)
    ensures Closed(a + w) && Closed(a + w + g)
  {
    ScanFlatAppend(a, w, |w|);
    ScanGroupAppend(a + w, g);
  }

  /** Balanced groups with flat text between them scan back to depth 0 with no group open. */
  lemma {:induction false} SpacedClosed(gs: seq<string>, seps: seq<string>)
    requires Gaps(|gs|, seps)
    requires forall j :: 0 <= j < |gs| ==> IsGroupText(gs[j])
    requires forall j :: 0 <= j < |seps| ==> Flat(seps[j])
    ensures Closed(Spaced(gs, seps))
  {
    if |gs| == 1 {
      var e: string := [];
      ClosedAppend(e, e, gs[0]);
      assert e + e + gs[0] == Spaced(gs, seps);
    } else if |gs| > 1 {
      var front, sfront := gs[..|gs| - 1], seps[..|seps| - 1];
      var a := Spaced(front, sfront);
      SpacedClosed(front, sfront);
      ClosedAppend(a, seps[|seps| - 1], gs[|gs| - 1]);
      assert a + seps[|seps| - 1] + gs[|gs| - 1] == Spaced(gs, seps);
    }
  }

  /**
   * The inverse of splitting: balanced groups written one after another,
   * with any text free of parentheses between them, are split back into
   * exactly those groups, and the scan ends at depth 0 with no group open.
   */
  lemma {:induction false} TopLevelSpaced(gs: seq<string>, seps: seq<string>)
    requires Gaps(|gs|, seps)
    requires forall j :: 0 <= j < |gs| ==> IsGroupText(gs[j])
    requires forall j :: 0 <= j < |seps| ==> Flat(seps[j])
    ensures TopLevel(Spaced(gs, seps)) == gs
    ensures Closed(Spaced(gs, seps))
  {
    SpacedClosed(gs, seps);
    if |gs| == 1 {
      var g := gs[0];
      assert [] + g == g;
      TopLevelAppendGroup([], g);
    } else if |gs| > 1 {
      var front, sfront := gs[..|gs| - 1], seps[..|seps| - 1];
      var g, w := gs[|gs| - 1], seps[|seps| - 1];
      var a := Spaced(front, sfront);
      assert Spaced(gs, seps) == (a + w) + g;
      assert front + [g] == gs;
      SpacedClosed(front, sfront);
      TopLevelSpaced(front, sfront);
      TopLevelAppendFlat(a, w);
      TopLevelAppendGroup(a + w, g);
    }
  }

  /** Spaced groups are empty or open with `(` and close with `)`. */
  lemma {:induction false} SpacedEnds(gs: seq<string>, seps: seq<string>)
    requires Gaps(|gs|, seps)
    requires forall j :: 0 <= j < |gs| ==> IsGroupText(gs[j])
    ensures var c := Spaced(gs, seps);
            c == [] || (c[0] == '(' && c[|c| - 1] == ')')
  {
    if |gs| == 1 {
      GroupTextCloses(gs[0]);
    } else if |gs| > 1 {
      var front, sfront := gs[..|gs| - 1], seps[..|seps| - 1];
      var g := gs[|gs| - 1];
      var a := Spaced(front, sfront);
      SpacedEnds(front, sfront);
      GroupTextCloses(g);
      assert Spaced(gs, seps) == a + seps[|seps| - 1] + g;
    }
  }

  /** A group text ends with `)`. */
  lemma GroupTextCloses(g: string)
    requires IsGroupText(g)
    ensures g[|g| - 1] == ')'
  {
    assert Depth(g, |g|) == Depth(g, |g| - 1) + Delta(g[|g| - 1]);
  }

  /** Text without parentheses leaves the depth at 0 everywhere. */
  lemma {:induction false} DepthFlat(s: string, m: nat)
    requires m <= |s|
    requires forall k :: 0 <= k < |s| ==> !IsParen(s[k])
    ensures Depth(s, m) == 0
  {
    if m > 0 {
      DepthFlat(s, m - 1);
    }
  }

  /** Text whose parentheses balance and never close more than they opened. */
  predicate IsBalanced(x: string) {
    Depth(x, |x|) == 0 && forall m :: 0 <= m <= |x| ==> Depth(x, m) >= 0
  }

  /** Text without parentheses is balanced. */
  lemma FlatIsBalanced(x: string)
    requires forall k :: 0 <= k < |x| ==> !IsParen(x[k])
    ensures IsBalanced(x)
  {
    forall m | 0 <= m <= |x| ensures Depth(x, m) == 0 {
      DepthFlat(x, m);
    }
  }

  /** Balanced texts written one after the other are balanced. */
  lemma BalancedAppend(a: string, b: string)
    requires IsBalanced(a) && IsBalanced(b)
    ensures IsBalanced(a + b)
  {
    var s := a + b;
    forall m | 0 <= m <= |s| ensures Depth(s, m) >= 0 {
      if m <= |a| {
        assert s[..m] == a[..m];
        DepthPrefix(s, a, m);
      } else {
        DepthAppend(a, b, m - |a|);
      }
    }
    DepthAppend(a, b, |b|);
  }

  /** Balanced text inside a pair of parentheses is one group. */
  lemma WrapIsGroup(x: string)
    requires IsBalanced(x)
    ensures IsGroupText("(" + x + ")")
  {
    var w := "(" + x + ")";
    var h := "(" + x;
    assert w == h + ")";
    forall m | 1 <= m <= |h| ensures Depth(w, m) == 1 + Depth(x, m - 1) {
      assert w[..m] == h[..m];
      DepthPrefix(w, h, m);
      DepthAppend("(", x, m - 1);
    }
    assert Depth(w, |w|) == Depth(w, |h|) + Delta(w[|h|]);
  }

  /** A group is balanced. */
  lemma GroupIsBalanced(g: string)
    requires IsGroupText(g)
    ensures IsBalanced(g)
  {
  }
}
