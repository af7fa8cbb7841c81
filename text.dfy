/**
 * The handful of Python string primitives the telemetry parsers rely on:
 * `str.strip()`, `re.split(r"\s+", s, maxsplit=1)`, `str.split()` and the
 * slice `s[1:-1]`. Whitespace is restricted to the ASCII characters for which
 * Python's `str.isspace()` holds; `strip`, `\s` and `split()` agree on that set.
 *
 * The functions carry only the facts their own definitions need; what they
 * compute is stated by the lemmas next to them.
 */
module Text {

  predicate IsSpace(c: char) {
    c == ' ' || c == '\t' || c == '\n' || c == '\r' || c == '\U{B}' || c == '\U{C}' ||
    c == '\U{1C}' || c == '\U{1D}' || c == '\U{1E}' || c == '\U{1F}'
  }

  predicate AllSpace(s: string) {
    forall k :: 0 <= k < |s| ==> IsSpace(s[k])
  }

  predicate NoSpace(s: string) {
    forall k :: 0 <= k < |s| ==> !IsSpace(s[k])
  }

  /** No whitespace at either end: what `strip()` produces. */
  predicate IsStripped(s: string) {
    |s| == 0 || (!IsSpace(s[0]) && !IsSpace(s[|s| - 1]))
  }

  /** `s.lstrip()`. */
  function TrimStart(s: string): (r: string)
    ensures |r| <= |s|
  {
    if |s| > 0 && IsSpace(s[0]) then TrimStart(s[1..]) else s
  }

  /** `s.rstrip()`. */
  function TrimEnd(s: string): (r: string)
    ensures |r| <= |s|
  {
    if |s| > 0 && IsSpace(s[|s| - 1]) then TrimEnd(s[..|s| - 1]) else s
  }

  /** `s.strip()`. */
  function Strip(s: string): string {
    TrimEnd(TrimStart(s))
  }

  /** `lstrip()` drops exactly the leading whitespace: what remains is a suffix that starts with a non-space. */
  lemma {:induction false} TrimStartSpec(s: string)
    ensures var r := TrimStart(s);
            |r| <= |s| && r == s[|s| - |r|..] && AllSpace(s[..|s| - |r|]) &&
            (|r| == 0 || !IsSpace(r[0]))
  {
    if |s| > 0 && IsSpace(s[0]) {
      TrimStartSpec(s[1..]);
      var r := TrimStart(s);
      assert s[..|s| - |r|] == [s[0]] + s[1..][..|s| - 1 - |r|];
    }
  }

  /** `rstrip()` drops exactly the trailing whitespace: what remains is a prefix that ends with a non-space. */
  lemma {:induction false} TrimEndSpec(s: string)
    ensures var r := TrimEnd(s);
            |r| <= |s| && r == s[..|r|] && AllSpace(s[|r|..]) &&
            (|r| == 0 || !IsSpace(r[|r| - 1]))
  {
    if |s| > 0 && IsSpace(s[|s| - 1]) {
      var s' := s[..|s| - 1];
      TrimEndSpec(s');
      var r := TrimEnd(s);
      assert s[|r|..] == s'[|r|..] + [s[|s| - 1]];
    }
  }

  /**
   * `strip()` removes exactly the whitespace at the two ends: the result is the
   * slice `s[i..j]` with only whitespace before `i` and after `j`, and it has
   * no whitespace at either end.
   */
  lemma StripSlice(s: string)
    ensures var i := |s| - |TrimStart(s)|;
            var j := i + |Strip(s)|;
            j <= |s| && Strip(s) == s[i..j] && AllSpace(s[..i]) && AllSpace(s[j..])
    ensures IsStripped(Strip(s))
  {
    var t := TrimStart(s);
    TrimStartSpec(s);
    TrimEndSpec(t);
    var i := |s| - |t|;
    var r := TrimEnd(t);
    assert t[|r|..] == s[i + |r|..];
    if |r| > 0 {
      assert r[0] == t[0];
    }
  }

  /** Whitespace-only input strips to the empty string, and only such input does. */
  lemma StripEmptyIff(s: string)
    ensures Strip(s) == [] <==> AllSpace(s)
  {
    StripSlice(s);
    var t := TrimStart(s);
    TrimStartSpec(s);
    TrimEndSpec(t);
    if t == [] {
      assert s[..|s|] == s;
    } else {
      assert t[0..] == t;
      assert s[|s| - |t|] == t[0];
    }
  }

  /** Text with no whitespace at its ends is left alone by `strip()`. */
  lemma StripOfStripped(s: string)
    requires IsStripped(s)
    ensures Strip(s) == s
  {
  }

  /** Leading whitespace is all `lstrip()` looks at. */
  lemma {:induction false} TrimStartAfterSpace(w: string, y: string)
    requires AllSpace(w)
    ensures TrimStart(w + y) == TrimStart(y)
  {
    if |w| > 0 {
      assert (w + y)[1..] == w[1..] + y;
      TrimStartAfterSpace(w[1..], y);
    } else {
      assert w + y == y;
    }
  }

  /** Trailing whitespace is all `rstrip()` looks at. */
  lemma {:induction false} TrimEndBeforeSpace(y: string, w: string)
    requires AllSpace(w)
    ensures TrimEnd(y + w) == TrimEnd(y)
  {
    if |w| > 0 {
      assert (y + w)[..|y + w| - 1] == y + w[..|w| - 1];
      TrimEndBeforeSpace(y, w[..|w| - 1]);
    } else {
      assert y + w == y;
    }
  }

  /** Whitespace padding around stripped text is exactly what `strip()` removes. */
  lemma StripPadded(w1: string, x: string, w2: string)
    requires AllSpace(w1) && AllSpace(w2) && IsStripped(x)
    ensures Strip(w1 + x + w2) == x
  {
    assert w1 + x + w2 == w1 + (x + w2);
    TrimStartAfterSpace(w1, x + w2);
    TrimEndBeforeSpace(x, w2);
    if |x| == 0 {
      assert x + w2 == w2;
      StripEmptyIff(w2);
    } else {
      assert (x + w2)[0] == x[0];
    }
  }

  /** Index of the first whitespace character of `s`, or `|s|` if there is none. */
  function FirstSpace(s: string): (i: nat)
    ensures i <= |s|
    ensures |s| > 0 && !IsSpace(s[0]) ==> i > 0
  {
    if |s| == 0 || IsSpace(s[0]) then 0 else 1 + FirstSpace(s[1..])
  }

  /** `FirstSpace` finds the first whitespace character. */
  lemma {:induction false} FirstSpaceSpec(s: string)
    ensures var i := FirstSpace(s);
            NoSpace(s[..i]) && (i < |s| ==> IsSpace(s[i]))
  {
    if |s| > 0 && !IsSpace(s[0]) {
      FirstSpaceSpec(s[1..]);
      var j := FirstSpace(s[1..]);
      assert s[..j + 1] == [s[0]] + s[1..][..j];
    }
  }

  /**
   * `re.split(r"\s+", s, maxsplit=1)`: the text before the first whitespace
   * run and, when there is such a run, the text after the whole run.
   */
  function SplitFirst(s: string): (parts: seq<string>)
    ensures 1 <= |parts| <= 2
  {
    var i := FirstSpace(s);
    if i == |s| then [s] else [s[..i], TrimStart(s[i..])]
  }

  /** A string without whitespace is not split. */
  lemma SplitFirstWhole(s: string)
    ensures |SplitFirst(s)| == 1 <==> NoSpace(s)
    ensures NoSpace(s) ==> SplitFirst(s) == [s]
  {
    FirstSpaceSpec(s);
    var i := FirstSpace(s);
    if i == |s| {
      assert s[..i] == s;
    } else {
      assert IsSpace(s[i]);
    }
  }

  /**
   * What `SplitFirst` promises: the first part holds no whitespace and, when
   * `s` is split, `s` is the first part, a non-empty whitespace run and the
   * second part, which does not start with whitespace.
   */
  lemma SplitFirstSpec(s: string)
    ensures NoSpace(SplitFirst(s)[0])
    ensures |SplitFirst(s)| == 2 ==>
              var p, q := SplitFirst(s)[0], SplitFirst(s)[1];
              |p| + |q| < |s| && s == p + s[|p|..|s| - |q|] + q &&
              AllSpace(s[|p|..|s| - |q|]) && (|q| == 0 || !IsSpace(q[0]))
  {
    FirstSpaceSpec(s);
    var i := FirstSpace(s);
    if i < |s| {
      var q := TrimStart(s[i..]);
      var j := |s| - |q|;
      assert i < j && AllSpace(s[i..j]) && s[j..] == q && (|q| == 0 || !IsSpace(q[0])) by {
        LeadingRun(s, i);
      }
      assert s == s[..i] + s[i..j] + s[j..];
    } else {
      assert s[..i] == s;
    }
  }

  /** The first whitespace after a whitespace-free word is the one right after it. */
  lemma {:induction false} FirstSpaceAfterWord(k: string, rest: string)
    requires NoSpace(k)
    requires |rest| > 0 && IsSpace(rest[0])
    ensures FirstSpace(k + rest) == |k|
  {
    if |k| > 0 {
      assert (k + rest)[1..] == k[1..] + rest;
      FirstSpaceAfterWord(k[1..], rest);
    } else {
      assert k + rest == rest;
    }
  }

  /**
   * A word, a whitespace run and text that does not start with whitespace
   * split into the word and that text.
   */
  lemma SplitFirstAtRun(k: string, w: string, v: string)
    requires NoSpace(k)
    requires |w| > 0 && AllSpace(w)
    requires |v| == 0 || !IsSpace(v[0])
    ensures SplitFirst(k + w + v) == [k, v]
  {
    var s := k + w + v;
    assert s == k + (w + v);
    FirstSpaceAfterWord(k, w + v);
    assert s[..|k|] == k;
    assert s[|k|..] == w + v;
    TrimStartAfterSpace(w, v);
    if |v| > 0 {
      assert TrimStart(v) == v;
    }
  }

  /** Trimming a suffix that starts with whitespace leaves a shorter suffix after a whitespace run. */
  lemma LeadingRun(s: string, i: nat)
    requires i < |s| && IsSpace(s[i])
    ensures var q := TrimStart(s[i..]);
            var j := |s| - |q|;
            i < j && AllSpace(s[i..j]) && s[j..] == q && (|q| == 0 || !IsSpace(q[0]))
  {
    var u := s[i..];
    TrimStartSpec(u);
    var q := TrimStart(u);
    assert u[0] == s[i];
    var j := |s| - |q|;
    assert s[i..j] == u[..|u| - |q|];
    assert s[j..] == u[|u| - |q|..];
  }

  /** The first part of stripped, non-empty text is non-empty, and its second part is stripped. */
  lemma SplitFirstStripped(s: string)
    requires IsStripped(s) && |s| > 0
    ensures |SplitFirst(s)[0]| > 0
    ensures |SplitFirst(s)| == 2 ==> IsStripped(SplitFirst(s)[1])
  {
    var i := FirstSpace(s);
    if i < |s| {
      var t := TrimStart(s[i..]);
      TrimStartSpec(s[i..]);
      if |t| > 0 {
        assert t[|t| - 1] == s[|s| - 1];
      }
    }
  }

  /** `s.split()`: the maximal whitespace-free runs of `s`, in order. */
  function Words(s: string): seq<string>
    decreases |s|
  {
    if s == [] then []
    else if IsSpace(s[0]) then Words(s[1..])
    else
      var i := FirstSpace(s);
      [s[..i]] + Words(s[i..])
  }

  /** Every word is non-empty and free of whitespace. */
  lemma {:induction false} WordsSpec(s: string)
    ensures forall j :: 0 <= j < |Words(s)| ==> |Words(s)[j]| > 0 && NoSpace(Words(s)[j])
    decreases |s|
  {
    if s == [] {
    } else if IsSpace(s[0]) {
      WordsSpec(s[1..]);
    } else {
      var i := FirstSpace(s);
      FirstSpaceSpec(s);
      WordsSpec(s[i..]);
    }
  }

  /** `seps` holds one piece of text for each gap between two of `n` pieces. */
  predicate Gaps(n: nat, seps: seq<string>) {
    |seps| == if n == 0 then 0 else n - 1
  }

  /** Pieces written in order with the given text in the gaps: `gs[0] + seps[0] + gs[1] + ... + gs[n - 1]`. */
  function Spaced(gs: seq<string>, seps: seq<string>): string
    requires Gaps(|gs|, seps)
  {
    if gs == [] then []
    else if |gs| == 1 then gs[0]
    else Spaced(gs[..|gs| - 1], seps[..|seps| - 1]) + seps[|seps| - 1] + gs[|gs| - 1]
  }

  /** `Spaced` read from the front: the first piece, the first gap, then the rest. */
  lemma {:induction false} SpacedCons(gs: seq<string>, seps: seq<string>)
    requires Gaps(|gs|, seps) && |gs| >= 2
    ensures Spaced(gs, seps) == gs[0] + seps[0] + Spaced(gs[1..], seps[1..])
  {
    var n := |gs|;
    var front, sfront := gs[..n - 1], seps[..n - 2];
    if n == 2 {
      assert front == [gs[0]];
      assert gs[1..] == [gs[1]];
    } else {
      SpacedCons(front, sfront);
      assert front[1..] == gs[1..][..n - 2];
      assert sfront[1..] == seps[1..][..n - 3];
      assert gs[1..][n - 2] == gs[n - 1] && seps[1..][n - 3] == seps[n - 2];
    }
  }

  /** Non-empty pieces: the text starts with the first piece's first character and ends with the last piece's last. */
  lemma {:induction false} SpacedBounds(gs: seq<string>, seps: seq<string>)
    requires Gaps(|gs|, seps) && |gs| > 0
    requires forall j :: 0 <= j < |gs| ==> |gs[j]| > 0
    ensures var s, last := Spaced(gs, seps), gs[|gs| - 1];
            |s| > 0 && s[0] == gs[0][0] && s[|s| - 1] == last[|last| - 1]
  {
    if |gs| > 1 {
      var front, sfront := gs[..|gs| - 1], seps[..|seps| - 1];
      SpacedBounds(front, sfront);
      var a := Spaced(front, sfront);
      assert Spaced(gs, seps) == a + seps[|seps| - 1] + gs[|gs| - 1];
    }
  }

  /** Words as `split()` returns them: non-empty and without whitespace. */
  predicate IsWords(ws: seq<string>) {
    forall j :: 0 <= j < |ws| ==> |ws[j]| > 0 && NoSpace(ws[j])
  }

  /** Whitespace runs: non-empty and all whitespace. */
  predicate IsRuns(seps: seq<string>) {
    forall j :: 0 <= j < |seps| ==> |seps[j]| > 0 && AllSpace(seps[j])
  }

  /** Leading whitespace does not change `split()`. */
  lemma {:induction false} WordsAfterSpace(w: string, s: string)
    requires AllSpace(w)
    ensures Words(w + s) == Words(s)
  {
    if |w| > 0 {
      assert (w + s)[1..] == w[1..] + s;
      WordsAfterSpace(w[1..], s);
    } else {
      assert w + s == s;
    }
  }

  /** `split()` of words separated by whitespace runs and followed by whitespace. */
  lemma {:induction false} WordsSpacedThen(ws: seq<string>, seps: seq<string>, wn: string)
    requires Gaps(|ws|, seps) && IsWords(ws) && IsRuns(seps) && AllSpace(wn)
    ensures Words(Spaced(ws, seps) + wn) == ws
    decreases |ws|
  {
    if |ws| == 0 {
      var e: string := [];
      WordsAfterSpace(wn, e);
      assert Spaced(ws, seps) + wn == wn + e;
    } else if |ws| == 1 {
      WordsOfWordThen(ws[0], wn);
      var e: string := [];
      WordsAfterSpace(wn, e);
      assert wn + e == wn;
    } else {
      SpacedCons(ws, seps);
      var rest := Spaced(ws[1..], seps[1..]);
      var tail := seps[0] + (rest + wn);
      assert Spaced(ws, seps) + wn == ws[0] + tail;
      assert tail[0] == seps[0][0];
      WordsOfWordThen(ws[0], tail);
      WordsAfterSpace(seps[0], rest + wn);
      WordsSpacedThen(ws[1..], seps[1..], wn);
      assert [ws[0]] + ws[1..] == ws;
    }
  }

  /**
   * `split()` gives back exactly the words of text made of words separated by
   * whitespace runs, with any whitespace before and after.
   */
  lemma WordsSpaced(w0: string, ws: seq<string>, seps: seq<string>, wn: string)
    requires Gaps(|ws|, seps) && IsWords(ws) && IsRuns(seps)
    requires AllSpace(w0) && AllSpace(wn)
    ensures Words(w0 + Spaced(ws, seps) + wn) == ws
  {
    var s := Spaced(ws, seps);
    assert w0 + s + wn == w0 + (s + wn);
    WordsAfterSpace(w0, s + wn);
    WordsSpacedThen(ws, seps, wn);
  }

  /** A word followed by a tail that is empty or starts with whitespace. */
  lemma {:induction false} WordsOfWordThen(w: string, tail: string)
    requires |w| > 0 && NoSpace(w)
    requires tail == [] || IsSpace(tail[0])
    ensures Words(w + tail) == [w] + Words(tail)
  {
    var s := w + tail;
    FirstSpaceSpec(s);
    var f := FirstSpace(s);
    assert s[..|w|] == w;
    assert |w| < |s| ==> s[|w|] == tail[0];
    assert f == |w|;
    assert s[..f] == w;
    assert s[f..] == tail;
  }

  /** Python's slice `s[1:-1]`, which is empty for strings shorter than two. */
  function Inner(s: string): (r: string)
    ensures |s| >= 2 ==> s == [s[0]] + r + [s[|s| - 1]]
    ensures |s| < 2 ==> r == []
  {
    if |s| < 2 then [] else s[1..|s| - 1]
  }
}
