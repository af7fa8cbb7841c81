/**
 * `parse_setting` (experiments/log.py:130-182): turns
 * `((PRED VALUE) (PRED VALUE) ...)` into a map from each predicate to its
 * value text, kept verbatim. `SettingsOfText` is the specification and
 * `ParseSetting` the code, with the source's two loops.
 */
module Settings {
  import opened Wrappers
  import opened Text
  import opened Splitter

  /** The two `ValueError`s `parse_setting` raises. */
  datatype ParseError =
    | NotSExpression  // "Input must be a single parenthesized S-expression." (log.py:147)
    | Unbalanced      // "Unbalanced parentheses in input." (log.py:168)

  /** True when stripped text starts with `(` and ends with `)`. */
  predicate Parenthesized(t: string) {
    |t| > 0 && t[0] == '(' && t[|t| - 1] == ')'
  }

  /** The `(predicate, value)` pair of one element, or None for an empty body. */
  function SettingOf(item: string): Option<(string, string)> {
    var body := Strip(Inner(item));
    if body == [] then None
    else
      var parts := SplitFirst(body);
      Some((parts[0], if |parts| > 1 then Strip(parts[1]) else []))
  }

  /**
   * A dictionary filled in order from optional `(key, value)` pairs, where a
   * later pair overwrites an earlier one with the same key.
   */
  function MapOf<K, V>(pairs: seq<Option<(K, V)>>): map<K, V> {
    if pairs == [] then map[]
    else
      var m := MapOf(pairs[..|pairs| - 1]);
      match pairs[|pairs| - 1]
      case None => m
      case Some((k, v)) => m[k := v]
  }

  /** The pairs of a list of elements, one per element. */
  function PairsOf(items: seq<string>): seq<Option<(string, string)>> {
    seq(|items|, j requires 0 <= j < |items| => SettingOf(items[j]))
  }

  /** The dictionary `parse_setting` builds from the elements (log.py:170-180). */
  function SettingsOf(items: seq<string>): map<string, string> {
    MapOf(PairsOf(items))
  }

  /** What `parse_setting(s)` returns or raises. */
  function SettingsOfText(s: string): Result<map<string, string>, ParseError> {
    var t := Strip(s);
    if t == [] then Ok(map[])
    else if !Parenthesized(t) then Err(NotSExpression)
    else
      var content := Strip(Inner(t));
      if Depth(content, |content|) != 0 then Err(Unbalanced)
      else Ok(SettingsOf(TopLevel(content)))
  }

  /** `parse_setting`: the splitter loop, the depth check, then the loop that fills the dictionary. */
  method ParseSetting(s: string) returns (r: Result<map<string, string>, ParseError>)
    ensures r == SettingsOfText(s)
  {
    var t := Strip(s);
    if t == [] {
      return Ok(map[]);
    }
    if !(t[0] == '(' && t[|t| - 1] == ')') {
      return Err(NotSExpression);
    }
    var content := Strip(Inner(t));
    var pairs, depth := CollectTopLevel(content);
    if depth != 0 {
      return Err(Unbalanced);
    }
    var result := BuildSettings(pairs);
    return Ok(result);
  }

  /** One more element either leaves the dictionary alone or sets one key. */
  lemma MapOfStep<K, V>(ps: seq<Option<(K, V)>>, i: nat)
    requires i < |ps|
    ensures MapOf(ps[..i + 1]) ==
      if ps[i].None? then MapOf(ps[..i]) else MapOf(ps[..i])[ps[i].value.0 := ps[i].value.1]
  {
    assert ps[..i + 1][..i] == ps[..i];
  }

  /** The loop of log.py:170-180 that fills the dictionary from the elements. */
  method BuildSettings(pairs: seq<string>) returns (result: map<string, string>)
    ensures result == SettingsOf(pairs)
  {
    ghost var ps := PairsOf(pairs);
    result := map[];
    for i := 0 to |pairs|
      invariant result == MapOf(ps[..i])
    {
      var body := Strip(Inner(pairs[i]));
      MapOfStep(ps, i);
      assert ps[i] == SettingOf(pairs[i]);
      if body != [] {
        var parts := SplitFirst(body);
        var pred := parts[0];
        var val := if |parts| > 1 then Strip(parts[1]) else [];
        result := result[pred := val];
      }
    }
    assert ps[..|pairs|] == ps;
  }

  /**
   * Empty or whitespace-only input gives the empty map; any other input that
   * is not wrapped in parentheses after stripping raises, and so does input
   * whose parentheses do not balance inside the outer pair.
   */
  lemma SettingsOfTextOutcome(s: string)
    ensures AllSpace(s) ==> SettingsOfText(s) == Ok(map[])
    ensures SettingsOfText(s) == Err(NotSExpression) <==> !AllSpace(s) && !Parenthesized(Strip(s))
    ensures SettingsOfText(s) == Err(Unbalanced) <==>
              !AllSpace(s) && Parenthesized(Strip(s)) &&
              Depth(Strip(Inner(Strip(s))), |Strip(Inner(Strip(s)))|) != 0
  {
    StripEmptyIff(s);
  }

  /**
   * The pair of one element: `None` exactly for an empty body; otherwise the
   * key is a non-empty run of non-whitespace and the whole body is the key,
   * or the key, a non-empty whitespace run and the value, which has no
   * whitespace at either end.
   */
  lemma SettingOfSpec(item: string)
    ensures var body := Strip(Inner(item));
            (SettingOf(item).None? <==> body == []) &&
            (SettingOf(item).Some? ==>
               var (k, v) := SettingOf(item).value;
               |k| > 0 && NoSpace(k) && IsStripped(v) &&
               ((v == [] && body == k) ||
                (|k| + |v| < |body| && body == k + body[|k|..|body| - |v|] + v &&
                 AllSpace(body[|k|..|body| - |v|]))))
  {
    var body := Strip(Inner(item));
    StripSlice(Inner(item));
    if body != [] {
      SplitFirstSpec(body);
      SplitFirstWhole(body);
      SplitFirstStripped(body);
      var parts := SplitFirst(body);
      if |parts| > 1 {
        StripOfStripped(parts[1]);
      }
    }
  }

  /**
   * A later pair overwrites an earlier one with the same key: the value of a
   * key is the value of its last pair.
   */
  lemma {:induction false} LastWins<K, V>(pairs: seq<Option<(K, V)>>, j: nat)
    requires j < |pairs| && pairs[j].Some?
    requires forall i :: j < i < |pairs| ==> pairs[i].None? || pairs[i].value.0 != pairs[j].value.0
    ensures pairs[j].value.0 in MapOf(pairs)
    ensures MapOf(pairs)[pairs[j].value.0] == pairs[j].value.1
  {
    var n := |pairs|;
    if j < n - 1 {
      var front := pairs[..n - 1];
      assert front[j] == pairs[j];
      forall i | j < i < |front|
        ensures front[i].None? || front[i].value.0 != pairs[j].value.0
      {
        assert front[i] == pairs[i];
      }
      LastWins(front, j);
    }
  }

  /** The keys are exactly the keys of the pairs that are present. */
  lemma {:induction false} MapOfKeys<K, V>(pairs: seq<Option<(K, V)>>, k: K)
    ensures k in MapOf(pairs) <==> exists j :: 0 <= j < |pairs| && pairs[j].Some? && pairs[j].value.0 == k
  {
    if pairs != [] {
      var n := |pairs|;
      var front := pairs[..n - 1];
      MapOfKeys(front, k);
      if k in MapOf(front) {
        var j :| 0 <= j < |front| && front[j].Some? && front[j].value.0 == k;
        assert pairs[j] == front[j];
      }
      if exists j :: 0 <= j < |pairs| && pairs[j].Some? && pairs[j].value.0 == k {
        var j :| 0 <= j < |pairs| && pairs[j].Some? && pairs[j].value.0 == k;
        if j < n - 1 {
          assert front[j] == pairs[j];
        }
      }
    }
  }

  /**
   * For the settings map: its keys are the predicates of the non-empty
   * elements, and each key holds the value of the last element naming it.
   */
  lemma SettingsLastWins(items: seq<string>, j: nat)
    requires j < |items| && SettingOf(items[j]).Some?
    requires forall i :: j < i < |items| ==>
               SettingOf(items[i]).None? || SettingOf(items[i]).value.0 != SettingOf(items[j]).value.0
    ensures SettingOf(items[j]).value.0 in SettingsOf(items)
    ensures SettingsOf(items)[SettingOf(items[j]).value.0] == SettingOf(items[j]).value.1
  {
    LastWins(PairsOf(items), j);
  }

  /** An element with an empty body such as `()` adds nothing. */
  lemma EmptyElementSkipped(items: seq<string>, item: string)
    requires Strip(Inner(item)) == []
    ensures SettingsOf(items + [item]) == SettingsOf(items)
  {
    assert PairsOf(items + [item])[..|items|] == PairsOf(items);
  }

  /** A predicate name as the engine writes it: no whitespace and no parentheses. */
  predicate IsAtom(k: string) {
    |k| > 0 && NoSpace(k) && forall i :: 0 <= i < |k| ==> !IsParen(k[i])
  }

  /** A pair that `Element` renders so that parsing gives it back. */
  predicate IsWritable(p: (string, string)) {
    IsAtom(p.0) && |p.1| > 0 && IsStripped(p.1) && IsBalanced(p.1)
  }

  /** The element `(PRED VALUE)` for one pair. */
  function Element(p: (string, string)): string {
    "(" + p.0 + " " + p.1 + ")"
  }

  /**
   * The whitespace a writer may put into an expression: `before` and `after`
   * the outer pair, `lead` after its `(`, `seps[j]` between elements `j` and
   * `j + 1`, and `trail` before its `)`.
   */
  datatype Layout = Layout(before: string, lead: string, seps: seq<string>, trail: string, after: string)

  /** Every piece of the layout is whitespace, with one separator per gap between `n` elements. */
  predicate Fits(l: Layout, n: nat) {
    && Gaps(n, l.seps)
    && AllSpace(l.before) && AllSpace(l.lead) && AllSpace(l.trail) && AllSpace(l.after)
    && forall j :: 0 <= j < |l.seps| ==> AllSpace(l.seps[j])
  }

  /** Elements written inside one outer pair, laid out by `l`. */
  function Render(l: Layout, es: seq<string>): string
    requires Gaps(|es|, l.seps)
  {
    l.before + ("(" + (l.lead + Spaced(es, l.seps) + l.trail) + ")") + l.after
  }

  /** A settings expression `((PRED VALUE) (PRED VALUE) ...)` written from pairs. */
  function SettingsText(ps: seq<(string, string)>, l: Layout): string
    requires Gaps(|ps|, l.seps)
  {
    Render(l, Elements(ps))
  }

  /** The rendered elements of the pairs, in order. */
  function Elements(ps: seq<(string, string)>): seq<string> {
    seq(|ps|, j requires 0 <= j < |ps| => Element(ps[j]))
  }

  /** The pairs, all present. */
  function Present(ps: seq<(string, string)>): seq<Option<(string, string)>> {
    seq(|ps|, j requires 0 <= j < |ps| => Some(ps[j]))
  }

  /** A rendered element is one balanced group. */
  lemma ElementIsGroup(p: (string, string))
    requires IsWritable(p)
    ensures IsGroupText(Element(p))
  {
    var (k, v) := p;
    var word := k + " ";
    forall i | 0 <= i < |word| ensures !IsParen(word[i]) {
      if i < |k| { assert word[i] == k[i]; }
    }
    FlatIsBalanced(word);
    BalancedAppend(word, v);
    WrapIsGroup(word + v);
    assert Element(p) == "(" + (word + v) + ")";
  }

  /** Parsing one rendered element gives back its pair. */
  lemma SettingOfElement(p: (string, string))
    requires IsWritable(p)
    ensures SettingOf(Element(p)) == Some(p)
  {
    var (k, v) := p;
    var body := k + " " + v;
    assert Inner(Element(p)) == body;
    StripOfStripped(body);
    SplitFirstAtRun(k, " ", v);
    StripOfStripped(v);
  }

  /**
   * Groups written inside one outer pair, with whitespace anywhere between
   * them, pass the outer checks, balance, and split back into exactly those
   * groups.
   */
  lemma WrappedGroups(es: seq<string>, l: Layout)
    requires Fits(l, |es|)
    requires forall j :: 0 <= j < |es| ==> IsGroupText(es[j])
    ensures var c := Spaced(es, l.seps);
            var t := Strip(Render(l, es));
            && t == "(" + (l.lead + c + l.trail) + ")" && Parenthesized(t) && Strip(Inner(t)) == c
            && Depth(c, |c|) == 0 && TopLevel(c) == es
  {
    var c := Spaced(es, l.seps);
    SpacedEnds(es, l.seps);
    StripOuterPair(l.before, l.lead, c, l.trail, l.after);
    forall j | 0 <= j < |l.seps| ensures Flat(l.seps[j]) {
      assert AllSpace(l.seps[j]);
    }
    TopLevelSpaced(es, l.seps);
    ScanInv(c, |c|);
  }

  /** Whitespace around an outer pair, and inside it around stripped text, is all that stripping removes. */
  lemma StripOuterPair(before: string, lead: string, c: string, trail: string, after: string)
    requires AllSpace(before) && AllSpace(lead) && AllSpace(trail) && AllSpace(after)
    requires IsStripped(c)
    ensures var t := "(" + (lead + c + trail) + ")";
            Strip(before + t + after) == t && Strip(Inner(t)) == c
  {
    var x := lead + c + trail;
    var t := "(" + x + ")";
    StripPadded(before, t, after);
    assert t[1..|t| - 1] == x;
    StripPadded(lead, c, trail);
  }

  /**
   * Round trip: writing pairs as `((PRED VALUE) ...)`, with any whitespace
   * around and between the elements, and parsing the text gives the
   * dictionary of those pairs, a later pair overwriting an earlier one with
   * the same predicate.
   */
  lemma ParseSettingsText(ps: seq<(string, string)>, l: Layout)
    requires Fits(l, |ps|)
    requires forall j :: 0 <= j < |ps| ==> IsWritable(ps[j])
    ensures SettingsOfText(SettingsText(ps, l)) == Ok(MapOf(Present(ps)))
  {
    var es := Elements(ps);
    forall j | 0 <= j < |es| ensures IsGroupText(es[j]) {
      ElementIsGroup(ps[j]);
    }
    WrappedGroups(es, l);
    assert Strip(SettingsText(ps, l)) != [];
    assert SettingsOfText(SettingsText(ps, l)) == Ok(SettingsOf(es));
    PairsOfElements(ps);
  }

  /** Each rendered element parses back to its own pair. */
  lemma PairsOfElements(ps: seq<(string, string)>)
    requires forall j :: 0 <= j < |ps| ==> IsWritable(ps[j])
    ensures PairsOf(Elements(ps)) == Present(ps)
  {
    var es := Elements(ps);
    forall j | 0 <= j < |ps| ensures PairsOf(es)[j] == Present(ps)[j] {
      SettingOfElement(ps[j]);
    }
  }

  /**
   * A word before the inner pair, as in `(A (Foo 1 2))`, is not an element:
   * the splitter passes over it and only the inner pair becomes a setting.
   */
  lemma OuterWordDropped(e: string, p: (string, string))
    requires IsAtom(e) && IsWritable(p)
    ensures SettingsOfText("(" + (e + " " + Element(p)) + ")") == Ok(map[p.0 := p.1])
  {
    var g := Element(p);
    var w := e + " ";
    var c := w + g;
    ElementIsGroup(p);
    forall k | 0 <= k < |w| ensures !IsParen(w[k]) {
      if k < |e| { assert w[k] == e[k]; }
    }
    TopLevelAfterFlat(w, g);
    ScanInv(c, |c|);
    WordThenGroupStrips(e, g);
    SettingOfElement(p);
    SettingsOfOne(g);
  }

  /** The dictionary of a single element holds its pair, if it has one. */
  lemma SettingsOfOne(g: string)
    ensures SettingsOf([g]) == if SettingOf(g).Some? then map[SettingOf(g).value.0 := SettingOf(g).value.1] else map[]
  {
    var ps := [SettingOf(g)];
    assert PairsOf([g]) == ps;
    assert ps[..0] == [];
    assert MapOf(ps[..0]) == map[];
  }

  /** Neither the outer pair around `e g` nor the text inside it has whitespace to strip. */
  lemma WordThenGroupStrips(e: string, g: string)
    requires IsAtom(e) && IsGroupText(g)
    ensures var t := "(" + (e + " " + g) + ")";
            Strip(t) == t && Parenthesized(t) && Strip(Inner(t)) == e + " " + g
  {
    var c := e + " " + g;
    var t := "(" + c + ")";
    StripOfStripped(t);
    assert t[1..|t| - 1] == c;
    GroupTextCloses(g);
    assert c[0] == e[0] && c[|c| - 1] == g[|g| - 1];
    StripOfStripped(c);
  }

  /**
   * Groups must sit inside one outer pair: `(A 1)(B 2)` passes the outer
   * check, but the `)` of `(A 1` then drives the depth below zero, the `(` of
   * `(B 2` only brings it back to zero, and no element is collected at all.
   */
  lemma UnwrappedGroupsAreLost()
    ensures SettingsOfText("(A 1)(B 2)") == Ok(map[])
  {
    var s := "(A 1)(B 2)";
    StripOfStripped(s);
    var c := "A 1)(B 2";
    assert Inner(s) == c;
    StripOfStripped(c);
    assert Scan(c, 3) == ScanState(0, None, []);
    assert Scan(c, 4) == ScanState(-1, None, []);
    assert Scan(c, 5) == ScanState(0, None, []);
    assert Scan(c, 8) == ScanState(0, None, []);
    ScanInv(c, 8);
    assert TopLevel(c) == [];
    assert SettingsOf([]) == map[];
  }

  /** A missing final `)` is reported as a malformed expression, not as unbalanced. */
  lemma UnclosedIsNotSExpression()
    ensures SettingsOfText("(A 1") == Err(NotSExpression)
  {
    StripOfStripped("(A 1");
  }

  /** An unclosed inner group inside the outer pair is reported as unbalanced. */
  lemma UnclosedInnerIsUnbalanced()
    ensures SettingsOfText("((A 1)") == Err(Unbalanced)
  {
    var s := "((A 1)";
    StripOfStripped(s);
    var c := "(A 1";
    assert Inner(s) == c;
    StripOfStripped(c);
    assert Depth(c, 1) == 1;
    assert Depth(c, 2) == 1;
    assert Depth(c, 3) == 1;
    assert Depth(c, 4) == 1;
  }
}
