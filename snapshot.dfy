/**
 * The string branch of `write_to_csv` (experiments/log.py:204-244): a
 * snapshot such as `((Ants (AV 7007.0 7007.0 0)) (Bees (AV 1)))` becomes one
 * entry `{entity, value1, value2}` per top-level element, in order. The
 * entity is the element's first token; inside the second part the first
 * token (the tag) is skipped, and the two values are taken only when at
 * least two tokens follow it, otherwise both stay 0.
 *
 * `SnapshotOfText` is the specification and `ParseSnapshotText` the code,
 * running the same splitter loop as `parse_setting`.
 */
module Snapshot {
  import opened Wrappers
  import opened Text
  import opened Splitter
  import opened Settings

  /** A value written into a CSV cell. `Float(t)` stands for `float(t)`, kept as its token. */
  datatype Value = Str(text: string) | Int(n: int) | Float(literal: string)

  /** One parsed entry, the dictionary `{"entity": ..., "value1": ..., "value2": ...}`. */
  datatype Entry = Entry(entity: string, value1: Value, value2: Value)

  /** The two `ValueError`s of the string branch. */
  datatype SnapshotError =
    | BadSnapshotString   // "Invalid snapshot string format" (log.py:207)
    | UnbalancedSnapshot  // "Unbalanced parentheses in snapshot string" (log.py:225)

  /** Python's `tokens[1:]`. */
  function Tail(ws: seq<string>): seq<string> {
    if ws == [] then [] else ws[1..]
  }

  /** The entry of one top-level element (log.py:231-243). */
  function EntryOf(item: string): Entry {
    var parts := SplitFirst(Strip(Inner(item)));
    var entity := parts[0];
    if |parts| > 1 then
      var values := Tail(Words(Strip(Inner(Strip(parts[1])))));
      if |values| >= 2 then Entry(entity, Float(values[0]), Float(values[1]))
      else Entry(entity, Int(0), Int(0))
    else Entry(entity, Int(0), Int(0))
  }

  /** The entries of a list of elements, one per element, in order. */
  function EntriesOf(items: seq<string>): seq<Entry> {
    seq(|items|, j requires 0 <= j < |items| => EntryOf(items[j]))
  }

  /** Parsing one more element adds its entry at the end. */
  lemma EntriesOfSnoc(items: seq<string>, i: nat)
    requires i < |items|
    ensures EntriesOf(items[..i + 1]) == EntriesOf(items[..i]) + [EntryOf(items[i])]
  {
    assert items[..i + 1] == items[..i] + [items[i]];
  }

  /** What the string branch of `write_to_csv` turns `s` into, or the error it raises. */
  function SnapshotOfText(s: string): Result<seq<Entry>, SnapshotError> {
    var t := Strip(s);
    if !Parenthesized(t) then Err(BadSnapshotString)
    else
      var content := Strip(Inner(t));
      if Depth(content, |content|) != 0 then Err(UnbalancedSnapshot)
      else Ok(EntriesOf(TopLevel(content)))
  }

  /** The string branch: the outer check, the splitter loop, the depth check, then the entry loop. */
  method ParseSnapshotText(s: string) returns (r: Result<seq<Entry>, SnapshotError>)
    ensures r == SnapshotOfText(s)
  {
    var t := Strip(s);
    if !(|t| > 0 && t[0] == '(' && t[|t| - 1] == ')') {
      return Err(BadSnapshotString);
    }
    var content := Strip(Inner(t));
    var entries, depth := CollectTopLevel(content);
    if depth != 0 {
      return Err(UnbalancedSnapshot);
    }
    var parsed: seq<Entry> := [];
    for i := 0 to |entries|
      invariant parsed == EntriesOf(entries[..i])
    {
      EntriesOfSnoc(entries, i);
      parsed := parsed + [EntryOf(entries[i])];
    }
    assert entries[..|entries|] == entries;
    return Ok(parsed);
  }

  /**
   * The two errors: text that is not wrapped in parentheses, including the
   * empty string (where `parse_setting` returns an empty map instead), and a
   * final depth other than zero.
   */
  lemma SnapshotOfTextOutcome(s: string)
    ensures SnapshotOfText(s) == Err(BadSnapshotString) <==> !Parenthesized(Strip(s))
    ensures SnapshotOfText(s) == Err(UnbalancedSnapshot) <==>
      Parenthesized(Strip(s)) && Depth(Strip(Inner(Strip(s))), |Strip(Inner(Strip(s)))|) != 0
    ensures AllSpace(s) ==> SnapshotOfText(s) == Err(BadSnapshotString)
  {
    if AllSpace(s) {
      StripEmptyIff(s);
    }
  }

  /** One snapshot element as written: `(ENTITY (TAG v1 v2 ...))`. */
  datatype Reading = Reading(entity: string, tag: string, values: seq<string>)

  /** Every token of a reading is a plain atom. */
  predicate IsWritableReading(r: Reading) {
    IsAtom(r.entity) && IsAtom(r.tag) && forall j :: 0 <= j < |r.values| ==> IsAtom(r.values[j])
  }

  /** The tokens inside a reading's inner pair: the tag, then the values. */
  function Tokens(r: Reading): seq<string> {
    [r.tag] + r.values
  }

  /**
   * The whitespace a writer may put into one reading
   * `(open ENTITY gap (lead TAG seps[0] v1 ... trail) close)`.
   */
  datatype Spacing = Spacing(open: string, gap: string, lead: string, seps: seq<string>, trail: string, close: string)

  /** Whitespace only, a non-empty gap after the entity, and one non-empty run between adjacent tokens. */
  predicate FitsReading(sp: Spacing, r: Reading) {
    && AllSpace(sp.open) && |sp.gap| > 0 && AllSpace(sp.gap)
    && AllSpace(sp.lead) && AllSpace(sp.trail) && AllSpace(sp.close)
    && Gaps(|Tokens(r)|, sp.seps) && IsRuns(sp.seps)
  }

  /** The inner pair of a reading: `(TAG v1 ...)` laid out by `sp`. */
  function InnerGroup(r: Reading, sp: Spacing): string
    requires Gaps(|Tokens(r)|, sp.seps)
  {
    "(" + (sp.lead + Spaced(Tokens(r), sp.seps) + sp.trail) + ")"
  }

  /** The text of one reading laid out by `sp`. */
  function ReadingText(r: Reading, sp: Spacing): string
    requires Gaps(|Tokens(r)|, sp.seps)
  {
    "(" + (sp.open + (r.entity + sp.gap + InnerGroup(r, sp)) + sp.close) + ")"
  }

  /** The entry the code should make of a reading: the first two values after the tag, if there are two. */
  function Expected(r: Reading): Entry {
    if |r.values| >= 2 then Entry(r.entity, Float(r.values[0]), Float(r.values[1]))
    else Entry(r.entity, Int(0), Int(0))
  }

  /** Each reading comes with a spacing that fits it. */
  predicate FitsReadings(rs: seq<Reading>, sps: seq<Spacing>) {
    |sps| == |rs| && forall j :: 0 <= j < |rs| ==> FitsReading(sps[j], rs[j])
  }

  /** The texts of the readings, in order. */
  function ReadingTexts(rs: seq<Reading>, sps: seq<Spacing>): seq<string>
    requires FitsReadings(rs, sps)
  {
    seq(|rs|, j requires 0 <= j < |rs| => ReadingText(rs[j], sps[j]))
  }

  /** The entries expected of the readings, in order. */
  function ExpectedEntries(rs: seq<Reading>): seq<Entry> {
    seq(|rs|, j requires 0 <= j < |rs| => Expected(rs[j]))
  }

  /** The text of a snapshot: its readings inside one outer pair, laid out by `l`. */
  function SnapshotText(rs: seq<Reading>, sps: seq<Spacing>, l: Layout): string
    requires FitsReadings(rs, sps) && Gaps(|rs|, l.seps)
  {
    Render(l, ReadingTexts(rs, sps))
  }

  /** Whitespace holds no parenthesis. */
  lemma SpaceIsBalanced(w: string)
    requires AllSpace(w)
    ensures Flat(w) && IsBalanced(w)
  {
    FlatIsBalanced(w);
  }

  /** The tokens of a writable reading are words, and their spaced text has no parenthesis. */
  lemma TokensAreWords(r: Reading, sp: Spacing)
    requires IsWritableReading(r) && FitsReading(sp, r)
    ensures IsWords(Tokens(r)) && Flat(Spaced(Tokens(r), sp.seps))
  {
    var ws := Tokens(r);
    forall j | 0 <= j < |ws| ensures IsAtom(ws[j]) {
      if j > 0 { assert ws[j] == r.values[j - 1]; }
    }
    TokensFlat(ws, sp.seps);
  }

  /** Atoms with whitespace runs between them: words, and text without parentheses or outer whitespace. */
  lemma TokensFlat(ws: seq<string>, seps: seq<string>)
    requires Gaps(|ws|, seps) && IsRuns(seps)
    requires forall j :: 0 <= j < |ws| ==> IsAtom(ws[j])
    ensures IsWords(ws) && Flat(Spaced(ws, seps))
    ensures |ws| > 0 ==> IsStripped(Spaced(ws, seps))
  {
    forall j | 0 <= j < |seps| ensures Flat(seps[j]) {
      SpaceIsBalanced(seps[j]);
    }
    SpacedFlat(ws, seps);
    if |ws| > 0 {
      SpacedBounds(ws, seps);
    }
  }

  /** A reading's inner pair is one balanced group. */
  lemma InnerGroupIsGroup(r: Reading, sp: Spacing)
    requires IsWritableReading(r) && FitsReading(sp, r)
    ensures IsGroupText(InnerGroup(r, sp))
  {
    var c := Spaced(Tokens(r), sp.seps);
    TokensAreWords(r, sp);
    FlatIsBalanced(c);
    SpaceIsBalanced(sp.lead);
    SpaceIsBalanced(sp.trail);
    BalancedAppend(sp.lead, c);
    BalancedAppend(sp.lead + c, sp.trail);
    WrapIsGroup(sp.lead + c + sp.trail);
  }

  /** A reading's text is one balanced group. */
  lemma ReadingIsGroup(r: Reading, sp: Spacing)
    requires IsWritableReading(r) && FitsReading(sp, r)
    ensures IsGroupText(ReadingText(r, sp))
  {
    var g := InnerGroup(r, sp);
    InnerGroupIsGroup(r, sp);
    GroupIsBalanced(g);
    FlatIsBalanced(r.entity);
    SpaceIsBalanced(sp.open);
    SpaceIsBalanced(sp.gap);
    SpaceIsBalanced(sp.close);
    BalancedAppend(sp.open, r.entity);
    BalancedAppend(sp.open + r.entity, sp.gap);
    BalancedAppend(sp.open + r.entity + sp.gap, g);
    BalancedAppend(sp.open + r.entity + sp.gap + g, sp.close);
    assert sp.open + (r.entity + sp.gap + g) + sp.close == sp.open + r.entity + sp.gap + g + sp.close;
    WrapIsGroup(sp.open + (r.entity + sp.gap + g) + sp.close);
  }

  /** Stripping the inside of the inner pair leaves the spaced tokens. */
  lemma InnerGroupContent(r: Reading, sp: Spacing)
    requires IsWritableReading(r) && FitsReading(sp, r)
    ensures Strip(Inner(InnerGroup(r, sp))) == Spaced(Tokens(r), sp.seps)
  {
    var c := Spaced(Tokens(r), sp.seps);
    TokensAreWords(r, sp);
    SpacedBounds(Tokens(r), sp.seps);
    var t := InnerGroup(r, sp);
    assert t[1..|t| - 1] == sp.lead + c + sp.trail;
    StripPadded(sp.lead, c, sp.trail);
  }

  /** The tokens after the tag in the inner pair are the values. */
  lemma ValuesOfGroup(r: Reading, sp: Spacing)
    requires IsWritableReading(r) && FitsReading(sp, r)
    ensures Tail(Words(Strip(Inner(InnerGroup(r, sp))))) == r.values
  {
    var ws := Tokens(r);
    var c := Spaced(ws, sp.seps);
    InnerGroupContent(r, sp);
    TokensAreWords(r, sp);
    var none: string := [];
    WordsSpaced(none, ws, sp.seps, none);
    assert none + c + none == c;
    assert Tail(ws) == r.values;
  }

  /** The entity, the gap and the inner pair, as `strip()` leaves them inside the outer pair. */
  lemma ReadingBody(r: Reading, sp: Spacing)
    requires IsWritableReading(r) && FitsReading(sp, r)
    ensures var g := InnerGroup(r, sp);
            SplitFirst(Strip(Inner(ReadingText(r, sp)))) == [r.entity, g] && Strip(g) == g
  {
    var g := InnerGroup(r, sp);
    var body := r.entity + sp.gap + g;
    assert body[0] == r.entity[0] && body[|body| - 1] == ')';
    StripOuterPair("", sp.open, body, sp.close, "");
    SplitFirstAtRun(r.entity, sp.gap, g);
    StripOfStripped(g);
  }

  /**
   * Parsing one reading, whatever whitespace it is written with: the entity
   * is its first token, the tag is skipped, the values are the next two
   * tokens when there are at least two, and any further tokens are ignored.
   */
  lemma EntryOfReading(r: Reading, sp: Spacing)
    requires IsWritableReading(r) && FitsReading(sp, r)
    ensures EntryOf(ReadingText(r, sp)) == Expected(r)
  {
    ReadingBody(r, sp);
    ValuesOfGroup(r, sp);
  }

  /** The entries of the written readings are the expected ones, in order. */
  lemma ReadingEntries(rs: seq<Reading>, sps: seq<Spacing>)
    requires FitsReadings(rs, sps) && forall j :: 0 <= j < |rs| ==> IsWritableReading(rs[j])
    ensures EntriesOf(ReadingTexts(rs, sps)) == ExpectedEntries(rs)
  {
    var es := ReadingTexts(rs, sps);
    forall j | 0 <= j < |es| ensures EntriesOf(es)[j] == ExpectedEntries(rs)[j] {
      EntryOfReading(rs[j], sps[j]);
    }
  }

  /**
   * Round trip: writing readings as `((E (TAG v ...)) ...)`, with any
   * whitespace inside each reading and around and between the readings, and
   * parsing the text gives one entry per reading, in the same order.
   */
  lemma ParseSnapshot(rs: seq<Reading>, sps: seq<Spacing>, l: Layout)
    requires Fits(l, |rs|) && FitsReadings(rs, sps)
    requires forall j :: 0 <= j < |rs| ==> IsWritableReading(rs[j])
    ensures SnapshotOfText(SnapshotText(rs, sps, l)) == Ok(ExpectedEntries(rs))
  {
    var es := ReadingTexts(rs, sps);
    forall j | 0 <= j < |es| ensures IsGroupText(es[j]) {
      ReadingIsGroup(rs[j], sps[j]);
    }
    WrappedGroups(es, l);
    assert SnapshotOfText(SnapshotText(rs, sps, l)) == Ok(EntriesOf(es));
    ReadingEntries(rs, sps);
  }

  /** An element with only an entity still yields an entry, with both values 0. */
  lemma EntityOnly(e: string)
    requires IsAtom(e)
    ensures EntryOf("(" + e + ")") == Entry(e, Int(0), Int(0))
  {
    assert Inner("(" + e + ")") == e;
    StripOfStripped(e);
    SplitFirstWhole(e);
  }

  /**
   * Unlike `parse_setting`, which skips `()`, the snapshot parser turns an
   * empty element into an entry with an empty entity.
   */
  lemma EmptyElementKept()
    ensures EntryOf("()") == Entry("", Int(0), Int(0))
    ensures SettingOf("()") == None
  {
    assert Inner("()") == [];
  }

  /** `Spaced` read from the front, for a list written as its head and its tail. */
  lemma SpacedFront(w: string, ws: seq<string>, sep: string, seps: seq<string>)
    requires |ws| > 0 && Gaps(|ws|, seps)
    ensures Spaced([w] + ws, [sep] + seps) == w + sep + Spaced(ws, seps)
  {
    var gs, ss := [w] + ws, [sep] + seps;
    SpacedCons(gs, ss);
    assert gs[1..] == ws && ss[1..] == seps;
  }

  /**
   * An element shaped like the one in `write_to_csv`'s docstring,
   * `(Ants (AV v1 v2 v3))`: the token after the two values is ignored.
   */
  lemma ThirdValueIgnored(e: string, tag: string, v1: string, v2: string, v3: string)
    requires IsAtom(e) && IsAtom(tag) && IsAtom(v1) && IsAtom(v2) && IsAtom(v3)
    ensures EntryOf("(" + e + " (" + (tag + " " + v1 + " " + v2 + " " + v3) + "))") == Entry(e, Float(v1), Float(v2))
  {
    var r := Reading(e, tag, [v1, v2, v3]);
    var sp := Spacing("", " ", "", [" ", " ", " "], "", "");
    var c := FourSpaced(tag, v1, v2, v3);
    assert Tokens(r) == [tag, v1, v2, v3];
    assert InnerGroup(r, sp) == "(" + c + ")";
    PlainReadingText(r, sp, c);
    EntryOfReading(r, sp);
  }

  /** A reading written with single spaces and no padding. */
  lemma PlainReadingText(r: Reading, sp: Spacing, c: string)
    requires Gaps(|Tokens(r)|, sp.seps) && InnerGroup(r, sp) == "(" + c + ")"
    requires sp.open == "" && sp.gap == " " && sp.close == ""
    ensures ReadingText(r, sp) == "(" + r.entity + " (" + c + "))"
  {
    var e, g := r.entity, "(" + c + ")";
    assert ReadingText(r, sp) == "(" + (e + " " + g) + ")";
    var t := "(" + e + " (" + c + "))";
    assert |t| == |e| + |c| + 5;
    forall k | 0 <= k < |t| ensures t[k] == ("(" + (e + " " + g) + ")")[k] {
    }
  }

  /** A single value after the tag, as in `(Bees (AV 1))`, is not kept: both values stay 0. */
  lemma SingleValueDropped(e: string, tag: string, v: string)
    requires IsAtom(e) && IsAtom(tag) && IsAtom(v)
    ensures EntryOf("(" + e + " (" + (tag + " " + v) + "))") == Entry(e, Int(0), Int(0))
  {
    var r := Reading(e, tag, [v]);
    var sp := Spacing("", " ", "", [" "], "", "");
    SpacedFront(tag, [v], " ", []);
    assert Tokens(r) == [tag] + [v] && sp.seps == [" "] + [];
    assert Spaced([v], []) == v;
    assert InnerGroup(r, sp) == "(" + (tag + " " + v) + ")";
    PlainReadingText(r, sp, tag + " " + v);
    EntryOfReading(r, sp);
  }

  /**
   * Any element `(ENTITY REST)`: the entity is kept, and the values are the
   * tokens after the first one of `REST` with one character cut off each end.
   */
  lemma EntryOfElement(e: string, rest: string)
    requires IsWritable((e, rest))
    ensures var values := Tail(Words(Strip(Inner(rest))));
            EntryOf(Element((e, rest))) ==
              if |values| >= 2 then Entry(e, Float(values[0]), Float(values[1])) else Entry(e, Int(0), Int(0))
  {
    SettingOfElement((e, rest));
    StripOfStripped(rest);
  }

  /**
   * A remainder that is not wrapped in its own pair still loses one
   * character at each end. With single-character outer tokens, as in
   * `(E 1 2 3)`, only the middle token is left, it is taken as the tag, and
   * both values stay 0.
   */
  lemma UnwrappedValuesDropped(e: string, a: char, v: string, b: char)
    requires IsAtom(e) && IsAtom([a]) && IsAtom(v) && IsAtom([b])
    ensures EntryOf("(" + e + " " + ([a] + (" " + v + " ") + [b]) + ")") == Entry(e, Int(0), Int(0))
  {
    var middle := " " + v + " ";
    var rest := [a] + middle + [b];
    forall k | 0 <= k < |rest| ensures !IsParen(rest[k]) {
      if 2 <= k < 2 + |v| { assert rest[k] == v[k - 2]; }
    }
    FlatIsBalanced(rest);
    EntryOfElement(e, rest);
    assert rest[1..|rest| - 1] == middle;
    StripPadded(" ", v, " ");
    var none: string := [];
    WordsOfWordThen(v, none);
    assert v + none == v;
  }

  /**
   * With longer outer tokens the cut leaves their other characters as tokens:
   * `(E 12 2 34)` becomes the tag `2` and the values `2` and `3`, so the
   * entry holds truncated values rather than the written ones.
   */
  lemma UnwrappedValuesTruncated(e: string, a: char, x: string, v: string, y: string, b: char)
    requires IsAtom(e) && IsAtom([a]) && IsAtom(x) && IsAtom(v) && IsAtom(y) && IsAtom([b])
    ensures EntryOf("(" + e + " " + ([a] + (x + " " + v + " " + y) + [b]) + ")") == Entry(e, Float(v), Float(y))
  {
    var middle := x + " " + v + " " + y;
    var rest := [a] + middle + [b];
    ThreeWords(x, v, y);
    FlatIsBalanced(rest);
    assert rest[0] == a && rest[|rest| - 1] == b;
    EntryOfElement(e, rest);
    assert rest[1..|rest| - 1] == middle;
  }

  /** Three words joined by single spaces. */
  lemma ThreeSpaced(x: string, v: string, y: string) returns (m: string)
    ensures m == x + " " + v + " " + y && Spaced([x, v, y], [" ", " "]) == m
  {
    m := x + " " + v + " " + y;
    SpacedFront(v, [y], " ", []);
    assert Spaced([y], []) == y;
    assert [v] + [y] == [v, y] && [" "] + [] == [" "];
    SpacedFront(x, [v, y], " ", [" "]);
    assert [x] + [v, y] == [x, v, y] && [" "] + [" "] == [" ", " "];
  }

  /** Four words joined by single spaces. */
  lemma FourSpaced(w: string, x: string, v: string, y: string) returns (m: string)
    ensures m == w + " " + x + " " + v + " " + y && Spaced([w, x, v, y], [" ", " ", " "]) == m
  {
    var t := ThreeSpaced(x, v, y);
    SpacedFront(w, [x, v, y], " ", [" ", " "]);
    assert [w] + [x, v, y] == [w, x, v, y] && [" "] + [" ", " "] == [" ", " ", " "];
    m := w + " " + t;
  }

  /** Three atoms joined by single spaces: flat, stripped, and split back into the three. */
  lemma ThreeWords(x: string, v: string, y: string)
    requires IsAtom(x) && IsAtom(v) && IsAtom(y)
    ensures var m := x + " " + v + " " + y;
            Flat(m) && Strip(m) == m && Words(m) == [x, v, y]
  {
    var ws, seps := [x, v, y], [" ", " "];
    var m := ThreeSpaced(x, v, y);
    TokensFlat(ws, seps);
    StripOfStripped(m);
    var none: string := [];
    WordsSpaced(none, ws, seps, none);
    assert none + m + none == m;
  }
}
