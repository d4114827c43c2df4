/**
 * `QUANTITY_REGEX` of the ingredient list, which reads a leading quantity,
 * unit and text out of an ingredient written on one line:
 *   ^(Q)\s*(U)?\s*(?:de\s+|d')?(.+)$   with the `i` flag, where
 *   Q = \d+(?:[.,]\d+)?(?:\s*\/\s*\d+)?
 *   U = g|kg|ml|cl|l|cs|cc|cuillères?\s+à\s+(?:soupe|café)|pincées?|sachets?
 * A JavaScript regular expression backtracks: it returns the first way,
 * in priority order, to cut the name into the pieces of the pattern (a
 * greedy repetition tries its longest length first, an optional part is
 * tried present first, alternatives left to right). The matcher below is
 * that search, one stage per piece, each stage trying its candidate end
 * positions in priority order. A match is recorded by its cut points.
 */
module QuantityPattern {
  import opened Wrappers
  import opened Strings
  import opened Regex

  /** The cut points of a match: Q is `[0, qtyEnd)`, U is `[unitStart, unitEnd)`, the text starts at `textStart`. */
  datatype Cut = Cut(
    intEnd: nat,      // end of the integer digits of Q
    fracEnd: nat,     // end of the `[.,]\d+` part of Q (== intEnd when absent)
    qtyEnd: nat,      // end of Q (== fracEnd when there is no `/` part)
    unitStart: nat,   // end of the `\s*` after Q
    hasUnit: bool,
    unitEnd: nat,     // end of U (== unitStart when absent)
    linkStart: nat,   // end of the `\s*` after U
    textStart: nat)   // start of `(.+)`, after `de\s+` or `d'` if present

  // ---------------------------------------------------------------------------
  // Runs and candidate lists
  // ---------------------------------------------------------------------------

  /** The number of `\d` characters from `i`. */
  function DigitRun(s: string, i: nat): (n: nat)
    ensures i <= |s| ==> i + n <= |s|
    ensures i > |s| ==> n == 0
    ensures forall j :: i <= j < i + n ==> IsDigit(s[j])
    ensures i + n < |s| ==> !IsDigit(s[i + n])
  {
    if i > |s| then 0 else RunLength(s, i, Digit, true, Unbounded)
  }

  /** The number of `\s` characters from `i`. */
  function SpaceRun(s: string, i: nat): (n: nat)
    ensures i <= |s| ==> i + n <= |s|
    ensures i > |s| ==> n == 0
    ensures forall j :: i <= j < i + n ==> IsSpace(s[j])
    ensures i + n < |s| ==> !IsSpace(s[i + n])
  {
    if i > |s| then 0 else RunLength(s, i, Space, true, Unbounded)
  }

  /** `s[a..b]` is a non-empty run of digits. */
  predicate Digits(s: string, a: nat, b: nat) {
    a < b <= |s| && forall j :: a <= j < b ==> IsDigit(s[j])
  }

  /** `s[a..b]` is all whitespace (possibly empty). */
  predicate Spaces(s: string, a: nat, b: nat) {
    a <= b <= |s| && forall j :: a <= j < b ==> IsSpace(s[j])
  }

  /** A run starting at `a` is never longer than the maximal run there. */
  lemma DigitsWithinRun(s: string, a: nat, b: nat)
    requires Digits(s, a, b)
    ensures b - a <= DigitRun(s, a)
  {
  }

  lemma SpacesWithinRun(s: string, a: nat, b: nat)
    requires Spaces(s, a, b)
    ensures b - a <= SpaceRun(s, a)
  {
  }

  /** The ends a greedy repetition tries: `base + n` down to `base + min`. */
  function Down(base: nat, n: nat, min: nat): (r: seq<nat>)
    ensures |r| == if n < min then 0 else n - min + 1
    ensures forall i :: 0 <= i < |r| ==> r[i] == base + n - i
    decreases n
  {
    if n < min then [] else [base + n] + (if n == min then [] else Down(base, n - 1, min))
  }

  /**
   * The first candidate, in order, for which the rest of the pattern
   * succeeds: how a backtracking engine resolves one choice point.
   */
  function FirstOf<T>(cands: seq<nat>, k: nat -> Option<T>): (r: Option<T>)
    ensures r.Some? ==> exists i :: 0 <= i < |cands| && k(cands[i]) == r
    ensures r.None? ==> forall i :: 0 <= i < |cands| ==> k(cands[i]).None?
  {
    if cands == [] then None
    else match k(cands[0])
      case Some(x) => Some(x)
      case None => FirstOf(cands[1..], k)
  }

  /** When the candidates before `i` all fail and `i` succeeds, the result is that of `i`. */
  lemma {:induction false} FirstOfPicks<T>(cands: seq<nat>, k: nat -> Option<T>, i: nat)
    requires i < |cands| && k(cands[i]).Some?
    requires forall j :: 0 <= j < i ==> k(cands[j]).None?
    ensures FirstOf(cands, k) == k(cands[i])
  {
    if i > 0 {
      assert k(cands[0]).None?;
      FirstOfPicks(cands[1..], k, i - 1);
    }
  }

  /** One succeeding candidate is enough for the search to succeed. */
  lemma FirstOfSome<T>(cands: seq<nat>, k: nat -> Option<T>, i: nat)
    requires i < |cands| && k(cands[i]).Some?
    ensures FirstOf(cands, k).Some?
  {
  }

  // ---------------------------------------------------------------------------
  // The pieces of the pattern
  // ---------------------------------------------------------------------------

  /** `(.+)$`: the text is non-empty and on one line. */
  predicate TailOk(s: string, t: nat) {
    t < |s| && forall j :: t <= j < |s| ==> !LineTerminator(s[j])
  }

  /** `(?:de\s+|d')?` covers `s[p..t]`. */
  predicate Linker(s: string, p: nat, t: nat) {
    || t == p
    || (WordAt(s, p, "de", true) && p + 2 < t && Spaces(s, p + 2, t))
    || (WordAt(s, p, "d'", true) && t == p + 2)
  }

  /** `[.,]\d+`, optional, from `a` to `f`. */
  predicate FracMatch(s: string, a: nat, f: nat) {
    f == a || (a < |s| && (s[a] == '.' || s[a] == ',') && Digits(s, a + 1, f))
  }

  /** Where the `/` of `\s*\/\s*\d+` stands after `f`: past every space, since `/` is not one. */
  function SlashAt(s: string, f: nat): nat {
    f + SpaceRun(s, f)
  }

  /** Where the denominator's digits start. */
  function DenStart(s: string, f: nat): nat {
    SlashAt(s, f) + 1 + SpaceRun(s, SlashAt(s, f) + 1)
  }

  predicate HasSlash(s: string, f: nat) {
    SlashAt(s, f) < |s| && s[SlashAt(s, f)] == '/'
  }

  /** `\s*\/\s*\d+`, optional, from `f` to `q`. */
  predicate SlashMatch(s: string, f: nat, q: nat) {
    q == f || (HasSlash(s, f) && Digits(s, DenStart(s, f), q))
  }

  /**
   * `\s+à\s+(?:soupe|café)` from `x`. Each `\s+` can only end at the end
   * of the whitespace, because the letter after it is not whitespace.
   */
  function SpoonEnd(s: string, x: nat): (r: seq<nat>)
    ensures |r| <= 1
  {
    var y := x + SpaceRun(s, x);
    if y == x || !WordAt(s, y, "à", true) then []
    else
      var v := y + 1 + SpaceRun(s, y + 1);
      if v == y + 1 then []
      else if WordAt(s, v, "soupe", true) then [v + 5]
      else if WordAt(s, v, "café", true) then [v + 4]
      else []
  }

  /** `s?` after a word ending at `x`: with the `s` first, then without. */
  function PluralEnds(s: string, x: nat): seq<nat> {
    (if WordAt(s, x, "s", true) then [x + 1] else []) + [x]
  }

  /** The end of `word` read at `w`, if it is there. */
  function WordEnd(s: string, w: nat, word: string): seq<nat> {
    if WordAt(s, w, word, true) then [w + |word|] else []
  }

  /** `cuillères?\s+à\s+(?:soupe|café)` from `w`. */
  function SpoonEnds(s: string, w: nat): seq<nat> {
    if !WordAt(s, w, "cuillère", true) then []
    else (if WordAt(s, w + 8, "s", true) then SpoonEnd(s, w + 9) else []) + SpoonEnd(s, w + 8)
  }

  /** A word followed by an optional `s`, as in `pincées?`. */
  function PluralWordEnds(s: string, w: nat, word: string): seq<nat> {
    if WordAt(s, w, word, true) then PluralEnds(s, w + |word|) else []
  }

  /** The ends of the unit group U from `w`, in the order the alternatives are tried. */
  function UnitEnds(s: string, w: nat): seq<nat> {
    WordEnd(s, w, "g") + WordEnd(s, w, "kg") + WordEnd(s, w, "ml") + WordEnd(s, w, "cl")
    + WordEnd(s, w, "l") + WordEnd(s, w, "cs") + WordEnd(s, w, "cc")
    + SpoonEnds(s, w) + PluralWordEnds(s, w, "pincée") + PluralWordEnds(s, w, "sachet")
  }

  /** A letter of the Latin-1 range, upper or lower case. */
  predicate IsLetter(c: char) {
    || 'a' <= c <= 'z' || 'A' <= c <= 'Z'
    || ('\U{C0}' <= c <= '\U{FF}' && c != '\U{D7}' && c != '\U{F7}')
  }

  /** No letter follows position `e`: the unit read before it is a whole word. */
  predicate WordBoundary(s: string, e: nat) {
    e >= |s| || !IsLetter(s[e])
  }

  /**
   * U matches `s[w..e]`. With `wholeWord`, the unit must also not run into
   * a following letter, which the pattern as written does not require.
   */
  predicate UnitMatch(s: string, w: nat, e: nat, wholeWord: bool) {
    e in UnitEnds(s, w) && (wholeWord ==> WordBoundary(s, e))
  }

  // ---------------------------------------------------------------------------
  // A match, as a split
  // ---------------------------------------------------------------------------

  predicate LinkOk(s: string, x: Cut) {
    Linker(s, x.linkStart, x.textStart) && TailOk(s, x.textStart)
  }

  predicate AfterUnitOk(s: string, x: Cut) {
    Spaces(s, x.unitEnd, x.linkStart) && LinkOk(s, x)
  }

  predicate GapOk(s: string, x: Cut, wholeWord: bool) {
    (if x.hasUnit then UnitMatch(s, x.unitStart, x.unitEnd, wholeWord) else x.unitEnd == x.unitStart)
    && AfterUnitOk(s, x)
  }

  predicate AfterQtyOk(s: string, x: Cut, wholeWord: bool) {
    Spaces(s, x.qtyEnd, x.unitStart) && GapOk(s, x, wholeWord)
  }

  predicate AfterFracOk(s: string, x: Cut, wholeWord: bool) {
    SlashMatch(s, x.fracEnd, x.qtyEnd) && AfterQtyOk(s, x, wholeWord)
  }

  predicate AfterIntOk(s: string, x: Cut, wholeWord: bool) {
    FracMatch(s, x.intEnd, x.fracEnd) && AfterFracOk(s, x, wholeWord)
  }

  /** The cut points `x` split the whole of `s` into the pieces of `QUANTITY_REGEX`. */
  predicate Matches(s: string, x: Cut, wholeWord: bool) {
    Digits(s, 0, x.intEnd) && AfterIntOk(s, x, wholeWord)
  }

  // ---------------------------------------------------------------------------
  // The backtracking search, stage by stage
  // ---------------------------------------------------------------------------

  /** `de\s+(.+)$` once `de` is read at `x.linkStart`: the longest run of spaces first. */
  function AfterDe(s: string, x: Cut): Option<Cut> {
    FirstOf(Down(x.linkStart + 2, SpaceRun(s, x.linkStart + 2), 1), TextFrom(s, x))
  }

  /** `(.+)$` from `t`. */
  function TextFrom(s: string, x: Cut): nat -> Option<Cut> {
    (t: nat) => if TailOk(s, t) then Some(x.(textStart := t)) else None
  }

  /** `(?:de\s+|d')?(.+)$` from `x.linkStart`. */
  function FromLink(s: string, x: Cut): (r: Option<Cut>)
    ensures r.Some? ==> r.value == x.(textStart := r.value.textStart) && LinkOk(s, r.value)
  {
    var p := x.linkStart;
    var de := if WordAt(s, p, "de", true) then AfterDe(s, x) else None;
    if de.Some? then de
    else if WordAt(s, p, "d'", true) && TailOk(s, p + 2) then Some(x.(textStart := p + 2))
    else if TailOk(s, p) then Some(x.(textStart := p))
    else None
  }

  /** `\s*` after the unit, then the rest. */
  function FromUnitEnd(s: string, x: Cut): (r: Option<Cut>)
    ensures r.Some? ==> r.value == x.(linkStart := r.value.linkStart, textStart := r.value.textStart) && AfterUnitOk(s, r.value)
  {
    FirstOf(Down(x.unitEnd, SpaceRun(s, x.unitEnd), 0), (p: nat) => FromLink(s, x.(linkStart := p)))
  }

  /** `(U)?` at `x.unitStart`: every way to read a unit first, then none. */
  function FromGap(s: string, x: Cut, wholeWord: bool): (r: Option<Cut>)
    ensures r.Some? ==> r.value == x.(hasUnit := r.value.hasUnit, unitEnd := r.value.unitEnd,
                                      linkStart := r.value.linkStart, textStart := r.value.textStart)
                        && GapOk(s, r.value, wholeWord)
  {
    var w := x.unitStart;
    var u := FirstOf(UnitEnds(s, w), (e: nat) =>
      if wholeWord && !WordBoundary(s, e) then None else FromUnitEnd(s, x.(hasUnit := true, unitEnd := e)));
    if u.Some? then u else FromUnitEnd(s, x.(hasUnit := false, unitEnd := w))
  }

  /** `\s*` after Q. */
  function FromQty(s: string, x: Cut, wholeWord: bool): (r: Option<Cut>)
    ensures r.Some? ==> r.value.intEnd == x.intEnd && r.value.fracEnd == x.fracEnd && r.value.qtyEnd == x.qtyEnd
                        && AfterQtyOk(s, r.value, wholeWord)
  {
    FirstOf(Down(x.qtyEnd, SpaceRun(s, x.qtyEnd), 0), (w: nat) => FromGap(s, x.(unitStart := w), wholeWord))
  }

  /** The ends of the optional `\s*\/\s*\d+` from `f`, longest first. */
  function SlashEnds(s: string, f: nat): (r: seq<nat>)
    ensures forall i :: 0 <= i < |r| ==> SlashMatch(s, f, r[i])
  {
    (if HasSlash(s, f) then Down(DenStart(s, f), DigitRun(s, DenStart(s, f)), 1) else []) + [f]
  }

  function FromFrac(s: string, x: Cut, wholeWord: bool): (r: Option<Cut>)
    ensures r.Some? ==> r.value.intEnd == x.intEnd && r.value.fracEnd == x.fracEnd && AfterFracOk(s, r.value, wholeWord)
  {
    FirstOf(SlashEnds(s, x.fracEnd), (q: nat) => FromQty(s, x.(qtyEnd := q), wholeWord))
  }

  /** The ends of the optional `[.,]\d+` from `a`, longest first. */
  function FracEnds(s: string, a: nat): (r: seq<nat>)
    ensures forall i :: 0 <= i < |r| ==> FracMatch(s, a, r[i])
  {
    (if a < |s| && (s[a] == '.' || s[a] == ',') then Down(a + 1, DigitRun(s, a + 1), 1) else []) + [a]
  }

  function FromInt(s: string, x: Cut, wholeWord: bool): (r: Option<Cut>)
    ensures r.Some? ==> r.value.intEnd == x.intEnd && AfterIntOk(s, r.value, wholeWord)
  {
    FirstOf(FracEnds(s, x.intEnd), (f: nat) => FromFrac(s, x.(fracEnd := f), wholeWord))
  }

  /** `name.match(QUANTITY_REGEX)`: the first match in priority order, as its cut points. */
  function MatchQuantity(s: string, wholeWord: bool): (r: Option<Cut>)
    ensures r.Some? ==> Matches(s, r.value, wholeWord)
  {
    FirstOf(Down(0, DigitRun(s, 0), 1), (a: nat) => FromInt(s, Cut(a, a, a, a, false, a, a, a), wholeWord))
  }

  // ---------------------------------------------------------------------------
  // Completeness: when some split fits, the search finds one
  // ---------------------------------------------------------------------------

  /** A run end inside the maximal run is one of the candidates a greedy repetition tries. */
  lemma DownHas(base: nat, n: nat, min: nat, x: nat)
    requires base + min <= x <= base + n
    ensures 0 <= n - (x - base) < |Down(base, n, min)| && Down(base, n, min)[n - (x - base)] == x
  {
  }

  /** A greedy repetition succeeds when the rest succeeds after one of the run ends it tries. */
  lemma DownSome<T>(base: nat, n: nat, min: nat, k: nat -> Option<T>, x: nat)
    requires base + min <= x <= base + n && k(x).Some?
    ensures FirstOf(Down(base, n, min), k).Some?
  {
    DownHas(base, n, min, x);
    FirstOfSome(Down(base, n, min), k, n - (x - base));
  }

  lemma LinkComplete(s: string, x: Cut, y: Cut)
    requires y == x.(textStart := y.textStart) && LinkOk(s, y)
    ensures FromLink(s, x).Some?
  {
    var p, t := x.linkStart, y.textStart;
    if WordAt(s, p, "de", true) && p + 2 < t && Spaces(s, p + 2, t) {
      LinkByDe(s, x, t);
    } else if WordAt(s, p, "d'", true) && t == p + 2 {
      LinkByApostrophe(s, x);
    } else {
      LinkByNothing(s, x);
    }
  }

  /** `de`, spaces up to `t`, then the text: some candidate after the spaces succeeds. */
  lemma LinkByDe(s: string, x: Cut, t: nat)
    requires WordAt(s, x.linkStart, "de", true) && x.linkStart + 2 < t
    requires Spaces(s, x.linkStart + 2, t) && TailOk(s, t)
    ensures FromLink(s, x).Some?
  {
    SpacesWithinRun(s, x.linkStart + 2, t);
    TextFromSome(s, x, t);
    AfterDeSome(s, x, t);
  }

  lemma AfterDeSome(s: string, x: Cut, t: nat)
    requires x.linkStart + 2 < t <= x.linkStart + 2 + SpaceRun(s, x.linkStart + 2) && TextFrom(s, x)(t).Some?
    ensures AfterDe(s, x).Some?
  {
    DownSome(x.linkStart + 2, SpaceRun(s, x.linkStart + 2), 1, TextFrom(s, x), t);
  }

  lemma TextFromSome(s: string, x: Cut, t: nat)
    requires TailOk(s, t)
    ensures TextFrom(s, x)(t).Some?
  {
  }

  lemma LinkByApostrophe(s: string, x: Cut)
    requires WordAt(s, x.linkStart, "d'", true) && TailOk(s, x.linkStart + 2)
    ensures FromLink(s, x).Some?
  {
  }

  lemma LinkByNothing(s: string, x: Cut)
    requires TailOk(s, x.linkStart)
    ensures FromLink(s, x).Some?
  {
  }

  lemma UnitEndComplete(s: string, x: Cut, y: Cut)
    requires y == x.(linkStart := y.linkStart, textStart := y.textStart) && AfterUnitOk(s, y)
    ensures FromUnitEnd(s, x).Some?
  {
    var e, p := x.unitEnd, y.linkStart;
    var run := SpaceRun(s, e);
    SpacesWithinRun(s, e, p);
    DownHas(e, run, 0, p);
    LinkComplete(s, x.(linkStart := p), y);
    var k := (p': nat) => FromLink(s, x.(linkStart := p'));
    assert k(Down(e, run, 0)[run - (p - e)]).Some?;
  }

  lemma GapComplete(s: string, x: Cut, y: Cut, wholeWord: bool)
    requires y == x.(hasUnit := y.hasUnit, unitEnd := y.unitEnd, linkStart := y.linkStart, textStart := y.textStart)
    requires GapOk(s, y, wholeWord)
    ensures FromGap(s, x, wholeWord).Some?
  {
    var w := x.unitStart;
    if y.hasUnit {
      var ends := UnitEnds(s, w);
      var i :| 0 <= i < |ends| && ends[i] == y.unitEnd;
      var x' := x.(hasUnit := true, unitEnd := y.unitEnd);
      UnitEndComplete(s, x', y);
      var k := (e: nat) =>
        if wholeWord && !WordBoundary(s, e) then None else FromUnitEnd(s, x.(hasUnit := true, unitEnd := e));
      assert k(ends[i]).Some?;
    } else {
      UnitEndComplete(s, x.(hasUnit := false, unitEnd := w), y);
    }
  }

  lemma QtyComplete(s: string, x: Cut, y: Cut, wholeWord: bool)
    requires y.intEnd == x.intEnd && y.fracEnd == x.fracEnd && y.qtyEnd == x.qtyEnd && AfterQtyOk(s, y, wholeWord)
    ensures FromQty(s, x, wholeWord).Some?
  {
    var q, w := x.qtyEnd, y.unitStart;
    var run := SpaceRun(s, q);
    SpacesWithinRun(s, q, w);
    DownHas(q, run, 0, w);
    GapComplete(s, x.(unitStart := w), y, wholeWord);
    var k := (w': nat) => FromGap(s, x.(unitStart := w'), wholeWord);
    assert k(Down(q, run, 0)[run - (w - q)]).Some?;
  }

  lemma FracComplete(s: string, x: Cut, y: Cut, wholeWord: bool)
    requires y.intEnd == x.intEnd && y.fracEnd == x.fracEnd && AfterFracOk(s, y, wholeWord)
    ensures FromFrac(s, x, wholeWord).Some?
  {
    var f, q := x.fracEnd, y.qtyEnd;
    SlashEndListed(s, f, q);
    var i :| 0 <= i < |SlashEnds(s, f)| && SlashEnds(s, f)[i] == q;
    QtyComplete(s, x.(qtyEnd := q), y, wholeWord);
    FirstOfSome(SlashEnds(s, f), (q': nat) => FromQty(s, x.(qtyEnd := q'), wholeWord), i);
  }

  /** Every end of `\s*\/\s*\d+` the pattern allows is a candidate. */
  lemma SlashEndListed(s: string, f: nat, q: nat)
    requires SlashMatch(s, f, q)
    ensures exists i :: 0 <= i < |SlashEnds(s, f)| && SlashEnds(s, f)[i] == q
  {
    var ends := SlashEnds(s, f);
    if q == f {
      assert ends[|ends| - 1] == q;
    } else {
      var c := DenStart(s, f);
      var run := DigitRun(s, c);
      DigitsWithinRun(s, c, q);
      DownHas(c, run, 1, q);
      assert ends[run - (q - c)] == q;
    }
  }

  lemma IntComplete(s: string, x: Cut, y: Cut, wholeWord: bool)
    requires y.intEnd == x.intEnd && AfterIntOk(s, y, wholeWord)
    ensures FromInt(s, x, wholeWord).Some?
  {
    var a, f := x.intEnd, y.fracEnd;
    FracEndListed(s, a, f);
    var i :| 0 <= i < |FracEnds(s, a)| && FracEnds(s, a)[i] == f;
    FracComplete(s, x.(fracEnd := f), y, wholeWord);
    FirstOfSome(FracEnds(s, a), (f': nat) => FromFrac(s, x.(fracEnd := f'), wholeWord), i);
  }

  /** Every end of `[.,]\d+` the pattern allows is a candidate. */
  lemma FracEndListed(s: string, a: nat, f: nat)
    requires FracMatch(s, a, f)
    ensures exists i :: 0 <= i < |FracEnds(s, a)| && FracEnds(s, a)[i] == f
  {
    var ends := FracEnds(s, a);
    if f == a {
      assert ends[|ends| - 1] == f;
    } else {
      var run := DigitRun(s, a + 1);
      DigitsWithinRun(s, a + 1, f);
      DownHas(a + 1, run, 1, f);
      assert ends[run - (f - (a + 1))] == f;
    }
  }

  /**
   * The search is exact: `QUANTITY_REGEX` matches a name iff some choice of
   * cut points splits the whole name into the pieces of the pattern.
   */
  lemma MatchIffSplit(s: string, wholeWord: bool)
    ensures MatchQuantity(s, wholeWord).Some? <==> exists x :: Matches(s, x, wholeWord)
  {
    if x :| Matches(s, x, wholeWord) {
      var a := x.intEnd;
      var run := DigitRun(s, 0);
      DigitsWithinRun(s, 0, a);
      DownHas(0, run, 1, a);
      IntComplete(s, Cut(a, a, a, a, false, a, a, a), x, wholeWord);
      var k := (a': nat) => FromInt(s, Cut(a', a', a', a', false, a', a', a'), wholeWord);
      assert k(Down(0, run, 1)[run - a]).Some?;
    }
  }

  // ---------------------------------------------------------------------------
  // Worked matches
  // ---------------------------------------------------------------------------

  lemma SpaceRunIs(s: string, i: nat, n: nat)
    requires i + n <= |s|
    requires forall j :: i <= j < i + n ==> IsSpace(s[j])
    requires i + n == |s| || !IsSpace(s[i + n])
    ensures SpaceRun(s, i) == n
  {
  }

  lemma DigitRunIs(t: string, i: nat, n: nat)
    requires i + n <= |t|
    requires forall j :: i <= j < i + n ==> IsDigit(t[j])
    requires i + n == |t| || !IsDigit(t[i + n])
    ensures DigitRun(t, i) == n
  {
  }

  /** When the first candidate succeeds, it is the result. */
  lemma FirstOfHead<T>(cands: seq<nat>, k: nat -> Option<T>)
    requires |cands| > 0 && k(cands[0]).Some?
    ensures FirstOf(cands, k) == k(cands[0])
  {
  }

  lemma NotWordAt(s: string, w: nat, word: string)
    requires |word| > 0 && w < |s| && !CiEq(s[w], word[0])
    ensures !WordAt(s, w, word, true)
  {
  }

  /** The letters a unit of U can start with, upper-cased. */
  predicate UnitInitial(c: char) {
    Canon(c) in {'G', 'K', 'M', 'C', 'L', 'P', 'S'}
  }

  /** No unit starts at a character that no unit starts with. */
  lemma NoUnitAt(s: string, w: nat)
    requires w < |s| && !UnitInitial(s[w])
    ensures UnitEnds(s, w) == []
  {
    NotWordAt(s, w, "g");
    NotWordAt(s, w, "kg");
    NotWordAt(s, w, "ml");
    NotWordAt(s, w, "cl");
    NotWordAt(s, w, "l");
    NotWordAt(s, w, "cs");
    NotWordAt(s, w, "cc");
    NotWordAt(s, w, "cuillère");
    NotWordAt(s, w, "pincée");
    NotWordAt(s, w, "sachet");
  }

  /** At a `g`, the only unit is the gram, one letter long. */
  lemma OnlyGramAt(s: string, w: nat)
    requires w < |s| && s[w] == 'g'
    ensures UnitEnds(s, w) == [w + 1]
  {
    NotWordAt(s, w, "kg");
    NotWordAt(s, w, "ml");
    NotWordAt(s, w, "cl");
    NotWordAt(s, w, "l");
    NotWordAt(s, w, "cs");
    NotWordAt(s, w, "cc");
    NotWordAt(s, w, "cuillère");
    NotWordAt(s, w, "pincée");
    NotWordAt(s, w, "sachet");
    assert WordEnd(s, w, "g") == [w + 1];
  }

  /** No linker starts at a character other than `d`. */
  lemma NoLinkerAt(s: string, p: nat)
    requires p < |s| && Canon(s[p]) != 'D'
    ensures !WordAt(s, p, "de", true) && !WordAt(s, p, "d'", true)
  {
    NotWordAt(s, p, "de");
    NotWordAt(s, p, "d'");
  }

  /** The text of the match starts at `t`, where nothing but the text can start. */
  lemma LinkPlain(s: string, x: Cut)
    requires x.linkStart < |s| && Canon(s[x.linkStart]) != 'D' && TailOk(s, x.linkStart)
    ensures FromLink(s, x) == Some(x.(textStart := x.linkStart))
  {
    NoLinkerAt(s, x.linkStart);
  }

  /**
   * The number is read with all its digits when a space and then a plain
   * word follow, and no unit is read: the shape of `3 oeufs entiers`.
   */
  lemma MatchCounted(ds: string, w: string, s: string, wholeWord: bool)
    requires |ds| >= 1 && AllDigits(ds) && |w| >= 1 && s == ds + " " + w
    requires !IsSpace(w[0]) && w[0] != '/' && !UnitInitial(w[0]) && Canon(w[0]) != 'D'
    requires forall j :: 0 <= j < |w| ==> !LineTerminator(w[j])
    ensures MatchQuantity(s, wholeWord) == Some(CountedCut(|ds|))
  {
    CountedShapeOf(ds, w, s);
    CountedSearch(s, |ds|, wholeWord);
  }

  /** No unit: the text starts right after the space. */
  function CountedCut(a: nat): Cut {
    Cut(a, a, a, a + 1, false, a + 1, a + 1, a + 1)
  }

  lemma CountedSearch(s: string, a: nat, wholeWord: bool)
    requires CountedShape(s, a)
    ensures MatchQuantity(s, wholeWord) == Some(CountedCut(a))
  {
    CountedGap(s, a, Cut(a, a, a, a + 1, false, a, a, a), wholeWord);
    SearchAfterSpace(s, a, wholeWord, CountedCut(a));
  }

  /** `s` is digits up to `a`, a space, then a text that starts no unit, slash or linker. */
  predicate CountedShape(s: string, a: nat) {
    && Digits(s, 0, a) && a + 1 < |s| && s[a] == ' '
    && !IsSpace(s[a + 1]) && s[a + 1] != '/' && !UnitInitial(s[a + 1]) && Canon(s[a + 1]) != 'D'
    && TailOk(s, a + 1)
  }

  lemma CountedShapeOf(ds: string, w: string, s: string)
    requires |ds| >= 1 && AllDigits(ds) && |w| >= 1 && s == ds + " " + w
    requires !IsSpace(w[0]) && w[0] != '/' && !UnitInitial(w[0]) && Canon(w[0]) != 'D'
    requires forall j :: 0 <= j < |w| ==> !LineTerminator(w[j])
    ensures CountedShape(s, |ds|)
  {
    var a := |ds|;
    assert forall j :: 0 <= j < a ==> s[j] == ds[j];
    assert s[a] == ' ' && s[a + 1] == w[0];
    assert forall j :: a + 1 <= j < |s| ==> s[j] == w[j - a - 1];
  }

  /** After the space no unit starts: the gap reads none and the text starts there. */
  lemma CountedGap(s: string, a: nat, x: Cut, wholeWord: bool)
    requires CountedShape(s, a)
    requires x == Cut(a, a, a, a + 1, false, a, a, a)
    ensures FromGap(s, x, wholeWord) == Some(CountedCut(a))
  {
    NoUnitAt(s, a + 1);
    FromUnitEndPlain(s, x.(hasUnit := false, unitEnd := a + 1));
  }

  /**
   * The search on a number, one space and a text that starts with no slash:
   * every digit is taken, no decimal or fraction part, the space is taken,
   * and the result is what the gap after the space reads.
   */
  lemma SearchAfterSpace(s: string, a: nat, wholeWord: bool, y: Cut)
    requires Digits(s, 0, a) && a + 1 < |s| && s[a] == ' ' && !IsSpace(s[a + 1]) && s[a + 1] != '/'
    requires FromGap(s, Cut(a, a, a, a + 1, false, a, a, a), wholeWord) == Some(y)
    ensures MatchQuantity(s, wholeWord) == Some(y)
  {
    NumberThenSpace(s, a);
    QtyOfGap(s, Cut(a, a, a, a, false, a, a, a), wholeWord, y);
    SearchOfQty(s, a, wholeWord, y);
  }

  lemma SearchOfQty(s: string, a: nat, wholeWord: bool, y: Cut)
    requires a >= 1 && DigitRun(s, 0) == a
    requires a + 1 < |s| && s[a] == ' ' && SpaceRun(s, a) == 1 && s[a + 1] != '/'
    requires FromQty(s, Cut(a, a, a, a, false, a, a, a), wholeWord) == Some(y)
    ensures MatchQuantity(s, wholeWord) == Some(y)
  {
    IntOfQty(s, a, wholeWord, y);
    MatchOfInt(s, a, wholeWord, y);
  }

  /** The integer part takes every leading digit: the first candidate is tried first. */
  lemma MatchOfInt(s: string, a: nat, wholeWord: bool, y: Cut)
    requires a >= 1 && DigitRun(s, 0) == a
    requires FromInt(s, Cut(a, a, a, a, false, a, a, a), wholeWord) == Some(y)
    ensures MatchQuantity(s, wholeWord) == Some(y)
  {
    FirstOfHead(Down(0, a, 1), (a': nat) => FromInt(s, Cut(a', a', a', a', false, a', a', a'), wholeWord));
  }

  /** Digits up to `a`, then exactly one space. */
  lemma NumberThenSpace(s: string, a: nat)
    requires Digits(s, 0, a) && a + 1 < |s| && s[a] == ' ' && !IsSpace(s[a + 1])
    ensures DigitRun(s, 0) == a && SpaceRun(s, a) == 1
  {
    DigitRunIs(s, 0, a);
    SpaceRunIs(s, a, 1);
  }

  /** One space after Q: the gap is tried after it first. */
  lemma QtyOfGap(s: string, x: Cut, wholeWord: bool, y: Cut)
    requires x.qtyEnd < |s| && SpaceRun(s, x.qtyEnd) == 1
    requires FromGap(s, x.(unitStart := x.qtyEnd + 1), wholeWord) == Some(y)
    ensures FromQty(s, x, wholeWord) == Some(y)
  {
    FirstOfHead(Down(x.qtyEnd, 1, 0), (w: nat) => FromGap(s, x.(unitStart := w), wholeWord));
  }

  /** A space after the digits: no decimal part and no fraction, Q is the integer. */
  lemma IntOfQty(s: string, a: nat, wholeWord: bool, y: Cut)
    requires a + 1 < |s| && s[a] == ' ' && SpaceRun(s, a) == 1 && s[a + 1] != '/'
    requires FromQty(s, Cut(a, a, a, a, false, a, a, a), wholeWord) == Some(y)
    ensures FromInt(s, Cut(a, a, a, a, false, a, a, a), wholeWord) == Some(y)
  {
    var x0 := Cut(a, a, a, a, false, a, a, a);
    NoFraction(s, a);
    FracOfQty(s, x0, wholeWord, y);
    IntOfFrac(s, x0, wholeWord, y);
  }

  lemma NoFraction(s: string, a: nat)
    requires a + 1 < |s| && s[a] == ' ' && SpaceRun(s, a) == 1 && s[a + 1] != '/'
    ensures FracEnds(s, a) == [a] && SlashEnds(s, a) == [a]
  {
  }

  /** No slash: Q ends where the decimal part ends. */
  lemma FracOfQty(s: string, x: Cut, wholeWord: bool, y: Cut)
    requires SlashEnds(s, x.fracEnd) == [x.fracEnd] && x.qtyEnd == x.fracEnd
    requires FromQty(s, x, wholeWord) == Some(y)
    ensures FromFrac(s, x, wholeWord) == Some(y)
  {
    assert x.(qtyEnd := x.fracEnd) == x;
    FirstOfHead([x.fracEnd], (q: nat) => FromQty(s, x.(qtyEnd := q), wholeWord));
  }

  /** No decimal part: it ends where the integer ends. */
  lemma IntOfFrac(s: string, x: Cut, wholeWord: bool, y: Cut)
    requires FracEnds(s, x.intEnd) == [x.intEnd] && x.fracEnd == x.intEnd
    requires FromFrac(s, x, wholeWord) == Some(y)
    ensures FromInt(s, x, wholeWord) == Some(y)
  {
    assert x.(fracEnd := x.intEnd) == x;
    FirstOfHead([x.intEnd], (f: nat) => FromFrac(s, x.(fracEnd := f), wholeWord));
  }

  /** `s` is digits up to `a`, then ` g de ` and a text starting with a non-space. */
  predicate WeighedShape(s: string, a: nat) {
    && Digits(s, 0, a) && a + 6 < |s|
    && s[a] == ' ' && s[a + 1] == 'g' && s[a + 2] == ' ' && s[a + 3] == 'd' && s[a + 4] == 'e' && s[a + 5] == ' '
    && !IsSpace(s[a + 6]) && TailOk(s, a + 6)
  }

  function WeighedCut(a: nat): Cut {
    Cut(a, a, a, a + 1, true, a + 2, a + 3, a + 6)
  }

  lemma WeighedMatches(s: string, a: nat, wholeWord: bool)
    requires WeighedShape(s, a)
    ensures Matches(s, WeighedCut(a), wholeWord)
  {
    WeighedGapOk(s, a, wholeWord);
    assert Spaces(s, a, a + 1);
  }

  lemma WeighedGapOk(s: string, a: nat, wholeWord: bool)
    requires WeighedShape(s, a)
    ensures GapOk(s, WeighedCut(a), wholeWord)
  {
    OnlyGramAt(s, a + 1);
    WeighedLinkOk(s, a);
    assert Spaces(s, a + 2, a + 3);
  }

  lemma WeighedLinkOk(s: string, a: nat)
    requires WeighedShape(s, a)
    ensures LinkOk(s, WeighedCut(a))
  {
    assert WordAt(s, a + 3, "de", true);
    assert Spaces(s, a + 5, a + 6);
  }

  lemma WeighedUnit(s: string, a: nat, x: Cut)
    requires WeighedShape(s, a)
    requires x == WeighedCut(a).(linkStart := x.linkStart, textStart := x.textStart)
    ensures FromUnitEnd(s, x) == Some(WeighedCut(a))
  {
    var y := WeighedCut(a);
    WeighedMatches(s, a, false);
    SpaceRunIs(s, a + 2, 1);
    SpaceRunIs(s, a + 5, 1);
    LinkComplete(s, x.(linkStart := a + 3), y);
    FirstOfHead(Down(a + 2, 1, 0), (p: nat) => FromLink(s, x.(linkStart := p)));
    assert WordAt(s, a + 3, "de", true);
    assert Down(a + 5, 1, 1) == [a + 6];
  }

  lemma WeighedGap(s: string, a: nat, x: Cut, wholeWord: bool)
    requires WeighedShape(s, a)
    requires x == Cut(a, a, a, a + 1, false, a, a, a)
    ensures FromGap(s, x, wholeWord) == Some(WeighedCut(a))
  {
    OnlyGramAt(s, a + 1);
    WeighedUnit(s, a, x.(hasUnit := true, unitEnd := a + 2));
    assert WordBoundary(s, a + 2);
  }

  lemma WeighedShapeOf(ds: string, w: string, s: string)
    requires |ds| >= 1 && AllDigits(ds) && |w| >= 1 && s == ds + " g de " + w
    requires !IsSpace(w[0])
    requires forall j :: 0 <= j < |w| ==> !LineTerminator(w[j])
    ensures WeighedShape(s, |ds|)
  {
    var a := |ds|;
    assert forall j :: 0 <= j < a ==> s[j] == ds[j];
    assert s[a] == ' ' && s[a + 1] == 'g' && s[a + 2] == ' ' && s[a + 3] == 'd' && s[a + 4] == 'e' && s[a + 5] == ' ';
    assert forall j :: a + 6 <= j < |s| ==> s[j] == w[j - a - 6];
  }

  lemma WeighedSearch(s: string, a: nat, wholeWord: bool)
    requires WeighedShape(s, a)
    ensures MatchQuantity(s, wholeWord) == Some(WeighedCut(a))
  {
    WeighedGap(s, a, Cut(a, a, a, a + 1, false, a, a, a), wholeWord);
    SearchAfterSpace(s, a, wholeWord, WeighedCut(a));
  }

  /** A unit and `de` are read: the shape of `300 g de farine`. */
  lemma MatchWeighed(ds: string, w: string, s: string, wholeWord: bool)
    requires |ds| >= 1 && AllDigits(ds) && |w| >= 1 && s == ds + " g de " + w
    requires !IsSpace(w[0])
    requires forall j :: 0 <= j < |w| ==> !LineTerminator(w[j])
    ensures MatchQuantity(s, wholeWord) == Some(WeighedCut(|ds|))
  {
    WeighedShapeOf(ds, w, s);
    WeighedSearch(s, |ds|, wholeWord);
  }

  /**
   * `s` is digits up to `a`, a space, a `g` and then a word: the shape of
   * `3 gousses d'ail`, where the `g` is the word's first letter.
   */
  predicate GluedShape(s: string, a: nat) {
    && Digits(s, 0, a) && a + 2 < |s|
    && s[a] == ' ' && s[a + 1] == 'g' && IsLetter(s[a + 2]) && Canon(s[a + 2]) != 'D'
    && TailOk(s, a + 2)
  }

  lemma GluedShapeOf(ds: string, w: string, s: string)
    requires |ds| >= 1 && AllDigits(ds) && |w| >= 1 && s == ds + " g" + w
    requires IsLetter(w[0]) && Canon(w[0]) != 'D'
    requires forall j :: 0 <= j < |w| ==> !LineTerminator(w[j])
    ensures GluedShape(s, |ds|)
  {
    var a := |ds|;
    assert forall j :: 0 <= j < a ==> s[j] == ds[j];
    assert s[a] == ' ' && s[a + 1] == 'g';
    assert forall j :: a + 2 <= j < |s| ==> s[j] == w[j - a - 2];
  }

  /** As written, the `g` is read as grams and the word loses its first letter. */
  function GluedAsWritten(a: nat): Cut {
    Cut(a, a, a, a + 1, true, a + 2, a + 2, a + 2)
  }

  /** With whole-word units, there is no unit and the word is kept. */
  function GluedWhole(a: nat): Cut {
    Cut(a, a, a, a + 1, false, a + 1, a + 1, a + 1)
  }

  lemma GluedGap(s: string, a: nat, x: Cut, wholeWord: bool)
    requires GluedShape(s, a)
    requires x == Cut(a, a, a, a + 1, false, a, a, a)
    ensures FromGap(s, x, wholeWord) == Some(if wholeWord then GluedWhole(a) else GluedAsWritten(a))
  {
    OnlyGramAt(s, a + 1);
    GluedUnitEnds(s, a, x);
    GapOfSingleUnit(s, x, wholeWord, a + 2);
  }

  /** What follows the `g` read as a unit, and what follows when it is not. */
  lemma GluedUnitEnds(s: string, a: nat, x: Cut)
    requires GluedShape(s, a)
    requires x == Cut(a, a, a, a + 1, false, a, a, a)
    ensures FromUnitEnd(s, x.(hasUnit := true, unitEnd := a + 2)) == Some(GluedAsWritten(a))
    ensures FromUnitEnd(s, x.(hasUnit := false, unitEnd := a + 1)) == Some(GluedWhole(a))
    ensures !WordBoundary(s, a + 2)
  {
    FromUnitEndPlain(s, x.(hasUnit := true, unitEnd := a + 2));
    assert TailOk(s, a + 1);
    FromUnitEndPlain(s, x.(hasUnit := false, unitEnd := a + 1));
  }

  /** With a single unit candidate, the gap reads that unit when it may, and no unit otherwise. */
  lemma GapOfSingleUnit(s: string, x: Cut, wholeWord: bool, e: nat)
    requires UnitEnds(s, x.unitStart) == [e]
    ensures FromGap(s, x, wholeWord) ==
      var u := if wholeWord && !WordBoundary(s, e) then None else FromUnitEnd(s, x.(hasUnit := true, unitEnd := e));
      if u.Some? then u else FromUnitEnd(s, x.(hasUnit := false, unitEnd := x.unitStart))
  {
  }

  /** Right after the unit comes the text itself: no spaces, no linker. */
  lemma FromUnitEndPlain(s: string, x: Cut)
    requires x.unitEnd < |s| && !IsSpace(s[x.unitEnd]) && Canon(s[x.unitEnd]) != 'D' && TailOk(s, x.unitEnd)
    ensures FromUnitEnd(s, x) == Some(x.(linkStart := x.unitEnd, textStart := x.unitEnd))
  {
    SpaceRunIs(s, x.unitEnd, 0);
    LinkPlain(s, x.(linkStart := x.unitEnd));
    assert Down(x.unitEnd, 0, 0) == [x.unitEnd];
    FirstOfHead(Down(x.unitEnd, 0, 0), (p: nat) => FromLink(s, x.(linkStart := p)));
  }

  lemma GluedMatches(s: string, a: nat)
    requires GluedShape(s, a)
    ensures Matches(s, GluedAsWritten(a), false) && Matches(s, GluedWhole(a), true)
  {
    OnlyGramAt(s, a + 1);
    assert TailOk(s, a + 1);
  }

  lemma GluedSearch(s: string, a: nat, wholeWord: bool)
    requires GluedShape(s, a)
    ensures MatchQuantity(s, wholeWord) == Some(if wholeWord then GluedWhole(a) else GluedAsWritten(a))
  {
    GluedGap(s, a, Cut(a, a, a, a + 1, false, a, a, a), wholeWord);
    SearchAfterSpace(s, a, wholeWord, if wholeWord then GluedWhole(a) else GluedAsWritten(a));
  }

  /** When taking every leading digit fails, the integer part gives up one digit next. */
  lemma MatchOfShorterInt(s: string, a: nat, wholeWord: bool, y: Cut)
    requires a >= 1 && DigitRun(s, 0) == a + 1
    requires FromInt(s, Cut(a + 1, a + 1, a + 1, a + 1, false, a + 1, a + 1, a + 1), wholeWord).None?
    requires FromInt(s, Cut(a, a, a, a, false, a, a, a), wholeWord) == Some(y)
    ensures MatchQuantity(s, wholeWord) == Some(y)
  {
    var k := (a': nat) => FromInt(s, Cut(a', a', a', a', false, a', a', a'), wholeWord);
    DownStep(a);
    FirstOfSkip([a + 1], Down(0, a, 1), k);
    FirstOfHead(Down(0, a, 1), k);
  }

  /** A greedy repetition from zero tries its longest end, then the rest. */
  lemma DownStep(a: nat)
    requires a >= 1
    ensures Down(0, a + 1, 1) == [a + 1] + Down(0, a, 1)
  {
  }

  /** A failing first candidate is passed over. */
  lemma FirstOfSkip<T>(head: seq<nat>, tail: seq<nat>, k: nat -> Option<T>)
    requires |head| == 1 && k(head[0]).None?
    ensures FirstOf(head + tail, k) == FirstOf(tail, k)
  {
    assert (head + tail)[1..] == tail;
  }

  /** Nothing but the integer part, ending on the last digit of the name. */
  function LastDigitCut(a: nat): Cut {
    Cut(a, a, a, a, false, a, a, a)
  }

  /** The number stops one digit short of the end: what is left is the text, read plainly. */
  lemma LastDigitText(s: string, a: nat, wholeWord: bool)
    requires a + 1 == |s| && IsDigit(s[a])
    ensures FromInt(s, LastDigitCut(a), wholeWord) == Some(LastDigitCut(a))
  {
    LastDigitQty(s, a, wholeWord);
    LastDigitEnds(s, a);
    FracOfQty(s, LastDigitCut(a), wholeWord, LastDigitCut(a));
    IntOfFrac(s, LastDigitCut(a), wholeWord, LastDigitCut(a));
  }

  /** A digit is neither `[.,]` nor a space nor `/`: no decimal or fraction part starts there. */
  lemma LastDigitEnds(s: string, a: nat)
    requires a + 1 == |s| && IsDigit(s[a])
    ensures FracEnds(s, a) == [a] && SlashEnds(s, a) == [a]
  {
    SpaceRunIs(s, a, 0);
  }

  /** No space follows Q: the gap is tried right after it. */
  lemma LastDigitQty(s: string, a: nat, wholeWord: bool)
    requires a + 1 == |s| && IsDigit(s[a])
    ensures FromQty(s, LastDigitCut(a), wholeWord) == Some(LastDigitCut(a))
  {
    LastDigitGap(s, a, wholeWord);
    SpaceRunIs(s, a, 0);
    QtyOfGapUnspaced(s, LastDigitCut(a), wholeWord, LastDigitCut(a));
  }

  /** No space after Q: the gap starts where Q ends. */
  lemma QtyOfGapUnspaced(s: string, x: Cut, wholeWord: bool, y: Cut)
    requires SpaceRun(s, x.qtyEnd) == 0 && x.unitStart == x.qtyEnd
    requires FromGap(s, x, wholeWord) == Some(y)
    ensures FromQty(s, x, wholeWord) == Some(y)
  {
    assert Down(x.qtyEnd, 0, 0) == [x.qtyEnd];
    assert x.(unitStart := x.qtyEnd) == x;
    FirstOfHead(Down(x.qtyEnd, 0, 0), (w: nat) => FromGap(s, x.(unitStart := w), wholeWord));
  }

  /** After the last-but-one digit no unit starts: the gap reads none and the text starts there. */
  lemma LastDigitGap(s: string, a: nat, wholeWord: bool)
    requires a + 1 == |s| && IsDigit(s[a])
    ensures FromGap(s, LastDigitCut(a), wholeWord) == Some(LastDigitCut(a))
  {
    NoUnitAt(s, a);
    FromUnitEndPlain(s, LastDigitCut(a));
  }

  /** A unit that ends the name leaves nothing for the text: that way of reading it fails. */
  lemma NothingAfterUnit(s: string, x: Cut)
    requires x.unitEnd == |s|
    ensures FromUnitEnd(s, x).None?
  {
    SpaceRunIs(s, |s|, 0);
    assert Down(|s|, 0, 0) == [|s|];
    assert !TailOk(s, |s|);
  }

  /** At a final `g`, the gram is read first, fails for want of a text, and no unit is read. */
  lemma TrailingGramGap(s: string, a: nat, wholeWord: bool)
    requires a + 1 == |s| && s[a] == 'g'
    ensures FromGap(s, LastDigitCut(a), wholeWord) == Some(LastDigitCut(a))
  {
    var x := LastDigitCut(a);
    OnlyGramAt(s, a);
    GapOfSingleUnit(s, x, wholeWord, a + 1);
    assert WordBoundary(s, a + 1);
    NothingAfterUnit(s, x.(hasUnit := true, unitEnd := a + 1));
    assert x.(hasUnit := false, unitEnd := x.unitStart) == x;
    PlainAfterGram(s, a);
    FromUnitEndPlain(s, x);
  }

  /** A final `g` is text that needs no linker. */
  lemma PlainAfterGram(s: string, a: nat)
    requires a + 1 == |s| && s[a] == 'g'
    ensures !IsSpace(s[a]) && Canon(s[a]) != 'D' && TailOk(s, a)
  {
  }

  /** On digits followed by a final `g`, every digit is the number and the `g` is the text. */
  lemma TrailingGramMatch(s: string, a: nat, wholeWord: bool)
    requires a >= 1 && a + 1 == |s| && Digits(s, 0, a) && s[a] == 'g'
    ensures MatchQuantity(s, wholeWord) == Some(LastDigitCut(a))
  {
    var x := LastDigitCut(a);
    TrailingGramGap(s, a, wholeWord);
    SpaceRunIs(s, a, 0);
    QtyOfGapUnspaced(s, x, wholeWord, x);
    assert FracEnds(s, a) == [a] && SlashEnds(s, a) == [a];
    FracOfQty(s, x, wholeWord, x);
    IntOfFrac(s, x, wholeWord, x);
    DigitRunIs(s, 0, a);
    MatchOfInt(s, a, wholeWord, x);
  }
}
