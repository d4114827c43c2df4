/**
 * The ingredient list of a recipe page: `parseInlineQuantity`, which reads
 * the quantity, unit and text of an ingredient written on one line with
 * `QUANTITY_REGEX`, the two cases of `renderIngredient`, and the servings
 * stepper that scales the quantities.
 */
module IngredientsList {
  import opened Wrappers
  import opened Strings
  import opened Regex
  import opened QuantityPattern

  // ---------------------------------------------------------------------------
  // The quantity of a match
  // ---------------------------------------------------------------------------

  /** A JavaScript number as computed here: finite, or `Infinity`. NaN is `None`. */
  datatype Amount = Finite(value: real) | Infinity

  function Pow10(n: nat): (r: real)
    ensures r >= 1.0
  {
    if n == 0 then 1.0 else 10.0 * Pow10(n - 1)
  }

  /** The value of the digits written after a decimal point. */
  function Fraction(fs: string): (r: real)
    ensures 0.0 <= r
  {
    Value(fs) as real / Pow10(|fs|)
  }

  /**
   * `parseFloat(t)` for text that starts with `\d+(\.\d*)?`, the only shape
   * the quantity group can give it; NaN (`None`) when `t` does not start
   * with a digit.
   */
  function ParseFloat(t: string): (r: Option<real>)
    ensures r.Some? <==> |t| > 0 && IsDigit(t[0])
    ensures r.Some? ==> r.value >= 0.0
  {
    var n := DigitRun(t, 0);
    if n == 0 then None
    else
      var whole := Value(t[..n]) as real;
      if n < |t| && t[n] == '.' then
        var m := DigitRun(t, n + 1);
        Some(whole + Fraction(t[n + 1..n + 1 + m]))
      else Some(whole)
  }

  /** `g.replace(',', '.')`: a string pattern replaces its first occurrence only. */
  function ReplaceFirstComma(g: string): string {
    match IndexOfChar(g, ',')
    case None => g
    case Some(i) => g[i := '.']
  }

  /** `num / den` for the non-negative numbers parsed here: `x / 0` is `Infinity`, `0 / 0` is NaN. */
  function Divide(num: Option<real>, den: Option<real>): Option<Amount> {
    if num.None? || den.None? then None
    else if den.value == 0.0 then (if num.value == 0.0 then None else Some(Infinity))
    else Some(Finite(num.value / den.value))
  }

  /** The quantity read from the first group: a decimal comma counts as a point, `a/b` is divided. */
  function QuantityOf(g: string): Option<Amount> {
    var raw := ReplaceFirstComma(g);
    if '/' in raw then
      var parts := Strings.Split(raw, '/');
      Divide(ParseFloat(Trim(parts[0])), if |parts| > 1 then ParseFloat(Trim(parts[1])) else None)
    else
      match ParseFloat(raw)
      case None => None
      case Some(v) => Some(Finite(v))
  }

  /** A run of digits is read whole. */
  lemma DigitRunAll(ds: string)
    requires AllDigits(ds)
    ensures DigitRun(ds, 0) == |ds|
  {
  }

  lemma ParseFloatDigits(ds: string)
    requires |ds| >= 1 && AllDigits(ds)
    ensures ParseFloat(ds) == Some(Value(ds) as real)
  {
    DigitRunAll(ds);
    assert ds[..|ds|] == ds;
  }

  /** A whole number is read as its value. */
  lemma WholeQuantity(ds: string)
    requires |ds| >= 1 && AllDigits(ds)
    ensures QuantityOf(ds) == Some(Finite(Value(ds) as real))
  {
    assert ',' !in ds && '/' !in ds;
    ParseFloatDigits(ds);
  }

  lemma CommaReplaced(ds: string, fs: string)
    requires AllDigits(ds)
    ensures ReplaceFirstComma(ds + "," + fs) == ds + "." + fs
  {
    var comma := ds + "," + fs;
    assert comma[..|ds|] == ds;
    IndexOfCharFirst(comma, ',', |ds|);
  }

  /** `parseFloat` of digits, a point and more digits. */
  lemma ParseFloatAt(t: string, n: nat, m: nat)
    requires 0 < n < |t| && t[n] == '.' && n + 1 + m <= |t|
    requires DigitRun(t, 0) == n && DigitRun(t, n + 1) == m
    ensures ParseFloat(t) == Some(Value(t[..n]) as real + Fraction(t[n + 1..n + 1 + m]))
  {
  }

  lemma DecimalRuns(ds: string, fs: string, point: string)
    requires AllDigits(ds) && AllDigits(fs) && point == ds + "." + fs
    ensures DigitRun(point, 0) == |ds| && DigitRun(point, |ds| + 1) == |fs|
  {
    var n := |ds|;
    assert forall j :: 0 <= j < n ==> point[j] == ds[j];
    DigitRunIs(point, 0, n);
    assert forall j :: n + 1 <= j < |point| ==> point[j] == fs[j - n - 1];
    DigitRunIs(point, n + 1, |fs|);
  }

  lemma DecimalSlices(ds: string, fs: string, point: string)
    requires point == ds + "." + fs
    ensures |point| == |ds| + 1 + |fs| && point[|ds|] == '.'
    ensures point[..|ds|] == ds && point[|ds| + 1..] == fs
  {
  }

  lemma PointQuantity(ds: string, fs: string, point: string)
    requires |ds| >= 1 && AllDigits(ds) && AllDigits(fs) && point == ds + "." + fs
    ensures QuantityOf(point) == Some(Finite(Value(ds) as real + Fraction(fs)))
  {
    DecimalRuns(ds, fs, point);
    DecimalSlices(ds, fs, point);
    DecimalSeparators(ds, fs, point);
    DecimalQuantityAt(point, ds, fs);
  }

  /** `ds.fs`, located in `t` by its slices rather than built by concatenation. */
  lemma DecimalQuantityAt(t: string, ds: string, fs: string)
    requires |ds| >= 1 && |t| == |ds| + 1 + |fs| && t[|ds|] == '.'
    requires t[..|ds|] == ds && t[|ds| + 1..] == fs
    requires DigitRun(t, 0) == |ds| && DigitRun(t, |ds| + 1) == |fs|
    requires ',' !in t && '/' !in t
    ensures QuantityOf(t) == Some(Finite(Value(ds) as real + Fraction(fs)))
  {
    DecimalParseAt(t, ds, fs);
    PlainQuantity(t, Value(ds) as real + Fraction(fs));
  }

  lemma DecimalParseAt(t: string, ds: string, fs: string)
    requires |ds| >= 1 && |t| == |ds| + 1 + |fs| && t[|ds|] == '.'
    requires t[..|ds|] == ds && t[|ds| + 1..] == fs
    requires DigitRun(t, 0) == |ds| && DigitRun(t, |ds| + 1) == |fs|
    ensures ParseFloat(t) == Some(Value(ds) as real + Fraction(fs))
  {
    ParseFloatAt(t, |ds|, |fs|);
    assert t[|ds| + 1..|ds| + 1 + |fs|] == fs;
  }

  lemma DecimalSeparators(ds: string, fs: string, point: string)
    requires AllDigits(ds) && AllDigits(fs) && point == ds + "." + fs
    ensures ',' !in point && '/' !in point
  {
    assert forall i :: 0 <= i < |point| ==> point[i] == '.' || IsDigit(point[i]);
  }

  /** Without a comma or a slash, the quantity is what `parseFloat` reads. */
  lemma PlainQuantity(g: string, v: real)
    requires ',' !in g && '/' !in g && ParseFloat(g) == Some(v)
    ensures QuantityOf(g) == Some(Finite(v))
  {
    assert ReplaceFirstComma(g) == g;
  }

  lemma CommaQuantity(ds: string, fs: string, comma: string, point: string)
    requires AllDigits(ds) && AllDigits(fs) && comma == ds + "," + fs && point == ds + "." + fs
    ensures QuantityOf(comma) == QuantityOf(point)
  {
    CommaReplaced(ds, fs);
    assert ',' !in point;
    assert ReplaceFirstComma(point) == point;
  }

  /** A decimal comma reads as a decimal point: `1,5` and `1.5` are both one and a half. */
  lemma DecimalQuantity(ds: string, fs: string, comma: string, point: string)
    requires |ds| >= 1 && AllDigits(ds) && |fs| >= 1 && AllDigits(fs)
    requires comma == ds + "," + fs && point == ds + "." + fs
    ensures QuantityOf(comma) == QuantityOf(point) == Some(Finite(Value(ds) as real + Fraction(fs)))
  {
    PointQuantity(ds, fs, point);
    CommaQuantity(ds, fs, comma, point);
  }

  lemma SplitAtSlash(ns: string, ds: string)
    requires '/' !in ns && '/' !in ds
    ensures Strings.Split(ns + "/" + ds, '/') == [ns, ds]
  {
    var raw := ns + "/" + ds;
    assert raw[..|ns|] == ns && raw[|ns| + 1..] == ds;
    IndexOfCharFirst(raw, '/', |ns|);
  }

  lemma FractionParts(ns: string, ds: string)
    requires |ns| >= 1 && AllDigits(ns) && |ds| >= 1 && AllDigits(ds)
    ensures QuantityOf(ns + "/" + ds) == Divide(Some(Value(ns) as real), Some(Value(ds) as real))
  {
    var raw := ns + "/" + ds;
    assert '/' !in ns && '/' !in ds && ',' !in ns && ',' !in ds;
    assert raw[|ns|] == '/' && ',' !in raw;
    SplitAtSlash(ns, ds);
    FractionAt(raw, ns, ds);
  }

  /** The fraction `ns/ds`, once `raw` is known to split into its two parts. */
  lemma FractionAt(raw: string, ns: string, ds: string)
    requires |ns| >= 1 && AllDigits(ns) && |ds| >= 1 && AllDigits(ds)
    requires |ns| < |raw| && raw[|ns|] == '/' && ',' !in raw && Strings.Split(raw, '/') == [ns, ds]
    ensures QuantityOf(raw) == Divide(Some(Value(ns) as real), Some(Value(ds) as real))
  {
    assert ReplaceFirstComma(raw) == raw;
    TrimKeeps(ns);
    TrimKeeps(ds);
    ParseFloatDigits(ns);
    ParseFloatDigits(ds);
  }

  /** `a/b` is `a` divided by `b`: a fraction, `Infinity` over zero, nothing for `0/0`. */
  lemma FractionQuantity(ns: string, ds: string)
    requires |ns| >= 1 && AllDigits(ns) && |ds| >= 1 && AllDigits(ds)
    ensures Value(ds) > 0 ==> QuantityOf(ns + "/" + ds) == Some(Finite(Value(ns) as real / Value(ds) as real))
    ensures Value(ds) == 0 && Value(ns) > 0 ==> QuantityOf(ns + "/" + ds) == Some(Infinity)
    ensures Value(ds) == 0 && Value(ns) == 0 ==> QuantityOf(ns + "/" + ds) == None
  {
    FractionParts(ns, ds);
  }

  // ---------------------------------------------------------------------------
  // parseInlineQuantity
  // ---------------------------------------------------------------------------

  /** What is read out of an ingredient written on one line. */
  datatype Parsed = Parsed(quantity: Option<Amount>, unit: Option<string>, text: string)

  /** Every end in `es` lies after `w` and inside `s`. */
  predicate EndsAfter(es: seq<nat>, w: nat, s: string) {
    forall e <- es :: w < e <= |s|
  }

  lemma EndsAfterAppend(a: seq<nat>, b: seq<nat>, w: nat, s: string)
    requires EndsAfter(a, w, s) && EndsAfter(b, w, s)
    ensures EndsAfter(a + b, w, s)
  {
  }

  lemma WordEndAfter(s: string, w: nat, word: string)
    requires |word| > 0
    ensures EndsAfter(WordEnd(s, w, word), w, s)
  {
  }

  lemma SpoonEndsAfter(s: string, w: nat)
    ensures EndsAfter(SpoonEnds(s, w), w, s)
  {
    if WordAt(s, w, "cuillère", true) {
      var plural := if WordAt(s, w + 8, "s", true) then SpoonEnd(s, w + 9) else [];
      SpoonEndAfter(s, w + 9);
      SpoonEndAfter(s, w + 8);
      EndsAfterAppend(plural, SpoonEnd(s, w + 8), w, s);
    }
  }

  lemma SpoonEndAfter(s: string, x: nat)
    ensures EndsAfter(SpoonEnd(s, x), x, s)
  {
  }

  lemma PluralWordEndsAfter(s: string, w: nat, word: string)
    requires |word| > 0
    ensures EndsAfter(PluralWordEnds(s, w, word), w, s)
  {
  }

  lemma UnitEndsAfter(s: string, w: nat)
    ensures forall e <- UnitEnds(s, w) :: w < e <= |s|
  {
    var g, kg, ml, cl := WordEnd(s, w, "g"), WordEnd(s, w, "kg"), WordEnd(s, w, "ml"), WordEnd(s, w, "cl");
    var l, cs, cc := WordEnd(s, w, "l"), WordEnd(s, w, "cs"), WordEnd(s, w, "cc");
    var sp, pi, sa := SpoonEnds(s, w), PluralWordEnds(s, w, "pincée"), PluralWordEnds(s, w, "sachet");
    WordEndAfter(s, w, "g");
    WordEndAfter(s, w, "kg");
    WordEndAfter(s, w, "ml");
    WordEndAfter(s, w, "cl");
    WordEndAfter(s, w, "l");
    WordEndAfter(s, w, "cs");
    WordEndAfter(s, w, "cc");
    SpoonEndsAfter(s, w);
    PluralWordEndsAfter(s, w, "pincée");
    PluralWordEndsAfter(s, w, "sachet");
    EndsAfterAppend(g, kg, w, s);
    EndsAfterAppend(g + kg, ml, w, s);
    EndsAfterAppend(g + kg + ml, cl, w, s);
    EndsAfterAppend(g + kg + ml + cl, l, w, s);
    EndsAfterAppend(g + kg + ml + cl + l, cs, w, s);
    EndsAfterAppend(g + kg + ml + cl + l + cs, cc, w, s);
    EndsAfterAppend(g + kg + ml + cl + l + cs + cc, sp, w, s);
    EndsAfterAppend(g + kg + ml + cl + l + cs + cc + sp, pi, w, s);
    EndsAfterAppend(g + kg + ml + cl + l + cs + cc + sp + pi, sa, w, s);
    assert UnitEnds(s, w) == g + kg + ml + cl + l + cs + cc + sp + pi + sa;
  }

  /** The cut points of a match are in order and inside the name. */
  lemma SplitOrdered(s: string, x: Cut, wholeWord: bool)
    requires Matches(s, x, wholeWord)
    ensures x.intEnd <= x.fracEnd <= x.qtyEnd <= x.unitStart <= x.unitEnd <= x.linkStart <= x.textStart < |s|
  {
    if x.hasUnit {
      UnitEndsAfter(s, x.unitStart);
    }
  }

  /**
   * `parseInlineQuantity(name)`: the quantity, the unit (`match[2]?.trim() || null`)
   * and the trimmed text of the first match; the name unchanged when the
   * pattern does not match or the quantity is NaN. With `wholeWord` false
   * this is the pattern as written.
   */
  function ParseWith(name: string, wholeWord: bool): (r: Parsed)
    ensures r.quantity.None? ==> r == Parsed(None, None, name)
    ensures (forall x :: !Matches(name, x, wholeWord)) ==> r == Parsed(None, None, name)
    ensures r.unit.Some? ==> r.quantity.Some? && r.unit.value != ""
  {
    match MatchQuantity(name, wholeWord)
    case None => Parsed(None, None, name)
    case Some(x) =>
      SplitOrdered(name, x, wholeWord);
      match QuantityOf(name[..x.qtyEnd])
      case None => Parsed(None, None, name)
      case Some(q) =>
        var unit := if x.hasUnit then Trim(name[x.unitStart..x.unitEnd]) else "";
        Parsed(Some(q), if unit == "" then None else Some(unit), Trim(name[x.textStart..]))
  }

  /**
   * A name made of digits alone still needs a text: the greedy number gives
   * its last digit up to `(.+)`, so `300` reads as 30 and the text `0`.
   */
  lemma DigitsOnlyLoseLast(ds: string, d: char, wholeWord: bool)
    requires |ds| >= 1 && AllDigits(ds) && IsDigit(d)
    ensures ParseWith(ds + [d], wholeWord) == Parsed(Some(Finite(Value(ds) as real)), None, [d])
  {
    var s := ds + [d];
    DigitsOnlySlices(ds, d, s);
    MatchDigitsOnly(s, |ds|, wholeWord);
    WholeQuantity(ds);
    LastDigitParse(s, |ds|, wholeWord, Finite(Value(ds) as real));
  }

  lemma DigitsOnlySlices(ds: string, d: char, s: string)
    requires AllDigits(ds) && IsDigit(d) && s == ds + [d]
    ensures AllDigits(s) && s[..|ds|] == ds && s[|ds|..] == [d] && !IsSpace(s[|ds|])
  {
  }

  /**
   * A unit glued to the number at the end of the name is not read as a unit:
   * the text group needs a character, so `250g` reads as 250, no unit, text `g`.
   */
  lemma TrailingUnitIsText(ds: string, s: string, wholeWord: bool)
    requires |ds| >= 1 && AllDigits(ds) && s == ds + "g"
    ensures ParseWith(s, wholeWord) == Parsed(Some(Finite(Value(ds) as real)), None, "g")
  {
    TrailingGramSlices(ds, s);
    TrailingGramMatch(s, |ds|, wholeWord);
    WholeQuantity(ds);
    LastDigitParse(s, |ds|, wholeWord, Finite(Value(ds) as real));
  }

  lemma TrailingGramSlices(ds: string, s: string)
    requires |ds| >= 1 && AllDigits(ds) && s == ds + "g"
    ensures Digits(s, 0, |ds|) && |ds| + 1 == |s| && s[|ds|] == 'g'
    ensures s[..|ds|] == ds && s[|ds|..] == "g" && !IsSpace(s[|ds|])
  {
  }

  /** The parse of a match that leaves only the last character to the text. */
  lemma LastDigitParse(s: string, a: nat, wholeWord: bool, q: Amount)
    requires MatchQuantity(s, wholeWord) == Some(LastDigitCut(a))
    requires a + 1 == |s| && QuantityOf(s[..a]) == Some(q) && !IsSpace(s[a])
    ensures ParseWith(s, wholeWord) == Parsed(Some(q), None, s[a..])
  {
    ParseOfCut(s, LastDigitCut(a), wholeWord, q, None, Trim(s[a..]));
    TrimKeeps(s[a..]);
  }

  /** On digits alone, the match keeps the last digit for the text and reads nothing else. */
  lemma MatchDigitsOnly(s: string, a: nat, wholeWord: bool)
    requires a >= 1 && a + 1 == |s| && AllDigits(s)
    ensures MatchQuantity(s, wholeWord) == Some(LastDigitCut(a))
  {
    NoTextLeft(s, wholeWord);
    LastDigitText(s, a, wholeWord);
    DigitRunIs(s, 0, a + 1);
    MatchOfShorterInt(s, a, wholeWord, LastDigitCut(a));
  }

  /** Taking every character as the number leaves nothing for the text. */
  lemma NoTextLeft(s: string, wholeWord: bool)
    requires AllDigits(s)
    ensures FromInt(s, LastDigitCut(|s|), wholeWord).None?
  {
    var r := FromInt(s, LastDigitCut(|s|), wholeWord);
    if r.Some? {
      SplitOrdered(s, r.value, wholeWord);
    }
  }

  /** A name that does not start with a digit is shown as it is: `sel et poivre`. */
  lemma NoDigitNoQuantity(name: string, wholeWord: bool)
    requires name == "" || !IsDigit(name[0])
    ensures ParseWith(name, wholeWord) == Parsed(None, None, name)
  {
  }

  /** The parse of a name, read off the cut points of its match. */
  lemma ParseOfCut(name: string, x: Cut, wholeWord: bool, q: Amount, unit: Option<string>, text: string)
    requires MatchQuantity(name, wholeWord) == Some(x)
    requires x.qtyEnd <= |name| && QuantityOf(name[..x.qtyEnd]) == Some(q)
    requires x.hasUnit ==> x.unitStart <= x.unitEnd <= |name|
    requires unit == (if x.hasUnit && Trim(name[x.unitStart..x.unitEnd]) != "" then Some(Trim(name[x.unitStart..x.unitEnd])) else None)
    requires x.textStart <= |name| && text == Trim(name[x.textStart..])
    ensures ParseWith(name, wholeWord) == Parsed(Some(q), unit, text)
  {
  }

  /** The unit read from a single `g`. */
  lemma GramUnit(s: string, i: nat)
    requires i < |s| && s[i] == 'g'
    ensures Trim(s[i..i + 1]) == "g"
  {
    var g := s[i..i + 1];
    assert g == "g";
    TrimKeeps(g);
  }

  lemma WeighedSlices(ds: string, w: string, s: string)
    requires s == ds + " g de " + w
    ensures s[..|ds|] == ds && s[|ds| + 1] == 'g' && s[|ds| + 6..] == w
  {
  }

  lemma GluedSlices(ds: string, w: string, s: string)
    requires s == ds + " g" + w
    ensures s[..|ds|] == ds && s[|ds| + 1] == 'g' && s[|ds| + 2..] == w
    ensures s[|ds| + 1..] == "g" + w
  {
  }

  /** `3 oeufs entiers` reads as three, no unit, `oeufs entiers`. */
  lemma CountedItem(ds: string, w: string, s: string, wholeWord: bool)
    requires |ds| >= 1 && AllDigits(ds) && |w| >= 1 && s == ds + " " + w
    requires !IsSpace(w[0]) && w[0] != '/' && !UnitInitial(w[0]) && Canon(w[0]) != 'D'
    requires forall j :: 0 <= j < |w| ==> !LineTerminator(w[j])
    ensures ParseWith(s, wholeWord) == Parsed(Some(Finite(Value(ds) as real)), None, Trim(w))
  {
    MatchCounted(ds, w, s, wholeWord);
    CountedSlices(ds, w, s);
    WholeQuantity(ds);
    CountedParse(s, |ds|, w, wholeWord, Finite(Value(ds) as real));
  }

  lemma CountedSlices(ds: string, w: string, s: string)
    requires s == ds + " " + w
    ensures s[..|ds|] == ds && s[|ds| + 1..] == w
  {
  }

  /** The parse of a match that reads no unit. */
  lemma CountedParse(s: string, a: nat, w: string, wholeWord: bool, q: Amount)
    requires MatchQuantity(s, wholeWord) == Some(CountedCut(a))
    requires a + 1 <= |s| && s[a + 1..] == w && QuantityOf(s[..a]) == Some(q)
    ensures ParseWith(s, wholeWord) == Parsed(Some(q), None, Trim(w))
  {
    ParseOfCut(s, CountedCut(a), wholeWord, q, None, Trim(w));
  }

  /** `300 g de farine` reads as 300, unit `g`, `farine`. */
  lemma WeighedItem(ds: string, w: string, s: string, wholeWord: bool)
    requires |ds| >= 1 && AllDigits(ds) && |w| >= 1 && !IsSpace(w[0]) && s == ds + " g de " + w
    requires forall j :: 0 <= j < |w| ==> !LineTerminator(w[j])
    ensures ParseWith(s, wholeWord) == Parsed(Some(Finite(Value(ds) as real)), Some("g"), Trim(w))
  {
    MatchWeighed(ds, w, s, wholeWord);
    WeighedSlices(ds, w, s);
    WholeQuantity(ds);
    WeighedParse(s, |ds|, w, wholeWord, Finite(Value(ds) as real));
  }

  /** The parse of a match that reads the unit `g` and the linker `de`. */
  lemma WeighedParse(s: string, a: nat, w: string, wholeWord: bool, q: Amount)
    requires MatchQuantity(s, wholeWord) == Some(WeighedCut(a))
    requires a + 6 <= |s| && s[a + 1] == 'g' && s[a + 6..] == w && QuantityOf(s[..a]) == Some(q)
    ensures ParseWith(s, wholeWord) == Parsed(Some(q), Some("g"), Trim(w))
  {
    GramUnit(s, a + 1);
    ParseOfCut(s, WeighedCut(a), wholeWord, q, Some("g"), Trim(w));
  }

  /**
   * As written, a word starting with a unit's letters loses them to the
   * unit: `3 gousses d'ail` reads as 3, unit `g`, `ousses d'ail`.
   */
  lemma UnitSwallowsLetter(ds: string, w: string, s: string)
    requires |ds| >= 1 && AllDigits(ds) && |w| >= 1 && IsLetter(w[0]) && Canon(w[0]) != 'D' && s == ds + " g" + w
    requires forall j :: 0 <= j < |w| ==> !LineTerminator(w[j])
    ensures ParseWith(s, false) == Parsed(Some(Finite(Value(ds) as real)), Some("g"), Trim(w))
  {
    GluedShapeOf(ds, w, s);
    GluedSearch(s, |ds|, false);
    GluedSlices(ds, w, s);
    WholeQuantity(ds);
    GluedParse(s, |ds|, w, Finite(Value(ds) as real));
  }

  /** The parse of a match that cuts a lone `g` off the word after it. */
  lemma GluedParse(s: string, a: nat, w: string, q: Amount)
    requires MatchQuantity(s, false) == Some(GluedAsWritten(a))
    requires a + 2 <= |s| && s[a + 1] == 'g' && s[a + 2..] == w
    requires QuantityOf(s[..a]) == Some(q)
    ensures ParseWith(s, false) == Parsed(Some(q), Some("g"), Trim(w))
  {
    GramUnit(s, a + 1);
    ParseOfCut(s, GluedAsWritten(a), false, q, Some("g"), Trim(w));
  }

  /** With whole-word units, `3 gousses d'ail` reads as 3, no unit, `gousses d'ail`. */
  lemma UnitIsWholeWord(ds: string, w: string, s: string)
    requires |ds| >= 1 && AllDigits(ds) && |w| >= 1 && IsLetter(w[0]) && Canon(w[0]) != 'D' && s == ds + " g" + w
    requires forall j :: 0 <= j < |w| ==> !LineTerminator(w[j])
    ensures ParseWith(s, true) == Parsed(Some(Finite(Value(ds) as real)), None, Trim("g" + w))
  {
    GluedShapeOf(ds, w, s);
    GluedSearch(s, |ds|, true);
    GluedSlices(ds, w, s);
    WholeQuantity(ds);
    GluedWholeParse(s, |ds|, w, Finite(Value(ds) as real));
  }

  /** The parse of a match that leaves the `g` to the word it starts. */
  lemma GluedWholeParse(s: string, a: nat, w: string, q: Amount)
    requires MatchQuantity(s, true) == Some(GluedWhole(a))
    requires a + 2 <= |s| && s[a + 1] == 'g' && s[a + 2..] == w && QuantityOf(s[..a]) == Some(q)
    ensures ParseWith(s, true) == Parsed(Some(q), None, Trim("g" + w))
  {
    var x := GluedWhole(a);
    assert x.qtyEnd == a && !x.hasUnit && x.textStart == a + 1;
    TailOfGlued(s, a, w);
    ParseOfCut(s, x, true, q, None, Trim("g" + w));
  }

  lemma TailOfGlued(s: string, a: nat, w: string)
    requires a + 2 <= |s| && s[a + 1] == 'g' && s[a + 2..] == w
    ensures s[a + 1..] == "g" + w
  {
    assert s[a + 1..] == [s[a + 1]] + s[a + 2..];
  }

  /** With whole-word units, a unit that is read is never followed by a letter. */
  lemma UnitNotGlued(name: string, x: Cut)
    requires MatchQuantity(name, true) == Some(x) && x.hasUnit
    ensures x.unitEnd == |name| || !IsLetter(name[x.unitEnd])
  {
  }

  // ---------------------------------------------------------------------------
  // renderIngredient
  // ---------------------------------------------------------------------------

  /** An ingredient as stored: the whole description may sit in `name`. */
  datatype Ingredient = Ingredient(name: string, quantity: Option<real>, unit: Option<string>, note: Option<string>)

  /**
   * What one ingredient line shows: an amount to scale by the multiplier,
   * with its unit, text and note, or the name as it is.
   */
  datatype Line =
    | Scaled(amount: Amount, multiplier: real, unit: Option<string>, text: string, note: Option<string>)
    | Plain(text: string)

  /** A field shown only when it is truthy: present and non-empty. */
  function Shown(f: Option<string>): (r: Option<string>)
    ensures r.Some? <==> f.Some? && f.value != ""
    ensures r.Some? ==> r == f
  {
    if f.Some? && f.value != "" then f else None
  }

  /**
   * `renderIngredient(item, multiplier)`: a stored quantity is shown with
   * the stored unit, name and note; otherwise the name is parsed, and shown
   * as it is when no quantity is found in it. With `wholeWord` false the
   * name is parsed by the pattern as written; true gives the corrected
   * whole-word units.
   */
  function Render(item: Ingredient, multiplier: real, wholeWord: bool): (r: Line)
    ensures item.quantity.Some? ==> r == Scaled(Finite(item.quantity.value), multiplier, Shown(item.unit), item.name, Shown(item.note))
    ensures item.quantity.None? ==> (r.Scaled? <==> ParseWith(item.name, wholeWord).quantity.Some?)
    ensures item.quantity.None? && r.Scaled? ==> r.note.None?
    ensures r.Plain? ==> r.text == item.name
  {
    if item.quantity.Some? then
      Scaled(Finite(item.quantity.value), multiplier, Shown(item.unit), item.name, Shown(item.note))
    else
      var parsed := ParseWith(item.name, wholeWord);
      if parsed.quantity.Some? then Scaled(parsed.quantity.value, multiplier, parsed.unit, parsed.text, None)
      else Plain(item.name)
  }

  /**
   * As written, `3 gousses d'ail` stored without a quantity is shown as 3
   * scaled, unit `g`, text `ousses d'ail`; with whole-word units, as 3
   * scaled, no unit, text `gousses d'ail`.
   */
  lemma RenderGlued(ds: string, w: string, s: string, multiplier: real)
    requires |ds| >= 1 && AllDigits(ds) && |w| >= 1 && IsLetter(w[0]) && Canon(w[0]) != 'D' && s == ds + " g" + w
    requires forall j :: 0 <= j < |w| ==> !LineTerminator(w[j])
    ensures Render(Ingredient(s, None, None, None), multiplier, false)
      == Scaled(Finite(Value(ds) as real), multiplier, Some("g"), Trim(w), None)
    ensures Render(Ingredient(s, None, None, None), multiplier, true)
      == Scaled(Finite(Value(ds) as real), multiplier, None, Trim("g" + w), None)
  {
    UnitSwallowsLetter(ds, w, s);
    UnitIsWholeWord(ds, w, s);
  }

  // ---------------------------------------------------------------------------
  // The servings stepper
  // ---------------------------------------------------------------------------

  /** The servings control of the list: the recipe's servings and the number asked for. */
  class ServingsStepper {
    const servings: Option<real>
    var target: real

    /** `useState(servings ?? 0)`. */
    constructor(servings: Option<real>)
      ensures this.servings == servings
      ensures target == servings.GetOr(0.0)
    {
      this.servings := servings;
      target := servings.GetOr(0.0);
    }

    /** `servings !== undefined && servings > 0`: the controls are shown only then. */
    predicate HasServings() {
      servings.Some? && servings.value > 0.0
    }

    /** The factor every quantity is multiplied by. */
    function Multiplier(): (m: real)
      reads this
      ensures HasServings() ==> m * servings.value == target
      ensures !HasServings() ==> m == 1.0
    {
      if HasServings() then target / servings.value else 1.0
    }

    /** Whether the reset button is shown: the quantities are scaled. */
    function IsModified(): (b: bool)
      reads this
      ensures b <==> Multiplier() != 1.0
    {
      HasServings() && target != servings.value
    }

    /** The minus button is disabled at one serving or fewer. */
    function MinusEnabled(): (b: bool)
      reads this
    {
      !(target <= 1.0)
    }

    /** The minus button: one fewer, never below one. */
    method Minus()
      modifies this
      ensures target == (if old(target) - 1.0 > 1.0 then old(target) - 1.0 else 1.0)
      ensures target >= 1.0
      ensures old(MinusEnabled()) ==> target < old(target)
    {
      target := if target - 1.0 > 1.0 then target - 1.0 else 1.0;
    }

    /** The plus button: one more. */
    method Plus()
      modifies this
      ensures target == old(target) + 1.0
    {
      target := target + 1.0;
    }

    /** The reset button, shown with the controls: back to the recipe's servings. */
    method Reset()
      requires HasServings()
      modifies this
      ensures target == servings.value
      ensures !IsModified() && Multiplier() == 1.0
    {
      target := servings.value;
    }
  }
}
