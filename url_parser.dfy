/**
 * `parseRecipeFromHtml`: the URL importer. It looks for a schema.org
 * `Recipe` in the page's JSON-LD blocks, turns its fields into a
 * `ParsedRecipe`, and falls back to the page's first `<h1>` or `<title>`.
 *
 * The HTML itself is not parsed here: a page is given as what the importer
 * reads from it (the text of each `application/ld+json` script, the first
 * `<h1>`'s text and the `<title>` text), and `JSON.parse` is a parameter.
 */
module UrlParser {
  import opened Wrappers
  import opened Strings
  import opened Regex
  import opened Json
  import opened RecipeTypes
  import opened ParserTypes
  import opened Seqs

  // ---------------------------------------------------------------------------
  // parseISO8601Duration
  // ---------------------------------------------------------------------------

  /** The length of the run of ASCII digits that starts `s`. */
  function DigitRun(s: string): (k: nat)
    ensures k <= |s|
    ensures forall j :: 0 <= j < k ==> IsDigit(s[j])
    ensures k < |s| ==> !IsDigit(s[k])
  {
    RunLength(s, 0, Digit, false, Unbounded)
  }

  /**
   * The optional group `(?:(\d+)U)?` tried at the start of `t`: the number it
   * captures and how many characters it takes, or `0` and `0` when the group
   * is skipped. Giving digits back cannot help, since the character after a
   * shorter run is a digit.
   */
  function UnitGroup(t: string, unit: char): (r: (nat, nat))
    ensures r.1 <= |t|
    ensures r.1 == 0 ==> r.0 == 0
  {
    var k := DigitRun(t);
    if k >= 1 && k < |t| && t[k] == unit then (Value(t[..k]), k + 1) else (0, 0)
  }

  /** The hour group, then the minute group, read from the start of `t`, in minutes; zero counts as no duration. */
  function FieldsAfter(t: string): (r: Option<nat>)
    ensures r.Some? ==> r.value > 0
  {
    var hours := UnitGroup(t, 'H');
    var minutes := UnitGroup(t[hours.1..], 'M');
    if hours.0 * 60 + minutes.0 == 0 then None else Some(hours.0 * 60 + minutes.0)
  }

  /**
   * `parseISO8601Duration`: minutes from the hour and minute fields that
   * follow the first `PT`; seconds are matched and ignored, and a total of
   * zero counts as no duration.
   */
  function IsoDuration(d: string): (r: Option<nat>)
    ensures r.Some? ==> r.value > 0
    ensures !Contains(d, "PT") ==> r.None?
  {
    if d == "" then None
    else match IndexOf(d, "PT", 0)
      case None => None
      case Some(p) => FieldsAfter(d[p + 2..])
  }

  /** The digit run of `ds + t` is `ds` when `t` does not start with a digit. */
  lemma DigitRunOf(ds: string, t: string)
    requires AllDigits(ds)
    requires t == [] || !IsDigit(t[0])
    ensures DigitRun(ds + t) == |ds|
  {
    var s := ds + t;
    forall j | 0 <= j < |ds| ensures IsDigit(s[j]) {
      assert s[j] == ds[j];
    }
    if t != [] {
      assert s[|ds|] == t[0];
    }
  }

  /** A field written as digits and its unit letter is read as their value, and the group takes both. */
  lemma UnitGroupOf(ds: string, unit: char, t: string)
    requires !IsDigit(unit) && AllDigits(ds) && ds != []
    ensures UnitGroup(ds + ([unit] + t), unit) == (Value(ds), |ds| + 1)
  {
    var s := ds + ([unit] + t);
    DigitRunOf(ds, [unit] + t);
    assert s[..|ds|] == ds;
    assert s[|ds|] == unit;
  }

  /** A group whose digits are followed by another letter is skipped. */
  lemma UnitGroupSkipped(ds: string, unit: char, other: char, t: string)
    requires !IsDigit(other) && other != unit && AllDigits(ds)
    ensures UnitGroup(ds + ([other] + t), unit) == (0, 0)
  {
    var s := ds + ([other] + t);
    DigitRunOf(ds, [other] + t);
    assert s[|ds|] == other;
  }

  /** A text that does not start with a digit holds no group. */
  lemma NoGroup(t: string, unit: char)
    requires t == [] || !IsDigit(t[0])
    ensures UnitGroup(t, unit) == (0, 0)
  {
  }

  /** A string that starts with `PT` is read from right after it. */
  lemma PtAtStart(t: string)
    ensures IsoDuration("PT" + t) == FieldsAfter(t)
  {
    var d := "PT" + t;
    assert OccursAt(d, "PT", 0) by { assert d[0..2] == "PT"; }
    assert IndexOf(d, "PT", 0) == Some(0);
    assert d[2..] == t;
  }

  /** The groups read `<hours>H<minutes>M` for digit strings. */
  lemma BothFields(hs: string, ms: string, rest: string, h: nat, m: nat)
    requires AllDigits(hs) && hs != [] && AllDigits(ms) && ms != []
    requires h == Value(hs) && m == Value(ms)
    ensures FieldsAfter(hs + ("H" + (ms + ("M" + rest)))) == if h * 60 + m == 0 then None else Some(h * 60 + m)
  {
    var tail := ms + ("M" + rest);
    var t := hs + ("H" + tail);
    UnitGroupOf(hs, 'H', tail);
    assert t[|hs| + 1..] == tail;
    UnitGroupOf(ms, 'M', rest);
    FieldsRead(t, h, |hs| + 1, m);
  }

  /** `FieldsAfter` in terms of what its two groups read. */
  lemma FieldsRead(t: string, h: nat, k: nat, m: nat)
    requires k <= |t| && UnitGroup(t, 'H') == (h, k) && UnitGroup(t[k..], 'M').0 == m
    ensures FieldsAfter(t) == if h * 60 + m == 0 then None else Some(h * 60 + m)
  {
  }

  /** `PT<h>H<m>M…` is read back as `h * 60 + m` minutes, seconds or anything else after it ignored. */
  lemma DurationRoundTrip(h: nat, m: nat, rest: string)
    ensures IsoDuration("PT" + NatToString(h) + "H" + NatToString(m) + "M" + rest)
         == if h * 60 + m == 0 then None else Some(h * 60 + m)
  {
    DurationOfDigits(NatToString(h), NatToString(m), rest, h, m);
  }

  /** `PT<hs>H<ms>M…` for digit strings `hs` and `ms`. */
  lemma DurationOfDigits(hs: string, ms: string, rest: string, h: nat, m: nat)
    requires AllDigits(hs) && hs != [] && AllDigits(ms) && ms != []
    requires h == Value(hs) && m == Value(ms)
    ensures IsoDuration("PT" + hs + "H" + ms + "M" + rest) == if h * 60 + m == 0 then None else Some(h * 60 + m)
  {
    var t := hs + ("H" + (ms + ("M" + rest)));
    FieldsRegrouped(hs, ms, rest);
    BothFields(hs, ms, rest, h, m);
    PtAtStart(t);
  }

  lemma FieldsRegrouped(hs: string, ms: string, rest: string)
    ensures "PT" + hs + "H" + ms + "M" + rest == "PT" + (hs + ("H" + (ms + ("M" + rest))))
  {
  }

  /** `PT<minutes>M…` for a digit string. */
  lemma MinutesField(ms: string, rest: string, m: nat)
    requires AllDigits(ms) && ms != [] && m == Value(ms)
    ensures FieldsAfter(ms + ("M" + rest)) == if m == 0 then None else Some(m)
  {
    var t := ms + ("M" + rest);
    UnitGroupSkipped(ms, 'H', 'M', rest);
    UnitGroupOf(ms, 'M', rest);
    assert t[0..] == t;
    FieldsRead(t, 0, 0, m);
  }

  /** `PT<m>M…`: a duration in minutes only. */
  lemma MinutesOnlyRoundTrip(m: nat, rest: string)
    ensures IsoDuration("PT" + NatToString(m) + "M" + rest) == if m == 0 then None else Some(m)
  {
    var ms := NatToString(m);
    assert "PT" + ms + "M" + rest == "PT" + (ms + ("M" + rest));
    MinutesField(ms, rest, m);
    PtAtStart(ms + ("M" + rest));
  }

  /** `<hours>H` and a rest that does not start with a digit. */
  lemma HoursField(hs: string, rest: string, h: nat)
    requires AllDigits(hs) && hs != [] && h == Value(hs)
    requires rest == "" || !IsDigit(rest[0])
    ensures FieldsAfter(hs + ("H" + rest)) == if h == 0 then None else Some(h * 60)
  {
    var t := hs + ("H" + rest);
    UnitGroupOf(hs, 'H', rest);
    assert t[|hs| + 1..] == rest;
    NoGroup(rest, 'M');
    FieldsRead(t, h, |hs| + 1, 0);
  }

  /** `PT<h>H`, followed by something that is not a minute field: a duration in whole hours. */
  lemma HoursOnlyRoundTrip(h: nat, rest: string)
    requires rest == "" || !IsDigit(rest[0])
    ensures IsoDuration("PT" + NatToString(h) + "H" + rest) == if h == 0 then None else Some(h * 60)
  {
    var hs := NatToString(h);
    assert "PT" + hs + "H" + rest == "PT" + (hs + ("H" + rest));
    HoursField(hs, rest, h);
    PtAtStart(hs + ("H" + rest));
  }

  /** `"PT1H30M"` is 90 minutes. */
  lemma HourAndHalfExample()
    ensures IsoDuration("PT1H30M") == Some(90)
  {
    assert "PT" + "1" + "H" + "30" + "M" + "" == "PT1H30M";
    assert NatToString(1) == "1";
    assert NatToString(30) == "30";
    DurationRoundTrip(1, 30, "");
  }

  /** `"PT45M"` is 45 minutes. */
  lemma MinutesExample()
    ensures IsoDuration("PT45M") == Some(45)
  {
    assert "PT" + "45" + "M" + "" == "PT45M";
    assert NatToString(45) == "45";
    MinutesOnlyRoundTrip(45, "");
  }

  /** `"PT10M30S"`: the seconds are ignored. */
  lemma SecondsIgnoredExample()
    ensures IsoDuration("PT10M30S") == Some(10)
  {
    assert "PT" + "10" + "M" + "30S" == "PT10M30S";
    assert NatToString(10) == "10";
    MinutesOnlyRoundTrip(10, "30S");
  }

  /** `"P1DT2H"` has no adjacent `PT`, so it gives no duration, and neither does `""`. */
  lemma NoDurationExamples()
    ensures IsoDuration("P1DT2H") == None
    ensures IsoDuration("") == None
  {
    var d := "P1DT2H";
    assert d[0] == 'P' && d[1] == '1' && d[2] == 'D' && d[3] == 'T' && d[4] == '2' && d[5] == 'H';
    forall i | 0 <= i
      ensures !OccursAt(d, "PT", i)
    {
      if i + 2 <= |d| {
        assert d[i..i + 2][0] == d[i] && d[i..i + 2][1] == d[i + 1];
        assert d[i] != 'P' || d[i + 1] != 'T';
      }
    }
  }

  // ---------------------------------------------------------------------------
  // mapCategory
  // ---------------------------------------------------------------------------

  /** `CATEGORY_MAP`, in the order `Object.entries` lists it. */
  const CategoryTable: seq<(string, Category)> := [
    ("apéritif", Apero), ("apéro", Apero), ("aperitif", Apero),
    ("entrée", Entree), ("entree", Entree),
    ("plat", Plat), ("plat principal", Plat),
    ("accompagnement", Accompagnement),
    ("sauce", Sauce),
    ("dessert", Dessert),
    ("boisson", Boisson), ("cocktail", Boisson),
    ("petit-déjeuner", PetitDejeuner), ("petit déjeuner", PetitDejeuner),
    ("goûter", Gouter), ("gouter", Gouter),
    ("pain", PainViennoiserie), ("viennoiserie", PainViennoiserie),
    ("conserve", Conserve), ("confiture", Conserve),
    ("appetizer", Apero),
    ("starter", Entree),
    ("main course", Plat), ("main dish", Plat),
    ("side dish", Accompagnement), ("side", Accompagnement),
    ("breakfast", PetitDejeuner),
    ("snack", Gouter),
    ("drink", Boisson), ("beverage", Boisson),
    ("bread", PainViennoiserie)
  ]

  /** The own property `table[n]`: the value of the entry whose key is `n`. */
  function ExactIn(table: seq<(string, Category)>, n: string): (r: Option<Category>)
    ensures r.Some? ==> exists i :: 0 <= i < |table| && table[i] == (n, r.value)
    ensures r.None? ==> forall i :: 0 <= i < |table| ==> table[i].0 != n
  {
    if table == [] then None
    else if table[0].0 == n then Some(table[0].1)
    else
      var r := ExactIn(table[1..], n);
      assert r.Some? ==> exists i :: 0 <= i < |table[1..]| && table[1..][i] == (n, r.value);
      r
  }

  /** The partial search: `normalized.includes(key) || key.includes(normalized)`. */
  predicate KeyMatches(n: string, key: string) {
    Contains(n, key) || Contains(key, n)
  }

  /** The value of the first entry of `table` whose key the partial search accepts. */
  function PartialIn(table: seq<(string, Category)>, n: string): (r: Option<Category>)
    ensures r.Some? ==> exists i :: 0 <= i < |table| && table[i].1 == r.value
                                   && KeyMatches(n, table[i].0)
                                   && forall j :: 0 <= j < i ==> !KeyMatches(n, table[j].0)
    ensures r.None? ==> forall i :: 0 <= i < |table| ==> !KeyMatches(n, table[i].0)
  {
    if table == [] then None
    else if KeyMatches(n, table[0].0) then Some(table[0].1)
    else
      var r := PartialIn(table[1..], n);
      if r.Some? then
        var i :| 0 <= i < |table[1..]| && table[1..][i].1 == r.value
                 && KeyMatches(n, table[1..][i].0)
                 && forall j :: 0 <= j < i ==> !KeyMatches(n, table[1..][j].0);
        assert table[i + 1] == table[1..][i];
        assert forall j :: 1 <= j < i + 1 ==> table[j] == table[1..][j - 1];
        r
      else r
  }

  /** The partial search stops at the first entry it accepts. */
  lemma PartialFirst(table: seq<(string, Category)>, n: string, k: nat)
    requires k < |table| && KeyMatches(n, table[k].0)
    requires forall j :: 0 <= j < k ==> !KeyMatches(n, table[j].0)
    ensures PartialIn(table, n) == Some(table[k].1)
  {
  }

  function ExactCategory(n: string): Option<Category> {
    ExactIn(CategoryTable, n)
  }

  function PartialCategory(n: string): Option<Category> {
    PartialIn(CategoryTable, n)
  }

  /** What one normalised category string maps to: the exact key first, then the partial search. */
  function CategoryOf(n: string): Option<Category> {
    var exact := ExactCategory(n);
    if exact.Some? then exact else PartialCategory(n)
  }

  /** `cat.toLowerCase().trim()`. */
  function Normalize(s: string): string {
    Trim(Lower(s))
  }

  /**
   * The loop over the candidate categories: the first one that maps decides;
   * a candidate that is not a string throws on `toLowerCase`; `plat` when
   * none maps.
   */
  function CategoryOfList(cats: seq<Json>): Outcome<Category> {
    if cats == [] then Ok(Plat)
    else if !cats[0].JString? then Throws
    else match CategoryOf(Normalize(cats[0].s))
      case Some(c) => Ok(c)
      case None => CategoryOfList(cats[1..])
  }

  /** The candidates `mapCategory` tries: the array's elements, or the value alone. */
  function Candidates(raw: Json): seq<Json> {
    if raw.JArray? then raw.items else [raw]
  }

  /** `mapCategory`, with the own-property lookup (see `MappedCategoryAsWritten` for the code as written). */
  function MappedCategory(raw: Option<Json>): (r: Outcome<Category>)
    ensures !Truthy(raw) ==> r == Ok(Plat)
  {
    if !Truthy(raw) then Ok(Plat) else CategoryOfList(Candidates(raw.value))
  }

  /** The candidates before `i` are strings that map to nothing. */
  predicate NoneBefore(cats: seq<Json>, i: nat)
    requires i <= |cats|
  {
    forall j :: 0 <= j < i ==> cats[j].JString? && CategoryOf(Normalize(cats[j].s)).None?
  }

  /** Candidates that are unmapped strings are passed over. */
  lemma {:induction false} CategoryListSkips(cats: seq<Json>, i: nat)
    requires i <= |cats| && NoneBefore(cats, i)
    ensures CategoryOfList(cats) == CategoryOfList(cats[i..])
  {
    if i > 0 {
      assert NoneBefore(cats[1..], i - 1) by {
        forall j | 0 <= j < i - 1 ensures cats[1..][j] == cats[j + 1] { }
      }
      CategoryListSkips(cats[1..], i - 1);
      assert cats[1..][i - 1..] == cats[i..];
    }
  }

  /**
   * The candidates are tried in order, and the first one that is not an
   * unmapped string decides: a non-string throws, a string that maps gives
   * its category; `plat` when every candidate is an unmapped string.
   */
  lemma CategoryListOrder(cats: seq<Json>, i: nat)
    requires i <= |cats| && NoneBefore(cats, i)
    ensures i < |cats| && !cats[i].JString? ==> CategoryOfList(cats) == Throws
    ensures i < |cats| && cats[i].JString? && CategoryOf(Normalize(cats[i].s)).Some?
            ==> CategoryOfList(cats) == Ok(CategoryOf(Normalize(cats[i].s)).value)
    ensures i == |cats| ==> CategoryOfList(cats) == Ok(Plat)
  {
    CategoryListSkips(cats, i);
  }

  /** `mapCategory` as the code runs it: a loop over the candidates, and for each one a loop over the table. */
  method MapCategory(raw: Option<Json>) returns (r: Outcome<Category>)
    ensures r == MappedCategory(raw)
  {
    if !Truthy(raw) {
      return Ok(Plat);
    }
    var categories := Candidates(raw.value);
    for i := 0 to |categories|
      invariant CategoryOfList(categories[i..]) == CategoryOfList(categories)
    {
      assert categories[i..][1..] == categories[i + 1..];
      var cat := categories[i];
      if !cat.JString? {
        return Throws;
      }
      var normalized := Normalize(cat.s);
      var exact := ExactCategory(normalized);
      if exact.Some? {
        return Ok(exact.value);
      }
      for k := 0 to |CategoryTable|
        invariant forall j :: 0 <= j < k ==> !KeyMatches(normalized, CategoryTable[j].0)
      {
        var (key, value) := CategoryTable[k];
        if Contains(normalized, key) || Contains(key, normalized) {
          PartialFirst(CategoryTable, normalized, k);
          return Ok(value);
        }
      }
      assert PartialCategory(normalized).None?;
    }
    assert categories[|categories|..] == [];
    return Ok(Plat);
  }

  /** No key of `CATEGORY_MAP` is empty. */
  lemma KeysNonEmpty()
    ensures forall i :: 0 <= i < |CategoryTable| ==> CategoryTable[i].0 != ""
  {
  }

  /** The keys of `CATEGORY_MAP` are pairwise distinct. */
  lemma TableKeys()
    ensures forall i, j :: 0 <= i < j < |CategoryTable| ==> CategoryTable[i].0 != CategoryTable[j].0
  {
    KeysDistinctLow();
    KeysDistinctHigh();
  }

  lemma KeysDistinctLow()
    ensures forall i, j :: 0 <= i < j < 16 ==> CategoryTable[i].0 != CategoryTable[j].0
  {
  }

  lemma KeysDistinctHigh()
    ensures forall i, j :: 0 <= i < j < |CategoryTable| && 16 <= j ==> CategoryTable[i].0 != CategoryTable[j].0
  {
  }

  /** Every key of the table maps to its own value: the exact lookup answers before the partial search is tried. */
  lemma KeysMapExactly()
    ensures forall i :: 0 <= i < |CategoryTable| ==> CategoryOf(CategoryTable[i].0) == Some(CategoryTable[i].1)
  {
    TableKeys();
  }

  /** `""` is no key, but every key contains it, so the partial search stops at the first entry. */
  lemma EmptyCategory()
    ensures CategoryOf("") == Some(Apero)
  {
    KeysNonEmpty();
    assert OccursAt(CategoryTable[0].0, "", 0);
    PartialFirst(CategoryTable, "", 0);
  }

  /** A whitespace-only category trims to `""`, which maps to `apéritif`. */
  lemma WhitespaceIsApero(s: string)
    requires s != "" && AllSpace(s)
    ensures MappedCategory(Some(JString(s))) == Ok(Apero)
  {
    BlankNormalizes(s);
    EmptyCategory();
    SingleCandidate(s, Apero);
  }

  lemma BlankNormalizes(s: string)
    requires AllSpace(s)
    ensures Normalize(s) == ""
  {
    assert AllSpace(Lower(s)) by {
      forall i | 0 <= i < |s| ensures IsSpace(Lower(s)[i]) {
        assert Lower(s)[i] == s[i];
      }
    }
  }

  /** A single non-empty string is mapped as its normalised text is. */
  lemma SingleCandidate(s: string, c: Category)
    requires s != "" && CategoryOf(Normalize(s)) == Some(c)
    ensures MappedCategory(Some(JString(s))) == Ok(c)
  {
    var cats := [JString(s)];
    assert Candidates(JString(s)) == cats;
    FirstCandidate(cats, c);
  }

  lemma FirstCandidate(cats: seq<Json>, c: Category)
    requires cats != [] && cats[0].JString? && CategoryOf(Normalize(cats[0].s)) == Some(c)
    ensures CategoryOfList(cats) == Ok(c)
  {
  }

  // ---------------------------------------------------------------------------
  // mapCategory as written: the lookup also reaches Object.prototype
  // ---------------------------------------------------------------------------

  /**
   * The names of `Object.prototype` members that a lower-cased key can reach:
   * property lookup is case-sensitive and the other inherited names
   * (`hasOwnProperty`, `__defineGetter__`, …) hold capitals, so only these
   * two are hit; `CATEGORY_MAP[n]` is truthy for each of them.
   */
  const InheritedMembers: seq<string> := ["constructor", "__proto__"]

  /** What the table lookup produces as written: an entry's category, or an inherited member that is no category. */
  datatype Lookup = Entry(category: Category) | InheritedValue(name: string)

  /** `CATEGORY_MAP[n]` as written: an own key first, then an inherited member of the same name. */
  function LookupAsWritten(n: string): Option<Lookup> {
    match ExactCategory(n)
    case Some(c) => Some(Entry(c))
    case None => if n in InheritedMembers then Some(InheritedValue(n)) else None
  }

  function CategoryOfListAsWritten(cats: seq<Json>): Outcome<Lookup> {
    if cats == [] then Ok(Entry(Plat))
    else if !cats[0].JString? then Throws
    else
      var n := Normalize(cats[0].s);
      match LookupAsWritten(n)
      case Some(v) => Ok(v)
      case None =>
        match PartialCategory(n)
        case Some(c) => Ok(Entry(c))
        case None => CategoryOfListAsWritten(cats[1..])
  }

  /** `mapCategory` exactly as written, bracket lookup included. */
  function MappedCategoryAsWritten(raw: Option<Json>): (r: Outcome<Lookup>)
    ensures !Truthy(raw) ==> r == Ok(Entry(Plat))
  {
    if !Truthy(raw) then Ok(Entry(Plat)) else CategoryOfListAsWritten(Candidates(raw.value))
  }

  /** No inherited name is a key of the table. */
  lemma InheritedNotKeys()
    ensures forall i, j :: 0 <= i < |CategoryTable| && 0 <= j < |InheritedMembers| ==> CategoryTable[i].0 != InheritedMembers[j]
  {
  }

  lemma InheritedNotExact(n: string)
    requires n in InheritedMembers
    ensures ExactCategory(n) == None
  {
    InheritedNotKeys();
  }

  /**
   * A category that normalises to an inherited name is no key of the table,
   * yet the bracket lookup finds the inherited member and returns it, so the
   * recipe's category is none of the eleven; the own-key lookup returns a
   * category instead.
   */
  lemma InheritedNameCategory(s: string)
    requires Normalize(s) in InheritedMembers
    ensures MappedCategoryAsWritten(Some(JString(s))) == Ok(InheritedValue(Normalize(s)))
  {
    InheritedNonEmpty(s);
    InheritedNotExact(Normalize(s));
    SingleCandidateAsWritten(s, InheritedValue(Normalize(s)));
  }

  /** A single non-empty string is looked up as its normalised text is. */
  lemma SingleCandidateAsWritten(s: string, v: Lookup)
    requires s != "" && LookupAsWritten(Normalize(s)) == Some(v)
    ensures MappedCategoryAsWritten(Some(JString(s))) == Ok(v)
  {
    var cats := [JString(s)];
    assert Candidates(JString(s)) == cats;
    FirstCandidateAsWritten(cats, v);
  }

  lemma FirstCandidateAsWritten(cats: seq<Json>, v: Lookup)
    requires cats != [] && cats[0].JString? && LookupAsWritten(Normalize(cats[0].s)) == Some(v)
    ensures CategoryOfListAsWritten(cats) == Ok(v)
  {
  }

  lemma InheritedNonEmpty(s: string)
    requires Normalize(s) in InheritedMembers
    ensures s != ""
  {
    NormalizeEmpty();
  }

  lemma NormalizeEmpty()
    ensures Normalize("") == ""
  {
  }

  /** `"constructor"` is such a category: `mapCategory` returns the `Object` constructor for it. */
  lemma ConstructorCategory()
    ensures MappedCategoryAsWritten(Some(JString("constructor"))) == Ok(InheritedValue("constructor"))
  {
    ConstructorNormal();
    InheritedNameCategory("constructor");
  }

  /** `"constructor"` is already lower-case and trimmed. */
  lemma ConstructorNormal()
    ensures Normalize("constructor") == "constructor"
  {
    var s := "constructor";
    assert s[0] == 'c' && s[1] == 'o' && s[2] == 'n' && s[3] == 's' && s[4] == 't' && s[5] == 'r';
    assert s[6] == 'u' && s[7] == 'c' && s[8] == 't' && s[9] == 'o' && s[10] == 'r';
    assert Lower(s) == s;
    TrimKeeps(s);
  }

  /** A list of strings never makes the own-key version throw. */
  lemma {:induction false} StringsNeverThrow(cats: seq<Json>)
    requires forall c <- cats :: c.JString?
    ensures CategoryOfList(cats).Ok?
  {
    if cats != [] {
      assert cats[0] in cats;
      StringsNeverThrow(cats[1..]);
    }
  }


  /** Outside the inherited names the code as written and the own-key lookup agree. */
  lemma {:induction false} AsWrittenAgrees(cats: seq<Json>)
    requires forall c <- cats :: c.JString? ==> Normalize(c.s) !in InheritedMembers
    ensures CategoryOfListAsWritten(cats) == match CategoryOfList(cats)
                                             case Ok(c) => Ok(Entry(c))
                                             case Throws => Throws
  {
    if cats != [] {
      assert cats[0] in cats;
      AsWrittenAgrees(cats[1..]);
    }
  }

  // ---------------------------------------------------------------------------
  // extractInstructions
  // ---------------------------------------------------------------------------

  /** `itemListElement.map(s => s.text || '')`: a `null` element throws. */
  function ElementTexts(items: seq<Json>): (r: Outcome<seq<string>>)
    ensures r.Ok? ==> |r.value| == |items|
    ensures r.Ok? <==> forall e <- items :: !e.JNull?
  {
    if items == [] then Ok([])
    else if items[0].JNull? then Throws
    else match ElementTexts(items[1..])
      case Throws => Throws
      case Ok(rest) => Ok([StrOrEmpty(Get(items[0], "text"))] + rest)
  }

  /**
   * One element of a step array, mapped: its `text` when truthy, else the
   * `itemListElement` texts joined with newlines, else `''`. A `null` step,
   * a `null` list element and a truthy `itemListElement` that is no array
   * (it has no `map`) throw.
   */
  function StepValue(step: Json): Outcome<Json> {
    if step.JNull? then Throws
    else if Truthy(Get(step, "text")) then Ok(Get(step, "text").value)
    else
      var list := Get(step, "itemListElement");
      if !Truthy(list) then Ok(JString(""))
      else if !list.value.JArray? then Throws
      else match ElementTexts(list.value.items)
        case Throws => Throws
        case Ok(texts) => Ok(JString(Join(texts, "\n")))
  }

  /** `steps.map(StepValue)`: throws as soon as one step throws. */
  function StepValues(steps: seq<Json>): (r: Outcome<seq<Json>>)
    ensures r.Ok? <==> forall i :: 0 <= i < |steps| ==> StepValue(steps[i]).Ok?
    ensures r.Ok? ==> |r.value| == |steps|
  {
    if steps == [] then Ok([])
    else match StepValue(steps[0])
      case Throws => Throws
      case Ok(v) =>
        match StepValues(steps[1..])
        case Throws => Throws
        case Ok(rest) => Ok([v] + rest)
  }

  predicate IsTruthy(v: Json) {
    Truthy(Some(v))
  }

  /** `extractInstructions`: the shape is decided by the first element of an array. */
  function Instructions(v: Option<Json>): (r: Outcome<string>)
    ensures !Truthy(v) ==> r == Ok("")
    ensures Truthy(v) && v.value.JString? ==> r == Ok(v.value.s)
    ensures Truthy(v) && !v.value.JString? && !v.value.JArray? ==> r == Ok("")
  {
    if !Truthy(v) then Ok("")
    else match v.value
      case JArray(items) =>
        if items != [] && items[0].JString? then Ok(JoinArray(items, "\n"))
        else if items != [] && TypeofObject(Some(items[0])) then
          match StepValues(items)
          case Throws => Throws
          case Ok(values) => Ok(JoinArray(Filter(values, IsTruthy), "\n"))
        else Ok("")
      case JString(s) => Ok(s)
      case _ => Ok("")
  }

  /** Joining string values is joining their strings. */
  lemma JoinStrings(strs: seq<string>, sep: string)
    ensures JoinArray(seq(|strs|, i requires 0 <= i < |strs| => JString(strs[i])), sep) == Join(strs, sep)
  {
    var items := seq(|strs|, i requires 0 <= i < |strs| => JString(strs[i]));
    assert seq(|items|, i requires 0 <= i < |items| => if items[i].JNull? then "" else ToStr(items[i])) == strs;
  }

  /** A string array is newline-joined; splitting the result gives the steps back when none holds a newline. */
  lemma StringStepsRoundTrip(strs: seq<string>)
    requires |strs| >= 1 && forall t <- strs :: '\n' !in t
    ensures Instructions(Some(JArray(seq(|strs|, i requires 0 <= i < |strs| => JString(strs[i]))))) == Ok(Join(strs, "\n"))
    ensures Split(Join(strs, "\n"), '\n') == strs
  {
    var items := seq(|strs|, i requires 0 <= i < |strs| => JString(strs[i]));
    StringArrayInstructions(items);
    JoinStrings(strs, "\n");
    SplitJoin(strs, '\n');
  }

  /** An array whose first element is a string is joined whole. */
  lemma StringArrayInstructions(items: seq<Json>)
    requires items != [] && items[0].JString?
    ensures Instructions(Some(JArray(items))) == Ok(JoinArray(items, "\n"))
  {
  }

  /** An array whose first element is an object has its step values filtered and joined. */
  lemma ObjectArrayInstructions(steps: seq<Json>, values: seq<Json>)
    requires |steps| >= 1 && TypeofObject(Some(steps[0])) && StepValues(steps) == Ok(values)
    ensures Instructions(Some(JArray(steps))) == Ok(JoinArray(Filter(values, IsTruthy), "\n"))
  {
  }

  /** A `HowToStep` object: a `text` member holding a non-empty string. */
  predicate IsHowToStep(step: Json) {
    step.JObject? && Get(step, "text").Some? && Get(step, "text").value.JString? && Get(step, "text").value.s != ""
  }

  /** The text of a `HowToStep`. */
  function TextOf(step: Json): string {
    match Get(step, "text")
    case Some(JString(s)) => s
    case _ => ""
  }

  /** An array of `HowToStep` objects gives their texts, newline-joined, in order. */
  lemma HowToStepsJoined(steps: seq<Json>)
    requires |steps| >= 1 && forall st <- steps :: IsHowToStep(st)
    ensures Instructions(Some(JArray(steps)))
         == Ok(Join(Map(steps, TextOf), "\n"))
  {
    var strs := Map(steps, TextOf);
    var values := seq(|strs|, i requires 0 <= i < |strs| => JString(strs[i]));
    forall i | 0 <= i < |steps| ensures StepValue(steps[i]) == Ok(values[i]) {
      assert steps[i] in steps;
    }
    assert steps[0] in steps;
    assert StepValues(steps) == Ok(values) by {
      StepValuesOk(steps, values);
    }
    forall v <- values ensures IsTruthy(v) {
      var i :| 0 <= i < |values| && values[i] == v;
      assert steps[i] in steps;
    }
    AllTruthyKept(values);
    ObjectArrayInstructions(steps, values);
    JoinStrings(strs, "\n");
  }

  lemma StepValuesOk(steps: seq<Json>, values: seq<Json>)
    requires |values| == |steps| && forall i :: 0 <= i < |steps| ==> StepValue(steps[i]) == Ok(values[i])
    ensures StepValues(steps) == Ok(values)
  {
    if steps != [] {
      StepValuesOk(steps[1..], values[1..]);
      assert values == [values[0]] + values[1..];
    }
  }

  lemma {:induction false} AllTruthyKept(values: seq<Json>)
    requires forall v <- values :: IsTruthy(v)
    ensures Filter(values, IsTruthy) == values
  {
    if values != [] {
      assert values[0] in values;
      AllTruthyKept(values[1..]);
      assert values == [values[0]] + values[1..];
    }
  }

  /** Steps whose value is falsy (no text, an empty section) are dropped before joining. */
  lemma EmptyStepsDropped(steps: seq<Json>)
    requires |steps| >= 1 && TypeofObject(Some(steps[0]))
    requires StepValues(steps).Ok?
    ensures Instructions(Some(JArray(steps))) == Ok(JoinArray(Filter(StepValues(steps).value, IsTruthy), "\n"))
    ensures forall v <- Filter(StepValues(steps).value, IsTruthy) :: IsTruthy(v)
  {
    ObjectArrayInstructions(steps, StepValues(steps).value);
  }

  /** A `null` step makes the whole extraction throw, and the recipe block is skipped. */
  lemma NullStepThrows(steps: seq<Json>, i: nat)
    requires |steps| >= 1 && TypeofObject(Some(steps[0]))
    requires i < |steps| && steps[i].JNull?
    ensures Instructions(Some(JArray(steps))) == Throws
  {
    assert StepValue(steps[i]).Throws?;
  }

  // ---------------------------------------------------------------------------
  // extractIngredients
  // ---------------------------------------------------------------------------

  /** `i => typeof i === 'string' ? i : ''`. */
  function StringOrEmpty(v: Json): string {
    if v.JString? then v.s else ""
  }

  predicate NonEmpty(s: string) {
    s != ""
  }

  /** The non-empty string elements of an array, in order. */
  function IngredientLines(items: seq<Json>): seq<string> {
    Filter(Map(items, StringOrEmpty), NonEmpty)
  }

  /** `extractIngredients`. */
  function Ingredients(v: Option<Json>): (r: string)
    ensures !Truthy(v) ==> r == ""
    ensures Truthy(v) && v.value.JString? ==> r == v.value.s
    ensures Truthy(v) && v.value.JArray? ==> r == Join(IngredientLines(v.value.items), "\n")
  {
    if !Truthy(v) then ""
    else match v.value
      case JArray(items) => Join(IngredientLines(items), "\n")
      case JString(s) => s
      case _ => ""
  }

  /**
   * The kept lines are exactly the non-empty strings of the array, in their
   * order, and splitting the joined text on newlines gives them back when
   * none holds a newline.
   */
  lemma IngredientsRoundTrip(items: seq<Json>)
    requires IngredientLines(items) != []
    requires forall e <- items :: e.JString? ==> '\n' !in e.s
    ensures Split(Ingredients(Some(JArray(items))), '\n') == IngredientLines(items)
    ensures forall t <- IngredientLines(items) :: t != "" && JString(t) in items
    ensures forall e <- items :: e.JString? && e.s != "" ==> e.s in IngredientLines(items)
    ensures IsSubseq(IngredientLines(items), Map(items, StringOrEmpty))
  {
    var lines := IngredientLines(items);
    forall t <- lines ensures '\n' !in t && JString(t) in items {
      var j :| 0 <= j < |items| && Map(items, StringOrEmpty)[j] == t;
      assert items[j].JString?;
    }
    forall e <- items | e.JString? && e.s != "" ensures e.s in lines {
      var j :| 0 <= j < |items| && items[j] == e;
      assert Map(items, StringOrEmpty)[j] == e.s;
    }
    SplitJoin(lines, '\n');
    FilterIsSubseq(Map(items, StringOrEmpty), NonEmpty);
  }

  // ---------------------------------------------------------------------------
  // extractImage and extractServings
  // ---------------------------------------------------------------------------

  /** `extractImage`: a string, the first element of an array (or its `url`), or an object's `url`. */
  function Image(v: Option<Json>): (r: Option<Json>)
    ensures !Truthy(v) ==> r.None?
    ensures Truthy(v) && v.value.JString? ==> r == v
    ensures Truthy(v) && v.value.JObject? ==> r == Get(v.value, "url")
    ensures Truthy(v) && v.value.JArray? && v.value.items == [] ==> r.None?
    ensures Truthy(v) && v.value.JArray? && v.value.items != [] ==>
      r == (if v.value.items[0].JString? then Some(v.value.items[0]) else Get(v.value.items[0], "url"))
    ensures Truthy(v) && !(v.value.JString? || v.value.JArray? || v.value.JObject?) ==> r.None?
  {
    if !Truthy(v) then None
    else match v.value
      case JString(_) => v
      case JArray(items) =>
        if items == [] then None
        else if items[0].JString? then Some(items[0])
        else Get(items[0], "url")
      case JObject(_) => Get(v.value, "url")
      case _ => None
  }

  /** The first position at or after `i` that holds a digit. */
  function FirstDigit(s: string, i: nat): (r: Option<nat>)
    requires i <= |s|
    ensures r.Some? ==> i <= r.value < |s| && IsDigit(s[r.value])
    ensures r.Some? ==> forall k :: i <= k < r.value ==> !IsDigit(s[k])
    ensures r.None? ==> forall k :: i <= k < |s| ==> !IsDigit(s[k])
    decreases |s| - i
  {
    if i == |s| then None
    else if IsDigit(s[i]) then Some(i)
    else FirstDigit(s, i + 1)
  }

  /** `p` holds the first digit of `s`. */
  predicate FirstDigitAt(s: string, p: nat) {
    p < |s| && IsDigit(s[p]) && forall k :: 0 <= k < p ==> !IsDigit(s[k])
  }

  lemma NoFirstDigit(s: string)
    requires forall k :: 0 <= k < |s| ==> !IsDigit(s[k])
    ensures forall p: nat :: !FirstDigitAt(s, p)
  {
    forall p: nat ensures !FirstDigitAt(s, p) {
      if p < |s| {
        assert !IsDigit(s[p]);
      }
    }
  }

  lemma FirstDigitUnique(s: string, p: nat, q: nat)
    requires FirstDigitAt(s, p) && FirstDigitAt(s, q)
    ensures p == q
  {
  }

  /** `s.match(/(\d+)/)` read with `parseInt`: the value of the leftmost run of digits. */
  function FirstNumber(s: string): (r: Option<nat>)
    ensures r.None? <==> forall k :: 0 <= k < |s| ==> !IsDigit(s[k])
    ensures forall p: nat | FirstDigitAt(s, p) :: r == Some(Value(s[p..p + DigitRun(s[p..])]))
  {
    match FirstDigit(s, 0)
    case None =>
      NoFirstDigit(s);
      None
    case Some(p) =>
      assert FirstDigitAt(s, p);
      assert forall q: nat | FirstDigitAt(s, q) :: q == p by {
        forall q: nat | FirstDigitAt(s, q) ensures q == p {
          FirstDigitUnique(s, p, q);
        }
      }
      Some(Value(s[p..p + DigitRun(s[p..])]))
  }

  /** The text `extractServings` searches: `String(recipeYield)`, or `String(recipeYield[0])` for an array. */
  function YieldText(y: Json): string {
    match y
    case JArray(items) => ToStrOpt(if items == [] then None else Some(items[0]))
    case other => ToStr(other)
  }

  /** `extractServings`. */
  function Servings(v: Option<Json>): (r: Option<int>)
    ensures !Truthy(v) ==> r.None?
    ensures Truthy(v) && v.value.JNumber? ==> r == Some(v.value.n)
    ensures Truthy(v) && !v.value.JNumber? ==>
      (r.None? <==> FirstNumber(YieldText(v.value)).None?) &&
      (r.Some? ==> r.value == FirstNumber(YieldText(v.value)).value)
  {
    if !Truthy(v) then None
    else if v.value.JNumber? then Some(v.value.n)
    else
      match FirstNumber(YieldText(v.value))
      case None => None
      case Some(n) => Some(n)
  }

  /**
   * A yield holding a number after digit-free text and before a non-digit,
   * as in `"Pour 4 personnes"`, gives that number, as a string or as the
   * first element of an array.
   */
  lemma ServingsOfText(pre: string, n: nat, rest: string, more: seq<Json>)
    requires forall c <- pre :: !IsDigit(c)
    requires rest == "" || !IsDigit(rest[0])
    ensures Servings(Some(JString(pre + NatToString(n) + rest))) == Some(n)
    ensures Servings(Some(JArray([JString(pre + NatToString(n) + rest)] + more))) == Some(n)
  {
    var s := pre + NatToString(n) + rest;
    NumberAfterText(pre, n, rest);
    var items := [JString(s)] + more;
    assert items[0] == JString(s);
    assert YieldText(JArray(items)) == s;
  }

  /** The first number of digit-free text, `n`'s digits and a non-digit is `n`. */
  lemma NumberAfterText(pre: string, n: nat, rest: string)
    requires forall c <- pre :: !IsDigit(c)
    requires rest == "" || !IsDigit(rest[0])
    ensures FirstNumber(pre + NatToString(n) + rest) == Some(n)
  {
    var ds := NatToString(n);
    var s := pre + ds + rest;
    var p := |pre|;
    assert s[p..] == ds + rest;
    forall k | 0 <= k < p ensures !IsDigit(s[k]) {
      assert s[k] == pre[k];
    }
    assert FirstDigitAt(s, p);
    DigitRunOf(ds, rest);
    assert s[p..p + |ds|] == ds;
  }

  /** A yield whose text holds no digit, as in `"quatre"`, gives no servings. */
  lemma ServingsNoDigit(t: string)
    requires t != "" && forall c <- t :: !IsDigit(c)
    ensures Servings(Some(JString(t))) == None
  {
    forall k | 0 <= k < |t| ensures !IsDigit(t[k]) {
      assert t[k] in t;
    }
  }

  // ---------------------------------------------------------------------------
  // findRecipeInJsonLd
  // ---------------------------------------------------------------------------

  /** `@type` is `'Recipe'`, or an array that includes `'Recipe'`. */
  predicate IsRecipeNode(v: Json) {
    var t := Get(v, "@type");
    t == Some(JString("Recipe")) || (t.Some? && t.value.JArray? && JString("Recipe") in t.value.items)
  }

  /**
   * `findRecipeInJsonLd`: the value itself when it is a recipe node, else
   * the first hit in its `@graph` array, else, for an array, the first hit
   * among its elements.
   */
  function FoundRecipe(data: Json): (r: Option<Json>)
    ensures r.Some? ==> IsRecipeNode(r.value) && r.value.JObject?
    ensures !(data.JObject? || data.JArray?) ==> r.None?
    ensures data.JObject? && IsRecipeNode(data) ==> r == Some(data)
    ensures data.JObject? && !IsRecipeNode(data) ==>
      r == (match Get(data, "@graph") case Some(JArray(g)) => FirstHit(g) case _ => None)
    ensures data.JArray? ==> r == FirstHit(data.items)
    decreases data
  {
    if !(data.JObject? || data.JArray?) then None
    else if IsRecipeNode(data) then Some(data)
    else
      var inGraph :=
        match data
        case JObject(members) =>
          (match KeyIndex(members, "@graph")
           case Some(k) =>
             (match members[k].1
              case JArray(items) => FirstHit(items)
              case _ => None)
           case None => None)
        case _ => None;
      if inGraph.Some? then inGraph
      else match data
        case JArray(items) => FirstHit(items)
        case _ => None
  }

  /** The loop `for (const item of items)`: the first item in which the search finds a recipe. */
  function FirstHit(items: seq<Json>): (r: Option<Json>)
    ensures r.Some? ==> IsRecipeNode(r.value) && r.value.JObject?
    ensures r.None? <==> forall j :: 0 <= j < |items| ==> FoundRecipe(items[j]).None?
    decreases items
  {
    if items == [] then None
    else
      var found := FoundRecipe(items[0]);
      if found.Some? then found else FirstHit(items[1..])
  }

  /** The loop returns the hit of the first item in which the search finds a recipe. */
  lemma {:induction false} FirstHitAt(items: seq<Json>, k: nat)
    requires k < |items| && FoundRecipe(items[k]).Some?
    requires forall j :: 0 <= j < k ==> FoundRecipe(items[j]).None?
    ensures FirstHit(items) == FoundRecipe(items[k])
    decreases k
  {
    if k == 0 {
      assert FirstHit(items) == FoundRecipe(items[0]);
    } else {
      var tail := items[1..];
      assert tail[k - 1] == items[k];
      forall j | 0 <= j < k - 1 ensures FoundRecipe(tail[j]).None? {
        assert tail[j] == items[j + 1];
      }
      FirstHitAt(tail, k - 1);
      assert FoundRecipe(items[0]).None?;
      assert FirstHit(items) == FirstHit(tail);
    }
  }

  /**
   * A recipe node that follows items without a hit is the one found, in a
   * top-level array or in the `@graph` array of an untyped object.
   */
  lemma FoundAfterMisses(misses: seq<Json>, recipe: Json, more: seq<Json>)
    requires recipe.JObject? && IsRecipeNode(recipe)
    requires forall m <- misses :: FoundRecipe(m).None?
    ensures FirstHit(misses + [recipe] + more) == Some(recipe)
    ensures FoundRecipe(JArray(misses + [recipe] + more)) == Some(recipe)
    ensures FoundRecipe(JObject([("@graph", JArray(misses + [recipe] + more))])) == Some(recipe)
  {
    var items := misses + [recipe] + more;
    forall j | 0 <= j < |misses| ensures FoundRecipe(items[j]).None? {
      assert items[j] == misses[j];
    }
    FirstHitAt(items, |misses|);
  }

  /** `findRecipeInJsonLd` as the code runs it: recursion, and a loop with an early return over each array. */
  method FindRecipe(data: Json) returns (r: Option<Json>)
    ensures r == FoundRecipe(data)
    decreases data
  {
    if !(data.JObject? || data.JArray?) {
      return None;
    }
    if IsRecipeNode(data) {
      return Some(data);
    }
    if data.JObject? {
      var k := KeyIndex(data.members, "@graph");
      if k.Some? && data.members[k.value].1.JArray? {
        var items := data.members[k.value].1.items;
        for i := 0 to |items|
          invariant FirstHit(items[i..]) == FirstHit(items)
        {
          assert items[i..][1..] == items[i + 1..];
          var found := FindRecipe(items[i]);
          if found.Some? {
            return found;
          }
        }
        assert items[|items|..] == [];
      }
    }
    if data.JArray? {
      var items := data.items;
      for i := 0 to |items|
        invariant FirstHit(items[i..]) == FirstHit(items)
      {
        assert items[i..][1..] == items[i + 1..];
        var found := FindRecipe(items[i]);
        if found.Some? {
          return found;
        }
      }
      assert items[|items|..] == [];
    }
    return None;
  }

  // ---------------------------------------------------------------------------
  // parseRecipeFromHtml
  // ---------------------------------------------------------------------------

  /**
   * A page as the importer reads it: the text of each
   * `script[type="application/ld+json"]` in document order, the text of the
   * first `<h1>` and the text of `<title>` (`""` where the element is absent).
   */
  datatype Page = Page(ldJsonScripts: seq<string>, h1Text: string, titleText: string)

  /** The user-facing message when neither JSON-LD nor the page title yields a recipe. */
  const HtmlFailure: string :=
    "Impossible d'extraire la recette depuis cette page. Essayez de copier-coller le texte directement."

  /** A duration in minutes as the recipe stores it. */
  function Minutes(d: Option<nat>): (r: Option<int>)
    ensures r.Some? <==> d.Some?
    ensures r.Some? ==> r.value == d.value
  {
    match d
    case Some(m) => Some(m)
    case None => None
  }

  /**
   * The `ParsedRecipe` built from a recipe node, or `Throws` where
   * `mapCategory` or `extractInstructions` throws (which the block's
   * `catch` swallows).
   */
  function RecipeOfNode(recipe: Json, sourceUrl: string): (r: Outcome<ParsedRecipe>)
    ensures r.Ok? <==> MappedCategory(Get(recipe, "recipeCategory")).Ok? && Instructions(Get(recipe, "recipeInstructions")).Ok?
    ensures r.Ok? ==> r.value.sourceType == FromUrl && r.value.sourceUrl == Some(sourceUrl)
    ensures r.Ok? ==> r.value.appliance.None? && r.value.difficulty.None?
    ensures r.Ok? ==> r.value.title == Trim(StrOrEmpty(Get(recipe, "name")))
  {
    match (MappedCategory(Get(recipe, "recipeCategory")), Instructions(Get(recipe, "recipeInstructions")))
    case (Ok(category), Ok(steps)) =>
      Ok(ParsedRecipe(
        title := Trim(StrOrEmpty(Get(recipe, "name"))),
        category := category,
        appliance := None,
        ingredientsText := Ingredients(Get(recipe, "recipeIngredient")),
        stepsText := steps,
        prepTime := Minutes(IsoDuration(StrOrEmpty(Get(recipe, "prepTime")))),
        cookTime := Minutes(IsoDuration(StrOrEmpty(Get(recipe, "cookTime")))),
        servings := Servings(Get(recipe, "recipeYield")),
        difficulty := None,
        sourceType := FromUrl,
        sourceUrl := Some(sourceUrl),
        imageUrl := Image(Get(recipe, "image"))))
    case _ => Throws
  }

  /** The acceptance test `parsed.title && (parsed.ingredients_text || parsed.steps_text)`. */
  predicate Accepted(p: ParsedRecipe) {
    p.title != "" && (p.ingredientsText != "" || p.stepsText != "")
  }

  /** What one JSON-LD block contributes: an accepted recipe, or nothing. */
  function BlockRecipe(content: string, sourceUrl: string, parse: Parser): (r: Option<ParsedRecipe>)
    ensures r.Some? ==> Accepted(r.value) && r.value.sourceType == FromUrl && r.value.sourceUrl == Some(sourceUrl)
    ensures content == "" || parse(content).None? ==> r.None?
    ensures r.Some? ==> parse(content).Some? && FoundRecipe(parse(content).value).Some?
  {
    if content == "" then None
    else match parse(content)
      case None => None
      case Some(data) =>
        match FoundRecipe(data)
        case None => None
        case Some(node) =>
          match RecipeOfNode(node, sourceUrl)
          case Throws => None
          case Ok(p) => if Accepted(p) then Some(p) else None
  }

  /** No block yields an accepted recipe. */
  predicate NoneAccepted(blocks: seq<string>, sourceUrl: string, parse: Parser) {
    forall i :: 0 <= i < |blocks| ==> BlockRecipe(blocks[i], sourceUrl, parse).None?
  }

  /** The loop over the blocks: the first block that yields an accepted recipe. */
  function FirstAccepted(blocks: seq<string>, sourceUrl: string, parse: Parser): (r: Option<ParsedRecipe>)
    ensures r.None? <==> NoneAccepted(blocks, sourceUrl, parse)
    ensures r.Some? ==> Accepted(r.value) && r.value.sourceType == FromUrl && r.value.sourceUrl == Some(sourceUrl)
  {
    if blocks == [] then None
    else
      var first := BlockRecipe(blocks[0], sourceUrl, parse);
      if first.Some? then first
      else
        var rest := FirstAccepted(blocks[1..], sourceUrl, parse);
        assert forall i :: 1 <= i < |blocks| ==> blocks[i] == blocks[1..][i - 1];
        rest
  }

  /** The fallback title: the first `<h1>`'s trimmed text, else the trimmed `<title>`. */
  function FallbackTitle(page: Page): (r: string)
    ensures r == "" <==> Trim(page.h1Text) == "" && Trim(page.titleText) == ""
  {
    if Trim(page.h1Text) != "" then Trim(page.h1Text) else Trim(page.titleText)
  }

  /** The recipe the fallback builds from a title alone. */
  function TitleOnlyRecipe(title: string, sourceUrl: string): ParsedRecipe {
    ParsedRecipe(title, Plat, None, "", "", None, None, None, None, FromUrl, Some(sourceUrl), None)
  }

  /** `parseRecipeFromHtml` over a page. */
  function HtmlResult(page: Page, sourceUrl: string, parse: Parser): (r: ParseResult)
    ensures r.Parsed? ==> r.recipe.title != "" && r.recipe.sourceType == FromUrl && r.recipe.sourceUrl == Some(sourceUrl)
    ensures r.Failed? <==>
      NoneAccepted(page.ldJsonScripts, sourceUrl, parse) && Trim(page.h1Text) == "" && Trim(page.titleText) == ""
    ensures r.Failed? ==> r.error == HtmlFailure
  {
    match FirstAccepted(page.ldJsonScripts, sourceUrl, parse)
    case Some(p) => Parsed(p)
    case None =>
      var title := FallbackTitle(page);
      if title != "" then Parsed(TitleOnlyRecipe(title, sourceUrl)) else Failed(HtmlFailure)
  }

  /** The first block that yields an accepted recipe decides the result, whatever follows it. */
  lemma {:induction false} FirstAcceptedWins(page: Page, sourceUrl: string, parse: Parser, i: nat)
    requires i < |page.ldJsonScripts|
    requires forall j :: 0 <= j < i ==> BlockRecipe(page.ldJsonScripts[j], sourceUrl, parse).None?
    requires BlockRecipe(page.ldJsonScripts[i], sourceUrl, parse).Some?
    ensures HtmlResult(page, sourceUrl, parse) == Parsed(BlockRecipe(page.ldJsonScripts[i], sourceUrl, parse).value)
  {
    FirstAcceptedAt(page.ldJsonScripts, sourceUrl, parse, i);
  }

  lemma {:induction false} FirstAcceptedAt(blocks: seq<string>, sourceUrl: string, parse: Parser, i: nat)
    requires i < |blocks|
    requires forall j :: 0 <= j < i ==> BlockRecipe(blocks[j], sourceUrl, parse).None?
    requires BlockRecipe(blocks[i], sourceUrl, parse).Some?
    ensures FirstAccepted(blocks, sourceUrl, parse) == BlockRecipe(blocks[i], sourceUrl, parse)
    decreases i
  {
    if i > 0 {
      var rest := blocks[1..];
      assert BlockRecipe(blocks[0], sourceUrl, parse).None?;
      assert rest[i - 1] == blocks[i];
      forall j | 0 <= j < i - 1
        ensures BlockRecipe(rest[j], sourceUrl, parse).None?
      {
        assert rest[j] == blocks[j + 1];
      }
      FirstAcceptedAt(rest, sourceUrl, parse, i - 1);
      assert FirstAccepted(blocks, sourceUrl, parse) == FirstAccepted(rest, sourceUrl, parse);
    }
  }

  /** With no accepted block, a non-empty `<h1>` or `<title>` gives a title-only recipe in category `plat`. */
  lemma TitleFallback(page: Page, sourceUrl: string, parse: Parser)
    requires NoneAccepted(page.ldJsonScripts, sourceUrl, parse)
    requires FallbackTitle(page) != ""
    ensures HtmlResult(page, sourceUrl, parse) == Parsed(TitleOnlyRecipe(FallbackTitle(page), sourceUrl))
    ensures HtmlResult(page, sourceUrl, parse).recipe.category == Plat
    ensures HtmlResult(page, sourceUrl, parse).recipe.ingredientsText == ""
    ensures HtmlResult(page, sourceUrl, parse).recipe.stepsText == ""
  {
  }

  /**
   * A block whose JSON is a recipe object with a non-blank string `name`,
   * a non-empty string `recipeIngredient` and no category or instructions
   * is accepted as it stands.
   */
  lemma PlainRecipeBlock(content: string, sourceUrl: string, parse: Parser, node: Json, name: string, ingredients: string)
    requires content != "" && parse(content) == Some(node)
    requires node.JObject? && IsRecipeNode(node)
    requires Get(node, "name") == Some(JString(name)) && Trim(name) != ""
    requires Get(node, "recipeIngredient") == Some(JString(ingredients)) && ingredients != ""
    requires Get(node, "recipeCategory").None? && Get(node, "recipeInstructions").None?
    ensures BlockRecipe(content, sourceUrl, parse).Some?
    ensures BlockRecipe(content, sourceUrl, parse).value.title == Trim(name)
    ensures BlockRecipe(content, sourceUrl, parse).value.ingredientsText == ingredients
    ensures BlockRecipe(content, sourceUrl, parse).value.stepsText == ""
    ensures BlockRecipe(content, sourceUrl, parse).value.category == Plat
  {
    assert FoundRecipe(node) == Some(node);
    PlainNode(node, sourceUrl, name, ingredients);
    BlockOfNode(content, sourceUrl, parse, node);
  }

  /** The recipe built from such a node: its trimmed name, its ingredients, no steps, category `plat`. */
  lemma PlainNode(node: Json, sourceUrl: string, name: string, ingredients: string)
    requires Get(node, "name") == Some(JString(name))
    requires Get(node, "recipeIngredient") == Some(JString(ingredients)) && ingredients != ""
    requires Get(node, "recipeCategory").None? && Get(node, "recipeInstructions").None?
    ensures RecipeOfNode(node, sourceUrl).Ok?
    ensures var p := RecipeOfNode(node, sourceUrl).value;
      p.title == Trim(name) && p.ingredientsText == ingredients && p.stepsText == "" && p.category == Plat
  {
    assert MappedCategory(Get(node, "recipeCategory")) == Ok(Plat);
    assert Instructions(Get(node, "recipeInstructions")) == Ok("");
    assert Ingredients(Get(node, "recipeIngredient")) == ingredients;
    assert StrOrEmpty(Get(node, "name")) == name;
  }

  /** A block whose JSON is itself an accepted recipe node gives that recipe. */
  lemma BlockOfNode(content: string, sourceUrl: string, parse: Parser, node: Json)
    requires content != "" && parse(content) == Some(node) && FoundRecipe(node) == Some(node)
    requires RecipeOfNode(node, sourceUrl).Ok? && Accepted(RecipeOfNode(node, sourceUrl).value)
    ensures BlockRecipe(content, sourceUrl, parse) == Some(RecipeOfNode(node, sourceUrl).value)
  {
  }

  /** `parseRecipeFromHtml` as the code runs it: a loop over the blocks with an early return, then the fallback. */
  method ParseRecipeFromHtml(page: Page, sourceUrl: string, parse: Parser) returns (r: ParseResult)
    ensures r == HtmlResult(page, sourceUrl, parse)
  {
    var scripts := page.ldJsonScripts;
    for i := 0 to |scripts|
      invariant FirstAccepted(scripts[i..], sourceUrl, parse) == FirstAccepted(scripts, sourceUrl, parse)
    {
      assert scripts[i..][1..] == scripts[i + 1..];
      var content := scripts[i];
      if content == "" {
        continue;
      }
      var data := parse(content);
      if data.None? {
        continue;
      }
      var recipe := FindRecipe(data.value);
      if recipe.Some? {
        var category := MapCategory(Get(recipe.value, "recipeCategory"));
        if category.Throws? {
          continue;
        }
        var steps := Instructions(Get(recipe.value, "recipeInstructions"));
        if steps.Throws? {
          continue;
        }
        var parsed := ParsedRecipe(
          title := Trim(StrOrEmpty(Get(recipe.value, "name"))),
          category := category.value,
          appliance := None,
          ingredientsText := Ingredients(Get(recipe.value, "recipeIngredient")),
          stepsText := steps.value,
          prepTime := Minutes(IsoDuration(StrOrEmpty(Get(recipe.value, "prepTime")))),
          cookTime := Minutes(IsoDuration(StrOrEmpty(Get(recipe.value, "cookTime")))),
          servings := Servings(Get(recipe.value, "recipeYield")),
          difficulty := None,
          sourceType := FromUrl,
          sourceUrl := Some(sourceUrl),
          imageUrl := Image(Get(recipe.value, "image")));
        if parsed.title != "" && (parsed.ingredientsText != "" || parsed.stepsText != "") {
          return Parsed(parsed);
        }
      }
    }
    assert scripts[|scripts|..] == [];
    var title := Trim(page.h1Text);
    if title == "" {
      title := Trim(page.titleText);
    }
    if title != "" {
      return Parsed(TitleOnlyRecipe(title, sourceUrl));
    }
    return Failed(HtmlFailure);
  }
}
