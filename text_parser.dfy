/**
 * The pasted-text recipe parser: one pass over the trimmed lines with a
 * section cursor, recognising a title, section markers, metadata lines and
 * numbered steps, then the serving count and the preparation and cooking
 * times read from the whole text.
 */
module TextParser {
  import opened Wrappers
  import opened Strings
  import opened Regex
  import opened Seqs
  import opened RecipeTypes
  import opened ParserTypes

  // ---------------------------------------------------------------------------
  // The patterns
  // ---------------------------------------------------------------------------

  /** `^#{0,3}\s*`, the head of every marker. */
  const Head: seq<Piece> := [Hashes, Spaces]

  /** `\s*:?$`, the tail of every section marker. */
  const Colon: seq<Piece> := [Spaces, Opt(':')]

  /** `pour\s+\d+\s+<unit>s?`. */
  function ServingsPhrase(unit: string): seq<Piece> {
    [Lit("pour"), Spaces1, Digits1, Spaces1, Lit(unit), Opt('s')]
  }

  /** `INGREDIENT_MARKERS`, each optional group written out as two alternatives. */
  const IngredientMarkers: seq<seq<Piece>> := [
    Head + [Lit("ingr"), One("ée"), Lit("dient"), Opt('s')] + Colon,
    Head + [Lit("il"), Spaces1, Lit("faut")] + Colon,
    Head + [Lit("il"), Spaces1, Lit("vous"), Spaces1, Lit("faut")] + Colon,
    Head + ServingsPhrase("personne") + Colon,
    Head + ServingsPhrase("part") + Colon,
    Head + ServingsPhrase("portion") + Colon,
    Head + [Lit("liste"), Spaces1, Lit("des"), Spaces1, Lit("ingr"), One("ée"), Lit("dient"), Opt('s')] + Colon
  ]

  /** `STEP_MARKERS`. */
  const StepMarkers: seq<seq<Piece>> := [
    Head + [Lit("pr"), One("ée"), Lit("paration")] + Colon,
    Head + [One("ée"), Lit("tape"), Opt('s')] + Colon,
    Head + [Lit("instruction"), Opt('s')] + Colon,
    Head + [Lit("recette")] + Colon,
    Head + [Lit("r"), One("ée"), Lit("alisation")] + Colon,
    Head + [Lit("proc"), One("ée"), Lit("dure")] + Colon,
    Head + [Lit("mode"), Spaces1, Lit("op"), One("ée"), Lit("ratoire")] + Colon
  ]

  /** One of `TITLE_MARKERS`: `^#{0,3}\s*<word>\s*:?\s*`, tested on a prefix. */
  function TitleMarker(word: string): seq<Piece> {
    Head + [Lit(word), Spaces, Opt(':'), Spaces]
  }

  /** `\s*:?\s*\d`, the tail of `METADATA_LINE`. */
  const MetaTail: seq<Piece> := [Spaces, Opt(':'), Spaces, Rep(Digit, 1, AtMost(1))]

  /** `METADATA_LINE`, tested on a prefix. */
  const MetadataLine: seq<seq<Piece>> := [
    [Lit("pr"), One("ée"), Lit("paration")] + MetaTail,
    [Lit("pr"), One("ée"), Lit("p")] + MetaTail,
    [Lit("cuisson")] + MetaTail,
    ServingsPhrase("personne") + MetaTail,
    ServingsPhrase("part") + MetaTail,
    ServingsPhrase("portion") + MetaTail
  ]

  /** `INGREDIENT_PATTERN`, tested on a prefix: a digit or fraction, a decimal, `un`/`une`, `quelque(s)`, `un peu`. */
  const IngredientPattern: seq<seq<Piece>> := [
    [Rep(Digit, 1, AtMost(1))],
    [One("\U{BD}\U{BC}\U{BE}\U{2153}\U{2154}\U{215B}")],
    [Digits1, One(".,"), Digits1],
    [Lit("un"), Opt('e'), Rep(Space, 1, AtMost(1))],
    [Lit("quelque"), Opt('s'), Rep(Space, 1, AtMost(1))],
    [Lit("un peu")]
  ]

  /** `NUMBERED_STEP`: `^\d+[\.\)]\s*`, case-sensitive. */
  const NumberedStep: seq<Piece> := [Digits1, One(".)"), Spaces]

  /** `^#+\s*`, the markdown heading prefix removed from a first-line title. */
  const HashPrefix: seq<Piece> := [Rep(AnyOf("#"), 1, Unbounded), Spaces]

  /** The action verbs whose presence makes a short line a step. */
  const ActionVerbs: seq<string> := ["faire", "mettre", "ajouter", "mélanger", "couper", "cuire", "verser", "battre"]

  // ---------------------------------------------------------------------------
  // Line tests
  // ---------------------------------------------------------------------------

  /** Some alternative matches the whole of `s`, ignoring case. */
  predicate AnyFull(s: string, alts: seq<seq<Piece>>) {
    exists k :: 0 <= k < |alts| && FullMatch(s, alts[k], true)
  }

  /** Some alternative matches a prefix of `s`, ignoring case. */
  predicate AnyPrefix(s: string, alts: seq<seq<Piece>>) {
    exists k :: 0 <= k < |alts| && PrefixMatch(s, alts[k], true)
  }

  /** `matchesAny(line, INGREDIENT_MARKERS)`. */
  predicate IsIngredientMarker(line: string) {
    AnyFull(Trim(line), IngredientMarkers)
  }

  /** `matchesAny(line, STEP_MARKERS)`. */
  predicate IsStepMarker(line: string) {
    AnyFull(Trim(line), StepMarkers)
  }

  predicate IsMarker(line: string) {
    IsIngredientMarker(line) || IsStepMarker(line)
  }

  /** `METADATA_LINE.test(line)`. */
  predicate IsMetadata(line: string) {
    AnyPrefix(line, MetadataLine)
  }

  /** `NUMBERED_STEP.test(line)`. */
  predicate IsNumbered(line: string) {
    PrefixMatch(line, NumberedStep, false)
  }

  /** `line.replace(NUMBERED_STEP, '')`: a line that is not numbered is kept. */
  function StripNumber(line: string): (r: string)
    ensures !IsNumbered(line) ==> r == line
    ensures |r| <= |line|
  {
    StripPrefix(line, NumberedStep, false)
  }

  /**
   * `TITLE_MARKERS.find(p => p.test(line))`, and then `line.replace(marker, '')`:
   * the text after the first title marker that starts the line.
   */
  function TitleMarkerRest(line: string): Option<string> {
    if PrefixMatch(line, TitleMarker("recette"), true) then Some(StripPrefix(line, TitleMarker("recette"), true))
    else if PrefixMatch(line, TitleMarker("titre"), true) then Some(StripPrefix(line, TitleMarker("titre"), true))
    else None
  }

  /** A `\b` boundary at `i`: exactly one side is a word character. */
  predicate Boundary(t: string, i: nat) {
    (0 < i <= |t| && IsWordChar(t[i - 1])) != (i < |t| && IsWordChar(t[i]))
  }

  /** `\b(verb)\b` for one verb, at `i`. */
  predicate VerbAt(t: string, i: nat, verb: string) {
    Boundary(t, i) && WordAt(t, i, verb, true) && Boundary(t, i + |verb|)
  }

  /** `/\b(faire|mettre|…|battre)\b/i.test(t)`. */
  predicate HasActionVerb(t: string) {
    exists i, k :: 0 <= i <= |t| && 0 <= k < |ActionVerbs| && VerbAt(t, i, ActionVerbs[k])
  }

  /** `looksLikeIngredient`. */
  predicate LooksLikeIngredient(line: string) {
    var t := Trim(line);
    if t == "" then false
    else if IsMetadata(t) then false
    else if AnyPrefix(t, IngredientPattern) then true
    else |t| < 60 && !HasActionVerb(t)
  }

  /**
   * The ingredient heuristic on a trimmed line: never a blank or metadata
   * line; always a line that starts with a digit; never a line of 60
   * characters or more that does not start like a quantity.
   */
  lemma IngredientHeuristic(line: string)
    ensures LooksLikeIngredient(line) ==> Trim(line) != "" && !IsMetadata(Trim(line))
    ensures var t := Trim(line); t != "" && IsDigit(t[0]) && !IsMetadata(t) ==> LooksLikeIngredient(line)
    ensures var t := Trim(line); |t| >= 60 && !AnyPrefix(t, IngredientPattern) ==> !LooksLikeIngredient(line)
  {
    var t := Trim(line);
    if t != "" && IsDigit(t[0]) {
      assert MatchPiece(t, 0, IngredientPattern[0][0], true).Some?;
      assert PrefixMatch(t, IngredientPattern[0], true);
    }
  }

  // ---------------------------------------------------------------------------
  // The pass over the lines
  // ---------------------------------------------------------------------------

  datatype Section = NoSection | IngredientSection | StepSection

  /** The loop's variables: `title`, `titleFound`, `currentSection` and the two buffers. */
  datatype Scan = Scan(title: string, titleFound: bool, section: Section, ingredients: seq<string>, steps: seq<string>)

  const Start: Scan := Scan("", false, NoSection, [], [])

  /** One iteration of the loop, on an already trimmed line. */
  function Step(st: Scan, line: string): Scan {
    if line == "" then st
    else if !st.titleFound && TitleMarkerRest(line).Some? then
      st.(title := Trim(TitleMarkerRest(line).value), titleFound := true)
    else if !st.titleFound && st.title == "" && st.section == NoSection && !IsIngredientMarker(line) && !IsStepMarker(line) then
      st.(title := StripPrefix(line, HashPrefix, false), titleFound := true)
    else if IsIngredientMarker(line) then st.(section := IngredientSection)
    else if IsStepMarker(line) then st.(section := StepSection)
    else if IsMetadata(line) then st
    else match st.section
      case IngredientSection => st.(ingredients := st.ingredients + [line])
      case StepSection => st.(steps := st.steps + [StripNumber(line)])
      case NoSection =>
        if IsNumbered(line) then st.(steps := st.steps + [StripNumber(line)])
        else if LooksLikeIngredient(line) then st.(ingredients := st.ingredients + [line])
        else st.(steps := st.steps + [line])
  }

  /** The loop over all the lines. */
  function Run(st: Scan, lines: seq<string>): Scan
    decreases |lines|
  {
    if lines == [] then st else Run(Step(st, lines[0]), lines[1..])
  }

  /** `text.split('\n').map(l => l.trim())`. */
  function Lines(text: string): (r: seq<string>)
    ensures |r| >= 1
  {
    Map(Split(text, '\n'), Trim)
  }

  // ---------------------------------------------------------------------------
  // Serving count and times, from the whole text
  // ---------------------------------------------------------------------------

  /** `pour\s+(\d+)\s+(personnes?|parts?|portions?)` at `j`: the captured number. */
  function ServingsAt(s: string, j: nat): Option<nat> {
    match Match(s, j, [Lit("pour"), Spaces1], true)
    case None => None
    case Some(a) =>
      match Match(s, a, [Digits1], true)
      case None => None
      case Some(b) =>
        match Match(s, b, [Spaces1], true)
        case None => None
        case Some(c) =>
          if WordAt(s, c, "personne", true) || WordAt(s, c, "part", true) || WordAt(s, c, "portion", true)
          then Some(Value(s[a..b])) else None
  }

  /** `detectServings`: the number of the leftmost serving phrase anywhere in the text. */
  function DetectServings(text: string): (r: Option<nat>)
    ensures r.None? <==> forall j :: 0 <= j <= |text| ==> ServingsAt(text, j).None?
    ensures r.Some? ==> exists j :: 0 <= j <= |text| && ServingsAt(text, j) == r
                                   && forall k :: 0 <= k < j ==> ServingsAt(text, k).None?
  {
    var form := j => ServingsAt(text, j);
    assert forall j :: form(j) == ServingsAt(text, j);
    Leftmost(text, form)
  }

  /** `pr[ée]p(?:aration)?\s*:?\s*`, the longer alternative first as the greedy group tries it. */
  const PrepHeads: seq<seq<Piece>> := [
    [Lit("pr"), One("ée"), Lit("paration"), Spaces, Opt(':'), Spaces],
    [Lit("pr"), One("ée"), Lit("p"), Spaces, Opt(':'), Spaces]
  ]

  /** `cuisson\s*:?\s*`. */
  const CookHeads: seq<seq<Piece>> := [[Lit("cuisson"), Spaces, Opt(':'), Spaces]]

  /** Where the first of `heads` that matches at `j` ends. */
  function HeadAt(s: string, j: nat, heads: seq<seq<Piece>>): (r: Option<nat>)
    ensures r.Some? ==> j <= r.value <= |s|
  {
    if heads == [] then None
    else match Match(s, j, heads[0], true)
      case Some(a) => Some(a)
      case None => HeadAt(s, j, heads[1..])
  }

  /** `<head>(\d+)\s*(?:min|mn|minutes?)` at `j`: the minutes. */
  function MinutesAt(s: string, j: nat, heads: seq<seq<Piece>>): Option<nat> {
    match HeadAt(s, j, heads)
    case None => None
    case Some(a) =>
      match Match(s, a, [Digits1], true)
      case None => None
      case Some(b) =>
        match Match(s, b, [Spaces], true)
        case None => None
        case Some(c) =>
          if WordAt(s, c, "min", true) || WordAt(s, c, "mn", true) then Some(Value(s[a..b])) else None
  }

  /** `<head>(\d+)\s*h\s*(\d+)?` at `j`: hours times sixty plus the optional minutes. */
  function HoursAt(s: string, j: nat, heads: seq<seq<Piece>>): Option<nat> {
    match HeadAt(s, j, heads)
    case None => None
    case Some(a) =>
      match Match(s, a, [Digits1], true)
      case None => None
      case Some(b) =>
        match Match(s, b, [Spaces, One("h"), Spaces], true)
        case None => None
        case Some(c) =>
          match Match(s, c, [Rep(Digit, 0, Unbounded)], true)
          case None => None
          case Some(d) => Some(Value(s[a..b]) * 60 + Value(s[c..d]))
  }

  /** The value of the leftmost match of a form, if any. */
  function Leftmost(s: string, form: nat -> Option<nat>): (r: Option<nat>)
    ensures r.None? <==> forall j :: 0 <= j <= |s| ==> form(j).None?
    ensures r.Some? ==> exists j :: 0 <= j <= |s| && form(j) == r && forall k :: 0 <= k < j ==> form(k).None?
  {
    match FirstAt(|s| + 1, 0, form)
    case None => None
    case Some((j, n)) => Some(n)
  }

  /**
   * The time one of `detectTimes`' fields ends up with: the hour form, when
   * it occurs, overrides the minute form.
   */
  function TimeIn(s: string, heads: seq<seq<Piece>>): (r: Option<nat>)
    ensures Leftmost(s, j => HoursAt(s, j, heads)).Some? ==> r == Leftmost(s, j => HoursAt(s, j, heads))
    ensures Leftmost(s, j => HoursAt(s, j, heads)).None? ==> r == Leftmost(s, j => MinutesAt(s, j, heads))
  {
    var h := Leftmost(s, j => HoursAt(s, j, heads));
    if h.Some? then h else Leftmost(s, j => MinutesAt(s, j, heads))
  }

  /** `detectTimes`: four searches, each overwriting its field when it matches. */
  method DetectTimes(text: string) returns (prep: Option<nat>, cook: Option<nat>)
    ensures prep == TimeIn(text, PrepHeads)
    ensures cook == TimeIn(text, CookHeads)
  {
    prep, cook := None, None;
    var m := Leftmost(text, j => MinutesAt(text, j, PrepHeads));
    if m.Some? { prep := m; }
    m := Leftmost(text, j => MinutesAt(text, j, CookHeads));
    if m.Some? { cook := m; }
    m := Leftmost(text, j => HoursAt(text, j, PrepHeads));
    if m.Some? { prep := m; }
    m := Leftmost(text, j => HoursAt(text, j, CookHeads));
    if m.Some? { cook := m; }
  }

  // ---------------------------------------------------------------------------
  // parseRecipeFromText
  // ---------------------------------------------------------------------------

  const EmptyTextError := "Le texte est vide."
  const DefaultTitle := "Recette importée"

  /** The result `parseRecipeFromText` builds from the loop's final state. */
  function TextRecipe(st: Scan, text: string): ParsedRecipe {
    ParsedRecipe(
      if st.title == "" then DefaultTitle else st.title, Plat, None,
      Join(st.ingredients, "\n"), Join(st.steps, "\n"),
      TimeIn(text, PrepHeads), TimeIn(text, CookHeads), DetectServings(text), None,
      FromPaste, None, None)
  }

  /** What `parseRecipeFromText` returns. */
  function TextResult(text: string): ParseResult {
    if AllSpace(text) then Failed(EmptyTextError)
    else Parsed(TextRecipe(Run(Start, Lines(text)), text))
  }

  /** The body of the loop over the lines: the five loop variables after `line`. */
  method ScanLine(line: string, title0: string, titleFound0: bool, section0: Section, ingredients0: seq<string>, steps0: seq<string>)
    returns (title: string, titleFound: bool, currentSection: Section, ingredientLines: seq<string>, stepLines: seq<string>)
    ensures Scan(title, titleFound, currentSection, ingredientLines, stepLines)
      == Step(Scan(title0, titleFound0, section0, ingredients0, steps0), line)
  {
    title, titleFound, currentSection, ingredientLines, stepLines := title0, titleFound0, section0, ingredients0, steps0;
    if line == "" {
      return;
    }
    if !titleFound {
      var titleMarker := TitleMarkerRest(line);
      if titleMarker.Some? {
        title := Trim(titleMarker.value);
        titleFound := true;
        return;
      }
      if title == "" && currentSection == NoSection && !IsIngredientMarker(line) && !IsStepMarker(line) {
        title := StripPrefix(line, HashPrefix, false);
        titleFound := true;
        return;
      }
    }
    if IsIngredientMarker(line) {
      currentSection := IngredientSection;
      return;
    }
    if IsStepMarker(line) {
      currentSection := StepSection;
      return;
    }
    if IsMetadata(line) {
      return;
    }
    if currentSection == IngredientSection {
      ingredientLines := ingredientLines + [line];
    } else if currentSection == StepSection {
      stepLines := stepLines + [StripNumber(line)];
    } else {
      if IsNumbered(line) {
        stepLines := stepLines + [StripNumber(line)];
      } else if LooksLikeIngredient(line) {
        ingredientLines := ingredientLines + [line];
      } else {
        stepLines := stepLines + [line];
      }
    }
  }

  /** `parseRecipeFromText`. */
  method ParseRecipeFromText(text: string) returns (r: ParseResult)
    ensures r == TextResult(text)
    ensures r.Failed? <==> AllSpace(text)
    ensures r.Failed? ==> r.error == EmptyTextError
    ensures r.Parsed? ==> r.recipe.title != "" && r.recipe.category == Plat && r.recipe.sourceType == FromPaste
  {
    if Trim(text) == [] {
      return Failed(EmptyTextError);
    }
    var lines := Lines(text);
    var title := "";
    var ingredientLines: seq<string> := [];
    var stepLines: seq<string> := [];
    var currentSection := NoSection;
    var titleFound := false;
    var i := 0;
    while i < |lines|
      invariant 0 <= i <= |lines|
      invariant Run(Scan(title, titleFound, currentSection, ingredientLines, stepLines), lines[i..]) == Run(Start, lines)
    {
      assert lines[i..][0] == lines[i] && lines[i..][1..] == lines[i + 1..];
      title, titleFound, currentSection, ingredientLines, stepLines :=
        ScanLine(lines[i], title, titleFound, currentSection, ingredientLines, stepLines);
      i := i + 1;
    }
    var prep, cook := DetectTimes(text);
    r := Parsed(ParsedRecipe(
      if title == "" then DefaultTitle else title, Plat, None,
      Join(ingredientLines, "\n"), Join(stepLines, "\n"),
      prep, cook, DetectServings(text), None, FromPaste, None, None));
  }

  // ---------------------------------------------------------------------------
  // Where the lines go
  // ---------------------------------------------------------------------------

  /** A line that may reach an output: not blank, not a section marker, not metadata. */
  predicate Payload(line: string) {
    line != "" && !IsIngredientMarker(line) && !IsStepMarker(line) && !IsMetadata(line)
  }

  /**
   * One iteration appends at most one entry, to one buffer: the line itself to
   * the ingredients, or the line without its number to the steps, and only for
   * a payload line. Once the title is found, every payload line is appended.
   */
  lemma StepAppends(st: Scan, line: string)
    ensures var st' := Step(st, line);
      && (st'.ingredients == st.ingredients || (Payload(line) && st'.ingredients == st.ingredients + [line]))
      && (st'.steps == st.steps || (Payload(line) && st'.steps == st.steps + [StripNumber(line)]))
      && (st'.ingredients == st.ingredients || st'.steps == st.steps)
      && (st.titleFound && Payload(line) ==> |st'.ingredients| + |st'.steps| == |st.ingredients| + |st.steps| + 1)
      && (st.titleFound ==> st'.titleFound && st'.title == st.title)
  {
    if !Payload(line) {
      StepSkips(st, line);
    } else if st.titleFound {
      StepWithinSection(st, line);
    } else {
      StepBeforeTitle(st, line);
    }
  }

  /** A line that is not payload leaves both buffers, and a found title, alone. */
  lemma StepSkips(st: Scan, line: string)
    requires !Payload(line)
    ensures Step(st, line).ingredients == st.ingredients && Step(st, line).steps == st.steps
    ensures st.titleFound ==> Step(st, line).titleFound && Step(st, line).title == st.title
  {
  }

  /** Before the title, a payload line appends to at most one buffer. */
  lemma StepBeforeTitle(st: Scan, line: string)
    requires !st.titleFound && Payload(line)
    ensures var st' := Step(st, line);
      || (st'.ingredients == st.ingredients && st'.steps == st.steps)
      || (st'.ingredients == st.ingredients + [line] && st'.steps == st.steps)
      || (st'.ingredients == st.ingredients && st'.steps == st.steps + [StripNumber(line)])
  {
    if TitleMarkerRest(line).Some? || (st.title == "" && st.section == NoSection) {
      StepTakesTitle(st, line);
    } else {
      StepUntitled(st, line);
    }
  }

  /** A line taken as the title reaches neither buffer. */
  lemma StepTakesTitle(st: Scan, line: string)
    requires !st.titleFound && Payload(line)
    requires TitleMarkerRest(line).Some? || (st.title == "" && st.section == NoSection)
    ensures Step(st, line).ingredients == st.ingredients && Step(st, line).steps == st.steps
  {
  }

  /** Before the title, a payload line that cannot be the title goes where its section sends it. */
  lemma StepUntitled(st: Scan, line: string)
    requires !st.titleFound && Payload(line)
    requires TitleMarkerRest(line).None? && !(st.title == "" && st.section == NoSection)
    ensures Step(st, line) == st.(
      ingredients := st.ingredients + (if GoesToIngredients(st.section, line) then [line] else []),
      steps := st.steps + (if GoesToSteps(st.section, line) then [StripNumber(line)] else []))
  {
    if !IsNumbered(line) {
      assert StripNumber(line) == line;
    }
  }



  /** Filtering the payload lines of a non-empty run. */
  lemma PayloadFilter(lines: seq<string>)
    requires lines != []
    ensures Payload(lines[0]) ==> Filter(lines, Payload) == [lines[0]] + Filter(lines[1..], Payload)
    ensures Payload(lines[0]) ==> Map(Filter(lines, Payload), StripNumber) == [StripNumber(lines[0])] + Map(Filter(lines[1..], Payload), StripNumber)
    ensures !Payload(lines[0]) ==> Filter(lines, Payload) == Filter(lines[1..], Payload)
  {
    MapCons(lines[0], Filter(lines[1..], Payload), StripNumber);
  }

  /**
   * Over any run of lines the ingredients only grow, and what is appended is
   * a subsequence of the payload lines, kept verbatim.
   */
  lemma {:induction false} RunIngredients(st: Scan, lines: seq<string>)
    ensures st.ingredients <= Run(st, lines).ingredients
    ensures IsSubseq(Run(st, lines).ingredients[|st.ingredients|..], Filter(lines, Payload))
    decreases |lines|
  {
    if lines != [] {
      var line, rest := lines[0], lines[1..];
      var st' := Step(st, line);
      StepAppends(st, line);
      RunIngredients(st', rest);
      PayloadFilter(lines);
      var fin := Run(st', rest).ingredients;
      var added := fin[|st'.ingredients|..];
      if st'.ingredients == st.ingredients {
        if Payload(line) { SubseqCons(added, line, Filter(rest, Payload)); }
      } else {
        SliceAfter(st.ingredients, line, fin);
        SubseqBoth(line, added, Filter(rest, Payload));
      }
    }
  }

  /**
   * Over any run of lines the steps only grow, and what is appended is a
   * subsequence of the payload lines with their numbering removed.
   */
  lemma {:induction false} RunSteps(st: Scan, lines: seq<string>)
    ensures st.steps <= Run(st, lines).steps
    ensures IsSubseq(Run(st, lines).steps[|st.steps|..], Map(Filter(lines, Payload), StripNumber))
    decreases |lines|
  {
    if lines != [] {
      var line, rest := lines[0], lines[1..];
      var st' := Step(st, line);
      StepAppends(st, line);
      RunSteps(st', rest);
      PayloadFilter(lines);
      var fin := Run(st', rest).steps;
      var added := fin[|st'.steps|..];
      var m := Map(Filter(rest, Payload), StripNumber);
      if st'.steps == st.steps {
        if Payload(line) { SubseqCons(added, StripNumber(line), m); }
      } else {
        SliceAfter(st.steps, StripNumber(line), fin);
        SubseqBoth(StripNumber(line), added, m);
      }
    }
  }

  /** Once the title is found, each payload line adds exactly one entry to the two buffers together. */
  lemma {:induction false} RunCount(st: Scan, lines: seq<string>)
    requires st.titleFound
    ensures |Run(st, lines).ingredients| + |Run(st, lines).steps| == |st.ingredients| + |st.steps| + |Filter(lines, Payload)|
    decreases |lines|
  {
    if lines != [] {
      StepAppends(st, lines[0]);
      RunCount(Step(st, lines[0]), lines[1..]);
      PayloadFilter(lines);
    }
  }

  /**
   * Marker lines and metadata lines never reach either output; every
   * ingredient is an input line kept verbatim and every step an input line
   * with its numbering removed, both in input order (`RunCount` adds that,
   * after the title, each payload line reaches exactly one of them).
   */
  lemma LinesLandOnce(lines: seq<string>)
    ensures var fin := Run(Start, lines);
      && IsSubseq(fin.ingredients, Filter(lines, Payload))
      && IsSubseq(fin.steps, Map(Filter(lines, Payload), StripNumber))
      && (forall x <- fin.ingredients :: x in lines && Payload(x))
      && (forall x <- fin.steps :: exists l <- lines :: Payload(l) && x == StripNumber(l))
  {
    var fin := Run(Start, lines);
    RunIngredients(Start, lines);
    RunSteps(Start, lines);
    assert fin.ingredients[0..] == fin.ingredients && fin.steps[0..] == fin.steps;
    SubseqElements(fin.ingredients, Filter(lines, Payload));
    SubseqElements(fin.steps, Map(Filter(lines, Payload), StripNumber));
    forall x <- fin.steps ensures exists l <- lines :: Payload(l) && x == StripNumber(l) {
      var m := Map(Filter(lines, Payload), StripNumber);
      var i :| 0 <= i < |m| && m[i] == x;
      assert Filter(lines, Payload)[i] in Filter(lines, Payload);
    }
  }

  /** Whether a payload line goes to the ingredients, in a section. */
  predicate ToIngredients(section: Section, line: string) {
    section == IngredientSection || (section == NoSection && !IsNumbered(line) && LooksLikeIngredient(line))
  }

  /** A payload line that goes to the ingredients in a section. */
  predicate GoesToIngredients(sec: Section, line: string) {
    Payload(line) && ToIngredients(sec, line)
  }

  /** The payload lines that go to the ingredients in a section. */
  function ToIngredientsTest(sec: Section): string -> bool {
    l => GoesToIngredients(sec, l)
  }

  /** A payload line that goes to the steps in a section. */
  predicate GoesToSteps(sec: Section, line: string) {
    Payload(line) && !ToIngredients(sec, line)
  }

  /** The payload lines that go to the steps in a section. */
  function ToStepsTest(sec: Section): string -> bool {
    l => GoesToSteps(sec, l)
  }

  /** One iteration after the title, on a line that is not a section marker. */
  lemma StepWithinSection(st: Scan, line: string)
    requires st.titleFound && !IsMarker(line)
    ensures Step(st, line) == st.(
      ingredients := st.ingredients + (if GoesToIngredients(st.section, line) then [line] else []),
      steps := st.steps + (if GoesToSteps(st.section, line) then [StripNumber(line)] else []))
  {
    if line == "" || IsMetadata(line) {
      assert !Payload(line);
    } else {
      assert Payload(line);
      if !IsNumbered(line) {
        assert StripNumber(line) == line;
      }
    }
  }

  /**
   * After the title, a run of lines without section markers keeps the title
   * and the section.
   */
  lemma {:induction false} RunKeepsSection(st: Scan, lines: seq<string>)
    requires st.titleFound
    requires forall l <- lines :: !IsMarker(l)
    ensures Run(st, lines).titleFound && Run(st, lines).title == st.title && Run(st, lines).section == st.section
    decreases |lines|
  {
    if lines != [] {
      assert lines[0] in lines;
      StepWithinSection(st, lines[0]);
      RunKeepsSection(Step(st, lines[0]), lines[1..]);
    }
  }

  /**
   * After the title, in a run of lines without section markers, the
   * ingredients gain, in input order, the payload lines of the section:
   * all of them, verbatim, inside the ingredients section, and before any
   * section those that are not numbered and look like ingredients.
   */
  lemma IngredientsWithinSection(st: Scan, sec: Section, lines: seq<string>)
    requires st.titleFound && st.section == sec
    requires forall l <- lines :: !IsMarker(l)
    ensures Run(st, lines).ingredients == st.ingredients + Filter(lines, ToIngredientsTest(sec))
  {
    RunSectionIngredients(st, sec, lines);
    FilterMapIsFilter(lines, ToIngredientsTest(sec));
  }

  /**
   * After the title, in a run of lines without section markers, the steps
   * gain, in input order, the other payload lines of the section with their
   * numbering removed: all of them inside the steps section, and before any
   * section the numbered ones and those that do not look like ingredients.
   */
  lemma StepsWithinSection(st: Scan, sec: Section, lines: seq<string>)
    requires st.titleFound && st.section == sec
    requires forall l <- lines :: !IsMarker(l)
    ensures Run(st, lines).steps == st.steps + Map(Filter(lines, ToStepsTest(sec)), StripNumber)
  {
    RunSectionSteps(st, sec, lines);
    FilterMapIsMapFilter(lines, ToStepsTest(sec), StripNumber);
  }

  /** The loop is a left fold of its step. */
  lemma {:induction false} RunIsFold(st: Scan, lines: seq<string>)
    ensures Run(st, lines) == FoldLeft(Step, st, lines)
    decreases |lines|
  {
    if lines != [] {
      RunIsFold(Step(st, lines[0]), lines[1..]);
    }
  }

  /** The ingredients over a run without section markers, after the title, as a one-pass selection. */
  lemma RunSectionIngredients(st: Scan, sec: Section, lines: seq<string>)
    requires st.titleFound && st.section == sec
    requires forall l <- lines :: !IsMarker(l)
    ensures Run(st, lines).ingredients == st.ingredients + FilterMap(lines, ToIngredientsTest(sec), Id)
  {
    var inv: Scan -> bool := (s: Scan) => s.titleFound && s.section == sec;
    var ok: string -> bool := (l: string) => !IsMarker(l);
    var out: Scan -> seq<string> := (s: Scan) => s.ingredients;
    forall s': Scan, l: string | inv(s') && ok(l)
      ensures inv(Step(s', l)) && out(Step(s', l)) == out(s') + FilterMap([l], ToIngredientsTest(sec), Id)
    {
      SectionStep(s', sec, l);
    }
    FoldSelects(Step, out, inv, ok, ToIngredientsTest(sec), Id, st, lines);
    RunIsFold(st, lines);
  }

  /** The steps over a run without section markers, after the title, as a one-pass selection. */
  lemma RunSectionSteps(st: Scan, sec: Section, lines: seq<string>)
    requires st.titleFound && st.section == sec
    requires forall l <- lines :: !IsMarker(l)
    ensures Run(st, lines).steps == st.steps + FilterMap(lines, ToStepsTest(sec), StripNumber)
  {
    var inv: Scan -> bool := (s: Scan) => s.titleFound && s.section == sec;
    var ok: string -> bool := (l: string) => !IsMarker(l);
    var out: Scan -> seq<string> := (s: Scan) => s.steps;
    forall s': Scan, l: string | inv(s') && ok(l)
      ensures inv(Step(s', l)) && out(Step(s', l)) == out(s') + FilterMap([l], ToStepsTest(sec), StripNumber)
    {
      SectionStep(s', sec, l);
    }
    FoldSelects(Step, out, inv, ok, ToStepsTest(sec), StripNumber, st, lines);
    RunIsFold(st, lines);
  }

  /** One line without a section marker, after the title, as both buffers see it. */
  lemma SectionStep(st: Scan, sec: Section, line: string)
    requires st.titleFound && st.section == sec && !IsMarker(line)
    ensures Step(st, line).titleFound && Step(st, line).section == sec
    ensures Step(st, line).ingredients == st.ingredients + FilterMap([line], ToIngredientsTest(sec), Id)
    ensures Step(st, line).steps == st.steps + FilterMap([line], ToStepsTest(sec), StripNumber)
  {
    StepWithinSection(st, line);
    assert [line][1..] == [];
  }

  // ---------------------------------------------------------------------------
  // The title
  // ---------------------------------------------------------------------------

  predicate IsNonBlank(line: string) {
    line != ""
  }

  /** The text after the marker of the first title-marked line, trimmed; `""` when there is none. */
  function MarkedTitle(ls: seq<string>): string {
    if ls == [] then ""
    else if TitleMarkerRest(ls[0]).Some? then Trim(TitleMarkerRest(ls[0]).value)
    else MarkedTitle(ls[1..])
  }

  /**
   * The title rule, over the non-blank lines: the first of them supplies the
   * title when it carries a title marker (the rest of the line, trimmed) or
   * is no section marker (the line without its leading `#`s); when it is a
   * section marker, the first later title-marked line supplies it; otherwise
   * there is none.
   */
  function ExpectedTitle(lines: seq<string>): string {
    var ls := Filter(lines, IsNonBlank);
    if ls == [] then ""
    else if TitleMarkerRest(ls[0]).Some? then Trim(TitleMarkerRest(ls[0]).value)
    else if !IsMarker(ls[0]) then StripPrefix(ls[0], HashPrefix, false)
    else MarkedTitle(ls[1..])
  }

  /** Once found, the title never changes. */
  lemma {:induction false} TitleKept(st: Scan, lines: seq<string>)
    requires st.titleFound
    ensures Run(st, lines).titleFound && Run(st, lines).title == st.title
    decreases |lines|
  {
    if lines != [] {
      StepAppends(st, lines[0]);
      TitleKept(Step(st, lines[0]), lines[1..]);
    }
  }

  /** After a section marker and before any title, only a title-marked line supplies the title. */
  lemma {:induction false} TitleAfterSection(st: Scan, lines: seq<string>)
    requires !st.titleFound && st.title == "" && st.section != NoSection
    ensures Run(st, lines).title == MarkedTitle(Filter(lines, IsNonBlank))
    decreases |lines|
  {
    if lines != [] {
      var line, rest := lines[0], lines[1..];
      var st' := Step(st, line);
      FilterFirst(lines, IsNonBlank);
      StepInSectionUntitled(st, line);
      assert Run(st, lines) == Run(st', rest);
      if line == "" {
        TitleAfterSection(st', rest);
      } else if TitleMarkerRest(line).Some? {
        TitleKept(st', rest);
      } else {
        TitleAfterSection(st', rest);
      }
    }
  }

  /** After a section marker and before any title, what one line does to the title. */
  lemma StepInSectionUntitled(st: Scan, line: string)
    requires !st.titleFound && st.title == "" && st.section != NoSection
    ensures line == "" ==> Step(st, line) == st
    ensures line != "" && TitleMarkerRest(line).Some? ==>
      Step(st, line).titleFound && Step(st, line).title == Trim(TitleMarkerRest(line).value)
    ensures line != "" && TitleMarkerRest(line).None? ==>
      !Step(st, line).titleFound && Step(st, line).title == "" && Step(st, line).section != NoSection
  {
    if line != "" && TitleMarkerRest(line).None? {
      StepKeepsUntitled(st, line);
    }
  }

  /** A non-blank line without a title marker, after a section marker, leaves the title unfound. */
  lemma StepKeepsUntitled(st: Scan, line: string)
    requires !st.titleFound && st.title == "" && st.section != NoSection
    requires line != "" && TitleMarkerRest(line).None?
    ensures !Step(st, line).titleFound && Step(st, line).title == "" && Step(st, line).section != NoSection
  {
    if IsIngredientMarker(line) {
      assert Step(st, line) == st.(section := IngredientSection);
    } else if IsStepMarker(line) {
      assert Step(st, line) == st.(section := StepSection);
    } else if IsMetadata(line) {
      assert Step(st, line) == st;
    } else {
      assert Step(st, line).section == st.section;
    }
  }


  /** The loop finds the title `ExpectedTitle` describes. */
  lemma {:induction false} TitleRule(st: Scan, lines: seq<string>)
    requires !st.titleFound && st.title == "" && st.section == NoSection
    ensures Run(st, lines).title == ExpectedTitle(lines)
    decreases |lines|
  {
    if lines != [] {
      var line, rest := lines[0], lines[1..];
      var st' := Step(st, line);
      FilterFirst(lines, IsNonBlank);
      if line == "" {
        TitleRule(st', rest);
      } else if TitleMarkerRest(line).Some? || !IsMarker(line) {
        TitleKept(st', rest);
      } else {
        assert !st'.titleFound && st'.title == "" && st'.section != NoSection;
        TitleAfterSection(st', rest);
      }
    }
  }

  /**
   * `parseRecipeFromText` titles the recipe by the title rule, and by
   * "Recette importée" when the rule gives no title or an empty one.
   */
  lemma TextTitle(text: string)
    requires !AllSpace(text)
    ensures TextResult(text).recipe.title ==
      (if ExpectedTitle(Lines(text)) == "" then DefaultTitle else ExpectedTitle(Lines(text)))
  {
    TitleRule(Start, Lines(text));
  }
}
