/**
 * The simplified recipe form: `recipeSimpleSchema`, which validates the
 * form's fields, and `parseSimpleRecipe`, which turns the validated form
 * (ingredients and steps as free text, one per line) into the object the
 * recipe table stores. That object is written in the shape of
 * `RecipeSchema.RecipeInput`, so the model can say when the full insert
 * schema would accept it.
 */
module RecipeSimple {
  import opened Wrappers
  import opened Strings
  import opened Seqs
  import opened Regex
  import opened RecipeTypes
  import opened RecipeSchema

  /** The form values handed to `recipeSimpleSchema`; enumerations are raw strings. */
  datatype SimpleForm = SimpleForm(
    title: string,
    category: string,
    ingredientsText: string,
    stepsText: string,
    prepTime: Option<real>,
    cookTime: Option<real>,
    servings: Option<real>,
    difficulty: Option<string>,
    sourceType: Option<string>,
    sourceUrl: Option<string>,
    status: Option<string>,
    isFavorite: Option<bool>)

  /** `RecipeSimpleInput`, what the schema returns. */
  datatype SimpleInput = SimpleInput(
    title: string,
    category: Category,
    ingredientsText: string,
    stepsText: string,
    prepTime: Option<real>,
    cookTime: Option<real>,
    servings: Option<real>,
    difficulty: Option<Difficulty>,
    sourceType: SourceType,
    sourceUrl: Option<string>,
    status: Status,
    isFavorite: bool)

  // ---------------------------------------------------------------------------
  // recipeSimpleSchema
  // ---------------------------------------------------------------------------

  /** `z.enum(['manual', 'url', 'paste', 'photo'])`: every source type but `video`. */
  function FormSourceType(s: string): (r: Option<SourceType>)
    ensures r.Some? <==> SourceTypeNamed(s).Some? && s != "video"
    ensures r.Some? ==> SourceTypeName(r.value) == s
  {
    match SourceTypeNamed(s)
    case None => None
    case Some(t) => if t == Video then None else Some(t)
  }

  /** Every field of `recipeSimpleSchema` accepts its value. */
  predicate SimpleValid(f: SimpleForm) {
    && |f.title| >= 1
    && CategoryNamed(f.category).Some?
    && |f.ingredientsText| >= 1
    && |f.stepsText| >= 1
    && (f.difficulty.None? || DifficultyNamed(f.difficulty.value).Some?)
    && (f.sourceType.None? || FormSourceType(f.sourceType.value).Some?)
    && StatusValid(f.status)
  }

  /** `recipeSimpleSchema.safeParse(f)`: the input with enumerations read and defaults filled in. */
  function ParseSimpleSchema(f: SimpleForm): (r: Option<SimpleInput>)
    ensures r.Some? <==> SimpleValid(f)
    ensures r.Some? ==> |r.value.title| >= 1 && |r.value.ingredientsText| >= 1 && |r.value.stepsText| >= 1
    ensures r.Some? ==> CategoryName(r.value.category) == f.category && r.value.sourceType != Video
    ensures r.Some? && f.sourceType.None? ==> r.value.sourceType == Manual
    ensures r.Some? && f.status.None? ==> r.value.status == ATester
    ensures r.Some? && f.status.Some? ==> StatusName(r.value.status) == f.status.value
    ensures r.Some? && f.isFavorite.None? ==> !r.value.isFavorite
  {
    if !SimpleValid(f) then None
    else Some(SimpleInput(
      f.title,
      CategoryNamed(f.category).value,
      f.ingredientsText,
      f.stepsText,
      f.prepTime, f.cookTime, f.servings,
      if f.difficulty.None? then None else DifficultyNamed(f.difficulty.value),
      if f.sourceType.None? then Manual else FormSourceType(f.sourceType.value).value,
      f.sourceUrl,
      if f.status.None? then ATester else StatusNamed(f.status.value).value,
      f.isFavorite.GetOr(false)))
  }

  /** The form a validated input is sent as, every field filled. */
  function FormOf(v: SimpleInput): SimpleForm {
    SimpleForm(
      v.title, CategoryName(v.category), v.ingredientsText, v.stepsText,
      v.prepTime, v.cookTime, v.servings,
      if v.difficulty.None? then None else Some(DifficultyName(v.difficulty.value)),
      Some(SourceTypeName(v.sourceType)), v.sourceUrl, Some(StatusName(v.status)), Some(v.isFavorite))
  }

  /** A validated input, sent again, validates to itself. */
  lemma SimpleReparses(f: SimpleForm)
    requires ParseSimpleSchema(f).Some?
    ensures ParseSimpleSchema(FormOf(ParseSimpleSchema(f).value)) == ParseSimpleSchema(f)
  {
    NamesRoundTrip();
  }

  // ---------------------------------------------------------------------------
  // parseSimpleRecipe
  // ---------------------------------------------------------------------------

  predicate NonBlank(line: string) {
    Trim(line) != ""
  }

  /** `text.split('\n').filter(line => line.trim())`. */
  function NonBlankLines(text: string): (r: seq<string>)
    ensures IsSubseq(r, Split(text, '\n'))
    ensures forall k :: 0 <= k < |r| ==> NonBlank(r[k])
    ensures forall line <- Split(text, '\n') :: NonBlank(line) ==> line in r
  {
    FilterIsSubseq(Split(text, '\n'), NonBlank);
    Filter(Split(text, '\n'), NonBlank)
  }

  /** The pattern `^\d+\.\s*`. */
  const OrdinalPrefix: seq<Piece> := [Digits1, One("."), Spaces]

  /** `.replace` of that pattern with nothing: a leading `N.` and the spaces after it are removed. */
  function StripOrdinal(s: string): (r: string)
    ensures |r| <= |s| && r == s[|s| - |r|..]
  {
    StripPrefix(s, OrdinalPrefix, false)
  }

  /** One ingredient line: the trimmed line as the name, no quantity, no unit. */
  function ItemOf(line: string): IngredientInput {
    IngredientInput(Trim(line), None, None, None)
  }

  /** Trimming the lines of a list again changes none of them. */
  lemma TrimmedLines(lines: seq<string>)
    ensures forall k :: 0 <= k < |lines| ==> Trim(Trim(lines[k])) == Trim(lines[k])
  {
    forall k | 0 <= k < |lines| {
      TrimTwice(lines[k]);
    }
  }

  /**
   * The ingredient items: one per non-blank line, in order, named by the
   * trimmed line, which is non-empty and has no surrounding whitespace.
   */
  function Items(text: string): (r: seq<IngredientInput>)
    ensures var lines := NonBlankLines(text);
      && |r| == |lines|
      && forall k :: 0 <= k < |lines| ==> r[k] == ItemOf(lines[k])
    ensures forall k :: 0 <= k < |r| ==>
      && r[k].name != "" && Trim(r[k].name) == r[k].name
      && r[k].quantity.None? && r[k].unit.None?
  {
    TrimmedLines(NonBlankLines(text));
    Map(NonBlankLines(text), ItemOf)
  }

  /**
   * The steps: one per non-blank line, numbered 1 to n in order, with the
   * trimmed line less any leading `N.` as the instruction.
   */
  function Steps(text: string): (r: seq<StepInput>)
    ensures var lines := NonBlankLines(text);
      && |r| == |lines|
      && forall k :: 0 <= k < |lines| ==>
           r[k].order == (k + 1) as real && r[k].instruction == StripOrdinal(Trim(lines[k])) && r[k].duration.None?
    ensures forall k :: 0 <= k < |r| ==> PositiveInt(r[k].order)
  {
    var lines := NonBlankLines(text);
    seq(|lines|, k requires 0 <= k < |lines| => StepInput((k + 1) as real, StripOrdinal(Trim(lines[k])), None))
  }

  /** The recipe object the form produces, before any insert validation. */
  function ParseSimpleRecipe(v: SimpleInput): (r: RecipeInput)
    ensures r.ingredients == [GroupInput(None, Items(v.ingredientsText))]
    ensures r.steps == Steps(v.stepsText)
    ensures r.metadata.Some?
    ensures r.metadata.value.sourceUrl.Some? <==> v.sourceUrl.Some? && v.sourceUrl.value != ""
    ensures r.metadata.value.sourceUrl.Some? ==> r.metadata.value.sourceUrl == v.sourceUrl
    ensures r.metadata.value.prepTime == v.prepTime && r.metadata.value.cookTime == v.cookTime
    ensures r.metadata.value.servings == v.servings
    ensures r.metadata.value.difficulty.Some? <==> v.difficulty.Some?
    ensures r.metadata.value.difficulty.Some? ==> DifficultyNamed(r.metadata.value.difficulty.value) == v.difficulty
    ensures r.title == v.title && r.category == CategoryName(v.category)
    ensures r.sourceType == SourceTypeName(v.sourceType) && r.isFavorite == Some(v.isFavorite)
    ensures r.status == Some(StatusName(v.status)) && r.tags == Some([])
    ensures r.appliance.Absent? && r.imageUrl.Absent?
  {
    NamesRoundTrip();
    RecipeInput(
      v.title,
      CategoryName(v.category),
      Absent,
      [GroupInput(None, Items(v.ingredientsText))],
      Steps(v.stepsText),
      Some(MetadataInput(
        v.prepTime, v.cookTime, v.servings,
        if v.difficulty.None? then None else Some(DifficultyName(v.difficulty.value)),
        if v.sourceUrl.Some? && v.sourceUrl.value != "" then v.sourceUrl else None)),
      Absent,
      SourceTypeName(v.sourceType),
      Some(StatusName(v.status)),
      Some(v.isFavorite),
      Some([]))
  }

  // ---------------------------------------------------------------------------
  // Properties
  // ---------------------------------------------------------------------------

  /** Every piece of an all-whitespace string is all whitespace. */
  lemma {:induction false} SplitAllSpace(s: string, sep: char)
    requires AllSpace(s)
    ensures forall p <- Split(s, sep) :: AllSpace(p)
    decreases |s|
  {
    match IndexOfChar(s, sep)
    case None =>
    case Some(i) =>
      assert AllSpace(s[i + 1..]);
      SplitAllSpace(s[i + 1..], sep);
  }

  /** A whitespace-only text has no non-blank line. */
  lemma BlankTextNoLines(text: string)
    requires AllSpace(text)
    ensures NonBlankLines(text) == []
  {
    SplitAllSpace(text, '\n');
  }

  /**
   * A whitespace-only ingredient text passes the form schema's `min(1)`, yet
   * the recipe built from it has an empty ingredient group, which the full
   * insert schema rejects.
   */
  lemma BlankIngredientsAccepted(f: SimpleForm, isUrl: string -> bool)
    requires ParseSimpleSchema(f).Some?
    requires AllSpace(f.ingredientsText)
    ensures |ParseSimpleRecipe(ParseSimpleSchema(f).value).ingredients[0].items| == 0
    ensures ParseInsert(ParseSimpleRecipe(ParseSimpleSchema(f).value), isUrl).None?
  {
    BlankTextNoLines(f.ingredientsText);
    var r := ParseSimpleRecipe(ParseSimpleSchema(f).value);
    assert !GroupValid(r.ingredients[0]);
  }

  /** A run of digits, a dot, spaces: `N.` and what follows it is all that is left. */
  lemma OrdinalStripped(ds: string, sp: string, rest: string)
    requires |ds| >= 1 && AllDigits(ds) && AllSpace(sp)
    requires rest == [] || !IsSpace(rest[0])
    ensures StripOrdinal(ds + "." + sp + rest) == rest
  {
    var s := ds + "." + sp + rest;
    OrdinalShape(ds, sp, rest, s);
    OrdinalAt(s, |ds|, |ds| + 1 + |sp|);
  }

  /** Digits up to `a`, a dot, spaces up to `b`: the ordinal prefix ends at `b`. */
  lemma OrdinalAt(s: string, a: nat, b: nat)
    requires 1 <= a < b <= |s|
    requires forall j :: 0 <= j < a ==> InClass(s[j], Digit, false)
    requires !InClass(s[a], Digit, false) && s[a] == '.'
    requires forall j :: a + 1 <= j < b ==> InClass(s[j], Space, false)
    requires b == |s| || !InClass(s[b], Space, false)
    ensures StripOrdinal(s) == s[b..]
  {
    RunLengthIs(s, 0, Digit, false, a);
    assert MatchPiece(s, 0, Digits1, false) == Some(a);
    OrdinalDot(s, a);
    RunLengthIs(s, a + 1, Space, false, b - a - 1);
    assert MatchPiece(s, a + 1, Spaces, false) == Some(b);
    OrdinalPieces(s, a, b);
  }

  /** Where the digits, the dot, the spaces and the rest of `N. rest` lie. */
  lemma OrdinalShape(ds: string, sp: string, rest: string, s: string)
    requires AllDigits(ds) && AllSpace(sp) && (rest == [] || !IsSpace(rest[0]))
    requires s == ds + "." + sp + rest
    ensures |s| == |ds| + 1 + |sp| + |rest|
    ensures forall j :: 0 <= j < |ds| ==> InClass(s[j], Digit, false)
    ensures !InClass(s[|ds|], Digit, false) && s[|ds|] == '.'
    ensures forall j :: |ds| + 1 <= j < |ds| + 1 + |sp| ==> InClass(s[j], Space, false)
    ensures |ds| + 1 + |sp| == |s| || !InClass(s[|ds| + 1 + |sp|], Space, false)
    ensures s[|ds| + 1 + |sp|..] == rest
  {
    forall j | 0 <= j < |ds| ensures InClass(s[j], Digit, false) {
      assert s[j] == ds[j];
    }
    forall j | |ds| + 1 <= j < |ds| + 1 + |sp| ensures InClass(s[j], Space, false) {
      assert s[j] == sp[j - |ds| - 1];
    }
    if rest != [] {
      assert s[|ds| + 1 + |sp|] == rest[0];
    }
    assert s[|ds| + 1 + |sp|..] == rest;
  }

  /** The dot of `N.` is matched by `\.`. */
  lemma OrdinalDot(s: string, a: nat)
    requires a < |s| && s[a] == '.'
    ensures MatchPiece(s, a, One("."), false) == Some(a + 1)
  {
    assert InChars('.', ".", false);
    assert RunLength(s, a, AnyOf("."), false, AtMost(1)) == 1;
  }

  /** The three pieces of the ordinal prefix, matched one after the other. */
  lemma OrdinalPieces(s: string, a: nat, b: nat)
    requires MatchPiece(s, 0, Digits1, false) == Some(a)
    requires MatchPiece(s, a, One("."), false) == Some(a + 1)
    requires MatchPiece(s, a + 1, Spaces, false) == Some(b)
    ensures Match(s, 0, OrdinalPrefix, false) == Some(b)
  {
    assert Match(s, a + 1, [Spaces], false) == Some(b);
    assert [One("."), Spaces][1..] == [Spaces];
    assert Match(s, a, [One("."), Spaces], false) == Some(b);
    assert OrdinalPrefix[1..] == [One("."), Spaces];
  }

  /** A leading `N)` is not the pattern: the line is kept whole. */
  lemma ParenKept(ds: string, rest: string)
    requires |ds| >= 1 && AllDigits(ds)
    ensures StripOrdinal(ds + ")" + rest) == ds + ")" + rest
  {
    var s := ds + ")" + rest;
    var k := RunLength(s, 0, Digit, false, Unbounded);
    assert s[|ds|] == ')';
    assert k == |ds|;
    assert !InChars(')', ".", false);
    assert RunLength(s, |ds|, AnyOf("."), false, AtMost(1)) == 0;
    assert Match(s, 0, OrdinalPrefix, false).None?;
  }

  /** The single group the form builds passes `ingredientGroupSchema` iff some ingredient line is non-blank. */
  lemma ItemsValid(text: string)
    ensures IngredientsValid([GroupInput(None, Items(text))]) <==> |NonBlankLines(text)| >= 1
  {
    var g := GroupInput(None, Items(text));
    if |NonBlankLines(text)| >= 1 {
      assert GroupValid(g);
    }
    assert [g][0] == g;
  }

  /** The steps the form builds pass the insert schema iff there is one and no instruction is emptied. */
  lemma StepsValidIff(text: string)
    ensures var lines := NonBlankLines(text);
      StepsValid(Steps(text)) <==> |lines| >= 1 && forall k :: 0 <= k < |lines| ==> StripOrdinal(Trim(lines[k])) != ""
  {
    var lines := NonBlankLines(text);
    var r := Steps(text);
    if StepsValid(r) {
      forall k | 0 <= k < |lines|
        ensures StripOrdinal(Trim(lines[k])) != ""
      {
        assert StepValid(r[k]);
      }
    }
  }

  /**
   * When the full insert schema accepts the object built from a form: the
   * title fits in 200 characters, some ingredient line and some step line
   * are non-blank, no step line is reduced to nothing by the `N.` removal,
   * the numbers are positive integers and a source URL is URL-shaped.
   */
  predicate Insertable(v: SimpleInput, isUrl: string -> bool) {
    var steps := NonBlankLines(v.stepsText);
    && |v.title| <= MaxTitle
    && |NonBlankLines(v.ingredientsText)| >= 1
    && |steps| >= 1
    && (forall k :: 0 <= k < |steps| ==> StripOrdinal(Trim(steps[k])) != "")
    && OptPositiveInt(v.prepTime) && OptPositiveInt(v.cookTime) && OptPositiveInt(v.servings)
    && (v.sourceUrl.None? || v.sourceUrl.value == "" || isUrl(v.sourceUrl.value))
  }

  /**
   * The insert schema accepts what `parseSimpleRecipe` builds from a
   * validated form exactly when `Insertable` holds: the form schema is
   * weaker on the title length, blank lines, `N.`-only steps and numbers.
   */
  lemma SimpleRecipeInsertable(f: SimpleForm, isUrl: string -> bool)
    requires ParseSimpleSchema(f).Some?
    ensures var v := ParseSimpleSchema(f).value;
      ParseInsert(ParseSimpleRecipe(v), isUrl).Some? <==> Insertable(v, isUrl)
  {
    var v := ParseSimpleSchema(f).value;
    ItemsValid(v.ingredientsText);
    StepsValidIff(v.stepsText);
  }
}
