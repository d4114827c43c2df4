/**
 * The zod schemas a full recipe is validated against before it is stored:
 * `recipeInsertSchema` with its ingredient, group, step and metadata
 * sub-schemas, and `recipeUpdateSchema`, the same fields made optional with
 * a required `id`.
 *
 * The raw object is a datatype whose field types already are the types zod
 * checks (string, number, boolean, array); an enumeration arrives as the
 * string the client sent. Numbers are `real`. The URL and UUID format checks
 * are predicates given as parameters.
 */
module RecipeSchema {
  import opened Wrappers
  import opened RecipeTypes

  /** A field declared `.nullable().optional()`: left out, `null`, or a value. */
  datatype Nullable<T> = Absent | Null | Present(value: T)

  datatype IngredientInput = IngredientInput(name: string, quantity: Option<real>, unit: Option<string>, note: Option<string>)

  datatype GroupInput = GroupInput(group: Option<string>, items: seq<IngredientInput>)

  datatype StepInput = StepInput(order: real, instruction: string, duration: Option<real>)

  datatype MetadataInput = MetadataInput(
    prepTime: Option<real>, cookTime: Option<real>, servings: Option<real>,
    difficulty: Option<string>, sourceUrl: Option<string>)

  /** The object handed to `recipeInsertSchema`. */
  datatype RecipeInput = RecipeInput(
    title: string,
    category: string,
    appliance: Nullable<string>,
    ingredients: seq<GroupInput>,
    steps: seq<StepInput>,
    metadata: Option<MetadataInput>,
    imageUrl: Nullable<string>,
    sourceType: string,
    status: Option<string>,
    isFavorite: Option<bool>,
    tags: Option<seq<string>>)

  /** What a successful parse returns: enumerations read, defaults filled in. */
  datatype RecipeInsert = RecipeInsert(
    title: string,
    category: Category,
    appliance: Nullable<Appliance>,
    ingredients: seq<GroupInput>,
    steps: seq<StepInput>,
    metadata: MetadataInput,
    imageUrl: Nullable<string>,
    sourceType: SourceType,
    status: Status,
    isFavorite: bool,
    tags: seq<string>)

  /** The object handed to `recipeUpdateSchema`: every insert field may be left out. */
  datatype UpdateInput = UpdateInput(
    id: string,
    title: Option<string>,
    category: Option<string>,
    appliance: Nullable<string>,
    ingredients: Option<seq<GroupInput>>,
    steps: Option<seq<StepInput>>,
    metadata: Option<MetadataInput>,
    imageUrl: Nullable<string>,
    sourceType: Option<string>,
    status: Option<string>,
    isFavorite: Option<bool>,
    tags: Option<seq<string>>)

  /** `metadata: recipeMetadataSchema.default({})`. */
  const EmptyMetadata := MetadataInput(None, None, None, None, None)

  /** `z.string().max(200)` on the title. */
  const MaxTitle := 200

  // ---------------------------------------------------------------------------
  // Field checks
  // ---------------------------------------------------------------------------

  /** `z.number().int().positive()`. */
  predicate PositiveInt(x: real) {
    x > 0.0 && x == x.Floor as real
  }

  /** The same, `.optional()`. */
  predicate OptPositiveInt(x: Option<real>) {
    x.None? || PositiveInt(x.value)
  }

  /** `ingredientSchema`: a non-empty name, and a strictly positive quantity when there is one. */
  predicate IngredientValid(i: IngredientInput) {
    |i.name| >= 1 && (i.quantity.None? || i.quantity.value > 0.0)
  }

  /** `ingredientGroupSchema`: at least one item, each valid. */
  predicate GroupValid(g: GroupInput) {
    |g.items| >= 1 && forall k :: 0 <= k < |g.items| ==> IngredientValid(g.items[k])
  }

  /** `recipeStepSchema`. */
  predicate StepValid(s: StepInput) {
    PositiveInt(s.order) && |s.instruction| >= 1 && OptPositiveInt(s.duration)
  }

  /** `z.string().url().optional().or(z.literal(''))`. */
  predicate SourceUrlValid(u: Option<string>, isUrl: string -> bool) {
    u.None? || isUrl(u.value) || u.value == ""
  }

  /** `recipeMetadataSchema`. */
  predicate MetadataValid(m: MetadataInput, isUrl: string -> bool) {
    && OptPositiveInt(m.prepTime)
    && OptPositiveInt(m.cookTime)
    && OptPositiveInt(m.servings)
    && (m.difficulty.None? || DifficultyNamed(m.difficulty.value).Some?)
    && SourceUrlValid(m.sourceUrl, isUrl)
  }

  predicate TitleValid(t: string) {
    1 <= |t| <= MaxTitle
  }

  /** `z.enum([...appliances]).nullable().optional()`. */
  predicate ApplianceValid(a: Nullable<string>) {
    a.Present? ==> ApplianceNamed(a.value).Some?
  }

  /** `z.string().url().nullable().optional()`. */
  predicate ImageUrlValid(u: Nullable<string>, isUrl: string -> bool) {
    u.Present? ==> isUrl(u.value)
  }

  predicate IngredientsValid(gs: seq<GroupInput>) {
    |gs| >= 1 && forall k :: 0 <= k < |gs| ==> GroupValid(gs[k])
  }

  predicate StepsValid(ss: seq<StepInput>) {
    |ss| >= 1 && forall k :: 0 <= k < |ss| ==> StepValid(ss[k])
  }

  predicate StatusValid(s: Option<string>) {
    s.None? || StatusNamed(s.value).Some?
  }

  // ---------------------------------------------------------------------------
  // recipeInsertSchema
  // ---------------------------------------------------------------------------

  /** Every field of the insert schema accepts its value. */
  predicate InsertValid(r: RecipeInput, isUrl: string -> bool) {
    && TitleValid(r.title)
    && CategoryNamed(r.category).Some?
    && ApplianceValid(r.appliance)
    && IngredientsValid(r.ingredients)
    && StepsValid(r.steps)
    && (r.metadata.None? || MetadataValid(r.metadata.value, isUrl))
    && ImageUrlValid(r.imageUrl, isUrl)
    && SourceTypeNamed(r.sourceType).Some?
    && StatusValid(r.status)
  }

  function ReadAppliance(a: Nullable<string>): Nullable<Appliance>
    requires ApplianceValid(a)
  {
    match a
    case Absent => Absent
    case Null => Null
    case Present(s) => Present(ApplianceNamed(s).value)
  }

  /**
   * `recipeInsertSchema.safeParse(r)`: the parsed recipe when every field is
   * valid, with the enumerations read and the defaults of `metadata`,
   * `status`, `is_favorite` and `tags` filled in.
   */
  function ParseInsert(r: RecipeInput, isUrl: string -> bool): (o: Option<RecipeInsert>)
    ensures o.Some? <==> InsertValid(r, isUrl)
    ensures o.Some? ==> && 1 <= |o.value.title| <= MaxTitle
                        && |o.value.ingredients| >= 1
                        && |o.value.steps| >= 1
                        && MetadataValid(o.value.metadata, isUrl)
    ensures o.Some? ==> && CategoryName(o.value.category) == r.category
                        && SourceTypeName(o.value.sourceType) == r.sourceType
    ensures o.Some? && r.metadata.None? ==> o.value.metadata == EmptyMetadata
    ensures o.Some? && r.status.None? ==> o.value.status == ATester
    ensures o.Some? && r.status.Some? ==> StatusName(o.value.status) == r.status.value
    ensures o.Some? && r.isFavorite.None? ==> !o.value.isFavorite
    ensures o.Some? && r.tags.None? ==> o.value.tags == []
  {
    if !InsertValid(r, isUrl) then None
    else Some(RecipeInsert(
      r.title,
      CategoryNamed(r.category).value,
      ReadAppliance(r.appliance),
      r.ingredients,
      r.steps,
      r.metadata.GetOr(EmptyMetadata),
      r.imageUrl,
      SourceTypeNamed(r.sourceType).value,
      if r.status.None? then ATester else StatusNamed(r.status.value).value,
      r.isFavorite.GetOr(false),
      r.tags.GetOr([])))
  }

  /** The raw object a parsed recipe is sent as: every field spelled out. */
  function InsertForm(v: RecipeInsert): RecipeInput {
    RecipeInput(
      v.title,
      CategoryName(v.category),
      match v.appliance
      case Absent => Absent
      case Null => Null
      case Present(a) => Present(ApplianceName(a)),
      v.ingredients,
      v.steps,
      Some(v.metadata),
      v.imageUrl,
      SourceTypeName(v.sourceType),
      Some(StatusName(v.status)),
      Some(v.isFavorite),
      Some(v.tags))
  }

  /** A parsed recipe, sent again, parses to itself: the schema's output is a fixed point. */
  lemma InsertReparses(r: RecipeInput, isUrl: string -> bool)
    requires ParseInsert(r, isUrl).Some?
    ensures ParseInsert(InsertForm(ParseInsert(r, isUrl).value), isUrl) == ParseInsert(r, isUrl)
  {
    NamesRoundTrip();
  }

  /** A metadata number of 0, or a fractional one, makes the whole recipe invalid. */
  lemma MetadataNeedsPositiveInts(r: RecipeInput, isUrl: string -> bool, m: MetadataInput)
    requires r.metadata == Some(m)
    requires m.prepTime == Some(0.0) || m.cookTime == Some(0.0) || m.servings == Some(0.5)
    ensures ParseInsert(r, isUrl).None?
  {
    assert !PositiveInt(0.0);
    assert !PositiveInt(0.5) by { assert (0.5).Floor == 0; }
  }

  // ---------------------------------------------------------------------------
  // recipeUpdateSchema
  // ---------------------------------------------------------------------------

  /**
   * `recipeInsertSchema.partial().extend({ id: z.string().uuid() })`: a
   * field that is present must pass the insert schema's check for it.
   */
  predicate UpdateValid(u: UpdateInput, isUrl: string -> bool, isUuid: string -> bool) {
    && isUuid(u.id)
    && (u.title.None? || TitleValid(u.title.value))
    && (u.category.None? || CategoryNamed(u.category.value).Some?)
    && ApplianceValid(u.appliance)
    && (u.ingredients.None? || IngredientsValid(u.ingredients.value))
    && (u.steps.None? || StepsValid(u.steps.value))
    && (u.metadata.None? || MetadataValid(u.metadata.value, isUrl))
    && ImageUrlValid(u.imageUrl, isUrl)
    && (u.sourceType.None? || SourceTypeNamed(u.sourceType.value).Some?)
    && StatusValid(u.status)
  }

  /** An insert object turned into an update of the recipe `id`. */
  function AsUpdate(r: RecipeInput, id: string): UpdateInput {
    UpdateInput(id, Some(r.title), Some(r.category), r.appliance, Some(r.ingredients), Some(r.steps),
      r.metadata, r.imageUrl, Some(r.sourceType), r.status, r.isFavorite, r.tags)
  }

  /** The update with nothing but an `id`. */
  function IdOnly(id: string): UpdateInput {
    UpdateInput(id, None, None, Absent, None, None, None, Absent, None, None, None, None)
  }

  /**
   * Relaxing the insert schema: an insert object sent as an update is
   * accepted exactly when the insert schema accepts it and the id is a UUID.
   */
  lemma UpdateOfInsert(r: RecipeInput, id: string, isUrl: string -> bool, isUuid: string -> bool)
    ensures UpdateValid(AsUpdate(r, id), isUrl, isUuid) <==> isUuid(id) && ParseInsert(r, isUrl).Some?
  {
  }

  /** Every field is optional: an update naming only its id is accepted iff the id is a UUID. */
  lemma UpdateOnlyNeedsId(id: string, isUrl: string -> bool, isUuid: string -> bool)
    ensures UpdateValid(IdOnly(id), isUrl, isUuid) <==> isUuid(id)
  {
  }
}
