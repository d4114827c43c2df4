/**
 * The recipe enumerations: the eleven categories, the difficulties, the
 * statuses with their rotation order, the appliances and the import source
 * types, each with the string the app stores and the French label it shows.
 */
module RecipeTypes {
  import opened Wrappers

  datatype Category =
    | Apero | Entree | Plat | Accompagnement | Sauce | Dessert | Boisson
    | PetitDejeuner | Gouter | PainViennoiserie | Conserve

  datatype Difficulty = Facile | Moyen | Difficile

  datatype Status = ATester | Testee | Approuvee

  datatype Appliance = Airfryer | RobotCuiseur | Cookeo

  datatype SourceType = Manual | Url | Paste | Photo | Video

  /** The eleven categories, in declaration order. */
  const Categories: seq<Category> :=
    [Apero, Entree, Plat, Accompagnement, Sauce, Dessert, Boisson,
     PetitDejeuner, Gouter, PainViennoiserie, Conserve]

  /** `RECIPE_STATUSES`, the order of the status filter. */
  const Statuses: seq<Status> := [ATester, Testee, Approuvee]

  /** `RECIPE_APPLIANCES`, the order of the appliance filter. */
  const Appliances: seq<Appliance> := [Airfryer, RobotCuiseur, Cookeo]

  const Difficulties: seq<Difficulty> := [Facile, Moyen, Difficile]

  // ---------------------------------------------------------------------------
  // Stored names
  // ---------------------------------------------------------------------------

  function CategoryName(c: Category): string {
    match c
    case Apero => "apero"
    case Entree => "entree"
    case Plat => "plat"
    case Accompagnement => "accompagnement"
    case Sauce => "sauce"
    case Dessert => "dessert"
    case Boisson => "boisson"
    case PetitDejeuner => "petit_dejeuner"
    case Gouter => "gouter"
    case PainViennoiserie => "pain_viennoiserie"
    case Conserve => "conserve"
  }

  /** The category a stored name denotes, if it is one of the eleven. */
  function CategoryNamed(s: string): (r: Option<Category>)
    ensures r.Some? ==> CategoryName(r.value) == s
    ensures r.None? ==> forall c: Category :: CategoryName(c) != s
  {
    if s == "apero" then Some(Apero)
    else if s == "entree" then Some(Entree)
    else if s == "plat" then Some(Plat)
    else if s == "accompagnement" then Some(Accompagnement)
    else if s == "sauce" then Some(Sauce)
    else if s == "dessert" then Some(Dessert)
    else if s == "boisson" then Some(Boisson)
    else if s == "petit_dejeuner" then Some(PetitDejeuner)
    else if s == "gouter" then Some(Gouter)
    else if s == "pain_viennoiserie" then Some(PainViennoiserie)
    else if s == "conserve" then Some(Conserve)
    else None
  }

  function DifficultyName(d: Difficulty): string {
    match d
    case Facile => "facile"
    case Moyen => "moyen"
    case Difficile => "difficile"
  }

  function DifficultyNamed(s: string): (r: Option<Difficulty>)
    ensures r.Some? ==> DifficultyName(r.value) == s
    ensures r.None? ==> forall d: Difficulty :: DifficultyName(d) != s
  {
    if s == "facile" then Some(Facile)
    else if s == "moyen" then Some(Moyen)
    else if s == "difficile" then Some(Difficile)
    else None
  }

  function StatusName(s: Status): string {
    match s
    case ATester => "a_tester"
    case Testee => "testee"
    case Approuvee => "approuvee"
  }

  function StatusNamed(s: string): (r: Option<Status>)
    ensures r.Some? ==> StatusName(r.value) == s
    ensures r.None? ==> forall t: Status :: StatusName(t) != s
  {
    if s == "a_tester" then Some(ATester)
    else if s == "testee" then Some(Testee)
    else if s == "approuvee" then Some(Approuvee)
    else None
  }

  function ApplianceName(a: Appliance): string {
    match a
    case Airfryer => "airfryer"
    case RobotCuiseur => "robot_cuiseur"
    case Cookeo => "cookeo"
  }

  function ApplianceNamed(s: string): (r: Option<Appliance>)
    ensures r.Some? ==> ApplianceName(r.value) == s
    ensures r.None? ==> forall a: Appliance :: ApplianceName(a) != s
  {
    if s == "airfryer" then Some(Airfryer)
    else if s == "robot_cuiseur" then Some(RobotCuiseur)
    else if s == "cookeo" then Some(Cookeo)
    else None
  }

  function SourceTypeName(t: SourceType): string {
    match t
    case Manual => "manual"
    case Url => "url"
    case Paste => "paste"
    case Photo => "photo"
    case Video => "video"
  }

  function SourceTypeNamed(s: string): (r: Option<SourceType>)
    ensures r.Some? ==> SourceTypeName(r.value) == s
    ensures r.None? ==> forall t: SourceType :: SourceTypeName(t) != s
  {
    if s == "manual" then Some(Manual)
    else if s == "url" then Some(Url)
    else if s == "paste" then Some(Paste)
    else if s == "photo" then Some(Photo)
    else if s == "video" then Some(Video)
    else None
  }

  /** Reading back a stored name gives the value it was written from. */
  lemma NamesRoundTrip()
    ensures forall c: Category :: CategoryNamed(CategoryName(c)) == Some(c)
    ensures forall d: Difficulty :: DifficultyNamed(DifficultyName(d)) == Some(d)
    ensures forall s: Status :: StatusNamed(StatusName(s)) == Some(s)
    ensures forall a: Appliance :: ApplianceNamed(ApplianceName(a)) == Some(a)
    ensures forall t: SourceType :: SourceTypeNamed(SourceTypeName(t)) == Some(t)
  {
    forall c: Category ensures CategoryNamed(CategoryName(c)) == Some(c) {
      match c
      case Apero => case Entree => case Plat => case Accompagnement => case Sauce =>
      case Dessert => case Boisson => case PetitDejeuner => case Gouter =>
      case PainViennoiserie => case Conserve =>
    }
  }

  // ---------------------------------------------------------------------------
  // Labels
  // ---------------------------------------------------------------------------

  /** `RECIPE_CATEGORY_LABELS`. */
  function CategoryLabel(c: Category): string {
    match c
    case Apero => "Apéritif"
    case Entree => "Entrée"
    case Plat => "Plat principal"
    case Accompagnement => "Accompagnement"
    case Sauce => "Sauce"
    case Dessert => "Dessert"
    case Boisson => "Boisson"
    case PetitDejeuner => "Petit-déjeuner"
    case Gouter => "Goûter"
    case PainViennoiserie => "Pain & Viennoiserie"
    case Conserve => "Conserve"
  }

  /** `RECIPE_DIFFICULTY_LABELS`. */
  function DifficultyLabel(d: Difficulty): string {
    match d
    case Facile => "Facile"
    case Moyen => "Moyen"
    case Difficile => "Difficile"
  }

  /** `RECIPE_APPLIANCE_LABELS`. */
  function ApplianceLabel(a: Appliance): string {
    match a
    case Airfryer => "Airfryer"
    case RobotCuiseur => "Robot cuiseur"
    case Cookeo => "Cookeo"
  }

  /** `RECIPE_STATUS_LABELS`. */
  function StatusLabel(s: Status): string {
    match s
    case ATester => "À tester"
    case Testee => "Testée"
    case Approuvee => "Approuvée"
  }

  /** There are exactly eleven categories, listed once each, each with a non-empty label. */
  lemma CategoriesComplete()
    ensures |Categories| == 11
    ensures forall c: Category :: c in Categories
    ensures forall i, j :: 0 <= i < j < |Categories| ==> Categories[i] != Categories[j]
    ensures forall c: Category :: CategoryLabel(c) != ""
  {
    forall c: Category ensures c in Categories {
      match c
      case Apero => case Entree => case Plat => case Accompagnement => case Sauce =>
      case Dessert => case Boisson => case PetitDejeuner => case Gouter =>
      case PainViennoiserie => case Conserve =>
    }
  }

  /** `RECIPE_APPLIANCES` lists each of the three appliances once, each with a non-empty label. */
  lemma AppliancesComplete()
    ensures |Appliances| == 3
    ensures forall a: Appliance :: a in Appliances
    ensures forall i, j :: 0 <= i < j < |Appliances| ==> Appliances[i] != Appliances[j]
    ensures forall a: Appliance :: ApplianceLabel(a) != ""
  {
    forall a: Appliance ensures a in Appliances {
      match a
      case Airfryer => case RobotCuiseur => case Cookeo =>
    }
  }

  // ---------------------------------------------------------------------------
  // The status cycle
  // ---------------------------------------------------------------------------

  /** `RECIPE_STATUS_CYCLE`: the status a click on the status badge moves to. */
  function NextStatus(s: Status): Status {
    match s
    case ATester => Testee
    case Testee => Approuvee
    case Approuvee => ATester
  }

  /** The cycle moves every status, and three clicks come back to the start. */
  lemma StatusCycleOrder(s: Status)
    ensures NextStatus(s) != s
    ensures NextStatus(NextStatus(s)) != s
    ensures NextStatus(NextStatus(NextStatus(s))) == s
  {
  }

  /** `RECIPE_STATUSES` lists each status once, and the cycle moves entry i to entry (i + 1) mod 3. */
  lemma StatusListFollowsCycle()
    ensures |Statuses| == 3
    ensures forall s: Status :: s in Statuses
    ensures forall i, j :: 0 <= i < j < |Statuses| ==> Statuses[i] != Statuses[j]
    ensures forall i :: 0 <= i < |Statuses| ==> NextStatus(Statuses[i]) == Statuses[(i + 1) % 3]
  {
    forall s: Status ensures s in Statuses {
      match s
      case ATester => case Testee => case Approuvee =>
    }
  }
}
