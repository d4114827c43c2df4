/**
 * The AI importers (text, photo and web page) without the model call: the
 * API-key check, the recovery of a JSON object from the model's reply, its
 * conversion into a `ParsedRecipe` with every enumeration clamped, the
 * classification of thrown errors, and the chain that turns a web page's
 * HTML into the plain text sent to the model.
 *
 * The model call itself is a parameter: its reply text, or the error it
 * throws. `JSON.parse` is a parameter too.
 */
module AiParser {
  import opened Wrappers
  import opened Strings
  import opened Regex
  import opened Json
  import opened RecipeTypes
  import opened ParserTypes

  // ---------------------------------------------------------------------------
  // getClient
  // ---------------------------------------------------------------------------

  /** The value `.env.local` ships with, which counts as no key. */
  const KeyPlaceholder: string := "REMPLACEZ_PAR_VOTRE_CLE"

  const KeyName: string := "ANTHROPIC_API_KEY"

  /** The message of the error `getClient` throws. */
  const KeyMissing: string := KeyName + " non configurée. Ajoutez votre clé dans .env.local"

  /** `getClient`: the message of the error it throws, or `None` when it makes a client. */
  function KeyError(apiKey: Option<string>): (r: Option<string>)
    ensures r.None? <==> apiKey.Some? && apiKey.value != "" && apiKey.value != KeyPlaceholder
    ensures r.Some? ==> Contains(r.value, KeyName)
  {
    KeyMissingMentionsKey();
    if apiKey.None? || apiKey.value == "" || apiKey.value == KeyPlaceholder then Some(KeyMissing) else None
  }

  /** A string that starts with `p` contains it. */
  lemma PrefixContained(p: string, rest: string)
    ensures Contains(p + rest, p)
  {
    assert OccursAt(p + rest, p, 0) by {
      assert (p + rest)[0..|p|] == p;
    }
  }

  lemma KeyMissingMentionsKey()
    ensures Contains(KeyMissing, KeyName)
  {
    PrefixContained(KeyName, " non configurée. Ajoutez votre clé dans .env.local");
  }

  // ---------------------------------------------------------------------------
  // handleError
  // ---------------------------------------------------------------------------

  /** What an importer's `catch` receives: an `Error` with its message, or any other thrown value. */
  datatype Thrown = ErrorObject(message: string) | OtherValue

  const AuthMessage: string := "Clé API Anthropic invalide. Vérifiez ANTHROPIC_API_KEY dans .env.local"
  const RateMessage: string := "Trop de requêtes. Réessayez dans quelques secondes."
  const TimeoutMessage: string := "L'analyse a pris trop de temps. Réessayez."
  const GenericMessage: string := "Erreur lors de l'analyse IA. Réessayez ou remplissez manuellement."

  /** The message mentions the key, and is shown as it is. */
  predicate MentionsKey(m: string) {
    Contains(m, KeyName)
  }

  predicate MentionsAuth(m: string) {
    Contains(m, "authentication") || Contains(m, "401")
  }

  predicate MentionsRate(m: string) {
    Contains(m, "rate") || Contains(m, "429")
  }

  predicate MentionsTimeout(m: string) {
    Contains(m, "timeout") || Contains(m, "ETIMEDOUT")
  }

  /** `handleError`: the first rule whose words the message contains decides the user message. */
  function HandleError(err: Thrown): (r: ParseResult)
    ensures r.Failed?
    ensures err.OtherValue? ==> r.error == GenericMessage
    ensures err.ErrorObject? && MentionsKey(err.message) ==> r.error == err.message
    ensures err.ErrorObject? && !MentionsKey(err.message) ==>
      r.error in {AuthMessage, RateMessage, TimeoutMessage, GenericMessage}
  {
    match err
    case OtherValue => Failed(GenericMessage)
    case ErrorObject(m) =>
      if MentionsKey(m) then Failed(m)
      else if MentionsAuth(m) then Failed(AuthMessage)
      else if MentionsRate(m) then Failed(RateMessage)
      else if MentionsTimeout(m) then Failed(TimeoutMessage)
      else Failed(GenericMessage)
  }

  /** The rules are tried in order: a message matching several gets the first rule's text. */
  lemma HandleErrorOrder(m: string)
    ensures !MentionsKey(m) && MentionsAuth(m) ==> HandleError(ErrorObject(m)) == Failed(AuthMessage)
    ensures !MentionsKey(m) && !MentionsAuth(m) && MentionsRate(m) ==> HandleError(ErrorObject(m)) == Failed(RateMessage)
    ensures !MentionsKey(m) && !MentionsAuth(m) && !MentionsRate(m) && MentionsTimeout(m) ==>
      HandleError(ErrorObject(m)) == Failed(TimeoutMessage)
    ensures !MentionsKey(m) && !MentionsAuth(m) && !MentionsRate(m) && !MentionsTimeout(m) ==>
      HandleError(ErrorObject(m)) == Failed(GenericMessage)
  {
  }

  /** The error `getClient` throws reaches the user unchanged. */
  lemma KeyErrorShown(apiKey: Option<string>)
    requires KeyError(apiKey).Some?
    ensures HandleError(ErrorObject(KeyError(apiKey).value)) == Failed(KeyMissing)
  {
  }

  // ---------------------------------------------------------------------------
  // extractJson
  // ---------------------------------------------------------------------------

  const Fence: string := "```"

  /**
   * The text captured by ```` /```(?:json)?\s*([\s\S]*?)```/ ````: after the
   * first fence, an optional `json` tag and whitespace, up to the next fence.
   * A later start could only see fewer closing fences, so when the first
   * fence has no partner there is no match at all.
   */
  function FencedBlock(text: string): (r: Option<string>)
    ensures r.Some? ==> Contains(text, Fence)
    ensures r.Some? ==> !Contains(r.value, Fence)
  {
    match IndexOf(text, Fence, 0)
    case None => None
    case Some(p) =>
      var afterTag := if OccursAt(text, "json", p + 3) then p + 7 else p + 3;
      var start := afterTag + LeadingSpaces(text[afterTag..]);
      match IndexOf(text, Fence, start)
      case None => None
      case Some(q) =>
        NoFenceBefore(text, start, q);
        Some(text[start..q])
  }

  /** A slice that ends before the first fence from its start contains no fence. */
  lemma NoFenceBefore(text: string, start: nat, q: nat)
    requires start <= q <= |text|
    requires forall j :: start <= j < q ==> !OccursAt(text, Fence, j)
    ensures !Contains(text[start..q], Fence)
  {
    var s := text[start..q];
    forall j | 0 <= j
      ensures !OccursAt(s, Fence, j)
    {
      if j + 3 <= |s| {
        assert s[j] == text[start + j] && s[j + 1] == text[start + j + 1] && s[j + 2] == text[start + j + 2];
        assert s[j..j + 3] == text[start + j..start + j + 3];
        assert !OccursAt(text, Fence, start + j);
      }
    }
  }

  /**
   * The span matched by `/\{[\s\S]*\}/`: from the first `{` to the last `}`,
   * present when some `}` follows the first `{`.
   */
  function BraceSpan(text: string): (r: Option<(nat, nat)>)
    ensures r.Some? ==> r.value.0 < r.value.1 < |text| && text[r.value.0] == '{' && text[r.value.1] == '}'
    ensures r.Some? ==> '{' !in text[..r.value.0] && '}' !in text[r.value.1 + 1..]
    ensures r.None? <==> forall i, j :: 0 <= i < j < |text| && text[i] == '{' ==> text[j] != '}'
  {
    match IndexOfChar(text, '{')
    case None => None
    case Some(a) =>
      match LastIndexOfChar(text, '}')
      case Some(b) =>
        if a < b then Some((a, b))
        else
          assert forall i :: 0 <= i < a ==> text[i] != '{' by {
            assert forall i :: 0 <= i < a ==> text[i] == text[..a][i];
          }
          None
      case None => None
  }

  /** `s.lastIndexOf(c)`. */
  function LastIndexOfChar(s: string, c: char): (r: Option<nat>)
    ensures r.Some? ==> r.value < |s| && s[r.value] == c && c !in s[r.value + 1..]
    ensures r.None? ==> c !in s
  {
    if s == [] then None
    else if s[|s| - 1] == c then Some(|s| - 1)
    else
      var r := LastIndexOfChar(s[..|s| - 1], c);
      assert s == s[..|s| - 1] + [s[|s| - 1]];
      r
  }

  /**
   * `extractJson`: the whole trimmed reply, else the trimmed fenced block,
   * else the brace span, each read by `JSON.parse`; `None` when all three
   * fail.
   */
  function ExtractJson(text: string, parse: Parser): (r: Option<Json>)
    ensures parse(Trim(text)).Some? ==> r == parse(Trim(text))
    ensures parse(Trim(text)).None? && FencedBlock(text).Some? && parse(Trim(FencedBlock(text).value)).Some? ==>
      r == parse(Trim(FencedBlock(text).value))
    ensures parse(Trim(text)).None? && (FencedBlock(text).None? || parse(Trim(FencedBlock(text).value)).None?) ==>
      r == BracedJson(text, parse)
  {
    var whole := parse(Trim(text));
    var block := FencedBlock(text);
    var fenced := if block.Some? then parse(Trim(block.value)) else None;
    if whole.Some? then whole else if fenced.Some? then fenced else BracedJson(text, parse)
  }

  /** The third stage: `JSON.parse` of the untrimmed brace span, none without one. */
  function BracedJson(text: string, parse: Parser): Option<Json> {
    match BraceSpan(text)
    case None => None
    case Some(span) => parse(text[span.0..span.1 + 1])
  }

  /** The reply yields no JSON exactly when the whole text, the fenced block and the brace span all fail to parse. */
  lemma NoJsonFound(text: string, parse: Parser)
    ensures ExtractJson(text, parse).None? <==>
      parse(Trim(text)).None? &&
      (FencedBlock(text).None? || parse(Trim(FencedBlock(text).value)).None?) &&
      (BraceSpan(text).None? || parse(text[BraceSpan(text).value.0..BraceSpan(text).value.1 + 1]).None?)
  {
  }

  /**
   * A reply that is not JSON as a whole but holds a ```` ```json ```` block
   * whose body is JSON is read from that body.
   */
  lemma FencedReply(pre: string, body: string, post: string, parse: Parser)
    requires '`' !in pre && '`' !in body
    requires body == [] || !IsSpace(body[0])
    requires parse(Trim(pre + "```json\n" + body + "```" + post)).None?
    requires parse(Trim(body)).Some?
    ensures ExtractJson(pre + "```json\n" + body + "```" + post, parse) == parse(Trim(body))
  {
    FencedBlockOf(pre, body, post);
  }

  /** The fenced block of `pre ```json\n body ``` post` is `body`. */
  lemma FencedBlockOf(pre: string, body: string, post: string)
    requires '`' !in pre && '`' !in body
    requires body == [] || !IsSpace(body[0])
    ensures FencedBlock(pre + "```json\n" + body + "```" + post) == Some(body)
  {
    var text := pre + "```json\n" + body + "```" + post;
    FencedShape(pre, body, post, text);
    FencedBlockAt(text, pre, body);
  }

  /** Where the pieces of `pre ```json\n body ``` post` sit. */
  lemma FencedShape(pre: string, body: string, post: string, text: string)
    requires text == pre + "```json\n" + body + "```" + post
    ensures |text| == |pre| + 11 + |body| + |post|
    ensures text[..|pre|] == pre && text[|pre|..|pre| + 3] == Fence && OccursAt(text, "json", |pre| + 3)
    ensures text[|pre| + 7] == '\n' && text[|pre| + 8..|pre| + 8 + |body|] == body
    ensures text[|pre| + 8 + |body|..|pre| + 8 + |body| + 3] == Fence
  {
    var p := |pre|;
    assert text == pre + ("```" + ("json" + ("\n" + (body + ("```" + post)))));
    assert text[p + 3..p + 7] == "json";
  }

  /** `FencedBlock` on a text laid out as `pre ```json\n body ``` …`. */
  lemma FencedBlockAt(text: string, pre: string, body: string)
    requires |pre| + 8 + |body| + 3 <= |text|
    requires '`' !in pre && '`' !in body
    requires body == [] || !IsSpace(body[0])
    requires text[..|pre|] == pre && text[|pre|..|pre| + 3] == Fence && OccursAt(text, "json", |pre| + 3)
    requires text[|pre| + 7] == '\n' && text[|pre| + 8..|pre| + 8 + |body|] == body
    requires text[|pre| + 8 + |body|..|pre| + 8 + |body| + 3] == Fence
    ensures FencedBlock(text) == Some(body)
  {
    FirstFence(text, pre);
    SpaceAfterTag(text, pre, body);
    FenceAfter(text, |pre| + 8, body);
    assert |pre| + 8 == |pre| + 7 + LeadingSpaces(text[|pre| + 7..]);
    FencedBlockFrom(text, |pre|, |pre| + 8, |pre| + 8 + |body|, body);
  }

  /** A text starting with backquote-free `pre` and then a fence has its first fence at `|pre|`. */
  lemma FirstFence(text: string, pre: string)
    requires |pre| + 3 <= |text| && '`' !in pre
    requires text[..|pre|] == pre && text[|pre|..|pre| + 3] == Fence
    ensures IndexOf(text, Fence, 0) == Some(|pre|)
  {
    assert text[0..0 + |pre|] == pre;
    FenceAfter(text, 0, pre);
  }

  /** The newline after the tag is the only space before a body that does not start with one. */
  lemma SpaceAfterTag(text: string, pre: string, body: string)
    requires |pre| + 8 + |body| + 3 <= |text|
    requires body == [] || !IsSpace(body[0])
    requires text[|pre| + 7] == '\n' && text[|pre| + 8..|pre| + 8 + |body|] == body
    requires text[|pre| + 8 + |body|..|pre| + 8 + |body| + 3] == Fence
    ensures LeadingSpaces(text[|pre| + 7..]) == 1
  {
    assert text[|pre| + 8 + |body|] == Fence[0];
    SpacesThenBody(text, |pre| + 7, |pre| + 8, body);
  }

  /** `FencedBlock` from where its two fences and the `json` tag were found. */
  lemma FencedBlockFrom(text: string, p: nat, start: nat, q: nat, body: string)
    requires IndexOf(text, Fence, 0) == Some(p) && OccursAt(text, "json", p + 3)
    requires p + 7 <= |text| && start == p + 7 + LeadingSpaces(text[p + 7..])
    requires IndexOf(text, Fence, start) == Some(q) && text[start..q] == body
    ensures FencedBlock(text) == Some(body)
  {
  }

  /** The first fence at or after `from` follows a segment without backquotes. */
  lemma FenceAfter(text: string, from: nat, seg: string)
    requires from + |seg| + 3 <= |text|
    requires text[from..from + |seg|] == seg && '`' !in seg
    requires text[from + |seg|..from + |seg| + 3] == Fence
    ensures IndexOf(text, Fence, from) == Some(from + |seg|)
  {
    forall j | from <= j < from + |seg|
      ensures !OccursAt(text, Fence, j)
    {
      assert text[j] == seg[j - from];
    }
    IndexOfFirst(text, Fence, from, from + |seg|);
  }

  /** `IndexOf` finds an occurrence with none before it. */
  lemma IndexOfFirst(s: string, p: string, from: nat, i: nat)
    requires from <= i && OccursAt(s, p, i)
    requires forall j :: from <= j < i ==> !OccursAt(s, p, j)
    ensures IndexOf(s, p, from) == Some(i)
    decreases i - from
  {
    if from < i {
      IndexOfFirst(s, p, from + 1, i);
    }
  }

  /** The one newline after the tag is the whole whitespace run when the body does not start with whitespace. */
  lemma SpacesThenBody(text: string, k: nat, start: nat, body: string)
    requires k < |text| && start == k + 1 && IsSpace(text[k])
    requires start + |body| <= |text| && text[start..start + |body|] == body
    requires body == [] || !IsSpace(body[0])
    requires start + |body| < |text| && text[start + |body|] == '`'
    ensures LeadingSpaces(text[k..]) == 1
  {
    var t := text[k..];
    assert t[0] == text[k];
    assert t[1..] == text[start..];
    if body != [] {
      assert text[start] == body[0];
    } else {
      assert text[start] == '`';
    }
  }

  // ---------------------------------------------------------------------------
  // jsonToParsedRecipe
  // ---------------------------------------------------------------------------

  /** Which importer asked: pasted text, a photo, or a web page with its URL. */
  datatype AiSource = PastedText | RecipePhoto | WebPage(url: string)

  function ImportSourceOf(src: AiSource): ImportSource {
    match src
    case PastedText => FromPaste
    case RecipePhoto => FromPhoto
    case WebPage(_) => FromUrl
  }

  function SourceUrlOf(src: AiSource): Option<string> {
    match src
    case WebPage(url) => Some(url)
    case _ => None
  }

  /** `typeof v === 'number' ? v : undefined`. */
  function NumberField(v: Option<Json>): (r: Option<int>)
    ensures r.Some? <==> v.Some? && v.value.JNumber?
    ensures r.Some? ==> r.value == v.value.n
  {
    if v.Some? && v.value.JNumber? then Some(v.value.n) else None
  }

  /**
   * `jsonToParsedRecipe`: the trimmed title, the texts as strings, numbers
   * only where the reply has numbers, and the category, appliance and
   * difficulty only where `String(value)` is one of the stored names.
   */
  function RecipeOfJson(json: Json, src: AiSource): (r: ParsedRecipe)
    ensures r.title == Trim(StrOrEmpty(Get(json, "title")))
    ensures CategoryNamed(ToStrOpt(Get(json, "category"))).Some? ==>
      r.category == CategoryNamed(ToStrOpt(Get(json, "category"))).value
    ensures CategoryNamed(ToStrOpt(Get(json, "category"))).None? ==> r.category == Plat
    ensures r.appliance == ApplianceNamed(ToStrOpt(Get(json, "appliance")))
    ensures r.difficulty == DifficultyNamed(ToStrOpt(Get(json, "difficulty")))
    ensures r.sourceType == ImportSourceOf(src) && r.sourceUrl == SourceUrlOf(src) && r.imageUrl.None?
  {
    ParsedRecipe(
      title := Trim(StrOrEmpty(Get(json, "title"))),
      category := CategoryNamed(ToStrOpt(Get(json, "category"))).GetOr(Plat),
      appliance := ApplianceNamed(ToStrOpt(Get(json, "appliance"))),
      ingredientsText := StrOrEmpty(Get(json, "ingredients_text")),
      stepsText := StrOrEmpty(Get(json, "steps_text")),
      prepTime := NumberField(Get(json, "prep_time")),
      cookTime := NumberField(Get(json, "cook_time")),
      servings := NumberField(Get(json, "servings")),
      difficulty := DifficultyNamed(ToStrOpt(Get(json, "difficulty"))),
      sourceType := ImportSourceOf(src),
      sourceUrl := SourceUrlOf(src),
      imageUrl := None)
  }

  /** A number, or `null`. */
  function NumberOrNull(n: Option<int>): Json {
    match n
    case Some(k) => JNumber(k)
    case None => JNull
  }

  /** The reply the system prompt asks for, describing `p`. */
  function ReplyJson(p: ParsedRecipe): Json {
    JObject([
      ("title", JString(p.title)),
      ("category", JString(CategoryName(p.category))),
      ("appliance", match p.appliance case Some(a) => JString(ApplianceName(a)) case None => JNull),
      ("ingredients_text", JString(p.ingredientsText)),
      ("steps_text", JString(p.stepsText)),
      ("prep_time", NumberOrNull(p.prepTime)),
      ("cook_time", NumberOrNull(p.cookTime)),
      ("servings", NumberOrNull(p.servings)),
      ("difficulty", match p.difficulty case Some(d) => JString(DifficultyName(d)) case None => JNull)])
  }

  /**
   * A reply in the requested format is read back as the recipe it
   * describes, provided the title has no surrounding whitespace.
   */
  lemma ReplyRoundTrip(p: ParsedRecipe, src: AiSource)
    requires Trim(p.title) == p.title
    requires p.sourceType == ImportSourceOf(src) && p.sourceUrl == SourceUrlOf(src) && p.imageUrl.None?
    ensures RecipeOfJson(ReplyJson(p), src) == p
  {
    ReplyTextsRead(p, src);
    ReplyNumbersRead(p, src);
    ReplyEnumsRead(p);
  }

  lemma ReplyTextsRead(p: ParsedRecipe, src: AiSource)
    requires Trim(p.title) == p.title
    ensures RecipeOfJson(ReplyJson(p), src).title == p.title
    ensures RecipeOfJson(ReplyJson(p), src).ingredientsText == p.ingredientsText
    ensures RecipeOfJson(ReplyJson(p), src).stepsText == p.stepsText
  {
    ReplyTexts(p);
    var j := ReplyJson(p);
    assert StrOrEmpty(Get(j, "title")) == p.title;
    assert StrOrEmpty(Get(j, "ingredients_text")) == p.ingredientsText;
    assert StrOrEmpty(Get(j, "steps_text")) == p.stepsText;
  }

  lemma ReplyNumbersRead(p: ParsedRecipe, src: AiSource)
    ensures RecipeOfJson(ReplyJson(p), src).prepTime == p.prepTime
    ensures RecipeOfJson(ReplyJson(p), src).cookTime == p.cookTime
    ensures RecipeOfJson(ReplyJson(p), src).servings == p.servings
  {
    ReplyNumbers(p);
  }

  /** The enumeration members of the requested reply are read back as the values they name. */
  lemma ReplyEnumsRead(p: ParsedRecipe)
    ensures CategoryNamed(ToStrOpt(Get(ReplyJson(p), "category"))) == Some(p.category)
    ensures ApplianceNamed(ToStrOpt(Get(ReplyJson(p), "appliance"))) == p.appliance
    ensures DifficultyNamed(ToStrOpt(Get(ReplyJson(p), "difficulty"))) == p.difficulty
  {
    ReplyEnums(p);
    CategoryNameRead(p.category);
    ApplianceRead(p.appliance);
    DifficultyRead(p.difficulty);
  }

  lemma CategoryNameRead(c: Category)
    ensures CategoryNamed(ToStrOpt(Some(JString(CategoryName(c))))) == Some(c)
  {
    match c {
      case Apero => case Entree => case Plat => case Accompagnement => case Sauce =>
      case Dessert => case Boisson => case PetitDejeuner => case Gouter =>
      case PainViennoiserie => case Conserve =>
    }
  }

  lemma ApplianceRead(a: Option<Appliance>)
    ensures ApplianceNamed(ToStrOpt(Some(match a case Some(x) => JString(ApplianceName(x)) case None => JNull))) == a
  {
    match a {
      case Some(x) => assert ApplianceNamed(ApplianceName(x)) == Some(x) by { match x case Airfryer => case RobotCuiseur => case Cookeo => }
      case None => assert ApplianceNamed("null").None?;
    }
  }

  lemma DifficultyRead(d: Option<Difficulty>)
    ensures DifficultyNamed(ToStrOpt(Some(match d case Some(x) => JString(DifficultyName(x)) case None => JNull))) == d
  {
    match d {
      case Some(x) => assert DifficultyNamed(DifficultyName(x)) == Some(x) by { match x case Facile => case Moyen => case Difficile => }
      case None => assert DifficultyNamed("null").None?;
    }
  }

  /** The text fields of the requested reply are read back from their members. */
  lemma ReplyTexts(p: ParsedRecipe)
    ensures Get(ReplyJson(p), "title") == Some(JString(p.title))
    ensures Get(ReplyJson(p), "ingredients_text") == Some(JString(p.ingredientsText))
    ensures Get(ReplyJson(p), "steps_text") == Some(JString(p.stepsText))
  {
    var m := ReplyJson(p).members;
    GetMember(m, 0);
    GetMember(m, 3);
    GetMember(m, 4);
  }

  /** The number fields of the requested reply are read back from their members. */
  lemma ReplyNumbers(p: ParsedRecipe)
    ensures Get(ReplyJson(p), "prep_time") == Some(NumberOrNull(p.prepTime))
    ensures Get(ReplyJson(p), "cook_time") == Some(NumberOrNull(p.cookTime))
    ensures Get(ReplyJson(p), "servings") == Some(NumberOrNull(p.servings))
  {
    var m := ReplyJson(p).members;
    GetMember(m, 5);
    GetMember(m, 6);
    GetMember(m, 7);
  }

  /** The enumeration fields of the requested reply are read back from their members. */
  lemma ReplyEnums(p: ParsedRecipe)
    ensures Get(ReplyJson(p), "category") == Some(JString(CategoryName(p.category)))
    ensures Get(ReplyJson(p), "appliance") == Some(ReplyJson(p).members[2].1)
    ensures Get(ReplyJson(p), "difficulty") == Some(ReplyJson(p).members[8].1)
  {
    var m := ReplyJson(p).members;
    GetMember(m, 1);
    GetMember(m, 2);
    GetMember(m, 8);
  }

  /** Property access sees a member whose key no later member repeats. */
  lemma GetMember(members: seq<(string, Json)>, i: nat)
    requires i < |members|
    requires forall j :: i < j < |members| ==> members[j].0 != members[i].0
    ensures Get(JObject(members), members[i].0) == Some(members[i].1)
  {
  }

  // ---------------------------------------------------------------------------
  // The importers
  // ---------------------------------------------------------------------------

  /** What the model call gives: the text of the reply's first block (`""` when it is not text), or the error it throws. */
  datatype Reply = ReplyText(text: string) | CallFailed(err: Thrown)

  /** The message when the reply holds no usable recipe. */
  function NoRecipeMessage(src: AiSource): string {
    match src
    case PastedText => "L'IA n'a pas pu extraire la recette. Vérifiez le texte et réessayez."
    case RecipePhoto => "L'IA n'a pas pu lire la recette sur cette image. Essayez avec une photo plus nette ou remplissez manuellement."
    case WebPage(_) => "L'IA n'a pas pu extraire la recette depuis cette page."
  }

  /** The test `!json || !json.title`. */
  predicate UsableReply(json: Option<Json>) {
    Truthy(json) && Truthy(Get(json.value, "title"))
  }

  /**
   * `parseRecipeWithAI`, `parseRecipeFromImage` and
   * `parseRecipeFromHtmlWithAI` after the prompt is built: the key check,
   * the call, the reply's JSON, and the recipe. Every path ends in a
   * `ParseResult`; nothing is thrown.
   */
  function AiResult(src: AiSource, apiKey: Option<string>, reply: Reply, parse: Parser): (r: ParseResult)
    ensures KeyError(apiKey).Some? ==> r == Failed(KeyMissing)
    ensures KeyError(apiKey).None? && reply.CallFailed? ==> r == HandleError(reply.err)
    ensures KeyError(apiKey).None? && reply.ReplyText? ==>
      (r.Parsed? <==> UsableReply(ExtractJson(reply.text, parse)))
    ensures KeyError(apiKey).None? && reply.ReplyText? && r.Failed? ==> r.error == NoRecipeMessage(src)
    ensures r.Parsed? ==> r.recipe.sourceType == ImportSourceOf(src) && r.recipe.sourceUrl == SourceUrlOf(src)
  {
    match KeyError(apiKey)
    case Some(m) => HandleError(ErrorObject(m))
    case None =>
      match reply
      case CallFailed(err) => HandleError(err)
      case ReplyText(text) =>
        var json := ExtractJson(text, parse);
        if !UsableReply(json) then Failed(NoRecipeMessage(src))
        else Parsed(RecipeOfJson(json.value, src))
  }

  /**
   * The reply's title is tested before it is trimmed: a title made of
   * spaces passes the test and the import succeeds with an empty title.
   */
  lemma BlankTitleAccepted(src: AiSource, apiKey: Option<string>, text: string, parse: Parser, json: Json)
    requires KeyError(apiKey).None?
    requires parse(Trim(text)) == Some(json) && json.JObject? && Get(json, "title") == Some(JString(" "))
    ensures AiResult(src, apiKey, ReplyText(text), parse).Parsed?
    ensures AiResult(src, apiKey, ReplyText(text), parse).recipe.title == ""
  {
    WholeReplyRead(src, apiKey, text, parse, json);
    assert AllSpace(" ");
  }

  /** A reply that is JSON as a whole and has a truthy title gives the recipe read from it. */
  lemma WholeReplyRead(src: AiSource, apiKey: Option<string>, text: string, parse: Parser, json: Json)
    requires KeyError(apiKey).None?
    requires parse(Trim(text)) == Some(json) && UsableReply(Some(json))
    ensures AiResult(src, apiKey, ReplyText(text), parse) == Parsed(RecipeOfJson(json, src))
  {
    assert ExtractJson(text, parse) == Some(json);
  }

  // ---------------------------------------------------------------------------
  // The page text sent to the model
  // ---------------------------------------------------------------------------

  /** The first case-insensitive occurrence of `w` at or after `from`. */
  function CiIndexOf(s: string, w: string, from: nat): (r: Option<nat>)
    ensures r.Some? ==> from <= r.value && WordAt(s, r.value, w, true)
    ensures r.Some? ==> forall j :: from <= j < r.value ==> !WordAt(s, j, w, true)
    ensures r.None? ==> forall j :: from <= j ==> !WordAt(s, j, w, true)
    decreases |s| - from
  {
    if from + |w| > |s| then None
    else if WordAt(s, from, w, true) then Some(from)
    else CiIndexOf(s, w, from + 1)
  }

  /**
   * `s.replace(/<tag[\s\S]*?<\/tag>/gi, '')`: scanning left to right, an
   * opening `<tag` is removed together with everything up to the first
   * closing `</tag>` after it.
   */
  function RemoveElements(s: string, tag: string): (r: string)
    ensures |r| <= |s|
    decreases |s|
  {
    if s == [] then []
    else match ElementEnd(s, tag)
      case Some(e) => RemoveElements(s[e..], tag)
      case None => [s[0]] + RemoveElements(s[1..], tag)
  }

  /**
   * Where an element `<tag…</tag>` that opens at the start of `s` ends: just
   * after the first closing tag that follows the opening `<tag`.
   */
  function ElementEnd(s: string, tag: string): (r: Option<nat>)
    ensures r.Some? ==> 0 < r.value <= |s|
    ensures r.Some? ==> WordAt(s, 0, "<" + tag, true)
  {
    if WordAt(s, 0, "<" + tag, true) then
      match CiIndexOf(s, "</" + tag + ">", |"<" + tag|)
      case Some(j) => Some(j + |tag| + 3)
      case None => None
    else None
  }

  /** The elements removed first, in the order the code removes them. */
  const DroppedElements: seq<string> := ["script", "style", "nav", "footer", "header", "aside"]

  function RemoveAllElements(s: string, tags: seq<string>): (r: string)
    ensures |r| <= |s|
    decreases |tags|
  {
    if tags == [] then s else RemoveAllElements(RemoveElements(s, tags[0]), tags[1..])
  }

  /** The elements are removed one tag after the other, in list order. */
  lemma {:induction false} RemoveAllInOrder(s: string, first: seq<string>, rest: seq<string>)
    ensures RemoveAllElements(s, first + rest) == RemoveAllElements(RemoveAllElements(s, first), rest)
    decreases |first|
  {
    if first == [] {
      assert first + rest == rest;
    } else {
      assert (first + rest)[1..] == first[1..] + rest;
      RemoveAllInOrder(RemoveElements(s, first[0]), first[1..], rest);
    }
  }

  /** `s.replace(/<[^>]+>/g, ' ')`: each `<` with at least one character before the next `>` starts a tag, which becomes a space. */
  function StripTags(s: string): (r: string)
    ensures |r| <= |s|
    decreases |s|
  {
    if s == [] then []
    else if s[0] == '<' then
      match IndexOfChar(s[1..], '>')
      case Some(k) => if k >= 1 then [' '] + StripTags(s[k + 2..]) else [s[0]] + StripTags(s[1..])
      case None => [s[0]] + StripTags(s[1..])
    else [s[0]] + StripTags(s[1..])
  }

  /**
   * `String.fromCharCode(n)`: the UTF-16 code unit `n` modulo 2^16. A
   * surrogate code unit cannot be a character of a Dafny string, so every
   * one is written as U+FFFD, both halves of a valid pair included.
   */
  function CodeUnit(n: nat): char {
    var u := n % 0x1_0000;
    if 0xD800 <= u < 0xE000 then '\U{FFFD}' else u as char
  }

  predicate IsHexDigit(c: char) {
    IsDigit(c) || 'a' <= c <= 'f' || 'A' <= c <= 'F'
  }

  function HexDigitValue(c: char): nat {
    if IsDigit(c) then c as int - '0' as int
    else if 'a' <= c <= 'f' then c as int - 'a' as int + 10
    else if 'A' <= c <= 'F' then c as int - 'A' as int + 10
    else 0
  }

  /** `parseInt(hs, 16)` of a run of hexadecimal digits. */
  function HexValue(hs: string): nat {
    if hs == [] then 0 else 16 * HexValue(hs[..|hs| - 1]) + HexDigitValue(hs[|hs| - 1])
  }

  /** The length of the run of hexadecimal digits from `i`. */
  function HexRun(s: string, i: nat): (k: nat)
    requires i <= |s|
    ensures i + k <= |s|
    ensures forall j :: i <= j < i + k ==> IsHexDigit(s[j])
    ensures i + k < |s| ==> !IsHexDigit(s[i + k])
    decreases |s| - i
  {
    if i == |s| || !IsHexDigit(s[i]) then 0 else 1 + HexRun(s, i + 1)
  }

  /** The decimal reference `&#<digits>;` at the start of `s`: the length of its digit run, or 0. */
  function DecimalRef(s: string): (k: nat)
    ensures k > 0 ==> 3 + k <= |s| && s[0] == '&' && s[1] == '#' && AllDigits(s[2..2 + k]) && s[2 + k] == ';'
  {
    if |s| < 2 || s[0] != '&' || s[1] != '#' then 0
    else
      var k := RunLength(s, 2, Digit, false, Unbounded);
      if k > 0 && 2 + k < |s| && s[2 + k] == ';' then k else 0
  }

  /** `s.replace(/&#(\d+);/g, …)`: each decimal reference becomes the code unit it names. */
  function DecodeDecimal(s: string): (r: string)
    ensures |r| <= |s|
    decreases |s|
  {
    if s == [] then []
    else
      var k := DecimalRef(s);
      if k > 0 then [CodeUnit(Value(s[2..2 + k]))] + DecodeDecimal(s[3 + k..])
      else [s[0]] + DecodeDecimal(s[1..])
  }

  /** The hexadecimal reference `&#x<digits>;` at the start of `s`: the length of its digit run, or 0. */
  function HexRef(s: string): (k: nat)
    ensures k > 0 ==> 4 + k <= |s| && s[0] == '&' && s[1] == '#' && s[3 + k] == ';'
  {
    if |s| < 3 || s[0] != '&' || s[1] != '#' || s[2] != 'x' then 0
    else
      var k := HexRun(s, 3);
      if k > 0 && 3 + k < |s| && s[3 + k] == ';' then k else 0
  }

  /** `s.replace(/&#x([0-9a-fA-F]+);/g, …)`. */
  function DecodeHex(s: string): (r: string)
    ensures |r| <= |s|
    decreases |s|
  {
    if s == [] then []
    else
      var k := HexRef(s);
      if k > 0 then [CodeUnit(HexValue(s[3..3 + k]))] + DecodeHex(s[4 + k..])
      else [s[0]] + DecodeHex(s[1..])
  }

  /**
   * The first non-empty one of `pats` that `s` starts with: the alternative
   * a regular expression tries first (the code has no empty alternative).
   */
  function FirstPrefix(s: string, pats: seq<string>): (r: Option<string>)
    ensures r.Some? ==> r.value in pats && r.value != "" && StartsWith(s, r.value)
    ensures r.None? ==> forall p <- pats :: p == "" || !StartsWith(s, p)
  {
    if pats == [] then None
    else if pats[0] != "" && StartsWith(s, pats[0]) then Some(pats[0])
    else FirstPrefix(s, pats[1..])
  }

  /** `s.replace(/p1|p2|…/g, rep)` for literal alternatives. */
  function ReplaceAll(s: string, pats: seq<string>, rep: string): (r: string)
    ensures (forall p <- pats :: |rep| <= |p|) ==> |r| <= |s|
    decreases |s|
  {
    if s == [] then []
    else match FirstPrefix(s, pats)
      case Some(p) => rep + ReplaceAll(s[|p|..], pats, rep)
      case None => [s[0]] + ReplaceAll(s[1..], pats, rep)
  }

  /**
   * The named entities the code decodes, by name, each group with its
   * replacement, in the order of the `.replace` calls.
   */
  const NamedEntities: seq<(seq<string>, string)> := [
    (["rsquo", "lsquo"], "'"),
    (["rdquo", "ldquo"], "\""),
    (["eacute"], "é"), (["egrave"], "è"), (["ecirc"], "ê"), (["euml"], "ë"),
    (["agrave"], "à"), (["acirc"], "â"),
    (["ocirc"], "ô"), (["ouml"], "ö"),
    (["ucirc"], "û"), (["ugrave"], "ù"), (["uuml"], "ü"),
    (["icirc"], "î"), (["iuml"], "ï"),
    (["ccedil"], "ç"),
    (["amp"], "&"),
    (["nbsp"], " "),
    (["lt"], "<"), (["gt"], ">"),
    (["quot"], "\""), (["apos"], "'")]

  /** `p` has the shape of an entity reference: an ampersand, then the name, then a semicolon. */
  predicate IsEntityRef(p: string) {
    |p| >= 2 && p[0] == '&' && p[|p| - 1] == ';'
  }

  /** The written forms `&name;` of entity names. */
  function EntityRefs(names: seq<string>): (r: seq<string>)
    ensures |r| == |names|
    ensures forall p <- r :: IsEntityRef(p)
  {
    seq(|names|, i requires 0 <= i < |names| => "&" + names[i] + ";")
  }

  /** The chain of named-entity replacements, one table entry after the other. */
  function DecodeNamed(s: string, table: seq<(seq<string>, string)>): (r: string)
    ensures (forall e <- table :: |e.1| <= 2) ==> |r| <= |s|
    decreases |table|
  {
    if table == [] then s else DecodeNamed(ReplaceAll(s, EntityRefs(table[0].0), table[0].1), table[1..])
  }

  /** No two adjacent characters are both whitespace. */
  predicate SingleSpaced(s: string) {
    forall i :: 0 <= i < |s| - 1 ==> !(IsSpace(s[i]) && IsSpace(s[i + 1]))
  }

  /** `s.replace(/\s+/g, ' ')`: each run of whitespace becomes one space. */
  function CollapseSpaces(s: string): (r: string)
    ensures |r| <= |s|
    ensures SingleSpaced(r)
    ensures s == [] <==> r == []
    ensures s != [] ==> (IsSpace(r[0]) <==> IsSpace(s[0]))
    decreases |s|
  {
    if s == [] then []
    else if IsSpace(s[0]) then
      var k := LeadingSpaces(s);
      var rest := CollapseSpaces(s[k..]);
      assert rest != [] ==> !IsSpace(rest[0]);
      [' '] + rest
    else
      [s[0]] + CollapseSpaces(s[1..])
  }

  /** The number of characters the model is sent at most. */
  const PageTextLimit: nat := 8000

  /** `.slice(0, n)`. */
  function Take(s: string, n: nat): (r: string)
    ensures |r| <= n && r <= s
    ensures |s| <= n ==> r == s
  {
    if |s| <= n then s else s[..n]
  }

  /** Tags removed and character references decoded. */
  function DecodedText(html: string): string {
    DecodeNamed(DecodeHex(DecodeDecimal(StripTags(RemoveAllElements(html, DroppedElements)))), NamedEntities)
  }

  /** Whitespace collapsed, trimmed and cut to the limit. */
  function Condensed(s: string): (r: string)
    ensures |r| <= PageTextLimit
    ensures SingleSpaced(r)
  {
    var collapsed := CollapseSpaces(s);
    var trimmed := Trim(collapsed);
    InfixKeepsSingleSpaces(collapsed, LeadingSpaces(collapsed), |trimmed|);
    Take(trimmed, PageTextLimit)
  }

  /**
   * The text `parseRecipeFromHtmlWithAI` sends: scripts, styles and page
   * chrome removed, other tags turned into spaces, character references
   * decoded, whitespace collapsed, trimmed and cut to 8000 characters.
   */
  function PageText(html: string): (r: string)
    ensures |r| <= PageTextLimit
    ensures SingleSpaced(r)
  {
    Condensed(DecodedText(html))
  }

  /** A slice of a text without two adjacent whitespace characters has none either. */
  lemma InfixKeepsSingleSpaces(s: string, a: nat, n: nat)
    requires a + n <= |s| && SingleSpaced(s)
    ensures SingleSpaced(s[a..a + n])
  {
    var t := s[a..a + n];
    forall i | 0 <= i < |t| - 1
      ensures !(IsSpace(t[i]) && IsSpace(t[i + 1]))
    {
      assert t[i] == s[a + i] && t[i + 1] == s[a + i + 1];
    }
  }

  // Text that is already plain passes through unchanged.

  /** A character equal to `<` under `/i` is `<`. */
  lemma CanonOfLessThan(c: char)
    requires CiEq(c, '<')
    ensures c == '<'
  {
  }

  lemma {:induction false} RemoveElementsKeeps(s: string, tag: string)
    requires '<' !in s
    ensures RemoveElements(s, tag) == s
    decreases |s|
  {
    if s != [] {
      if WordAt(s, 0, "<" + tag, true) {
        assert CiEq(s[0], ("<" + tag)[0]);
        CanonOfLessThan(s[0]);
        assert false;
      }
      RemoveElementsKeeps(s[1..], tag);
    }
  }

  lemma {:induction false} RemoveAllKeeps(s: string, tags: seq<string>)
    requires '<' !in s
    ensures RemoveAllElements(s, tags) == s
    decreases |tags|
  {
    if tags != [] {
      RemoveElementsKeeps(s, tags[0]);
      RemoveAllKeeps(s, tags[1..]);
    }
  }

  lemma {:induction false} StripTagsKeeps(s: string)
    requires '<' !in s
    ensures StripTags(s) == s
    decreases |s|
  {
    if s != [] {
      StripTagsKeeps(s[1..]);
    }
  }

  lemma {:induction false} DecodeDecimalKeeps(s: string)
    requires '&' !in s
    ensures DecodeDecimal(s) == s
    decreases |s|
  {
    if s != [] {
      DecodeDecimalKeeps(s[1..]);
    }
  }

  lemma {:induction false} DecodeHexKeeps(s: string)
    requires '&' !in s
    ensures DecodeHex(s) == s
    decreases |s|
  {
    if s != [] {
      DecodeHexKeeps(s[1..]);
    }
  }

  // Each cleaning step removes, replaces or decodes what its pattern matches.

  /** `w` occurs case-insensitively at no position from `from` up to `at`. */
  predicate NoWordBetween(s: string, w: string, from: nat, at: nat)
    decreases at - from
  {
    from >= at || (!WordAt(s, from, w, true) && NoWordBetween(s, w, from + 1, at))
  }

  /** The first case-insensitive occurrence from `from` is at `at` when `w` is there and nowhere before. */
  lemma {:induction false} CiIndexOfIs(s: string, w: string, from: nat, at: nat)
    requires from <= at && WordAt(s, at, w, true) && NoWordBetween(s, w, from, at)
    ensures CiIndexOf(s, w, from) == Some(at)
    decreases at - from
  {
    if from < at {
      CiIndexOfIs(s, w, from + 1, at);
    }
  }

  /** Putting the first character back in front of the rest gives the whole. */
  lemma ConsOntoRest(a: string, r: string)
    requires a != []
    ensures [a[0]] + (a[1..] + r) == a + r
  {
  }

  /** A first character other than `<` opens no element and is copied. */
  lemma RemoveElementsCopies(s: string, tag: string)
    requires s != [] && s[0] != '<'
    ensures RemoveElements(s, tag) == [s[0]] + RemoveElements(s[1..], tag)
  {
    assert !WordAt(s, 0, "<" + tag, true) by {
      if WordAt(s, 0, "<" + tag, true) {
        assert CiEq(s[0], ("<" + tag)[0]);
        CanonOfLessThan(s[0]);
      }
    }
  }

  /** Text without `<` is copied, and element removal goes on after it. */
  lemma {:induction false} RemoveElementsAfterText(a: string, t: string, tag: string)
    requires '<' !in a
    ensures RemoveElements(a + t, tag) == a + RemoveElements(t, tag)
    decreases |a|
  {
    if a != [] {
      var s := a + t;
      assert s[0] == a[0] && a[0] in a;
      RemoveElementsCopies(s, tag);
      assert s[1..] == a[1..] + t;
      RemoveElementsAfterText(a[1..], t, tag);
      var r := RemoveElements(t, tag);
      ConsOntoRest(a, r);
    } else {
      assert a + t == t;
    }
  }

  /** `w` at `j` in the middle part of `x + y + z` is `w` at `j` in `y`. */
  lemma WordAtMiddle(x: string, y: string, z: string, j: nat, w: string)
    requires j + |w| <= |y|
    ensures WordAt(x + y + z, |x| + j, w, true) <==> WordAt(y, j, w, true)
  {
    var s := x + y + z;
    forall k | 0 <= k < |w| ensures CharEq(s[|x| + j + k], w[k], true) == CharEq(y[j + k], w[k], true) {
      assert s[|x| + j + k] == y[j + k];
    }
  }

  /** A body without `<` holds no closing tag. */
  lemma NoCloseInPlainBody(body: string, tag: string)
    requires '<' !in body
    ensures forall j :: 0 <= j < |body| ==> !WordAt(body + ("</" + tag + ">"), j, "</" + tag + ">", true)
  {
    var close := "</" + tag + ">";
    forall j | 0 <= j < |body| ensures !WordAt(body + close, j, close, true) {
      assert (body + close)[j] == body[j] && body[j] in body;
      assert !CiEq(body[j], close[0]) by {
        if CiEq(body[j], '<') {
          CanonOfLessThan(body[j]);
        }
      }
    }
  }

  /** After `open`, the search for `close` stops at the first one, which ends the body. */
  lemma CloseFoundAfter(open: string, body: string, close: string, c: string)
    requires forall j :: 0 <= j < |body| ==> !WordAt(body + close, j, close, true)
    ensures CiIndexOf(open + (body + close) + c, close, |open|) == Some(|open| + |body|)
  {
    NoCloseInBody(open, body, close, c, |open|);
    CloseAfterBody(open, body, close, c);
    CiIndexOfIs(open + (body + close) + c, close, |open|, |open| + |body|);
  }

  lemma {:induction false} NoCloseInBody(open: string, body: string, close: string, c: string, from: nat)
    requires forall j :: 0 <= j < |body| ==> !WordAt(body + close, j, close, true)
    requires |open| <= from <= |open| + |body|
    ensures NoWordBetween(open + (body + close) + c, close, from, |open| + |body|)
    decreases |open| + |body| - from
  {
    if from < |open| + |body| {
      WordAtMiddle(open, body + close, c, from - |open|, close);
      NoCloseInBody(open, body, close, c, from + 1);
    }
  }

  lemma CloseAfterBody(open: string, body: string, close: string, c: string)
    ensures WordAt(open + (body + close) + c, |open| + |body|, close, true)
  {
    var bc := body + close;
    forall k | 0 <= k < |close| ensures CharEq(bc[|body| + k], close[k], true) {
      assert bc[|body| + k] == close[k];
    }
    WordAtMiddle(open, bc, c, |body|, close);
  }

  /** An element at the start is removed up to the end of its first closing tag. */
  lemma ElementRemoved(tag: string, body: string, c: string)
    requires forall j :: 0 <= j < |body| ==> !WordAt(body + ("</" + tag + ">"), j, "</" + tag + ">", true)
    ensures RemoveElements("<" + tag + (body + ("</" + tag + ">")) + c, tag) == RemoveElements(c, tag)
  {
    OpenAtStart(tag, body, c);
    CloseOfElement(tag, body, c);
    ElementBeforeText("<" + tag + (body + ("</" + tag + ">")), c, tag, "<" + tag, "</" + tag + ">", |"<" + tag| + |body|);
  }

  /** An element `x` at the start, closed at `j`, is removed and the text `c` after it is what is left to scan. */
  lemma ElementBeforeText(x: string, c: string, tag: string, open: string, close: string, j: nat)
    requires open == "<" + tag && close == "</" + tag + ">"
    requires |x| == j + |close|
    requires WordAt(x + c, 0, open, true)
    requires CiIndexOf(x + c, close, |open|) == Some(j)
    ensures RemoveElements(x + c, tag) == RemoveElements(c, tag)
  {
    SuffixAfter(x, c);
    RemoveElementsFound(x + c, tag, open, close, j, |x|);
  }

  /** An element whose closing tag the search finds at `j` is dropped up to the end of that closing tag. */
  lemma RemoveElementsFound(s: string, tag: string, open: string, close: string, j: nat, e: nat)
    requires open == "<" + tag && close == "</" + tag + ">"
    requires WordAt(s, 0, open, true)
    requires CiIndexOf(s, close, |open|) == Some(j)
    requires e == j + |tag| + 3
    ensures e <= |s| && RemoveElements(s, tag) == RemoveElements(s[e..], tag)
  {
    ElementEndAt(s, tag, open, close, j);
    RemoveElementsAt(s, tag, e);
  }

  /** An opening `<tag` whose closing tag the search finds at `j` ends just after that closing tag. */
  lemma ElementEndAt(s: string, tag: string, open: string, close: string, j: nat)
    requires open == "<" + tag && close == "</" + tag + ">"
    requires WordAt(s, 0, open, true)
    requires CiIndexOf(s, close, |open|) == Some(j)
    ensures ElementEnd(s, tag) == Some(j + |tag| + 3)
  {
  }

  /** An element found at the start is dropped up to its end. */
  lemma RemoveElementsAt(s: string, tag: string, e: nat)
    requires ElementEnd(s, tag) == Some(e)
    ensures RemoveElements(s, tag) == RemoveElements(s[e..], tag)
  {
  }

  /** The element's opening `<tag` stands at its start. */
  lemma OpenAtStart(tag: string, body: string, c: string)
    ensures WordAt("<" + tag + (body + ("</" + tag + ">")) + c, 0, "<" + tag, true)
  {
    WordAtStart("<" + tag, body + ("</" + tag + ">"), c);
  }

  /** The search for the closing tag, started just after `<tag`, stops right after the body. */
  lemma CloseOfElement(tag: string, body: string, c: string)
    requires forall j :: 0 <= j < |body| ==> !WordAt(body + ("</" + tag + ">"), j, "</" + tag + ">", true)
    ensures CiIndexOf("<" + tag + (body + ("</" + tag + ">")) + c, "</" + tag + ">", |"<" + tag|) == Some(|"<" + tag| + |body|)
  {
    CloseFoundAfter("<" + tag, body, "</" + tag + ">", c);
  }

  /** What follows `x` in `x + c` is `c`. */
  lemma SuffixAfter(x: string, c: string)
    ensures (x + c)[|x|..] == c
  {
  }

  /** `x` occurs at the start of `x + y + z`. */
  lemma WordAtStart(x: string, y: string, z: string)
    ensures WordAt(x + y + z, 0, x, true)
  {
    var s := x + y + z;
    forall k | 0 <= k < |x| ensures CharEq(s[k], x[k], true) {
      assert s[k] == x[k];
    }
  }

  /**
   * An element `<tag…</tag>` whose body holds no earlier closing tag is
   * removed whole, the text before it kept and the text after it cleaned on.
   */
  lemma RemoveElementsElement(a: string, tag: string, body: string, c: string)
    requires '<' !in a
    requires forall j :: 0 <= j < |body| ==> !WordAt(body + ("</" + tag + ">"), j, "</" + tag + ">", true)
    ensures RemoveElements(a + "<" + tag + body + "</" + tag + ">" + c, tag) == a + RemoveElements(c, tag)
  {
    var s := "<" + tag + (body + ("</" + tag + ">")) + c;
    assert a + "<" + tag + body + "</" + tag + ">" + c == a + s;
    RemoveElementsAfterText(a, s, tag);
    ElementRemoved(tag, body, c);
  }

  /** The first step of the cleaning removes a `<script` element from text that holds no other tag. */
  lemma ScriptDropped(a: string, body: string, c: string)
    requires '<' !in a && '<' !in body && '<' !in c
    ensures RemoveAllElements(a + "<script" + body + "</script>" + c, DroppedElements) == a + c
  {
    var tag := DroppedElements[0];
    var x := a + "<script" + body + "</script>" + c;
    assert x == a + "<" + tag + body + "</" + tag + ">" + c by {
      ScriptSpelled(a, body, c);
    }
    NoCloseInPlainBody(body, tag);
    RemoveElementsElement(a, tag, body, c);
    RemoveElementsKeeps(c, tag);
    assert '<' !in a + c;
    RemoveAllKeeps(a + c, DroppedElements[1..]);
    assert RemoveAllElements(x, DroppedElements) == RemoveAllElements(RemoveElements(x, tag), DroppedElements[1..]);
  }

  /** The `script` element spelled out as the first dropped tag. */
  lemma ScriptSpelled(a: string, body: string, c: string)
    ensures DroppedElements[0] == "script"
    ensures a + "<script" + body + "</script>" + c == a + "<" + DroppedElements[0] + body + "</" + DroppedElements[0] + ">" + c
  {
  }

  /** Text without `<` is copied, and tag stripping goes on after it. */
  lemma {:induction false} StripTagsAfterText(a: string, t: string)
    requires '<' !in a
    ensures StripTags(a + t) == a + StripTags(t)
    decreases |a|
  {
    if a != [] {
      var s := a + t;
      assert s[0] == a[0] && a[0] in a;
      assert StripTags(s) == [s[0]] + StripTags(s[1..]);
      assert s[1..] == a[1..] + t;
      StripTagsAfterText(a[1..], t);
      var r := StripTags(t);
      assert StripTags(s) == [a[0]] + (a[1..] + r);
      ConsOntoRest(a, r);
    } else {
      assert a + t == t;
    }
  }

  /** A tag `<t>` with a non-empty `t` becomes one space. */
  lemma StripTagsTag(t: string, c: string)
    requires t != [] && '>' !in t
    ensures StripTags("<" + t + ">" + c) == " " + StripTags(c)
  {
    var s := "<" + t + ">" + c;
    assert s[1..] == t + ">" + c;
    assert (t + ">" + c)[..|t|] == t;
    IndexOfCharFirst(s[1..], '>', |t|);
    assert s[|t| + 2..] == c;
  }

  /** Text without `&` is copied, and decimal decoding goes on after it. */
  lemma {:induction false} DecodeDecimalAfterText(a: string, t: string)
    requires '&' !in a
    ensures DecodeDecimal(a + t) == a + DecodeDecimal(t)
    decreases |a|
  {
    if a != [] {
      var s := a + t;
      assert s[1..] == a[1..] + t;
      assert DecodeDecimal(s) == [a[0]] + DecodeDecimal(a[1..] + t) by {
        assert s[0] == a[0] && a[0] in a;
        assert DecimalRef(s) == 0;
      }
      DecodeDecimalAfterText(a[1..], t);
      var r := DecodeDecimal(t);
      ConsOntoRest(a, r);
    } else {
      assert a + t == t;
    }
  }

  /** `&#<d>;` becomes the code unit that the digits `d` name. */
  lemma DecodeDecimalRef(d: string, c: string)
    requires d != [] && AllDigits(d)
    ensures DecodeDecimal("&#" + d + ";" + c) == [CodeUnit(Value(d))] + DecodeDecimal(c)
  {
    var s := "&#" + d + ";" + c;
    DecimalRefOf(d, c);
    assert s[2..2 + |d|] == d;
    assert s[3 + |d|..] == c;
  }

  lemma DecimalRefOf(d: string, c: string)
    requires d != [] && AllDigits(d)
    ensures DecimalRef("&#" + d + ";" + c) == |d|
  {
    var s := "&#" + d + ";" + c;
    forall j | 2 <= j < 2 + |d| ensures InClass(s[j], Digit, false) {
      assert s[j] == d[j - 2];
    }
    assert s[2 + |d|] == ';';
    RunLengthIs(s, 2, Digit, false, |d|);
  }

  /** Text without `&` is copied, and hexadecimal decoding goes on after it. */
  lemma {:induction false} DecodeHexAfterText(a: string, t: string)
    requires '&' !in a
    ensures DecodeHex(a + t) == a + DecodeHex(t)
    decreases |a|
  {
    if a != [] {
      var s := a + t;
      assert s[1..] == a[1..] + t;
      assert DecodeHex(s) == [a[0]] + DecodeHex(a[1..] + t) by {
        assert s[0] == a[0] && a[0] in a;
        assert HexRef(s) == 0;
      }
      DecodeHexAfterText(a[1..], t);
      var r := DecodeHex(t);
      ConsOntoRest(a, r);
    } else {
      assert a + t == t;
    }
  }

  /** The hexadecimal run from `i` has length `n` when `n` digits follow and then none. */
  lemma {:induction false} HexRunIs(s: string, i: nat, n: nat)
    requires i + n <= |s| && forall j :: i <= j < i + n ==> IsHexDigit(s[j])
    requires i + n == |s| || !IsHexDigit(s[i + n])
    ensures HexRun(s, i) == n
    decreases n
  {
    if n > 0 {
      HexRunIs(s, i + 1, n - 1);
    }
  }

  /** `&#x<h>;` becomes the code unit that the hexadecimal digits `h` name. */
  lemma DecodeHexRef(h: string, c: string)
    requires h != [] && forall ch <- h :: IsHexDigit(ch)
    ensures DecodeHex("&#x" + h + ";" + c) == [CodeUnit(HexValue(h))] + DecodeHex(c)
  {
    var s := "&#x" + h + ";" + c;
    HexRefOf(h, c);
    assert s[3..3 + |h|] == h;
    assert s[4 + |h|..] == c;
  }

  lemma HexRefOf(h: string, c: string)
    requires h != [] && forall ch <- h :: IsHexDigit(ch)
    ensures HexRef("&#x" + h + ";" + c) == |h|
  {
    var s := "&#x" + h + ";" + c;
    forall j | 3 <= j < 3 + |h| ensures IsHexDigit(s[j]) {
      assert s[j] == h[j - 3];
      assert h[j - 3] in h;
    }
    assert s[3 + |h|] == ';';
    HexRunIs(s, 3, |h|);
  }

  /** A first character that starts no alternative is copied, and replacing goes on after it. */
  lemma ReplaceAllStep(s: string, pats: seq<string>, rep: string)
    requires s != [] && forall p <- pats :: p != "" ==> p[0] != s[0]
    ensures ReplaceAll(s, pats, rep) == [s[0]] + ReplaceAll(s[1..], pats, rep)
  {
    forall p | p in pats && p != ""
      ensures !StartsWith(s, p)
    {
      if |p| <= |s| {
        assert s[..|p|][0] == s[0] != p[0];
      }
    }
  }

  /** The alternative found at the start is replaced, and replacing goes on after it. */
  lemma ReplaceAllMatch(s: string, pats: seq<string>, rep: string, p: string)
    requires FirstPrefix(s, pats) == Some(p)
    ensures |p| <= |s| && s[..|p|] == p
    ensures ReplaceAll(s, pats, rep) == rep + ReplaceAll(s[|p|..], pats, rep)
  {
  }

  /** Text without the first character of any alternative is left alone. */
  lemma {:induction false} ReplaceAllKeeps(s: string, pats: seq<string>, rep: string)
    requires forall p <- pats :: p != "" ==> p[0] !in s
    ensures ReplaceAll(s, pats, rep) == s
    decreases |s|
  {
    if s != [] {
      ReplaceAllStep(s, pats, rep);
      ReplaceAllKeeps(s[1..], pats, rep);
    }
  }

  /** Replacing leaves a prefix alone when none of its characters starts a pattern. */
  lemma {:induction false} ReplaceAllSkips(a: string, b: string, pats: seq<string>, rep: string)
    requires forall p <- pats :: p != "" ==> p[0] !in a
    ensures ReplaceAll(a + b, pats, rep) == a + ReplaceAll(b, pats, rep)
    decreases |a|
  {
    if a == [] {
      assert a + b == b;
    } else {
      var s, r := a + b, ReplaceAll(b, pats, rep);
      assert s[0] == a[0] && s[1..] == a[1..] + b;
      forall p | p in pats && p != "" ensures p[0] !in a[1..] {
        assert p[0] !in a;
      }
      ReplaceAllStep(s, pats, rep);
      ReplaceAllSkips(a[1..], b, pats, rep);
      calc {
        ReplaceAll(s, pats, rep);
        [a[0]] + (a[1..] + r);
        ([a[0]] + a[1..]) + r;
        { assert [a[0]] + a[1..] == a; }
        a + r;
      }
    }
  }

  lemma {:induction false} DecodeNamedKeeps(s: string, table: seq<(seq<string>, string)>)
    requires '&' !in s
    ensures DecodeNamed(s, table) == s
    decreases |table|
  {
    if table != [] {
      ReplaceAllKeeps(s, EntityRefs(table[0].0), table[0].1);
      DecodeNamedKeeps(s, table[1..]);
    }
  }

  /** Collapsing leaves text whose only whitespace is single spaces. */
  lemma {:induction false} CollapseKeeps(s: string)
    requires SingleSpaced(s)
    requires forall c <- s :: IsSpace(c) ==> c == ' '
    ensures CollapseSpaces(s) == s
    decreases |s|
  {
    if s != [] {
      if IsSpace(s[0]) {
        assert LeadingSpaces(s) == 1 by {
          if |s| > 1 {
            assert !IsSpace(s[1]);
          }
        }
        assert s == [' '] + s[1..];
      }
      CollapseKeeps(s[1..]);
    }
  }

  /**
   * Text with no markup, no character reference, single spaces only, no
   * surrounding whitespace and within the limit is sent as it is.
   */
  lemma PlainTextKept(s: string)
    requires '<' !in s && '&' !in s
    requires SingleSpaced(s) && forall c <- s :: IsSpace(c) ==> c == ' '
    requires s == [] || (!IsSpace(s[0]) && !IsSpace(s[|s| - 1]))
    requires |s| <= PageTextLimit
    ensures PageText(s) == s
  {
    DecodedKeeps(s);
    CondensedKeeps(s);
  }

  lemma DecodedKeeps(s: string)
    requires '<' !in s && '&' !in s
    ensures DecodedText(s) == s
  {
    RemoveAllKeeps(s, DroppedElements);
    StripTagsKeeps(s);
    DecodeDecimalKeeps(s);
    DecodeHexKeeps(s);
    DecodeNamedKeeps(s, NamedEntities);
  }

  lemma CondensedKeeps(s: string)
    requires SingleSpaced(s) && forall c <- s :: IsSpace(c) ==> c == ' '
    requires s == [] || (!IsSpace(s[0]) && !IsSpace(s[|s| - 1]))
    requires |s| <= PageTextLimit
    ensures Condensed(s) == s
  {
    CollapseKeeps(s);
    TrimKeeps(s);
  }

  // The order of the named-entity replacements.

  lemma {:induction false} DecodeNamedAppend(s: string, a: seq<(seq<string>, string)>, b: seq<(seq<string>, string)>)
    ensures DecodeNamed(s, a + b) == DecodeNamed(DecodeNamed(s, a), b)
    decreases |a|
  {
    if a == [] {
      assert a + b == b;
    } else {
      assert (a + b)[0] == a[0] && (a + b)[1..] == a[1..] + b;
      DecodeNamedAppend(ReplaceAll(s, EntityRefs(a[0].0), a[0].1), a[1..], b);
    }
  }

  /** An `&` that starts no reference of the table, and nothing to decode after it, is kept. */
  lemma {:induction false} LeadingAmpKept(t: string, table: seq<(seq<string>, string)>)
    requires '&' !in t
    requires forall e <- table, n <- e.0 :: !StartsWith(t, n + ";")
    ensures DecodeNamed("&" + t, table) == "&" + t
    decreases |table|
  {
    if table != [] {
      var refs := EntityRefs(table[0].0);
      forall p | p in refs
        ensures !StartsWith("&" + t, p)
      {
        var i :| 0 <= i < |refs| && refs[i] == p;
        var n := table[0].0[i];
        assert p == "&" + (n + ";");
        assert table[0] in table && n in table[0].0;
        assert !StartsWith(t, n + ";");
        if |p| <= |"&" + t| {
          assert ("&" + t)[..|p|][1..] == t[..|p| - 1];
          assert p[1..] == n + ";";
        }
      }
      assert FirstPrefix("&" + t, refs).None?;
      assert ("&" + t)[1..] == t;
      ReplaceAllKeeps(t, refs, table[0].1);
      LeadingAmpKept(t, table[1..]);
    }
  }

  /** Only a name starting with `am` can start `amp;eacute;`. */
  lemma NotAmpPrefix(n: string)
    requires |n| >= 2 && (n[0] != 'a' || n[1] != 'm')
    ensures !StartsWith("amp;eacute;", n + ";")
  {
    var t := "amp;eacute;";
    assert t[0] == 'a' && t[1] == 'm';
    if |n + ";"| <= |t| {
      assert t[..|n + ";"|][0] == 'a' && t[..|n + ";"|][1] == 'm';
      assert (n + ";")[0] == n[0] && (n + ";")[1] == n[1];
    }
  }

  /**
   * With `&amp;` between two groups of entities, `&amp;` followed by text
   * that starts no reference of the first group is decoded once: the text
   * after it is not decoded again by the second group.
   */
  lemma {:induction false} AmpDecodedOnce(t: string, before: seq<(seq<string>, string)>, after: seq<(seq<string>, string)>)
    requires '&' !in t
    requires forall e <- before, n <- e.0 :: !StartsWith("amp;" + t, n + ";")
    requires forall e <- after, n <- e.0 :: !StartsWith(t, n + ";")
    ensures DecodeNamed("&amp;" + t, before + ([(["amp"], "&")] + after)) == "&" + t
  {
    var amp := (["amp"], "&");
    AmpSplit(t);
    LeadingAmpKept("amp;" + t, before);
    DecodeNamedAppend("&amp;" + t, before, [amp] + after);
    AmpStep(t);
    assert ([amp] + after)[0] == amp && ([amp] + after)[1..] == after;
    LeadingAmpKept(t, after);
  }

  lemma AmpSplit(t: string)
    requires '&' !in t
    ensures "&amp;" + t == "&" + ("amp;" + t)
    ensures '&' !in "amp;" + t
  {
  }

  /** The `&amp;` entry turns `&amp;` followed by text without `&` into `&` and that text. */
  lemma AmpStep(t: string)
    requires '&' !in t
    ensures ReplaceAll("&amp;" + t, EntityRefs(["amp"]), "&") == "&" + t
  {
    var refs := EntityRefs(["amp"]);
    assert |refs| == 1 && refs[0] == "&" + "amp" + ";";
    assert "&" + "amp" + ";" == "&amp;";
    assert refs == ["&amp;"];
    assert StartsWith("&amp;" + t, "&amp;");
    assert ("&amp;" + t)[5..] == t;
    ReplaceAllKeeps(t, ["&amp;"], "&");
  }

  /** `amp` is the seventeenth entry of the table. */
  lemma EntitiesAroundAmp()
    ensures NamedEntities == NamedEntities[..16] + ([(["amp"], "&")] + NamedEntities[17..])
  {
  }

  /** No entity decoded before `&amp;` starts `amp;eacute;`. */
  lemma NoneBeforeAmpMatches()
    ensures forall e <- NamedEntities[..16], n <- e.0 :: !StartsWith("amp;" + "eacute;", n + ";")
  {
    assert "amp;" + "eacute;" == "amp;eacute;";
    forall e <- NamedEntities[..16], n <- e.0
      ensures !StartsWith("amp;eacute;", n + ";")
    {
      NotAmpPrefix(n);
    }
  }

  /** No entity decoded after `&amp;` starts `eacute;`. */
  lemma NoneAfterAmpMatches()
    ensures forall e <- NamedEntities[17..], n <- e.0 :: !StartsWith("eacute;", n + ";")
  {
    forall e <- NamedEntities[17..], n <- e.0
      ensures !StartsWith("eacute;", n + ";")
    {
      assert |n| >= 2 && n[0] != 'e';
      if |n + ";"| <= 7 {
        assert "eacute;"[..|n + ";"|][0] == 'e' && (n + ";")[0] == n[0];
      }
    }
  }

  /**
   * `&amp;` is decoded after the accented letters, so a double-escaped
   * `&amp;eacute;` comes out as the literal text `&eacute;`.
   */
  lemma DoubleEscapedAccent()
    ensures DecodeNamed("&amp;" + "eacute;", NamedEntities) == "&" + "eacute;"
  {
    EntitiesAroundAmp();
    NoneBeforeAmpMatches();
    NoneAfterAmpMatches();
    AmpDecodedOnce("eacute;", NamedEntities[..16], NamedEntities[17..]);
  }
}
