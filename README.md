# Recipe import and navigation rules, in Dafny

A model of the recipe application's import pipeline and of the small rules
around it, with proofs of what each piece promises.

The import pipeline turns unstructured input into a `ParsedRecipe`:

- **Pasted text** (`TextParser`). One pass over the trimmed lines sorts them
  into a title, ingredient lines and step lines. It uses section markers,
  metadata lines, numbered steps and an "ingredient-looking line" test. The
  serving count and the preparation and cooking times then come from the
  whole text.
- **Web pages** (`UrlParser`). The first schema.org `Recipe` node in the
  page's `application/ld+json` blocks supplies the recipe. Its ISO 8601
  durations, category synonyms, instruction shapes, yield and image are
  normalised. Without an accepted block, the page's `<h1>` or `<title>` gives
  a title-only recipe.
- **AI replies** (`AiParser`). The JSON in a model's reply is recovered in
  three stages, and its enumerations are clamped into `ParsedRecipe`. Errors
  are classified into user messages, and page HTML is cleaned down to at most
  8000 characters.
- **YouTube videos** (`YoutubeParser`). The parser recognises the host and
  extracts the video id. It pairs caption tracks and filters outbound links
  through a denylist. It then tries the AI on the description, then the
  linked pages in order, and fails with a fixed message otherwise.

Around it, the model covers:

- the zod schemas of recipes, the simple recipe form, authentication and
  family groups (`RecipeSchema`, `RecipeSimple`, `AuthSchema`,
  `FamilySchema`);
- the enumerations and the status cycle (`RecipeTypes`);
- the ingredient list's inline-quantity pattern, its rendering and the
  servings stepper (`QuantityPattern`, `IngredientsList`);
- the cooking-mode step cursor (`CookingMode`);
- the filter bars over the query string (`SearchParams`, `RecipeFilters`,
  `VideoFilters`);
- the navigation highlight rule (`DesktopHeader`, `MobileNav`);
- the middleware's redirect decision (`Middleware`).

Supporting modules: `Wrappers` (Option), `Strings` (JavaScript whitespace,
trim, split, join, case mapping), `Seqs` (map, filter, subsequences),
`Regex` (the few regular-expression pieces the parsers use), `Json` (the
values `JSON.parse` produces, per section 3 of RFC 8259, and JavaScript
property access on them) and `ParserTypes` (`ParsedRecipe` and
`ParseResult`, from src/lib/parsers/types.ts:8-28).

Where the code works by changing state step by step, the model is
imperative:

- the text parser's loop and `detectTimes`;
- the HTML block loop and the category search;
- the caption pairing and the link loop;
- the servings stepper, the cooking session and the filter bars, as classes.

Each such method is proved against a function. Pure code is modelled as
functions and lemmas.

Regular expressions are modelled as what they match, with JavaScript's
backtracking where it matters. `QUANTITY_REGEX` is a priority-ordered search
over the ways to split the name into the pattern's groups, so `300` reads as
30 with the text `0`, and `250g` as 250 with no unit and the text `g`.

## Model

| member | source | states |
|---|---|---|
| UrlParser.IsoDuration | src/lib/parsers/url-parser.ts:53-60 | a duration is positive when present; a text without `PT` gives none |
| UrlParser.DurationRoundTrip | src/lib/parsers/url-parser.ts:53-60 | `PT<h>H<m>M…` reads back as `h*60+m` minutes, whatever follows; zero counts as no duration |
| UrlParser.MinutesOnlyRoundTrip | src/lib/parsers/url-parser.ts:53-60 | `PT<m>M…` reads back as `m` minutes, none when zero |
| UrlParser.HoursOnlyRoundTrip | src/lib/parsers/url-parser.ts:53-60 | `PT<h>H` not followed by a minute field reads back as `h*60` minutes |
| UrlParser.DurationOfDigits | src/lib/parsers/url-parser.ts:55-59 | for any digit strings (leading zeros included) the hour and minute groups are read by value |
| UrlParser.UnitGroupSkipped | src/lib/parsers/url-parser.ts:55 | an optional group whose digits are followed by another unit letter is skipped |
| UrlParser.HourAndHalfExample | src/lib/parsers/url-parser.ts:51-60 | `PT1H30M` is 90 minutes |
| UrlParser.MinutesExample | src/lib/parsers/url-parser.ts:53-60 | `PT45M` is 45 minutes |
| UrlParser.SecondsIgnoredExample | src/lib/parsers/url-parser.ts:55-59 | `PT10M30S` is 10 minutes: seconds are matched and dropped |
| UrlParser.NoDurationExamples | src/lib/parsers/url-parser.ts:54-56 | `P1DT2H` and `""` give no duration |
| UrlParser.ExactIn | src/lib/parsers/url-parser.ts:71 | the own-key lookup returns the value of an entry with that key, and none exactly when no key equals it |
| UrlParser.PartialIn | src/lib/parsers/url-parser.ts:73-75 | the partial search returns a table value, and none exactly when no key contains or is contained in the text |
| UrlParser.PartialFirst | src/lib/parsers/url-parser.ts:73-75 | the partial search stops at the first accepted entry in table order |
| UrlParser.MappedCategory | src/lib/parsers/url-parser.ts:65-78 | a missing or falsy category gives `plat`; anything else is one of the eleven categories or a thrown `TypeError`, found by the own-key lookup (see Findings) |
| UrlParser.CategoryListSkips | src/lib/parsers/url-parser.ts:69-76 | candidates that are unmapped strings are passed over |
| UrlParser.CategoryListOrder | src/lib/parsers/url-parser.ts:65-78 | candidates are tried in order: the first non-string throws, the first mapped string decides, `plat` when none maps |
| UrlParser.MapCategory | src/lib/parsers/url-parser.ts:65-78 | the two nested loops compute `MappedCategory` |
| UrlParser.TableKeys | src/lib/parsers/url-parser.ts:14-48 | the table's keys are pairwise distinct |
| UrlParser.KeysNonEmpty | src/lib/parsers/url-parser.ts:14-48 | no key is empty |
| UrlParser.KeysMapExactly | src/lib/parsers/url-parser.ts:14-71 | every key maps to its own value before the partial search runs |
| UrlParser.EmptyCategory | src/lib/parsers/url-parser.ts:71-75 | `""` is no key but is contained in every key, so it maps to `apero` |
| UrlParser.WhitespaceIsApero | src/lib/parsers/url-parser.ts:66-75 | a non-empty whitespace-only category trims to `""` and maps to `apero` |
| UrlParser.SingleCandidate | src/lib/parsers/url-parser.ts:65-76 | a single non-empty string maps as its lower-cased, trimmed text does |
| UrlParser.StringsNeverThrow | src/lib/parsers/url-parser.ts:69-77 | a list of strings never throws |
| UrlParser.MappedCategoryAsWritten | src/lib/parsers/url-parser.ts:65-78 | the code as written, bracket lookup included; a falsy category gives `plat` |
| UrlParser.InheritedNameCategory | src/lib/parsers/url-parser.ts:71 | a category normalising to an inherited member name returns that member, which is no category |
| UrlParser.ConstructorCategory | src/lib/parsers/url-parser.ts:70-71 | `"constructor"` returns the inherited `constructor` member |
| UrlParser.AsWrittenAgrees | src/lib/parsers/url-parser.ts:65-78 | outside the inherited names the code as written and the own-key lookup agree |
| UrlParser.ElementTexts | src/lib/parsers/url-parser.ts:99 | one text per element, and it throws exactly when some element is `null` |
| UrlParser.StepValues | src/lib/parsers/url-parser.ts:93-102 | one value per step, and it throws exactly when some step throws |
| UrlParser.Instructions | src/lib/parsers/url-parser.ts:83-113 | falsy gives `""`, a string is kept, any other non-array gives `""` |
| UrlParser.StringStepsRoundTrip | src/lib/parsers/url-parser.ts:87-89 | a string array is newline-joined, and splitting gives the steps back when none holds a newline |
| UrlParser.StringArrayInstructions | src/lib/parsers/url-parser.ts:87-89 | an array whose first element is a string is joined whole |
| UrlParser.ObjectArrayInstructions | src/lib/parsers/url-parser.ts:92-105 | an array whose first element is an object has its step values filtered and joined |
| UrlParser.HowToStepsJoined | src/lib/parsers/url-parser.ts:92-105 | an array of `HowToStep` objects gives their texts in order, newline-joined |
| UrlParser.EmptyStepsDropped | src/lib/parsers/url-parser.ts:101-104 | falsy step values are dropped before joining |
| UrlParser.NullStepThrows | src/lib/parsers/url-parser.ts:94-96 | a `null` step makes the extraction throw |
| UrlParser.Ingredients | src/lib/parsers/url-parser.ts:118-125 | falsy gives `""`, a string is kept, an array gives its non-empty strings newline-joined |
| UrlParser.IngredientsRoundTrip | src/lib/parsers/url-parser.ts:120-122 | the kept lines are exactly the array's non-empty strings in order, and splitting the text gives them back |
| UrlParser.Image | src/lib/parsers/url-parser.ts:130-136 | falsy gives none, a string is kept, an object gives its `url`; an empty array gives none, a non-empty one its first element when that is a string and that element's `url` otherwise; a truthy number or boolean gives none |
| UrlParser.FirstDigit | src/lib/parsers/url-parser.ts:145 | the first digit position at or after `i`, none exactly when there is none |
| UrlParser.FirstNumber | src/lib/parsers/url-parser.ts:145-146 | none exactly when the text holds no digit; otherwise the value of the maximal digit run that starts at the first digit |
| UrlParser.Servings | src/lib/parsers/url-parser.ts:141-147 | falsy gives none and a number is kept; otherwise the first number of the yield's text (the string, or the first array element), none when that text holds no digit |
| UrlParser.ServingsOfText | src/lib/parsers/url-parser.ts:144-146 | any digit-free prefix, then `n`, then text not starting with a digit (`"Pour 4 personnes"`) gives `n`, as a string or as the first array element |
| UrlParser.NumberAfterText | src/lib/parsers/url-parser.ts:145-146 | the first number of a digit-free prefix, the digits of `n` and text not starting with a digit is `n` |
| UrlParser.ServingsNoDigit | src/lib/parsers/url-parser.ts:144-146 | a non-empty yield text without a digit (`"quatre"`) gives no servings |
| UrlParser.FoundRecipe | src/lib/parsers/url-parser.ts:152-179 | a hit is a recipe-typed object; a value that is neither object nor array gives none; a recipe-typed object is returned itself; any other object gives the first hit in its `@graph` array, none without one; an array gives the first hit among its elements |
| UrlParser.FirstHit | src/lib/parsers/url-parser.ts:163-176 | a hit among the items is a recipe-typed object; none exactly when the search finds nothing in every item |
| UrlParser.FirstHitAt | src/lib/parsers/url-parser.ts:163-176 | the hit of the first item in which the search finds a recipe is the one returned |
| UrlParser.FoundAfterMisses | src/lib/parsers/url-parser.ts:152-179 | a recipe node that follows items without a hit is found, in a top-level array and in the `@graph` array of an untyped object |
| UrlParser.FindRecipe | src/lib/parsers/url-parser.ts:152-179 | recursion with early-return loops computes `FoundRecipe` |
| UrlParser.Minutes | src/lib/parsers/url-parser.ts:203-204 | a stored duration is present exactly when one was read, with the same value |
| UrlParser.RecipeOfNode | src/lib/parsers/url-parser.ts:198-209 | the node is converted exactly when the category and the instructions do not throw; the source is `url` with the page address, the title is the trimmed name |
| UrlParser.BlockRecipe | src/lib/parsers/url-parser.ts:191-217 | a block contributes only an accepted recipe from parsed JSON holding a recipe node; an empty or unparsable block gives nothing |
| UrlParser.FirstAccepted | src/lib/parsers/url-parser.ts:190-218 | none exactly when no block yields an accepted recipe |
| UrlParser.FallbackTitle | src/lib/parsers/url-parser.ts:221 | empty exactly when both the `<h1>` and `<title>` texts are blank |
| UrlParser.HtmlResult | src/lib/parsers/url-parser.ts:184-241 | a success has a non-empty title and source `url`; failure happens exactly when no block is accepted and there is no fallback title, with the fixed message |
| UrlParser.FirstAcceptedWins | src/lib/parsers/url-parser.ts:190-213 | the first accepted block decides the result, whatever follows |
| UrlParser.TitleFallback | src/lib/parsers/url-parser.ts:221-235 | with no accepted block and a title, the result is a title-only `plat` recipe with empty texts |
| UrlParser.PlainRecipeBlock | src/lib/parsers/url-parser.ts:191-213 | a recipe object with a non-blank name and non-empty ingredients is accepted, with its trimmed name, its ingredients, no steps, category `plat` |
| UrlParser.ParseRecipeFromHtml | src/lib/parsers/url-parser.ts:184-241 | the loop with its early return computes `HtmlResult` |
| AiParser.KeyError | src/lib/parsers/ai-parser.ts:42-48 | a client is made exactly when the key is set, non-empty and not the placeholder; otherwise the error names the key variable |
| AiParser.HandleError | src/lib/parsers/ai-parser.ts:112-128 | always a failure; a non-`Error` value gets the generic text, a message naming the key is shown as it is |
| AiParser.HandleErrorOrder | src/lib/parsers/ai-parser.ts:113-127 | the rules are tried in order: authentication, then rate, then timeout, then the generic text |
| AiParser.KeyErrorShown | src/lib/parsers/ai-parser.ts:42-116 | the missing-key error reaches the user unchanged |
| AiParser.FencedBlock | src/lib/parsers/ai-parser.ts:59 | a captured block exists only when the reply has a fence, and holds no fence |
| AiParser.BraceSpan | src/lib/parsers/ai-parser.ts:68 | the span runs from the first `{` to the last `}`, and there is none exactly when no `}` follows a `{` |
| AiParser.LastIndexOfChar | src/lib/parsers/ai-parser.ts:68 | the position of the last occurrence, none exactly when the character is absent |
| AiParser.ExtractJson | src/lib/parsers/ai-parser.ts:53-78 | the whole trimmed reply wins when it parses; else the trimmed fenced block when it parses; else the untrimmed text from the first `{` to the last `}`, or none when there is no such span |
| AiParser.NoJsonFound | src/lib/parsers/ai-parser.ts:53-78 | no JSON exactly when the whole reply, the fenced block and the brace span all fail to parse |
| AiParser.FencedReply | src/lib/parsers/ai-parser.ts:55-66 | a reply that is not JSON as a whole but has a ```` ```json ```` block is read from that block's body |
| AiParser.NumberField | src/lib/parsers/ai-parser.ts:98-100 | a number is kept exactly when the member is a number |
| AiParser.RecipeOfJson | src/lib/parsers/ai-parser.ts:83-107 | trimmed title; category only when its text is a stored name, else `plat`; appliance and difficulty only when stored names; the caller's source type and address |
| AiParser.ReplyRoundTrip | src/lib/parsers/ai-parser.ts:15-107 | a reply in the format the system prompt asks for is read back as exactly the recipe it describes |
| AiParser.AiResult | src/lib/parsers/ai-parser.ts:133-272 | a key error fails with its message; a failed call goes to `handleError`; a reply without JSON or title fails with the importer's own message; a success carries the caller's source |
| AiParser.BlankTitleAccepted | src/lib/parsers/ai-parser.ts:89-157 | a title of spaces passes the title test and yields a recipe with an empty title |
| AiParser.WholeReplyRead | src/lib/parsers/ai-parser.ts:147-157 | a reply that is JSON as a whole with a truthy title gives the recipe read from it |
| AiParser.CiIndexOf | src/lib/parsers/ai-parser.ts:224-229 | the first case-insensitive occurrence at or after `from`, none exactly when there is none |
| AiParser.RemoveElements | src/lib/parsers/ai-parser.ts:224-229 | removing an element never lengthens the text |
| AiParser.RemoveElementsAfterText | src/lib/parsers/ai-parser.ts:224-229 | text without `<` is kept and removal goes on after it |
| AiParser.RemoveElementsElement | src/lib/parsers/ai-parser.ts:224-229 | an element `<tag…</tag>` whose body holds no earlier case-insensitive closing tag is removed whole, with the text before it kept |
| AiParser.ScriptDropped | src/lib/parsers/ai-parser.ts:224-229 | a `<script…</script>` element in text without other tags is removed by the six removals and nothing else changes |
| AiParser.RemoveAllInOrder | src/lib/parsers/ai-parser.ts:224-229 | the removals run one tag after the other, in list order |
| AiParser.StripTags | src/lib/parsers/ai-parser.ts:230 | turning tags into spaces never lengthens the text |
| AiParser.StripTagsAfterText | src/lib/parsers/ai-parser.ts:230 | text without `<` is kept and stripping goes on after it |
| AiParser.StripTagsTag | src/lib/parsers/ai-parser.ts:230 | a tag `<t>` with non-empty `t` becomes a single space |
| AiParser.DecodeDecimal | src/lib/parsers/ai-parser.ts:232 | decoding never lengthens the text |
| AiParser.DecodeDecimalAfterText | src/lib/parsers/ai-parser.ts:232 | text without `&` is kept and decoding goes on after it |
| AiParser.DecodeDecimalRef | src/lib/parsers/ai-parser.ts:232 | `&#<digits>;` becomes the code unit its digits name |
| AiParser.DecodeHex | src/lib/parsers/ai-parser.ts:233 | decoding never lengthens the text |
| AiParser.DecodeHexAfterText | src/lib/parsers/ai-parser.ts:233 | text without `&` is kept and decoding goes on after it |
| AiParser.DecodeHexRef | src/lib/parsers/ai-parser.ts:233 | `&#x<hex digits>;` becomes the code unit its digits name |
| AiParser.ReplaceAll | src/lib/parsers/ai-parser.ts:234-245 | with a replacement no longer than any alternative, replacing never lengthens the text |
| AiParser.ReplaceAllMatch | src/lib/parsers/ai-parser.ts:234-245 | the first alternative that starts the text is replaced and replacing goes on after it |
| AiParser.ReplaceAllKeeps | src/lib/parsers/ai-parser.ts:234-245 | text without the first character of any alternative is kept |
| AiParser.ReplaceAllSkips | src/lib/parsers/ai-parser.ts:234-245 | a prefix without the first character of any alternative is kept and replacing goes on after it |
| AiParser.DecodeNamed | src/lib/parsers/ai-parser.ts:234-245 | with replacements of at most two characters, decoding never lengthens the text |
| AiParser.DecodeNamedKeeps | src/lib/parsers/ai-parser.ts:234-245 | text without `&` is kept by every named replacement |
| AiParser.DecodeNamedAppend | src/lib/parsers/ai-parser.ts:234-245 | the named replacements run one after the other, in table order |
| AiParser.FirstPrefix | src/lib/parsers/ai-parser.ts:234-245 | the first alternative the text starts with, none exactly when it starts with none |
| AiParser.EntityRefs | src/lib/parsers/ai-parser.ts:234-245 | every pattern in the entity table has the `&name;` shape |
| AiParser.CollapseSpaces | src/lib/parsers/ai-parser.ts:246 | the result is no longer than the input, has no two adjacent whitespace characters, and is empty exactly when the input is |
| AiParser.Take | src/lib/parsers/ai-parser.ts:248 | a prefix of at most `n` characters, the whole text when shorter |
| AiParser.PageText | src/lib/parsers/ai-parser.ts:223-248 | the page text is at most 8000 characters and single-spaced |
| AiParser.PlainTextKept | src/lib/parsers/ai-parser.ts:223-248 | plain, single-spaced, trimmed text within the limit is sent unchanged |
| AiParser.DoubleEscapedAccent | src/lib/parsers/ai-parser.ts:236-242 | `&amp;` is decoded after the accents, so `&amp;eacute;` comes out as the literal `&eacute;` |
| YoutubeParser.IsYouTubeUrl | src/lib/parsers/youtube-parser.ts:22-34 | true exactly when the address parses and its host is one of the four YouTube hosts |
| YoutubeParser.QueryIndex | src/lib/parsers/youtube-parser.ts:47 | the position of the first pair with the name, none exactly when no pair has it |
| YoutubeParser.VideoId | src/lib/parsers/youtube-parser.ts:39-51 | an unparsable address has no id; on `youtu.be` the id is the path after the slash, none when it is empty; elsewhere the value of the first query pair named `v`, none when there is none |
| YoutubeParser.ShortLinkId | src/lib/parsers/youtube-parser.ts:39-45 | `youtu.be/<id>` is a video address with id `<id>` |
| YoutubeParser.WatchLinkId | src/lib/parsers/youtube-parser.ts:46-47 | on a watch page the id is the value of the first `v` pair, whatever pairs without that name precede it and whatever follows |
| YoutubeParser.LazyUntil | src/lib/parsers/youtube-parser.ts:70-87 | a lazy `.*?` stops at the first closing position reached without crossing a line end, none exactly when there is none |
| YoutubeParser.MatchAt | src/lib/parsers/youtube-parser.ts:70-87 | a match at `i` starts with the key and captures up to the first close, with no line end inside |
| YoutubeParser.Span | src/lib/parsers/youtube-parser.ts:70-87 | the leftmost match's capture follows the key and ends at the first close; none exactly when no position matches |
| YoutubeParser.Capture | src/lib/parsers/youtube-parser.ts:70-87 | a capture holds no line terminator and no closing character |
| YoutubeParser.AllCaptures | src/lib/parsers/youtube-parser.ts:89-90 | every capture of a global search holds no quote and no line terminator |
| YoutubeParser.UnescapeKeeps | src/lib/parsers/youtube-parser.ts:73-83 | the unescaping replacements leave text without backslashes alone |
| YoutubeParser.AmpDecoded | src/lib/parsers/youtube-parser.ts:83 | an escaped `&` between texts without backslashes becomes `&` |
| YoutubeParser.TitleAsWritten | src/lib/parsers/youtube-parser.ts:69-75 | the title as written; empty when the key is absent (see Findings) |
| YoutubeParser.Title | src/lib/parsers/youtube-parser.ts:69-75 | the title read up to the first unescaped quote; empty when the key is absent |
| YoutubeParser.Description | src/lib/parsers/youtube-parser.ts:77-84 | the description; empty when the key is absent |
| YoutubeParser.Tracks | src/lib/parsers/youtube-parser.ts:86-88 | the caption track text holds no `]` |
| YoutubeParser.CaptionUrls | src/lib/parsers/youtube-parser.ts:86-92 | the `baseUrl` captures in order with `&` decoded, none without a track list |
| YoutubeParser.Paired | src/lib/parsers/youtube-parser.ts:94-96 | as many captions as the shorter list, each pairing the language and the address at the same position |
| YoutubeParser.PairCaptions | src/lib/parsers/youtube-parser.ts:94-96 | the index loop computes `Paired` |
| YoutubeParser.ThumbnailRaw | src/lib/parsers/youtube-parser.ts:99-103 | a thumbnail starts with `https://i.ytimg.com/vi/`, goes on past it, and holds no quote |
| YoutubeParser.Thumbnail | src/lib/parsers/youtube-parser.ts:99-103 | present exactly when the pattern matches, and it keeps the image host |
| YoutubeParser.VideoDataOf | src/lib/parsers/youtube-parser.ts:56-106 | the title, description and thumbnail are those the three patterns read; the captions pair the languages and addresses by position; a thumbnail keeps the image host |
| YoutubeParser.ExtractVideoData | src/lib/parsers/youtube-parser.ts:56-106 | the method computes `VideoDataOf` |
| YoutubeParser.EscapedQuoteCutsTitle | src/lib/parsers/youtube-parser.ts:70-74 | as written, `"title":"a\"b` gives `a\` |
| YoutubeParser.UnescapeOneQuote | src/lib/parsers/youtube-parser.ts:73 | an escaped quote between plain texts is unescaped into a quote |
| YoutubeParser.EscapedQuoteKept | src/lib/parsers/youtube-parser.ts:70-78 | read past escaped quotes, the same title gives `a"b` |
| YoutubeParser.UrlMatchAt | src/lib/parsers/youtube-parser.ts:113 | a link match starts with `http://` or `https://` and runs over URL characters as far as they go |
| YoutubeParser.MatchedUrls | src/lib/parsers/youtube-parser.ts:113-114 | every matched link is a non-empty run of URL characters |
| YoutubeParser.RecipeLinks | src/lib/parsers/youtube-parser.ts:112-131 | the kept links are, in order, exactly the matched links that parse and whose host contains no ignored domain |
| YoutubeParser.NoVideoLinks | src/lib/parsers/youtube-parser.ts:117-127 | no kept link is a YouTube video address |
| YoutubeParser.LinkResult | src/lib/parsers/youtube-parser.ts:136-175 | a failed response or an exception gives its failure; a complete JSON-LD recipe is kept; otherwise the AI reads the page; a success comes from the link |
| YoutubeParser.FetchAndParseRecipeLink | src/lib/parsers/youtube-parser.ts:136-175 | the method computes `LinkResult` |
| YoutubeParser.DescriptionPrompt | src/lib/parsers/youtube-parser.ts:234-239 | the text for the AI is blank exactly when the description is empty |
| YoutubeParser.FromDescription | src/lib/parsers/youtube-parser.ts:243-249 | the recipe is relabelled as from the video, takes the thumbnail when there is one, and is otherwise unchanged |
| YoutubeParser.FromLinkedPage | src/lib/parsers/youtube-parser.ts:259-269 | the video title fills an empty title, the thumbnail fills a missing image, the source is the video; nothing else changes |
| YoutubeParser.LinkResults | src/lib/parsers/youtube-parser.ts:257-258 | one result per link |
| YoutubeParser.LinkResultAt | src/lib/parsers/youtube-parser.ts:257-258 | the `k`-th result is the `k`-th link's |
| YoutubeParser.LinkRecipe | src/lib/parsers/youtube-parser.ts:257-271 | none exactly when no link from `i` on gives ingredients; a recipe has ingredients and the video as source |
| YoutubeParser.FirstLinkWins | src/lib/parsers/youtube-parser.ts:257-270 | the first link result with ingredients is the one adopted |
| YoutubeParser.ReadVideo | src/lib/parsers/youtube-parser.ts:180-231 | a missing or empty id fails as invalid; an abort fails as too slow, any other thrown error as unreachable; a non-OK status fails with that status in the message; a consent page fails; a page with neither title nor description fails as empty; success exactly when every check passes, with the page's video data |
| YoutubeParser.DescriptionResult | src/lib/parsers/youtube-parser.ts:233-240 | the AI is asked exactly when the description is non-empty |
| YoutubeParser.Resolve | src/lib/parsers/youtube-parser.ts:233-277 | a success has ingredients and the video as source; failure, with the fixed message, exactly when neither the description nor any link gives ingredients |
| YoutubeParser.DescriptionWins | src/lib/parsers/youtube-parser.ts:243-250 | a description with ingredients decides, whatever the links give |
| YoutubeParser.LinksInOrder | src/lib/parsers/youtube-parser.ts:255-270 | otherwise the first link with ingredients decides |
| YoutubeParser.LinksDecide | src/lib/parsers/youtube-parser.ts:253-277 | without a usable description the links alone decide, and failing them the import fails |
| YoutubeParser.YouTubeResult | src/lib/parsers/youtube-parser.ts:180-278 | a failed read gives its error; a success needs a read video, has ingredients and the video as source |
| YoutubeParser.ReadWatchPage | src/lib/parsers/youtube-parser.ts:180-231 | the method computes `ReadVideo` |
| YoutubeParser.ResolveVideo | src/lib/parsers/youtube-parser.ts:233-277 | the method computes `Resolve` on the description's result and the links' results |
| YoutubeParser.ResolveSteps | src/lib/parsers/youtube-parser.ts:233-277 | `Resolve` is the description step, and when it gives nothing the link loop |
| YoutubeParser.TryDescription | src/lib/parsers/youtube-parser.ts:233-251 | the description's recipe, adopted, exactly when it has ingredients |
| YoutubeParser.TryLinks | src/lib/parsers/youtube-parser.ts:255-271 | the loop computes `LinkRecipe` from the first link |
| YoutubeParser.ParseRecipeFromYouTube | src/lib/parsers/youtube-parser.ts:180-278 | the method computes `YouTubeResult` |
| TextParser.StripNumber | src/lib/parsers/text-parser.ts:42-158 | a line that is not numbered is kept, and removal never lengthens a line |
| TextParser.IngredientHeuristic | src/lib/parsers/text-parser.ts:57-69 | blank and metadata lines never look like ingredients; a line starting with a digit always does; a line of 60 characters or more that does not start like a quantity never does |
| TextParser.Lines | src/lib/parsers/text-parser.ts:111 | splitting always gives at least one line |
| TextParser.DetectServings | src/lib/parsers/text-parser.ts:74-77 | none exactly when no position starts a serving phrase; otherwise the number of a phrase in the text |
| TextParser.Leftmost | src/lib/parsers/text-parser.ts:86-98 | the value at the leftmost matching position, none exactly when no position matches |
| TextParser.TimeIn | src/lib/parsers/text-parser.ts:85-98 | the hour form, when it occurs, overrides the minute form |
| TextParser.DetectTimes | src/lib/parsers/text-parser.ts:82-101 | the four overwriting searches give `TimeIn` for the preparation and the cooking heads |
| TextParser.ParseRecipeFromText | src/lib/parsers/text-parser.ts:106-187 | fails, with the fixed message, exactly when the text is blank; a success has a non-empty title, category `plat` and source `paste` |
| TextParser.ScanLine | src/lib/parsers/text-parser.ts:122-168 | the body of the loop moves the title, the section and the two buffers exactly as one step of the fold `Run` does, so the loop computes `Run` over the lines |
| TextParser.StepAppends | src/lib/parsers/text-parser.ts:121-168 | one line appends at most one entry, to one buffer: itself to the ingredients or its un-numbered form to the steps, and only when it is payload |
| TextParser.StepSkips | src/lib/parsers/text-parser.ts:122-151 | blank, marker and metadata lines leave both buffers and a found title alone |
| TextParser.StepTakesTitle | src/lib/parsers/text-parser.ts:125-137 | a line taken as the title reaches neither buffer |
| TextParser.StepUntitled | src/lib/parsers/text-parser.ts:125-168 | before the title, a line that cannot be the title goes where its section sends it |
| TextParser.RunIngredients | src/lib/parsers/text-parser.ts:121-169 | the ingredients only grow, and what is appended is a subsequence of the payload lines, verbatim |
| TextParser.RunSteps | src/lib/parsers/text-parser.ts:121-169 | the steps only grow, and what is appended is a subsequence of the payload lines with numbering removed |
| TextParser.RunCount | src/lib/parsers/text-parser.ts:121-169 | once the title is found, each payload line adds exactly one entry to the two buffers together |
| TextParser.LinesLandOnce | src/lib/parsers/text-parser.ts:121-169 | marker and metadata lines never reach an output; every ingredient is a payload input line kept verbatim and every step a payload input line with its numbering removed, both in input order |
| TextParser.RunKeepsSection | src/lib/parsers/text-parser.ts:140-148 | after the title, lines without section markers keep the title and the section |
| TextParser.IngredientsWithinSection | src/lib/parsers/text-parser.ts:153-168 | in a section, the ingredients gain exactly that section's ingredient lines, in order, verbatim |
| TextParser.StepsWithinSection | src/lib/parsers/text-parser.ts:153-168 | in a section, the steps gain exactly that section's other payload lines, in order, un-numbered |
| TextParser.RunIsFold | src/lib/parsers/text-parser.ts:121 | the loop is a left fold of one iteration |
| TextParser.RunSectionIngredients | src/lib/parsers/text-parser.ts:153-168 | the ingredients of a section run are a one-pass selection of its lines |
| TextParser.RunSectionSteps | src/lib/parsers/text-parser.ts:153-168 | the steps of a section run are a one-pass selection of its lines, un-numbered |
| TextParser.TitleKept | src/lib/parsers/text-parser.ts:125 | once found, the title never changes |
| TextParser.TitleAfterSection | src/lib/parsers/text-parser.ts:125-137 | after a section marker and before a title, only a title-marked line gives the title |
| TextParser.TitleRule | src/lib/parsers/text-parser.ts:121-138 | the loop finds the title the first non-blank line gives: the text after a title marker, or the line without its leading `#`s when it is no section marker |
| TextParser.TextTitle | src/lib/parsers/text-parser.ts:106-176 | the recipe is titled by the title rule, and `Recette importée` when the rule gives an empty title |
| RecipeTypes.CategoryNamed | src/lib/types/recipe.ts:6-17 | a stored name reads back as the category that writes it, and only names of no category read as none |
| RecipeTypes.DifficultyNamed | src/lib/types/recipe.ts:20 | the inverse of the difficulty names: a hit writes back to the same name, a miss is no difficulty's name |
| RecipeTypes.StatusNamed | src/lib/types/recipe.ts:23 | the inverse of the status names, in both directions |
| RecipeTypes.ApplianceNamed | src/lib/types/recipe.ts:26 | the inverse of the appliance names, in both directions |
| RecipeTypes.SourceTypeNamed | src/lib/schemas/recipe.ts:74 | the inverse of the five source-type names (the insert schema also admits `video`), in both directions |
| RecipeTypes.NamesRoundTrip | src/lib/types/recipe.ts:6-29 | every enumeration value survives being written as its stored name and read back |
| RecipeTypes.CategoriesComplete | src/lib/types/recipe.ts:6-99 | exactly eleven categories, each listed once, each with a non-empty label |
| RecipeTypes.AppliancesComplete | src/lib/types/recipe.ts:109-123 | the appliance list holds each of the three appliances once, each with a non-empty label |
| RecipeTypes.StatusCycleOrder | src/lib/types/recipe.ts:140-144 | the status rotation has no fixed point, no 2-cycle, and three clicks return to the start |
| RecipeTypes.StatusListFollowsCycle | src/lib/types/recipe.ts:140-147 | the status list holds each status once, and the rotation sends entry i to entry (i + 1) mod 3 |
| RecipeSchema.ParseInsert | src/lib/schemas/recipe.ts:8-81 | accepted exactly when every field is valid; the title then has 1 to 200 characters, the category is the one named, and missing metadata, status, favourite flag and tags take their defaults |
| RecipeSchema.InsertReparses | src/lib/schemas/recipe.ts:38-81 | a parsed recipe sent again parses to itself: the schema's output is a fixed point |
| RecipeSchema.MetadataNeedsPositiveInts | src/lib/schemas/recipe.ts:29-35 | a preparation or cooking time of 0, or a fractional serving count, rejects the whole recipe |
| RecipeSchema.UpdateOfInsert | src/lib/schemas/recipe.ts:84-86 | an insert object sent as an update is accepted iff the insert schema accepts it and the id is a UUID |
| RecipeSchema.UpdateOnlyNeedsId | src/lib/schemas/recipe.ts:84-86 | every insert field is optional in an update: an update with only an id is accepted iff the id is a UUID |
| RecipeSimple.FormSourceType | src/lib/schemas/recipe-simple.ts:30 | the form admits every source type except `video`, and reads a name back to the type that writes it |
| RecipeSimple.ParseSimpleSchema | src/lib/schemas/recipe-simple.ts:9-34 | accepted exactly when every field is valid; title and both texts are then non-empty, the category is the one named, source type and status default to `manual` and `a_tester`, the favourite flag to false |
| RecipeSimple.SimpleReparses | src/lib/schemas/recipe-simple.ts:9-34 | a validated form sent again validates to the same input |
| RecipeSimple.NonBlankLines | src/lib/schemas/recipe-simple.ts:41-43 | the kept lines are, in order, a subsequence of the split text; each is non-blank and every non-blank line is kept |
| RecipeSimple.StripOrdinal | src/lib/schemas/recipe-simple.ts:56 | removing the ordinal only ever drops a prefix of the line |
| RecipeSimple.Items | src/lib/schemas/recipe-simple.ts:41-48 | one item per non-blank line in order, named by the trimmed line, which is non-empty, with neither quantity nor unit |
| RecipeSimple.Steps | src/lib/schemas/recipe-simple.ts:51-57 | one step per non-blank line, numbered 1 to n in order, whose instruction is the trimmed line less its ordinal |
| RecipeSimple.ParseSimpleRecipe | src/lib/schemas/recipe-simple.ts:59-75 | a single untitled group holding the items, the steps, metadata carrying the source URL only when it is non-empty, status and flags copied, tags empty, no appliance and no image |
| RecipeSimple.TrimmedLines | src/lib/schemas/recipe-simple.ts:45 | the names are already trimmed: trimming them again changes nothing |
| RecipeSimple.SplitAllSpace | src/lib/schemas/recipe-simple.ts:42 | every piece of an all-whitespace text is all whitespace |
| RecipeSimple.BlankTextNoLines | src/lib/schemas/recipe-simple.ts:41-43 | a whitespace-only text yields no line at all |
| RecipeSimple.BlankIngredientsAccepted | src/lib/schemas/recipe-simple.ts:19-62 | a whitespace-only ingredient text passes the form, yet yields an empty group that the insert schema rejects |
| RecipeSimple.OrdinalStripped | src/lib/schemas/recipe-simple.ts:56 | digits, a dot and spaces are removed and exactly the rest of the line is left |
| RecipeSimple.ParenKept | src/lib/schemas/recipe-simple.ts:56 | a line starting `N)` is kept whole |
| RecipeSimple.ItemsValid | src/lib/schemas/recipe-simple.ts:41-62 | the one group the form builds passes the group schema iff some ingredient line is non-blank |
| RecipeSimple.StepsValidIff | src/lib/schemas/recipe-simple.ts:51-57 | the built steps pass the insert schema iff there is one and no instruction is emptied by the ordinal removal |
| RecipeSimple.SimpleRecipeInsertable | src/lib/schemas/recipe-simple.ts:39-75 | the insert schema accepts what the form builds exactly when the title fits in 200 characters, both texts have a non-blank line, no step is only an ordinal, the numbers are positive integers and the source URL is empty or URL-shaped |
| AuthSchema.FirstLine | src/lib/schemas/auth.ts:18 | the longest prefix without a line terminator, which `.*` can scan |
| AuthSchema.EmailIssues | src/lib/schemas/auth.ts:9-12 | no issue exactly when the e-mail is non-empty and e-mail-shaped |
| AuthSchema.PasswordIssues | src/lib/schemas/auth.ts:14-20 | no issue exactly when the password has 8 characters or more and passes the strength pattern |
| AuthSchema.RequiredIssues | src/lib/schemas/auth.ts:22-24 | no issue exactly when the value is non-empty |
| AuthSchema.MatchIssues | src/lib/schemas/auth.ts:25-28 | no issue exactly when the two passwords are equal |
| AuthSchema.Signup | src/lib/schemas/auth.ts:8-28 | accepted, unchanged, iff the e-mail is valid, the password strong, the confirmation non-empty and equal to it; a rejection always carries an issue |
| AuthSchema.Login | src/lib/schemas/auth.ts:31-40 | accepted iff the e-mail is valid and the password non-empty, with no strength rule |
| AuthSchema.Reset | src/lib/schemas/auth.ts:43-48 | accepted iff the e-mail is valid; every issue of a rejection is on `email` |
| AuthSchema.NewPassword | src/lib/schemas/auth.ts:51-66 | accepted iff the password is strong and the confirmation non-empty and equal to it |
| AuthSchema.MismatchOnConfirm | src/lib/schemas/auth.ts:25-28 | a sign-up valid field by field but with a different confirmation is rejected with exactly one issue, on `confirmPassword` |
| AuthSchema.SignupThenLogin | src/lib/schemas/auth.ts:14-40 | whatever signs up can log in with the same password |
| AuthSchema.NewPasswordAsSignup | src/lib/schemas/auth.ts:51-66 | the new-password form accepts exactly what sign-up accepts for the same passwords and any valid e-mail |
| AuthSchema.OneLineStrength | src/lib/schemas/auth.ts:18 | on a one-line password the pattern asks for a lower-case letter, a capital and a digit anywhere |
| AuthSchema.FirstLineWhole | src/lib/schemas/auth.ts:18 | a password without a line break is scanned whole |
| AuthSchema.SecondLineUnseen | src/lib/schemas/auth.ts:18 | a password whose first line lacks a lower-case letter is refused whatever follows the line break |
| AuthSchema.FirstLineStops | src/lib/schemas/auth.ts:18 | the scan stops at the first line feed |
| AuthSchema.StrongExample | src/lib/schemas/auth.ts:14-20 | `Cuisine1` is accepted as a password |
| AuthSchema.NoCapitalRefused | src/lib/schemas/auth.ts:18 | a password with no capital letter anywhere is refused |
| AuthSchema.WeakExample | src/lib/schemas/auth.ts:14-20 | `cuisine1` is refused with the single strength issue |
| FamilySchema.UpperOf | src/lib/schemas/family.ts:17 | one character upper-cases to one character, except `ß`, which becomes two |
| FamilySchema.Upper | src/lib/schemas/family.ts:17 | upper-casing never shortens a text, keeps its length when there is no `ß`, and leaves no ASCII lower-case letter |
| FamilySchema.UpperAppend | src/lib/schemas/family.ts:17 | upper-casing works character by character: it distributes over concatenation |
| FamilySchema.UpperOfFixed | src/lib/schemas/family.ts:17 | what one character upper-cases to is already upper case |
| FamilySchema.UpperTwice | src/lib/schemas/family.ts:17 | upper-casing is idempotent |
| FamilySchema.UpperIgnoresCase | src/lib/schemas/family.ts:17 | on ASCII text the lower-cased text upper-cases the same |
| FamilySchema.CreateGroup | src/lib/schemas/family.ts:8-11 | accepted, unchanged, iff the group name has 1 to 50 characters and the display name 1 to 30 |
| FamilySchema.JoinGroup | src/lib/schemas/family.ts:16-19 | accepted iff the code as typed has exactly 6 characters and the display name 1 to 30; the accepted code is upper case |
| FamilySchema.JoinIgnoresCase | src/lib/schemas/family.ts:17 | an ASCII code typed in lower case joins exactly as the same code in capitals |
| FamilySchema.GeneratedCodeKept | src/lib/schemas/family.ts:16-19 | six capitals and digits are accepted unchanged |
| FamilySchema.UpperKeeps | src/lib/schemas/family.ts:17 | capitals and digits are left as they are |
| FamilySchema.SharpSLengthens | src/lib/schemas/family.ts:17 | the length is checked before upper-casing: a six-character code starting with `ß` is accepted and comes back seven long |
| IngredientsList.ParseFloat | src/components/recipes/ingredients-list.tsx:48-51 | a number is read exactly when the text starts with a digit, and it is never negative |
| IngredientsList.WholeQuantity | src/components/recipes/ingredients-list.tsx:45-52 | a run of digits reads as its decimal value |
| IngredientsList.DecimalQuantity | src/components/recipes/ingredients-list.tsx:45-52 | `d,f` and `d.f` read as the same number, the integer part plus the fraction |
| IngredientsList.FractionQuantity | src/components/recipes/ingredients-list.tsx:45-54 | `a/b` reads as a divided by b; over zero it is Infinity, and `0/0` is NaN, which leaves the name unparsed |
| IngredientsList.SplitOrdered | src/components/recipes/ingredients-list.tsx:27 | the groups of a match lie in order inside the name and the text group is non-empty |
| IngredientsList.ParseWith | src/components/recipes/ingredients-list.tsx:41-61 | with no quantity the name is returned whole, as it is when the pattern cannot match; a unit is only ever read with a quantity and is non-empty |
| IngredientsList.NoDigitNoQuantity | src/components/recipes/ingredients-list.tsx:39-43 | a name not starting with a digit, such as `sel et poivre`, is returned unchanged with no quantity or unit |
| IngredientsList.ParseOfCut | src/components/recipes/ingredients-list.tsx:41-60 | the parse is the quantity, trimmed unit and trimmed text read off the groups of the first match |
| IngredientsList.CountedItem | src/components/recipes/ingredients-list.tsx:38 | a number, a space and a word that starts no unit, such as `3 oeufs entiers`, read as that number, no unit, the word |
| IngredientsList.WeighedItem | src/components/recipes/ingredients-list.tsx:37 | `N g de w`, such as `300 g de farine`, reads as N, unit `g`, text `w` |
| IngredientsList.UnitSwallowsLetter | src/components/recipes/ingredients-list.tsx:27-60 | as written, `N gw` with w starting with a letter reads as N, unit `g`, text `w`: `3 gousses` loses its `g` |
| IngredientsList.UnitIsWholeWord | src/components/recipes/ingredients-list.tsx:27-60 | with units read as whole words, `N gw` reads as N, no unit, text `gw` |
| IngredientsList.UnitNotGlued | src/components/recipes/ingredients-list.tsx:27 | with units read as whole words, a unit read is never followed by a letter |
| IngredientsList.Shown | src/components/recipes/ingredients-list.tsx:74-85 | a field is shown exactly when present and non-empty, and then as it is |
| IngredientsList.Render | src/components/recipes/ingredients-list.tsx:69-107 | a stored quantity is shown scaled with its own unit, name and note and the name is never parsed; otherwise the line is scaled iff the name parses to a quantity (by the pattern as written, or with whole-word units), and shown as the bare name when it does not |
| IngredientsList.RenderGlued | src/components/recipes/ingredients-list.tsx:27-107 | `3 gousses d'ail` with no stored quantity renders as 3, unit `g`, text `ousses d'ail` as written, and as 3, no unit, `gousses d'ail` with whole-word units |
| IngredientsList.ServingsStepper.constructor | src/components/recipes/ingredients-list.tsx:110 | the stepper starts at the recipe's servings, or 0 |
| IngredientsList.ServingsStepper.Multiplier | src/components/recipes/ingredients-list.tsx:112-113 | with servings, the factor turns the recipe's servings into the chosen ones; without, it is 1 |
| IngredientsList.ServingsStepper.IsModified | src/components/recipes/ingredients-list.tsx:114 | the reset button shows exactly when the quantities are scaled |
| IngredientsList.ServingsStepper.Minus | src/components/recipes/ingredients-list.tsx:131-132 | one fewer serving but never below one; when the button is enabled the count strictly drops |
| IngredientsList.ServingsStepper.Plus | src/components/recipes/ingredients-list.tsx:143 | one more serving |
| IngredientsList.ServingsStepper.Reset | src/components/recipes/ingredients-list.tsx:147-152 | back to the recipe's servings, after which nothing is scaled |
| QuantityPattern.DigitRun | src/components/recipes/ingredients-list.tsx:27 | the maximal run of digits from a position: all digits, inside the text, not followed by a digit |
| QuantityPattern.SpaceRun | src/components/recipes/ingredients-list.tsx:27 | the maximal run of whitespace from a position |
| QuantityPattern.Down | src/components/recipes/ingredients-list.tsx:27 | a greedy repetition tries its ends from the longest down to the shortest allowed, one by one |
| QuantityPattern.FirstOf | src/components/recipes/ingredients-list.tsx:27 | backtracking at one choice point: a result comes from some candidate, and none means every candidate failed |
| QuantityPattern.FirstOfPicks | src/components/recipes/ingredients-list.tsx:27 | the first succeeding candidate decides the result |
| QuantityPattern.FirstOfSome | src/components/recipes/ingredients-list.tsx:27 | one succeeding candidate is enough for the choice point to succeed |
| QuantityPattern.FirstOfHead | src/components/recipes/ingredients-list.tsx:27 | when the preferred candidate succeeds it is the result |
| QuantityPattern.DownHas | src/components/recipes/ingredients-list.tsx:27 | every end inside the maximal run is tried |
| QuantityPattern.DownSome | src/components/recipes/ingredients-list.tsx:27 | a greedy repetition succeeds when the rest succeeds after any end it may take |
| QuantityPattern.SlashEndListed | src/components/recipes/ingredients-list.tsx:27 | every end the optional `/ d` part allows is tried |
| QuantityPattern.FracEndListed | src/components/recipes/ingredients-list.tsx:27 | every end the optional decimal part allows is tried |
| QuantityPattern.MatchQuantity | src/components/recipes/ingredients-list.tsx:27 | a match found splits the whole name into the pattern's groups |
| QuantityPattern.MatchIffSplit | src/components/recipes/ingredients-list.tsx:27 | the search is exact: it finds a match iff some split of the name into the pattern's groups exists |
| QuantityPattern.MatchCounted | src/components/recipes/ingredients-list.tsx:27 | a number, a space and a word starting no unit: all digits are the quantity and no unit is read |
| QuantityPattern.MatchWeighed | src/components/recipes/ingredients-list.tsx:27 | `N g de w`: the quantity, the unit `g` and the linker are read, the text starts at `w` |
| QuantityPattern.GluedSearch | src/components/recipes/ingredients-list.tsx:27 | on `N gw`, as written the `g` is read as a unit; with whole-word units it stays in the text |
| IngredientsList.DigitsOnlyLoseLast | src/components/recipes/ingredients-list.tsx:27-61 | a name made only of digits gives its last digit to the text, since the text group needs one character: `300` reads as 30 with the text `0` |
| IngredientsList.MatchDigitsOnly | src/components/recipes/ingredients-list.tsx:27 | on a name of digits only, the match takes all digits but the last as the number, with no unit, and leaves the last to the text |
| QuantityPattern.MatchOfShorterInt | src/components/recipes/ingredients-list.tsx:27 | when no match takes every leading digit, the match is the first one that takes one digit fewer |
| IngredientsList.TrailingUnitIsText | src/components/recipes/ingredients-list.tsx:27-61 | a unit glued to the end of the number is not read as a unit, because the text group needs a character: `250g` reads as 250, no unit, text `g` |
| QuantityPattern.NothingAfterUnit | src/components/recipes/ingredients-list.tsx:27 | a unit that ends the name leaves no text, so that reading of the unit fails |
| QuantityPattern.TrailingGramGap | src/components/recipes/ingredients-list.tsx:27 | at a final `g`, the pattern tries the gram, falls back to reading no unit, and starts the text at the `g` |
| QuantityPattern.TrailingGramMatch | src/components/recipes/ingredients-list.tsx:27 | on digits followed by a final `g`, the match takes every digit as the number, reads no unit and leaves the `g` to the text |
| Json.KeyIndex | src/lib/parsers/ai-parser.ts:89-100 | a field read on a parsed object sees the last member of that name, and no index is found exactly when no member has the name |
| Json.StrOrEmpty | src/lib/parsers/ai-parser.ts:89-97 | a falsy or missing field gives the empty string, and a string field gives its own text |
| CookingMode.Prev | src/components/recipes/cooking-mode.tsx:37-39 | on the first step the cursor stays; elsewhere it moves back by exactly one |
| CookingMode.Next | src/components/recipes/cooking-mode.tsx:41-43 | on the last step the cursor stays; elsewhere it moves on by exactly one |
| CookingMode.KeyAction | src/components/recipes/cooking-mode.tsx:47-51 | ArrowLeft steps back, ArrowRight steps forward and Escape quits, each for that key only; every other key does nothing |
| CookingMode.ReplayStaysOnSteps | src/components/recipes/cooking-mode.tsx:37-51 | when there are steps, no sequence of key presses moves the cursor off them |
| CookingMode.ForwardPresses | src/components/recipes/cooking-mode.tsx:41-49 | n ArrowRight presses move the cursor n steps on, stopping at the last step |
| CookingMode.NoStepsCursorDrifts | src/components/recipes/cooking-mode.tsx:30-43 | with no steps, `isLast` never holds, so ArrowRight still moves the hidden cursor (two presses give 2) |
| CookingMode.Progress | src/components/recipes/cooking-mode.tsx:31 | 0 with no steps; otherwise a percentage in (0, 100] that reaches 100 exactly on the last step |
| CookingMode.ViewOf | src/components/recipes/cooking-mode.tsx:56-154 | the empty screen shows exactly when there are no steps; otherwise the step shown is the cursor, the back button is disabled exactly on the first step, and the bar is full exactly when the forward button reads "Terminer" |
| CookingMode.CookingSession.constructor | src/components/recipes/cooking-mode.tsx:21-23 | the session starts on the first step and has not left the page |
| CookingMode.CookingSession.GoPrev | src/components/recipes/cooking-mode.tsx:37-39 | the cursor moves as `Prev` says and stays on the steps |
| CookingMode.CookingSession.GoNext | src/components/recipes/cooking-mode.tsx:41-43 | the cursor moves as `Next` says and stays on the steps |
| CookingMode.CookingSession.GoBack | src/components/recipes/cooking-mode.tsx:33-35 | the session leaves for the recipe's page, `/recettes/` followed by its id |
| CookingMode.CookingSession.KeyDown | src/components/recipes/cooking-mode.tsx:46-54 | one key press moves the cursor as one replayed action does, and Escape leaves for the recipe's page |
| CookingMode.CookingSession.ForwardButton | src/components/recipes/cooking-mode.tsx:136-154 | on the last step the button leaves for the recipe's page and the cursor stays; elsewhere it advances by one and does not leave |
| SearchParams.Get | src/components/recipes/recipe-filters.tsx:41-44 | a value found belongs to a pair with that name, and none is found exactly when no pair has the name |
| SearchParams.Delete | src/components/recipes/recipe-filters.tsx:52 | no pair of that name is left, every other pair is kept, and nothing new appears |
| SearchParams.Set | src/components/recipes/recipe-filters.tsx:54 | the pair is present afterwards and the list grows by at most one |
| SearchParams.GetAfterDelete | src/components/recipes/recipe-filters.tsx:52 | after `delete` the name reads as absent and every other name reads as before |
| SearchParams.GetAfterSet | src/components/recipes/recipe-filters.tsx:54 | after `set` the name reads as the new value and every other name reads as before |
| SearchParams.DeleteTwice | src/components/recipes/recipe-filters.tsx:52 | deleting a name twice is the same as deleting it once |
| SearchParams.SetKeepsOthers | src/components/recipes/recipe-filters.tsx:54 | `set` leaves the pairs of every other name in place and in order |
| SearchParams.DeleteAbsent | src/components/recipes/recipe-filters.tsx:52 | deleting a name that is absent changes nothing |
| SearchParams.SetAbsent | src/components/recipes/recipe-filters.tsx:54 | setting a name that is absent appends one pair at the end |
| SearchParams.ToggleEffect | src/components/recipes/recipe-filters.tsx:48-58 | clicking the active badge clears its filter; clicking any other badge selects it; other parameters are untouched |
| SearchParams.ToggleTwice | src/components/recipes/recipe-filters.tsx:48-58 | clicking a badge twice, starting with no filter of its kind, gives back the same parameters |
| SearchParams.DeleteAppended | src/components/recipes/recipe-filters.tsx:52-54 | deleting a name also removes a pair of that name appended at the end |
| SearchParams.WithSearchEffect | src/components/recipes/recipe-filters.tsx:84-95 | a search submit reads back as the trimmed text, or as absent for a blank box, and leaves the other parameters alone |
| RecipeFilters.BadgeNamesNonEmpty | src/components/recipes/recipe-filters.tsx:24-36 | every category, appliance and status a badge can set has a non-empty name |
| RecipeFilters.ToggleShowsFilters | src/components/recipes/recipe-filters.tsx:48-102 | selecting a badge always shows the clear button; clearing the active one shows it exactly when another filter is still set |
| RecipeFilters.EmptyValueIsNoFilter | src/components/recipes/recipe-filters.tsx:102 | a parameter present with an empty value does not count as a filter |
| RecipeFilters.RecipeFilterBar.constructor | src/components/recipes/recipe-filters.tsx:38-46 | the bar starts on `/recettes` with the given parameters, and its box holds the current search or nothing |
| RecipeFilters.RecipeFilterBar.CategoryClick | src/components/recipes/recipe-filters.tsx:48-58 | the category badge toggles the `category` parameter, and the page stays `/recettes` |
| RecipeFilters.RecipeFilterBar.ApplianceClick | src/components/recipes/recipe-filters.tsx:60-70 | the appliance badge toggles the `appliance` parameter, and the page stays `/recettes` |
| RecipeFilters.RecipeFilterBar.StatusClick | src/components/recipes/recipe-filters.tsx:72-82 | the status badge toggles the `status` parameter, and the page stays `/recettes` |
| RecipeFilters.RecipeFilterBar.SearchInput | src/components/recipes/recipe-filters.tsx:46 | the box holds what was typed |
| RecipeFilters.RecipeFilterBar.SearchSubmit | src/components/recipes/recipe-filters.tsx:84-95 | the box's trimmed text becomes the `search` parameter, or the parameter is removed when the box is blank |
| RecipeFilters.RecipeFilterBar.ClearFilters | src/components/recipes/recipe-filters.tsx:97-102 | the box is emptied, the page is `/recettes` with no parameters, and the clear button is hidden |
| VideoFilters.OtherParamsIgnored | src/components/videos/video-filters.tsx:62 | parameters other than the category and the search never decide whether the clear button shows |
| VideoFilters.SearchShowsFilters | src/components/videos/video-filters.tsx:44-62 | after a search submit the clear button shows exactly when the box held more than whitespace or a category is set |
| VideoFilters.VideoFilterBar.constructor | src/components/videos/video-filters.tsx:24-30 | the bar starts on `/videos` with the given parameters, and its box holds the current search or nothing |
| VideoFilters.VideoFilterBar.CategoryClick | src/components/videos/video-filters.tsx:32-42 | the category badge toggles the `category` parameter, and the page stays `/videos` |
| VideoFilters.VideoFilterBar.SearchInput | src/components/videos/video-filters.tsx:30 | the box holds what was typed |
| VideoFilters.VideoFilterBar.SearchSubmit | src/components/videos/video-filters.tsx:44-55 | the box's trimmed text becomes the `search` parameter, or the parameter is removed when the box is blank |
| VideoFilters.VideoFilterBar.ClearFilters | src/components/videos/video-filters.tsx:57-62 | the box is emptied, the page is `/videos` with no parameters, and the clear button is hidden |
| DesktopHeader.SectionActive | src/components/layout/desktop-header.tsx:28-36 | a section link is highlighted exactly when the path is its href, alone or followed by `/`; so `/videosx` does not highlight `/videos` |
| DesktopHeader.ExactOnlyActive | src/components/layout/desktop-header.tsx:22-27 | "New recipe" and "Favourites" are highlighted on their own page and nowhere else |
| DesktopHeader.ListedItemsExplicit | src/components/layout/desktop-header.tsx:10-37 | every listed link has its own branch; the plain-prefix fallback is used only by hrefs that are not listed |
| DesktopHeader.SectionsDisjoint | src/components/layout/desktop-header.tsx:28-36 | no path highlights two different sections |
| DesktopHeader.AtMostOneActiveElsewhere | src/components/layout/desktop-header.tsx:10-37 | `/recettes/new` highlights both "My recipes" and "New recipe"; every other path highlights at most one link |
| DesktopHeader.NewRecipeActive | src/components/layout/desktop-header.tsx:10-37 | on `/recettes/new` the highlighted links are "My recipes" then "New recipe" |
| DesktopHeader.OneActiveCounts | src/components/layout/desktop-header.tsx:10-37 | away from `/recettes/new`, if no two sections are highlighted together then at most one link is |
| DesktopHeader.ActiveItemsUnrolled | src/components/layout/desktop-header.tsx:10-16 | the highlighted links are the listed links that are active, taken in display order |
| DesktopHeader.ActiveCount | src/components/layout/desktop-header.tsx:10-16 | the number of highlighted links is the number of listed links that are active |
| MobileNav.IsActive | src/components/layout/mobile-nav.tsx:20-37 | the bottom bar highlights a link exactly when the header would, for every path |
| MobileNav.SameHighlightsAsHeader | src/components/layout/mobile-nav.tsx:9-37 | the bottom bar lists the header's hrefs in the same order, so it highlights the same links: two on `/recettes/new`, at most one elsewhere, and not `/videos` on `/videosx` |
| Middleware.Decide | src/middleware.ts:46-67 | a visitor without a session on a protected route goes to `/login`; a signed-in visitor on a sign-in page goes to `/recettes`; every other request passes |
| Middleware.RulesExclusive | src/middleware.ts:46-55 | no path is both a sign-in page and a protected route, so at most one redirect rule applies |
| Middleware.PublicPathsPass | src/middleware.ts:51-55 | the home page and every `/api` path pass, whether or not the visitor is signed in |
| Middleware.LoginPrefixCounts | src/middleware.ts:46-48 | the sign-in test is a prefix test: `/login-help` counts as a sign-in page and a signed-in visitor is sent to `/recettes` |
| Middleware.NoRedirectLoop | src/middleware.ts:46-67 | following a redirect never leads to a second redirect for the same visitor |
| Strings.Lower | src/lib/parsers/url-parser.ts:70 | lower-casing keeps the length and maps each character on its own |
| Strings.Trim | src/lib/parsers/text-parser.ts:107-111 | the result is the infix left once leading and trailing whitespace are removed; it neither starts nor ends with whitespace, and it is empty exactly when the text is all whitespace |
| Strings.TrimKeeps | src/lib/parsers/text-parser.ts:111 | a text that neither starts nor ends with whitespace is kept by `trim` |
| Strings.TrimTwice | src/lib/parsers/text-parser.ts:111 | `trim` is idempotent |
| Strings.IndexOfChar | src/lib/parsers/ai-parser.ts:68 | the first occurrence of the character, none exactly when it is absent |
| Strings.Split | src/lib/parsers/text-parser.ts:111 | splitting gives at least one piece, and no piece holds the separator |
| Strings.JoinSplit | src/lib/parsers/text-parser.ts:111 | joining the pieces of a split with the separator gives the text back |
| Strings.SplitJoin | src/lib/parsers/url-parser.ts:87-89 | joining pieces free of the separator and splitting again gives the pieces back |
| Strings.IndexOf | src/lib/parsers/ai-parser.ts:59-68 | the first occurrence at or after the start position, none exactly when there is none |
| Strings.ContainsIff | src/lib/parsers/ai-parser.ts:114-123 | `includes` holds exactly when some position holds an occurrence |
| Strings.NatToString | src/lib/parsers/ai-parser.ts:90 | a natural number is written as decimal digits without leading zeros, and `parseInt` reads it back |
| Strings.IntToString | src/lib/parsers/ai-parser.ts:90 | an integer's text is non-empty and starts with `-` exactly when the integer is negative |
| Seqs.Filter | src/lib/schemas/recipe-simple.ts:43 | `filter` keeps only elements that pass, and keeps every element that passes |
| Seqs.Map | src/lib/schemas/recipe-simple.ts:44 | `map` keeps the length and applies the function at every position |
| Seqs.FilterIsSubseq | src/lib/schemas/recipe-simple.ts:43 | what `filter` keeps is in the input's order |
| Seqs.FilterMapIsMapFilter | src/lib/schemas/recipe-simple.ts:41-55 | one pass that tests and converts each element is `filter` followed by `map` |
| Regex.MatchAppend | src/lib/parsers/text-parser.ts:13-42 | matching a concatenation of pattern pieces is matching the first half, then the second from where it ended |
| Regex.StripPrefix | src/lib/parsers/text-parser.ts:128-134 | removing a leading match leaves a suffix of the text, and the text itself when nothing matches |
| QuantityPattern.FromInt | src/components/recipes/ingredients-list.tsx:27 | a match found after the integer part keeps that part and fits the rest of the pattern |
| QuantityPattern.FromFrac | src/components/recipes/ingredients-list.tsx:27 | a match found after the decimal part keeps it and fits the rest of the pattern |
| QuantityPattern.FromQty | src/components/recipes/ingredients-list.tsx:27 | a match found after the quantity keeps it and fits the spaces, unit, linker and text that follow |
| QuantityPattern.FromGap | src/components/recipes/ingredients-list.tsx:27 | a match found at the unit keeps the cut points before it and fits the optional unit and the rest |
| QuantityPattern.FromUnitEnd | src/components/recipes/ingredients-list.tsx:27 | a match found after the unit fits the spaces, the linker and the text |
| QuantityPattern.FromLink | src/components/recipes/ingredients-list.tsx:27 | a match found at the linker fits `de` with spaces, `d'` or nothing, then a non-empty text on one line |
| QuantityPattern.FracEnds | src/components/recipes/ingredients-list.tsx:27 | every candidate end of `[.,]\d+` is one the pattern allows |
| QuantityPattern.SlashEnds | src/components/recipes/ingredients-list.tsx:27 | every candidate end of the fraction part is one the pattern allows |
| QuantityPattern.LinkComplete | src/components/recipes/ingredients-list.tsx:27 | when some linker and text fit, the search at the linker finds a match |
| QuantityPattern.UnitEndComplete | src/components/recipes/ingredients-list.tsx:27 | when some spaces, linker and text fit after the unit, the search there finds a match |
| QuantityPattern.GapComplete | src/components/recipes/ingredients-list.tsx:27 | when some optional unit and rest fit, the search at the unit finds a match |
| QuantityPattern.QtyComplete | src/components/recipes/ingredients-list.tsx:27 | when some split fits after the quantity, the search there finds a match |
| QuantityPattern.FracComplete | src/components/recipes/ingredients-list.tsx:27 | when some split fits after the decimal part, the search there finds a match |
| QuantityPattern.IntComplete | src/components/recipes/ingredients-list.tsx:27 | when some split fits after the integer part, the search there finds a match |
| QuantityPattern.CountedSearch | src/components/recipes/ingredients-list.tsx:27 | on digits, one space and a word that starts no unit, slash or linker, the match takes all the digits and no unit |
| QuantityPattern.WeighedSearch | src/components/recipes/ingredients-list.tsx:27 | on digits, ` g de ` and a word, the match reads the number, the unit `g` and the linker |
| QuantityPattern.GluedMatches | src/components/recipes/ingredients-list.tsx:27 | on digits, a space, `g` and a letter, reading `g` as a unit fits the pattern as written, and reading no unit fits it once units must be whole words |
| AiParser.KeyMissingMentionsKey | src/lib/parsers/ai-parser.ts:44-46 | the missing-key message names `ANTHROPIC_API_KEY`, so `handleError` passes it through |
| AiParser.FencedBlockOf | src/lib/parsers/ai-parser.ts:59-62 | in a reply `pre` then a ```` ```json ```` fence, a body and a closing fence, the captured block is the body |
| AiParser.ReplyTextsRead | src/lib/parsers/ai-parser.ts:89-97 | a reply in the requested format gives back its title, ingredient text and step text |
| AiParser.ReplyNumbersRead | src/lib/parsers/ai-parser.ts:98-100 | a reply in the requested format gives back its preparation time, cooking time and servings |
| AiParser.ReplyEnumsRead | src/lib/parsers/ai-parser.ts:90-103 | a reply in the requested format gives back its category, appliance and difficulty |
| AiParser.RemoveAllElements | src/lib/parsers/ai-parser.ts:224-229 | removing the script, style, nav, footer, header and aside elements never lengthens the text (what each removal does: `RemoveElementsElement`, `RemoveAllInOrder`, `ScriptDropped`) |
| AiParser.DecimalRef | src/lib/parsers/ai-parser.ts:232 | a decimal character reference found is `&#`, a digit run and `;` |
| AiParser.HexRef | src/lib/parsers/ai-parser.ts:233 | a hexadecimal character reference found starts with `&#` and ends with `;` |
| AiParser.Condensed | src/lib/parsers/ai-parser.ts:246-248 | after collapsing, trimming and cutting, the text is at most 8000 characters and single-spaced |
| AiParser.CondensedKeeps | src/lib/parsers/ai-parser.ts:246-248 | text already single-spaced, trimmed and within the limit is kept |
| AiParser.AmpDecodedOnce | src/lib/parsers/ai-parser.ts:234-245 | `&amp;` followed by text that starts no later entity is decoded once, to `&`, and not again |
| TextParser.StepBeforeTitle | src/lib/parsers/text-parser.ts:121-168 | before the title is found, a non-empty, non-metadata line adds itself to the ingredients, adds its unnumbered form to the steps, or adds nothing |
| TextParser.StepWithinSection | src/lib/parsers/text-parser.ts:140-168 | once the title is found, a line that is not a section marker appends to the ingredients or to the unnumbered steps exactly as the current section and the line's shape route it, and changes nothing else |
| TextParser.SectionStep | src/lib/parsers/text-parser.ts:140-168 | once the title is found, such a line keeps the section, and each buffer grows by the line's own filter-and-map contribution |
| TextParser.PayloadFilter | src/lib/parsers/text-parser.ts:150-168 | filtering the kept lines takes the first line exactly when it is kept, and the unnumbered steps follow the same order |
| UrlParser.FieldsRead | src/lib/parsers/url-parser.ts:53-61 | the duration is hours times 60 plus minutes, and absent when that total is 0 |
| UrlParser.MinutesField | src/lib/parsers/url-parser.ts:53-61 | `PT<m>M…` gives `m` minutes, and no duration when `m` is 0 |
| UrlParser.HoursField | src/lib/parsers/url-parser.ts:53-61 | `PT<h>H` followed by no digit gives `h` hours as `60 h` minutes, and no duration when `h` is 0 |
| UrlParser.PlainNode | src/lib/parsers/url-parser.ts:198-210 | a recipe node with a name and an ingredient text but no category or instructions gives the trimmed name, those ingredients, no steps and category `plat` |
| UrlParser.BlockOfNode | src/lib/parsers/url-parser.ts:190-214 | a JSON-LD block whose parsed value is itself an accepted recipe node yields the recipe built from it |

## Left out

- Network I/O (`fetch`, abort timeouts, the consent cookie, charset re-decoding) is not modelled. Fetch outcomes and page HTML are parameters of the decision logic in `YoutubeParser` and `UrlParser`.
- The Anthropic SDK calls and the prompt texts are left out, because their behaviour is external. The model's replies and thrown errors are parameters of `AiParser.AiResult`.
- cheerio's HTML parsing is replaced by an abstract page: its script-block texts, its first `<h1>` and its `<title>`. `JSON.parse` is a parameter returning a JSON value or nothing.
- JSON numbers are integers. Fractional and exponent numbers, and binary floating point in general, are left out. `formatQuantity`'s rounding and `toFixed` are not modelled, and quantities are exact reals.
- `IngredientsList.ParseFloat` reads digits exactly. JavaScript's rounding of very long digit strings to a double is not modelled.
- The other digit readings are exact too: `Number(code)` and `parseInt(hex, 16)` in `AiParser.DecodeDecimal` and `AiParser.DecodeHex`, and the `parseInt` calls behind `UrlParser.IsoDuration`, `UrlParser.Servings`, `TextParser.DetectServings` and `TextParser.DetectTimes`. In JavaScript, runs beyond 2^53 are rounded to a double. A decimal reference of more than about 309 digits gives Infinity, which `String.fromCharCode` turns into U+0000.
- Strings are sequences of Unicode scalar values. JavaScript lengths count UTF-16 code units, so limits such as `max(200)` differ for characters outside the Basic Multilingual Plane. Every surrogate code unit from `String.fromCharCode` becomes U+FFFD, including both halves of a valid pair: `&#55357;&#56832;` (or `&#xD83D;&#xDE00;`) gives two U+FFFD where JavaScript gives the one character U+1F600.
- Case mapping covers ASCII, Latin-1 and the few other letters the tables need (U+0178, U+212A, U+212B, U+1E9E). Full Unicode case folding is left out.
- zod's format checks (URL, e-mail, UUID) are opaque predicates passed as parameters. Which issues zod reports together, and in what order, depends on the library version and is not modelled; acceptance and the refinement's issue path are.
- URLSearchParams is a list of name/value pairs. Parsing and serialising the query string, and its percent-encoding, are left out.
- React rendering, effects and re-render timing are left out. Stale closures between a key press and the next render are not modelled: each key press is handled after the previous one's re-render.
- The middleware's cookie plumbing, the session refresh and `config.matcher` are left out. The signed-in state is a parameter of `Middleware.Decide`.
- The data-service CRUD, the recipe and video forms, the family routes (including the `Math.random` code generator), image generation and compression, toggle buttons, cards, grids, the user menu and the layouts are not part of this model.
- The sample text of the text-import widget (src/components/recipes/import/text-import.tsx:60) is not proved to parse to its title, four ingredients and six steps. The general title and line-placement lemmas of `TextParser` cover the rules that sample exercises.
- `TextParser.ParseRecipeFromText`: the loop body is a separate method, `TextParser.ScanLine`, so each `continue` becomes an early return. The statements are otherwise those of the loop.
- MapCategory (`UrlParser.MapCategory`): the loops compute the corrected own-key lookup `MappedCategory`, not the bracket lookup of url-parser.ts:71 as written. The two differ only on a category that normalises to `constructor` or `__proto__` (`UrlParser.AsWrittenAgrees`); there the source returns an inherited `Object.prototype` value, which `MappedCategoryAsWritten` models and the pipeline does not.
- RecipeOfNode (`UrlParser.RecipeOfNode`): the recipe's category comes from the corrected `MappedCategory`, so a JSON-LD `recipeCategory` of `constructor` or `__proto__` gives a table category here, where the source stores the inherited value.
- BlockRecipe (`UrlParser.BlockRecipe`): built on `RecipeOfNode`, so it carries the corrected category lookup.
- FirstAccepted (`UrlParser.FirstAccepted`): the acceptance scan builds each recipe with the corrected category lookup.
- HtmlResult (`UrlParser.HtmlResult`): `parseRecipeFromHtml` is modelled with the corrected category lookup; only the two inherited names make it differ from the source.
- FirstAcceptedWins (`UrlParser.FirstAcceptedWins`): states the result through the corrected category lookup.
- ParseRecipeFromHtml (`UrlParser.ParseRecipeFromHtml`): computes `HtmlResult`, so it carries the corrected category lookup.
- VideoDataOf (`YoutubeParser.VideoDataOf`): the title is read with the corrected `Title`, not `TitleAsWritten`. They differ only on a title holding an escaped quote, where the source cuts the title before it (`YoutubeParser.EscapedQuoteCutsTitle`).
- ExtractVideoData (`YoutubeParser.ExtractVideoData`): computes `VideoDataOf`, so it carries the corrected title.
- ReadVideo (`YoutubeParser.ReadVideo`): reads `VideoDataOf`, so it carries the corrected title.
- ReadWatchPage (`YoutubeParser.ReadWatchPage`): computes `ReadVideo`, so it carries the corrected title.
- LinkResult (`YoutubeParser.LinkResult`): a linked page is read by `HtmlResult`, so it carries the corrected category lookup.
- FetchAndParseRecipeLink (`YoutubeParser.FetchAndParseRecipeLink`): runs `ParseRecipeFromHtml`, so it carries the corrected category lookup.
- YouTubeResult (`YoutubeParser.YouTubeResult`): composes `ReadVideo` and `LinkResult`, so it carries the corrected title and the corrected category lookup.
- ParseRecipeFromYouTube (`YoutubeParser.ParseRecipeFromYouTube`): computes `YouTubeResult`, so it carries the corrected title and the corrected category lookup.

## Findings

| source | as written | input that shows it | evidently intended | confidence | as-written member | corrected member |
|---|---|---|---|---|---|---|
| src/lib/parsers/url-parser.ts:71 | `CATEGORY_MAP[normalized]` is a bracket lookup on a plain object, so names inherited from `Object.prototype` are found too | a JSON-LD `recipeCategory` of `"constructor"` returns the `Object` constructor, which is none of the eleven categories | only the table's own keys are looked up, so every category maps to one of the eleven | not executed | UrlParser.MappedCategoryAsWritten, UrlParser.ConstructorCategory | UrlParser.MappedCategory |
| src/lib/parsers/youtube-parser.ts:70 | the title is captured with `"title":"(.*?)"`, which stops at the first quote even when it is escaped | `"title":"a\"b"` gives the title `a\` | the title is read up to the first unescaped quote, as the description is on line 78 | not executed | YoutubeParser.TitleAsWritten, YoutubeParser.EscapedQuoteCutsTitle | YoutubeParser.Title, YoutubeParser.EscapedQuoteKept |
| src/components/recipes/ingredients-list.tsx:27 | the unit alternatives are not bounded by a word boundary, so a word starting with a unit's letters loses them | `3 gousses d'ail` gives 3, unit `g`, text `ousses d'ail` | a unit is read only as a whole word: 3, no unit, text `gousses d'ail` | not executed | IngredientsList.UnitSwallowsLetter | IngredientsList.UnitIsWholeWord |
