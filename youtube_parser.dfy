/**
 * The video resolver of `youtube-parser.ts`: recognising a video address,
 * reading the title, description, caption tracks and thumbnail out of the
 * watch page's embedded JSON with the parser's regular expressions, picking
 * outbound recipe links from the description, and the strategy that turns a
 * video into a recipe (the AI on the description first, then each linked
 * page in order, then a failure).
 *
 * `new URL(...)` is a parameter (`UrlParse`); the network fetches and the AI
 * calls are inputs that give their outcomes (`VideoFetch`, `LinkFetch`,
 * `Reply`), and the AI outcome is turned into a `ParseResult` by the model of
 * the AI normaliser.
 */
module YoutubeParser {
  import opened Wrappers
  import opened Strings
  import opened Seqs
  import opened Json
  import opened ParserTypes
  import UrlParser
  import AiParser

  // ---------------------------------------------------------------------------
  // Addresses
  // ---------------------------------------------------------------------------

  /** The parts of a WHATWG URL the resolver reads; the query keeps its order. */
  datatype Url = Url(hostname: string, pathname: string, query: seq<(string, string)>)

  /** `new URL(s)`: `None` where the constructor throws. */
  type UrlParse = string -> Option<Url>

  const YouTubeHosts: seq<string> := ["www.youtube.com", "youtube.com", "m.youtube.com", "youtu.be"]

  /** `isYouTubeUrl`. */
  function IsYouTubeUrl(url: string, parseUrl: UrlParse): (b: bool)
    ensures b <==> parseUrl(url).Some? && parseUrl(url).value.hostname in YouTubeHosts
  {
    match parseUrl(url)
    case None => false
    case Some(u) =>
      u.hostname == "www.youtube.com" || u.hostname == "youtube.com"
      || u.hostname == "m.youtube.com" || u.hostname == "youtu.be"
  }

  /** The position of the first query pair named `key`. */
  function QueryIndex(query: seq<(string, string)>, key: string): (r: Option<nat>)
    ensures r.Some? ==> r.value < |query| && query[r.value].0 == key
    ensures r.Some? ==> forall j :: 0 <= j < r.value ==> query[j].0 != key
    ensures r.None? ==> forall j :: 0 <= j < |query| ==> query[j].0 != key
  {
    if query == [] then None
    else if query[0].0 == key then Some(0)
    else match QueryIndex(query[1..], key)
      case None => None
      case Some(k) => Some(k + 1)
  }

  /** `searchParams.get(key)`: the value of the first pair named `key`. */
  function QueryGet(query: seq<(string, string)>, key: string): Option<string> {
    match QueryIndex(query, key)
    case None => None
    case Some(i) => Some(query[i].1)
  }

  /** `extractVideoId`. */
  function VideoId(url: string, parseUrl: UrlParse): (r: Option<string>)
    ensures parseUrl(url).None? ==> r.None?
    ensures parseUrl(url).Some? && parseUrl(url).value.hostname == "youtu.be" ==>
      var path := parseUrl(url).value.pathname;
      (r.None? <==> |path| <= 1) && (r.Some? ==> path == [path[0]] + r.value)
    ensures parseUrl(url).Some? && parseUrl(url).value.hostname != "youtu.be" ==>
      (r.None? <==> QueryIndex(parseUrl(url).value.query, "v").None?)
    ensures parseUrl(url).Some? && parseUrl(url).value.hostname != "youtu.be" ==>
      var q := parseUrl(url).value.query;
      forall i :: 0 <= i < |q| && q[i].0 == "v" && (forall j :: 0 <= j < i ==> q[j].0 != "v") ==> r == Some(q[i].1)
  {
    match parseUrl(url)
    case None => None
    case Some(u) =>
      if u.hostname == "youtu.be" then
        (if |u.pathname| <= 1 then None else Some(u.pathname[1..]))
      else QueryGet(u.query, "v")
  }

  /** A short link `youtu.be/<id>` is a video address whose id is the path after the slash. */
  lemma ShortLinkId(url: string, parseUrl: UrlParse, id: string)
    requires parseUrl(url).Some? && parseUrl(url).value.hostname == "youtu.be"
    requires parseUrl(url).value.pathname == "/" + id && id != ""
    ensures IsYouTubeUrl(url, parseUrl)
    ensures VideoId(url, parseUrl) == Some(id)
  {
    assert ("/" + id)[1..] == id;
  }

  /** On a watch page the id is the first `v` parameter, whatever comes before or after it. */
  lemma WatchLinkId(url: string, parseUrl: UrlParse, pre: seq<(string, string)>, id: string, rest: seq<(string, string)>)
    requires parseUrl(url).Some? && parseUrl(url).value.hostname == "www.youtube.com"
    requires parseUrl(url).value.query == pre + [("v", id)] + rest
    requires forall p <- pre :: p.0 != "v"
    ensures IsYouTubeUrl(url, parseUrl)
    ensures VideoId(url, parseUrl) == Some(id)
  {
    var q := parseUrl(url).value.query;
    assert q[|pre|] == ("v", id);
    forall j | 0 <= j < |pre| ensures q[j].0 != "v" {
      assert q[j] == pre[j];
    }
  }

  // ---------------------------------------------------------------------------
  // Lazy captures `key(.*?)<close>`
  // ---------------------------------------------------------------------------

  /** No line terminator in `s[m..k]`. */
  predicate NoBreak(s: string, m: nat, k: nat) {
    k <= |s| && forall p :: m <= p < k ==> !LineTerminator(s[p])
  }

  /** `{"url":"` opens the thumbnail entry the thumbnail pattern looks for. */
  const ThumbOpen: string := "{\"url\":\""
  const ThumbHost: string := "https://i.ytimg.com/vi/"

  /** What ends a lazy `.*?`. */
  datatype Close =
    | Quote           // "
    | UnescapedQuote  // (?<!\\)"
    | Bracket         // \]
    | ThumbLink       // \{"url":"(https:\/\/i\.ytimg\.com\/vi\/[^"]+)"

  /** The length of the run of non-quote characters from `i`: `[^"]*`. */
  function NonQuoteRun(s: string, i: nat): (k: nat)
    requires i <= |s|
    ensures i + k <= |s|
    ensures forall p :: i <= p < i + k ==> s[p] != '"'
    ensures i + k < |s| ==> s[i + k] == '"'
    decreases |s| - i
  {
    if i == |s| || s[i] == '"' then 0 else 1 + NonQuoteRun(s, i + 1)
  }

  /**
   * `{"url":"https://i.ytimg.com/vi/[^"]+"` at `j`: the position of the
   * closing quote. `[^"]+` is greedy and is followed by a quote, so it takes
   * the whole run of non-quote characters.
   */
  function ThumbEnd(s: string, j: nat): (r: Option<nat>)
    ensures r.Some? ==> OccursAt(s, ThumbOpen + ThumbHost, j)
    ensures r.Some? ==> j + |ThumbOpen + ThumbHost| < r.value < |s| && s[r.value] == '"'
    ensures r.Some? ==> forall p :: j + |ThumbOpen + ThumbHost| <= p < r.value ==> s[p] != '"'
  {
    if !OccursAt(s, ThumbOpen + ThumbHost, j) then None
    else
      var k := j + |ThumbOpen + ThumbHost|;
      var q := k + NonQuoteRun(s, k);
      if q > k && q < |s| then Some(q) else None
  }

  predicate ClosesAt(s: string, j: nat, c: Close) {
    j < |s| &&
    match c
    case Quote => s[j] == '"'
    case UnescapedQuote => s[j] == '"' && !(j > 0 && s[j - 1] == '\\')
    case Bracket => s[j] == ']'
    case ThumbLink => ThumbEnd(s, j).Some?
  }

  /**
   * `.*?` from `m` followed by `c`: the first position where `c` matches,
   * reached without crossing a line terminator.
   */
  function LazyUntil(s: string, m: nat, c: Close): (r: Option<nat>)
    ensures r.Some? ==> m <= r.value < |s| && ClosesAt(s, r.value, c) && NoBreak(s, m, r.value)
    ensures r.Some? ==> forall k :: m <= k < r.value ==> !ClosesAt(s, k, c)
    ensures r.None? ==> forall k :: m <= k && NoBreak(s, m, k) ==> !ClosesAt(s, k, c)
    decreases |s| - m
  {
    if m >= |s| then None
    else if ClosesAt(s, m, c) then Some(m)
    else if LineTerminator(s[m]) then None
    else LazyUntil(s, m + 1, c)
  }

  /** Where `key(.*?)<c>` matches at `i`: the bounds of the captured text. */
  function MatchAt(s: string, key: string, c: Close, i: nat): (r: Option<(nat, nat)>)
    ensures r.Some? ==> OccursAt(s, key, i) && r.value.0 == i + |key|
    ensures r.Some? ==> r.value.0 <= r.value.1 < |s| && ClosesAt(s, r.value.1, c)
    ensures r.Some? ==> NoBreak(s, r.value.0, r.value.1)
    ensures r.Some? ==> forall k :: r.value.0 <= k < r.value.1 ==> !ClosesAt(s, k, c)
  {
    if !OccursAt(s, key, i) then None
    else match LazyUntil(s, i + |key|, c)
      case None => None
      case Some(e) => Some((i + |key|, e))
  }

  /** `s.match(/key(.*?)<c>/)`: the bounds of the leftmost match's capture. */
  function Span(s: string, key: string, c: Close): (r: Option<(nat, nat)>)
    ensures r.Some? ==> r.value.0 <= r.value.1 < |s| && NoBreak(s, r.value.0, r.value.1)
    ensures r.Some? ==> ClosesAt(s, r.value.1, c)
    ensures r.Some? ==> forall k :: r.value.0 <= k < r.value.1 ==> !ClosesAt(s, k, c)
    ensures r.Some? ==> r.value.0 >= |key| && OccursAt(s, key, r.value.0 - |key|)
    ensures r.None? ==> forall i :: 0 <= i < |s| ==> MatchAt(s, key, c, i).None?
  {
    var f := (i: nat) => MatchAt(s, key, c, i);
    match FirstAt(|s|, 0, f)
    case None =>
      forall i | 0 <= i < |s|
        ensures MatchAt(s, key, c, i).None?
      {
        assert f(i).None?;
      }
      None
    case Some((_, span)) => Some(span)
  }

  /** The captured text of `s.match(/key(.*?)<c>/)`. */
  function Capture(s: string, key: string, c: Close): (r: Option<string>)
    ensures r.Some? ==> forall ch <- r.value :: !LineTerminator(ch)
    ensures r.Some? && c == Quote ==> '"' !in r.value
    ensures r.Some? && c == Bracket ==> ']' !in r.value
  {
    match Span(s, key, c)
    case None => None
    case Some((b, e)) =>
      var t := s[b..e];
      assert forall k :: 0 <= k < |t| ==> t[k] == s[b + k] && !ClosesAt(s, b + k, c);
      Some(t)
  }

  /** What `(.*?)"` can capture: no quote and no line terminator. */
  predicate LazyCapture(t: string) {
    '"' !in t && forall ch <- t :: !LineTerminator(ch)
  }

  /** `[...s.matchAll(/key(.*?)"/g)].map(m => m[1])`, searching from `from`. */
  function AllCaptures(s: string, key: string, from: nat): (r: seq<string>)
    requires key != ""
    ensures forall t <- r :: LazyCapture(t)
    decreases |s| - from
  {
    match FirstAt(|s|, from, i => MatchAt(s, key, Quote, i))
    case None => []
    case Some((_, span)) =>
      var t := s[span.0..span.1];
      assert forall k :: 0 <= k < |t| ==> t[k] == s[span.0 + k] && !ClosesAt(s, span.0 + k, Quote);
      [t] + AllCaptures(s, key, span.1 + 1)
  }

  // ---------------------------------------------------------------------------
  // Unescaping
  // ---------------------------------------------------------------------------

  const EscapedQuote: string := "\\\""
  const EscapedNewline: string := "\\n"
  const EscapedAmp: string := "\\u0026"

  /** `.replace(/\\u0026/g, '&')`. */
  function DecodeAmp(s: string): string {
    AiParser.ReplaceAll(s, [EscapedAmp], "&")
  }

  /** `.replace(/\\"/g, '"').replace(/\\n/g, '\n')`. */
  function UnescapeTitle(s: string): string {
    AiParser.ReplaceAll(AiParser.ReplaceAll(s, [EscapedQuote], "\""), [EscapedNewline], "\n")
  }

  /** Unescaping cannot change text without backslashes. */
  lemma UnescapeKeeps(s: string)
    requires '\\' !in s
    ensures UnescapeTitle(s) == s
    ensures DecodeAmp(s) == s
  {
    AiParser.ReplaceAllKeeps(s, [EscapedQuote], "\"");
    AiParser.ReplaceAllKeeps(s, [EscapedNewline], "\n");
    AiParser.ReplaceAllKeeps(s, [EscapedAmp], "&");
  }

  /** An escaped ampersand between texts without backslashes becomes `&`. */
  lemma AmpDecoded(a: string, b: string)
    requires '\\' !in a && '\\' !in b
    ensures DecodeAmp(a + EscapedAmp + b) == a + "&" + b
  {
    assert a + EscapedAmp + b == a + (EscapedAmp + b);
    AiParser.ReplaceAllSkips(a, EscapedAmp + b, [EscapedAmp], "&");
    assert AiParser.ReplaceAll(EscapedAmp + b, [EscapedAmp], "&") == "&" + AiParser.ReplaceAll(b, [EscapedAmp], "&") by {
      assert (EscapedAmp + b)[|EscapedAmp|..] == b;
    }
    AiParser.ReplaceAllKeeps(b, [EscapedAmp], "&");
  }

  // ---------------------------------------------------------------------------
  // extractVideoData
  // ---------------------------------------------------------------------------

  const TitleKey: string := "\"title\":\""
  const DescriptionKey: string := "\"shortDescription\":\""
  const CaptionsKey: string := "\"captionTracks\":["
  const LanguageKey: string := "\"languageCode\":\""
  const BaseUrlKey: string := "\"baseUrl\":\""
  const ThumbnailKey: string := "\"thumbnail\":{\"thumbnails\":["

  datatype Caption = Caption(lang: string, url: string)

  datatype VideoData = VideoData(title: string, description: string, captions: seq<Caption>, thumbnail: Option<string>)

  /** The title as written: `"title":"(.*?)"`, which stops at an escaped quote. */
  function TitleAsWritten(html: string): (r: string)
    ensures Capture(html, TitleKey, Quote).None? ==> r == ""
  {
    match Capture(html, TitleKey, Quote)
    case None => ""
    case Some(t) => UnescapeTitle(t)
  }

  /** The title read past escaped quotes, as the description is: `"title":"(.*?)(?<!\\)"`. */
  function Title(html: string): (r: string)
    ensures Capture(html, TitleKey, UnescapedQuote).None? ==> r == ""
  {
    match Capture(html, TitleKey, UnescapedQuote)
    case None => ""
    case Some(t) => UnescapeTitle(t)
  }

  /** The description: `"shortDescription":"(.*?)(?<!\\)"`, then three unescapes. */
  function Description(html: string): (r: string)
    ensures Capture(html, DescriptionKey, UnescapedQuote).None? ==> r == ""
  {
    match Capture(html, DescriptionKey, UnescapedQuote)
    case None => ""
    case Some(t) => DecodeAmp(UnescapeTitle(t))
  }

  /** The caption tracks' text: `"captionTracks":\[(.*?)\]`. */
  function Tracks(html: string): (r: Option<string>)
    ensures r.Some? ==> ']' !in r.value
  {
    Capture(html, CaptionsKey, Bracket)
  }

  function CaptionLanguages(html: string): seq<string> {
    match Tracks(html)
    case None => []
    case Some(t) => AllCaptures(t, LanguageKey, 0)
  }

  function CaptionUrls(html: string): (r: seq<string>)
    ensures Tracks(html).Some? ==> r == Map(AllCaptures(Tracks(html).value, BaseUrlKey, 0), DecodeAmp)
    ensures Tracks(html).None? ==> r == []
  {
    match Tracks(html)
    case None => []
    case Some(t) => Map(AllCaptures(t, BaseUrlKey, 0), DecodeAmp)
  }

  /** Caption tracks paired by position, as far as both lists go. */
  function Paired(langs: seq<string>, urls: seq<string>): (r: seq<Caption>)
    ensures |r| == if |langs| < |urls| then |langs| else |urls|
    ensures forall i :: 0 <= i < |r| ==> r[i] == Caption(langs[i], urls[i])
  {
    if langs == [] || urls == [] then []
    else [Caption(langs[0], urls[0])] + Paired(langs[1..], urls[1..])
  }

  /**
   * The thumbnail: `"thumbnail":{"thumbnails":[.*?{"url":"(https://i.ytimg.com/vi/[^"]+)"`,
   * with `&` decoded.
   */
  function ThumbnailRaw(html: string): (r: Option<string>)
    ensures r.Some? ==> StartsWith(r.value, ThumbHost) && |r.value| > |ThumbHost| && '"' !in r.value
  {
    match Span(html, ThumbnailKey, ThumbLink)
    case None => None
    case Some((_, j)) =>
      ThumbCapture(html, j);
      Some(html[j + |ThumbOpen|..ThumbEnd(html, j).value])
  }

  /** The thumbnail link's capture starts with the host, goes on past it, and holds no quote. */
  lemma ThumbCapture(s: string, j: nat)
    requires ThumbEnd(s, j).Some?
    ensures j + |ThumbOpen| <= ThumbEnd(s, j).value
    ensures var t := s[j + |ThumbOpen|..ThumbEnd(s, j).value];
      StartsWith(t, ThumbHost) && |t| > |ThumbHost| && '"' !in t
  {
    assert '"' !in ThumbHost by {
      forall k | 0 <= k < |ThumbHost| ensures ThumbHost[k] != '"' {
      }
    }
    CaptureAfterOpening(s, ThumbOpen, ThumbHost, j, ThumbEnd(s, j).value);
  }

  /**
   * What `open(host[^"]+)"` captures at `j` when its closing quote is at `q`:
   * `host` followed by at least one character, and no quote.
   */
  lemma CaptureAfterOpening(s: string, open: string, host: string, j: nat, q: nat)
    requires OccursAt(s, open + host, j)
    requires j + |open + host| < q <= |s|
    requires forall p :: j + |open + host| <= p < q ==> s[p] != '"'
    requires '"' !in host
    ensures var t := s[j + |open|..q]; StartsWith(t, host) && |t| > |host| && '"' !in t
  {
    var t := s[j + |open|..q];
    assert t[..|host|] == s[j..j + |open + host|][|open|..];
    assert (open + host)[|open|..] == host;
    forall k | 0 <= k < |t|
      ensures t[k] != '"'
    {
      if k < |host| {
        assert t[k] == t[..|host|][k] == host[k];
      } else {
        assert t[k] == s[j + |open| + k];
      }
    }
  }

  function Thumbnail(html: string): (r: Option<string>)
    ensures r.Some? <==> ThumbnailRaw(html).Some?
    ensures r.Some? ==> StartsWith(r.value, ThumbHost)
  {
    match ThumbnailRaw(html)
    case None => None
    case Some(t) =>
      var rest := t[|ThumbHost|..];
      assert t == ThumbHost + rest;
      AiParser.ReplaceAllSkips(ThumbHost, rest, [EscapedAmp], "&");
      Some(DecodeAmp(t))
  }

  /** The result `extractVideoData` builds. */
  function VideoDataOf(html: string): (d: VideoData)
    ensures |d.captions| == if |CaptionLanguages(html)| < |CaptionUrls(html)| then |CaptionLanguages(html)| else |CaptionUrls(html)|
    ensures forall i :: 0 <= i < |d.captions| ==>
      d.captions[i] == Caption(CaptionLanguages(html)[i], CaptionUrls(html)[i])
    ensures d.thumbnail.Some? ==> StartsWith(d.thumbnail.value, ThumbHost)
    ensures d.title == Title(html) && d.description == Description(html) && d.thumbnail == Thumbnail(html)
  {
    VideoData(Title(html), Description(html), Paired(CaptionLanguages(html), CaptionUrls(html)), Thumbnail(html))
  }

  /** `extractVideoData`: the title, the description, the caption tracks and the thumbnail. */
  method ExtractVideoData(html: string) returns (d: VideoData)
    ensures d == VideoDataOf(html)
  {
    var captions := PairCaptions(CaptionLanguages(html), CaptionUrls(html));
    d := VideoData(Title(html), Description(html), captions, Thumbnail(html));
  }

  /** The index loop of `extractVideoData` that pairs each language with the URL at the same position. */
  method PairCaptions(langs: seq<string>, urls: seq<string>) returns (captions: seq<Caption>)
    ensures captions == Paired(langs, urls)
  {
    captions := [];
    var i := 0;
    while i < |langs| && i < |urls|
      invariant i <= |langs| && i <= |urls|
      invariant |captions| == i
      invariant forall k :: 0 <= k < i ==> captions[k] == Caption(langs[k], urls[k])
    {
      captions := captions + [Caption(langs[i], urls[i])];
      i := i + 1;
    }
  }

  // ---------------------------------------------------------------------------
  // The escaped-quote title
  // ---------------------------------------------------------------------------

  /** Text with no quote, backslash or line terminator. */
  predicate Plain(a: string) {
    forall i :: 0 <= i < |a| ==> a[i] != '"' && a[i] != '\\' && !LineTerminator(a[i])
  }

  /** A lazy scan walks over plain text. */
  lemma {:induction false} LazyOverPlain(s: string, m: nat, n: nat, c: Close)
    requires c == Quote || c == UnescapedQuote
    requires m <= n <= |s| && Plain(s[m..n])
    ensures LazyUntil(s, m, c) == LazyUntil(s, n, c)
    decreases n - m
  {
    if m < n {
      assert s[m..n][0] == s[m];
      assert s[m + 1..n] == s[m..n][1..];
      LazyOverPlain(s, m + 1, n, c);
    }
  }

  /**
   * As written, a title holding an escaped quote is cut at the backslash:
   * `"title":"a\"b` gives `a\`.
   */
  lemma EscapedQuoteCutsTitle(a: string, b: string)
    requires Plain(a)
    ensures TitleAsWritten(TitleKey + a + EscapedQuote + b) == a + "\\"
  {
    var html := TitleKey + a + EscapedQuote + b;
    var n := |TitleKey| + |a|;
    assert html[|TitleKey|..n] == a;
    assert html[n] == '\\' && html[n + 1] == '"';
    assert OccursAt(html, TitleKey, 0);
    LazyOverPlain(html, |TitleKey|, n, Quote);
    assert MatchAt(html, TitleKey, Quote, 0) == Some((|TitleKey|, n + 1));
    assert html[|TitleKey|..n + 1] == a + "\\";
    assert Capture(html, TitleKey, Quote) == Some(a + "\\");
    assert AiParser.ReplaceAll("\\", [EscapedQuote], "\"") == "\\";
    assert AiParser.ReplaceAll("\\", [EscapedNewline], "\n") == "\\";
    AiParser.ReplaceAllSkips(a, "\\", [EscapedQuote], "\"");
    AiParser.ReplaceAllSkips(a, "\\", [EscapedNewline], "\n");
  }

  /** Unescaping turns the one escaped quote between plain texts into a quote. */
  lemma UnescapeOneQuote(a: string, b: string)
    requires Plain(a) && Plain(b)
    ensures UnescapeTitle(a + EscapedQuote + b) == a + "\"" + b
  {
    assert a + EscapedQuote + b == a + (EscapedQuote + b);
    AiParser.ReplaceAllSkips(a, EscapedQuote + b, [EscapedQuote], "\"");
    assert AiParser.ReplaceAll(EscapedQuote + b, [EscapedQuote], "\"") == "\"" + AiParser.ReplaceAll(b, [EscapedQuote], "\"") by {
      assert (EscapedQuote + b)[|EscapedQuote|..] == b;
    }
    AiParser.ReplaceAllKeeps(b, [EscapedQuote], "\"");
    assert a + ("\"" + b) == a + "\"" + b;
    AiParser.ReplaceAllKeeps(a + "\"" + b, [EscapedNewline], "\n");
  }

  /** Read past escaped quotes, the same title keeps its quote: `a"b`. */
  lemma EscapedQuoteKept(a: string, b: string, rest: string)
    requires Plain(a) && Plain(b)
    ensures Title(TitleKey + a + EscapedQuote + b + "\"" + rest) == a + "\"" + b
  {
    var html := TitleKey + a + EscapedQuote + b + "\"" + rest;
    var n := |TitleKey| + |a|;
    var e := n + 2 + |b|;
    EscapedTitleSlices(a, b, rest, html);
    assert e - 1 == n + 1 || html[e - 1] == b[|b| - 1];
    LazyOverPlain(html, |TitleKey|, n, UnescapedQuote);
    LazyOverPlain(html, n + 2, e, UnescapedQuote);
    assert MatchAt(html, TitleKey, UnescapedQuote, 0) == Some((|TitleKey|, e));
    assert Capture(html, TitleKey, UnescapedQuote) == Some(a + EscapedQuote + b);
    UnescapeOneQuote(a, b);
  }

  /** Where the key, the two plain texts and the quotes lie in a page holding `a\"b"`. */
  lemma EscapedTitleSlices(a: string, b: string, rest: string, html: string)
    requires html == TitleKey + a + EscapedQuote + b + "\"" + rest
    ensures var n := |TitleKey| + |a|; var e := n + 2 + |b|;
      && e < |html| && OccursAt(html, TitleKey, 0)
      && html[|TitleKey|..n] == a && html[n] == '\\' && html[n + 1] == '"'
      && html[n + 2..e] == b && html[e] == '"'
      && html[|TitleKey|..e] == a + EscapedQuote + b
  {
    var n := |TitleKey| + |a|;
    var e := n + 2 + |b|;
    assert html[..e] == TitleKey + (a + EscapedQuote + b);
    assert html[|TitleKey|..e] == html[..e][|TitleKey|..];
  }

  // ---------------------------------------------------------------------------
  // extractRecipeLinks
  // ---------------------------------------------------------------------------

  /** `[^\s"<>)]`. */
  predicate UrlChar(c: char) {
    !IsSpace(c) && c != '"' && c != '<' && c != '>' && c != ')'
  }

  function UrlRun(s: string, i: nat): (k: nat)
    requires i <= |s|
    ensures i + k <= |s|
    ensures forall p :: i <= p < i + k ==> UrlChar(s[p])
    ensures i + k < |s| ==> !UrlChar(s[i + k])
    decreases |s| - i
  {
    if i == |s| || !UrlChar(s[i]) then 0 else 1 + UrlRun(s, i + 1)
  }

  /** The schemes the link pattern accepts: `https?:\/\/`. */
  predicate SchemeAt(s: string, i: nat) {
    OccursAt(s, "https://", i) || OccursAt(s, "http://", i)
  }

  /**
   * `https?:\/\/[^\s"<>)]+` at `i`: where the match ends. The optional `s`
   * is tried first; without it `http` would have to be followed by `://`,
   * which `https` is not, so the two forms never compete.
   */
  function UrlMatchAt(s: string, i: nat): (r: Option<nat>)
    ensures r.Some? ==> i < r.value <= |s| && SchemeAt(s, i)
    ensures r.Some? ==> forall p :: i <= p < r.value ==> UrlChar(s[p])
    ensures r.Some? ==> r.value == |s| || !UrlChar(s[r.value])
  {
    var https := "https://";
    var http := "http://";
    assert forall k :: 0 <= k < |https| ==> UrlChar(https[k]);
    assert forall k :: 0 <= k < |http| ==> UrlChar(http[k]);
    if OccursAt(s, https, i) && i + 8 < |s| && UrlChar(s[i + 8]) then
      assert forall p :: i <= p < i + 8 ==> s[p] == https[p - i];
      Some(i + 8 + UrlRun(s, i + 8))
    else if OccursAt(s, http, i) && i + 7 < |s| && UrlChar(s[i + 7]) then
      assert forall p :: i <= p < i + 7 ==> s[p] == http[p - i];
      Some(i + 7 + UrlRun(s, i + 7))
    else None
  }

  /** A non-empty run of characters the URL pattern accepts. */
  predicate UrlText(u: string) {
    u != "" && forall k :: 0 <= k < |u| ==> UrlChar(u[k])
  }

  /** `description.match(/https?:\/\/[^\s"<>)]+/g)`, searching from `from`. */
  function MatchedUrls(s: string, from: nat): (r: seq<string>)
    ensures forall u <- r :: UrlText(u)
    decreases |s| - from
  {
    match FirstAt(|s|, from, i => UrlMatchAt(s, i))
    case None => []
    case Some((i, e)) =>
      var u := s[i..e];
      assert forall k :: 0 <= k < |u| ==> u[k] == s[i + k];
      [u] + MatchedUrls(s, e)
  }

  const IgnoredDomains: seq<string> := [
    "youtube.com", "youtu.be", "bit.ly", "goo.gl",
    "facebook.com", "instagram.com", "twitter.com", "tiktok.com",
    "pinterest.com", "amazon.com", "amzn.to"
  ]

  /** `ignoredDomains.some(d => hostname.includes(d))`. */
  predicate Ignored(host: string) {
    exists d <- IgnoredDomains :: Contains(host, d)
  }

  /** The filter: the link parses as a URL whose host is not ignored. */
  predicate KeepLink(url: string, parseUrl: UrlParse) {
    parseUrl(url).Some? && !Ignored(parseUrl(url).value.hostname)
  }

  /** `extractRecipeLinks`. */
  function RecipeLinks(description: string, parseUrl: UrlParse): (r: seq<string>)
    ensures IsSubseq(r, MatchedUrls(description, 0))
    ensures forall u <- r :: KeepLink(u, parseUrl)
    ensures forall u <- MatchedUrls(description, 0) :: KeepLink(u, parseUrl) ==> u in r
  {
    var keep := u => KeepLink(u, parseUrl);
    FilterIsSubseq(MatchedUrls(description, 0), keep);
    Filter(MatchedUrls(description, 0), keep)
  }

  /** No link kept from a description points at a video address. */
  lemma NoVideoLinks(description: string, parseUrl: UrlParse)
    ensures forall u <- RecipeLinks(description, parseUrl) :: !IsYouTubeUrl(u, parseUrl)
  {
    forall host | host in YouTubeHosts
      ensures Ignored(host)
    {
      if host == "youtu.be" {
        assert OccursAt(host, IgnoredDomains[1], 0);
        assert Contains(host, IgnoredDomains[1]);
      } else {
        var at := |host| - 11;
        assert host[at..] == "youtube.com";
        assert OccursAt(host, IgnoredDomains[0], at);
        assert Contains(host, IgnoredDomains[0]);
      }
    }
  }

  // ---------------------------------------------------------------------------
  // fetchAndParseRecipeLink
  // ---------------------------------------------------------------------------

  /** The services the resolver relies on: the API key, `JSON.parse` and `new URL`. */
  datatype Services = Services(apiKey: Option<string>, parse: Parser, parseUrl: UrlParse)

  /**
   * What fetching a linked page gave: a non-OK response, an error thrown on
   * the way, or the page together with the AI's reply about its text.
   */
  datatype LinkFetch = LinkNotOk | LinkThrew | LinkFetched(page: UrlParser.Page, reply: AiParser.Reply)

  const LinkUnavailable: string := "Lien inaccessible"
  const LinkFailure: string := "Erreur lors du parsing du lien"

  /** `success && recipe.ingredients_text && recipe.steps_text`. */
  predicate Complete(r: ParseResult) {
    r.Parsed? && r.recipe.ingredientsText != "" && r.recipe.stepsText != ""
  }

  /** `fetchAndParseRecipeLink`: the page's JSON-LD when it is complete, else the AI on the page. */
  function LinkResult(link: string, fetch: LinkFetch, svc: Services): (r: ParseResult)
    ensures fetch.LinkNotOk? ==> r == Failed(LinkUnavailable)
    ensures fetch.LinkThrew? ==> r == Failed(LinkFailure)
    ensures fetch.LinkFetched? && Complete(UrlParser.HtmlResult(fetch.page, link, svc.parse)) ==>
      r == UrlParser.HtmlResult(fetch.page, link, svc.parse)
    ensures fetch.LinkFetched? && !Complete(UrlParser.HtmlResult(fetch.page, link, svc.parse)) ==>
      r == AiParser.AiResult(AiParser.WebPage(link), svc.apiKey, fetch.reply, svc.parse)
    ensures r.Parsed? ==> r.recipe.sourceType == FromUrl && r.recipe.sourceUrl == Some(link)
  {
    match fetch
    case LinkNotOk => Failed(LinkUnavailable)
    case LinkThrew => Failed(LinkFailure)
    case LinkFetched(page, reply) =>
      var fromJsonLd := UrlParser.HtmlResult(page, link, svc.parse);
      if Complete(fromJsonLd) then fromJsonLd
      else AiParser.AiResult(AiParser.WebPage(link), svc.apiKey, reply, svc.parse)
  }

  /** `fetchAndParseRecipeLink`, running the JSON-LD reader's loop over the page. */
  method FetchAndParseRecipeLink(link: string, fetch: LinkFetch, svc: Services) returns (r: ParseResult)
    ensures r == LinkResult(link, fetch, svc)
  {
    match fetch {
      case LinkNotOk =>
        return Failed(LinkUnavailable);
      case LinkThrew =>
        return Failed(LinkFailure);
      case LinkFetched(page, reply) =>
        var fromJsonLd := UrlParser.ParseRecipeFromHtml(page, link, svc.parse);
        if fromJsonLd.Parsed? && fromJsonLd.recipe.ingredientsText != "" && fromJsonLd.recipe.stepsText != "" {
          return fromJsonLd;
        }
        return AiParser.AiResult(AiParser.WebPage(link), svc.apiKey, reply, svc.parse);
    }
  }

  // ---------------------------------------------------------------------------
  // parseRecipeFromYouTube
  // ---------------------------------------------------------------------------

  /** What fetching the watch page gave. */
  datatype VideoFetch =
    | VideoResponse(status: int, body: string)
    | VideoAborted   // the ten-second timeout fired
    | VideoThrew     // any other error

  const InvalidUrl: string := "URL YouTube invalide"
  const TooSlow: string := "YouTube met trop de temps à répondre"
  const Unreachable: string := "Impossible d'accéder à YouTube"
  const ConsentPage: string :=
    "Impossible de lire la vidéo YouTube. Essayez de copier-coller la description de la vidéo dans l'onglet \"Texte\"."
  const NoVideoInfo: string :=
    "Impossible d'extraire les informations de cette vidéo. Essayez de copier-coller la description dans l'onglet \"Texte\"."
  const NoVideoRecipe: string :=
    "Impossible d'extraire la recette de cette vidéo. La description ne contient pas assez d'informations. Essayez de copier-coller la recette dans l'onglet \"Texte\"."

  function StatusMessage(status: int): string {
    "YouTube a répondu avec une erreur (" + IntToString(status) + ")"
  }

  /** `!videoId` fails: a missing id and an empty one alike. */
  predicate ValidId(id: Option<string>) {
    id.Some? && id.value != ""
  }

  /** `response.ok`. */
  predicate Ok(status: int) {
    200 <= status <= 299
  }

  /** The watch page was served rather than the consent page. */
  predicate PlayerPage(html: string) {
    Contains(html, "ytInitialPlayerResponse") || Contains(html, "shortDescription")
  }

  /** The text given to the AI: empty exactly when the description is. */
  function DescriptionPrompt(d: VideoData): (t: string)
    ensures Trim(t) == "" <==> d.description == ""
  {
    if d.description == "" then ""
    else
      var t := "Titre de la vidéo : " + d.title + "\n\nDescription de la vidéo :\n" + d.description;
      assert t[0] == 'T' && !IsSpace(t[0]);
      t
  }

  /** `if (videoData.thumbnailUrl)`. */
  predicate HasThumbnail(d: VideoData) {
    d.thumbnail.Some? && d.thumbnail.value != ""
  }

  /** The description's recipe, relabelled as coming from the video, with its thumbnail. */
  function FromDescription(rec: ParsedRecipe, url: string, d: VideoData): (r: ParsedRecipe)
    ensures r.sourceType == FromUrl && r.sourceUrl == Some(url)
    ensures HasThumbnail(d) ==> r.imageUrl == Some(JString(d.thumbnail.value))
    ensures !HasThumbnail(d) ==> r.imageUrl == rec.imageUrl
    ensures r.(sourceType := rec.sourceType, sourceUrl := rec.sourceUrl, imageUrl := rec.imageUrl) == rec
  {
    var labelled := rec.(sourceType := FromUrl, sourceUrl := Some(url));
    if HasThumbnail(d) then labelled.(imageUrl := Some(JString(d.thumbnail.value))) else labelled
  }

  /**
   * A linked page's recipe, relabelled as coming from the video: the video
   * title fills an empty title, and the thumbnail fills a missing image.
   */
  function FromLinkedPage(rec: ParsedRecipe, url: string, d: VideoData): (r: ParsedRecipe)
    ensures r.sourceType == FromUrl && r.sourceUrl == Some(url)
    ensures r.title == (if rec.title != "" then rec.title else d.title)
    ensures Truthy(rec.imageUrl) ==> r.imageUrl == rec.imageUrl
    ensures !Truthy(rec.imageUrl) && HasThumbnail(d) ==> r.imageUrl == Some(JString(d.thumbnail.value))
    ensures !Truthy(rec.imageUrl) && !HasThumbnail(d) ==> r.imageUrl == rec.imageUrl
    ensures r.(title := rec.title, sourceType := rec.sourceType, sourceUrl := rec.sourceUrl, imageUrl := rec.imageUrl) == rec
  {
    var titled := if rec.title == "" && d.title != "" then rec.(title := d.title) else rec;
    var labelled := titled.(sourceType := FromUrl, sourceUrl := Some(url));
    if HasThumbnail(d) && !Truthy(rec.imageUrl) then labelled.(imageUrl := Some(JString(d.thumbnail.value)))
    else labelled
  }

  /** What the links' pages gave, in order: `fetchAndParseRecipeLink` on each. */
  function LinkResults(links: seq<string>, linkFetch: nat -> LinkFetch, svc: Services): (rs: seq<ParseResult>)
    ensures |rs| == |links|
  {
    seq(|links|, k requires 0 <= k < |links| => LinkResult(links[k], linkFetch(k), svc))
  }

  /** The `k`-th link result is what `fetchAndParseRecipeLink` gave on the `k`-th link. */
  lemma LinkResultAt(links: seq<string>, linkFetch: nat -> LinkFetch, svc: Services, k: nat)
    requires k < |links|
    ensures LinkResults(links, linkFetch, svc)[k] == LinkResult(links[k], linkFetch(k), svc)
  {
  }

  /** None of the link results from position `i` on has ingredients. */
  predicate NoLinkWorks(results: seq<ParseResult>, i: nat) {
    forall k :: i <= k < |results| ==> !HasIngredients(results[k])
  }

  /** The link results tried in order from position `i`: the first with ingredients, adopted. */
  function LinkRecipe(results: seq<ParseResult>, i: nat, url: string, d: VideoData): (r: Option<ParsedRecipe>)
    requires i <= |results|
    ensures r.None? <==> NoLinkWorks(results, i)
    ensures r.Some? ==> r.value.ingredientsText != "" && r.value.sourceType == FromUrl && r.value.sourceUrl == Some(url)
    decreases |results| - i
  {
    if i == |results| then None
    else if HasIngredients(results[i]) then Some(FromLinkedPage(results[i].recipe, url, d))
    else LinkRecipe(results, i + 1, url, d)
  }

  /** The first link result with ingredients is the one used. */
  lemma {:induction false} FirstLinkWins(results: seq<ParseResult>, i: nat, j: nat, url: string, d: VideoData)
    requires i <= j < |results|
    requires forall k :: i <= k < j ==> !HasIngredients(results[k])
    requires HasIngredients(results[j])
    ensures LinkRecipe(results, i, url, d) == Some(FromLinkedPage(results[j].recipe, url, d))
    decreases j - i
  {
    if i < j {
      FirstLinkWins(results, i + 1, j, url, d);
    }
  }

  /** What the watch page gave: a failure message, or the video's data. */
  datatype VideoRead = VideoFailed(error: string) | VideoOk(data: VideoData)

  /** The checks before any AI call: the id, the response, the consent page, an empty video. */
  function ReadVideo(url: string, fetch: VideoFetch, parseUrl: UrlParse): (v: VideoRead)
    ensures !ValidId(VideoId(url, parseUrl)) ==> v == VideoFailed(InvalidUrl)
    ensures v.VideoOk? <==>
      ValidId(VideoId(url, parseUrl)) && fetch.VideoResponse? && Ok(fetch.status) && PlayerPage(fetch.body)
      && (VideoDataOf(fetch.body).title != "" || VideoDataOf(fetch.body).description != "")
    ensures v.VideoOk? ==> v.data == VideoDataOf(fetch.body)
    ensures ValidId(VideoId(url, parseUrl)) && fetch.VideoResponse? && Ok(fetch.status) && !PlayerPage(fetch.body) ==>
      v == VideoFailed(ConsentPage)
    ensures ValidId(VideoId(url, parseUrl)) && fetch.VideoAborted? ==> v == VideoFailed(TooSlow)
    ensures ValidId(VideoId(url, parseUrl)) && fetch.VideoThrew? ==> v == VideoFailed(Unreachable)
    ensures ValidId(VideoId(url, parseUrl)) && fetch.VideoResponse? && !Ok(fetch.status) ==>
      v == VideoFailed(StatusMessage(fetch.status))
    ensures (ValidId(VideoId(url, parseUrl)) && fetch.VideoResponse? && Ok(fetch.status) && PlayerPage(fetch.body)
             && VideoDataOf(fetch.body).title == "" && VideoDataOf(fetch.body).description == "") ==>
      v == VideoFailed(NoVideoInfo)
  {
    if !ValidId(VideoId(url, parseUrl)) then VideoFailed(InvalidUrl)
    else match fetch
      case VideoAborted => VideoFailed(TooSlow)
      case VideoThrew => VideoFailed(Unreachable)
      case VideoResponse(status, html) =>
        if !Ok(status) then VideoFailed(StatusMessage(status))
        else if !PlayerPage(html) then VideoFailed(ConsentPage)
        else
          var d := VideoDataOf(html);
          if d.title == "" && d.description == "" then VideoFailed(NoVideoInfo) else VideoOk(d)
  }

  /** The AI's reading of the description, when there is one to read. */
  function DescriptionResult(d: VideoData, reply: AiParser.Reply, svc: Services): (r: Option<ParseResult>)
    ensures r.Some? <==> d.description != ""
  {
    if Trim(DescriptionPrompt(d)) != "" then Some(AiParser.AiResult(AiParser.PastedText, svc.apiKey, reply, svc.parse))
    else None
  }

  /**
   * The strategy once the video is read: the description's recipe when it
   * has ingredients, else the first linked page's, else the failure.
   */
  function Resolve(url: string, d: VideoData, fromDescription: Option<ParseResult>, results: seq<ParseResult>): (r: ParseResult)
    ensures r.Parsed? ==> r.recipe.sourceType == FromUrl && r.recipe.sourceUrl == Some(url) && r.recipe.ingredientsText != ""
    ensures r.Failed? ==> r.error == NoVideoRecipe
    ensures r.Failed? <==> (fromDescription.None? || !HasIngredients(fromDescription.value)) && NoLinkWorks(results, 0)
  {
    if fromDescription.Some? && HasIngredients(fromDescription.value) then
      Parsed(FromDescription(fromDescription.value.recipe, url, d))
    else match LinkRecipe(results, 0, url, d)
      case Some(rec) => Parsed(rec)
      case None => Failed(NoVideoRecipe)
  }

  /** A description read into a recipe with ingredients settles the matter: no link counts. */
  lemma DescriptionWins(url: string, d: VideoData, ai: ParseResult, results: seq<ParseResult>)
    requires HasIngredients(ai)
    ensures Resolve(url, d, Some(ai), results) == Parsed(FromDescription(ai.recipe, url, d))
    ensures HasThumbnail(d) ==> Resolve(url, d, Some(ai), results).recipe.imageUrl == Some(JString(d.thumbnail.value))
  {
  }

  /** Otherwise the links count in order: the first one with ingredients gives the recipe. */
  lemma LinksInOrder(url: string, d: VideoData, fromDescription: Option<ParseResult>, results: seq<ParseResult>, j: nat)
    requires fromDescription.None? || !HasIngredients(fromDescription.value)
    requires j < |results| && HasIngredients(results[j])
    requires forall k :: 0 <= k < j ==> !HasIngredients(results[k])
    ensures Resolve(url, d, fromDescription, results) == Parsed(FromLinkedPage(results[j].recipe, url, d))
  {
    FirstLinkWins(results, 0, j, url, d);
  }

  /** Without a usable description, the links alone decide. */
  lemma LinksDecide(url: string, d: VideoData, fromDescription: Option<ParseResult>, results: seq<ParseResult>)
    requires fromDescription.None? || !HasIngredients(fromDescription.value)
    ensures LinkRecipe(results, 0, url, d).Some? ==>
      Resolve(url, d, fromDescription, results) == Parsed(LinkRecipe(results, 0, url, d).value)
    ensures LinkRecipe(results, 0, url, d).None? ==> Resolve(url, d, fromDescription, results) == Failed(NoVideoRecipe)
  {
  }

  /**
   * `parseRecipeFromYouTube`. `reply` is the AI's reply about the
   * description and `linkFetch(k)` what fetching the `k`-th recipe link gave.
   */
  function YouTubeResult(url: string, fetch: VideoFetch, reply: AiParser.Reply, linkFetch: nat -> LinkFetch, svc: Services): (r: ParseResult)
    ensures ReadVideo(url, fetch, svc.parseUrl).VideoFailed? ==> r == Failed(ReadVideo(url, fetch, svc.parseUrl).error)
    ensures r.Parsed? ==> ReadVideo(url, fetch, svc.parseUrl).VideoOk?
    ensures r.Parsed? ==> r.recipe.sourceType == FromUrl && r.recipe.sourceUrl == Some(url) && r.recipe.ingredientsText != ""
  {
    match ReadVideo(url, fetch, svc.parseUrl)
    case VideoFailed(e) => Failed(e)
    case VideoOk(d) =>
      Resolve(url, d, DescriptionResult(d, reply, svc), LinkResults(RecipeLinks(d.description, svc.parseUrl), linkFetch, svc))
  }

  /** The first half of `parseRecipeFromYouTube`: the checks up to and including reading the video's data. */
  method ReadWatchPage(url: string, fetch: VideoFetch, parseUrl: UrlParse) returns (v: VideoRead)
    ensures v == ReadVideo(url, fetch, parseUrl)
  {
    var videoId := VideoId(url, parseUrl);
    if videoId.None? || videoId.value == "" {
      return VideoFailed(InvalidUrl);
    }
    var html: string;
    match fetch {
      case VideoAborted =>
        return VideoFailed(TooSlow);
      case VideoThrew =>
        return VideoFailed(Unreachable);
      case VideoResponse(status, body) =>
        if !(200 <= status <= 299) {
          return VideoFailed(StatusMessage(status));
        }
        html := body;
    }
    if !Contains(html, "ytInitialPlayerResponse") && !Contains(html, "shortDescription") {
      return VideoFailed(ConsentPage);
    }
    var d := ExtractVideoData(html);
    if d.title == "" && d.description == "" {
      return VideoFailed(NoVideoInfo);
    }
    return VideoOk(d);
  }

  /**
   * The second half of `parseRecipeFromYouTube`: the AI on the description,
   * then the links in order, updating the adopted recipe's fields.
   */
  method ResolveVideo(url: string, d: VideoData, reply: AiParser.Reply, linkFetch: nat -> LinkFetch, svc: Services)
    returns (r: ParseResult)
    ensures r == Resolve(url, d, DescriptionResult(d, reply, svc), LinkResults(RecipeLinks(d.description, svc.parseUrl), linkFetch, svc))
  {
    var described := TryDescription(url, d, reply, svc);
    var fromLinks: Option<ParsedRecipe> := None;
    if described.None? {
      var links := RecipeLinks(d.description, svc.parseUrl);
      fromLinks := TryLinks(url, d, links, linkFetch, svc);
    }
    if described.Some? {
      r := Parsed(described.value);
    } else if fromLinks.Some? {
      r := Parsed(fromLinks.value);
    } else {
      r := Failed(NoVideoRecipe);
    }
    ResolveSteps(url, d, DescriptionResult(d, reply, svc), LinkResults(RecipeLinks(d.description, svc.parseUrl), linkFetch, svc),
                 described, fromLinks);
  }

  /** `Resolve` in terms of what the description step and, when it gives nothing, the link loop returned. */
  lemma ResolveSteps(url: string, d: VideoData, fromDescription: Option<ParseResult>, results: seq<ParseResult>,
                     described: Option<ParsedRecipe>, fromLinks: Option<ParsedRecipe>)
    requires described.Some? <==> fromDescription.Some? && HasIngredients(fromDescription.value)
    requires described.Some? ==> described.value == FromDescription(fromDescription.value.recipe, url, d)
    requires described.None? ==> fromLinks == LinkRecipe(results, 0, url, d)
    ensures Resolve(url, d, fromDescription, results)
         == if described.Some? then Parsed(described.value)
            else if fromLinks.Some? then Parsed(fromLinks.value)
            else Failed(NoVideoRecipe)
  {
  }

  /** The AI on the description: its recipe, adopted, when it has ingredients. */
  method TryDescription(url: string, d: VideoData, reply: AiParser.Reply, svc: Services) returns (r: Option<ParsedRecipe>)
    ensures var fromDescription := DescriptionResult(d, reply, svc);
      r.Some? <==> fromDescription.Some? && HasIngredients(fromDescription.value)
    ensures r.Some? ==> r.value == FromDescription(DescriptionResult(d, reply, svc).value.recipe, url, d)
  {
    var textForAi := DescriptionPrompt(d);
    if Trim(textForAi) != "" {
      var result := AiParser.AiResult(AiParser.PastedText, svc.apiKey, reply, svc.parse);
      if result.Parsed? && result.recipe.ingredientsText != "" {
        var rec := result.recipe;
        rec := rec.(sourceType := FromUrl);
        rec := rec.(sourceUrl := Some(url));
        if d.thumbnail.Some? && d.thumbnail.value != "" {
          rec := rec.(imageUrl := Some(JString(d.thumbnail.value)));
        }
        return Some(rec);
      }
    }
    return None;
  }

  /** The loop over the recipe links: the first page with ingredients, adopted. */
  method TryLinks(url: string, d: VideoData, links: seq<string>, linkFetch: nat -> LinkFetch, svc: Services)
    returns (r: Option<ParsedRecipe>)
    ensures r == LinkRecipe(LinkResults(links, linkFetch, svc), 0, url, d)
  {
    ghost var results := LinkResults(links, linkFetch, svc);
    for i := 0 to |links|
      invariant LinkRecipe(results, i, url, d) == LinkRecipe(results, 0, url, d)
    {
      var linkResult := FetchAndParseRecipeLink(links[i], linkFetch(i), svc);
      LinkResultAt(links, linkFetch, svc, i);
      if linkResult.Parsed? && linkResult.recipe.ingredientsText != "" {
        var rec := linkResult.recipe;
        if rec.title == "" && d.title != "" {
          rec := rec.(title := d.title);
        }
        rec := rec.(sourceType := FromUrl);
        rec := rec.(sourceUrl := Some(url));
        if d.thumbnail.Some? && d.thumbnail.value != "" && !Truthy(rec.imageUrl) {
          rec := rec.(imageUrl := Some(JString(d.thumbnail.value)));
        }
        return Some(rec);
      }
    }
    return None;
  }

  /** `parseRecipeFromYouTube`. */
  method ParseRecipeFromYouTube(url: string, fetch: VideoFetch, reply: AiParser.Reply, linkFetch: nat -> LinkFetch, svc: Services)
    returns (r: ParseResult)
    ensures r == YouTubeResult(url, fetch, reply, linkFetch, svc)
  {
    var v := ReadWatchPage(url, fetch, svc.parseUrl);
    match v {
      case VideoFailed(e) =>
        r := Failed(e);
      case VideoOk(d) =>
        r := ResolveVideo(url, d, reply, linkFetch, svc);
    }
  }
}
