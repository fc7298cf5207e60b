/** games/utils.py: choosing game results from a retrogames.cc search page,
    extracting a game's embed URL from its page, and merging the results of
    several searches. Fetching and HTML parsing are inputs: a search page is
    given as its parsed links and cards, a game page as its text and the
    content of its readonly textarea; `urljoin`, the title built from a URL's
    path and the game pages come in an `Env`. */
module SearchUtils {
  import opened Common

  // ---------------------------------------------------------------------------
  // _extract_embed_url

  /** A fetched game page: the request failed, or the page text together with
      the stripped text of its first readonly `<textarea>`, if it has one. */
  datatype Page = FetchFailed | Page(text: string, textarea: Option<string>)

  /** A character of `[^\s<>"{}|\\^`\[\]]`. */
  predicate UrlChar(c: char) {
    !IsSpace(c) && c !in "<>\"{}|\\^`[]"
  }

  /** The length of the longest prefix of URL characters. */
  function UrlRun(s: string): (n: nat)
    ensures n <= |s|
    ensures forall k | 0 <= k < n :: UrlChar(s[k])
    ensures n < |s| ==> !UrlChar(s[n])
  {
    if s != [] && UrlChar(s[0]) then 1 + UrlRun(s[1..]) else 0
  }

  /** The match of `https?://[^\s<>"{}|\\^`\[\]]+` that starts at position i. */
  function MatchAt(s: string, i: nat): (m: Option<string>)
    requires i <= |s|
    ensures m.Some? ==> StartsWith(m.value, "http://") || StartsWith(m.value, "https://")
    ensures m.Some? ==> forall c | c in m.value :: UrlChar(c)
  {
    var t := s[i..];
    var p := if StartsWith(t, "https://") then 8 else if StartsWith(t, "http://") then 7 else 0;
    if p > 0 && |t| > p && UrlChar(t[p]) then
      var m := t[..p + UrlRun(t[p..])];
      assert m[..p] == t[..p];
      SchemeChars(t, p);
      Some(m)
    else None
  }

  /** The characters of 'http://' and 'https://' are URL characters. */
  lemma SchemeChars(t: string, p: nat)
    requires (p == 8 && StartsWith(t, "https://")) || (p == 7 && StartsWith(t, "http://"))
    ensures forall k | 0 <= k < p :: UrlChar(t[k])
  {
    var scheme := t[..p];
    assert forall k | 0 <= k < p :: t[k] == scheme[k];
    assert forall k | 0 <= k < p :: scheme[k] in "htps:/";
  }

  /** `re.findall(...)[0]`: the leftmost match at or after position i. */
  function FirstUrl(s: string, i: nat): (r: Option<string>)
    requires i <= |s|
    ensures r.None? <==> forall k | i <= k < |s| :: MatchAt(s, k).None?
    ensures r.Some? ==> exists k | i <= k < |s| :: MatchAt(s, k) == r && forall j | i <= j < k :: MatchAt(s, j).None?
    decreases |s| - i
  {
    if i == |s| then None
    else if MatchAt(s, i).Some? then MatchAt(s, i)
    else FirstUrl(s, i + 1)
  }

  const TrailingPunctuation: set<char> := {'.', ',', ';', '!', '?'}

  /** The text says the page is offline. */
  predicate Offline(text: string) {
    Contains(ToLower(text), "offline") || Contains(text, "Offline")
  }

  /** The URL found in the readonly textarea, if any. */
  function TextareaUrl(page: Page): Option<string>
    requires page.Page?
  {
    if page.textarea.Some? then FirstUrl(page.textarea.value, 0) else None
  }

  /** The fallback built from the game URL: '/play/' pages become '/embed/'
      pages, an '/embed/' URL is kept, anything else has no embed. */
  function EmbedFallback(gameUrl: string): Option<string> {
    if Contains(gameUrl, "/play/") then Some(ReplaceAll(gameUrl, "/play/", "/embed/"))
    else if Contains(gameUrl, "/embed/") then Some(gameUrl)
    else None
  }

  /** `_extract_embed_url`: a failed fetch or an offline page gives None (the
      exception is caught); otherwise the first URL in the readonly textarea,
      without trailing `.,;!?`; otherwise the fallback. */
  function ExtractEmbedUrl(gameUrl: string, page: Page): Option<string> {
    match page
    case FetchFailed => None
    case Page(text, _) =>
      if Offline(text) then None
      else if TextareaUrl(page).Some? then Some(RStrip(TextareaUrl(page).value, TrailingPunctuation))
      else EmbedFallback(gameUrl)
  }

  /** `_extract_embed_url` gives None exactly when the fetch failed, the page
      is offline, or neither the textarea nor the game URL yields a URL. */
  lemma EmbedNone(gameUrl: string, page: Page)
    ensures ExtractEmbedUrl(gameUrl, page).None? <==>
              page.FetchFailed? || Offline(page.text) ||
              (TextareaUrl(page).None? && !Contains(gameUrl, "/play/") && !Contains(gameUrl, "/embed/"))
  {
  }

  /** A URL taken from the textarea keeps its scheme and loses only its
      trailing `.,;!?`. */
  lemma EmbedFromTextarea(gameUrl: string, page: Page)
    requires page.Page? && !Offline(page.text) && TextareaUrl(page).Some?
    ensures var r := ExtractEmbedUrl(gameUrl, page).value;
            && (StartsWith(r, "http://") || StartsWith(r, "https://"))
            && r[|r| - 1] !in TrailingPunctuation
            && r == TextareaUrl(page).value[..|r|]
  {
    var u := TextareaUrl(page).value;
    assert ExtractEmbedUrl(gameUrl, page) == Some(RStrip(u, TrailingPunctuation));
    TrimKeepsScheme(u);
  }

  lemma TrimKeepsScheme(u: string)
    requires StartsWith(u, "http://") || StartsWith(u, "https://")
    ensures var v := RStrip(u, TrailingPunctuation);
            && (StartsWith(v, "http://") || StartsWith(v, "https://"))
            && v != [] && v[|v| - 1] !in TrailingPunctuation
  {
    var v := RStrip(u, TrailingPunctuation);
    var p := if StartsWith(u, "https://") then 8 else 7;
    assert u[p - 1] == u[..p][p - 1];
    assert u[p - 1] !in TrailingPunctuation;
    assert v[..p] == u[..p];
  }

  /** Without a textarea URL, a '/play/' game URL gives an embed URL that
      contains '/embed/'. */
  lemma EmbedFromPlayUrl(gameUrl: string, page: Page)
    requires page.Page? && !Offline(page.text) && TextareaUrl(page).None? && Contains(gameUrl, "/play/")
    ensures Contains(ExtractEmbedUrl(gameUrl, page).value, "/embed/")
  {
    ReplaceAllIntroduces(gameUrl, "/play/", "/embed/");
  }

  // ---------------------------------------------------------------------------
  // search_games_on_retrogames: the link- and card-selection loops

  /** An `<img>`; an absent attribute is the empty string. */
  datatype Img = Img(alt: string, title: string, src: string, dataSrc: string, dataLazySrc: string)

  /** An `<a href>`: its href, title attribute, stripped text and first `<img>`. */
  datatype Link = Link(href: string, title: string, text: string, img: Option<Img>)

  /** A game card (a `div`, `article` or `section` whose class mentions game,
      card or item): its title attribute, first `<a href>` and first `<img>`. */
  datatype Card = Card(title: string, link: Option<Link>, img: Option<Img>)

  /** The parsed search page. */
  datatype SearchPage = SearchPage(links: seq<Link>, cards: seq<Card>)

  /** A result dictionary: `title`, `image_url`, `game_url`, `embed_url`. */
  datatype SearchResult = SearchResult(title: string, imageUrl: string, gameUrl: string, embedUrl: string)

  /** The calls this code makes into libraries and the network:
      `urljoin('https://www.retrogames.cc', path)`, the title-cased last path
      segment of a URL, and the fetch of a game page. */
  datatype Env = Env(join: string -> string, urlTitle: string -> string, pages: string -> Page)

  const RetroGames: string := "Retro Games"
  const MaxTitle: nat := 100

  /** Python's `a or b` on strings. */
  function Or(a: string, b: string): string {
    if a != "" then a else b
  }

  /** `img.get('src') or img.get('data-src') or img.get('data-lazy-src')`. */
  function ImageSource(img: Img): string {
    Or(img.src, Or(img.dataSrc, img.dataLazySrc))
  }

  /** The game URL of an href: a site path is joined to the site, an 'http'
      href is taken as is, and any other href is skipped. */
  function GameUrl(href: string, env: Env): Option<string> {
    if StartsWith(href, "/") then Some(env.join(href))
    else if StartsWith(href, "http") then Some(href)
    else None
  }

  /** The image URL: only an 'http' source that does not start with '/' is
      kept as is; every other source is joined to the site. */
  function ImageUrl(src: string, env: Env): string {
    if StartsWith(src, "/") then env.join(src)
    else if StartsWith(src, "http") then src
    else env.join(src)
  }

  /** `embed_url or game_url`. */
  function EmbedOr(embed: Option<string>, gameUrl: string): string {
    if embed.Some? && embed.value != "" then embed.value else gameUrl
  }

  /** The embed URL a result for this game carries. */
  function EmbedFor(gameUrl: string, env: Env): string {
    EmbedOr(ExtractEmbedUrl(gameUrl, env.pages(gameUrl)), gameUrl)
  }

  /** The result built for a game: title cut to 100 characters, embed URL
      extracted from the game page or else the game URL. */
  function MakeResult(title: string, imageUrl: string, gameUrl: string, env: Env): (r: SearchResult)
    ensures WellFormed(r, env)
  {
    SearchResult(Take(title, MaxTitle), imageUrl, gameUrl, EmbedFor(gameUrl, env))
  }

  /** What every result satisfies. */
  predicate WellFormed(r: SearchResult, env: Env) {
    |r.title| <= MaxTitle && r.embedUrl == EmbedFor(r.gameUrl, env)
  }

  /** What a link of the first strategy contributes, before the duplicate check. */
  function LinkCandidate(link: Link, env: Env): (c: Option<SearchResult>)
    ensures c.None? <==>
      || link.title == RetroGames
      || link.img.None?
      || link.img.value.title == RetroGames
      || ImageSource(link.img.value) == ""
      || GameUrl(link.href, env).None?
    ensures c.Some? ==> WellFormed(c.value, env) && c.value.gameUrl == GameUrl(link.href, env).value
                        && c.value.imageUrl == ImageUrl(ImageSource(link.img.value), env)
  {
    var imgTitle := if link.img.Some? then link.img.value.title else "";
    if link.title == RetroGames || imgTitle == RetroGames then None
    else if link.img.None? then None
    else
      var img := link.img.value;
      var src := ImageSource(img);
      if src == "" then None
      else if link.href == "" then None
      else match GameUrl(link.href, env)
        case None => None
        case Some(url) =>
          var title := Or(Or(Or(img.alt, Or(img.title, link.title)), link.text), env.urlTitle(url));
          Some(MakeResult(title, ImageUrl(src, env), url, env))
  }

  /** What a card of the second strategy contributes, before the duplicate check. */
  function CardCandidate(card: Card, env: Env): (c: Option<SearchResult>)
    ensures c.None? <==>
      || card.link.None? || card.img.None?
      || card.link.value.title == RetroGames || card.img.value.title == RetroGames || card.title == RetroGames
      || ImageSource(card.img.value) == ""
      || GameUrl(card.link.value.href, env).None?
    ensures c.Some? ==> WellFormed(c.value, env) && c.value.gameUrl == GameUrl(card.link.value.href, env).value
                        && c.value.imageUrl == ImageUrl(ImageSource(card.img.value), env)
  {
    if card.link.None? || card.img.None? then None
    else
      var link, img := card.link.value, card.img.value;
      if link.title == RetroGames || img.title == RetroGames || card.title == RetroGames then None
      else
        var src := ImageSource(img);
        if src == "" || link.href == "" then None
        else match GameUrl(link.href, env)
          case None => None
          case Some(url) =>
            var title := Or(Or(img.alt, Or(img.title, Or(link.title, link.text))), env.urlTitle(url));
            Some(MakeResult(title, ImageUrl(src, env), url, env))
  }

  function LinkCandidates(links: seq<Link>, env: Env): (cs: seq<Option<SearchResult>>)
    ensures |cs| == |links|
    ensures forall k | 0 <= k < |links| :: cs[k] == LinkCandidate(links[k], env)
  {
    if links == [] then [] else [LinkCandidate(links[0], env)] + LinkCandidates(links[1..], env)
  }

  function CardCandidates(cards: seq<Card>, env: Env): (cs: seq<Option<SearchResult>>)
    ensures |cs| == |cards|
    ensures forall k | 0 <= k < |cards| :: cs[k] == CardCandidate(cards[k], env)
  {
    if cards == [] then [] else [CardCandidate(cards[0], env)] + CardCandidates(cards[1..], env)
  }

  /** Some result already has this game URL. */
  predicate HasUrl(rs: seq<SearchResult>, url: string) {
    exists k | 0 <= k < |rs| :: rs[k].gameUrl == url
  }

  /** No two results share a game URL. */
  predicate DistinctUrls(rs: seq<SearchResult>) {
    forall a, b | 0 <= a < b < |rs| :: rs[a].gameUrl != rs[b].gameUrl
  }

  /** A selection loop over candidates: stop once `max` results are held, skip
      missing candidates and game URLs already held, append the rest. */
  function Gather(acc: seq<SearchResult>, cands: seq<Option<SearchResult>>, max: int): seq<SearchResult>
    decreases |cands|
  {
    if cands == [] || |acc| >= max then acc
    else if cands[0].None? || HasUrl(acc, cands[0].value.gameUrl) then Gather(acc, cands[1..], max)
    else Gather(acc + [cands[0].value], cands[1..], max)
  }

  /** A selection loop extends what it was given, never goes past `max` (or
      past what it was given, if that was already more), adds only
      candidates, and keeps game URLs distinct. */
  lemma {:induction false} GatherRules(acc: seq<SearchResult>, cands: seq<Option<SearchResult>>, max: int)
    ensures var g := Gather(acc, cands, max);
      && |acc| <= |g| && g[..|acc|] == acc
      && (|acc| <= max ==> |g| <= max)
      && (|acc| > max ==> g == acc)
      && (forall k | |acc| <= k < |g| :: Some(g[k]) in cands)
      && (DistinctUrls(acc) ==> DistinctUrls(g))
    decreases |cands|
  {
    if cands != [] && |acc| < max {
      var c := cands[0];
      if c.None? || HasUrl(acc, c.value.gameUrl) {
        GatherRules(acc, cands[1..], max);
      } else {
        var acc' := acc + [c.value];
        GatherRules(acc', cands[1..], max);
        var g := Gather(acc', cands[1..], max);
        assert g[..|acc'|] == acc';
        assert g[..|acc|] == acc' [..|acc|];
        forall k | |acc| <= k < |g| ensures Some(g[k]) in cands {
          if k == |acc| {
            assert g[k] == acc'[k];
          } else {
            assert Some(g[k]) in cands[1..];
          }
        }
        if DistinctUrls(acc) {
          assert DistinctUrls(acc') by {
            forall a, b | 0 <= a < b < |acc'| ensures acc'[a].gameUrl != acc'[b].gameUrl {
              if b == |acc| {
                assert !(acc[a].gameUrl == c.value.gameUrl);
              }
            }
          }
        }
      }
    }
  }

  /** A loop that stops short of `max` has kept every candidate's game URL. */
  lemma {:induction false} GatherComplete(acc: seq<SearchResult>, cands: seq<Option<SearchResult>>, max: int)
    requires |Gather(acc, cands, max)| < max
    ensures forall k | 0 <= k < |cands| && cands[k].Some? :: HasUrl(Gather(acc, cands, max), cands[k].value.gameUrl)
    decreases |cands|
  {
    if cands != [] {
      var c := cands[0];
      var next := if c.None? || HasUrl(acc, c.value.gameUrl) then acc else acc + [c.value];
      GatherComplete(next, cands[1..], max);
      var g := Gather(acc, cands, max);
      GatherRules(next, cands[1..], max);
      assert g[..|next|] == next;
      forall k | 0 <= k < |cands| && cands[k].Some? ensures HasUrl(g, cands[k].value.gameUrl) {
        if k == 0 {
          var j :| 0 <= j < |next| && next[j].gameUrl == c.value.gameUrl;
          assert g[j] == next[j];
        } else {
          assert cands[k] == cands[1..][k - 1];
        }
      }
    }
  }

  /** Python's `s[:n]`, for any integer n. */
  function SliceTo(s: seq<SearchResult>, n: int): seq<SearchResult> {
    if n >= 0 then (if n <= |s| then s[..n] else s)
    else if |s| + n > 0 then s[..|s| + n] else []
  }

  /** What `search_games_on_retrogames` returns for a parsed search page:
      results from the links, then, if fewer than `max`, from the cards, cut
      to `max`. */
  function Search(page: SearchPage, max: int, env: Env): seq<SearchResult> {
    var first := Gather([], LinkCandidates(page.links, env), max);
    var all := if |first| < max then Gather(first, CardCandidates(page.cards, env), max) else first;
    SliceTo(all, max)
  }

  /** The search promises: at most `max` results (none when `max` <= 0), no
      two with the same game URL, titles of at most 100 characters, and each
      embed URL the extracted one or else the game URL. */
  lemma SearchRules(page: SearchPage, max: int, env: Env)
    ensures var r := Search(page, max, env);
      && |r| <= (if max > 0 then max else 0)
      && DistinctUrls(r)
      && forall k | 0 <= k < |r| :: WellFormed(r[k], env)
  {
    var lc, cc := LinkCandidates(page.links, env), CardCandidates(page.cards, env);
    var first := Gather([], lc, max);
    GatherRules([], lc, max);
    var all := if |first| < max then Gather(first, cc, max) else first;
    if |first| < max {
      GatherRules(first, cc, max);
    }
    assert DistinctUrls(all);
    assert forall k | 0 <= k < |all| :: WellFormed(all[k], env) by {
      forall k | 0 <= k < |all| ensures WellFormed(all[k], env) {
        if k < |first| {
          assert all[k] == first[k];
          assert Some(first[k]) in lc;
        } else {
          assert Some(all[k]) in cc;
        }
      }
    }
    assert max >= 0 ==> |all| <= max;
  }

  /** A link with a usable image and href whose game URL is not yet held is
      in the result as long as the result is not full. */
  lemma SearchKeepsLinks(page: SearchPage, max: int, env: Env)
    requires |Search(page, max, env)| < max
    ensures forall k | 0 <= k < |page.links| && LinkCandidate(page.links[k], env).Some? ::
              HasUrl(Search(page, max, env), LinkCandidate(page.links[k], env).value.gameUrl)
  {
    var lc, cc := LinkCandidates(page.links, env), CardCandidates(page.cards, env);
    var first := Gather([], lc, max);
    GatherRules([], lc, max);
    var all := Gather(first, cc, max);
    GatherRules(first, cc, max);
    assert |all| < max;
    GatherComplete([], lc, max);
    forall k | 0 <= k < |page.links| && lc[k].Some? ensures HasUrl(all, lc[k].value.gameUrl) {
      var j :| 0 <= j < |first| && first[j].gameUrl == lc[k].value.gameUrl;
      assert all[j] == first[j];
    }
  }

  /** The first loop, over `soup.find_all('a', href=True)`. */
  method SelectLinks(links: seq<Link>, max: int, env: Env) returns (results: seq<SearchResult>)
    ensures results == Gather([], LinkCandidates(links, env), max)
  {
    ghost var cands := LinkCandidates(links, env);
    results := [];
    assert cands[0..] == cands;
    for i := 0 to |links|
      invariant Gather([], cands, max) == Gather(results, cands[i..], max)
    {
      assert cands[i..][1..] == cands[i + 1..];
      if |results| >= max {
        return;
      }
      var c := LinkCandidate(links[i], env);
      if c.None? {
        continue;
      }
      if exists k | 0 <= k < |results| :: results[k].gameUrl == c.value.gameUrl {
        continue;
      }
      results := results + [c.value];
    }
  }

  /** The second loop, over the game cards, continuing from `results`. */
  method SelectCards(results0: seq<SearchResult>, cards: seq<Card>, max: int, env: Env) returns (results: seq<SearchResult>)
    ensures results == Gather(results0, CardCandidates(cards, env), max)
  {
    ghost var cands := CardCandidates(cards, env);
    results := results0;
    assert cands[0..] == cands;
    for i := 0 to |cards|
      invariant Gather(results0, cands, max) == Gather(results, cands[i..], max)
    {
      assert cands[i..][1..] == cands[i + 1..];
      if |results| >= max {
        return;
      }
      var c := CardCandidate(cards[i], env);
      if c.None? {
        continue;
      }
      if exists k | 0 <= k < |results| :: results[k].gameUrl == c.value.gameUrl {
        continue;
      }
      results := results + [c.value];
    }
  }

  /** `search_games_on_retrogames`: None stands for the exception a failed
      search request raises (and re-raises). */
  method SearchGamesOnRetrogames(page: Option<SearchPage>, max: int, env: Env) returns (r: Option<seq<SearchResult>>)
    ensures r.None? <==> page.None?
    ensures r.Some? ==> r.value == Search(page.value, max, env)
  {
    if page.None? {
      return None;
    }
    var results := SelectLinks(page.value.links, max, env);
    if |results| < max {
      results := SelectCards(results, page.value.cards, max, env);
    }
    return Some(SliceTo(results, max));
  }

  // ---------------------------------------------------------------------------
  // search_multiple_games

  /** One query's results: none when its search raises. */
  function QueryResults(name: string, pageOf: string -> Option<SearchPage>, max: int, env: Env): seq<SearchResult> {
    if pageOf(name).Some? then Search(pageOf(name).value, max, env) else []
  }

  /** Each query's results, as a function of the query. */
  function Queries(pageOf: string -> Option<SearchPage>, max: int, env: Env): string -> seq<SearchResult> {
    name => QueryResults(name, pageOf, max, env)
  }

  /** The results of each name under `f`, one after the other. */
  function Concat(names: seq<string>, f: string -> seq<SearchResult>): seq<SearchResult> {
    if names == [] then [] else Concat(names[..|names| - 1], f) + f(names[|names| - 1])
  }

  /** The results of every query whose search did not raise, in query order. */
  function AllResults(names: seq<string>, pageOf: string -> Option<SearchPage>, max: int, env: Env): seq<SearchResult> {
    Concat(names, Queries(pageOf, max, env))
  }

  lemma {:induction false} ConcatAppend(a: seq<string>, b: seq<string>, f: string -> seq<SearchResult>)
    ensures Concat(a + b, f) == Concat(a, f) + Concat(b, f)
    decreases |b|
  {
    if b == [] {
      assert a + b == a;
    } else {
      var b', last := b[..|b| - 1], b[|b| - 1];
      ConcatAppend(a, b', f);
      assert (a + b)[..|a + b| - 1] == a + b';
      assert (a + b)[|a + b| - 1] == last;
      assert Concat(a + b, f) == (Concat(a, f) + Concat(b', f)) + f(last);
      assert Concat(b, f) == Concat(b', f) + f(last);
      assert (Concat(a, f) + Concat(b', f)) + f(last) == Concat(a, f) + (Concat(b', f) + f(last));
    }
  }

  /** A name whose results are empty can be dropped. */
  lemma ConcatDropEmpty(names: seq<string>, k: nat, f: string -> seq<SearchResult>)
    requires k < |names| && f(names[k]) == []
    ensures Concat(names, f) == Concat(names[..k] + names[k + 1..], f)
  {
    var pre, post := names[..k], names[k + 1..];
    var kept := pre + [names[k]];
    assert names == kept + post;
    ConcatAppend(kept, post, f);
    assert kept[..|kept| - 1] == pre;
    assert Concat(kept, f) == Concat(pre, f) + [];
    assert Concat(pre, f) + [] == Concat(pre, f);
    ConcatAppend(pre, post, f);
  }

  /** A query whose search raises contributes nothing: dropping it leaves the
      merged results of the other queries unchanged. */
  lemma RaisingQueryContributesNothing(names: seq<string>, k: nat, pageOf: string -> Option<SearchPage>, max: int, env: Env)
    requires k < |names| && pageOf(names[k]).None?
    ensures AllResults(names, pageOf, max, env) == AllResults(names[..k] + names[k + 1..], pageOf, max, env)
  {
    ConcatDropEmpty(names, k, Queries(pageOf, max, env));
  }

  /** The game URLs of a result list. */
  function Urls(rs: seq<SearchResult>): set<string> {
    if rs == [] then {} else Urls(rs[..|rs| - 1]) + {rs[|rs| - 1].gameUrl}
  }

  lemma {:induction false} UrlsHas(rs: seq<SearchResult>, url: string)
    ensures url in Urls(rs) <==> HasUrl(rs, url)
  {
    if rs != [] {
      var init := rs[..|rs| - 1];
      UrlsHas(init, url);
      assert forall k | 0 <= k < |init| :: init[k] == rs[k];
    }
  }

  /** Each result whose game URL no earlier result has, in order. */
  function FirstOccurrences(rs: seq<SearchResult>): seq<SearchResult> {
    if rs == [] then []
    else
      var init, last := rs[..|rs| - 1], rs[|rs| - 1];
      FirstOccurrences(init) + (if last.gameUrl in Urls(init) then [] else [last])
  }

  lemma UrlsSnoc(rs: seq<SearchResult>, x: SearchResult)
    ensures Urls(rs + [x]) == Urls(rs) + {x.gameUrl}
  {
    assert (rs + [x])[..|rs|] == rs;
  }

  /** The deduplicated list has distinct game URLs and is no longer than its input. */
  lemma {:induction false} FirstOccurrencesDistinct(rs: seq<SearchResult>)
    ensures DistinctUrls(FirstOccurrences(rs))
    ensures |FirstOccurrences(rs)| <= |rs|
  {
    if rs != [] {
      var init, last := rs[..|rs| - 1], rs[|rs| - 1];
      FirstOccurrencesDistinct(init);
      FirstOccurrencesUrls(init);
      var f := FirstOccurrences(init);
      if last.gameUrl !in Urls(init) {
        forall a, b | 0 <= a < b < |f| + 1 ensures (f + [last])[a].gameUrl != (f + [last])[b].gameUrl {
          if b == |f| {
            assert (f + [last])[a] == f[a];
            UrlsHas(f, f[a].gameUrl);
          }
        }
      }
    }
  }

  /** Deduplication loses no game URL. */
  lemma {:induction false} FirstOccurrencesUrls(rs: seq<SearchResult>)
    ensures Urls(FirstOccurrences(rs)) == Urls(rs)
  {
    if rs != [] {
      var init, last := rs[..|rs| - 1], rs[|rs| - 1];
      FirstOccurrencesUrls(init);
      var f := FirstOccurrences(init);
      assert init + [last] == rs;
      UrlsSnoc(init, last);
      if last.gameUrl in Urls(init) {
        assert FirstOccurrences(rs) == f;
        assert Urls(rs) == Urls(init) + {last.gameUrl} == Urls(init);
      } else {
        assert FirstOccurrences(rs) == f + [last];
        UrlsSnoc(f, last);
        assert Urls(f + [last]) == Urls(init) + {last.gameUrl};
      }
    }
  }

  /** A list without duplicate game URLs is its own deduplication. */
  lemma {:induction false} FirstOccurrencesOfDistinct(rs: seq<SearchResult>)
    requires DistinctUrls(rs)
    ensures FirstOccurrences(rs) == rs
  {
    if rs != [] {
      var init, last := rs[..|rs| - 1], rs[|rs| - 1];
      assert DistinctUrls(init) by {
        forall a, b | 0 <= a < b < |init| ensures init[a].gameUrl != init[b].gameUrl {
          assert init[a] == rs[a] && init[b] == rs[b];
        }
      }
      FirstOccurrencesOfDistinct(init);
      assert last.gameUrl !in Urls(init) by {
        forall k | 0 <= k < |init| ensures init[k].gameUrl != last.gameUrl {
          assert init[k] == rs[k];
        }
        UrlsHas(init, last.gameUrl);
      }
      assert init + [last] == rs;
    }
  }

  /** `search_multiple_games`: run every query (one that raises is logged and
      skipped), then keep the first result for each game URL. */
  method SearchMultipleGames(names: seq<string>, pageOf: string -> Option<SearchPage>, max: int, env: Env)
    returns (unique: seq<SearchResult>)
    ensures unique == FirstOccurrences(AllResults(names, pageOf, max, env))
  {
    var all: seq<SearchResult> := [];
    for i := 0 to |names|
      invariant all == AllResults(names[..i], pageOf, max, env)
    {
      assert names[..i + 1][..i] == names[..i];
      var r := SearchGamesOnRetrogames(pageOf(names[i]), max, env);
      if r.Some? {
        all := all + r.value;
      }
    }
    assert names[..|names|] == names;
    var seen: set<string> := {};
    unique := [];
    for i := 0 to |all|
      invariant seen == Urls(all[..i])
      invariant unique == FirstOccurrences(all[..i])
    {
      assert all[..i + 1][..i] == all[..i];
      if all[i].gameUrl !in seen {
        seen := seen + {all[i].gameUrl};
        unique := unique + [all[i]];
      }
    }
    assert all[..|all|] == all;
  }
}
