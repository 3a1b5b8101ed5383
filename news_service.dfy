/**
 * The news fetcher (server/services/newsService.js): one NewsAPI query per
 * topic, rendered to a single block of text for the analyser, with a canned
 * mock text when there is no key or the request fails.
 */
module NewsService {
  import opened Common
  import opened JsString

  /** The four canned sentences of the mock feed. */
  const MockNews: seq<string> := [
    "Market data shows a significant uptrend due to recent global events.",
    "Public sentiment is mixed, with concerns over privacy regulations.",
    "The technology sector is rallying behind the new AI advancements.",
    "Supply chain disruptions are causing minor delays in production."
  ]

  /** A property of an article as a template literal sees it. */
  datatype Value = Str(s: string) | Null | Undefined

  /** `${v}`: a string as itself, a missing value by its name. */
  function Render(v: Value): (r: string)
    ensures v.Str? ==> r == v.s
    ensures v.Null? ==> r == "null"
    ensures v.Undefined? ==> r == "undefined"
  {
    match v
    case Str(s) => s
    case Null => "null"
    case Undefined => "undefined"
  }

  datatype Article = Article(title: Value, description: Value)

  /** The query parameters of the `everything` endpoint. */
  datatype NewsQuery = NewsQuery(q: string, apiKey: string, language: string, sortBy: string, pageSize: nat)

  /** What the HTTP call yields: a body whose `articles` may be missing, or a thrown error. */
  datatype NewsCall = Responded(articles: Option<seq<Article>>) | RequestFailed

  /** The one query sent per fetch: English, newest first, at most five articles. */
  function Query(topic: string, apiKey: string): (r: NewsQuery)
    ensures r.q == topic && r.apiKey == apiKey
    ensures r.language == "en" && r.sortBy == "publishedAt" && r.pageSize == 5
  {
    NewsQuery(topic, apiKey, "en", "publishedAt", 5)
  }

  /** `${a.title}. ${a.description}` */
  function RenderArticle(a: Article): (r: string)
    ensures Contains(r, Render(a.title)) && Contains(r, Render(a.description))
    ensures IsPrefix(Render(a.title) + ". ", r)
    ensures |r| == |Render(a.title)| + 2 + |Render(a.description)|
    ensures r[|Render(a.title)| + 2..] == Render(a.description)
  {
    var title, description := Render(a.title), Render(a.description);
    var lead := title + ". ";
    var r := lead + description;
    assert r[..|lead|] == lead && r[|lead|..] == description;
    ContainsEnds(title, ". ");
    ContainsEnds(lead, description);
    ContainsTrans(r, lead, title);
    r
  }

  function RenderAll(articles: seq<Article>): (r: seq<string>)
    ensures |r| == |articles|
    ensures forall k :: 0 <= k < |articles| ==> r[k] == RenderArticle(articles[k])
  {
    seq(|articles|, k requires 0 <= k < |articles| => RenderArticle(articles[k]))
  }

  /** The articles' renderings joined by single spaces. */
  function ArticlesText(articles: seq<Article>): (r: string)
    ensures articles == [] ==> r == ""
    ensures articles != [] ==> IsPrefix(RenderArticle(articles[0]), r)
  {
    Join(RenderAll(articles), " ")
  }

  /** Every article's title and description reaches the text handed to the analyser. */
  lemma ArticlesTextMentions(articles: seq<Article>, k: nat)
    requires k < |articles|
    ensures Contains(ArticlesText(articles), RenderArticle(articles[k]))
    ensures Contains(ArticlesText(articles), Render(articles[k].title))
    ensures Contains(ArticlesText(articles), Render(articles[k].description))
  {
    var text := ArticlesText(articles);
    var a := RenderArticle(articles[k]);
    JoinContains(RenderAll(articles), " ", k);
    ContainsTrans(text, a, Render(articles[k].title));
    ContainsTrans(text, a, Render(articles[k].description));
  }

  /** One more article appends a space and its rendering, so the order of the feed is kept. */
  lemma ArticlesTextAppend(articles: seq<Article>, a: Article)
    requires articles != []
    ensures ArticlesText(articles + [a]) == ArticlesText(articles) + " " + RenderArticle(a)
  {
    assert RenderAll(articles + [a]) == RenderAll(articles) + [RenderArticle(a)];
    JoinAppend(RenderAll(articles), [RenderArticle(a)], " ");
  }

  /** A single article is its own rendering, with no separator. */
  lemma ArticlesTextSingle(a: Article)
    ensures ArticlesText([a]) == RenderArticle(a)
  {
    assert RenderAll([a]) == [RenderArticle(a)];
  }

  const MockLead: string := "Latest sample news for "

  /** `mockFetchNews`: the topic announced, then the canned sentences. */
  function MockFetchNews(topic: string): (r: string)
    ensures IsPrefix(MockLead + topic + ": ", r)
    ensures Contains(r, topic)
    ensures forall k :: 0 <= k < |MockNews| ==> Contains(r, MockNews[k])
  {
    var lead := MockLead + topic + ": ";
    var body := Join(MockNews, " ");
    var r := lead + body;
    assert r[..|lead|] == lead;
    ContainsInfix(MockLead, topic, ": " + body);
    assert r == MockLead + topic + (": " + body);
    forall k | 0 <= k < |MockNews|
      ensures Contains(r, MockNews[k])
    {
      JoinContains(MockNews, " ", k);
      assert r[|lead|..|r|] == body;
      ContainsSlice(r, |lead|, |r|, MockNews[k]);
    }
    r
  }

  /** The text reported when the feed has no articles. */
  function NoNews(topic: string): (r: string)
    ensures Contains(r, topic)
  {
    ContainsInfix("No recent news found for ", topic, ".");
    "No recent news found for " + topic + "."
  }

  /**
   * `fetchNews`: without a key the mock text; otherwise one query, whose
   * articles are rendered when there are any; a missing or empty list gives
   * the no-news text and a failed request the mock text.
   */
  function FetchNews(apiKey: Option<string>, topic: string, fetch: NewsQuery -> NewsCall): (r: string)
    ensures !Truthy(apiKey) ==> r == MockFetchNews(topic)
    ensures Truthy(apiKey) && fetch(Query(topic, apiKey.value)).RequestFailed? ==> r == MockFetchNews(topic)
    ensures Truthy(apiKey) && fetch(Query(topic, apiKey.value)) == Responded(None) ==> r == NoNews(topic)
    ensures Truthy(apiKey) && fetch(Query(topic, apiKey.value)) == Responded(Some([])) ==> r == NoNews(topic)
    ensures Truthy(apiKey) && fetch(Query(topic, apiKey.value)).Responded? ==>
      var arts := fetch(Query(topic, apiKey.value)).articles;
      arts.Some? && arts.value != [] ==> r == ArticlesText(arts.value)
  {
    if !Truthy(apiKey) then MockFetchNews(topic)
    else
      match fetch(Query(topic, apiKey.value))
      case RequestFailed => MockFetchNews(topic)
      case Responded(arts) =>
        if arts.Some? && |arts.value| > 0 then ArticlesText(arts.value)
        else NoNews(topic)
  }

  /** Whatever the vendor does, the text names the topic unless real articles came back. */
  lemma FetchNewsMentionsTopic(apiKey: Option<string>, topic: string, fetch: NewsQuery -> NewsCall)
    ensures var call := if Truthy(apiKey) then fetch(Query(topic, apiKey.value)) else RequestFailed;
      !(call.Responded? && call.articles.Some? && call.articles.value != []) ==>
        Contains(FetchNews(apiKey, topic, fetch), topic)
  {
  }
}
