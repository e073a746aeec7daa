/**
 * The three content fetchers, their fallback to the news fetcher, and the
 * weighted source selector (`get_tweet_content`). Each network call is an
 * abstract outcome passed in, and each `random.choice` is a draw passed in.
 */
module Fetchers {
  import opened PyStr
  import opened Formatters
  import opened Env

  datatype Option<T> = None | Some(value: T)

  /**
   * What an upstream service gave back: a response carrying data, a
   * response without the expected data, a `requests` exception, or any
   * other exception.
   */
  datatype Upstream<T> = Ok(data: T) | Empty | RequestError | OtherError

  /** One entry of the headlines response; a key the JSON object lacks is `None`. */
  datatype Article = Article(title: Option<string>, sourceName: Option<string>, url: Option<string>)

  /**
   * What a fetcher hands to its caller: a tweet, Python's `None`, or an
   * exception that escapes the fetcher.
   */
  datatype Content = Tweet(text: string) | NoContent | Raised
  {
    /** `if content:` in the batch loop: `None` and the empty string are falsy. */
    predicate Truthy()
      ensures Truthy() ==> Tweet?
      ensures NoContent? ==> !Truthy()
      ensures Tweet? && text != "" ==> Truthy()
      ensures Tweet? && text == "" ==> !Truthy()
    {
      Tweet? && text != ""
    }
  }

  /** The draws and the response that one call of the news fetcher sees. */
  datatype NewsDraw = NewsDraw(categoryPick: nat, response: Upstream<seq<Article>>, articlePick: nat)

  /** `fetch_news_article()`: an article tweet, or `None` on every failure. */
  function FetchNews(env: Environ, d: NewsDraw): (c: Content)
    ensures !c.Raised?
    ensures c.Tweet? ==> IsSet(env, "NEWS_API_KEY") && d.response.Ok? && |d.response.data| > 0
    ensures c.Tweet? ==> c.text != ""
  {
    if !IsSet(env, "NEWS_API_KEY") then NoContent
    else
      match d.response
      case RequestError => NoContent
      case OtherError => NoContent
      case Empty => NoContent
      case Ok(articles) =>
        if |articles| == 0 then NoContent
        else
          var a := Choice(articles, d.articlePick);
          if a.title.None? || a.sourceName.None? || a.url.None? then NoContent
          else Tweet(NewsTweet(a.title.value, a.sourceName.value, Choice(Categories, d.categoryPick), a.url.value))
  }

  /**
   * The news fetcher yields a tweet exactly when the key is set, the
   * response holds a non-empty article list and the drawn article has a
   * title, a source name and a url; the tweet is that article formatted
   * under the drawn category.
   */
  lemma NewsOutcomes(env: Environ, d: NewsDraw)
    ensures FetchNews(env, d).Tweet? <==>
      && IsSet(env, "NEWS_API_KEY")
      && d.response.Ok? && |d.response.data| > 0
      && var a := Choice(d.response.data, d.articlePick);
         a.title.Some? && a.sourceName.Some? && a.url.Some?
    ensures FetchNews(env, d).Tweet? ==>
      var a := Choice(d.response.data, d.articlePick);
      FetchNews(env, d).text == NewsTweet(a.title.value, a.sourceName.value, Choice(Categories, d.categoryPick), a.url.value)
  {
  }

  /** The trends response (the first column of the frame, as a list) and the draw of one term. */
  datatype TrendsDraw = TrendsDraw(response: Upstream<seq<string>>, termPick: nat)

  /** The trends service produced at least one term. */
  predicate HasTerms(t: TrendsDraw)
  {
    t.response.Ok? && |t.response.data| > 0
  }

  /** `fetch_google_trends()`: a trend tweet, or whatever the news fetcher gives. */
  function FetchTrends(env: Environ, t: TrendsDraw, news: NewsDraw): (c: Content)
    ensures !c.Raised?
  {
    match t.response
    case Ok(terms) =>
      if |terms| == 0 then FetchNews(env, news)
      else Tweet(TrendTweet(Choice(terms, t.termPick)))
    case Empty => FetchNews(env, news)
    case RequestError => FetchNews(env, news)
    case OtherError => FetchNews(env, news)
  }

  /**
   * With terms the trends fetcher tweets the drawn term, within the limit;
   * on an empty frame or any exception its result is the news fetcher's.
   */
  lemma TrendsFallback(env: Environ, t: TrendsDraw, news: NewsDraw)
    ensures HasTerms(t) ==>
      && FetchTrends(env, t, news) == Tweet(TrendTweet(Choice(t.response.data, t.termPick)))
      && |FetchTrends(env, t, news).text| <= Limit
    ensures !HasTerms(t) ==> FetchTrends(env, t, news) == FetchNews(env, news)
  {
  }

  /** `fetch_random_fact()`: only a `requests` exception is absorbed, by the news fetcher. */
  function FetchFact(env: Environ, f: Upstream<string>, news: NewsDraw): (c: Content)
    ensures c.Raised? <==> f.OtherError?
  {
    match f
    case Ok(text) => Tweet(FactTweet(text))
    case Empty => Tweet(FactTweet("None"))
    case RequestError => FetchNews(env, news)
    case OtherError => Raised
  }

  /**
   * A fact response gives a fact tweet within the limit (a response without
   * a "text" key formats Python's `None`); a request error gives the news
   * fetcher's result; any other exception escapes.
   */
  lemma FactFallback(env: Environ, f: Upstream<string>, news: NewsDraw)
    ensures f.Ok? ==> FetchFact(env, f, news) == Tweet(FactTweet(f.data))
    ensures f.Empty? ==> FetchFact(env, f, news) == Tweet(FactTweet("None"))
    ensures (f.Ok? || f.Empty?) ==> |FetchFact(env, f, news).text| <= Limit
    ensures f.RequestError? ==> FetchFact(env, f, news) == FetchNews(env, news)
    ensures f.OtherError? ==> FetchFact(env, f, news) == Raised
  {
  }

  /** The selector's draw list; the news API is listed twice to weight it higher. */
  const Sources: seq<string> := ["news_api", "news_api", "google_trends", "random_fact"]

  datatype Fetcher = News | Trends | Fact

  /** The `if`/`elif`/`else` on the drawn source name. */
  function Dispatch(source: string): (f: Fetcher)
    ensures f == News <==> source == "news_api"
    ensures f == Trends <==> source == "google_trends"
    ensures f == Fact <==> source != "news_api" && source != "google_trends"
  {
    if source == "news_api" then News
    else if source == "google_trends" then Trends
    else Fact
  }

  /** Draws 0 and 1 select the news fetcher, draw 2 the trends fetcher, draw 3 the fact fetcher. */
  lemma SelectorMapping(pick: nat)
    requires pick < |Sources|
    ensures Dispatch(Choice(Sources, pick)) == News <==> pick < 2
    ensures Dispatch(Choice(Sources, pick)) == Trends <==> pick == 2
    ensures Dispatch(Choice(Sources, pick)) == Fact <==> pick == 3
  {
  }

  /** Over the four equally likely draws, news is selected twice and each other source once. */
  lemma SelectorWeights()
    ensures |Sources| == 4
    ensures multiset(Sources)["news_api"] == 2
    ensures multiset(Sources)["google_trends"] == 1
    ensures multiset(Sources)["random_fact"] == 1
  {
    assert Sources == ["news_api"] + ["news_api"] + ["google_trends"] + ["random_fact"];
  }

  /** Everything one call of `get_tweet_content` depends on. */
  datatype Draw = Draw(sourcePick: nat, news: NewsDraw, trends: TrendsDraw, fact: Upstream<string>)

  /** `get_tweet_content()` */
  function GetTweetContent(env: Environ, d: Draw): (c: Content)
    ensures c.Raised? <==> Dispatch(Choice(Sources, d.sourcePick)) == Fact && d.fact.OtherError?
    ensures c.Tweet? ==> c.text != ""
  {
    match Dispatch(Choice(Sources, d.sourcePick))
    case News => FetchNews(env, d.news)
    case Trends => FetchTrends(env, d.trends, d.news)
    case Fact => FetchFact(env, d.fact, d.news)
  }

  /** Content from the selector that did not raise is truthy exactly when it is a tweet. */
  lemma SelectedTruthyIffTweet(env: Environ, d: Draw)
    ensures !GetTweetContent(env, d).Raised? ==>
      (GetTweetContent(env, d).Truthy() <==> !GetTweetContent(env, d).NoContent?)
  {
  }

  /**
   * A tweet from the selector that exceeds the limit is the news fetcher's,
   * whichever source was drawn: the trend and fact templates always fit.
   */
  lemma ContentOverLimitIsNews(env: Environ, d: Draw)
    requires GetTweetContent(env, d).Tweet?
    requires |GetTweetContent(env, d).text| > Limit
    ensures GetTweetContent(env, d) == FetchNews(env, d.news)
  {
  }
}
