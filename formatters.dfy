/**
 * The three tweet templates of the content fetchers, as pure string
 * functions of the data the upstream services returned. Each template is
 * built in full first and only re-built in a shorter form when the full one
 * exceeds the platform limit of 280 characters.
 */
module Formatters {
  import opened PyStr

  /** The platform's limit on a tweet's length, in characters. */
  const Limit := 280

  // ---------------------------------------------------------------------
  // News: `fetch_news_article`
  // ---------------------------------------------------------------------

  /** The news categories the fetcher draws from, in the order it lists them. */
  const Categories: seq<string> := ["technology", "entertainment", "sports", "business", "health"]

  /** Everything after the title: source attribution, category hashtag, `#News` and the url. */
  function NewsSuffix(source: string, category: string, url: string): string
  {
    "\n\n(Source: " + source + ")\nWhat's your take? #" + Capitalize(category) + " #News\n" + url
  }

  /** The full news tweet: the title, a space and the newspaper emoji, then the suffix. */
  function NewsFull(title: string, source: string, category: string, url: string): string
  {
    title + " \U{1F4F0}" + NewsSuffix(source, category, url)
  }

  /** The room the code leaves for the title when it truncates: 280 less the suffix. */
  function NewsTitleRoom(source: string, category: string, url: string): int
  {
    Limit - |NewsSuffix(source, category, url)|
  }

  /** The tweet of `fetch_news_article` for one article and category. */
  function NewsTweet(title: string, source: string, category: string, url: string): (r: string)
    ensures |r| >= |NewsSuffix(source, category, url)|
    ensures r[|r| - |NewsSuffix(source, category, url)|..] == NewsSuffix(source, category, url)
  {
    var suffix := NewsSuffix(source, category, url);
    var full := NewsFull(title, source, category, url);
    if |full| > Limit then Prefix(title, NewsTitleRoom(source, category, url)) + "..." + suffix
    else full
  }

  /** A full news tweet within the limit is sent as it is. */
  lemma NewsShortUnchanged(title: string, source: string, category: string, url: string)
    requires |NewsFull(title, source, category, url)| <= Limit
    ensures NewsTweet(title, source, category, url) == NewsFull(title, source, category, url)
  {
  }

  /**
   * An over-long news tweet keeps a prefix of the title, an ellipsis and the
   * whole suffix; the emoji is dropped. Its length is the kept title length
   * plus 3 plus the suffix length, where the kept title length follows
   * Python's slicing of `title[:280 - len(suffix)]`, negative bound included.
   */
  lemma NewsTruncatedShape(title: string, source: string, category: string, url: string)
    requires |NewsFull(title, source, category, url)| > Limit
    ensures var r := NewsTweet(title, source, category, url);
            var suffix := NewsSuffix(source, category, url);
            var m := NewsTitleRoom(source, category, url);
            var kept := if m >= 0 then Min(m, |title|) else Max(0, |title| + m);
            && r == title[..kept] + "..." + suffix
            && |r| == kept + 3 + |suffix|
  {
  }

  /**
   * The truncation does not make room for the ellipsis it adds, so a
   * truncated news tweet is never within the limit: it is 282 or 283
   * characters when the suffix fits in 280, and longer still otherwise.
   */
  lemma NewsTruncatedOverLimit(title: string, source: string, category: string, url: string)
    requires |NewsFull(title, source, category, url)| > Limit
    ensures var r := NewsTweet(title, source, category, url);
            && |r| > Limit
            && (NewsTitleRoom(source, category, url) >= 0 ==> 282 <= |r| <= 283)
            && (|title| >= NewsTitleRoom(source, category, url) >= 0 ==> |r| == 283)
  {
    NewsTruncatedShape(title, source, category, url);
    assert |NewsFull(title, source, category, url)| == |title| + 2 + |NewsSuffix(source, category, url)|;
  }

  /**
   * A 300-character title from source "X" with url "http://u" gives a
   * tweet of 283 characters that ends in an ellipsis followed by the suffix.
   */
  lemma NewsLongTitleExample(category: string)
    requires category in Categories
    ensures var title := seq(300, _ => 'A');
            var r := NewsTweet(title, "X", category, "http://u");
            var suffix := NewsSuffix("X", category, "http://u");
            && |r| == 283
            && r == title[..NewsTitleRoom("X", category, "http://u")] + "..." + suffix
  {
    var title := seq(300, _ => 'A');
    NewsTruncatedOverLimit(title, "X", category, "http://u");
    NewsTruncatedShape(title, "X", category, "http://u");
  }

  /** So a news tweet is within the limit exactly when its full form is, and then it is the full form. */
  lemma NewsWithinLimitIff(title: string, source: string, category: string, url: string)
    ensures |NewsTweet(title, source, category, url)| <= Limit
        <==> |NewsFull(title, source, category, url)| <= Limit
  {
    if |NewsFull(title, source, category, url)| > Limit {
      NewsTruncatedOverLimit(title, source, category, url);
    }
  }

  /**
   * The truncation as its own arithmetic intends it: the title room of
   * `280 - len(suffix)` also has to hold the three characters of the
   * ellipsis, so the title is cut three characters shorter.
   */
  function NewsTweetCorrected(title: string, source: string, category: string, url: string): (r: string)
    ensures |r| >= |NewsSuffix(source, category, url)|
    ensures r[|r| - |NewsSuffix(source, category, url)|..] == NewsSuffix(source, category, url)
  {
    var suffix := NewsSuffix(source, category, url);
    var full := NewsFull(title, source, category, url);
    if |full| > Limit then Prefix(title, NewsTitleRoom(source, category, url) - 3) + "..." + suffix
    else full
  }

  /**
   * With the ellipsis counted, a news tweet is within the limit whenever
   * the suffix leaves room for the ellipsis, and a truncated one then has
   * exactly 280 characters; a tweet that was not truncated is the same as
   * the one the code builds.
   */
  lemma NewsCorrectedWithinLimit(title: string, source: string, category: string, url: string)
    ensures var r := NewsTweetCorrected(title, source, category, url);
            var full := NewsFull(title, source, category, url);
            && (|full| <= Limit ==> r == full && r == NewsTweet(title, source, category, url))
            && (|NewsSuffix(source, category, url)| + 3 <= Limit ==> |r| <= Limit)
            && (|full| > Limit && |NewsSuffix(source, category, url)| + 3 <= Limit ==>
                 && |r| == Limit
                 && r == title[..NewsTitleRoom(source, category, url) - 3] + "..." + NewsSuffix(source, category, url))
  {
    var full := NewsFull(title, source, category, url);
    var suffix := NewsSuffix(source, category, url);
    assert |full| == |title| + 2 + |suffix|;
    PrefixLaws(title, NewsTitleRoom(source, category, url) - 3);
  }

  /** The category hashtags are the capitalised category names. */
  lemma CategoryHashtags()
    ensures Capitalize(Categories[0]) == "Technology"
    ensures Capitalize(Categories[1]) == "Entertainment"
    ensures Capitalize(Categories[2]) == "Sports"
    ensures Capitalize(Categories[3]) == "Business"
    ensures Capitalize(Categories[4]) == "Health"
  {
  }

  // ---------------------------------------------------------------------
  // Fact: `fetch_random_fact`
  // ---------------------------------------------------------------------

  const FactHead := "Did you know? "
  const FactTail := " \U{1F92F}\n\nShare your thoughts! #FunFact #DidYouKnow"

  /** The number of fact characters a truncated fact tweet keeps. */
  const FactCap := 200

  /** The tweet of `fetch_random_fact` for one fact text. */
  function FactTweet(fact: string): (r: string)
    ensures |r| <= Limit
    ensures FactHead <= r
  {
    var full := FactHead + fact + FactTail;
    if |full| > Limit then FactHead + Prefix(fact, FactCap) + "..." + FactTail else full
  }

  /**
   * The fact tweet is the full template exactly when the fact has at most
   * 221 characters; otherwise it keeps exactly the first 200 fact
   * characters followed by an ellipsis, and has 262 characters.
   */
  lemma FactTruncation(fact: string)
    ensures |FactHead + fact + FactTail| <= Limit <==> |fact| <= 221
    ensures |fact| <= 221 ==> FactTweet(fact) == FactHead + fact + FactTail
    ensures |fact| > 221 ==> FactTweet(fact) == FactHead + fact[..FactCap] + "..." + FactTail
    ensures |fact| > 221 ==> |FactTweet(fact)| == 262
  {
  }

  // ---------------------------------------------------------------------
  // Trend: `fetch_google_trends`
  // ---------------------------------------------------------------------

  /** `trend_name.replace(' ', '').replace('#', '')` */
  function Hashtag(term: string): (tag: string)
    ensures ' ' !in tag && '#' !in tag
    ensures |tag| <= |term|
  {
    RemoveAll(RemoveAll(term, ' '), '#')
  }

  /** One pass over the term keeping every character that is neither a space nor `#`: an independent reading of the hashtag. */
  function TagChars(term: string): string
  {
    if term == [] then []
    else (if term[0] == ' ' || term[0] == '#' then [] else [term[0]]) + TagChars(term[1..])
  }

  /** The two replacements together keep, in order, exactly the characters that are neither a space nor `#`. */
  lemma {:induction false} HashtagIsTagChars(term: string)
    ensures Hashtag(term) == TagChars(term)
  {
    if term != [] {
      HashtagIsTagChars(term[1..]);
      assert term == [term[0]] + term[1..];
    }
  }

  /** The hashtag has no space and no `#`, is no longer than the term, and holds every other character of the term. */
  lemma HashtagClean(term: string)
    ensures ' ' !in Hashtag(term) && '#' !in Hashtag(term)
    ensures |Hashtag(term)| <= |term|
    ensures forall x :: x in Hashtag(term) <==> x in term && x != ' ' && x != '#'
  {
  }

  /** Deriving the hashtag of a hashtag changes nothing. */
  lemma HashtagIdempotent(term: string)
    ensures Hashtag(Hashtag(term)) == Hashtag(term)
  {
    var h := Hashtag(term);
    HashtagClean(term);
    RemoveAllAbsent(h, ' ');
    RemoveAllAbsent(h, '#');
  }

  const TrendHead := "Trending on Google: '"
  const TrendMid := "' \U{1F525}\n\nWhat's driving this buzz? #GoogleTrends #"
  const ShortTrendHead := "Trending: '"
  const ShortTrendMid := "...' \U{1F525}\n\nWhat's driving this? #GoogleTrends #"

  /** The number of term and hashtag characters a truncated trend tweet keeps. */
  const TermCap := 50
  const TagCap := 20

  /** The tweet of `fetch_google_trends` for one trending term. */
  function TrendTweet(term: string): (r: string)
    ensures |r| <= Limit
  {
    var hashtag := Hashtag(term);
    var full := TrendHead + term + TrendMid + hashtag;
    if |full| > Limit then ShortTrendHead + Prefix(term, TermCap) + ShortTrendMid + Prefix(hashtag, TagCap)
    else full
  }

  /**
   * A trend tweet is the full template exactly when term and hashtag have
   * at most 213 characters together; otherwise it keeps the first 50
   * characters of the term and at most the first 20 of the hashtag, and
   * has at most 125 characters.
   */
  lemma TrendTruncation(term: string)
    ensures var full := TrendHead + term + TrendMid + Hashtag(term);
            (|full| <= Limit <==> |term| + |Hashtag(term)| <= 213)
            && (|full| <= Limit ==> TrendTweet(term) == full)
    ensures |term| + |Hashtag(term)| > 213 ==>
              && TrendTweet(term) == ShortTrendHead + term[..TermCap] + ShortTrendMid + Prefix(Hashtag(term), TagCap)
              && |Prefix(Hashtag(term), TagCap)| <= TagCap
              && |TrendTweet(term)| <= 125
  {
  }
}
