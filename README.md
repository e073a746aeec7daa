# Xbot: a verified model of the posting bot's core

The bot posts to a social-media account in batches. Each batch has eight
slots. In each slot it asks a weighted selector for content from one of three
sources. The sources are news headlines, Google trending searches and random
facts. It then formats the content as a tweet and publishes it. `appy.py` and
`app.py` contain the same core logic almost line for line; they differ only in
logging and in the schedule interval. This one model covers both, and the table
below cites each of them.

The model has five modules:

- `PyStr` (`pystr.dfy`): the Python string operations the templates use.
  These are slicing `s[:m]` (a negative bound included), `str.replace(c, '')`,
  `str.capitalize()` on ASCII letters, and `random.choice` with its draw passed
  in as an index.
- `Env` (`env.dfy`): `validate_env_vars`, over an environment map.
- `Formatters` (`formatters.dfy`): the news, fact and trend tweet templates,
  their length checks and truncations, and the hashtag derivation.
- `Fetchers` (`fetchers.dfy`): the three fetchers and the selector
  `get_tweet_content`. Each network call is an abstract outcome: data, a
  response without the expected data, a `requests` exception, or any other
  exception. The model covers how each fetcher absorbs or passes on these
  outcomes, and how fetchers fall back to the news fetcher.
- `Batch` (`batch.dfy`): `post_tweets`, as an imperative method with the
  source's `for` loop, `break` and `continue`. It is proved against the
  specification function `RunFrom`. Its effects are returned as a trace of
  content requests, publish calls and sleeps. The slot contents and the answer
  to each publish call are inputs.

Random draws, the environment, the network responses and the publish answers
are all parameters. Clocks and sleeping are trace events.

Two behaviours of the code that the proofs make explicit:

- **A failed publish is not retried in the same slot.** After a rate limit or
  other publish error, Python's `continue` moves on to the next slot index. The
  slot is abandoned and its per-slot delay is skipped (`EverySlotOnce`,
  `AllRateLimited`).
- **The fact fetcher falls back to News only on a `requests` exception.** Any
  other exception escapes the fetcher and aborts the batch (`FactFallback`,
  `EscapeOnlyFromFact`).

## Model

| member | source | states |
|---|---|---|
| `PyStr.PrefixLaws` | appy.py:95 | `s[:m]` is a prefix that the rest of `s` completes; a bound at or past the end keeps all of `s`; a bound `0 <= m <= len` keeps exactly `m` characters; a negative bound acts as `max(0, len + m)` |
| `PyStr.RemoveAll` | appy.py:145 | `replace(c, '')` drops every `c` and keeps every other character with its multiplicity; the result is no longer than the input (order: `RemoveAllAppend`) |
| `PyStr.RemoveAllAppend` | appy.py:145 | removing a character from a concatenation is removing it from each part, so the kept characters stay in the input's order |
| `PyStr.RemoveAllAbsent` | app.py:108 | removing a character that does not occur leaves the string unchanged |
| `PyStr.Capitalize` | appy.py:92 | `capitalize()` keeps the length; each character equals the input's up to ASCII case, and letters stay letters; the first character is not a lower-case letter, and no later one is an upper-case letter |
| `PyStr.Choice` | appy.py:87 | `random.choice` (of an article here, and equally of a category, a trend term and a source) returns an element of the non-empty list |
| `PyStr.ChoiceReachesEvery` | appy.py:166 | a sanity fact about the modulo reduction of the draw: every position of the list is the result of some draw, so every element can be chosen |
| `Env.MissingFrom` | appy.py:29 | a name is reported missing iff it is required and unset or empty; at most as many names as required |
| `Env.MissingFromAppend` | app.py:23 | the comprehension keeps the order of the required list: filtering a concatenation concatenates the filtered parts |
| `Env.ValidateEnvVars` | app.py:21-28 | true iff every one of the six required names maps to a non-empty value, iff the missing list is empty |
| `Formatters.NewsTweet` | appy.py:92-95 | the news tweet always ends with the whole suffix: source, capitalised category, `#News` and url |
| `Formatters.NewsShortUnchanged` | appy.py:92-93 | a full news tweet of at most 280 characters is returned unchanged |
| `Formatters.NewsTruncatedShape` | appy.py:93-95 | an over-long news tweet is `title[:280 - len(suffix)] + "..." + suffix` with the emoji dropped; its length is the kept title length plus 3 plus the suffix length, with negative slice bounds included |
| `Formatters.NewsTruncatedOverLimit` | app.py:69-72 | a truncated news tweet is always longer than 280 characters: 282 or 283 when the suffix fits, exactly 283 when the title fills the room |
| `Formatters.NewsLongTitleExample` | app.py:70-72 | a 300-character title from source X with url http://u yields 283 characters: the title cut to the room, then `...`, then the suffix |
| `Formatters.NewsWithinLimitIff` | appy.py:93-95 | a news tweet is within 280 characters iff its untruncated form is |
| `Formatters.NewsTweetCorrected` | appy.py:94-95 | the truncation with the ellipsis counted, as its `280 - len(suffix)` arithmetic intends; its tweet always ends with the whole suffix |
| `Formatters.NewsCorrectedWithinLimit` | appy.py:92-95 | with the ellipsis counted, an untruncated tweet is the code's own; whenever the suffix leaves room for the ellipsis, every tweet is within 280 characters, and a truncated one has exactly 280: the title cut to `280 - len(suffix) - 3`, then `...`, then the suffix |
| `Formatters.CategoryHashtags` | appy.py:73 | the capitalised categories are Technology, Entertainment, Sports, Business and Health |
| `Formatters.FactTweet` | appy.py:119-121 | every fact tweet is at most 280 characters and starts with "Did you know? " |
| `Formatters.FactTruncation` | app.py:89-91 | the untruncated fact tweet is used iff the fact has at most 221 characters; otherwise exactly the first 200 fact characters are kept, followed by "...", and the tweet has 262 characters |
| `Formatters.Hashtag` | appy.py:145 | the hashtag holds no space and no `#` and is no longer than the term |
| `Formatters.HashtagIsTagChars` | appy.py:145 | the two replacements equal a single pass that keeps, in order, the characters that are neither a space nor `#` |
| `Formatters.HashtagClean` | app.py:108 | the hashtag contains no space and no `#`, is no longer than the term, and a character is in it iff it is in the term and is neither a space nor `#` |
| `Formatters.HashtagIdempotent` | appy.py:145-146 | deriving the hashtag twice gives the same result as once |
| `Formatters.TrendTweet` | appy.py:146-149 | every trend tweet is at most 280 characters |
| `Formatters.TrendTruncation` | app.py:109-111 | the untruncated trend tweet is used iff term and hashtag have at most 213 characters together; otherwise the tweet keeps the first 50 term characters and at most 20 hashtag characters, and has at most 125 characters |
| `Fetchers.Content.Truthy` | appy.py:192 | `if content:` follows Python's truth rule for `None` and `str`: `None` and the empty string are falsy, every non-empty tweet is truthy, and only a tweet is truthy |
| `Fetchers.FetchNews` | appy.py:64-108 | the news fetcher never raises; it tweets only when the key is set and the response has a non-empty article list, and the tweet is never empty |
| `Fetchers.NewsOutcomes` | app.py:48-80 | the news fetcher tweets iff the key is set, the article list is non-empty and the drawn article has a title, a source name and a url; the tweet is that article formatted under the drawn category; otherwise the result is None |
| `Fetchers.FetchTrends` | appy.py:132-158 | the trends fetcher never raises |
| `Fetchers.TrendsFallback` | app.py:98-116 | with at least one term, the trends fetcher tweets the drawn term within 280 characters; on an empty frame or any exception, its result is exactly the news fetcher's |
| `Fetchers.FetchFact` | appy.py:111-129 | the fact fetcher raises iff the fact service failed with something other than a request exception |
| `Fetchers.FactFallback` | app.py:82-96 | a fact response gives the fact tweet within 280 characters, and a response without "text" formats "None"; a request error gives the news fetcher's result; any other error escapes |
| `Fetchers.Dispatch` | appy.py:170-175 | the branch is the news fetcher iff the name is `news_api`, the trends fetcher iff it is `google_trends`, and the fact fetcher for every other name |
| `Fetchers.SelectorMapping` | appy.py:165-175 | draws 0 and 1 select News, draw 2 Trends and draw 3 Fact |
| `Fetchers.SelectorWeights` | app.py:121-122 | of the four equally likely draws, news_api appears twice and google_trends and random_fact once each |
| `Fetchers.GetTweetContent` | app.py:118-129 | the selector raises iff the Fact fetcher was drawn and its service failed with a non-request error; a tweet it returns is never empty |
| `Fetchers.SelectedTruthyIffTweet` | appy.py:191-192 | content from the selector that did not raise is truthy exactly when it is not `None`: no fetcher returns an empty tweet |
| `Fetchers.ContentOverLimitIsNews` | appy.py:161-175 | a selected tweet longer than 280 characters is always the news fetcher's |
| `Batch.DelayIsExact` | appy.py:182-183 | the per-slot delay of 1350 s is exactly three hours divided by eight |
| `Batch.SlotStep` | appy.py:186-210 | a slot leaves the loop iff there is no client or the content request raised; without a client it leaves at once with no events and no exception; with a client it starts with the content request; a slot that goes on to the next index ends with a sleep |
| `Batch.RunFrom` | appy.py:185-210 | from slot i on: without a client the run is empty and nothing escapes; an exception escapes only with a client; at most three events per remaining slot |
| `Batch.SlotMeasures` | appy.py:185-210 | per slot: one content request; a publish call exactly when the content is truthy; exactly one sleep, as the slot's last event, which is 1350 s after a post or for falsy content, 900 s after a rate limit and 60 s after another publish error; without a client there are no events, and an escaping exception ends the slot before any publish or sleep, so such a slot has no sleep |
| `Batch.NextSlot` | appy.py:201 | the loop's proof step: the events of a slot that goes on, appended to the trace so far, leave the run the loop is computing unchanged as it moves to the next index |
| `Batch.PostTweets` | app.py:131-156 | the loop's trace equals the specification run; without a client it does nothing; at most 8 content requests and 8 publish calls; at most three hours of sleep in all |
| `Batch.RunBounds` | appy.py:182-210 | from slot i on: at most 8 - i content requests, no more publishes and no more sleeps than requests, and at most 1350 s of sleep per request |
| `Batch.NoClientNoActivity` | app.py:136-139 | without a client the batch breaks at i = 0 with no request, no publish call and no sleep |
| `Batch.EverySlotOnce` | appy.py:197-206 | with a client and no escaping exception, each remaining slot requests content exactly once and sleeps exactly once, whatever the publish answers, and the publish calls carry exactly the truthy contents in slot order |
| `Batch.EscapeNeedsRaise` | appy.py:191-192 | a batch ends in an exception only if some slot's content request raised one |
| `Batch.AllRateLimited` | app.py:145-148 | if every slot has content and every publish is rate-limited, there are still 8 publish calls and 8 × 900 s of sleep, and no 1350 s delay |
| `Batch.EscapeOnlyFromFact` | appy.py:126-129 | with the selector behind every slot, only a Fact draw whose service failed with a non-request error can abort the batch |

Line correspondence between the two files (appy.py, then app.py):

- `validate_env_vars`: 26-36 and 21-28
- `fetch_news_article`: 64-108 and 48-80
- `fetch_random_fact`: 111-129 and 82-96
- `fetch_google_trends`: 132-158 and 98-116
- `get_tweet_content`: 161-175 and 118-129
- `post_tweets`: 178-212 and 131-156

## Left out

- Logging, `print`, `load_dotenv`, the Flask app and its route: I/O and glue.
- `initialize_twitter_client`, `tweepy.Client` construction and `get_me`: foreign calls. The batch takes whether a client is present as a boolean.
- `requests.get`, `TrendReq`/`trending_searches` and `create_tweet`: foreign network calls, replaced by abstract outcomes. The model has three publish outcomes. A publish failure that is not a `TweepyException` is not modelled.
- `random.choice`: modelled as a draw index, reduced modulo the list length. The model says which element each draw selects. It says nothing about probabilities beyond the 2:1:1 multiplicities of the source list.
- `time.sleep`: recorded as a trace event carrying its duration; no time passes.
- `run_schedule` and the `schedule` library: an infinite polling loop over a library that is not part of this model. It runs one batch before entering that loop, and every batch is `post_tweets`.
- `threading`, `worker.py` and `gunicorn.conf.py`: process bootstrap and constants only.
- JSON values that are not strings are not modelled. For example, a `null` title would render as "None" or raise a `TypeError` in the slice. Article fields are either absent (a `KeyError`, so the result is None) or strings. Trends terms are strings.
- `PyStr.Capitalize` handles ASCII letters only. Python's `str.capitalize` also case-maps other letters. The only strings it is applied to are the five fixed lower-case ASCII categories, so the results agree.

## Findings

| source | as written | input that shows it | evidently intended | confidence | as-written member | corrected member |
|---|---|---|---|---|---|---|
| appy.py:93-95 | the title room `280 - len(suffix)` does not count the `...` appended after the cut title, so every truncated news tweet has over 280 characters | a 300-character title from source `X` with url `http://u`, any category: 283 characters (`NewsLongTitleExample`) | the title cut three characters shorter, so a truncated tweet is exactly 280 characters | not executed | `Formatters.NewsTruncatedOverLimit` | `Formatters.NewsCorrectedWithinLimit` |

The fetchers keep the formatter as written (`NewsTweet`), so that what the
model says about selected content describes the tweets the bot sends.
`NewsTweetCorrected` differs from it only on truncated tweets.
