/**
 * One batch of `post_tweets`: up to eight slots, each asking the selector
 * for content and publishing it. The side effects (content requests,
 * publish calls, sleeps) are recorded as a trace of events; the content of
 * each slot and the API's answer to each publish call are inputs.
 */
module Batch {
  import opened Fetchers
  import Env

  /** Slots per batch. */
  const MaxTweets: nat := 8

  /** The window a batch is spread over: three hours, in seconds. */
  const Window: nat := 3 * 60 * 60

  /** The per-slot delay, in seconds. */
  const Delay: nat := 1350

  /** The pause after a rate-limit error: 15 minutes. */
  const RateLimitPause: nat := 15 * 60

  /** The pause after any other publish error. */
  const ErrorPause: nat := 60

  /** The delay is `(3 * 60 * 60) / max_tweets` exactly: the division leaves no remainder. */
  lemma DelayIsExact()
    ensures Delay == Window / MaxTweets && Delay * MaxTweets == Window
  {
  }

  /** How the API answers one `create_tweet` call. */
  datatype PublishOutcome = Posted | TooManyRequests | OtherTweepyError

  /** The observable effects of a batch, in order. */
  datatype Event = RequestContent | Publish(text: string) | Sleep(seconds: nat)

  /** A batch's trace, and whether an exception escaped `post_tweets`. */
  datatype Run = Run(trace: seq<Event>, escaped: bool)

  /** What one slot does: events, then either on to the next slot or out of the loop. */
  datatype Step = Next(events: seq<Event>) | Stop(events: seq<Event>, escaped: bool)

  /** The body of `for i in range(max_tweets)` for one slot; `continue` ends the slot without the delay. */
  function SlotStep(hasClient: bool, content: Content, outcome: PublishOutcome): (step: Step)
    ensures step.Stop? <==> !hasClient || content.Raised?
    ensures !hasClient <==> step == Stop([], false)
    ensures hasClient ==> |step.events| > 0 && step.events[0] == RequestContent
    ensures step.Next? ==> step.events[|step.events| - 1].Sleep?
  {
    if !hasClient then Stop([], false)
    else if content.Raised? then Stop([RequestContent], true)
    else if !content.Truthy() then Next([RequestContent, Sleep(Delay)])
    else
      match outcome
      case Posted => Next([RequestContent, Publish(content.text), Sleep(Delay)])
      case TooManyRequests => Next([RequestContent, Publish(content.text), Sleep(RateLimitPause)])
      case OtherTweepyError => Next([RequestContent, Publish(content.text), Sleep(ErrorPause)])
  }

  predicate Inputs(contents: seq<Content>, outcomes: seq<PublishOutcome>)
  {
    MaxTweets <= |contents| && MaxTweets <= |outcomes|
  }

  /** The run of slots i, i + 1, ... up to the last slot or the first one that leaves the loop. */
  function RunFrom(hasClient: bool, contents: seq<Content>, outcomes: seq<PublishOutcome>, i: nat): (r: Run)
    requires Inputs(contents, outcomes) && i <= MaxTweets
    ensures !hasClient ==> r == Run([], false)
    ensures r.escaped ==> hasClient
    ensures |r.trace| <= 3 * (MaxTweets - i)
    decreases MaxTweets - i
  {
    if i == MaxTweets then Run([], false)
    else
      match SlotStep(hasClient, contents[i], outcomes[i])
      case Stop(events, escaped) => Run(events, escaped)
      case Next(events) =>
        var rest := RunFrom(hasClient, contents, outcomes, i + 1);
        Run(events + rest.trace, rest.escaped)
  }

  // ---------------------------------------------------------------------
  // Measures of a trace
  // ---------------------------------------------------------------------

  function Requests(trace: seq<Event>): nat
  {
    if trace == [] then 0 else (if trace[0].RequestContent? then 1 else 0) + Requests(trace[1..])
  }

  /** The texts of the publish calls, in order. */
  function Published(trace: seq<Event>): seq<string>
  {
    if trace == [] then [] else (if trace[0].Publish? then [trace[0].text] else []) + Published(trace[1..])
  }

  /** The seconds slept in all. */
  function SleepTotal(trace: seq<Event>): nat
  {
    if trace == [] then 0 else (if trace[0].Sleep? then trace[0].seconds else 0) + SleepTotal(trace[1..])
  }

  /** The number of sleeps. */
  function Sleeps(trace: seq<Event>): nat
  {
    if trace == [] then 0 else (if trace[0].Sleep? then 1 else 0) + Sleeps(trace[1..])
  }

  lemma {:induction false} MeasuresAppend(a: seq<Event>, b: seq<Event>)
    ensures Requests(a + b) == Requests(a) + Requests(b)
    ensures Published(a + b) == Published(a) + Published(b)
    ensures SleepTotal(a + b) == SleepTotal(a) + SleepTotal(b)
    ensures Sleeps(a + b) == Sleeps(a) + Sleeps(b)
  {
    if a == [] {
      assert a + b == b;
    } else {
      assert (a + b)[0] == a[0] && (a + b)[1..] == a[1..] + b;
      MeasuresAppend(a[1..], b);
    }
  }

  lemma MeasuresOne(e: Event)
    ensures Requests([e]) == (if e.RequestContent? then 1 else 0)
    ensures Published([e]) == (if e.Publish? then [e.text] else [])
    ensures SleepTotal([e]) == (if e.Sleep? then e.seconds else 0)
    ensures Sleeps([e]) == (if e.Sleep? then 1 else 0)
  {
    assert [e][1..] == [];
  }

  /**
   * Each slot asks for content once, publishes its content exactly when it
   * is truthy, and sleeps once: the per-slot delay unless a publish call
   * failed, in which case only the error's own pause.
   */
  lemma SlotMeasures(hasClient: bool, content: Content, outcome: PublishOutcome)
    ensures match SlotStep(hasClient, content, outcome)
      case Stop(events, escaped) =>
        && Requests(events) == (if hasClient then 1 else 0) && Published(events) == []
        && Sleeps(events) == 0 && SleepTotal(events) == 0
        && escaped == (hasClient && content.Raised?)
      case Next(events) =>
        && hasClient && !content.Raised?
        && Requests(events) == 1
        && Published(events) == (if content.Truthy() then [content.text] else [])
        && Sleeps(events) == 1 && events[|events| - 1].Sleep?
        && SleepTotal(events) == (if !content.Truthy() || outcome == Posted then Delay
                                  else if outcome == TooManyRequests then RateLimitPause else ErrorPause)
  {
    MeasuresOne(RequestContent);
    MeasuresOne(Sleep(Delay));
    MeasuresAppend([RequestContent], [Sleep(Delay)]);
    if content.Tweet? {
      var pub := Publish(content.text);
      MeasuresOne(pub);
      MeasuresOne(Sleep(RateLimitPause));
      MeasuresOne(Sleep(ErrorPause));
      MeasuresAppend([RequestContent], [pub]);
      MeasuresAppend([RequestContent, pub], [Sleep(Delay)]);
      MeasuresAppend([RequestContent, pub], [Sleep(RateLimitPause)]);
      MeasuresAppend([RequestContent, pub], [Sleep(ErrorPause)]);
    }
  }

  // ---------------------------------------------------------------------
  // The loop itself
  // ---------------------------------------------------------------------

  /** The run that results when the events in `done` have already happened and `rest` is still to come. */
  function Resume(done: seq<Event>, rest: Run): Run
  {
    Run(done + rest.trace, rest.escaped)
  }

  /** Finishing slot i with its events moves the loop on to slot i + 1 without changing the run it is in. */
  lemma NextSlot(hasClient: bool, contents: seq<Content>, outcomes: seq<PublishOutcome>, i: nat,
                 before: seq<Event>, events: seq<Event>)
    requires Inputs(contents, outcomes) && i < MaxTweets
    requires SlotStep(hasClient, contents[i], outcomes[i]) == Next(events)
    ensures Resume(before, RunFrom(hasClient, contents, outcomes, i))
         == Resume(before + events, RunFrom(hasClient, contents, outcomes, i + 1))
  {
    var rest := RunFrom(hasClient, contents, outcomes, i + 1);
    assert before + (events + rest.trace) == (before + events) + rest.trace;
  }

  /** The events of a slot, appended one statement at a time, form the slot's event list. */
  lemma SlotTrace2(before: seq<Event>, a: Event, b: Event)
    ensures before + [a] + [b] == before + [a, b]
  {
  }

  lemma SlotTrace3(before: seq<Event>, a: Event, b: Event, c: Event)
    ensures before + [a] + [b] + [c] == before + [a, b, c]
  {
  }

  /** `post_tweets(client)`, with `hasClient` standing for the truthiness of `client`. */
  method PostTweets(hasClient: bool, contents: seq<Content>, outcomes: seq<PublishOutcome>)
    returns (trace: seq<Event>, escaped: bool)
    requires Inputs(contents, outcomes)
    ensures Run(trace, escaped) == RunFrom(hasClient, contents, outcomes, 0)
    ensures !hasClient ==> trace == [] && !escaped
    ensures Requests(trace) <= MaxTweets && |Published(trace)| <= MaxTweets
    ensures SleepTotal(trace) <= Window
  {
    RunBounds(hasClient, contents, outcomes, 0);
    trace, escaped := [], false;
    for i := 0 to MaxTweets
      invariant RunFrom(hasClient, contents, outcomes, 0) == Resume(trace, RunFrom(hasClient, contents, outcomes, i))
    {
      ghost var before := trace;
      if !hasClient {
        break;
      }
      var content := contents[i];
      trace := trace + [RequestContent];
      if content.Raised? {
        escaped := true;
        return;
      }
      if content.Truthy() {
        trace := trace + [Publish(content.text)];
        match outcomes[i]
        case Posted =>
        case TooManyRequests =>
          trace := trace + [Sleep(RateLimitPause)];
          SlotTrace3(before, RequestContent, Publish(content.text), Sleep(RateLimitPause));
          NextSlot(hasClient, contents, outcomes, i, before, [RequestContent, Publish(content.text), Sleep(RateLimitPause)]);
          continue;
        case OtherTweepyError =>
          trace := trace + [Sleep(ErrorPause)];
          SlotTrace3(before, RequestContent, Publish(content.text), Sleep(ErrorPause));
          NextSlot(hasClient, contents, outcomes, i, before, [RequestContent, Publish(content.text), Sleep(ErrorPause)]);
          continue;
      }
      trace := trace + [Sleep(Delay)];
      if content.Truthy() {
        SlotTrace3(before, RequestContent, Publish(content.text), Sleep(Delay));
        NextSlot(hasClient, contents, outcomes, i, before, [RequestContent, Publish(content.text), Sleep(Delay)]);
      } else {
        SlotTrace2(before, RequestContent, Sleep(Delay));
        NextSlot(hasClient, contents, outcomes, i, before, [RequestContent, Sleep(Delay)]);
      }
    }
  }

  // ---------------------------------------------------------------------
  // Properties of a batch
  // ---------------------------------------------------------------------

  /**
   * From slot i on, a batch asks for content at most once per slot,
   * publishes at most once per request, and sleeps at most the per-slot
   * delay per request, so a whole batch stays within its three-hour window.
   */
  lemma {:induction false} RunBounds(hasClient: bool, contents: seq<Content>, outcomes: seq<PublishOutcome>, i: nat)
    requires Inputs(contents, outcomes) && i <= MaxTweets
    ensures var t := RunFrom(hasClient, contents, outcomes, i).trace;
            && Requests(t) <= MaxTweets - i
            && |Published(t)| <= Requests(t)
            && Sleeps(t) <= Requests(t)
            && SleepTotal(t) <= Delay * Requests(t)
    decreases MaxTweets - i
  {
    if i < MaxTweets {
      match SlotStep(hasClient, contents[i], outcomes[i])
      case Stop(events, escaped) =>
        SlotMeasures(hasClient, contents[i], outcomes[i]);
      case Next(events) =>
        SlotMeasures(hasClient, contents[i], outcomes[i]);
        RunBounds(hasClient, contents, outcomes, i + 1);
        MeasuresAppend(events, RunFrom(hasClient, contents, outcomes, i + 1).trace);
    }
  }

  /** Without a client the loop breaks at the first slot: no request, no publish call, no sleep. */
  lemma NoClientNoActivity(contents: seq<Content>, outcomes: seq<PublishOutcome>)
    requires Inputs(contents, outcomes)
    ensures RunFrom(false, contents, outcomes, 0) == Run([], false)
  {
  }

  predicate NoneRaised(contents: seq<Content>, i: nat)
    requires i <= MaxTweets <= |contents|
  {
    forall j :: i <= j < MaxTweets ==> !contents[j].Raised?
  }

  /** The texts of the truthy contents of slots i, i + 1, ..., in slot order. */
  function TruthyTexts(contents: seq<Content>, i: nat): seq<string>
    requires i <= MaxTweets <= |contents|
    decreases MaxTweets - i
  {
    if i == MaxTweets then []
    else (if contents[i].Truthy() then [contents[i].text] else []) + TruthyTexts(contents, i + 1)
  }

  /**
   * A failed publish is not retried: with a client and no escaping
   * exception, every slot from i on asks for content exactly once whatever
   * the publish outcomes, and the publish calls carry exactly the truthy
   * contents, in slot order.
   */
  lemma {:induction false} EverySlotOnce(contents: seq<Content>, outcomes: seq<PublishOutcome>, i: nat)
    requires Inputs(contents, outcomes) && i <= MaxTweets
    requires NoneRaised(contents, i)
    ensures var r := RunFrom(true, contents, outcomes, i);
            && !r.escaped
            && Requests(r.trace) == MaxTweets - i
            && Sleeps(r.trace) == MaxTweets - i
            && Published(r.trace) == TruthyTexts(contents, i)
    decreases MaxTweets - i
  {
    if i < MaxTweets {
      var step := SlotStep(true, contents[i], outcomes[i]);
      assert step.Next?;
      SlotMeasures(true, contents[i], outcomes[i]);
      EverySlotOnce(contents, outcomes, i + 1);
      MeasuresAppend(step.events, RunFrom(true, contents, outcomes, i + 1).trace);
    }
  }

  /** A batch is cut short by an exception only when some slot's content request raised one. */
  lemma {:induction false} EscapeNeedsRaise(hasClient: bool, contents: seq<Content>, outcomes: seq<PublishOutcome>, i: nat)
    requires Inputs(contents, outcomes) && i <= MaxTweets
    ensures RunFrom(hasClient, contents, outcomes, i).escaped ==> exists j :: i <= j < MaxTweets && contents[j].Raised?
    decreases MaxTweets - i
  {
    if i < MaxTweets && !contents[i].Raised? {
      EscapeNeedsRaise(hasClient, contents, outcomes, i + 1);
    }
  }

  /**
   * When every slot has a tweet and every publish call is rate-limited, the
   * batch still moves through all eight slots: eight publish calls, each
   * followed by the 15-minute pause alone, and no per-slot delay.
   */
  lemma {:induction false} AllRateLimited(contents: seq<Content>, outcomes: seq<PublishOutcome>, i: nat)
    requires Inputs(contents, outcomes) && i <= MaxTweets
    requires forall j :: i <= j < MaxTweets ==> contents[j].Truthy() && outcomes[j] == TooManyRequests
    ensures var t := RunFrom(true, contents, outcomes, i).trace;
            && |Published(t)| == MaxTweets - i
            && SleepTotal(t) == RateLimitPause * (MaxTweets - i)
            && Sleep(Delay) !in t
    decreases MaxTweets - i
  {
    if i < MaxTweets {
      var events := [RequestContent, Publish(contents[i].text), Sleep(RateLimitPause)];
      assert SlotStep(true, contents[i], outcomes[i]) == Next(events);
      SlotMeasures(true, contents[i], outcomes[i]);
      var rest := RunFrom(true, contents, outcomes, i + 1).trace;
      assert RunFrom(true, contents, outcomes, i).trace == events + rest;
      AllRateLimited(contents, outcomes, i + 1);
      MeasuresAppend(events, rest);
      assert Sleep(Delay) !in events;
      assert RateLimitPause * (MaxTweets - i) == RateLimitPause + RateLimitPause * (MaxTweets - (i + 1));
    }
  }

  /** The contents a batch sees when each slot's request goes through the selector. */
  function SelectedContents(env: Env.Environ, draws: seq<Draw>): (contents: seq<Content>)
    ensures |contents| == |draws|
    ensures forall j :: 0 <= j < |draws| ==> contents[j] == GetTweetContent(env, draws[j])
  {
    seq(|draws|, j requires 0 <= j < |draws| => GetTweetContent(env, draws[j]))
  }

  /**
   * With the selector behind every slot, only a fact fetch whose service
   * failed with something other than a request error can abort a batch.
   */
  lemma EscapeOnlyFromFact(env: Env.Environ, draws: seq<Draw>, outcomes: seq<PublishOutcome>, hasClient: bool)
    requires Inputs(SelectedContents(env, draws), outcomes)
    requires RunFrom(hasClient, SelectedContents(env, draws), outcomes, 0).escaped
    ensures exists j ::
      0 <= j < MaxTweets && Dispatch(PyStr.Choice(Sources, draws[j].sourcePick)) == Fact && draws[j].fact.OtherError?
  {
    EscapeNeedsRaise(hasClient, SelectedContents(env, draws), outcomes, 0);
  }
}
