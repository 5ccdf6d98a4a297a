/**
 * The chat page's message handler (src/scripts/chat-handler.js): analyse a
 * message's sentiment, switch the pug's video to the detected emotion, ask
 * the language model for a reply and fall back to canned replies keyed by
 * emotion when the model cannot be reached. The HTTP reply, the random
 * ratio and the measured times are inputs.
 */
module Chat {
  import opened Strings
  import Sentiment
  import Video

  /** The canned replies, four per emotion the table knows. */
  const MockResponses: map<string, seq<string>> := map[
    "positive" := [
      "I'm so glad you're enjoying this! \U{1F436}",
      "That makes me wag my tail!",
      "Great to hear! What else can I help with?",
      "Your positive vibes are contagious!"],
    "negative" := [
      "I'm here to help cheer you up. What's bothering you?",
      "That's no fun. How can I make it better?",
      "I understand you're upset. Let's work through this.",
      "Tell me more, I'm listening."],
    "excited" := [
      "WOW! I'm so excited too!",
      "That's amazing news!",
      "I'm over the moon about this!",
      "What an exciting development!"],
    "angry" := [
      "I see you're really upset. Let's calm down and talk.",
      "Strong emotions! I can feel your energy.",
      "Tell me what's making you so mad.",
      "I hear your frustration. I'm here to help."],
    "confused" := [
      "Hmm, I'm a bit puzzled too. Let's figure this out together.",
      "I'm not sure about that either. What's confusing you?",
      "Let's clear up this confusion!",
      "That's tricky... can you explain more?"],
    "bored" := [
      "Looking for some excitement? Let's liven things up!",
      "Boredom is my enemy! What interests you?",
      "Time for some fun! What's on your mind?",
      "Let's shake off that boredom - what do you want to talk about?"],
    "neutral" := [
      "How are you feeling today?",
      "What's on your mind?",
      "I'm here and listening.",
      "What would you like to chat about?"]]

  const NoReplyText: string := "Sorry, I couldn't generate a response."

  const TroubleText: string := "Sorry, I'm having trouble understanding that right now."

  const NoAnalyzerError: string := "Sentiment analyzer not available"

  /** What the handler needs of its reply table: a `neutral` entry to fall
      back on, and at least one reply under every key. */
  predicate WellFormedTable(table: map<string, seq<string>>) {
    "neutral" in table && forall key :: key in table ==> |table[key]| > 0
  }

  /** `mockResponses[emotion] || mockResponses.neutral`. */
  function RepliesFor(table: map<string, seq<string>>, e: Sentiment.Emotion): (replies: seq<string>)
    requires WellFormedTable(table)
    ensures |replies| > 0
  {
    var key := Sentiment.EmotionName(e);
    if key in table then table[key] else table["neutral"]
  }

  /** The table the handler is built with is well formed, with four replies
      under each key. */
  lemma MockResponsesWellFormed(e: Sentiment.Emotion)
    ensures WellFormedTable(MockResponses)
    ensures |RepliesFor(MockResponses, e)| == 4
  {
  }

  /** The fallback reply: `responses[Math.floor(Math.random() * responses.length)]`. */
  function FallbackReply(table: map<string, seq<string>>, e: Sentiment.Emotion, rnd: real): string
    requires WellFormedTable(table) && 0.0 <= rnd < 1.0
  {
    var replies := RepliesFor(table, e);
    replies[Video.RandomIndex(rnd, |replies|)]
  }

  /** The table covers seven of the ten emotions; curious, waiting and
      focused fall back to the neutral replies. */
  lemma FallbackKeys(e: Sentiment.Emotion)
    ensures WellFormedTable(MockResponses)
    ensures (Sentiment.EmotionName(e) in MockResponses) <==>
      !(e.Curious? || e.Waiting? || e.Focused?)
    ensures (e.Curious? || e.Waiting? || e.Focused?) ==>
      RepliesFor(MockResponses, e) == MockResponses["neutral"]
    ensures Sentiment.EmotionName(e) in MockResponses ==>
      RepliesFor(MockResponses, e) == MockResponses[Sentiment.EmotionName(e)]
  {
  }

  /** The fallback is always one of the emotion's replies, and each of the
      `n` replies is chosen for an `n`-th of the ratios: the one at `k` for
      every ratio in `[k/n, (k+1)/n)`. */
  lemma FallbackReplyChoice(table: map<string, seq<string>>, e: Sentiment.Emotion, rnd: real, k: nat)
    requires WellFormedTable(table) && 0.0 <= rnd < 1.0
    ensures FallbackReply(table, e, rnd) in RepliesFor(table, e)
    ensures var n := |RepliesFor(table, e)|;
      k < n && k as real / n as real <= rnd < (k + 1) as real / n as real ==>
      FallbackReply(table, e, rnd) == RepliesFor(table, e)[k]
  {
    var replies := RepliesFor(table, e);
    if k < |replies| {
      Video.RandomIndexBand(rnd, |replies|, k);
    }
  }

  /** What the model's HTTP round trip produced: nothing usable (a network
      error, a non-2xx status or a body that is not JSON), or a body whose
      `response` and `text` fields are given, `""` standing for a missing
      or empty one. */
  datatype ModelReply = Unreachable | Replied(response: string, text: string)

  /** `callOllamaAPI`: the body's `response`, else its `text`, else a fixed
      apology; the canned fallback when the call failed. */
  function GeneratedReply(reply: ModelReply, table: map<string, seq<string>>, e: Sentiment.Emotion, rnd: real): string
    requires WellFormedTable(table) && 0.0 <= rnd < 1.0
  {
    match reply
    case Unreachable => FallbackReply(table, e, rnd)
    case Replied(response, text) =>
      if response != "" then response else if text != "" then text else NoReplyText
  }

  /** The reply is taken from the model when it gave one, and comes from the
      canned table only when the model could not be reached. */
  lemma GeneratedReplySource(reply: ModelReply, table: map<string, seq<string>>, e: Sentiment.Emotion, rnd: real)
    requires WellFormedTable(table) && 0.0 <= rnd < 1.0
    ensures var g := GeneratedReply(reply, table, e, rnd);
      && (reply.Replied? && reply.response != "" ==> g == reply.response)
      && (reply.Replied? && reply.response == "" && reply.text != "" ==> g == reply.text)
      && (reply.Replied? && reply.response == "" && reply.text == "" ==> g == NoReplyText)
      && (reply.Unreachable? ==> g in RepliesFor(table, e))
  {
    FallbackReplyChoice(table, e, rnd, 0);
  }

  /** The handler's idea of the current sentiment: the initial
      `{ score: 0, emotion: 'neutral' }`, or the last analysis. */
  datatype SentimentView = Default | Analyzed(analysis: Sentiment.Analysis)

  function ScoreOf(v: SentimentView): real {
    match v
    case Default => 0.0
    case Analyzed(a) => a.score
  }

  function EmotionOf(v: SentimentView): string {
    match v
    case Default => "neutral"
    case Analyzed(a) => Sentiment.EmotionName(a.emotion)
  }

  /** What `handleMessage` resolves to: the reply with its sentiment and
      timing, or the apology with the error message. */
  datatype ChatResult =
    | Reply(message: string, sentiment: SentimentView, total: real, acceptable: bool)
    | Failure(message: string, sentiment: SentimentView, error: string)

  class ChatHandler {
    var hasAnalyzer: bool
    var videoController: Video.VideoController?
    var currentSentiment: SentimentView
    var mockResponses: map<string, seq<string>>

    /** The reply table is well formed, and the recorded score lies in the
        analyser's range [-5, 5]. */
    predicate Valid()
      reads this
    {
      WellFormedTable(mockResponses) && -5.0 <= ScoreOf(currentSentiment) <= 5.0
    }

    constructor()
      ensures Valid()
      ensures !hasAnalyzer && videoController == null && currentSentiment == Default
      ensures mockResponses == MockResponses
      ensures GetCurrentSentiment() == Default
    {
      hasAnalyzer := false;
      videoController := null;
      currentSentiment := Default;
      mockResponses := MockResponses;
    }

    /** `setDependencies`; the analyser is stateless, so only its presence
        is kept. */
    method SetDependencies(analyzer: bool, controller: Video.VideoController?)
      modifies this`hasAnalyzer, this`videoController
      ensures hasAnalyzer == analyzer && videoController == controller
    {
      hasAnalyzer := analyzer;
      videoController := controller;
    }

    /** `handleMessage`, with `reply` what the model's endpoint answered,
        `rndReply` and `rndVideo` the random ratios of the fallback reply
        and the clip choice, `videoMs` the time the switch to the clip took,
        and `totalMs` the time the whole call took. */
    method HandleMessage(message: string, reply: ModelReply, rndReply: real, rndVideo: real,
                         videoMs: real, totalMs: real) returns (r: ChatResult)
      requires Valid() && 0.0 <= rndReply < 1.0 && 0.0 <= rndVideo < 1.0
      requires videoController != null ==> videoController.Valid()
      modifies this`currentSentiment, videoController
      ensures Valid()
      ensures videoController != null ==> videoController.Valid()
      ensures !hasAnalyzer ==>
        r == Failure(TroubleText, Default, NoAnalyzerError)
        && currentSentiment == old(currentSentiment)
        && (videoController != null ==> unchanged(videoController))
      ensures hasAnalyzer ==>
        var a := Sentiment.AnalysisOf(message);
        currentSentiment == Analyzed(a) && GetCurrentSentiment() == Analyzed(a)
        && r == Reply(GeneratedReply(reply, mockResponses, a.emotion, rndReply), Analyzed(a),
                      totalMs, totalMs < 2000.0)
      ensures hasAnalyzer && videoController != null ==>
        var emotion := Sentiment.EmotionName(Sentiment.AnalysisOf(message).emotion);
        videoController.VoiceSwitched(emotion, 3000.0, rndVideo, videoMs, true)
        || videoController.VoiceSwitched(emotion, 3000.0, rndVideo, videoMs, false)
    {
      if !hasAnalyzer {
        return Failure(TroubleText, Default, NoAnalyzerError);
      }
      var sentiment := Sentiment.Analyze(message);
      ScoreInRange(message);
      // The clip is switched before the sentiment is recorded: the two
      // change different objects, so the order makes no difference.
      if videoController != null {
        var videoSwitched := videoController.SwitchToVideo(Sentiment.EmotionName(sentiment.emotion), rndVideo, videoMs);
      }
      currentSentiment := Analyzed(sentiment);
      var response := GeneratedReply(reply, mockResponses, sentiment.emotion, rndReply);
      r := Reply(response, Analyzed(sentiment), totalMs, totalMs < 2000.0);
    }

    /** `getCurrentSentiment`: the neutral default until a message has been
        analysed, then the last analysis, whose score is within [-5, 5]. */
    function GetCurrentSentiment(): (s: SentimentView)
      reads this
      requires Valid()
      ensures -5.0 <= ScoreOf(s) <= 5.0
      ensures s.Default? ==> EmotionOf(s) == "neutral" && ScoreOf(s) == 0.0
    {
      currentSentiment
    }
  }

  /** The part of the analyser's guarantees the handler's invariant needs. */
  lemma ScoreInRange(text: string)
    ensures -5.0 <= Sentiment.AnalysisOf(text).score <= 5.0
  {
    Sentiment.AnalysisWellFormed(text);
  }

  /** A reply is never empty when no reply in the table is: the model's text
      is used only when it is non-empty, and the apology is not empty. */
  lemma GeneratedReplyNonEmpty(reply: ModelReply, table: map<string, seq<string>>, e: Sentiment.Emotion, rnd: real)
    requires WellFormedTable(table) && 0.0 <= rnd < 1.0
    requires forall key, s :: key in table && s in table[key] ==> s != ""
    ensures GeneratedReply(reply, table, e, rnd) != ""
  {
    FallbackReplyChoice(table, e, rnd, 0);
  }

  /** No reply of the handler's own table is empty. */
  lemma MockRepliesNonEmpty()
    ensures forall key, s :: key in MockResponses && s in MockResponses[key] ==> s != ""
  {
  }
}
