/** The sentiment analyser of the chat page (src/scripts/sentiment-analyzer.js):
    sanitise the text, sum per-word lexicon weights, normalise by a
    length-dependent denominator, clamp to [-5, 5], map the score to a state and
    the state to an emotion, then let a whole-word edge trigger override both. */
module Sentiment {
  import opened Strings

  datatype State =
    | VeryPositive | Positive | SlightlyPositive
    | VeryNegative | Negative | SlightlyNegative
    | Neutral

  datatype Emotion =
    | Positive | Negative | Angry | Excited | Confused | Bored
    | Curious | Waiting | Focused | Neutral

  /** The edge-trigger patterns, in the order they are tried. */
  datatype Trigger = Excited | Angry | Confused | Bored

  /** The string the script uses for an emotion (what the video catalog and the
      fallback replies are keyed by). */
  function EmotionName(e: Emotion): string {
    match e
    case Positive => "positive"
    case Negative => "negative"
    case Angry => "angry"
    case Excited => "excited"
    case Confused => "confused"
    case Bored => "bored"
    case Curious => "curious"
    case Waiting => "waiting"
    case Focused => "focused"
    case Neutral => "neutral"
  }

  /** The `raw_score` and `trigger` fields, present unless the text was too short. */
  datatype Detail = Detail(rawScore: real, trigger: Option<Trigger>)

  datatype Analysis = Analysis(score: real, state: State, emotion: Emotion, detail: Option<Detail>)

  const PositiveWords: map<string, int> := map[
    "amazing" := 4, "awesome" := 4, "great" := 3, "good" := 3, "love" := 4, "excellent" := 4,
    "wonderful" := 4, "fantastic" := 4, "brilliant" := 4, "happy" := 3, "joy" := 3,
    "pleasure" := 3, "glad" := 3, "excited" := 4, "thrilled" := 4, "delighted" := 4,
    "nice" := 2, "fine" := 2, "okay" := 1, "thanks" := 2, "thank" := 2, "helpful" := 3]

  const NegativeWords: map<string, int> := map[
    "awful" := -5, "terrible" := -4, "horrible" := -4, "bad" := -3, "worst" := -4,
    "hate" := -4, "disappointed" := -3, "angry" := -4, "mad" := -4, "furious" := -4,
    "sad" := -3, "unhappy" := -3, "upset" := -3, "annoyed" := -2, "frustrated" := -3,
    "sucks" := -4, "disgusting" := -3, "dislike" := -2, "boring" := -2, "tired" := -1,
    "confused" := -2, "lost" := -2, "puzzled" := -2, "sleepy" := -1, "dull" := -2]

  /** The alternatives of each trigger's `\b(…)\b` pattern. */
  function TriggerWords(t: Trigger): seq<string> {
    match t
    case Excited => ["excited", "exciting", "amazing", "wow", "awesome", "surprised", "shocked"]
    case Angry => ["angry", "mad", "furious", "mad", "fuming", "rage", "pissed"]
    case Confused => ["confused", "puzzled", "bewildered", "lost", "clueless"]
    case Bored => ["bored", "boring", "tired", "dull", "sleepy"]
  }

  /** The weight a word adds: its positive entry if it has one, else its negative entry, else 0. */
  function WordWeight(w: string): (r: int)
    ensures -5 <= r <= 4
  {
    if w in PositiveWords then PositiveWords[w]
    else if w in NegativeWords then NegativeWords[w]
    else 0
  }

  /** The lexicon score of a word list, summed left to right. */
  function LexiconSum(words: seq<string>): int
    decreases |words|
  {
    if |words| == 0 then 0 else LexiconSum(words[..|words| - 1]) + WordWeight(words[|words| - 1])
  }

  lemma {:induction false} LexiconSumBounds(words: seq<string>)
    ensures -5 * |words| <= LexiconSum(words) <= 4 * |words|
    decreases |words|
  {
    if |words| > 0 {
      LexiconSumBounds(words[..|words| - 1]);
    }
  }

  function Max(a: real, b: real): real { if a >= b then a else b }
  function Min(a: real, b: real): real { if a <= b then a else b }

  /** `Math.max(-5, Math.min(5, x))`. */
  function Clamp(x: real): (r: real)
    ensures -5.0 <= r <= 5.0
    ensures -5.0 <= x <= 5.0 ==> r == x
  {
    Max(-5.0, Min(5.0, x))
  }

  /** `Math.max(n * 4, 5)`. */
  function Denominator(n: nat): (d: nat)
    ensures d >= 5 && d >= 4 * n
  {
    if 4 * n >= 5 then 4 * n else 5
  }

  /** `(score / maxPossibleScore) * 5`, before clamping. */
  function Unclamped(sum: int, n: nat): real {
    sum as real / Denominator(n) as real * 5.0
  }

  function NormalizedScore(sum: int, n: nat): real {
    Clamp(Unclamped(sum, n))
  }

  /** A lexicon sum never exceeds 4 per word, so the upper clamp at 5 never acts. */
  lemma UpperClampInactive(words: seq<string>)
    ensures Unclamped(LexiconSum(words), |words|) <= 5.0
  {
    LexiconSumBounds(words);
    AtMostOne(LexiconSum(words) as real, Denominator(|words|) as real);
  }

  lemma AtMostOne(s: real, d: real)
    requires 0.0 < d && s <= d
    ensures s / d * 5.0 <= 5.0
  {
    var q := s / d;
    assert q * d == s;
  }

  /** The lower clamp does act: two copies of "awful" sum to -10 over a denominator of 8. */
  lemma LowerClampActs()
    ensures Unclamped(LexiconSum(["awful", "awful"]), 2) == -6.25
    ensures NormalizedScore(LexiconSum(["awful", "awful"]), 2) == -5.0
  {
    AwfulSum();
  }

  lemma AwfulWeight()
    ensures WordWeight("awful") == -5
  {
    assert "awful" !in PositiveWords;
  }

  lemma AwfulSum()
    ensures LexiconSum(["awful", "awful"]) == -10
  {
    AwfulWeight();
    assert ["awful", "awful"][..1] == ["awful"];
    assert LexiconSum(["awful"]) == -5 by {
      assert ["awful"][..0] == [];
    }
  }

  /** No ASCII capital letter. */
  predicate IsLowered(s: string) {
    forall i :: 0 <= i < |s| ==> !('A' <= s[i] <= 'Z')
  }

  /** Word characters and whitespace only. */
  predicate WordsOrSpaces(s: string) {
    forall i :: 0 <= i < |s| ==> IsWordChar(s[i]) || IsSpace(s[i])
  }

  lemma LoweredToLower(s: string)
    ensures IsLowered(ToLower(s))
  {
  }

  lemma LoweredSlice(s: string, i: nat, j: nat)
    requires IsLowered(s) && i <= j <= |s|
    ensures IsLowered(s[i..j])
  {
    assert forall k :: 0 <= k < j - i ==> s[i..j][k] == s[i + k];
  }

  lemma LoweredTrim(s: string)
    requires IsLowered(s)
    ensures IsLowered(Trim(s))
  {
    var a := TrimStart(s);
    LoweredSlice(s, |s| - |a|, |s|);
    var b := TrimEnd(a);
    LoweredSlice(a, 0, |b|);
  }

  lemma LoweredIsFixed(s: string)
    requires IsLowered(s)
    ensures ToLower(s) == s
  {
  }

  /** Characters `[^\w\s]` become spaces. */
  function ReplaceNonWord(s: string): (r: string)
    ensures |r| == |s| && WordsOrSpaces(r)
    ensures forall i :: 0 <= i < |s| ==> r[i] == (if IsWordChar(s[i]) || IsSpace(s[i]) then s[i] else ' ')
    ensures IsLowered(s) ==> IsLowered(r)
  {
    seq(|s|, i requires 0 <= i < |s| => if IsWordChar(s[i]) || IsSpace(s[i]) then s[i] else ' ')
  }

  lemma CollapsedShape(s: string)
    requires WordsOrSpaces(s) && IsLowered(s)
    ensures WordsAndSpaces(CollapseSpaces(s)) && IsLowered(CollapseSpaces(s))
  {
    var r := CollapseSpaces(s);
    forall i | 0 <= i < |r| ensures (IsWordChar(r[i]) || r[i] == ' ') && !('A' <= r[i] <= 'Z') {
      assert r[i] in r;
      if r[i] != ' ' {
        assert r[i] in s;
        var j :| 0 <= j < |s| && s[j] == r[i];
      }
    }
  }

  /** `text.toLowerCase().trim().replace(/[^\w\s]/g, ' ').replace(/\s+/g, ' ')`: the result
      holds only lower-case word characters and single plain spaces. */
  function SanitizeText(text: string): (r: string)
    ensures WordsAndSpaces(r) && NoDoubleSpace(r) && IsLowered(r)
  {
    var lowered := ToLower(text);
    LoweredToLower(text);
    LoweredTrim(lowered);
    var replaced := ReplaceNonWord(Trim(lowered));
    CollapsedShape(replaced);
    CollapseSpaces(replaced)
  }

  /** The index of the first whitespace character. */
  function FirstSpace(s: string): (k: nat)
    requires exists i :: 0 <= i < |s| && IsSpace(s[i])
    ensures k < |s| && IsSpace(s[k]) && forall i :: 0 <= i < k ==> !IsSpace(s[i])
  {
    if IsSpace(s[0]) then 0 else 1 + FirstSpace(s[1..])
  }

  /** `s.split(/\s+/)`: the pieces between maximal whitespace runs. */
  function SplitSpaceRuns(s: string): (parts: seq<string>)
    ensures |parts| >= 1
    decreases |s|
  {
    if exists i :: 0 <= i < |s| && IsSpace(s[i]) then
      var k := FirstSpace(s);
      [s[..k]] + SplitSpaceRuns(TrimStart(s[k..]))
    else [s]
  }

  /** On single-spaced text, splitting at whitespace runs is splitting at each space. */
  lemma {:induction false} SplitSpaceRunsSingle(s: string)
    requires OnlyPlainSpaces(s) && NoDoubleSpace(s)
    ensures SplitSpaceRuns(s) == Split(s, ' ')
    decreases |s|
  {
    if exists i :: 0 <= i < |s| && IsSpace(s[i]) {
      var k := FirstSpace(s);
      SingleSpacedRest(s, k);
      SplitSpaceRunsSingle(s[k + 1..]);
      SplitSpaceRunsStep(s);
    } else {
      NoSpaceOnePiece(s);
    }
  }

  /** One step of `SplitSpaceRunsSingle`, given that the text after the first
      space already splits the same both ways. */
  lemma SplitSpaceRunsStep(s: string)
    requires OnlyPlainSpaces(s) && NoDoubleSpace(s)
    requires exists i :: 0 <= i < |s| && IsSpace(s[i])
    requires SplitSpaceRuns(s[FirstSpace(s) + 1..]) == Split(s[FirstSpace(s) + 1..], ' ')
    ensures SplitSpaceRuns(s) == Split(s, ' ')
  {
    RunsStep(s);
    SplitStep(s);
  }

  lemma NoSpaceOnePiece(s: string)
    requires !exists i :: 0 <= i < |s| && IsSpace(s[i])
    ensures SplitSpaceRuns(s) == [s] == Split(s, ' ')
  {
  }

  lemma RunsStep(s: string)
    requires NoDoubleSpace(s)
    requires exists i :: 0 <= i < |s| && IsSpace(s[i])
    ensures SplitSpaceRuns(s) == [s[..FirstSpace(s)]] + SplitSpaceRuns(s[FirstSpace(s) + 1..])
  {
    TrimAfterSpace(s, FirstSpace(s));
  }

  lemma SplitStep(s: string)
    requires OnlyPlainSpaces(s)
    requires exists i :: 0 <= i < |s| && IsSpace(s[i])
    ensures Split(s, ' ') == [s[..FirstSpace(s)]] + Split(s[FirstSpace(s) + 1..], ' ')
  {
    FirstSpaceIsIndexOf(s);
  }

  lemma FirstSpaceIsIndexOf(s: string)
    requires OnlyPlainSpaces(s)
    requires exists i :: 0 <= i < |s| && IsSpace(s[i])
    ensures ' ' in s && FirstSpace(s) == IndexOf(s, ' ')
  {
    var k := FirstSpace(s);
    assert s[k] == ' ';
    var j := IndexOf(s, ' ');
  }

  lemma TrimAfterSpace(s: string, k: nat)
    requires NoDoubleSpace(s) && k < |s| && IsSpace(s[k])
    ensures TrimStart(s[k..]) == s[k + 1..]
  {
    assert s[k..][0] == s[k];
    assert s[k..][1..] == s[k + 1..];
    if k + 1 < |s| {
      assert !IsSpace(s[k + 1]);
      assert s[k + 1..][0] == s[k + 1];
    }
  }

  lemma SingleSpacedRest(s: string, k: nat)
    requires OnlyPlainSpaces(s) && NoDoubleSpace(s) && k < |s|
    ensures OnlyPlainSpaces(s[k + 1..]) && NoDoubleSpace(s[k + 1..])
  {
    var rest := s[k + 1..];
    assert forall i :: 0 <= i < |rest| ==> rest[i] == s[k + 1 + i];
  }

  /** `pattern.test(text)` for a trigger's case-insensitive `\b(…)\b` pattern. */
  predicate TriggerFires(t: Trigger, text: string) {
    exists k :: 0 <= k < |TriggerWords(t)| && ContainsWholeWord(ToLower(text), TriggerWords(t)[k])
  }

  /** The first of four flags that is set, in the order excited, angry, confused, bored. */
  function FirstFiring(e: bool, a: bool, c: bool, b: bool): Option<Trigger> {
    if e then Some(Trigger.Excited)
    else if a then Some(Trigger.Angry)
    else if c then Some(Trigger.Confused)
    else if b then Some(Trigger.Bored)
    else None
  }

  function Flag(t: Trigger, e: bool, a: bool, c: bool, b: bool): bool {
    match t
    case Excited => e
    case Angry => a
    case Confused => c
    case Bored => b
  }

  function TriggerRank(t: Trigger): nat {
    match t
    case Excited => 0
    case Angry => 1
    case Confused => 2
    case Bored => 3
  }

  lemma FirstFiringSpec(e: bool, a: bool, c: bool, b: bool, t: Trigger)
    ensures FirstFiring(e, a, c, b) == Some(t) <==>
              (Flag(t, e, a, c, b) && forall u :: TriggerRank(u) < TriggerRank(t) ==> !Flag(u, e, a, c, b))
  {
    if Flag(t, e, a, c, b) && forall u :: TriggerRank(u) < TriggerRank(t) ==> !Flag(u, e, a, c, b) {
      if TriggerRank(t) > 0 { assert !Flag(Trigger.Excited, e, a, c, b); }
      if TriggerRank(t) > 1 { assert !Flag(Trigger.Angry, e, a, c, b); }
      if TriggerRank(t) > 2 { assert !Flag(Trigger.Confused, e, a, c, b); }
    }
  }

  /** `checkEdgeTriggers`: the first pattern that matches, in the order excited, angry,
      confused, bored. */
  function CheckEdgeTriggers(text: string): Option<Trigger> {
    FirstFiring(TriggerFires(Trigger.Excited, text), TriggerFires(Trigger.Angry, text),
                TriggerFires(Trigger.Confused, text), TriggerFires(Trigger.Bored, text))
  }

  lemma FlagIsFires(u: Trigger, text: string)
    ensures Flag(u, TriggerFires(Trigger.Excited, text), TriggerFires(Trigger.Angry, text),
                 TriggerFires(Trigger.Confused, text), TriggerFires(Trigger.Bored, text)) == TriggerFires(u, text)
  {
  }

  /** The trigger found is one whose pattern matches, and no pattern tried before it matches. */
  lemma CheckEdgeTriggersFirstMatch(text: string, t: Trigger)
    ensures CheckEdgeTriggers(text) == Some(t) <==>
              (TriggerFires(t, text) && forall u :: TriggerRank(u) < TriggerRank(t) ==> !TriggerFires(u, text))
  {
    var e, a, c, b := TriggerFires(Trigger.Excited, text), TriggerFires(Trigger.Angry, text),
                      TriggerFires(Trigger.Confused, text), TriggerFires(Trigger.Bored, text);
    FirstFiringSpec(e, a, c, b, t);
    forall u ensures Flag(u, e, a, c, b) == TriggerFires(u, text) {
      FlagIsFires(u, text);
    }
  }

  /** No trigger is found exactly when no pattern matches. */
  lemma CheckEdgeTriggersNone(text: string)
    ensures CheckEdgeTriggers(text) == None <==> forall t :: !TriggerFires(t, text)
  {
    if CheckEdgeTriggers(text) == None {
      forall t ensures !TriggerFires(t, text) {
        FlagIsFires(t, text);
      }
    }
  }

  /** On sanitised text a trigger fires exactly when one of its words is one of the
      text's split pieces: the regular expression needs no more than token equality. */
  lemma TriggerFiresIffPiece(t: Trigger, clean: string)
    requires WordsAndSpaces(clean) && IsLowered(clean)
    ensures TriggerFires(t, clean) <==> exists k :: 0 <= k < |TriggerWords(t)| && TriggerWords(t)[k] in Split(clean, ' ')
  {
    LoweredIsFixed(clean);
    forall k | 0 <= k < |TriggerWords(t)|
      ensures ContainsWholeWord(ToLower(clean), TriggerWords(t)[k]) <==> TriggerWords(t)[k] in Split(clean, ' ')
    {
      TriggerWordIsWord(t, k);
      WholeWordIffPiece(clean, TriggerWords(t)[k]);
    }
  }

  lemma TriggerWordIsWord(t: Trigger, k: nat)
    requires k < |TriggerWords(t)|
    ensures IsWord(TriggerWords(t)[k])
  {
    match t
    case Excited => ExcitedWordsAreWords();
    case Angry => AngryWordsAreWords();
    case Confused => ConfusedWordsAreWords();
    case Bored => BoredWordsAreWords();
  }

  lemma ExcitedWordsAreWords()
    ensures forall k :: 0 <= k < |TriggerWords(Trigger.Excited)| ==> IsWord(TriggerWords(Trigger.Excited)[k])
  {
  }

  lemma AngryWordsAreWords()
    ensures forall k :: 0 <= k < |TriggerWords(Trigger.Angry)| ==> IsWord(TriggerWords(Trigger.Angry)[k])
  {
  }

  lemma ConfusedWordsAreWords()
    ensures forall k :: 0 <= k < |TriggerWords(Trigger.Confused)| ==> IsWord(TriggerWords(Trigger.Confused)[k])
  {
  }

  lemma BoredWordsAreWords()
    ensures forall k :: 0 <= k < |TriggerWords(Trigger.Bored)| ==> IsWord(TriggerWords(Trigger.Bored)[k])
  {
  }

  /** `scoreToState`. */
  function ScoreToState(score: real): State {
    if score >= 4.0 then VeryPositive
    else if score >= 2.0 then State.Positive
    else if score >= 1.0 then SlightlyPositive
    else if score <= -4.0 then VeryNegative
    else if score <= -2.0 then State.Negative
    else if score <= -1.0 then SlightlyNegative
    else State.Neutral
  }

  /** The states from most negative to most positive. */
  function StateRank(s: State): int {
    match s
    case VeryNegative => -3
    case Negative => -2
    case SlightlyNegative => -1
    case Neutral => 0
    case SlightlyPositive => 1
    case Positive => 2
    case VeryPositive => 3
  }

  /** A higher score never gives a lower state. */
  lemma ScoreToStateMonotone(a: real, b: real)
    requires a <= b
    ensures StateRank(ScoreToState(a)) <= StateRank(ScoreToState(b))
  {
  }

  /** The state is neutral exactly on the open interval (-1, 1). */
  lemma ScoreToStateNeutral(score: real)
    ensures ScoreToState(score) == State.Neutral <==> -1.0 < score < 1.0
  {
  }

  const QuestionWords: seq<string> := ["how", "why", "when", "where", "who", "which"]

  const AcknowledgementStarts: seq<string> :=
    ["ok", "okay", "yes", "yeah", "sure", "alright", "got", "it", "understand", "thank", "thanks", "thank you"]

  /** `text.includes('?') || /^\s*what|how|why|when|where|who|which/i.test(text.trim())`:
      the alternation is not grouped, so only "what" is anchored at the start and the other
      question words count anywhere in the text. */
  predicate LooksLikeQuestion(text: string) {
    var t := ToLower(Trim(text));
    Contains(text, "?")
    || StartsWith(TrimStart(t), "what")
    || ContainsAny(t, QuestionWords)
  }

  /** `text.trim().length < 10 || /^\s*(ok|okay|…|thanks?|thank you)/i.test(text.trim())`,
      the length counted in UTF-16 code units as JavaScript does. */
  predicate LooksLikeAcknowledgement(text: string) {
    var t := ToLower(Trim(text));
    Utf16Length(Trim(text)) < 10 || StartsWithAny(TrimStart(t), AcknowledgementStarts)
  }

  /** `text === text.toUpperCase() && text.length > 3 || /!{2,}|\.{3,}/.test(text)`, the
      first test stated character by character (see `UpperCasedIff`) and the
      length counted in UTF-16 code units. */
  predicate LooksEmphatic(text: string) {
    (IsUpperCased(text) && Utf16Length(text) > 3) || Contains(text, "!!") || Contains(text, "...")
  }

  /** `detectNeutralVariant`: curious, then waiting, then focused, else neutral. */
  function DetectNeutralVariant(text: string): Emotion {
    if |text| == 0 then Emotion.Neutral
    else if LooksLikeQuestion(text) then Emotion.Curious
    else if LooksLikeAcknowledgement(text) then Emotion.Waiting
    else if LooksEmphatic(text) then Emotion.Focused
    else Emotion.Neutral
  }

  /** The neutral variant is one of four, and the tests take precedence in
      the order question, acknowledgement, emphasis. */
  lemma NeutralVariantCases(text: string)
    ensures var e := DetectNeutralVariant(text);
      && e in {Emotion.Curious, Emotion.Waiting, Emotion.Focused, Emotion.Neutral}
      && (e == Emotion.Curious <==> |text| > 0 && LooksLikeQuestion(text))
      && (e == Emotion.Waiting <==> |text| > 0 && !LooksLikeQuestion(text) && LooksLikeAcknowledgement(text))
      && (e == Emotion.Focused <==>
            |text| > 0 && !LooksLikeQuestion(text) && !LooksLikeAcknowledgement(text) && LooksEmphatic(text))
  {
  }

  /** A question mark anywhere makes neutral text curious, whatever else it says. */
  lemma QuestionMarkIsCurious(text: string)
    ensures DetectNeutralVariant(text + "?") == Emotion.Curious
  {
    ContainsWitness(text + "?", "?", |text|);
  }

  /** `stateToEmotion`. */
  function StateToEmotion(state: State, rawText: string): (e: Emotion)
    ensures state == State.Neutral ==> e == DetectNeutralVariant(rawText)
  {
    match state
    case VeryPositive => Emotion.Positive
    case Positive => Emotion.Positive
    case SlightlyPositive => Emotion.Positive
    case VeryNegative => Emotion.Angry
    case Negative => Emotion.Negative
    case SlightlyNegative => Emotion.Negative
    case Neutral => DetectNeutralVariant(rawText)
  }

  /** Text that trims to fewer than ten code units passes the acknowledgement
      test whatever it says; by `NeutralVariantCases` such neutral text is
      waiting unless it looks like a question. */
  lemma ShortTextIsAcknowledgement(text: string)
    requires Utf16Length(Trim(text)) < 10
    ensures LooksLikeAcknowledgement(text)
  {
  }

  /** The waiting step of the cascade: a non-empty text that is no question
      but an acknowledgement is waiting. */
  lemma AcknowledgementWaits(text: string)
    requires |text| > 0 && !LooksLikeQuestion(text) && LooksLikeAcknowledgement(text)
    ensures DetectNeutralVariant(text) == Emotion.Waiting
  {
  }

  /** The emotion follows the state's sign: every positive state gives
      `positive`, the very negative state `angry`, the other negative states
      `negative`. */
  lemma StateToEmotionBySign(state: State, rawText: string)
    ensures StateRank(state) > 0 ==> StateToEmotion(state, rawText) == Emotion.Positive
    ensures StateRank(state) == -3 <==> StateToEmotion(state, rawText) == Emotion.Angry
    ensures StateRank(state) in {-2, -1} <==> StateToEmotion(state, rawText) == Emotion.Negative
  {
    NeutralVariantRange(rawText);
  }

  lemma NeutralVariantRange(text: string)
    ensures DetectNeutralVariant(text) in {Emotion.Curious, Emotion.Waiting, Emotion.Focused, Emotion.Neutral}
  {
  }

  /** Only the neutral state yields one of the four neutral variants, and it yields nothing else. */
  lemma NeutralVariantsOnlyFromNeutral(state: State, rawText: string)
    ensures (StateToEmotion(state, rawText) in {Emotion.Curious, Emotion.Waiting, Emotion.Focused, Emotion.Neutral})
            <==> state == State.Neutral
  {
    NeutralVariantRange(rawText);
  }

  /** The trigger override of `analyze`. */
  function Override(edge: Option<Trigger>, score: real, state: State, emotion: Emotion): Analysis {
    match edge
    case None => Analysis(score, state, emotion, Some(Detail(score, None)))
    case Some(Excited) => Analysis(Max(3.0, score), VeryPositive, Emotion.Excited, Some(Detail(score, edge)))
    case Some(Angry) => Analysis(Min(-3.0, score), VeryNegative, Emotion.Angry, Some(Detail(score, edge)))
    case Some(Confused) =>
      Analysis(Max(-2.0, Min(0.0, score)), State.Negative, Emotion.Confused, Some(Detail(score, edge)))
    case Some(Bored) =>
      Analysis(Max(-1.0, Min(0.0, score)), State.Neutral, Emotion.Bored, Some(Detail(score, edge)))
  }

  /** What `analyze(text)` returns. */
  function AnalysisOf(text: string): Analysis {
    var clean := SanitizeText(text);
    if |clean| < 2 then Analysis(0.0, State.Neutral, Emotion.Neutral, None)
    else
      var words := SplitSpaceRuns(clean);
      var score := NormalizedScore(LexiconSum(words), |words|);
      var state := ScoreToState(score);
      Override(CheckEdgeTriggers(clean), score, state, StateToEmotion(state, text))
  }

  /** The outcome a detailed analysis must have: the trigger's fixed state and emotion with
      a score pulled into the trigger's range, or, with no trigger, the raw score and the
      state the thresholds give. */
  predicate TriggerOutcome(r: Analysis, text: string)
    requires r.detail.Some?
  {
    var raw := r.detail.value.rawScore;
    match r.detail.value.trigger
    case None => r.score == raw && r.state == ScoreToState(raw) && r.emotion == StateToEmotion(r.state, text)
    case Some(Excited) => r.score >= 3.0 && r.state == VeryPositive && r.emotion == Emotion.Excited
    case Some(Angry) => r.score <= -3.0 && r.state == VeryNegative && r.emotion == Emotion.Angry
    case Some(Confused) => -2.0 <= r.score <= 0.0 && r.state == State.Negative && r.emotion == Emotion.Confused
    case Some(Bored) => -1.0 <= r.score <= 0.0 && r.state == State.Neutral && r.emotion == Emotion.Bored
  }

  lemma OverrideOutcome(edge: Option<Trigger>, score: real, text: string)
    requires -5.0 <= score <= 5.0
    ensures var r := Override(edge, score, ScoreToState(score), StateToEmotion(ScoreToState(score), text));
      && -5.0 <= r.score <= 5.0
      && r.detail == Some(Detail(score, edge))
      && TriggerOutcome(r, text)
  {
  }

  /** Every analysis has a score in [-5, 5]; a text that sanitises to fewer than two
      characters gets the bare neutral result; otherwise the raw score is in [-5, 5], the
      trigger reported is what `checkEdgeTriggers` found, and the outcome is that trigger's
      or, with none, the thresholds'. */
  lemma AnalysisWellFormed(text: string)
    ensures -5.0 <= AnalysisOf(text).score <= 5.0
    ensures |SanitizeText(text)| < 2 <==> AnalysisOf(text).detail.None?
    ensures AnalysisOf(text).detail.None? ==> AnalysisOf(text) == Analysis(0.0, State.Neutral, Emotion.Neutral, None)
    ensures AnalysisOf(text).detail.Some? ==>
              && -5.0 <= AnalysisOf(text).detail.value.rawScore <= 5.0
              && AnalysisOf(text).detail.value.trigger == CheckEdgeTriggers(SanitizeText(text))
              && TriggerOutcome(AnalysisOf(text), text)
  {
    var clean := SanitizeText(text);
    if |clean| >= 2 {
      var words := SplitSpaceRuns(clean);
      var score := NormalizedScore(LexiconSum(words), |words|);
      assert AnalysisOf(text) == Override(CheckEdgeTriggers(clean), score, ScoreToState(score), StateToEmotion(ScoreToState(score), text));
      OverrideOutcome(CheckEdgeTriggers(clean), score, text);
    }
  }

  /** The word-by-word loop of `analyze`: add up the lexicon weights. */
  method ScoreWords(words: seq<string>) returns (sum: int)
    ensures sum == LexiconSum(words)
  {
    sum := 0;
    var i := 0;
    while i < |words|
      invariant 0 <= i <= |words|
      invariant sum == LexiconSum(words[..i])
    {
      assert words[..i + 1][..i] == words[..i];
      sum := sum + WordWeight(words[i]);
      i := i + 1;
    }
    assert words[..i] == words;
  }

  /** `analyze(text)`: the word loop accumulates the lexicon score, then the locals are
      reassigned by the trigger switch. */
  method Analyze(text: string) returns (r: Analysis)
    ensures r == AnalysisOf(text)
  {
    var cleanText := SanitizeText(text);
    if |cleanText| < 2 {
      return Analysis(0.0, State.Neutral, Emotion.Neutral, None);
    }
    var words := SplitSpaceRuns(cleanText);
    var sum := ScoreWords(words);
    var score := NormalizedScore(sum, |words|);
    var edgeState := CheckEdgeTriggers(cleanText);
    var finalScore := score;
    var state := ScoreToState(score);
    var emotion := StateToEmotion(state, text);
    match edgeState {
      case None =>
      case Some(Excited) =>
        finalScore := Max(3.0, score);
        state := VeryPositive;
        emotion := Emotion.Excited;
      case Some(Angry) =>
        finalScore := Min(-3.0, score);
        state := VeryNegative;
        emotion := Emotion.Angry;
      case Some(Confused) =>
        finalScore := Max(-2.0, Min(0.0, score));
        state := State.Negative;
        emotion := Emotion.Confused;
      case Some(Bored) =>
        finalScore := Max(-1.0, Min(0.0, score));
        state := State.Neutral;
        emotion := Emotion.Bored;
    }
    r := Analysis(finalScore, state, emotion, Some(Detail(score, edgeState)));
    assert r == Override(edgeState, score, ScoreToState(score), StateToEmotion(ScoreToState(score), text));
    AnalysisSteps(text, cleanText, words, score, edgeState);
  }

  lemma PlainSpaces(s: string)
    requires WordsAndSpaces(s)
    ensures OnlyPlainSpaces(s)
  {
  }

  lemma SanitizeSteps(text: string, lowered: string, replaced: string)
    requires ToLower(text) == lowered && Trim(lowered) == lowered
    requires ReplaceNonWord(lowered) == replaced && CollapseSpaces(replaced) == replaced
    ensures SanitizeText(text) == replaced
  {
  }

  lemma WordsSteps(clean: string, words: seq<string>)
    requires WordsAndSpaces(clean) && NoDoubleSpace(clean)
    requires |words| >= 1 && forall k :: 0 <= k < |words| ==> ' ' !in words[k]
    requires Join(words, " ") == clean
    ensures SplitSpaceRuns(clean) == words && Split(clean, ' ') == words
  {
    PlainSpaces(clean);
    SplitJoin(words, ' ');
    SplitSpaceRunsSingle(clean);
  }

  /** `AnalysisOf` unfolded once the sanitised text, its pieces and their score are known. */
  lemma AnalysisSteps(text: string, clean: string, words: seq<string>, score: real, edge: Option<Trigger>)
    requires SanitizeText(text) == clean && |clean| >= 2
    requires SplitSpaceRuns(clean) == words
    requires NormalizedScore(LexiconSum(words), |words|) == score
    requires CheckEdgeTriggers(clean) == edge
    ensures AnalysisOf(text) == Override(edge, score, ScoreToState(score), StateToEmotion(ScoreToState(score), text))
  {
  }

  /** No trigger fires on sanitised text none of whose pieces is a trigger word. */
  lemma NoTriggerSteps(clean: string)
    requires WordsAndSpaces(clean) && IsLowered(clean)
    requires forall t, k :: 0 <= k < |TriggerWords(t)| ==> TriggerWords(t)[k] !in Split(clean, ' ')
    ensures CheckEdgeTriggers(clean) == None
  {
    forall t ensures !TriggerFires(t, clean) {
      TriggerFiresIffPiece(t, clean);
    }
  }

  /** A JavaScript number as the as-written accumulation leaves it. */
  datatype JsNumber = Finite(value: real) | NaN

  /** The lower-case keys every object literal inherits from `Object.prototype` that a
      sanitised word can spell. */
  const InheritedKeys: set<string> := {"constructor", "__proto__"}

  /** The word loop as written: `positive[word]` also finds inherited properties, whose
      values are truthy non-numbers; adding one turns the accumulator into a string, and the
      division that follows makes the score NaN. */
  function LexiconSumAsWritten(words: seq<string>): JsNumber
    decreases |words|
  {
    if |words| == 0 then Finite(0.0)
    else
      match LexiconSumAsWritten(words[..|words| - 1])
      case NaN => NaN
      case Finite(v) =>
        var w := words[|words| - 1];
        if w in InheritedKeys then NaN else Finite(v + WordWeight(w) as real)
  }

  /** The score `analyze` returns as written. */
  function ScoreAsWritten(text: string): JsNumber {
    var clean := SanitizeText(text);
    if |clean| < 2 then Finite(0.0)
    else match LexiconSumAsWritten(SplitSpaceRuns(clean))
      case NaN => NaN
      case Finite(_) => Finite(AnalysisOf(text).score)
  }

  /** Without inherited keys the as-written sum is the own-key lexicon sum. */
  lemma {:induction false} AsWrittenAgrees(words: seq<string>)
    requires forall k :: 0 <= k < |words| ==> words[k] !in InheritedKeys
    ensures LexiconSumAsWritten(words) == Finite(LexiconSum(words) as real)
    decreases |words|
  {
    if |words| > 0 {
      AsWrittenAgrees(words[..|words| - 1]);
    }
  }
}
