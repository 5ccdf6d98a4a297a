/** Worked examples of the sentiment analyser, each fact about a literal proved in a lemma
    of its own. */
module SentimentExamples {
  import opened Strings
  import opened Sentiment

  // "Why are you so angry?"

  lemma AngryLowered()
    ensures ToLower("Why are you so angry?") == "why are you so angry?"
  {
  }

  lemma AngryTrimmed()
    ensures Trim("why are you so angry?") == "why are you so angry?"
  {
    TrimFixed("why are you so angry?");
  }

  lemma AngryReplaced()
    ensures ReplaceNonWord("why are you so angry?") == "why are you so angry "
  {
  }

  lemma AngryCollapsed()
    ensures CollapseSpaces("why are you so angry ") == "why are you so angry "
  {
    AngryPlainSpaces();
    AngrySingleSpaces();
    CollapseIdentity("why are you so angry ");
  }

  lemma AngryPlainSpaces()
    ensures OnlyPlainSpaces("why are you so angry ")
  {
  }

  lemma AngrySingleSpaces()
    ensures NoDoubleSpace("why are you so angry ")
  {
    var s := "why are you so angry ";
    forall i | 0 <= i < |s| - 1
      ensures !(IsSpace(s[i]) && IsSpace(s[i + 1]))
    {
      NotTwoSpaces(s[i], s[i + 1]);
    }
  }

  /** A lower-case letter is not whitespace, so of a letter and a space, or two
      letters, at most one is. */
  lemma NotTwoSpaces(c: char, d: char)
    requires c == ' ' || 'a' <= c <= 'z'
    requires d == ' ' || 'a' <= d <= 'z'
    requires c != ' ' || d != ' '
    ensures !(IsSpace(c) && IsSpace(d))
  {
  }

  lemma AngrySanitized()
    ensures SanitizeText("Why are you so angry?") == "why are you so angry "
  {
    AngryLowered();
    AngryTrimmed();
    AngryReplaced();
    AngryCollapsed();
    SanitizeSteps("Why are you so angry?", "why are you so angry?", "why are you so angry ");
  }

  lemma AngryJoined()
    ensures Join(["why", "are", "you", "so", "angry", ""], " ") == "why are you so angry "
  {
    JoinCons("angry", [""], " ");
    JoinCons("so", ["angry", ""], " ");
    JoinCons("you", ["so", "angry", ""], " ");
    JoinCons("are", ["you", "so", "angry", ""], " ");
    JoinCons("why", ["are", "you", "so", "angry", ""], " ");
  }

  lemma AngryPiecesSpaceFree()
    ensures forall k :: 0 <= k < 6 ==> ' ' !in ["why", "are", "you", "so", "angry", ""][k]
  {
  }

  lemma AngryWords()
    ensures SplitSpaceRuns("why are you so angry ") == ["why", "are", "you", "so", "angry", ""]
    ensures Split("why are you so angry ", ' ') == ["why", "are", "you", "so", "angry", ""]
  {
    AngrySanitized();
    AngryJoined();
    AngryPiecesSpaceFree();
    WordsSteps("why are you so angry ", ["why", "are", "you", "so", "angry", ""]);
  }

  lemma WeightWhy() ensures WordWeight("why") == 0 {}
  lemma WeightAre() ensures WordWeight("are") == 0 {}
  lemma WeightYou() ensures WordWeight("you") == 0 {}
  lemma WeightSo() ensures WordWeight("so") == 0 {}
  lemma WeightAngry() ensures WordWeight("angry") == -4 {}
  lemma WeightEmpty() ensures WordWeight("") == 0 {}

  lemma AngrySum1()
    ensures LexiconSum(["why"]) == 0
  {
    WeightWhy();
    assert ["why"][..0] == [];
  }

  lemma AngrySum2()
    ensures LexiconSum(["why", "are"]) == 0
  {
    AngrySum1();
    WeightAre();
    assert ["why", "are"][..1] == ["why"];
  }

  lemma AngrySum3()
    ensures LexiconSum(["why", "are", "you"]) == 0
  {
    AngrySum2();
    WeightYou();
    assert ["why", "are", "you"][..2] == ["why", "are"];
  }

  lemma AngrySum4()
    ensures LexiconSum(["why", "are", "you", "so"]) == 0
  {
    AngrySum3();
    WeightSo();
    assert ["why", "are", "you", "so"][..3] == ["why", "are", "you"];
  }

  lemma AngrySum5()
    ensures LexiconSum(["why", "are", "you", "so", "angry"]) == -4
  {
    AngrySum4();
    WeightAngry();
    assert ["why", "are", "you", "so", "angry"][..4] == ["why", "are", "you", "so"];
  }

  lemma AngrySum()
    ensures LexiconSum(["why", "are", "you", "so", "angry", ""]) == -4
  {
    AngrySum5();
    WeightEmpty();
    assert ["why", "are", "you", "so", "angry", ""][..5] == ["why", "are", "you", "so", "angry"];
  }

  lemma AngryNotExcited()
    ensures forall k :: 0 <= k < |TriggerWords(Trigger.Excited)| ==>
              TriggerWords(Trigger.Excited)[k] !in ["why", "are", "you", "so", "angry", ""]
  {
  }

  lemma AngryNotExcitedFires()
    ensures !TriggerFires(Trigger.Excited, "why are you so angry ")
  {
    AngrySanitized();
    AngryWords();
    AngryNotExcited();
    TriggerFiresIffPiece(Trigger.Excited, "why are you so angry ");
  }

  lemma AngryFires()
    ensures TriggerFires(Trigger.Angry, "why are you so angry ")
  {
    AngrySanitized();
    AngryWords();
    TriggerFiresIffPiece(Trigger.Angry, "why are you so angry ");
    assert TriggerWords(Trigger.Angry)[0] == "angry";
  }

  lemma AngryTriggers()
    ensures CheckEdgeTriggers("why are you so angry ") == Some(Trigger.Angry)
  {
    AngryNotExcitedFires();
    AngryFires();
  }

  lemma AngryScore()
    ensures NormalizedScore(-4, 6) == -5.0 / 6.0
  {
  }

  lemma AngryOverride(state: State, emotion: Emotion)
    ensures Override(Some(Trigger.Angry), -5.0 / 6.0, state, emotion)
         == Analysis(-3.0, VeryNegative, Emotion.Angry, Some(Detail(-5.0 / 6.0, Some(Trigger.Angry))))
  {
  }

  /** "Why are you so angry?" sanitises to six pieces (the question mark leaves a trailing
      empty piece), the lexicon gives -4/24*5 = -5/6, and the angry trigger pulls the score
      to -3. */
  lemma AngryQuestionExample()
    ensures AnalysisOf("Why are you so angry?")
         == Analysis(-3.0, VeryNegative, Emotion.Angry, Some(Detail(-5.0 / 6.0, Some(Trigger.Angry))))
  {
    AngrySanitized();
    AngryWords();
    AngrySum();
    AngryTriggers();
    AngryScore();
    AnalysisSteps("Why are you so angry?", "why are you so angry ", ["why", "are", "you", "so", "angry", ""],
                  -5.0 / 6.0, Some(Trigger.Angry));
    AngryOverride(ScoreToState(-5.0 / 6.0), StateToEmotion(ScoreToState(-5.0 / 6.0), "Why are you so angry?"));
  }

  // "Got it"

  lemma GotItLowered()
    ensures ToLower("Got it") == "got it"
  {
  }

  lemma GotItReplaced()
    ensures ReplaceNonWord("got it") == "got it"
  {
  }

  lemma GotItCollapsed()
    ensures CollapseSpaces("got it") == "got it"
  {
    CollapseIdentity("got it");
  }

  lemma GotItSanitized()
    ensures SanitizeText("Got it") == "got it"
  {
    GotItLowered();
    TrimFixed("got it");
    GotItReplaced();
    GotItCollapsed();
    SanitizeSteps("Got it", "got it", "got it");
  }

  lemma GotItJoined()
    ensures Join(["got", "it"], " ") == "got it"
    ensures forall k :: 0 <= k < 2 ==> ' ' !in ["got", "it"][k]
  {
  }

  lemma GotItWords()
    ensures SplitSpaceRuns("got it") == ["got", "it"] && Split("got it", ' ') == ["got", "it"]
  {
    GotItSanitized();
    GotItJoined();
    WordsSteps("got it", ["got", "it"]);
  }

  lemma WeightGot() ensures WordWeight("got") == 0 {}
  lemma WeightIt() ensures WordWeight("it") == 0 {}

  lemma GotItSum1()
    ensures LexiconSum(["got"]) == 0
  {
    WeightGot();
    assert ["got"][..0] == [];
  }

  lemma GotItSum()
    ensures LexiconSum(["got", "it"]) == 0
  {
    GotItSum1();
    WeightIt();
    assert ["got", "it"][..1] == ["got"];
  }

  lemma GotItNoTriggerWord()
    ensures forall t, k :: 0 <= k < |TriggerWords(t)| ==> TriggerWords(t)[k] !in ["got", "it"]
  {
  }

  lemma GotItTriggers()
    ensures CheckEdgeTriggers("got it") == None
  {
    GotItSanitized();
    GotItWords();
    GotItNoTriggerWord();
    NoTriggerSteps("got it");
  }

  lemma GotItNoQuestionWord()
    ensures forall k :: 0 <= k < |QuestionWords| ==> !Contains("got it", QuestionWords[k])
  {
    forall k | 0 <= k < |QuestionWords|
      ensures !Contains("got it", QuestionWords[k])
    {
      QuestionWordInitial(k);
      GotItHasNoHOrW();
      NotContains("got it", QuestionWords[k], QuestionWords[k][0]);
    }
  }

  lemma QuestionWordInitial(k: nat)
    requires k < |QuestionWords|
    ensures |QuestionWords[k]| > 0 && (QuestionWords[k][0] == 'h' || QuestionWords[k][0] == 'w')
  {
  }

  lemma GotItHasNoHOrW()
    ensures 'h' !in "got it" && 'w' !in "got it"
  {
  }

  lemma GotItTrimmed()
    ensures Trim("Got it") == "Got it"
  {
    TrimFixed("Got it");
  }

  lemma GotItNotWhat()
    ensures !StartsWith(TrimStart("got it"), "what")
  {
    var g := "got it";
    assert !IsSpace(g[0]);
    assert TrimStart(g) == g;
    assert g[0] == 'g' && "what"[0] == 'w';
    FirstCharRulesOut(g, "what");
  }

  lemma GotItNotQuestion()
    ensures !LooksLikeQuestion("Got it")
  {
    NotContains("Got it", "?", '?');
    GotItTrimmed();
    GotItLowered();
    GotItNoQuestionWord();
    GotItNotWhat();
  }

  lemma GotItWaiting()
    ensures StateToEmotion(State.Neutral, "Got it") == Emotion.Waiting
  {
    GotItNotQuestion();
    GotItTrimmed();
    GotItLength();
    ShortTextIsAcknowledgement("Got it");
    AcknowledgementWaits("Got it");
  }

  lemma GotItLength()
    ensures Utf16Length("Got it") == 6
  {
    Utf16LengthBmp("Got it");
  }

  lemma GotItScore()
    ensures NormalizedScore(0, 2) == 0.0
  {
  }

  lemma NeutralOverride(e: Emotion)
    ensures ScoreToState(0.0) == State.Neutral
    ensures Override(None, 0.0, State.Neutral, e) == Analysis(0.0, State.Neutral, e, Some(Detail(0.0, None)))
  {
  }

  /** "Got it" has no lexicon word and no trigger, so it is neutral, and as a short
      acknowledgement its neutral variant is waiting. */
  lemma AcknowledgementExample()
    ensures AnalysisOf("Got it") == Analysis(0.0, State.Neutral, Emotion.Waiting, Some(Detail(0.0, None)))
  {
    GotItSanitized();
    GotItWords();
    GotItSum();
    GotItTriggers();
    GotItScore();
    AnalysisSteps("Got it", "got it", ["got", "it"], 0.0, None);
    GotItWaiting();
    NeutralOverride(Emotion.Waiting);
  }

  // "constructor"

  lemma ConstructorIdentity()
    ensures ToLower("constructor") == "constructor"
    ensures ReplaceNonWord("constructor") == "constructor"
  {
  }

  lemma ConstructorCollapsed()
    ensures CollapseSpaces("constructor") == "constructor"
  {
    CollapseIdentity("constructor");
  }

  lemma ConstructorSanitized()
    ensures SanitizeText("constructor") == "constructor"
  {
    ConstructorIdentity();
    ConstructorCollapsed();
    TrimFixed("constructor");
    SanitizeSteps("constructor", "constructor", "constructor");
  }

  lemma ConstructorJoined()
    ensures Join(["constructor"], " ") == "constructor"
    ensures forall k :: 0 <= k < 1 ==> ' ' !in ["constructor"][k]
  {
  }

  lemma ConstructorWords()
    ensures SplitSpaceRuns("constructor") == ["constructor"] && Split("constructor", ' ') == ["constructor"]
  {
    ConstructorSanitized();
    ConstructorJoined();
    WordsSteps("constructor", ["constructor"]);
  }

  lemma WeightConstructor() ensures WordWeight("constructor") == 0 {}

  lemma ConstructorSum()
    ensures LexiconSum(["constructor"]) == 0
    ensures LexiconSumAsWritten(["constructor"]) == NaN
  {
    WeightConstructor();
    assert ["constructor"][..0] == [];
  }

  lemma ConstructorNoTriggerWord()
    ensures forall t, k :: 0 <= k < |TriggerWords(t)| ==> TriggerWords(t)[k] !in ["constructor"]
  {
  }

  lemma ConstructorTriggers()
    ensures CheckEdgeTriggers("constructor") == None
  {
    ConstructorSanitized();
    ConstructorWords();
    ConstructorNoTriggerWord();
    NoTriggerSteps("constructor");
  }

  lemma ConstructorScore()
    ensures NormalizedScore(0, 1) == 0.0
  {
  }

  /** The message "constructor" scores NaN as written, while the own-key lookup scores it 0. */
  lemma ConstructorScoresNaN()
    ensures ScoreAsWritten("constructor") == NaN
    ensures AnalysisOf("constructor").score == 0.0
  {
    ConstructorSanitized();
    ConstructorWords();
    ConstructorSum();
    ConstructorTriggers();
    ConstructorScore();
    AnalysisSteps("constructor", "constructor", ["constructor"], 0.0, None);
    NeutralOverride(StateToEmotion(State.Neutral, "constructor"));
  }

  // "hm" and four U+1F600 grinning faces: 7 characters, 11 UTF-16 code units

  const HmGrins: string := "hm \U{1F600}\U{1F600}\U{1F600}\U{1F600}"

  lemma HmGrinsLength()
    ensures |HmGrins| == 7 && Utf16Length(HmGrins) == 11
  {
    assert HmGrins == "hm " + "\U{1F600}\U{1F600}\U{1F600}\U{1F600}";
    Utf16LengthAppend("hm ", "\U{1F600}\U{1F600}\U{1F600}\U{1F600}");
    Utf16LengthBmp("hm ");
  }

  lemma HmGrinsTrimmedLowered()
    ensures Trim(HmGrins) == HmGrins && ToLower(HmGrins) == HmGrins
  {
    HmGrinsTrimmed();
    HmGrinsLowered();
  }

  lemma HmGrinsTrimmed()
    ensures Trim(HmGrins) == HmGrins
  {
    TrimFixed(HmGrins);
  }

  lemma HmGrinsLowered()
    ensures ToLower(HmGrins) == HmGrins
  {
    assert IsLowered(HmGrins);
    LoweredIsFixed(HmGrins);
  }

  lemma HmGrinsNotQuestion()
    ensures !LooksLikeQuestion(HmGrins)
  {
    HmGrinsTrimmedLowered();
    NotContains(HmGrins, "?", '?');
    FirstCharRulesOut(HmGrins, "what");
    forall k | 0 <= k < |QuestionWords|
      ensures !Contains(HmGrins, QuestionWords[k])
    {
      if k == 0 {
        NotContains(HmGrins, QuestionWords[k], 'o');
      } else {
        NotContains(HmGrins, QuestionWords[k], 'w');
      }
    }
  }

  lemma HmGrinsNotAcknowledgement()
    ensures !LooksLikeAcknowledgement(HmGrins)
  {
    HmGrinsLength();
    HmGrinsTrimmedLowered();
    forall k | 0 <= k < |AcknowledgementStarts|
      ensures !StartsWith(HmGrins, AcknowledgementStarts[k])
    {
      FirstCharRulesOut(HmGrins, AcknowledgementStarts[k]);
    }
  }

  lemma HmGrinsNotEmphatic()
    ensures !LooksEmphatic(HmGrins)
  {
    assert UpperChar(HmGrins[0]) != HmGrins[0];
    NotContains(HmGrins, "!!", '!');
    NotContains(HmGrins, "...", '.');
  }

  /** Seven characters trim to fewer than ten, but the eleven code units that
      JavaScript counts do not: the text is neither a question, nor an
      acknowledgement, nor emphatic, so its neutral variant is plain neutral. */
  lemma HmGrinsNeutral()
    ensures |Trim(HmGrins)| < 10
    ensures DetectNeutralVariant(HmGrins) == Emotion.Neutral
  {
    HmGrinsLength();
    HmGrinsTrimmedLowered();
    HmGrinsNotQuestion();
    HmGrinsNotAcknowledgement();
    HmGrinsNotEmphatic();
  }
}
