# CyberPug Cafe: a Dafny model of the emotion core

CyberPug Cafe is a browser chat page with a pug barista. The pug's looping video,
its synthesised voice and its canned replies follow the emotional tone of what the
user types. This project models, in Dafny, the five browser scripts that hold the
logic of that page, and proves properties of the model:

- **Sentiment analyser** (`sentiment.dfy`, module `Sentiment`). It sanitises the
  text: lower-case, trim, punctuation to spaces, whitespace runs to one space. It
  sums fixed per-word lexicon weights over the `split(/\s+/)` pieces and divides by
  `max(4n, 5)`, then multiplies by 5. It clamps the score to [-5, 5] and maps it
  to one of seven states by fixed thresholds. It maps the state to an emotion; the
  neutral state is split into curious, waiting, focused or neutral by surface cues.
  Finally a whole-word edge trigger (excited, angry, confused, bored, tried in that
  order) may override score, state and emotion. Scores are `real`s: every step is
  a rational operation. `sentiment_examples.dfy` works through concrete messages.
- **Video controller** (`video.dfy`, module `Video`). It chooses a clip for an
  emotion from the ordered emotion map. It falls back to `neutral` for the
  curious/waiting/focused sub-emotions and to the first entry otherwise. It narrows
  by intensity level, avoids the three most recent files and picks at random. It
  keeps a most-recent-first history of at most five files. Around this sits the
  `voice-synced` / `neutral-cycling` sequence state machine with its list of pending
  timer handles. It is a class whose methods update `currentSequence`,
  `sequenceTimeouts`, `recentVideos` and `currentVideo`. A timer is an abstract
  handle with a fresh id; `Fire` runs the callback of a pending handle.
- **Voice controller** (`voice.dfy`, module `Voice`). It covers the Coqui and Web
  Speech profile tables and their spread-merge, the speech text cleaner, the
  occasional Japanese flourish, and the `speak` guards up to the hand-off to a
  speech back end. It also covers the enable/volume/queue state that `setVolume`,
  `stop`, `setEnabled` and `stopCurrentAudio` update.
- **MCP handler** (`mcp.dfy`, module `Mcp`). It drafts coding tasks for a tool
  server. It covers the substring and prefix classifiers (actionable, expected
  outcome, priority, complexity), the request-prefix stripping, the two
  file-reference regular expressions and their de-duplication, the plan/act gate,
  the task counter, the YAML frontmatter layout, and the 5-second throttle on the
  server health check.
- **Chat handler** (`chat.dfy`, module `Chat`). It runs one chat turn: analyse,
  switch the clip, and reply. When the language model cannot be reached, the reply
  comes from a per-emotion list of canned replies. With no analyser it returns an
  error result. It tracks `currentSentiment` and the 2000 ms acceptability flag.

`strings.dfy` (module `Strings`) holds the JavaScript string primitives used
throughout, over `seq<char>`. These are the `\s` and `\w` classes, ASCII case
mapping, `trim`, `replace(/\s+/g, ' ')`, `includes`, `startsWith`, `split` on one
character, `join`, and whole-word (`\b…\b`) occurrence. It also holds the
UTF-16 view of a string: its length in code units, its encoding, and the longest
prefix that fits in a number of code units.

Inputs the scripts take from the outside world are parameters of the model:
- `Math.random()` is a ratio in [0, 1).
- `Date.now()`, `performance.now()` differences and ISO timestamps are numbers or strings.
- The fetched emotion map, the model's HTTP reply and the health-check reply are datatypes.

Some behaviour of the scripts is easy to mistake, and the model keeps it as the
code has it:
- The analysis of a message uses that message alone
  (src/scripts/sentiment-analyzer.js:42-113): the lexicon sum, the edge triggers
  and the thresholds, with no keyword overrides, phrase or context layers, or
  history between calls.
- The return to neutral cycling is scheduled after exactly the voice duration
  (src/scripts/video-controller.js:131-134), with no extra buffer.
- Neutral cycling reschedules after 8000 + 4000·r ms, that is every 8–12 s
  (src/scripts/video-controller.js:162).
- "okay" weighs 1 in the positive lexicon (src/scripts/sentiment-analyzer.js:14),
  so "Okay" scores 1 and gets the emotion `positive`, not `waiting`.
- The word count behind the denominator is the length of `split(/\s+/)`
  (src/scripts/sentiment-analyzer.js:53), which includes the empty piece that
  trailing punctuation leaves. So "Why are you so angry?" has six pieces and a raw
  score of -5/6; the angry trigger then sets the score to -3.
- Lengths are JavaScript string lengths, counted in UTF-16 code units: a character
  outside the Basic Multilingual Plane counts 2 in the acknowledgement and
  emphasis tests (src/scripts/sentiment-analyzer.js:189, 194) and in the 200-unit
  cut of the speech text (src/scripts/voice-controller.js:395).

## Model

| member | source | states |
|---|---|---|
| `Strings.CollapseSpaces` | src/scripts/sentiment-analyzer.js:212 | the result uses only plain spaces, never two in a row, only characters of the input besides the space, is empty iff the input is, and starts with a space iff the input starts with whitespace; its relation to the input is stated by the four lemmas below |
| `Strings.CollapseWhitespaceRun` | src/scripts/sentiment-analyzer.js:212 | a non-empty run made only of whitespace collapses to exactly one space |
| `Strings.CollapseNonSpace` | src/scripts/sentiment-analyzer.js:212 | a single non-space character is kept as it is |
| `Strings.CollapseAppend` | src/scripts/sentiment-analyzer.js:212 | collapsing distributes over concatenation at any cut that does not fall inside a whitespace run: collapsing `s + t` is collapsing `s` followed by collapsing `t`, so order and every non-space character are kept |
| `Strings.CollapseAroundRun` | src/scripts/sentiment-analyzer.js:212 | a whitespace run between two non-space characters becomes exactly one space in place, with the text on each side collapsed on its own and kept in order |
| `Strings.UpperCasedIff` | src/scripts/sentiment-analyzer.js:194 | `text === text.toUpperCase()` holds iff no character changes under upper-casing |
| `Strings.WholeWordIffPiece` | src/scripts/sentiment-analyzer.js:27-32 | on text of word characters and single spaces, a word occurs between `\b` boundaries iff it is one of the pieces of splitting at spaces |
| `Strings.SplitLength` | src/scripts/mcp-handler.js:266 | `split(' ').length` is one more than the number of spaces |
| `Strings.Utf16LengthBmp` | src/scripts/sentiment-analyzer.js:189 | a string's `length` equals its number of characters iff every character lies in the Basic Multilingual Plane |
| `Strings.Encode` | src/scripts/voice-controller.js:392 | the UTF-16 encoding has `length` code units and never starts with a low surrogate |
| `Strings.PrefixWithinFits` | src/scripts/voice-controller.js:395 | the prefix kept within n code units fits in n, one more character would not fit, and a string that fits is kept whole |
| `Strings.PrefixWithinAstral` | src/scripts/voice-controller.js:395 | on text of characters outside the Basic Multilingual Plane, a 200-unit cut keeps 100 characters |
| `Sentiment.WordWeight` | src/scripts/sentiment-analyzer.js:55-64 | a word adds its positive weight, else its negative weight, else 0, and always lies in [-5, 4] |
| `Sentiment.LexiconSumBounds` | src/scripts/sentiment-analyzer.js:55-64 | the summed weights of n words lie in [-5n, 4n] |
| `Sentiment.Denominator` | src/scripts/sentiment-analyzer.js:67 | `max(4n, 5)` is at least 5 and at least 4n |
| `Sentiment.Clamp` | src/scripts/sentiment-analyzer.js:69 | the clamped score lies in [-5, 5] and equals the input when the input already does |
| `Sentiment.UpperClampInactive` | src/scripts/sentiment-analyzer.js:66-69 | with at most 4 per word, the normalised lexicon score never exceeds 5 |
| `Sentiment.LowerClampActs` | src/scripts/sentiment-analyzer.js:66-69 | the lower clamp is needed: "awful awful" normalises to -6.25 and is clamped to -5 |
| `Sentiment.ReplaceNonWord` | src/scripts/sentiment-analyzer.js:211 | every character outside `[\w\s]` becomes a space, every other character is kept |
| `Sentiment.SanitizeText` | src/scripts/sentiment-analyzer.js:207-213 | sanitised text holds only lower-case word characters and single plain spaces |
| `Sentiment.SplitSpaceRunsSingle` | src/scripts/sentiment-analyzer.js:53 | on sanitised text, `split(/\s+/)` is splitting at each space, so an empty piece appears at an end that had punctuation |
| `Sentiment.CheckEdgeTriggersFirstMatch` | src/scripts/sentiment-analyzer.js:126-133 | the trigger found matches, and no trigger tried before it (excited, angry, confused, bored) matches |
| `Sentiment.CheckEdgeTriggersNone` | src/scripts/sentiment-analyzer.js:126-133 | no trigger is found iff no trigger pattern matches |
| `Sentiment.TriggerFiresIffPiece` | src/scripts/sentiment-analyzer.js:27-32 | on sanitised text a trigger pattern matches iff one of its words is one of the text's pieces |
| `Sentiment.ScoreToStateMonotone` | src/scripts/sentiment-analyzer.js:140-148 | a higher score never gives a lower state |
| `Sentiment.ScoreToStateNeutral` | src/scripts/sentiment-analyzer.js:140-148 | the state is neutral iff the score lies in (-1, 1) |
| `Sentiment.NeutralVariantCases` | src/scripts/sentiment-analyzer.js:180-200 | the neutral variant is curious iff the text looks like a question; else waiting iff it looks like an acknowledgement (trimmed length under 10 UTF-16 code units, or an acknowledgement opening); else focused iff it looks emphatic (upper-cased and longer than 3 code units, or `!!`, or `...`); else neutral |
| `Sentiment.QuestionMarkIsCurious` | src/scripts/sentiment-analyzer.js:184 | any text ending in `?` is curious |
| `Sentiment.ShortTextIsAcknowledgement` | src/scripts/sentiment-analyzer.js:189-191 | any text whose trimmed length is under 10 UTF-16 code units passes the acknowledgement test, so as neutral text it is waiting unless it looks like a question |
| `Sentiment.StateToEmotionBySign` | src/scripts/sentiment-analyzer.js:156-173 | positive states give `positive`; very negative gives `angry` and nothing else does; the other two negative states give `negative` and nothing else does |
| `Sentiment.NeutralVariantsOnlyFromNeutral` | src/scripts/sentiment-analyzer.js:156-173 | curious/waiting/focused/neutral come from the neutral state and from no other |
| `Sentiment.OverrideOutcome` | src/scripts/sentiment-analyzer.js:79-102 | after the override the score stays in [-5, 5], the raw score and trigger are reported, and each trigger forces its fixed state, emotion and score range |
| `Sentiment.AnalysisWellFormed` | src/scripts/sentiment-analyzer.js:42-110 | every score lies in [-5, 5]; text sanitising to fewer than 2 characters gives exactly score 0, neutral, neutral; otherwise the raw score lies in [-5, 5], the trigger is the first matching one, and with no trigger the state is the thresholds' |
| `Sentiment.ScoreWords` | src/scripts/sentiment-analyzer.js:52-64 | the word loop accumulates exactly the lexicon sum |
| `Sentiment.Analyze` | src/scripts/sentiment-analyzer.js:42-113 | the imperative analysis (word loop, then the override switch) returns the specified analysis |
| `Sentiment.AsWrittenAgrees` | src/scripts/sentiment-analyzer.js:55-64 | when no word is an inherited object key, the as-written accumulation equals the own-key lexicon sum |
| `SentimentExamples.AngryQuestionExample` | src/scripts/sentiment-analyzer.js:45-110 | "Why are you so angry?" gives raw score -5/6, trigger angry, state very negative, emotion angry, score -3 |
| `SentimentExamples.AcknowledgementExample` | src/scripts/sentiment-analyzer.js:180-191 | "Got it" gives score 0, state neutral, emotion waiting, no trigger |
| `SentimentExamples.HmGrinsNeutral` | src/scripts/sentiment-analyzer.js:180-200 | "hm" and four U+1F600 trims to 7 characters but 11 code units, so it is not an acknowledgement and stays neutral |
| `SentimentExamples.ConstructorScoresNaN` | src/scripts/sentiment-analyzer.js:57-69 | the message "constructor" scores NaN as written, and 0 with own-key lookup |
| `Video.IntensityLevel` | src/scripts/video-controller.js:409-414 | `high` iff abs(score) ≥ 4, `medium` iff 2 ≤ abs(score) < 4, `low` iff abs(score) < 2 |
| `Video.IntensityLevelMagnitude` | src/scripts/video-controller.js:409-414 | the level depends on the magnitude only and never drops as it grows |
| `Video.RandomIndexBand` | src/scripts/video-controller.js:395 | `floor(random * n)` is below n, and index k is drawn exactly for ratios in [k/n, (k+1)/n) |
| `Video.Narrowed` | src/scripts/video-controller.js:371-383 | intensity narrowing keeps a subset of the emotion's clips and never empties a non-empty list |
| `Video.Candidates` | src/scripts/video-controller.js:385-392 | the anti-repetition filter leaves a non-empty subset of the narrowed clips |
| `Video.SelectNoVideoIff` | src/scripts/video-controller.js:354-369 | nothing is found iff the emotion map is empty |
| `Video.SelectIsEntry` | src/scripts/video-controller.js:354-401 | whatever is found is an entry of the map |
| `Video.SelectHonoursEmotion` | src/scripts/video-controller.js:356-401 | when some clip has the emotion, the result is a recorded pick with that emotion |
| `Video.SelectRedirectsOnce` | src/scripts/video-controller.js:360-369 | with no clip of its own, a sub-emotion is served exactly as `neutral`, other emotions get the first entry (or nothing), and `neutral` is not redirected again |
| `Video.SelectHonoursIntensity` | src/scripts/video-controller.js:371-383 | with intensity ≠ 0 and a clip of the emotion at that level, the pick has the emotion and the level |
| `Video.SelectAvoidsRecent` | src/scripts/video-controller.js:385-396 | the pick is not among the 3 most recent files unless every candidate is |
| `Video.TrackedShape` | src/scripts/video-controller.js:420-432 | after tracking, the history starts with the file, holds at most 5, and continues with the old history cut to 4 |
| `Video.TrackedBound` | src/scripts/video-controller.js:420-432 | the history stays within 5 files whatever is chosen |
| `Video.EmotionForScoreFollowsState` | src/scripts/video-controller.js:451-462 | the score ladder gives `positive` iff the sentiment state is positive, `neutral` iff it is neutral, `angry` iff score ≤ -3 |
| `Video.ConfiguredEmotion` | src/scripts/video-controller.js:464-468 | the ladder's emotion is kept iff the map has a clip of it (or it is `neutral`), else `neutral` |
| `Video.VideoController.constructor` | src/scripts/video-controller.js:4-16 | a new controller has no sequence, no timers, no history and no current video |
| `Video.VideoController.LoadEmotionMap` | src/scripts/video-controller.js:22-38 | the map is the fetched one, or empty when the fetch or parse failed |
| `Video.VideoController.MarkPreloaded` | src/scripts/video-controller.js:55-58 | a clip that can play through joins the preloaded set |
| `Video.VideoController.GetRecentVideos` | src/scripts/video-controller.js:439-444 | the result is the history's prefix of length min(count, length) |
| `Video.VideoController.TrackVideoUsage` | src/scripts/video-controller.js:420-432 | the history becomes the file followed by the old history, cut to 5 |
| `Video.VideoController.ClearCurrentSequence` | src/scripts/video-controller.js:339-345 | afterwards no timer is pending and there is no sequence |
| `Video.VideoController.FindVideoForEmotion` | src/scripts/video-controller.js:354-402 | returns the specified choice's file, and records it in the history only on the matched path |
| `Video.VideoController.PlayVideoWithLooping` | src/scripts/video-controller.js:183-222 | only a preloaded clip becomes current, and the result says whether it did |
| `Video.VideoController.SwitchToVideoForVoice` | src/scripts/video-controller.js:102-145 | clears first; with no usable file returns false with no sequence and no timers; otherwise exactly one fresh timer with the voice duration is pending, the sequence is voice-synced with the emotion, file and duration, the result says whether the switch took under 300 ms, and no previously pending handle survives |
| `Video.VideoController.StartNeutralCycling` | src/scripts/video-controller.js:150-176 | clears first; when a neutral or fallback clip exists, exactly one fresh timer with interval 8000 + 4000·r is pending and the sequence is neutral-cycling; no previously pending handle survives |
| `Video.VideoController.Fire` | src/scripts/video-controller.js:131-134 | a pending timer's callback restarts neutral cycling, and the fired handle is no longer pending |
| `Video.VideoController.SwitchToVideo` | src/scripts/video-controller.js:230-233 | the voice-synced switch with a 3000 ms duration |
| `Video.VideoController.SwitchBySentimentScore` | src/scripts/video-controller.js:451-471 | switches to the configured emotion for the score with a 3000 ms duration |
| `Voice.SpreadBaseWins` | src/scripts/voice-controller.js:373 | spreading a base that defines every key of the other object last gives the base back |
| `Voice.BaseProfileName` | src/scripts/voice-controller.js:358-367 | the base profile is `coding` iff the context is `coding` or coding mode is on, else `casual` |
| `Voice.VoiceProfilesKeys` | src/scripts/voice-controller.js:16-37 | every Coqui profile has exactly the keys `speed` and `emotion` |
| `Voice.WebSpeechProfilesKeys` | src/scripts/voice-controller.js:96-102 | every Web Speech profile has exactly the keys `pitch` and `rate` |
| `Voice.LookupIsBase` | src/scripts/voice-controller.js:369-382 | in a table whose profiles share their keys, the lookup always returns the base profile |
| `Voice.VoiceProfileIgnoresEmotion` | src/scripts/voice-controller.js:358-383 | for every emotion the Coqui profile is the base one: voice emotion `neutral`, speed 1.1 in coding context or mode, else 1.0 |
| `Voice.WebSpeechProfileIgnoresEmotion` | src/scripts/voice-controller.js:310-335 | for every emotion the Web Speech profile is the base one: pitch 0.9 in coding context or mode, else 1.2 |
| `Voice.RemoveEmoji` | src/scripts/voice-controller.js:392 | the result holds exactly the input's non-emoji characters |
| `Voice.PrepareTextForSpeechShape` | src/scripts/voice-controller.js:390-396 | cleaned text is at most 200 UTF-16 code units long, holds no listed emoji, has single plain spaces and no leading whitespace |
| `Voice.PrepareTextForSpeechEmpty` | src/scripts/voice-controller.js:390-396 | cleaned text is empty iff the input is only emoji and whitespace |
| `Voice.PrepareTextForSpeechFixed` | src/scripts/voice-controller.js:390-396 | already clean text of at most 200 UTF-16 code units is spoken unchanged |
| `Voice.AstralTextKeepsHundred` | src/scripts/voice-controller.js:390-396 | text made only of characters outside the Basic Multilingual Plane (and not listed emoji) is cut to its first 100 characters |
| `Voice.EmojiClassUnitsOfEmoji` | src/scripts/voice-controller.js:392 | the class written without the `u` flag holds exactly the code units of the eight emoji |
| `Voice.PrepareTextUnitsAsWritten` | src/scripts/voice-controller.js:390-396 | the code-unit pipeline as written gives at most 200 code units |
| `Voice.LoneSurrogateExample` | src/scripts/voice-controller.js:392 | as written, an unlisted emoji such as U+1F600 loses its high surrogate and leaves a lone low surrogate, which no string encodes to |
| `Voice.BothHalvesErased` | src/scripts/voice-controller.js:392 | as written, an unlisted character from U+1F000 to U+1F7FF whose low half is in the class is erased whole, though the whole-character cleaner keeps it and `Unspeakable` is false for it |
| `Voice.DominoTileErased` | src/scripts/voice-controller.js:392 | U+1F036 (D83C DC36) cleans to nothing as written and is kept by the whole-character cleaner |
| `Voice.OneCharacterKept` | src/scripts/voice-controller.js:390-396 | with whole-character deletion, one character that is neither a listed emoji nor whitespace is spoken unchanged |
| `Voice.AddCyberpunkFlair` | src/scripts/voice-controller.js:404-423 | the result is the text or the text + ". " + a term of the emotion's (else context's) list, and always the text when the emotion is `neutral` |
| `Voice.VoiceController.constructor` | src/scripts/voice-controller.js:5-13 | enabled, volume 0.8, no audio, not speaking, empty queue, and not available (no audio context yet) |
| `Voice.VoiceController.IsAvailable` | src/scripts/voice-controller.js:484-486 | availability needs the controller to be enabled; when it holds is stated where it changes: false after the constructor, after `Initialize` exactly when enabled before and the audio context was created, false after disabling |
| `Voice.VoiceController.Initialize` | src/scripts/voice-controller.js:46-80 | Coqui if its server answers, else Web Speech if the browser has it, else disabled; an audio-context failure disables; afterwards `isAvailable()` holds iff the controller was enabled and initialisation succeeded |
| `Voice.VoiceController.StartAudio` | src/scripts/voice-controller.js:224-225 | a Coqui reply plays at the controller's volume |
| `Voice.VoiceController.SetVolume` | src/scripts/voice-controller.js:462-467 | stores max(0, min(1, v)) and passes it to the playing audio |
| `Voice.VoiceController.StopCurrentAudio` | src/scripts/voice-controller.js:340-350 | no audio and not speaking afterwards |
| `Voice.VoiceController.Stop` | src/scripts/voice-controller.js:428-436 | empties the queue and silences the active back end |
| `Voice.VoiceController.SetEnabled` | src/scripts/voice-controller.js:473-478 | sets the flag; disabling runs `stop()`: it empties the queue, silences the active back end (drops the Coqui clip, clears the speaking flag unless no back end is chosen) and makes `isAvailable()` false; enabling changes nothing else |
| `Voice.VoiceController.Pause` | src/scripts/voice-controller.js:441-449 | a speaking Coqui clip is paused; in Web Speech mode the speech is cancelled and the controller stops speaking; nothing else changes |
| `Voice.VoiceController.Resume` | src/scripts/voice-controller.js:451-456 | a speaking Coqui clip plays again when `play()` succeeds; otherwise nothing changes |
| `Voice.VoiceController.Speak` | src/scripts/voice-controller.js:159-183 | declines iff disabled, the text cleans to nothing, or no back end is set; otherwise hands the cleaned and flourished text to the back end `initialize` chose |
| `Mcp.FollowedByContains` | src/scripts/mcp-handler.js:138 | a match of `a.*b` contains `a` |
| `Mcp.ImperativePatternsSubsumed` | src/scripts/mcp-handler.js:136-140 | the four `x.*y` imperative patterns each imply a coding keyword |
| `Mcp.FileReferencesSubsumed` | src/scripts/mcp-handler.js:126-133 | `file`, `.css`, `.html` and `.json` imply a keyword or `.js` |
| `Mcp.ExtensionsListed` | src/scripts/mcp-handler.js:126 | `.js`, `.py`, `.md`, `.txt` are listed extensions |
| `Mcp.ActionableSimplified` | src/scripts/mcp-handler.js:114-143 | a message is actionable iff it holds a coding keyword, `.js`, `.py`, `.md`, `.txt` or `config`, or starts with an imperative prefix |
| `Mcp.LeadingWordLength` | src/scripts/mcp-handler.js:179-184 | one `/^word\s+/i` replacement removes at most the whole text; what it removes is stated by `Mcp.LeadingWordRemoved` |
| `Mcp.LeadingSpaces` | src/scripts/mcp-handler.js:179-184 | the greedy `\s+` run: every character before the returned length is whitespace and the one at it, if any, is not |
| `Mcp.LeadingWordRemoved` | src/scripts/mcp-handler.js:179-184 | nothing is removed iff the text does not open with the word in some letter case followed by whitespace; otherwise exactly the word and the whole whitespace run after it go, up to the first non-space |
| `Mcp.StripsLeadingWord` | src/scripts/mcp-handler.js:179-184 | for every case variant `p` of a prefix, every non-empty whitespace run `ws` and every `rest` not opening with whitespace, stripping that prefix from `p + ws + rest` leaves exactly `rest` |
| `Mcp.NothingStrippedBy` | src/scripts/mcp-handler.js:178-184 | empty text, or text whose first letter starts none of the words, loses nothing |
| `Mcp.PleaseStripped` | src/scripts/mcp-handler.js:176-193 | `please` in any case plus its whitespace run is removed, and the rest, when it starts with none of the later prefixes' initials, is described as it stands: trimmed and capitalised |
| `Mcp.StrippedLength` | src/scripts/mcp-handler.js:178-184 | the six replacements in order remove at most the whole text |
| `Mcp.ExtractTaskDescriptionShape` | src/scripts/mcp-handler.js:176-193 | the description is a trimmed stretch of the message with its first letter upper-cased under ASCII case mapping, so never longer than the message |
| `Mcp.NothingStripped` | src/scripts/mcp-handler.js:178-185 | a message starting with none of the prefixes' initials keeps all its text |
| `Mcp.ExtractTaskDescriptionOrder` | src/scripts/mcp-handler.js:178-185 | each prefix is removed at most once, in order: after `do ` a `please` is kept |
| `Mcp.UnprefixedMessageKept` | src/scripts/mcp-handler.js:176-193 | an unprefixed message without outer whitespace is only capitalised |
| `Mcp.TaskTextOneLine` | src/scripts/mcp-handler.js:176-193 | a one-line message gives a one-line description |
| `Mcp.BugFixIsNotLowPriority` | src/scripts/mcp-handler.js:200-257 | a bug-fix outcome comes with medium or high priority, and `bug` means high |
| `Mcp.OutcomeImpliesActionable` | src/scripts/mcp-handler.js:200-217 | feature, change and creation outcomes, and `fix`, come from actionable messages |
| `Mcp.ComplexityBySpaces` | src/scripts/mcp-handler.js:264-276 | the word count is spaces + 1, so low complexity means fewer than 20 spaces and 50 spaces mean high |
| `Mcp.PathRun` | src/scripts/mcp-handler.js:227 | the greedy `[a-zA-Z0-9_\/]+` run is maximal |
| `Mcp.FileNameMatchAt` | src/scripts/mcp-handler.js:227 | a file-name match lies between two word boundaries and is a run of path characters, a dot and a listed extension |
| `Mcp.DirectoryMatchAt` | src/scripts/mcp-handler.js:228 | a directory match lies between two word boundaries and is a listed directory, a slash and a run of path characters |
| `Mcp.MatchAt` | src/scripts/mcp-handler.js:227-228 | a match of either pattern lies between two word boundaries and has that pattern's shape |
| `Mcp.Scan` | src/scripts/mcp-handler.js:231-236 | every match found is a slice of the message at which the pattern matches |
| `Mcp.Distinct` | src/scripts/mcp-handler.js:238 | `[...new Set(s)]` has no duplicates and the same elements |
| `Mcp.ExtractFileReferences` | src/scripts/mcp-handler.js:224-239 | the references are duplicate-free and are exactly the matches of the two patterns |
| `Mcp.FileReferencesFromMessage` | src/scripts/mcp-handler.js:224-239 | every reference is a file name or a directory path, cut from the message between two word boundaries |
| `McpExamples.SeeAppReferences` | src/scripts/mcp-handler.js:224-239 | "see src/app.js" gives the references `src/app.js` and `src/app`, in that order |
| `Mcp.FrontmatterLines` | src/scripts/mcp-handler.js:348-370 | the YAML parts are 20 lines, `---` first and eleventh, the nine keys in order between |
| `Mcp.FrontmatterDelimited` | src/scripts/mcp-handler.js:348-370 | with one-line values, the serialised text's line 1 and line 11 are `---` and lines 2–10 start with the nine keys |
| `Mcp.DraftIsOneLine` | src/scripts/mcp-handler.js:151-166 | a task drafted from one-line inputs has one-line frontmatter values |
| `Mcp.LineBreakShiftsFrontmatter` | src/scripts/mcp-handler.js:351 | a line break in the task text pushes the closing `---` to line 12 |
| `Mcp.EscapedFrontmatterDelimited` | src/scripts/mcp-handler.js:348-370 | with escaped values, every task's serialisation has `---` on lines 1 and 11 |
| `Mcp.StatusDescriptionsDiffer` | src/scripts/mcp-handler.js:494-505 | the four status descriptions are distinct |
| `Mcp.McpHandler.constructor` | src/scripts/mcp-handler.js:7-16 | plan mode, counter 0, status unknown, last check 0 |
| `Mcp.McpHandler.SetMode` | src/scripts/mcp-handler.js:57-70 | only `plan` and `act` are accepted; any other mode leaves the mode unchanged |
| `Mcp.McpHandler.CreateMcpTask` | src/scripts/mcp-handler.js:151-169 | the counter grows by exactly 1; the task copies the mode, carries the new counter in its id and the gates unit, lint, type, docs |
| `Mcp.McpHandler.ProcessMessageForMcp` | src/scripts/mcp-handler.js:88-107 | the counter grows by one iff the message is actionable, in either mode; a task is returned iff the message is actionable and the mode is act |
| `Mcp.McpHandler.CheckServerStatus` | src/scripts/mcp-handler.js:433-442 | within 5000 ms of the last check nothing changes and the answer is `status == connected`; otherwise the time is recorded and the status is `checking` |
| `Mcp.McpHandler.CompleteStatusCheck` | src/scripts/mcp-handler.js:444-470 | connected iff the reply is OK with `status: 'ok'` or `healthy: true`, else disconnected |
| `Chat.RepliesFor` | src/scripts/chat-handler.js:163 | the reply list for an emotion is never empty |
| `Chat.MockResponsesWellFormed` | src/scripts/chat-handler.js:10-53 | the table has a `neutral` entry and four replies under every emotion |
| `Chat.FallbackKeys` | src/scripts/chat-handler.js:163 | the table covers seven emotions; curious, waiting and focused fall back to the neutral replies |
| `Chat.FallbackReplyChoice` | src/scripts/chat-handler.js:163-165 | the fallback is one of the emotion's replies, each chosen for an n-th of the ratios |
| `Chat.GeneratedReplySource` | src/scripts/chat-handler.js:142-166 | the reply is the body's `response`, else its `text`, else the fixed apology; the canned list is used only when the call failed |
| `Chat.GeneratedReplyNonEmpty` | src/scripts/chat-handler.js:159-165 | the reply is never empty when no canned reply is |
| `Chat.MockRepliesNonEmpty` | src/scripts/chat-handler.js:10-53 | no canned reply is empty |
| `Chat.ChatHandler.constructor` | src/scripts/chat-handler.js:4-7 | before any message `getCurrentSentiment()` is the default `{score: 0, emotion: 'neutral'}` |
| `Chat.ChatHandler.SetDependencies` | src/scripts/chat-handler.js:64-67 | stores the analyser and the video controller |
| `Chat.ChatHandler.GetCurrentSentiment` | src/scripts/chat-handler.js:204-206 | the current sentiment's score lies in [-5, 5], and the default is score 0 with emotion `neutral`; with the constructor and `HandleMessage` rows: the default until a message is handled with an analyser, then that message's analysis |
| `Chat.ChatHandler.HandleMessage` | src/scripts/chat-handler.js:74-123 | with no analyser: the fixed apology, the default sentiment and the error, state unchanged; otherwise the current sentiment (and `getCurrentSentiment()`) is the message's analysis, the result carries it, the reply, the total time and `acceptable` iff total < 2000, whatever the clip switch returned |

## Left out

- DOM and media-element work is not modelled: `playVideo`, `playVideoWithSequence`,
  `load()`/`play()`, the CSS transition timer, `updateStatus`, `getStatus`, and the
  UI parts of the MCP handler (`updateModeDisplay`, `showTaskPreview`, the status
  indicator). src/scripts/main.js is not part of this model.
- Network and file I/O are inputs, not behaviour. This covers the emotion-map fetch
  (`LoadEmotionMap` takes its result), `callOllamaAPI`'s request (a `ModelReply`),
  the TTS health check (`Initialize` takes its result), `speakWithCoqui` and
  `speakWithWebSpeech` (`Speak` stops at the hand-off), the health request of
  `checkServerStatus` (`CompleteStatusCheck` takes its reply), `sendTaskToMCP`,
  `saveTaskToFile`, `logAction` and `callOpenAIAPI`.
- Preloading is only the set of clips that became playable (`MarkPreloaded`); the
  promises and their failures are not modelled.
- Timers are abstract pending handles. Real firing, the periodic health-check
  interval and async interleaving are not modelled. `Fire` models a callback run
  while its handle is pending.
- Clocks are inputs: the `switchTime < 300` latency check takes `elapsedMs`, the
  chat turn takes `totalMs`, task ids take `now`, and timestamps are given strings.
- Randomness is a caller-supplied ratio in [0, 1) for the clip pick, the cycling
  interval, the flourish chance and term, and the canned reply.
- Scores and durations are `real`s. JavaScript floating-point rounding (for example
  in `-5/6` or `8000 + r * 4000`) is not modelled.
- Case mapping covers ASCII letters only. The full Unicode behaviour of
  `toLowerCase`/`toUpperCase` is not modelled; it matters only for non-ASCII letters. One consequence: upper-casing can lengthen a string (`ß` becomes `SS`), so `Mcp.ExtractTaskDescriptionShape`'s "never longer than the message" holds only under the ASCII mapping.
- Voice.PrepareTextForSpeech: the emoji class deletes the eight listed emoji as whole
  characters, the intended behaviour (see Findings). The class as written, over
  surrogate halves, is modelled only by `PrepareTextUnitsAsWritten`.
- Voice.VoiceController.Speak: declines exactly when the text cleans to nothing under the
  whole-character emoji deletion, so it inherits the gap above. A text made only of an
  unlisted emoji whose two code units are both in the class as written (U+1F036, D83C DC36,
  whose low half is that of 🐶) cleans to nothing and is declined by the source, but is
  spoken by the model (`Voice.DominoTileErased`).
- Voice.PrepareTextForSpeech: the 200-unit cut stops before a surrogate pair that
  does not fit, where `substring(0, 200)` keeps a lone high surrogate. A Dafny string
  cannot hold a lone surrogate.
- Sentiment.ReplaceNonWord: a character outside the Basic Multilingual Plane
  becomes one space, where the source writes two (one per surrogate). The whitespace
  collapse that follows makes the sanitised text the same.
- Voice.AddCyberpunkFlair: the term table lookup uses own keys only. An emotion or
  context named like an inherited object property (for example `constructor`) is
  not modelled.
- Voice: `processQueue` is not modelled; it only logs
  (src/scripts/voice-controller.js:506-511).
- Voice.VoiceController.Resume: the audio element's `play()` promise is the `played`
  flag; the logged rejection is not modelled.
- Chat.ChatHandler.HandleMessage: the analyser is modelled as present or absent. It
  is the model's own analysis, so the handler's catch of an exception thrown by the
  analyser or the video controller is not modelled.
- The analyser's own `catch` branch is not modelled: no step of the model throws.
- `runBenchmarks` is not modelled. It is an accuracy harness whose expected values
  disagree with the code.
- src/scripts/sentiment-wavefront.js (3D terrain rendering) and the Python helpers
  (cleanup.py, tts_server.py, cline_bridge.py, test_bridge.py, setup_tts.py,
  script.py) are not part of this model. They are process, network, file and
  rendering plumbing.

## Findings

| source | as written | input that shows it | evidently intended | confidence | as-written member | corrected member |
|---|---|---|---|---|---|---|
| src/scripts/sentiment-analyzer.js:57-63 | `positive[word]` and `negative[word]` also find properties inherited from `Object.prototype`. Adding one to the numeric accumulator turns it into a string, and the division then makes the score NaN, outside [-5, 5] | the message "constructor" (or "__proto__") | look up own keys only, so an unknown word weighs 0 and the score stays in [-5, 5] | high for the input; not executed | `SentimentExamples.ConstructorScoresNaN` | `Sentiment.AnalysisWellFormed` |
| src/scripts/voice-controller.js:392 | the regular expression has no `u` flag, so its class holds code units: the high surrogates D83D and D83C and the low halves of the eight emoji. Every other emoji from U+1F000 to U+1F7FF whose low half is not listed loses its high surrogate and leaves a lone low surrogate in the spoken text | "😀" (U+1F600) | delete the eight listed emoji as whole characters and nothing else | high for the input; not executed | `Voice.LoneSurrogateExample` | `Voice.OneCharacterKept` |
| src/scripts/mcp-handler.js:351 | the task text goes into a double-quoted YAML scalar unescaped. A line break in it moves the closing `---` off line 11, so the frontmatter no longer holds the nine keys | a message such as "fix the header\nin main.js", with a line break in it | escape the values, so the frontmatter always spans lines 1 to 11 | medium: src/scripts/main.js:71-72 sends on Enter only without Shift, which suggests a multi-line input, but the page's markup is not part of this model; not executed | `Mcp.LineBreakShiftsFrontmatter` | `Mcp.EscapedFrontmatterDelimited` |
