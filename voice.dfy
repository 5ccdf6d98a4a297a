/**
 * The voice half of the pug: which speech parameters go with an emotion,
 * how a reply is cleaned before it is spoken, the occasional Japanese
 * flourish, and the enable/volume/queue state of the voice controller.
 * Speech synthesis itself (the TTS server request, Web Speech utterances,
 * audio playback events) is not modelled; `speak` is modelled up to the
 * point where it hands the final text to one of the two back ends.
 */
module Voice {
  import opened Strings

  /** A property value of a profile object. */
  datatype Value = Num(n: real) | Text(s: string)

  /** A profile object, as its own enumerable properties. */
  type Profile = map<string, Value>

  /** The Coqui XTTS profiles set up by the constructor. */
  const VoiceProfiles: map<string, Profile> := map[
    "casual" := map["speed" := Num(1.0), "emotion" := Text("neutral")],
    "coding" := map["speed" := Num(1.1), "emotion" := Text("neutral")],
    "excited" := map["speed" := Num(1.2), "emotion" := Text("excited")],
    "confused" := map["speed" := Num(0.9), "emotion" := Text("confused")],
    "angry" := map["speed" := Num(0.95), "emotion" := Text("angry")]
  ]

  /** The Web Speech profiles set up by `initializeWebSpeech`. */
  const WebSpeechProfiles: map<string, Profile> := map[
    "casual" := map["pitch" := Num(1.2), "rate" := Num(0.9)],
    "coding" := map["pitch" := Num(0.9), "rate" := Num(1.0)],
    "excited" := map["pitch" := Num(1.4), "rate" := Num(1.1)],
    "confused" := map["pitch" := Num(1.1), "rate" := Num(0.8)],
    "angry" := map["pitch" := Num(0.8), "rate" := Num(0.9)]
  ]

  /** The `sentiment` argument: its `emotion` and `context` fields, with the
      empty string standing for a missing (or otherwise falsy) field. */
  datatype Mood = Mood(emotion: string, context: string)

  /** `{ ...over, ...base }`: a later spread overwrites the earlier keys. */
  function Spread(over: Profile, base: Profile): Profile {
    over + base
  }

  /** When the base defines every key of the other object, spreading the
      base last gives the base back. */
  lemma SpreadBaseWins(over: Profile, base: Profile)
    requires over.Keys <= base.Keys
    ensures Spread(over, base) == base
  {
    assert Spread(over, base).Keys == base.Keys;
  }

  /** `sentiment.emotion || 'neutral'`. */
  function EmotionOf(mood: Mood): string {
    if mood.emotion == "" then "neutral" else mood.emotion
  }

  /** The base profile: `coding` for a coding context or coding mode. */
  function BaseProfileName(mood: Mood, codingMode: bool): (name: string)
    ensures name == "coding" <==> mood.context == "coding" || codingMode
    ensures name == "casual" <==> !(mood.context == "coding" || codingMode)
  {
    var context := if mood.context == "" then "general" else mood.context;
    if context == "coding" || codingMode then "coding" else "casual"
  }

  /** The emotion-specific profile a `switch` case spreads first, if any. */
  function EmotionProfileName(emotion: string): Option<string> {
    if emotion == "excited" || emotion == "happy" then Some("excited")
    else if emotion == "confused" || emotion == "scared" then Some("confused")
    else if emotion == "angry" || emotion == "sad" then Some("angry")
    else None
  }

  /** `getVoiceProfile` and, on the other table, `getWebSpeechProfile`. */
  function LookupProfile(table: map<string, Profile>, mood: Mood, codingMode: bool): Profile
    requires "casual" in table && "coding" in table
    requires "excited" in table && "confused" in table && "angry" in table
  {
    var base := table[BaseProfileName(mood, codingMode)];
    match EmotionProfileName(EmotionOf(mood))
    case Some(name) => Spread(table[name], base)
    case None => base
  }

  /** Every profile of a table has exactly the given keys. */
  predicate ProfilesOver(table: map<string, Profile>, keys: set<string>) {
    forall name :: name in table ==> table[name].Keys == keys
  }

  lemma VoiceProfilesKeys()
    ensures ProfilesOver(VoiceProfiles, {"speed", "emotion"})
  {
    assert VoiceProfiles.Keys == {"casual", "coding", "excited", "confused", "angry"};
  }

  lemma WebSpeechProfilesKeys()
    ensures ProfilesOver(WebSpeechProfiles, {"pitch", "rate"})
  {
    assert WebSpeechProfiles.Keys == {"casual", "coding", "excited", "confused", "angry"};
  }

  /** In a table whose profiles share their keys, the emotion part of the
      lookup is overwritten: the result is always the base profile. */
  lemma LookupIsBase(table: map<string, Profile>, keys: set<string>, mood: Mood, codingMode: bool)
    requires "casual" in table && "coding" in table
    requires "excited" in table && "confused" in table && "angry" in table
    requires ProfilesOver(table, keys)
    ensures LookupProfile(table, mood, codingMode) == table[BaseProfileName(mood, codingMode)]
  {
    var base := table[BaseProfileName(mood, codingMode)];
    match EmotionProfileName(EmotionOf(mood))
    case Some(name) => SpreadBaseWins(table[name], base);
    case None =>
  }

  /** `getVoiceProfile`. */
  function GetVoiceProfile(mood: Mood, codingMode: bool): Profile {
    LookupProfile(VoiceProfiles, mood, codingMode)
  }

  /** `getWebSpeechProfile`. */
  function GetWebSpeechProfile(mood: Mood, codingMode: bool): Profile {
    LookupProfile(WebSpeechProfiles, mood, codingMode)
  }

  /** Whatever the emotion, the Coqui request gets the base profile's
      `speed` and `emotion`: `coding` (1.1) in a coding context or mode,
      `casual` (1.0) otherwise, and always the `neutral` voice emotion. */
  lemma VoiceProfileIgnoresEmotion(mood: Mood, codingMode: bool)
    ensures GetVoiceProfile(mood, codingMode) == VoiceProfiles[BaseProfileName(mood, codingMode)]
    ensures GetVoiceProfile(mood, codingMode)["emotion"] == Text("neutral")
    ensures GetVoiceProfile(mood, codingMode)["speed"]
      == if mood.context == "coding" || codingMode then Num(1.1) else Num(1.0)
  {
    VoiceProfilesKeys();
    LookupIsBase(VoiceProfiles, {"speed", "emotion"}, mood, codingMode);
  }

  /** The same for the Web Speech `pitch` and `rate`. */
  lemma WebSpeechProfileIgnoresEmotion(mood: Mood, codingMode: bool)
    ensures GetWebSpeechProfile(mood, codingMode) == WebSpeechProfiles[BaseProfileName(mood, codingMode)]
    ensures GetWebSpeechProfile(mood, codingMode)["pitch"]
      == if mood.context == "coding" || codingMode then Num(0.9) else Num(1.2)
  {
    WebSpeechProfilesKeys();
    LookupIsBase(WebSpeechProfiles, {"pitch", "rate"}, mood, codingMode);
  }

  /** The emoji the speech cleaner strips. */
  const Emoji: set<char> := {'\U{1F436}', '\U{1F389}', '\U{1F4BB}', '\U{26A1}',
                             '\U{1F3AE}', '\U{1F525}', '\U{1F31F}', '\U{1F4A1}'}

  /** `.replace(/[…]/g, '')` with the emoji class. */
  function RemoveEmoji(s: string): (r: string)
    ensures forall c :: c in r <==> c in s && c !in Emoji
    ensures (forall c :: c in s ==> c !in Emoji) ==> r == s
  {
    if s == [] then []
    else (if s[0] in Emoji then [] else [s[0]]) + RemoveEmoji(s[1..])
  }

  /** `prepareTextForSpeech`, deleting the eight emoji as whole characters
      (see `LoneSurrogateExample`) and cutting at 200 UTF-16 code units. */
  function PrepareTextForSpeech(text: string): string {
    PrefixWithin(Trim(CollapseSpaces(RemoveEmoji(text))), 200)
  }

  /** The cleaned text fits in 200 code units (JavaScript `length`), holds none
      of the emoji, separates words by single plain spaces and does not start
      with one. */
  lemma PrepareTextForSpeechShape(text: string)
    ensures var r := PrepareTextForSpeech(text);
      Utf16Length(r) <= 200 && (forall c :: c in r ==> c !in Emoji)
      && NoDoubleSpace(r) && OnlyPlainSpaces(r) && (|r| > 0 ==> !IsSpace(r[0]))
  {
    var collapsed := CollapseSpaces(RemoveEmoji(text));
    var a, b := TrimIsSlice(collapsed);
    SliceShape(collapsed, a, b);
    var trimmed := collapsed[a..b];
    var r := PrefixWithin(trimmed, 200);
    PrefixWithinFits(trimmed, 200);
    assert r == trimmed[0..|r|];
    SliceShape(trimmed, 0, |r|);
  }

  /** Nothing but emoji and whitespace. */
  predicate Unspeakable(text: string) {
    forall c :: c in text ==> c in Emoji || IsSpace(c)
  }

  /** The cleaned text is empty exactly when the input is nothing but emoji
      and whitespace, which is when `speak` gives up. */
  lemma PrepareTextForSpeechEmpty(text: string)
    ensures PrepareTextForSpeech(text) == "" <==> Unspeakable(text)
  {
    var removed := RemoveEmoji(text);
    var collapsed := CollapseSpaces(removed);
    var trimmed := Trim(collapsed);
    assert PrepareTextForSpeech(text) == PrefixWithin(trimmed, 200);
    assert PrefixWithin(trimmed, 200) == "" <==> trimmed == "" by {
      PrefixWithinFits(trimmed, 200);
    }
    TrimEmpty(collapsed);
    if Unspeakable(text) {
      forall i | 0 <= i < |collapsed|
        ensures IsSpace(collapsed[i])
      {
        assert collapsed[i] in collapsed;
      }
      assert trimmed == "";
    } else {
      var c :| c in text && c !in Emoji && !IsSpace(c);
      CollapseKeepsNonSpace(removed, c);
      var i :| 0 <= i < |collapsed| && collapsed[i] == c;
      assert trimmed != "";
    }
  }

  /** Text that is already clean (no emoji, single plain spaces, no space at
      either end, at most 200 code units) is spoken as it is. */
  lemma PrepareTextForSpeechFixed(text: string)
    requires forall c :: c in text ==> c !in Emoji
    requires OnlyPlainSpaces(text) && NoDoubleSpace(text)
    requires |text| > 0 ==> !IsSpace(text[0]) && !IsSpace(text[|text| - 1])
    requires Utf16Length(text) <= 200
    ensures PrepareTextForSpeech(text) == text
  {
    CollapseIdentity(text);
    if |text| > 0 {
      TrimFixed(text);
    }
    PrefixWithinFits(text, 200);
  }

  /** Text of characters above U+FFFF takes two code units per character, so
      only its first 100 characters are spoken. */
  lemma {:induction false} AstralTextKeepsHundred(text: string)
    requires forall i :: 0 <= i < |text| ==> text[i] as int >= 0x1_0000 && text[i] !in Emoji
    ensures PrepareTextForSpeech(text) == text[..if |text| < 100 then |text| else 100]
  {
    AstralTextIsClean(text);
    PrefixWithinAstral(text, 200);
    assert 200 / 2 == 100;
  }

  /** Such text has no emoji and no whitespace for the cleaner to remove. */
  lemma {:induction false} AstralTextIsClean(text: string)
    requires forall i :: 0 <= i < |text| ==> text[i] as int >= 0x1_0000 && text[i] !in Emoji
    ensures Trim(CollapseSpaces(RemoveEmoji(text))) == text
  {
    assert forall i :: 0 <= i < |text| ==> !IsSpace(text[i]);
    assert RemoveEmoji(text) == text;
    CollapseIdentity(text);
    if |text| > 0 {
      TrimFixed(text);
    }
  }

  /** `\s` on one code unit; a surrogate is never whitespace. */
  predicate IsSpaceUnit(u: CodeUnit) {
    (u < 0xD800 || 0xE000 <= u) && IsSpace(u as char)
  }

  /** The emoji class as the code has it. Without the `u` flag a character
      class is a set of code units, so each emoji above U+FFFF puts its two
      surrogates into the class separately. */
  const EmojiClassUnits: set<CodeUnit> :=
    {0xD83D, 0xDC36, 0xD83C, 0xDF89, 0xDCBB, 0x26A1, 0xDFAE, 0xDD25, 0xDF1F, 0xDCA1}

  /** The class holds exactly the code units of the eight emoji. */
  lemma EmojiClassUnitsOfEmoji()
    ensures forall c :: c in Emoji ==> forall k :: 0 <= k < |CharUnits(c)| ==> CharUnits(c)[k] in EmojiClassUnits
    ensures forall u :: u in EmojiClassUnits ==> exists c :: c in Emoji && u in CharUnits(c)
  {
    assert CharUnits('\U{1F436}') == [0xD83D, 0xDC36];
    assert CharUnits('\U{1F389}') == [0xD83C, 0xDF89];
    assert CharUnits('\U{1F4BB}') == [0xD83D, 0xDCBB];
    assert CharUnits('\U{26A1}') == [0x26A1];
    assert CharUnits('\U{1F3AE}') == [0xD83C, 0xDFAE];
    assert CharUnits('\U{1F525}') == [0xD83D, 0xDD25];
    assert CharUnits('\U{1F31F}') == [0xD83C, 0xDF1F];
    assert CharUnits('\U{1F4A1}') == [0xD83D, 0xDCA1];
  }

  /** `.replace(/[…]/g, '')` as written: every code unit of the class goes, so
      one half of a surrogate pair can go without the other. */
  function RemoveClassUnits(u: seq<CodeUnit>): (r: seq<CodeUnit>)
    ensures forall x :: x in r <==> x in u && x !in EmojiClassUnits
  {
    if u == [] then []
    else (if u[0] in EmojiClassUnits then [] else [u[0]]) + RemoveClassUnits(u[1..])
  }

  /** `trimStart` on code units. */
  function TrimStartUnits(u: seq<CodeUnit>): (r: seq<CodeUnit>)
    ensures |r| <= |u| && (|u| > 0 && IsSpaceUnit(u[0]) ==> |r| < |u|)
    decreases |u|
  {
    if |u| > 0 && IsSpaceUnit(u[0]) then TrimStartUnits(u[1..]) else u
  }

  /** `trimEnd` on code units. */
  function TrimEndUnits(u: seq<CodeUnit>): (r: seq<CodeUnit>)
    ensures |r| <= |u|
    decreases |u|
  {
    if |u| > 0 && IsSpaceUnit(u[|u| - 1]) then TrimEndUnits(u[..|u| - 1]) else u
  }

  /** `replace(/\s+/g, ' ')` on code units. */
  function CollapseSpaceUnits(u: seq<CodeUnit>): (r: seq<CodeUnit>)
    decreases |u|
  {
    if |u| == 0 then []
    else if IsSpaceUnit(u[0]) then [' ' as int] + CollapseSpaceUnits(TrimStartUnits(u))
    else [u[0]] + CollapseSpaceUnits(u[1..])
  }

  /** `prepareTextForSpeech` exactly as written, on the code units of the text:
      the emoji class deletes single code units, and `substring(0, 200)` keeps
      200 code units even where that splits a surrogate pair. */
  function PrepareTextUnitsAsWritten(text: string): (r: seq<CodeUnit>)
    ensures |r| <= 200
  {
    var cleaned := CollapseSpaceUnits(RemoveClassUnits(Encode(text)));
    Prefix(TrimEndUnits(TrimStartUnits(cleaned)), 200)
  }

  /** Every character from U+1F000 to U+1F7FF has the high surrogate D83C or
      D83D, and both are in the class as written. So such a character whose low
      surrogate is not in the class, for example U+1F600, comes out as a lone
      low surrogate: code units that encode no text at all. */
  lemma {:induction false} LoneSurrogateExample(c: char)
    requires 0x1_F000 <= c as int < 0x1_F800
    requires CharUnits(c)[1] !in EmojiClassUnits
    ensures PrepareTextUnitsAsWritten([c]) == [CharUnits(c)[1]]
    ensures forall s: string :: Encode(s) != [CharUnits(c)[1]]
  {
    HighHalfRemoved(c);
    LoneUnitKept(CharUnits(c)[1]);
  }

  /** A character from U+1F000 to U+1F7FF that is not one of the eight emoji
      but whose low surrogate is in the class, such as U+1F036 (D83C DC36,
      with the low half of the dog), is erased whole by the class as written,
      so `speak` declines it; the whole-character cleaner keeps it. */
  lemma {:induction false} BothHalvesErased(c: char)
    requires 0x1_F000 <= c as int < 0x1_F800
    requires c !in Emoji && CharUnits(c)[1] in EmojiClassUnits
    ensures PrepareTextUnitsAsWritten([c]) == []
    ensures !Unspeakable([c]) && PrepareTextForSpeech([c]) == [c]
  {
    assert CharUnits(c)[0] in {0xD83C, 0xD83D};
    assert Encode([c]) == CharUnits(c) + Encode([c][1..]);
    assert [c][1..] == [];
    ClassUnitsRemoved(Encode([c]));
    assert !IsSpace(c);
    OneCharacterKept(c);
  }

  /** Code units that are all in the class are all removed. */
  lemma {:induction false} ClassUnitsRemoved(u: seq<CodeUnit>)
    requires forall k :: 0 <= k < |u| ==> u[k] in EmojiClassUnits
    ensures RemoveClassUnits(u) == []
  {
    if u != [] {
      ClassUnitsRemoved(u[1..]);
    }
  }

  /** U+1F036 is such a character. */
  lemma DominoTileErased()
    ensures PrepareTextUnitsAsWritten(['\U{1F036}']) == []
    ensures PrepareTextForSpeech(['\U{1F036}']) == ['\U{1F036}']
  {
    var c := '\U{1F036}';
    assert CharUnits(c) == [0xD83C, 0xDC36];
    BothHalvesErased(c);
  }

  /** A single code unit that is not whitespace passes the rest of the cleaner. */
  lemma LoneUnitKept(u: CodeUnit)
    requires !IsSpaceUnit(u)
    ensures Prefix(TrimEndUnits(TrimStartUnits(CollapseSpaceUnits([u]))), 200) == [u]
  {
    assert CollapseSpaceUnits([u]) == [u] + CollapseSpaceUnits([]);
  }

  /** The corrected cleaner deletes the emoji only as whole characters: a
      character that is neither one of them nor whitespace comes through
      whole, where the code as written can leave half of it. */
  lemma OneCharacterKept(c: char)
    requires c !in Emoji && !IsSpace(c)
    ensures PrepareTextForSpeech([c]) == [c]
  {
    PrepareTextForSpeechFixed([c]);
  }

  /** The class as written removes the high half of such a character and keeps
      its low half, which is not whitespace. */
  lemma HighHalfRemoved(c: char)
    requires 0x1_F000 <= c as int < 0x1_F800
    requires CharUnits(c)[1] !in EmojiClassUnits
    ensures RemoveClassUnits(Encode([c])) == [CharUnits(c)[1]]
    ensures !IsSpaceUnit(CharUnits(c)[1])
  {
    var low := CharUnits(c)[1];
    assert CharUnits(c)[0] in {0xD83C, 0xD83D};
    assert Encode([c]) == CharUnits(c) + Encode([c][1..]);
    assert [c][1..] == [];
    assert RemoveClassUnits([low]) == [low] + RemoveClassUnits([]);
  }

  /** The flourish tables of `addCyberpunkFlair`. */
  function FlairTerms(key: string): seq<string> {
    if key == "excited" then ["Yatta!", "Sugoi!", "Kawaii!"]
    else if key == "confused" then ["Eh?", "Nani?", "Chotto matte"]
    else if key == "angry" then ["Dame da!", "Yabai!", "Urusai!"]
    else if key == "coding" then ["Debug desu", "Code wa ikite iru", "Hack shimasu"]
    else []
  }

  /** `cyberpunkTerms[emotion] || cyberpunkTerms[context] || []`. */
  function TermsFor(mood: Mood): seq<string> {
    if |FlairTerms(mood.emotion)| > 0 then FlairTerms(mood.emotion) else FlairTerms(mood.context)
  }

  /** `addCyberpunkFlair`, with `roll` the chance draw and `pick` the term
      draw, both `Math.random()` ratios. */
  function AddCyberpunkFlair(text: string, mood: Mood, roll: real, pick: real): (r: string)
    requires 0.0 <= roll < 1.0 && 0.0 <= pick < 1.0
    ensures r == text || exists k :: 0 <= k < |TermsFor(mood)| && r == text + ". " + TermsFor(mood)[k]
    ensures mood.emotion == "neutral" || roll >= 0.2 || TermsFor(mood) == [] ==> r == text
    ensures r != text ==> |r| > |text| + 2 && r[..|text|] == text
  {
    if roll < 0.2 && mood.emotion != "neutral" then
      var terms := TermsFor(mood);
      if |terms| > 0 then
        var k := (pick * |terms| as real).Floor;
        text + ". " + terms[k]
      else text
    else text
  }

  /** The two speech back ends; `Unset` until `initialize` picks one. */
  datatype TtsMode = Unset | Coqui | WebSpeech

  /** What `speak` does after its guards: refuse, or hand the final text to
      a back end. */
  datatype Dispatch = Declined | ToCoqui(text: string) | ToWebSpeech(text: string)

  /** The Coqui audio element: its volume and whether it is paused. */
  datatype Audio = Audio(volume: real, paused: bool)

  class VoiceController {
    var isEnabled: bool
    var volume: real
    var currentAudio: Option<Audio>
    var isSpeaking: bool
    var voiceQueue: seq<string>
    var ttsMode: TtsMode
    var hasAudioContext: bool

    /** The volume is a fraction, and the playing audio uses it. */
    ghost predicate Valid()
      reads this
    {
      0.0 <= volume <= 1.0
      && (currentAudio.Some? ==> currentAudio.value.volume == volume)
    }

    constructor()
      ensures Valid()
      ensures isEnabled && volume == 0.8 && currentAudio == None && !isSpeaking
      ensures voiceQueue == [] && ttsMode == Unset && !hasAudioContext
      ensures !IsAvailable()
    {
      isEnabled := true;
      volume := 0.8;
      currentAudio := None;
      isSpeaking := false;
      voiceQueue := [];
      ttsMode := Unset;
      hasAudioContext := false;
    }

    /** `initialize`, given whether the audio context could be created,
        whether the TTS server answered its health check, and whether the
        browser has `speechSynthesis`. */
    method Initialize(audioContextCreated: bool, coquiConnected: bool, hasSpeechSynthesis: bool)
      returns (ok: bool)
      requires Valid()
      modifies this`hasAudioContext, this`ttsMode, this`isEnabled
      ensures Valid()
      ensures hasAudioContext == (old(hasAudioContext) || audioContextCreated)
      ensures ok <==> audioContextCreated && (coquiConnected || hasSpeechSynthesis)
      ensures ttsMode == if !audioContextCreated then old(ttsMode)
                         else if coquiConnected then Coqui
                         else if hasSpeechSynthesis then WebSpeech
                         else old(ttsMode)
      ensures isEnabled == (old(isEnabled) && ok)
      ensures IsAvailable() <==> old(isEnabled) && ok
    {
      if !audioContextCreated {
        isEnabled := false;
        return false;
      }
      hasAudioContext := true;
      if coquiConnected {
        ttsMode := Coqui;
        return true;
      }
      if hasSpeechSynthesis {
        ttsMode := WebSpeech;
        return true;
      }
      isEnabled := false;
      return false;
    }

    /** A Coqui reply starts playing at the current volume. */
    method StartAudio()
      requires Valid()
      modifies this`currentAudio, this`isSpeaking
      ensures Valid()
      ensures currentAudio == Some(Audio(volume, false)) && isSpeaking
    {
      currentAudio := Some(Audio(volume, false));
      isSpeaking := true;
    }

    /** `setVolume`: clamp to [0, 1] and pass it on to the playing audio. */
    method SetVolume(v: real)
      requires Valid()
      modifies this`volume, this`currentAudio
      ensures Valid()
      ensures volume == if v < 0.0 then 0.0 else if v > 1.0 then 1.0 else v
      ensures currentAudio == if old(currentAudio).Some?
                              then Some(old(currentAudio).value.(volume := volume)) else None
    {
      volume := if v < 0.0 then 0.0 else if v > 1.0 then 1.0 else v;
      if currentAudio.Some? {
        currentAudio := Some(currentAudio.value.(volume := volume));
      }
    }

    /** `stopCurrentAudio`. */
    method StopCurrentAudio()
      requires Valid()
      modifies this`currentAudio, this`isSpeaking
      ensures Valid()
      ensures currentAudio == None && !isSpeaking
    {
      currentAudio := None;
      isSpeaking := false;
    }

    /** `stop`: silence the active back end and empty the queue. */
    method Stop()
      requires Valid()
      modifies this`currentAudio, this`isSpeaking, this`voiceQueue
      ensures Valid()
      ensures voiceQueue == []
      ensures currentAudio == if old(ttsMode) == Coqui then None else old(currentAudio)
      ensures isSpeaking == if old(ttsMode) == Unset then old(isSpeaking) else false
    {
      if ttsMode == Coqui {
        StopCurrentAudio();
      } else if ttsMode == WebSpeech {
        isSpeaking := false;
      }
      voiceQueue := [];
    }

    /** `setEnabled`. */
    method SetEnabled(enabled: bool)
      requires Valid()
      modifies this`isEnabled, this`currentAudio, this`isSpeaking, this`voiceQueue
      ensures Valid()
      ensures isEnabled == enabled
      ensures !enabled ==> voiceQueue == []
      ensures !enabled ==> currentAudio == (if old(ttsMode) == Coqui then None else old(currentAudio))
      ensures !enabled ==> isSpeaking == (if old(ttsMode) == Unset then old(isSpeaking) else false)
      ensures enabled ==> voiceQueue == old(voiceQueue) && currentAudio == old(currentAudio)
                          && isSpeaking == old(isSpeaking)
      ensures !enabled ==> !IsAvailable()
    {
      isEnabled := enabled;
      if !enabled {
        Stop();
      }
    }

    /** `pause`: a playing Coqui clip is paused; Web Speech cannot pause, so its
        speech is cancelled instead. */
    method Pause()
      requires Valid()
      modifies this`currentAudio, this`isSpeaking
      ensures Valid()
      ensures currentAudio ==
        if old(ttsMode) == Coqui && old(currentAudio).Some? && old(isSpeaking)
        then Some(old(currentAudio).value.(paused := true)) else old(currentAudio)
      ensures isSpeaking == (old(isSpeaking) && old(ttsMode) != WebSpeech)
    {
      if ttsMode == Coqui && currentAudio.Some? && isSpeaking {
        currentAudio := Some(currentAudio.value.(paused := true));
      } else if ttsMode == WebSpeech {
        isSpeaking := false;
      }
    }

    /** `resume`, with `played` whether the audio element's `play()` succeeded;
        a cancelled Web Speech utterance cannot be resumed. */
    method Resume(played: bool)
      requires Valid()
      modifies this`currentAudio
      ensures Valid()
      ensures currentAudio ==
        if old(ttsMode) == Coqui && old(currentAudio).Some? && isSpeaking && played
        then Some(old(currentAudio).value.(paused := false)) else old(currentAudio)
    {
      if ttsMode == Coqui && currentAudio.Some? && isSpeaking && played {
        currentAudio := Some(currentAudio.value.(paused := false));
      }
    }

    /** `isAvailable`. */
    function IsAvailable(): (available: bool)
      reads this
      ensures available ==> isEnabled
    {
      isEnabled && hasAudioContext
    }

    /** `speak` up to its hand-off: refuse when disabled, when the cleaned
        text is empty, or when no back end was set up; otherwise pass the
        cleaned and flourished text on. Nothing changes here. */
    method Speak(text: string, mood: Mood, roll: real, pick: real) returns (d: Dispatch)
      requires 0.0 <= roll < 1.0 && 0.0 <= pick < 1.0
      ensures d == Declined <==>
        !isEnabled || Unspeakable(text) || ttsMode == Unset
      ensures d.ToCoqui? <==> d != Declined && ttsMode == Coqui
      ensures d != Declined ==>
        d.text == AddCyberpunkFlair(PrepareTextForSpeech(text), mood, roll, pick)
    {
      var cleanText := PrepareTextForSpeech(text);
      PrepareTextForSpeechEmpty(text);
      // With no back end the source builds the flourished text and then
      // declines; nothing observable comes of it, so the model declines here.
      if !isEnabled || cleanText == "" || ttsMode == Unset {
        return Declined;
      }
      var finalText := AddCyberpunkFlair(cleanText, mood, roll, pick);
      d := if ttsMode == Coqui then ToCoqui(finalText) else ToWebSpeech(finalText);
    }
  }
}
