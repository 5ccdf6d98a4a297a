/**
 * The video half of the pug's face: choosing a clip for an emotion from the
 * emotion map, remembering recently shown clips, and the small state
 * machine of "voice-synced" and "neutral-cycling" sequences driven by timers.
 * Media elements, CSS transitions and preloading promises are not modelled;
 * a timer is an abstract pending handle, and `Math.random` is a supplied
 * ratio in [0, 1).
 */
module Video {
  import opened Strings
  import Sentiment

  /** One entry of the emotion map: the JSON key and its `emotion` and
      `intensity` fields (an absent field is a string no comparison matches). */
  datatype Clip = Clip(filename: string, emotion: string, intensity: string)

  /** What `findVideoForEmotion` settles on. */
  datatype Choice =
    | NoVideo               // the map is empty: `null`
    | FirstEntry(clip: Clip) // the general fallback, `allVideos[0][0]`
    | Picked(clip: Clip)     // a random pick among candidates, which is recorded

  /** The sequence object; `startTime` is a clock reading and is not kept. */
  datatype Sequence =
    | VoiceSynced(emotion: string, video: string, voiceDuration: real)
    | NeutralCycling(interval: real)

  /** A `setTimeout` handle and the delay it was scheduled with. */
  datatype Timer = Timer(id: nat, delay: real)

  /** The keys of the map, in `Object.entries` order, are distinct. */
  predicate DistinctFiles(catalog: seq<Clip>) {
    forall i, j :: 0 <= i < j < |catalog| ==> catalog[i].filename != catalog[j].filename
  }

  /** `Array.prototype.filter`. */
  function Filter<T(!new)>(s: seq<T>, keep: T -> bool): (r: seq<T>)
    ensures |r| <= |s|
    ensures forall x :: x in r <==> x in s && keep(x)
  {
    if s == [] then []
    else (if keep(s[0]) then [s[0]] else []) + Filter(s[1..], keep)
  }

  /** `getIntensityLevel`. */
  function IntensityLevel(score: real): (level: string)
    ensures level == "high" <==> score >= 4.0 || score <= -4.0
    ensures level == "medium" <==> (2.0 <= score < 4.0 || -4.0 < score <= -2.0)
    ensures level == "low" <==> -2.0 < score < 2.0
  {
    var absScore := if score < 0.0 then -score else score;
    if absScore >= 4.0 then "high"
    else if absScore >= 2.0 then "medium"
    else "low"
  }

  /** The level depends on the magnitude only, and never drops as it grows. */
  lemma IntensityLevelMagnitude(a: real, b: real)
    requires 0.0 <= a <= b
    ensures IntensityLevel(-a) == IntensityLevel(a)
    ensures IntensityLevel(a) == "high" ==> IntensityLevel(b) == "high"
    ensures IntensityLevel(a) == "medium" ==> IntensityLevel(b) != "low"
  {
  }

  /** The sub-emotions that borrow the neutral clips when they have none. */
  predicate IsSubEmotion(emotion: string) {
    emotion == "curious" || emotion == "waiting" || emotion == "focused"
  }

  function RedirectDepth(emotion: string): nat {
    if IsSubEmotion(emotion) then 1 else 0
  }

  /** `Math.floor(Math.random() * n)`. */
  function RandomIndex(rnd: real, n: nat): (i: nat)
    requires n > 0 && 0.0 <= rnd < 1.0
    ensures i < n
  {
    var x := rnd * n as real;
    assert x < n as real;
    x.Floor
  }

  /** Every index is drawn for an `n`-th of the ratios: `k` exactly for the
      ratios in `[k/n, (k+1)/n)`. */
  lemma RandomIndexBand(rnd: real, n: nat, k: nat)
    requires n > 0 && 0.0 <= rnd < 1.0 && k < n
    ensures RandomIndex(rnd, n) == k <==>
      k as real / n as real <= rnd < (k + 1) as real / n as real
  {
    var x := rnd * n as real;
    ScaleBy(k as real, rnd, n as real);
    ScaleBy((k + 1) as real, rnd, n as real);
    if k as real / n as real <= rnd < (k + 1) as real / n as real {
      assert k as real <= x < (k + 1) as real;
    }
  }

  /** Multiplying a ratio comparison through by its positive denominator. */
  lemma ScaleBy(a: real, b: real, n: real)
    requires n > 0.0
    ensures a / n <= b <==> a <= b * n
  {
  }

  /** The clips of one emotion narrowed to the intensity level when one is
      asked for and some clip has it. */
  function Narrowed(matches: seq<Clip>, intensity: real): (r: seq<Clip>)
    ensures forall c :: c in r ==> c in matches
    ensures |matches| > 0 ==> |r| > 0
  {
    if intensity == 0.0 then matches
    else
      var level := IntensityLevel(intensity);
      var filtered := Filter(matches, (c: Clip) => c.intensity == level);
      if |filtered| == 0 then matches else filtered
  }

  /** The narrowed clips without the three most recent files, unless that
      leaves none. */
  function Candidates(matches: seq<Clip>, recent: seq<string>, intensity: real): (r: seq<Clip>)
    requires |matches| > 0
    ensures |r| > 0
    ensures forall c :: c in r ==> c in Narrowed(matches, intensity)
  {
    var filtered := Narrowed(matches, intensity);
    var recent3 := Prefix(recent, 3);
    var available := Filter(filtered, (c: Clip) => c.filename !in recent3);
    if |available| > 0 then available else filtered
  }

  /** The specification of `findVideoForEmotion(emotion, intensity)` given the
      map, the history and the random ratio. */
  function Select(catalog: seq<Clip>, recent: seq<string>, emotion: string, intensity: real, rnd: real): Choice
    requires 0.0 <= rnd < 1.0
    decreases RedirectDepth(emotion)
  {
    var matches := Filter(catalog, (c: Clip) => c.emotion == emotion);
    if |matches| == 0 then
      if IsSubEmotion(emotion) then Select(catalog, recent, "neutral", intensity, rnd)
      else if |catalog| > 0 then FirstEntry(catalog[0])
      else NoVideo
    else
      var final := Candidates(matches, recent, intensity);
      Picked(final[RandomIndex(rnd, |final|)])
  }

  /** The filename `findVideoForEmotion` returns. */
  function FileOf(choice: Choice): Option<string> {
    if choice.NoVideo? then None else Some(choice.clip.filename)
  }

  /** A truthy filename: `if (!file)` rejects `null` and the empty string. */
  predicate Usable(file: Option<string>) {
    file.Some? && file.value != ""
  }

  predicate HasEmotion(catalog: seq<Clip>, emotion: string) {
    exists c :: c in catalog && c.emotion == emotion
  }

  /** `findVideoForEmotion` finds nothing exactly when the map is empty. */
  lemma SelectNoVideoIff(catalog: seq<Clip>, recent: seq<string>, emotion: string, intensity: real, rnd: real)
    requires 0.0 <= rnd < 1.0
    ensures Select(catalog, recent, emotion, intensity, rnd) == NoVideo <==> |catalog| == 0
  {
    if |catalog| > 0 {
      var m := Filter(catalog, (c: Clip) => c.emotion == "neutral");
      assert |m| == 0 ==> Select(catalog, recent, "neutral", intensity, rnd) == FirstEntry(catalog[0]);
    }
  }

  /** Whatever is found is an entry of the map. */
  lemma SelectIsEntry(catalog: seq<Clip>, recent: seq<string>, emotion: string, intensity: real, rnd: real)
    requires 0.0 <= rnd < 1.0
    ensures var choice := Select(catalog, recent, emotion, intensity, rnd);
      !choice.NoVideo? ==> choice.clip in catalog
    decreases RedirectDepth(emotion)
  {
    var matches := Filter(catalog, (c: Clip) => c.emotion == emotion);
    if |matches| == 0 {
      if IsSubEmotion(emotion) {
        SelectIsEntry(catalog, recent, "neutral", intensity, rnd);
      }
    } else {
      var final := Candidates(matches, recent, intensity);
      var pick := final[RandomIndex(rnd, |final|)];
      assert pick in final;
    }
  }

  /** A clip of the requested emotion is chosen whenever one exists, and the
      choice is then a recorded pick. */
  lemma SelectHonoursEmotion(catalog: seq<Clip>, recent: seq<string>, emotion: string, intensity: real, rnd: real)
    requires 0.0 <= rnd < 1.0
    requires HasEmotion(catalog, emotion)
    ensures var choice := Select(catalog, recent, emotion, intensity, rnd);
      choice.Picked? && choice.clip.emotion == emotion
  {
    var matches := Filter(catalog, (c: Clip) => c.emotion == emotion);
    var c :| c in catalog && c.emotion == emotion;
    assert c in matches;
    var final := Candidates(matches, recent, intensity);
    var pick := final[RandomIndex(rnd, |final|)];
    assert pick in final;
  }

  /** A sub-emotion with no clips of its own is served exactly as `neutral`,
      and `neutral` itself is never redirected: the fallback goes one level. */
  lemma SelectRedirectsOnce(catalog: seq<Clip>, recent: seq<string>, emotion: string, intensity: real, rnd: real)
    requires 0.0 <= rnd < 1.0
    requires !HasEmotion(catalog, emotion)
    ensures IsSubEmotion(emotion) ==>
      Select(catalog, recent, emotion, intensity, rnd) == Select(catalog, recent, "neutral", intensity, rnd)
    ensures !IsSubEmotion(emotion) ==>
      Select(catalog, recent, emotion, intensity, rnd) == (if |catalog| > 0 then FirstEntry(catalog[0]) else NoVideo)
    ensures !IsSubEmotion("neutral")
  {
  }

  /** With an intensity asked for, a clip of the right emotion and level is
      chosen whenever one exists. */
  lemma SelectHonoursIntensity(catalog: seq<Clip>, recent: seq<string>, emotion: string, intensity: real, rnd: real)
    requires 0.0 <= rnd < 1.0
    requires intensity != 0.0
    requires exists c :: c in catalog && c.emotion == emotion && c.intensity == IntensityLevel(intensity)
    ensures var choice := Select(catalog, recent, emotion, intensity, rnd);
      choice.Picked? && choice.clip.emotion == emotion && choice.clip.intensity == IntensityLevel(intensity)
  {
    var level := IntensityLevel(intensity);
    var matches := Filter(catalog, (c: Clip) => c.emotion == emotion);
    var c :| c in catalog && c.emotion == emotion && c.intensity == level;
    assert c in matches;
    var filtered := Filter(matches, (c: Clip) => c.intensity == level);
    assert c in filtered;
    assert Narrowed(matches, intensity) == filtered;
    var final := Candidates(matches, recent, intensity);
    var pick := final[RandomIndex(rnd, |final|)];
    assert pick in final;
  }

  /** The pick avoids the three most recent files unless every candidate is
      one of them. */
  lemma SelectAvoidsRecent(catalog: seq<Clip>, recent: seq<string>, emotion: string, intensity: real, rnd: real)
    requires 0.0 <= rnd < 1.0
    requires HasEmotion(catalog, emotion)
    requires exists c :: (c in Narrowed(Filter(catalog, (d: Clip) => d.emotion == emotion), intensity)
      && c.filename !in Prefix(recent, 3))
    ensures Select(catalog, recent, emotion, intensity, rnd).clip.filename !in Prefix(recent, 3)
  {
    var matches := Filter(catalog, (c: Clip) => c.emotion == emotion);
    var w :| w in catalog && w.emotion == emotion;
    assert w in matches;
    var filtered := Narrowed(matches, intensity);
    var recent3 := Prefix(recent, 3);
    var available := Filter(filtered, (c: Clip) => c.filename !in recent3);
    var c :| c in filtered && c.filename !in recent3;
    assert c in available;
    var final := Candidates(matches, recent, intensity);
    assert final == available;
    var pick := final[RandomIndex(rnd, |final|)];
    assert pick in available;
  }

  /** `trackVideoUsage`: `unshift` then keep the first five. */
  function Tracked(history: seq<string>, file: string): seq<string> {
    Prefix([file] + history, 5)
  }

  /** The new history starts with the file, holds at most five, and goes on
      with the old history cut to four. */
  lemma TrackedShape(history: seq<string>, file: string)
    ensures var h := Tracked(history, file);
      |h| >= 1 && h[0] == file && |h| <= 5 && h[1..] == Prefix(history, 4)
  {
    var h := Tracked(history, file);
    assert h[1..] == Prefix(history, 4);
  }

  /** The history after a choice: only a pick is recorded. */
  function Recorded(history: seq<string>, choice: Choice): seq<string> {
    if choice.Picked? then Tracked(history, choice.clip.filename) else history
  }

  /** `switchBySentimentScore`'s ladder. */
  function EmotionForScore(score: real): string {
    if score >= 3.0 then "positive"
    else if score >= 1.0 then "positive"
    else if score <= -3.0 then "angry"
    else if score <= -1.0 then "negative"
    else "neutral"
  }

  /** The clip emotion follows the sentiment state's sign: positive states
      give `positive`, the neutral state `neutral`, negative states `angry`
      (from -3 down) or `negative`. */
  lemma EmotionForScoreFollowsState(score: real)
    ensures EmotionForScore(score) == "positive" <==> Sentiment.StateRank(Sentiment.ScoreToState(score)) > 0
    ensures EmotionForScore(score) == "neutral" <==> Sentiment.ScoreToState(score) == Sentiment.State.Neutral
    ensures EmotionForScore(score) in {"angry", "negative"} <==> Sentiment.StateRank(Sentiment.ScoreToState(score)) < 0
    ensures EmotionForScore(score) == "angry" <==> score <= -3.0
  {
  }

  /** The emotion `switchBySentimentScore` switches to: the ladder's, or
      `neutral` when the map has no clip of it. */
  function ConfiguredEmotion(catalog: seq<Clip>, score: real): (emotion: string)
    ensures emotion == EmotionForScore(score) || emotion == "neutral"
    ensures emotion == EmotionForScore(score) <==> HasEmotion(catalog, EmotionForScore(score)) || EmotionForScore(score) == "neutral"
  {
    var e := EmotionForScore(score);
    if HasEmotion(catalog, e) then e else "neutral"
  }

  /** The timer delay a sequence was scheduled with. */
  function Period(s: Sequence): real {
    match s
    case VoiceSynced(_, _, d) => d
    case NeutralCycling(i) => i
  }

  class VideoController {
    var emotionMap: seq<Clip>
    var preloaded: set<string>
    var currentVideo: Option<string>
    var currentSequence: Option<Sequence>
    var sequenceTimeouts: seq<Timer>
    var recentVideos: seq<string>
    var nextTimer: nat

    /** A sequence is running exactly when one timer is pending, that timer
        carries the sequence's period, cycling periods lie in [8000, 12000),
        and the history holds at most five files. */
    ghost predicate Valid()
      reads this
    {
      DistinctFiles(emotionMap)
      && |recentVideos| <= 5
      && |sequenceTimeouts| <= 1
      && (forall t :: t in sequenceTimeouts ==> t.id < nextTimer)
      && (currentSequence.None? <==> sequenceTimeouts == [])
      && (currentSequence.Some? ==> sequenceTimeouts[0].delay == Period(currentSequence.value))
      && (currentSequence.Some? && currentSequence.value.NeutralCycling? ==>
            8000.0 <= currentSequence.value.interval < 12000.0)
    }

    constructor()
      ensures Valid()
      ensures emotionMap == [] && preloaded == {} && currentVideo == None
      ensures currentSequence == None && sequenceTimeouts == [] && recentVideos == []
    {
      emotionMap := [];
      preloaded := {};
      currentVideo := None;
      currentSequence := None;
      sequenceTimeouts := [];
      recentVideos := [];
      nextTimer := 0;
    }

    /** `loadEmotionMap` given the parsed JSON, or `None` when the fetch or
        the parse failed. */
    method LoadEmotionMap(fetched: Option<seq<Clip>>)
      requires Valid()
      requires fetched.Some? ==> DistinctFiles(fetched.value)
      modifies this`emotionMap
      ensures Valid()
      ensures emotionMap == (if fetched.Some? then fetched.value else [])
    {
      if fetched.Some? {
        emotionMap := fetched.value;
      } else {
        emotionMap := [];
      }
    }

    /** A clip finished preloading (`oncanplaythrough`). */
    method MarkPreloaded(file: string)
      modifies this`preloaded
      ensures preloaded == old(preloaded) + {file}
    {
      preloaded := preloaded + {file};
    }

    /** `getRecentVideos(count)`. */
    function GetRecentVideos(count: nat): (r: seq<string>)
      reads this
      ensures r <= recentVideos
      ensures |r| == if count <= |recentVideos| then count else |recentVideos|
    {
      Prefix(recentVideos, count)
    }

    /** `trackVideoUsage`. */
    method TrackVideoUsage(file: string)
      modifies this`recentVideos
      ensures recentVideos == Tracked(old(recentVideos), file)
      ensures |recentVideos| <= 5 && recentVideos[0] == file
      ensures recentVideos[1..] == Prefix(old(recentVideos), 4)
    {
      TrackedShape(recentVideos, file);
      recentVideos := Prefix([file] + recentVideos, 5);
    }

    /** `clearCurrentSequence`: cancel every pending timer. */
    method ClearCurrentSequence()
      requires Valid()
      modifies this`currentSequence, this`sequenceTimeouts
      ensures Valid()
      ensures currentSequence == None && sequenceTimeouts == []
    {
      if |sequenceTimeouts| > 0 {
        sequenceTimeouts := [];
      }
      currentSequence := None;
    }

    /** `findVideoForEmotion`: choose as `Select` does and record a pick. */
    method FindVideoForEmotion(emotion: string, intensity: real, rnd: real) returns (file: Option<string>)
      requires 0.0 <= rnd < 1.0
      modifies this`recentVideos
      ensures file == FileOf(Select(emotionMap, old(recentVideos), emotion, intensity, rnd))
      ensures recentVideos == Recorded(old(recentVideos), Select(emotionMap, old(recentVideos), emotion, intensity, rnd))
      decreases RedirectDepth(emotion)
    {
      var matches := Filter(emotionMap, (c: Clip) => c.emotion == emotion);
      if |matches| == 0 {
        if IsSubEmotion(emotion) {
          file := FindVideoForEmotion("neutral", intensity, rnd);
        } else if |emotionMap| > 0 {
          file := Some(emotionMap[0].filename);
        } else {
          file := None;
        }
        return;
      }
      var filtered := matches;
      if intensity != 0.0 {
        var level := IntensityLevel(intensity);
        filtered := Filter(matches, (c: Clip) => c.intensity == level);
        if |filtered| == 0 {
          filtered := matches;
        }
      }
      var recent3 := GetRecentVideos(3);
      var available := Filter(filtered, (c: Clip) => c.filename !in recent3);
      var finalMatches := if |available| > 0 then available else filtered;
      assert finalMatches == Candidates(matches, recentVideos, intensity);
      var selected := finalMatches[RandomIndex(rnd, |finalMatches|)].filename;
      TrackVideoUsage(selected);
      file := Some(selected);
    }

    /** `playVideoWithLooping`: only a preloaded clip becomes current. */
    method PlayVideoWithLooping(file: string) returns (ok: bool)
      modifies this`currentVideo
      ensures ok <==> file in preloaded
      ensures currentVideo == if ok then Some(file) else old(currentVideo)
    {
      if file !in preloaded {
        return false;
      }
      currentVideo := Some(file);
      return true;
    }

    /** Start a sequence: `setTimeout` with the sequence's period gives a
        fresh handle, which becomes the only pending one. */
    method Begin(s: Sequence)
      requires Valid() && currentSequence == None
      requires s.NeutralCycling? ==> 8000.0 <= s.interval < 12000.0
      modifies this`currentSequence, this`sequenceTimeouts, this`nextTimer
      ensures Valid()
      ensures currentSequence == Some(s) && sequenceTimeouts == [Timer(old(nextTimer), Period(s))]
      ensures nextTimer == old(nextTimer) + 1
    {
      sequenceTimeouts := [Timer(nextTimer, Period(s))];
      nextTimer := nextTimer + 1;
      currentSequence := Some(s);
    }

    /** What `switchToVideoForVoice(emotion, duration)` leaves behind, with
        `elapsedMs` the measured switch time and `ok` its result. */
    twostate predicate VoiceSwitched(emotion: string, duration: real, rnd: real, elapsedMs: real, ok: bool)
      reads this
      requires 0.0 <= rnd < 1.0
    {
      var choice := Select(old(emotionMap), old(recentVideos), emotion, 0.0, rnd);
      var file := FileOf(choice);
      emotionMap == old(emotionMap) && preloaded == old(preloaded)
      && recentVideos == Recorded(old(recentVideos), choice)
      && if !Usable(file) then
           !ok && currentSequence == None && sequenceTimeouts == []
           && currentVideo == old(currentVideo) && nextTimer == old(nextTimer)
         else
           ok == (elapsedMs < 300.0)
           && currentSequence == Some(VoiceSynced(emotion, file.value, duration))
           && sequenceTimeouts == [Timer(old(nextTimer), duration)]
           && nextTimer == old(nextTimer) + 1
           && currentVideo == (if file.value in old(preloaded) then file else old(currentVideo))
    }

    /** What `startNeutralCycling` leaves behind, with `rndInterval` the
        ratio behind the 8-12 second interval. */
    twostate predicate CyclingStarted(rndPick: real, rndInterval: real)
      reads this
      requires 0.0 <= rndPick < 1.0
    {
      var choice := Select(old(emotionMap), old(recentVideos), "neutral", 0.0, rndPick);
      var file := FileOf(choice);
      var interval := 8000.0 + rndInterval * 4000.0;
      emotionMap == old(emotionMap) && preloaded == old(preloaded)
      && recentVideos == Recorded(old(recentVideos), choice)
      && if !Usable(file) then
           currentSequence == None && sequenceTimeouts == []
           && currentVideo == old(currentVideo) && nextTimer == old(nextTimer)
         else
           currentSequence == Some(NeutralCycling(interval))
           && sequenceTimeouts == [Timer(old(nextTimer), interval)]
           && nextTimer == old(nextTimer) + 1
           && currentVideo == (if file.value in old(preloaded) then file else old(currentVideo))
    }

    /** The start both switches share: clear the running sequence, then find
        a clip of `emotion` and record the pick. */
    method ClearAndFind(emotion: string, rnd: real) returns (file: Option<string>)
      requires Valid() && 0.0 <= rnd < 1.0
      modifies this`currentSequence, this`sequenceTimeouts, this`recentVideos
      ensures Valid() && currentSequence == None && sequenceTimeouts == []
      ensures var choice := Select(old(emotionMap), old(recentVideos), emotion, 0.0, rnd);
        file == FileOf(choice) && recentVideos == Recorded(old(recentVideos), choice)
    {
      ClearCurrentSequence();
      ghost var choice := Select(emotionMap, recentVideos, emotion, 0.0, rnd);
      file := FindVideoForEmotion(emotion, 0.0, rnd);
      TrackedBound(old(recentVideos), choice);
    }

    /** The end both switches share: loop the clip and start the sequence. */
    method LoopAndBegin(file: string, s: Sequence)
      requires Valid() && currentSequence == None
      requires s.NeutralCycling? ==> 8000.0 <= s.interval < 12000.0
      modifies this`currentVideo, this`currentSequence, this`sequenceTimeouts, this`nextTimer
      ensures Valid()
      ensures currentVideo == (if file in preloaded then Some(file) else old(currentVideo))
      ensures currentSequence == Some(s) && sequenceTimeouts == [Timer(old(nextTimer), Period(s))]
      ensures nextTimer == old(nextTimer) + 1
    {
      var _ := PlayVideoWithLooping(file);
      Begin(s);
    }

    /** `switchToVideoForVoice`: clear, find a clip, loop it and schedule the
        return to neutral cycling after exactly the voice duration. */
    method SwitchToVideoForVoice(emotion: string, voiceDurationMs: real, rnd: real, elapsedMs: real) returns (ok: bool)
      requires Valid() && 0.0 <= rnd < 1.0
      modifies this
      ensures Valid()
      ensures VoiceSwitched(emotion, voiceDurationMs, rnd, elapsedMs, ok)
      ensures forall t :: t in old(sequenceTimeouts) ==> t !in sequenceTimeouts
    {
      var file := ClearAndFind(emotion, rnd);
      if !Usable(file) {
        return false;
      }
      LoopAndBegin(file.value, VoiceSynced(emotion, file.value, voiceDurationMs));
      ok := elapsedMs < 300.0;
    }

    /** `startNeutralCycling`: clear, and when a neutral (or fallback) clip
        exists loop it and schedule the next cycle 8 to 12 seconds later. */
    method StartNeutralCycling(rndPick: real, rndInterval: real)
      requires Valid() && 0.0 <= rndPick < 1.0 && 0.0 <= rndInterval < 1.0
      modifies this
      ensures Valid()
      ensures CyclingStarted(rndPick, rndInterval)
      ensures forall t :: t in old(sequenceTimeouts) ==> t !in sequenceTimeouts
    {
      var file := ClearAndFind("neutral", rndPick);
      if !Usable(file) {
        return;
      }
      var cycleInterval := 8000.0 + rndInterval * 4000.0;
      assert 8000.0 <= cycleInterval < 12000.0;
      LoopAndBegin(file.value, NeutralCycling(cycleInterval));
    }

    /** A pending timer fires. Both callbacks the controller schedules (the
        end of a voice-synced clip and the next neutral cycle) start neutral
        cycling. */
    method Fire(t: Timer, rndPick: real, rndInterval: real)
      requires Valid() && t in sequenceTimeouts
      requires 0.0 <= rndPick < 1.0 && 0.0 <= rndInterval < 1.0
      modifies this
      ensures Valid()
      ensures CyclingStarted(rndPick, rndInterval)
      ensures t !in sequenceTimeouts
    {
      StartNeutralCycling(rndPick, rndInterval);
    }

    /** `switchToVideo`: the voice-synced switch with the default 3000 ms. */
    method SwitchToVideo(emotion: string, rnd: real, elapsedMs: real) returns (ok: bool)
      requires Valid() && 0.0 <= rnd < 1.0
      modifies this
      ensures Valid()
      ensures VoiceSwitched(emotion, 3000.0, rnd, elapsedMs, ok)
    {
      ok := SwitchToVideoForVoice(emotion, 3000.0, rnd, elapsedMs);
    }

    /** `switchBySentimentScore`. */
    method SwitchBySentimentScore(score: real, rnd: real, elapsedMs: real) returns (ok: bool)
      requires Valid() && 0.0 <= rnd < 1.0
      modifies this
      ensures Valid()
      ensures VoiceSwitched(ConfiguredEmotion(old(emotionMap), score), 3000.0, rnd, elapsedMs, ok)
    {
      var emotion := EmotionForScore(score);
      if !HasEmotion(emotionMap, emotion) {
        emotion := "neutral";
      }
      ok := SwitchToVideo(emotion, rnd, elapsedMs);
    }
  }

  /** The history stays within five files whatever is chosen. */
  lemma TrackedBound(history: seq<string>, choice: Choice)
    requires |history| <= 5
    ensures |Recorded(history, choice)| <= 5
  {
  }
}
