/**
 * Drafting coding tasks for an MCP tool server out of chat messages: the
 * plan/act mode gate, the keyword classifiers that decide whether a message
 * is a coding request and how urgent or involved it is, the file-reference
 * scanner, the YAML frontmatter a task is serialised to, and the throttled
 * server health check. Sending, saving and the health request itself are
 * not modelled; their results are inputs.
 */
module Mcp {
  import opened Strings

  // ---------------------------------------------------------------- classifiers

  const CodingKeywords: seq<string> := [
    "update", "change", "modify", "fix", "add", "remove", "create", "implement",
    "refactor", "optimize", "debug", "test", "build", "deploy", "configure",
    "function", "class", "method", "variable", "file", "code", "script",
    "json", "css", "html", "javascript", "python", "api", "database"]

  const FileExtensions: seq<string> := [".js", ".py", ".json", ".css", ".html", ".md", ".txt"]

  /** The anchored patterns `/^please/` … `/^do/`. */
  const ImperativePrefixes: seq<string> := ["please", "can you", "i need", "help me", "make", "do"]

  /** No line terminator in `s[p..j]`: what `.*` may span. */
  predicate OnOneLine(s: string, p: nat, j: nat)
    requires p <= j <= |s|
  {
    forall k :: p <= k < j ==> !IsLineTerminator(s[k])
  }

  /** `w` occurs in `s` at index `i`. */
  predicate OccursAt(s: string, i: nat, w: string) {
    i + |w| <= |s| && s[i..i + |w|] == w
  }

  /** `b` occurs at or after `p`, on the same line. */
  predicate LaterOnLine(s: string, p: nat, b: string)
    requires p <= |s|
  {
    exists j: nat :: p <= j <= |s| && OccursAt(s, j, b) && OnOneLine(s, p, j)
  }

  /** `/a.*b/.test(s)`. */
  predicate FollowedBy(s: string, a: string, b: string) {
    exists i: nat :: i <= |s| && OccursAt(s, i, a) && LaterOnLine(s, i + |a|, b)
  }

  /** `isActionableCodingRequest`. */
  predicate IsActionableCodingRequest(message: string) {
    var lower := ToLower(message);
    var hasCodingKeyword := ContainsAny(lower, CodingKeywords);
    var hasFileReference := ContainsAny(lower, FileExtensions)
      || Contains(lower, "file") || Contains(lower, "config");
    var hasImperative := StartsWithAny(lower, ImperativePrefixes)
      || FollowedBy(lower, "update", "to") || FollowedBy(lower, "change", "to")
      || FollowedBy(lower, "add", "to") || FollowedBy(lower, "fix", "in");
    hasCodingKeyword || hasFileReference || hasImperative
  }

  lemma FollowedByContains(s: string, a: string, b: string)
    requires FollowedBy(s, a, b)
    ensures Contains(s, a)
  {
    var i: nat :| i <= |s| && OccursAt(s, i, a) && LaterOnLine(s, i + |a|, b);
    assert s[i..][..|a|] == s[i..i + |a|];
    ContainsWitness(s, a, i);
  }

  /** An occurrence of a string is an occurrence of each of its slices. */
  lemma ContainsSlice(s: string, sub: string, a: nat, b: nat)
    requires a <= b <= |sub| && Contains(s, sub)
    ensures Contains(s, sub[a..b])
    decreases |s|
  {
    if StartsWith(s, sub) {
      assert s[a..][..b - a] == sub[a..b];
      ContainsWitness(s, sub[a..b], a);
    } else {
      ContainsSlice(s[1..], sub, a, b);
      ContainsShift(s, sub[a..b]);
    }
  }

  lemma ContainsShift(s: string, sub: string)
    requires |s| > 0 && Contains(s[1..], sub)
    ensures Contains(s, sub)
  {
  }

  /** The four imperative patterns each hold a coding keyword. */
  lemma ImperativePatternsSubsumed(lower: string)
    ensures (FollowedBy(lower, "update", "to") || FollowedBy(lower, "change", "to")
             || FollowedBy(lower, "add", "to") || FollowedBy(lower, "fix", "in"))
            ==> ContainsAny(lower, CodingKeywords)
  {
    if FollowedBy(lower, "update", "to") {
      FollowedByContains(lower, "update", "to");
      assert Contains(lower, CodingKeywords[0]);
    } else if FollowedBy(lower, "change", "to") {
      FollowedByContains(lower, "change", "to");
      assert Contains(lower, CodingKeywords[1]);
    } else if FollowedBy(lower, "add", "to") {
      FollowedByContains(lower, "add", "to");
      assert Contains(lower, CodingKeywords[4]);
    } else if FollowedBy(lower, "fix", "in") {
      FollowedByContains(lower, "fix", "in");
      assert Contains(lower, CodingKeywords[3]);
    }
  }

  /** `file`, `.css` and `.html` hold the keywords `file`, `css` and
      `html`, and `.json` holds `.js`. */
  lemma FileReferencesSubsumed(lower: string)
    ensures (ContainsAny(lower, FileExtensions) || Contains(lower, "file"))
            ==> (ContainsAny(lower, CodingKeywords) || Contains(lower, ".js") || Contains(lower, ".py")
                 || Contains(lower, ".md") || Contains(lower, ".txt"))
  {
    if Contains(lower, "file") {
      assert Contains(lower, CodingKeywords[19]);
    } else if ContainsAny(lower, FileExtensions) {
      var k :| 0 <= k < |FileExtensions| && Contains(lower, FileExtensions[k]);
      if k == 2 {
        ContainsSlice(lower, ".json", 0, 3);
        assert ".json"[0..3] == ".js";
      } else if k == 3 {
        ContainsSlice(lower, ".css", 1, 4);
        assert ".css"[1..4] == CodingKeywords[23];
      } else if k == 4 {
        ContainsSlice(lower, ".html", 1, 5);
        assert ".html"[1..5] == CodingKeywords[24];
      }
    }
  }

  lemma ExtensionsListed(lower: string)
    ensures (Contains(lower, ".js") || Contains(lower, ".py") || Contains(lower, ".md")
             || Contains(lower, ".txt")) ==> ContainsAny(lower, FileExtensions)
  {
    if Contains(lower, ".js") {
      assert Contains(lower, FileExtensions[0]);
    } else if Contains(lower, ".py") {
      assert Contains(lower, FileExtensions[1]);
    } else if Contains(lower, ".md") {
      assert Contains(lower, FileExtensions[5]);
    } else if Contains(lower, ".txt") {
      assert Contains(lower, FileExtensions[6]);
    }
  }

  /** The imperative patterns `update.*to`, `change.*to`, `add.*to` and
      `fix.*in`, the word `file` and the extensions `.json`, `.css`, `.html`
      never decide the outcome: each implies a keyword or another extension
      already tested. A message is actionable exactly when it holds a coding
      keyword, `.js`, `.py`, `.md`, `.txt` or `config`, or starts with an
      imperative prefix. */
  lemma ActionableSimplified(message: string)
    ensures IsActionableCodingRequest(message) <==>
      (ContainsAny(ToLower(message), CodingKeywords)
       || Contains(ToLower(message), ".js") || Contains(ToLower(message), ".py")
       || Contains(ToLower(message), ".md") || Contains(ToLower(message), ".txt")
       || Contains(ToLower(message), "config")
       || StartsWithAny(ToLower(message), ImperativePrefixes))
  {
    var lower := ToLower(message);
    ImperativePatternsSubsumed(lower);
    FileReferencesSubsumed(lower);
    ExtensionsListed(lower);
  }

  /** `s` opens with `word` in some letter case, then whitespace: what
      `/^word\s+/i` needs in order to match. */
  predicate OpensWithWord(s: string, word: string) {
    |word| < |s| && ToLower(s[..|word|]) == word && IsSpace(s[|word|])
  }

  /** How much `.replace(/^word\s+/i, '')` removes from `s`, for a
      lower-case `word`: the word and the whitespace after it, or nothing. */
  function LeadingWordLength(s: string, word: string): (n: nat)
    ensures n <= |s|
  {
    if OpensWithWord(s, word) then |word| + LeadingSpaces(s[|word|..]) else 0
  }

  /** What `LeadingWordLength` removes: nothing unless the text opens with
      the word in some letter case and then whitespace; otherwise the word
      and the whole whitespace run after it, up to the first non-space. */
  lemma LeadingWordRemoved(s: string, word: string)
    ensures var n := LeadingWordLength(s, word);
      && (n == 0 <==> !OpensWithWord(s, word))
      && (n > 0 ==> |word| < n && ToLower(s[..|word|]) == word
                    && AllSpace(s[|word|..n]) && (n == |s| || !IsSpace(s[n])))
  {
    if OpensWithWord(s, word) {
      RunInSlice(s, |word|, LeadingSpaces(s[|word|..]));
    }
  }

  /** The length of the whitespace run `\s+` matches greedily at the start
      of `t`. */
  function LeadingSpaces(t: string): (n: nat)
    ensures n <= |t| && (n < |t| ==> !IsSpace(t[n]))
    ensures forall i :: 0 <= i < n ==> IsSpace(t[i])
    decreases |t|
  {
    if |t| > 0 && IsSpace(t[0]) then 1 + LeadingSpaces(t[1..]) else 0
  }

  /** A run at the start of `s[k..]` is the same run of `s` at `k`. */
  lemma RunInSlice(s: string, k: nat, m: nat)
    requires k + m <= |s|
    requires forall i :: 0 <= i < m ==> IsSpace(s[k..][i])
    requires k + m < |s| ==> !IsSpace(s[k..][m])
    ensures AllSpace(s[k..k + m]) && (k + m == |s| || !IsSpace(s[k + m]))
  {
    var w := s[k..k + m];
    forall i | 0 <= i < |w|
      ensures IsSpace(w[i])
    {
      assert w[i] == s[k..][i];
    }
  }

  /** How much stripping the words one after the other, in order, removes. */
  function StrippedLength(s: string, words: seq<string>): (n: nat)
    ensures n <= |s|
    decreases |words|
  {
    if words == [] then 0
    else
      var n := LeadingWordLength(s, words[0]);
      n + StrippedLength(s[n..], words[1..])
  }

  /** The message with the request prefixes stripped. */
  function StripRequestPrefixes(message: string): string {
    message[StrippedLength(message, ImperativePrefixes)..]
  }

  /** `extractTaskDescription`. */
  function ExtractTaskDescription(message: string): string {
    Capitalized(Trim(StripRequestPrefixes(message)))
  }

  /** `s.charAt(0).toUpperCase() + s.slice(1)`. */
  function Capitalized(s: string): string {
    if |s| > 0 then [UpperChar(s[0])] + s[1..] else s
  }

  /** `r` is the stretch of `message` from `lo` on, with no whitespace at
      either end and its first letter upper-cased. */
  predicate DescribesStretch(r: string, message: string, lo: nat) {
    lo + |r| <= |message|
    && (|r| > 0 ==> r[0] == UpperChar(message[lo]) && r[1..] == message[lo + 1..lo + |r|])
    && (|r| > 0 ==> !IsSpace(r[0]) && !IsSpace(r[|r| - 1]))
  }

  /** The description is a stretch of the message, with no whitespace at
      either end and its first letter upper-cased; so it is never longer
      than the message. */
  lemma ExtractTaskDescriptionShape(message: string) returns (lo: nat)
    ensures DescribesStretch(ExtractTaskDescription(message), message, lo)
    ensures |ExtractTaskDescription(message)| <= |message|
  {
    var off := StrippedLength(message, ImperativePrefixes);
    assert ExtractTaskDescription(message) == Capitalized(Trim(message[off..]));
    lo := DescriptionShape(message, off);
  }

  lemma DescriptionShape(message: string, off: nat) returns (lo: nat)
    requires off <= |message|
    ensures DescribesStretch(Capitalized(Trim(message[off..])), message, lo)
  {
    var hi;
    lo, hi := TrimSuffixIsSlice(message, off);
    UpperFirstShape(Trim(message[off..]), message, lo, hi);
  }

  lemma UpperFirstShape(d: string, m: string, lo: nat, hi: nat)
    requires lo <= hi <= |m| && d == m[lo..hi]
    requires |d| > 0 ==> !IsSpace(d[0]) && !IsSpace(d[|d| - 1])
    ensures DescribesStretch(Capitalized(d), m, lo)
  {
    assert hi == lo + |d|;
    if |d| > 0 {
      var r := Capitalized(d);
      assert d[0] == m[lo];
      assert r[1..] == d[1..] == m[lo + 1..lo + |d|];
      assert !IsSpace(r[0]) by {
        assert r[0] == UpperChar(d[0]);
      }
      if |d| > 1 {
        assert r[|r| - 1] == d[|d| - 1];
      }
    }
  }

  /** A first letter that differs from the word's rules the word out. */
  lemma FirstLetterRulesOut(s: string, word: string)
    requires |word| > 0 && |s| > 0 && LowerChar(s[0]) != word[0]
    ensures LeadingWordLength(s, word) == 0
  {
    if |word| < |s| {
      assert ToLower(s[..|word|])[0] == LowerChar(s[0]);
    }
  }

  lemma StripSkips(s: string, words: seq<string>)
    requires words != [] && LeadingWordLength(s, words[0]) == 0
    ensures StrippedLength(s, words) == StrippedLength(s, words[1..])
  {
    assert s[0..] == s;
  }

  /** A first letter other than `p`, `c`, `i`, `h` and `m` passes the
      first five prefixes by. */
  lemma FirstFiveSkipped(s: string)
    requires |s| > 0 && LowerChar(s[0]) !in {'p', 'c', 'i', 'h', 'm'}
    ensures StrippedLength(s, ImperativePrefixes) == StrippedLength(s, ImperativePrefixes[5..])
  {
    var words := ImperativePrefixes;
    FirstLetterRulesOut(s, words[0]);
    StripSkips(s, words);
    FirstLetterRulesOut(s, words[1]);
    StripSkips(s, words[1..]);
    FirstLetterRulesOut(s, words[2]);
    StripSkips(s, words[2..]);
    FirstLetterRulesOut(s, words[3]);
    StripSkips(s, words[3..]);
    FirstLetterRulesOut(s, words[4]);
    StripSkips(s, words[4..]);
    assert words[1..][1..][1..][1..][1..] == words[5..];
  }

  /** A message starting with none of the prefixes' first letters keeps
      all of its text. */
  lemma NothingStripped(s: string)
    requires |s| > 0 && LowerChar(s[0]) !in {'p', 'c', 'i', 'h', 'm', 'd'}
    ensures StripRequestPrefixes(s) == s
  {
    FirstFiveSkipped(s);
    var last := ImperativePrefixes[5..];
    FirstLetterRulesOut(s, last[0]);
    StripSkips(s, last);
    assert last[1..] == [];
    assert s[0..] == s;
  }

  /** The prefixes go in their fixed order and once each: `do` is tried
      last, so whatever follows `do ` is kept, even a leading `please`. */
  lemma ExtractTaskDescriptionOrder(rest: string)
    requires |rest| > 0 && !IsSpace(rest[0])
    ensures StripRequestPrefixes("do " + rest) == rest
  {
    var m := "do " + rest;
    assert m[0] == 'd';
    FirstFiveSkipped(m);
    var last := ImperativePrefixes[5..];
    assert m[1] == 'o' && m[2] == ' ' && m[3] == rest[0];
    StripsDo(m);
    assert last[0] == "do" && last[1..] == [];
    assert StrippedLength(m, last) == 3 + StrippedLength(m[3..], last[1..]);
    assert m[3..] == rest;
  }

  /** `do`, one space, then text: the `do` and the space go. */
  lemma StripsDo(s: string)
    requires |s| > 3 && LowerChar(s[0]) == 'd' && LowerChar(s[1]) == 'o' && s[2] == ' ' && !IsSpace(s[3])
    ensures LeadingWordLength(s, "do") == 3
  {
    var low := ToLower(s[..2]);
    assert low[0] == 'd' && low[1] == 'o';
    assert low == "do";
    assert s[2..][1..] == s[3..];
  }

  /** A leading word in any letter case, then a whitespace run, then text
      that does not start with whitespace: exactly the word and the whole
      run are removed. */
  lemma StripsLeadingWord(p: string, ws: string, rest: string, word: string)
    requires ToLower(p) == word && |ws| > 0 && AllSpace(ws)
    requires |rest| == 0 || !IsSpace(rest[0])
    ensures LeadingWordLength(p + ws + rest, word) == |p| + |ws|
    ensures (p + ws + rest)[|p| + |ws|..] == rest
  {
    var s := p + ws + rest;
    var k := |p| + |ws|;
    assert s[..|word|] == p;
    assert s[|word|] == ws[0];
    var n := LeadingWordLength(s, word);
    LeadingWordRemoved(s, word);
    assert s[k..] == rest;
  }

  /** With no text at all, or a first letter that starts none of `words`,
      nothing is stripped. */
  lemma {:induction false} NothingStrippedBy(s: string, words: seq<string>)
    requires forall i :: 0 <= i < |words| ==> |words[i]| > 0
    requires |s| > 0 ==> forall i :: 0 <= i < |words| ==> LowerChar(s[0]) != words[i][0]
    ensures StrippedLength(s, words) == 0
    decreases |words|
  {
    if words != [] {
      if |s| > 0 {
        FirstLetterRulesOut(s, words[0]);
      }
      assert LeadingWordLength(s, words[0]) == 0;
      assert s[0..] == s;
      NothingStrippedBy(s, words[1..]);
    }
  }

  /** `please` in any letter case and the whitespace after it are removed,
      and the rest is described as it stands when it starts with none of
      the later prefixes' first letters. */
  lemma PleaseStripped(p: string, ws: string, rest: string)
    requires ToLower(p) == "please" && |ws| > 0 && AllSpace(ws)
    requires |rest| > 0 ==> !IsSpace(rest[0]) && LowerChar(rest[0]) !in {'c', 'i', 'h', 'm', 'd'}
    ensures ExtractTaskDescription(p + ws + rest) == Capitalized(Trim(rest))
  {
    var m := p + ws + rest;
    StripsLeadingWord(p, ws, rest, "please");
    var later := ImperativePrefixes[1..];
    assert later == ["can you", "i need", "help me", "make", "do"];
    NothingStrippedBy(rest, later);
    assert StrippedLength(m, ImperativePrefixes) == |p| + |ws| + StrippedLength(rest, later);
  }

  datatype Outcome = BugFix | Feature | Change | Creation | Generic

  /** The text `inferExpectedOutcome` returns. */
  function OutcomeText(o: Outcome): string {
    match o
    case BugFix => "Bug fixed and functionality restored"
    case Feature => "New feature implemented and working"
    case Change => "Code updated with requested changes"
    case Creation => "New component/file created successfully"
    case Generic => "Task completed successfully"
  }

  /** `inferExpectedOutcome`. */
  function InferExpectedOutcome(message: string): Outcome {
    var lower := ToLower(message);
    if Contains(lower, "fix") || Contains(lower, "bug") then BugFix
    else if Contains(lower, "add") || Contains(lower, "implement") then Feature
    else if Contains(lower, "update") || Contains(lower, "change") then Change
    else if Contains(lower, "create") || Contains(lower, "build") then Creation
    else Generic
  }

  datatype Level = Low | Medium | High

  function LevelText(l: Level): string {
    match l
    case Low => "low"
    case Medium => "medium"
    case High => "high"
  }

  /** `assessPriority`. */
  function AssessPriority(message: string): Level {
    var lower := ToLower(message);
    if Contains(lower, "urgent") || Contains(lower, "critical") || Contains(lower, "bug") then High
    else if Contains(lower, "important") || Contains(lower, "fix") then Medium
    else Low
  }

  /** `message.split(' ').length`. */
  function WordCount(message: string): nat {
    |Split(message, ' ')|
  }

  /** `assessComplexity`. */
  function AssessComplexity(message: string): Level {
    var lower := ToLower(message);
    var wordCount := WordCount(message);
    if wordCount > 50 || Contains(lower, "complex") || Contains(lower, "multiple") then High
    else if wordCount > 20 || Contains(lower, "several") || Contains(lower, "few") then Medium
    else Low
  }

  /** A bug-fix outcome always comes with at least medium priority: `bug`
      makes it high and `fix` at least medium. */
  lemma BugFixIsNotLowPriority(message: string)
    ensures InferExpectedOutcome(message) == BugFix ==> AssessPriority(message) != Low
    ensures Contains(ToLower(message), "bug") ==> AssessPriority(message) == High
  {
  }

  /** Every outcome except the bug fix and the generic one is triggered by a
      coding keyword, so the message is actionable. */
  lemma OutcomeImpliesActionable(message: string)
    ensures InferExpectedOutcome(message) in {Feature, Change, Creation} ==> IsActionableCodingRequest(message)
    ensures Contains(ToLower(message), "fix") ==> IsActionableCodingRequest(message)
  {
    var lower := ToLower(message);
    if Contains(lower, "add") { assert Contains(lower, CodingKeywords[4]); }
    if Contains(lower, "implement") { assert Contains(lower, CodingKeywords[7]); }
    if Contains(lower, "update") { assert Contains(lower, CodingKeywords[0]); }
    if Contains(lower, "change") { assert Contains(lower, CodingKeywords[1]); }
    if Contains(lower, "create") { assert Contains(lower, CodingKeywords[6]); }
    if Contains(lower, "build") { assert Contains(lower, CodingKeywords[12]); }
    if Contains(lower, "fix") { assert Contains(lower, CodingKeywords[3]); }
  }

  /** The word count is one more than the number of plain spaces, so the
      complexity thresholds are 50 and 20 spaces. */
  lemma ComplexityBySpaces(message: string)
    ensures WordCount(message) == Count(message, ' ') + 1
    ensures AssessComplexity(message) == Low ==> Count(message, ' ') < 20
    ensures Count(message, ' ') >= 50 ==> AssessComplexity(message) == High
  {
    SplitLength(message, ' ');
  }

  // ---------------------------------------------------------- file references

  /** A character of `[a-zA-Z0-9_\/]`. */
  predicate IsPathChar(c: char) {
    IsWordChar(c) || c == '/'
  }

  /** `\b` at position `i`. */
  predicate BoundaryAt(s: string, i: nat)
    requires i <= |s|
  {
    (i > 0 && IsWordChar(s[i - 1])) != (i < |s| && IsWordChar(s[i]))
  }

  /** The length of the run of path characters starting at `p`. */
  function PathRun(s: string, p: nat): (n: nat)
    requires p <= |s|
    ensures p + n <= |s|
    ensures forall k :: p <= k < p + n ==> IsPathChar(s[k])
    ensures p + n == |s| || !IsPathChar(s[p + n])
    decreases |s| - p
  {
    if p < |s| && IsPathChar(s[p]) then 1 + PathRun(s, p + 1) else 0
  }

  const ExtensionNames: seq<string> := ["js", "py", "json", "css", "html", "md", "txt"]

  /** Path characters, a dot and the extension `ext`. */
  predicate PathWithExtension(f: string, ext: string) {
    |f| > |ext| + 1 && f[|f| - |ext|..] == ext && f[|f| - |ext| - 1] == '.'
    && forall j :: 0 <= j < |f| - |ext| - 1 ==> IsPathChar(f[j])
  }

  /** What the first pattern matches: a path with one of the extensions. */
  predicate IsFileName(f: string) {
    exists k :: 0 <= k < |ExtensionNames| && PathWithExtension(f, ExtensionNames[k])
  }

  /** The alternation `(js|py|json|css|html|md|txt)\b` tried in order at `q`. */
  function ExtensionEnd(s: string, q: nat, k: nat): (e: Option<nat>)
    requires q <= |s|
    ensures e.Some? ==> q < e.value <= |s| && BoundaryAt(s, e.value)
    ensures e.Some? ==> exists j :: k <= j < |ExtensionNames| && s[q..e.value] == ExtensionNames[j]
    decreases |ExtensionNames| - k
  {
    if k >= |ExtensionNames| then None
    else
      var ext := ExtensionNames[k];
      if q + |ext| <= |s| && s[q..q + |ext|] == ext && BoundaryAt(s, q + |ext|) then Some(q + |ext|)
      else ExtensionEnd(s, q, k + 1)
  }

  /** `/\b[a-zA-Z0-9_\/]+\.(js|py|json|css|html|md|txt)\b/` at `p`. The run
      cannot be shortened to meet the dot, since the dot is not a path
      character, so backtracking never helps. */
  function FileNameMatchAt(s: string, p: nat): (e: Option<nat>)
    requires p <= |s|
    ensures e.Some? ==> p < e.value <= |s| && BoundaryAt(s, p) && BoundaryAt(s, e.value)
    ensures e.Some? ==> IsFileName(s[p..e.value])
  {
    if !BoundaryAt(s, p) then None
    else
      var n := PathRun(s, p);
      if n == 0 || p + n == |s| || s[p + n] != '.' then None
      else
        var e := ExtensionEnd(s, p + n + 1, 0);
        if e.Some? then
          FileNameShape(s, p, n, e.value);
          e
        else e
  }

  /** A run of `n` path characters at `p`, a dot, and an extension up to `e`
      make a file name. */
  lemma FileNameShape(s: string, p: nat, n: nat, e: nat)
    requires 0 < n && p + n < e <= |s| && s[p + n] == '.'
    requires forall k :: p <= k < p + n ==> IsPathChar(s[k])
    requires exists j :: 0 <= j < |ExtensionNames| && s[p + n + 1..e] == ExtensionNames[j]
    ensures IsFileName(s[p..e])
  {
    var j :| 0 <= j < |ExtensionNames| && s[p + n + 1..e] == ExtensionNames[j];
    var f := s[p..e];
    var ext := ExtensionNames[j];
    assert |f| - |ext| - 1 == n;
    assert f[|f| - |ext|..] == ext;
    assert f[n] == '.';
    assert forall k :: 0 <= k < n ==> f[k] == s[p + k];
    assert PathWithExtension(f, ext);
  }

  /** The longest `k` in 1..n with `\b` at `q + k`: the greedy run
      `[a-zA-Z0-9_\/]+\b` after backtracking. */
  function LastBoundary(s: string, q: nat, n: nat): (e: Option<nat>)
    requires q + n <= |s|
    ensures e.Some? ==> q < e.value <= q + n && BoundaryAt(s, e.value)
    decreases n
  {
    if n == 0 then None
    else if BoundaryAt(s, q + n) then Some(q + n)
    else LastBoundary(s, q, n - 1)
  }

  const DirectoryNames: seq<string> := ["src", "config", "scripts", "styles"]

  /** The directory `dir`, a slash, and at least one path character. */
  predicate UnderDirectory(f: string, dir: string) {
    |f| > |dir| + 1 && f[..|dir| + 1] == dir + "/"
    && forall j :: |dir| + 1 <= j < |f| ==> IsPathChar(f[j])
  }

  /** What the second pattern matches: a path under one of the directories. */
  predicate IsDirectoryPath(f: string) {
    exists k :: 0 <= k < |DirectoryNames| && UnderDirectory(f, DirectoryNames[k])
  }

  /** The alternation `(src|config|scripts|styles)\/[a-zA-Z0-9_\/]+\b` tried
      in order at `p`. */
  function DirectoryAlternative(s: string, p: nat, k: nat): (e: Option<nat>)
    requires p <= |s|
    ensures e.Some? ==> p < e.value <= |s| && BoundaryAt(s, e.value)
    ensures e.Some? ==> exists j :: k <= j < |DirectoryNames| && UnderDirectory(s[p..e.value], DirectoryNames[j])
    decreases |DirectoryNames| - k
  {
    if k >= |DirectoryNames| then None
    else
      var head := DirectoryNames[k] + "/";
      if p + |head| <= |s| && s[p..p + |head|] == head then
        var q := p + |head|;
        match LastBoundary(s, q, PathRun(s, q))
        case Some(e) =>
          DirectoryShape(s, p, DirectoryNames[k], e);
          Some(e)
        case None => DirectoryAlternative(s, p, k + 1)
      else DirectoryAlternative(s, p, k + 1)
  }

  /** The directory and its slash at `p`, followed by path characters up to
      `e`, make a directory path. */
  lemma DirectoryShape(s: string, p: nat, dir: string, e: nat)
    requires p + |dir| + 1 < e <= |s| && s[p..p + |dir| + 1] == dir + "/"
    requires forall k :: p + |dir| + 1 <= k < e ==> IsPathChar(s[k])
    ensures UnderDirectory(s[p..e], dir)
  {
    var f := s[p..e];
    assert f[..|dir| + 1] == s[p..p + |dir| + 1];
    assert forall j :: |dir| + 1 <= j < |f| ==> f[j] == s[p + j];
  }

  /** `/\b(src|config|scripts|styles)\/[a-zA-Z0-9_\/]+\b/` at `p`. */
  function DirectoryMatchAt(s: string, p: nat): (e: Option<nat>)
    requires p <= |s|
    ensures e.Some? ==> p < e.value <= |s| && BoundaryAt(s, p) && BoundaryAt(s, e.value)
    ensures e.Some? ==> IsDirectoryPath(s[p..e.value])
  {
    if !BoundaryAt(s, p) then None else DirectoryAlternative(s, p, 0)
  }

  datatype FilePattern = FileName | Directory

  /** What a match of the pattern looks like. */
  predicate PatternShape(pattern: FilePattern, f: string) {
    match pattern
    case FileName => IsFileName(f)
    case Directory => IsDirectoryPath(f)
  }

  /** One of the two patterns at `p`: a match ends at `e.value`, lies between
      word boundaries and has the pattern's shape. */
  function MatchAt(s: string, p: nat, pattern: FilePattern): (e: Option<nat>)
    requires p <= |s|
    ensures e.Some? ==> p < e.value <= |s| && BoundaryAt(s, p) && BoundaryAt(s, e.value)
    ensures e.Some? ==> PatternShape(pattern, s[p..e.value])
  {
    match pattern
    case FileName => FileNameMatchAt(s, p)
    case Directory => DirectoryMatchAt(s, p)
  }

  /** The matches of a global pattern from position `p` on: a match resumes
      the scan at its end, a miss moves on one character. */
  function Scan(s: string, p: nat, pattern: FilePattern): (found: seq<string>)
    requires p <= |s|
    ensures forall f :: f in found ==>
      exists a, b :: p <= a < b <= |s| && f == s[a..b] && MatchAt(s, a, pattern) == Some(b)
    decreases |s| - p
  {
    if p == |s| then []
    else
      match MatchAt(s, p, pattern)
      case Some(e) => [s[p..e]] + Scan(s, e, pattern)
      case None => Scan(s, p + 1, pattern)
  }

  /** `message.match(pattern) || []`. */
  function Matches(message: string, pattern: FilePattern): seq<string> {
    Scan(message, 0, pattern)
  }

  predicate NoDuplicates<T(==)>(s: seq<T>) {
    forall i, j :: 0 <= i < j < |s| ==> s[i] != s[j]
  }

  /** `[...new Set(s)]`: first occurrences, in order. */
  function Distinct<T(==,!new)>(s: seq<T>): (r: seq<T>)
    ensures NoDuplicates(r)
    ensures forall x :: x in r <==> x in s
    decreases |s|
  {
    if s == [] then []
    else
      var d := Distinct(s[..|s| - 1]);
      assert forall x :: x in s <==> x in s[..|s| - 1] || x == s[|s| - 1];
      if s[|s| - 1] in d then d else d + [s[|s| - 1]]
  }

  /** What `extractFileReferences` returns. */
  function FileReferences(message: string): seq<string> {
    Distinct(Matches(message, FileName) + Matches(message, Directory))
  }

  /** `extractFileReferences`: push the matches of each pattern in turn,
      then drop repeats. */
  method ExtractFileReferences(message: string) returns (files: seq<string>)
    ensures files == FileReferences(message)
    ensures NoDuplicates(files)
    ensures forall f :: f in files <==> f in Matches(message, FileName) || f in Matches(message, Directory)
  {
    var patterns := [FileName, Directory];
    var collected: seq<string> := [];
    for i := 0 to |patterns|
      invariant collected == if i == 0 then [] else if i == 1 then Matches(message, FileName)
                             else Matches(message, FileName) + Matches(message, Directory)
    {
      collected := collected + Matches(message, patterns[i]);
    }
    files := Distinct(collected);
  }

  /** Every reference is a piece of the message between word boundaries,
      and is either a path ending in a dot and one of the extensions or a path
      under one of the directories; so it is non-empty and, for a one-line
      message, one line. */
  lemma FileReferencesFromMessage(message: string)
    ensures forall f :: f in FileReferences(message) ==>
      (IsFileName(f) || IsDirectoryPath(f))
      && exists a, b :: 0 <= a < b <= |message| && f == message[a..b]
                        && BoundaryAt(message, a) && BoundaryAt(message, b)
  {
    forall f | f in FileReferences(message)
      ensures (IsFileName(f) || IsDirectoryPath(f))
              && exists a, b :: 0 <= a < b <= |message| && f == message[a..b]
                                && BoundaryAt(message, a) && BoundaryAt(message, b)
    {
      var pattern := if f in Matches(message, FileName) then FileName else Directory;
      var a, b :| 0 <= a < b <= |message| && f == message[a..b] && MatchAt(message, a, pattern) == Some(b);
    }
  }

  // ---------------------------------------------------------------- the task

  /** The `context` argument: absent or falsy, a string, or an object (the
      default `{}`), which a template literal renders as `[object Object]`. */
  datatype Context = NoContext | TextContext(text: string) | ObjectContext

  /** `${task.context || 'General coding task'}`. */
  function ContextText(c: Context): string {
    match c
    case NoContext => "General coding task"
    case TextContext(t) => if t == "" then "General coding task" else t
    case ObjectContext => "[object Object]"
  }

  datatype Task = Task(
    id: string,
    timestamp: string,
    mode: string,
    userMessage: string,
    context: Context,
    task: string,
    expectedOutcome: string,
    validationGates: seq<string>,
    filesAffected: seq<string>,
    priority: string,
    complexity: string)

  const ValidationGates: seq<string> := ["unit", "lint", "type", "docs"]

  /** `task_${Date.now()}_${taskCounter}`. */
  function TaskId(now: nat, counter: nat): string {
    "task_" + NatToString(now) + "_" + NatToString(counter)
  }

  /** The task object `createMCPTask` builds once the counter is `counter`. */
  function DraftTask(message: string, context: Context, mode: string, now: nat, timestamp: string, counter: nat): Task {
    Task(TaskId(now, counter), timestamp, mode, message, context,
         ExtractTaskDescription(message), OutcomeText(InferExpectedOutcome(message)),
         ValidationGates, FileReferences(message),
         LevelText(AssessPriority(message)), LevelText(AssessComplexity(message)))
  }

  function Quote(s: string): string {
    "\"" + s + "\""
  }

  /** `[${xs.map(x => `"${x}"`).join(', ')}]`, with `quote` doing the map. */
  function QuotedList(xs: seq<string>, quote: string -> string): string {
    "[" + Join(seq(|xs|, i requires 0 <= i < |xs| => quote(xs[i])), ", ") + "]"
  }

  /** `${xs.join(', ') || 'None detected'}`. */
  function ListOrNone(xs: seq<string>): string {
    var joined := Join(xs, ", ");
    if joined == "" then "None detected" else joined
  }

  /** The nine frontmatter keys, in order. */
  const FrontmatterKeys: seq<string> := [
    "task", "context", "expected_outcome", "validation_gates", "files_affected",
    "priority", "complexity", "timestamp", "source"]

  /** The nine frontmatter values, in the order of the keys, each put in
      quotes by `quote`; the `source` value is fixed. */
  function FrontmatterValues(t: Task, quote: string -> string): seq<string> {
    [quote(t.task), quote(ContextText(t.context)), quote(t.expectedOutcome),
     QuotedList(t.validationGates, quote), QuotedList(t.filesAffected, quote),
     quote(t.priority), quote(t.complexity), quote(t.timestamp), "\"cyberpug-cafe-mcp\""]
  }

  /** The frontmatter: `---`, one `key: value` line per key, `---`. */
  function Frontmatter(t: Task, quote: string -> string): seq<string> {
    var values := FrontmatterValues(t, quote);
    ["---"] + seq(9, i requires 0 <= i < 9 => FrontmatterKeys[i] + ": " + values[i]) + ["---"]
  }

  /** The Markdown summary after the frontmatter. */
  function Summary(t: Task): seq<string> {
    ["",
     "**User Request:** " + t.userMessage,
     "",
     "**Auto-Analysis:**",
     "- Priority: " + t.priority,
     "- Complexity: " + t.complexity,
     "- Files: " + ListOrNone(t.filesAffected),
     "",
     "**Validation Gates:** " + Join(t.validationGates, ", ")]
  }

  /** The lines `serializeTaskToYAML` joins. */
  function YamlLines(t: Task, quote: string -> string): seq<string> {
    Frontmatter(t, quote) + Summary(t)
  }

  /** `serializeTaskToYAML`, which puts values in double quotes as they are. */
  function SerializeTaskToYaml(t: Task): string {
    Join(YamlLines(t, Quote), "\n")
  }

  /** No frontmatter value holds a line break. */
  predicate OneLineValues(t: Task, quote: string -> string) {
    forall i :: 0 <= i < 9 ==> '\n' !in FrontmatterValues(t, quote)[i]
  }

  lemma KeysOneLine()
    ensures forall i :: 0 <= i < 9 ==> '\n' !in FrontmatterKeys[i] + ": "
  {
    forall i | 0 <= i < 9
      ensures '\n' !in FrontmatterKeys[i] + ": "
    {
      var k := FrontmatterKeys[i];
      assert k == "task" || k == "context" || k == "expected_outcome" || k == "validation_gates"
        || k == "files_affected" || k == "priority" || k == "complexity" || k == "timestamp" || k == "source";
    }
  }

  /** What the frontmatter lines hold, line by line. */
  lemma FrontmatterLines(t: Task, quote: string -> string)
    ensures var lines := YamlLines(t, quote);
      |lines| == 20 && lines[0] == "---" && lines[10] == "---"
      && forall i :: 1 <= i < 10 ==>
           lines[i] == FrontmatterKeys[i - 1] + ": " + FrontmatterValues(t, quote)[i - 1]
  {
  }

  /** A line break in a value is the only way a frontmatter line splits. */
  lemma FrontmatterLinesOneLine(t: Task, quote: string -> string, n: nat)
    requires n <= 9
    requires forall i :: n <= i < 9 ==> '\n' !in FrontmatterValues(t, quote)[i]
    ensures forall i :: n + 1 <= i < 11 ==> '\n' !in YamlLines(t, quote)[i]
  {
    FrontmatterLines(t, quote);
    KeysOneLine();
    var lines := YamlLines(t, quote);
    forall i | n + 1 <= i < 10
      ensures '\n' !in lines[i]
    {
      var key := FrontmatterKeys[i - 1] + ": ";
      var value := FrontmatterValues(t, quote)[i - 1];
      assert lines[i] == key + value;
      assert '\n' !in key && '\n' !in value;
    }
  }

  /** With no line break in the values, line 1 and line 11 of the YAML are
      the `---` delimiters and the nine lines between are the keys in
      order. */
  lemma {:induction false} FrontmatterDelimited(t: Task, quote: string -> string)
    requires OneLineValues(t, quote)
    ensures var lines := Split(Join(YamlLines(t, quote), "\n"), '\n');
      |lines| >= 11 && lines[0] == "---" && lines[10] == "---"
      && forall i :: 1 <= i < 10 ==> StartsWith(lines[i], FrontmatterKeys[i - 1] + ": ")
  {
    var parts := YamlLines(t, quote);
    FrontmatterLines(t, quote);
    FrontmatterLinesOneLine(t, quote, 0);
    SplitJoinPrefix(parts, '\n', 11);
    var lines := Split(Join(parts, "\n"), '\n');
    assert lines[..11] == parts[..11];
    forall i | 1 <= i < 10
      ensures StartsWith(lines[i], FrontmatterKeys[i - 1] + ": ")
    {
      assert lines[i] == parts[i];
      StartsWithAppend(FrontmatterKeys[i - 1] + ": ", FrontmatterValues(t, quote)[i - 1]);
    }
  }

  lemma StartsWithAppend(p: string, x: string)
    ensures StartsWith(p + x, p)
  {
    assert (p + x)[..|p|] == p;
  }

  /** The drafted task text holds no line break when the message holds none. */
  lemma TaskTextOneLine(message: string)
    requires '\n' !in message
    ensures '\n' !in ExtractTaskDescription(message)
  {
    var lo := ExtractTaskDescriptionShape(message);
    StretchOneLine(ExtractTaskDescription(message), message, lo);
  }

  lemma StretchOneLine(r: string, message: string, lo: nat)
    requires DescribesStretch(r, message, lo) && '\n' !in message
    ensures '\n' !in r
  {
    if |r| > 0 {
      SliceAvoids(message, lo + 1, lo + |r|, '\n');
      UpperCharKeepsLines(message[lo]);
      assert r == [r[0]] + r[1..];
    }
  }

  /** The frontmatter values are one line each when the interpolated ones are. */
  lemma ValuesOneLine(t: Task, quote: string -> string)
    requires '\n' !in quote(t.task) && '\n' !in quote(ContextText(t.context))
    requires '\n' !in quote(t.expectedOutcome)
    requires '\n' !in QuotedList(t.validationGates, quote) && '\n' !in QuotedList(t.filesAffected, quote)
    requires '\n' !in quote(t.priority) && '\n' !in quote(t.complexity) && '\n' !in quote(t.timestamp)
    ensures OneLineValues(t, quote)
  {
  }

  lemma QuotedListOneLine(xs: seq<string>, quote: string -> string)
    requires forall x :: x in xs ==> '\n' !in quote(x)
    ensures '\n' !in QuotedList(xs, quote)
  {
    var quoted := seq(|xs|, i requires 0 <= i < |xs| => quote(xs[i]));
    assert forall p :: p in quoted ==> '\n' !in p;
    JoinAvoids(quoted, ", ", '\n');
  }

  lemma QuoteOneLine(s: string)
    requires '\n' !in s
    ensures '\n' !in Quote(s)
  {
  }

  lemma UpperCharKeepsLines(c: char)
    requires c != '\n'
    ensures UpperChar(c) != '\n'
  {
  }

  lemma SliceAvoids(s: string, a: nat, b: nat, c: char)
    requires a <= b <= |s| && c !in s
    ensures c !in s[a..b]
  {
  }

  lemma LevelTextOneLine(l: Level)
    ensures '\n' !in LevelText(l)
  {
  }

  /** One lemma per outcome: the five texts together are too long to check
      in one proof. */
  lemma OutcomeTextOneLine(o: Outcome)
    ensures '\n' !in OutcomeText(o)
  {
    match o
    case BugFix => BugFixTextOneLine();
    case Feature => FeatureTextOneLine();
    case Change => ChangeTextOneLine();
    case Creation => CreationTextOneLine();
    case Generic => GenericTextOneLine();
  }

  lemma BugFixTextOneLine() ensures '\n' !in OutcomeText(BugFix) {}
  lemma FeatureTextOneLine() ensures '\n' !in OutcomeText(Feature) {}
  lemma ChangeTextOneLine() ensures '\n' !in OutcomeText(Change) {}
  lemma CreationTextOneLine() ensures '\n' !in OutcomeText(Creation) {}
  lemma GenericTextOneLine() ensures '\n' !in OutcomeText(Generic) {}

  lemma GatesOneLine()
    ensures forall g :: g in ValidationGates ==> '\n' !in Quote(g)
  {
  }

  /** The values of a drafted task hold no line break when the message, the
      timestamp and the context hold none. */
  lemma {:induction false} DraftIsOneLine(message: string, context: Context, mode: string, now: nat, timestamp: string, counter: nat)
    requires '\n' !in message && '\n' !in timestamp && '\n' !in ContextText(context)
    ensures OneLineValues(DraftTask(message, context, mode, now, timestamp, counter), Quote)
  {
    var t := DraftTask(message, context, mode, now, timestamp, counter);
    TaskTextOneLine(message);
    QuoteOneLine(t.task);
    QuoteOneLine(ContextText(context));
    OutcomeTextOneLine(InferExpectedOutcome(message));
    QuoteOneLine(t.expectedOutcome);
    LevelTextOneLine(AssessPriority(message));
    QuoteOneLine(t.priority);
    LevelTextOneLine(AssessComplexity(message));
    QuoteOneLine(t.complexity);
    QuoteOneLine(timestamp);
    FileReferencesFromMessage(message);
    forall f | f in t.filesAffected
      ensures '\n' !in Quote(f)
    {
      QuoteOneLine(f);
    }
    QuotedListOneLine(t.filesAffected, Quote);
    GatesOneLine();
    QuotedListOneLine(t.validationGates, Quote);
    ValuesOneLine(t, Quote);
  }

  /** A task text with one line break breaks the frontmatter: its eleventh
      line is then the `source` line and the closing `---` moves down. */
  lemma {:induction false} LineBreakShiftsFrontmatter(t: Task, before: string, after: string)
    requires t.task == before + "\n" + after && '\n' !in before && '\n' !in after
    requires forall i :: 1 <= i < 9 ==> '\n' !in FrontmatterValues(t, Quote)[i]
    ensures var lines := Split(SerializeTaskToYaml(t), '\n');
      |lines| >= 12 && lines[10] == "source: \"cyberpug-cafe-mcp\"" && lines[11] == "---"
  {
    var parts := YamlLines(t, Quote);
    FrontmatterLines(t, Quote);
    FrontmatterLinesOneLine(t, Quote, 1);
    var first := "task: \"" + before;
    var second := after + "\"";
    assert parts[1] == first + "\n" + second;
    var split := [parts[0], first, second] + parts[2..];
    JoinSplitsPiece(parts, first, second, "\n");
    forall i | 3 <= i < 12
      ensures split[i] == parts[i - 1]
    {
      ShiftedIndex(parts, first, second, i);
    }
    SplitJoinPrefix(split, '\n', 12);
    var joined := Join(split, ['\n']);
    assert joined == SerializeTaskToYaml(t);
    var lines := Split(joined, '\n');
    PrefixIndex(lines, split, 12, 10);
    PrefixIndex(lines, split, 12, 11);
    SourceLine(t, Quote);
  }

  lemma PrefixIndex<T>(a: seq<T>, b: seq<T>, n: nat, i: nat)
    requires i < n <= |a| && n <= |b| && a[..n] == b[..n]
    ensures a[i] == b[i]
  {
    assert a[i] == a[..n][i];
  }

  lemma ShiftedIndex<T>(parts: seq<T>, first: T, second: T, i: nat)
    requires 2 <= |parts| && 3 <= i <= |parts|
    ensures ([parts[0], first, second] + parts[2..])[i] == parts[i - 1]
  {
  }

  lemma SourceLine(t: Task, quote: string -> string)
    ensures YamlLines(t, quote)[9] == "source: \"cyberpug-cafe-mcp\""
  {
    FrontmatterLines(t, quote);
    var value := FrontmatterValues(t, quote)[8];
    assert value == "\"cyberpug-cafe-mcp\"";
    assert YamlLines(t, quote)[9] == FrontmatterKeys[8] + ": " + value;
    SourceText();
  }

  lemma SourceText()
    ensures FrontmatterKeys[8] + ": " + "\"cyberpug-cafe-mcp\"" == "source: \"cyberpug-cafe-mcp\""
  {
  }

  /** Joining with the second piece cut at a line break is the same text. */
  lemma JoinSplitsPiece(parts: seq<string>, first: string, second: string, sep: string)
    requires |parts| > 2 && parts[1] == first + sep + second
    ensures Join([parts[0], first, second] + parts[2..], sep) == Join(parts, sep)
  {
    var rest := parts[2..];
    var split := [parts[0], first, second] + rest;
    assert split[1..] == [first, second] + rest;
    assert [first, second] + rest == [first] + ([second] + rest);
    JoinCons(parts[0], [first, second] + rest, sep);
    JoinCons(first, [second] + rest, sep);
    JoinCons(second, rest, sep);
    JoinCons(parts[0], parts[1..], sep);
    JoinCons(parts[1], rest, sep);
    assert parts == [parts[0]] + parts[1..];
    assert parts[1..] == [parts[1]] + rest;
    var tail := Join(rest, sep);
    assert Join(split, sep) == parts[0] + sep + (first + sep + (second + sep + tail));
    assert Join(parts, sep) == parts[0] + sep + ((first + sep + second) + sep + tail);
    ConcatFive(first, sep, second, sep, tail);
  }

  lemma ConcatFive<T>(a: seq<T>, b: seq<T>, c: seq<T>, d: seq<T>, e: seq<T>)
    ensures a + b + (c + d + e) == (a + b + c) + d + e
  {
  }

  /** A message that starts with none of the prefixes and has no whitespace
      at either end becomes the task text as it is, apart from its first
      letter: a line break inside it is kept. */
  lemma UnprefixedMessageKept(message: string)
    requires |message| > 0 && LowerChar(message[0]) !in {'p', 'c', 'i', 'h', 'm', 'd'}
    requires !IsSpace(message[0]) && !IsSpace(message[|message| - 1])
    ensures ExtractTaskDescription(message) == Capitalized(message)
  {
    NothingStripped(message);
    TrimFixed(message);
  }

  /** A YAML double-quoted scalar: backslash, quote and line break escaped. */
  function EscapeChar(c: char): (r: string)
    ensures '\n' !in r
  {
    if c == '\\' then "\\\\" else if c == '"' then "\\\"" else if c == '\n' then "\\n" else [c]
  }

  function Escape(s: string): (r: string)
    ensures '\n' !in r
    decreases |s|
  {
    if s == [] then "" else EscapeChar(s[0]) + Escape(s[1..])
  }

  function EscapedQuote(s: string): (r: string)
    ensures '\n' !in r
  {
    "\"" + Escape(s) + "\""
  }

  /** The serialisation with every frontmatter value escaped. */
  function SerializeTaskToYamlEscaped(t: Task): string {
    Join(YamlLines(t, EscapedQuote), "\n")
  }

  /** With escaping, every task gets its delimiters on lines 1 and 11. */
  lemma EscapedFrontmatterDelimited(t: Task)
    ensures var lines := Split(SerializeTaskToYamlEscaped(t), '\n');
      |lines| >= 11 && lines[0] == "---" && lines[10] == "---"
      && forall i :: 1 <= i < 10 ==> StartsWith(lines[i], FrontmatterKeys[i - 1] + ": ")
  {
    QuotedListOneLine(t.validationGates, EscapedQuote);
    QuotedListOneLine(t.filesAffected, EscapedQuote);
    ValuesOneLine(t, EscapedQuote);
    FrontmatterDelimited(t, EscapedQuote);
  }

  // ---------------------------------------------------------------- the handler

  datatype ServerStatus = Unknown | Connected | Disconnected | Checking

  /** What the health request came back with: nothing (network error,
      timeout, bad JSON), or an HTTP reply whose body may say `status: 'ok'`
      or `healthy: true`. */
  datatype HealthReply = Unreachable | Replied(httpOk: bool, statusOk: bool, healthy: bool)

  predicate Healthy(reply: HealthReply) {
    reply.Replied? && reply.httpOk && (reply.statusOk || reply.healthy)
  }

  /** `getServerStatusDescription`. */
  function StatusDescription(status: ServerStatus): string {
    match status
    case Connected => "MCP server is connected and ready for tool execution."
    case Disconnected => "MCP server is not available. Tasks will be saved locally for manual processing."
    case Checking => "Checking MCP server connection..."
    case Unknown => "MCP server status unknown. Tasks will be saved locally."
  }

  /** The four descriptions differ (already in length), so the text tells
      the status apart. */
  lemma StatusDescriptionsDiffer(a: ServerStatus, b: ServerStatus)
    ensures StatusDescription(a) == StatusDescription(b) ==> a == b
  {
    DescriptionLength(a);
    DescriptionLength(b);
  }

  function DescriptionSize(s: ServerStatus): nat {
    match s
    case Connected => 53
    case Disconnected => 79
    case Checking => 33
    case Unknown => 55
  }

  lemma DescriptionLength(s: ServerStatus)
    ensures |StatusDescription(s)| == DescriptionSize(s)
  {
  }

  class McpHandler {
    var currentMode: string
    var taskCounter: nat
    var serverStatus: ServerStatus
    var lastStatusCheck: int

    ghost predicate Valid()
      reads this
    {
      currentMode == "plan" || currentMode == "act"
    }

    constructor()
      ensures Valid()
      ensures currentMode == "plan" && taskCounter == 0
      ensures serverStatus == Unknown && lastStatusCheck == 0
    {
      currentMode := "plan";
      taskCounter := 0;
      serverStatus := Unknown;
      lastStatusCheck := 0;
    }

    /** `setMode`: only `plan` and `act` are accepted. */
    method SetMode(mode: string)
      requires Valid()
      modifies this`currentMode
      ensures Valid()
      ensures currentMode == if mode == "plan" || mode == "act" then mode else old(currentMode)
    {
      if mode != "plan" && mode != "act" {
        return;
      }
      currentMode := mode;
    }

    /** `createMCPTask`, with `now` the `Date.now()` reading and `timestamp`
        its ISO text. */
    method CreateMcpTask(message: string, context: Context, now: nat, timestamp: string) returns (task: Task)
      modifies this`taskCounter
      ensures taskCounter == old(taskCounter) + 1
      ensures task == DraftTask(message, context, currentMode, now, timestamp, taskCounter)
      ensures task.mode == currentMode && task.validationGates == ["unit", "lint", "type", "docs"]
      ensures task.id == TaskId(now, taskCounter) && task.userMessage == message
    {
      taskCounter := taskCounter + 1;
      var files := ExtractFileReferences(message);
      task := Task(TaskId(now, taskCounter), timestamp, currentMode, message, context,
                   ExtractTaskDescription(message), OutcomeText(InferExpectedOutcome(message)),
                   ValidationGates, files,
                   LevelText(AssessPriority(message)), LevelText(AssessComplexity(message)));
    }

    /** `processMessageForMCP`: a coding request is always drafted, and it
        is handed back (to be sent) only in act mode. */
    method ProcessMessageForMcp(message: string, context: Context, now: nat, timestamp: string)
      returns (r: Option<Task>)
      requires Valid()
      modifies this`taskCounter
      ensures Valid()
      ensures taskCounter == old(taskCounter) + if IsActionableCodingRequest(message) then 1 else 0
      ensures r.Some? <==> IsActionableCodingRequest(message) && currentMode == "act"
      ensures r.Some? ==> r.value == DraftTask(message, context, "act", now, timestamp, taskCounter)
    {
      if IsActionableCodingRequest(message) {
        var task := CreateMcpTask(message, context, now, timestamp);
        if currentMode == "plan" {
          return None;
        }
        return Some(task);
      }
      return None;
    }

    /** The synchronous start of `checkServerStatus` at time `now`: within
        5000 ms of the last check it answers from the stored status
        (`Some`) and changes nothing; otherwise it records the time, marks
        the status `checking` and issues the request (`None`). */
    method CheckServerStatus(now: int) returns (answer: Option<bool>)
      modifies this`lastStatusCheck, this`serverStatus
      ensures now - old(lastStatusCheck) < 5000 ==>
        answer == Some(old(serverStatus) == Connected)
        && lastStatusCheck == old(lastStatusCheck) && serverStatus == old(serverStatus)
      ensures now - old(lastStatusCheck) >= 5000 ==>
        answer == None && lastStatusCheck == now && serverStatus == Checking
    {
      if now - lastStatusCheck < 5000 {
        return Some(serverStatus == Connected);
      }
      lastStatusCheck := now;
      serverStatus := Checking;
      return None;
    }

    /** The end of `checkServerStatus`, once the request has settled. */
    method CompleteStatusCheck(reply: HealthReply) returns (connected: bool)
      modifies this`serverStatus
      ensures connected <==> Healthy(reply)
      ensures serverStatus == if connected then Connected else Disconnected
    {
      if reply.Replied? && reply.httpOk && (reply.statusOk || reply.healthy) {
        serverStatus := Connected;
        return true;
      }
      serverStatus := Disconnected;
      return false;
    }

    /** `getServerStatusDescription`. */
    function GetServerStatusDescription(): string
      reads this
    {
      StatusDescription(serverStatus)
    }
  }
}
