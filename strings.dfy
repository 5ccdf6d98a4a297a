/** The JavaScript string primitives the browser scripts rely on, over `seq<char>`:
    the `\s` and `\w` character classes, ASCII case mapping, `trim`, the
    `replace(/\s+/g, ' ')` idiom, `includes`, `startsWith`, `split` on one
    character, `join`, and whole-word (`\b…\b`) occurrence. A `char` is a
    Unicode scalar value, while a JavaScript string is a sequence of UTF-16 code
    units, so `length` and `substring` are modelled through `Utf16Length`,
    `Encode` and `PrefixWithin`. */
module Strings {

  datatype Option<+T> = None | Some(value: T)

  /** A character matched by `\s` in a JavaScript regular expression; these are
      also exactly the characters `String.prototype.trim` removes. */
  predicate IsSpace(c: char) {
    c == ' ' || c == '\t' || c == '\n' || c == '\U{000B}' || c == '\U{000C}' || c == '\r'
    || c == '\U{00A0}' || c == '\U{1680}' || ('\U{2000}' <= c <= '\U{200A}')
    || c == '\U{2028}' || c == '\U{2029}' || c == '\U{202F}' || c == '\U{205F}'
    || c == '\U{3000}' || c == '\U{FEFF}'
  }

  /** A character that `.` in a JavaScript regular expression does not match. */
  predicate IsLineTerminator(c: char) {
    c == '\n' || c == '\r' || c == '\U{2028}' || c == '\U{2029}'
  }

  /** A character matched by `\w`: `[A-Za-z0-9_]`. */
  predicate IsWordChar(c: char) {
    ('a' <= c <= 'z') || ('A' <= c <= 'Z') || ('0' <= c <= '9') || c == '_'
  }

  function LowerChar(c: char): char {
    if 'A' <= c <= 'Z' then (c as int + 32) as char else c
  }

  function UpperChar(c: char): char {
    if 'a' <= c <= 'z' then (c as int - 32) as char else c
  }

  /** `toLowerCase()`, on the ASCII letters. */
  function ToLower(s: string): (r: string)
    ensures |r| == |s|
    ensures forall i :: 0 <= i < |s| ==> r[i] == LowerChar(s[i])
  {
    seq(|s|, i requires 0 <= i < |s| => LowerChar(s[i]))
  }

  /** `toUpperCase()`, on the ASCII letters. */
  function ToUpper(s: string): (r: string)
    ensures |r| == |s|
    ensures forall i :: 0 <= i < |s| ==> r[i] == UpperChar(s[i])
  {
    seq(|s|, i requires 0 <= i < |s| => UpperChar(s[i]))
  }

  /** No character of `s` changes under `toUpperCase()`. */
  predicate IsUpperCased(s: string) {
    forall i :: 0 <= i < |s| ==> UpperChar(s[i]) == s[i]
  }

  /** `s === s.toUpperCase()` exactly when no character changes. */
  lemma UpperCasedIff(s: string)
    ensures IsUpperCased(s) <==> s == ToUpper(s)
  {
    if IsUpperCased(s) {
      assert forall i :: 0 <= i < |s| ==> ToUpper(s)[i] == s[i];
    }
  }

  /** A UTF-16 code unit: what a JavaScript string is a sequence of. */
  type CodeUnit = u: int | 0 <= u < 0x1_0000

  /** The code units `c` takes in UTF-16: one, or a surrogate pair above U+FFFF. */
  function UnitCount(c: char): nat {
    if c as int < 0x1_0000 then 1 else 2
  }

  /** `s.length` in JavaScript: the number of UTF-16 code units of `s`. */
  function Utf16Length(s: string): (n: nat)
    ensures |s| <= n <= 2 * |s|
  {
    if s == [] then 0 else UnitCount(s[0]) + Utf16Length(s[1..])
  }

  /** The length in code units is the number of characters exactly when no
      character lies above U+FFFF. */
  lemma {:induction false} Utf16LengthBmp(s: string)
    ensures Utf16Length(s) == |s| <==> forall i :: 0 <= i < |s| ==> s[i] as int < 0x1_0000
  {
    if s != [] {
      Utf16LengthBmp(s[1..]);
      assert forall i :: 1 <= i < |s| ==> s[i] == s[1..][i - 1];
    }
  }

  /** Characters above U+FFFF take two code units each. */
  lemma {:induction false} Utf16LengthAstral(s: string)
    requires forall i :: 0 <= i < |s| ==> s[i] as int >= 0x1_0000
    ensures Utf16Length(s) == 2 * |s|
  {
    if s != [] {
      assert forall i :: 0 <= i < |s| - 1 ==> s[1..][i] == s[i + 1];
      Utf16LengthAstral(s[1..]);
    }
  }

  lemma {:induction false} Utf16LengthAppend(s: string, t: string)
    ensures Utf16Length(s + t) == Utf16Length(s) + Utf16Length(t)
  {
    if s == [] {
      assert s + t == t;
    } else {
      assert (s + t)[0] == s[0] && (s + t)[1..] == s[1..] + t;
      Utf16LengthAppend(s[1..], t);
    }
  }

  /** The UTF-16 encoding of one character: a high surrogate from D800 to DBFF
      followed by a low one from DC00 to DFFF above U+FFFF. */
  function CharUnits(c: char): (u: seq<CodeUnit>)
    ensures |u| == UnitCount(c)
    ensures !(0xDC00 <= u[0] < 0xE000)
  {
    if c as int < 0x1_0000 then [c as int]
    else
      var v := c as int - 0x1_0000;
      [0xD800 + v / 0x400, 0xDC00 + v % 0x400]
  }

  /** The JavaScript string holding `s`: its UTF-16 code units. */
  function Encode(s: string): (u: seq<CodeUnit>)
    ensures |u| == Utf16Length(s)
    ensures |u| > 0 ==> !(0xDC00 <= u[0] < 0xE000)
  {
    if s == [] then [] else CharUnits(s[0]) + Encode(s[1..])
  }

  /** The longest prefix of `s` that fits in `n` code units (see
      `PrefixWithinFits`). This is `s.substring(0, n)` whenever that cut does not
      fall inside a surrogate pair. */
  function PrefixWithin(s: string, n: nat): (r: string)
    ensures |r| <= |s| && r == s[..|r|]
    decreases |s|
  {
    if s == [] || UnitCount(s[0]) > n then []
    else
      var rest := PrefixWithin(s[1..], n - UnitCount(s[0]));
      assert [s[0]] + rest == s[..|rest| + 1];
      [s[0]] + rest
  }

  /** The prefix fits in `n` code units, one more character would not fit, and
      a string that fits is kept whole. */
  lemma {:induction false} PrefixWithinFits(s: string, n: nat)
    ensures var r := PrefixWithin(s, n);
      Utf16Length(r) <= n
      && (|r| < |s| ==> Utf16Length(s[..|r| + 1]) > n)
      && (Utf16Length(s) <= n ==> r == s)
    decreases |s|
  {
    if s == [] {
    } else if UnitCount(s[0]) > n {
      Utf16LengthCons(s[0], []);
      assert s[..1] == [s[0]] + [];
    } else {
      var m := n - UnitCount(s[0]);
      var rest := PrefixWithin(s[1..], m);
      PrefixWithinFits(s[1..], m);
      Utf16LengthCons(s[0], rest);
      assert PrefixWithin(s, n) == [s[0]] + rest;
      if |rest| < |s| - 1 {
        assert s[..|rest| + 2] == [s[0]] + s[1..][..|rest| + 1];
        Utf16LengthCons(s[0], s[1..][..|rest| + 1]);
      }
    }
  }

  /** On characters above U+FFFF, two code units each, the prefix holds
      `n / 2` characters when there are that many. */
  lemma {:induction false} PrefixWithinAstral(s: string, n: nat)
    requires forall i :: 0 <= i < |s| ==> s[i] as int >= 0x1_0000
    ensures PrefixWithin(s, n) == s[..if |s| < n / 2 then |s| else n / 2]
  {
    var r := PrefixWithin(s, n);
    PrefixWithinFits(s, n);
    Utf16LengthAstral(r);
    if |r| < |s| {
      Utf16LengthAstral(s[..|r| + 1]);
    }
  }

  lemma Utf16LengthCons(c: char, t: string)
    ensures Utf16Length([c] + t) == UnitCount(c) + Utf16Length(t)
  {
    assert ([c] + t)[0] == c && ([c] + t)[1..] == t;
  }

  /** Removes the leading `\s` characters. */
  function TrimStart(s: string): (r: string)
    ensures |r| <= |s| && r == s[|s| - |r|..]
    ensures |r| > 0 ==> !IsSpace(r[0])
    ensures forall i :: 0 <= i < |s| - |r| ==> IsSpace(s[i])
    decreases |s|
  {
    if |s| > 0 && IsSpace(s[0]) then TrimStart(s[1..]) else s
  }

  /** Removes the trailing `\s` characters. */
  function TrimEnd(s: string): (r: string)
    ensures |r| <= |s| && r == s[..|r|]
    ensures |r| > 0 ==> !IsSpace(r[|r| - 1])
    ensures forall i :: |r| <= i < |s| ==> IsSpace(s[i])
    decreases |s|
  {
    if |s| > 0 && IsSpace(s[|s| - 1]) then TrimEnd(s[..|s| - 1]) else s
  }

  /** `trim()`. */
  function Trim(s: string): (r: string)
    ensures |r| <= |s|
    ensures |r| > 0 ==> !IsSpace(r[0]) && !IsSpace(r[|r| - 1])
  {
    TrimEnd(TrimStart(s))
  }

  /** A string with no whitespace at either end is left alone by `trim()`. */
  lemma TrimFixed(s: string)
    requires |s| > 0 && !IsSpace(s[0]) && !IsSpace(s[|s| - 1])
    ensures Trim(s) == s
  {
  }

  /** `trim()` cuts a slice out of its input. */
  lemma TrimIsSlice(s: string) returns (a: nat, b: nat)
    ensures a <= b <= |s| && Trim(s) == s[a..b]
  {
    var t := TrimStart(s);
    a := |s| - |t|;
    var e := TrimEnd(t);
    b := a + |e|;
    assert e == t[0..|e|];
    SliceOfSuffix(s, a, 0, |e|, e, a, b);
  }

  /** Trimming a suffix also cuts a slice out of the whole. */
  lemma TrimSuffixIsSlice(s: string, off: nat) returns (lo: nat, hi: nat)
    requires off <= |s|
    ensures lo <= hi <= |s| && Trim(s[off..]) == s[lo..hi]
  {
    var a, b := TrimIsSlice(s[off..]);
    lo, hi := off + a, off + b;
    SliceOfSuffix(s, off, a, b, Trim(s[off..]), lo, hi);
  }

  /** `trim()` gives the empty string exactly on all-whitespace input. */
  lemma TrimEmpty(s: string)
    ensures Trim(s) == "" <==> forall i :: 0 <= i < |s| ==> IsSpace(s[i])
  {
  }

  /** No two neighbouring characters are both whitespace. */
  predicate NoDoubleSpace(s: string) {
    forall i :: 0 <= i < |s| - 1 ==> !(IsSpace(s[i]) && IsSpace(s[i + 1]))
  }

  /** Every whitespace character is the plain space. */
  predicate OnlyPlainSpaces(s: string) {
    forall i :: 0 <= i < |s| ==> IsSpace(s[i]) ==> s[i] == ' '
  }

  /** `s.replace(/\s+/g, ' ')`: every maximal run of whitespace becomes one space. */
  function CollapseSpaces(s: string): (r: string)
    ensures OnlyPlainSpaces(r) && NoDoubleSpace(r)
    ensures forall c :: c in r ==> c in s || c == ' '
    ensures |r| > 0 <==> |s| > 0
    ensures |s| > 0 ==> (IsSpace(r[0]) <==> IsSpace(s[0]))
    decreases |s|
  {
    if |s| == 0 then ""
    else if IsSpace(s[0]) then " " + CollapseSpaces(TrimStart(s))
    else [s[0]] + CollapseSpaces(s[1..])
  }

  /** Collapsing keeps every character that is not whitespace. */
  lemma {:induction false} CollapseKeepsNonSpace(s: string, c: char)
    requires c in s && !IsSpace(c)
    ensures c in CollapseSpaces(s)
    decreases |s|
  {
    var i :| 0 <= i < |s| && s[i] == c;
    if i > 0 {
      if IsSpace(s[0]) {
        var t := TrimStart(s);
        assert t[i - (|s| - |t|)] == c;
        CollapseKeepsNonSpace(t, c);
      } else {
        assert s[1..][i - 1] == c;
        CollapseKeepsNonSpace(s[1..], c);
      }
    }
  }

  /** Every character is whitespace. */
  predicate AllSpace(s: string) {
    forall i :: 0 <= i < |s| ==> IsSpace(s[i])
  }

  /** A whitespace run collapses to one space. */
  lemma CollapseWhitespaceRun(w: string)
    requires |w| > 0 && AllSpace(w)
    ensures CollapseSpaces(w) == " "
  {
  }

  /** A character that is not whitespace is kept as it is. */
  lemma CollapseNonSpace(c: char)
    requires !IsSpace(c)
    ensures CollapseSpaces([c]) == [c]
  {
    assert [c][1..] == [];
  }

  /** Trimming the front of `s + t` trims inside `s`, or, when `s` is all
      whitespace, removes `s` and trims `t`. */
  lemma {:induction false} TrimStartAppend(s: string, t: string)
    ensures !AllSpace(s) ==> TrimStart(s + t) == TrimStart(s) + t
    ensures AllSpace(s) ==> TrimStart(s + t) == TrimStart(t)
    decreases |s|
  {
    if |s| == 0 {
      assert s + t == t;
    } else {
      assert (s + t)[0] == s[0] && (s + t)[1..] == s[1..] + t;
      if IsSpace(s[0]) {
        assert forall i :: 0 <= i < |s| - 1 ==> s[1..][i] == s[i + 1];
        assert AllSpace(s) <==> AllSpace(s[1..]);
        TrimStartAppend(s[1..], t);
      }
    }
  }

  /** `replace(/\s+/g, ' ')` works run by run: cutting the text anywhere but
      inside a whitespace run, the two parts collapse separately. With
      `CollapseWhitespaceRun` and `CollapseNonSpace` this fixes the result of
      every text: each maximal whitespace run becomes one space, and every
      other character is kept, in order. */
  lemma {:induction false} CollapseAppend(s: string, t: string)
    requires |s| == 0 || |t| == 0 || !IsSpace(s[|s| - 1]) || !IsSpace(t[0])
    ensures CollapseSpaces(s + t) == CollapseSpaces(s) + CollapseSpaces(t)
    decreases |s|
  {
    if |s| == 0 {
      assert s + t == t;
    } else if !IsSpace(s[0]) {
      CollapseAppend(s[1..], t);
      CollapseAppendChar(s, t);
    } else if AllSpace(s) {
      CollapseAppendRun(s, t);
    } else {
      var u := TrimStart(s);
      assert |u| > 0 && u[|u| - 1] == s[|s| - 1];
      CollapseAppend(u, t);
      CollapseAppendTrimmed(s, t);
    }
  }

  /** `CollapseSpaces` keeps a leading non-space character. */
  lemma CollapseHeadChar(x: string)
    requires |x| > 0 && !IsSpace(x[0])
    ensures CollapseSpaces(x) == [x[0]] + CollapseSpaces(x[1..])
  {
  }

  /** `CollapseSpaces` turns a leading whitespace run into one space. */
  lemma CollapseHeadSpace(x: string)
    requires |x| > 0 && IsSpace(x[0])
    ensures CollapseSpaces(x) == " " + CollapseSpaces(TrimStart(x))
  {
  }

  /** The step of `CollapseAppend` at a leading non-space character. */
  lemma CollapseAppendChar(s: string, t: string)
    requires |s| > 0 && !IsSpace(s[0])
    requires CollapseSpaces(s[1..] + t) == CollapseSpaces(s[1..]) + CollapseSpaces(t)
    ensures CollapseSpaces(s + t) == CollapseSpaces(s) + CollapseSpaces(t)
  {
    JoinTail(s, t);
    CollapseHeadChar(s + t);
    CollapseHeadChar(s);
    JoinAssociative([s[0]], CollapseSpaces(s[1..]), CollapseSpaces(t));
  }

  lemma JoinTail(s: string, t: string)
    requires |s| > 0
    ensures (s + t)[0] == s[0] && (s + t)[1..] == s[1..] + t
  {
  }

  /** The step of `CollapseAppend` when `s` is one whitespace run. */
  lemma CollapseAppendRun(s: string, t: string)
    requires |s| > 0 && AllSpace(s) && (|t| == 0 || !IsSpace(t[0]))
    ensures CollapseSpaces(s + t) == CollapseSpaces(s) + CollapseSpaces(t)
  {
    assert (s + t)[0] == s[0];
    TrimStartAppend(s, t);
    CollapseWhitespaceRun(s);
    assert TrimStart(t) == t;
  }

  /** The step of `CollapseAppend` at a leading whitespace run followed by
      more text. */
  lemma CollapseAppendTrimmed(s: string, t: string)
    requires |s| > 0 && IsSpace(s[0]) && !AllSpace(s)
    requires CollapseSpaces(TrimStart(s) + t) == CollapseSpaces(TrimStart(s)) + CollapseSpaces(t)
    ensures CollapseSpaces(s + t) == CollapseSpaces(s) + CollapseSpaces(t)
  {
    var st := s + t;
    assert st[0] == s[0];
    TrimStartAppend(s, t);
    CollapseHeadSpace(st);
    CollapseHeadSpace(s);
    JoinAssociative(" ", CollapseSpaces(TrimStart(s)), CollapseSpaces(t));
  }

  lemma JoinAssociative(x: string, y: string, z: string)
    ensures x + (y + z) == (x + y) + z
  {
  }

  /** A whitespace run between two non-space characters becomes exactly one
      space, and the text on either side is collapsed on its own. */
  lemma CollapseAroundRun(a: string, w: string, b: string)
    requires |a| > 0 && !IsSpace(a[|a| - 1])
    requires |w| > 0 && AllSpace(w)
    requires |b| > 0 && !IsSpace(b[0])
    ensures CollapseSpaces(a + w + b) == CollapseSpaces(a) + " " + CollapseSpaces(b)
  {
    var wb := w + b;
    assert wb[0] == w[0];
    CollapseWhitespaceRun(w);
    CollapseAppend(w, b);
    CollapseAppend(a, wb);
    JoinAssociative(a, w, b);
    JoinAssociative(CollapseSpaces(a), " ", CollapseSpaces(b));
  }

  /** A slice of a single-spaced string is single-spaced and uses only its
      characters. */
  lemma SliceShape(s: string, a: nat, b: nat)
    requires a <= b <= |s| && OnlyPlainSpaces(s) && NoDoubleSpace(s)
    ensures OnlyPlainSpaces(s[a..b]) && NoDoubleSpace(s[a..b])
    ensures forall c :: c in s[a..b] ==> c in s
  {
    assert forall k :: 0 <= k < b - a ==> s[a..b][k] == s[a + k];
  }

  lemma {:induction false} CollapseIdentity(s: string)
    requires OnlyPlainSpaces(s) && NoDoubleSpace(s)
    ensures CollapseSpaces(s) == s
    decreases |s|
  {
    if |s| > 0 {
      CleanTail(s);
      CollapseIdentity(s[1..]);
      CollapseStep(s);
      assert s == [s[0]] + s[1..];
    }
  }

  /** On single-spaced text the collapse consumes one character at a time. */
  lemma CollapseStep(s: string)
    requires |s| > 0 && OnlyPlainSpaces(s) && NoDoubleSpace(s)
    ensures CollapseSpaces(s) == [s[0]] + CollapseSpaces(s[1..])
  {
    if IsSpace(s[0]) {
      assert s[0] == ' ';
      assert |s| > 1 ==> !IsSpace(s[1]);
      assert TrimStart(s) == TrimStart(s[1..]) == s[1..];
    }
  }

  lemma CleanTail(s: string)
    requires |s| > 0 && OnlyPlainSpaces(s) && NoDoubleSpace(s)
    ensures OnlyPlainSpaces(s[1..]) && NoDoubleSpace(s[1..])
  {
    forall i | 0 <= i < |s| - 1
      ensures s[1..][i] == s[i + 1]
    {
    }
  }

  /** `s.startsWith(p)`; also `/^p/.test(s)` for a literal `p`. */
  predicate StartsWith(s: string, p: string) {
    |p| <= |s| && s[..|p|] == p
  }

  /** A string whose first character differs from the prefix's does not start with it. */
  lemma FirstCharRulesOut(s: string, p: string)
    requires |p| > 0 && (|s| == 0 || s[0] != p[0])
    ensures !StartsWith(s, p)
  {
    if |p| <= |s| {
      assert s[..|p|][0] == s[0];
    }
  }

  /** `s.includes(sub)`: `sub` occurs somewhere in `s`. */
  predicate Contains(s: string, sub: string)
    decreases |s|
  {
    StartsWith(s, sub) || (|s| > 0 && Contains(s[1..], sub))
  }

  lemma {:induction false} ContainsWitness(s: string, sub: string, i: nat)
    requires i <= |s| && StartsWith(s[i..], sub)
    ensures Contains(s, sub)
    decreases i
  {
    if i > 0 {
      assert s[1..][i - 1..] == s[i..];
      ContainsWitness(s[1..], sub, i - 1);
    }
  }

  /** Every character of an occurring `sub` is a character of `s`; used to refute occurrences. */
  lemma {:induction false} ContainsOnlyChars(s: string, sub: string, c: char)
    requires Contains(s, sub) && c in sub
    ensures c in s
    decreases |s|
  {
    if StartsWith(s, sub) {
      assert c in s[..|sub|];
    } else {
      ContainsOnlyChars(s[1..], sub, c);
    }
  }

  /** A character of `sub` missing from `s` rules out an occurrence of `sub`. */
  lemma NotContains(s: string, sub: string, c: char)
    requires c in sub && c !in s
    ensures !Contains(s, sub)
  {
    if Contains(s, sub) {
      ContainsOnlyChars(s, sub, c);
    }
  }

  /** Some word of `words` occurs in `s`: a regular expression that is an
      alternation of plain words, tested unanchored (or `words.some(w => s.includes(w))`). */
  predicate ContainsAny(s: string, words: seq<string>) {
    exists k :: 0 <= k < |words| && Contains(s, words[k])
  }

  /** `s` starts with some word of `words`: an alternation of plain words
      anchored at the start. */
  predicate StartsWithAny(s: string, words: seq<string>) {
    exists k :: 0 <= k < |words| && StartsWith(s, words[k])
  }

  lemma {:induction false} ContainsAppend(s: string, t: string, sub: string)
    requires Contains(s, sub)
    ensures Contains(s + t, sub)
    decreases |s|
  {
    if StartsWith(s, sub) {
      assert (s + t)[..|sub|] == s[..|sub|];
    } else {
      assert (s + t)[1..] == s[1..] + t;
      ContainsAppend(s[1..], t, sub);
    }
  }

  lemma ToLowerAppend(s: string, t: string)
    ensures ToLower(s + t) == ToLower(s) + ToLower(t)
  {
    assert forall i :: 0 <= i < |s + t| ==> ToLower(s + t)[i] == (ToLower(s) + ToLower(t))[i];
  }

  /** The index of the first occurrence of `c` in `s`. */
  function IndexOf(s: string, c: char): (k: nat)
    requires c in s
    ensures k < |s| && s[k] == c && c !in s[..k]
  {
    if s[0] == c then 0
    else
      var k := 1 + IndexOf(s[1..], c);
      assert s[..k] == [s[0]] + s[1..][..k - 1];
      k
  }

  /** `s.split(sep)` for a one-character separator: the pieces between separators,
      with an empty piece before a leading and after a trailing separator. */
  function Split(s: string, sep: char): (parts: seq<string>)
    ensures |parts| >= 1
    ensures forall p :: p in parts ==> sep !in p
    decreases |s|
  {
    if sep in s then
      var k := IndexOf(s, sep);
      [s[..k]] + Split(s[k + 1..], sep)
    else [s]
  }

  /** `parts.join(sep)`. */
  function Join(parts: seq<string>, sep: string): string
    decreases |parts|
  {
    if |parts| == 0 then ""
    else if |parts| == 1 then parts[0]
    else parts[0] + sep + Join(parts[1..], sep)
  }

  /** Splitting what was joined with a separator the pieces do not contain gives the pieces back. */
  lemma {:induction false} SplitJoin(parts: seq<string>, sep: char)
    requires |parts| >= 1
    requires forall p :: p in parts ==> sep !in p
    ensures Split(Join(parts, [sep]), sep) == parts
    decreases |parts|
  {
    if |parts| > 1 {
      var rest := Join(parts[1..], [sep]);
      assert Join(parts, [sep]) == parts[0] + [sep] + rest;
      assert sep !in parts[0] by { assert parts[0] in parts; }
      SplitAfterPiece(parts[0], sep, rest);
      SplitJoin(parts[1..], sep);
      assert parts == [parts[0]] + parts[1..];
    } else {
      assert Join(parts, [sep]) == parts[0];
    }
  }

  /** Joining the pieces of a split with the separator gives the string back. */
  lemma {:induction false} JoinSplit(s: string, sep: char)
    ensures Join(Split(s, sep), [sep]) == s
    decreases |s|
  {
    if sep in s {
      var k := IndexOf(s, sep);
      var rest := s[k + 1..];
      JoinSplit(rest, sep);
      var tail := Split(rest, sep);
      assert Split(s, sep) == [s[..k]] + tail;
      JoinCons(s[..k], tail, [sep]);
      SplitAround(s, k);
    }
  }

  /** Joining peels off the first piece. */
  lemma JoinCons(p: string, rest: seq<string>, sep: string)
    requires |rest| > 0
    ensures Join([p] + rest, sep) == p + sep + Join(rest, sep)
  {
    assert ([p] + rest)[1..] == rest;
  }

  /** A sequence is what comes before an element, the element, and what follows. */
  lemma SplitAround<T>(s: seq<T>, k: nat)
    requires k < |s|
    ensures s == s[..k] + [s[k]] + s[k + 1..]
  {
  }

  /** A slice of a suffix is a slice of the whole. */
  lemma SliceOfSuffix<T>(m: seq<T>, off: nat, a: nat, b: nat, d: seq<T>, lo: nat, hi: nat)
    requires off <= |m| && a <= b <= |m| - off && d == m[off..][a..b]
    requires lo == off + a && hi == off + b
    ensures d == m[lo..hi]
  {
  }

  /** The number of occurrences of a character. */
  function Count(s: string, c: char): nat
    decreases |s|
  {
    if |s| == 0 then 0 else (if s[0] == c then 1 else 0) + Count(s[1..], c)
  }

  lemma {:induction false} CountAppend(s: string, t: string, c: char)
    ensures Count(s + t, c) == Count(s, c) + Count(t, c)
    decreases |s|
  {
    if |s| > 0 {
      assert (s + t)[1..] == s[1..] + t;
      CountAppend(s[1..], t, c);
    } else {
      assert s + t == t;
    }
  }

  lemma {:induction false} CountPrefix(s: string, k: nat, c: char)
    requires k < |s| && s[k] == c && c !in s[..k]
    ensures Count(s, c) == 1 + Count(s[k + 1..], c)
  {
    CountAppend(s[..k], s[k..], c);
    CountAbsent(s[..k], c);
    assert s[..k] + s[k..] == s;
    assert s[k..][1..] == s[k + 1..];
  }

  lemma {:induction false} CountAbsent(s: string, c: char)
    requires c !in s
    ensures Count(s, c) == 0
    decreases |s|
  {
    if |s| > 0 {
      CountAbsent(s[1..], c);
    }
  }

  /** `s.split(sep).length` is one more than the number of separators. */
  lemma {:induction false} SplitLength(s: string, sep: char)
    ensures |Split(s, sep)| == Count(s, sep) + 1
    decreases |s|
  {
    if sep in s {
      var k := IndexOf(s, sep);
      CountPrefix(s, k, sep);
      SplitLength(s[k + 1..], sep);
    } else {
      CountAbsent(s, sep);
    }
  }

  /** `s.substring(0, n)` on a string, `a.slice(0, n)` on an array. */
  function Prefix<T>(s: seq<T>, n: nat): (r: seq<T>)
    ensures |r| <= n && |r| <= |s| && r == s[..|r|]
    ensures |s| <= n ==> r == s
    ensures n <= |s| ==> |r| == n
  {
    if n <= |s| then s[..n] else s
  }

  function DigitChar(d: nat): char
    requires d < 10
  {
    ['0', '1', '2', '3', '4', '5', '6', '7', '8', '9'][d]
  }

  /** The decimal text JavaScript gives a non-negative integer. */
  function NatToString(n: nat): (r: string)
    decreases n
  {
    if n < 10 then [DigitChar(n)] else NatToString(n / 10) + [DigitChar(n % 10)]
  }

  /** `w` occurs at index `i` of `s` with a word boundary (`\b`) on both sides;
      for a word `w` of `\w` characters this is what `/\bw\b/` finds at `i`. */
  predicate WholeWordAt(s: string, w: string, i: nat) {
    i + |w| <= |s| && s[i..i + |w|] == w
    && (i == 0 || !IsWordChar(s[i - 1]))
    && (i + |w| == |s| || !IsWordChar(s[i + |w|]))
  }

  /** `/\bw\b/.test(s)`. */
  predicate ContainsWholeWord(s: string, w: string) {
    exists i: nat :: i <= |s| && WholeWordAt(s, w, i)
  }

  /** A string of word characters and plain spaces. */
  predicate WordsAndSpaces(s: string) {
    forall i :: 0 <= i < |s| ==> IsWordChar(s[i]) || s[i] == ' '
  }

  predicate IsWord(w: string) {
    |w| > 0 && forall i :: 0 <= i < |w| ==> IsWordChar(w[i])
  }

  /** In a string of word characters and plain spaces, a word occurs between word
      boundaries exactly when it is one of the pieces of splitting at the spaces. */
  lemma WholeWordIffPiece(s: string, w: string)
    requires WordsAndSpaces(s) && IsWord(w)
    ensures ContainsWholeWord(s, w) <==> w in Split(s, ' ')
  {
    if ContainsWholeWord(s, w) {
      WholeWordToPiece(s, w);
    }
    if w in Split(s, ' ') {
      PieceToWholeWord(s, w);
    }
  }

  lemma {:induction false} WholeWordToPiece(s: string, w: string)
    requires WordsAndSpaces(s) && IsWord(w) && ContainsWholeWord(s, w)
    ensures w in Split(s, ' ')
    decreases |s|
  {
    var i: nat :| i <= |s| && WholeWordAt(s, w, i);
    if ' ' in s {
      var k := IndexOf(s, ' ');
      WholeWordSplits(s, w, k, i);
      if w != s[..k] {
        RestWordsAndSpaces(s, k);
        assert WholeWordAt(s[k + 1..], w, i - k - 1);
        WholeWordToPiece(s[k + 1..], w);
      }
      FirstPieceOrLater(s, ' ', w);
    } else {
      assert Split(s, ' ') == [s];
      WholeWordFills(s, w, i);
    }
  }

  /** A string's pieces are its first piece followed by the pieces after the
      first separator. */
  lemma FirstPieceOrLater(s: string, sep: char, w: string)
    requires sep in s
    requires w == s[..IndexOf(s, sep)] || w in Split(s[IndexOf(s, sep) + 1..], sep)
    ensures w in Split(s, sep)
  {
    var k := IndexOf(s, sep);
    var later := Split(s[k + 1..], sep);
    assert Split(s, sep) == [s[..k]] + later;
    InFrontOrRest(s[..k], later, w);
  }

  lemma InFrontOrRest(x: string, xs: seq<string>, w: string)
    requires w == x || w in xs
    ensures w in [x] + xs
  {
    if w != x {
      var j :| 0 <= j < |xs| && xs[j] == w;
      assert ([x] + xs)[j + 1] == w;
    }
  }

  lemma {:induction false} PieceToWholeWord(s: string, w: string)
    requires w in Split(s, ' ')
    ensures ContainsWholeWord(s, w)
    decreases |s|
  {
    if ' ' in s {
      var k := IndexOf(s, ' ');
      var rest := s[k + 1..];
      assert Split(s, ' ') == [s[..k]] + Split(rest, ' ');
      if w == s[..k] {
        assert WholeWordAt(s, w, 0);
      } else {
        PieceToWholeWord(rest, w);
        var j: nat :| j <= |rest| && WholeWordAt(rest, w, j);
        WholeWordShiftsRight(s, w, k, j);
      }
    } else {
      assert Split(s, ' ') == [s];
      assert WholeWordAt(s, w, 0);
    }
  }

  lemma RestWordsAndSpaces(s: string, k: nat)
    requires WordsAndSpaces(s) && k < |s|
    ensures WordsAndSpaces(s[k + 1..])
  {
    var rest := s[k + 1..];
    assert forall j :: 0 <= j < |rest| ==> rest[j] == s[k + 1 + j];
  }

  /** With no space in `s`, a whole-word occurrence is all of `s`. */
  lemma WholeWordFills(s: string, w: string, i: nat)
    requires WordsAndSpaces(s) && ' ' !in s && WholeWordAt(s, w, i)
    ensures w == s
  {
  }

  /** An occurrence before or after the first space of `s`. */
  lemma WholeWordSplits(s: string, w: string, k: nat, i: nat)
    requires WordsAndSpaces(s) && IsWord(w)
    requires k < |s| && s[k] == ' ' && ' ' !in s[..k]
    requires WholeWordAt(s, w, i)
    ensures w == s[..k] || (i > k && WholeWordAt(s[k + 1..], w, i - k - 1))
  {
    if i <= k {
      WholeWordBeforeSpace(s, w, k, i);
    } else {
      var rest := s[k + 1..];
      var j: nat := i - k - 1;
      assert rest[j..j + |w|] == s[i..i + |w|];
      assert j > 0 ==> rest[j - 1] == s[i - 1];
      assert j + |w| < |rest| ==> rest[j + |w|] == s[i + |w|];
    }
  }

  lemma WholeWordBeforeSpace(s: string, w: string, k: nat, i: nat)
    requires WordsAndSpaces(s) && IsWord(w)
    requires k < |s| && s[k] == ' ' && ' ' !in s[..k]
    requires WholeWordAt(s, w, i) && i <= k
    ensures w == s[..k]
  {
    assert i + |w| <= k;
    assert i + |w| == k;
    assert i == 0;
  }

  /** An occurrence after the first space of `s` is one in `s`. */
  lemma WholeWordShiftsRight(s: string, w: string, k: nat, j: nat)
    requires k < |s| && s[k] == ' '
    requires WholeWordAt(s[k + 1..], w, j)
    ensures ContainsWholeWord(s, w)
  {
    var rest := s[k + 1..];
    var i := j + k + 1;
    assert s[i..i + |w|] == rest[j..j + |w|];
    assert j > 0 ==> s[i - 1] == rest[j - 1];
    assert j + |w| < |rest| ==> s[i + |w|] == rest[j + |w|];
    assert WholeWordAt(s, w, i);
  }

  /** A piece free of the separator, then the separator: splitting takes the
      piece off the front. */
  lemma SplitAfterPiece(a: string, sep: char, b: string)
    requires sep !in a
    ensures Split(a + [sep] + b, sep) == [a] + Split(b, sep)
  {
    var s := a + [sep] + b;
    assert s[|a|] == sep;
    var k := IndexOf(s, sep);
    assert s[..|a|] == a;
    assert k == |a|;
    assert s[k + 1..] == b;
  }

  lemma JoinAvoids(parts: seq<string>, sep: string, c: char)
    requires forall p :: p in parts ==> c !in p
    requires c !in sep
    ensures c !in Join(parts, sep)
    decreases |parts|
  {
    if |parts| > 1 {
      JoinAvoids(parts[1..], sep, c);
    }
  }

  lemma SplitJoinCons(parts: seq<string>, sep: char)
    requires |parts| > 1 && sep !in parts[0]
    ensures Split(Join(parts, [sep]), sep) == [parts[0]] + Split(Join(parts[1..], [sep]), sep)
  {
    SplitAfterPiece(parts[0], sep, Join(parts[1..], [sep]));
  }

  lemma PrefixCons<T>(x: T, tail: seq<T>, ys: seq<T>, n: nat)
    requires 1 <= n <= |ys| && n - 1 <= |tail| && ys[0] == x && tail[..n - 1] == ys[1..n]
    ensures ([x] + tail)[..n] == ys[..n]
  {
    assert ([x] + tail)[..n] == [x] + tail[..n - 1];
    assert ys[..n] == [ys[0]] + ys[1..n];
  }

  lemma SplitJoinStep(parts: seq<string>, sep: char, n: nat)
    requires 1 < n <= |parts| && sep !in parts[0]
    requires |Split(Join(parts[1..], [sep]), sep)| >= n - 1
    requires Split(Join(parts[1..], [sep]), sep)[..n - 1] == parts[1..n]
    ensures |Split(Join(parts, [sep]), sep)| >= n
    ensures Split(Join(parts, [sep]), sep)[..n] == parts[..n]
  {
    SplitJoinCons(parts, sep);
    PrefixCons(parts[0], Split(Join(parts[1..], [sep]), sep), parts, n);
  }

  /** Splitting a join gives back the leading pieces that hold no separator. */
  lemma {:induction false} SplitJoinPrefix(parts: seq<string>, sep: char, n: nat)
    requires 1 <= n <= |parts|
    requires forall i :: 0 <= i < n ==> sep !in parts[i]
    ensures |Split(Join(parts, [sep]), sep)| >= n
    ensures Split(Join(parts, [sep]), sep)[..n] == parts[..n]
    decreases n
  {
    if n > 1 {
      SplitJoinPrefix(parts[1..], sep, n - 1);
      SplitJoinStep(parts, sep, n);
    } else if |parts| > 1 {
      SplitJoinCons(parts, sep);
    }
  }
}
