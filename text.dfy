/**
 * The string operations the pipeline relies on, with the semantics of the
 * runtime that performs them: Python's str.strip/str.split/str.lower, the
 * `\s+` and `\w+` regular expressions, str(int), and JavaScript's trim.
 */
module Text {
  import opened Wrappers

  /** Python's str.isspace(): the characters str.split() and str.strip() remove. */
  predicate IsPySpace(c: char) {
    || c == ' '
    || ('\t' <= c <= '\r')
    || ('\U{1C}' <= c <= '\U{1F}')
    || c == '\U{85}' || c == '\U{A0}' || c == '\U{1680}'
    || ('\U{2000}' <= c <= '\U{200A}')
    || c == '\U{2028}' || c == '\U{2029}' || c == '\U{202F}' || c == '\U{205F}' || c == '\U{3000}'
  }

  /**
   * `\s` of the `regex` package on a str pattern: the Unicode White_Space
   * characters, which are those of str.isspace() without U+001C..U+001F.
   */
  predicate IsRegexSpace(c: char) {
    IsPySpace(c) && !('\U{1C}' <= c <= '\U{1F}')
  }

  /** The characters JavaScript's String.prototype.trim() removes (WhiteSpace and LineTerminator). */
  predicate IsJsSpace(c: char) {
    || c == ' '
    || ('\t' <= c <= '\r')
    || c == '\U{A0}' || c == '\U{1680}'
    || ('\U{2000}' <= c <= '\U{200A}')
    || c == '\U{2028}' || c == '\U{2029}' || c == '\U{202F}' || c == '\U{205F}' || c == '\U{3000}'
    || c == '\U{FEFF}'
  }

  /** The character classes the Python code's regular expressions and strip/split, and the JavaScript trim, use. */
  datatype CharClass = PySpace | RegexSpace | JsSpace | NonSpace | WordChar

  predicate In(k: CharClass, c: char) {
    match k
    case PySpace => IsPySpace(c)
    case RegexSpace => IsRegexSpace(c)
    case JsSpace => IsJsSpace(c)
    case NonSpace => !IsPySpace(c)
    case WordChar => IsWordChar(c)
  }

  // ---------------------------------------------------------------------------
  // Stripping

  function DropWhile(s: string, p: CharClass): (r: string)
    ensures |r| <= |s| && r == s[|s| - |r|..]
    ensures r != [] ==> !In(p, r[0])
    ensures forall i :: 0 <= i < |s| - |r| ==> In(p, s[i])
  {
    if s != [] && In(p, s[0]) then DropWhile(s[1..], p) else s
  }

  function DropWhileEnd(s: string, p: CharClass): (r: string)
    ensures |r| <= |s| && r == s[..|r|]
    ensures r != [] ==> !In(p, r[|r| - 1])
    ensures forall i :: |r| <= i < |s| ==> In(p, s[i])
  {
    if s != [] && In(p, s[|s| - 1]) then DropWhileEnd(s[..|s| - 1], p) else s
  }

  function TakeWhile(s: string, p: CharClass): (r: string)
    ensures |r| <= |s| && r == s[..|r|]
    ensures forall i :: 0 <= i < |r| ==> In(p, r[i])
    ensures |r| < |s| ==> !In(p, s[|r|])
  {
    if s != [] && In(p, s[0]) then [s[0]] + TakeWhile(s[1..], p) else []
  }

  /** Removes the leading and trailing characters that satisfy `p`. */
  function StripBy(s: string, p: CharClass): (r: string)
    ensures r != [] ==> !In(p, r[0]) && !In(p, r[|r| - 1])
    ensures r == [] <==> forall i :: 0 <= i < |s| ==> In(p, s[i])
  {
    DropWhileEnd(DropWhile(s, p), p)
  }

  /** Python's str.strip() with no argument. */
  function Strip(s: string): string { StripBy(s, PySpace) }

  /** JavaScript's String.prototype.trim(). */
  function Trim(s: string): string { StripBy(s, JsSpace) }

  /** `not s.strip()` in Python: the text is empty or only whitespace. */
  predicate IsBlank(s: string) { Strip(s) == [] }

  lemma BlankIffAllSpace(s: string)
    ensures IsBlank(s) <==> forall i :: 0 <= i < |s| ==> IsPySpace(s[i])
  {
  }

  // ---------------------------------------------------------------------------
  // Splitting and joining

  /** Drops the leading characters that do not satisfy `p`. */
  function SkipUntil(s: string, p: CharClass): (r: string)
    ensures |r| <= |s| && r == s[|s| - |r|..]
    ensures r != [] ==> In(p, r[0])
    ensures forall i :: 0 <= i < |s| - |r| ==> !In(p, s[i])
  {
    if s != [] && !In(p, s[0]) then
      var r := SkipUntil(s[1..], p);
      assert forall i :: 1 <= i < |s| ==> s[i] == s[1..][i - 1];
      r
    else s
  }

  /** The maximal runs of characters satisfying `p`, left to right. */
  function Runs(s: string, p: CharClass): (r: seq<string>)
    decreases |s|
  {
    var t := SkipUntil(s, p);
    if t == [] then []
    else
      var w := TakeWhile(t, p);
      assert w != [] by { assert In(p, t[0]); }
      [w] + Runs(t[|w|..], p)
  }

  /** A non-empty string all of whose characters are in class `p`. */
  predicate IsRun(w: string, p: CharClass) {
    w != [] && forall j :: 0 <= j < |w| ==> In(p, w[j])
  }

  lemma {:induction false} RunsAreRuns(s: string, p: CharClass)
    ensures forall i :: 0 <= i < |Runs(s, p)| ==> IsRun(Runs(s, p)[i], p)
    decreases |s|
  {
    var t := SkipUntil(s, p);
    if t != [] {
      var w := TakeWhile(t, p);
      var rest := Runs(t[|w|..], p);
      assert Runs(s, p) == [w] + rest;
      RunsAreRuns(t[|w|..], p);
      forall i | 0 <= i < |Runs(s, p)| ensures IsRun(Runs(s, p)[i], p) {
        if i == 0 {
          assert In(p, t[0]);
        } else {
          assert Runs(s, p)[i] == rest[i - 1];
        }
      }
    }
  }

  /** Python's str.split() with no argument: the maximal runs of non-whitespace. */
  function Split(s: string): seq<string> { Runs(s, NonSpace) }

  /** Python's sep.join(ws). */
  function Join(sep: string, ws: seq<string>): string
  {
    if ws == [] then [] else if |ws| == 1 then ws[0] else ws[0] + sep + Join(sep, ws[1..])
  }

  /** Every joined string occurs, unchanged, in the joined text. */
  lemma {:induction false} JoinContainsEach(sep: string, ws: seq<string>, j: nat)
    requires j < |ws|
    ensures Contains(Join(sep, ws), ws[j])
    decreases |ws|
  {
    var s := Join(sep, ws);
    if |ws| == 1 {
      assert OccursAt(s, ws[0], 0);
      ContainsAt(s, ws[0], 0);
    } else {
      var rest := Join(sep, ws[1..]);
      assert s == ws[0] + sep + rest;
      if j == 0 {
        assert s[0..|ws[0]|] == ws[0];
        assert OccursAt(s, ws[0], 0);
        ContainsAt(s, ws[0], 0);
      } else {
        JoinContainsEach(sep, ws[1..], j - 1);
        assert ws[1..][j - 1] == ws[j];
        ContainsWitness(rest, ws[j]);
        var i: nat :| OccursAt(rest, ws[j], i);
        var off := |ws[0]| + |sep|;
        assert s[off..] == rest;
        assert s[off + i..off + i + |ws[j]|] == rest[i..i + |ws[j]|];
        ContainsAt(s, ws[j], off + i);
      }
    }
  }

  /** A single whitespace-free, non-empty word, as str.split() produces. */
  predicate IsWord(w: string) { IsRun(w, NonSpace) }

  lemma SplitYieldsWords(s: string)
    ensures forall i :: 0 <= i < |Split(s)| ==> IsWord(Split(s)[i])
  {
    RunsAreRuns(s, NonSpace);
  }

  lemma {:induction false} JoinStartsWithWord(ws: seq<string>)
    requires ws != [] && IsWord(ws[0])
    ensures Join(" ", ws) != [] && !IsPySpace(Join(" ", ws)[0])
  {
    if |ws| > 1 {
      assert Join(" ", ws) == ws[0] + " " + Join(" ", ws[1..]);
      assert Join(" ", ws)[0] == ws[0][0];
    }
  }

  /** Splitting words joined by single spaces gives the words back. */
  lemma {:induction false} SplitJoin(ws: seq<string>)
    requires forall i :: 0 <= i < |ws| ==> IsWord(ws[i])
    ensures Split(Join(" ", ws)) == ws
  {
    if ws == [] {
    } else {
      var w := ws[0];
      var s := Join(" ", ws);
      JoinStartsWithWord(ws);
      assert SkipUntil(s, NonSpace) == s;
      var tw := TakeWhile(s, NonSpace);
      if |ws| == 1 {
        assert s == w;
        assert |tw| == |w|;
        assert tw == w;
        assert Split(s) == [tw] + Split(s[|tw|..]);
        assert s[|tw|..] == [];
        assert Split([]) == [];
      } else {
        var rest := Join(" ", ws[1..]);
        assert s == w + " " + rest;
        assert s[|w|] == ' ';
        assert |tw| == |w|;
        assert tw == w;
        assert s[|w|..] == " " + rest;
        JoinStartsWithWord(ws[1..]);
        SplitJoin(ws[1..]);
        var t := " " + rest;
        assert SkipUntil(t, NonSpace) == SkipUntil(rest, NonSpace);
        assert SkipUntil(rest, NonSpace) == rest;
        assert Split(t) == Split(rest);
      }
    }
  }

  // ---------------------------------------------------------------------------
  // Case, punctuation, substrings, prefixes

  /** ASCII lower-casing of one character. */
  function LowerChar(c: char): char {
    if 'A' <= c <= 'Z' then (c as int + 32) as char else c
  }

  /** str.lower(), restricted to ASCII letters. */
  function Lower(s: string): (r: string)
    ensures |r| == |s| && forall i :: 0 <= i < |s| ==> r[i] == LowerChar(s[i])
  {
    seq(|s|, i requires 0 <= i < |s| => LowerChar(s[i]))
  }

  /** Python's string.punctuation: the 32 printable ASCII punctuation characters. */
  predicate IsPunct(c: char) {
    ('!' <= c <= '/') || (':' <= c <= '@') || ('[' <= c <= '`') || ('{' <= c <= '~')
  }

  /** Deletes every character of string.punctuation. */
  function RemovePunct(s: string): (r: string)
    ensures forall i :: 0 <= i < |r| ==> !IsPunct(r[i])
    ensures |r| <= |s|
  {
    if s == [] then []
    else (if IsPunct(s[0]) then [] else [s[0]]) + RemovePunct(s[1..])
  }

  /** A character `\w` matches, restricted to ASCII. */
  predicate IsWordChar(c: char) {
    ('a' <= c <= 'z') || ('A' <= c <= 'Z') || ('0' <= c <= '9') || c == '_'
  }

  predicate StartsWith(s: string, prefix: string) {
    |prefix| <= |s| && s[..|prefix|] == prefix
  }

  predicate OccursAt(hay: string, needle: string, i: nat) {
    i + |needle| <= |hay| && hay[i..i + |needle|] == needle
  }

  /** Python's `needle in hay` on strings: a substring test. */
  predicate Contains(hay: string, needle: string)
    decreases |hay|
  {
    StartsWith(hay, needle) || (hay != [] && Contains(hay[1..], needle))
  }

  lemma {:induction false} ContainsAt(hay: string, needle: string, i: nat)
    requires OccursAt(hay, needle, i)
    ensures Contains(hay, needle)
  {
    if i > 0 {
      assert hay[1..][i - 1..i - 1 + |needle|] == needle;
      assert OccursAt(hay[1..], needle, i - 1);
      ContainsAt(hay[1..], needle, i - 1);
    }
  }

  lemma {:induction false} ContainsWitness(hay: string, needle: string)
    requires Contains(hay, needle)
    ensures exists i: nat :: OccursAt(hay, needle, i)
  {
    if !StartsWith(hay, needle) {
      ContainsWitness(hay[1..], needle);
      var i: nat :| OccursAt(hay[1..], needle, i);
      assert hay[i + 1..i + 1 + |needle|] == hay[1..][i..i + |needle|];
      assert OccursAt(hay, needle, i + 1);
    } else {
      assert OccursAt(hay, needle, 0);
    }
  }

  // ---------------------------------------------------------------------------
  // Numbers

  function DigitChar(d: nat): char
    requires d < 10
  {
    ('0' as int + d) as char
  }

  /** Decimal digits of a natural number, without leading zeros. */
  function NatToString(n: nat): (r: string)
    ensures r != []
    ensures forall i :: 0 <= i < |r| ==> '0' <= r[i] <= '9'
  {
    if n < 10 then [DigitChar(n)] else NatToString(n / 10) + [DigitChar(n % 10)]
  }

  /** Python's str(n) for an int. */
  function IntToString(n: int): (r: string)
    ensures r != []
    ensures forall i :: 0 < i < |r| ==> '0' <= r[i] <= '9'
    ensures n >= 0 <==> '0' <= r[0] <= '9'
  {
    if n < 0 then "-" + NatToString(-n) else NatToString(n)
  }
}
