/**
 * The JUCE string helpers the music file format leans on, written out so
 * that the parser and the writer can be reasoned about:
 *   - `String(int)`: decimal text with a leading '-' for negative values;
 *   - `String::getIntValue`: skip leading whitespace (space and the
 *     control characters tab to carriage return), an optional '-', then
 *     read the longest run of digits (no digits reads as 0);
 *   - `String::containsOnly("0123456789")`: true of the empty string too;
 *   - `StringArray::fromTokens(s, false)`: split at EVERY whitespace
 *     character, so two separators in a row give an empty token;
 *   - `File::readLines`: split the text into lines at each "\n", "\r\n" or
 *     lone "\r".
 * Integers are unbounded here: the 32-bit wrap-around of getIntValue on
 * very long digit runs is not modelled.
 */
module JuceText {

  /** The token separators of `StringArray::fromTokens` (" \n\r\t"). */
  const Whitespace: set<char> := {' ', '\t', '\n', '\r'}

  /** The line breaks `StringArray::addLines` recognises. */
  const LineBreaks: set<char> := {'\n', '\r'}

  /** `CharacterFunctions::isWhitespace` on ASCII: space, and tab through carriage return. */
  predicate IsSpace(c: char) {
    c == ' ' || '\t' <= c <= '\r'
  }

  predicate IsDigit(c: char) {
    '0' <= c <= '9'
  }

  /** `String::containsOnly("0123456789")`. */
  predicate ContainsOnlyDigits(s: string) {
    forall i :: 0 <= i < |s| ==> IsDigit(s[i])
  }

  predicate NoneIn(s: string, cs: set<char>) {
    forall i :: 0 <= i < |s| ==> s[i] !in cs
  }

  function DigitChar(d: nat): (c: char)
    requires d < 10
    ensures IsDigit(c)
  {
    (('0' as int) + d) as char
  }

  function DigitValue(c: char): (d: nat)
    requires IsDigit(c)
    ensures d < 10 && DigitChar(d) == c
  {
    (c as int) - ('0' as int)
  }

  /** Decimal text of a non-negative number, most significant digit first. */
  function NatStr(n: nat): (s: string)
    ensures |s| >= 1 && ContainsOnlyDigits(s)
  {
    if n < 10 then [DigitChar(n)] else NatStr(n / 10) + [DigitChar(n % 10)]
  }

  /** `String(int)`. */
  function IntStr(n: int): (s: string)
    ensures |s| >= 1
    ensures NoneIn(s, Whitespace) && ':' !in s && NoneIn(s, LineBreaks) && !IsSpace(s[0])
  {
    if n < 0 then "-" + NatStr(-n) else NatStr(n)
  }

  /** The value of a run of digits, read left to right as `v = v * 10 + d`. */
  function DigitsValue(ds: string): nat
    requires ContainsOnlyDigits(ds)
  {
    if ds == [] then 0 else 10 * DigitsValue(ds[..|ds| - 1]) + DigitValue(ds[|ds| - 1])
  }

  /** The longest prefix of `s` made of digits. */
  function DigitPrefix(s: string): (p: string)
    ensures ContainsOnlyDigits(p) && p <= s
    ensures |p| < |s| ==> !IsDigit(s[|p|])
  {
    if s == [] || !IsDigit(s[0]) then [] else [s[0]] + DigitPrefix(s[1..])
  }

  function SkipWhitespace(s: string): (t: string)
    ensures t != [] ==> !IsSpace(t[0])
  {
    if s != [] && IsSpace(s[0]) then SkipWhitespace(s[1..]) else s
  }

  /** `String::getIntValue`. */
  function GetIntValue(s: string): int {
    var t := SkipWhitespace(s);
    if t != [] && t[0] == '-' then 0 - DigitsValue(DigitPrefix(t[1..])) as int
    else DigitsValue(DigitPrefix(t))
  }

  /** The index of the first character of `s` that is in `cs`, or `|s|` if there is none. */
  function FirstIndexIn(s: string, cs: set<char>): (i: nat)
    ensures i <= |s| && NoneIn(s[..i], cs)
    ensures i < |s| ==> s[i] in cs
  {
    if s == [] || s[0] in cs then 0 else 1 + FirstIndexIn(s[1..], cs)
  }

  /** The pieces of `s` between the characters of `seps`, empty pieces included. */
  function SplitOn(s: string, seps: set<char>): (pieces: seq<string>)
    ensures |pieces| >= 1
    ensures forall k :: 0 <= k < |pieces| ==> NoneIn(pieces[k], seps)
    decreases |s|
  {
    var i := FirstIndexIn(s, seps);
    if i == |s| then [s] else [s[..i]] + SplitOn(s[i + 1..], seps)
  }

  /** `StringArray::fromTokens(s, false)`. */
  function Tokens(s: string): seq<string> {
    if s == [] then [] else SplitOn(s, Whitespace)
  }

  /** The lines of a non-empty text: a "\r" directly followed by "\n" ends one line, not two. */
  function LinesOf(s: string): (lines: seq<string>)
    ensures |lines| >= 1
    decreases |s|
  {
    var i := FirstIndexIn(s, LineBreaks);
    if i == |s| then [s]
    else if s[i] == '\r' && i + 1 < |s| && s[i + 1] == '\n' then [s[..i]] + LinesOf(s[i + 2..])
    else [s[..i]] + LinesOf(s[i + 1..])
  }

  /** `File::readLines` on the file's text. */
  function ReadLines(s: string): seq<string> {
    if s == [] then [] else LinesOf(s)
  }

  /** Lines glued with a newline between each two, as the music file writer does. */
  function JoinLines(lines: seq<string>): string {
    if lines == [] then []
    else if |lines| == 1 then lines[0]
    else JoinLines(lines[..|lines| - 1]) + "\n" + lines[|lines| - 1]
  }

  // ---------------------------------------------------------------------------
  // Number text round trip

  lemma {:induction false} DigitsValueOfNatStr(n: nat)
    ensures DigitsValue(NatStr(n)) == n
  {
    var s := NatStr(n);
    if n >= 10 {
      DigitsValueOfNatStr(n / 10);
      assert s[..|s| - 1] == NatStr(n / 10);
    }
  }

  lemma {:induction false} DigitPrefixOfDigits(s: string)
    requires ContainsOnlyDigits(s)
    ensures DigitPrefix(s) == s
  {
    if s != [] {
      DigitPrefixOfDigits(s[1..]);
    }
  }

  /** Reading back the text `String(n)` writes gives `n`, for every `n`. */
  lemma GetIntValueOfIntStr(n: int)
    ensures GetIntValue(IntStr(n)) == n
  {
    var m := if n < 0 then -n else n;
    DigitsValueOfNatStr(m);
    DigitPrefixOfDigits(NatStr(m));
    var s := IntStr(n);
    assert SkipWhitespace(s) == s;
    if n < 0 {
      assert s[1..] == NatStr(m);
    }
  }

  /** An all-digit string reads as the value of its digits (the empty string as 0). */
  lemma GetIntValueOfDigits(s: string)
    requires ContainsOnlyDigits(s)
    ensures GetIntValue(s) == DigitsValue(s) >= 0
  {
    assert SkipWhitespace(s) == s;
    DigitPrefixOfDigits(s);
  }

  /** `String(n)` passes the note filter exactly when `n` is not negative. */
  lemma ContainsOnlyDigitsOfIntStr(n: int)
    ensures ContainsOnlyDigits(IntStr(n)) <==> n >= 0
  {
    if n < 0 {
      assert !IsDigit(IntStr(n)[0]);
    }
  }

  // ---------------------------------------------------------------------------
  // Splitting

  lemma FirstIndexInPrefix(a: string, b: string, cs: set<char>)
    requires FirstIndexIn(a, cs) < |a|
    ensures FirstIndexIn(a + b, cs) == FirstIndexIn(a, cs)
  {
    var i := FirstIndexIn(a, cs);
    assert (a + b)[i] == a[i];
  }

  /** Cutting a concatenation at the length of its head gives back the head and the tail. */
  lemma ConcatSlices(a: string, t: string)
    ensures (a + t)[..|a|] == a && (a + t)[|a|..] == t
  {
  }

  /** A separator at `k` with none before it is the first one. */
  lemma FirstIndexInAt(s: string, k: nat, cs: set<char>)
    requires k < |s| && s[k] in cs && NoneIn(s[..k], cs)
    ensures FirstIndexIn(s, cs) == k
  {
    var i := FirstIndexIn(s, cs);
    if i < k {
      assert false;
    } else if i > k {
      assert false;
    }
  }

  /** Before the first separator, the head; from it on, the separator and the tail. */
  lemma SplitAtFirst(a: string, c: char, b: string, cs: set<char>)
    requires NoneIn(a, cs) && c in cs
    ensures FirstIndexIn(a + [c] + b, cs) == |a|
    ensures (a + [c] + b)[..|a|] == a && (a + [c] + b)[|a|..] == [c] + b
  {
    assert a + [c] + b == a + ([c] + b);
    ConcatSlices(a, [c] + b);
    FirstIndexInAt(a + ([c] + b), |a|, cs);
  }

  /** A string with no separator is a single piece. */
  lemma SplitOnNone(s: string, seps: set<char>)
    requires NoneIn(s, seps)
    ensures SplitOn(s, seps) == [s]
  {
  }

  /** A separator right after a separator-free head cuts the head off as the first piece. */
  lemma SplitOnCons(a: string, c: char, b: string, seps: set<char>)
    requires NoneIn(a, seps) && c in seps
    ensures SplitOn(a + [c] + b, seps) == [a] + SplitOn(b, seps)
  {
    var s := a + [c] + b;
    SplitAtFirst(a, c, b, seps);
    assert s[..|a|] == a;
    assert s[|a| + 1..] == b;
  }

  /** A separator followed by a separator-free tail adds the tail as the last piece. */
  lemma {:induction false} SplitOnSnoc(a: string, c: char, b: string, seps: set<char>)
    requires NoneIn(b, seps) && c in seps
    ensures SplitOn(a + [c] + b, seps) == SplitOn(a, seps) + [b]
    decreases |a|
  {
    var i := FirstIndexIn(a, seps);
    if i == |a| {
      SplitOnCons(a, c, b, seps);
      SplitOnNone(b, seps);
    } else {
      var s := a + [c] + b;
      FirstIndexInPrefix(a, [c] + b, seps);
      assert s == a + ([c] + b);
      assert s[..i] == a[..i];
      assert s[i + 1..] == a[i + 1..] + [c] + b;
      SplitOnSnoc(a[i + 1..], c, b, seps);
    }
  }

  /** Lines joined by the writer are read back as the same lines by `readLines`. */
  lemma ReadLinesJoinLines(lines: seq<string>)
    requires |lines| >= 1 && lines[0] != []
    requires forall k :: 0 <= k < |lines| ==> NoneIn(lines[k], LineBreaks)
    ensures ReadLines(JoinLines(lines)) == lines
  {
    JoinLinesSplitOn(lines, LineBreaks);
    JoinLinesNoneIn(lines, {'\r'});
    LinesOfSplitOn(JoinLines(lines));
    assert JoinLines(lines) != [] by {
      JoinLinesStart(lines);
    }
  }

  lemma {:induction false} JoinLinesStart(lines: seq<string>)
    requires |lines| >= 1
    ensures lines[0] <= JoinLines(lines)
  {
    if |lines| > 1 {
      JoinLinesStart(lines[..|lines| - 1]);
    }
  }

  /** Joining with newlines brings in no character other than the newlines. */
  lemma {:induction false} JoinLinesNoneIn(lines: seq<string>, cs: set<char>)
    requires '\n' !in cs
    requires forall k :: 0 <= k < |lines| ==> NoneIn(lines[k], cs)
    ensures NoneIn(JoinLines(lines), cs)
  {
    if |lines| > 1 {
      JoinLinesNoneIn(lines[..|lines| - 1], cs);
    }
  }

  /** Without carriage returns, reading lines is splitting at each newline. */
  lemma {:induction false} LinesOfSplitOn(s: string)
    requires NoneIn(s, {'\r'})
    ensures LinesOf(s) == SplitOn(s, LineBreaks)
    decreases |s|
  {
    var i := FirstIndexIn(s, LineBreaks);
    if i < |s| {
      assert s[i] != '\r';
      LinesOfSplitOn(s[i + 1..]);
    }
  }

  lemma {:induction false} JoinLinesSplitOn(lines: seq<string>, seps: set<char>)
    requires |lines| >= 1 && '\n' in seps
    requires forall k :: 0 <= k < |lines| ==> NoneIn(lines[k], seps)
    ensures SplitOn(JoinLines(lines), seps) == lines
  {
    if |lines| == 1 {
      SplitOnNone(lines[0], seps);
    } else {
      var init := lines[..|lines| - 1];
      var last := lines[|lines| - 1];
      JoinLinesSplitOn(init, seps);
      assert JoinLines(lines) == JoinLines(init) + ['\n'] + last;
      SplitOnSnoc(JoinLines(init), '\n', last, seps);
    }
  }

  /** Appending a line to the join puts a newline in front of it. */
  lemma JoinLinesSnoc(lines: seq<string>, line: string)
    requires |lines| >= 1
    ensures JoinLines(lines + [line]) == JoinLines(lines) + "\n" + line
  {
    assert (lines + [line])[..|lines|] == lines;
  }
}
