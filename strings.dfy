/** Text helpers shared by the pipeline: Python's whitespace and word-character
    classes, `strip`, `split` and `join`, substring search, decimal numerals and
    the flattening of a list of lists. */
module Strings {

  /** Python's `str.isspace()`; it is also the class `\s` of a `re` pattern. */
  predicate IsSpace(c: char) {
    c == ' ' || '\t' <= c <= '\r' || '\U{1C}' <= c <= '\U{1F}' || c == '\U{85}' || c == '\U{A0}'
    || c == '\U{1680}' || '\U{2000}' <= c <= '\U{200A}' || c == '\U{2028}' || c == '\U{2029}'
    || c == '\U{202F}' || c == '\U{205F}' || c == '\U{3000}'
  }

  /** Blocks that hold punctuation and symbols rather than letters. */
  predicate IsPunctuationBlock(c: char) {
    '\U{2000}' <= c <= '\U{206F}' || '\U{3000}' <= c <= '\U{303F}'
    || '\U{FF00}' <= c <= '\U{FF0F}' || '\U{FF1A}' <= c <= '\U{FF20}'
    || '\U{FF3B}' <= c <= '\U{FF40}' || '\U{FF5B}' <= c <= '\U{FF65}'
  }

  /** The class `\w` of a `re` pattern: letters, digits and the underscore.
      Exact on ASCII; from U+00C0 on, every character outside whitespace and
      the punctuation blocks counts as a letter. */
  predicate IsWordChar(c: char) {
    'a' <= c <= 'z' || 'A' <= c <= 'Z' || '0' <= c <= '9' || c == '_'
    || ('\U{C0}' <= c && c != '\U{D7}' && c != '\U{F7}' && !IsSpace(c) && !IsPunctuationBlock(c))
  }

  lemma WordCharIsNotSpace(c: char)
    ensures IsWordChar(c) ==> !IsSpace(c)
  {
  }

  /** `str.lower()` on ASCII letters. */
  function LowerChar(c: char): char {
    if 'A' <= c <= 'Z' then (c as int + 32) as char else c
  }

  function Lower(s: string): (r: string)
    ensures |r| == |s|
  {
    seq(|s|, i requires 0 <= i < |s| => LowerChar(s[i]))
  }

  /** `s.replace(from, to)` for one-character `from` and `to`. */
  function Replace(s: string, from: char, to: char): (r: string)
    ensures |r| == |s|
    ensures from != to ==> from !in r
  {
    seq(|s|, i requires 0 <= i < |s| => if s[i] == from then to else s[i])
  }

  /** `s.replace(c, "")`. */
  function Remove(s: string, c: char): (r: string)
    ensures c !in r
  {
    if s == [] then [] else (if s[0] == c then [] else [s[0]]) + Remove(s[1..], c)
  }

  /** `" " * n` */
  function Spaces(n: nat): (r: string)
    ensures |r| == n
  {
    seq(n, _ => ' ')
  }

  // ---------------------------------------------------------------- strip

  function StripLeft(s: string): (r: string)
    ensures r == [] || !IsSpace(r[0])
    ensures |r| <= |s|
  {
    if s != [] && IsSpace(s[0]) then StripLeft(s[1..]) else s
  }

  /** Stripping the left end keeps a suffix of the string. */
  lemma {:induction false} StripLeftIsSuffix(s: string)
    ensures StripLeft(s) == s[|s| - |StripLeft(s)|..]
  {
    if s != [] && IsSpace(s[0]) {
      StripLeftIsSuffix(s[1..]);
    }
  }

  function StripRight(s: string): (r: string)
    ensures r == [] || !IsSpace(r[|r| - 1])
    ensures |r| <= |s|
  {
    if s != [] && IsSpace(s[|s| - 1]) then StripRight(s[..|s| - 1]) else s
  }

  /** Stripping the right end keeps a prefix of the string. */
  lemma {:induction false} StripRightIsPrefix(s: string)
    ensures StripRight(s) == s[..|StripRight(s)|]
  {
    if s != [] && IsSpace(s[|s| - 1]) {
      StripRightIsPrefix(s[..|s| - 1]);
    }
  }

  /** Python's `str.strip()`. */
  function Strip(s: string): (r: string)
    ensures r == [] || (!IsSpace(r[0]) && !IsSpace(r[|r| - 1]))
    ensures |r| <= |s|
  {
    var l := StripLeft(s);
    StripRightIsPrefix(l);
    StripRight(l)
  }

  lemma StripRightNoop(s: string)
    requires s == [] || !IsSpace(s[|s| - 1])
    ensures StripRight(s) == s
  {
  }

  lemma StripLeftNoop(s: string)
    requires s == [] || !IsSpace(s[0])
    ensures StripLeft(s) == s
  {
  }

  /** A string that neither starts nor ends with whitespace is its own strip. */
  lemma StripNoop(s: string)
    requires s == [] || (!IsSpace(s[0]) && !IsSpace(s[|s| - 1]))
    ensures Strip(s) == s
  {
    StripLeftNoop(s);
    StripRightNoop(s);
  }

  /** Stripping never brings in a character that was not there. */
  lemma StripKeepsOutChar(s: string, c: char)
    requires c !in s
    ensures c !in Strip(s)
  {
    StripLeftIsSuffix(s);
    StripRightIsPrefix(StripLeft(s));
  }

  /** Trailing whitespace added to a string that ends in a non-space is stripped away again. */
  lemma StripTrailingSpace(s: string, c: char)
    requires s != [] && !IsSpace(s[0]) && !IsSpace(s[|s| - 1]) && IsSpace(c)
    ensures Strip(s + [c]) == s
  {
    StripLeftNoop(s + [c]);
    assert (s + [c])[..|s + [c]| - 1] == s;
    StripRightNoop(s);
  }

  // ---------------------------------------------------------------- split and join

  /** `sep.join(parts)`. */
  function Join(parts: seq<string>, sep: char): string {
    if |parts| == 0 then []
    else if |parts| == 1 then parts[0]
    else parts[0] + [sep] + Join(parts[1..], sep)
  }

  /** `s.split(sep)`: the pieces between separators, always at least one. */
  function Split(s: string, sep: char): (r: seq<string>)
    ensures |r| >= 1
    ensures forall k :: 0 <= k < |r| ==> sep !in r[k]
  {
    if s == [] then [[]]
    else
      var rest := Split(s[1..], sep);
      if s[0] == sep then [[]] + rest else [[s[0]] + rest[0]] + rest[1..]
  }

  /** The lines of a text block: `text.strip().split('\n')`, never empty and
      each free of newlines. */
  function StrippedLines(text: string): (r: seq<string>)
    ensures |r| >= 1 && forall k :: 0 <= k < |r| ==> '\n' !in r[k]
  {
    Split(Strip(text), '\n')
  }

  lemma {:induction false} SplitPrefix(p: string, t: string, sep: char)
    requires sep !in p
    ensures Split(p + t, sep) == [p + Split(t, sep)[0]] + Split(t, sep)[1..]
  {
    var st := Split(t, sep);
    if p != [] {
      assert (p + t)[0] == p[0] && p[0] != sep;
      assert (p + t)[1..] == p[1..] + t;
      SplitPrefix(p[1..], t, sep);
      var rest := Split(p[1..] + t, sep);
      assert rest == [p[1..] + st[0]] + st[1..];
      assert Split(p + t, sep) == [[p[0]] + rest[0]] + rest[1..];
      assert [p[0]] + (p[1..] + st[0]) == p + st[0];
    } else {
      assert p + t == t;
      assert p + st[0] == st[0];
      assert st == [st[0]] + st[1..];
    }
  }

  /** Splitting a join gives the parts back when no part holds the separator. */
  lemma {:induction false} SplitJoin(parts: seq<string>, sep: char)
    requires |parts| >= 1
    requires forall k :: 0 <= k < |parts| ==> sep !in parts[k]
    ensures Split(Join(parts, sep), sep) == parts
  {
    if |parts| == 1 {
      SplitPrefix(parts[0], [], sep);
      assert Split([], sep) == [[]];
      assert parts[0] + [] == parts[0];
      assert Join(parts, sep) == parts[0];
    } else {
      var rest := Join(parts[1..], sep);
      SplitJoin(parts[1..], sep);
      assert parts[0] + [sep] + rest == parts[0] + ([sep] + rest);
      SplitPrefix(parts[0], [sep] + rest, sep);
      assert ([sep] + rest)[0] == sep && ([sep] + rest)[1..] == rest;
      assert Split([sep] + rest, sep) == [[]] + parts[1..];
      assert parts[0] + [] == parts[0];
      assert parts == [parts[0]] + parts[1..];
    }
  }

  /** Join then split loses nothing: joining the pieces of a split gives the string back. */
  lemma {:induction false} JoinSplit(s: string, sep: char)
    ensures Join(Split(s, sep), sep) == s
  {
    if s != [] {
      JoinSplit(s[1..], sep);
      var rest := Split(s[1..], sep);
      if s[0] == sep {
        assert Split(s, sep) == [[]] + rest;
        assert ([[]] + rest)[1..] == rest;
      } else {
        var r := Split(s, sep);
        assert r[0] == [s[0]] + rest[0] && r[1..] == rest[1..];
        if |rest| > 1 {
          assert rest == [rest[0]] + rest[1..];
        }
      }
    }
  }

  /** A sentence with no newline and no whitespace at either end. */
  predicate IsLine(s: string) {
    s != [] && !IsSpace(s[0]) && !IsSpace(s[|s| - 1]) && '\n' !in s
  }

  lemma {:induction false} JoinSnoc(parts: seq<string>, x: string, sep: char)
    requires |parts| >= 1
    ensures Join(parts + [x], sep) == Join(parts, sep) + [sep] + x
  {
    if |parts| == 1 {
      assert (parts + [x])[1..] == [x];
    } else {
      assert (parts + [x])[1..] == parts[1..] + [x];
      JoinSnoc(parts[1..], x, sep);
    }
  }

  /** Lines joined by newlines have no whitespace at either end. */
  lemma {:induction false} JoinOfLines(group: seq<string>)
    requires group != [] && forall k :: 0 <= k < |group| ==> IsLine(group[k])
    ensures Join(group, '\n') != []
    ensures !IsSpace(Join(group, '\n')[0]) && !IsSpace(Join(group, '\n')[|Join(group, '\n')| - 1])
  {
    if |group| > 1 {
      JoinOfLines(group[1..]);
    }
  }

  /** Lines joined by newlines are their own strip. */
  lemma JoinOfLinesStripped(group: seq<string>)
    requires group != [] && forall k :: 0 <= k < |group| ==> IsLine(group[k])
    ensures Join(group, '\n') != [] && Strip(Join(group, '\n')) == Join(group, '\n')
  {
    JoinOfLines(group);
    StripNoop(Join(group, '\n'));
  }

  // ---------------------------------------------------------------- search

  lemma SliceOfSlice<T>(s: seq<T>, a: nat, b: nat, i: nat, j: nat)
    requires a <= b <= |s| && i <= j <= b - a
    ensures s[a..b][i..j] == s[a + i..a + j]
  {
    assert |s[a..b][i..j]| == j - i;
    forall k | 0 <= k < j - i
      ensures s[a..b][i..j][k] == s[a + i..a + j][k]
    {
    }
  }

  predicate OccursAt(hay: string, needle: string, k: int) {
    0 <= k && k + |needle| <= |hay| && hay[k..k + |needle|] == needle
  }

  function IndexOfFrom(hay: string, needle: string, k: nat): (r: int)
    requires k <= |hay|
    ensures r == -1 || (k <= r && OccursAt(hay, needle, r))
    ensures r == -1 ==> forall j :: k <= j ==> !OccursAt(hay, needle, j)
    ensures r >= 0 ==> forall j :: k <= j < r ==> !OccursAt(hay, needle, j)
    decreases |hay| - k
  {
    if k + |needle| > |hay| then -1
    else if hay[k..k + |needle|] == needle then k
    else IndexOfFrom(hay, needle, k + 1)
  }

  /** Python's `hay.find(needle)`: the first offset where `needle` occurs, or -1. */
  function IndexOf(hay: string, needle: string): (r: int)
    ensures r == -1 <==> forall j :: !OccursAt(hay, needle, j)
    ensures r >= 0 ==> OccursAt(hay, needle, r) && forall j :: 0 <= j < r ==> !OccursAt(hay, needle, j)
  {
    IndexOfFrom(hay, needle, 0)
  }

  /** Python's `needle in hay` on strings. */
  predicate Contains(hay: string, needle: string) {
    IndexOf(hay, needle) >= 0
  }

  // ---------------------------------------------------------------- numerals

  function DigitChar(d: nat): char
    requires d < 10
  {
    ('0' as int + d) as char
  }

  predicate IsDigitChar(c: char) {
    '0' <= c <= '9'
  }

  /** Python's `str.isdigit()` on ASCII digits. */
  predicate IsDigits(s: string) {
    |s| > 0 && forall i :: 0 <= i < |s| ==> IsDigitChar(s[i])
  }

  /** `str(n)` for a natural number. */
  function NatToString(n: nat): (r: string)
    ensures |r| >= 1
  {
    if n < 10 then [DigitChar(n)] else NatToString(n / 10) + [DigitChar(n % 10)]
  }

  /** `int(s)` for a string of ASCII digits. */
  function DigitsValue(s: string): nat
    requires forall i :: 0 <= i < |s| ==> IsDigitChar(s[i])
  {
    if s == [] then 0
    else
      assert IsDigitChar(s[|s| - 1]);
      DigitsValue(s[..|s| - 1]) * 10 + (s[|s| - 1] as int - '0' as int)
  }

  /** `int(str(n)) == n`, and `str(n)` is all digits. */
  lemma {:induction false} NatToStringRoundTrip(n: nat)
    ensures IsDigits(NatToString(n)) && DigitsValue(NatToString(n)) == n
  {
    var r := NatToString(n);
    if n >= 10 {
      NatToStringRoundTrip(n / 10);
      assert r[..|r| - 1] == NatToString(n / 10);
    }
  }

  lemma NatToStringInjective(m: nat, n: nat)
    requires NatToString(m) == NatToString(n)
    ensures m == n
  {
    NatToStringRoundTrip(m);
    NatToStringRoundTrip(n);
  }

  // ---------------------------------------------------------------- lists of lists

  /** `[x for sub in xss for x in sub]` */
  function Flatten<T>(xss: seq<seq<T>>): seq<T> {
    if xss == [] then [] else xss[0] + Flatten(xss[1..])
  }

  lemma {:induction false} FlattenAppend<T>(xss: seq<seq<T>>, yss: seq<seq<T>>)
    ensures Flatten(xss + yss) == Flatten(xss) + Flatten(yss)
  {
    if xss != [] {
      assert (xss + yss)[1..] == xss[1..] + yss;
      FlattenAppend(xss[1..], yss);
    } else {
      assert xss + yss == yss;
    }
  }

  /** Every non-empty sub-list contributes at least one element. */
  lemma {:induction false} FlattenLength<T>(xss: seq<seq<T>>)
    requires forall k :: 0 <= k < |xss| ==> |xss[k]| >= 1
    ensures |Flatten(xss)| >= |xss|
  {
    if xss != [] {
      FlattenLength(xss[1..]);
    }
  }
}
