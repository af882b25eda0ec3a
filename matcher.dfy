/** Text cleaning and the windowed fuzzy matcher of the timestamp aligner
    (core/_6_gen_sub.py): `remove_punctuation` and `find_best_match`. */
module Matcher {
  import opened Wrappers
  import opened Strings

  // ---------------------------------------------------------------- remove_punctuation

  /** `re.sub(r'\s+', ' ', s)`: every run of whitespace becomes one blank. */
  function CollapseSpaces(s: string): (r: string)
    ensures forall i :: 0 <= i < |r| ==> (!IsSpace(r[i]) && r[i] in s) || r[i] == ' '
    decreases |s|
  {
    if s == [] then []
    else if IsSpace(s[0]) then
      StripLeftIsSuffix(s[1..]);
      [' '] + CollapseSpaces(StripLeft(s[1..]))
    else [s[0]] + CollapseSpaces(s[1..])
  }

  /** `re.sub(r'[^\w\s]', '', s)`: drops every character that is neither a word character nor whitespace. */
  function KeepWordsAndSpaces(s: string): (r: string)
    ensures forall i :: 0 <= i < |r| ==> (IsWordChar(r[i]) || IsSpace(r[i])) && r[i] in s
  {
    if s == [] then []
    else (if IsWordChar(s[0]) || IsSpace(s[0]) then [s[0]] else []) + KeepWordsAndSpaces(s[1..])
  }

  /** `remove_punctuation(text)`. */
  function RemovePunctuation(text: string): string {
    Strip(KeepWordsAndSpaces(CollapseSpaces(text)))
  }

  /** The word characters of `s`, in order. */
  function WordChars(s: string): string {
    if s == [] then [] else (if IsWordChar(s[0]) then [s[0]] else []) + WordChars(s[1..])
  }

  /** A word of the ASR output as it enters the reference string: `remove_punctuation(word.lower())`. */
  function CleanWord(w: string): string {
    RemovePunctuation(Lower(w))
  }

  /** A sentence as it is searched for: `remove_punctuation(sentence.lower()).replace(" ", "")`. */
  function CleanSentence(s: string): string {
    Remove(RemovePunctuation(Lower(s)), ' ')
  }

  lemma {:induction false} WordCharsAppend(a: string, b: string)
    ensures WordChars(a + b) == WordChars(a) + WordChars(b)
  {
    if a != [] {
      assert (a + b)[1..] == a[1..] + b;
      WordCharsAppend(a[1..], b);
    } else {
      assert a + b == b;
    }
  }

  lemma {:induction false} WordCharsStripLeft(s: string)
    ensures WordChars(StripLeft(s)) == WordChars(s)
  {
    if s != [] && IsSpace(s[0]) {
      WordCharIsNotSpace(s[0]);
      WordCharsStripLeft(s[1..]);
    }
  }

  lemma {:induction false} WordCharsStripRight(s: string)
    ensures WordChars(StripRight(s)) == WordChars(s)
  {
    if s != [] && IsSpace(s[|s| - 1]) {
      var init := s[..|s| - 1];
      WordCharIsNotSpace(s[|s| - 1]);
      WordCharsStripRight(init);
      assert s == init + [s[|s| - 1]];
      WordCharsAppend(init, [s[|s| - 1]]);
      assert WordChars([s[|s| - 1]]) == [];
    }
  }

  lemma {:induction false} WordCharsCollapse(s: string)
    ensures WordChars(CollapseSpaces(s)) == WordChars(s)
    decreases |s|
  {
    if s != [] {
      if IsSpace(s[0]) {
        WordCharIsNotSpace(s[0]);
        WordCharIsNotSpace(' ');
        var t := StripLeft(s[1..]);
        WordCharsCollapse(t);
        WordCharsStripLeft(s[1..]);
        assert CollapseSpaces(s) == [' '] + CollapseSpaces(t);
        WordCharsAppend([' '], CollapseSpaces(t));
      } else {
        WordCharsCollapse(s[1..]);
        WordCharsAppend([s[0]], CollapseSpaces(s[1..]));
      }
    }
  }

  lemma {:induction false} WordCharsKeep(s: string)
    ensures WordChars(KeepWordsAndSpaces(s)) == WordChars(s)
  {
    if s != [] {
      WordCharsKeep(s[1..]);
      var head := if IsWordChar(s[0]) || IsSpace(s[0]) then [s[0]] else [];
      WordCharsAppend(head, KeepWordsAndSpaces(s[1..]));
    }
  }

  lemma {:induction false} RemoveBlanksKeepsWords(s: string)
    requires forall i :: 0 <= i < |s| ==> IsWordChar(s[i]) || s[i] == ' '
    ensures Remove(s, ' ') == WordChars(s)
  {
    if s != [] {
      RemoveBlanksKeepsWords(s[1..]);
      WordCharIsNotSpace(' ');
    }
  }

  /** Collapsing whitespace and then dropping punctuation leaves only word
      characters and single-character blanks. */
  lemma KeptChars(text: string)
    ensures var k := KeepWordsAndSpaces(CollapseSpaces(text));
      forall j :: 0 <= j < |k| ==> IsWordChar(k[j]) || k[j] == ' '
  {
    var c := CollapseSpaces(text);
    var k := KeepWordsAndSpaces(c);
    forall j | 0 <= j < |k|
      ensures IsWordChar(k[j]) || k[j] == ' '
    {
      if !IsWordChar(k[j]) {
        assert k[j] in c;
        var m :| 0 <= m < |c| && c[m] == k[j];
        assert IsSpace(c[m]);
      }
    }
  }

  /** remove_punctuation leaves only word characters and single-character
      blanks, with no whitespace at either end. */
  lemma RemovePunctuationShape(text: string)
    ensures var r := RemovePunctuation(text);
      (forall i :: 0 <= i < |r| ==> IsWordChar(r[i]) || r[i] == ' ')
      && (r == [] || (!IsSpace(r[0]) && !IsSpace(r[|r| - 1])))
  {
    var k := KeepWordsAndSpaces(CollapseSpaces(text));
    var l := StripLeft(k);
    var r := StripRight(l);
    assert r == RemovePunctuation(text);
    KeptChars(text);
    StripLeftIsSuffix(k);
    StripRightIsPrefix(l);
    forall i | 0 <= i < |r|
      ensures IsWordChar(r[i]) || r[i] == ' '
    {
      assert r[i] == l[i] == k[|k| - |l| + i];
    }
  }

  /** The cleaned sentence is exactly the word characters of the lower-cased
      sentence, in order: cleaning drops blanks and punctuation and nothing else. */
  lemma CleanSentenceIsWordChars(s: string)
    ensures CleanSentence(s) == WordChars(Lower(s))
  {
    var low := Lower(s);
    var c := CollapseSpaces(low);
    var k := KeepWordsAndSpaces(c);
    RemovePunctuationShape(low);
    RemoveBlanksKeepsWords(RemovePunctuation(low));
    WordCharsStripLeft(k);
    WordCharsStripRight(StripLeft(k));
    WordCharsKeep(c);
    WordCharsCollapse(low);
  }

  // ---------------------------------------------------------------- find_best_match

  /** What `SequenceMatcher.find_longest_match` reports: `query[a:a+size] == window[b:b+size]`. */
  datatype Block = Block(a: nat, b: nat, size: nat)

  predicate IsCommonBlock(query: string, window: string, m: Block) {
    m.a + m.size <= |query| && m.b + m.size <= |window|
    && query[m.a..m.a + m.size] == window[m.b..m.b + m.size]
  }

  function EmptyBlock(query: string, window: string): Block {
    Block(0, 0, 0)
  }

  /** difflib's longest-match search, taken as an oracle: all the model relies
      on is that it reports a block common to both strings (not necessarily
      the longest one, since difflib's junk heuristic may skip characters). */
  type LongestMatch = f: (string, string) -> Block | forall q, w :: IsCommonBlock(q, w, f(q, w))
    witness EmptyBlock

  function Min(a: int, b: int): int {
    if a <= b then a else b
  }

  /** `text[start_pos:min(len(text), start_pos + search_window)]` */
  function Window(text: string, startPos: nat, searchWindow: nat): (w: string)
    ensures |w| <= searchWindow
  {
    var limit := Min(|text|, startPos + searchWindow);
    if startPos <= limit then text[startPos..limit] else []
  }

  /** The fraction of the query a fuzzy block covers, `match.size / len(query)`. */
  function Ratio(size: nat, queryLength: nat): real
    requires queryLength > 0
  {
    (size as real) / (queryLength as real)
  }

  /** The `threshold=0.6` default, which every caller keeps. */
  const Threshold: real := 0.6

  /** `match.size / len(query) > threshold` for the default threshold, stated
      on integers so that callers reason linearly. */
  predicate AboveThreshold(size: nat, queryLength: nat) {
    5 * size > 3 * queryLength
  }

  lemma AboveThresholdIsRatio(size: nat, queryLength: nat)
    requires queryLength > 0
    ensures AboveThreshold(size, queryLength) <==> Ratio(size, queryLength) > Threshold
  {
    var q := queryLength as real;
    assert Ratio(size, queryLength) * q == size as real;
  }

  /** `find_best_match(query, text, start_pos, search_window)`:
      the exact first occurrence inside the window, else a fuzzy block
      accepted only above the threshold; half-open offsets into `text`. */
  function FindBestMatch(query: string, text: string, startPos: nat, searchWindow: nat,
                         lcs: LongestMatch): (r: Option<(nat, nat)>)
    ensures r.Some? ==> startPos <= r.value.0 <= r.value.1 <= Min(|text|, startPos + searchWindow)
  {
    var window := Window(text, startPos, searchWindow);
    if query == [] || window == [] then None
    else
      var exact := IndexOf(window, query);
      if exact != -1 then
        WindowOccurrence(text, startPos, searchWindow, query, exact);
        Some((startPos + exact, startPos + exact + |query|))
      else
        var m := lcs(query, window);
        if AboveThreshold(m.size, |query|) then
          FuzzyBlockInText(text, startPos, searchWindow, query, m);
          Some((startPos + m.b, startPos + m.b + m.size))
        else None
  }

  /** What `find_best_match` promises: nothing for an empty query or window;
      the first exact occurrence when the window holds one; otherwise a piece
      of the query that occurs in the text and covers more than the threshold;
      and no answer only when neither exists. */
  lemma FindBestMatchSpec(query: string, text: string, startPos: nat, searchWindow: nat, lcs: LongestMatch)
    ensures var r := FindBestMatch(query, text, startPos, searchWindow, lcs);
      var w := Window(text, startPos, searchWindow);
      && (query == [] || w == [] ==> r == None)
      && (query != [] && Contains(w, query) ==>
            r.Some? && text[r.value.0..r.value.1] == query
            && forall j :: startPos <= j < r.value.0 ==> !OccursAt(text, query, j))
      && (r.Some? && !Contains(w, query) ==>
            Contains(query, text[r.value.0..r.value.1]) && AboveThreshold(r.value.1 - r.value.0, |query|))
      && (r.None? && query != [] && w != [] ==>
            !Contains(w, query) && !AboveThreshold(lcs(query, w).size, |query|))
  {
    var w := Window(text, startPos, searchWindow);
    if query != [] && w != [] {
      var exact := IndexOf(w, query);
      if exact != -1 {
        WindowOccurrence(text, startPos, searchWindow, query, exact);
      } else {
        var m := lcs(query, w);
        if AboveThreshold(m.size, |query|) {
          FuzzyBlockInText(text, startPos, searchWindow, query, m);
        }
      }
    }
  }

  lemma WindowOccurrence(text: string, startPos: nat, searchWindow: nat, query: string, k: nat)
    requires query != [] && Window(text, startPos, searchWindow) != []
    requires OccursAt(Window(text, startPos, searchWindow), query, k)
    requires forall j :: 0 <= j < k ==> !OccursAt(Window(text, startPos, searchWindow), query, j)
    ensures startPos + k + |query| <= Min(|text|, startPos + searchWindow)
    ensures text[startPos + k..startPos + k + |query|] == query
    ensures forall j :: startPos <= j < startPos + k ==> !OccursAt(text, query, j)
  {
    var w := Window(text, startPos, searchWindow);
    var limit := Min(|text|, startPos + searchWindow);
    assert w == text[startPos..limit];
    SliceOfSlice(text, startPos, limit, k, k + |query|);
    forall j | startPos <= j < startPos + k
      ensures !OccursAt(text, query, j)
    {
      assert !OccursAt(w, query, j - startPos);
      if j + |query| <= limit {
        SliceOfSlice(text, startPos, limit, j - startPos, j - startPos + |query|);
      }
    }
  }

  lemma FuzzyBlockInText(text: string, startPos: nat, searchWindow: nat, query: string, m: Block)
    requires Window(text, startPos, searchWindow) != []
    requires IsCommonBlock(query, Window(text, startPos, searchWindow), m)
    ensures startPos + m.b + m.size <= Min(|text|, startPos + searchWindow)
    ensures Contains(query, text[startPos + m.b..startPos + m.b + m.size])
  {
    var w := Window(text, startPos, searchWindow);
    var limit := Min(|text|, startPos + searchWindow);
    assert w == text[startPos..limit];
    var piece := text[startPos + m.b..startPos + m.b + m.size];
    SliceOfSlice(text, startPos, limit, m.b, m.b + m.size);
    assert OccursAt(query, piece, m.a);
  }
}
