/** The sentence timestamp resolver of core/_6_gen_sub.py
    (`get_sentence_timestamps`): the offset-to-word index over the cleaned
    words, and the cursor-driven walk over the sentences with its three tiers
    (match, one-step lookahead, length-based estimate). */
module Resolver {
  import opened Wrappers
  import opened Strings
  import opened Matcher

  /** One ASR word with its start and end time in seconds. */
  datatype Word = Word(text: string, start: real, end: real)

  /** The `(start, end)` pair emitted for one sentence. */
  datatype Interval = Interval(start: real, end: real)

  const SearchWindow: nat := 2500
  const LookaheadWindow: nat := 3000

  // ---------------------------------------------------------------- the reference string

  function CleanedWords(words: seq<Word>): (r: seq<string>)
    ensures |r| == |words|
    ensures forall k :: 0 <= k < |words| ==> r[k] == CleanWord(words[k].text)
  {
    seq(|words|, k requires 0 <= k < |words| => CleanWord(words[k].text))
  }

  /** `''.join(parts)`, built from the back as the source's loop builds it. */
  function Concat(parts: seq<string>): string {
    if parts == [] then [] else Concat(parts[..|parts| - 1]) + parts[|parts| - 1]
  }

  /** `full_words_str`: the cleaned words run together. */
  function FullText(words: seq<Word>): string {
    Concat(CleanedWords(words))
  }

  /** The word whose cleaned text covers offset `p` of `Concat(parts)`. */
  function WordAt(parts: seq<string>, p: nat): (r: nat)
    requires p < |Concat(parts)|
    ensures r < |parts|
  {
    var init := parts[..|parts| - 1];
    if p >= |Concat(init)| then |parts| - 1 else WordAt(init, p)
  }

  /** Where word `k` starts in the reference string. */
  function Offset(parts: seq<string>, k: nat): nat
    requires k <= |parts|
  {
    |Concat(parts[..k])|
  }

  lemma OffsetStep(parts: seq<string>, k: nat)
    requires k < |parts|
    ensures Offset(parts, k + 1) == Offset(parts, k) + |parts[k]|
  {
    assert parts[..k + 1][..k] == parts[..k];
  }

  lemma {:induction false} OffsetMonotone(parts: seq<string>, i: nat, j: nat)
    requires i <= j <= |parts|
    ensures Offset(parts, i) <= Offset(parts, j)
    decreases j - i
  {
    if i < j {
      OffsetStep(parts, i);
      OffsetMonotone(parts, i + 1, j);
    }
  }

  /** Offset `p` lies inside the cleaned text of the word `WordAt` names, so a
      word that cleans to "" owns no offset. */
  lemma {:induction false} WordAtCovers(parts: seq<string>, p: nat)
    requires p < |Concat(parts)|
    ensures Offset(parts, WordAt(parts, p)) <= p < Offset(parts, WordAt(parts, p)) + |parts[WordAt(parts, p)]|
    ensures |parts[WordAt(parts, p)]| > 0
  {
    var n := |parts|;
    var init := parts[..n - 1];
    assert parts[..n] == parts;
    if p >= |Concat(init)| {
      assert Offset(parts, n - 1) == |Concat(init)|;
    } else {
      WordAtCovers(init, p);
      var r := WordAt(init, p);
      assert init[..r] == parts[..r];
      assert init[r] == parts[r];
    }
  }

  /** `position_to_word_idx[p] == k` exactly when word `k`'s cleaned text covers `p`. */
  lemma WordAtExactly(parts: seq<string>, p: nat, k: nat)
    requires p < |Concat(parts)| && k < |parts|
    ensures WordAt(parts, p) == k <==> Offset(parts, k) <= p < Offset(parts, k) + |parts[k]|
  {
    WordAtCovers(parts, p);
    var r := WordAt(parts, p);
    if Offset(parts, k) <= p < Offset(parts, k) + |parts[k]| && r != k {
      if r < k {
        OffsetStep(parts, r);
        OffsetMonotone(parts, r + 1, k);
      } else {
        OffsetStep(parts, k);
        OffsetMonotone(parts, k + 1, r);
      }
    }
  }

  /** The word index never decreases along the reference string. */
  lemma {:induction false} WordAtMonotone(parts: seq<string>, p: nat, q: nat)
    requires p <= q < |Concat(parts)|
    ensures WordAt(parts, p) <= WordAt(parts, q)
  {
    var init := parts[..|parts| - 1];
    if q < |Concat(init)| {
      WordAtMonotone(init, p, q);
    }
  }

  lemma WordAtExtend(parts: seq<string>, k: nat, p: nat)
    requires k < |parts|
    ensures Concat(parts[..k + 1]) == Concat(parts[..k]) + parts[k]
    ensures p < |Concat(parts[..k])| ==> WordAt(parts[..k + 1], p) == WordAt(parts[..k], p)
    ensures |Concat(parts[..k])| <= p < |Concat(parts[..k + 1])| ==> WordAt(parts[..k + 1], p) == k
  {
    assert parts[..k + 1][..k] == parts[..k];
  }

  lemma CleanedWordsStep(words: seq<Word>, k: nat)
    requires k < |words|
    ensures CleanedWords(words)[..k + 1] == CleanedWords(words)[..k] + [CleanWord(words[k].text)]
  {
  }

  /** One pass of the first loop of `get_sentence_timestamps`: the cleaned
      word `key` is appended to `full_words_str` and each of its offsets is
      mapped to the word's index. */
  method IndexKey(full: string, index: map<int, nat>, key: string, idx: nat, ghost parts: seq<string>)
      returns (full': string, index': map<int, nat>)
    requires idx == |parts| && full == Concat(parts)
    requires forall p :: p in index <==> 0 <= p < |full|
    requires forall p :: 0 <= p < |full| ==> index[p] == WordAt(parts, p)
    ensures full' == Concat(parts + [key])
    ensures forall p :: p in index' <==> 0 <= p < |full'|
    ensures forall p :: 0 <= p < |full'| ==> index'[p] == WordAt(parts + [key], p)
  {
    ghost var parts' := parts + [key];
    assert parts'[..|parts|] == parts;
    WordAtExtend(parts', |parts|, 0);
    assert parts'[..|parts| + 1] == parts';
    var startPos := |full|;
    full' := full + key;
    index' := index;
    var pos := startPos;
    while pos < |full'|
      invariant startPos <= pos <= |full'|
      invariant forall p :: p in index' <==> 0 <= p < pos
      invariant forall p :: 0 <= p < startPos ==> index'[p] == WordAt(parts, p)
      invariant forall p :: startPos <= p < pos ==> index'[p] == idx
    {
      index' := index'[pos := idx];
      pos := pos + 1;
    }
    forall p | 0 <= p < |full'|
      ensures index'[p] == WordAt(parts', p)
    {
      WordAtExtend(parts', idx, p);
    }
  }

  /** The first loop of `get_sentence_timestamps`: builds `full_words_str` and
      `position_to_word_idx`. */
  method BuildIndex(words: seq<Word>) returns (full: string, index: map<int, nat>)
    ensures full == FullText(words)
    ensures forall p :: p in index <==> 0 <= p < |full|
    ensures forall p :: 0 <= p < |full| ==> index[p] == WordAt(CleanedWords(words), p)
  {
    ghost var cleaned := CleanedWords(words);
    full := [];
    index := map[];
    var idx := 0;
    while idx < |words|
      invariant 0 <= idx <= |words|
      invariant full == Concat(cleaned[..idx])
      invariant forall p :: p in index <==> 0 <= p < |full|
      invariant forall p :: 0 <= p < |full| ==> index[p] == WordAt(cleaned[..idx], p)
    {
      var cleanWord := CleanWord(words[idx].text);
      CleanedWordsStep(words, idx);
      full, index := IndexKey(full, index, cleanWord, idx, cleaned[..idx]);
      idx := idx + 1;
    }
    assert cleaned[..|words|] == cleaned;
  }

  // ---------------------------------------------------------------- one sentence

  /** A sentence as the walk sees it: the raw text, whose length drives the
      estimate, and its cleaned form, which is what gets matched. */
  datatype Sentence = Sentence(raw: string, clean: string)

  function Prepare(sentences: seq<string>): (r: seq<Sentence>)
    ensures |r| == |sentences|
    ensures forall i :: 0 <= i < |r| ==> r[i].raw == sentences[i] && r[i].clean == CleanSentence(sentences[i])
  {
    seq(|sentences|, i requires 0 <= i < |sentences| => Sentence(sentences[i], CleanSentence(sentences[i])))
  }

  /** The resolver's running state: `current_pos` and `last_end_time`. */
  datatype Cursor = Cursor(pos: nat, lastEnd: real)

  /** `p in position_to_word_idx`, for the cleaned words `keys`. */
  predicate Indexed(keys: seq<string>, p: int) {
    0 <= p < |Concat(keys)|
  }

  function WordStart(words: seq<Word>, keys: seq<string>, p: nat): real
    requires |keys| == |words| && Indexed(keys, p)
  {
    words[WordAt(keys, p)].start
  }

  function WordEnd(words: seq<Word>, keys: seq<string>, p: nat): real
    requires |keys| == |words| && Indexed(keys, p)
  {
    words[WordAt(keys, p)].end
  }

  /** The match tier: the words under the span give the times, the start is
      raised to the previous end and an end before the start becomes start + 0.1;
      the cursor moves to the end of the span. */
  function Matched(words: seq<Word>, keys: seq<string>, span: (nat, nat), c: Cursor): (r: (Interval, Cursor))
    requires |keys| == |words| && Indexed(keys, span.0) && Indexed(keys, span.1 - 1)
    ensures r.0.start == (if WordStart(words, keys, span.0) < c.lastEnd then c.lastEnd else WordStart(words, keys, span.0))
    ensures r.0.end == (if WordEnd(words, keys, span.1 - 1) < r.0.start then r.0.start + 0.1 else WordEnd(words, keys, span.1 - 1))
    ensures c.lastEnd <= r.0.start <= r.0.end
    ensures r.1 == Cursor(span.1, r.0.end)
  {
    var startT := WordStart(words, keys, span.0);
    var startT' := if startT < c.lastEnd then c.lastEnd else startT;
    var endT := WordEnd(words, keys, span.1 - 1);
    var endT' := if endT < startT' then startT' + 0.1 else endT;
    (Interval(startT', endT'), Cursor(span.1, endT'))
  }

  /** The lookahead tier's search: the next sentence, cleaned, matched from the
      same cursor with the wider window; nothing when it cleans to "". */
  function Lookahead(keys: seq<string>, ss: seq<Sentence>, lcs: LongestMatch, i: nat, pos: nat): (r: Option<(nat, nat)>)
    requires i < |ss|
    ensures r.Some? ==> i + 1 < |ss| && ss[i + 1].clean != []
    ensures r.Some? ==> pos <= r.value.0 <= r.value.1 <= |Concat(keys)|
  {
    if i + 1 < |ss| && ss[i + 1].clean != [] then
      FindBestMatch(ss[i + 1].clean, Concat(keys), pos, LookaheadWindow, lcs)
    else None
  }

  /** The lookahead tier: the unmatched sentence fills the gap up to where the
      next one starts (at least one second when that is not later). */
  function Absorbed(words: seq<Word>, keys: seq<string>, nextSpan: (nat, nat), c: Cursor): (r: (Interval, Cursor))
    requires |keys| == |words|
    ensures r.0.start == c.lastEnd < r.0.end
    ensures !Indexed(keys, nextSpan.0) ==> r.0.end == c.lastEnd + 2.0
    ensures Indexed(keys, nextSpan.0) ==>
      r.0.end == (if WordStart(words, keys, nextSpan.0) <= c.lastEnd then c.lastEnd + 1.0 else WordStart(words, keys, nextSpan.0))
    ensures r.1 == Cursor(c.pos, r.0.end)
  {
    var nextStart := if Indexed(keys, nextSpan.0) then WordStart(words, keys, nextSpan.0) else c.lastEnd + 2.0;
    var nextStart' := if nextStart <= c.lastEnd then c.lastEnd + 1.0 else nextStart;
    (Interval(c.lastEnd, nextStart'), Cursor(c.pos, nextStart'))
  }

  /** `min(len(sentence) * 0.1 + 0.5, 5.0)` on the raw sentence. */
  function EstimatedDuration(sentence: string): (d: real)
    ensures 0.5 <= d <= 5.0
    ensures d == 5.0 || d == |sentence| as real * 0.1 + 0.5
    ensures |sentence| < 45 ==> d == |sentence| as real * 0.1 + 0.5
  {
    var e := |sentence| as real * 0.1 + 0.5;
    if e > 5.0 then 5.0 else e
  }

  /** The match tier's outcome: a span whose both ends are indexed words. */
  function TryMatch(words: seq<Word>, keys: seq<string>, s: Sentence, lcs: LongestMatch, c: Cursor): (r: Option<(Interval, Cursor)>)
    requires |keys| == |words|
    ensures r.Some? ==> c.lastEnd <= r.value.0.start <= r.value.0.end == r.value.1.lastEnd && c.pos <= r.value.1.pos
    ensures s.clean == [] ==> r.None?
  {
    var span := FindBestMatch(s.clean, Concat(keys), c.pos, SearchWindow, lcs);
    if span.Some? && Indexed(keys, span.value.0) && Indexed(keys, span.value.1 - 1) then
      Some(Matched(words, keys, span.value, c))
    else None
  }

  /** The tiers after a failed match: the lookahead tier when the next
      sentence is found, else the length-based estimate; the cursor stays. */
  function Fallback(words: seq<Word>, keys: seq<string>, ss: seq<Sentence>, lcs: LongestMatch, i: nat, c: Cursor): (r: (Interval, Cursor))
    requires |keys| == |words| && i < |ss|
    ensures r.0.start == c.lastEnd < r.0.end == r.1.lastEnd
    ensures r.1.pos == c.pos
    ensures Lookahead(keys, ss, lcs, i, c.pos).None? ==> r.0.end == c.lastEnd + EstimatedDuration(ss[i].raw)
  {
    match Lookahead(keys, ss, lcs, i, c.pos)
    case Some(next) => Absorbed(words, keys, next, c)
    case None =>
      var d := EstimatedDuration(ss[i].raw);
      (Interval(c.lastEnd, c.lastEnd + d), Cursor(c.pos, c.lastEnd + d))
  }

  /** The step for sentence `i` from cursor `c`: an empty cleaned sentence gets
      0.1 s; otherwise the match tier, then the lookahead tier, then the estimate. */
  function Step(words: seq<Word>, keys: seq<string>, ss: seq<Sentence>, lcs: LongestMatch, i: nat, c: Cursor): (r: (Interval, Cursor))
    requires |keys| == |words| && i < |ss|
    ensures c.lastEnd <= r.0.start <= r.0.end == r.1.lastEnd
    ensures c.pos <= r.1.pos
    ensures ss[i].clean == [] ==> r == (Interval(c.lastEnd, c.lastEnd + 0.1), Cursor(c.pos, c.lastEnd + 0.1))
  {
    if ss[i].clean == [] then
      (Interval(c.lastEnd, c.lastEnd + 0.1), Cursor(c.pos, c.lastEnd + 0.1))
    else
      match TryMatch(words, keys, ss[i], lcs, c)
      case Some(m) => m
      case None => Fallback(words, keys, ss, lcs, i, c)
  }

  /** The second loop's walk over the first `n` sentences from position 0 and
      time 0: `step(i, c)` is sentence `i`'s interval and the cursor after it. */
  function Walk(step: (nat, Cursor) -> (Interval, Cursor), n: nat): (r: (seq<Interval>, Cursor))
    ensures |r.0| == n
  {
    if n == 0 then ([], Cursor(0, 0.0))
    else
      var prev := Walk(step, n - 1);
      var next := step(n - 1, prev.1);
      (prev.0 + [next.0], next.1)
  }

  /** `Step` over the sentences `ss`; past the last one nothing moves. */
  function StepOf(words: seq<Word>, keys: seq<string>, ss: seq<Sentence>, lcs: LongestMatch): (nat, Cursor) -> (Interval, Cursor)
    requires |keys| == |words|
  {
    (i: nat, c: Cursor) => if i < |ss| then Step(words, keys, ss, lcs, i, c) else (Interval(c.lastEnd, c.lastEnd), c)
  }

  /** The timestamps of the first `n` sentences and the cursor after them. */
  function Resolve(words: seq<Word>, keys: seq<string>, ss: seq<Sentence>, lcs: LongestMatch, n: nat): (seq<Interval>, Cursor)
    requires |keys| == |words| && n <= |ss|
  {
    Walk(StepOf(words, keys, ss, lcs), n)
  }

  /** Resolving one more sentence appends its `Step`. */
  lemma ResolveStep(words: seq<Word>, keys: seq<string>, ss: seq<Sentence>, lcs: LongestMatch, k: nat)
    requires |keys| == |words| && k < |ss|
    ensures var prev := Resolve(words, keys, ss, lcs, k);
      var next := Step(words, keys, ss, lcs, k, prev.1);
      Resolve(words, keys, ss, lcs, k + 1) == (prev.0 + [next.0], next.1)
  {
    assert Walk(StepOf(words, keys, ss, lcs), k + 1) ==
      (Walk(StepOf(words, keys, ss, lcs), k).0 + [StepOf(words, keys, ss, lcs)(k, Walk(StepOf(words, keys, ss, lcs), k).1).0],
       StepOf(words, keys, ss, lcs)(k, Walk(StepOf(words, keys, ss, lcs), k).1).1);
  }

  // ---------------------------------------------------------------- the timeline's shape

  predicate WellFormed(ts: seq<Interval>) {
    forall k :: 0 <= k < |ts| ==> ts[k].start <= ts[k].end
  }

  /** Each entry starts no earlier than the previous one ends. */
  predicate Chained(ts: seq<Interval>) {
    forall k :: 0 <= k < |ts| - 1 ==> ts[k].end <= ts[k + 1].start
  }

  /** A step that starts at or after the cursor's time, has start <= end and
      leaves the cursor at its end. */
  ghost predicate Forward(step: (nat, Cursor) -> (Interval, Cursor)) {
    forall i: nat, c: Cursor :: c.lastEnd <= step(i, c).0.start <= step(i, c).0.end == step(i, c).1.lastEnd
  }

  /** A walk of forward steps is well formed and chained, starts at or after
      0, and its cursor holds the last end. */
  lemma {:induction false} WalkShape(step: (nat, Cursor) -> (Interval, Cursor), n: nat)
    requires Forward(step)
    ensures var (ts, c) := Walk(step, n);
      && WellFormed(ts) && Chained(ts)
      && c.lastEnd == (if n == 0 then 0.0 else ts[n - 1].end)
      && (n > 0 ==> ts[0].start >= 0.0)
  {
    if n > 0 {
      WalkShape(step, n - 1);
    }
  }

  /** A walk whose steps never move the cursor back never moves it back. */
  lemma {:induction false} WalkCursorMonotone(step: (nat, Cursor) -> (Interval, Cursor), m: nat, n: nat)
    requires forall i: nat, c: Cursor :: c.pos <= step(i, c).1.pos
    requires m <= n
    ensures Walk(step, m).1.pos <= Walk(step, n).1.pos
    decreases n
  {
    if m < n {
      WalkCursorMonotone(step, m, n - 1);
    }
  }

  /** One entry per sentence, each with start <= end, each starting where or
      after the previous one ended, all at or after time 0, and
      `last_end_time` always the end of the last entry. */
  lemma ResolveShape(words: seq<Word>, keys: seq<string>, ss: seq<Sentence>, lcs: LongestMatch, n: nat)
    requires |keys| == |words| && n <= |ss|
    ensures var (ts, c) := Resolve(words, keys, ss, lcs, n);
      && |ts| == n && WellFormed(ts) && Chained(ts)
      && c.lastEnd == (if n == 0 then 0.0 else ts[n - 1].end)
      && (n > 0 ==> ts[0].start >= 0.0)
  {
    var step := StepOf(words, keys, ss, lcs);
    forall i: nat, c: Cursor
      ensures c.lastEnd <= step(i, c).0.start <= step(i, c).0.end == step(i, c).1.lastEnd
    {
    }
    WalkShape(step, n);
  }

  /** `current_pos` never moves backwards. */
  lemma CursorMonotone(words: seq<Word>, keys: seq<string>, ss: seq<Sentence>, lcs: LongestMatch, m: nat, n: nat)
    requires |keys| == |words| && m <= n <= |ss|
    ensures Resolve(words, keys, ss, lcs, m).1.pos <= Resolve(words, keys, ss, lcs, n).1.pos
  {
    var step := StepOf(words, keys, ss, lcs);
    forall i: nat, c: Cursor
      ensures c.pos <= step(i, c).1.pos
    {
    }
    WalkCursorMonotone(step, m, n);
  }

  /** Starts never decrease along the timeline. */
  lemma {:induction false} ChainedStartsSorted(ts: seq<Interval>, i: nat, j: nat)
    requires WellFormed(ts) && Chained(ts)
    requires i <= j < |ts|
    ensures ts[i].start <= ts[j].start
    decreases j - i
  {
    if i < j {
      ChainedStartsSorted(ts, i + 1, j);
    }
  }

  /** The match tier of one pass of the second loop: `find_best_match` with
      the 2500-character window, then both ends looked up in
      `position_to_word_idx`. */
  method MatchTier(words: seq<Word>, full: string, index: map<int, nat>, cleanSentence: string,
                   lcs: LongestMatch, c: Cursor, ghost keys: seq<string>, ghost s: Sentence)
      returns (r: Option<(Interval, Cursor)>)
    requires |keys| == |words| && full == Concat(keys) && s.clean == cleanSentence
    requires forall p :: p in index <==> 0 <= p < |full|
    requires forall p :: 0 <= p < |full| ==> index[p] == WordAt(keys, p)
    ensures r == TryMatch(words, keys, s, lcs, c)
  {
    r := None;
    var matchSpan := FindBestMatch(cleanSentence, full, c.pos, SearchWindow, lcs);
    if matchSpan.Some? {
      var startIdx := matchSpan.value.0;
      var endIdx := matchSpan.value.1 - 1;
      if startIdx in index && endIdx in index {
        var startT := words[index[startIdx]].start;
        var endT := words[index[endIdx]].end;
        if startT < c.lastEnd {
          startT := c.lastEnd;
        }
        if endT < startT {
          endT := startT + 0.1;
        }
        r := Some((Interval(startT, endT), Cursor(matchSpan.value.1, endT)));
      }
    }
  }

  /** The lookahead search of the fallback: the next sentence, cleaned, is
      looked for with the 3000-character window when it exists and is not
      empty. */
  method LookaheadSpan(full: string, sentences: seq<string>, i: nat, lcs: LongestMatch, pos: nat,
                       ghost keys: seq<string>, ghost ss: seq<Sentence>)
      returns (next: Option<(nat, nat)>)
    requires full == Concat(keys)
    requires i < |sentences| && ss == Prepare(sentences)
    ensures next == Lookahead(keys, ss, lcs, i, pos)
  {
    next := None;
    if i + 1 < |sentences| {
      var cleanNext := CleanSentence(sentences[i + 1]);
      assert ss[i + 1].clean == cleanNext;
      if cleanNext != [] {
        next := FindBestMatch(cleanNext, full, pos, LookaheadWindow, lcs);
      }
    }
  }

  /** The lookahead tier once the next sentence was found: its first word's
      start (or two seconds on) closes the gap, at least one second long. */
  method AbsorbTier(words: seq<Word>, full: string, index: map<int, nat>, nextSpan: (nat, nat), c: Cursor,
                    ghost keys: seq<string>)
      returns (r: (Interval, Cursor))
    requires |keys| == |words| && full == Concat(keys)
    requires forall p :: p in index <==> 0 <= p < |full|
    requires forall p :: 0 <= p < |full| ==> index[p] == WordAt(keys, p)
    ensures r == Absorbed(words, keys, nextSpan, c)
  {
    var nextStartIdx := nextSpan.0;
    var nextStartT := if nextStartIdx in index then words[index[nextStartIdx]].start else c.lastEnd + 2.0;
    if nextStartT <= c.lastEnd {
      nextStartT := c.lastEnd + 1.0;
    }
    r := (Interval(c.lastEnd, nextStartT), Cursor(c.pos, nextStartT));
  }

  /** The last resort: the length-based estimate, capped at five seconds. */
  method EstimateTier(sentence: string, c: Cursor) returns (r: (Interval, Cursor))
    ensures r == (Interval(c.lastEnd, c.lastEnd + EstimatedDuration(sentence)), Cursor(c.pos, c.lastEnd + EstimatedDuration(sentence)))
  {
    var estimated := |sentence| as real * 0.1 + 0.5;
    if estimated > 5.0 {
      estimated := 5.0;
    }
    r := (Interval(c.lastEnd, c.lastEnd + estimated), Cursor(c.pos, c.lastEnd + estimated));
  }

  /** The fallback of one pass of the second loop: the next sentence's
      position with the 3000-character window when it has one, else the
      length-based estimate. */
  method FallbackTier(words: seq<Word>, full: string, index: map<int, nat>, sentences: seq<string>, i: nat,
                      lcs: LongestMatch, c: Cursor, ghost keys: seq<string>, ghost ss: seq<Sentence>)
      returns (r: (Interval, Cursor))
    requires |keys| == |words| && full == Concat(keys)
    requires i < |sentences| && ss == Prepare(sentences)
    requires forall p :: p in index <==> 0 <= p < |full|
    requires forall p :: 0 <= p < |full| ==> index[p] == WordAt(keys, p)
    ensures r == Fallback(words, keys, ss, lcs, i, c)
  {
    var nextMatchSpan := LookaheadSpan(full, sentences, i, lcs, c.pos, keys, ss);
    if nextMatchSpan.Some? {
      r := AbsorbTier(words, full, index, nextMatchSpan.value, c, keys);
    } else {
      assert ss[i].raw == sentences[i];
      r := EstimateTier(sentences[i], c);
    }
  }

  /** One pass of the second loop of `get_sentence_timestamps`: the sentence
      is cleaned, and an empty result gets 0.1 s before any matching. */
  method NextStamp(words: seq<Word>, full: string, index: map<int, nat>, sentences: seq<string>, i: nat,
                   lcs: LongestMatch, c: Cursor, ghost keys: seq<string>, ghost ss: seq<Sentence>)
      returns (r: (Interval, Cursor))
    requires |keys| == |words| && full == Concat(keys)
    requires i < |sentences| && ss == Prepare(sentences)
    requires forall p :: p in index <==> 0 <= p < |full|
    requires forall p :: 0 <= p < |full| ==> index[p] == WordAt(keys, p)
    ensures r == Step(words, keys, ss, lcs, i, c)
  {
    var cleanSentence := CleanSentence(sentences[i]);
    assert ss[i].clean == cleanSentence;
    if cleanSentence == [] {
      r := (Interval(c.lastEnd, c.lastEnd + 0.1), Cursor(c.pos, c.lastEnd + 0.1));
    } else {
      var matched := MatchTier(words, full, index, cleanSentence, lcs, c, keys, ss[i]);
      if matched.Some? {
        r := matched.value;
      } else {
        r := FallbackTier(words, full, index, sentences, i, lcs, c, keys, ss);
      }
    }
  }

  /** `get_sentence_timestamps`, with the cursor, the last end time and the
      list appended to as the source keeps them. */
  method GetSentenceTimestamps(words: seq<Word>, sentences: seq<string>, lcs: LongestMatch) returns (stamps: seq<Interval>)
    ensures stamps == Resolve(words, CleanedWords(words), Prepare(sentences), lcs, |sentences|).0
    ensures |stamps| == |sentences| && WellFormed(stamps) && Chained(stamps)
  {
    var full, index := BuildIndex(words);
    ghost var keys := CleanedWords(words);
    ghost var ss := Prepare(sentences);
    var currentPos: nat := 0;
    var lastEnd: real := 0.0;
    stamps := [];
    var i := 0;
    while i < |sentences|
      invariant 0 <= i <= |sentences|
      invariant (stamps, Cursor(currentPos, lastEnd)) == Resolve(words, keys, ss, lcs, i)
    {
      var step := NextStamp(words, full, index, sentences, i, lcs, Cursor(currentPos, lastEnd), keys, ss);
      ResolveStep(words, keys, ss, lcs, i);
      stamps := stamps + [step.0];
      currentPos, lastEnd := step.1.pos, step.1.lastEnd;
      i := i + 1;
    }
    ResolveShape(words, keys, ss, lcs, |sentences|);
  }
}
