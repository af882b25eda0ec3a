/** Batch translation driver: the sentence file is cut into chunks of at most
    `ChunkSize` characters and `MaxSentences` sentences, each chunk is translated
    with a few lines of its neighbours as context, and the per-chunk results,
    which arrive in completion order, are put back in chunk order and
    concatenated. */
module Chunking {
  import opened Strings

  /** Arguments `translate_all` passes to `split_chunks_by_chars`. */
  const ChunkSize: int := 600
  const MaxSentences: int := 10

  /** Context sizes of `process_chunk`: lines of the previous and next chunk. */
  const LinesBefore: int := 3
  const LinesAfter: int := 2

  /** The sentences of the split file: `file.read().strip().split('\n')`. */
  function Sentences(content: string): (r: seq<string>)
    ensures |r| >= 1
    ensures forall k :: 0 <= k < |r| ==> '\n' !in r[k]
  {
    Split(Strip(content), '\n')
  }

  // ---------------------------------------------------------------- chunking

  /** The accumulator string of the chunking loop after it took `group`:
      each sentence followed by a newline. */
  function ChunkText(group: seq<string>): (r: string)
    ensures |r| >= |group|
    ensures r == [] <==> group == []
  {
    if group == [] then []
    else ChunkText(group[..|group| - 1]) + group[|group| - 1] + "\n"
  }

  /** The test that closes the current chunk before `sentence` is taken. */
  predicate StartsNewChunk(cur: seq<string>, sentence: string, chunkSize: int, maxI: int) {
    |ChunkText(cur)| + |sentence| + 1 > chunkSize || |cur| == maxI
  }

  /** The current group becomes a chunk only when it holds something. */
  function Close(cur: seq<string>): seq<seq<string>> {
    if cur == [] then [] else [cur]
  }

  /** The greedy grouping: the groups of sentences the loop emits, given the
      sentences still to read and the group being filled. */
  function Groups(ss: seq<string>, cur: seq<string>, chunkSize: int, maxI: int): seq<seq<string>>
    decreases |ss|
  {
    if ss == [] then Close(cur)
    else if StartsNewChunk(cur, ss[0], chunkSize, maxI) then
      Close(cur) + Groups(ss[1..], [ss[0]], chunkSize, maxI)
    else Groups(ss[1..], cur + [ss[0]], chunkSize, maxI)
  }

  /** Each group written out and stripped. */
  function ChunkStrings(groups: seq<seq<string>>): (r: seq<string>)
    ensures |r| == |groups|
  {
    seq(|groups|, k requires 0 <= k < |groups| => Strip(ChunkText(groups[k])))
  }

  /** The chunks of a sentence list. */
  function Chunks(ss: seq<string>, chunkSize: int, maxI: int): seq<string> {
    ChunkStrings(Groups(ss, [], chunkSize, maxI))
  }

  lemma ChunkTextSnoc(cur: seq<string>, s: string)
    ensures ChunkText(cur + [s]) == ChunkText(cur) + s + "\n"
  {
    assert (cur + [s])[..|cur|] == cur;
  }

  lemma ChunkStringsSnoc(groups: seq<seq<string>>, g: seq<string>)
    ensures ChunkStrings(groups + [g]) == ChunkStrings(groups) + [Strip(ChunkText(g))]
  {
  }

  /** Closing the current group adds its stripped text, unless it is empty. */
  lemma CloseChunk(done: seq<seq<string>>, cur: seq<string>)
    ensures ChunkStrings(done + Close(cur)) == ChunkStrings(done) + (if cur == [] then [] else [Strip(ChunkText(cur))])
  {
    if cur == [] {
      assert done + Close(cur) == done;
    } else {
      ChunkStringsSnoc(done, cur);
    }
  }

  /** One sentence of the loop: the grouping of the rest from sentence `i`. */
  lemma GroupsStep(ss: seq<string>, i: nat, cur: seq<string>, chunkSize: int, maxI: int)
    requires i < |ss|
    ensures Groups(ss[i..], cur, chunkSize, maxI) ==
      if StartsNewChunk(cur, ss[i], chunkSize, maxI)
      then Close(cur) + Groups(ss[i + 1..], [ss[i]], chunkSize, maxI)
      else Groups(ss[i + 1..], cur + [ss[i]], chunkSize, maxI)
  {
    assert ss[i..][1..] == ss[i + 1..];
  }

  /** The loop's ghost bookkeeping after one more sentence: the closed
      groups plus the grouping of the rest still give the whole grouping. */
  lemma AdvanceGroups(ss: seq<string>, i: nat, cur: seq<string>, done: seq<seq<string>>,
                      whole: seq<seq<string>>, chunkSize: int, maxI: int)
    requires i < |ss| && done + Groups(ss[i..], cur, chunkSize, maxI) == whole
    ensures StartsNewChunk(cur, ss[i], chunkSize, maxI) ==>
      (done + Close(cur)) + Groups(ss[i + 1..], [ss[i]], chunkSize, maxI) == whole
    ensures !StartsNewChunk(cur, ss[i], chunkSize, maxI) ==>
      done + Groups(ss[i + 1..], cur + [ss[i]], chunkSize, maxI) == whole
  {
    GroupsStep(ss, i, cur, chunkSize, maxI);
  }

  /** One pass of the loop body: either close the current chunk (when it
      holds something) and start a new one with `sentence`, or append
      `sentence` to it. */
  method AddSentence(chunks: seq<string>, chunk: string, sentenceCount: int, sentence: string,
                     chunkSize: int, maxI: int, ghost cur: seq<string>, ghost done: seq<seq<string>>)
    returns (chunks': seq<string>, chunk': string, sentenceCount': int,
             ghost cur': seq<string>, ghost done': seq<seq<string>>)
    requires chunk == ChunkText(cur) && sentenceCount == |cur| && chunks == ChunkStrings(done)
    ensures chunk' == ChunkText(cur') && sentenceCount' == |cur'| && chunks' == ChunkStrings(done')
    ensures StartsNewChunk(cur, sentence, chunkSize, maxI) ==> done' == done + Close(cur) && cur' == [sentence]
    ensures !StartsNewChunk(cur, sentence, chunkSize, maxI) ==> done' == done && cur' == cur + [sentence]
  {
    chunks', done' := chunks, done;
    if |chunk| + |sentence + "\n"| > chunkSize || sentenceCount == maxI {
      if chunk != [] {
        chunks' := chunks + [Strip(chunk)];
      }
      done' := done + Close(cur);
      chunk' := sentence + "\n";
      sentenceCount' := 1;
      cur' := [sentence];
      assert chunks' == ChunkStrings(done') by {
        CloseChunk(done, cur);
      }
      assert chunk' == ChunkText(cur') by {
        ChunkTextSnoc([], sentence);
      }
    } else {
      chunk' := chunk + sentence + "\n";
      sentenceCount' := sentenceCount + 1;
      cur' := cur + [sentence];
      assert chunk' == ChunkText(cur') by {
        ChunkTextSnoc(cur, sentence);
      }
    }
  }

  /** `split_chunks_by_chars` over the content of the sentence file. */
  method SplitChunksByChars(content: string, chunkSize: int, maxI: int) returns (chunks: seq<string>)
    ensures chunks == Chunks(Sentences(content), chunkSize, maxI)
  {
    var sentences := Split(Strip(content), '\n');
    chunks := [];
    var chunk: string := [];
    var sentenceCount := 0;
    ghost var cur: seq<string> := [];
    ghost var done: seq<seq<string>> := [];
    ghost var whole := Groups(sentences, [], chunkSize, maxI);
    for i := 0 to |sentences|
      invariant chunk == ChunkText(cur) && sentenceCount == |cur|
      invariant done + Groups(sentences[i..], cur, chunkSize, maxI) == whole
      invariant chunks == ChunkStrings(done)
    {
      AdvanceGroups(sentences, i, cur, done, whole, chunkSize, maxI);
      chunks, chunk, sentenceCount, cur, done :=
        AddSentence(chunks, chunk, sentenceCount, sentences[i], chunkSize, maxI, cur, done);
    }
    if chunk != [] {
      ChunkStringsSnoc(done, cur);
      chunks := chunks + [Strip(chunk)];
      done := done + [cur];
    }
    assert done == Groups(sentences, [], chunkSize, maxI);
  }

  /** Every sentence lands in exactly one chunk, in order. */
  lemma {:induction false} GroupsFlatten(ss: seq<string>, cur: seq<string>, chunkSize: int, maxI: int)
    ensures Flatten(Groups(ss, cur, chunkSize, maxI)) == cur + ss
  {
    if ss == [] {
      if cur != [] {
        assert Flatten([cur]) == cur + Flatten([cur][1..]);
      }
    } else if StartsNewChunk(cur, ss[0], chunkSize, maxI) {
      GroupsFlatten(ss[1..], [ss[0]], chunkSize, maxI);
      FlattenAppend(Close(cur), Groups(ss[1..], [ss[0]], chunkSize, maxI));
      if cur != [] {
        assert Flatten([cur]) == cur + Flatten([cur][1..]);
      }
      assert ss == [ss[0]] + ss[1..];
    } else {
      GroupsFlatten(ss[1..], cur + [ss[0]], chunkSize, maxI);
      assert ss == [ss[0]] + ss[1..];
    }
  }

  /** No group is empty. */
  lemma {:induction false} GroupsNonEmpty(ss: seq<string>, cur: seq<string>, chunkSize: int, maxI: int)
    ensures forall k :: 0 <= k < |Groups(ss, cur, chunkSize, maxI)| ==> Groups(ss, cur, chunkSize, maxI)[k] != []
  {
    if ss != [] {
      if StartsNewChunk(cur, ss[0], chunkSize, maxI) {
        GroupsNonEmpty(ss[1..], [ss[0]], chunkSize, maxI);
      } else {
        GroupsNonEmpty(ss[1..], cur + [ss[0]], chunkSize, maxI);
      }
    }
  }

  /** With a positive limit no chunk holds more than `maxI` sentences. */
  lemma {:induction false} GroupsBounded(ss: seq<string>, cur: seq<string>, chunkSize: int, maxI: int)
    requires maxI >= 1 && |cur| <= maxI
    ensures forall k :: 0 <= k < |Groups(ss, cur, chunkSize, maxI)| ==> |Groups(ss, cur, chunkSize, maxI)[k]| <= maxI
  {
    if ss != [] {
      if StartsNewChunk(cur, ss[0], chunkSize, maxI) {
        GroupsBounded(ss[1..], [ss[0]], chunkSize, maxI);
      } else {
        GroupsBounded(ss[1..], cur + [ss[0]], chunkSize, maxI);
      }
    }
  }

  /** A chunk's text exceeds the size limit only when the chunk is one sentence. */
  lemma {:induction false} GroupsFit(ss: seq<string>, cur: seq<string>, chunkSize: int, maxI: int)
    requires |ChunkText(cur)| <= chunkSize || |cur| <= 1
    ensures forall k :: 0 <= k < |Groups(ss, cur, chunkSize, maxI)| ==>
      |ChunkText(Groups(ss, cur, chunkSize, maxI)[k])| <= chunkSize || |Groups(ss, cur, chunkSize, maxI)[k]| == 1
  {
    if ss != [] {
      if StartsNewChunk(cur, ss[0], chunkSize, maxI) {
        GroupsFit(ss[1..], [ss[0]], chunkSize, maxI);
      } else {
        ChunkTextSnoc(cur, ss[0]);
        GroupsFit(ss[1..], cur + [ss[0]], chunkSize, maxI);
      }
    }
  }

  /** A non-empty group being filled is the start of the first chunk. */
  lemma {:induction false} GroupsHead(ss: seq<string>, cur: seq<string>, chunkSize: int, maxI: int)
    requires cur != []
    ensures Groups(ss, cur, chunkSize, maxI) != [] && Groups(ss, cur, chunkSize, maxI)[0] != []
    ensures Groups(ss, cur, chunkSize, maxI)[0][0] == cur[0]
  {
    if ss != [] && !StartsNewChunk(cur, ss[0], chunkSize, maxI) {
      GroupsHead(ss[1..], cur + [ss[0]], chunkSize, maxI);
    }
  }

  /** Chunk `j` ended because chunk `j + 1`'s first sentence would overflow
      it or it already held `maxI` sentences. */
  predicate Boundary(gs: seq<seq<string>>, j: nat, chunkSize: int, maxI: int)
    requires j + 1 < |gs|
  {
    gs[j + 1] != [] && StartsNewChunk(gs[j], gs[j + 1][0], chunkSize, maxI)
  }

  /** Each chunk ends only where the loop's test demanded it. */
  predicate Greedy(gs: seq<seq<string>>, chunkSize: int, maxI: int) {
    forall j: nat :: j + 1 < |gs| ==> Boundary(gs, j, chunkSize, maxI)
  }

  /** The grouping is greedy: no chunk could have taken the next sentence. */
  lemma {:induction false} GroupsGreedy(ss: seq<string>, cur: seq<string>, chunkSize: int, maxI: int)
    ensures Greedy(Groups(ss, cur, chunkSize, maxI), chunkSize, maxI)
  {
    if ss != [] {
      if StartsNewChunk(cur, ss[0], chunkSize, maxI) {
        var rest := Groups(ss[1..], [ss[0]], chunkSize, maxI);
        GroupsGreedy(ss[1..], [ss[0]], chunkSize, maxI);
        GroupsHead(ss[1..], [ss[0]], chunkSize, maxI);
        if cur != [] {
          var g := [cur] + rest;
          assert Groups(ss, cur, chunkSize, maxI) == g;
          forall j: nat | j + 1 < |g|
            ensures Boundary(g, j, chunkSize, maxI)
          {
            if j > 0 {
              assert Boundary(rest, j - 1, chunkSize, maxI);
              assert g[j] == rest[j - 1] && g[j + 1] == rest[j];
            } else {
              assert g[0] == cur && g[1] == rest[0];
            }
          }
        } else {
          assert Groups(ss, cur, chunkSize, maxI) == rest;
        }
      } else {
        GroupsGreedy(ss[1..], cur + [ss[0]], chunkSize, maxI);
        assert Groups(ss, cur, chunkSize, maxI) == Groups(ss[1..], cur + [ss[0]], chunkSize, maxI);
      }
    }
  }

  // ---------------------------------------------------------------- chunk lines

  lemma {:induction false} ChunkTextJoin(group: seq<string>)
    requires group != []
    ensures ChunkText(group) == Join(group, '\n') + "\n"
  {
    var n := |group|;
    if n > 1 {
      ChunkTextJoin(group[..n - 1]);
      JoinSnoc(group[..n - 1], group[n - 1], '\n');
      assert group[..n - 1] + [group[n - 1]] == group;
    }
  }

  /** A chunk written from whitespace-free lines splits back into those lines. */
  lemma ChunkLines(group: seq<string>)
    requires group != [] && forall k :: 0 <= k < |group| ==> IsLine(group[k])
    ensures Strip(ChunkText(group)) == Join(group, '\n')
    ensures StrippedLines(Strip(ChunkText(group))) == group
  {
    ChunkStrip(group);
    LinesOfJoin(group);
  }

  lemma LinesOfJoin(group: seq<string>)
    requires group != [] && forall k :: 0 <= k < |group| ==> IsLine(group[k])
    ensures StrippedLines(Join(group, '\n')) == group
  {
    var j := Join(group, '\n');
    JoinOfLinesStripped(group);
    assert Split(j, '\n') == group by {
      SplitJoin(group, '\n');
    }
  }

  lemma ChunkStrip(group: seq<string>)
    requires group != [] && forall k :: 0 <= k < |group| ==> IsLine(group[k])
    ensures Strip(ChunkText(group)) == Join(group, '\n')
  {
    ChunkTextJoin(group);
    JoinOfLines(group);
    StripTrailingSpace(Join(group, '\n'), '\n');
  }

  lemma {:induction false} GroupsOfLines(ss: seq<string>, cur: seq<string>, chunkSize: int, maxI: int)
    requires forall k :: 0 <= k < |ss| ==> IsLine(ss[k])
    requires forall k :: 0 <= k < |cur| ==> IsLine(cur[k])
    ensures forall k, j :: 0 <= k < |Groups(ss, cur, chunkSize, maxI)| && 0 <= j < |Groups(ss, cur, chunkSize, maxI)[k]| ==>
      IsLine(Groups(ss, cur, chunkSize, maxI)[k][j])
  {
    if ss != [] {
      if StartsNewChunk(cur, ss[0], chunkSize, maxI) {
        GroupsOfLines(ss[1..], [ss[0]], chunkSize, maxI);
      } else {
        GroupsOfLines(ss[1..], cur + [ss[0]], chunkSize, maxI);
      }
    }
  }

  /** When every sentence is a proper line, no chunk is empty and the lines of
      the chunks, read back in order, are the sentences. */
  lemma ChunksRoundTrip(ss: seq<string>, chunkSize: int, maxI: int)
    requires forall k :: 0 <= k < |ss| ==> IsLine(ss[k])
    ensures var chunks := Chunks(ss, chunkSize, maxI);
      (forall k :: 0 <= k < |chunks| ==> chunks[k] != [] && StrippedLines(chunks[k]) == Groups(ss, [], chunkSize, maxI)[k])
      && Flatten(seq(|chunks|, k requires 0 <= k < |chunks| => StrippedLines(chunks[k]))) == ss
  {
    var groups := Groups(ss, [], chunkSize, maxI);
    var chunks := Chunks(ss, chunkSize, maxI);
    GroupsNonEmpty(ss, [], chunkSize, maxI);
    GroupsOfLines(ss, [], chunkSize, maxI);
    forall k | 0 <= k < |chunks|
      ensures chunks[k] != [] && StrippedLines(chunks[k]) == groups[k]
    {
      ChunkLines(groups[k]);
    }
    assert seq(|chunks|, k requires 0 <= k < |chunks| => StrippedLines(chunks[k])) == groups;
    GroupsFlatten(ss, [], chunkSize, maxI);
  }

  // ---------------------------------------------------------------- context

  /** Where a Python slice bound lands in a list of length `n`. */
  function SliceBound(n: nat, i: int): (r: nat)
    ensures r <= n
  {
    if i < 0 then (if n + i < 0 then 0 else n + i) else if i > n then n else i
  }

  /** `chunk_lines[-lines_count:]` for a preceding chunk, `chunk_lines[:lines_count]`
      for a following one; nothing when the neighbour does not exist. */
  function GetContext(chunks: seq<string>, index: int, offset: int, linesCount: int): (r: seq<string>)
    ensures !(0 <= index + offset < |chunks|) ==> r == []
    ensures 0 <= index + offset < |chunks| && offset < 0 ==>
      var lines := StrippedLines(chunks[index + offset]); |r| <= |lines| && r == lines[|lines| - |r|..]
    ensures 0 <= index + offset < |chunks| && offset >= 0 ==>
      var lines := StrippedLines(chunks[index + offset]); |r| <= |lines| && r == lines[..|r|]
  {
    var target := index + offset;
    if 0 <= target < |chunks| then
      var lines := StrippedLines(chunks[target]);
      if offset < 0 then lines[SliceBound(|lines|, -linesCount)..]
      else lines[..SliceBound(|lines|, linesCount)]
    else []
  }

  /** With a positive count the context holds that many lines, or all of a
      shorter neighbour. */
  lemma GetContextLength(chunks: seq<string>, index: int, offset: int, linesCount: int)
    requires 0 <= index + offset < |chunks| && linesCount >= 1
    ensures var lines := StrippedLines(chunks[index + offset]);
      |GetContext(chunks, index, offset, linesCount)| == if linesCount < |lines| then linesCount else |lines|
  {
  }

  /** A zero count for a preceding chunk yields the whole chunk, since `-0` is `0`. */
  lemma GetContextZero(chunks: seq<string>, index: int, offset: int)
    requires 0 <= index + offset < |chunks| && offset < 0
    ensures GetContext(chunks, index, offset, 0) == StrippedLines(chunks[index + offset])
  {
  }

  // ---------------------------------------------------------------- one chunk

  /** `translate_batch_lines(lines, before, after, chunk_index)`, which is not part of this module. */
  type Translator = (seq<string>, seq<string>, seq<string>, int) -> seq<string>

  /** What a worker returns: `(i, lines, trans_lines)`. */
  datatype ChunkResult = ChunkResult(index: int, src: seq<string>, trans: seq<string>)

  /** `process_chunk`. */
  function ProcessChunk(chunk: string, chunks: seq<string>, i: int, translate: Translator): (r: ChunkResult)
    ensures r.index == i && |r.src| >= 1
  {
    var lines := StrippedLines(chunk);
    var before := GetContext(chunks, i, -1, LinesBefore);
    var after := GetContext(chunks, i, 1, LinesAfter);
    ChunkResult(i, lines, translate(lines, before, after, i))
  }

  /** The context before chunk `i`: nothing for the first chunk, otherwise the
      last three lines of the previous chunk, or all of it when it is shorter. */
  lemma ContextBefore(chunks: seq<string>, i: int)
    requires 0 <= i < |chunks|
    ensures i == 0 ==> GetContext(chunks, i, -1, LinesBefore) == []
    ensures i > 0 ==>
      var before := GetContext(chunks, i, -1, LinesBefore);
      var lines := StrippedLines(chunks[i - 1]);
      |before| == (if |lines| < 3 then |lines| else 3) && before == lines[|lines| - |before|..]
  {
    if i > 0 {
      GetContextLength(chunks, i, -1, LinesBefore);
    }
  }

  /** The context after chunk `i`: nothing for the last chunk, otherwise the
      first two lines of the next chunk, or all of it when it is shorter. */
  lemma ContextAfter(chunks: seq<string>, i: int)
    requires 0 <= i < |chunks|
    ensures i == |chunks| - 1 ==> GetContext(chunks, i, 1, LinesAfter) == []
    ensures i < |chunks| - 1 ==>
      var after := GetContext(chunks, i, 1, LinesAfter);
      var lines := StrippedLines(chunks[i + 1]);
      |after| == (if |lines| < 2 then |lines| else 2) && after == lines[..|after|]
  {
    if i < |chunks| - 1 {
      GetContextLength(chunks, i, 1, LinesAfter);
    }
  }

  // ---------------------------------------------------------------- reassembly

  predicate SortedByIndex(rs: seq<ChunkResult>) {
    forall j, k :: 0 <= j < k < |rs| ==> rs[j].index <= rs[k].index
  }

  function InsertByIndex(x: ChunkResult, rs: seq<ChunkResult>): (r: seq<ChunkResult>)
    requires SortedByIndex(rs)
    ensures SortedByIndex(r) && multiset(r) == multiset(rs) + multiset{x}
  {
    if rs == [] then [x]
    else if x.index < rs[0].index then [x] + rs
    else
      var tail := InsertByIndex(x, rs[1..]);
      assert rs == [rs[0]] + rs[1..];
      InsertLowerBound(rs[0].index, x, rs[1..], tail);
      SortedCons(rs[0], tail);
      [rs[0]] + tail
  }

  lemma SortedCons(h: ChunkResult, tail: seq<ChunkResult>)
    requires SortedByIndex(tail) && forall k :: 0 <= k < |tail| ==> h.index <= tail[k].index
    ensures SortedByIndex([h] + tail)
  {
    var r := [h] + tail;
    forall j, k | 0 <= j < k < |r|
      ensures r[j].index <= r[k].index
    {
      assert r[k] == tail[k - 1];
      if j > 0 {
        assert r[j] == tail[j - 1];
      }
    }
  }

  lemma InsertLowerBound(b: int, x: ChunkResult, rs: seq<ChunkResult>, tail: seq<ChunkResult>)
    requires b <= x.index && forall k :: 0 <= k < |rs| ==> b <= rs[k].index
    requires multiset(tail) == multiset(rs) + multiset{x}
    ensures forall k :: 0 <= k < |tail| ==> b <= tail[k].index
  {
    forall k | 0 <= k < |tail|
      ensures b <= tail[k].index
    {
      assert tail[k] in multiset(tail);
      if tail[k] != x {
        assert tail[k] in multiset(rs);
      }
    }
  }

  /** `results.sort(key=lambda x: x[0])`: a stable sort on the chunk index. */
  function SortByIndex(rs: seq<ChunkResult>): (r: seq<ChunkResult>)
    ensures SortedByIndex(r) && multiset(r) == multiset(rs)
  {
    if rs == [] then []
    else
      assert rs == rs[..|rs| - 1] + [rs[|rs| - 1]];
      InsertByIndex(rs[|rs| - 1], SortByIndex(rs[..|rs| - 1]))
  }

  /** The futures complete in `order`: every chunk index exactly once. */
  predicate EachIndexOnce(order: seq<nat>, n: nat) {
    |order| == n
    && (forall k :: 0 <= k < |order| ==> order[k] < n)
    && (forall j, k :: 0 <= j < k < |order| ==> order[j] != order[k])
  }

  /** The results in chunk order. */
  function InChunkOrder(chunks: seq<string>, translate: Translator): (r: seq<ChunkResult>)
    ensures |r| == |chunks|
    ensures forall i :: 0 <= i < |r| ==> r[i].index == i
  {
    seq(|chunks|, i requires 0 <= i < |chunks| => ProcessChunk(chunks[i], chunks, i, translate))
  }

  /** The entries of `all` at the positions `order`, in that order. */
  function Pick<T>(all: seq<T>, order: seq<nat>): (r: seq<T>)
    requires forall k :: 0 <= k < |order| ==> order[k] < |all|
    ensures |r| == |order|
  {
    seq(|order|, k requires 0 <= k < |order| => all[order[k]])
  }

  lemma PickSnoc<T>(all: seq<T>, order: seq<nat>, k: nat)
    requires forall j :: 0 <= j < |order| ==> order[j] < |all|
    requires k < |order|
    ensures Pick(all, order[..k + 1]) == Pick(all, order[..k]) + [all[order[k]]]
  {
    var longer := Pick(all, order[..k + 1]);
    var shorter := Pick(all, order[..k]);
    forall j | 0 <= j < k
      ensures longer[j] == shorter[j]
    {
      assert order[..k + 1][j] == order[..k][j];
    }
  }

  /** The results in the order the workers finish: the worker for chunk
      `order[k]` is the `k`-th to complete. */
  function Completed(chunks: seq<string>, order: seq<nat>, translate: Translator): (r: seq<ChunkResult>)
    requires forall k :: 0 <= k < |order| ==> order[k] < |chunks|
    ensures |r| == |order|
    ensures forall k :: 0 <= k < |order| ==> r[k].index == order[k]
  {
    Pick(InChunkOrder(chunks, translate), order)
  }

  lemma {:induction false} DistinctCount<T>(s: seq<T>, x: T)
    requires forall j, k :: 0 <= j < k < |s| ==> s[j] != s[k]
    ensures multiset(s)[x] <= 1
  {
    if s != [] {
      assert s == [s[0]] + s[1..];
      DistinctCount(s[1..], x);
      if x == s[0] {
        assert x !in s[1..];
      }
    }
  }

  lemma DuplicateCount<T>(s: seq<T>, j: nat, k: nat)
    requires j < k < |s| && s[j] == s[k]
    ensures multiset(s)[s[j]] >= 2
  {
    assert s == s[..k] + [s[k]] + s[k + 1..];
    assert s[j] in s[..k];
  }

  lemma {:induction false} StrictlyIncreasingIsIdentity(xs: seq<int>)
    requires forall k :: 0 <= k < |xs| ==> 0 <= xs[k] < |xs|
    requires forall j, k :: 0 <= j < k < |xs| ==> xs[j] < xs[k]
    ensures forall k :: 0 <= k < |xs| ==> xs[k] == k
  {
    if xs != [] {
      var m := |xs| - 1;
      forall k | 0 <= k < m
        ensures 0 <= xs[..m][k] < m
      {
        assert xs[k] < xs[m];
      }
      forall j, k | 0 <= j < k < m
        ensures xs[..m][j] < xs[..m][k]
      {
        assert xs[j] < xs[k];
      }
      StrictlyIncreasingIsIdentity(xs[..m]);
      forall k | 0 <= k < |xs|
        ensures xs[k] == k
      {
        if k < m {
          assert xs[..m][k] == xs[k];
        } else if m > 0 {
          assert xs[m - 1] == xs[..m][m - 1] == m - 1;
          assert xs[m - 1] < xs[m];
        }
      }
    }
  }

  /** A result the worker for its own index would return. */
  predicate IsResultOf(x: ChunkResult, chunks: seq<string>, translate: Translator) {
    0 <= x.index < |chunks| && x == ProcessChunk(chunks[x.index], chunks, x.index, translate)
  }

  lemma CompletedFacts(chunks: seq<string>, order: seq<nat>, translate: Translator)
    requires EachIndexOnce(order, |chunks|)
    ensures forall x :: multiset(Completed(chunks, order, translate))[x] <= 1
    ensures forall x :: x in Completed(chunks, order, translate) ==> IsResultOf(x, chunks, translate)
  {
    var rs := Completed(chunks, order, translate);
    forall j, k | 0 <= j < k < |rs|
      ensures rs[j] != rs[k]
    {
      assert rs[j].index == order[j] && rs[k].index == order[k];
    }
    forall x {
      DistinctCount(rs, x);
    }
  }

  /** Sorted results with distinct chunk indices, each computed for its own index. */
  lemma SortedResultsStrict(chunks: seq<string>, out: seq<ChunkResult>, translate: Translator)
    requires SortedByIndex(out)
    requires forall x :: multiset(out)[x] <= 1
    requires forall x :: x in out ==> IsResultOf(x, chunks, translate)
    ensures forall j, k :: 0 <= j < k < |out| ==> out[j].index < out[k].index
  {
    forall j, k | 0 <= j < k < |out|
      ensures out[j].index < out[k].index
    {
      if out[j].index == out[k].index {
        assert IsResultOf(out[j], chunks, translate) && IsResultOf(out[k], chunks, translate);
        DuplicateCount(out, j, k);
        assert false;
      }
    }
  }

  lemma SortedIsChunkOrder(chunks: seq<string>, out: seq<ChunkResult>, translate: Translator)
    requires |out| == |chunks|
    requires forall k :: 0 <= k < |out| ==> out[k].index == k && IsResultOf(out[k], chunks, translate)
    ensures out == InChunkOrder(chunks, translate)
  {
  }

  lemma StrictIndices(chunks: seq<string>, out: seq<ChunkResult>, translate: Translator)
    requires |out| == |chunks|
    requires forall k :: 0 <= k < |out| ==> IsResultOf(out[k], chunks, translate)
    requires forall j, k :: 0 <= j < k < |out| ==> out[j].index < out[k].index
    ensures forall k :: 0 <= k < |out| ==> out[k].index == k
  {
    var xs := seq(|out|, k requires 0 <= k < |out| => out[k].index);
    assert forall k :: 0 <= k < |out| ==> xs[k] == out[k].index;
    StrictlyIncreasingIsIdentity(xs);
  }

  /** Sorting the results, whatever order the workers finished in, puts them
      back in chunk order. */
  lemma SortRestoresChunkOrder(chunks: seq<string>, order: seq<nat>, translate: Translator)
    requires EachIndexOnce(order, |chunks|)
    ensures SortByIndex(Completed(chunks, order, translate)) == InChunkOrder(chunks, translate)
  {
    var out := SortByIndex(Completed(chunks, order, translate));
    SortedResults(chunks, order, translate);
    SortedResultsStrict(chunks, out, translate);
    StrictIndices(chunks, out, translate);
    SortedIsChunkOrder(chunks, out, translate);
  }

  /** The sorted results: one per chunk, sorted, no duplicates, each its chunk's own. */
  lemma SortedResults(chunks: seq<string>, order: seq<nat>, translate: Translator)
    requires EachIndexOnce(order, |chunks|)
    ensures var out := SortByIndex(Completed(chunks, order, translate));
      && |out| == |chunks| && SortedByIndex(out)
      && (forall x :: multiset(out)[x] <= 1)
      && (forall x :: x in out ==> IsResultOf(x, chunks, translate))
  {
    var rs := Completed(chunks, order, translate);
    var out := SortByIndex(rs);
    assert |out| == |rs| by {
      assert |multiset(out)| == |multiset(rs)|;
    }
    CompletedFacts(chunks, order, translate);
    assert forall x :: x in out ==> x in multiset(rs);
  }

  function Sources(rs: seq<ChunkResult>): (r: seq<seq<string>>)
    ensures |r| == |rs|
  {
    seq(|rs|, k requires 0 <= k < |rs| => rs[k].src)
  }

  function Translations(rs: seq<ChunkResult>): (r: seq<seq<string>>)
    ensures |r| == |rs|
  {
    seq(|rs|, k requires 0 <= k < |rs| => rs[k].trans)
  }

  lemma FlattenSnoc<T>(xss: seq<seq<T>>, xs: seq<T>)
    ensures Flatten(xss + [xs]) == Flatten(xss) + xs
  {
    FlattenAppend(xss, [xs]);
    assert Flatten([xs]) == xs + Flatten([xs][1..]);
  }

  /** The `extend` loop: all source lines, then all translations, result by result. */
  method Concatenate(results: seq<ChunkResult>) returns (allSrc: seq<string>, allTrans: seq<string>)
    ensures allSrc == Flatten(Sources(results)) && allTrans == Flatten(Translations(results))
  {
    allSrc := [];
    allTrans := [];
    for k := 0 to |results|
      invariant allSrc == Flatten(Sources(results[..k]))
      invariant allTrans == Flatten(Translations(results[..k]))
    {
      assert Sources(results[..k + 1]) == Sources(results[..k]) + [results[k].src];
      assert Translations(results[..k + 1]) == Translations(results[..k]) + [results[k].trans];
      FlattenSnoc(Sources(results[..k]), results[k].src);
      FlattenSnoc(Translations(results[..k]), results[k].trans);
      allSrc := allSrc + results[k].src;
      allTrans := allTrans + results[k].trans;
    }
    assert results[..|results|] == results;
  }

  /** The fallback when the counts differ: both lists cut to the shorter length. */
  function Truncate(allSrc: seq<string>, allTrans: seq<string>): (r: (seq<string>, seq<string>))
    ensures |r.0| == |r.1| && (|r.0| == |allSrc| || |r.0| == |allTrans|)
    ensures |r.0| <= |allSrc| && |r.0| <= |allTrans|
    ensures r.0 == allSrc[..|r.0|] && r.1 == allTrans[..|r.1|]
    ensures |allSrc| == |allTrans| ==> r == (allSrc, allTrans)
  {
    if |allSrc| != |allTrans| then
      var minLen := if |allSrc| < |allTrans| then |allSrc| else |allTrans|;
      (allSrc[..minLen], allTrans[..minLen])
    else (allSrc, allTrans)
  }

  /** The `as_completed` loop: results appended in the order `order` in
      which the workers finish. */
  method CollectResults(chunks: seq<string>, order: seq<nat>, translate: Translator)
    returns (results: seq<ChunkResult>)
    requires forall k :: 0 <= k < |order| ==> order[k] < |chunks|
    ensures results == Completed(chunks, order, translate)
  {
    results := [];
    for k := 0 to |order|
      invariant results == Completed(chunks, order[..k], translate)
    {
      var i := order[k];
      PickSnoc(InChunkOrder(chunks, translate), order, k);
      results := results + [ProcessChunk(chunks[i], chunks, i, translate)];
    }
    assert order[..|order|] == order;
  }

  method TranslateAll(content: string, order: seq<nat>, translate: Translator)
    returns (allSrc: seq<string>, allTrans: seq<string>)
    requires EachIndexOnce(order, |Chunks(Sentences(content), ChunkSize, MaxSentences)|)
    ensures var ordered := InChunkOrder(Chunks(Sentences(content), ChunkSize, MaxSentences), translate);
      (allSrc, allTrans) == Truncate(Flatten(Sources(ordered)), Flatten(Translations(ordered)))
  {
    var chunks := SplitChunksByChars(content, ChunkSize, MaxSentences);
    var results := CollectResults(chunks, order, translate);
    SortRestoresChunkOrder(chunks, order, translate);
    results := SortByIndex(results);
    allSrc, allTrans := Concatenate(results);
    if |allSrc| != |allTrans| {
      var minLen := if |allSrc| < |allTrans| then |allSrc| else |allTrans|;
      allSrc := allSrc[..minLen];
      allTrans := allTrans[..minLen];
    }
  }

  /** When the file holds proper lines, the source column is exactly those lines. */
  lemma TranslateAllSources(content: string, translate: Translator)
    requires forall k :: 0 <= k < |Sentences(content)| ==> IsLine(Sentences(content)[k])
    ensures Flatten(Sources(InChunkOrder(Chunks(Sentences(content), ChunkSize, MaxSentences), translate)))
      == Sentences(content)
  {
    var ss := Sentences(content);
    var chunks := Chunks(ss, ChunkSize, MaxSentences);
    ChunksRoundTrip(ss, ChunkSize, MaxSentences);
    assert Sources(InChunkOrder(chunks, translate))
      == seq(|chunks|, k requires 0 <= k < |chunks| => StrippedLines(chunks[k]));
  }

  lemma {:induction false} FlattenSameShape<T, U>(xss: seq<seq<T>>, yss: seq<seq<U>>)
    requires |xss| == |yss| && forall k :: 0 <= k < |xss| ==> |xss[k]| == |yss[k]|
    ensures |Flatten(xss)| == |Flatten(yss)|
  {
    if xss != [] {
      FlattenSameShape(xss[1..], yss[1..]);
    }
  }

  /** When the translator answers every chunk with one line per source line,
      nothing is cut off. */
  lemma TranslateAllNoTruncation(chunks: seq<string>, translate: Translator)
    requires forall k :: 0 <= k < |chunks| ==>
      |ProcessChunk(chunks[k], chunks, k, translate).trans| == |ProcessChunk(chunks[k], chunks, k, translate).src|
    ensures var ordered := InChunkOrder(chunks, translate);
      Truncate(Flatten(Sources(ordered)), Flatten(Translations(ordered)))
      == (Flatten(Sources(ordered)), Flatten(Translations(ordered)))
  {
    var ordered := InChunkOrder(chunks, translate);
    FlattenSameShape(Sources(ordered), Translations(ordered));
  }
}
