/** Splitting long sentences by meaning: every sentence whose token count is
    over the limit is sent to the model, which answers with the parts as a
    list; the parts replace the sentence in place, and any failure keeps the
    sentence whole. Three passes run over the whole file. */
module SplitMeaning {
  import opened Wrappers
  import opened Strings
  import opened Json
  import Gpt

  const SplitTitle := "split_by_meaning"
  const MissingSplit := "Missing required key: `split`"
  const SplitNotList := "Key `split` must be a list"
  const Passes := 3

  /** `get_split_prompt(sentence, num_parts, word_limit)`; the prompt text is
      not part of this model. */
  type SplitPrompt = (string, int, int) -> string

  // ---------------------------------------------------------------- validator

  /** `valid_split`: the response must map `split` to a list; a list of fewer
      than two parts is accepted too. Indexing anything but a dict raises. */
  function ValidSplit(resp: Json): (r: Gpt.Verdict)
    ensures Gpt.Passed(r) <==>
      resp.JObj? && Get(resp.members, "split").Some? && Get(resp.members, "split").value.JArr?
    ensures resp.JObj? && "split" !in Keys(resp.members) ==> r == Gpt.Verdict(false, MissingSplit)
    ensures resp.JObj? && "split" in Keys(resp.members) && !Get(resp.members, "split").value.JArr? ==>
      r == Gpt.Verdict(false, SplitNotList)
    ensures Gpt.Passed(r) ==>
      (r.message == "Split list valid" <==> |Get(resp.members, "split").value.items| < 2)
  {
    match PyContains(resp, "split")
    case None => Gpt.Crash("argument is not iterable")
    case Some(false) => Gpt.Verdict(false, MissingSplit)
    case Some(true) =>
      match resp
      case JObj(ms) =>
        (match Get(ms, "split")
         case Some(JArr(items)) =>
           if |items| < 2 then Gpt.Verdict(true, "Split list valid")
           else Gpt.Verdict(true, "Split completed")
         case _ => Gpt.Verdict(false, SplitNotList))
      case _ => Gpt.Crash("indices must be integers")
  }

  // ---------------------------------------------------------------- one sentence

  /** The request `split_sentence` sends for one sentence; `retry` trailing
      spaces make each pass's prompt, and so its cache entry, distinct. */
  function SplitRequest(sentence: string, numParts: int, wordLimit: int, retry: nat, prompt: SplitPrompt): Gpt.Request {
    Gpt.Request(prompt(sentence, numParts, wordLimit) + Spaces(retry), Some("json"), Some(ValidSplit), SplitTitle)
  }

  /** The strings of a list whose items are all strings. */
  function StringItems(items: seq<Json>): (r: Option<seq<string>>)
    ensures r.Some? <==> forall k :: 0 <= k < |items| ==> items[k].JStr?
    ensures r.Some? ==> |r.value| == |items| && forall k :: 0 <= k < |items| ==> r.value[k] == items[k].s
  {
    if items == [] then Some([])
    else
      var rest := StringItems(items[1..]);
      if !items[0].JStr? || rest.None? then None
      else Some([items[0].s] + rest.value)
  }

  /** The one-character strings of `s`, which is what iterating a string yields. */
  function Chars(s: string): seq<string> {
    seq(|s|, k requires 0 <= k < |s| => [s[k]])
  }

  /** `'\n'.join(v)` for whatever `v` is: the items of a list of strings, the
      characters of a string, the keys of a dict; `None` for the `TypeError`
      of anything else. */
  function JoinJson(v: Json): Option<string> {
    match v
    case JArr(items) =>
      (var ss := StringItems(items);
       if ss.None? then None else Some(Join(ss.value, '\n')))
    case JStr(s) => Some(Join(Chars(s), '\n'))
    case JObj(ms) => Some(Join(Keys(ms), '\n'))
    case _ => None
  }

  /** `'\n'.join(response_data["split"])`; `None` where that raises. */
  function SplitText(resp: Json): Option<string> {
    if !resp.JObj? then None
    else
      match Get(resp.members, "split")
      case None => None
      case Some(v) => JoinJson(v)
  }

  /** The `split` list of a response the validator accepted. */
  function SplitItems(resp: Json): seq<Json>
    requires Gpt.Passed(ValidSplit(resp))
  {
    Get(resp.members, "split").value.items
  }

  /** On a response the validator accepted, the text is the parts joined by
      newlines exactly when every part is a string. */
  lemma SplitTextOfValid(resp: Json)
    requires Gpt.Passed(ValidSplit(resp))
    ensures SplitText(resp).Some? <==>
      forall k :: 0 <= k < |SplitItems(resp)| ==> SplitItems(resp)[k].JStr?
    ensures SplitText(resp).Some? ==> SplitText(resp) == Some(Join(StringItems(SplitItems(resp)).value, '\n'))
  {
    var v := Get(resp.members, "split").value;
    assert v.JArr? && v.items == SplitItems(resp);
    assert SplitText(resp) == JoinJson(v);
    var t := StringItems(v.items);
    assert JoinJson(v) == (if t.None? then None else Some(Join(t.value, '\n')));
    assert t.Some? <==> forall k :: 0 <= k < |v.items| ==> v.items[k].JStr?;
  }

  /** `split_sentence`: one request to the model; `r` is the joined parts, or
      `None` where the request or the join raises. `reply` is what the request
      returned. The length-mismatch check only prints a warning. */
  method SplitSentence(svc: Gpt.Service, sentence: string, numParts: int, wordLimit: int, retry: nat,
                       prompt: SplitPrompt)
    returns (r: Option<string>, ghost reply: Gpt.Outcome<Json>)
    requires svc.Valid()
    modifies svc
    ensures svc.Valid()
    ensures svc.asked == old(svc.asked) + [(SplitRequest(sentence, numParts, wordLimit, retry, prompt).prompt, SplitTitle)]
    ensures r == (if reply.Ok? then SplitText(reply.value) else None)
    ensures reply.Ok? && !Gpt.CacheHit(old(svc.logs), SplitRequest(sentence, numParts, wordLimit, retry, prompt)) ==>
      Gpt.Passed(ValidSplit(reply.value))
  {
    var req := SplitRequest(sentence, numParts, wordLimit, retry, prompt);
    var outcome := svc.Ask(req);
    reply := outcome;
    r := None;
    if outcome.Ok? && outcome.value.JObj? {
      var parts := Get(outcome.value.members, "split");
      if parts.Some? {
        r := JoinJson(parts.value);
      }
    }
  }

  // ---------------------------------------------------------------- the split decision

  /** Python's `math.ceil(a / b)`, for `b != 0`. */
  function CeilDiv(a: nat, b: int): int
    requires b != 0
  {
    if b > 0 then (a + b - 1) / b else -(a / -b)
  }

  /** `CeilDiv` is the ceiling of the quotient: the least `r` with
      `a <= r * b` for a positive divisor, mirrored for a negative one; a
      sentence over a positive limit is cut into at least two parts. */
  lemma CeilDivIsCeiling(a: nat, b: int)
    requires b != 0
    ensures b > 0 ==> (CeilDiv(a, b) - 1) * b < a <= CeilDiv(a, b) * b
    ensures b < 0 ==> CeilDiv(a, b) * b <= a < (CeilDiv(a, b) - 1) * b
    ensures a > b > 0 ==> CeilDiv(a, b) >= 2
  {
  }

  /** No sentence over the limit divides by a zero limit. */
  predicate NoZeroDivision(ss: seq<string>, maxLength: int, tokens: string -> nat) {
    maxLength != 0 || forall i :: 0 <= i < |ss| ==> tokens(ss[i]) == 0
  }

  /** Every sentence is within the limit. */
  predicate AllShort(ss: seq<string>, maxLength: int, tokens: string -> nat) {
    forall i :: 0 <= i < |ss| ==> tokens(ss[i]) <= maxLength
  }

  /** A sentence sent to the model: its position, its text and `num_parts`. */
  datatype Job = Job(index: nat, sentence: string, numParts: int)

  /** The jobs the first loop of `parallel_split_sentences` submits, in order. */
  function JobsOf(ss: seq<string>, maxLength: int, tokens: string -> nat): seq<Job>
    requires NoZeroDivision(ss, maxLength, tokens)
    decreases |ss|
  {
    if ss == [] then []
    else
      var n := |ss| - 1;
      assert NoZeroDivision(ss[..n], maxLength, tokens) by {
        forall i | 0 <= i < n ensures ss[..n][i] == ss[i] { }
      }
      JobsOf(ss[..n], maxLength, tokens)
        + if tokens(ss[n]) > maxLength then [Job(n, ss[n], CeilDiv(tokens(ss[n]), maxLength))] else []
  }

  lemma JobsOfSnoc(ss: seq<string>, maxLength: int, tokens: string -> nat)
    requires NoZeroDivision(ss, maxLength, tokens) && ss != []
    ensures NoZeroDivision(ss[..|ss| - 1], maxLength, tokens)
    ensures var n := |ss| - 1;
      JobsOf(ss, maxLength, tokens) == JobsOf(ss[..n], maxLength, tokens)
        + if tokens(ss[n]) > maxLength then [Job(n, ss[n], CeilDiv(tokens(ss[n]), maxLength))] else []
  {
    var n := |ss| - 1;
    forall i | 0 <= i < n ensures ss[..n][i] == ss[i] { }
  }

  /** A sentence is sent to the model only when it is over the limit. */
  lemma {:induction false} JobsOfSound(ss: seq<string>, maxLength: int, tokens: string -> nat)
    requires NoZeroDivision(ss, maxLength, tokens)
    ensures var jobs := JobsOf(ss, maxLength, tokens);
      forall k :: 0 <= k < |jobs| ==>
        jobs[k].index < |ss| && jobs[k].sentence == ss[jobs[k].index]
        && tokens(jobs[k].sentence) > maxLength && maxLength != 0
  {
    if ss != [] {
      var n := |ss| - 1;
      JobsOfSnoc(ss, maxLength, tokens);
      JobsOfSound(ss[..n], maxLength, tokens);
      var prev := JobsOf(ss[..n], maxLength, tokens);
      var jobs := JobsOf(ss, maxLength, tokens);
      forall k | 0 <= k < |prev|
        ensures jobs[k] == prev[k] && prev[k].index < n && ss[prev[k].index] == ss[..n][prev[k].index]
      {
      }
    }
  }

  /** Each job asks for `num_parts` parts, the rounded-up ratio of the
      sentence's length to the limit. */
  lemma {:induction false} JobsOfParts(ss: seq<string>, maxLength: int, tokens: string -> nat)
    requires NoZeroDivision(ss, maxLength, tokens)
    ensures JobsOf(ss, maxLength, tokens) != [] ==> maxLength != 0
    ensures forall k :: 0 <= k < |JobsOf(ss, maxLength, tokens)| && maxLength != 0 ==>
      JobsOf(ss, maxLength, tokens)[k].numParts == CeilDiv(tokens(JobsOf(ss, maxLength, tokens)[k].sentence), maxLength)
  {
    if ss != [] {
      var n := |ss| - 1;
      JobsOfSnoc(ss, maxLength, tokens);
      JobsOfParts(ss[..n], maxLength, tokens);
      var prev := JobsOf(ss[..n], maxLength, tokens);
      var jobs := JobsOf(ss, maxLength, tokens);
      forall k | 0 <= k < |jobs|
        ensures maxLength != 0 && jobs[k].numParts == CeilDiv(tokens(jobs[k].sentence), maxLength)
      {
        if k < |prev| {
          assert jobs[k] == prev[k];
        } else {
          assert jobs[k] == Job(n, ss[n], CeilDiv(tokens(ss[n]), maxLength));
        }
      }
    }
  }

  /** The requests go out in input order, at most one per sentence. */
  lemma {:induction false} JobsOfIncreasing(ss: seq<string>, maxLength: int, tokens: string -> nat)
    requires NoZeroDivision(ss, maxLength, tokens)
    ensures var jobs := JobsOf(ss, maxLength, tokens);
      forall j, k :: 0 <= j < k < |jobs| ==> jobs[j].index < jobs[k].index
  {
    if ss != [] {
      var n := |ss| - 1;
      JobsOfSnoc(ss, maxLength, tokens);
      JobsOfSound(ss[..n], maxLength, tokens);
      JobsOfIncreasing(ss[..n], maxLength, tokens);
    }
  }

  /** Every sentence over the limit is sent to the model. */
  lemma {:induction false} JobsOfComplete(ss: seq<string>, maxLength: int, tokens: string -> nat)
    requires NoZeroDivision(ss, maxLength, tokens)
    ensures var jobs := JobsOf(ss, maxLength, tokens);
      forall i :: 0 <= i < |ss| && tokens(ss[i]) > maxLength ==> exists k :: 0 <= k < |jobs| && jobs[k].index == i
  {
    if ss != [] {
      var n := |ss| - 1;
      JobsOfSnoc(ss, maxLength, tokens);
      JobsOfComplete(ss[..n], maxLength, tokens);
      var prev := JobsOf(ss[..n], maxLength, tokens);
      var jobs := JobsOf(ss, maxLength, tokens);
      forall i | 0 <= i < |ss| && tokens(ss[i]) > maxLength
        ensures exists k :: 0 <= k < |jobs| && jobs[k].index == i
      {
        if i < n {
          assert ss[..n][i] == ss[i];
          var k :| 0 <= k < |prev| && prev[k].index == i;
          assert jobs[k] == prev[k];
        } else {
          assert jobs[|prev|].index == i;
        }
      }
    }
  }

  /** Nothing is sent when every sentence is within the limit. */
  lemma {:induction false} JobsOfAllShort(ss: seq<string>, maxLength: int, tokens: string -> nat)
    requires AllShort(ss, maxLength, tokens)
    ensures NoZeroDivision(ss, maxLength, tokens)
    ensures JobsOf(ss, maxLength, tokens) == []
  {
    if ss != [] {
      var n := |ss| - 1;
      JobsOfSnoc(ss, maxLength, tokens);
      assert AllShort(ss[..n], maxLength, tokens) by {
        forall i | 0 <= i < n ensures ss[..n][i] == ss[i] { }
      }
      JobsOfAllShort(ss[..n], maxLength, tokens);
    }
  }

  /** The requests the jobs make, in order. */
  function Requests(jobs: seq<Job>, maxLength: int, retry: nat, prompt: SplitPrompt): seq<(string, string)> {
    seq(|jobs|, k requires 0 <= k < |jobs| =>
      (SplitRequest(jobs[k].sentence, jobs[k].numParts, maxLength, retry, prompt).prompt, SplitTitle))
  }

  // ---------------------------------------------------------------- results

  function StripEach(ls: seq<string>): seq<string> {
    seq(|ls|, k requires 0 <= k < |ls| => Strip(ls[k]))
  }

  /** What replaces an over-long sentence: the stripped lines of the model's
      text, or the sentence itself when the request raised or the text is empty. */
  function Fallback(sentence: string, reply: Option<string>): (r: seq<string>)
    ensures |r| >= 1
  {
    if reply.None? || reply.value == [] then [sentence]
    else StripEach(Split(Strip(reply.value), '\n'))
  }

  /** Parts that are lines come back unchanged: splitting a sentence into
      `items` yields exactly `items`. */
  lemma FallbackOfLines(sentence: string, items: seq<string>)
    requires items != [] && forall k :: 0 <= k < |items| ==> IsLine(items[k])
    ensures Fallback(sentence, Some(Join(items, '\n'))) == items
  {
    var j := Join(items, '\n');
    JoinOfLinesStripped(items);
    assert Split(j, '\n') == items by {
      LinesSplitBack(items);
    }
    assert StripEach(items) == items by {
      StripEachLines(items);
    }
    FallbackOfStripped(sentence, j, items);
  }

  lemma FallbackOfStripped(sentence: string, t: string, items: seq<string>)
    requires t != [] && Strip(t) == t && Split(t, '\n') == items && StripEach(items) == items
    ensures Fallback(sentence, Some(t)) == items
  {
  }

  lemma LinesSplitBack(items: seq<string>)
    requires items != [] && forall k :: 0 <= k < |items| ==> IsLine(items[k])
    ensures Split(Join(items, '\n'), '\n') == items
  {
    SplitJoin(items, '\n');
  }

  lemma StripEachLines(items: seq<string>)
    requires forall k :: 0 <= k < |items| ==> IsLine(items[k])
    ensures StripEach(items) == items
  {
    forall k | 0 <= k < |items|
      ensures Strip(items[k]) == items[k]
    {
      StripNoop(items[k]);
    }
  }

  /** The lines that a failed split leaves contain no newline when the sentence has none. */
  lemma FallbackNoNewline(sentence: string, reply: Option<string>)
    requires '\n' !in sentence
    ensures forall k :: 0 <= k < |Fallback(sentence, reply)| ==> '\n' !in Fallback(sentence, reply)[k]
  {
    if reply.Some? && reply.value != [] {
      var ls := Split(Strip(reply.value), '\n');
      forall k | 0 <= k < |ls|
        ensures '\n' !in Strip(ls[k])
      {
        StripKeepsOutChar(ls[k], '\n');
      }
    }
  }

  /** `new_sentences` once both loops are done: a sentence within the limit
      stays as it is, one over it becomes its fallback. */
  function SplitParts(ss: seq<string>, maxLength: int, tokens: string -> nat, replies: seq<Option<string>>): seq<seq<string>>
    requires |replies| == |ss|
  {
    seq(|ss|, i requires 0 <= i < |ss| =>
      if tokens(ss[i]) <= maxLength then [ss[i]] else Fallback(ss[i], replies[i]))
  }

  lemma {:induction false} FlattenSingletons(ss: seq<string>, xss: seq<seq<string>>)
    requires |xss| == |ss| && forall i :: 0 <= i < |ss| ==> xss[i] == [ss[i]]
    ensures Flatten(xss) == ss
  {
    if ss != [] {
      FlattenSingletons(ss[1..], xss[1..]);
    }
  }

  /** Every sentence yields at least one line, so nothing is lost. */
  lemma SplitPartsLength(ss: seq<string>, maxLength: int, tokens: string -> nat, replies: seq<Option<string>>)
    requires |replies| == |ss|
    ensures |Flatten(SplitParts(ss, maxLength, tokens, replies))| >= |ss|
  {
    FlattenLength(SplitParts(ss, maxLength, tokens, replies));
  }

  /** With every sentence within the limit nothing is sent and nothing changes. */
  lemma AllShortUnchanged(ss: seq<string>, maxLength: int, tokens: string -> nat, replies: seq<Option<string>>)
    requires |replies| == |ss| && AllShort(ss, maxLength, tokens)
    ensures NoZeroDivision(ss, maxLength, tokens)
    ensures JobsOf(ss, maxLength, tokens) == []
    ensures Flatten(SplitParts(ss, maxLength, tokens, replies)) == ss
  {
    JobsOfAllShort(ss, maxLength, tokens);
    FlattenSingletons(ss, SplitParts(ss, maxLength, tokens, replies));
  }

  /** When every request fails, each sentence is kept whole. */
  lemma AllFailedUnchanged(ss: seq<string>, maxLength: int, tokens: string -> nat, replies: seq<Option<string>>)
    requires |replies| == |ss| && forall i :: 0 <= i < |ss| ==> replies[i].None?
    ensures Flatten(SplitParts(ss, maxLength, tokens, replies)) == ss
  {
    FlattenSingletons(ss, SplitParts(ss, maxLength, tokens, replies));
  }

  lemma {:induction false} FlattenNoNewline(xss: seq<seq<string>>)
    requires forall i, j :: 0 <= i < |xss| && 0 <= j < |xss[i]| ==> '\n' !in xss[i][j]
    ensures forall k :: 0 <= k < |Flatten(xss)| ==> '\n' !in Flatten(xss)[k]
  {
    if xss != [] {
      FlattenNoNewline(xss[1..]);
      forall k | 0 <= k < |Flatten(xss)|
        ensures '\n' !in Flatten(xss)[k]
      {
        if k >= |xss[0]| {
          assert Flatten(xss)[k] == Flatten(xss[1..])[k - |xss[0]|];
        } else {
          assert Flatten(xss)[k] == xss[0][k];
        }
      }
    }
  }

  /** Sentences without newlines are split into lines without newlines. */
  lemma SplitPartsNoNewline(ss: seq<string>, maxLength: int, tokens: string -> nat, replies: seq<Option<string>>)
    requires |replies| == |ss| && forall i :: 0 <= i < |ss| ==> '\n' !in ss[i]
    ensures var out := Flatten(SplitParts(ss, maxLength, tokens, replies));
      forall k :: 0 <= k < |out| ==> '\n' !in out[k]
  {
    var parts := SplitParts(ss, maxLength, tokens, replies);
    forall i | 0 <= i < |ss|
      ensures forall j :: 0 <= j < |parts[i]| ==> '\n' !in parts[i][j]
    {
      FallbackNoNewline(ss[i], replies[i]);
    }
    FlattenNoNewline(parts);
  }

  // ---------------------------------------------------------------- one pass

  /** `reply` is what `split_sentence` returns when the request gave `outcome`. */
  ghost predicate Answered(reply: Option<string>, outcome: Gpt.Outcome<Json>) {
    reply == (if outcome.Ok? then SplitText(outcome.value) else None)
  }

  /** `ps` once the first `k` jobs have been collected: sentences within the
      limit are in place, and each collected job's sentence is replaced by its
      fallback. */
  ghost predicate Collected(ss: seq<string>, maxLength: int, tokens: string -> nat, jobs: seq<Job>, k: nat,
                            ps: seq<seq<string>>, replies: seq<Option<string>>, outcomes: seq<Gpt.Outcome<Json>>)
  {
    |ps| == |ss| && |replies| == |ss| && |outcomes| == |ss| && k <= |jobs|
    && (forall i :: 0 <= i < |ss| && tokens(ss[i]) <= maxLength ==> ps[i] == [ss[i]])
    && forall j :: 0 <= j < k && jobs[j].index < |ss| ==>
      ps[jobs[j].index] == Fallback(jobs[j].sentence, replies[jobs[j].index])
      && Answered(replies[jobs[j].index], outcomes[jobs[j].index])
  }

  lemma CollectedStep(ss: seq<string>, maxLength: int, tokens: string -> nat, k: nat,
                      ps: seq<seq<string>>, replies: seq<Option<string>>, outcomes: seq<Gpt.Outcome<Json>>,
                      reply: Option<string>, outcome: Gpt.Outcome<Json>)
    requires NoZeroDivision(ss, maxLength, tokens)
    requires Collected(ss, maxLength, tokens, JobsOf(ss, maxLength, tokens), k, ps, replies, outcomes)
    requires k < |JobsOf(ss, maxLength, tokens)| && Answered(reply, outcome)
    ensures var job := JobsOf(ss, maxLength, tokens)[k];
      job.index < |ss|
      && Collected(ss, maxLength, tokens, JobsOf(ss, maxLength, tokens), k + 1,
                   ps[job.index := Fallback(job.sentence, reply)],
                   replies[job.index := reply], outcomes[job.index := outcome])
  {
    var jobs := JobsOf(ss, maxLength, tokens);
    JobsOfSound(ss, maxLength, tokens);
    JobsOfIncreasing(ss, maxLength, tokens);
    CollectedAdvance(ss, maxLength, tokens, jobs, k, ps, replies, outcomes, reply, outcome);
  }

  /** Recording job `k`'s answer at its sentence keeps every earlier job's
      record, since earlier jobs sit at other sentences. */
  lemma CollectedAdvance(ss: seq<string>, maxLength: int, tokens: string -> nat, jobs: seq<Job>, k: nat,
                         ps: seq<seq<string>>, replies: seq<Option<string>>, outcomes: seq<Gpt.Outcome<Json>>,
                         reply: Option<string>, outcome: Gpt.Outcome<Json>)
    requires Collected(ss, maxLength, tokens, jobs, k, ps, replies, outcomes)
    requires k < |jobs| && Answered(reply, outcome)
    requires jobs[k].index < |ss| && tokens(ss[jobs[k].index]) > maxLength
    requires forall j :: 0 <= j < k ==> jobs[j].index < jobs[k].index
    ensures Collected(ss, maxLength, tokens, jobs, k + 1,
                      ps[jobs[k].index := Fallback(jobs[k].sentence, reply)],
                      replies[jobs[k].index := reply], outcomes[jobs[k].index := outcome])
  {
    var at := jobs[k].index;
    var ps' := ps[at := Fallback(jobs[k].sentence, reply)];
    var replies' := replies[at := reply];
    var outcomes' := outcomes[at := outcome];
    forall j | 0 <= j < k + 1 && jobs[j].index < |ss|
      ensures ps'[jobs[j].index] == Fallback(jobs[j].sentence, replies'[jobs[j].index])
      ensures Answered(replies'[jobs[j].index], outcomes'[jobs[j].index])
    {
      if j < k {
        assert jobs[j].index != at;
      }
    }
  }

  /** Once every job has been collected, `new_sentences` is `SplitParts`. */
  lemma CollectedAll(ss: seq<string>, maxLength: int, tokens: string -> nat,
                     ps: seq<seq<string>>, replies: seq<Option<string>>, outcomes: seq<Gpt.Outcome<Json>>)
    requires NoZeroDivision(ss, maxLength, tokens)
    requires var jobs := JobsOf(ss, maxLength, tokens);
      Collected(ss, maxLength, tokens, jobs, |jobs|, ps, replies, outcomes)
    ensures |replies| == |ss|
    ensures ps == SplitParts(ss, maxLength, tokens, replies)
    ensures forall i :: 0 <= i < |ss| && tokens(ss[i]) > maxLength ==> Answered(replies[i], outcomes[i])
  {
    var jobs := JobsOf(ss, maxLength, tokens);
    JobsOfSound(ss, maxLength, tokens);
    JobsOfComplete(ss, maxLength, tokens);
    forall i | 0 <= i < |ss| && tokens(ss[i]) > maxLength
      ensures ps[i] == Fallback(ss[i], replies[i]) && Answered(replies[i], outcomes[i])
    {
      var k :| 0 <= k < |jobs| && jobs[k].index == i;
    }
  }

  /** The first loop of `parallel_split_sentences`: a sentence within the
      limit is placed as it is, any other becomes a job. `None` is the
      `ZeroDivisionError` of a zero limit, which comes before any job is
      submitted. */
  method SubmitJobs(sentences: seq<string>, maxLength: int, tokens: string -> nat, parts: array<seq<string>>)
    returns (jobs: Option<seq<Job>>)
    requires parts.Length == |sentences|
    modifies parts
    ensures jobs.None? <==> !NoZeroDivision(sentences, maxLength, tokens)
    ensures jobs.Some? ==> jobs.value == JobsOf(sentences, maxLength, tokens)
    ensures jobs.Some? ==>
      forall i :: 0 <= i < |sentences| && tokens(sentences[i]) <= maxLength ==> parts[i] == [sentences[i]]
  {
    var submitted: seq<Job> := [];
    for i := 0 to |sentences|
      invariant NoZeroDivision(sentences[..i], maxLength, tokens)
      invariant submitted == JobsOf(sentences[..i], maxLength, tokens)
      invariant forall j :: 0 <= j < i && tokens(sentences[j]) <= maxLength ==> parts[j] == [sentences[j]]
    {
      assert sentences[..i + 1][..i] == sentences[..i];
      var n := tokens(sentences[i]);
      if n > maxLength {
        if maxLength == 0 {
          return None;
        }
        submitted := submitted + [Job(i, sentences[i], CeilDiv(n, maxLength))];
      } else {
        parts[i] := [sentences[i]];
      }
      assert NoZeroDivision(sentences[..i + 1], maxLength, tokens) by {
        forall j | 0 <= j < i + 1 ensures sentences[..i + 1][j] == sentences[j] { }
      }
    }
    assert sentences[..|sentences|] == sentences;
    return Some(submitted);
  }

  /** One job of the second loop of `parallel_split_sentences`: its sentence
      becomes the stripped lines of the answer, or stays whole when the request
      raised or the answer is empty. */
  method CollectOne(svc: Gpt.Service, job: Job, maxLength: int, retry: nat, prompt: SplitPrompt,
                    parts: array<seq<string>>)
    returns (ghost reply: Option<string>, ghost outcome: Gpt.Outcome<Json>)
    requires svc.Valid() && job.index < parts.Length
    modifies svc, parts
    ensures svc.Valid()
    ensures svc.asked == old(svc.asked) + Requests([job], maxLength, retry, prompt)
    ensures parts[..] == old(parts[..])[job.index := Fallback(job.sentence, reply)]
    ensures Answered(reply, outcome)
  {
    var splitResult;
    splitResult, outcome := SplitSentence(svc, job.sentence, job.numParts, maxLength, retry, prompt);
    reply := splitResult;
    if splitResult.Some? && splitResult.value != [] {
      var splitLines := Split(Strip(splitResult.value), '\n');
      parts[job.index] := StripEach(splitLines);
    } else {
      parts[job.index] := [job.sentence];
    }
  }

  /** The second loop of `parallel_split_sentences`: each job's request, in
      order, and its sentence replaced by the lines of the answer or kept
      whole. `replies[i]` is what the request for sentence `i` gave and
      `outcomes[i]` the model's answer to it. */
  method CollectJobs(svc: Gpt.Service, sentences: seq<string>, maxLength: int, tokens: string -> nat,
                     prompt: SplitPrompt, retry: nat, jobs: seq<Job>, parts: array<seq<string>>)
    returns (ghost replies: seq<Option<string>>, ghost outcomes: seq<Gpt.Outcome<Json>>)
    requires svc.Valid() && parts.Length == |sentences|
    requires NoZeroDivision(sentences, maxLength, tokens) && jobs == JobsOf(sentences, maxLength, tokens)
    requires forall i :: 0 <= i < |sentences| && tokens(sentences[i]) <= maxLength ==> parts[i] == [sentences[i]]
    modifies svc, parts
    ensures svc.Valid()
    ensures |replies| == |sentences| && |outcomes| == |sentences|
    ensures svc.asked == old(svc.asked) + Requests(jobs, maxLength, retry, prompt)
    ensures parts[..] == SplitParts(sentences, maxLength, tokens, replies)
    ensures forall i :: 0 <= i < |sentences| && tokens(sentences[i]) > maxLength ==> Answered(replies[i], outcomes[i])
  {
    JobsOfSound(sentences, maxLength, tokens);
    assert Requests(jobs[..0], maxLength, retry, prompt) == [];
    replies := seq(|sentences|, _ => None);
    outcomes := seq(|sentences|, _ => Gpt.Raise(Gpt.RequestFailed));
    for k := 0 to |jobs|
      invariant svc.Valid()
      invariant svc.asked == old(svc.asked) + Requests(jobs[..k], maxLength, retry, prompt)
      invariant Collected(sentences, maxLength, tokens, jobs, k, parts[..], replies, outcomes)
    {
      var job := jobs[k];
      ghost var ps := parts[..];
      ghost var reply, outcome := CollectOne(svc, job, maxLength, retry, prompt, parts);
      CollectedStep(sentences, maxLength, tokens, k, ps, replies, outcomes, reply, outcome);
      replies := replies[job.index := reply];
      outcomes := outcomes[job.index := outcome];
      assert Requests(jobs[..k + 1], maxLength, retry, prompt)
        == Requests(jobs[..k], maxLength, retry, prompt) + Requests([job], maxLength, retry, prompt);
    }
    CollectedAll(sentences, maxLength, tokens, parts[..], replies, outcomes);
  }

  /** `parallel_split_sentences`: `None` is the `ZeroDivisionError` of a zero
      limit, raised before any request is made. Otherwise the requests go out
      one per over-long sentence in input order, `replies[i]` is what the
      request for sentence `i` gave (`outcomes[i]` being the model's answer),
      and the result is the parts flattened in input order. */
  method ParallelSplitSentences(svc: Gpt.Service, sentences: seq<string>, maxLength: int,
                                tokens: string -> nat, prompt: SplitPrompt, retry: nat)
    returns (r: Option<seq<string>>, ghost replies: seq<Option<string>>, ghost outcomes: seq<Gpt.Outcome<Json>>)
    requires svc.Valid()
    modifies svc
    ensures svc.Valid()
    ensures r.None? <==> !NoZeroDivision(sentences, maxLength, tokens)
    ensures r.None? ==> svc.asked == old(svc.asked)
    ensures r.Some? ==>
      |replies| == |sentences| && |outcomes| == |sentences|
      && r.value == Flatten(SplitParts(sentences, maxLength, tokens, replies))
      && svc.asked == old(svc.asked) + Requests(JobsOf(sentences, maxLength, tokens), maxLength, retry, prompt)
    ensures r.Some? ==> forall i :: 0 <= i < |sentences| && tokens(sentences[i]) > maxLength ==>
      Answered(replies[i], outcomes[i])
  {
    var parts := new seq<string>[|sentences|];
    var jobs := SubmitJobs(sentences, maxLength, tokens, parts);
    if jobs.None? {
      return None, [], [];
    }
    replies, outcomes := CollectJobs(svc, sentences, maxLength, tokens, prompt, retry, jobs.value, parts);
    r := Some(Flatten(parts[..]));
  }

  // ---------------------------------------------------------------- the whole file

  /** `f.readlines()` without the line ends: no trailing empty line after a
      final newline, and nothing at all for an empty file. */
  function ReadLines(text: string): (r: seq<string>)
    ensures forall k :: 0 <= k < |r| ==> '\n' !in r[k]
  {
    if text == [] then []
    else
      var parts := Split(text, '\n');
      if parts[|parts| - 1] == [] then parts[..|parts| - 1] else parts
  }

  /** Joining the lines back gives the file, up to its final newline. */
  lemma ReadLinesRoundTrip(text: string)
    requires text != []
    ensures text == Join(ReadLines(text), '\n') + (if text[|text| - 1] == '\n' then "\n" else "")
  {
    var parts := Split(text, '\n');
    JoinSplit(text, '\n');
    var n := |parts| - 1;
    if n == 0 {
      assert Join(parts, '\n') == parts[0];
      assert parts[0] != [];
      assert text[|text| - 1] == parts[0][|parts[0]| - 1];
    } else {
      JoinSnoc(parts[..n], parts[n], '\n');
      assert parts[..n] + [parts[n]] == parts;
      if parts[n] != [] {
        assert text[|text| - 1] == parts[n][|parts[n]| - 1];
      }
    }
  }

  /** The sentences of the input file: its lines, stripped. */
  function InputSentences(text: string): (r: seq<string>)
    ensures |r| == |ReadLines(text)|
    ensures forall k :: 0 <= k < |r| ==> '\n' !in r[k]
  {
    var lines := ReadLines(text);
    forall k | 0 <= k < |lines|
      ensures '\n' !in Strip(lines[k])
    {
      StripKeepsOutChar(lines[k], '\n');
    }
    StripEach(lines)
  }

  /** The requests pass `retry` over `ss` sends: none when it stops on a zero
      limit. */
  function PassAsks(ss: seq<string>, maxLength: int, tokens: string -> nat, retry: nat,
                    prompt: SplitPrompt): seq<(string, string)> {
    if NoZeroDivision(ss, maxLength, tokens) then Requests(JobsOf(ss, maxLength, tokens), maxLength, retry, prompt)
    else []
  }

  /** The requests of every pass that ran over `passes[k]`, `k` below the last. */
  function PassRequests(passes: seq<seq<string>>, maxLength: int, tokens: string -> nat,
                        prompt: SplitPrompt): seq<(string, string)>
    decreases |passes|
  {
    if |passes| <= 1 then []
    else PassRequests(passes[..|passes| - 1], maxLength, tokens, prompt)
         + PassAsks(passes[|passes| - 2], maxLength, tokens, |passes| - 2, prompt)
  }

  /** `split_sentences_by_meaning`: three passes over the sentences of the
      input file, the output being the final sentences joined by newlines;
      `None` is the `ZeroDivisionError` of a zero limit. `passes[k]` is the
      list pass `k` starts from, `passReplies[k]` what its requests gave, and
      `lines` is the final list of sentences. */
  method SplitSentencesByMeaning(svc: Gpt.Service, text: string, maxLength: int,
                                 tokens: string -> nat, prompt: SplitPrompt)
    returns (r: Option<string>, ghost lines: seq<string>, ghost passes: seq<seq<string>>,
             ghost passReplies: seq<seq<Option<string>>>)
    requires svc.Valid()
    modifies svc
    ensures svc.Valid()
    ensures r.None? <==> !NoZeroDivision(InputSentences(text), maxLength, tokens)
    ensures |passes| == |passReplies| + 1 && passes[0] == InputSentences(text)
    ensures forall k :: 0 <= k < |passReplies| ==>
      |passReplies[k]| == |passes[k]| && passes[k + 1] == Flatten(SplitParts(passes[k], maxLength, tokens, passReplies[k]))
    ensures svc.asked == old(svc.asked) + PassRequests(passes, maxLength, tokens, prompt)
    ensures r.Some? ==> |passReplies| == Passes && lines == passes[Passes]
    ensures r.Some? ==> r.value == Join(lines, '\n') && |lines| >= |InputSentences(text)|
    ensures r.Some? ==> forall k :: 0 <= k < |lines| ==> '\n' !in lines[k]
    ensures r.Some? && lines != [] ==> Split(r.value, '\n') == lines
    ensures AllShort(InputSentences(text), maxLength, tokens) ==>
      r == Some(Join(InputSentences(text), '\n')) && svc.asked == old(svc.asked)
  {
    var input := InputSentences(text);
    var sentences := input;
    passes, passReplies := [input], [];
    for retry := 0 to Passes
      invariant svc.Valid()
      invariant |passes| == retry + 1 && |passReplies| == retry && passes[0] == input && passes[retry] == sentences
      invariant forall k :: 0 <= k < retry ==>
        |passReplies[k]| == |passes[k]| && passes[k + 1] == Flatten(SplitParts(passes[k], maxLength, tokens, passReplies[k]))
      invariant svc.asked == old(svc.asked) + PassRequests(passes, maxLength, tokens, prompt)
      invariant retry > 0 ==> NoZeroDivision(input, maxLength, tokens) && NoZeroDivision(sentences, maxLength, tokens)
      invariant |sentences| >= |input|
      invariant forall k :: 0 <= k < |sentences| ==> '\n' !in sentences[k]
      invariant AllShort(input, maxLength, tokens) ==> sentences == input && svc.asked == old(svc.asked)
    {
      var next;
      ghost var replies, outcomes;
      ghost var asked := svc.asked;
      next, replies, outcomes := ParallelSplitSentences(svc, sentences, maxLength, tokens, prompt, retry);
      if next.None? {
        return None, [], passes, passReplies;
      }
      PassRequestsSnoc(old(svc.asked), passes, next.value, maxLength, tokens, prompt);
      SplitPartsLength(sentences, maxLength, tokens, replies);
      SplitPartsNoNewline(sentences, maxLength, tokens, replies);
      if AllShort(sentences, maxLength, tokens) {
        AllShortUnchanged(sentences, maxLength, tokens, replies);
      }
      PassChainSnoc(passes, passReplies, replies, maxLength, tokens);
      passes, passReplies := passes + [next.value], passReplies + [replies];
      sentences := next.value;
    }
    lines := sentences;
    if lines != [] {
      SplitJoin(lines, '\n');
    }
    return Some(Join(sentences, '\n')), lines, passes, passReplies;
  }

  /** One more pass over the last list extends the chain of passes. */
  lemma PassChainSnoc(passes: seq<seq<string>>, passReplies: seq<seq<Option<string>>>,
                      replies: seq<Option<string>>, maxLength: int, tokens: string -> nat)
    requires |passes| == |passReplies| + 1 && |replies| == |passes[|passReplies|]|
    requires forall k :: 0 <= k < |passReplies| ==>
      |passReplies[k]| == |passes[k]| && passes[k + 1] == Flatten(SplitParts(passes[k], maxLength, tokens, passReplies[k]))
    ensures var last := passes[|passReplies|];
      var ps, rs := passes + [Flatten(SplitParts(last, maxLength, tokens, replies))], passReplies + [replies];
      forall k :: 0 <= k < |rs| ==>
        |rs[k]| == |ps[k]| && ps[k + 1] == Flatten(SplitParts(ps[k], maxLength, tokens, rs[k]))
  {
    var n := |passReplies|;
    var ps, rs := passes + [Flatten(SplitParts(passes[n], maxLength, tokens, replies))], passReplies + [replies];
    forall k | 0 <= k < |rs|
      ensures |rs[k]| == |ps[k]| && ps[k + 1] == Flatten(SplitParts(ps[k], maxLength, tokens, rs[k]))
    {
      assert ps[k] == passes[k];
      if k < n {
        assert rs[k] == passReplies[k] && ps[k + 1] == passes[k + 1];
      } else {
        assert rs[k] == replies;
      }
    }
  }

  /** One more pass adds its own requests after those of the earlier ones. */
  lemma PassRequestsSnoc(before: seq<(string, string)>, passes: seq<seq<string>>, next: seq<string>,
                         maxLength: int, tokens: string -> nat, prompt: SplitPrompt)
    requires passes != [] && NoZeroDivision(passes[|passes| - 1], maxLength, tokens)
    ensures before + PassRequests(passes + [next], maxLength, tokens, prompt)
      == before + PassRequests(passes, maxLength, tokens, prompt)
         + Requests(JobsOf(passes[|passes| - 1], maxLength, tokens), maxLength, |passes| - 1, prompt)
  {
    assert (passes + [next])[..|passes|] == passes;
    var earlier := PassRequests(passes, maxLength, tokens, prompt);
    var last := Requests(JobsOf(passes[|passes| - 1], maxLength, tokens), maxLength, |passes| - 1, prompt);
    assert PassRequests(passes + [next], maxLength, tokens, prompt) == earlier + last;
    assert before + (earlier + last) == before + earlier + last;
  }
}
