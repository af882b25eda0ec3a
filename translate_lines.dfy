/** Translation of one block of lines in two stages: a faithful translation
    whose response is validated (required keys, sub-keys and the adjacent-line
    hallucination check), optionally followed by an expressive rewrite; each
    stage retries up to three times until the response has one entry per
    source line. */
module TranslateLines {
  import opened Wrappers
  import opened Strings
  import opened Json
  import Gpt

  // ---------------------------------------------------------------- validators

  /** `str(n)` for any integer. */
  function IntToString(n: int): (r: string)
    ensures |r| >= 1
  {
    if n < 0 then "-" + NatToString(-n) else NatToString(n)
  }

  /** One step of the sub-key loop: the value found under `keyText` must hold
      every sub-key; a miss is reported only when the value is a dict (the
      message calls `.keys()` on it), any other failure raises. */
  function SubKeyStep(v: Json, keyText: string, subKeys: seq<string>, rest: Gpt.Verdict): Gpt.Verdict {
    match ContainsAll(v, subKeys)
    case None => Gpt.Crash("argument is not iterable")
    case Some(false) =>
      if v.JObj? then Gpt.Verdict(false, "Missing sub-keys in " + keyText)
      else Gpt.Crash("object has no attribute 'keys'")
    case Some(true) => rest
  }

  /** The sub-key loop over the members of a dict response. */
  function SubKeysOfMembers(ms: seq<Member>, subKeys: seq<string>): Gpt.Verdict {
    if ms == [] then Gpt.Verdict(true, "Translation completed")
    else SubKeyStep(ms[0].value, ms[0].key, subKeys, SubKeysOfMembers(ms[1..], subKeys))
  }

  /** The sub-key loop over a list response: each item must be an integer (a
      boolean counts as 0 or 1) indexing the list itself. */
  function SubKeysOfItems(rest: seq<Json>, all: seq<Json>, subKeys: seq<string>): Gpt.Verdict {
    if rest == [] then Gpt.Verdict(true, "Translation completed")
    else
      var index: Option<int> :=
        match rest[0]
        case JNum(n) => Some(n)
        case JBool(b) => Some(if b then 1 else 0)
        case _ => None;
      if index.None? then Gpt.Crash("list indices must be integers")
      else if !(-|all| <= index.value < |all|) then Gpt.Crash("list index out of range")
      else
        var v := all[if index.value < 0 then index.value + |all| else index.value];
        SubKeyStep(v, IntToString(index.value), subKeys, SubKeysOfItems(rest[1..], all, subKeys))
  }

  /** `valid_translate_result`. */
  function ValidTranslateResult(result: Json, requiredKeys: seq<string>, requiredSubKeys: seq<string>): Gpt.Verdict {
    match ContainsAll(result, requiredKeys)
    case None => Gpt.Crash("argument is not iterable")
    case Some(false) =>
      if result.JObj? then Gpt.Verdict(false, "Missing keys")
      else Gpt.Crash("object has no attribute 'keys'")
    case Some(true) =>
      match result
      case JObj(ms) => SubKeysOfMembers(ms, requiredSubKeys)
      case JArr(items) => SubKeysOfItems(items, items, requiredSubKeys)
      case JStr(s) => if s == [] then Gpt.Verdict(true, "Translation completed") else Gpt.Crash("string indices must be integers")
      case _ => Gpt.Crash("object is not iterable")
  }

  predicate HasAllSubKeys(ms: seq<Member>, subKeys: seq<string>) {
    forall i, j :: 0 <= i < |ms| && 0 <= j < |subKeys| ==> PyContains(ms[i].value, subKeys[j]) == Some(true)
  }

  lemma HasAllSubKeysCons(ms: seq<Member>, subKeys: seq<string>)
    requires ms != []
    ensures HasAllSubKeys(ms, subKeys) <==>
      ContainsAll(ms[0].value, subKeys) == Some(true) && HasAllSubKeys(ms[1..], subKeys)
  {
    assert forall i :: 0 <= i < |ms[1..]| ==> ms[1..][i] == ms[i + 1];
  }

  lemma {:induction false} SubKeysOfMembersSpec(ms: seq<Member>, subKeys: seq<string>)
    ensures Gpt.Passed(SubKeysOfMembers(ms, subKeys)) <==> HasAllSubKeys(ms, subKeys)
  {
    if ms != [] {
      SubKeysOfMembersSpec(ms[1..], subKeys);
      HasAllSubKeysCons(ms, subKeys);
    }
  }

  lemma {:induction false} ItemsWithStringFail(rest: seq<Json>, all: seq<Json>, subKeys: seq<string>, key: string)
    requires JStr(key) in rest
    ensures !Gpt.Passed(SubKeysOfItems(rest, all, subKeys))
  {
    if rest[0] != JStr(key) {
      ItemsWithStringFail(rest[1..], all, subKeys, key);
    }
  }

  /** A response that is not a dict never passes when some required key is non-empty. */
  lemma NonDictRejected(result: Json, requiredKeys: seq<string>, requiredSubKeys: seq<string>, k: nat)
    requires !result.JObj? && k < |requiredKeys| && requiredKeys[k] != []
    ensures !Gpt.Passed(ValidTranslateResult(result, requiredKeys, requiredSubKeys))
  {
    if ContainsAll(result, requiredKeys) == Some(true) {
      assert PyContains(result, requiredKeys[k]) == Some(true);
      if result.JArr? {
        ItemsWithStringFail(result.items, result.items, requiredSubKeys, requiredKeys[k]);
      } else if result.JStr? {
        assert Contains(result.s, requiredKeys[k]);
        assert result.s != [];
      }
    }
  }

  /** A dict response passes exactly when every required key is present and
      every entry, extra ones included, holds every required sub-key. */
  lemma ValidTranslateResultSpec(ms: seq<Member>, requiredKeys: seq<string>, requiredSubKeys: seq<string>)
    ensures Gpt.Passed(ValidTranslateResult(JObj(ms), requiredKeys, requiredSubKeys)) <==>
      (forall k :: 0 <= k < |requiredKeys| ==> requiredKeys[k] in Keys(ms))
      && HasAllSubKeys(ms, requiredSubKeys)
  {
    SubKeysOfMembersSpec(ms, requiredSubKeys);
  }

  /** `[str(i) for i in range(1, n + 1)]` */
  function NumberKeys(n: nat): (r: seq<string>)
    ensures |r| == n
  {
    seq(n, i requires 0 <= i < n => NatToString(i + 1))
  }

  /** The keys are distinct, so a response with exactly `n` keys holds no other. */
  lemma NumberKeysDistinct(n: nat)
    ensures forall i, j :: 0 <= i < j < n ==> NumberKeys(n)[i] != NumberKeys(n)[j]
  {
    forall i, j | 0 <= i < j < n
      ensures NumberKeys(n)[i] != NumberKeys(n)[j]
    {
      if NatToString(i + 1) == NatToString(j + 1) {
        NatToStringInjective(i + 1, j + 1);
      }
    }
  }

  /** `response_data[str(i)]['direct']` when it is a string; `None` where Python raises. */
  function DirectText(resp: Json, i: nat): Option<string> {
    if !resp.JObj? then None
    else match Get(resp.members, NatToString(i))
      case Some(JObj(fields)) =>
        (match Get(fields, "direct")
         case Some(JStr(t)) => Some(t)
         case _ => None)
      case _ => None
  }

  function HallucinationMessage(i: nat): string {
    "Hallucination detected: Line " + NatToString(i) + " & " + NatToString(i + 1)
    + " are identical in translation but different in source."
  }

  /** Lines `i` and `i + 1` translate to the same text of more than five
      characters although their sources differ. */
  predicate Suspicious(resp: Json, src: seq<string>, i: nat) {
    1 <= i < |src| && DirectText(resp, i).Some? && DirectText(resp, i + 1).Some?
    && var curr := Strip(DirectText(resp, i).value);
    |curr| > 5 && curr == Strip(DirectText(resp, i + 1).value) && Strip(src[i - 1]) != Strip(src[i])
  }

  /** The pair check passes at `i`: both texts exist and they are not suspicious. */
  predicate PairOk(resp: Json, src: seq<string>, i: nat) {
    DirectText(resp, i).Some? && DirectText(resp, i + 1).Some? && !Suspicious(resp, src, i)
  }

  /** What the loop finds at pair `i`: a text missing (Python raises), a
      suspicious duplicate, or a pair that is fine. */
  datatype PairState = Missing | Duplicate | Fine

  function PairAt(resp: Json, src: seq<string>, i: nat): (r: PairState)
    ensures r == Fine <==> PairOk(resp, src, i)
    ensures r == Duplicate <==> Suspicious(resp, src, i)
    ensures r == Missing <==> DirectText(resp, i).None? || DirectText(resp, i + 1).None?
  {
    if DirectText(resp, i).None? || DirectText(resp, i + 1).None? then Missing
    else if Suspicious(resp, src, i) then Duplicate
    else Fine
  }

  /** The loop over pairs `i .. n - 1`, given what each pair amounts to. */
  function Scan(pair: nat -> PairState, i: nat, n: nat): Gpt.Verdict
    decreases n - i
  {
    if i >= n then Gpt.Verdict(true, "Pass")
    else match pair(i)
      case Missing => Gpt.Crash("direct")
      case Duplicate => Gpt.Verdict(false, HallucinationMessage(i))
      case Fine => Scan(pair, i + 1, n)
  }

  /** The scan passes exactly when every pair is fine. */
  lemma {:induction false} ScanPasses(pair: nat -> PairState, i: nat, n: nat)
    ensures Gpt.Passed(Scan(pair, i, n)) <==> forall k :: i <= k < n ==> pair(k) == Fine
    decreases n - i
  {
    if i < n {
      ScanPasses(pair, i + 1, n);
      assert (forall k :: i <= k < n ==> pair(k) == Fine) <==>
        pair(i) == Fine && (forall k :: i + 1 <= k < n ==> pair(k) == Fine);
    }
  }

  /** With no pair missing, the scan never crashes, and a rejection names
      the first duplicate. */
  lemma {:induction false} ScanRejects(pair: nat -> PairState, i: nat, n: nat)
    requires forall k :: i <= k < n ==> pair(k) != Missing
    ensures var r := Scan(pair, i, n);
      r.Verdict? && (!r.success ==>
        exists j :: (i <= j < n && pair(j) == Duplicate
          && r.message == HallucinationMessage(j) && forall k :: i <= k < j ==> pair(k) != Duplicate))
    decreases n - i
  {
    if i < n && pair(i) == Fine {
      ScanRejects(pair, i + 1, n);
      var r := Scan(pair, i + 1, n);
      if !r.success {
        var j :| i + 1 <= j < n && pair(j) == Duplicate
          && r.message == HallucinationMessage(j) && forall k :: i + 1 <= k < j ==> pair(k) != Duplicate;
        assert forall k :: i <= k < j ==> pair(k) != Duplicate;
      }
    }
  }

  /** The hallucination loop of `valid_faith`, from pair `i` on. */
  function HallucinationFrom(resp: Json, src: seq<string>, i: nat): Gpt.Verdict {
    Scan((k: nat) => PairAt(resp, src, k), i, |src|)
  }

  /** The loop passes exactly when every remaining pair is fine. */
  lemma HallucinationFromPasses(resp: Json, src: seq<string>, i: nat)
    ensures Gpt.Passed(HallucinationFrom(resp, src, i)) <==> forall k :: i <= k < |src| ==> PairOk(resp, src, k)
  {
    var pair := (k: nat) => PairAt(resp, src, k);
    ScanPasses(pair, i, |src|);
    forall k | i <= k < |src|
      ensures pair(k) == Fine <==> PairOk(resp, src, k)
    {
      assert pair(k) == PairAt(resp, src, k);
    }
  }

  /** When every text exists, a rejection names the first suspicious pair. */
  lemma HallucinationFromRejects(resp: Json, src: seq<string>, i: nat)
    requires forall k :: i <= k <= |src| ==> DirectText(resp, k).Some?
    ensures var r := HallucinationFrom(resp, src, i);
      r.Verdict? && (!r.success ==>
        exists j :: (i <= j < |src| && Suspicious(resp, src, j)
          && r.message == HallucinationMessage(j) && forall k :: i <= k < j ==> !Suspicious(resp, src, k)))
  {
    var pair := (k: nat) => PairAt(resp, src, k);
    forall k | i <= k < |src|
      ensures pair(k) != Missing && (pair(k) == Duplicate <==> Suspicious(resp, src, k))
    {
      assert pair(k) == PairAt(resp, src, k);
    }
    ScanRejects(pair, i, |src|);
  }

  /** `valid_faith` for the block `src`: keys `"1".."n"` with sub-key `direct`,
      then the hallucination check. */
  function ValidFaith(src: seq<string>, resp: Json): Gpt.Verdict {
    var check := ValidTranslateResult(resp, NumberKeys(|src|), ["direct"]);
    if !Gpt.Passed(check) then check else HallucinationFrom(resp, src, 1)
  }

  /** `valid_faith` passes exactly when the key check passes and no adjacent
      pair is a duplicate translation of different sources; short duplicates
      and duplicates of equal sources pass. */
  lemma ValidFaithSpec(src: seq<string>, resp: Json)
    ensures Gpt.Passed(ValidFaith(src, resp)) <==>
      Gpt.Passed(ValidTranslateResult(resp, NumberKeys(|src|), ["direct"]))
      && forall k :: 1 <= k < |src| ==> PairOk(resp, src, k)
  {
    HallucinationFromPasses(resp, src, 1);
  }

  /** `valid_express`: keys `"1".."n"` with sub-key `free`. */
  function ValidExpress(n: nat, resp: Json): (r: Gpt.Verdict)
    ensures Gpt.Passed(r) <==> Gpt.Passed(ValidTranslateResult(resp, NumberKeys(n), ["free"]))
  {
    var check := ValidTranslateResult(resp, NumberKeys(n), ["free"]);
    if !Gpt.Passed(check) then check else Gpt.Verdict(true, "Pass")
  }

  // ---------------------------------------------------------------- retries

  datatype Step = Faithfulness | Expressiveness

  function StepTitle(step: Step): string {
    match step
    case Faithfulness => "translate_faithfulness"
    case Expressiveness => "translate_expressiveness"
  }

  function StepValidator(step: Step, src: seq<string>): Gpt.Validator {
    match step
    case Faithfulness => (resp: Json) => ValidFaith(src, resp)
    case Expressiveness => (resp: Json) => ValidExpress(|src|, resp)
  }

  /** Why a block fails: the request raised, all three attempts had the wrong
      number of entries, or the response had a shape the code cannot index. */
  datatype Failure = AskFailed(error: Gpt.Error) | RetriesExhausted | BadShape

  datatype Result<T> = Done(value: T) | Failed(failure: Failure)

  /** The requests of the first `n` attempts: attempt `r` adds `r` spaces. */
  function Attempts(prompt: string, title: string, n: nat): (r: seq<(string, string)>)
    ensures |r| == n
  {
    seq(n, k requires 0 <= k < n => (prompt + Spaces(k), title))
  }

  /** One more attempt appends its request. */
  lemma AttemptsSnoc(prompt: string, title: string, n: nat)
    ensures Attempts(prompt, title, n + 1) == Attempts(prompt, title, n) + [(prompt + Spaces(n), title)]
  {
    var a, b := Attempts(prompt, title, n + 1), Attempts(prompt, title, n) + [(prompt + Spaces(n), title)];
    forall k | 0 <= k < n + 1
      ensures a[k] == b[k]
    {
    }
  }

  /** No two attempts send the same prompt, so a retry never hits the cache
      record of an earlier attempt. */
  lemma AttemptsDiffer(prompt: string, title: string, n: nat)
    ensures forall j, k :: 0 <= j < k < n ==> Attempts(prompt, title, n)[j].0 != Attempts(prompt, title, n)[k].0
  {
    forall j, k | 0 <= j < k < n
      ensures Attempts(prompt, title, n)[j].0 != Attempts(prompt, title, n)[k].0
    {
      assert |Attempts(prompt, title, n)[j].0| == |prompt| + j;
    }
  }

  /** The request of attempt `k`: the prompt with `k` trailing blanks, asked for
      JSON under the step's validator and log title. */
  function AttemptRequest(prompt: string, step: Step, src: seq<string>, k: nat): (r: Gpt.Request)
    ensures (r.prompt, r.title) == Attempts(prompt, StepTitle(step), k + 1)[k]
  {
    Gpt.Request(prompt + Spaces(k), Some("json"), Some(StepValidator(step, src)), StepTitle(step))
  }

  /** A reply that has a length, and not the expected one. */
  predicate WrongLength(reply: Gpt.Outcome<Json>, n: nat) {
    reply.Ok? && PyLen(reply.value).Some? && PyLen(reply.value).value != n
  }

  /** What one `ask_gpt` call guarantees, given the logs `before` it and `after`
      it: with a key, a cache hit answers the cached value and writes nothing; a
      fresh answer has passed the validator; the logs gain at most one record. */
  ghost predicate AttemptAnswered(apiKey: string, req: Gpt.Request, before: Gpt.Logs, after: Gpt.Logs,
                                  reply: Gpt.Outcome<Json>) {
    (apiKey != [] && Gpt.CacheHit(before, req) ==>
       reply == Gpt.Ok(Gpt.Cached(before, req.title, req.prompt, req.respType).value) && after == before)
    && (reply.Ok? && !Gpt.CacheHit(before, req) ==>
          req.valid.Some? && Gpt.Passed(req.valid.value(reply.value)))
    && (after == before || exists t, rec :: after == Gpt.Append(before, t, rec))
  }

  /** How the last reply `last` of `attempts` attempts settles the retry loop:
      its value when it has length `n`, its error when it raised, a shape
      failure when it has no length, and exhaustion only after three wrong
      lengths. */
  predicate Settles(r: Result<Json>, last: Gpt.Outcome<Json>, n: nat, attempts: nat) {
    match r
    case Done(v) => last == Gpt.Ok(v) && PyLen(v) == Some(n)
    case Failed(AskFailed(e)) => last == Gpt.Raise(e)
    case Failed(BadShape) => last.Ok? && PyLen(last.value).None?
    case Failed(RetriesExhausted) => attempts == 3 && WrongLength(last, n)
  }

  /** The outcome of the retry loop against its replies: every attempt but the
      last had a length other than `n`, and the last one settles the loop. */
  predicate Retried(r: Result<Json>, replies: seq<Gpt.Outcome<Json>>, n: nat) {
    1 <= |replies| <= 3
    && (forall j :: 0 <= j < |replies| - 1 ==> WrongLength(replies[j], n))
    && Settles(r, replies[|replies| - 1], n, |replies|)
  }

  /** A successful retry returns a value of the expected length that is the
      first reply of that length. */
  lemma RetriedDone(r: Result<Json>, replies: seq<Gpt.Outcome<Json>>, n: nat)
    requires Retried(r, replies, n) && r.Done?
    ensures PyLen(r.value) == Some(n)
    ensures exists k :: (0 <= k < |replies| && replies[k] == Gpt.Ok(r.value)
      && forall j :: 0 <= j < k ==> !(replies[j].Ok? && PyLen(replies[j].value) == Some(n)))
  {
    var k := |replies| - 1;
    assert replies[k] == Gpt.Ok(r.value);
    forall j | 0 <= j < k
      ensures !(replies[j].Ok? && PyLen(replies[j].value) == Some(n))
    {
      assert WrongLength(replies[j], n);
    }
  }

  /** Every attempt of a run was answered as `ask_gpt` promises, `seen[k]` being
      the logs before attempt `k`. */
  ghost predicate AttemptsAnswered(apiKey: string, prompt: string, step: Step, src: seq<string>,
                                   replies: seq<Gpt.Outcome<Json>>, seen: seq<Gpt.Logs>)
    decreases |replies|
  {
    |seen| == |replies| + 1
    && (replies != [] ==>
          var n := |replies| - 1;
          AttemptsAnswered(apiKey, prompt, step, src, replies[..n], seen[..n + 1])
          && AttemptAnswered(apiKey, AttemptRequest(prompt, step, src, n), seen[n], seen[n + 1], replies[n]))
  }

  lemma AttemptsAnsweredSnoc(apiKey: string, prompt: string, step: Step, src: seq<string>,
                             replies: seq<Gpt.Outcome<Json>>, seen: seq<Gpt.Logs>,
                             reply: Gpt.Outcome<Json>, after: Gpt.Logs)
    requires AttemptsAnswered(apiKey, prompt, step, src, replies, seen)
    requires AttemptAnswered(apiKey, AttemptRequest(prompt, step, src, |replies|), seen[|replies|], after, reply)
    ensures AttemptsAnswered(apiKey, prompt, step, src, replies + [reply], seen + [after])
  {
    assert (replies + [reply])[..|replies|] == replies;
    assert (seen + [after])[..|replies| + 1] == seen;
  }

  /** One call of the retry loop: its result, the reply of each attempt and the
      logs before each attempt and after the last. */
  datatype RetryRun = RetryRun(result: Result<Json>, replies: seq<Gpt.Outcome<Json>>, seen: seq<Gpt.Logs>)

  /** `run` is a call of the retry loop for `prompt` that found the logs `before`. */
  ghost predicate RunOf(apiKey: string, prompt: string, step: Step, src: seq<string>, run: RetryRun, before: Gpt.Logs) {
    Retried(run.result, run.replies, |src|)
    && AttemptsAnswered(apiKey, prompt, step, src, run.replies, run.seen)
    && run.seen[0] == before
  }

  /** Attempt `k` of the retry loop: one `ask_gpt` call with its request. */
  method Attempt(svc: Gpt.Service, prompt: string, step: Step, src: seq<string>, k: nat)
    returns (reply: Gpt.Outcome<Json>)
    requires svc.Valid()
    modifies svc
    ensures svc.Valid()
    ensures svc.asked == old(svc.asked) + [(prompt + Spaces(k), StepTitle(step))]
    ensures AttemptAnswered(svc.apiKey, AttemptRequest(prompt, step, src, k), old(svc.logs), svc.logs, reply)
  {
    var req := Gpt.Request(prompt + Spaces(k), Some("json"), Some(StepValidator(step, src)), StepTitle(step));
    ghost var before, calls := svc.logs, svc.calls;
    reply := svc.Ask(req);
    if svc.apiKey != [] && !Gpt.CacheHit(before, req) {
      var content := svc.llm(req.prompt, Gpt.AsJson(req) && svc.supportsJson, calls);
      if content.Some? {
        var x := Gpt.Exchange(req, content.value, svc.model, svc.parse);
        assert svc.logs == Gpt.Append(before, x.1.0, x.1.1);
      }
    }
  }

  lemma Finish(apiKey: string, prompt: string, step: Step, src: seq<string>, r: Result<Json>,
                replies: seq<Gpt.Outcome<Json>>, seen: seq<Gpt.Logs>, before: Gpt.Logs)
    requires 1 <= |replies| <= 3 && forall j :: 0 <= j < |replies| - 1 ==> WrongLength(replies[j], |src|)
    requires Settles(r, replies[|replies| - 1], |src|, |replies|)
    requires AttemptsAnswered(apiKey, prompt, step, src, replies, seen) && seen[0] == before
    ensures RunOf(apiKey, prompt, step, src, RetryRun(r, replies, seen), before)
  {
  }

  /** What the loop makes of the reply to attempt `attempt` (0-based) out of
      three: the settled result, or `None` to try again. */
  function Classify(reply: Gpt.Outcome<Json>, n: nat, attempt: nat): (r: Option<Result<Json>>)
    requires attempt < 3
    ensures r.Some? ==> Settles(r.value, reply, n, attempt + 1)
    ensures r.None? <==> attempt < 2 && WrongLength(reply, n)
  {
    match reply
    case Raise(e) => Some(Failed(AskFailed(e)))
    case Ok(v) =>
      match PyLen(v)
      case None => Some(Failed(BadShape))
      case Some(len) =>
        if len == n then Some(Done(v))
        else if attempt == 2 then Some(Failed(RetriesExhausted))
        else None
  }

  /** The loop after `replies` wrong lengths, answered `reply` with the logs
      `after`: either the run is settled by `Classify`, or it goes on with one
      more wrong length. */
  lemma {:induction false} StepRun(apiKey: string, prompt: string, step: Step, src: seq<string>,
                                   replies: seq<Gpt.Outcome<Json>>, seen: seq<Gpt.Logs>, before: Gpt.Logs,
                                   reply: Gpt.Outcome<Json>, after: Gpt.Logs)
    requires |replies| < 3 && forall j :: 0 <= j < |replies| ==> WrongLength(replies[j], |src|)
    requires AttemptsAnswered(apiKey, prompt, step, src, replies, seen) && seen[0] == before
    requires AttemptAnswered(apiKey, AttemptRequest(prompt, step, src, |replies|), seen[|replies|], after, reply)
    ensures var c := Classify(reply, |src|, |replies|);
      c.Some? ==> RunOf(apiKey, prompt, step, src, RetryRun(c.value, replies + [reply], seen + [after]), before)
    ensures AttemptsAnswered(apiKey, prompt, step, src, replies + [reply], seen + [after])
    ensures Classify(reply, |src|, |replies|).None? ==>
      forall j :: 0 <= j < |replies| + 1 ==> WrongLength((replies + [reply])[j], |src|)
  {
    AttemptsAnsweredSnoc(apiKey, prompt, step, src, replies, seen, reply, after);
    var rs := replies + [reply];
    assert forall j :: 0 <= j < |rs| - 1 ==> rs[j] == replies[j];
    var c := Classify(reply, |src|, |replies|);
    if c.Some? {
      Finish(apiKey, prompt, step, src, c.value, rs, seen + [after], before);
    }
  }

  /** `retry_translation` with `length` the number of source lines. `replies[k]`
      is what attempt `k` returned and `seen[k]` the logs before it. */
  method RetryTranslation(svc: Gpt.Service, prompt: string, src: seq<string>, step: Step)
    returns (r: Result<Json>, ghost replies: seq<Gpt.Outcome<Json>>, ghost seen: seq<Gpt.Logs>)
    requires svc.Valid()
    modifies svc
    ensures svc.Valid() && |seen| == |replies| + 1
    ensures svc.asked == old(svc.asked) + Attempts(prompt, StepTitle(step), |replies|)
    ensures RunOf(svc.apiKey, prompt, step, src, RetryRun(r, replies, seen), old(svc.logs))
    ensures seen[|replies|] == svc.logs
  {
    var title := StepTitle(step);
    var retry := 0;
    var settled: Option<Result<Json>> := None;
    replies := [];
    seen := [svc.logs];
    while settled.None?
      invariant retry <= 3 && svc.Valid() && |replies| == retry && |seen| == retry + 1
      invariant svc.asked == old(svc.asked) + Attempts(prompt, title, retry)
      invariant seen[retry] == svc.logs
      invariant settled.None? ==> retry < 3 && seen[0] == old(svc.logs) && AttemptsAnswered(svc.apiKey, prompt, step, src, replies, seen)
      invariant settled.None? ==> forall j :: 0 <= j < retry ==> WrongLength(replies[j], |src|)
      invariant settled.Some? ==> RunOf(svc.apiKey, prompt, step, src, RetryRun(settled.value, replies, seen), old(svc.logs))
      decreases 3 - retry
    {
      ghost var asked := svc.asked;
      var result := Attempt(svc, prompt, step, src, retry);
      calc {
        svc.asked;
        asked + [(prompt + Spaces(retry), title)];
        { AttemptsSnoc(prompt, title, retry); }
        old(svc.asked) + Attempts(prompt, title, retry + 1);
      }
      StepRun(svc.apiKey, prompt, step, src, replies, seen, old(svc.logs), result, svc.logs);
      settled := Classify(result, |src|, retry);
      replies, seen := replies + [result], seen + [svc.logs];
      retry := retry + 1;
    }
    r := settled.value;
  }

  // ---------------------------------------------------------------- origin and output

  /** `entry["direct"]` when the entry is a dict holding a string there; `None`
      where Python raises. */
  function DirectOf(v: Json): Option<string> {
    if !v.JObj? then None
    else match Get(v.members, "direct")
      case Some(JStr(d)) => Some(d)
      case _ => None
  }

  /** The origin of the entry with digit key `key`: source line `int(key)`, or "". */
  function OriginFor(key: string, src: seq<string>): string
    requires IsDigits(key)
  {
    var idx := DigitsValue(key) - 1;
    if 0 <= idx < |src| then src[idx] else []
  }

  lemma OriginForLine(key: string, src: seq<string>)
    requires IsDigits(key)
    ensures 1 <= DigitsValue(key) <= |src| ==> OriginFor(key, src) == src[DigitsValue(key) - 1]
    ensures !(1 <= DigitsValue(key) <= |src|) ==> OriginFor(key, src) == []
  {
  }

  /** The fields of an entry after injection, given its `direct` text `d`. */
  function InjectFields(fields: seq<Member>, key: string, d: string, src: seq<string>): seq<Member> {
    var withDirect := Put(fields, "direct", JStr(Replace(d, '\n', ' ')));
    if IsDigits(key) then Put(withDirect, "origin", JStr(OriginFor(key, src))) else withDirect
  }

  /** One entry after origin injection; `None` where Python raises. */
  function InjectOne(m: Member, src: seq<string>): Option<Member> {
    if DirectOf(m.value).None? then None
    else Some(Member(m.key, JObj(InjectFields(m.value.members, m.key, DirectOf(m.value).value, src))))
  }

  /** After injection `direct` is the old text with newlines turned into spaces. */
  lemma InjectFieldsDirect(fields: seq<Member>, key: string, d: string, src: seq<string>)
    ensures Get(InjectFields(fields, key, d, src), "direct") == Some(JStr(Replace(d, '\n', ' ')))
  {
    var v := JStr(Replace(d, '\n', ' '));
    var withDirect := Put(fields, "direct", v);
    GetPut(fields, "direct", v, "direct");
    if IsDigits(key) {
      GetPut(withDirect, "origin", JStr(OriginFor(key, src)), "direct");
    }
  }

  /** A digit key `k` gets source line `k` as its `origin`, or "" when the
      source has no such line. */
  lemma InjectFieldsOrigin(fields: seq<Member>, key: string, d: string, src: seq<string>)
    requires IsDigits(key)
    ensures 1 <= DigitsValue(key) <= |src| ==>
      Get(InjectFields(fields, key, d, src), "origin") == Some(JStr(src[DigitsValue(key) - 1]))
    ensures !(1 <= DigitsValue(key) <= |src|) ==>
      Get(InjectFields(fields, key, d, src), "origin") == Some(JStr([]))
  {
    var o := OriginFor(key, src);
    OriginForLine(key, src);
    var withDirect := Put(fields, "direct", JStr(Replace(d, '\n', ' ')));
    assert InjectFields(fields, key, d, src) == Put(withDirect, "origin", JStr(o));
    GetPut(withDirect, "origin", JStr(o), "origin");
  }

  /** Any other key keeps whatever `origin` it had. */
  lemma InjectFieldsOriginKept(fields: seq<Member>, key: string, d: string, src: seq<string>)
    requires !IsDigits(key)
    ensures Get(InjectFields(fields, key, d, src), "origin") == Get(fields, "origin")
  {
    GetPut(fields, "direct", JStr(Replace(d, '\n', ' ')), "origin");
  }

  /** The origin-injection loop over the faithful result, entry by entry. */
  method InjectOrigin(faith: seq<Member>, src: seq<string>) returns (r: Option<seq<Member>>)
    ensures r.Some? <==> forall k :: 0 <= k < |faith| ==> InjectOne(faith[k], src).Some?
    ensures r.Some? ==>
      |r.value| == |faith| && forall k :: 0 <= k < |faith| ==> r.value[k] == InjectOne(faith[k], src).value
  {
    var result := faith;
    for k := 0 to |faith|
      invariant |result| == |faith|
      invariant forall j :: 0 <= j < k ==> InjectOne(faith[j], src).Some? && result[j] == InjectOne(faith[j], src).value
      invariant forall j :: k <= j < |faith| ==> result[j] == faith[j]
    {
      var next := InjectOne(result[k], src);
      if next.None? {
        return None;
      }
      result := result[k := next.value];
    }
    return Some(result);
  }

  /** `d[field].replace('\n', ' ').strip()` for each entry, in key order; `None`
      where an entry is not a dict with a string under `field`. */
  function FieldLines(ms: seq<Member>, field: string): (r: Option<seq<string>>)
    ensures r.Some? ==> |r.value| == |ms| && forall k :: 0 <= k < |ms| ==> '\n' !in r.value[k]
  {
    if ms == [] then Some([])
    else
      var rest := FieldLines(ms[1..], field);
      match ms[0].value
      case JObj(fields) =>
        (match Get(fields, field)
         case Some(JStr(t)) =>
           if rest.None? then None
           else
             var line := Strip(Replace(t, '\n', ' '));
             StripKeepsOutChar(Replace(t, '\n', ' '), '\n');
             Some([line] + rest.value)
         case _ => None)
      case _ => None
  }

  /** The joined output has one line per entry, and they are the entries' texts. */
  lemma FieldLinesJoin(ms: seq<Member>, field: string)
    requires FieldLines(ms, field).Some? && ms != []
    ensures Split(Join(FieldLines(ms, field).value, '\n'), '\n') == FieldLines(ms, field).value
    ensures |Split(Join(FieldLines(ms, field).value, '\n'), '\n')| == |ms|
  {
    SplitJoin(FieldLines(ms, field).value, '\n');
  }

  /** Injection leaves a `direct` text the output line of which is the same as
      that of the faithful response before injection. */
  lemma {:induction false} InjectedDirectLines(faith: seq<Member>, injected: seq<Member>, src: seq<string>)
    requires |injected| == |faith|
    requires forall k :: 0 <= k < |faith| ==> InjectOne(faith[k], src).Some? && injected[k] == InjectOne(faith[k], src).value
    ensures FieldLines(faith, "direct").Some? && FieldLines(injected, "direct").Some?
    ensures FieldLines(injected, "direct") == FieldLines(faith, "direct")
  {
    if faith != [] {
      InjectedDirectLines(faith[1..], injected[1..], src);
      var d := DirectOf(faith[0].value).value;
      InjectFieldsDirect(faith[0].value.members, faith[0].key, d, src);
      ReplaceTwice(d, '\n', ' ');
    }
  }

  lemma ReplaceTwice(s: string, from: char, to: char)
    requires from != to
    ensures Replace(Replace(s, from, to), from, to) == Replace(s, from, to)
  {
  }

  /** `injected` is `faith` with every entry's origin injected. */
  predicate Injects(faith: seq<Member>, src: seq<string>, injected: seq<Member>) {
    |injected| == |faith| && forall k :: 0 <= k < |faith| ==> InjectOne(faith[k], src) == Some(injected[k])
  }

  /** `translate_lines`: returns the translation and the block itself.
      `faithPrompt` and `expressPrompt` stand for the prompt builders, which are
      not part of this model; `reflect` is the `reflect_translate` setting.
      `faithRun` is the faithful retry loop, `faith` its accepted entries and
      `injected` those entries with their origins; `expressRun` is the
      expressive retry loop, when there is one, and `express` its entries. */
  method TranslateBlock(svc: Gpt.Service, lines: string, faithPrompt: string,
                        expressPrompt: Json -> string, reflect: bool)
    returns (r: Result<(string, string)>, ghost faithRun: RetryRun, ghost faith: seq<Member>,
             ghost injected: seq<Member>, ghost expressRun: Option<RetryRun>, ghost express: seq<Member>)
    requires svc.Valid()
    modifies svc
    ensures svc.Valid()
    ensures RunOf(svc.apiKey, faithPrompt, Faithfulness, StrippedLines(lines), faithRun, old(svc.logs))
    ensures expressRun.None? ==>
      svc.logs == faithRun.seen[|faithRun.replies|]
      && svc.asked == old(svc.asked) + Attempts(faithPrompt, StepTitle(Faithfulness), |faithRun.replies|)
    ensures expressRun.Some? ==>
      reflect && faithRun.result == Done(JObj(faith)) && Injects(faith, StrippedLines(lines), injected)
      && RunOf(svc.apiKey, expressPrompt(JObj(injected)), Expressiveness, StrippedLines(lines), expressRun.value,
               faithRun.seen[|faithRun.replies|])
      && svc.logs == expressRun.value.seen[|expressRun.value.replies|]
      && svc.asked == old(svc.asked) + Attempts(faithPrompt, StepTitle(Faithfulness), |faithRun.replies|)
                      + Attempts(expressPrompt(JObj(injected)), StepTitle(Expressiveness), |expressRun.value.replies|)
    ensures faithRun.result.Failed? ==> r == Failed(faithRun.result.failure) && expressRun.None?
    ensures expressRun.Some? && expressRun.value.result.Failed? ==> r == Failed(expressRun.value.result.failure)
    ensures r.Done? ==>
      r.value.1 == lines && |Split(r.value.0, '\n')| == |StrippedLines(lines)|
      && faithRun.result == Done(JObj(faith)) && Injects(faith, StrippedLines(lines), injected)
    ensures r.Done? && !reflect ==>
      expressRun.None? && FieldLines(injected, "direct").Some?
      && r.value.0 == Join(FieldLines(injected, "direct").value, '\n')
    ensures r.Done? && reflect ==>
      expressRun.Some? && expressRun.value.result == Done(JObj(express)) && FieldLines(express, "free").Some?
      && r.value.0 == Join(FieldLines(express, "free").value, '\n')
  {
    var sourceLines := StrippedLines(lines);
    var faithResult, faithLoop, faithMembers := FaithBlock(svc, faithPrompt, sourceLines);
    faithRun, faith, injected, expressRun, express := faithLoop, faithMembers, [], None, [];
    if faithResult.Failed? {
      return Failed(faithResult.failure), faithRun, faith, injected, expressRun, express;
    }
    var withOrigin := faithResult.value;
    injected := withOrigin;
    if !reflect {
      var out := FieldLines(withOrigin, "direct").value;
      return Done((Join(out, '\n'), lines)), faithRun, faith, injected, expressRun, express;
    }
    var expressResult, expressLoop, expressMembers :=
      ExpressBlock(svc, expressPrompt(JObj(withOrigin)), sourceLines, withOrigin);
    expressRun, express := Some(expressLoop), expressMembers;
    r := if expressResult.Done? then Done((expressResult.value, lines)) else Failed(expressResult.failure);
  }

  /** The faithful half of `translate_lines`: the retry loop on `prompt` and
      the origin injected into every entry of its result. */
  method FaithBlock(svc: Gpt.Service, prompt: string, src: seq<string>)
    returns (r: Result<seq<Member>>, ghost run: RetryRun, ghost faith: seq<Member>)
    requires svc.Valid()
    modifies svc
    ensures svc.Valid()
    ensures RunOf(svc.apiKey, prompt, Faithfulness, src, run, old(svc.logs))
    ensures svc.logs == run.seen[|run.replies|]
    ensures svc.asked == old(svc.asked) + Attempts(prompt, StepTitle(Faithfulness), |run.replies|)
    ensures run.result.Failed? ==> r == Failed(run.result.failure)
    ensures r.Done? ==>
      run.result == Done(JObj(faith)) && Injects(faith, src, r.value) && FieldLines(r.value, "direct").Some?
    ensures r.Done? && src != [] ==> |Split(Join(FieldLines(r.value, "direct").value, '\n'), '\n')| == |src|
  {
    var result, replies, seen := RetryTranslation(svc, prompt, src, Faithfulness);
    run, faith := RetryRun(result, replies, seen), [];
    if result.Failed? {
      return Failed(result.failure), run, faith;
    }
    if !result.value.JObj? {
      return Failed(BadShape), run, faith;
    }
    var members := result.value.members;
    faith := members;
    var injection := InjectOrigin(members, src);
    if injection.None? {
      return Failed(BadShape), run, faith;
    }
    InjectedDirectLines(members, injection.value, src);
    RetriedDone(result, replies, |src|);
    if members != [] {
      FieldLinesJoin(injection.value, "direct");
    }
    return Done(injection.value), run, faith;
  }

  /** The expressive half of `translate_lines`: the retry loop on `prompt`,
      the results table, which reads the faithful entry of every key, and the
      joined `free` texts. `origin` is the faithful result with its origins. */
  method ExpressBlock(svc: Gpt.Service, prompt: string, src: seq<string>, origin: seq<Member>)
    returns (r: Result<string>, ghost run: RetryRun, ghost express: seq<Member>)
    requires svc.Valid()
    modifies svc
    ensures svc.Valid()
    ensures RunOf(svc.apiKey, prompt, Expressiveness, src, run, old(svc.logs))
    ensures svc.logs == run.seen[|run.replies|]
    ensures svc.asked == old(svc.asked) + Attempts(prompt, StepTitle(Expressiveness), |run.replies|)
    ensures run.result.Failed? ==> r == Failed(run.result.failure)
    ensures r.Done? ==>
      run.result == Done(JObj(express)) && FieldLines(express, "free").Some?
      && r.value == Join(FieldLines(express, "free").value, '\n')
    ensures r.Done? && src != [] ==> |Split(r.value, '\n')| == |src|
  {
    var result, replies, seen := RetryTranslation(svc, prompt, src, Expressiveness);
    run, express := RetryRun(result, replies, seen), [];
    if result.Failed? {
      return Failed(result.failure), run, express;
    }
    if !result.value.JObj? {
      return Failed(BadShape), run, express;
    }
    var members := result.value.members;
    express := members;
    for k := 0 to |members|
    {
      if members[k].key !in Keys(origin) || !members[k].value.JObj?
         || Get(members[k].value.members, "free").None? {
        return Failed(BadShape), run, express;
      }
    }
    var out := FieldLines(members, "free");
    if out.None? {
      return Failed(BadShape), run, express;
    }
    RetriedDone(result, replies, |src|);
    if members != [] {
      FieldLinesJoin(members, "free");
    }
    return Done(Join(out.value, '\n')), run, express;
  }
}
