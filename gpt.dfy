/** The gateway to the language model: one request log per title (an
    append-only list of records, searched newest first as a cache), the
    lazily created client with its normalised base URL, and the control flow
    of a single request — key check, cache hit, call, parse, validate, log. */
module Gpt {
  import opened Wrappers
  import opened Strings
  import opened Json

  // ---------------------------------------------------------------- base URL

  function TrimLeft(s: string, c: char): (r: string)
    ensures r == [] || r[0] != c
    ensures |r| <= |s|
  {
    if s != [] && s[0] == c then TrimLeft(s[1..], c) else s
  }

  function TrimRight(s: string, c: char): (r: string)
    ensures r == [] || r[|r| - 1] != c
    ensures |r| <= |s|
  {
    if s != [] && s[|s| - 1] == c then TrimRight(s[..|s| - 1], c) else s
  }

  /** `s.strip(c)` for a single character. */
  function Trim(s: string, c: char): (r: string)
    ensures r == [] || (r[0] != c && r[|r| - 1] != c)
  {
    var l := TrimLeft(s, c);
    TrimRightKeepsHead(l, c);
    TrimRight(l, c)
  }

  lemma {:induction false} TrimRightKeepsHead(s: string, c: char)
    requires s == [] || s[0] != c
    ensures TrimRight(s, c) == [] || TrimRight(s, c)[0] != c
  {
    if s != [] && s[|s| - 1] == c {
      TrimRightKeepsHead(s[..|s| - 1], c);
    }
  }

  const VolcesHost: string := "ark.cn-beijing.volces.com"

  /** The base URL `get_client` hands to the client: a Volcengine Ark URL is
      kept, a URL naming neither `v1` nor `volces` gets `/v1` appended after
      its slashes are trimmed, any other URL is kept. */
  function NormalizeBaseUrl(url: string): (r: string)
    ensures Contains(r, "v1") || Contains(r, "volces")
  {
    if Contains(url, VolcesHost) then
      HostNamesVolces(url);
      url
    else if !Contains(url, "v1") && !Contains(url, "volces") then
      EndsInV1(Trim(url, '/'));
      Trim(url, '/') + "/v1"
    else url
  }

  lemma HostNamesVolces(url: string)
    requires Contains(url, VolcesHost)
    ensures Contains(url, "volces")
  {
    var j := IndexOf(url, VolcesHost);
    assert OccursAt(url, VolcesHost, j);
    SliceOfSlice(url, j, j + |VolcesHost|, 15, 21);
    assert VolcesHost == "ark.cn-beijing." + "volces" + ".com";
    assert VolcesHost[15..21] == "volces";
    assert OccursAt(url, "volces", j + 15);
  }

  lemma EndsInV1(s: string)
    ensures Contains(s + "/v1", "v1")
  {
    assert (s + "/v1")[|s| + 1..|s| + 3] == "v1";
    assert OccursAt(s + "/v1", "v1", |s| + 1);
  }

  /** A URL that already names `v1` or `volces` is left alone. */
  lemma NormalizeBaseUrlKeeps(url: string)
    requires Contains(url, "v1") || Contains(url, "volces")
    ensures NormalizeBaseUrl(url) == url
  {
  }

  /** Otherwise it is the trimmed URL with `/v1` appended. */
  lemma NormalizeBaseUrlAppends(url: string)
    requires !Contains(url, "v1") && !Contains(url, "volces")
    ensures NormalizeBaseUrl(url) == Trim(url, '/') + "/v1"
    ensures !Contains(url, VolcesHost)
  {
    if Contains(url, VolcesHost) {
      HostNamesVolces(url);
    }
  }

  /** Normalising twice is normalising once. */
  lemma NormalizeBaseUrlIdempotent(url: string)
    ensures NormalizeBaseUrl(NormalizeBaseUrl(url)) == NormalizeBaseUrl(url)
  {
    NormalizeBaseUrlKeeps(NormalizeBaseUrl(url));
  }

  // ---------------------------------------------------------------- log

  /** One entry of a log file; `resp` is `None` (here `JNull`) after a parse
      error, and `message` is set only on the error log. */
  datatype Record = Record(
    model: string, prompt: string, respContent: string,
    respType: Option<string>, resp: Json, message: Option<string>)

  /** A log file that does not parse is `Corrupt`; a missing one is absent from the map. */
  datatype LogFile = Records(entries: seq<Record>) | Corrupt

  type Logs = map<string, LogFile>

  const ErrorTitle: string := "error"

  predicate Matches(rec: Record, prompt: string, respType: Option<string>) {
    rec.prompt == prompt && rec.respType == respType
  }

  /** The newest record with this prompt and response type, searched from the end. */
  function Lookup(entries: seq<Record>, prompt: string, respType: Option<string>): Option<Json> {
    if entries == [] then None
    else
      var last := entries[|entries| - 1];
      if Matches(last, prompt, respType) then Some(last.resp)
      else Lookup(entries[..|entries| - 1], prompt, respType)
  }

  /** The lookup finds nothing exactly when no record matches, and otherwise the
      response of the last matching record. */
  lemma {:induction false} LookupSpec(entries: seq<Record>, prompt: string, respType: Option<string>)
    ensures var r := Lookup(entries, prompt, respType);
      (r.None? <==> forall k :: 0 <= k < |entries| ==> !Matches(entries[k], prompt, respType))
      && (r.Some? ==>
            exists k :: (0 <= k < |entries| && Matches(entries[k], prompt, respType)
              && entries[k].resp == r.value
              && forall j :: k < j < |entries| ==> !Matches(entries[j], prompt, respType)))
  {
    LookupNone(entries, prompt, respType);
    if Lookup(entries, prompt, respType).Some? {
      LookupSome(entries, prompt, respType);
    }
  }

  lemma {:induction false} LookupNone(entries: seq<Record>, prompt: string, respType: Option<string>)
    ensures Lookup(entries, prompt, respType).None? <==>
      forall k :: 0 <= k < |entries| ==> !Matches(entries[k], prompt, respType)
  {
    if entries != [] {
      var n := |entries| - 1;
      LookupNone(entries[..n], prompt, respType);
      assert forall k :: 0 <= k < n ==> entries[..n][k] == entries[k];
    }
  }

  lemma {:induction false} LookupSome(entries: seq<Record>, prompt: string, respType: Option<string>)
    requires Lookup(entries, prompt, respType).Some?
    ensures exists k :: (0 <= k < |entries| && Matches(entries[k], prompt, respType)
      && entries[k].resp == Lookup(entries, prompt, respType).value
      && forall j :: k < j < |entries| ==> !Matches(entries[j], prompt, respType))
  {
    var n := |entries| - 1;
    if Matches(entries[n], prompt, respType) {
      assert entries[n].resp == Lookup(entries, prompt, respType).value;
    } else {
      var front := entries[..n];
      LookupSome(front, prompt, respType);
      var k :| 0 <= k < n && Matches(front[k], prompt, respType)
        && front[k].resp == Lookup(front, prompt, respType).value
        && (forall j :: k < j < n ==> !Matches(front[j], prompt, respType));
      assert entries[k] == front[k];
      assert forall j :: k < j < n ==> entries[j] == front[j];
    }
  }

  /** What `_load_cache` finds: nothing for a missing or corrupt file. */
  function Cached(logs: Logs, title: string, prompt: string, respType: Option<string>): (r: Option<Json>)
    ensures (title !in logs || logs[title].Corrupt?) ==> r.None?
  {
    if title in logs && logs[title].Records? then Lookup(logs[title].entries, prompt, respType) else None
  }

  /** The records `_save_cache` starts from: a missing or corrupt file counts as empty. */
  function Entries(logs: Logs, title: string): seq<Record> {
    if title in logs && logs[title].Records? then logs[title].entries else []
  }

  /** The logs after `_save_cache` appended `rec` to the file of `title`. */
  function Append(logs: Logs, title: string, rec: Record): (r: Logs)
    ensures title in r && r[title].Records?
    ensures forall t :: t in logs && t != title ==> t in r && r[t] == logs[t]
  {
    logs[title := Records(Entries(logs, title) + [rec])]
  }

  /** Appending keeps every earlier record and adds exactly one at the end. */
  lemma AppendKeeps(logs: Logs, title: string, rec: Record)
    ensures Entries(Append(logs, title, rec), title) == Entries(logs, title) + [rec]
    ensures title in logs && logs[title].Records? ==>
      Entries(Append(logs, title, rec), title)[..|logs[title].entries|] == logs[title].entries
    ensures forall t :: t != title ==> Entries(Append(logs, title, rec), t) == Entries(logs, t)
  {
  }

  /** The record just saved is what the cache returns for its prompt and type. */
  lemma AppendThenLookup(logs: Logs, title: string, rec: Record)
    ensures Cached(Append(logs, title, rec), title, rec.prompt, rec.respType) == Some(rec.resp)
  {
  }

  /** A record for another prompt, type or title does not change what the cache returns. */
  lemma AppendOtherLookup(logs: Logs, title: string, rec: Record, t: string, prompt: string, respType: Option<string>)
    requires t != title || rec.prompt != prompt || rec.respType != respType
    requires t in logs && logs[t].Records?
    ensures Cached(Append(logs, title, rec), t, prompt, respType) == Cached(logs, t, prompt, respType)
  {
    if t == title {
      var es := logs[t].entries;
      assert (es + [rec])[..|es|] == es;
    }
  }

  // ---------------------------------------------------------------- one exchange

  /** A validator's answer: `{"status": ..., "message": ...}`, or an exception
      other than `ValueError` raised inside it. */
  datatype Verdict = Verdict(success: bool, message: string) | Crash(message: string)

  type Validator = Json -> Verdict

  /** A verdict whose status is "success". */
  predicate Passed(v: Verdict) {
    v.Verdict? && v.success
  }

  datatype Request = Request(prompt: string, respType: Option<string>, valid: Option<Validator>, title: string)

  datatype Error =
    | MissingApiKey
    | RequestFailed
    | JsonParseError
    | ValidationFailed(message: string)
    | ValidationCrashed(message: string)

  datatype Outcome<T> = Ok(value: T) | Raise(error: Error)

  /** `json_repair.loads`, which is not part of this model; `None` when it raises. */
  type Parser = string -> Option<Json>

  /** The model behind the client: prompt, JSON mode and the number of earlier
      calls give the reply text, or `None` when the request fails. */
  type Llm = (string, bool, nat) -> Option<string>

  function AsJson(req: Request): bool {
    req.respType == Some("json")
  }

  /** Steps 3 to 5 of `ask_gpt` once the reply `content` is in: the outcome and
      the record written, with the title of the log it goes to. */
  function Exchange(req: Request, content: string, model: string, parse: Parser): (r: (Outcome<Json>, (string, Record)))
    ensures r.0.Ok? ==> r.1 == (req.title, Record(model, req.prompt, content, req.respType, r.0.value, None))
    ensures r.0.Ok? ==> (if AsJson(req) then parse(content) == Some(r.0.value) else r.0.value == JStr(content))
    ensures r.0.Ok? && req.valid.Some? ==> req.valid.value(r.0.value) == Verdict(true, req.valid.value(r.0.value).message)
    ensures r.0.Raise? ==> r.1.0 == ErrorTitle && r.1.1.message.Some?
    ensures r.0.Raise? ==> r.0.error.JsonParseError? || r.0.error.ValidationFailed? || r.0.error.ValidationCrashed?
    ensures AsJson(req) && parse(content).None? ==> r.0 == Raise(JsonParseError)
  {
    var parsed := if AsJson(req) then parse(content) else Some(JStr(content));
    match parsed
    case None =>
      (Raise(JsonParseError), (ErrorTitle, Record(model, req.prompt, content, req.respType, JNull, Some("JSON Parse Error"))))
    case Some(resp) =>
      var success := (Ok(resp), (req.title, Record(model, req.prompt, content, req.respType, resp, None)));
      match req.valid
      case None => success
      case Some(v) =>
        match v(resp)
        case Verdict(ok, m) =>
          if ok then success
          else (Raise(ValidationFailed(m)), (ErrorTitle, Record(model, req.prompt, content, req.respType, resp, Some(m))))
        case Crash(m) =>
          (Raise(ValidationCrashed(m)), (ErrorTitle, Record(model, req.prompt, content, req.respType, resp, Some(m))))
  }

  /** A hit is a cached value that Python reads as true; a cached `{}` or `""` is a miss. */
  predicate CacheHit(logs: Logs, req: Request) {
    var c := Cached(logs, req.title, req.prompt, req.respType);
    c.Some? && Truthy(c.value)
  }

  datatype Client = Client(apiKey: string, baseUrl: string)

  /** The process-wide state behind `ask_gpt`: configuration, the log files,
      the client singleton and the model it talks to. */
  class Service {
    const apiKey: string
    const baseUrl: string
    const model: string
    const supportsJson: bool
    const llm: Llm
    const parse: Parser
    var logs: Logs
    var client: Option<Client>
    var calls: nat
    /** Every request made through `Ask`, in order: prompt and log title. */
    ghost var asked: seq<(string, string)>

    /** The only client `get_client` ever builds. */
    function TheClient(): Client
      reads this
    {
      Client(apiKey, NormalizeBaseUrl(baseUrl))
    }

    ghost predicate Valid()
      reads this
    {
      client.Some? ==> client.value == TheClient()
    }

    constructor (apiKey: string, baseUrl: string, model: string, supportsJson: bool,
                 llm: Llm, parse: Parser, logs: Logs)
      ensures Valid()
      ensures this.apiKey == apiKey && this.baseUrl == baseUrl && this.model == model
      ensures this.supportsJson == supportsJson && this.llm == llm && this.parse == parse
      ensures this.logs == logs && client == None && calls == 0 && asked == []
    {
      this.apiKey := apiKey;
      this.baseUrl := baseUrl;
      this.model := model;
      this.supportsJson := supportsJson;
      this.llm := llm;
      this.parse := parse;
      this.logs := logs;
      client := None;
      calls := 0;
      asked := [];
    }

    /** `get_client`: builds the client on first use and returns the same one afterwards. */
    method GetClient() returns (c: Client)
      requires Valid()
      modifies this
      ensures Valid() && client == Some(c) && c == TheClient()
      ensures old(client).Some? ==> client == old(client)
      ensures logs == old(logs) && calls == old(calls) && asked == old(asked)
    {
      if client.None? {
        var url := baseUrl;
        if Contains(url, VolcesHost) {
        } else if !Contains(url, "v1") && !Contains(url, "volces") {
          url := Trim(url, '/') + "/v1";
        }
        client := Some(Client(apiKey, url));
      }
      c := client.value;
    }

    /** `_load_cache`: the newest matching record's response, scanning the log backwards. */
    method LoadCache(prompt: string, respType: Option<string>, title: string) returns (r: Option<Json>)
      ensures r == Cached(logs, title, prompt, respType)
    {
      if title !in logs || logs[title].Corrupt? {
        return None;
      }
      var data := logs[title].entries;
      var i := |data|;
      assert data[..i] == data;
      while i > 0
        invariant 0 <= i <= |data|
        invariant Lookup(data, prompt, respType) == Lookup(data[..i], prompt, respType)
      {
        var item := data[i - 1];
        if Matches(item, prompt, respType) {
          return Some(item.resp);
        }
        assert data[..i][..i - 1] == data[..i - 1];
        i := i - 1;
      }
      return None;
    }

    /** `_save_cache`: one record appended to the log of `title`. */
    method SaveCache(title: string, rec: Record)
      modifies this
      ensures logs == Append(old(logs), title, rec)
      ensures client == old(client) && calls == old(calls) && asked == old(asked)
    {
      var entries: seq<Record> := [];
      if title in logs && logs[title].Records? {
        entries := logs[title].entries;
      }
      entries := entries + [rec];
      logs := logs[title := Records(entries)];
    }

    /** `ask_gpt`. */
    method Ask(req: Request) returns (r: Outcome<Json>)
      requires Valid()
      modifies this
      ensures Valid() && asked == old(asked) + [(req.prompt, req.title)]
      ensures apiKey == [] ==>
        r == Raise(MissingApiKey) && logs == old(logs) && calls == old(calls) && client == old(client)
      ensures apiKey != [] && CacheHit(old(logs), req) ==>
        r == Ok(Cached(old(logs), req.title, req.prompt, req.respType).value)
        && logs == old(logs) && calls == old(calls) && client == old(client)
      ensures apiKey != [] && !CacheHit(old(logs), req) ==>
        client == Some(TheClient()) && calls == old(calls) + 1
        && match llm(req.prompt, AsJson(req) && supportsJson, old(calls))
           case None => r == Raise(RequestFailed) && logs == old(logs)
           case Some(content) =>
             var x := Exchange(req, content, model, parse);
             r == x.0 && logs == Append(old(logs), x.1.0, x.1.1)
    {
      asked := asked + [(req.prompt, req.title)];
      if apiKey == [] {
        return Raise(MissingApiKey);
      }
      var cached := LoadCache(req.prompt, req.respType, req.title);
      if cached.Some? && Truthy(cached.value) {
        return Ok(cached.value);
      }
      var c := GetClient();
      var useJsonMode := AsJson(req) && supportsJson;
      var reply := llm(req.prompt, useJsonMode, calls);
      calls := calls + 1;
      if reply.None? {
        return Raise(RequestFailed);
      }
      r := Respond(req, reply.value);
    }

    /** Steps 3 to 5 of `ask_gpt` on the reply `content`: parse when JSON is
        asked for, validate, and log to the request's title or to the error log. */
    method Respond(req: Request, content: string) returns (r: Outcome<Json>)
      modifies this
      ensures var x := Exchange(req, content, model, parse);
        r == x.0 && logs == Append(old(logs), x.1.0, x.1.1)
      ensures client == old(client) && calls == old(calls) && asked == old(asked)
    {
      var resp: Json;
      if AsJson(req) {
        var parsed := parse(content);
        if parsed.None? {
          SaveCache(ErrorTitle, Record(model, req.prompt, content, req.respType, JNull, Some("JSON Parse Error")));
          return Raise(JsonParseError);
        }
        resp := parsed.value;
      } else {
        resp := JStr(content);
      }
      if req.valid.Some? {
        var verdict := req.valid.value(resp);
        if verdict.Crash? {
          SaveCache(ErrorTitle, Record(model, req.prompt, content, req.respType, resp, Some(verdict.message)));
          return Raise(ValidationCrashed(verdict.message));
        } else if !verdict.success {
          SaveCache(ErrorTitle, Record(model, req.prompt, content, req.respType, resp, Some(verdict.message)));
          return Raise(ValidationFailed(verdict.message));
        }
      }
      SaveCache(req.title, Record(model, req.prompt, content, req.respType, resp, None));
      return Ok(resp);
    }
  }
}
