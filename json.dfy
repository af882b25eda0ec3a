/** Parsed JSON values as the LLM responses arrive in Python: objects keep
    their key order (Python dicts are ordered), and the operators the
    validators apply to them (`in`, `len`, indexing, truthiness) follow
    Python's semantics, including the `TypeError` a scalar raises. */
module Json {
  import opened Wrappers
  import opened Strings

  datatype Json =
    | JNull
    | JBool(b: bool)
    | JNum(n: int)
    | JStr(s: string)
    | JArr(items: seq<Json>)
    | JObj(members: seq<Member>)

  datatype Member = Member(key: string, value: Json)

  /** Python truthiness: `None`, `False`, `0`, `""`, `[]` and `{}` are false. */
  predicate Truthy(v: Json) {
    match v
    case JNull => false
    case JBool(b) => b
    case JNum(n) => n != 0
    case JStr(s) => s != []
    case JArr(items) => items != []
    case JObj(members) => members != []
  }

  function Keys(ms: seq<Member>): (r: seq<string>)
    ensures |r| == |ms| && forall k :: 0 <= k < |ms| ==> r[k] == ms[k].key
  {
    if ms == [] then [] else [ms[0].key] + Keys(ms[1..])
  }

  predicate DistinctKeys(ms: seq<Member>) {
    forall i, j :: 0 <= i < j < |ms| ==> ms[i].key != ms[j].key
  }

  /** `d.get(key)`: the value of the first member named `key`. */
  function Get(ms: seq<Member>, key: string): (r: Option<Json>)
    ensures r.None? <==> key !in Keys(ms)
    ensures r.Some? ==> exists k :: 0 <= k < |ms| && ms[k] == Member(key, r.value)
  {
    if ms == [] then None
    else if ms[0].key == key then Some(ms[0].value)
    else Get(ms[1..], key)
  }

  /** `d[key] = v`: overwrites the member in place, or appends a new one at the end. */
  function Put(ms: seq<Member>, key: string, v: Json): (r: seq<Member>)
    ensures key in Keys(ms) ==> Keys(r) == Keys(ms)
    ensures key !in Keys(ms) ==> Keys(r) == Keys(ms) + [key]
  {
    if ms == [] then [Member(key, v)]
    else if ms[0].key == key then [Member(key, v)] + ms[1..]
    else [ms[0]] + Put(ms[1..], key, v)
  }

  /** After `d[key] = v`, `d[key]` is `v` and every other key reads as before. */
  lemma {:induction false} GetPut(ms: seq<Member>, key: string, v: Json, other: string)
    ensures Get(Put(ms, key, v), key) == Some(v)
    ensures other != key ==> Get(Put(ms, key, v), other) == Get(ms, other)
  {
    GetPutSame(ms, key, v);
    if other != key {
      GetPutOther(ms, key, v, other);
    }
  }

  lemma {:induction false} GetPutSame(ms: seq<Member>, key: string, v: Json)
    ensures Get(Put(ms, key, v), key) == Some(v)
  {
    if ms != [] && ms[0].key != key {
      GetPutSame(ms[1..], key, v);
      assert Put(ms, key, v)[1..] == Put(ms[1..], key, v);
    }
  }

  lemma {:induction false} GetPutOther(ms: seq<Member>, key: string, v: Json, other: string)
    requires other != key
    ensures Get(Put(ms, key, v), other) == Get(ms, other)
  {
    if ms != [] && ms[0].key != key {
      if ms[0].key != other {
        GetPutOther(ms[1..], key, v, other);
        assert Put(ms, key, v)[1..] == Put(ms[1..], key, v);
      }
    } else if ms != [] {
      assert Put(ms, key, v)[1..] == ms[1..];
    }
  }

  /** Python's `key in container`: membership of a key in a dict, of an
      element in a list, of a substring in a string; `None` stands for the
      `TypeError` raised by any other operand. */
  function PyContains(container: Json, key: string): (r: Option<bool>)
    ensures r.Some? <==> container.JObj? || container.JArr? || container.JStr?
  {
    match container
    case JObj(ms) => Some(key in Keys(ms))
    case JArr(items) => Some(JStr(key) in items)
    case JStr(s) => Some(Contains(s, key))
    case _ => None
  }

  /** `all(key in container for key in keys)`, evaluated left to right and
      stopping at the first miss; an empty `keys` never touches `container`. */
  function ContainsAll(container: Json, keys: seq<string>): (r: Option<bool>)
    ensures r == Some(true) <==> forall k :: 0 <= k < |keys| ==> PyContains(container, keys[k]) == Some(true)
    ensures r.None? ==> keys != [] && PyContains(container, keys[0]).None?
  {
    if keys == [] then Some(true)
    else match PyContains(container, keys[0])
      case None => None
      case Some(false) => Some(false)
      case Some(true) => ContainsAll(container, keys[1..])
  }

  /** Python's `len(v)`; `None` stands for the `TypeError` of a scalar. */
  function PyLen(v: Json): Option<nat> {
    match v
    case JObj(ms) => Some(|ms|)
    case JArr(items) => Some(|items|)
    case JStr(s) => Some(|s|)
    case _ => None
  }
}
