/** The decoded webhook body (`request.json`) and the Python operations the
    handler applies to it: subscripting `v[key]`, `v.get(key)`, `str(v)`.
    An object is the dict `json.loads` builds, so its keys are distinct and
    appear in document order. Numbers are integers. */
module Json {
  import opened Wrappers
  import Text

  datatype Json =
    | JNull
    | JBool(b: bool)
    | JNum(n: int)
    | JStr(s: string)
    | JArray(items: seq<Json>)
    | JObject(members: seq<Member>)

  datatype Member = Member(key: string, value: Json)

  /** The Python exception a lookup raises. */
  datatype Fault =
    | KeyError(key: string)  // `d[key]` on a dict without `key`
    | TypeError              // `v[key]` on a value that is not a dict
    | AttributeError         // `.get` on a non-dict, `.split` on a non-str

  /** `key` is bound in the object `v`. */
  predicate HasKey(v: Json, key: string) {
    v.JObject? && exists i :: 0 <= i < |v.members| && v.members[i].key == key
  }

  /** `x` is the value `v[key]` denotes: the first binding of `key`. */
  predicate Binds(v: Json, key: string, x: Json) {
    && v.JObject?
    && exists i :: 0 <= i < |v.members| && v.members[i] == Member(key, x)
                   && forall j :: 0 <= j < i ==> v.members[j].key != key
  }

  /** The value bound to `key` among `members`, if any. */
  function Find(members: seq<Member>, key: string): (r: Option<Json>)
    ensures r.None? <==> forall i :: 0 <= i < |members| ==> members[i].key != key
    ensures r.Some? ==> Binds(JObject(members), key, r.value)
  {
    if |members| == 0 then None
    else if members[0].key == key then Some(members[0].value)
    else
      var r := Find(members[1..], key);
      assert forall i :: 1 <= i < |members| ==> members[i] == members[1..][i - 1];
      if r.Some? then
        assert Binds(JObject(members), key, r.value) by {
          var k :| 0 <= k < |members[1..]| && members[1..][k] == Member(key, r.value)
                   && forall j :: 0 <= j < k ==> members[1..][j].key != key;
          assert members[k + 1] == Member(key, r.value);
          assert forall j :: 0 <= j < k + 1 ==> members[j].key != key by {
            forall j | 0 <= j < k + 1 ensures members[j].key != key {
              if j > 0 { assert members[j] == members[1..][j - 1]; }
            }
          }
        }
        r
      else r
  }

  /** Python's `v[key]`. */
  function Index(v: Json, key: string): (r: Result<Json, Fault>)
    ensures !v.JObject? ==> r == Failure(TypeError)
    ensures v.JObject? && !HasKey(v, key) ==> r == Failure(KeyError(key))
    ensures HasKey(v, key) ==> r.Success? && Binds(v, key, r.value)
  {
    if !v.JObject? then Failure(TypeError)
    else
      match Find(v.members, key)
      case Some(x) => Success(x)
      case None => Failure(KeyError(key))
  }

  /** Python's `v.get(key)`: `None` (JSON null) for a missing key. */
  function Get(v: Json, key: string): (r: Result<Json, Fault>)
    ensures !v.JObject? ==> r == Failure(AttributeError)
    ensures v.JObject? && !HasKey(v, key) ==> r == Success(JNull)
    ensures HasKey(v, key) ==> r.Success? && Binds(v, key, r.value)
  {
    if !v.JObject? then Failure(AttributeError)
    else
      match Find(v.members, key)
      case Some(x) => Success(x)
      case None => Success(JNull)
  }

  /** `v[path[0]][path[1]]...`: the first fault along the path, or the value
      at its end. */
  function At(v: Json, path: seq<string>): (r: Result<Json, Fault>)
    ensures |path| == 0 ==> r == Success(v)
    ensures |path| > 0 && !v.JObject? ==> r == Failure(TypeError)
    ensures |path| > 0 && v.JObject? && !HasKey(v, path[0]) ==> r == Failure(KeyError(path[0]))
    ensures r.Failure? && r.error.KeyError? ==> r.error.key in path
    ensures r.Failure? ==> !r.error.AttributeError?
    decreases |path|
  {
    if |path| == 0 then Success(v)
    else
      match Index(v, path[0])
      case Success(x) => At(x, path[1..])
      case Failure(f) => Failure(f)
  }

  /** A one-step path is a single subscript. */
  lemma AtOne(v: Json, a: string)
    ensures At(v, [a]) == Index(v, a)
  {
    assert [a][1..] == [];
  }

  /** A longer path subscripts once, then follows the rest. */
  lemma AtCons(v: Json, a: string, rest: seq<string>)
    ensures Index(v, a).Failure? ==> At(v, [a] + rest) == Index(v, a)
    ensures Index(v, a).Success? ==> At(v, [a] + rest) == At(Index(v, a).value, rest)
  {
    assert ([a] + rest)[1..] == rest;
  }

  /** A two-step path is two chained subscripts. */
  lemma AtTwo(v: Json, a: string, b: string)
    ensures Index(v, a).Failure? ==> At(v, [a, b]) == Index(v, a)
    ensures Index(v, a).Success? ==> At(v, [a, b]) == Index(Index(v, a).value, b)
  {
    AtCons(v, a, [b]);
    assert [a, b] == [a] + [b];
    if Index(v, a).Success? {
      AtOne(Index(v, a).value, b);
    }
  }

  /** Python's `str(v)` on a decoded JSON value. */
  function Str(v: Json): (r: string)
    ensures v.JNum? ==> Text.CanonicalInt(r) && Text.ParseInt(r) == Some(v.n)
    ensures v.JStr? ==> r == v.s
    ensures v.JNull? ==> r == "None"
    ensures v.JBool? ==> r == (if v.b then "True" else "False")
    ensures v.JArray? || v.JObject? ==> r == Repr(v)
    ensures v.JArray? ==> |r| >= 2 && r[0] == '[' && r[|r| - 1] == ']'
    ensures v.JObject? ==> |r| >= 2 && r[0] == '{' && r[|r| - 1] == '}'
  {
    match v
    case JStr(s) => s
    case _ => Repr(v)
  }

  /** Python's `repr(v)`, used for values nested in a list or dict. */
  function Repr(v: Json): (r: string)
    ensures |r| >= 1
    ensures v.JNull? ==> r == "None"
    ensures v.JBool? ==> r == (if v.b then "True" else "False")
    ensures v.JNum? ==> Text.CanonicalInt(r) && Text.ParseInt(r) == Some(v.n)
    ensures v.JStr? ==> |r| == |v.s| + 2 && r[0] == r[|r| - 1] == '\'' && r[1..|r| - 1] == v.s
    ensures v.JArray? ==> |r| >= 2 && r[0] == '[' && r[|r| - 1] == ']'
    ensures v.JObject? ==> |r| >= 2 && r[0] == '{' && r[|r| - 1] == '}'
  {
    match v
    case JNull => "None"
    case JBool(b) => if b then "True" else "False"
    case JNum(n) => Text.IntToDecimal(n)
    case JStr(s) => "'" + s + "'"
    case JArray(items) =>
      "[" + CommaJoin(seq(|items|, i requires 0 <= i < |items| => Repr(items[i]))) + "]"
    case JObject(members) =>
      "{" + CommaJoin(seq(|members|, i requires 0 <= i < |members| =>
                            "'" + members[i].key + "': " + Repr(members[i].value))) + "}"
  }

  function CommaJoin(parts: seq<string>): string {
    if |parts| == 0 then ""
    else if |parts| == 1 then parts[0]
    else parts[0] + ", " + CommaJoin(parts[1..])
  }
}
