/**
  JSON values as the plugin contract compares them, and the outcome matching of
  api/plugins/contract.py. A missing value (SQL NULL, Python None, JSON null) is JNull.
*/
module Json {
  datatype Json =
    | JNull
    | JBool(b: bool)
    | JNum(n: real)
    | JStr(s: string)
    | JArr(items: seq<Json>)
    | JObj(fields: map<string, Json>)

  /** Python compares True with 1 and False with 0 as equal, at any depth. */
  function Canonical(j: Json): Json {
    match j
    case JBool(b) => JNum(if b then 1.0 else 0.0)
    case JArr(items) => JArr(seq(|items|, i requires 0 <= i < |items| => Canonical(items[i])))
    case JObj(fields) => JObj(map k | k in fields :: Canonical(fields[k]))
    case _ => j
  }

  predicate Same(a: Json, b: Json) {
    Canonical(a) == Canonical(b)
  }

  predicate Truthy(j: Json) {
    match j
    case JNull => false
    case JBool(b) => b
    case JNum(n) => n != 0.0
    case JStr(s) => s != ""
    case JArr(items) => items != []
    case JObj(fields) => fields != map[]
  }

  /** `value.get(key)` on a value known to be an object, None when absent. */
  function Get(fields: map<string, Json>, key: string): Json {
    if key in fields then fields[key] else JNull
  }
}

module Contract {
  import opened Wrappers
  import opened Text
  import opened Json

  const SUCCESS_WORDS := {"succeeded", "success", "completed", "true", "ok", "passed"}

  function FirstText(fields: map<string, Json>, keys: seq<string>): Option<string> {
    if keys == [] then None
    else
      var v := Get(fields, keys[0]);
      if v.JStr? && Strip(v.s) != "" then Some(Normalize(v.s)) else FirstText(fields, keys[1..])
  }

  function FirstBool(fields: map<string, Json>, keys: seq<string>): bool {
    if keys == [] then false
    else
      var v := Get(fields, keys[0]);
      if v.JBool? then v.b else FirstBool(fields, keys[1..])
  }

  function ExtractStatus(actual: Json, status: Option<string>): Option<string> {
    if status.Some? && status.value != "" then Some(Normalize(status.value))
    else if actual.JObj? then FirstText(actual.fields, ["status", "state", "outcome", "result"])
    else if actual.JStr? && Strip(actual.s) != "" then Some(Normalize(actual.s))
    else None
  }

  predicate ActualSuccess(actual: Json, status: Option<string>) {
    var word := ExtractStatus(actual, status);
    if word.Some? then word.value in SUCCESS_WORDS
    else if actual.JBool? then actual.b
    else if actual.JObj? then FirstBool(actual.fields, ["success", "ok", "passed"])
    else false
  }

  /** `_dict_contains`: `expected` is an object; only the top level may fall back on the status. */
  predicate DictContains(actual: Json, expected: Json, status: Option<string>)
    requires expected.JObj?
    decreases expected
  {
    actual.JObj? &&
    forall k :: k in expected.fields ==>
      (k in actual.fields || (k == "status" && status.Some?)) &&
      var value := if k in actual.fields then actual.fields[k] else JStr(status.value);
      if expected.fields[k].JObj? then DictContains(value, expected.fields[k], None)
      else Same(value, expected.fields[k])
  }

  predicate ExpectedOutcomeMatches(expected: Json, actual: Json, status: Option<string>) {
    match expected
    case JNull => status.Some? && Normalize(status.value) == "succeeded"
    case JBool(b) => ActualSuccess(actual, status) == b
    case JStr(s) => ExtractStatus(actual, status) == Some(Normalize(s))
    case JObj(_) => DictContains(actual, expected, status)
    case _ => Same(expected, actual)
  }

  lemma {:induction false} SameKeepsShape(a: Json, b: Json)
    requires Same(a, b)
    ensures a.JObj? <==> b.JObj?
  {}

  /** Python's equality of JSON values: numbers and booleans by value, everything else by shape and content. */
  predicate Equal(a: Json, b: Json)
    decreases a
  {
    match a
    case JNull => b.JNull?
    case JBool(x) => if b.JBool? then x == b.b else b.JNum? && b.n == if x then 1.0 else 0.0
    case JNum(x) => if b.JBool? then x == (if b.b then 1.0 else 0.0) else b.JNum? && x == b.n
    case JStr(x) => b == JStr(x)
    case JArr(items) => b.JArr? && |items| == |b.items| && forall i :: 0 <= i < |items| ==> Equal(items[i], b.items[i])
    case JObj(fields) =>
      b.JObj? && fields.Keys == b.fields.Keys && forall k :: k in fields ==> Equal(fields[k], b.fields[k])
  }

  lemma {:induction false} SameMeaning(a: Json, b: Json)
    ensures Same(a, b) <==> Equal(a, b)
    decreases a
  {
    if a.JArr? && b.JArr? && |a.items| == |b.items| {
      forall i | 0 <= i < |a.items| ensures Same(a.items[i], b.items[i]) <==> Equal(a.items[i], b.items[i]) {
        SameMeaning(a.items[i], b.items[i]);
      }
      SameItems(a, b);
    } else if a.JObj? && b.JObj? && a.fields.Keys == b.fields.Keys {
      forall k | k in a.fields ensures Same(a.fields[k], b.fields[k]) <==> Equal(a.fields[k], b.fields[k]) {
        SameMeaning(a.fields[k], b.fields[k]);
      }
      SameFields(a, b);
    } else {
      SameNeedsShape(a, b);
    }
  }

  lemma {:induction false} SameItems(a: Json, b: Json)
    requires a.JArr? && b.JArr? && |a.items| == |b.items|
    ensures Same(a, b) <==> forall i :: 0 <= i < |a.items| ==> Same(a.items[i], b.items[i])
  {
    var x, y := Canonical(a).items, Canonical(b).items;
    assert |x| == |a.items| && |y| == |b.items|;
    assert forall i :: 0 <= i < |x| ==> x[i] == Canonical(a.items[i]) && y[i] == Canonical(b.items[i]);
    if forall i :: 0 <= i < |a.items| ==> Same(a.items[i], b.items[i]) { assert x == y; }
  }

  lemma {:induction false} SameFields(a: Json, b: Json)
    requires a.JObj? && b.JObj? && a.fields.Keys == b.fields.Keys
    ensures Same(a, b) <==> forall k :: k in a.fields ==> Same(a.fields[k], b.fields[k])
  {
    var x, y := Canonical(a).fields, Canonical(b).fields;
    assert x.Keys == a.fields.Keys && y.Keys == b.fields.Keys;
    assert forall k :: k in x ==> x[k] == Canonical(a.fields[k]) && y[k] == Canonical(b.fields[k]);
    if forall k :: k in a.fields ==> Same(a.fields[k], b.fields[k]) { assert x == y; }
  }

  lemma {:induction false} SameNeedsShape(a: Json, b: Json)
    requires !(a.JArr? && b.JArr? && |a.items| == |b.items|)
    requires !(a.JObj? && b.JObj? && a.fields.Keys == b.fields.Keys)
    ensures Same(a, b) <==> Equal(a, b)
  {
    if a.JArr? && b.JArr? { assert |Canonical(a).items| != |Canonical(b).items|; }
    if a.JObj? && b.JObj? {
      assert Canonical(a).fields.Keys == a.fields.Keys && Canonical(b).fields.Keys == b.fields.Keys;
    }
  }

  /** Containment without a status fallback is a partial order on objects, up to Python equality. */
  lemma {:induction false} ContainsReflexive(a: Json)
    requires a.JObj?
    ensures DictContains(a, a, None)
  {
    forall k | k in a.fields && a.fields[k].JObj? ensures DictContains(a.fields[k], a.fields[k], None) {
      ContainsReflexive(a.fields[k]);
    }
  }

  lemma {:induction false} ContainsTransitive(a: Json, b: Json, c: Json)
    requires b.JObj? && c.JObj?
    requires DictContains(a, b, None) && DictContains(b, c, None)
    ensures DictContains(a, c, None)
    decreases c
  {
    forall k | k in c.fields
      ensures k in a.fields
      ensures if c.fields[k].JObj? then DictContains(a.fields[k], c.fields[k], None)
              else Same(a.fields[k], c.fields[k])
    {
      assert k in b.fields && k in a.fields;
      if c.fields[k].JObj? {
        ContainsTransitive(a.fields[k], b.fields[k], c.fields[k]);
      } else {
        SameKeepsShape(b.fields[k], c.fields[k]);
      }
    }
  }

  lemma {:induction false} ContainsAntisymmetric(a: Json, b: Json)
    requires a.JObj? && b.JObj?
    requires DictContains(a, b, None) && DictContains(b, a, None)
    ensures Same(a, b)
    decreases b
  {
    assert a.fields.Keys == b.fields.Keys;
    forall k | k in b.fields ensures Same(a.fields[k], b.fields[k]) {
      if b.fields[k].JObj? && a.fields[k].JObj? {
        ContainsAntisymmetric(a.fields[k], b.fields[k]);
      }
    }
    assert Canonical(a).fields == Canonical(b).fields;
  }

  // ---- What containment means ------------------------------------------------------------

  /** The value a path of keys leads to. */
  function At(j: Json, path: seq<string>): Option<Json> {
    if path == [] then Some(j)
    else if j.JObj? && path[0] in j.fields then At(j.fields[path[0]], path[1..])
    else None
  }

  /** At this path `actual` has what `expected` has: an object where that is one, otherwise an equal value. */
  predicate AgreesAt(actual: Json, expected: Json, path: seq<string>)
    requires At(expected, path).Some?
  {
    var want, have := At(expected, path).value, At(actual, path);
    have.Some? && if want.JObj? then have.value.JObj? else Equal(have.value, want)
  }

  /** Every path of `expected` leads to an equal value of `actual`; other values are of no concern. */
  ghost predicate Covers(actual: Json, expected: Json) {
    forall path :: At(expected, path).Some? ==> AgreesAt(actual, expected, path)
  }

  lemma {:induction false} LeafEnds(j: Json, path: seq<string>)
    requires !j.JObj? && At(j, path).Some?
    ensures path == []
  {}

  lemma {:induction false} ContainedAgrees(actual: Json, expected: Json, path: seq<string>)
    requires expected.JObj? && DictContains(actual, expected, None) && At(expected, path).Some?
    ensures AgreesAt(actual, expected, path)
    decreases path
  {
    if path != [] {
      var k := path[0];
      if expected.fields[k].JObj? {
        ContainedAgrees(actual.fields[k], expected.fields[k], path[1..]);
      } else {
        SameMeaning(actual.fields[k], expected.fields[k]);
        LeafEnds(expected.fields[k], path[1..]);
      }
    }
  }

  lemma {:induction false} CoveredBelow(actual: Json, expected: Json, k: string)
    requires expected.JObj? && Covers(actual, expected) && k in expected.fields
    ensures actual.JObj? && k in actual.fields && Covers(actual.fields[k], expected.fields[k])
  {
    assert AgreesAt(actual, expected, []) && At(expected, []).Some?;
    assert ([k] + [])[1..] == [];
    assert At(expected, [k] + []) == Some(expected.fields[k]);
    assert AgreesAt(actual, expected, [k] + []);
    forall path | At(expected.fields[k], path).Some? ensures AgreesAt(actual.fields[k], expected.fields[k], path) {
      assert ([k] + path)[1..] == path;
      assert At(expected, [k] + path) == At(expected.fields[k], path);
      assert AgreesAt(actual, expected, [k] + path);
    }
  }

  lemma {:induction false} CoveredIsContained(actual: Json, expected: Json)
    requires expected.JObj? && Covers(actual, expected)
    ensures DictContains(actual, expected, None)
    decreases expected
  {
    assert At(expected, []).Some? && AgreesAt(actual, expected, []);
    forall k | k in expected.fields
      ensures k in actual.fields
      ensures if expected.fields[k].JObj? then DictContains(actual.fields[k], expected.fields[k], None)
              else Same(actual.fields[k], expected.fields[k])
    {
      CoveredBelow(actual, expected, k);
      if expected.fields[k].JObj? {
        CoveredIsContained(actual.fields[k], expected.fields[k]);
      } else {
        assert At(expected.fields[k], []).Some? && AgreesAt(actual.fields[k], expected.fields[k], []);
        SameMeaning(actual.fields[k], expected.fields[k]);
      }
    }
  }

  /** The outcome as containment reads it: a missing `status` at the top is the requested status. */
  function WithStatus(actual: Json, status: Option<string>): Json {
    if actual.JObj? && status.Some? && "status" !in actual.fields
    then JObj(actual.fields["status" := JStr(status.value)]) else actual
  }

  lemma {:induction false} StatusFallback(actual: Json, expected: Json, status: Option<string>)
    requires expected.JObj?
    ensures DictContains(actual, expected, status) <==> DictContains(WithStatus(actual, status), expected, None)
  {}

  /** Containment with the fallback: every path of the expectation leads to an equal value of the completed outcome. */
  lemma {:induction false} ContainsMeaning(actual: Json, expected: Json, status: Option<string>)
    requires expected.JObj?
    ensures DictContains(actual, expected, status) <==> Covers(WithStatus(actual, status), expected)
  {
    var completed := WithStatus(actual, status);
    StatusFallback(actual, expected, status);
    if DictContains(completed, expected, None) {
      forall path | At(expected, path).Some? ensures AgreesAt(completed, expected, path) {
        ContainedAgrees(completed, expected, path);
      }
    }
    if Covers(completed, expected) { CoveredIsContained(completed, expected); }
  }

  // ---- Matching without a status -----------------------------------------------------------

  predicate Worded(v: Json) {
    v.JStr? && Strip(v.s) != ""
  }

  /** Of these keys the k-th is the first whose value has the property. */
  predicate FirstAt(fields: map<string, Json>, keys: seq<string>, holds: Json -> bool, k: nat) {
    k < |keys| && holds(Get(fields, keys[k])) && forall j :: 0 <= j < k ==> !holds(Get(fields, keys[j]))
  }

  lemma {:induction false} FirstTextIs(fields: map<string, Json>, keys: seq<string>, k: nat)
    requires FirstAt(fields, keys, Worded, k)
    ensures FirstText(fields, keys) == Some(Normalize(Get(fields, keys[k]).s))
  {
    if k > 0 {
      assert !Worded(Get(fields, keys[0]));
      FirstTextIs(fields, keys[1..], k - 1);
    }
  }

  lemma {:induction false} NoText(fields: map<string, Json>, keys: seq<string>)
    requires forall j :: 0 <= j < |keys| ==> !Worded(Get(fields, keys[j]))
    ensures FirstText(fields, keys).None?
  {
    if keys != [] {
      assert !Worded(Get(fields, keys[0]));
      NoText(fields, keys[1..]);
    }
  }

  lemma {:induction false} FirstBoolIs(fields: map<string, Json>, keys: seq<string>, k: nat)
    requires FirstAt(fields, keys, (v: Json) => v.JBool?, k)
    ensures FirstBool(fields, keys) == Get(fields, keys[k]).b
  {
    if k > 0 { FirstBoolIs(fields, keys[1..], k - 1); }
  }

  /** Without a status the first text under four keys speaks for an object outcome, and a flag where there is none. */
  lemma {:induction false} MatchWithoutStatus(fields: map<string, Json>, s: string, b: bool, k: nat)
    ensures FirstAt(fields, ["status", "state", "outcome", "result"], Worded, k) ==>
              var word := Normalize(Get(fields, ["status", "state", "outcome", "result"][k]).s);
              (ExpectedOutcomeMatches(JStr(s), JObj(fields), None) <==> word == Normalize(s)) &&
              (ExpectedOutcomeMatches(JBool(b), JObj(fields), None) <==>
               (b <==> word in {"succeeded", "success", "completed", "true", "ok", "passed"}))
    ensures (forall j :: 0 <= j < 4 ==> !Worded(Get(fields, ["status", "state", "outcome", "result"][j]))) ==>
              !ExpectedOutcomeMatches(JStr(s), JObj(fields), None) &&
              (FirstAt(fields, ["success", "ok", "passed"], (v: Json) => v.JBool?, k) ==>
                (ExpectedOutcomeMatches(JBool(b), JObj(fields), None) <==>
                 Get(fields, ["success", "ok", "passed"][k]) == JBool(b)))
  {
    var words, flags := ["status", "state", "outcome", "result"], ["success", "ok", "passed"];
    if FirstAt(fields, words, Worded, k) { FirstTextIs(fields, words, k); }
    if forall j :: 0 <= j < 4 ==> !Worded(Get(fields, words[j])) {
      NoText(fields, words);
      if FirstAt(fields, flags, (v: Json) => v.JBool?, k) { FirstBoolIs(fields, flags, k); }
    }
  }
}
