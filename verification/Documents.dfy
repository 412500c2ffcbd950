/**
  Parsed alert-rule documents (api/services/alert_rule_repo.py): nested lists and dictionaries,
  the five shapes a rule group can sit in, and the flattened rules a document offers. A dictionary
  is the list of its fields in insertion order.
*/
module Documents {
  import opened Wrappers
  import opened Text

  datatype Value =
    | Null
    | Scalar(text: string, truthy: bool) // a number or a boolean, with its str() and bool()
    | Str(text: string)
    | Arr(items: seq<Value>)
    | Obj(fields: seq<Field>)

  datatype Field = Field(key: string, value: Value)

  predicate Truthy(v: Value) {
    match v
    case Null => false
    case Scalar(_, truthy) => truthy
    case Str(text) => text != ""
    case Arr(items) => items != []
    case Obj(fields) => fields != []
  }

  // ---- Dictionaries ------------------------------------------------------------------

  /** `d.get(key)` */
  function Lookup(fields: seq<Field>, key: string): Value {
    if fields == [] then Null
    else if fields[0].key == key then fields[0].value
    else Lookup(fields[1..], key)
  }

  function Get(v: Value, key: string): Value {
    if v.Obj? then Lookup(v.fields, key) else Null
  }

  /** `d[key] = value`: an existing key keeps its place. */
  function Put(fields: seq<Field>, key: string, value: Value): (r: seq<Field>)
    ensures r != []
    ensures Lookup(r, key) == value
  {
    if fields == [] then [Field(key, value)]
    else if fields[0].key == key then [Field(key, value)] + fields[1..]
    else [fields[0]] + Put(fields[1..], key, value)
  }

  /** `d.pop(key, None)` */
  function Pop(fields: seq<Field>, key: string): seq<Field> {
    if fields == [] then []
    else if fields[0].key == key then fields[1..]
    else [fields[0]] + Pop(fields[1..], key)
  }

  lemma {:induction false} PutKeepsOthers(fields: seq<Field>, key: string, value: Value, other: string)
    requires other != key
    ensures Lookup(Put(fields, key, value), other) == Lookup(fields, other)
  {
    if fields != [] && fields[0].key != key { PutKeepsOthers(fields[1..], key, value, other); }
  }

  lemma {:induction false} PutTwice(fields: seq<Field>, key: string, first: Value, second: Value)
    ensures Put(Put(fields, key, first), key, second) == Put(fields, key, second)
  {
    if fields != [] && fields[0].key != key { PutTwice(fields[1..], key, first, second); }
  }

  lemma {:induction false} PutBack(fields: seq<Field>, key: string)
    requires Lookup(fields, key) != Null
    ensures Put(fields, key, Lookup(fields, key)) == fields
  {
    if fields[0].key != key {
      PutBack(fields[1..], key);
      assert fields == [fields[0]] + fields[1..];
    } else {
      assert fields[0] == Field(key, Lookup(fields, key));
    }
  }

  // ---- str() -----------------------------------------------------------------------------

  function TextOf(v: Value): string
    decreases v, 0
  {
    match v
    case Null => "None"
    case Scalar(text, _) => text
    case Str(text) => text
    case Arr(items) => "[" + TextOfItems(items) + "]"
    case Obj(fields) => "{" + TextOfFields(fields) + "}"
  }

  /** Text inside a list or a dictionary: a string is quoted. */
  function Repr(v: Value): string
    decreases v, 1
  {
    if v.Str? then "'" + v.text + "'" else TextOf(v)
  }

  function TextOfItems(items: seq<Value>): string {
    if items == [] then ""
    else if |items| == 1 then Repr(items[0])
    else Repr(items[0]) + ", " + TextOfItems(items[1..])
  }

  function TextOfFields(fields: seq<Field>): string {
    if fields == [] then ""
    else
      var head := "'" + fields[0].key + "': " + Repr(fields[0].value);
      if |fields| == 1 then head else head + ", " + TextOfFields(fields[1..])
  }

  /** `str(value or "").strip()` */
  function Label(v: Value): string {
    Strip(if Truthy(v) then TextOf(v) else "")
  }

  /** `str(rule.get("alert") or rule.get("record") or "").strip()` */
  function RuleName(rule: Value): string {
    Label(if Truthy(Get(rule, "alert")) then Get(rule, "alert") else Get(rule, "record"))
  }

  // ---- The five shapes ---------------------------------------------------------------

  const MAP_KEY := "additionalPrometheusRulesMap"

  datatype Format = GroupList | Groups | TopRules | SpecGroups | AdditionalMap

  datatype Place = Place(format: Format, wrapper: Option<string>)

  datatype Located = Located(group: Value, place: Place)

  function ObjectsAt(items: seq<Value>, place: Place): seq<Located> {
    if items == [] then []
    else (if items[0].Obj? then [Located(items[0], place)] else []) + ObjectsAt(items[1..], place)
  }

  function GroupsOf(holder: Value, place: Place): seq<Located> {
    var groups := Get(holder, "groups");
    if groups.Arr? then ObjectsAt(groups.items, place) else []
  }

  function WrapperGroups(ruleMap: seq<Field>): seq<Located> {
    if ruleMap == [] then []
    else GroupsOf(ruleMap[0].value, Place(AdditionalMap, Some(ruleMap[0].key))) + WrapperGroups(ruleMap[1..])
  }

  function MapGroups(doc: Value): seq<Located> {
    var ruleMap := Get(doc, MAP_KEY);
    if ruleMap.Obj? then WrapperGroups(ruleMap.fields) else []
  }

  datatype Failure = NotADocument | NotAnObject | OtherGroup | Duplicate(name: string) | NoRecords | MixedFormats |
      SeveralGroups

  /** `iter_rule_groups` */
  function IterRuleGroups(doc: Value): Result<seq<Located>, Failure> {
    if !Truthy(doc) then Ok([])
    else if doc.Arr? then Ok(ObjectsAt(doc.items, Place(GroupList, None)))
    else if !doc.Obj? then Err(NotADocument)
    else Ok(GroupsOf(doc, Place(Groups, None)) +
            (if Get(doc, "rules").Arr? then [Located(doc, Place(TopRules, None))] else []) +
            GroupsOf(Get(doc, "spec"), Place(SpecGroups, None)) + MapGroups(doc))
  }

  // ---- The rules a document offers ----------------------------------------------------

  datatype Entry = Entry(name: string, group: string, rule: Value, place: Place)

  function RuleEntries(rules: seq<Value>, group: string, place: Place): seq<Entry> {
    if rules == [] then []
    else
      (if rules[0].Obj? && RuleName(rules[0]) != "" then [Entry(RuleName(rules[0]), group, rules[0], place)] else []) +
      RuleEntries(rules[1..], group, place)
  }

  function GroupEntries(l: Located): seq<Entry> {
    var rules := Get(l.group, "rules");
    if Label(Get(l.group, "name")) == "" || !rules.Arr? then []
    else RuleEntries(rules.items, Label(Get(l.group, "name")), l.place)
  }

  function EntriesOf(located: seq<Located>): seq<Entry> {
    if located == [] then [] else GroupEntries(located[0]) + EntriesOf(located[1..])
  }

  /** Every named rule the document offers, in reading order. */
  function Flatten(doc: Value): seq<Entry> {
    match IterRuleGroups(doc)
    case Err(_) => []
    case Ok(located) => EntriesOf(located)
  }

  lemma {:induction false} EntriesAppend(a: seq<Located>, b: seq<Located>)
    ensures EntriesOf(a + b) == EntriesOf(a) + EntriesOf(b)
  {
    if a == [] {
      assert a + b == b;
    } else {
      assert (a + b)[1..] == a[1..] + b;
      EntriesAppend(a[1..], b);
    }
  }

  lemma {:induction false} ObjectsAppend(a: seq<Value>, b: seq<Value>, place: Place)
    ensures ObjectsAt(a + b, place) == ObjectsAt(a, place) + ObjectsAt(b, place)
  {
    if a == [] {
      assert a + b == b;
    } else {
      assert (a + b)[1..] == a[1..] + b;
      ObjectsAppend(a[1..], b, place);
    }
  }

  lemma {:induction false} WrappersAppend(a: seq<Field>, b: seq<Field>)
    ensures WrapperGroups(a + b) == WrapperGroups(a) + WrapperGroups(b)
  {
    if a == [] {
      assert a + b == b;
    } else {
      assert (a + b)[1..] == a[1..] + b;
      WrappersAppend(a[1..], b);
    }
  }

  lemma {:induction false} RulesAppend(a: seq<Value>, b: seq<Value>, group: string, place: Place)
    ensures RuleEntries(a + b, group, place) == RuleEntries(a, group, place) + RuleEntries(b, group, place)
  {
    if a == [] {
      assert a + b == b;
    } else {
      assert (a + b)[1..] == a[1..] + b;
      RulesAppend(a[1..], b, group, place);
    }
  }

  /** The rules of one list of groups. */
  function ListEntries(groups: seq<Value>, place: Place): seq<Entry> {
    EntriesOf(ObjectsAt(groups, place))
  }

  lemma {:induction false} ListEntriesAppend(a: seq<Value>, b: seq<Value>, place: Place)
    ensures ListEntries(a + b, place) == ListEntries(a, place) + ListEntries(b, place)
  {
    ObjectsAppend(a, b, place);
    EntriesAppend(ObjectsAt(a, place), ObjectsAt(b, place));
  }

  /** A dictionary document offers its four shapes one after the other. */
  lemma {:induction false} FlattenOfObject(doc: Value)
    requires doc.Obj?
    ensures Flatten(doc) ==
            EntriesOf(GroupsOf(doc, Place(Groups, None))) + GroupEntries(Located(doc, Place(TopRules, None))) +
                            EntriesOf(GroupsOf(Get(doc, "spec"), Place(SpecGroups, None))) + EntriesOf(MapGroups(doc))
  {
    if doc.fields != [] {
      var top := if Get(doc, "rules").Arr? then [Located(doc, Place(TopRules, None))] else [];
      var first, third := GroupsOf(doc, Place(Groups, None)), GroupsOf(Get(doc, "spec"), Place(SpecGroups, None));
      EntriesAppend(first, top);
      EntriesAppend(first + top, third);
      EntriesAppend(first + top + third, MapGroups(doc));
      assert EntriesOf(top) == GroupEntries(Located(doc, Place(TopRules, None)));
    }
  }
}
