/**
  Indexing the rules of a repository and rendering a document for a set of rules
  (api/services/alert_rule_repo.py), and the round trip between them.
*/
module RuleIndex {
  import opened Wrappers
  import opened Text
  import opened Documents
  import opened RuleEditor

  /** A rule with the group and the source it is filed under. */
  datatype Record = Record(group: string, rule: Value, source: Source)

  /** One parsed document of a repository file. */
  datatype Parsed = Parsed(path: string, document: Value)

  // ---- Index ------------------------------------------------------------------------

  function SourceOf(path: string, place: Place): Source {
    Source(path, place.format,
           if place.wrapper.Some? && place.wrapper.value != "" then place.wrapper
           else if place.format.AdditionalMap? then Some(DefaultWrapperKey(path)) else None)
  }

  /** A rule under the name the index keys it by. */
  datatype Filed = Filed(name: string, record: Record)

  function FiledAs(path: string, e: Entry): Filed {
    Filed(e.name, Record(e.group, e.rule, SourceOf(path, e.place)))
  }

  function FiledRules(path: string, entries: seq<Entry>): (r: seq<Filed>)
    ensures |r| == |entries|
    ensures forall i :: 0 <= i < |r| ==> r[i] == FiledAs(path, entries[i])
  {
    if entries == [] then [] else [FiledAs(path, entries[0])] + FiledRules(path, entries[1..])
  }

  /** Adds the rules one by one; a name already there is an error. */
  function AddAll(acc: map<string, Record>, rules: seq<Filed>): Result<map<string, Record>, Failure>
    decreases |rules|
  {
    if rules == [] then Ok(acc)
    else if rules[0].name in acc then Err(Duplicate(rules[0].name))
    else AddAll(acc[rules[0].name := rules[0].record], rules[1..])
  }

  function IndexFrom(acc: map<string, Record>, docs: seq<Parsed>): Result<map<string, Record>, Failure>
    decreases |docs|
  {
    if docs == [] then Ok(acc)
    else
      match IterRuleGroups(docs[0].document)
      case Err(e) => Err(e)
      case Ok(located) =>
        match AddAll(acc, FiledRules(docs[0].path, EntriesOf(located)))
        case Err(e) => Err(e)
        case Ok(more) => IndexFrom(more, docs[1..])
  }

  lemma {:induction false} AddAllAppend(acc: map<string, Record>, a: seq<Filed>, b: seq<Filed>)
    ensures AddAll(acc, a + b) == if AddAll(acc, a).Ok? then AddAll(AddAll(acc, a).value, b) else AddAll(acc, a)
    decreases |a|
  {
    if a == [] {
      assert a + b == b;
    } else {
      assert (a + b)[1..] == a[1..] + b;
      if a[0].name !in acc {
        AddAllAppend(acc[a[0].name := a[0].record], a[1..], b);
      }
    }
  }

  lemma {:induction false} FiledAppend(path: string, a: seq<Entry>, b: seq<Entry>)
    ensures FiledRules(path, a + b) == FiledRules(path, a) + FiledRules(path, b)
  {}

  method AddRules(acc: map<string, Record>, path: string, rules: seq<Value>, group: string, place: Place)
    returns (r: Result<map<string, Record>, Failure>)
    ensures r == AddAll(acc, FiledRules(path, RuleEntries(rules, group, place)))
  {
    var byName := acc;
    ghost var all := FiledRules(path, RuleEntries(rules, group, place));
    for i := 0 to |rules|
      invariant AddAll(acc, all) == AddAll(byName, FiledRules(path, RuleEntries(rules[i..], group, place)))
    {
      ghost var rest := RuleEntries(rules[i + 1..], group, place);
      assert rules[i..][1..] == rules[i + 1..] && [] + rest == rest;
      var rule := rules[i];
      if !rule.Obj? {
        continue;
      }
      var name := RuleName(rule);
      if name == "" {
        continue;
      }
      ghost var e := Entry(name, group, rule, place);
      assert FiledRules(path, [e] + rest) == [FiledAs(path, e)] + FiledRules(path, rest);
      if name in byName {
        return Err(Duplicate(name));
      }
      byName := byName[name := Record(group, rule, SourceOf(path, place))];
    }
    return Ok(byName);
  }

  method AddGroups(acc: map<string, Record>, path: string, located: seq<Located>)
    returns (r: Result<map<string, Record>, Failure>)
    ensures r == AddAll(acc, FiledRules(path, EntriesOf(located)))
  {
    var byName := acc;
    for i := 0 to |located|
      invariant AddAll(acc, FiledRules(path, EntriesOf(located))) ==
                AddAll(byName, FiledRules(path, EntriesOf(located[i..])))
    {
      assert located[i..][1..] == located[i + 1..];
      FiledAppend(path, GroupEntries(located[i]), EntriesOf(located[i + 1..]));
      AddAllAppend(byName, FiledRules(path, GroupEntries(located[i])), FiledRules(path, EntriesOf(located[i + 1..])));
      var name, rules := Label(Get(located[i].group, "name")), Get(located[i].group, "rules");
      if name == "" || !rules.Arr? {
        continue;
      }
      var added := AddRules(byName, path, rules.items, name, located[i].place);
      match added
      case Err(e) => return Err(e);
      case Ok(more) => byName := more;
    }
    return Ok(byName);
  }

  /** `build_alert_rule_repo_index`, from the parsed documents in path order */
  method BuildIndex(docs: seq<Parsed>) returns (r: Result<map<string, Record>, Failure>)
    ensures r == IndexFrom(map[], docs)
  {
    var byName: map<string, Record> := map[];
    for i := 0 to |docs|
      invariant IndexFrom(map[], docs) == IndexFrom(byName, docs[i..])
    {
      assert docs[i..][1..] == docs[i + 1..];
      var located := IterRuleGroups(docs[i].document);
      match located
      case Err(e) => return Err(e);
      case Ok(groups) =>
        var added := AddGroups(byName, docs[i].path, groups);
        match added {
          case Err(e) => return Err(e);
          case Ok(more) => byName := more;
        }
    }
    return Ok(byName);
  }

  predicate DistinctNames(rules: seq<Filed>) {
    forall i, j :: 0 <= i < j < |rules| ==> rules[i].name != rules[j].name
  }

  /** The index that holds each of these rules under its name, and nothing else. */
  predicate Indexes(m: map<string, Record>, rules: seq<Filed>) {
    (forall k :: k in m ==> Filed(k, m[k]) in rules) &&
    (forall f :: f in rules ==> f.name in m && m[f.name] == f.record)
  }

  lemma {:induction false} AddAllMeaning(acc: map<string, Record>, rules: seq<Filed>)
    ensures AddAll(acc, rules).Ok? <==> DistinctNames(rules) && forall f :: f in rules ==> f.name !in acc
    ensures AddAll(acc, rules).Ok? ==>
              var m := AddAll(acc, rules).value;
              (forall k :: k in m ==> (k in acc && m[k] == acc[k]) || Filed(k, m[k]) in rules) &&
              (forall k :: k in acc ==> k in m && m[k] == acc[k]) &&
              (forall f :: f in rules ==> f.name in m && m[f.name] == f.record)
    decreases |rules|
  {
    if rules != [] && rules[0].name !in acc {
      var more := acc[rules[0].name := rules[0].record];
      AddAllMeaning(more, rules[1..]);
      assert rules == [rules[0]] + rules[1..];
      if AddAll(acc, rules).Ok? {
        forall i, j | 0 <= i < j < |rules| ensures rules[i].name != rules[j].name {
          if i == 0 { assert rules[j] in rules[1..]; } else { assert rules[1..][i - 1].name != rules[1..][j - 1].name; }
        }
      } else if DistinctNames(rules) {
        forall f | f in rules[1..] && f.name in more ensures f.name in acc { }
      }
    }
  }

  /** Every named rule of the repository with the source it comes from, in reading order. */
  function AllFiled(docs: seq<Parsed>): seq<Filed> {
    if docs == [] then [] else FiledRules(docs[0].path, Flatten(docs[0].document)) + AllFiled(docs[1..])
  }

  predicate Readable(docs: seq<Parsed>) {
    forall d :: d in docs ==> IterRuleGroups(d.document).Ok?
  }

  lemma {:induction false} IndexAtOnce(acc: map<string, Record>, docs: seq<Parsed>)
    ensures IndexFrom(acc, docs).Ok? <==> Readable(docs) && AddAll(acc, AllFiled(docs)).Ok?
    ensures IndexFrom(acc, docs).Ok? ==> IndexFrom(acc, docs) == AddAll(acc, AllFiled(docs))
    decreases |docs|
  {
    if docs != [] {
      assert docs == [docs[0]] + docs[1..];
      AddAllAppend(acc, FiledRules(docs[0].path, Flatten(docs[0].document)), AllFiled(docs[1..]));
      var first := AddAll(acc, FiledRules(docs[0].path, Flatten(docs[0].document)));
      if IterRuleGroups(docs[0].document).Ok? && first.Ok? {
        IndexAtOnce(first.value, docs[1..]);
      }
    }
  }

  /**
    A repository can be indexed exactly when every document has a readable shape and no name is
    offered twice anywhere; the index then holds every offered rule and nothing else.
  */
  lemma {:induction false} IndexMeaning(docs: seq<Parsed>)
    ensures IndexFrom(map[], docs).Ok? <==> Readable(docs) && DistinctNames(AllFiled(docs))
    ensures IndexFrom(map[], docs).Ok? ==> Indexes(IndexFrom(map[], docs).value, AllFiled(docs))
  {
    IndexAtOnce(map[], docs);
    AddAllMeaning(map[], AllFiled(docs));
  }

  // ---- The index, read off the documents ----------------------------------------------

  /** This list of groups, where it is one, holds the group. */
  predicate GroupIn(groups: Value, group: Value) {
    groups.Arr? && group in groups.items && group.Obj?
  }

  /** Where a document holds a rule group: the five shapes. */
  predicate Holds(doc: Value, group: Value, place: Place) {
    match place.format
    case GroupList => place.wrapper.None? && GroupIn(doc, group)
    case Groups => place.wrapper.None? && GroupIn(Get(doc, "groups"), group)
    case TopRules => place.wrapper.None? && group == doc && Get(doc, "rules").Arr?
    case SpecGroups => place.wrapper.None? && GroupIn(Get(Get(doc, "spec"), "groups"), group)
    case AdditionalMap =>
      Get(doc, "additionalPrometheusRulesMap").Obj? &&
      exists f :: f in Get(doc, "additionalPrometheusRulesMap").fields && place.wrapper == Some(f.key) &&
                  GroupIn(Get(f.value, "groups"), group)
  }

  lemma {:induction false} ObjectsMeaning(items: seq<Value>, place: Place)
    ensures forall l :: l in ObjectsAt(items, place) <==> l.place == place && l.group in items && l.group.Obj?
  {
    if items != [] {
      ObjectsMeaning(items[1..], place);
      assert items == [items[0]] + items[1..];
    }
  }

  lemma {:induction false} GroupsMeaning(holder: Value, place: Place)
    ensures forall l :: l in GroupsOf(holder, place) <==> l.place == place && GroupIn(Get(holder, "groups"), l.group)
  {
    if Get(holder, "groups").Arr? { ObjectsMeaning(Get(holder, "groups").items, place); }
  }

  lemma {:induction false} WrappersMeaning(ruleMap: seq<Field>)
    ensures forall l :: l in WrapperGroups(ruleMap) <==>
              l.place.format.AdditionalMap? &&
              exists f :: f in ruleMap && l.place.wrapper == Some(f.key) && GroupIn(Get(f.value, "groups"), l.group)
  {
    if ruleMap != [] {
      WrappersMeaning(ruleMap[1..]);
      GroupsMeaning(ruleMap[0].value, Place(AdditionalMap, Some(ruleMap[0].key)));
      assert ruleMap == [ruleMap[0]] + ruleMap[1..];
    }
  }

  /** Which documents can be read, and which groups they offer at which place. */
  lemma {:induction false} ShapesMeaning(doc: Value)
    ensures IterRuleGroups(doc).Err? <==> (doc.Str? && doc.text != "") || (doc.Scalar? && doc.truthy)
    ensures IterRuleGroups(doc).Ok? ==>
              forall l :: l in IterRuleGroups(doc).value <==> Holds(doc, l.group, l.place)
  {
    if doc.Arr? {
      ObjectsMeaning(doc.items, Place(GroupList, None));
    } else if doc.Obj? {
      GroupsMeaning(doc, Place(Groups, None));
      GroupsMeaning(Get(doc, "spec"), Place(SpecGroups, None));
      if Get(doc, MAP_KEY).Obj? { WrappersMeaning(Get(doc, MAP_KEY).fields); }
    }
  }

  /** No value, or an empty one. */
  predicate Unset(v: Value) {
    v in {Null, Str(""), Arr([]), Obj([])} || (v.Scalar? && !v.truthy)
  }

  /** The text of a value that is set, without blanks around it. */
  predicate Reads(v: Value, text: string) {
    !Unset(v) && Strip(TextOf(v)) == text
  }

  /** A rule's name: its `alert` where that is set, and only otherwise its `record`. */
  predicate BearsName(rule: Value, name: string) {
    name != "" && (Reads(Get(rule, "alert"), name) || (Unset(Get(rule, "alert")) && Reads(Get(rule, "record"), name)))
  }

  lemma {:induction false} NameMeaning(rule: Value)
    ensures forall name :: name != "" ==> (RuleName(rule) == name <==> BearsName(rule, name))
  {}

  lemma {:induction false} RuleEntriesMeaning(rules: seq<Value>, group: string, place: Place)
    ensures forall e :: e in RuleEntries(rules, group, place) <==>
              e.group == group && e.place == place && e.rule in rules && e.rule.Obj? && BearsName(e.rule, e.name)
  {
    if rules != [] {
      RuleEntriesMeaning(rules[1..], group, place);
      NameMeaning(rules[0]);
      assert rules == [rules[0]] + rules[1..];
    }
  }

  /** The document offers the rule under this name and group at this place. */
  ghost predicate Offered(doc: Value, e: Entry) {
    exists group :: Holds(doc, group, e.place) && e.group != "" && Reads(Get(group, "name"), e.group) &&
                    Get(group, "rules").Arr? && e.rule in Get(group, "rules").items && e.rule.Obj? &&
                    BearsName(e.rule, e.name)
  }

  lemma {:induction false} GroupEntriesMeaning(l: Located)
    ensures forall e :: e in GroupEntries(l) <==>
              e.place == l.place && e.group != "" && Reads(Get(l.group, "name"), e.group) &&
              Get(l.group, "rules").Arr? && e.rule in Get(l.group, "rules").items && e.rule.Obj? &&
              BearsName(e.rule, e.name)
  {
    if Get(l.group, "rules").Arr? {
      RuleEntriesMeaning(Get(l.group, "rules").items, Label(Get(l.group, "name")), l.place);
    }
  }

  lemma {:induction false} EntriesMeaning(located: seq<Located>)
    ensures forall e :: e in EntriesOf(located) <==> exists l :: l in located && e in GroupEntries(l)
  {
    if located != [] {
      EntriesMeaning(located[1..]);
      assert located == [located[0]] + located[1..];
    }
  }

  lemma {:induction false} FlattenMeaning(doc: Value)
    requires IterRuleGroups(doc).Ok?
    ensures forall e :: e in Flatten(doc) <==> Offered(doc, e)
  {
    var located := IterRuleGroups(doc).value;
    ShapesMeaning(doc);
    EntriesMeaning(located);
    forall e ensures e in Flatten(doc) <==> Offered(doc, e) {
      if e in Flatten(doc) {
        var l :| l in located && e in GroupEntries(l);
        GroupEntriesMeaning(l);
      }
      if Offered(doc, e) {
        var group :| Holds(doc, group, e.place) && e.group != "" && Reads(Get(group, "name"), e.group) &&
                     Get(group, "rules").Arr? && e.rule in Get(group, "rules").items && e.rule.Obj? &&
                     BearsName(e.rule, e.name);
        GroupEntriesMeaning(Located(group, e.place));
        assert Located(group, e.place) in located;
      }
    }
  }

  /**
    The source a rule is filed under: its file, shape and wrapper, the wrapper named after the file when
    it has no name.
  */
  predicate FiledUnder(path: string, place: Place, source: Source) {
    source.path == path && source.format == place.format &&
    (place.wrapper.Some? && place.wrapper.value != "" ==> source.wrapperKey == place.wrapper) &&
    (place.wrapper.None? || place.wrapper.value == "" ==>
      source.wrapperKey == if place.format.AdditionalMap? then Some(DefaultWrapperKey(path)) else None)
  }

  lemma {:induction false} AllFiledMeaning(docs: seq<Parsed>)
    requires Readable(docs)
    ensures forall f :: f in AllFiled(docs) <==>
              exists d, e :: d in docs && Offered(d.document, e) && f == FiledAs(d.path, e)
  {
    if docs != [] {
      AllFiledMeaning(docs[1..]);
      assert docs == [docs[0]] + docs[1..];
      var first := Flatten(docs[0].document);
      FlattenMeaning(docs[0].document);
      forall f ensures f in AllFiled(docs) <==>
                       exists d, e :: d in docs && Offered(d.document, e) && f == FiledAs(d.path, e)
      {
        if f in FiledRules(docs[0].path, first) {
          var i :| 0 <= i < |first| && f == FiledAs(docs[0].path, first[i]);
          assert first[i] in first;
        }
        if d, e :| d in docs && Offered(d.document, e) && f == FiledAs(d.path, e) {
          if d == docs[0] {
            var i :| 0 <= i < |first| && first[i] == e;
            assert FiledRules(docs[0].path, first)[i] == f;
          }
        }
      }
    }
  }

  /**
    What the index holds, read off the fields of the documents: under a name exactly the rule that bears it,
    in a named group that stands in one of the five shapes, with that group and the source it is filed under.
  */
  lemma {:induction false} IndexedExactly(docs: seq<Parsed>, name: string, record: Record)
    requires IndexFrom(map[], docs).Ok?
    ensures var index := IndexFrom(map[], docs).value;
            (name in index && index[name] == record) <==>
            exists d, e :: d in docs && Offered(d.document, e) && e.name == name && e.group == record.group &&
                           e.rule == record.rule && FiledUnder(d.path, e.place, record.source)
  {
    var index := IndexFrom(map[], docs).value;
    IndexMeaning(docs);
    AllFiledMeaning(docs);
    IndexEntry(index, AllFiled(docs), name, record);
    FiledAsMeaning(name, record);
  }

  lemma {:induction false} IndexEntry(m: map<string, Record>, rules: seq<Filed>, name: string, record: Record)
    requires Indexes(m, rules)
    ensures (name in m && m[name] == record) <==> Filed(name, record) in rules
  {}

  lemma {:induction false} FiledAsMeaning(name: string, record: Record)
    ensures forall path, e :: Filed(name, record) == FiledAs(path, e) <==>
              e.name == name && e.group == record.group && e.rule == record.rule &&
              FiledUnder(path, e.place, record.source)
  {}

  /**
    What names a rule, on its fields: a set `alert`, whatever the `record`; the `record` where no `alert` is
    set; and a rule whose name is blank is not indexed at all.
  */
  lemma {:induction false} NamedByFields(docs: seq<Parsed>, d: Parsed, group: Value, place: Place, rule: Value)
    requires IndexFrom(map[], docs).Ok? && d in docs && Holds(d.document, group, place) && rule.Obj?
    requires Get(group, "name").Str? && Strip(Get(group, "name").text) != ""
    requires Get(group, "rules").Arr? && rule in Get(group, "rules").items
    ensures var index := IndexFrom(map[], docs).value;
            var alert, rec := Get(rule, "alert"), Get(rule, "record");
            (alert.Str? && Strip(alert.text) != "" ==>
              Strip(alert.text) in index && index[Strip(alert.text)].rule == rule) &&
            (Unset(alert) && rec.Str? && Strip(rec.text) != "" ==>
              Strip(rec.text) in index && index[Strip(rec.text)].rule == rule) &&
            ((Unset(alert) && Unset(rec)) || (alert.Str? && alert.text != "" && Strip(alert.text) == "") ==>
              forall name :: name in index ==> index[name].rule != rule)
  {
    var index := IndexFrom(map[], docs).value;
    var alert, rec := Get(rule, "alert"), Get(rule, "record");
    var filed := Strip(Get(group, "name").text);
    StripOfBlank();
    if alert.Str? && Strip(alert.text) != "" {
      IsIndexed(docs, d, Entry(Strip(alert.text), filed, rule, place), group);
    } else if Unset(alert) && rec.Str? && Strip(rec.text) != "" {
      IsIndexed(docs, d, Entry(Strip(rec.text), filed, rule, place), group);
    }
    forall name | name in index && index[name].rule == rule ensures BearsName(rule, name) {
      IndexedExactly(docs, name, index[name]);
    }
  }

  lemma {:induction false} StripOfBlank()
    ensures Strip("") == ""
  {}

  lemma {:induction false} IsIndexed(docs: seq<Parsed>, d: Parsed, e: Entry, group: Value)
    requires IndexFrom(map[], docs).Ok? && d in docs && Holds(d.document, group, e.place) && e.rule.Obj?
    requires e.group != "" && Reads(Get(group, "name"), e.group) && BearsName(e.rule, e.name)
    requires Get(group, "rules").Arr? && e.rule in Get(group, "rules").items
    ensures var index := IndexFrom(map[], docs).value;
            e.name in index && index[e.name] == Record(e.group, e.rule, SourceOf(d.path, e.place))
  {
    IndexedExactly(docs, e.name, Record(e.group, e.rule, SourceOf(d.path, e.place)));
  }
}
