/** What editing one rule does to the rules a document offers. */
module RuleTheorems {
  import opened Wrappers
  import opened Text
  import opened Documents
  import opened RuleEditor

  function NewEntry(source: Source, group: string, payload: seq<Field>): Entry {
    Entry(RuleName(Obj(payload)), Strip(group), Obj(payload), PlaceOf(source))
  }

  // ---- One list of rules --------------------------------------------------------------

  function PresentIn(rules: seq<Value>, name: string, group: string, place: Place): seq<Entry> {
    if HasRule(rules, name) then [Entry(name, group, rules[FirstMatch(rules, name)], place)] else []
  }

  /** The offered rules on both sides of one place of the list. */
  function Before(rules: seq<Value>, i: nat, group: string, place: Place): seq<Entry>
    requires i <= |rules|
  {
    RuleEntries(rules[..i], group, place)
  }

  function Behind(rules: seq<Value>, i: nat, group: string, place: Place): seq<Entry>
    requires i <= |rules|
  {
    if i < |rules| then RuleEntries(rules[i + 1..], group, place) else []
  }

  lemma {:induction false} RulesAround(rules: seq<Value>, i: nat, group: string, place: Place)
    requires i < |rules| && rules[i].Obj? && RuleName(rules[i]) != ""
    ensures RuleEntries(rules, group, place) ==
            Before(rules, i, group, place) + [Entry(RuleName(rules[i]), group, rules[i], place)] +
            Behind(rules, i, group, place)
  {
    assert rules == rules[..i] + rules[i..];
    RulesAppend(rules[..i], rules[i..], group, place);
    assert rules[i..][1..] == rules[i + 1..];
  }

  lemma {:induction false} PutEntries(rules: seq<Value>, name: string, payload: seq<Field>, group: string, place: Place)
    requires name != "" && RuleName(Obj(payload)) != ""
    ensures var i := FirstMatch(rules, name);
            RuleEntries(PutRule(rules, name, payload), group, place) ==
            Before(rules, i, group, place) + [Entry(RuleName(Obj(payload)), group, Obj(payload), place)] +
            Behind(rules, i, group, place)
  {
    var i := FirstMatch(rules, name);
    var put := PutRule(rules, name, payload);
    assert put[..i] == rules[..i];
    assert i < |rules| ==> put[i + 1..] == rules[i + 1..];
    assert i == |rules| ==> put[i + 1..] == [];
    RulesAround(put, i, group, place);
  }

  lemma {:induction false} DropEntries(rules: seq<Value>, name: string, group: string, place: Place)
    ensures var i := FirstMatch(rules, name);
            RuleEntries(DropRule(rules, name), group, place) ==
              Before(rules, i, group, place) + Behind(rules, i, group, place)
  {
    var i := FirstMatch(rules, name);
    if i < |rules| {
      RulesAppend(rules[..i], rules[i + 1..], group, place);
    } else {
      assert rules[..i] == rules;
    }
  }

  lemma {:induction false} PresentEntries(rules: seq<Value>, name: string, group: string, place: Place)
    requires name != ""
    ensures var i := FirstMatch(rules, name);
            RuleEntries(rules, group, place) ==
            Before(rules, i, group, place) + PresentIn(rules, name, group, place) + Behind(rules, i, group, place)
  {
    var i := FirstMatch(rules, name);
    if i < |rules| {
      RulesAround(rules, i, group, place);
    } else {
      assert rules[..i] == rules;
    }
  }

  // ---- One list of groups -------------------------------------------------------------

  lemma {:induction false} WithRulesEntries(holder: Value, rules: seq<Value>, group: string, place: Place)
    requires holder.Obj? && Get(holder, "name") == Str(group) && Strip(group) != ""
    ensures GroupEntries(Located(holder, place)) == RuleEntries(RulesOf(holder), Strip(group), place)
    ensures GroupEntries(Located(WithRules(holder, rules), place)) == RuleEntries(rules, Strip(group), place)
  {
    PutKeepsOthers(holder.fields, "rules", Arr(rules), "name");
    assert group != "" && Label(Str(group)) == Strip(group);
  }

  /** The rules offered before and after the group at i. */
  function Ahead(groups: seq<Value>, i: nat, place: Place): seq<Entry>
    requires i <= |groups|
  {
    ListEntries(groups[..i], place)
  }

  function Beyond(groups: seq<Value>, i: nat, place: Place): seq<Entry>
    requires i <= |groups|
  {
    if i < |groups| then ListEntries(groups[i + 1..], place) else []
  }

  lemma {:induction false} SpliceEntries(groups: seq<Value>, i: nat, middle: seq<Value>, place: Place)
    requires i <= |groups|
    ensures ListEntries(Splice(groups, i, middle), place) ==
            Ahead(groups, i, place) + ListEntries(middle, place) + Beyond(groups, i, place)
  {
    var tail := if i < |groups| then groups[i + 1..] else [];
    ListEntriesAppend(groups[..i], middle, place);
    ListEntriesAppend(groups[..i] + middle, tail, place);
    if i == |groups| { NoEntries(place); }
  }

  lemma {:induction false} NoEntries(place: Place)
    ensures ListEntries([], place) == []
  {}

  lemma {:induction false} SingleGroup(group: Value, place: Place)
    requires group.Obj?
    ensures ListEntries([group], place) == GroupEntries(Located(group, place))
  {
    assert ObjectsAt([group], place) == [Located(group, place)];
    assert EntriesOf([Located(group, place)]) == GroupEntries(Located(group, place)) + EntriesOf([]);
  }

  function PresentAt(groups: seq<Value>, group: string, name: string, place: Place): seq<Entry> {
    var i := FindGroup(groups, group);
    if i.Ok? then PresentIn(RulesOf(Target(groups, group, i.value)), name, Strip(group), place) else []
  }

  lemma {:induction false} ReplacedGroup(groups: seq<Value>, i: nat, holder: Value, rules: seq<Value>, group: string,
                                         place: Place)
    requires i <= |groups| && holder.Obj? && Get(holder, "name") == Str(group) && Strip(group) != ""
    ensures ListEntries(Splice(groups, i, [WithRules(holder, rules)]), place) ==
            Ahead(groups, i, place) + RuleEntries(rules, Strip(group), place) + Beyond(groups, i, place)
  {
    WithRulesEntries(holder, rules, group, place);
    SpliceEntries(groups, i, [WithRules(holder, rules)], place);
    SingleGroup(WithRules(holder, rules), place);
  }

  lemma {:induction false} RemovedGroup(groups: seq<Value>, i: nat, place: Place)
    requires i <= |groups|
    ensures ListEntries(Splice(groups, i, []), place) == Ahead(groups, i, place) + Beyond(groups, i, place)
  {
    SpliceEntries(groups, i, [], place);
    NoEntries(place);
  }

  lemma {:induction false} FoundGroup(groups: seq<Value>, i: nat, group: string, place: Place)
    requires FindGroup(groups, group) == Ok(i) && Strip(group) != ""
    ensures ListEntries(groups, place) ==
            Ahead(groups, i, place) + RuleEntries(RulesOf(Target(groups, group, i)), Strip(group), place) +
            Beyond(groups, i, place)
  {
    if i < |groups| {
      assert groups == Splice(groups, i, [groups[i]]);
      SpliceEntries(groups, i, [groups[i]], place);
      SingleGroup(groups[i], place);
      WithRulesEntries(groups[i], [], group, place);
    } else {
      assert groups == groups[..i];
      NoEntries(place);
    }
  }

  lemma {:induction false} DeletedGroup(groups: seq<Value>, i: nat, group: string, name: string, place: Place)
    requires FindGroup(groups, group) == Ok(i) && Strip(group) != ""
    ensures ListEntries(DeleteGroups(groups, group, name).value.0, place) ==
            Ahead(groups, i, place) +
            RuleEntries(DropRule(RulesOf(Target(groups, group, i)), name), Strip(group), place) +
            Beyond(groups, i, place)
  {
    var target := Target(groups, group, i);
    var left := DropRule(RulesOf(target), name);
    if i == |groups| || !HasRule(RulesOf(target), name) {
      assert left == RulesOf(target);
      FoundGroup(groups, i, group, place);
    } else if left == [] {
      RemovedGroup(groups, i, place);
    } else {
      ReplacedGroup(groups, i, target, left, group, place);
    }
  }

  // An upsert and a deletion both work at one spot of the rules a list offers: after `Left` and
  // before `Right`.

  function Left(groups: seq<Value>, group: string, name: string, place: Place): seq<Entry>
    requires FindGroup(groups, group).Ok?
  {
    var i := FindGroup(groups, group).value;
    var rules := RulesOf(Target(groups, group, i));
    Ahead(groups, i, place) + Before(rules, FirstMatch(rules, name), Strip(group), place)
  }

  function Right(groups: seq<Value>, group: string, name: string, place: Place): seq<Entry>
    requires FindGroup(groups, group).Ok?
  {
    var i := FindGroup(groups, group).value;
    var rules := RulesOf(Target(groups, group, i));
    Behind(rules, FirstMatch(rules, name), Strip(group), place) + Beyond(groups, i, place)
  }

  lemma {:induction false} Regroup<T>(a: seq<T>, b: seq<T>, c: seq<T>, d: seq<T>, e: seq<T>)
    ensures a + (b + c + d) + e == (a + b) + c + (d + e)
    ensures a + (b + d) + e == (a + b) + (d + e)
  {}

  lemma {:induction false} PresentSpot(groups: seq<Value>, group: string, name: string, place: Place)
    requires name != "" && Strip(group) != "" && FindGroup(groups, group).Ok?
    ensures ListEntries(groups, place) ==
            Left(groups, group, name, place) + PresentAt(groups, group, name, place) + Right(groups, group, name, place)
  {
    var i := FindGroup(groups, group).value;
    var rules := RulesOf(Target(groups, group, i));
    var m := FirstMatch(rules, name);
    FoundGroup(groups, i, group, place);
    PresentEntries(rules, name, Strip(group), place);
    Regroup(Ahead(groups, i, place), Before(rules, m, Strip(group), place), PresentIn(rules, name, Strip(group), place),
            Behind(rules, m, Strip(group), place), Beyond(groups, i, place));
  }

  lemma {:induction false} UpsertSpot(groups: seq<Value>, group: string, name: string, payload: seq<Field>,
                                      place: Place)
    requires name != "" && RuleName(Obj(payload)) != "" && Strip(group) != "" && FindGroup(groups, group).Ok?
    ensures ListEntries(UpsertGroups(groups, group, name, payload).value, place) ==
            Left(groups, group, name, place) + [Entry(RuleName(Obj(payload)), Strip(group), Obj(payload), place)] +
            Right(groups, group, name, place)
  {
    var i := FindGroup(groups, group).value;
    var target := Target(groups, group, i);
    var rules := RulesOf(target);
    var m := FirstMatch(rules, name);
    ReplacedGroup(groups, i, target, PutRule(rules, name, payload), group, place);
    PutEntries(rules, name, payload, Strip(group), place);
    Regroup(Ahead(groups, i, place), Before(rules, m, Strip(group), place),
            [Entry(RuleName(Obj(payload)), Strip(group), Obj(payload), place)],
            Behind(rules, m, Strip(group), place), Beyond(groups, i, place));
  }

  lemma {:induction false} DeleteSpot(groups: seq<Value>, group: string, name: string, place: Place)
    requires Strip(group) != "" && FindGroup(groups, group).Ok?
    ensures ListEntries(DeleteGroups(groups, group, name).value.0, place) ==
            Left(groups, group, name, place) + Right(groups, group, name, place)
  {
    var i := FindGroup(groups, group).value;
    var rules := RulesOf(Target(groups, group, i));
    var m := FirstMatch(rules, name);
    DeletedGroup(groups, i, group, name, place);
    DropEntries(rules, name, Strip(group), place);
    Regroup(Ahead(groups, i, place), Before(rules, m, Strip(group), place), [],
            Behind(rules, m, Strip(group), place), Beyond(groups, i, place));
  }

  // ---- The document around one list of groups -----------------------------------------

  function GroupsPart(doc: Value): seq<Entry> { EntriesOf(GroupsOf(doc, Place(Groups, None))) }

  function TopPart(doc: Value): seq<Entry> { GroupEntries(Located(doc, Place(TopRules, None))) }

  function SpecPart(doc: Value): seq<Entry> { EntriesOf(GroupsOf(Get(doc, "spec"), Place(SpecGroups, None))) }

  function MapPart(doc: Value): seq<Entry> { WrapperEntries(AsFields(Get(doc, MAP_KEY))) }

  function WrapperEntry(f: Field): seq<Entry> {
    EntriesOf(GroupsOf(f.value, Place(AdditionalMap, Some(f.key))))
  }

  function WrapperEntries(ruleMap: seq<Field>): seq<Entry> {
    if ruleMap == [] then [] else WrapperEntry(ruleMap[0]) + WrapperEntries(ruleMap[1..])
  }

  /** The rules offered by the wrappers before and after the one of that key. */
  function EarlierWrappers(ruleMap: seq<Field>, key: string): seq<Entry> {
    if ruleMap == [] || ruleMap[0].key == key then []
    else WrapperEntry(ruleMap[0]) + EarlierWrappers(ruleMap[1..], key)
  }

  function LaterWrappers(ruleMap: seq<Field>, key: string): seq<Entry> {
    if ruleMap == [] then []
    else if ruleMap[0].key == key then WrapperEntries(ruleMap[1..])
    else LaterWrappers(ruleMap[1..], key)
  }

  lemma {:induction false} MapPartIs(ruleMap: seq<Field>)
    ensures EntriesOf(WrapperGroups(ruleMap)) == WrapperEntries(ruleMap)
  {
    if ruleMap != [] {
      MapPartIs(ruleMap[1..]);
      EntriesAppend(GroupsOf(ruleMap[0].value, Place(AdditionalMap, Some(ruleMap[0].key))),
                    WrapperGroups(ruleMap[1..]));
    }
  }

  lemma {:induction false} WrapperFirst(first: Field, rest: seq<Field>, key: string)
    ensures WrapperEntries([first] + rest) == WrapperEntry(first) + WrapperEntries(rest)
    ensures first.key != key ==>
              EarlierWrappers([first] + rest, key) == WrapperEntry(first) + EarlierWrappers(rest, key) &&
              LaterWrappers([first] + rest, key) == LaterWrappers(rest, key)
    ensures first.key == key ==>
              EarlierWrappers([first] + rest, key) == [] && LaterWrappers([first] + rest, key) == WrapperEntries(rest)
  {
    assert ([first] + rest)[1..] == rest;
  }

  lemma {:induction false} Prefixed<T>(x: seq<T>, a: seq<T>, b: seq<T>, c: seq<T>)
    ensures x + (a + b + c) == (x + a) + b + c
    ensures x + (a + c) == (x + a) + c
  {}

  lemma {:induction false} WrapperSet(ruleMap: seq<Field>, key: string, value: Value)
    ensures WrapperEntries(Put(ruleMap, key, value)) ==
            EarlierWrappers(ruleMap, key) + WrapperEntry(Field(key, value)) + LaterWrappers(ruleMap, key)
  {
    if ruleMap == [] {
      WrapperFirst(Field(key, value), [], key);
      assert [Field(key, value)] + [] == [Field(key, value)];
    } else {
      var first, rest := ruleMap[0], ruleMap[1..];
      assert ruleMap == [first] + rest;
      WrapperFirst(first, rest, key);
      if first.key == key {
        WrapperFirst(Field(key, value), rest, key);
      } else {
        WrapperSet(rest, key, value);
        WrapperFirst(first, Put(rest, key, value), key);
        Prefixed(WrapperEntry(first), EarlierWrappers(rest, key), WrapperEntry(Field(key, value)),
                 LaterWrappers(rest, key));
      }
    }
  }

  lemma {:induction false} WrapperPopped(ruleMap: seq<Field>, key: string)
    ensures WrapperEntries(Pop(ruleMap, key)) == EarlierWrappers(ruleMap, key) + LaterWrappers(ruleMap, key)
  {
    if ruleMap != [] {
      var first, rest := ruleMap[0], ruleMap[1..];
      assert ruleMap == [first] + rest;
      WrapperFirst(first, rest, key);
      if first.key != key {
        WrapperPopped(rest, key);
        WrapperFirst(first, Pop(rest, key), key);
        Prefixed(WrapperEntry(first), EarlierWrappers(rest, key), [], LaterWrappers(rest, key));
      }
    }
  }

  lemma {:induction false} NoWrapper(key: string)
    ensures WrapperEntry(Field(key, Null)) == []
  {}

  lemma {:induction false} WrapperFound(ruleMap: seq<Field>, key: string)
    ensures WrapperEntries(ruleMap) ==
            EarlierWrappers(ruleMap, key) + WrapperEntry(Field(key, Lookup(ruleMap, key))) + LaterWrappers(ruleMap, key)
  {
    if ruleMap == [] {
      NoWrapper(key);
    } else {
      var first, rest := ruleMap[0], ruleMap[1..];
      assert ruleMap == [first] + rest;
      WrapperFirst(first, rest, key);
      if first.key == key {
        assert first == Field(key, Lookup(ruleMap, key));
      } else {
        WrapperFound(rest, key);
        Prefixed(WrapperEntry(first), EarlierWrappers(rest, key), WrapperEntry(Field(key, Lookup(rest, key))),
                 LaterWrappers(rest, key));
      }
    }
  }

  lemma {:induction false} PopPut(fields: seq<Field>, key: string, value: Value)
    ensures Pop(Put(fields, key, value), key) == Pop(fields, key)
  {
    if fields != [] && fields[0].key != key {
      PopPut(fields[1..], key, value);
    }
  }

  /** The rules offered before and after the list the source points to. */
  function Outside(doc: Value, source: Source): (seq<Entry>, seq<Entry>) {
    match source.format
    case GroupList => ([], [])
    case SpecGroups => (GroupsPart(doc) + TopPart(doc), MapPart(doc))
    case AdditionalMap =>
      var ruleMap := AsFields(Get(doc, MAP_KEY));
      (GroupsPart(doc) + TopPart(doc) + SpecPart(doc) + EarlierWrappers(ruleMap, WrapperKey(source)),
       LaterWrappers(ruleMap, WrapperKey(source)))
    case _ => ([], TopPart(doc) + SpecPart(doc) + MapPart(doc))
  }

  /** Setting one key leaves the parts read from other keys. */
  lemma {:induction false} PartsKept(doc: Value, key: string, value: Value)
    requires doc.Obj?
    ensures var after := Obj(Put(doc.fields, key, value));
            (key != "groups" ==> GroupsPart(after) == GroupsPart(doc)) &&
            (key != "name" && key != "rules" ==> TopPart(after) == TopPart(doc)) &&
            (key != "spec" ==> SpecPart(after) == SpecPart(doc)) &&
            (key != MAP_KEY ==> MapPart(after) == MapPart(doc))
  {
    forall other | other != key ensures Get(Obj(Put(doc.fields, key, value)), other) == Get(doc, other) {
      PutKeepsOthers(doc.fields, key, value, other);
    }
  }

  lemma {:induction false} ObjectParts(doc: Value)
    requires doc.Obj?
    ensures Flatten(doc) == GroupsPart(doc) + TopPart(doc) + SpecPart(doc) + MapPart(doc)
  {
    FlattenOfObject(doc);
    if Get(doc, MAP_KEY).Obj? {
      MapPartIs(Get(doc, MAP_KEY).fields);
    }
  }

  function Items(v: Value): seq<Value> {
    if v.Arr? then v.items else []
  }

  lemma {:induction false} HeldGroups(holder: Value, place: Place)
    ensures EntriesOf(GroupsOf(holder, place)) == ListEntries(Items(Get(holder, "groups")), place)
  {
    NoEntries(place);
  }

  /** The rules of a list document. */
  lemma {:induction false} ListParts(items: seq<Value>)
    ensures Flatten(Arr(items)) == ListEntries(items, Place(GroupList, None))
  {
    NoEntries(Place(GroupList, None));
  }

  lemma {:induction false} Associate<T>(a: seq<T>, b: seq<T>, c: seq<T>, d: seq<T>)
    ensures a + (b + c + d) == (a + b) + c + d
    ensures a + b + c + d == a + (b + c + d)
    ensures a + (b + d) == (a + b) + d
  {}

  /** A document's rules are those of the list the source points to, between the others. */
  lemma {:induction false} ListFound(doc: Value, source: Source)
    requires !source.format.TopRules? && Base(doc, source.format) == doc
    ensures Flatten(doc) ==
            Outside(doc, source).0 + ListEntries(GroupsIn(doc, source), PlaceOf(source)) + Outside(doc, source).1
  {
    match source.format
    case GroupList => ListParts(doc.items);
    case AdditionalMap => WrapperListFound(doc, source);
    case Groups =>
      ObjectParts(doc);
      HeldGroups(doc, PlaceOf(source));
      First(GroupsPart(doc), TopPart(doc), SpecPart(doc), MapPart(doc));
    case SpecGroups => SpecListFound(doc, source);
  }

  lemma {:induction false} First<T>(a: seq<T>, b: seq<T>, c: seq<T>, d: seq<T>)
    ensures a + b + c + d == [] + a + (b + c + d)
  {}

  lemma {:induction false} SpecListFound(doc: Value, source: Source)
    requires source.format.SpecGroups? && doc.Obj?
    ensures Flatten(doc) ==
            Outside(doc, source).0 + ListEntries(GroupsIn(doc, source), PlaceOf(source)) + Outside(doc, source).1
  {
    ObjectParts(doc);
    HeldGroups(Get(doc, "spec"), PlaceOf(source));
  }

  lemma {:induction false} WrapperListFound(doc: Value, source: Source)
    requires source.format.AdditionalMap? && doc.Obj?
    ensures Flatten(doc) ==
            Outside(doc, source).0 + ListEntries(GroupsIn(doc, source), PlaceOf(source)) + Outside(doc, source).1
  {
    var ruleMap, key := AsFields(Get(doc, MAP_KEY)), WrapperKey(source);
    ObjectParts(doc);
    WrapperFound(ruleMap, key);
    HeldGroups(Lookup(ruleMap, key), PlaceOf(source));
    assert Lookup(ruleMap, key) == Get(Get(doc, MAP_KEY), key);
    Associate(GroupsPart(doc) + TopPart(doc) + SpecPart(doc), EarlierWrappers(ruleMap, key),
              WrapperEntry(Field(key, Lookup(ruleMap, key))), LaterWrappers(ruleMap, key));
  }

  /** Writing another list at that path changes nothing outside it. */
  lemma {:induction false} ListSet(doc: Value, source: Source, groups: seq<Value>)
    requires !source.format.TopRules? && Base(doc, source.format) == doc
    ensures Flatten(WithGroups(doc, source, groups)) ==
            Outside(doc, source).0 + ListEntries(groups, PlaceOf(source)) + Outside(doc, source).1
  {
    match source.format
    case GroupList => ListParts(groups);
    case AdditionalMap => WrapperListSet(doc, source, groups);
    case Groups => TopListSet(doc, source, groups);
    case SpecGroups => SpecListSet(doc, source, groups);
  }

  lemma {:induction false} TopListSet(doc: Value, source: Source, groups: seq<Value>)
    requires source.format.Groups? && doc.Obj?
    ensures Flatten(WithGroups(doc, source, groups)) ==
            Outside(doc, source).0 + ListEntries(groups, PlaceOf(source)) + Outside(doc, source).1
  {
    var after := Obj(Put(doc.fields, "groups", Arr(groups)));
    ObjectParts(after);
    PartsKept(doc, "groups", Arr(groups));
    HeldGroups(after, PlaceOf(source));
    assert GroupsPart(after) == ListEntries(groups, PlaceOf(source));
    First(GroupsPart(after), TopPart(doc), SpecPart(doc), MapPart(doc));
  }

  lemma {:induction false} SpecListSet(doc: Value, source: Source, groups: seq<Value>)
    requires source.format.SpecGroups? && doc.Obj?
    ensures Flatten(WithGroups(doc, source, groups)) ==
            Outside(doc, source).0 + ListEntries(groups, PlaceOf(source)) + Outside(doc, source).1
  {
    var spec := Obj(Put(AsFields(Get(doc, "spec")), "groups", Arr(groups)));
    ObjectParts(WithGroups(doc, source, groups));
    PartsKept(doc, "spec", spec);
    HeldGroups(spec, PlaceOf(source));
  }

  lemma {:induction false} WrapperListSet(doc: Value, source: Source, groups: seq<Value>)
    requires source.format.AdditionalMap? && doc.Obj?
    ensures Flatten(WithGroups(doc, source, groups)) ==
            Outside(doc, source).0 + ListEntries(groups, PlaceOf(source)) + Outside(doc, source).1
  {
    var ruleMap, key := AsFields(Get(doc, MAP_KEY)), WrapperKey(source);
    var wrapper := Obj(Put(AsFields(Get(Get(doc, MAP_KEY), key)), "groups", Arr(groups)));
    MapSet(doc, Put(ruleMap, key, wrapper));
    WrapperSet(ruleMap, key, wrapper);
    HeldGroups(wrapper, PlaceOf(source));
    Associate(GroupsPart(doc) + TopPart(doc) + SpecPart(doc), EarlierWrappers(ruleMap, key),
              WrapperEntry(Field(key, wrapper)), LaterWrappers(ruleMap, key));
  }

  lemma {:induction false} MapSet(doc: Value, ruleMap: seq<Field>)
    requires doc.Obj?
    ensures Flatten(Obj(Put(doc.fields, MAP_KEY, Obj(ruleMap)))) ==
            GroupsPart(doc) + TopPart(doc) + SpecPart(doc) + WrapperEntries(ruleMap)
  {
    ObjectParts(Obj(Put(doc.fields, MAP_KEY, Obj(ruleMap))));
    PartsKept(doc, MAP_KEY, Obj(ruleMap));
  }

  lemma {:induction false} RemovedWrapper(doc: Value, source: Source, groups: seq<Value>)
    requires source.format.AdditionalMap? && doc.Obj?
    ensures WithoutWrapper(WithGroups(doc, source, groups), WrapperKey(source)) ==
            Obj(Put(doc.fields, MAP_KEY, Obj(Pop(AsFields(Get(doc, MAP_KEY)), WrapperKey(source)))))
  {
    var ruleMap, key := AsFields(Get(doc, MAP_KEY)), WrapperKey(source);
    var wrapper := Obj(Put(AsFields(Get(Get(doc, MAP_KEY), key)), "groups", Arr(groups)));
    PopPut(ruleMap, key, wrapper);
    PutTwice(doc.fields, MAP_KEY, Obj(Put(ruleMap, key, wrapper)), Obj(Pop(ruleMap, key)));
  }

  /** Removing a wrapper changes nothing outside it. */
  lemma {:induction false} WrapperRemoved(doc: Value, source: Source, groups: seq<Value>)
    requires source.format.AdditionalMap? && doc.Obj?
    ensures Flatten(WithoutWrapper(WithGroups(doc, source, groups), WrapperKey(source))) ==
            Outside(doc, source).0 + Outside(doc, source).1
  {
    var ruleMap, key := AsFields(Get(doc, MAP_KEY)), WrapperKey(source);
    RemovedWrapper(doc, source, groups);
    MapSet(doc, Pop(ruleMap, key));
    WrapperPopped(ruleMap, key);
    Prefixed(GroupsPart(doc) + TopPart(doc) + SpecPart(doc), EarlierWrappers(ruleMap, key), [],
             LaterWrappers(ruleMap, key));
  }

  // ---- Top-level rules ---------------------------------------------------------------

  /** A `rules` document under a new group name and with other rules. */
  lemma {:induction false} TopSet(doc: Value, group: string, rules: seq<Value>)
    requires doc.Obj? && Strip(group) != ""
    ensures Flatten(WithTopRules(doc, group, rules)) ==
            GroupsPart(doc) + RuleEntries(rules, Strip(group), Place(TopRules, None)) + SpecPart(doc) + MapPart(doc)
  {
    var named := Obj(Put(doc.fields, "name", Str(group)));
    PartsKept(doc, "name", Str(group));
    PartsKept(named, "rules", Arr(rules));
    ObjectParts(WithTopRules(doc, group, rules));
    WithRulesEntries(named, rules, group, Place(TopRules, None));
  }

  lemma {:induction false} TopFound(doc: Value)
    requires doc.Obj?
    ensures TopPart(doc) ==
            if Label(Get(doc, "name")) == "" then []
              else RuleEntries(RulesOf(doc), Label(Get(doc, "name")), Place(TopRules, None))
  {}

  /** Rules of a `rules` document replaced, its name kept. */
  lemma {:induction false} TopRulesSet(doc: Value, rules: seq<Value>)
    requires doc.Obj? && Label(Get(doc, "name")) != ""
    ensures Flatten(WithRules(doc, rules)) ==
            GroupsPart(doc) + RuleEntries(rules, Label(Get(doc, "name")), Place(TopRules, None)) + SpecPart(doc) +
            MapPart(doc)
  {
    PartsKept(doc, "rules", Arr(rules));
    PutKeepsOthers(doc.fields, "rules", Arr(rules), "name");
    ObjectParts(WithRules(doc, rules));
    TopFound(WithRules(doc, rules));
  }

  // ---- Upsert ---------------------------------------------------------------------------

  /** The rule an edit would replace or delete, as the document offers it: at most one. */
  function Present(doc: Value, source: Source, group: string, name: string): seq<Entry> {
    var base := Base(doc, source.format);
    if !source.format.TopRules? then PresentAt(GroupsIn(base, source), group, name, PlaceOf(source))
    else if Label(Get(base, "name")) != group then []
    else PresentIn(RulesOf(base), name, Strip(group), PlaceOf(source))
  }

  /** The document is of another kind than the format wants, and offers rules. */
  predicate Discards(doc: Value, source: Source) {
    Base(doc, source.format) != doc && Flatten(doc) != []
  }

  /** A `rules` document without a group name holds rules, which are not offered until it gets one. */
  predicate Reveals(doc: Value, source: Source, name: string) {
    var base := Base(doc, source.format);
    source.format.TopRules? && Label(Get(base, "name")) == "" &&
    RuleEntries(DropRule(RulesOf(base), name), "", PlaceOf(source)) != []
  }

  predicate Named(group: string, name: string, payload: seq<Field>) {
    Strip(group) != "" && name != "" && RuleName(Obj(payload)) != ""
  }

  /** The group a rule's entry names does not change which rules are offered. */
  lemma {:induction false} EntryCount(rules: seq<Value>, a: string, b: string, place: Place)
    ensures |RuleEntries(rules, a, place)| == |RuleEntries(rules, b, place)|
  {
    if rules != [] { EntryCount(rules[1..], a, b, place); }
  }

  // An edit of a document of the right kind works at one spot of what the document offers:
  // after `SpotPre` and before `SpotPost`.

  function SpotPre(doc: Value, source: Source, group: string, name: string): seq<Entry>
    requires !source.format.TopRules? ==> FindGroup(GroupsIn(doc, source), group).Ok?
  {
    if source.format.TopRules? then
      GroupsPart(doc) + Before(RulesOf(doc), FirstMatch(RulesOf(doc), name), group, PlaceOf(source))
    else Outside(doc, source).0 + Left(GroupsIn(doc, source), group, name, PlaceOf(source))
  }

  function SpotPost(doc: Value, source: Source, group: string, name: string): seq<Entry>
    requires !source.format.TopRules? ==> FindGroup(GroupsIn(doc, source), group).Ok?
  {
    if source.format.TopRules? then
      Behind(RulesOf(doc), FirstMatch(RulesOf(doc), name), group, PlaceOf(source)) + (SpecPart(doc) + MapPart(doc))
    else Right(GroupsIn(doc, source), group, name, PlaceOf(source)) + Outside(doc, source).1
  }

  /** The list the source points to can be edited. */
  predicate Reachable(doc: Value, source: Source, group: string) {
    Base(doc, source.format) == doc &&
    if source.format.TopRules? then Label(Get(doc, "name")) == group else FindGroup(GroupsIn(doc, source), group).Ok?
  }

  lemma {:induction false} LabelIsTrimmed(v: Value)
    ensures Strip(Label(v)) == Label(v)
  {
    StripIsTrimmed(if Truthy(v) then TextOf(v) else "");
  }

  lemma {:induction false} SpotFound(doc: Value, source: Source, group: string, name: string)
    requires Strip(group) != "" && name != "" && Reachable(doc, source, group)
    ensures Flatten(doc) ==
            SpotPre(doc, source, group, name) + Present(doc, source, group, name) + SpotPost(doc, source, group, name)
  {
    var place, present := PlaceOf(source), Present(doc, source, group, name);
    if source.format.TopRules? {
      var rules := RulesOf(doc);
      var m := FirstMatch(rules, name);
      LabelIsTrimmed(Get(doc, "name"));
      ObjectParts(doc);
      TopFound(doc);
      PresentEntries(rules, name, group, place);
      Join(GroupsPart(doc), Before(rules, m, group, place), present, Behind(rules, m, group, place), SpecPart(doc),
           MapPart(doc));
    } else {
      var groups := GroupsIn(doc, source);
      ListFound(doc, source);
      PresentSpot(groups, group, name, place);
      Regroup(Outside(doc, source).0, Left(groups, group, name, place), present, Right(groups, group, name, place),
              Outside(doc, source).1);
    }
  }

  lemma {:induction false} SpotUpserted(doc: Value, source: Source, group: string, name: string, payload: seq<Field>)
    requires Named(group, name, payload) && Reachable(doc, source, group)
    ensures Upsert(doc, source, group, name, payload).Ok?
    ensures Flatten(Upsert(doc, source, group, name, payload).value) ==
            SpotPre(doc, source, group, name) + [NewEntry(source, group, payload)] + SpotPost(doc, source, group, name)
  {
    var place, added := PlaceOf(source), [NewEntry(source, group, payload)];
    if source.format.TopRules? {
      var rules := RulesOf(doc);
      var m := FirstMatch(rules, name);
      LabelIsTrimmed(Get(doc, "name"));
      TopSet(doc, group, PutRule(rules, name, payload));
      PutEntries(rules, name, payload, group, place);
      Join(GroupsPart(doc), Before(rules, m, group, place), added, Behind(rules, m, group, place), SpecPart(doc),
           MapPart(doc));
    } else {
      var groups := GroupsIn(doc, source);
      ListSet(doc, source, UpsertGroups(groups, group, name, payload).value);
      UpsertSpot(groups, group, name, payload, place);
      Regroup(Outside(doc, source).0, Left(groups, group, name, place), added, Right(groups, group, name, place),
              Outside(doc, source).1);
    }
  }

  lemma {:induction false} Join<T>(a: seq<T>, b: seq<T>, c: seq<T>, d: seq<T>, e: seq<T>, f: seq<T>)
    ensures a + (b + c + d) + e + f == (a + b) + c + (d + (e + f))
  {}

  /** What an unnamed `rules` document offers once it has a name: its rules around the upserted one. */
  function Revealed(doc: Value, group: string, name: string): (seq<Entry>, seq<Entry>) {
    var rules := RulesOf(doc);
    var m := FirstMatch(rules, name);
    (Before(rules, m, Strip(group), Place(TopRules, None)), Behind(rules, m, Strip(group), Place(TopRules, None)))
  }

  lemma {:induction false} RevealedMeaning(doc: Value, source: Source, group: string, name: string)
    requires source.format.TopRules? && doc.Obj? && Label(Get(doc, "name")) == ""
    ensures Reveals(doc, source, name) <==> |Revealed(doc, group, name).0| + |Revealed(doc, group, name).1| > 0
  {
    DropEntries(RulesOf(doc), name, Strip(group), PlaceOf(source));
    EntryCount(DropRule(RulesOf(doc), name), "", Strip(group), PlaceOf(source));
  }

  lemma {:induction false} DropEmpty<T>(a: seq<T>, b: seq<T>, c: seq<T>)
    ensures a + [] + b + c == a + (b + c)
  {}

  lemma {:induction false} UnnamedOffers(doc: Value)
    requires doc.Obj? && Label(Get(doc, "name")) == ""
    ensures Flatten(doc) == GroupsPart(doc) + (SpecPart(doc) + MapPart(doc))
  {
    ObjectParts(doc);
    TopFound(doc);
    DropEmpty(GroupsPart(doc), SpecPart(doc), MapPart(doc));
  }

  lemma {:induction false} UnnamedUpsert(doc: Value, source: Source, group: string, name: string, payload: seq<Field>)
    requires Named(group, name, payload) && source.format.TopRules? && doc.Obj? && Label(Get(doc, "name")) == ""
    ensures Flatten(Upsert(doc, source, group, name, payload).value) ==
            (GroupsPart(doc) + Revealed(doc, group, name).0) + [NewEntry(source, group, payload)] +
            (Revealed(doc, group, name).1 + (SpecPart(doc) + MapPart(doc)))
  {
    var rules := RulesOf(doc);
    assert Upsert(doc, source, group, name, payload) == Ok(WithTopRules(doc, group, PutRule(rules, name, payload)));
    TopSet(doc, group, PutRule(rules, name, payload));
    PutEntries(rules, name, payload, Strip(group), PlaceOf(source));
    Join(GroupsPart(doc), Revealed(doc, group, name).0, [NewEntry(source, group, payload)],
         Revealed(doc, group, name).1,
         SpecPart(doc), MapPart(doc));
  }

  lemma {:induction false} QuietUpsert(doc: Value, source: Source, group: string, name: string, payload: seq<Field>)
    returns (pre: seq<Entry>, post: seq<Entry>)
    requires Named(group, name, payload) && source.format.TopRules? && doc.Obj? && Label(Get(doc, "name")) == ""
    requires !Reveals(doc, source, name)
    ensures Flatten(doc) == pre + post
    ensures Flatten(Upsert(doc, source, group, name, payload).value) == pre + [NewEntry(source, group, payload)] + post
  {
    pre := GroupsPart(doc) + Revealed(doc, group, name).0;
    post := Revealed(doc, group, name).1 + (SpecPart(doc) + MapPart(doc));
    UnnamedUpsert(doc, source, group, name, payload);
    RevealedMeaning(doc, source, group, name);
    UnnamedOffers(doc);
  }

  /** The document an edit starts from offers the same rules, unless a wrong kind is discarded. */
  lemma {:induction false} BaseOffers(doc: Value, source: Source)
    ensures var base := Base(doc, source.format);
            Base(base, source.format) == base &&
            Flatten(base) == if Base(doc, source.format) == doc then Flatten(doc) else []
  {}

  /**
    An upsert writes one rule at one spot, over the rule of that name if the group has it, and
    leaves every other rule of every shape as it was, in its place; unless a document of the
    wrong kind is discarded or an unnamed `rules` document gets its name.
  */
  lemma {:induction false} UpsertKeepsTheRest(doc: Value, source: Source, group: string, name: string,
                                              payload: seq<Field>)
    returns (pre: seq<Entry>, post: seq<Entry>)
    requires Named(group, name, payload) && Upsert(doc, source, group, name, payload).Ok?
    requires !Discards(doc, source) && !Reveals(doc, source, name)
    ensures Flatten(doc) == pre + Present(doc, source, group, name) + post
    ensures Flatten(Upsert(doc, source, group, name, payload).value) == pre + [NewEntry(source, group, payload)] + post
  {
    var base := Base(doc, source.format);
    BaseOffers(doc, source);
    assert Upsert(doc, source, group, name, payload) == Upsert(base, source, group, name, payload);
    if Reachable(base, source, group) {
      pre, post := SpotPre(base, source, group, name), SpotPost(base, source, group, name);
      SpotFound(base, source, group, name);
      SpotUpserted(base, source, group, name, payload);
    } else {
      pre, post := QuietUpsert(base, source, group, name, payload);
    }
  }

  /** An upsert neither loses nor reveals a rule exactly when nothing is discarded and nothing was hidden. */
  lemma {:induction false} UpsertKeepsTheRestExactly(doc: Value, source: Source, group: string, name: string,
                                                     payload: seq<Field>)
    requires Named(group, name, payload) && Upsert(doc, source, group, name, payload).Ok?
    ensures |Flatten(Upsert(doc, source, group, name, payload).value)| + |Present(doc, source, group, name)| ==
            |Flatten(doc)| + 1 <==>
            !Discards(doc, source) && !Reveals(doc, source, name)
  {
    var base := Base(doc, source.format);
    BaseOffers(doc, source);
    assert Upsert(doc, source, group, name, payload) == Upsert(base, source, group, name, payload);
    assert Present(doc, source, group, name) == Present(base, source, group, name);
    if Reveals(base, source, name) {
      UnnamedOffers(base);
      UnnamedUpsert(base, source, group, name, payload);
      RevealedMeaning(base, source, group, name);
    } else {
      var pre, post := UpsertKeepsTheRest(base, source, group, name, payload);
    }
  }

  // ---- Delete ---------------------------------------------------------------------------

  lemma {:induction false} DeletedExactly(groups: seq<Value>, group: string, name: string, place: Place)
    requires FindGroup(groups, group).Ok?
    ensures DeleteGroups(groups, group, name).value.1 <==> PresentAt(groups, group, name, place) != []
    ensures !DeleteGroups(groups, group, name).value.1 ==> DeleteGroups(groups, group, name).value.0 == groups
  {
    assert RulesOf(NewGroup(group)) == [];
  }

  /** The document left by a deletion from the list shapes. */
  lemma {:induction false} DeletedDocument(doc: Value, source: Source, group: string, name: string)
    requires !source.format.TopRules? && Base(doc, source.format) == doc
    requires DeleteGroups(GroupsIn(doc, source), group, name).Ok? &&
             DeleteGroups(GroupsIn(doc, source), group, name).value.1
    ensures var left := DeleteGroups(GroupsIn(doc, source), group, name).value.0;
            var edited := WithGroups(doc, source, left);
            Delete(doc, source, group, name) ==
              Ok((if source.format.AdditionalMap? && left == [] then WithoutWrapper(edited, WrapperKey(source))
                  else edited, true))
  {}

  lemma {:induction false} DeletedList(doc: Value, source: Source, left: seq<Value>)
    requires !source.format.TopRules? && Base(doc, source.format) == doc
    ensures var edited := WithGroups(doc, source, left);
            Flatten(if source.format.AdditionalMap? && left == [] then WithoutWrapper(edited, WrapperKey(source))
                    else edited) ==
            Outside(doc, source).0 + ListEntries(left, PlaceOf(source)) + Outside(doc, source).1
  {
    if source.format.AdditionalMap? && left == [] {
      WrapperRemoved(doc, source, left);
      NoEntries(PlaceOf(source));
    } else {
      ListSet(doc, source, left);
    }
  }

  /** The deletion takes out what is present at the spot. */
  lemma {:induction false} SpotDeleted(doc: Value, source: Source, group: string, name: string)
    requires Strip(group) != "" && name != "" && Reachable(doc, source, group) &&
             Present(doc, source, group, name) != []
    ensures Delete(doc, source, group, name).Ok? && Delete(doc, source, group, name).value.1
    ensures Flatten(Delete(doc, source, group, name).value.0) ==
            SpotPre(doc, source, group, name) + SpotPost(doc, source, group, name)
  {
    var place := PlaceOf(source);
    if source.format.TopRules? {
      var rules := RulesOf(doc);
      var m := FirstMatch(rules, name);
      LabelIsTrimmed(Get(doc, "name"));
      TopRulesSet(doc, DropRule(rules, name));
      DropEntries(rules, name, group, place);
      JoinGap(GroupsPart(doc), Before(rules, m, group, place), Behind(rules, m, group, place), SpecPart(doc),
              MapPart(doc));
    } else {
      var groups := GroupsIn(doc, source);
      DeletedExactly(groups, group, name, place);
      DeletedDocument(doc, source, group, name);
      DeletedList(doc, source, DeleteGroups(groups, group, name).value.0);
      DeleteSpot(groups, group, name, place);
      Regroup(Outside(doc, source).0, Left(groups, group, name, place), [], Right(groups, group, name, place),
              Outside(doc, source).1);
    }
  }

  /** Without a present rule a deletion does nothing. */
  lemma {:induction false} NothingDeleted(doc: Value, source: Source, group: string, name: string)
    requires Delete(doc, source, group, name).Ok? && Present(doc, source, group, name) == []
    ensures Delete(doc, source, group, name) == Ok((doc, false))
  {
    if Base(doc, source.format) == doc && !source.format.TopRules? {
      DeletedExactly(GroupsIn(doc, source), group, name, PlaceOf(source));
    }
  }

  lemma {:induction false} JoinGap<T>(a: seq<T>, b: seq<T>, d: seq<T>, e: seq<T>, f: seq<T>)
    ensures a + (b + d) + e + f == (a + b) + (d + (e + f))
  {}

  lemma {:induction false} PresentIsReachable(doc: Value, source: Source, group: string, name: string)
    requires Strip(group) != "" && Delete(doc, source, group, name).Ok? && Present(doc, source, group, name) != []
    ensures Reachable(doc, source, group)
  {
    BaseOffers(doc, source);
    if Base(doc, source.format) != doc {
      NothingInEmpty(source, group, name);
    }
  }

  /** The document that replaces one of a wrong kind holds no rule. */
  lemma {:induction false} NothingInEmpty(source: Source, group: string, name: string)
    requires Strip(group) != ""
    ensures Present(Base(Null, source.format), source, group, name) == []
  {}

  /**
    A deletion removes exactly one offered rule, the one of that group and name, and says so; it
    says no exactly when there is none, and then the document is as it was.
  */
  lemma {:induction false} DeleteRemovesOne(doc: Value, source: Source, group: string, name: string)
    returns (pre: seq<Entry>, post: seq<Entry>)
    requires Strip(group) != "" && name != "" && Delete(doc, source, group, name).Ok?
    ensures Delete(doc, source, group, name).value.1 <==> Present(doc, source, group, name) != []
    ensures !Delete(doc, source, group, name).value.1 ==> Delete(doc, source, group, name).value.0 == doc
    ensures Flatten(doc) == pre + Present(doc, source, group, name) + post
    ensures Flatten(Delete(doc, source, group, name).value.0) == pre + post
  {
    pre, post := Flatten(doc), [];
    if Present(doc, source, group, name) == [] {
      NothingDeleted(doc, source, group, name);
    } else {
      PresentIsReachable(doc, source, group, name);
      pre, post := SpotPre(doc, source, group, name), SpotPost(doc, source, group, name);
      SpotFound(doc, source, group, name);
      SpotDeleted(doc, source, group, name);
    }
  }

  /** What `Present` names is an offered rule of that name, group and shape. */
  lemma {:induction false} PresentMeaning(doc: Value, source: Source, group: string, name: string)
    ensures forall e :: e in Present(doc, source, group, name) ==>
              e.name == name && e.group == Strip(group) && e.place == PlaceOf(source)
    ensures |Present(doc, source, group, name)| <= 1
  {}

  // ---- Upsert and delete together ---------------------------------------------------

  lemma {:induction false} SetTwice(doc: Value, source: Source, first: seq<Value>, second: seq<Value>)
    requires !source.format.TopRules? && Base(doc, source.format) == doc
    ensures WithGroups(WithGroups(doc, source, first), source, second) == WithGroups(doc, source, second)
  {
    match source.format
    case GroupList =>
    case Groups => PutTwice(doc.fields, "groups", Arr(first), Arr(second));
    case SpecGroups =>
      var spec := AsFields(Get(doc, "spec"));
      PutTwice(spec, "groups", Arr(first), Arr(second));
      PutTwice(doc.fields, "spec", Obj(Put(spec, "groups", Arr(first))), Obj(Put(spec, "groups", Arr(second))));
    case AdditionalMap =>
      var ruleMap, key := AsFields(Get(doc, MAP_KEY)), WrapperKey(source);
      var wrapper := AsFields(Get(Get(doc, MAP_KEY), key));
      var one, two := Obj(Put(wrapper, "groups", Arr(first))), Obj(Put(wrapper, "groups", Arr(second)));
      PutTwice(wrapper, "groups", Arr(first), Arr(second));
      PutTwice(ruleMap, key, one, two);
      PutTwice(doc.fields, MAP_KEY, Obj(Put(ruleMap, key, one)), Obj(Put(ruleMap, key, two)));
  }

  /** A second edit of the list finds the group where the first put it. */
  lemma {:induction false} UpsertedGroup(groups: seq<Value>, group: string, name: string, payload: seq<Field>)
    requires FindGroup(groups, group).Ok?
    ensures var i := FindGroup(groups, group).value;
            var edited := UpsertGroups(groups, group, name, payload).value;
            FindGroup(edited, group) == Ok(i) && i < |edited| && edited[..i] == groups[..i] &&
            edited[i + 1..] == (if i < |groups| then groups[i + 1..] else []) &&
            RulesOf(edited[i]) == PutRule(RulesOf(Target(groups, group, i)), name, payload)
  {
    var i := FindGroup(groups, group).value;
    var target := Target(groups, group, i);
    var edited := UpsertGroups(groups, group, name, payload).value;
    PutKeepsOthers(target.fields, "rules", Arr(PutRule(RulesOf(target), name, payload)), "name");
    FindGroupIs(edited, group, i);
  }

  lemma {:induction false} PutRuleTwice(rules: seq<Value>, name: string, payload: seq<Field>)
    ensures PutRule(PutRule(rules, name, payload), name, payload) == PutRule(rules, name, payload) <==>
            RuleName(Obj(payload)) == name
  {
    var i, put := FirstMatch(rules, name), PutRule(rules, name, payload);
    if RuleName(Obj(payload)) == name {
      FirstMatchIs(put, name, i);
    } else {
      var j := FirstMatch(put, name);
      if j < |put| {
        assert PutRule(put, name, payload)[j] != put[j];
      }
    }
  }

  lemma {:induction false} UpsertGroupsTwice(groups: seq<Value>, group: string, name: string, payload: seq<Field>)
    requires FindGroup(groups, group).Ok?
    ensures var edited := UpsertGroups(groups, group, name, payload).value;
            UpsertGroups(edited, group, name, payload).Ok? &&
            (UpsertGroups(edited, group, name, payload).value == edited <==> RuleName(Obj(payload)) == name)
  {
    var i := FindGroup(groups, group).value;
    var target := Target(groups, group, i);
    var edited := UpsertGroups(groups, group, name, payload).value;
    UpsertedGroup(groups, group, name, payload);
    var rules := RulesOf(edited[i]);
    var again := UpsertGroups(edited, group, name, payload).value;
    PutRuleTwice(RulesOf(target), name, payload);
    PutTwice(target.fields, "rules", Arr(rules), Arr(PutRule(rules, name, payload)));
    assert again[i] == WithRules(target, PutRule(rules, name, payload));
    assert edited[i] == WithRules(target, rules);
    if PutRule(rules, name, payload) == rules {
      assert again == edited[..i] + [edited[i]] + edited[i + 1..] == edited;
    } else {
      assert RulesOf(again[i]) != RulesOf(edited[i]);
    }
  }

  lemma {:induction false} TopUpsertTwice(doc: Value, source: Source, group: string, name: string, payload: seq<Field>)
    requires source.format.TopRules? && doc.Obj? && Upsert(doc, source, group, name, payload).Ok?
    ensures var once := Upsert(doc, source, group, name, payload).value;
            Upsert(once, source, group, name, payload) == Ok(once) <==>
            RuleName(Obj(payload)) == name && (Strip(group) == group || Strip(group) == "")
  {
    var rules := PutRule(RulesOf(doc), name, payload);
    var again := PutRule(rules, name, payload);
    var once := WithTopRules(doc, group, rules);
    var named := Put(doc.fields, "name", Str(group));
    PutKeepsOthers(named, "rules", Arr(rules), "name");
    assert Label(Str(group)) == Strip(group) by { assert group == "" ==> Strip(group) == ""; }
    PutRuleTwice(RulesOf(doc), name, payload);
    PutBack(once.fields, "name");
    PutTwice(named, "rules", Arr(rules), Arr(again));
    assert WithTopRules(once, group, again) == WithTopRules(doc, group, again);
    assert RulesOf(WithTopRules(doc, group, again)) == again;
  }

  lemma {:induction false} ListUpsertTwice(doc: Value, source: Source, group: string, name: string, payload: seq<Field>)
    requires !source.format.TopRules? && Base(doc, source.format) == doc &&
             Upsert(doc, source, group, name, payload).Ok?
    ensures var once := Upsert(doc, source, group, name, payload).value;
            Upsert(once, source, group, name, payload) == Ok(once) <==> RuleName(Obj(payload)) == name
  {
    var edited := UpsertGroups(GroupsIn(doc, source), group, name, payload).value;
    var once := WithGroups(doc, source, edited);
    UpsertGroupsTwice(GroupsIn(doc, source), group, name, payload);
    var again := UpsertGroups(edited, group, name, payload).value;
    SetTwice(doc, source, edited, again);
    assert Base(once, source.format) == once && GroupsIn(once, source) == edited;
    assert Upsert(once, source, group, name, payload) == Ok(WithGroups(doc, source, again));
    assert ListAt(WithGroups(doc, source, again), source) == Arr(again);
  }

  /**
    A repeated upsert changes nothing exactly when the payload bears the name it is filed under;
    in a `rules` document the group name must also be free of blanks at its ends.
  */
  lemma {:induction false} UpsertIdempotentExactly(doc: Value, source: Source, group: string, name: string,
                                                   payload: seq<Field>)
    requires Upsert(doc, source, group, name, payload).Ok?
    ensures var once := Upsert(doc, source, group, name, payload).value;
            Upsert(once, source, group, name, payload) == Ok(once) <==>
            RuleName(Obj(payload)) == name && (source.format.TopRules? ==> Strip(group) == group || Strip(group) == "")
  {
    var base := Base(doc, source.format);
    BaseOffers(doc, source);
    assert Upsert(doc, source, group, name, payload) == Upsert(base, source, group, name, payload);
    if source.format.TopRules? {
      TopUpsertTwice(base, source, group, name, payload);
    } else {
      ListUpsertTwice(base, source, group, name, payload);
    }
  }

  /** The group an upsert would write to has no rule of that name. */
  predicate Fresh(doc: Value, source: Source, group: string, name: string) {
    var base := Base(doc, source.format);
    if source.format.TopRules? then !HasRule(RulesOf(base), name)
    else
      var groups := GroupsIn(base, source);
      FindGroup(groups, group).Ok? && !HasRule(RulesOf(Target(groups, group, FindGroup(groups, group).value)), name)
  }

  lemma {:induction false} AppendedRule(rules: seq<Value>, name: string, payload: seq<Field>)
    requires !HasRule(rules, name) && RuleName(Obj(payload)) == name
    ensures var put := PutRule(rules, name, payload);
            FirstMatch(put, name) == |rules| && HasRule(put, name) && put[..|rules|] == rules &&
            DropRule(put, name) == rules
  {
    FirstMatchIs(PutRule(rules, name, payload), name, |rules|);
  }

  lemma {:induction false} SameSides(groups: seq<Value>, group: string, name: string, payload: seq<Field>, place: Place)
    requires RuleName(Obj(payload)) == name
    requires FindGroup(groups, group).Ok? &&
             !HasRule(RulesOf(Target(groups, group, FindGroup(groups, group).value)), name)
    ensures var edited := UpsertGroups(groups, group, name, payload).value;
            FindGroup(edited, group).Ok? && FindGroup(edited, group).value < |edited| &&
            HasRule(RulesOf(edited[FindGroup(edited, group).value]), name) &&
            Left(edited, group, name, place) == Left(groups, group, name, place) &&
            Right(edited, group, name, place) == Right(groups, group, name, place)
  {
    var i := FindGroup(groups, group).value;
    var rules := RulesOf(Target(groups, group, i));
    UpsertedGroup(groups, group, name, payload);
    AppendedRule(rules, name, payload);
    assert rules[..|rules|] == rules;
    NoEntries(place);
  }

  lemma {:induction false} GroupsUndone(groups: seq<Value>, group: string, name: string, payload: seq<Field>,
                                        place: Place)
    requires Named(group, name, payload) && RuleName(Obj(payload)) == name
    requires FindGroup(groups, group).Ok? &&
             !HasRule(RulesOf(Target(groups, group, FindGroup(groups, group).value)), name)
    ensures var edited := UpsertGroups(groups, group, name, payload).value;
            DeleteGroups(edited, group, name).Ok? && DeleteGroups(edited, group, name).value.1 &&
            ListEntries(DeleteGroups(edited, group, name).value.0, place) == ListEntries(groups, place)
  {
    var edited := UpsertGroups(groups, group, name, payload).value;
    SameSides(groups, group, name, payload, place);
    DeletedExactly(edited, group, name, place);
    DeleteSpot(edited, group, name, place);
    AbsentSpot(groups, group, name, place);
  }

  lemma {:induction false} AbsentSpot(groups: seq<Value>, group: string, name: string, place: Place)
    requires name != "" && Strip(group) != "" && FindGroup(groups, group).Ok? &&
             PresentAt(groups, group, name, place) == []
    ensures ListEntries(groups, place) == Left(groups, group, name, place) + Right(groups, group, name, place)
  {
    PresentSpot(groups, group, name, place);
  }

  lemma {:induction false} ListUndone(doc: Value, source: Source, group: string, name: string, payload: seq<Field>)
    requires Named(group, name, payload) && RuleName(Obj(payload)) == name && Fresh(doc, source, group, name)
    requires !source.format.TopRules? && Base(doc, source.format) == doc
    ensures Upsert(doc, source, group, name, payload).Ok?
    ensures var removed := Delete(Upsert(doc, source, group, name, payload).value, source, group, name);
            removed.Ok? && removed.value.1 && Flatten(removed.value.0) == Flatten(doc)
  {
    var groups := GroupsIn(doc, source);
    var edited := UpsertGroups(groups, group, name, payload).value;
    var once := WithGroups(doc, source, edited);
    assert Base(once, source.format) == once && GroupsIn(once, source) == edited;
    GroupsUndone(groups, group, name, payload, PlaceOf(source));
    var left := DeleteGroups(edited, group, name).value.0;
    DeletedDocument(once, source, group, name);
    SetTwice(doc, source, edited, left);
    DeletedList(doc, source, left);
    ListFound(doc, source);
  }

  /** What a deletion does to a `rules` document just written. */
  lemma {:induction false} TopDeleted(doc: Value, source: Source, group: string, name: string, payload: seq<Field>)
    requires Strip(group) != "" && RuleName(Obj(payload)) == name && Fresh(doc, source, group, name)
    requires source.format.TopRules? && doc.Obj?
    ensures Delete(WithTopRules(doc, group, PutRule(RulesOf(doc), name, payload)), source, group, name) ==
            if Strip(group) == group then Ok((WithTopRules(doc, group, RulesOf(doc)), true))
            else Ok((WithTopRules(doc, group, PutRule(RulesOf(doc), name, payload)), false))
  {
    var rules := RulesOf(doc);
    var put := PutRule(rules, name, payload);
    var named := Put(doc.fields, "name", Str(group));
    AppendedRule(rules, name, payload);
    PutKeepsOthers(named, "rules", Arr(put), "name");
    PutTwice(named, "rules", Arr(put), Arr(rules));
    assert Label(Str(group)) == Strip(group) by { assert group != ""; }
  }

  lemma {:induction false} TopUndone(doc: Value, source: Source, group: string, name: string, payload: seq<Field>)
    requires Named(group, name, payload) && RuleName(Obj(payload)) == name && Fresh(doc, source, group, name)
    requires source.format.TopRules? && doc.Obj? && Upsert(doc, source, group, name, payload).Ok?
    ensures var removed := Delete(Upsert(doc, source, group, name, payload).value, source, group, name);
            removed.Ok? && (removed.value.1 <==> Strip(group) == group) &&
            (removed.value.1 ==> (Flatten(removed.value.0) == Flatten(doc) <==> !Reveals(doc, source, name)))
  {
    TopDeleted(doc, source, group, name, payload);
    if Strip(group) == group {
      TopSet(doc, group, RulesOf(doc));
      TopEmptied(doc, source, group, name);
    }
  }

  /** Naming an unnamed document shows what it hid; naming a named one the same changes nothing. */
  lemma {:induction false} TopEmptied(doc: Value, source: Source, group: string, name: string)
    requires Strip(group) == group != "" && Fresh(doc, source, group, name) && source.format.TopRules? && doc.Obj?
    requires Label(Get(doc, "name")) == "" || Label(Get(doc, "name")) == group
    ensures GroupsPart(doc) + RuleEntries(RulesOf(doc), group, Place(TopRules, None)) + SpecPart(doc) + MapPart(doc) ==
            Flatten(doc) <==>
            !Reveals(doc, source, name)
  {
    ObjectParts(doc);
    TopFound(doc);
    EntryCount(RulesOf(doc), "", group, PlaceOf(source));
  }

  /**
    Deleting a freshly upserted rule restores the rules the document offers, exactly when the
    upsert discarded nothing and revealed nothing, and, in a `rules` document, the group name has
    no blanks at its ends.
  */
  lemma {:induction false} DeleteUndoesUpsertExactly(doc: Value, source: Source, group: string, name: string,
                                                     payload: seq<Field>)
    requires Named(group, name, payload) && RuleName(Obj(payload)) == name && Fresh(doc, source, group, name)
    requires Upsert(doc, source, group, name, payload).Ok?
    ensures var removed := Delete(Upsert(doc, source, group, name, payload).value, source, group, name);
            removed.Ok? &&
            (removed.value.1 && Flatten(removed.value.0) == Flatten(doc) <==>
             !Discards(doc, source) && !Reveals(doc, source, name) &&
             (source.format.TopRules? ==> Strip(group) == group))
  {
    var base := Base(doc, source.format);
    BaseOffers(doc, source);
    assert Upsert(doc, source, group, name, payload) == Upsert(base, source, group, name, payload);
    if source.format.TopRules? {
      TopUndone(base, source, group, name, payload);
    } else {
      ListUndone(base, source, group, name, payload);
    }
  }
}
