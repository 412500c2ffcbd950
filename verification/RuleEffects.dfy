/** What an edit of a rule document leaves of its other fields, and where the edited rule is found again. */
module RuleEffects {
  import opened Wrappers
  import opened Text
  import opened Documents
  import opened RuleEditor
  import opened RuleTheorems
  import opened RuleIndex

  // ---- The fields off the path --------------------------------------------------------------

  ghost predicate SameBut(before: Value, after: Value, key: string) {
    forall k :: k != key ==> Get(after, k) == Get(before, k)
  }

  /** Off the path that leads to the format's list of groups every field is what it was. */
  ghost predicate PathKept(before: Value, after: Value, source: Source) {
    match source.format
    case GroupList => true
    case SpecGroups => SameBut(before, after, "spec") && SameBut(Get(before, "spec"), Get(after, "spec"), "groups")
    case AdditionalMap =>
      SameBut(before, after, MAP_KEY) &&
      SameBut(Get(before, MAP_KEY), Get(after, MAP_KEY), WrapperKey(source)) &&
      SameBut(Get(Get(before, MAP_KEY), WrapperKey(source)), Get(Get(after, MAP_KEY), WrapperKey(source)), "groups")
    case _ => SameBut(before, after, "groups")
  }

  lemma {:induction false} PutKeepsFields(before: Value, key: string, value: Value)
    ensures SameBut(before, Obj(Put(AsFields(before), key, value)), key)
  {
    forall k | k != key ensures Lookup(Put(AsFields(before), key, value), k) == Lookup(AsFields(before), k) {
      PutKeepsOthers(AsFields(before), key, value, k);
    }
  }

  lemma {:induction false} PopKeepsFields(fields: seq<Field>, key: string, k: string)
    requires k != key
    ensures Lookup(Pop(fields, key), k) == Lookup(fields, k)
  {
    if fields != [] && fields[0].key != key { PopKeepsFields(fields[1..], key, k); }
  }

  lemma {:induction false} WrittenPathKept(doc: Value, source: Source, groups: seq<Value>)
    ensures PathKept(doc, WithGroups(doc, source, groups), source)
  {
    match source.format
    case GroupList =>
    case SpecGroups =>
      PutKeepsFields(Get(doc, "spec"), "groups", Arr(groups));
      PutKeepsFields(doc, "spec", Obj(Put(AsFields(Get(doc, "spec")), "groups", Arr(groups))));
    case AdditionalMap =>
      var ruleMap := Get(doc, MAP_KEY);
      var wrapper := Obj(Put(AsFields(Get(ruleMap, WrapperKey(source))), "groups", Arr(groups)));
      PutKeepsFields(Get(ruleMap, WrapperKey(source)), "groups", Arr(groups));
      PutKeepsFields(ruleMap, WrapperKey(source), wrapper);
      PutKeepsFields(doc, MAP_KEY, Obj(Put(AsFields(ruleMap), WrapperKey(source), wrapper)));
    case _ => PutKeepsFields(doc, "groups", Arr(groups));
  }

  /** The group after an edit: new rules, and otherwise the group it was. */
  ghost predicate GroupKept(before: Value, after: Value, rules: seq<Value>) {
    after.Obj? && Get(after, "rules") == Arr(rules) && SameBut(before, after, "rules")
  }

  lemma {:induction false} WithRulesKept(holder: Value, rules: seq<Value>)
    requires holder.Obj?
    ensures GroupKept(holder, WithRules(holder, rules), rules)
  {
    PutKeepsFields(holder, "rules", Arr(rules));
  }

  /** An upsert keeps the other groups, the other fields of its group, and every field off its path. */
  lemma {:induction false} UpsertKeepsFields(doc: Value, source: Source, group: string, name: string,
                                             payload: seq<Field>)
    requires Upsert(doc, source, group, name, payload).Ok?
    ensures var base, after := Base(doc, source.format), Upsert(doc, source, group, name, payload).value;
            if source.format.TopRules? then
              Get(after, "name") == Str(group) && Get(after, "rules") == Arr(PutRule(RulesOf(base), name, payload)) &&
              forall k :: k != "name" && k != "rules" ==> Get(after, k) == Get(base, k)
            else
              FindGroup(GroupsIn(base, source), group).Ok? && PathKept(base, after, source) &&
              var i, groups, edited :=
                FindGroup(GroupsIn(base, source), group).value, GroupsIn(base, source), GroupsIn(after, source);
              i < |edited| && edited == Splice(groups, i, [edited[i]]) &&
              (i < |groups| ==> GroupKept(groups[i], edited[i], PutRule(RulesOf(groups[i]), name, payload))) &&
              (i == |groups| ==> edited[i] == Obj([Field("name", Str(group)), Field("rules", Arr([Obj(payload)]))]))
  {
    var base := Base(doc, source.format);
    if source.format.TopRules? {
      var named := Put(AsFields(base), "name", Str(group));
      PutKeepsFields(base, "name", Str(group));
      PutKeepsFields(Obj(named), "rules", Arr(PutRule(RulesOf(base), name, payload)));
    } else {
      var groups := GroupsIn(base, source);
      var i := FindGroup(groups, group).value;
      var edited := UpsertGroups(groups, group, name, payload).value;
      WrittenPathKept(base, source, edited);
      assert edited[i] ==
             WithRules(Target(groups, group, i), PutRule(RulesOf(Target(groups, group, i)), name, payload));
      if i < |groups| {
        WithRulesKept(groups[i], PutRule(RulesOf(groups[i]), name, payload));
      } else {
        NewGroupWritten(group, name, payload);
      }
    }
  }

  lemma {:induction false} NewGroupWritten(group: string, name: string, payload: seq<Field>)
    ensures WithRules(NewGroup(group), PutRule(RulesOf(NewGroup(group)), name, payload)) ==
            Obj([Field("name", Str(group)), Field("rules", Arr([Obj(payload)]))])
  {
    var fields := [Field("name", Str(group)), Field("rules", Arr([]))];
    assert fields[1..] == [Field("rules", Arr([]))];
    assert Put(fields[1..], "rules", Arr([Obj(payload)])) == [Field("rules", Arr([Obj(payload)]))];
    assert [] + [Obj(payload)] == [Obj(payload)];
  }

  /** The groups a deletion leaves: an emptied one goes, any other keeps its fields. */
  ghost predicate GroupsLeft(groups: seq<Value>, left: seq<Value>, i: nat, name: string) {
    i < |groups| &&
    if |RulesOf(groups[i])| == 1 then left == groups[..i] + groups[i + 1..]
    else
      |left| == |groups| && left == groups[i := left[i]] &&
      GroupKept(groups[i], left[i], DropRule(RulesOf(groups[i]), name))
  }

  lemma {:induction false} GroupsLeftAt(groups: seq<Value>, i: nat, name: string)
    requires i < |groups| && groups[i].Obj? && DeleteAt(groups, i, name).1
    ensures GroupsLeft(groups, DeleteAt(groups, i, name).0, i, name)
  {
    WithRulesKept(groups[i], DropRule(RulesOf(groups[i]), name));
  }

  /** A deletion takes an emptied group and an emptied wrapper with it, and keeps every other field. */
  lemma {:induction false} DeleteKeepsFields(doc: Value, source: Source, group: string, name: string)
    returns (left: seq<Value>)
    requires Delete(doc, source, group, name).Ok? && Delete(doc, source, group, name).value.1
    ensures var after := Delete(doc, source, group, name).value.0;
            if source.format.TopRules? then GroupKept(doc, after, DropRule(RulesOf(doc), name))
            else
              FindGroup(GroupsIn(doc, source), group).Ok? &&
              GroupsLeft(GroupsIn(doc, source), left, FindGroup(GroupsIn(doc, source), group).value, name) &&
              if source.format.AdditionalMap? && left == [] then
                SameBut(doc, after, MAP_KEY) &&
                AsFields(Get(after, MAP_KEY)) == Pop(AsFields(Get(doc, MAP_KEY)), WrapperKey(source))
              else GroupsIn(after, source) == left && PathKept(doc, after, source)
  {
    left := [];
    if source.format.TopRules? {
      WithRulesKept(doc, DropRule(RulesOf(doc), name));
    } else {
      var groups := GroupsIn(doc, source);
      left := DeleteGroups(groups, group, name).value.0;
      GroupsLeftAt(groups, FindGroup(groups, group).value, name);
      WrittenPathKept(doc, source, left);
      if source.format.AdditionalMap? && left == [] { WrapperGone(doc, source, left); }
    }
  }

  lemma {:induction false} WrapperGone(doc: Value, source: Source, left: seq<Value>)
    requires source.format.AdditionalMap?
    ensures var after := WithoutWrapper(WithGroups(doc, source, left), WrapperKey(source));
            SameBut(doc, after, MAP_KEY) &&
            AsFields(Get(after, MAP_KEY)) == Pop(AsFields(Get(doc, MAP_KEY)), WrapperKey(source))
  {
    var edited := WithGroups(doc, source, left);
    var ruleMap := AsFields(Get(doc, MAP_KEY));
    WrittenPathKept(doc, source, left);
    PutKeepsFields(edited, MAP_KEY, Obj(Pop(AsFields(Get(edited, MAP_KEY)), WrapperKey(source))));
    PopPut(ruleMap, WrapperKey(source),
           Obj(Put(AsFields(Get(Get(doc, MAP_KEY), WrapperKey(source))), "groups", Arr(left))));
  }

  // ---- Finding the rule again -----------------------------------------------------------------

  lemma {:induction false} UpsertOffers(doc: Value, source: Source, group: string, name: string, payload: seq<Field>)
    requires Named(group, name, payload) && Upsert(doc, source, group, name, payload).Ok?
    ensures NewEntry(source, group, payload) in Flatten(Upsert(doc, source, group, name, payload).value)
  {
    var base := Base(doc, source.format);
    BaseOffers(doc, source);
    assert Upsert(doc, source, group, name, payload) == Upsert(base, source, group, name, payload);
    if Reachable(base, source, group) {
      SpotUpserted(base, source, group, name, payload);
    } else {
      UnnamedUpsert(base, source, group, name, payload);
    }
  }

  /**
    An upserted rule is found again where it was put: the index of the file holds it under its own name, in its
    group, with the very source it was filed under; a wrapper that was not named is named after the file.
  */
  lemma {:induction false} UpsertedIsIndexed(doc: Value, source: Source, group: string, name: string,
                                             payload: seq<Field>)
    requires Named(group, name, payload) && Upsert(doc, source, group, name, payload).Ok?
    requires IndexFrom(map[], [Parsed(source.path, Upsert(doc, source, group, name, payload).value)]).Ok?
    ensures var index :=
              IndexFrom(map[], [Parsed(source.path, Upsert(doc, source, group, name, payload).value)]).value;
            RuleName(Obj(payload)) in index &&
            var record := index[RuleName(Obj(payload))];
            record.group == Strip(group) && record.rule == Obj(payload) &&
            record.source.path == source.path && record.source.format == source.format &&
            (!source.format.AdditionalMap? ==> record.source.wrapperKey.None?) &&
            (source.format.AdditionalMap? ==>
              if source.wrapperKey.Some? && source.wrapperKey.value != "" then record.source == source
              else record.source.wrapperKey == Some(DefaultWrapperKey(source.path)))
  {
    var edited := Upsert(doc, source, group, name, payload).value;
    var e := NewEntry(source, group, payload);
    UpsertOffers(doc, source, group, name, payload);
    IndexMeaning([Parsed(source.path, edited)]);
    var entries := Flatten(edited);
    var i :| 0 <= i < |entries| && entries[i] == e;
    assert FiledRules(source.path, entries)[i] == FiledAs(source.path, e);
    assert AllFiled([Parsed(source.path, edited)]) == FiledRules(source.path, entries) + AllFiled([]);
    assert FiledAs(source.path, e) in AllFiled([Parsed(source.path, edited)]);
  }
}
