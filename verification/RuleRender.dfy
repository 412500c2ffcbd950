/**
  Rendering a document for the rules that share a repository file, and the round trip through the
  index (api/services/alert_rule_repo.py).
*/
module RuleRender {
  import opened Wrappers
  import opened Text
  import opened Documents
  import opened RuleEditor
  import opened RuleTheorems
  import opened RuleIndex

  /** A group under construction; a list of them is the dictionary of groups by name. */
  datatype Group = Group(name: string, rules: seq<Value>)

  /** The groups under construction for one wrapper key. */
  datatype Wrapper = Wrapper(key: string, groups: seq<Group>)

  /** `groups.setdefault(name, {...})["rules"].append(rule)` */
  function Add(groups: seq<Group>, name: string, rule: Value): seq<Group> {
    if groups == [] then [Group(name, [rule])]
    else if groups[0].name == name then [Group(name, groups[0].rules + [rule])] + groups[1..]
    else [groups[0]] + Add(groups[1..], name, rule)
  }

  function AddWrapped(wrappers: seq<Wrapper>, key: string, name: string, rule: Value): seq<Wrapper> {
    if wrappers == [] then [Wrapper(key, Add([], name, rule))]
    else if wrappers[0].key == key then [Wrapper(key, Add(wrappers[0].groups, name, rule))] + wrappers[1..]
    else [wrappers[0]] + AddWrapped(wrappers[1..], key, name, rule)
  }

  function Grouped(records: seq<Record>): seq<Group> {
    if records == [] then []
    else
      var last := records[|records| - 1];
      Add(Grouped(records[..|records| - 1]), last.group, last.rule)
  }

  function KeyIn(record: Record, path: string): string {
    WrapperKey(record.source.(path := path))
  }

  function Wrapped(records: seq<Record>, path: string): seq<Wrapper> {
    if records == [] then []
    else
      var last := records[|records| - 1];
      AddWrapped(Wrapped(records[..|records| - 1], path), KeyIn(last, path), last.group, last.rule)
  }

  function GroupValue(g: Group): Value {
    Obj([Field("name", Str(g.name)), Field("rules", Arr(g.rules))])
  }

  function GroupValues(groups: seq<Group>): seq<Value> {
    if groups == [] then [] else [GroupValue(groups[0])] + GroupValues(groups[1..])
  }

  function WrapperFields(wrappers: seq<Wrapper>): seq<Field> {
    if wrappers == [] then []
    else
      [Field(wrappers[0].key, Obj([Field("groups", Arr(GroupValues(wrappers[0].groups)))]))] +
      WrapperFields(wrappers[1..])
  }

  function RulesIn(records: seq<Record>): seq<Value> {
    if records == [] then [] else RulesIn(records[..|records| - 1]) + [records[|records| - 1].rule]
  }

  predicate OneFormat(records: seq<Record>) {
    forall r :: r in records ==> r.source.format == records[0].source.format
  }

  predicate OneGroup(records: seq<Record>) {
    forall r :: r in records ==> r.group == records[0].group
  }

  /** What `render_alert_rule_document` returns. */
  function Render(records: seq<Record>, path: string): Result<Value, Failure> {
    if records == [] then Err(NoRecords)
    else if !OneFormat(records) then Err(MixedFormats)
    else
      match records[0].source.format
      case GroupList => Ok(Arr(GroupValues(Grouped(records))))
      case TopRules =>
        if !OneGroup(records) then Err(SeveralGroups)
        else Ok(Obj([Field("name", Str(records[0].group)), Field("rules", Arr(RulesIn(records)))]))
      case SpecGroups => Ok(Obj([Field("spec", Obj([Field("groups", Arr(GroupValues(Grouped(records))))]))]))
      case AdditionalMap => Ok(Obj([Field(MAP_KEY, Obj(WrapperFields(Wrapped(records, path))))]))
      case Groups => Ok(Obj([Field("groups", Arr(GroupValues(Grouped(records))))]))
  }

  // ---- The renderer's loops -----------------------------------------------------------

  /** Fills the dictionary of groups record by record. */
  method GroupRecords(records: seq<Record>) returns (groups: seq<Group>)
    ensures groups == Grouped(records)
  {
    groups := [];
    for i := 0 to |records|
      invariant groups == Grouped(records[..i])
    {
      assert records[..i + 1][..i] == records[..i];
      groups := Add(groups, records[i].group, records[i].rule);
    }
    assert records[..|records|] == records;
  }

  method WrapRecords(records: seq<Record>, path: string) returns (wrappers: seq<Wrapper>)
    ensures wrappers == Wrapped(records, path)
  {
    wrappers := [];
    for i := 0 to |records|
      invariant wrappers == Wrapped(records[..i], path)
    {
      assert records[..i + 1][..i] == records[..i];
      wrappers := AddWrapped(wrappers, KeyIn(records[i], path), records[i].group, records[i].rule);
    }
    assert records[..|records|] == records;
  }

  /** `render_alert_rule_document` */
  method RenderDocument(records: seq<Record>, path: string) returns (r: Result<Value, Failure>)
    ensures r == Render(records, path)
  {
    if records == [] {
      return Err(NoRecords);
    }
    var formats := set x | x in records :: x.source.format;
    assert records[0].source.format in formats;
    if formats != {records[0].source.format} {
      return Err(MixedFormats);
    }
    assert OneFormat(records) by {
      forall x | x in records ensures x.source.format == records[0].source.format { assert x.source.format in formats; }
    }
    match records[0].source.format
    case TopRules =>
      var names := set x | x in records :: x.group;
      assert records[0].group in names;
      if names != {records[0].group} {
        return Err(SeveralGroups);
      }
      assert OneGroup(records) by {
        forall x | x in records ensures x.group == records[0].group { assert x.group in names; }
      }
      return Ok(Obj([Field("name", Str(records[0].group)), Field("rules", Arr(RulesIn(records)))]));
    case AdditionalMap =>
      var wrappers := WrapRecords(records, path);
      return Ok(Obj([Field(MAP_KEY, Obj(WrapperFields(wrappers)))]));
    case GroupList =>
      var groups := GroupRecords(records);
      return Ok(Arr(GroupValues(groups)));
    case SpecGroups =>
      var groups := GroupRecords(records);
      return Ok(Obj([Field("spec", Obj([Field("groups", Arr(GroupValues(groups)))]))]));
    case Groups =>
      var groups := GroupRecords(records);
      return Ok(Obj([Field("groups", Arr(GroupValues(groups)))]));
  }

  /**
    Exactly which records cannot share a document: none, those of two shapes, those of two groups in a
    `rules` document.
  */
  lemma {:induction false} RenderErrors(records: seq<Record>, path: string)
    ensures Render(records, path) == Err(NoRecords) <==> |records| == 0
    ensures Render(records, path) == Err(MixedFormats) <==>
            exists a, b :: a in records && b in records && a.source.format != b.source.format
    ensures Render(records, path) == Err(SeveralGroups) <==>
            (exists a, b :: a in records && b in records && a.group != b.group) &&
            records != [] && forall r :: r in records ==> r.source.format.TopRules?
    ensures Render(records, path).Err? ==> Render(records, path).error in {NoRecords, MixedFormats, SeveralGroups}
  {
    if records != [] {
      assert records[0] in records;
    }
  }

  /** The records filed under another path. */
  function Moved(records: seq<Record>, path: string): (r: seq<Record>) {
    seq(|records|, i requires 0 <= i < |records| => records[i].(source := records[i].source.(path := path)))
  }

  lemma {:induction false} MovedParts(records: seq<Record>, path: string)
    ensures Grouped(Moved(records, path)) == Grouped(records) && RulesIn(Moved(records, path)) == RulesIn(records)
    ensures Wrapped(Moved(records, path), path) == Wrapped(records, path)
  {
    if records != [] {
      var n := |records| - 1;
      assert Moved(records, path)[..n] == Moved(records[..n], path);
      MovedParts(records[..n], path);
    }
  }

  /** Where the records come from does not matter: a wrapper without a name is named after the file that is rendered. */
  lemma {:induction false} RenderIgnoresPaths(records: seq<Record>, path: string)
    ensures Render(records, path) == Render(Moved(records, path), path)
  {
    var moved := Moved(records, path);
    MovedParts(records, path);
    if records != [] {
      MovedKinds(records, path);
      assert moved[0] == records[0].(source := records[0].source.(path := path));
    }
  }

  lemma {:induction false} KindsAt(records: seq<Record>)
    requires records != []
    ensures OneFormat(records) <==>
            forall i :: 0 <= i < |records| ==> records[i].source.format == records[0].source.format
    ensures OneGroup(records) <==> forall i :: 0 <= i < |records| ==> records[i].group == records[0].group
  {
    if !OneFormat(records) {
      var r :| r in records && r.source.format != records[0].source.format;
      var i :| 0 <= i < |records| && records[i] == r;
    }
    if !OneGroup(records) {
      var r :| r in records && r.group != records[0].group;
      var i :| 0 <= i < |records| && records[i] == r;
    }
  }

  lemma {:induction false} MovedKinds(records: seq<Record>, path: string)
    requires records != []
    ensures OneFormat(Moved(records, path)) <==> OneFormat(records)
    ensures OneGroup(Moved(records, path)) <==> OneGroup(records)
  {
    var moved := Moved(records, path);
    KindsAt(records);
    KindsAt(moved);
    assert forall i :: 0 <= i < |records| ==>
             moved[i].source.format == records[i].source.format && moved[i].group == records[i].group;
  }

  // ---- What a rendered document offers ------------------------------------------------

  /** Records that can come back: named rules with distinct names in groups whose names are trimmed. */
  predicate Storable(records: seq<Record>, path: string) {
    records != [] && OneFormat(records) && (records[0].source.format.TopRules? ==> OneGroup(records)) &&
    (forall r :: r in records ==>
      r.source.path == path && r.rule.Obj? && RuleName(r.rule) != "" && r.group != "" && Strip(r.group) == r.group) &&
    (forall i, j :: 0 <= i < j < |records| ==> RuleName(records[i].rule) != RuleName(records[j].rule))
  }

  /** The entry of a record in the document. */
  function EntryFor(r: Record): Entry {
    Entry(RuleName(r.rule), r.group, r.rule, PlaceOf(r.source))
  }

  function Expected(records: seq<Record>): seq<Entry> {
    if records == [] then [] else Expected(records[..|records| - 1]) + [EntryFor(records[|records| - 1])]
  }

  /** The entries of one group of one place, in order. */
  function Within(entries: seq<Entry>, place: Place, group: string): seq<Entry> {
    if entries == [] then []
    else
      (if entries[0].place == place && entries[0].group == group then [entries[0]] else []) +
      Within(entries[1..], place, group)
  }

  lemma {:induction false} WithinAppend(a: seq<Entry>, b: seq<Entry>, place: Place, group: string)
    ensures Within(a + b, place, group) == Within(a, place, group) + Within(b, place, group)
  {
    if a == [] {
      assert a + b == b;
    } else {
      assert (a + b)[1..] == a[1..] + b;
      WithinAppend(a[1..], b, place, group);
    }
  }

  lemma {:induction false} WithinNone(entries: seq<Entry>, place: Place, group: string)
    requires forall e :: e in entries ==> e.place != place || e.group != group
    ensures Within(entries, place, group) == []
  {
    if entries != [] {
      assert entries[0] in entries;
      WithinNone(entries[1..], place, group);
    }
  }

  /** The entries of rendered groups. */
  function GroupsEntries(groups: seq<Group>, place: Place): seq<Entry> {
    if groups == [] then [] else RuleEntries(groups[0].rules, groups[0].name, place) + GroupsEntries(groups[1..], place)
  }

  /** Groups with usable and distinct names. */
  predicate Sound(groups: seq<Group>) {
    groups == [] ||
    (groups[0].name != "" && Strip(groups[0].name) == groups[0].name &&
     (forall g :: g in groups[1..] ==> g.name != groups[0].name) && Sound(groups[1..]))
  }

  lemma {:induction false} RuleEntriesGroup(rules: seq<Value>, group: string, place: Place)
    ensures forall e :: e in RuleEntries(rules, group, place) ==> e.group == group && e.place == place
  {
    if rules != [] { RuleEntriesGroup(rules[1..], group, place); }
  }

  lemma {:induction false} GroupsEntriesNames(groups: seq<Group>, place: Place)
    ensures forall e :: e in GroupsEntries(groups, place) ==>
              e.place == place && exists g :: g in groups && g.name == e.group
  {
    if groups != [] {
      RuleEntriesGroup(groups[0].rules, groups[0].name, place);
      GroupsEntriesNames(groups[1..], place);
      assert groups[0] in groups;
    }
  }

  lemma {:induction false} AddSound(groups: seq<Group>, name: string, rule: Value)
    requires Sound(groups) && name != "" && Strip(name) == name
    ensures Sound(Add(groups, name, rule))
    ensures forall g :: g in Add(groups, name, rule) ==> g.name == name || exists h :: h in groups && h.name == g.name
  {
    if groups == [] {
      assert Add(groups, name, rule)[1..] == [];
    } else if groups[0].name == name {
      assert Add(groups, name, rule)[1..] == groups[1..];
    } else {
      AddSound(groups[1..], name, rule);
      assert Add(groups, name, rule)[1..] == Add(groups[1..], name, rule);
    }
  }

  lemma {:induction false} LastOfItsGroup(groups: seq<Group>, added: seq<Entry>, at: Place, place: Place, group: string)
    requires Sound(groups) && groups != [] && forall e :: e in added ==> e.group == groups[0].name
    ensures Within(added, place, group) == [] || Within(GroupsEntries(groups[1..], at), place, group) == []
  {
    GroupsEntriesNames(groups[1..], at);
    if group == groups[0].name {
      WithinNone(GroupsEntries(groups[1..], at), place, group);
    } else {
      WithinNone(added, place, group);
    }
  }

  /** The entry of one rule. */
  function Single(rule: Value, group: string, place: Place): seq<Entry> {
    [Entry(RuleName(rule), group, rule, place)]
  }

  lemma {:induction false} SingleRule(rule: Value, group: string, place: Place)
    requires rule.Obj? && RuleName(rule) != ""
    ensures RuleEntries([rule], group, place) == Single(rule, group, place)
  {
    assert RuleEntries([rule], group, place) == Single(rule, group, place) + RuleEntries([], group, place);
  }

  lemma {:induction false} BehindFirst(first: Group, rest: seq<Group>, at: Place, place: Place, group: string)
    ensures Within(GroupsEntries([first] + rest, at), place, group) ==
            Within(RuleEntries(first.rules, first.name, at), place, group) +
            Within(GroupsEntries(rest, at), place, group)
  {
    assert ([first] + rest)[1..] == rest;
    WithinAppend(RuleEntries(first.rules, first.name, at), GroupsEntries(rest, at), place, group);
  }

  lemma {:induction false} Swap<T>(a: seq<T>, b: seq<T>, c: seq<T>)
    requires b == [] || c == []
    ensures (a + b) + c == (a + c) + b
  {}

  lemma {:induction false} Regrouped<T>(a: seq<T>, b: seq<T>, c: seq<T>)
    ensures a + (b + c) == (a + b) + c
  {}

  lemma {:induction false} GrownGroup(first: Group, rule: Value, at: Place, place: Place, group: string)
    requires rule.Obj? && RuleName(rule) != ""
    ensures Within(RuleEntries(first.rules + [rule], first.name, at), place, group) ==
            Within(RuleEntries(first.rules, first.name, at), place, group) +
            Within(Single(rule, first.name, at), place, group)
  {
    RulesAppend(first.rules, [rule], first.name, at);
    SingleRule(rule, first.name, at);
    WithinAppend(RuleEntries(first.rules, first.name, at), Single(rule, first.name, at), place, group);
  }

  lemma {:induction false} AddToFirst(groups: seq<Group>, rule: Value, at: Place, place: Place, group: string)
    requires Sound(groups) && groups != [] && rule.Obj? && RuleName(rule) != ""
    ensures Within(GroupsEntries([Group(groups[0].name, groups[0].rules + [rule])] + groups[1..], at), place, group) ==
            Within(GroupsEntries(groups, at), place, group) + Within(Single(rule, groups[0].name, at), place, group)
  {
    var first, rest := groups[0], groups[1..];
    BehindFirst(Group(first.name, first.rules + [rule]), rest, at, place, group);
    GrownGroup(first, rule, at, place, group);
    assert groups == [first] + rest;
    BehindFirst(first, rest, at, place, group);
    LastOfItsGroup(groups, Single(rule, first.name, at), at, place, group);
    Swap(Within(RuleEntries(first.rules, first.name, at), place, group),
         Within(Single(rule, first.name, at), place, group),
         Within(GroupsEntries(rest, at), place, group));
  }

  /** Adding a rule extends its own group at the end and no other group. */
  lemma {:induction false} AddWithin(groups: seq<Group>, name: string, rule: Value, at: Place, place: Place,
                                     group: string)
    requires Sound(groups) && rule.Obj? && RuleName(rule) != ""
    ensures Within(GroupsEntries(Add(groups, name, rule), at), place, group) ==
            Within(GroupsEntries(groups, at), place, group) + Within(Single(rule, name, at), place, group)
  {
    if groups == [] {
      SingleRule(rule, name, at);
      assert GroupsEntries(Add(groups, name, rule), at) == Single(rule, name, at) + GroupsEntries([], at);
    } else if groups[0].name == name {
      AddToFirst(groups, rule, at, place, group);
    } else {
      var first, rest := groups[0], groups[1..];
      AddWithin(rest, name, rule, at, place, group);
      BehindFirst(first, Add(rest, name, rule), at, place, group);
      assert groups == [first] + rest;
      BehindFirst(first, rest, at, place, group);
      Regrouped(Within(RuleEntries(first.rules, first.name, at), place, group),
                Within(GroupsEntries(rest, at), place, group),
                Within(Single(rule, name, at), place, group));
    }
  }

  /** The entries of rendered wrappers. */
  function WrappersEntries(wrappers: seq<Wrapper>): seq<Entry> {
    if wrappers == [] then []
    else GroupsEntries(wrappers[0].groups, Place(AdditionalMap, Some(wrappers[0].key))) + WrappersEntries(wrappers[1..])
  }

  predicate SoundWrappers(wrappers: seq<Wrapper>) {
    wrappers == [] ||
    (Sound(wrappers[0].groups) && (forall w :: w in wrappers[1..] ==> w.key != wrappers[0].key) &&
     SoundWrappers(wrappers[1..]))
  }

  lemma {:induction false} WrappersEntriesKeys(wrappers: seq<Wrapper>)
    ensures forall e :: e in WrappersEntries(wrappers) ==>
              exists w :: w in wrappers && e.place == Place(AdditionalMap, Some(w.key))
  {
    if wrappers != [] {
      GroupsEntriesNames(wrappers[0].groups, Place(AdditionalMap, Some(wrappers[0].key)));
      WrappersEntriesKeys(wrappers[1..]);
      assert wrappers[0] in wrappers;
    }
  }

  lemma {:induction false} AddWrappedSound(wrappers: seq<Wrapper>, key: string, name: string, rule: Value)
    requires SoundWrappers(wrappers) && name != "" && Strip(name) == name
    ensures SoundWrappers(AddWrapped(wrappers, key, name, rule))
    ensures forall w :: w in AddWrapped(wrappers, key, name, rule) ==>
              w.key == key || exists v :: v in wrappers && v.key == w.key
  {
    if wrappers == [] {
      AddSound([], name, rule);
      assert AddWrapped(wrappers, key, name, rule)[1..] == [];
    } else if wrappers[0].key == key {
      AddSound(wrappers[0].groups, name, rule);
      assert AddWrapped(wrappers, key, name, rule)[1..] == wrappers[1..];
    } else {
      AddWrappedSound(wrappers[1..], key, name, rule);
      assert AddWrapped(wrappers, key, name, rule)[1..] == AddWrapped(wrappers[1..], key, name, rule);
    }
  }

  lemma {:induction false} BehindFirstWrapper(first: Wrapper, rest: seq<Wrapper>, place: Place, group: string)
    ensures var head := GroupsEntries(first.groups, Place(AdditionalMap, Some(first.key)));
            Within(WrappersEntries([first] + rest), place, group) ==
              Within(head, place, group) + Within(WrappersEntries(rest), place, group)
  {
    assert ([first] + rest)[1..] == rest;
    WithinAppend(GroupsEntries(first.groups, Place(AdditionalMap, Some(first.key))), WrappersEntries(rest), place,
                 group);
  }

  lemma {:induction false} ApartFromOthers(wrappers: seq<Wrapper>, added: seq<Entry>, place: Place, group: string)
    requires SoundWrappers(wrappers) && wrappers != []
    requires forall e :: e in added ==> e.place == Place(AdditionalMap, Some(wrappers[0].key))
    ensures Within(added, place, group) == [] || Within(WrappersEntries(wrappers[1..]), place, group) == []
  {
    WrappersEntriesKeys(wrappers[1..]);
    if place == Place(AdditionalMap, Some(wrappers[0].key)) {
      WithinNone(WrappersEntries(wrappers[1..]), place, group);
    } else {
      WithinNone(added, place, group);
    }
  }

  lemma {:induction false} GrownWrapper(first: Wrapper, rest: seq<Wrapper>, name: string, rule: Value, place: Place,
                                        group: string)
    requires Sound(first.groups) && rule.Obj? && RuleName(rule) != ""
    requires Within(Single(rule, name, Place(AdditionalMap, Some(first.key))), place, group) == [] ||
             Within(WrappersEntries(rest), place, group) == []
    ensures Within(WrappersEntries([Wrapper(first.key, Add(first.groups, name, rule))] + rest), place, group) ==
            Within(WrappersEntries([first] + rest), place, group) +
            Within(Single(rule, name, Place(AdditionalMap, Some(first.key))), place, group)
  {
    var at := Place(AdditionalMap, Some(first.key));
    BehindFirstWrapper(Wrapper(first.key, Add(first.groups, name, rule)), rest, place, group);
    AddWithin(first.groups, name, rule, at, place, group);
    BehindFirstWrapper(first, rest, place, group);
    Swap(Within(GroupsEntries(first.groups, at), place, group), Within(Single(rule, name, at), place, group),
         Within(WrappersEntries(rest), place, group));
  }

  lemma {:induction false} AddToFirstWrapper(wrappers: seq<Wrapper>, name: string, rule: Value, place: Place,
                                             group: string)
    requires SoundWrappers(wrappers) && wrappers != [] && rule.Obj? && RuleName(rule) != ""
    ensures var first := wrappers[0];
            Within(WrappersEntries([Wrapper(first.key, Add(first.groups, name, rule))] + wrappers[1..]), place,
                   group) ==
              Within(WrappersEntries(wrappers), place, group) +
              Within(Single(rule, name, Place(AdditionalMap, Some(first.key))), place, group)
  {
    assert wrappers == [wrappers[0]] + wrappers[1..];
    ApartFromOthers(wrappers, Single(rule, name, Place(AdditionalMap, Some(wrappers[0].key))), place, group);
    GrownWrapper(wrappers[0], wrappers[1..], name, rule, place, group);
  }

  lemma {:induction false} NewWrapper(key: string, name: string, rule: Value)
    requires rule.Obj? && RuleName(rule) != ""
    ensures WrappersEntries([Wrapper(key, Add([], name, rule))]) == Single(rule, name, Place(AdditionalMap, Some(key)))
  {
    var at, groups := Place(AdditionalMap, Some(key)), [Group(name, [rule])];
    SingleRule(rule, name, at);
    assert GroupsEntries(groups, at) == Single(rule, name, at) + GroupsEntries([], at);
    assert WrappersEntries([Wrapper(key, groups)]) == GroupsEntries(groups, at) + WrappersEntries([]);
  }

  lemma {:induction false} AddWrappedWithin(wrappers: seq<Wrapper>, key: string, name: string, rule: Value,
                                            place: Place, group: string)
    requires SoundWrappers(wrappers) && rule.Obj? && RuleName(rule) != ""
    ensures Within(WrappersEntries(AddWrapped(wrappers, key, name, rule)), place, group) ==
            Within(WrappersEntries(wrappers), place, group) +
            Within(Single(rule, name, Place(AdditionalMap, Some(key))), place, group)
  {
    var at := Place(AdditionalMap, Some(key));
    if wrappers == [] {
      NewWrapper(key, name, rule);
    } else if wrappers[0].key == key {
      AddToFirstWrapper(wrappers, name, rule, place, group);
    } else {
      var first, rest := wrappers[0], wrappers[1..];
      assert SoundWrappers(rest);
      AddWrappedWithin(rest, key, name, rule, place, group);
      BehindFirstWrapper(first, AddWrapped(rest, key, name, rule), place, group);
      assert wrappers == [first] + rest;
      BehindFirstWrapper(first, rest, place, group);
      Regrouped(Within(GroupsEntries(first.groups, Place(AdditionalMap, Some(first.key))), place, group),
                Within(WrappersEntries(rest), place, group), Within(Single(rule, name, at), place, group));
    }
  }

  // ---- The rendered values ------------------------------------------------------------

  predicate Fits(r: Record) {
    r.rule.Obj? && RuleName(r.rule) != "" && r.group != "" && Strip(r.group) == r.group
  }

  lemma {:induction false} GroupedWithin(records: seq<Record>, at: Place, place: Place, group: string)
    requires forall r :: r in records ==> Fits(r) && PlaceOf(r.source) == at
    ensures Sound(Grouped(records))
    ensures Within(GroupsEntries(Grouped(records), at), place, group) == Within(Expected(records), place, group)
  {
    if records != [] {
      var n := |records| - 1;
      var last := records[n];
      assert last in records;
      GroupedWithin(records[..n], at, place, group);
      AddSound(Grouped(records[..n]), last.group, last.rule);
      AddWithin(Grouped(records[..n]), last.group, last.rule, at, place, group);
      WithinAppend(Expected(records[..n]), [EntryFor(last)], place, group);
    }
  }

  lemma {:induction false} WrappedWithin(records: seq<Record>, path: string, place: Place, group: string)
    requires forall r :: r in records ==> Fits(r) && r.source.format.AdditionalMap? && r.source.path == path
    ensures SoundWrappers(Wrapped(records, path))
    ensures Within(WrappersEntries(Wrapped(records, path)), place, group) == Within(Expected(records), place, group)
  {
    if records != [] {
      var n := |records| - 1;
      var last := records[n];
      assert last in records && last.source.(path := path) == last.source;
      WrappedWithin(records[..n], path, place, group);
      AddWrappedSound(Wrapped(records[..n], path), KeyIn(last, path), last.group, last.rule);
      AddWrappedWithin(Wrapped(records[..n], path), KeyIn(last, path), last.group, last.rule, place, group);
      WithinAppend(Expected(records[..n]), [EntryFor(last)], place, group);
    }
  }

  lemma {:induction false} GroupValueEntries(g: Group, place: Place)
    requires g.name != "" && Strip(g.name) == g.name
    ensures GroupEntries(Located(GroupValue(g), place)) == RuleEntries(g.rules, g.name, place)
  {
    var fields := GroupValue(g).fields;
    assert "name" != "rules" && Lookup(fields[1..], "rules") == Arr(g.rules);
    assert Label(Str(g.name)) == g.name;
  }

  lemma {:induction false} GroupValuesEntries(groups: seq<Group>, place: Place)
    requires Sound(groups)
    ensures ListEntries(GroupValues(groups), place) == GroupsEntries(groups, place)
  {
    if groups != [] {
      GroupValuesEntries(groups[1..], place);
      GroupValueEntries(groups[0], place);
      SingleGroup(GroupValue(groups[0]), place);
      ListEntriesAppend([GroupValue(groups[0])], GroupValues(groups[1..]), place);
    }
  }

  lemma {:induction false} WrapperFieldsEntries(wrappers: seq<Wrapper>)
    requires SoundWrappers(wrappers)
    ensures WrapperEntries(WrapperFields(wrappers)) == WrappersEntries(wrappers)
  {
    if wrappers != [] {
      var at := Place(AdditionalMap, Some(wrappers[0].key));
      assert SoundWrappers(wrappers[1..]);
      WrapperFieldsEntries(wrappers[1..]);
      GroupValuesEntries(wrappers[0].groups, at);
      HeldGroups(WrapperFields(wrappers)[0].value, at);
    }
  }

  lemma {:induction false} TopExpected(records: seq<Record>, group: string)
    requires forall r :: r in records ==> Fits(r) && r.group == group && r.source.format.TopRules?
    ensures RuleEntries(RulesIn(records), group, Place(TopRules, None)) == Expected(records)
  {
    if records != [] {
      var n := |records| - 1;
      var last := records[n];
      assert last in records;
      TopExpected(records[..n], group);
      RulesAppend(RulesIn(records[..n]), [last.rule], group, Place(TopRules, None));
      SingleRule(last.rule, group, Place(TopRules, None));
    }
  }

  lemma {:induction false} EmptyParts()
    ensures GroupsPart(Obj([])) == TopPart(Obj([])) == SpecPart(Obj([])) == MapPart(Obj([])) == []
  {}

  lemma {:induction false} NoEntriesAround<T>(a: seq<T>, b: seq<T>, c: seq<T>)
    requires a == [] && b == [] && c == []
    ensures a + b == [] && a + b + c == []
  {}

  /** Around one list of groups an empty document offers nothing. */
  lemma {:induction false} NothingOutside(source: Source)
    requires source.format.GroupList? || source.format.Groups? || source.format.SpecGroups?
    ensures Outside(Base(Null, source.format), source) == ([], [])
  {
    var empty := Obj([]);
    EmptyParts();
    NoEntriesAround(GroupsPart(empty), TopPart(empty), []);
    NoEntriesAround(TopPart(empty), SpecPart(empty), MapPart(empty));
  }

  /** A document holding nothing but one list of groups offers that list. */
  lemma {:induction false} ListDocument(source: Source, groups: seq<Value>)
    requires source.format.GroupList? || source.format.Groups? || source.format.SpecGroups?
    ensures Flatten(WithGroups(Base(Null, source.format), source, groups)) == ListEntries(groups, PlaceOf(source))
  {
    var empty := Base(Null, source.format);
    var offered := ListEntries(groups, PlaceOf(source));
    assert Base(empty, source.format) == empty;
    ListSet(empty, source, groups);
    NothingOutside(source);
    assert [] + offered + [] == offered;
  }

  lemma {:induction false} MapDocument(ruleMap: seq<Field>)
    ensures Flatten(Obj([Field(MAP_KEY, Obj(ruleMap))])) == WrapperEntries(ruleMap)
  {
    EmptyParts();
    MapSet(Obj([]), ruleMap);
    assert Put([], MAP_KEY, Obj(ruleMap)) == [Field(MAP_KEY, Obj(ruleMap))];
  }

  lemma {:induction false} TopFields(group: string, rules: seq<Value>)
    ensures WithTopRules(Obj([]), group, rules) == Obj([Field("name", Str(group)), Field("rules", Arr(rules))])
  {
    var named := Put([], "name", Str(group));
    assert named == [Field("name", Str(group))];
    assert "name" != "rules" && named[1..] == [];
    assert Put(named, "rules", Arr(rules)) == [named[0]] + Put([], "rules", Arr(rules));
  }

  lemma {:induction false} TopDocument(group: string, rules: seq<Value>)
    requires Strip(group) != ""
    ensures Flatten(Obj([Field("name", Str(group)), Field("rules", Arr(rules))])) ==
            RuleEntries(rules, Strip(group), Place(TopRules, None))
  {
    EmptyParts();
    TopFields(group, rules);
    TopSet(Obj([]), group, rules);
  }

  lemma {:induction false} ListOffers(records: seq<Record>, path: string, place: Place, group: string)
    requires Storable(records, path) && !records[0].source.format.TopRules? && !records[0].source.format.AdditionalMap?
    ensures Render(records, path).Ok?
    ensures Within(Flatten(Render(records, path).value), place, group) == Within(Expected(records), place, group)
  {
    var source := records[0].source;
    OneList(records, path);
    assert forall r :: r in records ==> Fits(r) && PlaceOf(r.source) == PlaceOf(source);
    GroupedWithin(records, PlaceOf(source), place, group);
    ListDocument(source, GroupValues(Grouped(records)));
    GroupValuesEntries(Grouped(records), PlaceOf(source));
  }

  lemma {:induction false} WrappersDocument(wrappers: seq<Wrapper>)
    requires SoundWrappers(wrappers)
    ensures Flatten(Obj([Field(MAP_KEY, Obj(WrapperFields(wrappers)))])) == WrappersEntries(wrappers)
  {
    MapDocument(WrapperFields(wrappers));
    WrapperFieldsEntries(wrappers);
  }

  lemma {:induction false} AllFit(records: seq<Record>, path: string)
    requires Storable(records, path)
    ensures forall r :: r in records ==> Fits(r) && r.source.format == records[0].source.format && r.source.path == path
  {}

  lemma {:induction false} MapRender(records: seq<Record>, path: string)
    requires records != [] && OneFormat(records) && records[0].source.format.AdditionalMap?
    ensures Render(records, path) == Ok(Obj([Field(MAP_KEY, Obj(WrapperFields(Wrapped(records, path))))]))
  {}

  lemma {:induction false} MapOffers(records: seq<Record>, path: string, place: Place, group: string)
    requires Storable(records, path) && records[0].source.format.AdditionalMap?
    ensures Render(records, path).Ok?
    ensures Within(Flatten(Render(records, path).value), place, group) == Within(Expected(records), place, group)
  {
    AllFit(records, path);
    WrappedWithin(records, path, place, group);
    WrappersDocument(Wrapped(records, path));
    MapRender(records, path);
  }

  lemma {:induction false} TopOffers(records: seq<Record>, path: string)
    requires Storable(records, path) && records[0].source.format.TopRules?
    ensures Render(records, path).Ok? && Flatten(Render(records, path).value) == Expected(records)
  {
    assert records[0] in records;
    TopDocument(records[0].group, RulesIn(records));
    TopExpected(records, records[0].group);
  }

  /**
    The rendered document keeps the order of every group: what it offers for a group of a place
    is exactly that group's records, one after the other.
  */
  lemma {:induction false} RenderKeepsGroups(records: seq<Record>, path: string, place: Place, group: string)
    requires Storable(records, path)
    ensures Render(records, path).Ok? && IterRuleGroups(Render(records, path).value).Ok?
    ensures Within(Flatten(Render(records, path).value), place, group) == Within(Expected(records), place, group)
  {
    match records[0].source.format
    case TopRules => TopOffers(records, path);
    case AdditionalMap => MapOffers(records, path, place, group);
    case _ => ListOffers(records, path, place, group);
  }

  lemma {:induction false} OneList(records: seq<Record>, path: string)
    requires Storable(records, path) && !records[0].source.format.TopRules? && !records[0].source.format.AdditionalMap?
    ensures var source := records[0].source;
            Render(records, path) == Ok(WithGroups(Base(Null, source.format), source, GroupValues(Grouped(records))))
  {}

  // ---- The round trip -------------------------------------------------------------------

  lemma {:induction false} WithinCount(entries: seq<Entry>, e: Entry)
    ensures multiset(Within(entries, e.place, e.group))[e] == multiset(entries)[e]
  {
    if entries != [] {
      assert entries == [entries[0]] + entries[1..];
      WithinCount(entries[1..], e);
    }
  }

  /** Rendering neither loses, duplicates nor invents a rule. */
  lemma {:induction false} RenderConserves(records: seq<Record>, path: string)
    requires Storable(records, path)
    ensures Render(records, path).Ok?
    ensures multiset(Flatten(Render(records, path).value)) == multiset(Expected(records))
  {
    RenderKeepsGroups(records, path, Place(Groups, None), "");
    var entries := Flatten(Render(records, path).value);
    forall e: Entry ensures multiset(entries)[e] == multiset(Expected(records))[e] {
      RenderKeepsGroups(records, path, e.place, e.group);
      WithinCount(entries, e);
      WithinCount(Expected(records), e);
    }
  }

  lemma {:induction false} ExpectedAt(records: seq<Record>)
    ensures |Expected(records)| == |records|
    ensures forall i :: 0 <= i < |records| ==> Expected(records)[i] == EntryFor(records[i])
  {
    if records != [] { ExpectedAt(records[..|records| - 1]); }
  }

  /** The record as the index reports it: its wrapper key is the one in effect. */
  function Effective(r: Record): Record {
    Record(r.group, r.rule, Source(r.source.path, r.source.format, PlaceOf(r.source).wrapper))
  }

  lemma {:induction false} AtMostOnce(a: seq<Entry>, e: Entry)
    requires forall i, j :: 0 <= i < j < |a| ==> a[i].name != a[j].name
    ensures multiset(a)[e] <= 1
  {
    if a != [] {
      assert a == [a[0]] + a[1..];
      AtMostOnce(a[1..], e);
      if e == a[0] {
        assert e !in a[1..];
      }
    }
  }

  lemma {:induction false} AtLeastTwice(b: seq<Entry>, i: nat, j: nat)
    requires i < j < |b| && b[i] == b[j]
    ensures multiset(b)[b[i]] >= 2
  {
    assert b == b[..j] + [b[j]] + b[j + 1..];
    assert b[..j][i] == b[i] && b[i] in b[..j];
  }

  /** Distinct names survive a change of order. */
  lemma {:induction false} DistinctSurvives(a: seq<Entry>, b: seq<Entry>)
    requires multiset(a) == multiset(b)
    requires forall i, j :: 0 <= i < j < |a| ==> a[i].name != a[j].name
    ensures forall i, j :: 0 <= i < j < |b| ==> b[i].name != b[j].name
  {
    forall i, j | 0 <= i < j < |b| ensures b[i].name != b[j].name {
      assert b[i] in multiset(a) && b[j] in multiset(a);
      AtMostOnce(a, b[i]);
      if b[i].name == b[j].name {
        assert b[i] == b[j];
        AtLeastTwice(b, i, j);
      }
    }
  }

  /** What the index of the rendered document is built from. */
  lemma {:induction false} RenderedIndex(records: seq<Record>, path: string)
    requires Storable(records, path)
    ensures Render(records, path).Ok?
    ensures var docs := [Parsed(path, Render(records, path).value)];
            IndexFrom(map[], docs).Ok? &&
            Indexes(IndexFrom(map[], docs).value, FiledRules(path, Flatten(docs[0].document)))
  {
    RenderConserves(records, path);
    RenderKeepsGroups(records, path, Place(Groups, None), "");
    var docs := [Parsed(path, Render(records, path).value)];
    var entries := Flatten(docs[0].document);
    ExpectedAt(records);
    DistinctSurvives(Expected(records), entries);
    assert AllFiled(docs) == FiledRules(path, entries) + AllFiled(docs[1..]) == FiledRules(path, entries);
    IndexMeaning(docs);
  }

  lemma {:induction false} OfferedBack(records: seq<Record>, path: string, r: Record)
    requires Storable(records, path) && r in records
    ensures Render(records, path).Ok?
    ensures Filed(RuleName(r.rule), Effective(r)) in FiledRules(path, Flatten(Render(records, path).value))
  {
    RenderConserves(records, path);
    ExpectedAt(records);
    var entries := Flatten(Render(records, path).value);
    var i :| 0 <= i < |records| && records[i] == r;
    assert Expected(records)[i] in multiset(entries);
    var j :| 0 <= j < |entries| && entries[j] == EntryFor(r);
    assert FiledRules(path, entries)[j] == FiledAs(path, EntryFor(r)) == Filed(RuleName(r.rule), Effective(r));
  }

  lemma {:induction false} NothingElse(records: seq<Record>, path: string, f: Filed)
    requires Storable(records, path) && Render(records, path).Ok?
    requires f in FiledRules(path, Flatten(Render(records, path).value))
    ensures exists r :: r in records && RuleName(r.rule) == f.name
  {
    RenderConserves(records, path);
    ExpectedAt(records);
    var entries := Flatten(Render(records, path).value);
    var j :| 0 <= j < |entries| && FiledRules(path, entries)[j] == f;
    assert entries[j] in multiset(Expected(records));
    var i :| 0 <= i < |records| && Expected(records)[i] == entries[j];
    assert records[i] in records && RuleName(records[i].rule) == f.name;
  }

  /**
    Rendering and indexing are inverse: the index of the rendered document holds every record
    under its rule's name, with its group, its rule and its source, and nothing else.
  */
  lemma {:induction false} RoundTrip(records: seq<Record>, path: string)
    requires Storable(records, path)
    ensures Render(records, path).Ok?
    ensures var index := IndexFrom(map[], [Parsed(path, Render(records, path).value)]);
            index.Ok? &&
            (forall r :: r in records ==>
             RuleName(r.rule) in index.value && index.value[RuleName(r.rule)] == Effective(r)) &&
            (forall name :: name in index.value ==> exists r :: r in records && RuleName(r.rule) == name)
  {
    RenderedIndex(records, path);
    var index := IndexFrom(map[], [Parsed(path, Render(records, path).value)]).value;
    forall r | r in records ensures RuleName(r.rule) in index && index[RuleName(r.rule)] == Effective(r) {
      OfferedBack(records, path, r);
    }
    forall name | name in index ensures exists r :: r in records && RuleName(r.rule) == name {
      NothingElse(records, path, Filed(name, index[name]));
    }
  }
}
