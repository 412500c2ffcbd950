/**
  Inserting, replacing and deleting one rule of a parsed alert-rule document
  (api/services/alert_rule_repo.py).
*/
module RuleEditor {
  import opened Wrappers
  import opened Documents

  datatype Source = Source(path: string, format: Format, wrapperKey: Option<string>)

  // ---- Wrapper keys ---------------------------------------------------------------

  /** The part of s after its last c. */
  function AfterLast(s: string, c: char): string {
    if s == "" || s[|s| - 1] == c then "" else AfterLast(s[..|s| - 1], c) + [s[|s| - 1]]
  }

  /** A file name without its last suffix; a leading or trailing dot starts no suffix. */
  function Stem(name: string): string {
    var suffix := AfterLast(name, '.');
    var dot := |name| - |suffix| - 1;
    if 0 < dot < |name| - 1 then name[..dot] else name
  }

  function DefaultWrapperKey(path: string): (key: string)
    ensures key != ""
  {
    if Stem(AfterLast(path, '/')) == "" then "alert-rules" else Stem(AfterLast(path, '/'))
  }

  lemma {:induction false} AfterLastIs(before: string, c: char, after: string)
    requires c !in after
    ensures AfterLast(before + [c] + after, c) == after && AfterLast(after, c) == after
  {
    var whole := before + [c] + after;
    if after != "" {
      var n := |after| - 1;
      assert after[n] in after;
      assert forall x :: x in after[..n] ==> x in after;
      AfterLastIs(before, c, after[..n]);
      assert whole[..|whole| - 1] == before + [c] + after[..n];
      assert after == after[..n] + [after[n]];
    }
  }

  lemma {:induction false} StemIs(stem: string, suffix: string)
    requires stem != "" && suffix != "" && '.' !in suffix
    ensures Stem(stem + ['.'] + suffix) == stem
    ensures '.' !in stem ==> Stem(stem) == stem
  {
    AfterLastIs(stem, '.', suffix);
    if '.' !in stem { AfterLastIs("", '.', stem); }
  }

  /** The default wrapper key is the file's name without its directories and its last suffix. */
  lemma {:induction false} DefaultWrapperKeyMeaning(dirs: string, stem: string, suffix: string)
    requires stem != "" && '/' !in stem && suffix != "" && '/' !in suffix && '.' !in suffix
    ensures DefaultWrapperKey(dirs + ['/'] + (stem + ['.'] + suffix)) == stem
    ensures '.' !in stem ==> DefaultWrapperKey(dirs + ['/'] + stem) == stem
    ensures DefaultWrapperKey(dirs + ['/']) == "alert-rules"
  {
    StemIs(stem, suffix);
    AfterLastIs(dirs, '/', stem + ['.'] + suffix);
    AfterLastIs(dirs, '/', stem);
    AfterLastIs(dirs, '/', []);
    assert dirs + ['/'] + [] == dirs + ['/'];
  }

  function WrapperKey(source: Source): (key: string)
    ensures key != ""
  {
    if source.wrapperKey.Some? && source.wrapperKey.value != "" then source.wrapperKey.value
    else DefaultWrapperKey(source.path)
  }

  function PlaceOf(source: Source): Place {
    Place(source.format, if source.format.AdditionalMap? then Some(WrapperKey(source)) else None)
  }

  // ---- One list of rules --------------------------------------------------------------

  predicate Matches(rule: Value, name: string) {
    rule.Obj? && RuleName(rule) == name
  }

  function FirstMatch(rules: seq<Value>, name: string): (i: nat)
    ensures i <= |rules|
    ensures i < |rules| ==> Matches(rules[i], name)
    ensures forall j :: 0 <= j < i ==> !Matches(rules[j], name)
  {
    if rules == [] || Matches(rules[0], name) then 0 else FirstMatch(rules[1..], name) + 1
  }

  predicate HasRule(rules: seq<Value>, name: string) {
    FirstMatch(rules, name) < |rules|
  }

  function PutRule(rules: seq<Value>, name: string, payload: seq<Field>): seq<Value> {
    var i := FirstMatch(rules, name);
    if i < |rules| then rules[i := Obj(payload)] else rules + [Obj(payload)]
  }

  /** The rules without the first match. */
  function DropRule(rules: seq<Value>, name: string): seq<Value> {
    var i := FirstMatch(rules, name);
    if i < |rules| then rules[..i] + rules[i + 1..] else rules
  }

  lemma {:induction false} FirstMatchIs(rules: seq<Value>, name: string, i: nat)
    requires i <= |rules| && (i < |rules| ==> Matches(rules[i], name))
    requires forall j :: 0 <= j < i ==> !Matches(rules[j], name)
    ensures FirstMatch(rules, name) == i
  {
  }

  // ---- One list of groups -------------------------------------------------------------

  /** Where `_ensure_group_entry` stops: the first group of that name, or the end. */
  function FindGroup(groups: seq<Value>, group: string): (r: Result<nat, Failure>)
    ensures r.Ok? ==> r.value <= |groups|
    ensures r.Ok? ==> forall j :: 0 <= j < r.value ==> groups[j].Obj? && Get(groups[j], "name") != Str(group)
    ensures r.Ok? && r.value < |groups| ==> groups[r.value].Obj? && Get(groups[r.value], "name") == Str(group)
    ensures r.Err? ==> r.error == NotAnObject
  {
    if groups == [] then Ok(0)
    else if !groups[0].Obj? then Err(NotAnObject)
    else if Get(groups[0], "name") == Str(group) then Ok(0)
    else
      match FindGroup(groups[1..], group)
      case Ok(i) => Ok(i + 1)
      case Err(e) => Err(e)
  }

  predicate Passed(groups: seq<Value>, group: string, i: nat)
    requires i <= |groups|
  {
    forall j :: 0 <= j < i ==> groups[j].Obj? && Get(groups[j], "name") != Str(group)
  }

  /** The search stops where a group has the name, where one is no object, or at the end. */
  lemma {:induction false} FindGroupIs(groups: seq<Value>, group: string, i: nat)
    requires i <= |groups| && Passed(groups, group, i)
    requires i < |groups| ==> !groups[i].Obj? || Get(groups[i], "name") == Str(group)
    ensures FindGroup(groups, group) == if i < |groups| && !groups[i].Obj? then Err(NotAnObject) else Ok(i)
  {
    if i > 0 {
      assert groups[0].Obj? && Get(groups[0], "name") != Str(group);
      FindGroupIs(groups[1..], group, i - 1);
    }
  }

  function RulesOf(holder: Value): seq<Value> {
    if Get(holder, "rules").Arr? then Get(holder, "rules").items else []
  }

  function NewGroup(group: string): (r: Value)
    ensures r.Obj? && Get(r, "name") == Str(group) && Get(r, "rules") == Arr([])
  {
    var fields := [Field("name", Str(group)), Field("rules", Arr([]))];
    assert "name" != "rules" && Lookup(fields[1..], "rules") == Arr([]);
    Obj(fields)
  }

  function WithRules(holder: Value, rules: seq<Value>): Value
    requires holder.Obj?
  {
    Obj(Put(holder.fields, "rules", Arr(rules)))
  }

  /** The group an edit works on: the one found, or a new one. */
  function Target(groups: seq<Value>, group: string, i: nat): (t: Value)
    requires FindGroup(groups, group) == Ok(i)
    ensures t.Obj? && Get(t, "name") == Str(group)
  {
    if i < |groups| then groups[i] else NewGroup(group)
  }

  /** The groups with those at i, if any, replaced. */
  function Splice(groups: seq<Value>, i: nat, middle: seq<Value>): seq<Value>
    requires i <= |groups|
  {
    groups[..i] + middle + (if i < |groups| then groups[i + 1..] else [])
  }

  function UpsertGroups(groups: seq<Value>, group: string, name: string, payload: seq<Field>)
    : Result<seq<Value>, Failure>
  {
    match FindGroup(groups, group)
    case Err(e) => Err(e)
    case Ok(i) =>
      var target := Target(groups, group, i);
      var edited := WithRules(target, PutRule(RulesOf(target), name, payload));
      Ok(Splice(groups, i, [edited]))
  }

  /** The groups after a deletion from the group at i, and whether a rule went; an emptied group goes too. */
  function DeleteAt(groups: seq<Value>, i: nat, name: string): (seq<Value>, bool)
    requires i < |groups| && groups[i].Obj?
  {
    var left := DropRule(RulesOf(groups[i]), name);
    if !HasRule(RulesOf(groups[i]), name) then (groups, false)
    else (Splice(groups, i, if left == [] then [] else [WithRules(groups[i], left)]), true)
  }

  function DeleteGroups(groups: seq<Value>, group: string, name: string): Result<(seq<Value>, bool), Failure> {
    match FindGroup(groups, group)
    case Err(e) => Err(e)
    case Ok(i) => Ok(if i == |groups| then (groups, false) else DeleteAt(groups, i, name))
  }

  /** The groups with that group in them, holding a list of rules, and where it is. */
  function Ensured(groups: seq<Value>, group: string): Result<(seq<Value>, nat), Failure> {
    match FindGroup(groups, group)
    case Err(e) => Err(e)
    case Ok(i) =>
      var target := Target(groups, group, i);
      Ok((Splice(groups, i, [WithRules(target, RulesOf(target))]), i))
  }

  // ---- The document -------------------------------------------------------------------

  /** The document an upsert starts from: one of the wrong kind is replaced. */
  function Base(doc: Value, format: Format): Value {
    if format.GroupList? then (if doc.Arr? then doc else Arr([]))
    else if doc.Obj? then doc else Obj([])
  }

  function AsFields(v: Value): seq<Field> {
    if v.Obj? then v.fields else []
  }

  /** The value at the format's path: the list of groups, when it is one. */
  function ListAt(doc: Value, source: Source): Value {
    match source.format
    case GroupList => doc
    case SpecGroups => Get(Get(doc, "spec"), "groups")
    case AdditionalMap => Get(Get(Get(doc, MAP_KEY), WrapperKey(source)), "groups")
    case _ => Get(doc, "groups")
  }

  function GroupsIn(doc: Value, source: Source): seq<Value> {
    if ListAt(doc, source).Arr? then ListAt(doc, source).items else []
  }

  /** The document with these groups at the format's path, building the path where it is missing. */
  function WithGroups(doc: Value, source: Source, groups: seq<Value>): (r: Value)
    ensures ListAt(r, source) == Arr(groups)
  {
    var list := Arr(groups);
    match source.format
    case GroupList => list
    case SpecGroups =>
      Obj(Put(AsFields(doc), "spec", Obj(Put(AsFields(Get(doc, "spec")), "groups", list))))
    case AdditionalMap =>
      var ruleMap := Get(doc, MAP_KEY);
      var wrapper := Get(ruleMap, WrapperKey(source));
      Obj(Put(AsFields(doc), MAP_KEY,
              Obj(Put(AsFields(ruleMap), WrapperKey(source), Obj(Put(AsFields(wrapper), "groups", list))))))
    case _ => Obj(Put(AsFields(doc), "groups", list))
  }

  /** A top-level `rules` document holding these rules under this group. */
  function WithTopRules(doc: Value, group: string, rules: seq<Value>): Value {
    Obj(Put(Put(AsFields(doc), "name", Str(group)), "rules", Arr(rules)))
  }

  /** What `upsert_rule_in_document` returns. */
  function Upsert(doc: Value, source: Source, group: string, name: string, payload: seq<Field>)
    : Result<Value, Failure>
  {
    var base := Base(doc, source.format);
    if source.format.TopRules? then
      var current := Label(Get(base, "name"));
      if current != "" && current != group then Err(OtherGroup)
      else Ok(WithTopRules(base, group, PutRule(RulesOf(base), name, payload)))
    else
      match UpsertGroups(GroupsIn(base, source), group, name, payload)
      case Err(e) => Err(e)
      case Ok(groups) => Ok(WithGroups(base, source, groups))
  }

  /** The document without an empty wrapper of the additional-rules map. */
  function WithoutWrapper(doc: Value, key: string): Value {
    Obj(Put(AsFields(doc), MAP_KEY, Obj(Pop(AsFields(Get(doc, MAP_KEY)), key))))
  }

  /** What `delete_rule_from_document` returns. */
  function Delete(doc: Value, source: Source, group: string, name: string): Result<(Value, bool), Failure> {
    if Base(doc, source.format) != doc then Ok((doc, false))
    else if source.format.TopRules? then
      if Label(Get(doc, "name")) != group || !HasRule(RulesOf(doc), name) then Ok((doc, false))
      else Ok((WithRules(doc, DropRule(RulesOf(doc), name)), true))
    else
      match DeleteGroups(GroupsIn(doc, source), group, name)
      case Err(e) => Err(e)
      case Ok((groups, deleted)) =>
        if !deleted then Ok((doc, false))
        else
          var edited := WithGroups(doc, source, groups);
          if source.format.AdditionalMap? && groups == [] then Ok((WithoutWrapper(edited, WrapperKey(source)), true))
          else Ok((edited, true))
  }

  // ---- The editor's loops -------------------------------------------------------------

  /** Replaces the first match, or appends. */
  method PutInto(rules: seq<Value>, name: string, payload: seq<Field>) returns (r: seq<Value>)
    ensures r == PutRule(rules, name, payload)
  {
    r := rules;
    for idx := 0 to |rules|
      invariant r == rules
      invariant forall j :: 0 <= j < idx ==> !Matches(rules[j], name)
    {
      if Matches(rules[idx], name) {
        FirstMatchIs(rules, name, idx);
        r := r[idx := Obj(payload)];
        return;
      }
    }
    FirstMatchIs(rules, name, |rules|);
    r := r + [Obj(payload)];
  }

  /** Removes the first match, if any. */
  method RemoveFrom(rules: seq<Value>, name: string) returns (r: seq<Value>, deleted: bool)
    ensures r == DropRule(rules, name)
    ensures deleted == HasRule(rules, name)
  {
    for idx := 0 to |rules|
      invariant forall j :: 0 <= j < idx ==> !Matches(rules[j], name)
    {
      if Matches(rules[idx], name) {
        FirstMatchIs(rules, name, idx);
        return rules[..idx] + rules[idx + 1..], true;
      }
    }
    FirstMatchIs(rules, name, |rules|);
    return rules, false;
  }

  /** `_ensure_group_entry` */
  method EnsureGroupEntry(groups: seq<Value>, group: string) returns (r: Result<(seq<Value>, nat), Failure>)
    ensures r == Ensured(groups, group)
  {
    for idx := 0 to |groups|
      invariant Passed(groups, group, idx)
    {
      if !groups[idx].Obj? {
        FindGroupIs(groups, group, idx);
        return Err(NotAnObject);
      }
      if Get(groups[idx], "name") == Str(group) {
        FindGroupIs(groups, group, idx);
        var found := groups[idx];
        if Get(found, "rules").Arr? {
          PutBack(found.fields, "rules");
        } else {
          found := Obj(Put(found.fields, "rules", Arr([])));
        }
        assert groups[idx := found] == Splice(groups, idx, [found]);
        return Ok((groups[idx := found], idx));
      }
    }
    FindGroupIs(groups, group, |groups|);
    var created := NewGroup(group);
    assert WithRules(created, []) == created by { PutBack(created.fields, "rules"); }
    assert groups + [created] == Splice(groups, |groups|, [created]);
    return Ok((groups + [created], |groups|));
  }

  /** Writing the rules of an ensured group gives the upserted groups. */
  lemma {:induction false} EnsuredThenWritten(groups: seq<Value>, group: string, name: string, payload: seq<Field>)
    requires FindGroup(groups, group).Ok?
    ensures var i := FindGroup(groups, group).value;
            var entered := Ensured(groups, group).value.0;
            i < |entered| && entered[i].Obj? &&
            RulesOf(entered[i]) == RulesOf(Target(groups, group, i)) &&
            UpsertGroups(groups, group, name, payload) ==
              Ok(entered[i := WithRules(entered[i], PutRule(RulesOf(entered[i]), name, payload))])
  {
    var i := FindGroup(groups, group).value;
    var target := Target(groups, group, i);
    var found := WithRules(target, RulesOf(target));
    var written := WithRules(target, PutRule(RulesOf(target), name, payload));
    PutTwice(target.fields, "rules", Arr(RulesOf(target)), Arr(PutRule(RulesOf(target), name, payload)));
    SpliceUpdate(groups, i, found, written);
  }

  lemma {:induction false} SpliceUpdate(groups: seq<Value>, i: nat, a: Value, b: Value)
    requires i <= |groups|
    ensures Splice(groups, i, [a])[i] == a && Splice(groups, i, [a])[i := b] == Splice(groups, i, [b])
  {}

  /** The group edit shared by the four list shapes. */
  method UpsertInto(groups: seq<Value>, group: string, name: string, payload: seq<Field>)
    returns (r: Result<seq<Value>, Failure>)
    ensures r == UpsertGroups(groups, group, name, payload)
  {
    var ensured := EnsureGroupEntry(groups, group);
    match ensured
    case Err(e) => return Err(e);
    case Ok((entered, i)) =>
      EnsuredThenWritten(groups, group, name, payload);
      var rules := PutInto(RulesOf(entered[i]), name, payload);
      return Ok(entered[i := WithRules(entered[i], rules)]);
  }

  method DeleteFromGroup(groups: seq<Value>, i: nat, name: string) returns (r: seq<Value>, deleted: bool)
    requires i < |groups| && groups[i].Obj?
    ensures (r, deleted) == DeleteAt(groups, i, name)
  {
    if !Get(groups[i], "rules").Arr? {
      return groups, false;
    }
    var rules;
    rules, deleted := RemoveFrom(RulesOf(groups[i]), name);
    if !deleted {
      return groups, false;
    }
    if rules == [] {
      r := groups[..i] + groups[i + 1..];
      assert r == Splice(groups, i, []);
    } else {
      r := groups[i := WithRules(groups[i], rules)];
      assert r == Splice(groups, i, [WithRules(groups[i], rules)]);
    }
  }

  method DeleteFrom(groups: seq<Value>, group: string, name: string) returns (r: Result<(seq<Value>, bool), Failure>)
    ensures r == DeleteGroups(groups, group, name)
  {
    for idx := 0 to |groups|
      invariant Passed(groups, group, idx)
    {
      if !groups[idx].Obj? {
        FindGroupIs(groups, group, idx);
        return Err(NotAnObject);
      }
      if Get(groups[idx], "name") == Str(group) {
        FindGroupIs(groups, group, idx);
        var left, deleted := DeleteFromGroup(groups, idx, name);
        return Ok((left, deleted));
      }
    }
    FindGroupIs(groups, group, |groups|);
    return Ok((groups, false));
  }

  /** One parsed document of a repository file, edited in place. */
  class RuleFile {
    var document: Value

    constructor (document: Value)
      ensures this.document == document
    {
      this.document := document;
    }

    /** `upsert_rule_in_document`: on an error the document is as it was. */
    method UpsertRule(source: Source, group: string, name: string, payload: seq<Field>)
      returns (failure: Option<Failure>)
      modifies this
      ensures match Upsert(old(document), source, group, name, payload)
              case Ok(edited) => failure.None? && document == edited
              case Err(e) => failure == Some(e) && document == old(document)
    {
      var base := Base(document, source.format);
      if source.format.TopRules? {
        var current := Label(Get(base, "name"));
        if current != "" && current != group {
          return Some(OtherGroup);
        }
        var rules := PutInto(RulesOf(base), name, payload);
        document := WithTopRules(base, group, rules);
        return None;
      }
      var edited := UpsertInto(GroupsIn(base, source), group, name, payload);
      match edited
      case Err(e) => return Some(e);
      case Ok(groups) =>
        document := WithGroups(base, source, groups);
        return None;
    }

    /** `delete_rule_from_document`; the reply is the `deleted` flag */
    method DeleteRule(source: Source, group: string, name: string) returns (reply: Result<bool, Failure>)
      modifies this
      ensures match Delete(old(document), source, group, name)
              case Ok((edited, deleted)) => reply == Ok(deleted) && document == edited
              case Err(e) => reply == Err(e) && document == old(document)
    {
      if Base(document, source.format) != document {
        return Ok(false);
      }
      if source.format.TopRules? {
        if Label(Get(document, "name")) != group {
          return Ok(false);
        }
        var rules, deleted := RemoveFrom(RulesOf(document), name);
        if deleted {
          document := WithRules(document, rules);
        }
        return Ok(deleted);
      }
      if !ListAt(document, source).Arr? {
        return Ok(false);
      }
      var edited := DeleteFrom(GroupsIn(document, source), group, name);
      match edited
      case Err(e) => return Err(e);
      case Ok((groups, deleted)) =>
        if deleted {
          document := WithGroups(document, source, groups);
          if source.format.AdditionalMap? && groups == [] {
            document := WithoutWrapper(document, WrapperKey(source));
          }
        }
        return Ok(deleted);
    }
  }
}
