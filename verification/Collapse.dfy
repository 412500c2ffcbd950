/** The status view of a dish: duplicate rows of one logical step collapsed to the richest one (api/api/dishes.py). */
module Collapse {
  import opened Wrappers
  import opened Ordering
  import opened Text
  import opened Json
  import opened Rows
  import opened Segments

  datatype Identity = RecipeStep(recipeId: int) | TaskKey(key: string) | RowId(rowId: nat)

  /** `_resolve_recipe_ingredient`: the row's own step, or the recipe step its task key names. */
  function Resolve(row: Row, lookup: map<string, int>): Option<int> {
    var key := Strip(row.step.taskKey);
    if row.step.recipeIngredient.Some? then row.step.recipeIngredient
    else if key != "" && key in lookup then Some(lookup[key])
    else None
  }

  function IdentityOf(row: Row, lookup: map<string, int>): Identity {
    var recipe := Resolve(row, lookup);
    if recipe.Some? then RecipeStep(recipe.value)
    else if Strip(row.step.taskKey) != "" then TaskKey(Strip(row.step.taskKey))
    else RowId(row.step.id)
  }

  function Filled(j: Json): int {
    if j.JObj? && j.fields != map[] then 1 else 0
  }

  /** `_dish_ingredient_rank` */
  function RankKey(row: Row, lookup: map<string, int>): Key {
    [if Resolve(row, lookup).Some? then 1 else 0, Filled(row.step.payload), Filled(row.step.parameters),
     Filled(row.outcome), row.updatedAt, row.step.createdAt, row.step.id]
  }

  /** The last microsecond of the year 9999, standing in for a missing time. */
  const MAX_TIME := 253_402_300_799_999_999

  function DisplayKey(row: Row): Key {
    [if row.startedAt.None? then 1 else 0,
     if row.startedAt.Some? then row.startedAt.value else MAX_TIME,
     if row.completedAt.Some? then row.completedAt.value else MAX_TIME,
     row.step.createdAt, row.step.id]
  }

  /** No row of the same logical step outranks this one. */
  ghost predicate Best(row: Row, rows: seq<Row>, lookup: map<string, int>) {
    forall r :: r in rows && IdentityOf(r, lookup) == IdentityOf(row, lookup) ==>
      !Less(RankKey(row, lookup), RankKey(r, lookup))
  }

  ghost function BestOf(part: seq<Row>, rows: seq<Row>, lookup: map<string, int>): seq<Row> {
    if part == [] then []
    else (if Best(part[0], rows, lookup) then [part[0]] else []) + BestOf(part[1..], rows, lookup)
  }

  /** The collapsed view: the best row of every logical step, in display order. */
  ghost function Collapsed(rows: seq<Row>, lookup: map<string, int>): seq<Row> {
    SortBy(BestOf(rows, rows, lookup), DisplayKey)
  }

  lemma {:induction false} LastIsId(k: Key, l: Key)
    requires k == l && k != []
    ensures k[|k| - 1] == l[|l| - 1]
  {}

  lemma {:induction false} SameRankSameRow(rows: seq<Row>, a: Row, b: Row, lookup: map<string, int>)
    requires DistinctIds(rows) && a in rows && b in rows
    requires RankKey(a, lookup) == RankKey(b, lookup) || DisplayKey(a) == DisplayKey(b)
    ensures a == b
  {
    if RankKey(a, lookup) == RankKey(b, lookup) { LastIsId(RankKey(a, lookup), RankKey(b, lookup)); }
    else { LastIsId(DisplayKey(a), DisplayKey(b)); }
    assert a.step.id == b.step.id;
    var i :| 0 <= i < |rows| && rows[i] == a;
    var j :| 0 <= j < |rows| && rows[j] == b;
    assert i == j;
  }

  lemma {:induction false} BestOfCount(part: seq<Row>, rows: seq<Row>, lookup: map<string, int>)
    ensures forall r ::
              multiset(BestOf(part, rows, lookup))[r] == if Best(r, rows, lookup) then multiset(part)[r] else 0
    ensures forall r :: r in BestOf(part, rows, lookup) <==> r in part && Best(r, rows, lookup)
  {
    if part != [] {
      BestOfCount(part[1..], rows, lookup);
      assert part == [part[0]] + part[1..];
    }
  }

  lemma {:induction false} CollapsedMembers(rows: seq<Row>, lookup: map<string, int>)
    ensures forall r :: r in Collapsed(rows, lookup) <==> r in rows && Best(r, rows, lookup)
  {
    BestOfCount(rows, rows, lookup);
    SortByCorrect(BestOf(rows, rows, lookup), DisplayKey);
  }

  /** Among the rows of one logical step some row is best. */
  lemma {:induction false} BestExists(rows: seq<Row>, lookup: map<string, int>, row: Row) returns (best: Row)
    requires row in rows
    ensures best in rows && IdentityOf(best, lookup) == IdentityOf(row, lookup) && Best(best, rows, lookup)
    decreases |rows|
  {
    var rest := rows[1..];
    assert rows == [rows[0]] + rest;
    var same := IdentityOf(rows[0], lookup) == IdentityOf(row, lookup);
    if exists r :: r in rest && IdentityOf(r, lookup) == IdentityOf(row, lookup) {
      var r :| r in rest && IdentityOf(r, lookup) == IdentityOf(row, lookup);
      var top := BestExists(rest, lookup, r);
      best := if same && Less(RankKey(top, lookup), RankKey(rows[0], lookup)) then rows[0] else top;
      forall q | q in rows && IdentityOf(q, lookup) == IdentityOf(best, lookup)
        ensures !Less(RankKey(best, lookup), RankKey(q, lookup))
      {
        LessTotal(RankKey(best, lookup), RankKey(best, lookup));
        if q in rest && best == rows[0] && same && Less(RankKey(top, lookup), RankKey(rows[0], lookup)) &&
           Less(RankKey(best, lookup), RankKey(q, lookup)) {
          LessTransitive(RankKey(top, lookup), RankKey(best, lookup), RankKey(q, lookup));
        }
      }
    } else {
      best := rows[0];
      LessTotal(RankKey(best, lookup), RankKey(best, lookup));
    }
  }

  lemma {:induction false} BestIsOne(rows: seq<Row>, c: Row, d: Row, lookup: map<string, int>)
    requires DistinctIds(rows) && c in rows && d in rows && Best(c, rows, lookup) && Best(d, rows, lookup)
    requires IdentityOf(c, lookup) == IdentityOf(d, lookup)
    ensures c == d
  {
    LessTotal(RankKey(c, lookup), RankKey(d, lookup));
    SameRankSameRow(rows, c, d, lookup);
  }

  /** Exactly one row of each logical step is shown, and it is of maximal rank among its duplicates. */
  lemma {:induction false} OneRowPerStep(rows: seq<Row>, lookup: map<string, int>, row: Row)
    requires DistinctIds(rows) && row in rows
    ensures exists c :: c in Collapsed(rows, lookup) && IdentityOf(c, lookup) == IdentityOf(row, lookup) &&
              !Less(RankKey(c, lookup), RankKey(row, lookup))
    ensures forall c, d :: c in Collapsed(rows, lookup) && d in Collapsed(rows, lookup) ==>
              IdentityOf(c, lookup) == IdentityOf(d, lookup) ==> c == d
    ensures multiset(Collapsed(rows, lookup)) <= multiset(rows)
  {
    CollapsedMembers(rows, lookup);
    var best := BestExists(rows, lookup, row);
    assert best in Collapsed(rows, lookup);
    forall c, d | c in Collapsed(rows, lookup) && d in Collapsed(rows, lookup) &&
                  IdentityOf(c, lookup) == IdentityOf(d, lookup)
      ensures c == d
    {
      BestIsOne(rows, c, d, lookup);
    }
    BestOfCount(rows, rows, lookup);
    SortByCorrect(BestOf(rows, rows, lookup), DisplayKey);
  }

  lemma {:induction false} DisplayInjective(rows: seq<Row>, part: seq<Row>)
    requires DistinctIds(rows) && forall r :: r in part ==> r in rows
    ensures Injective(part, DisplayKey)
  {
    forall x, y | x in part && y in part && DisplayKey(x) == DisplayKey(y) ensures x == y {
      SameRankSameRow(rows, x, y, map[]);
    }
  }

  lemma {:induction false} BestOfPermutes(a: seq<Row>, b: seq<Row>, lookup: map<string, int>)
    requires multiset(a) == multiset(b)
    ensures multiset(BestOf(a, a, lookup)) == multiset(BestOf(b, b, lookup))
  {
    assert forall r :: r in a <==> r in b by { SameElements(a, b); }
    assert forall r :: Best(r, a, lookup) <==> Best(r, b, lookup);
    forall r ensures multiset(BestOf(a, a, lookup))[r] == multiset(BestOf(b, b, lookup))[r] {
      BestOfCount(a, a, lookup);
      BestOfCount(b, b, lookup);
    }
  }

  /** The whole view is the same for every order in which the rows were read. */
  lemma {:induction false} CollapseIgnoresReadOrder(a: seq<Row>, b: seq<Row>, lookup: map<string, int>)
    requires multiset(a) == multiset(b) && DistinctIds(a)
    ensures Collapsed(a, lookup) == Collapsed(b, lookup)
  {
    BestOfPermutes(a, b, lookup);
    assert forall r :: r in BestOf(a, a, lookup) ==> r in a by { BestOfCount(a, a, lookup); }
    DisplayInjective(a, BestOf(a, a, lookup));
    SortByPermutation(BestOf(a, a, lookup), BestOf(b, b, lookup), DisplayKey);
  }

  /** With no duplicated step the view hides nothing. */
  lemma {:induction false} NothingHidden(rows: seq<Row>, lookup: map<string, int>)
    requires forall a, b :: a in rows && b in rows && IdentityOf(a, lookup) == IdentityOf(b, lookup) ==> a == b
    ensures multiset(Collapsed(rows, lookup)) == multiset(rows)
  {
    forall r | r in rows ensures Best(r, rows, lookup) { LessTotal(RankKey(r, lookup), RankKey(r, lookup)); }
    BestOfCount(rows, rows, lookup);
    assert multiset(BestOf(rows, rows, lookup)) == multiset(rows);
    SortByCorrect(BestOf(rows, rows, lookup), DisplayKey);
  }

  // ---- The loop that fills the view ------------------------------------------------

  lemma {:induction false} DistinctCount<T>(s: seq<T>)
    requires forall i, j :: 0 <= i < j < |s| ==> s[i] != s[j]
    ensures forall x :: multiset(s)[x] == if x in s then 1 else 0
  {
    if s != [] {
      DistinctCount(s[1..]);
      assert s == [s[0]] + s[1..];
    }
  }

  lemma {:induction false} ValuesPermuteBest(values: seq<Row>, rows: seq<Row>, lookup: map<string, int>)
    requires forall i, j :: 0 <= i < j < |values| ==> values[i] != values[j]
    requires forall i, j :: 0 <= i < j < |rows| ==> rows[i] != rows[j]
    requires forall r :: r in values <==> r in rows && Best(r, rows, lookup)
    ensures multiset(values) == multiset(BestOf(rows, rows, lookup))
  {
    DistinctCount(values);
    DistinctCount(rows);
    BestOfCount(rows, rows, lookup);
    forall x ensures multiset(values)[x] == multiset(BestOf(rows, rows, lookup))[x] {
      assert multiset(values)[x] == if x in values then 1 else 0;
      assert multiset(rows)[x] == if x in rows then 1 else 0;
    }
  }

  /** A duplicate-free arrangement of the best rows sorts to the view. */
  lemma {:induction false} CollapsedFromValues(values: seq<Row>, rows: seq<Row>, lookup: map<string, int>)
    requires DistinctIds(rows) && forall i, j :: 0 <= i < j < |values| ==> values[i] != values[j]
    requires forall r :: r in values <==> r in rows && Best(r, rows, lookup)
    ensures SortBy(values, DisplayKey) == Collapsed(rows, lookup)
  {
    ValuesPermuteBest(values, rows, lookup);
    DisplayInjective(rows, values);
    SortByPermutation(values, BestOf(rows, rows, lookup), DisplayKey);
  }

  /** What the dict holds after reading `part`: for every step seen, its best row so far. */
  ghost predicate Selects(selected: map<Identity, Row>, part: seq<Row>, lookup: map<string, int>) {
    (forall r :: r in part ==> IdentityOf(r, lookup) in selected) &&
    forall k :: k in selected ==>
      selected[k] in part && IdentityOf(selected[k], lookup) == k && Best(selected[k], part, lookup)
  }

  /** One round of the dictionary: a record takes its step's place unless the one there ranks at least as high. */
  function Chosen(selected: map<Identity, Row>, row: Row, lookup: map<string, int>): map<Identity, Row> {
    var k := IdentityOf(row, lookup);
    if k !in selected || Less(RankKey(selected[k], lookup), RankKey(row, lookup)) then selected[k := row] else selected
  }

  lemma {:induction false} ChosenIsBest(selected: map<Identity, Row>, part: seq<Row>, row: Row,
                                        lookup: map<string, int>)
    requires Selects(selected, part, lookup)
    ensures var k := IdentityOf(row, lookup);
            var best := Chosen(selected, row, lookup)[k];
            best in part + [row] && IdentityOf(best, lookup) == k && Best(best, part + [row], lookup)
  {
    var k := IdentityOf(row, lookup);
    var best := Chosen(selected, row, lookup)[k];
    LessTotal(RankKey(row, lookup), RankKey(row, lookup));
    forall r | r in part + [row] && IdentityOf(r, lookup) == k
      ensures !Less(RankKey(best, lookup), RankKey(r, lookup))
    {
      if r in part && best == row && Less(RankKey(row, lookup), RankKey(r, lookup)) {
        if Less(RankKey(selected[k], lookup), RankKey(row, lookup)) {
          LessTransitive(RankKey(selected[k], lookup), RankKey(row, lookup), RankKey(r, lookup));
        }
      }
    }
  }

  lemma {:induction false} SelectsNext(selected: map<Identity, Row>, part: seq<Row>, row: Row, lookup: map<string, int>)
    requires Selects(selected, part, lookup)
    ensures Selects(Chosen(selected, row, lookup), part + [row], lookup)
  {
    var k, after := IdentityOf(row, lookup), Chosen(selected, row, lookup);
    ChosenIsBest(selected, part, row, lookup);
    forall q | q in after
      ensures after[q] in part + [row] && IdentityOf(after[q], lookup) == q && Best(after[q], part + [row], lookup)
    {
      if q != k { assert after[q] == selected[q]; }
    }
  }

  /** The dictionary's values in insertion order. */
  function ValuesOf(order: seq<Identity>, selected: map<Identity, Row>): seq<Row>
    requires forall k :: k in order ==> k in selected
  {
    seq(|order|, p requires 0 <= p < |order| => assert order[p] in order; selected[order[p]])
  }

  /** `order` lists the dictionary's keys, each once. */
  ghost predicate Lists(order: seq<Identity>, selected: map<Identity, Row>) {
    (forall k :: k in order <==> k in selected) && forall p, q :: 0 <= p < q < |order| ==> order[p] != order[q]
  }

  lemma {:induction false} ListsNext(order: seq<Identity>, selected: map<Identity, Row>, row: Row,
                                     lookup: map<string, int>)
    requires Lists(order, selected)
    ensures var k := IdentityOf(row, lookup);
            Lists(if k in selected then order else order + [k], Chosen(selected, row, lookup))
  {}

  /** One round of the loop, over the dictionary and its insertion order. */
  method Consider(selected: map<Identity, Row>, order: seq<Identity>, record: Row, lookup: map<string, int>)
    returns (chosen: map<Identity, Row>, listed: seq<Identity>)
    ensures chosen == Chosen(selected, record, lookup)
    ensures listed == if IdentityOf(record, lookup) in selected then order else order + [IdentityOf(record, lookup)]
  {
    chosen, listed := selected, order;
    var identity := IdentityOf(record, lookup);
    if identity !in selected {
      chosen, listed := selected[identity := record], order + [identity];
    } else if Less(RankKey(selected[identity], lookup), RankKey(record, lookup)) {
      chosen := selected[identity := record];
    }
  }

  /** The loop's state after the first `i` records. */
  ghost predicate HaveRead(selected: map<Identity, Row>, order: seq<Identity>, records: seq<Row>, i: int,
                           lookup: map<string, int>) {
    0 <= i <= |records| && Selects(selected, records[..i], lookup) && Lists(order, selected)
  }

  lemma {:induction false} ReadNext(selected: map<Identity, Row>, order: seq<Identity>, records: seq<Row>, i: nat,
                                    lookup: map<string, int>)
    requires HaveRead(selected, order, records, i, lookup) && i < |records|
    ensures var k := IdentityOf(records[i], lookup);
            var listed := if k in selected then order else order + [k];
            HaveRead(Chosen(selected, records[i], lookup), listed, records, i + 1, lookup)
  {
    var part := records[..i];
    assert records[..i + 1] == part + [records[i]];
    SelectsNext(selected, part, records[i], lookup);
    ListsNext(order, selected, records[i], lookup);
  }

  lemma {:induction false} CollapsedFromDictionary(order: seq<Identity>, selected: map<Identity, Row>,
                                                   rows: seq<Row>, lookup: map<string, int>)
    requires DistinctIds(rows) && HaveRead(selected, order, rows, |rows|, lookup)
    ensures Lists(order, selected)
    ensures SortBy(ValuesOf(order, selected), DisplayKey) == Collapsed(rows, lookup)
  {
    assert rows[..|rows|] == rows;
    ValuesAreBest(ValuesOf(order, selected), order, selected, rows, lookup);
    CollapsedFromValues(ValuesOf(order, selected), rows, lookup);
  }

  /** `_collapse_dish_ingredient_records`; `order` is the dict's insertion order. */
  method CollapseDishIngredientRecords(records: seq<Row>, lookup: map<string, int>) returns (collapsed: seq<Row>)
    requires DistinctIds(records)
    ensures collapsed == Collapsed(records, lookup)
  {
    var selected: map<Identity, Row> := map[];
    var order: seq<Identity> := [];
    for i := 0 to |records|
      invariant HaveRead(selected, order, records, i, lookup)
    {
      ReadNext(selected, order, records, i, lookup);
      selected, order := Consider(selected, order, records[i], lookup);
    }
    CollapsedFromDictionary(order, selected, records, lookup);
    collapsed := SortBy(ValuesOf(order, selected), DisplayKey);
  }

  lemma {:induction false} ValuesAreBest(values: seq<Row>, order: seq<Identity>, selected: map<Identity, Row>,
                                         rows: seq<Row>, lookup: map<string, int>)
    requires DistinctIds(rows) && Selects(selected, rows, lookup)
    requires Lists(order, selected)
    requires |values| == |order| && forall p :: 0 <= p < |order| ==> values[p] == selected[order[p]]
    ensures forall i, j :: 0 <= i < j < |values| ==> values[i] != values[j]
    ensures forall r :: r in values <==> r in rows && Best(r, rows, lookup)
  {
    forall i, j | 0 <= i < j < |values| ensures values[i] != values[j] {
      assert IdentityOf(values[i], lookup) == order[i] && IdentityOf(values[j], lookup) == order[j];
    }
    forall r | r in rows && Best(r, rows, lookup) ensures r in values {
      var k := IdentityOf(r, lookup);
      assert k in order;
      var p :| 0 <= p < |order| && order[p] == k;
      LessTotal(RankKey(r, lookup), RankKey(selected[k], lookup));
      SameRankSameRow(rows, r, if RankKey(r, lookup) == RankKey(selected[k], lookup) then selected[k] else r, lookup);
      assert values[p] == r;
    }
  }

  // ---- The view without keys -----------------------------------------------------------

  /** The row belongs to this recipe step: by its own column, or by its task key where that is not set. */
  predicate StandsFor(row: Row, lookup: map<string, int>, recipeStep: int) {
    row.step.recipeIngredient == Some(recipeStep) ||
    (row.step.recipeIngredient.None? && Strip(row.step.taskKey) != "" && Strip(row.step.taskKey) in lookup &&
     lookup[Strip(row.step.taskKey)] == recipeStep)
  }

  /** Two rows of one logical step: the same recipe step, else the same task key, else the same row. */
  ghost predicate SameStep(a: Row, b: Row, lookup: map<string, int>) {
    (exists x :: StandsFor(a, lookup, x) && StandsFor(b, lookup, x)) ||
    ((forall x :: !StandsFor(a, lookup, x) && !StandsFor(b, lookup, x)) &&
     Strip(a.step.taskKey) == Strip(b.step.taskKey) && (Strip(a.step.taskKey) == "" ==> a.step.id == b.step.id))
  }

  lemma {:induction false} ResolveMeaning(row: Row, lookup: map<string, int>)
    ensures forall x :: StandsFor(row, lookup, x) <==> Resolve(row, lookup) == Some(x)
  {}

  lemma {:induction false} IdentityMeaning(a: Row, b: Row, lookup: map<string, int>)
    ensures IdentityOf(a, lookup) == IdentityOf(b, lookup) <==> SameStep(a, b, lookup)
  {
    ResolveMeaning(a, lookup);
    ResolveMeaning(b, lookup);
    if Resolve(a, lookup).Some? { assert StandsFor(a, lookup, Resolve(a, lookup).value); }
    if Resolve(b, lookup).Some? { assert StandsFor(b, lookup, Resolve(b, lookup).value); }
  }

  predicate HasFields(j: Json) {
    j.JObj? && |j.fields| > 0
  }

  /** Having it wins over not having it; between equals the rest decides. */
  predicate Wins(has: bool, hasOther: bool, rest: bool) {
    (has && !hasOther) || (has == hasOther && rest)
  }

  /** Row a is richer than row b, and newer between equally rich ones. */
  ghost predicate Outranks(a: Row, b: Row, lookup: map<string, int>) {
    Wins(exists x :: StandsFor(a, lookup, x), exists x :: StandsFor(b, lookup, x),
    Wins(HasFields(a.step.payload), HasFields(b.step.payload),
    Wins(HasFields(a.step.parameters), HasFields(b.step.parameters),
    Wins(HasFields(a.outcome), HasFields(b.outcome),
         a.updatedAt > b.updatedAt || (a.updatedAt == b.updatedAt &&
         (a.step.createdAt > b.step.createdAt ||
          (a.step.createdAt == b.step.createdAt && a.step.id > b.step.id)))))))
  }

  function Flag(b: bool): int {
    if b then 1 else 0
  }

  lemma {:induction false} LessByFlag(x: bool, a: Key, y: bool, b: Key)
    ensures Less([Flag(x)] + a, [Flag(y)] + b) <==> Wins(y, x, Less(a, b))
  {
    LessByField(Flag(x), a, Flag(y), b);
  }

  /** The tail of a rank: the times and the id. */
  lemma {:induction false} NewerMeaning(a: Row, b: Row)
    ensures Less([b.updatedAt, b.step.createdAt, b.step.id], [a.updatedAt, a.step.createdAt, a.step.id]) <==>
            a.updatedAt > b.updatedAt || (a.updatedAt == b.updatedAt &&
            (a.step.createdAt > b.step.createdAt ||
             (a.step.createdAt == b.step.createdAt && a.step.id > b.step.id)))
  {
    LessByField(b.updatedAt, [b.step.createdAt, b.step.id], a.updatedAt, [a.step.createdAt, a.step.id]);
    LessByField(b.step.createdAt, [b.step.id], a.step.createdAt, [a.step.id]);
    LessByField(b.step.id, [], a.step.id, []);
    assert [b.updatedAt] + [b.step.createdAt, b.step.id] == [b.updatedAt, b.step.createdAt, b.step.id];
    assert [a.updatedAt] + [a.step.createdAt, a.step.id] == [a.updatedAt, a.step.createdAt, a.step.id];
  }

  function FlagsFrom(row: Row, tail: Key): Key {
    [Flag(HasFields(row.step.payload))] + ([Flag(HasFields(row.step.parameters))] +
    ([Flag(HasFields(row.outcome))] + tail))
  }

  lemma {:induction false} RankOrderMeaning(a: Row, b: Row, lookup: map<string, int>)
    ensures Less(RankKey(b, lookup), RankKey(a, lookup)) <==> Outranks(a, b, lookup)
  {
    var ta := [a.updatedAt, a.step.createdAt, a.step.id];
    var tb := [b.updatedAt, b.step.createdAt, b.step.id];
    RankShape(a, lookup);
    RankShape(b, lookup);
    LessByFlag(Resolve(b, lookup).Some?, FlagsFrom(b, tb), Resolve(a, lookup).Some?, FlagsFrom(a, ta));
    LessByFlag(HasFields(b.step.payload), FlagsFrom(b, tb)[1..], HasFields(a.step.payload), FlagsFrom(a, ta)[1..]);
    LessByFlag(HasFields(b.step.parameters), [Flag(HasFields(b.outcome))] + tb,
               HasFields(a.step.parameters), [Flag(HasFields(a.outcome))] + ta);
    LessByFlag(HasFields(b.outcome), tb, HasFields(a.outcome), ta);
    NewerMeaning(a, b);
  }

  lemma {:induction false} RankShape(row: Row, lookup: map<string, int>)
    ensures RankKey(row, lookup) == [Flag(Resolve(row, lookup).Some?)] +
                                    FlagsFrom(row, [row.updatedAt, row.step.createdAt, row.step.id])
    ensures Resolve(row, lookup).Some? <==> exists x :: StandsFor(row, lookup, x)
  {
    ResolveMeaning(row, lookup);
    if Resolve(row, lookup).Some? { assert StandsFor(row, lookup, Resolve(row, lookup).value); }
  }

  function EndOf(row: Row): int {
    if row.completedAt.Some? then row.completedAt.value else MAX_TIME
  }

  /** Row a is shown before row b: started rows by start first, then by end, creation and id. */
  predicate ShownBefore(a: Row, b: Row) {
    if a.startedAt.Some? && b.startedAt.Some? && a.startedAt.value != b.startedAt.value
    then a.startedAt.value < b.startedAt.value
    else if a.startedAt.Some? != b.startedAt.Some? then a.startedAt.Some?
    else if EndOf(a) != EndOf(b) then EndOf(a) < EndOf(b)
    else if a.step.createdAt != b.step.createdAt then a.step.createdAt < b.step.createdAt
    else a.step.id < b.step.id
  }

  lemma {:induction false} DisplayOrderMeaning(a: Row, b: Row)
    ensures Less(DisplayKey(a), DisplayKey(b)) <==> ShownBefore(a, b)
  {
    var ka, kb := DisplayKey(a), DisplayKey(b);
    assert ka[4..] == [ka[4]] + [] && kb[4..] == [kb[4]] + [];
    assert ka[3..] == [ka[3]] + ka[4..] && kb[3..] == [kb[3]] + kb[4..];
    assert ka[2..] == [ka[2]] + ka[3..] && kb[2..] == [kb[2]] + kb[3..];
    assert ka[1..] == [ka[1]] + ka[2..] && kb[1..] == [kb[1]] + kb[2..];
    assert ka == [ka[0]] + ka[1..] && kb == [kb[0]] + kb[1..];
    LessByField(ka[0], ka[1..], kb[0], kb[1..]);
    LessByField(ka[1], ka[2..], kb[1], kb[2..]);
    LessByField(ka[2], ka[3..], kb[2], kb[3..]);
    LessByField(ka[3], ka[4..], kb[3], kb[4..]);
    LessByField(ka[4], [], kb[4], []);
  }

  /** A shown row outranks every other row of its step, and every step is shown. */
  lemma {:induction false} ShownRowOutranks(rows: seq<Row>, lookup: map<string, int>, r: Row)
    requires DistinctIds(rows) && r in rows
    ensures r in Collapsed(rows, lookup) <==>
            forall q :: q in rows && q != r && SameStep(q, r, lookup) ==> Outranks(r, q, lookup)
  {
    CollapsedMembers(rows, lookup);
    forall q | q in rows
      ensures IdentityOf(q, lookup) == IdentityOf(r, lookup) <==> SameStep(q, r, lookup)
      ensures Less(RankKey(q, lookup), RankKey(r, lookup)) <==> Outranks(r, q, lookup)
      ensures !Less(RankKey(r, lookup), RankKey(q, lookup)) <==> q == r || Less(RankKey(q, lookup), RankKey(r, lookup))
    {
      IdentityMeaning(q, r, lookup);
      RankOrderMeaning(r, q, lookup);
      LessTotal(RankKey(r, lookup), RankKey(q, lookup));
      if RankKey(r, lookup) == RankKey(q, lookup) { SameRankSameRow(rows, r, q, lookup); }
    }
  }

  lemma {:induction false} DisplayDiffers(a: Row, b: Row)
    requires a.step.id != b.step.id
    ensures DisplayKey(a) != DisplayKey(b)
  {
    assert DisplayKey(a)[4] != DisplayKey(b)[4];
  }

  /** The view lists its rows in display order. */
  lemma {:induction false} ViewOrder(rows: seq<Row>, lookup: map<string, int>)
    requires DistinctIds(rows)
    ensures var view := Collapsed(rows, lookup);
            forall i, j :: 0 <= i < j < |view| ==> ShownBefore(view[i], view[j])
  {
    var view := Collapsed(rows, lookup);
    CollapsedMembers(rows, lookup);
    BestOfCount(rows, rows, lookup);
    SortByCorrect(BestOf(rows, rows, lookup), DisplayKey);
    PartDistinct(rows, view);
    forall i: nat, j: nat | i < j < |view| ensures ShownBefore(view[i], view[j]) {
      DisplayDiffers(view[i], view[j]);
      SortedStrictly(view, DisplayKey, i, j);
      DisplayOrderMeaning(view[i], view[j]);
    }
  }
}
