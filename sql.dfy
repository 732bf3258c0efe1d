/** The SQL fragment builders of helpers/sql.js. */
module Sql {
  import opened Wrappers
  import opened Text
  import opened Js

  // ---------------------------------------------------------------------------------------
  // sqlForPartialUpdate
  // ---------------------------------------------------------------------------------------

  /** One own property of the `dataToUpdate` object: its key and its value. A sequence of
      fields lists them in `Object.keys` order. */
  type Field = (string, Value)

  /** The object `{setCols, values}` returned by `sqlForPartialUpdate`. */
  datatype PartialUpdate = PartialUpdate(setCols: string, values: seq<Value>)

  /** `jsToSql[key] || key`: the mapped column name when the rename map has a non-empty entry
      for the key, the key itself otherwise. */
  function Column(jsToSql: map<string, string>, key: string): (column: string)
    ensures key in jsToSql && jsToSql[key] != "" ==> column == jsToSql[key]
    ensures !(key in jsToSql && jsToSql[key] != "") ==> column == key
    ensures column == "" ==> key == ""
  {
    if key in jsToSql && jsToSql[key] != "" then jsToSql[key] else key
  }

  /** The positional parameter `$n`. */
  function Placeholder(position: nat): string {
    "$" + NatToString(position)
  }

  /** One element of `cols`: the column in double quotes, unescaped, assigned its placeholder. */
  function Assignment(column: string, position: nat): string {
    "\"" + column + "\"=" + Placeholder(position)
  }

  /** `keys.map(...)` for the fields, numbering the placeholders from `first`. */
  function Assignments(data: seq<Field>, jsToSql: map<string, string>, first: nat): (cols: seq<string>)
    ensures |cols| == |data|
    ensures forall i :: 0 <= i < |data| ==> cols[i] == Assignment(Column(jsToSql, data[i].0), first + i)
    decreases |data|
  {
    if |data| == 0 then []
    else [Assignment(Column(jsToSql, data[0].0), first)] + Assignments(data[1..], jsToSql, first + 1)
  }

  /** `Object.values(dataToUpdate)`. */
  function FieldValues(data: seq<Field>): (values: seq<Value>)
    ensures |values| == |data|
    ensures forall i :: 0 <= i < |data| ==> values[i] == data[i].1
    decreases |data|
  {
    if |data| == 0 then [] else [data[0].1] + FieldValues(data[1..])
  }

  /** `sqlForPartialUpdate(dataToUpdate, jsToSql)`: no fields is a "No data" bad request;
      otherwise the i-th assignment (0-based) names the i-th key's column and placeholder
      `$(i+1)`, and the i-th value is the i-th field's value. */
  function SqlForPartialUpdate(data: seq<Field>, jsToSql: map<string, string>): (r: Result<PartialUpdate, ExpressError>)
    ensures r.Err? <==> |data| == 0
    ensures r.Err? ==> r.error == BadRequestError("No data")
    ensures r.Ok? ==> |r.value.values| == |data|
    ensures r.Ok? ==> forall i :: 0 <= i < |data| ==> r.value.values[i] == data[i].1
    ensures r.Ok? ==> r.value.setCols == Join(Assignments(data, jsToSql, 1), ", ")
  {
    if |data| == 0 then Err(BadRequestError("No data"))
    else Ok(PartialUpdate(Join(Assignments(data, jsToSql, 1), ", "), FieldValues(data)))
  }

  /** Different positions get different placeholders. */
  lemma PlaceholdersDistinct(m: nat, n: nat)
    requires m != n
    ensures Placeholder(m) != Placeholder(n)
  {
    NatToStringInjective(m, n);
    assert Placeholder(m)[1..] == NatToString(m);
    assert Placeholder(n)[1..] == NatToString(n);
  }

  /** An assignment holds exactly one `$` when its column holds none. */
  lemma AssignmentDollars(column: string, position: nat)
    ensures CountChar(Assignment(column, position), '$') == CountChar(column, '$') + 1
  {
    var digits := NatToString(position);
    CountCharDigits(digits, '$');
    CountCharAppend("$", digits, '$');
    CountCharAppend("\"" + column, "\"=", '$');
    CountCharAppend("\"", column, '$');
    CountCharAppend("\"" + column + "\"=", Placeholder(position), '$');
    assert Assignment(column, position) == "\"" + column + "\"=" + Placeholder(position);
  }

  lemma {:induction false} AssignmentsDollars(data: seq<Field>, jsToSql: map<string, string>, first: nat)
    requires forall i :: 0 <= i < |data| ==> CountChar(Column(jsToSql, data[i].0), '$') == 0
    ensures CountCharAll(Assignments(data, jsToSql, first), '$') == |data|
    decreases |data|
  {
    if |data| > 0 {
      var cols := Assignments(data, jsToSql, first);
      AssignmentDollars(Column(jsToSql, data[0].0), first);
      AssignmentsDollars(data[1..], jsToSql, first + 1);
      assert cols[1..] == Assignments(data[1..], jsToSql, first + 1);
    }
  }

  /** When no resolved column contains `$`, the `$n` placeholders in `setCols` are exactly as
      many as the values they are bound to. */
  lemma PartialUpdatePlaceholderCount(data: seq<Field>, jsToSql: map<string, string>)
    requires |data| > 0
    requires forall i :: 0 <= i < |data| ==> CountChar(Column(jsToSql, data[i].0), '$') == 0
    ensures SqlForPartialUpdate(data, jsToSql).Ok?
    ensures CountChar(SqlForPartialUpdate(data, jsToSql).value.setCols, '$') == |SqlForPartialUpdate(data, jsToSql).value.values|
  {
    assert CountChar(", ", '$') == 0;
    CountCharJoin(Assignments(data, jsToSql, 1), ", ", '$');
    AssignmentsDollars(data, jsToSql, 1);
  }

  /** Entries of the rename map for keys that are not being updated have no effect. */
  lemma UnusedRenamesIrrelevant(data: seq<Field>, m1: map<string, string>, m2: map<string, string>)
    requires forall i :: 0 <= i < |data| ==> (data[i].0 in m1 <==> data[i].0 in m2)
    requires forall i :: 0 <= i < |data| && data[i].0 in m1 ==> m1[data[i].0] == m2[data[i].0]
    ensures SqlForPartialUpdate(data, m1) == SqlForPartialUpdate(data, m2)
  {
    var c1, c2 := Assignments(data, m1, 1), Assignments(data, m2, 1);
    assert forall i :: 0 <= i < |data| ==> c1[i] == c2[i];
    assert c1 == c2;
  }

  /** helpers/sql.test.js, "works: 1 item". */
  lemma PartialUpdateOneItem()
    ensures SqlForPartialUpdate([("f1", Str("v1"))], map["f1" := "f1", "fF2" := "f2"])
         == Ok(PartialUpdate("\"f1\"=$1", [Str("v1")]))
  {
    var data := [("f1", Str("v1"))];
    var cols := Assignments(data, map["f1" := "f1", "fF2" := "f2"], 1);
    assert Placeholder(1) == "$1" by { assert NatToString(1) == "1"; }
    assert cols[0] == "\"f1\"=$1";
    assert FieldValues(data) == [Str("v1")];
  }

  /** helpers/sql.test.js, "works: 2 items". */
  lemma PartialUpdateTwoItems()
    ensures SqlForPartialUpdate([("f1", Str("v1")), ("jsF2", Str("v2"))], map["jsF2" := "f2"])
         == Ok(PartialUpdate("\"f1\"=$1, \"f2\"=$2", [Str("v1"), Str("v2")]))
  {
    var data := [("f1", Str("v1")), ("jsF2", Str("v2"))];
    TwoItemsAssignments();
    var cols := ["\"f1\"=$1", "\"f2\"=$2"];
    assert Join(cols, ", ") == "\"f1\"=$1, \"f2\"=$2" by {
      assert cols[1..] == ["\"f2\"=$2"];
    }
    assert FieldValues(data) == [Str("v1"), Str("v2")];
  }

  lemma TwoItemsAssignments()
    ensures Assignments([("f1", Str("v1")), ("jsF2", Str("v2"))], map["jsF2" := "f2"], 1)
         == ["\"f1\"=$1", "\"f2\"=$2"]
  {
    var cols := Assignments([("f1", Str("v1")), ("jsF2", Str("v2"))], map["jsF2" := "f2"], 1);
    assert Placeholder(1) == "$1" by { assert NatToString(1) == "1"; }
    assert Placeholder(2) == "$2" by { assert NatToString(2) == "2"; }
    assert cols[0] == "\"f1\"=$1" && cols[1] == "\"f2\"=$2";
  }

  // ---------------------------------------------------------------------------------------
  // sqlCompanyFilter
  // ---------------------------------------------------------------------------------------

  /** The `filter` object of `sqlCompanyFilter`: the three recognised properties, each either
      missing or holding a value, and `otherKeys`, how many further keys `Object.keys` lists
      (unrecognised properties, or recognised ones holding `undefined`). */
  datatype CompanyFilter = CompanyFilter(
    minEmployees: Option<int>,
    maxEmployees: Option<int>,
    name: Option<string>,
    otherKeys: nat)

  /** The three conditions a company filter can contribute, in their fixed order. */
  datatype Criterion = MinEmployees | MaxEmployees | NameLike

  function Rank(c: Criterion): nat {
    match c
    case MinEmployees => 0
    case MaxEmployees => 1
    case NameLike => 2
  }

  const AllCriteria: seq<Criterion> := [MinEmployees, MaxEmployees, NameLike]

  /** The JavaScript value of a recognised property: `undefined` when it is missing. */
  function Property(f: CompanyFilter, c: Criterion): Value {
    match c
    case MinEmployees => if f.minEmployees.Some? then Num(f.minEmployees.value) else Undefined
    case MaxEmployees => if f.maxEmployees.Some? then Num(f.maxEmployees.value) else Undefined
    case NameLike => if f.name.Some? then Str(f.name.value) else Undefined
  }

  /** `Object.keys(filter).length`: zero exactly when no property at all is present. */
  function KeyCount(f: CompanyFilter): (n: nat)
    ensures n == 0 <==> f.otherKeys == 0 && forall c: Criterion :: Property(f, c) == Undefined
    ensures f.otherKeys <= n <= f.otherKeys + 3
  {
    assert Property(f, MinEmployees) == Undefined <==> f.minEmployees.None?;
    assert Property(f, MaxEmployees) == Undefined <==> f.maxEmployees.None?;
    assert Property(f, NameLike) == Undefined <==> f.name.None?;
    (if f.minEmployees.Some? then 1 else 0) + (if f.maxEmployees.Some? then 1 else 0) +
    (if f.name.Some? then 1 else 0) + f.otherKeys
  }

  /** `minEmployees > maxEmployees`: a comparison with `undefined` is false, so this holds only
      when both bounds are given. */
  predicate RangeInverted(f: CompanyFilter)
    ensures RangeInverted(f) <==> Greater(Property(f, MinEmployees), Property(f, MaxEmployees))
  {
    f.minEmployees.Some? && f.maxEmployees.Some? && f.minEmployees.value > f.maxEmployees.value
  }

  /** Whether the criterion's property is truthy: a bound of 0 and an empty name do not count. */
  predicate Active(f: CompanyFilter, c: Criterion)
    ensures Active(f, c) <==> Truthy(Property(f, c))
  {
    match c
    case MinEmployees => f.minEmployees.Some? && f.minEmployees.value != 0
    case MaxEmployees => f.maxEmployees.Some? && f.maxEmployees.value != 0
    case NameLike => f.name.Some? && f.name.value != ""
  }

  /** The SQL condition text of an active criterion, with the value pasted into the text. */
  function Condition(f: CompanyFilter, c: Criterion): string
    requires Active(f, c)
  {
    match c
    case MinEmployees => "num_employees >= " + IntToString(f.minEmployees.value)
    case MaxEmployees => "num_employees <= " + IntToString(f.maxEmployees.value)
    case NameLike => "name ILIKE '%" + f.name.value + "%'"
  }

  /** The criteria of `cs` that are active, in the order of `cs`. */
  function ActiveCriteria(f: CompanyFilter, cs: seq<Criterion>): (active: seq<Criterion>)
    ensures |active| <= |cs|
    ensures forall c :: c in active <==> c in cs && Active(f, c)
    decreases |cs|
  {
    if |cs| == 0 then []
    else if Active(f, cs[0]) then [cs[0]] + ActiveCriteria(f, cs[1..])
    else ActiveCriteria(f, cs[1..])
  }

  /** Picking out the active criteria keeps an ascending order. */
  lemma {:induction false} ActiveCriteriaOrdered(f: CompanyFilter, cs: seq<Criterion>)
    requires forall i, j :: 0 <= i < j < |cs| ==> Rank(cs[i]) < Rank(cs[j])
    ensures forall i, j :: 0 <= i < j < |ActiveCriteria(f, cs)| ==>
              Rank(ActiveCriteria(f, cs)[i]) < Rank(ActiveCriteria(f, cs)[j])
    decreases |cs|
  {
    if |cs| > 0 {
      ActiveCriteriaOrdered(f, cs[1..]);
      var rest := ActiveCriteria(f, cs[1..]);
      forall k | 0 <= k < |rest| ensures Rank(cs[0]) < Rank(rest[k]) {
        assert rest[k] in cs[1..];
      }
    }
  }

  /** The condition texts of the active criteria, in order. */
  function Conditions(f: CompanyFilter, cs: seq<Criterion>): seq<string>
    requires forall c :: c in cs ==> Active(f, c)
  {
    seq(|cs|, i requires 0 <= i < |cs| => Condition(f, cs[i]))
  }

  /** The criterion as a one-element list when it is active, the empty list otherwise. */
  function IfActive(f: CompanyFilter, c: Criterion): seq<Criterion> {
    if Active(f, c) then [c] else []
  }

  /** The active criteria of a filter, written out per criterion. */
  lemma ActiveCriteriaUnrolled(f: CompanyFilter)
    ensures ActiveCriteria(f, AllCriteria)
         == IfActive(f, MinEmployees) + IfActive(f, MaxEmployees) + IfActive(f, NameLike)
  {
    assert AllCriteria[1..] == [MaxEmployees, NameLike];
    assert AllCriteria[1..][1..] == [NameLike];
    assert ActiveCriteria(f, [NameLike]) == IfActive(f, NameLike) by {
      assert [NameLike][1..] == [];
    }
  }

  /** What `sqlCompanyFilter(filter)` returns or throws when its range check throws
      `rangeError`; `None` stands for an omitted filter. */
  function CompanyFilterWith(filter: Option<CompanyFilter>, rangeError: ExpressError): (r: Result<string, ExpressError>)
    ensures filter.None? ==> r == Ok("")
    ensures r.Err? ==> r.error == rangeError
    ensures r.Ok? && r.value != "" ==> |r.value| >= 6 && r.value[..6] == "WHERE "
  {
    if filter.None? || KeyCount(filter.value) == 0 then Ok("")
    else if RangeInverted(filter.value) then Err(rangeError)
    else Ok("WHERE " + Join(Conditions(filter.value, ActiveCriteria(filter.value, AllCriteria)), " AND "))
  }

  /** What `sqlCompanyFilter(filter)` is meant to return or throw: the range check throws
      the BadRequestError with the range message. */
  function CompanyFilterSpec(filter: Option<CompanyFilter>): (r: Result<string, ExpressError>)
    ensures filter.None? ==> r == Ok("")
    ensures r.Err? ==> r.error == BadRequestError("Min employees cannot be greater than max")
    ensures r.Ok? && r.value != "" ==> |r.value| >= 6 && r.value[..6] == "WHERE "
  {
    CompanyFilterWith(filter, BadRequestError("Min employees cannot be greater than max"))
  }

  /** The TypeError a JavaScript engine throws when a class constructor is called as a plain
      function, without `new`. */
  const CallWithoutNew: string := "Class constructor BadRequestError cannot be invoked without 'new'"

  /** `sqlCompanyFilter` as written: the range check calls `BadRequestError` without `new`, so
      an inverted range throws a TypeError instead of the intended BadRequestError. */
  function CompanyFilterAsWritten(filter: Option<CompanyFilter>): (r: Result<string, ExpressError>)
    ensures r.Err? ==> r.error == TypeError(CallWithoutNew)
  {
    CompanyFilterWith(filter, TypeError(CallWithoutNew))
  }

  /** The missing `new` changes only the error: both fail on the same filters, they build the
      same text otherwise, and the as-written one never throws the BadRequestError. */
  lemma MissingNewOnlyChangesError(filter: Option<CompanyFilter>)
    ensures CompanyFilterAsWritten(filter).Err? <==> CompanyFilterSpec(filter).Err?
    ensures CompanyFilterAsWritten(filter).Ok? ==> CompanyFilterAsWritten(filter) == CompanyFilterSpec(filter)
    ensures CompanyFilterAsWritten(filter) != Err(BadRequestError("Min employees cannot be greater than max"))
  {
  }

  /** A filter with `minEmployees` 10 and `maxEmployees` 5 shows the difference. */
  lemma InvertedRangeThrowsTypeError()
    ensures CompanyFilterAsWritten(Some(CompanyFilter(Some(10), Some(5), None, 0))) == Err(TypeError(CallWithoutNew))
    ensures CompanyFilterSpec(Some(CompanyFilter(Some(10), Some(5), None, 0)))
         == Err(BadRequestError("Min employees cannot be greater than max"))
  {
  }

  /** `sqlCompanyFilter`, building `filterArr` by conditional pushes. */
  method SqlCompanyFilter(filter: Option<CompanyFilter>) returns (r: Result<string, ExpressError>)
    ensures r == CompanyFilterSpec(filter)
  {
    if filter.None? || KeyCount(filter.value) == 0 {
      return Ok("");
    }
    var f := filter.value;
    if f.minEmployees.Some? && f.maxEmployees.Some? && f.minEmployees.value > f.maxEmployees.value {
      return Err(BadRequestError("Min employees cannot be greater than max"));
    }
    var filterArr: seq<string> := [];
    ghost var used: seq<Criterion> := [];
    if f.minEmployees.Some? && f.minEmployees.value != 0 {
      filterArr := filterArr + ["num_employees >= " + IntToString(f.minEmployees.value)];
      ConditionsPush(f, used, MinEmployees);
      used := used + [MinEmployees];
    }
    assert used == IfActive(f, MinEmployees) && filterArr == Conditions(f, used);
    if f.maxEmployees.Some? && f.maxEmployees.value != 0 {
      filterArr := filterArr + ["num_employees <= " + IntToString(f.maxEmployees.value)];
      ConditionsPush(f, used, MaxEmployees);
      used := used + [MaxEmployees];
    }
    assert used == IfActive(f, MinEmployees) + IfActive(f, MaxEmployees) && filterArr == Conditions(f, used);
    if f.name.Some? && f.name.value != "" {
      filterArr := filterArr + ["name ILIKE '%" + f.name.value + "%'"];
      ConditionsPush(f, used, NameLike);
      used := used + [NameLike];
    }
    ActiveCriteriaUnrolled(f);
    assert used == ActiveCriteria(f, AllCriteria);
    assert filterArr == Conditions(f, used);
    SpecWhere(f);
    r := Ok("WHERE " + Join(filterArr, " AND "));
  }

  /** A filter with keys and a consistent range gives `WHERE ` and its joined conditions. */
  lemma SpecWhere(f: CompanyFilter)
    requires KeyCount(f) > 0 && !RangeInverted(f)
    ensures CompanyFilterSpec(Some(f)) == Ok("WHERE " + Join(Conditions(f, ActiveCriteria(f, AllCriteria)), " AND "))
  {
  }

  /** Pushing an active criterion pushes its condition. */
  lemma ConditionsPush(f: CompanyFilter, cs: seq<Criterion>, c: Criterion)
    requires forall d :: d in cs ==> Active(f, d)
    requires Active(f, c)
    ensures forall d :: d in cs + [c] ==> Active(f, d)
    ensures Conditions(f, cs + [c]) == Conditions(f, cs) + [Condition(f, c)]
  {
  }

  /** The last part of a join is its suffix. */
  lemma {:induction false} JoinEndsWithLast(parts: seq<string>, sep: string)
    requires |parts| > 0
    ensures |Join(parts, sep)| >= |parts[|parts| - 1]|
    ensures Join(parts, sep)[|Join(parts, sep)| - |parts[|parts| - 1]|..] == parts[|parts| - 1]
    decreases |parts|
  {
    if |parts| > 1 {
      JoinEndsWithLast(parts[1..], sep);
    }
  }

  /** The outcomes of `sqlCompanyFilter`: the empty text exactly for an omitted or key-less
      filter, and a failure exactly when both bounds are given and the minimum exceeds the
      maximum; any other filter yields text beginning "WHERE ". */
  lemma CompanyFilterOutcomes(filter: Option<CompanyFilter>)
    ensures CompanyFilterSpec(filter) == Ok("") <==> filter.None? || KeyCount(filter.value) == 0
    ensures CompanyFilterSpec(filter).Err? <==>
              filter.Some? && filter.value.minEmployees.Some? && filter.value.maxEmployees.Some? &&
              filter.value.minEmployees.value > filter.value.maxEmployees.value
    ensures CompanyFilterSpec(filter).Err? ==>
              CompanyFilterSpec(filter).error == BadRequestError("Min employees cannot be greater than max")
    ensures CompanyFilterSpec(filter).Ok? && CompanyFilterSpec(filter).value != "" ==>
              |CompanyFilterSpec(filter).value| >= 6 && CompanyFilterSpec(filter).value[..6] == "WHERE "
  {
  }

  /** For a filter that passes the range check, the conditions are those of the truthy
      criteria, at most three, each once, in the order min, max, name. */
  lemma CompanyFilterConditions(f: CompanyFilter)
    requires KeyCount(f) > 0 && !RangeInverted(f)
    ensures var active := ActiveCriteria(f, AllCriteria);
            |active| <= 3 &&
            (forall c :: c in active <==> Active(f, c)) &&
            (forall i, j :: 0 <= i < j < |active| ==> Rank(active[i]) < Rank(active[j])) &&
            CompanyFilterSpec(Some(f)) == Ok("WHERE " + Join(Conditions(f, active), " AND "))
  {
    ActiveCriteriaOrdered(f, AllCriteria);
  }

  /** A filter whose keys are all falsy or unrecognised, such as `{minEmployees: 0}`,
      yields the bare text "WHERE ". */
  lemma FalsyFilterBareWhere(f: CompanyFilter)
    requires KeyCount(f) > 0
    requires forall c :: !Active(f, c)
    ensures CompanyFilterSpec(Some(f)) == Ok("WHERE ")
  {
    assert !Active(f, MinEmployees) && !Active(f, MaxEmployees) && !Active(f, NameLike);
    ActiveCriteriaUnrolled(f);
    assert Conditions(f, ActiveCriteria(f, AllCriteria)) == [];
    assert CompanyFilterSpec(Some(f)) == Ok("WHERE " + Join(Conditions(f, ActiveCriteria(f, AllCriteria)), " AND "));
    assert "WHERE " + Join([], " AND ") == "WHERE ";
  }

  /** A truthy name is pasted into the text unescaped, as the last condition. */
  lemma NameSplicedVerbatim(f: CompanyFilter)
    requires KeyCount(f) > 0 && !RangeInverted(f) && Active(f, NameLike)
    ensures CompanyFilterSpec(Some(f)).Ok?
    ensures var text, tail := CompanyFilterSpec(Some(f)).value, "name ILIKE '%" + f.name.value + "%'";
            |text| >= |tail| && text[|text| - |tail|..] == tail
  {
    NameConditionLast(f);
  }

  /** The filter text ends with the condition of an active name criterion. */
  lemma NameConditionLast(f: CompanyFilter)
    requires KeyCount(f) > 0 && !RangeInverted(f) && Active(f, NameLike)
    ensures CompanyFilterSpec(Some(f)).Ok?
    ensures var text, tail := CompanyFilterSpec(Some(f)).value, Condition(f, NameLike);
            |text| >= |tail| && text[|text| - |tail|..] == tail
  {
    var conds := Conditions(f, ActiveCriteria(f, AllCriteria));
    assert CompanyFilterSpec(Some(f)).value == "WHERE " + Join(conds, " AND ");
    LastConditionIsName(f);
    WhereEndsWithLast(conds, Condition(f, NameLike));
  }

  /** A WHERE clause ends with its last condition. */
  lemma WhereEndsWithLast(conds: seq<string>, t: string)
    requires |conds| > 0 && conds[|conds| - 1] == t
    ensures var text := "WHERE " + Join(conds, " AND ");
            |text| >= |t| && text[|text| - |t|..] == t
  {
    JoinEndsWithLast(conds, " AND ");
    SuffixAfterPrefix("WHERE ", Join(conds, " AND "), t);
  }

  /** An active name criterion comes last, so its condition is the last one. */
  lemma LastConditionIsName(f: CompanyFilter)
    requires Active(f, NameLike)
    ensures var conds := Conditions(f, ActiveCriteria(f, AllCriteria));
            |conds| > 0 && conds[|conds| - 1] == Condition(f, NameLike)
  {
    var active := ActiveCriteria(f, AllCriteria);
    ActiveCriteriaUnrolled(f);
    assert active[|active| - 1] == NameLike;
  }

  /** A suffix of `b` is a suffix of `a + b`. */
  lemma SuffixAfterPrefix(a: string, b: string, t: string)
    requires |t| <= |b| && b[|b| - |t|..] == t
    ensures |t| <= |a + b| && (a + b)[|a + b| - |t|..] == t
  {
    assert (a + b)[|a + b| - |t|..] == b[|b| - |t|..];
  }

  const ExampleFilter := CompanyFilter(Some(10), None, Some("acme"), 0)

  /** The conditions of `{minEmployees: 10, name: "acme"}`. */
  lemma ExampleConditions()
    ensures Conditions(ExampleFilter, ActiveCriteria(ExampleFilter, AllCriteria))
         == ["num_employees >= 10", "name ILIKE '%acme%'"]
  {
    var f := ExampleFilter;
    ActiveCriteriaUnrolled(f);
    assert ActiveCriteria(f, AllCriteria) == [MinEmployees, NameLike];
    var conds := Conditions(f, [MinEmployees, NameLike]);
    assert conds[0] == "num_employees >= 10" by {
      assert NatToString(10) == "10" by { assert NatToString(1) == "1"; assert NatToString(0) == "0"; }
    }
    assert conds[1] == "name ILIKE '%acme%'";
  }

  lemma ExampleJoin()
    ensures Join(["num_employees >= 10", "name ILIKE '%acme%'"], " AND ")
         == "num_employees >= 10 AND name ILIKE '%acme%'"
  {
    assert ["num_employees >= 10", "name ILIKE '%acme%'"][1..] == ["name ILIKE '%acme%'"];
  }

  /** `{minEmployees: 10, name: "acme"}` gives the two conditions with the values in the text. */
  lemma CompanyFilterExample()
    ensures CompanyFilterSpec(Some(ExampleFilter)) == Ok("WHERE " + "num_employees >= 10 AND name ILIKE '%acme%'")
  {
    ExampleConditions();
    ExampleJoin();
  }
}
