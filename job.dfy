/** The query composition of the `Job` model in models/job.js, with the database reduced to
    a function from a statement and its parameters to the rows it returns. */
module Jobs {
  import opened Wrappers
  import opened Text
  import opened Js
  import Sql

  /** A result row: column name to value. */
  type Row = map<string, Value>

  /** `db.query(text, params)`, reduced to the rows of its result. */
  type Db = (string, seq<Value>) -> seq<Row>

  /** `row.name`: `undefined` when the row has no such column. */
  function Property(row: Row, name: string): Value {
    if name in row then row[name] else Undefined
  }

  // ---------------------------------------------------------------------------------------
  // findAll
  // ---------------------------------------------------------------------------------------

  /** The base SELECT of `findAll`, with its line breaks and indentation collapsed; it has no
      comma after `"companyHandle"` and no trailing space. It is written in short pieces so
      that `SelectNoDollar` can check them one at a time. */
  const JobsSelect: string :=
    "SELECT j.id, j.title, j.salary, " +
    "j.equity, j.company_handle AS " +
    "\"companyHandle\" c.name AS " +
    "companyName, FROM jobs AS j " +
    "LEFT JOIN companies AS c " +
    "ON c.handle = j.company_handle"

  /** The base SELECT holds no `$`: it binds no parameter of its own. */
  lemma SelectNoDollar()
    ensures CountChar(JobsSelect, '$') == 0
  {
    SelectColumnsNoDollar();
    SelectAliasesNoDollar();
    SelectJoinNoDollar();
    CountCharNotIn(JobsSelect, '$');
  }

  lemma SelectColumnsNoDollar()
    ensures '$' !in "SELECT j.id, j.title, j.salary, "
    ensures '$' !in "j.equity, j.company_handle AS "
  {
  }

  lemma SelectAliasesNoDollar()
    ensures '$' !in "\"companyHandle\" c.name AS "
    ensures '$' !in "companyName, FROM jobs AS j "
  {
  }

  lemma SelectJoinNoDollar()
    ensures '$' !in "LEFT JOIN companies AS c "
    ensures '$' !in "ON c.handle = j.company_handle"
  {
  }

  /** The search filter `{ title, minSalary, hasEquity }`; `Undefined` marks an omitted field. */
  datatype JobFilter = JobFilter(title: Value, minSalary: Value, hasEquity: Value)

  /** A condition `findAll` adds, with the parameter position it refers to. */
  datatype JobCondition = TitleLike(position: nat) | SalaryAtLeast(position: nat) | EquityPositive

  function Rank(c: JobCondition): nat {
    match c
    case TitleLike(_) => 0
    case SalaryAtLeast(_) => 1
    case EquityPositive => 2
  }

  /** The parameter bound for a title: `%${title}%`. */
  function TitlePattern(title: Value): Value {
    Str("%" + TemplateString(title) + "%")
  }

  /** The values `findAll` binds: the title pattern if a title is given, then the minimum
      salary if one is given. */
  function JobValues(f: JobFilter): seq<Value> {
    (if f.title != Undefined then [TitlePattern(f.title)] else []) +
    (if f.minSalary != Undefined then [f.minSalary] else [])
  }

  /** The conditions `findAll` adds: title, minimum salary and equity, each when given, each
      numbered after the values bound before it; equity only when `hasEquity === true`. */
  function JobConditions(f: JobFilter): seq<JobCondition> {
    var titles := if f.title != Undefined then 1 else 0;
    (if f.title != Undefined then [TitleLike(1)] else []) +
    (if f.minSalary != Undefined then [SalaryAtLeast(titles + 1)] else []) +
    (if f.hasEquity == Bool(true) then [EquityPositive] else [])
  }

  /** The condition text as written: the position is printed without a `$`. */
  function AsWrittenText(c: JobCondition): string {
    match c
    case TitleLike(n) => "title ILIKE " + NatToString(n)
    case SalaryAtLeast(n) => "salary >= " + NatToString(n)
    case EquityPositive => "equity > 0"
  }

  /** The condition text with a positional parameter `$n`. */
  function IntendedText(c: JobCondition): string {
    match c
    case TitleLike(n) => "title ILIKE " + Sql.Placeholder(n)
    case SalaryAtLeast(n) => "salary >= " + Sql.Placeholder(n)
    case EquityPositive => "equity > 0"
  }

  function AsWrittenTexts(cs: seq<JobCondition>): seq<string> {
    seq(|cs|, i requires 0 <= i < |cs| => AsWrittenText(cs[i]))
  }

  function IntendedTexts(cs: seq<JobCondition>): seq<string> {
    seq(|cs|, i requires 0 <= i < |cs| => IntendedText(cs[i]))
  }

  /** Lines 70-73: the keyword and the conditions joined by " AND ", if there are any. */
  function WhereClause(keyword: string, exprs: seq<string>): string {
    if |exprs| > 0 then keyword + Join(exprs, " AND ") else ""
  }

  /** The statement text `findAll` sends, as written, from two empty lists: "WHERE " glued to
      the base SELECT and the suffix " ODER BY title". */
  function FindAllQuery(f: JobFilter): string {
    JobsSelect + WhereClause("WHERE ", AsWrittenTexts(JobConditions(f))) + " ODER BY title"
  }

  /** The statement the code evidently means: `$n` parameters, a space before WHERE, and
      ORDER BY. */
  function IntendedQuery(f: JobFilter): string {
    JobsSelect + WhereClause(" WHERE ", IntendedTexts(JobConditions(f))) + " ORDER BY title"
  }

  /** Pushing a condition pushes its text. */
  lemma IntendedTextsPush(cs: seq<JobCondition>, c: JobCondition)
    ensures IntendedTexts(cs + [c]) == IntendedTexts(cs) + [IntendedText(c)]
  {
  }

  /** `findAll` as the code evidently means it: the two lists start empty, each condition
      refers to its value as `$n`, and the WHERE clause and ORDER BY follow the base SELECT
      with a space. It returns the rows the database gives for that statement and values. */
  method FindAll(f: JobFilter, db: Db) returns (rows: seq<Row>)
    ensures rows == db(IntendedQuery(f), JobValues(f))
  {
    var query := JobsSelect;
    var queryExpression: seq<string> := [];
    var queryValues: seq<Value> := [];
    ghost var conds: seq<JobCondition> := [];
    if f.title != Undefined {
      queryValues := queryValues + [Str("%" + TemplateString(f.title) + "%")];
      IntendedTextsPush(conds, TitleLike(|queryValues|));
      queryExpression := queryExpression + ["title ILIKE " + Sql.Placeholder(|queryValues|)];
      conds := conds + [TitleLike(|queryValues|)];
    }
    if f.minSalary != Undefined {
      queryValues := queryValues + [f.minSalary];
      IntendedTextsPush(conds, SalaryAtLeast(|queryValues|));
      queryExpression := queryExpression + ["salary >= " + Sql.Placeholder(|queryValues|)];
      conds := conds + [SalaryAtLeast(|queryValues|)];
    }
    if f.hasEquity == Bool(true) {
      IntendedTextsPush(conds, EquityPositive);
      queryExpression := queryExpression + ["equity > 0"];
      conds := conds + [EquityPositive];
    }
    assert conds == JobConditions(f);
    assert queryValues == JobValues(f);
    if |queryExpression| > 0 {
      query := query + " WHERE " + Join(queryExpression, " AND ");
    }
    assert query == JobsSelect + WhereClause(" WHERE ", queryExpression);
    query := query + " ORDER BY title";
    rows := db(query, queryValues);
  }

  /** At most three conditions, in the order title, salary, equity; a title or salary
      condition exactly when that field is given, the equity condition exactly when
      `hasEquity` is `true` (not merely truthy), and `hasEquity` binds no value. */
  lemma JobConditionsShape(f: JobFilter)
    ensures var conds := JobConditions(f);
            |conds| <= 3 &&
            (forall i, j :: 0 <= i < j < |conds| ==> Rank(conds[i]) < Rank(conds[j])) &&
            ((exists i :: 0 <= i < |conds| && conds[i].TitleLike?) <==> f.title != Undefined) &&
            ((exists i :: 0 <= i < |conds| && conds[i].SalaryAtLeast?) <==> f.minSalary != Undefined) &&
            (EquityPositive in conds <==> f.hasEquity == Bool(true))
    ensures JobValues(f) == JobValues(f.(hasEquity := Undefined))
  {
    var conds := JobConditions(f);
    if f.title != Undefined {
      assert conds[0].TitleLike?;
    }
    if f.minSalary != Undefined {
      var k := if f.title != Undefined then 1 else 0;
      assert conds[k].SalaryAtLeast?;
    }
  }

  /** The positions of the numbered conditions, in order. */
  function Positions(cs: seq<JobCondition>): seq<nat>
    decreases |cs|
  {
    if |cs| == 0 then []
    else if cs[0].EquityPositive? then Positions(cs[1..])
    else [cs[0].position] + Positions(cs[1..])
  }

  /** The list 1, 2, ..., n. */
  function OneTo(n: nat): (s: seq<nat>)
    ensures |s| == n && forall i :: 0 <= i < n ==> s[i] == i + 1
  {
    seq(n, i requires 0 <= i < n => i + 1)
  }

  /** The numbered conditions are numbered 1 to k in order, k being the number of values. */
  lemma JobPositionsOneTo(f: JobFilter)
    ensures Positions(JobConditions(f)) == OneTo(|JobValues(f)|)
  {
    var t := if f.title != Undefined then [TitleLike(1)] else [];
    var s := if f.minSalary != Undefined then [SalaryAtLeast(|t| + 1)] else [];
    var e := if f.hasEquity == Bool(true) then [EquityPositive] else [];
    assert JobConditions(f) == t + s + e;
    PositionsAppend(t, s);
    PositionsAppend(t + s, e);
    assert Positions(e) == [] by {
      if e != [] { assert e[1..] == []; }
    }
    assert Positions(s) == if s == [] then [] else [|t| + 1] by {
      if s != [] { assert s[1..] == []; }
    }
    assert Positions(t) == if t == [] then [] else [1] by {
      if t != [] { assert t[1..] == []; }
    }
  }

  /** A title condition's number points at the title pattern among the values, a salary
      condition's number at the minimum salary. */
  lemma JobPositionsMatchValues(f: JobFilter)
    ensures forall c :: c in JobConditions(f) && c.TitleLike? ==>
              1 <= c.position <= |JobValues(f)| && JobValues(f)[c.position - 1] == TitlePattern(f.title)
    ensures forall c :: c in JobConditions(f) && c.SalaryAtLeast? ==>
              1 <= c.position <= |JobValues(f)| && JobValues(f)[c.position - 1] == f.minSalary
  {
  }

  lemma {:induction false} PositionsAppend(a: seq<JobCondition>, b: seq<JobCondition>)
    ensures Positions(a + b) == Positions(a) + Positions(b)
    decreases |a|
  {
    if |a| > 0 {
      assert (a + b)[1..] == a[1..] + b;
      PositionsAppend(a[1..], b);
    } else {
      assert a + b == b;
    }
  }

  // The code as written: `let { queryExpression, queryValues } = []` reads two properties that
  // an array does not have, so both lists are `undefined` (`None` below).

  /** `list.push(x)`: throws when `list` is `undefined`. */
  function Push<T>(list: Option<seq<T>>, x: T): (r: Result<seq<T>, ExpressError>)
    ensures r.Ok? <==> list.Some?
    ensures r.Err? ==> r.error.TypeError?
    ensures r.Ok? ==> |r.value| == |list.value| + 1 && r.value[..|list.value|] == list.value &&
                      r.value[|list.value|] == x
  {
    if list.None? then Err(TypeError("Cannot read properties of undefined (reading 'push')"))
    else Ok(list.value + [x])
  }

  /** `list.length`: throws when `list` is `undefined`. */
  function Length<T>(list: Option<seq<T>>): (r: Result<int, ExpressError>)
    ensures r.Ok? <==> list.Some?
    ensures r.Err? ==> r.error.TypeError?
    ensures r.Ok? ==> r.value == |list.value|
  {
    if list.None? then Err(TypeError("Cannot read properties of undefined (reading 'length')"))
    else Ok(|list.value|)
  }

  /** The two lists of `findAll`: `queryExpression` and `queryValues`. */
  type Lists = (Option<seq<string>>, Option<seq<Value>>)

  /** Lines 54-59: push the title pattern, then a condition numbered by the new length. */
  function TitleStep(lists: Lists, title: Value): (r: Result<Lists, ExpressError>)
    ensures title == Undefined ==> r == Ok(lists)
    ensures title != Undefined ==> (r.Ok? <==> lists.0.Some? && lists.1.Some?)
    ensures r.Err? ==> r.error.TypeError?
    ensures title != Undefined && r.Ok? ==>
              r.value == (Some(lists.0.value + [AsWrittenText(TitleLike(|lists.1.value| + 1))]),
                          Some(lists.1.value + [TitlePattern(title)]))
  {
    if title == Undefined then Ok(lists)
    else
      var values :- Push(lists.1, TitlePattern(title));
      var exprs :- Push(lists.0, "title ILIKE " + NatToString(|values|));
      Ok((Some(exprs), Some(values)))
  }

  /** Lines 60-64: push the minimum salary, then a condition numbered by the new length. */
  function SalaryStep(lists: Lists, minSalary: Value): (r: Result<Lists, ExpressError>)
    ensures minSalary == Undefined ==> r == Ok(lists)
    ensures minSalary != Undefined ==> (r.Ok? <==> lists.0.Some? && lists.1.Some?)
    ensures r.Err? ==> r.error.TypeError?
    ensures minSalary != Undefined && r.Ok? ==>
              r.value == (Some(lists.0.value + [AsWrittenText(SalaryAtLeast(|lists.1.value| + 1))]),
                          Some(lists.1.value + [minSalary]))
  {
    if minSalary == Undefined then Ok(lists)
    else
      var values :- Push(lists.1, minSalary);
      var exprs :- Push(lists.0, "salary >= " + NatToString(|values|));
      Ok((Some(exprs), Some(values)))
  }

  /** Lines 66-68: push the equity condition when `hasEquity === true`. */
  function EquityStep(lists: Lists, hasEquity: Value): (r: Result<Lists, ExpressError>)
    ensures hasEquity != Bool(true) ==> r == Ok(lists)
    ensures hasEquity == Bool(true) ==> (r.Ok? <==> lists.0.Some?)
    ensures r.Err? ==> r.error.TypeError?
    ensures hasEquity == Bool(true) && r.Ok? ==>
              r.value == (Some(lists.0.value + [AsWrittenText(EquityPositive)]), lists.1)
  {
    if hasEquity != Bool(true) then Ok(lists)
    else
      var exprs :- Push(lists.0, "equity > 0");
      Ok((Some(exprs), lists.1))
  }

  /** Lines 54-76 of `findAll` run from the given lists: the statement text and the values
      handed to `db.query`, or the error thrown on the way. */
  function FindAllSteps(lists: Lists, f: JobFilter): (r: Result<(string, Option<seq<Value>>), ExpressError>)
    ensures lists.0.None? ==> r.Err? && r.error.TypeError?
    ensures lists.0.Some? && lists.1.Some? ==> r.Ok? && r.value.1.Some?
    ensures r.Err? ==> r.error.TypeError?
  {
    var lists1 :- TitleStep(lists, f.title);
    var lists2 :- SalaryStep(lists1, f.minSalary);
    var lists3 :- EquityStep(lists2, f.hasEquity);
    var count :- Length(lists3.0);
    var where := if count > 0 && lists3.0.Some? then "WHERE " + Join(lists3.0.value, " AND ") else "";
    Ok((JobsSelect + where + " ODER BY title", lists3.1))
  }

  /** As written, `findAll` throws a TypeError for every filter. */
  lemma FindAllAsWrittenThrows(f: JobFilter)
    ensures FindAllSteps((None, None), f).Err?
    ensures FindAllSteps((None, None), f).error.TypeError?
  {
  }

  /** Lines 54-68 started from two empty lists fill them with the conditions as written and
      the values. */
  lemma StepsFromEmptyLists(f: JobFilter)
    ensures var lists1 := TitleStep((Some([]), Some([])), f.title);
            lists1.Ok? && SalaryStep(lists1.value, f.minSalary).Ok? &&
            EquityStep(SalaryStep(lists1.value, f.minSalary).value, f.hasEquity)
              == Ok((Some(AsWrittenTexts(JobConditions(f))), Some(JobValues(f))))
  {
    var tv := if f.title != Undefined then [TitlePattern(f.title)] else [];
    var te := if f.title != Undefined then [AsWrittenText(TitleLike(1))] else [];
    var sv := if f.minSalary != Undefined then [f.minSalary] else [];
    var se := if f.minSalary != Undefined then [AsWrittenText(SalaryAtLeast(|tv| + 1))] else [];
    var ee := if f.hasEquity == Bool(true) then [AsWrittenText(EquityPositive)] else [];
    assert AsWrittenTexts(JobConditions(f)) == te + se + ee;
    assert JobValues(f) == tv + sv;
    var noTexts: seq<string>, noValues: seq<Value> := [], [];
    assert noTexts + te == te && noValues + tv == tv;
    assert se == [] ==> te + se == te && tv + sv == tv;
    assert ee == [] ==> te + se + ee == te + se;
    assert TitleStep((Some(noTexts), Some(noValues)), f.title) == Ok((Some(te), Some(tv)));
    assert SalaryStep((Some(te), Some(tv)), f.minSalary) == Ok((Some(te + se), Some(tv + sv)));
    assert EquityStep((Some(te + se), Some(tv + sv)), f.hasEquity) == Ok((Some(te + se + ee), Some(tv + sv)));
  }

  /** Started from two empty lists, the same steps send `FindAllQuery` with `JobValues`. */
  lemma FindAllFromEmptyLists(f: JobFilter)
    ensures FindAllSteps((Some([]), Some([])), f) == Ok((FindAllQuery(f), Some(JobValues(f))))
  {
    StepsFromEmptyLists(f);
  }

  lemma AsWrittenTextNoDollar(c: JobCondition)
    ensures CountChar(AsWrittenText(c), '$') == 0
  {
    match c
    case TitleLike(n) =>
      CountCharNotIn("title ILIKE ", '$');
      CountCharDigits(NatToString(n), '$');
      CountCharAppend("title ILIKE ", NatToString(n), '$');
    case SalaryAtLeast(n) =>
      CountCharNotIn("salary >= ", '$');
      CountCharDigits(NatToString(n), '$');
      CountCharAppend("salary >= ", NatToString(n), '$');
    case EquityPositive =>
      CountCharNotIn("equity > 0", '$');
  }

  /** The conditions as written contribute no `$`. */
  lemma AsWrittenWhereNoDollar(f: JobFilter)
    ensures CountChar(WhereClause("WHERE ", AsWrittenTexts(JobConditions(f))), '$') == 0
  {
    var exprs := AsWrittenTexts(JobConditions(f));
    if |exprs| > 0 {
      CountCharNotIn(" AND ", '$');
      CountCharJoin(exprs, " AND ", '$');
      forall i | 0 <= i < |exprs| ensures CountChar(exprs[i], '$') == 0 {
        AsWrittenTextNoDollar(JobConditions(f)[i]);
      }
      CountCharAllZero(exprs, '$');
      CountCharNotIn("WHERE ", '$');
      CountCharAppend("WHERE ", Join(exprs, " AND "), '$');
    }
  }

  /** The statement as written, from two empty lists, holds no `$` at all: the numbers
      `findAll` prints are not parameters, so the values it passes are bound to nothing. */
  lemma FindAllBindsNothing(f: JobFilter)
    ensures CountChar(FindAllQuery(f), '$') == 0
  {
    SelectNoDollar();
    AsWrittenWhereNoDollar(f);
    OderByNoDollar();
    CountCharFrame(JobsSelect, WhereClause("WHERE ", AsWrittenTexts(JobConditions(f))), " ODER BY title", '$');
  }

  /** A tail without `c` adds no `c` to a text. */
  lemma CountCharFrame(head: string, mid: string, tail: string, c: char)
    requires CountChar(tail, c) == 0
    ensures CountChar(head + mid + tail, c) == CountChar(head, c) + CountChar(mid, c)
  {
    CountCharAppend(head, mid, c);
    CountCharAppend(head + mid, tail, c);
  }

  lemma OderByNoDollar()
    ensures CountChar(" ODER BY title", '$') == 0
  {
    CountCharNotIn(" ODER BY title", '$');
  }

  lemma OrderByNoDollar()
    ensures CountChar(" ORDER BY title", '$') == 0
  {
    CountCharNotIn(" ORDER BY title", '$');
  }

  lemma {:induction false} CountCharAllZero(parts: seq<string>, c: char)
    requires forall i :: 0 <= i < |parts| ==> CountChar(parts[i], c) == 0
    ensures CountCharAll(parts, c) == 0
    decreases |parts|
  {
    if |parts| > 0 {
      CountCharAllZero(parts[1..], c);
    }
  }

  lemma PlaceholderDollars(n: nat)
    ensures CountChar(Sql.Placeholder(n), '$') == 1
  {
    CountCharDigits(NatToString(n), '$');
    CountCharAppend("$", NatToString(n), '$');
  }

  lemma IntendedTextDollars(c: JobCondition)
    ensures CountChar(IntendedText(c), '$') == if c.EquityPositive? then 0 else 1
  {
    match c
    case TitleLike(n) =>
      PlaceholderDollars(n);
      CountCharNotIn("title ILIKE ", '$');
      CountCharAppend("title ILIKE ", Sql.Placeholder(n), '$');
    case SalaryAtLeast(n) =>
      PlaceholderDollars(n);
      CountCharNotIn("salary >= ", '$');
      CountCharAppend("salary >= ", Sql.Placeholder(n), '$');
    case EquityPositive =>
      CountCharNotIn("equity > 0", '$');
  }

  lemma {:induction false} IntendedTextsDollars(cs: seq<JobCondition>)
    ensures CountCharAll(IntendedTexts(cs), '$') == |Positions(cs)|
    decreases |cs|
  {
    if |cs| > 0 {
      IntendedTextDollars(cs[0]);
      IntendedTextsDollars(cs[1..]);
      assert IntendedTexts(cs)[1..] == IntendedTexts(cs[1..]);
    }
  }

  /** The intended conditions hold one `$` per value bound. */
  lemma IntendedWhereDollars(f: JobFilter)
    ensures CountChar(WhereClause(" WHERE ", IntendedTexts(JobConditions(f))), '$') == |JobValues(f)|
  {
    var exprs := IntendedTexts(JobConditions(f));
    JobPositionsOneTo(f);
    IntendedTextsDollars(JobConditions(f));
    if |exprs| > 0 {
      CountCharNotIn(" AND ", '$');
      CountCharJoin(exprs, " AND ", '$');
      CountCharNotIn(" WHERE ", '$');
      CountCharAppend(" WHERE ", Join(exprs, " AND "), '$');
    } else {
      assert CountCharAll(exprs, '$') == 0;
    }
  }

  /** With `$n` parameters, the statement holds one placeholder per value passed. */
  lemma IntendedPlaceholderCount(f: JobFilter)
    ensures CountChar(IntendedQuery(f), '$') == |JobValues(f)|
  {
    SelectNoDollar();
    IntendedWhereDollars(f);
    OrderByNoDollar();
    CountCharFrame(JobsSelect, WhereClause(" WHERE ", IntendedTexts(JobConditions(f))), " ORDER BY title", '$');
  }

  /** A filter on a title alone: as written, from two empty lists, the statement reads
      `...j.company_handleWHERE title ILIKE 1 ODER BY title`, where the code evidently means
      `...j.company_handle WHERE title ILIKE $1 ORDER BY title`. */
  lemma TitleFilterStatement()
    ensures FindAllQuery(JobFilter(Str("dev"), Undefined, Undefined))
         == JobsSelect + "WHERE title ILIKE 1" + " ODER BY title"
    ensures IntendedQuery(JobFilter(Str("dev"), Undefined, Undefined))
         == JobsSelect + " WHERE title ILIKE $1" + " ORDER BY title"
    ensures JobValues(JobFilter(Str("dev"), Undefined, Undefined)) == [Str("%dev%")]
  {
    var f := JobFilter(Str("dev"), Undefined, Undefined);
    TitleFilterAsWritten();
    TitleFilterIntended();
    assert TemplateString(Str("dev")) == "dev";
    assert "%" + "dev" + "%" == "%dev%";
  }

  lemma TitleFilterAsWritten()
    ensures FindAllQuery(JobFilter(Str("dev"), Undefined, Undefined))
         == JobsSelect + "WHERE title ILIKE 1" + " ODER BY title"
  {
    var f := JobFilter(Str("dev"), Undefined, Undefined);
    assert JobConditions(f) == [TitleLike(1)];
    assert NatToString(1) == "1";
    var asWritten := AsWrittenTexts([TitleLike(1)]);
    assert asWritten[0] == "title ILIKE " + "1" == "title ILIKE 1";
    assert asWritten == ["title ILIKE 1"];
    assert WhereClause("WHERE ", ["title ILIKE 1"]) == "WHERE title ILIKE 1";
  }

  lemma TitleFilterIntended()
    ensures IntendedQuery(JobFilter(Str("dev"), Undefined, Undefined))
         == JobsSelect + " WHERE title ILIKE $1" + " ORDER BY title"
  {
    var f := JobFilter(Str("dev"), Undefined, Undefined);
    assert JobConditions(f) == [TitleLike(1)];
    assert Sql.Placeholder(1) == "$1";
    var intended := IntendedTexts([TitleLike(1)]);
    assert intended[0] == "title ILIKE " + "$1" == "title ILIKE $1";
    assert intended == ["title ILIKE $1"];
    assert WhereClause(" WHERE ", ["title ILIKE $1"]) == " WHERE title ILIKE $1";
  }

  // ---------------------------------------------------------------------------------------
  // update, get, remove
  // ---------------------------------------------------------------------------------------

  /** A statement text with the parameters bound to it. */
  datatype Statement = Statement(text: string, params: seq<Value>)

  /** The UPDATE of `update`, with its line breaks and indentation collapsed. */
  function UpdateSql(setCols: string, idVarIdx: string): string {
    "UPDATE jobs SET " + setCols + " WHERE id = " + idVarIdx +
    " RETURNING id, title, salary, equity, company_handle AS \"companyHandle\""
  }

  /** Lines 123-129: the SET fragment from `sqlForPartialUpdate(data, {})`, the id placeholder
      numbered one past the SET values, and the parameters `[...values, id]`. */
  function UpdateStatement(data: seq<Sql.Field>, id: Value): (r: Result<Statement, ExpressError>)
    ensures r.Err? <==> |data| == 0
    ensures r.Err? ==> r.error == BadRequestError("No data")
    ensures r.Ok? ==> |r.value.params| == |data| + 1 && r.value.params[|data|] == id
    ensures r.Ok? ==> forall i :: 0 <= i < |data| ==> r.value.params[i] == data[i].1
    ensures r.Ok? ==> r.value.text == UpdateSql(Join(Sql.Assignments(data, map[], 1), ", "), Sql.Placeholder(|data| + 1))
  {
    var update :- Sql.SqlForPartialUpdate(data, map[]);
    var idVarIdx := "$" + NatToString(|update.values| + 1);
    Ok(Statement(UpdateSql(update.setCols, idVarIdx), update.values + [id]))
  }

  /** With an empty rename map every SET column is the data key itself. */
  lemma UpdateColumnsAreKeys(data: seq<Sql.Field>)
    ensures forall i :: 0 <= i < |data| ==>
              Sql.Assignments(data, map[], 1)[i] == Sql.Assignment(data[i].0, i + 1)
  {
  }

  /** The id placeholder differs from every SET placeholder. */
  lemma UpdateIdPlaceholderFresh(data: seq<Sql.Field>)
    ensures forall n :: 1 <= n <= |data| ==> Sql.Placeholder(n) != Sql.Placeholder(|data| + 1)
  {
    forall n | 1 <= n <= |data| ensures Sql.Placeholder(n) != Sql.Placeholder(|data| + 1) {
      Sql.PlaceholdersDistinct(n, |data| + 1);
    }
  }

  /** `update`: "No data" before any query when `data` is empty; otherwise the first returned
      row, or NotFoundError when the UPDATE returns no row. */
  function Update(data: seq<Sql.Field>, id: Value, db: Db): (r: Result<Row, ExpressError>)
    ensures |data| == 0 ==> r == Err(BadRequestError("No data"))
    ensures |data| > 0 ==>
              var s := UpdateStatement(data, id).value;
              (r.Err? <==> db(s.text, s.params) == []) &&
              (r.Err? ==> r.error == NotFoundError("Job: " + TemplateString(id) + " cannot be found")) &&
              (r.Ok? ==> r.value == db(s.text, s.params)[0])
  {
    var statement :- UpdateStatement(data, id);
    var rows := db(statement.text, statement.params);
    if rows == [] then Err(NotFoundError("Job: " + TemplateString(id) + " cannot be found"))
    else Ok(rows[0])
  }

  /** The SELECT of `get` for the job, and the one for its company, collapsed; the second
      keeps the unbalanced quote of `"numEmployees`. */
  const GetJobSql: string :=
    "SELECT id, title, salary, equity, company_handle AS companyHandle FROM jobs WHERE id = $1"
  const GetCompanySql: string :=
    "SELECT handle, name, description, num_employees AS \"numEmployees, logo_url AS \"logoUrl\" " +
    "FROM companies WHERE handle = $1"

  /** The job `get` returns: its row without `companyHandle`, and the company row if any
      (`job.company = companyRes.rows[0]`). */
  datatype JobDetail = JobDetail(job: Row, company: Option<Row>)

  /** The object `db.query` resolves to; `rows` is its only property in this model. */
  datatype QueryResult = QueryResult(rows: seq<Row>)

  /** `res[name]` for a query result: the rows for `rows`, `undefined` for anything else. */
  function ResultProperty(res: QueryResult, name: string): (p: Option<seq<Row>>)
    ensures p.Some? <==> name == "rows"
    ensures p.Some? ==> p.value == res.rows
  {
    if name == "rows" then Some(res.rows) else None
  }

  /** `get(id)` reading the job rows from the property `rowsName` names: NotFoundError when the
      job query returns no row, the job and its company otherwise. */
  function GetReading(rowsName: string, id: Value, db: Db): (r: Result<JobDetail, ExpressError>)
    ensures rowsName != "rows" ==> r == Err(TypeError("Cannot read properties of undefined (reading '0')"))
    ensures rowsName == "rows" ==> (r.Err? <==> db(GetJobSql, [id]) == [])
    ensures r.Ok? ==> "companyHandle" !in r.value.job
  {
    var jobRes := QueryResult(db(GetJobSql, [id]));
    var jobRows := ResultProperty(jobRes, rowsName);
    if jobRows.None? then Err(TypeError("Cannot read properties of undefined (reading '0')"))
    else if jobRows.value == [] then Err(NotFoundError("Job " + TemplateString(id) + " not found"))
    else
      var job := jobRows.value[0];
      var companyRows := db(GetCompanySql, [Property(job, "companyHandle")]);
      Ok(JobDetail(job - {"companyHandle"}, if companyRows == [] then None else Some(companyRows[0])))
  }

  /** `get` as the code evidently means it, reading `jobRes.rows[0]`. */
  function Get(id: Value, db: Db): (r: Result<JobDetail, ExpressError>)
    ensures r.Err? <==> db(GetJobSql, [id]) == []
    ensures r.Err? ==> r.error == NotFoundError("Job " + TemplateString(id) + " not found")
    ensures r.Ok? ==> r.value.job == db(GetJobSql, [id])[0] - {"companyHandle"}
    ensures r.Ok? ==>
              var companies := db(GetCompanySql, [Property(db(GetJobSql, [id])[0], "companyHandle")]);
              r.value.company == if companies == [] then None else Some(companies[0])
  {
    GetReading("rows", id, db)
  }

  /** As written, `get` reads `jobRes.row[0]`; a query result has no `row` property, so every
      call throws a TypeError, whatever the database returns. */
  lemma GetAsWrittenThrows(id: Value, db: Db)
    ensures GetReading("row", id, db) == Err(TypeError("Cannot read properties of undefined (reading '0')"))
  {
  }

  const RemoveSql: string := "DELETE FROM jobs WHERE id = $1 RETURNING id"

  /** `remove(id)`: NotFoundError exactly when the DELETE returns no row. */
  function Remove(id: Value, db: Db): (r: Result<(), ExpressError>)
    ensures r.Err? <==> db(RemoveSql, [id]) == []
    ensures r.Err? ==> r.error == NotFoundError("Job with " + TemplateString(id) + " not found")
  {
    var rows := db(RemoveSql, [id]);
    if rows == [] then Err(NotFoundError("Job with " + TemplateString(id) + " not found")) else Ok(())
  }
}
