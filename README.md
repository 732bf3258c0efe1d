# express-jobly: SQL fragment builders, job queries and authorization gates

This project models three parts of the express-jobly job board API in Dafny and proves properties about them:

- **`helpers/sql.js`.** `sqlForPartialUpdate` builds the `SET` fragment and value list of a partial UPDATE. `sqlCompanyFilter` builds the `WHERE` string for the company search. `sqlCompanyFilter` fills a local array by conditional pushes, so it is an imperative method proved against a specification function.
- **`models/job.js`.** `findAll` assembles a condition list and a value list step by step; it is an imperative method. `update` and `remove` are straight-line functions around one query result, and `get` around two: the job and then its company. Each raises `NotFoundError` when the job's query returns no row.
- **`middleware/auth.js`.** `authenticateJWT` reads a bearer token and stores the verified payload in `res.locals.user`. This is a method on a `Locals` object. The three gates `ensureLoggedIn`, `ensureAdmin` and `ensureUserOrAdminCredentials` decide whether a request continues or hands `next` an `UnauthorizedError`.

Modules:

| module | file | contents |
|---|---|---|
| `Wrappers` | `wrappers.dfy` | `Option`, `Result` |
| `Text` | `text.dfy` | Decimal text for numbers and its round trip, `Array.prototype.join`, character counting, `String.prototype.trim` over the ECMAScript whitespace set |
| `Js` | `js.dfy` | JavaScript values (`Value`), truthiness, template-literal conversion, the application's error classes |
| `Sql` | `sql.dfy` | `sqlForPartialUpdate`, `sqlCompanyFilter` |
| `Jobs` | `job.dfy` | `Job.findAll`, `Job.update`, `Job.get`, `Job.remove` |
| `Auth` | `auth.dfy` | `authenticateJWT` and the three gates |

Modelling choices:

- **Values.** JavaScript values are strings, integers, booleans, `null` and `undefined`. Strict equality `===` is datatype equality.
- **Object keys.** An object argument whose key order matters is a sequence of (key, value) pairs in `Object.keys` order.
- **Company filter.** It is a record of its three recognised fields plus a count of any other keys. The emptiness test on `Object.keys` counts those other keys too.
- **Database.** It is a function from a statement text and its parameters to the rows it returns. Each `db.query` call is one application of that function.
- **Token verification.** `jwt.verify(token, SECRET_KEY)` is a function from the token to an optional payload. `None` stands for "throws".

## Model

| member | source | states |
|---|---|---|
| `Sql.Assignments` | express-jobly/helpers/sql.js:14-16 | One assignment per key, in key order. The i-th is `"column"=$` followed by the number first+i. The column is the rename-map entry when it exists and is non-empty, and otherwise the key verbatim, wrapped in double quotes without escaping. |
| `Sql.Column` | express-jobly/helpers/sql.js:15 | The column is the rename-map entry when the key has one and it is non-empty, and otherwise the key itself. So the column is empty only for an empty key. |
| `Sql.FieldValues` | express-jobly/helpers/sql.js:22 | One value per field, in field order: the i-th value is the i-th field's value. |
| `Sql.SqlForPartialUpdate` | express-jobly/helpers/sql.js:5-24 | Fails with `BadRequestError("No data")` exactly when there are no keys. Otherwise `values[i]` is the i-th pair's value, with as many values as keys, and `setCols` is the assignments numbered from 1 joined by `", "`. |
| `Sql.PlaceholdersDistinct` | express-jobly/helpers/sql.js:15 | Distinct positions give distinct `$n` placeholders. |
| `Sql.PartialUpdatePlaceholderCount` | express-jobly/helpers/sql.js:14-22 | When no column contains `$`, the SET fragment holds exactly as many `$` as there are values, one placeholder per bound value. |
| `Sql.UnusedRenamesIrrelevant` | express-jobly/helpers/sql.js:15 | Two rename maps that agree on the keys being updated give the same result, so entries for other keys have no effect. |
| `Sql.PartialUpdateOneItem` | express-jobly/helpers/sql.test.js:40-46 | `{f1: "v1"}` with map `{f1: "f1", fF2: "f2"}` gives `"f1"=$1` and `["v1"]`. |
| `Sql.PartialUpdateTwoItems` | express-jobly/helpers/sql.test.js:48-54 | `{f1: "v1", jsF2: "v2"}` with map `{jsF2: "f2"}` gives `"f1"=$1, "f2"=$2` and `["v1", "v2"]`. |
| `Sql.KeyCount` | express-jobly/helpers/sql.js:28 | `Object.keys(filter).length` is zero exactly when the filter has no other key and none of the three recognised properties is present. It is at least the number of other keys and at most three more. |
| `Sql.RangeInverted` | express-jobly/helpers/sql.js:31 | The range test holds exactly when JavaScript `minEmployees > maxEmployees` is true, where a missing bound is `undefined` and every comparison with it is false. |
| `Sql.Active` | express-jobly/helpers/sql.js:34-40 | A criterion contributes a condition exactly when its property's JavaScript value is truthy, so a missing property, a bound of 0 and an empty name contribute none. |
| `Sql.ActiveCriteria` | express-jobly/helpers/sql.js:34-42 | The criteria kept are exactly those whose filter field is truthy, with no others added. |
| `Sql.ActiveCriteriaOrdered` | express-jobly/helpers/sql.js:33-42 | Keeping the truthy criteria preserves their order: min, max, name. |
| `Sql.CompanyFilterSpec` | express-jobly/helpers/sql.js:26-44 | An omitted filter gives `""`. The only error is `BadRequestError("Min employees cannot be greater than max")`. Every other non-empty result starts with `WHERE `. |
| `Sql.CompanyFilterWith` | express-jobly/helpers/sql.js:26-44 | The filter logic, defined once with the range check's error as a parameter: an omitted filter gives `""`, the only error is that parameter, and every other non-empty result starts with `WHERE `. `CompanyFilterSpec` and `CompanyFilterAsWritten` are its two instances. |
| `Sql.SqlCompanyFilter` | express-jobly/helpers/sql.js:26-44 | The method's conditional pushes and final join yield exactly the specification `CompanyFilterSpec`, with the range error constructed as intended. |
| `Sql.CompanyFilterAsWritten` | express-jobly/helpers/sql.js:31-32 | As written, the only error is the TypeError a JavaScript engine throws when the class `BadRequestError` is called without `new`. |
| `Sql.MissingNewOnlyChangesError` | express-jobly/helpers/sql.js:26-44 | The as-written function fails on exactly the filters the intended one fails on, returns the same text on all others, and never yields the intended `BadRequestError`. |
| `Sql.InvertedRangeThrowsTypeError` | express-jobly/helpers/sql.js:31-32 | `{minEmployees: 10, maxEmployees: 5}` throws the TypeError as written, where the intended result is the BadRequestError with the range message. |
| `Sql.CompanyFilterOutcomes` | express-jobly/helpers/sql.js:26-32 | The result is `""` exactly when the filter is absent or has no keys. It is an error exactly when both bounds are given and min > max, and the error carries the range message. Any other non-empty result starts with `WHERE `. |
| `Sql.CompanyFilterConditions` | express-jobly/helpers/sql.js:33-43 | There are at most three conditions. A condition is present exactly when its field is truthy, so a zero bound and an empty name are skipped. Conditions come in the order min, max, name, and the result is `WHERE ` followed by them joined by `" AND "`. |
| `Sql.FalsyFilterBareWhere` | express-jobly/helpers/sql.js:28-43 | A filter with keys but no truthy criterion, such as `{minEmployees: 0}`, gives the bare string `WHERE `. |
| `Sql.NameSplicedVerbatim` | express-jobly/helpers/sql.js:40-43 | A truthy name ends the result as `name ILIKE '%` + name + `%'`, with the name pasted unescaped into the SQL text. |
| `Sql.CompanyFilterExample` | express-jobly/helpers/sql.js:26-44 | `{minEmployees: 10, name: "acme"}` gives `WHERE num_employees >= 10 AND name ILIKE '%acme%'`. |
| `Jobs.FindAll` | express-jobly/models/job.js:42-79 | The corrected `findAll` sends `IntendedQuery` with `JobValues` and returns the rows the database gives for them. |
| `Jobs.JobConditionsShape` | express-jobly/models/job.js:54-68 | There are at most three conditions, in the order title, salary, equity. A title or salary condition is present exactly when that field is given. The equity condition is present exactly when `hasEquity` is `true`, and it binds no value. |
| `Jobs.JobPositionsOneTo` | express-jobly/models/job.js:54-64 | The numbers of the numbered conditions are 1..k in order, where k is the number of values. So there are as many numbered conditions as values. |
| `Jobs.JobPositionsMatchValues` | express-jobly/models/job.js:54-64 | A title condition's number points at the value `%title%`, and a salary condition's number points at `minSalary`. |
| `Jobs.FindAllAsWrittenThrows` | express-jobly/models/job.js:51-76 | Run as written, with both lists `undefined`, `findAll` throws a TypeError for every filter. |
| `Jobs.Push` | express-jobly/models/job.js:56-58 | `push` on an `undefined` list throws a TypeError. On a list, it appends exactly the value and keeps the earlier elements. |
| `Jobs.Length` | express-jobly/models/job.js:70 | Reading `length` of an `undefined` list throws a TypeError. Otherwise it is the number of elements. |
| `Jobs.TitleStep` | express-jobly/models/job.js:54-59 | An undefined title leaves both lists as they are. Otherwise the step fails, with a TypeError, exactly when a list is `undefined`. When it succeeds, it appends `%title%` to the values and `title ILIKE n` to the conditions, where n is the new number of values. |
| `Jobs.SalaryStep` | express-jobly/models/job.js:60-64 | An undefined `minSalary` leaves both lists as they are. Otherwise the step fails, with a TypeError, exactly when a list is `undefined`. When it succeeds, it appends `minSalary` to the values and `salary >= n` to the conditions, where n is the new number of values. |
| `Jobs.EquityStep` | express-jobly/models/job.js:66-68 | Unless `hasEquity` is `true`, the lists are left as they are. Otherwise the step fails, with a TypeError, exactly when the condition list is `undefined`. When it succeeds, it appends `equity > 0` and leaves the values alone. |
| `Jobs.FindAllSteps` | express-jobly/models/job.js:51-76 | Starting with an `undefined` condition list, the steps always throw a TypeError. Starting with two lists, they always produce a statement and a value list. No other error can occur. |
| `Jobs.FindAllFromEmptyLists` | express-jobly/models/job.js:54-76 | The same steps started from two empty lists send `FindAllQuery` with `JobValues`. `FindAllQuery` has the WHERE clause only when a condition exists and the ordering suffix last. |
| `Jobs.FindAllBindsNothing` | express-jobly/models/job.js:58-76 | The statement as written, from two empty lists, holds no `$` at all, so the values passed are bound to no placeholder. |
| `Jobs.IntendedPlaceholderCount` | express-jobly/models/job.js:54-76 | The corrected statement holds exactly as many `$` as values passed: one `$n` placeholder per value, and none elsewhere. |
| `Jobs.SelectNoDollar` | express-jobly/models/job.js:43-50 | The base SELECT holds no `$`, so it binds no parameter of its own. |
| `Jobs.TitleFilterStatement` | express-jobly/models/job.js:70-76 | For a title filter alone, the text as written, from two empty lists, ends `...company_handleWHERE title ILIKE 1 ODER BY title`. The corrected text ends `... WHERE title ILIKE $1 ORDER BY title`. |
| `Jobs.UpdateStatement` | express-jobly/models/job.js:123-129 | Fails with "No data" exactly when the data is empty, before any query. The parameters are the SET values followed by `id`. The text uses the SET fragment built with an empty rename map, and the id placeholder `$` followed by the number of values + 1. |
| `Jobs.UpdateColumnsAreKeys` | express-jobly/models/job.js:123 | With the empty rename map every SET column is the data key itself, numbered from 1. |
| `Jobs.UpdateIdPlaceholderFresh` | express-jobly/models/job.js:123-124 | The id placeholder differs from every SET placeholder. |
| `Jobs.Update` | express-jobly/models/job.js:122-133 | Empty data gives "No data". Otherwise the result is `NotFoundError("Job: <id> cannot be found")` exactly when the UPDATE returns no row, and the first row otherwise. |
| `Jobs.Get` | express-jobly/models/job.js:82-108 | The corrected `get` gives `NotFoundError("Job <id> not found")` exactly when the job query returns no row. Otherwise it gives the job row without `companyHandle`, and the first row of the company query for that handle when there is one. |
| `Jobs.ResultProperty` | express-jobly/models/job.js:92 | In this model only the property `rows` of a query result is defined (the core reads only `row` and `rows`), and it holds the rows. Any other name, such as `row`, reads `undefined`. |
| `Jobs.GetReading` | express-jobly/models/job.js:83-107 | Reading any property other than `rows` throws the TypeError for indexing `undefined`. Reading `rows`, it fails exactly when the job query returns no row. A job it returns never carries `companyHandle`. |
| `Jobs.GetAsWrittenThrows` | express-jobly/models/job.js:92 | Reading `jobRes.row[0]` throws a TypeError whatever the database returns. |
| `Jobs.Remove` | express-jobly/models/job.js:140-150 | `NotFoundError("Job with <id> not found")` exactly when the DELETE returns no row. |
| `Auth.StripBearer` | express-jobly/middleware/auth.js:22 | A leading `Bearer ` or `bearer ` is removed once, and only at the start. Any other header is left as it is. The result is a suffix of the header. |
| `Auth.Token` | express-jobly/middleware/auth.js:22 | The token neither starts nor ends with whitespace. |
| `Auth.BearerPrefixRemoved` | express-jobly/middleware/auth.js:22 | After either spelling of the prefix, the token is the rest of the header, trimmed. |
| `Auth.BearerRemovedOnce` | express-jobly/middleware/auth.js:22 | A doubled prefix keeps its second copy. |
| `Auth.NoPrefixOnlyTrimmed` | express-jobly/middleware/auth.js:22 | A header that does not start with the prefix is only trimmed. |
| `Auth.TokenIsSlice` | express-jobly/middleware/auth.js:22 | The token is a contiguous slice of the header. |
| `Auth.AuthenticateJWT` | express-jobly/middleware/auth.js:18-29 | It always calls `next()` without an error. It sets the user to the verified payload exactly when the header is a non-empty string and verification succeeds. Otherwise, including a non-string header or a failing verify, the user is left as it was. |
| `Auth.EnsureLoggedIn` | express-jobly/middleware/auth.js:36-43 | `UnauthorizedError` exactly when there is no user. |
| `Auth.EnsureAdmin` | express-jobly/middleware/auth.js:49-56 | Continues exactly when there is a user whose `isAdmin` is truthy, and gives `UnauthorizedError` otherwise. |
| `Auth.EnsureUserOrAdminCredentials` | express-jobly/middleware/auth.js:75-85 | Continues exactly when there is a user whose `isAdmin` is truthy or whose `username` is strictly equal to the route's `username`, and gives `UnauthorizedError` otherwise. |
| `Auth.GatesOrdered` | express-jobly/middleware/auth.js:36-85 | Passing `ensureAdmin` implies passing the other two gates. Passing `ensureUserOrAdminCredentials` implies passing `ensureLoggedIn`. |
| `Auth.OwnRouteOnly` | express-jobly/middleware/auth.js:78 | A user always reaches their own route. A non-admin is refused on any other user's route. |
| `Auth.MissingUsernameMatchesMissingParam` | express-jobly/middleware/auth.js:78 | A payload without `username` passes on a route without a `username` parameter, since `undefined === undefined`. |
| `Auth.AdminIsTruthiness` | express-jobly/middleware/auth.js:51 | `isAdmin: "false"` passes `ensureAdmin` and `isAdmin: 0` does not. |
| `Text.Trim` | express-jobly/middleware/auth.js:22 | The result is a slice of the input with only ECMAScript whitespace cut from both ends. It neither starts nor ends with whitespace. |
| `Js.Truthy` | express-jobly/helpers/sql.js:34-40 | A value is truthy exactly when it is not `""`, `0`, `false`, `null` or `undefined`. The same test decides the gates at middleware/auth.js lines 21, 38, 51 and 78. |
| `Js.TemplateString` | express-jobly/models/job.js:56 | Inside `${...}` a string is pasted verbatim, a number becomes decimal text that reads back as the same number, and `true`, `false`, `null` and `undefined` become their names. The same conversion builds the not-found messages at lines 93, 131 and 149. |
| `Text.NatToString` | express-jobly/helpers/sql.js:15 | A placeholder number is printed as a non-empty string of decimal digits, with no leading zero unless the number is 0. The same printing gives the positions at models/job.js lines 58 and 63 and the id placeholder at line 124. |
| `Text.ParseNatToString` | express-jobly/helpers/sql.js:15 | Reading the printed digits back gives the number, so printing loses nothing. |
| `Text.IntToString` | express-jobly/helpers/sql.js:35 | A non-negative integer prints as its digits, and a negative one as `-` followed by the digits of its magnitude. The same printing gives the bound at line 38. |
| `Text.ParseIntToString` | express-jobly/helpers/sql.js:35 | The printed text has the form of an integer, and reading it back gives the integer. |
| `Text.Join` | express-jobly/helpers/sql.js:20 | Joining no parts gives `""`. Otherwise the length is the total length of the parts plus one separator between each pair, and the text starts with the first part. The same join builds the filter at line 43 and the WHERE clause at models/job.js line 72. |

## Left out

- **Database.** `db.query` and the connection pool are one abstract function from statement and parameters to rows. Its errors, its asynchrony and its handling of SQL text are not modelled. In particular, PostgreSQL folds the unquoted alias `companyHandle` at models/job.js:88 to lower case; the model does not capture this.
- **Literal SQL text.** The base SELECT, UPDATE and DELETE texts are kept with their line breaks and indentation collapsed to single spaces. Their SQL-level defects are carried in the text but not reasoned about: the missing comma and trailing comma at models/job.js:47-48, and the unbalanced quote at models/job.js:98.
- **Token verification.** `jwt.verify` and `SECRET_KEY` are a parameter that maps a token to an optional payload. The signature and expiry checks are not modelled.
- **Request objects.** `req.headers && req.headers.authorization` is given as the header value. The route parameter `req.params.username` is given as a value. The Express routing that runs the middleware is not modelled.
- **Numbers.** Integers stand for JavaScript numbers. Floating point, `NaN` and `Number` coercion are not modelled. The `>` of sql.js:31 is compared on integers, and a bound that is missing on one side never compares as greater. `Text.IntToString` and `Js.TemplateString` print every integer as plain digits. JavaScript prints whole numbers of magnitude 1e21 or more in exponent form (`1e+21`), and integers beyond 2^53 are not exact, so the model's texts for the bounds at sql.js:35 and 38 and the title at models/job.js:56 differ from JavaScript's only for such numbers.
- **Key order.** `Object.keys` and `Object.values` order is taken as given by the sequence of pairs. JavaScript's reordering of integer-like keys and the inherited properties `jsToSql[colName]` can reach are not modelled.
- **Null filter.** A `null` filter fails before the emptiness test, at sql.js:27; it is not modelled. An absent filter defaults to `{}` and gives `""`.
- **Values in the company filter.** sqlCompanyFilter pastes its values into the SQL text instead of binding them as parameters; the model follows the code.
- **`create`.** `Job.create` in models/job.js is a single INSERT around one query result. It is not part of this model.
- **models/jobs.js.** It is an unreferenced near-duplicate of models/job.js and is not part of this model.
- **The routes** (routes/companies.js, routes/jobs.js) and their `jsonschema` validation are not part of this model.
- Jobs.UpdateStatement: the `$` count of the whole UPDATE text is not stated. The count for its SET fragment is `Sql.PartialUpdatePlaceholderCount`, and the distinct id placeholder is `Jobs.UpdateIdPlaceholderFresh`.

## Findings

| source | as written | input that shows it | evidently intended | confidence | as-written member | corrected member |
|---|---|---|---|---|---|---|
| express-jobly/models/job.js:51 | `let { queryExpression, queryValues } = []` reads two properties an array lacks, so both lists are `undefined` | any filter: the first `push`, or the `.length` at line 70, throws a TypeError | two empty lists | high, not executed | `Jobs.FindAllAsWrittenThrows` | `Jobs.FindAll` |
| express-jobly/models/job.js:58 | conditions print the value position without `$` (`title ILIKE 1`), also at line 63 | once line 51 gives two empty lists, `{title: "dev"}` gives a statement with no placeholder, yet one value is passed | `title ILIKE $1`, `salary >= $2` | high, not executed | `Jobs.FindAllBindsNothing` | `Jobs.IntendedPlaceholderCount` |
| express-jobly/models/job.js:72 | `"WHERE "` is appended with no space after the base SELECT | once line 51 gives two empty lists, `{title: "dev"}` gives `...company_handleWHERE ...` | `" WHERE "` | high, not executed | `Jobs.TitleFilterStatement` | `Jobs.FindAll` |
| express-jobly/models/job.js:76 | the suffix is `" ODER BY title"` | once line 51 gives two empty lists, `{title: "dev"}` gives `... ODER BY title` | `" ORDER BY title"` | high, not executed | `Jobs.TitleFilterStatement` | `Jobs.FindAll` |
| express-jobly/helpers/sql.js:32 | `BadRequestError(...)` is called without `new`, although the application's error classes are built with `new` everywhere else in the core | `{minEmployees: 10, maxEmployees: 5}`: the call throws a TypeError instead of the BadRequestError | `throw new BadRequestError(...)` | plausible, not executed; it holds if `BadRequestError` is an ES class, and expressError.js is not part of this model | `Sql.CompanyFilterAsWritten` | `Sql.CompanyFilterSpec` |
| express-jobly/models/job.js:92 | `jobRes.row[0]` reads a property query results do not have | any id, any database contents: throws a TypeError | `jobRes.rows[0]` | high, not executed | `Jobs.GetAsWrittenThrows` | `Jobs.Get` |
