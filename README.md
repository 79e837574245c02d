# Job query builders — a Dafny model

This project models the two query-fragment builders of the jobs data-access
layer. Both build text only; neither touches the database.

- **`findAll`'s filter composition** (`models/job.js`). Three optional filters
  are tested in a fixed order: `title`, `minSalary`, `hasEquity`. For each one
  that applies, the code pushes a predicate onto an expression list. A title
  also pushes the bind value `%title%` and a minimum salary pushes its own value.
  Each placeholder number is read from the bind list's length just after that
  push. A ` WHERE ` clause joining the predicates with ` AND ` is appended only
  when the bind list is non-empty. ` ORDER BY title ` is always appended.
- **`sqlForPartialUpdate`** and its use in **`updata`**. The helper takes an
  ordered payload of field/value pairs and a field-to-column map. It returns
  `{ setCols, values }`: one `"column"=$i` fragment per field, joined with
  `", "`, and the field values in payload order. A field missing from the map
  keeps its own name. `updata` calls the helper with an empty map. It numbers
  the id placeholder `values.length + 1` and binds `[...values, id]`.

Module layout:

- `Values` (values.dfy) holds `Option` and the opaque bind `Value`. A `Value`
  is a string, a boolean, or any other scalar treated as an opaque token.
- `SqlText` (sql_text.dfy) holds the decimal rendering of placeholder numbers,
  its inverse, and `Join`.
- `SqlHelpers` (sql.dfy) models `sqlForPartialUpdate` as pure recursive
  functions. It also holds a decoder for the `setCols` text. Decoding the
  rendered clause gives back every column with its placeholder number. This
  round trip is how placeholder/value alignment is stated on the text itself.
- `Job` (job.dfy) holds the `findAll` filter builder. It is a method over local
  sequences, proved against the specification functions `Requested`, `Binds`
  and `Predicates`. The module also holds `updata`'s statement assembly as a
  function, and the "no row means not found" rule.

Two behaviours of `findAll` are easy to miss:

- The title filter matches the column `name` (`name ILIKE $k`,
  models/job.js:40).
- `hasEquity` pushes a predicate but binds no value (models/job.js:48-51),
  and the `WHERE` guard tests the bind list (models/job.js:53). So when equity
  is the only filter, the query has no `WHERE` clause
  (`Job.EquityOnlyFilterDropped`).

## Model

| member | source | states |
|---|---|---|
| `Job.Requested` | models/job.js:38-51 | The filters applied, in test order: a title exactly when it is truthy, then a minimum salary exactly when one is passed (whatever its value), then equity exactly when `hasEquity` is `true`, and no others. |
| `Job.RenderPredicate` | models/job.js:40-50 | The expression text tells the predicate's kind: `name ILIKE $…` for the title, `salary >= $…` for the salary, and exactly `equity > 0` for equity. |
| `Job.RenderPredicates` | models/job.js:40-50 | One expression per predicate, in order; the i-th expression is the i-th predicate's text. |
| `Job.PredicatePlaceholder` | models/job.js:40-45 | The number written after `$` in a title or salary expression reads back as that predicate's placeholder number. |
| `Job.FindAllQuery` | models/job.js:53-57 | The query grows past the `SELECT` and the ordering exactly when some value is bound. |
| `Job.QueryShape` | models/job.js:53-57 | With a bound value the query is the `SELECT`, ` WHERE `, the expressions joined by ` AND `, then ` ORDER BY title `; with none it is the `SELECT` then the ordering. |
| `Job.BuildFindAllQuery` | models/job.js:35-57 | The pushes yield exactly the bind list `Binds` and the rendered `Predicates` of the requested filters. The query is the `SELECT`, then the guarded `WHERE`, then the ordering. At most 3 expressions and at most 2 values, and never more values than expressions. |
| `Job.Binds` | models/job.js:38-51 | Pushing filters one by one never gives more bind values than filters. |
| `Job.Predicates` | models/job.js:38-51 | One predicate per pushed filter. |
| `Job.PlaceholdersSequential` | models/job.js:38-46 | In push order, the value-binding predicates use exactly the placeholders $1, $2, …, up to the number of bind values. |
| `Job.PlaceholderValueAlignment` | models/job.js:38-51 | The i-th predicate has the i-th filter's kind, in both directions. When it binds a value, its placeholder $k lies within the bind list and value k-1 is that filter's own value. |
| `Job.FindAllFilters` | models/job.js:38-51 | Closed form for `findAll`'s filters. A truthy title gives `%title%` and `TitleLike(1)`; an empty title gives nothing. A present `minSalary`, whatever its value, gives that value and `SalaryAtLeast` on the next placeholder. `hasEquity === true` gives `EquityPositive` and no value. The order is title, minSalary, hasEquity. |
| `Job.FilterSteps` | models/job.js:38-51 | Pushing at most one title, one salary and one equity filter, in that order, binds the title's and salary's values in order. The predicates are `TitleLike(1)`, then `SalaryAtLeast` numbered one past the title count, then `EquityPositive`. |
| `Job.FindAllClosedForms` | models/job.js:38-54 | The bind list and the rendered expressions of `findAll` equal their written-out forms: `name ILIKE $1`, `salary >= $1` or `$2`, and `equity > 0`, each present only when its filter applies. |
| `Job.FindAllOrderedByTitle` | models/job.js:29-57 | The query always starts with the fixed `SELECT` text and ends with ` ORDER BY title `. |
| `Job.FindAllWhereGuard` | models/job.js:53-57 | `WHERE` plus all predicates joined by ` AND ` appears exactly when a title or minimum salary is given. Otherwise the query is the `SELECT` followed by the ordering. |
| `Job.EquityOnlyFilterDropped` | models/job.js:48-55 | With `hasEquity === true` alone, the expressions are `["equity > 0"]` and the bind list is empty. The query has no `WHERE`. |
| `Job.UpdataQuery` | models/job.js:105-115 | The bind list has one more entry than the payload. Its first entries are the payload's values in order, and its last is the id. |
| `Job.UpdataIdPlaceholder` | models/job.js:107-115 | The id placeholder is `$` followed by a canonical decimal. That decimal reads back as the bind list's length (payload size + 1), and that bind position holds the id. |
| `Job.UpdataQueryText` | models/job.js:107-115 | The statement text holds the `SET` clause right after `SET `, then after `WEHRE id = ` a placeholder whose number is the bind list's length, the id's position. |
| `Job.UpdataEmptyPayload` | models/job.js:105-115 | With an empty payload the model gives an empty `SET` clause, the id placeholder `$1`, and the id as the only bind value. |
| `Job.UpdataSetColsVerbatim` | models/job.js:106-115 | With the empty map, the `SET` clause decodes to each payload key verbatim, the i-th on placeholder i+1. That placeholder's bind value is the key's value, and it stays below the id's placeholder. |
| `Job.UpdataOneFieldExample` | models/job.js:105-115 | Updating id 7 with one `salary` field gives `"salary"=$1`, id placeholder `$2` and binds `[95000, 7]`. |
| `Job.FirstRowOrNotFound` | models/job.js:116-118 | Not found exactly when no row comes back, carrying the id. Otherwise the result is the first row. |
| `SqlHelpers.ColumnFor` | helpers/sql.test.js:6-10 | A field in the map is written to its mapped column; a field not in the map keeps its own name. |
| `SqlHelpers.RenderAssign` | helpers/sql.test.js:10 | One fragment is the quoted column, `=$`, then a canonical decimal that reads back as the assignment's placeholder number. |
| `SqlHelpers.Assignments` | helpers/sql.test.js:5-10 | The i-th assignment takes the mapped column when the key is in the map, else the key itself. Its number is its position counted from the start value. |
| `SqlHelpers.ValuesOf` | helpers/sql.test.js:6-11 | The payload's values, in payload key order. |
| `SqlHelpers.SqlForPartialUpdate` | helpers/sql.test.js:5-12 | `values` has one entry per payload field and equals the payload's values in key order. |
| `SqlHelpers.SetColsFragments` | helpers/sql.test.js:10 | `setCols` is the fragments `"` + column + `"=$` + (i+1) joined with `", "`. The column is the mapped name or the key. |
| `SqlHelpers.SetColsAlignment` | helpers/sql.test.js:9-11 | `setCols` decodes to one assignment per field in key order. Each names the renamed-or-verbatim column and carries placeholder i+1, and that placeholder's bind value is the field's value. |
| `SqlHelpers.TwoFieldExample` | helpers/sql.test.js:4-13 | The test case: `{lastName, firstName}` with `firstName → first_name` gives `"lastName"=$1, "first_name"=$2` and `["Canada", "Cynthia"]`. |
| `SqlText.NatToString` | models/job.js:107 | Placeholder numbers are written as canonical decimal digits, with no superfluous leading zero. |
| `SqlText.DecimalRoundTrip` | models/job.js:107 | Reading back a rendered placeholder number gives the number. |
| `SqlText.CanonicalRoundTrip` | models/job.js:107 | Rendering the number a canonical digit string denotes gives the string back. |
| `SqlText.NatToStringInjective` | models/job.js:40-45 | Distinct numbers render to distinct placeholders. |
| `SqlText.JoinEnds` | models/job.js:54 | A join starts with the first part and ends with the last, with no leading or trailing separator. |

## Left out

- Every database call (`db.query`) and the `async`/`await` plumbing of `create`, `findAll`, `get`, `updata` and `remove`.
- `create`: it sends fixed SQL text and returns the first row, with no empty-rows check. Nothing of it is modelled.
- `get`: besides the empty-rows check (`Job.FirstRowOrNotFound`), it runs a second query for the company, deletes `companyHandel` from the row and assigns `companiesRes.row[0]` (`row`, not `rows`) to `company`. This object mutation is not modelled.
- `remove`: it sends fixed SQL text; only its empty-rows check (`Job.FirstRowOrNotFound`) is modelled.
- The validity of the SQL text. The fixed text of `findAll` and `updata` is kept character for character as opaque constants, line breaks, indentation and typos included (`WEHRE`, the unbalanced `'companyHandle`); nothing is proved about what it means as SQL.
- `sqlForPartialUpdate`'s own source (helpers/sql.js) is not part of this model. Its behaviour is taken from its test, which has no empty-payload case, so whether it rejects an empty payload is not modelled. The contracts also cover the empty payload: there the model gives an empty clause, no values, and the id on `$1` (`Job.UpdataEmptyPayload`). That describes the model, not the program.
- JavaScript object key semantics. The payload is an explicit ordered sequence of pairs, so a repeated key is not merged as an object would merge it.
- `SqlHelpers.SetColsAlignment`: holds only when no column contains a double quote. Columns are quoted without escaping, so with an embedded quote the clause cannot be read back unambiguously.
- `Job.UpdataSetColsVerbatim`: holds only when no payload key contains a double quote, for the same reason.
- The numeric meaning of `salary`, `minSalary` and `equity`, for instance the float 0.5. Bind values other than strings and booleans are opaque tokens.
- `title` is modelled as an optional string, whose truthiness is "present and non-empty". The truthiness of a non-string `title` is not modelled.
- `hasEquity` is compared to the boolean `true` only. A string `"true"`, as a query string would deliver it, does not request the equity filter, as in the code.
