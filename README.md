# jobly query fragments in Dafny

A model of the two query-fragment builders of the jobly REST backend, with proofs about them. Both turn a partly filled request object into parameterised PostgreSQL text plus an ordered parameter list.

- `sqlForPartialUpdate` (helpers/sql.js) builds the `"col1"=$1, "col2"=$2, ...` column list of a partial UPDATE. It uses an alias table mapping JavaScript field names to column names. It returns the column list together with the values in the same order, and throws `BadRequestError("No data")` (HTTP 400) when the object has no keys.
- `Job.find` (models/job.js) loops over the query keys and builds the WHERE text. `title` becomes `title ILIKE $k`, `minSalary` becomes `salary >= $k`, and `hasEquity` with the string `'true'` becomes the literal `equity > 0`. The values go into an object keyed by `k`, and `Object.values` of that object is the parameter list.
- `Job.update` (models/job.js) appends the row id: its placeholder is `$(values.length + 1)` and the parameter list is `[...values, id]`.

Modules:
- `Wrappers`: `Option` and `Result`.
- `Text`: JavaScript's decimal rendering of a placeholder number, reading the number back from the end of a token, and `Array.prototype.join`.
- `JsValue`: the values a request carries (string, integral number, boolean, `null`), `BadRequestError`, and template-literal text.
- `JsObject`: `Object.values` on an object with integer keys, which lists the values in ascending key order.
- `Sql`: `sqlForPartialUpdate`.
- `Job`: the `find` loop as a method with loop invariants, the facts about its numbering, a corrected numbering, and the `update` splice.

A JavaScript object is modelled as a sequence of (key, value) pairs in `Object.keys` order, with distinct keys. Placeholders are kept as `nat` inside token datatypes and rendered to text by `RenderAssignment`, `RenderCriterion` and, for the id of `update`, `UpdateSql`. `PlaceholderNumber` then shows that each number can be read back from the rendered text.

The model follows the code as written:
- The filter keys are taken in the order `Object.keys` gives them, and each key's position decides its placeholder (models/job.js:66).
- An empty `title` still produces `title ILIKE $k` with the value `%%` (models/job.js:69-70).
- `minSalary` is stored as given, with no check that it is a number (models/job.js:74).
- `hasEquity` counts only when it is the string `'true'`; any other value, the boolean `true` included, adds nothing (models/job.js:78).
- A literal `equity > 0`, or an unknown key, still uses up a placeholder number (models/job.js:66-82; see Findings).
- The code writes `WHERE` in front of the statement even when the statement is empty (models/job.js:89). The model stops at the statement itself; see "Left out".

## Model

| member | source | states |
|---|---|---|
| Sql.ColumnName | helpers/sql.js:23 | `jsToSql[colName] \|\| colName`: a non-empty alias is used; otherwise the field name. The result is always the field or its alias, and is empty only for an empty field name. |
| Sql.RenderAssignment | helpers/sql.js:23 | The text of one token, the template `"${col}"=$${idx + 1}`: the quoted column, `=$` and the decimal numeral of its placeholder. |
| Sql.Assignments | helpers/sql.js:22-24 | The i-th token (from 0) names the i-th key's column and carries placeholder `first + i`. |
| Sql.FieldValues | helpers/sql.js:28 | `Object.values(data)`: as many values as keys, the i-th being the i-th key's value, `null` included. |
| Sql.Tokens | helpers/sql.js:22-24 | The array `cols`: the rendered token of each assignment, in key order. |
| Sql.SetCols | helpers/sql.js:27 | `setCols`, that is `cols.join(", ")` over the rendered tokens. |
| Sql.SqlForPartialUpdate | helpers/sql.js:17-30 | Fails exactly when there are no keys, with `BadRequest("No data")` and status 400. Otherwise there are n assignments and n values, the i-th assignment is the column of the i-th key with placeholder i + 1, and the i-th value is the i-th key's value. |
| Sql.TokenBindsItsValue | helpers/sql.js:22-28 | The i-th rendered token begins with the quoted column and `=$`, its text reads back as placeholder i + 1, and `values[(i + 1) - 1]` is the i-th key's value. |
| Sql.SetColsShape | helpers/sql.js:27 | `cols.join(", ")` has the tokens' total length plus n - 1 separators, begins with the first token and ends with the last. |
| Sql.UnaliasedFieldExample | helpers/sql.test.js:4-10 | `{name: 'toradora'}` with an unrelated alias table gives `"name"=$1` and `['toradora']`. |
| Text.Decimal | helpers/sql.js:23 | The numeral of `${idx + 1}` is non-empty and all digits, and has a leading zero only for 0. |
| Text.ParseDecimalOfDecimal | helpers/sql.js:23 | Reading a rendered numeral back gives the number it was made from. |
| Text.PlaceholderNumberOfRendered | helpers/sql.js:23 | Any text ending in `$`, followed by the numeral of k, reads back as placeholder k. |
| Text.Join | helpers/sql.js:27 | `Array.prototype.join`: the empty string for no parts, the part itself for one, and otherwise the first part, the separator and the join of the rest. The same join is the `criteria.join(' AND ')` of models/job.js:84. |
| Text.JoinAppend | helpers/sql.js:27 | Joining two non-empty runs of parts puts exactly one separator between them. |
| Text.JoinLength | helpers/sql.js:27 | A join is as long as the parts together plus `\|parts\| - 1` separators. |
| Text.JoinEnds | helpers/sql.js:27 | A join begins with the first part and ends with the last: no separator at either end. |
| JsValue.TemplateText | models/job.js:69 | The text `${reqQuery.title}` gives a value: a string as it is, an integer as its decimal numeral (with `-` when negative), a boolean as `true` or `false`, and `null` as `null`. |
| JsObject.KeysBelow | models/job.js:91 | The integer keys below a bound, in strictly ascending order, are exactly those keys. |
| JsObject.ObjectValues | models/job.js:91 | `Object.values(vals)` lists exactly as many values as `vals` has keys, the value of each key in ascending key order. |
| JsObject.KeysBelowCount | models/job.js:91 | When every key is below the bound, the ascending key list has exactly one entry per key. |
| JsObject.ObjectValuesAddTop | models/job.js:91 | Storing a value under a key above all the others appends it to `Object.values`. |
| JsObject.ObjectValuesBoundIrrelevant | models/job.js:91 | `Object.values` does not depend on which bound above all keys is used. |
| Job.RenderCriterion | models/job.js:70-79 | The text of one predicate: `title ILIKE $k`, `salary >= $k` or the literal `equity > 0`. |
| Job.Statement | models/job.js:84 | `criteria.join(' AND ')` over the rendered predicates. |
| Job.CriteriaFor | models/job.js:67-81 | The predicates one loop iteration pushes for the key at position idx: at most one, and one exactly for `title`, `minSalary`, or `hasEquity` with the string `'true'`. `title` and `minSalary` take placeholder idx + 1. |
| Job.StoredValue | models/job.js:68-75 | What one loop iteration stores under `vals[idx + 1]`: `%${title}%` for `title`, the raw value for `minSalary`, and nothing, exactly, for every other key. |
| Job.Criteria | models/job.js:66-82 | `criteria` after the loop has examined the keys of q, one iteration per key in order. There are at most as many predicates as keys. |
| Job.Vals | models/job.js:66-82 | `vals` after the loop has examined the keys of q. Every key of `vals` lies in 1 .. \|q\|. |
| Job.FindFilter | models/job.js:62-84 | The loop's `criteria.join(' AND ')` and `Object.values(vals)` equal `Statement(Criteria(q))` and `ObjectValues(Vals(q))`. The invariant is that after idx keys, `criteria` and `vals` are those of the first idx keys. |
| Job.CriteriaSnoc | models/job.js:66-82 | One more key keeps the earlier predicates in front, adds its own predicate, and adds its placeholder (position + 1) only for `title` or `minSalary`. |
| Job.ValsSnoc | models/job.js:66-82 | One more key stores a value under position + 1 exactly when it is `title` or `minSalary`, and leaves `vals` unchanged otherwise. |
| Job.ValsAt | models/job.js:68-75 | `vals[idx + 1]` exists exactly when the key at idx is `title` or `minSalary`. It holds `%title%` for a title and the raw value for a minSalary. |
| Job.HasEquityExample | models/job.js:77-80 | `{hasEquity: v}` gives `equity > 0` with no parameter when v is `'true'`, and an empty statement with no parameter otherwise. |
| Job.EmptyQueryExample | models/job.js:84 | An empty query gives the empty statement and no parameters. |
| Job.CriteriaInKeyOrder | models/job.js:66-84 | The predicates of an earlier prefix of the keys are a prefix of those of a longer prefix: the predicates appear in key order. |
| Job.RenderedCriterionPlaceholder | models/job.js:70-79 | The placeholder of `title ILIKE $k` and `salary >= $k` reads back from the text as k; `equity > 0` reads back as none. |
| Job.ValsKeysArePlaceholders | models/job.js:64-91 | The keys of `vals`, in the ascending order `Object.values` visits them, are exactly the statement's placeholders in statement order. |
| Job.PlaceholdersIncrease | models/job.js:66-84 | The statement's placeholder numbers strictly increase and lie in 1 .. number of keys. |
| Job.FindParams | models/job.js:64-91 | There are exactly as many parameters as placeholders. The i-th parameter is the value stored under the i-th placeholder. |
| Job.PlaceholderCount | models/job.js:66-82 | There are at most as many placeholders as keys, and exactly as many if and only if every key is `title` or `minSalary`. |
| Job.FindNumberedIff | models/job.js:66-84 | The placeholders are exactly 1, 2, ..., n if and only if no other key comes before a `title` or `minSalary` key. |
| Job.FindBindsWithoutGap | models/job.js:64-91 | Without such a gap, `$k` binds `params[k - 1]`, which is the value stored for it. |
| Job.GapLeavesPlaceholderUnbound | models/job.js:64-91 | With such a gap, the last placeholder is numbered past the end of the parameter list. |
| Job.IncreasingPlaceholdersBound | models/job.js:66-84 | Strictly increasing placeholders from 1 that are not exactly 1..n end above n. |
| Job.TwoFiltersExample | models/job.test.js:69-72 | `{minSalary: 2, title: 'j'}` gives `salary >= $1 AND title ILIKE $2` with `[2, '%j%']`. |
| Job.GapExample | models/job.js:66-91 | `{hasEquity: 'true', title: 'j'}` gives `equity > 0 AND title ILIKE $2` with the single parameter `['%j%']`. |
| Job.FindFilterNumbered | models/job.js:62-91 | The same loop, with each placeholder numbered one past the values already stored: its output is `Statement(NumberedCriteria(q))` and `NumberedParams(q)`. |
| Job.NumberedCriteriaBind | models/job.js:62-91 | With the corrected numbering, every query's placeholders are 1..n in statement order, and there are n parameters, n being the number of `title` and `minSalary` keys. |
| Job.NumberedParamsAreVals | models/job.js:64-91 | Both numberings store the same values in the same order. |
| Job.NumberedAgreesWithoutGap | models/job.js:62-91 | When there is no gap, the corrected numbering gives the source's statement and parameters unchanged. |
| Job.UpdateQueryFor | models/job.js:132-147 | An empty `data` raises `BadRequest("No data")`. Otherwise the SET list is `sqlForPartialUpdate(data, {title, salary, equity})`, the id placeholder is n + 1, there are n + 1 parameters, the first n are the SET values unchanged, and the last is the id. |
| Job.UpdateSql | models/job.js:142-145 | The UPDATE text: `UPDATE jobs SET <setCols> WHERE id = $<n + 1> RETURNING id, title, salary, equity, company_handle`, with its whitespace collapsed. |
| Job.UpdatePlaceholders | models/job.js:140-144 | The placeholders the SET tokens and the id carry: those of the SET list in key order, then the id's. |
| Job.UpdateBindsEveryPlaceholder | models/job.js:140-147 | The placeholders the SET tokens and the id carry are 1..n + 1, one per parameter. `$k` for k <= n binds the k-th field's value, and `$(n + 1)` binds the id. |
| Job.SpliceBinds | models/job.js:147 | After placeholders 1 .. n + 1, the list `[...values, id]` binds the i-th placeholder to `values[i]` and the last one to `id`. |
| Job.UpdateIdPlaceholderText | models/job.js:140-145 | The UPDATE text `UpdateSql(u)` begins with `UPDATE jobs SET <setCols> WHERE id = $<n + 1>`, and the id placeholder in it reads back as n + 1. |
| Job.UpdateNullFieldsExample | models/job.test.js:119-143 | `update(1, {title: "New", salary: 10, equity: null})` gives `"title"=$1, "salary"=$2, "equity"=$3`, id placeholder 4, and parameters `["New", 10, null, 1]`; the `null` passes through. |

## Left out

- Every `db.query` call, the rows it returns, and the `NotFoundError` and `BadRequestError` checks on the rows returned. The builders are modelled up to the text and parameters handed to the database. `findAll`, `get` and `remove` do nothing beyond such a call. `create` also checks the returned row and throws `BadRequestError('Invalid Data Entry')` when there is none (models/job.js:31-33).
- routes/jobs.js and routes/users.js: Express wiring, JSON-schema validation and authentication, with no query logic of their own.
- expressError.js is not part of this model. `BadRequestError` is represented by its message and its status, 400.
- Floating-point numbers: a number is an integer here, so a fractional `equity` such as `0.1` is not modelled. Template text for numbers is defined only for integers, and always in plain decimal: JavaScript's exponent form for numbers of 1e21 and above (`1e+21`) and the loss of exactness beyond 2^53 are not modelled. This affects only `%${title}%` with a numeric `title`.
- Strings as keys of `Object.keys` that look like integers (such as `"1"`), which JavaScript would enumerate first. A request object is taken to be already in `Object.keys` order. Query-string arrays and `undefined` values are not modelled either.
- Alias lookups through the prototype chain (`jsToSql["constructor"]`). The alias table is a plain finite map of strings.
- The SELECT text around the WHERE statement of `find` (models/job.js:86-90). The statement and parameters are modelled, so the model does not show that an empty statement leaves `WHERE` directly before `ORDER BY id`, which is invalid SQL.
- Job.UpdateSql: the newlines and indentation of the UPDATE template are collapsed to single spaces.
- Job.UpdatePlaceholders / Job.UpdateBindsEveryPlaceholder: these speak of the placeholders the tokens carry, not of every `$k` in the text. helpers/sql.js:23 writes a field name inside `"..."` without doubling a `"` in it, and models/job.js:133-139 passes unknown keys through as their own column names. A key such as `a"=$7, "b` therefore puts a `$7` into the text that no parameter binds. The model takes field names to contain no `"`. Whether a request can carry such a key depends on schemas/jobUpdate.json, which is not part of this model.

## Findings

| source | as written | input that shows it | evidently intended | confidence | as-written member | corrected member |
|---|---|---|---|---|---|---|
| models/job.js:69-75 | The placeholder is the key's position + 1, and a `hasEquity` or unknown key also takes a position, though it stores no value. A later `title` or `minSalary` placeholder then has no parameter to bind. | `{hasEquity: 'true', title: 'j'}` gives `equity > 0 AND title ILIKE $2` with the single parameter `['%j%']` | Number each placeholder one past the number of values already stored. Placeholders are then 1..n and `$k` binds `params[k - 1]` for every query. | not executed | Job.GapLeavesPlaceholderUnbound | Job.NumberedCriteriaBind |
