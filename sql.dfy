/** `sqlForPartialUpdate` (helpers/sql.js): the column list of a partial
    UPDATE, `"col1"=$1, "col2"=$2, ...`, and the values those placeholders bind. */
module Sql {

  import opened Wrappers
  import opened Text
  import opened JsValue

  /** A plain object as its `Object.keys` order shows it: each key with its value. */
  type FieldMap = seq<(string, Value)>

  /** An object never has the same key twice. */
  predicate DistinctKeys(data: FieldMap) {
    forall i, j :: 0 <= i < j < |data| ==> data[i].0 != data[j].0
  }

  /** `jsToSql[field] || field`. Aliases are strings, so an alias is used exactly
      when it is present and non-empty; otherwise the field name itself is. */
  function ColumnName(field: string, jsToSql: map<string, string>): (column: string)
    ensures column == field || (field in jsToSql && column == jsToSql[field])
    ensures field in jsToSql && jsToSql[field] != "" ==> column == jsToSql[field]
    ensures column == "" ==> field == ""
  {
    if field in jsToSql && jsToSql[field] != "" then jsToSql[field] else field
  }

  /** One `"column"=$placeholder` token of the SET list. */
  datatype Assignment = Assignment(column: string, placeholder: nat)

  function RenderAssignment(a: Assignment): string {
    "\"" + a.column + "\"=$" + Decimal(a.placeholder)
  }

  /** What `sqlForPartialUpdate` returns, with the column list kept as tokens:
      `SetCols` renders them as the source's `setCols` string. */
  datatype SetClause = SetClause(assignments: seq<Assignment>, values: seq<Value>)

  function Tokens(c: SetClause): seq<string> {
    seq(|c.assignments|, i requires 0 <= i < |c.assignments| => RenderAssignment(c.assignments[i]))
  }

  /** `cols.join(", ")`. */
  function SetCols(c: SetClause): string {
    Join(Tokens(c), ", ")
  }

  /** The tokens for `keys`, numbered from `first` in key order
      (`keys.map((colName, idx) => ...)` with `first` standing for `idx + 1`). */
  function Assignments(keys: FieldMap, jsToSql: map<string, string>, first: nat): (r: seq<Assignment>)
    ensures |r| == |keys|
    ensures forall i :: 0 <= i < |keys| ==>
      r[i] == Assignment(ColumnName(keys[i].0, jsToSql), first + i)
    decreases |keys|
  {
    if keys == [] then []
    else [Assignment(ColumnName(keys[0].0, jsToSql), first)] + Assignments(keys[1..], jsToSql, first + 1)
  }

  /** `Object.values(data)`: the values in key order. */
  function FieldValues(data: FieldMap): (vs: seq<Value>)
    ensures |vs| == |data|
    ensures forall i :: 0 <= i < |data| ==> vs[i] == data[i].1
  {
    if data == [] then [] else [data[0].1] + FieldValues(data[1..])
  }

  /** `sqlForPartialUpdate(dataToUpdate, jsToSql)`. An object without keys throws
      `BadRequestError("No data")` (status 400); otherwise the i-th key (from 0)
      becomes the token for its column with placeholder i + 1, and the i-th value,
      `null` included, is the i-th parameter. */
  function SqlForPartialUpdate(data: FieldMap, jsToSql: map<string, string>): (r: Result<SetClause, Error>)
    ensures r.Failure? <==> data == []
    ensures r.Failure? ==> r.error == BadRequest("No data") && r.error.Status() == 400
    ensures r.Success? ==> |r.value.assignments| == |data| && |r.value.values| == |data|
    ensures r.Success? ==> forall i :: 0 <= i < |data| ==>
      r.value.assignments[i] == Assignment(ColumnName(data[i].0, jsToSql), i + 1)
    ensures r.Success? ==> forall i :: 0 <= i < |data| ==> r.value.values[i] == data[i].1
  {
    if |data| == 0 then Failure(BadRequest("No data"))
    else Success(SetClause(Assignments(data, jsToSql, 1), FieldValues(data)))
  }

  /** The i-th token (from 0) is the quoted column of the i-th key followed by
      `=$` and a placeholder that reads back from the text as i + 1; the parameter
      that placeholder binds, `values[(i + 1) - 1]`, is the i-th key's value. */
  lemma TokenBindsItsValue(data: FieldMap, jsToSql: map<string, string>, i: nat)
    requires i < |data|
    ensures var c := SqlForPartialUpdate(data, jsToSql).value;
      i < |Tokens(c)| &&
      ("\"" + ColumnName(data[i].0, jsToSql) + "\"=$") <= Tokens(c)[i] &&
      PlaceholderNumber(Tokens(c)[i]) == Some(i + 1) &&
      c.values[PlaceholderNumber(Tokens(c)[i]).value - 1] == data[i].1
  {
    var c := SqlForPartialUpdate(data, jsToSql).value;
    PlaceholderNumberOfRendered("\"" + ColumnName(data[i].0, jsToSql) + "\"=$", i + 1);
  }

  /** `setCols` is the n tokens joined by `", "`: it begins with the first token,
      ends with the last, and is as long as the tokens plus n - 1 separators. */
  lemma SetColsShape(data: FieldMap, jsToSql: map<string, string>)
    requires data != []
    ensures var c := SqlForPartialUpdate(data, jsToSql).value; var ts := Tokens(c);
      |ts| == |data| &&
      |SetCols(c)| == TotalLength(ts) + (|data| - 1) * |", "| &&
      ts[0] <= SetCols(c) &&
      |ts[|ts| - 1]| <= |SetCols(c)| &&
      SetCols(c)[|SetCols(c)| - |ts[|ts| - 1]|..] == ts[|ts| - 1]
  {
    var c := SqlForPartialUpdate(data, jsToSql).value;
    JoinLength(Tokens(c), ", ");
    JoinEnds(Tokens(c), ", ");
  }

  /** `{name: 'toradora'}` with an alias table that does not mention `name` gives
      `"name"=$1` and `['toradora']`. */
  lemma UnaliasedFieldExample()
    ensures var r := SqlForPartialUpdate([("name", Str("toradora"))],
                                         map["numEmployees" := "num_employees", "logoUrl" := "logo_url"]);
      r.Success? && SetCols(r.value) == "\"name\"=$1" && r.value.values == [Str("toradora")]
  {
    var r := SqlForPartialUpdate([("name", Str("toradora"))],
                                 map["numEmployees" := "num_employees", "logoUrl" := "logo_url"]);
    assert r.value.assignments == [Assignment("name", 1)];
    assert Decimal(1) == "1";
    assert RenderAssignment(Assignment("name", 1)) == "\"name\"=$1";
    assert Tokens(r.value) == ["\"name\"=$1"];
  }
}
