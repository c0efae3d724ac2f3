/** The query building inside the `Job` model (models/job.js): the WHERE
    predicates and parameters `Job.find` assembles from a query object, and how
    `Job.update` appends the row id after the SET list of `sqlForPartialUpdate`. */
module Job {

  import opened Wrappers
  import opened Text
  import opened JsValue
  import opened JsObject
  import opened Sql

  // ---------------------------------------------------------------------------
  // Job.find: the WHERE predicates
  // ---------------------------------------------------------------------------

  /** A predicate `find` pushes onto `criteria`: two take a placeholder,
      `equity > 0` is literal text. */
  datatype Criterion = TitleLike(placeholder: nat) | SalaryAtLeast(placeholder: nat) | EquityPositive

  function RenderCriterion(c: Criterion): string {
    match c
    case TitleLike(k) => "title ILIKE $" + Decimal(k)
    case SalaryAtLeast(k) => "salary >= $" + Decimal(k)
    case EquityPositive => "equity > 0"
  }

  function RenderCriteria(cs: seq<Criterion>): seq<string> {
    seq(|cs|, i requires 0 <= i < |cs| => RenderCriterion(cs[i]))
  }

  /** `criteria.join(' AND ')`. */
  function Statement(cs: seq<Criterion>): string {
    Join(RenderCriteria(cs), " AND ")
  }

  /** The placeholder a criterion carries, if it carries one. */
  function PlaceholderOf(c: Criterion): seq<nat> {
    match c
    case TitleLike(k) => [k]
    case SalaryAtLeast(k) => [k]
    case EquityPositive => []
  }

  /** The placeholder numbers of the criteria, in the order they appear in the statement. */
  function Placeholders(cs: seq<Criterion>): seq<nat>
    decreases |cs|
  {
    if cs == [] then [] else Placeholders(cs[..|cs| - 1]) + PlaceholderOf(cs[|cs| - 1])
  }

  /** The keys whose predicate takes a placeholder and stores a value. */
  predicate Parameterized(key: string) {
    key == "title" || key == "minSalary"
  }

  /** What the loop body pushes onto `criteria` for `key` at position `idx`. */
  function CriteriaFor(key: string, v: Value, idx: nat): (cs: seq<Criterion>)
    ensures |cs| <= 1
    ensures cs != [] <==> Parameterized(key) || (key == "hasEquity" && v == Str("true"))
  {
    if key == "title" then [TitleLike(idx + 1)]
    else if key == "minSalary" then [SalaryAtLeast(idx + 1)]
    else if key == "hasEquity" && v == Str("true") then [EquityPositive]
    else []
  }

  /** What the loop body stores under `vals[idx + 1]` for `key`, if anything. */
  function StoredValue(key: string, v: Value): (r: Option<Value>)
    ensures r.Some? <==> Parameterized(key)
  {
    if key == "title" then Some(Str("%" + TemplateText(v) + "%"))
    else if key == "minSalary" then Some(v)
    else None
  }

  /** `criteria` once the loop has examined the keys of `q`. */
  function Criteria(q: FieldMap): (cs: seq<Criterion>)
    ensures |cs| <= |q|
    decreases |q|
  {
    if q == [] then []
    else var n := |q| - 1; Criteria(q[..n]) + CriteriaFor(q[n].0, q[n].1, n)
  }

  /** `vals` once the loop has examined the keys of `q`: its keys are among the
      placeholder numbers 1 .. |q|. */
  function Vals(q: FieldMap): (m: map<nat, Value>)
    ensures forall k :: k in m ==> 1 <= k <= |q|
    decreases |q|
  {
    if q == [] then map[]
    else
      var n := |q| - 1;
      match StoredValue(q[n].0, q[n].1)
      case Some(v) => Vals(q[..n])[n + 1 := v]
      case None => Vals(q[..n])
  }

  /** The WHERE statement and parameter list of `Job.find(reqQuery)`, the keys of
      `reqQuery` taken in `Object.keys` order. */
  method FindFilter(reqQuery: FieldMap) returns (statement: string, params: seq<Value>)
    requires DistinctKeys(reqQuery)
    ensures statement == Statement(Criteria(reqQuery))
    ensures params == ObjectValues(Vals(reqQuery), |reqQuery| + 1)
  {
    var criteria: seq<Criterion> := [];
    var vals: map<nat, Value> := map[];
    for idx := 0 to |reqQuery|
      invariant criteria == Criteria(reqQuery[..idx])
      invariant vals == Vals(reqQuery[..idx])
    {
      assert reqQuery[..idx + 1][..idx] == reqQuery[..idx];
      // The keys are distinct, so `reqQuery.title` and `reqQuery.minSalary` are
      // the value at this position.
      var (element, value) := reqQuery[idx];
      if element == "title" {
        vals := vals[idx + 1 := Str("%" + TemplateText(value) + "%")];
        criteria := criteria + [TitleLike(idx + 1)];
      }
      if element == "minSalary" {
        vals := vals[idx + 1 := value];
        criteria := criteria + [SalaryAtLeast(idx + 1)];
      }
      if element == "hasEquity" {
        if value == Str("true") {
          criteria := criteria + [EquityPositive];
        }
      }
    }
    assert reqQuery[..|reqQuery|] == reqQuery;
    statement := Statement(criteria);
    params := ObjectValues(vals, |reqQuery| + 1);
  }

  lemma {:induction false} PlaceholdersAppend(a: seq<Criterion>, b: seq<Criterion>)
    ensures Placeholders(a + b) == Placeholders(a) + Placeholders(b)
    decreases |b|
  {
    if b == [] {
      assert a + b == a;
    } else {
      var b' := b[..|b| - 1];
      assert (a + b)[..|a + b| - 1] == a + b';
      PlaceholdersAppend(a, b');
    }
  }

  lemma PlaceholdersOfCriteriaFor(key: string, v: Value, idx: nat)
    ensures Placeholders(CriteriaFor(key, v, idx)) == if Parameterized(key) then [idx + 1] else []
  {
    var cs := CriteriaFor(key, v, idx);
    if cs != [] {
      assert cs[..0] == [];
    }
  }

  /** One more key: the criteria of the keys before it stay in front, and its
      placeholder, if it has one, is its position plus 1. */
  lemma CriteriaSnoc(q: FieldMap, key: string, v: Value)
    ensures Criteria(q + [(key, v)]) == Criteria(q) + CriteriaFor(key, v, |q|)
    ensures Placeholders(Criteria(q + [(key, v)])) ==
      Placeholders(Criteria(q)) + if Parameterized(key) then [|q| + 1] else []
  {
    assert (q + [(key, v)])[..|q|] == q;
    PlaceholdersAppend(Criteria(q), CriteriaFor(key, v, |q|));
    PlaceholdersOfCriteriaFor(key, v, |q|);
  }

  /** One more key: `vals` gains an entry under the key's position plus 1
      exactly when the key is a `title` or `minSalary`. */
  lemma ValsSnoc(q: FieldMap, key: string, v: Value)
    ensures Parameterized(key) ==> Vals(q + [(key, v)]) == Vals(q)[|q| + 1 := StoredValue(key, v).value]
    ensures !Parameterized(key) ==> Vals(q + [(key, v)]) == Vals(q)
  {
    var q' := q + [(key, v)];
    assert q'[..|q'| - 1] == q;
    assert q'[|q'| - 1] == (key, v);
    match StoredValue(key, v)
    case Some(w) => assert Vals(q') == Vals(q)[|q| + 1 := w];
    case None => assert Vals(q') == Vals(q);
  }

  /** The keys of `vals`, in the ascending order `Object.values` visits them, are
      exactly the placeholders of the statement, in statement order. */
  lemma {:induction false} ValsKeysArePlaceholders(q: FieldMap)
    ensures KeysBelow(Vals(q).Keys, |q| + 1) == Placeholders(Criteria(q))
    decreases |q|
  {
    if q != [] {
      var n := |q| - 1;
      var p := q[..n];
      var key, v := q[n].0, q[n].1;
      assert q == p + [(key, v)];
      ValsKeysArePlaceholders(p);
      CriteriaSnoc(p, key, v);
      ValsSnoc(p, key, v);
      KeysBelowAddTop(Vals(p).Keys, n + 1);
      if Parameterized(key) {
        assert Vals(q).Keys == Vals(p).Keys + {n + 1};
      }
    }
  }

  predicate Increasing(ps: seq<nat>) {
    forall i, j :: 0 <= i < j < |ps| ==> ps[i] < ps[j]
  }

  predicate Positive(ps: seq<nat>) {
    forall i :: 0 <= i < |ps| ==> 1 <= ps[i]
  }

  /** The placeholders of `find` strictly increase along the statement and lie
      between 1 and the number of keys. */
  lemma PlaceholdersIncrease(q: FieldMap)
    ensures Increasing(Placeholders(Criteria(q)))
    ensures Positive(Placeholders(Criteria(q)))
    ensures forall k :: k in Placeholders(Criteria(q)) ==> k <= |q|
  {
    var ps := Placeholders(Criteria(q));
    ValsKeysArePlaceholders(q);
    forall i | 0 <= i < |ps| ensures 1 <= ps[i] <= |q| {
      assert ps[i] in KeysBelow(Vals(q).Keys, |q| + 1);
      assert ps[i] in Vals(q);
    }
  }

  /** The parameters of `find`: one per placeholder, in statement order, the
      parameter for placeholder `k` being the value the loop stored under
      `vals[k]`. A literal `equity > 0` or an unknown key adds none. */
  lemma FindParams(q: FieldMap)
    ensures var ps := Placeholders(Criteria(q)); var params := ObjectValues(Vals(q), |q| + 1);
      |params| == |ps| &&
      forall i :: 0 <= i < |ps| ==> ps[i] in Vals(q) && params[i] == Vals(q)[ps[i]]
  {
    ValsKeysArePlaceholders(q);
  }

  /** For the key at position `idx`: a `title` stores `%title%` under
      `idx + 1`, a `minSalary` stores its value unchanged there, and every other
      key (`hasEquity` included) stores nothing. */
  lemma {:induction false} ValsAt(q: FieldMap, idx: nat)
    requires idx < |q|
    ensures (idx + 1 in Vals(q)) <==> Parameterized(q[idx].0)
    ensures q[idx].0 == "title" ==> Vals(q)[idx + 1] == Str("%" + TemplateText(q[idx].1) + "%")
    ensures q[idx].0 == "minSalary" ==> Vals(q)[idx + 1] == q[idx].1
    decreases |q|
  {
    var n := |q| - 1;
    if idx < n {
      assert q[..n][idx] == q[idx];
      ValsAt(q[..n], idx);
    }
  }

  /** The criteria appear in key order: those of an earlier prefix of the keys
      are a prefix of those of a longer one. */
  lemma {:induction false} CriteriaInKeyOrder(q: FieldMap, i: nat, j: nat)
    requires i <= j <= |q|
    ensures Criteria(q[..i]) <= Criteria(q[..j])
    decreases j - i
  {
    if i < j {
      CriteriaInKeyOrder(q, i, j - 1);
      assert q[..j][..j - 1] == q[..j - 1];
    }
  }

  /** Every placeholder of the statement can be read back from its text, and the
      literal `equity > 0` has none. */
  lemma RenderedCriterionPlaceholder(c: Criterion)
    ensures PlaceholderNumber(RenderCriterion(c)) ==
      if c.EquityPositive? then None else Some(c.placeholder)
  {
    match c
    case TitleLike(k) => PlaceholderNumberOfRendered("title ILIKE $", k);
    case SalaryAtLeast(k) => PlaceholderNumberOfRendered("salary >= $", k);
    case EquityPositive => LiteralHasNoPlaceholder();
  }

  lemma LiteralHasNoPlaceholder()
    ensures PlaceholderNumber("equity > 0") == None
  {
    var s := "equity > 0";
    assert s[..9] == "equity > ";
    assert !IsDigit(s[8]);
    assert TrailingDigits(s[..9]) == [];
    assert TrailingDigits(s) == "0";
    assert s[8] == ' ';
  }

  // The numbering of `find` and when it binds every placeholder.

  /** Placeholders numbered 1, 2, 3, ... in order. */
  predicate NumberedFromOne(ps: seq<nat>) {
    forall i :: 0 <= i < |ps| ==> ps[i] == i + 1
  }

  predicate AllParameterized(q: FieldMap) {
    forall i :: 0 <= i < |q| ==> Parameterized(q[i].0)
  }

  /** No key that leaves a number unused comes before a `title` or `minSalary` key. */
  predicate NoGapBefore(q: FieldMap) {
    forall i, j :: 0 <= i < j < |q| && Parameterized(q[j].0) ==> Parameterized(q[i].0)
  }

  lemma NumberedSnoc(ps: seq<nat>, x: nat)
    ensures NumberedFromOne(ps + [x]) <==> NumberedFromOne(ps) && x == |ps| + 1
  {
    if NumberedFromOne(ps + [x]) {
      assert forall i :: 0 <= i < |ps| ==> ps[i] == (ps + [x])[i];
      assert (ps + [x])[|ps|] == x;
    }
  }

  lemma AllParameterizedSnoc(p: FieldMap, key: string, v: Value)
    ensures AllParameterized(p + [(key, v)]) <==> AllParameterized(p) && Parameterized(key)
  {
    var q := p + [(key, v)];
    assert forall i :: 0 <= i < |p| ==> q[i] == p[i];
    assert q[|p|] == (key, v);
  }

  lemma NoGapSnoc(p: FieldMap, key: string, v: Value)
    ensures NoGapBefore(p + [(key, v)]) <==>
      NoGapBefore(p) && (Parameterized(key) ==> AllParameterized(p))
  {
    var q := p + [(key, v)];
    assert forall i :: 0 <= i < |p| ==> q[i] == p[i];
    assert q[|p|] == (key, v);
    if NoGapBefore(q) && Parameterized(key) {
      forall i | 0 <= i < |p| ensures Parameterized(p[i].0) {
        assert Parameterized(q[|p|].0);
      }
    }
  }

  /** There are at most as many placeholders as keys, and as many exactly when
      every key is a `title` or `minSalary`. */
  lemma {:induction false} PlaceholderCount(q: FieldMap)
    ensures |Placeholders(Criteria(q))| <= |q|
    ensures |Placeholders(Criteria(q))| == |q| <==> AllParameterized(q)
    decreases |q|
  {
    if q != [] {
      var n := |q| - 1;
      var p := q[..n];
      var key, v := q[n].0, q[n].1;
      assert q == p + [(key, v)];
      CriteriaSnoc(p, key, v);
      PlaceholderCount(p);
      AllParameterizedSnoc(p, key, v);
    }
  }

  /** The placeholders of `find` are exactly 1, 2, ..., in order, if and only if
      no `hasEquity` or unknown key comes before a `title` or `minSalary` key. */
  lemma {:induction false} FindNumberedIff(q: FieldMap)
    ensures NumberedFromOne(Placeholders(Criteria(q))) <==> NoGapBefore(q)
    decreases |q|
  {
    if q != [] {
      var n := |q| - 1;
      var p := q[..n];
      var key, v := q[n].0, q[n].1;
      assert q == p + [(key, v)];
      var ps := Placeholders(Criteria(p));
      var qs := Placeholders(Criteria(q));
      assert NumberedFromOne(ps) <==> NoGapBefore(p) by {
        FindNumberedIff(p);
      }
      if Parameterized(key) {
        assert NumberedFromOne(qs) <==> NumberedFromOne(ps) && |ps| == n by {
          CriteriaSnoc(p, key, v);
          NumberedSnoc(ps, n + 1);
        }
        assert NoGapBefore(q) <==> NoGapBefore(p) && AllParameterized(p) by {
          NoGapSnoc(p, key, v);
        }
        assert |ps| == n <==> AllParameterized(p) by {
          PlaceholderCount(p);
        }
      } else {
        assert qs == ps by {
          CriteriaSnoc(p, key, v);
        }
        assert NoGapBefore(q) <==> NoGapBefore(p) by {
          NoGapSnoc(p, key, v);
        }
      }
    }
  }

  /** Strictly increasing placeholders from 1 up reach at least their count, and
      exceed it unless they are exactly 1, 2, ..., n. */
  lemma {:induction false} IncreasingPlaceholdersBound(ps: seq<nat>)
    requires Positive(ps) && Increasing(ps)
    requires !NumberedFromOne(ps)
    ensures |ps| > 0 && ps[|ps| - 1] > |ps|
  {
    var i :| 0 <= i < |ps| && ps[i] != i + 1;
    AtLeastPosition(ps, i);
    AtLeastPosition(ps, |ps| - 1);
    if i < |ps| - 1 {
      LastGrowsFrom(ps, i);
    }
  }

  lemma {:induction false} AtLeastPosition(ps: seq<nat>, i: nat)
    requires Positive(ps) && Increasing(ps)
    requires i < |ps|
    ensures ps[i] >= i + 1
    decreases i
  {
    if i > 0 {
      AtLeastPosition(ps, i - 1);
    }
  }

  lemma {:induction false} LastGrowsFrom(ps: seq<nat>, i: nat)
    requires Increasing(ps)
    requires i < |ps|
    ensures ps[|ps| - 1] >= ps[i] + (|ps| - 1 - i)
    decreases |ps| - i
  {
    if i < |ps| - 1 {
      LastGrowsFrom(ps, i + 1);
    }
  }

  /** When no `hasEquity` or unknown key precedes a `title` or `minSalary` key,
      placeholder `$k` binds `params[k - 1]`, which is the value stored for it. */
  lemma FindBindsWithoutGap(q: FieldMap)
    requires NoGapBefore(q)
    ensures var ps := Placeholders(Criteria(q)); var params := ObjectValues(Vals(q), |q| + 1);
      NumberedFromOne(ps) && |params| == |ps| &&
      forall i :: 0 <= i < |ps| ==> ps[i] in Vals(q) && params[ps[i] - 1] == Vals(q)[ps[i]]
  {
    var ps := Placeholders(Criteria(q));
    var params := ObjectValues(Vals(q), |q| + 1);
    assert NumberedFromOne(ps) by {
      FindNumberedIff(q);
    }
    FindParams(q);
    NumberedBindsInOrder(ps, params, Vals(q));
  }

  lemma NumberedBindsInOrder(ps: seq<nat>, params: seq<Value>, vals: map<nat, Value>)
    requires NumberedFromOne(ps) && |params| == |ps|
    requires forall i :: 0 <= i < |ps| ==> ps[i] in vals && params[i] == vals[ps[i]]
    ensures forall i :: 0 <= i < |ps| ==> ps[i] in vals && params[ps[i] - 1] == vals[ps[i]]
  {
    forall i | 0 <= i < |ps| ensures ps[i] in vals && params[ps[i] - 1] == vals[ps[i]] {
      assert ps[i] - 1 == i;
    }
  }

  /** Otherwise the last placeholder of the statement is numbered past the end
      of the parameter list: it has no parameter to bind. */
  lemma GapLeavesPlaceholderUnbound(q: FieldMap)
    requires !NoGapBefore(q)
    ensures var ps := Placeholders(Criteria(q)); var params := ObjectValues(Vals(q), |q| + 1);
      |ps| > 0 && ps[|ps| - 1] > |params|
  {
    var ps := Placeholders(Criteria(q));
    assert !NumberedFromOne(ps) by {
      FindNumberedIff(q);
    }
    assert |ObjectValues(Vals(q), |q| + 1)| == |ps| by {
      FindParams(q);
    }
    PlaceholdersIncrease(q);
    IncreasingPlaceholdersBound(ps);
  }

  // Concrete queries.

  /** `{}`: an empty statement and no parameters. */
  lemma EmptyQueryExample()
    ensures Statement(Criteria([])) == "" && ObjectValues(Vals([]), 1) == []
  {
  }

  /** `{hasEquity: v}`: the literal `equity > 0` and no parameter when `v` is the
      string `'true'`; nothing at all otherwise (the boolean `true` included). */
  lemma HasEquityExample(v: Value)
    ensures var q := [("hasEquity", v)];
      ObjectValues(Vals(q), 2) == [] &&
      Statement(Criteria(q)) == if v == Str("true") then "equity > 0" else ""
  {
    var q := [("hasEquity", v)];
    assert q[..0] == [];
    assert KeysBelow(Vals(q).Keys, 2) == [];
  }

  /** `{minSalary: 2, title: 'j'}`: `salary >= $1 AND title ILIKE $2` with
      parameters `[2, '%j%']`. */
  lemma TwoFiltersExample()
    ensures var q := [("minSalary", Num(2)), ("title", Str("j"))];
      Statement(Criteria(q)) == "salary >= $1 AND title ILIKE $2" &&
      ObjectValues(Vals(q), 3) == [Num(2), Str("%j%")]
  {
    var a, b := ("minSalary", Num(2)), ("title", Str("j"));
    TwoKeys(a, b);
    assert Criteria([a, b]) == [SalaryAtLeast(1), TitleLike(2)];
    assert Statement([SalaryAtLeast(1), TitleLike(2)]) == "salary >= $1 AND title ILIKE $2" by {
      assert RenderCriterion(SalaryAtLeast(1)) == "salary >= $1" by {
        assert Decimal(1) == "1";
      }
      assert RenderCriterion(TitleLike(2)) == "title ILIKE $2" by {
        assert Decimal(2) == "2";
      }
      JoinTwo("salary >= $1", "title ILIKE $2", " AND ");
    }
    assert Vals([a, b]) == map[1 := Num(2)][2 := Str("%j%")] by {
      assert StoredValue(b.0, b.1) == Some(Str("%j%")) by {
        assert TemplateText(b.1) == "j";
        assert "%" + "j" + "%" == "%j%";
      }
    }
    ObjectValuesTwo(Num(2), Str("%j%"));
  }

  /** `{hasEquity: 'true', title: 'j'}`: `equity > 0 AND title ILIKE $2` with the
      single parameter `['%j%']`; placeholder `$2` has nothing to bind. */
  lemma GapExample()
    ensures var q := [("hasEquity", Str("true")), ("title", Str("j"))];
      Statement(Criteria(q)) == "equity > 0 AND title ILIKE $2" &&
      ObjectValues(Vals(q), 3) == [Str("%j%")]
  {
    var a, b := ("hasEquity", Str("true")), ("title", Str("j"));
    TwoKeys(a, b);
    assert Criteria([a, b]) == [EquityPositive, TitleLike(2)];
    assert Statement([EquityPositive, TitleLike(2)]) == "equity > 0 AND title ILIKE $2" by {
      assert RenderCriterion(TitleLike(2)) == "title ILIKE $2" by {
        assert Decimal(2) == "2";
      }
      JoinTwo("equity > 0", "title ILIKE $2", " AND ");
    }
    assert Vals([a, b]) == map[][2 := Str("%j%")] by {
      assert StoredValue(b.0, b.1) == Some(Str("%j%")) by {
        assert TemplateText(b.1) == "j";
        assert "%" + "j" + "%" == "%j%";
      }
    }
    assert ObjectValues(map[][2 := Str("%j%")], 3) == [Str("%j%")] by {
      assert ObjectValues(map[], 2) == [] by {
        assert KeysBelow({}, 2) == [];
      }
      ObjectValuesAddTop(map[], 2, Str("%j%"));
    }
  }

  /** The criteria and `vals` of a two-key query, one key at a time. */
  lemma TwoKeys(a: (string, Value), b: (string, Value))
    ensures Criteria([a, b]) == CriteriaFor(a.0, a.1, 0) + CriteriaFor(b.0, b.1, 1)
    ensures Vals([a, b]) ==
      var first := if Parameterized(a.0) then map[1 := StoredValue(a.0, a.1).value] else map[];
      if Parameterized(b.0) then first[2 := StoredValue(b.0, b.1).value] else first
  {
    assert [] + [a] == [a] && [a] + [b] == [a, b];
    CriteriaSnoc([], a.0, a.1);
    CriteriaSnoc([a], b.0, b.1);
    ValsSnoc([], a.0, a.1);
    ValsSnoc([a], b.0, b.1);
  }

  lemma JoinTwo(x: string, y: string, sep: string)
    ensures Join([x, y], sep) == x + sep + y
  {
    assert [x, y][1..] == [y];
  }

  lemma ObjectValuesTwo(v1: Value, v2: Value)
    ensures ObjectValues(map[1 := v1][2 := v2], 3) == [v1, v2]
  {
    ObjectValuesOne(v1);
    ObjectValuesAddTop(map[1 := v1], 2, v2);
  }

  lemma ObjectValuesOne(v: Value)
    ensures ObjectValues(map[1 := v], 2) == [v]
  {
    assert ObjectValues(map[], 1) == [] by {
      assert KeysBelow({}, 1) == [];
    }
    assert map[1 := v] == map[][1 := v];
    ObjectValuesAddTop(map[], 1, v);
  }

  // ---------------------------------------------------------------------------
  // Job.find with placeholders numbered by the values already stored
  // ---------------------------------------------------------------------------

  /** How many of the keys take a placeholder. */
  function ParameterizedCount(q: FieldMap): (n: nat)
    ensures n <= |q|
    decreases |q|
  {
    if q == [] then 0
    else ParameterizedCount(q[..|q| - 1]) + if Parameterized(q[|q| - 1].0) then 1 else 0
  }

  /** The criteria with each placeholder numbered one past the values stored so
      far, instead of one past the key's position. */
  function NumberedCriteria(q: FieldMap): seq<Criterion>
    decreases |q|
  {
    if q == [] then []
    else var n := |q| - 1; NumberedCriteria(q[..n]) + CriteriaFor(q[n].0, q[n].1, ParameterizedCount(q[..n]))
  }

  /** The values stored, in the order their keys arrive. */
  function NumberedParams(q: FieldMap): seq<Value>
    decreases |q|
  {
    if q == [] then []
    else
      var n := |q| - 1;
      NumberedParams(q[..n]) + match StoredValue(q[n].0, q[n].1) case Some(v) => [v] case None => []
  }

  /** `find` with the numbering corrected: the counter is the length of the
      parameter list, which it grows in step. */
  method FindFilterNumbered(reqQuery: FieldMap) returns (statement: string, params: seq<Value>)
    requires DistinctKeys(reqQuery)
    ensures statement == Statement(NumberedCriteria(reqQuery))
    ensures params == NumberedParams(reqQuery)
  {
    var criteria: seq<Criterion> := [];
    params := [];
    for idx := 0 to |reqQuery|
      invariant criteria == NumberedCriteria(reqQuery[..idx])
      invariant params == NumberedParams(reqQuery[..idx])
      invariant |params| == ParameterizedCount(reqQuery[..idx])
    {
      assert reqQuery[..idx + 1][..idx] == reqQuery[..idx];
      var (element, value) := reqQuery[idx];
      if element == "title" {
        criteria := criteria + [TitleLike(|params| + 1)];
        params := params + [Str("%" + TemplateText(value) + "%")];
      }
      if element == "minSalary" {
        criteria := criteria + [SalaryAtLeast(|params| + 1)];
        params := params + [value];
      }
      if element == "hasEquity" {
        if value == Str("true") {
          criteria := criteria + [EquityPositive];
        }
      }
    }
    assert reqQuery[..|reqQuery|] == reqQuery;
    statement := Statement(criteria);
  }

  lemma NumberedSnocFacts(p: FieldMap, key: string, v: Value)
    ensures ParameterizedCount(p + [(key, v)]) == ParameterizedCount(p) + if Parameterized(key) then 1 else 0
    ensures NumberedCriteria(p + [(key, v)]) == NumberedCriteria(p) + CriteriaFor(key, v, ParameterizedCount(p))
    ensures Parameterized(key) ==> NumberedParams(p + [(key, v)]) == NumberedParams(p) + [StoredValue(key, v).value]
    ensures !Parameterized(key) ==> NumberedParams(p + [(key, v)]) == NumberedParams(p)
  {
    assert (p + [(key, v)])[..|p|] == p;
  }

  /** With the corrected numbering every query binds: the placeholders are
      1, 2, ..., n in statement order and there are exactly n parameters, n being
      the number of `title` and `minSalary` keys. */
  lemma {:induction false} NumberedCriteriaBind(q: FieldMap)
    ensures var ps := Placeholders(NumberedCriteria(q));
      NumberedFromOne(ps) && |ps| == |NumberedParams(q)| == ParameterizedCount(q)
    decreases |q|
  {
    if q != [] {
      var n := |q| - 1;
      var p := q[..n];
      var key, v := q[n].0, q[n].1;
      assert q == p + [(key, v)];
      NumberedCriteriaBind(p);
      NumberedSnocFacts(p, key, v);
      var ps := Placeholders(NumberedCriteria(p));
      assert Placeholders(NumberedCriteria(q)) == ps + if Parameterized(key) then [ParameterizedCount(p) + 1] else [] by {
        PlaceholdersAppend(NumberedCriteria(p), CriteriaFor(key, v, ParameterizedCount(p)));
        PlaceholdersOfCriteriaFor(key, v, ParameterizedCount(p));
      }
      if Parameterized(key) {
        NumberedSnoc(ps, ParameterizedCount(p) + 1);
      }
    }
  }

  /** Both numberings store the same values in the same order: the values of
      the `title` and `minSalary` keys in key order. */
  lemma {:induction false} NumberedParamsAreVals(q: FieldMap)
    ensures NumberedParams(q) == ObjectValues(Vals(q), |q| + 1)
    decreases |q|
  {
    if q != [] {
      var n := |q| - 1;
      var p := q[..n];
      var key, v := q[n].0, q[n].1;
      assert q == p + [(key, v)];
      NumberedParamsAreVals(p);
      if Parameterized(key) {
        var sv := StoredValue(key, v).value;
        assert Vals(q) == Vals(p)[n + 1 := sv] by {
          ValsSnoc(p, key, v);
        }
        assert NumberedParams(q) == NumberedParams(p) + [sv] by {
          NumberedSnocFacts(p, key, v);
        }
        assert ObjectValues(Vals(p)[n + 1 := sv], n + 2) == ObjectValues(Vals(p), n + 1) + [sv] by {
          ObjectValuesAddTop(Vals(p), n + 1, sv);
        }
      } else {
        assert Vals(q) == Vals(p) by {
          ValsSnoc(p, key, v);
        }
        assert NumberedParams(q) == NumberedParams(p) by {
          NumberedSnocFacts(p, key, v);
        }
        assert ObjectValues(Vals(p), n + 2) == ObjectValues(Vals(p), n + 1) by {
          ObjectValuesBoundIrrelevant(Vals(p), n + 1, n + 2);
        }
      }
    }
  }

  /** The corrected numbering changes nothing for the queries the source already
      handles: when no gap-leaving key comes first, both give the same statement
      and the same parameters. */
  lemma {:induction false} NumberedAgreesWithoutGap(q: FieldMap)
    requires NoGapBefore(q)
    ensures NumberedCriteria(q) == Criteria(q)
    ensures NumberedParams(q) == ObjectValues(Vals(q), |q| + 1)
    decreases |q|
  {
    NumberedParamsAreVals(q);
    if q != [] {
      var n := |q| - 1;
      var p := q[..n];
      var key, v := q[n].0, q[n].1;
      assert q == p + [(key, v)];
      NoGapSnoc(p, key, v);
      NumberedAgreesWithoutGap(p);
      NumberedSnocFacts(p, key, v);
      CriteriaSnoc(p, key, v);
      if Parameterized(key) {
        AllParameterizedCount(p);
      }
    }
  }

  lemma {:induction false} AllParameterizedCount(q: FieldMap)
    requires AllParameterized(q)
    ensures ParameterizedCount(q) == |q|
    decreases |q|
  {
    if q != [] {
      var p := q[..|q| - 1];
      AllParameterizedSnoc(p, q[|q| - 1].0, q[|q| - 1].1);
      assert q == p + [(q[|q| - 1].0, q[|q| - 1].1)];
      AllParameterizedCount(p);
    }
  }

  // ---------------------------------------------------------------------------
  // Job.update: appending the row id
  // ---------------------------------------------------------------------------

  /** The alias table `update` passes; every alias is the field's own name. */
  const JobColumns: map<string, string> := map["title" := "title", "salary" := "salary", "equity" := "equity"]

  /** The parts of the UPDATE statement `update` sends: the SET list, the id
      placeholder `$(values.length + 1)` and the parameters `[...values, id]`. */
  datatype UpdateQuery = UpdateQuery(setClause: SetClause, idPlaceholder: nat, params: seq<Value>)

  /** The statement of `update` for row `id` and the fields `data`: the
      `BadRequestError` of an empty `data` propagates; otherwise the id takes the
      placeholder after the last SET placeholder and is the last parameter. */
  function UpdateQueryFor(id: Value, data: FieldMap): (r: Result<UpdateQuery, Error>)
    ensures r.Failure? <==> data == []
    ensures r.Failure? ==> r.error == BadRequest("No data")
    ensures r.Success? ==> r.value.setClause == SqlForPartialUpdate(data, JobColumns).value
    ensures r.Success? ==> r.value.idPlaceholder == |r.value.params| == |data| + 1
    ensures r.Success? ==> r.value.params[|data|] == id && r.value.params[..|data|] == r.value.setClause.values
  {
    match SqlForPartialUpdate(data, JobColumns)
    case Failure(e) => Failure(e)
    case Success(c) => Success(UpdateQuery(c, |c.values| + 1, c.values + [id]))
  }

  /** The text of the statement, its whitespace collapsed. */
  function UpdateSql(u: UpdateQuery): string {
    "UPDATE jobs SET " + SetCols(u.setClause) + " WHERE id = $" + Decimal(u.idPlaceholder)
      + " RETURNING id, title, salary, equity, company_handle"
  }

  /** The placeholders the SET tokens and the id carry, in that order. They are
      the placeholders of the text as long as no field name contains `"`. */
  function UpdatePlaceholders(u: UpdateQuery): seq<nat> {
    seq(|u.setClause.assignments|, i requires 0 <= i < |u.setClause.assignments| => u.setClause.assignments[i].placeholder)
      + [u.idPlaceholder]
  }

  /** The placeholders the SET tokens and the id carry are 1 .. n + 1, one per
      parameter: `$k` for k <= n binds the k-th field's value (untouched by the
      splice), and `$(n + 1)` binds the id. */
  lemma UpdateBindsEveryPlaceholder(id: Value, data: FieldMap)
    requires data != []
    ensures var u := UpdateQueryFor(id, data).value; var ps := UpdatePlaceholders(u);
      NumberedFromOne(ps) && |ps| == |u.params| &&
      (forall i :: 0 <= i < |data| ==> u.params[ps[i] - 1] == data[i].1) &&
      u.params[ps[|data|] - 1] == id
  {
    var u := UpdateQueryFor(id, data).value;
    var c := u.setClause;
    var ps := UpdatePlaceholders(u);
    var n := |data|;
    assert |c.assignments| == n && |c.values| == n;
    assert NumberedFromOne(ps) by {
      forall i | 0 <= i < |ps| ensures ps[i] == i + 1 {
        if i < n {
          assert ps[i] == c.assignments[i].placeholder;
        }
      }
    }
    assert u.params == c.values + [id] by {
      assert u.params == u.params[..n] + [u.params[n]];
    }
    SpliceBinds(ps, c.values, id, u.params);
  }

  /** After placeholders 1, 2, ..., n + 1, the parameter list `values + [id]`
      binds the i-th placeholder to `values[i]` and the last to `id`. */
  lemma SpliceBinds(ps: seq<nat>, values: seq<Value>, id: Value, params: seq<Value>)
    requires NumberedFromOne(ps) && |ps| == |values| + 1
    requires params == values + [id]
    ensures forall i :: 0 <= i < |values| ==> params[ps[i] - 1] == values[i]
    ensures params[ps[|values|] - 1] == id
  {
    forall i | 0 <= i < |values| ensures params[ps[i] - 1] == values[i] {
      assert ps[i] - 1 == i;
    }
    assert ps[|values|] - 1 == |values|;
  }

  /** The UPDATE text begins with the SET list and `WHERE id = $` followed by the
      id placeholder, and that placeholder reads back from the text as n + 1. */
  lemma UpdateIdPlaceholderText(id: Value, data: FieldMap)
    requires data != []
    ensures var u := UpdateQueryFor(id, data).value;
      var head := "UPDATE jobs SET " + SetCols(u.setClause) + " WHERE id = $" + Decimal(u.idPlaceholder);
      head <= UpdateSql(u) && PlaceholderNumber(head) == Some(|data| + 1)
  {
    var u := UpdateQueryFor(id, data).value;
    PlaceholderNumberOfRendered("UPDATE jobs SET " + SetCols(u.setClause) + " WHERE id = $", u.idPlaceholder);
  }

  /** `update(1, {title: "New", salary: 10, equity: null})`:
      `SET "title"=$1, "salary"=$2, "equity"=$3 WHERE id = $4` with
      `["New", 10, null, 1]`. */
  lemma UpdateNullFieldsExample()
    ensures var r := UpdateQueryFor(Num(1), [("title", Str("New")), ("salary", Num(10)), ("equity", Null)]);
      r.Success? &&
      SetCols(r.value.setClause) == "\"title\"=$1, \"salary\"=$2, \"equity\"=$3" &&
      r.value.idPlaceholder == 4 &&
      r.value.params == [Str("New"), Num(10), Null, Num(1)]
  {
    var data := [("title", Str("New")), ("salary", Num(10)), ("equity", Null)];
    var vs := [Str("New"), Num(10), Null];
    var c := SetClause([Assignment("title", 1), Assignment("salary", 2), Assignment("equity", 3)], vs);
    assert UpdateQueryFor(Num(1), data).value.setClause == c;
    JobFieldsSetCols(vs);
  }

  lemma JobFieldsSetCols(vs: seq<Value>)
    ensures SetCols(SetClause([Assignment("title", 1), Assignment("salary", 2), Assignment("equity", 3)], vs))
      == "\"title\"=$1, \"salary\"=$2, \"equity\"=$3"
  {
    var c := SetClause([Assignment("title", 1), Assignment("salary", 2), Assignment("equity", 3)], vs);
    var t1, t2, t3 := "\"title\"=$1", "\"salary\"=$2", "\"equity\"=$3";
    JobFieldsTokens(vs);
    assert [t1, t2, t3][1..] == [t2, t3];
    assert Join([t1, t2, t3], ", ") == t1 + ", " + Join([t2, t3], ", ");
    JoinTwo(t2, t3, ", ");
    assert t1 + ", " + (t2 + ", " + t3) == "\"title\"=$1, \"salary\"=$2, \"equity\"=$3";
  }

  lemma JobFieldsTokens(vs: seq<Value>)
    ensures Tokens(SetClause([Assignment("title", 1), Assignment("salary", 2), Assignment("equity", 3)], vs))
      == ["\"title\"=$1", "\"salary\"=$2", "\"equity\"=$3"]
  {
    assert Decimal(1) == "1" && Decimal(2) == "2" && Decimal(3) == "3";
    assert RenderAssignment(Assignment("title", 1)) == "\"title\"=$1";
    assert RenderAssignment(Assignment("salary", 2)) == "\"salary\"=$2";
    assert RenderAssignment(Assignment("equity", 3)) == "\"equity\"=$3";
  }
}
