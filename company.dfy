/** The query-building parts of models/company.js: the placeholder
    arithmetic of `Company.update`, and the unfinished `_makeWhereClause`
    helper of `Company.findAll` as it is written. */
module CompanyModel {
  import opened Wrappers
  import opened ExpressError
  import opened Numerals
  import opened Sql

  // ---------------------------------------------------------------------
  // Company.update

  /** The rename table `update` hands to the partial-update helper. */
  const UpdateColumns: map<string, string> := map["numEmployees" := "num_employees", "logoUrl" := "logo_url"]

  /** The UPDATE statement `update` sends: its SET clause, the placeholder
      text of `WHERE handle = ...`, and the parameter list. */
  datatype UpdateStatement = UpdateStatement(setCols: string, handleVarIdx: string, params: seq<SqlValue>)

  /** The statement `update(handle, data)` issues: the SET clause of the
      data, the next free placeholder for the handle, and the data's values
      followed by the handle. Empty data fails before any statement exists. */
  function UpdateQuery(handle: string, data: seq<Entry>): (r: Result<UpdateStatement, Error>)
    ensures r.Failure? <==> |data| == 0
    ensures r.Failure? ==> r.error == BadRequestError("No data")
    ensures r.Success? ==> |r.value.params| == |data| + 1
    ensures r.Success? ==> r.value.params[|data|] == Sql.Text(handle)
    ensures r.Success? ==> forall i :: 0 <= i < |data| ==> r.value.params[i] == data[i].1
  {
    match SqlForPartialUpdate(data, UpdateColumns)
    case Failure(e) => Failure(e)
    case Success(SetClause(setCols, values)) =>
      var handleVarIdx := "$" + Show(|values| + 1);
      Success(UpdateStatement(setCols, handleVarIdx, values + [Sql.Text(handle)]))
  }

  /** The position a placeholder text `$n` names. */
  function PlaceholderPosition(p: string): Option<nat> {
    if p != [] && p[0] == '$' then ToNumber(p[1..]) else None
  }

  lemma PlaceholderPositionOfShow(n: nat)
    ensures PlaceholderPosition("$" + Show(n)) == Some(n)
  {
    assert ("$" + Show(n))[1..] == Show(n);
    ToNumberOfShow(n);
  }

  /** In the UPDATE statement every placeholder binds what it stands for:
      the SET placeholders are 1 .. |data| and bind the data's values in
      key order, and the WHERE placeholder is the one after them and binds
      the handle. (Exact when no column name contains a double quote.) */
  lemma UpdatePlaceholdersBind(handle: string, data: seq<Entry>)
    requires forall i :: 0 <= i < |data| ==> NoQuote(ColumnName(data[i].0, UpdateColumns))
    ensures var r := UpdateQuery(handle, data);
      r.Success? ==>
        var n := |r.value.params|;
        && PlaceholderPosition(r.value.handleVarIdx) == Some(n)
        && r.value.params[n - 1] == Sql.Text(handle)
        && ParseSetCols(r.value.setCols).Some?
        && var assignments := ParseSetCols(r.value.setCols).value;
           |assignments| == |data| &&
           forall i :: 0 <= i < |data| ==>
             && assignments[i].column == ColumnName(data[i].0, UpdateColumns)
             && 1 <= assignments[i].position < n
             && r.value.params[assignments[i].position - 1] == data[i].1
  {
    SetColsRoundTrip(data, UpdateColumns);
    PlaceholderPositionOfShow(|data| + 1);
  }

  /** `numEmployees` and `logoUrl` are renamed; every other field, such as
      `name` or `description`, is its own column. */
  lemma UpdateRenames(key: string)
    ensures ColumnName(key, UpdateColumns) ==
      if key == "numEmployees" then "num_employees"
      else if key == "logoUrl" then "logo_url"
      else key
  {
  }

  // ---------------------------------------------------------------------
  // Company.findAll: _makeWhereClause

  /** The filter fields of a search query string; each may be missing. */
  datatype SearchQuery = SearchQuery(nameLike: Option<string>, minEmployees: Option<string>, maxEmployees: Option<string>)

  /** JavaScript truthiness of a query-string field: present and not "". */
  predicate Truthy(field: Option<string>) {
    field.Some? && field.value != ""
  }

  /** `Number(s)` as a bound parameter. */
  function NumberValue(s: string): (v: SqlValue)
    ensures v.Number? || v.NaN?
  {
    match ToNumber(s)
    case Some(n) => Number(n)
    case None => NaN
  }

  /** The min/max check at the top of `_makeWhereClause`. The source reads
      `data.minEmployees` and `data.maxEmployees`, and `data` is not bound
      in that function; this check reads the query's own fields, as the
      destructuring on the next line does. `+min > max` compares numbers
      (the string on the right is converted too), and a comparison with
      NaN is false, so a bound that is not a number never fails it. */
  function CheckEmployeeBounds(q: SearchQuery): (r: Result<(), Error>)
    ensures r.Failure? ==> r.error == BadRequestError("")
    ensures r.Failure? <==>
      && Truthy(q.minEmployees) && Truthy(q.maxEmployees)
      && ToNumber(q.minEmployees.value).Some? && ToNumber(q.maxEmployees.value).Some?
      && ToNumber(q.minEmployees.value).value > ToNumber(q.maxEmployees.value).value
  {
    if Truthy(q.minEmployees) && Truthy(q.maxEmployees) then
      match (ToNumber(q.minEmployees.value), ToNumber(q.maxEmployees.value))
      case (Some(min), Some(max)) =>
        if min > max then Failure(BadRequestError("")) else Success(())
      case _ => Success(())
    else Success(())
  }

  /** `Number(s)` of a numeral is the number it denotes. */
  lemma NumberValueOfShow(n: nat)
    ensures NumberValue(Show(n)) == Number(n)
  {
    ToNumberOfShow(n);
  }

  /** Bounds written as numerals are compared as numbers, not as strings:
      the check fails exactly when min > max (so "10" against "9" fails). */
  lemma BoundsCompareNumerically(name: Option<string>, min: nat, max: nat)
    ensures CheckEmployeeBounds(SearchQuery(name, Some(Show(min)), Some(Show(max))))
         == if min > max then Failure(BadRequestError("")) else Success(())
  {
    ToNumberOfShow(min);
    ToNumberOfShow(max);
  }

  /** The check only ever fails when both bounds are present. */
  lemma MissingBoundPasses(q: SearchQuery)
    requires !Truthy(q.minEmployees) || !Truthy(q.maxEmployees)
    ensures CheckEmployeeBounds(q) == Success(())
  {
  }

  /** One filter the helper emits: column, operator, bound value. */
  datatype Filter = Filter(column: string, op: string, value: SqlValue)

  /** The filters `_makeWhereClause` appends, in the order its `if` blocks
      run: `nameLike` unchanged, then `maxEmployees` twice (once through
      `Number`, once raw); `minEmployees` produces none. */
  function ActiveFilters(q: SearchQuery): (fs: seq<Filter>)
    ensures |fs| <= 3
    ensures forall i :: 0 <= i < |fs| ==>
      (fs[i].column == "name" && fs[i].op == "ILIKE") || (fs[i].column == "num_employees" && fs[i].op == "<=")
  {
    (if Truthy(q.nameLike) then [Filter("name", "ILIKE", Sql.Text(q.nameLike.value))] else []) +
    (if Truthy(q.maxEmployees) then [Filter("num_employees", "<=", NumberValue(q.maxEmployees.value))] else []) +
    (if Truthy(q.maxEmployees) then [Filter("num_employees", "<=", Sql.Text(q.maxEmployees.value))] else [])
  }

  /** The expression text for filter `f` bound to placeholder `position`:
      column, operator and `$position`; when column and operator hold no
      `$`, the placeholder the text names is `position`. */
  function Expression(f: Filter, position: nat): (e: string)
    ensures NoDollar(f.column + " " + f.op + " ") ==> ReferencedPlaceholder(e) == Some(position)
  {
    var prefix := f.column + " " + f.op + " ";
    var e := prefix + "$" + Show(position);
    assert NoDollar(prefix) ==> ReferencedPlaceholder(e) == Some(position) by {
      if NoDollar(prefix) {
        ReferencedAfterPrefix(prefix, position);
      }
    }
    e
  }

  /** The two parallel arrays the helper builds. */
  datatype WhereParts = WhereParts(whereExps: seq<string>, values: seq<SqlValue>)

  /** `_makeWhereClause(query)`: the bounds check runs first and its
      failure stops everything; then each filter pushes its value and an
      expression whose placeholder is read from the new length of `values`.
      The source returns nothing (its `return` is commented out); the model
      returns the two arrays as they stand at the end of the function. */
  method MakeWhereClause(q: SearchQuery) returns (r: Result<WhereParts, Error>)
    ensures CheckEmployeeBounds(q).Failure? ==> r == Failure(CheckEmployeeBounds(q).error)
    ensures CheckEmployeeBounds(q).Success? ==> r.Success?
    ensures r.Success? ==>
      var fs := ActiveFilters(q);
      && |r.value.whereExps| == |fs| == |r.value.values|
      && forall i :: 0 <= i < |fs| ==>
           r.value.whereExps[i] == Expression(fs[i], i + 1) && r.value.values[i] == fs[i].value
  {
    var check := CheckEmployeeBounds(q);
    if check.Failure? {
      return Failure(check.error);
    }
    var whereExps: seq<string> := [];
    var values: seq<SqlValue> := [];
    ghost var filters: seq<Filter> := [];
    if Truthy(q.nameLike) {
      ghost var f := Filter("name", "ILIKE", Sql.Text(q.nameLike.value));
      NameExpression(f.value, |values| + 1);
      PushPreservesPushed(filters, whereExps, values, f, "name ILIKE $" + Show(|values| + 1));
      values := values + [Sql.Text(q.nameLike.value)];
      whereExps := whereExps + ["name ILIKE $" + Show(|values|)];
      filters := filters + [f];
    }
    if Truthy(q.maxEmployees) {
      ghost var f := Filter("num_employees", "<=", NumberValue(q.maxEmployees.value));
      EmployeesExpression(f.value, |values| + 1);
      PushPreservesPushed(filters, whereExps, values, f, "num_employees <= $" + Show(|values| + 1));
      values := values + [NumberValue(q.maxEmployees.value)];
      whereExps := whereExps + ["num_employees <= $" + Show(|values|)];
      filters := filters + [f];
    }
    // minEmployees is not filtered (a TODO in the source)
    if Truthy(q.maxEmployees) {
      ghost var f := Filter("num_employees", "<=", Sql.Text(q.maxEmployees.value));
      EmployeesExpression(f.value, |values| + 1);
      PushPreservesPushed(filters, whereExps, values, f, "num_employees <= $" + Show(|values| + 1));
      values := values + [Sql.Text(q.maxEmployees.value)];
      whereExps := whereExps + ["num_employees <= $" + Show(|values|)];
      filters := filters + [f];
    }
    assert filters == ActiveFilters(q);
    return Success(WhereParts(whereExps, values));
  }

  /** `whereExps` and `values` hold, position by position, the expression
      and the value of each of `filters`. */
  ghost predicate Pushed(filters: seq<Filter>, whereExps: seq<string>, values: seq<SqlValue>) {
    && |whereExps| == |filters| == |values|
    && forall i :: 0 <= i < |filters| ==>
         whereExps[i] == Expression(filters[i], i + 1) && values[i] == filters[i].value
  }

  /** Pushing a value and the expression that names the new length of
      `values` keeps the two arrays aligned with the filters. */
  lemma PushPreservesPushed(filters: seq<Filter>, whereExps: seq<string>, values: seq<SqlValue>,
                            f: Filter, text: string)
    requires Pushed(filters, whereExps, values)
    requires text == Expression(f, |values| + 1)
    ensures Pushed(filters + [f], whereExps + [text], values + [f.value])
  {
  }

  /** The source's two expression templates are `Expression` texts. */
  lemma NameExpression(v: SqlValue, position: nat)
    ensures Expression(Filter("name", "ILIKE", v), position) == "name ILIKE $" + Show(position)
  {
    assert "name" + " " + "ILIKE" + " " + "$" == "name ILIKE $";
  }

  lemma EmployeesExpression(v: SqlValue, position: nat)
    ensures Expression(Filter("num_employees", "<=", v), position) == "num_employees <= $" + Show(position)
  {
    assert "num_employees" + " " + "<=" + " " + "$" == "num_employees <= $";
  }

  /** An expression's placeholder: the number after its first `$`. */
  function ReferencedPlaceholder(e: string): Option<nat>
    decreases |e|
  {
    if e == [] then None
    else if e[0] == '$' then ToNumber(e[1..])
    else ReferencedPlaceholder(e[1..])
  }

  predicate NoDollar(s: string) {
    forall i :: 0 <= i < |s| ==> s[i] != '$'
  }

  lemma {:induction false} ReferencedAfterPrefix(prefix: string, position: nat)
    requires NoDollar(prefix)
    ensures ReferencedPlaceholder(prefix + "$" + Show(position)) == Some(position)
    decreases |prefix|
  {
    var e := prefix + "$" + Show(position);
    if prefix == [] {
      assert e == "$" + Show(position);
      PlaceholderPositionOfShow(position);
      assert e[1..] == Show(position);
    } else {
      assert e[1..] == prefix[1..] + "$" + Show(position);
      ReferencedAfterPrefix(prefix[1..], position);
    }
  }

  /** Expression i is `name ILIKE $(i+1)` or `num_employees <= $(i+1)`:
      column, operator and placeholder $(i+1), and no other placeholder. */
  lemma ExpressionReferencesPosition(q: SearchQuery, i: nat)
    requires i < |ActiveFilters(q)|
    ensures var e := Expression(ActiveFilters(q)[i], i + 1);
      e == "name ILIKE $" + Show(i + 1) || e == "num_employees <= $" + Show(i + 1)
    ensures ReferencedPlaceholder(Expression(ActiveFilters(q)[i], i + 1)) == Some(i + 1)
  {
    var f := ActiveFilters(q)[i];
    if f.column == "name" {
      NameExpression(f.value, i + 1);
      assert f == Filter("name", "ILIKE", f.value);
      ReferencedAfterPrefix("name ILIKE ", i + 1);
    } else {
      EmployeesExpression(f.value, i + 1);
      assert f == Filter("num_employees", "<=", f.value);
      ReferencedAfterPrefix("num_employees <= ", i + 1);
    }
  }

  /** Which filters are switched on: the only thing about a query that the
      expression texts may depend on. */
  predicate SameShape(q1: SearchQuery, q2: SearchQuery) {
    Truthy(q1.nameLike) == Truthy(q2.nameLike) && Truthy(q1.maxEmployees) == Truthy(q2.maxEmployees)
  }

  /** No user value reaches the SQL text: two queries that switch on the
      same filters get the same expressions, whatever their values. */
  lemma ExpressionsIgnoreValues(q1: SearchQuery, q2: SearchQuery, i: nat)
    requires SameShape(q1, q2)
    ensures |ActiveFilters(q1)| == |ActiveFilters(q2)|
    ensures i < |ActiveFilters(q1)| ==>
      Expression(ActiveFilters(q1)[i], i + 1) == Expression(ActiveFilters(q2)[i], i + 1)
  {
  }

  /** The number of pushes: one for a truthy `nameLike`, two for a truthy
      `maxEmployees`, none for `minEmployees` or a falsy field. */
  lemma FilterCount(q: SearchQuery)
    ensures |ActiveFilters(q)| == (if Truthy(q.nameLike) then 1 else 0) + (if Truthy(q.maxEmployees) then 2 else 0)
  {
  }

  /** A truthy `nameLike` comes first and is bound as given, without `%`. */
  lemma NameLikeBoundVerbatim(q: SearchQuery)
    requires Truthy(q.nameLike)
    ensures ActiveFilters(q)[0] == Filter("name", "ILIKE", Sql.Text(q.nameLike.value))
    ensures Expression(ActiveFilters(q)[0], 1) == "name ILIKE $1"
  {
    assert Show(1) == "1";
  }

  /** A truthy `maxEmployees` ends the list twice: through `Number`, then raw. */
  lemma MaxEmployeesPushedTwice(q: SearchQuery)
    requires Truthy(q.maxEmployees)
    ensures var fs := ActiveFilters(q);
      && |fs| >= 2
      && fs[|fs| - 2] == Filter("num_employees", "<=", NumberValue(q.maxEmployees.value))
      && fs[|fs| - 1] == Filter("num_employees", "<=", Sql.Text(q.maxEmployees.value))
  {
  }

  /** `minEmployees` takes part only in the bounds check. */
  lemma MinEmployeesNotFiltered(q: SearchQuery, min: Option<string>)
    ensures ActiveFilters(q.(minEmployees := min)) == ActiveFilters(q)
  {
  }

  /** The query string `?nameLike=C&maxEmployees=200`. */
  lemma NameAndMaxExample()
    ensures ActiveFilters(SearchQuery(Some("C"), None, Some("200")))
         == [Filter("name", "ILIKE", Sql.Text("C")),
             Filter("num_employees", "<=", Number(200)),
             Filter("num_employees", "<=", Sql.Text("200"))]
  {
    assert Value("200") == 200 by {
      assert "200"[..2] == "20" && "20"[..1] == "2" && "2"[..0] == "";
    }
  }
}
