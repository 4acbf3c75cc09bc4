/** The partial-update helper of helpers/sql.js: from the fields a caller
    wants to change and a table renaming JavaScript field names to column
    names, it builds the text of a SQL `SET` clause whose values are all
    placeholders, and the list of values those placeholders bind. */
module Sql {
  import opened Wrappers
  import opened ExpressError
  import opened Numerals

  /** A scalar that the database driver binds to a placeholder. */
  datatype SqlValue =
    | Text(s: string)
    | Number(n: int)
    | NaN
    | Bool(b: bool)
    | Null

  /** One own property of the `dataToUpdate` object; the object is the
      sequence of its properties in key-enumeration order. */
  type Entry = (string, SqlValue)

  /** The helper's result object `{ setCols, values }`. */
  datatype SetClause = SetClause(setCols: string, values: seq<SqlValue>)

  /** `Object.keys(data)`: one key per property. */
  function KeysOf(data: seq<Entry>): (keys: seq<string>)
    ensures |keys| == |data|
  {
    seq(|data|, i requires 0 <= i < |data| => data[i].0)
  }

  /** `Object.values(data)`: one value per property. */
  function ValuesOf(data: seq<Entry>): (values: seq<SqlValue>)
    ensures |values| == |data|
  {
    seq(|data|, i requires 0 <= i < |data| => data[i].1)
  }

  /** `Object.keys` and `Object.values` enumerate the same properties in the
      same order: zipping them back together gives the object. This is what
      lets the helper pair the key at index i with the value at index i. */
  lemma KeysValuesAligned(data: seq<Entry>)
    ensures |KeysOf(data)| == |ValuesOf(data)|
    ensures seq(|data|, i requires 0 <= i < |data| => (KeysOf(data)[i], ValuesOf(data)[i])) == data
  {
  }

  /** `jsToSql[key] || key`: the renamed column when the table has a
      non-empty entry for the key, the key itself otherwise. */
  function ColumnName(key: string, jsToSql: map<string, string>): (column: string)
    ensures column == key || (key in jsToSql && column == jsToSql[key])
    ensures key in jsToSql && jsToSql[key] != "" ==> column == jsToSql[key]
    ensures column == "" ==> key == ""
  {
    if key in jsToSql && jsToSql[key] != "" then jsToSql[key] else key
  }

  /** One assignment of the clause: the double-quoted column, `=$` and the
      1-based placeholder position. */
  function Fragment(column: string, position: nat): (f: string)
    ensures |f| == |column| + 4 + |Show(position)|
    ensures f[0] == '"' && f[|column| + 1] == '"'
  {
    "\"" + column + "\"=$" + Show(position)
  }

  /** The total length of `parts`. */
  function TotalLength(parts: seq<string>): nat {
    if |parts| == 0 then 0 else |parts[0]| + TotalLength(parts[1..])
  }

  /** `parts.join(sep)`: the parts in order, one separator between
      neighbours, so the text starts with the first part and is as long as
      the parts plus one separator fewer than there are parts. */
  function Join(parts: seq<string>, sep: string): (r: string)
    ensures |parts| >= 1 ==> parts[0] <= r
    ensures |parts| >= 1 ==> |r| == TotalLength(parts) + (|parts| - 1) * |sep|
    ensures |parts| == 0 ==> r == ""
  {
    if |parts| == 0 then ""
    else if |parts| == 1 then parts[0]
    else parts[0] + sep + Join(parts[1..], sep)
  }

  /** `keys.map((colName, idx) => ...)`: the fragment of the key at index
      `idx` carries placeholder `$(idx + 1)`. */
  function Fragments(keys: seq<string>, jsToSql: map<string, string>): (frags: seq<string>)
    ensures |frags| == |keys|
  {
    seq(|keys|, i requires 0 <= i < |keys| => Fragment(ColumnName(keys[i], jsToSql), i + 1))
  }

  /** sqlForPartialUpdate: an empty object is refused with
      `BadRequestError("No data")`; otherwise the values come out in key
      order, index-aligned with the placeholders. */
  function SqlForPartialUpdate(data: seq<Entry>, jsToSql: map<string, string>): (r: Result<SetClause, Error>)
    ensures r.Failure? <==> |data| == 0
    ensures r.Failure? ==> r.error == BadRequestError("No data")
    ensures r.Success? ==> |r.value.values| == |data|
    ensures r.Success? ==> forall i :: 0 <= i < |data| ==> r.value.values[i] == data[i].1
  {
    var keys := KeysOf(data);
    if |keys| == 0 then Failure(BadRequestError("No data"))
    else Success(SetClause(Join(Fragments(keys, jsToSql), ", "), ValuesOf(data)))
  }

  // ---------------------------------------------------------------------
  // Reading a SET clause back. The parser below is an independent
  // description of the text: what a database sees when it reads
  // `"col"=$n, "col"=$n, ...`. It is the partner against which the
  // builder's output is proved.

  /** What one fragment says: assign placeholder `position` to `column`. */
  datatype Assignment = Assignment(column: string, position: nat)

  predicate NoQuote(s: string) {
    forall i :: 0 <= i < |s| ==> s[i] != '"'
  }

  /** Splits `s` at its first double quote. */
  function SpanUntilQuote(s: string): (r: (string, string))
    ensures r.0 + r.1 == s && NoQuote(r.0)
    ensures r.1 == [] || r.1[0] == '"'
  {
    if s != [] && s[0] != '"' then
      var (col, rest) := SpanUntilQuote(s[1..]);
      ([s[0]] + col, rest)
    else
      ([], s)
  }

  lemma {:induction false} SpanUntilQuoteExact(c: string, t: string)
    requires NoQuote(c)
    requires t == [] || t[0] == '"'
    ensures SpanUntilQuote(c + t) == (c, t)
  {
    if c != [] {
      assert (c + t)[1..] == c[1..] + t;
      SpanUntilQuoteExact(c[1..], t);
      assert [c[0]] + c[1..] == c;
    } else {
      assert c + t == t;
    }
  }

  /** Reads `"column"=$digits` off the front of `s`. */
  function ParseFragment(s: string): (r: Option<(Assignment, string)>)
    ensures r.Some? ==> |r.value.1| < |s|
  {
    if s != [] && s[0] == '"' then
      var (col, rest) := SpanUntilQuote(s[1..]);
      if |rest| >= 3 && rest[..3] == "\"=$" then
        var (ds, tail) := SpanDigits(rest[3..]);
        if ds == [] then None else Some((Assignment(col, Value(ds)), tail))
      else None
    else None
  }

  /** Reads a whole clause: fragments separated by `", "`. */
  function ParseSetCols(s: string): Option<seq<Assignment>>
    decreases |s|
  {
    match ParseFragment(s)
    case None => None
    case Some((a, rest)) =>
      if rest == [] then Some([a])
      else if |rest| >= 2 && rest[..2] == ", " then
        match ParseSetCols(rest[2..])
        case None => None
        case Some(more) => Some([a] + more)
      else None
  }

  /** A fragment followed by anything that is not a digit reads back as
      its column and position. */
  lemma FragmentParses(c: string, n: nat, t: string)
    requires NoQuote(c)
    requires t == [] || !IsDigit(t[0])
    ensures ParseFragment(Fragment(c, n) + t) == Some((Assignment(c, n), t))
  {
    var s := Fragment(c, n) + t;
    var rest := "\"=$" + Show(n) + t;
    assert s[1..] == c + rest;
    SpanUntilQuoteExact(c, rest);
    assert rest[3..] == Show(n) + t;
    SpanDigitsExact(Show(n), t);
    ValueOfShow(n);
  }

  /** `assignments` lists the columns `cols` with positions `start`, `start + 1`, ... */
  predicate Numbered(assignments: seq<Assignment>, cols: seq<string>, start: nat) {
    |assignments| == |cols| && forall i :: 0 <= i < |cols| ==> assignments[i] == Assignment(cols[i], start + i)
  }

  lemma {:induction false} JoinedFragmentsParse(frags: seq<string>, cols: seq<string>, start: nat)
    requires |frags| == |cols| >= 1
    requires forall i :: 0 <= i < |cols| ==> NoQuote(cols[i])
    requires forall i :: 0 <= i < |cols| ==> frags[i] == Fragment(cols[i], start + i)
    ensures ParseSetCols(Join(frags, ", ")).Some?
    ensures Numbered(ParseSetCols(Join(frags, ", ")).value, cols, start)
    decreases |frags|
  {
    if |frags| == 1 {
      assert Join(frags, ", ") == Fragment(cols[0], start) + [];
      FragmentParses(cols[0], start, []);
    } else {
      var tail := Join(frags[1..], ", ");
      assert Join(frags, ", ") == Fragment(cols[0], start) + (", " + tail);
      FragmentParses(cols[0], start, ", " + tail);
      assert (", " + tail)[2..] == tail;
      JoinedFragmentsParse(frags[1..], cols[1..], start + 1);
    }
  }

  /** The clause the builder emits reads back as exactly one assignment per
      key, in key order, the key at index i renamed through the table and
      bound to placeholder $(i+1); and placeholder $p binds values[p-1],
      the value of that key. Column names are not escaped by the source, so
      the reading is exact when no column name contains a double quote. */
  lemma SetColsRoundTrip(data: seq<Entry>, jsToSql: map<string, string>)
    requires forall i :: 0 <= i < |data| ==> NoQuote(ColumnName(data[i].0, jsToSql))
    ensures var r := SqlForPartialUpdate(data, jsToSql);
      r.Success? ==>
        var parsed := ParseSetCols(r.value.setCols);
        && parsed.Some?
        && |parsed.value| == |data| == |r.value.values|
        && forall i :: 0 <= i < |data| ==>
             && parsed.value[i] == Assignment(ColumnName(data[i].0, jsToSql), i + 1)
             && 1 <= parsed.value[i].position <= |r.value.values|
             && r.value.values[parsed.value[i].position - 1] == data[i].1
  {
    if |data| > 0 {
      var keys := KeysOf(data);
      var cols := seq(|keys|, i requires 0 <= i < |keys| => ColumnName(keys[i], jsToSql));
      JoinedFragmentsParse(Fragments(keys, jsToSql), cols, 1);
    }
  }

  /** The SET text depends only on the keys and the rename table, never on
      the values: no value is interpolated into the SQL. */
  lemma SetColsIgnoresValues(d1: seq<Entry>, d2: seq<Entry>, jsToSql: map<string, string>)
    requires KeysOf(d1) == KeysOf(d2)
    ensures SqlForPartialUpdate(d1, jsToSql).Success? == SqlForPartialUpdate(d2, jsToSql).Success?
    ensures SqlForPartialUpdate(d1, jsToSql).Success? ==>
      SqlForPartialUpdate(d1, jsToSql).value.setCols == SqlForPartialUpdate(d2, jsToSql).value.setCols
  {
  }

  /** Rename entries for keys absent from the data have no effect. */
  lemma UnusedRenamesIgnored(data: seq<Entry>, jsToSql: map<string, string>)
    ensures SqlForPartialUpdate(data, jsToSql)
         == SqlForPartialUpdate(data, map k | k in jsToSql && k in KeysOf(data) :: jsToSql[k])
  {
    var keys := KeysOf(data);
    var used := map k | k in jsToSql && k in keys :: jsToSql[k];
    forall i | 0 <= i < |keys|
      ensures ColumnName(keys[i], jsToSql) == ColumnName(keys[i], used)
    {
      assert keys[i] in keys;
    }
    assert Fragments(keys, jsToSql) == Fragments(keys, used);
  }

  /** sql.test.js, "works with partial data that is valid": the clause
      `"first_name"=$1, "last_name"=$2` with values `["Bob", "Laster"]`. */
  lemma PartialDataExample()
    ensures var r := SqlForPartialUpdate(
              [("firstName", Text("Bob")), ("lastName", Text("Laster"))],
              map["firstName" := "first_name", "lastName" := "last_name"]);
      && r.Success?
      && r.value.setCols == "\"first_name\"=$1, \"last_name\"=$2"
      && r.value.values == [Text("Bob"), Text("Laster")]
  {
    var data := [("firstName", Text("Bob")), ("lastName", Text("Laster"))];
    var jsToSql := map["firstName" := "first_name", "lastName" := "last_name"];
    assert KeysOf(data) == ["firstName", "lastName"];
    assert ColumnName("firstName", jsToSql) == "first_name";
    assert ColumnName("lastName", jsToSql) == "last_name";
    assert Fragments(KeysOf(data), jsToSql) == [Fragment("first_name", 1), Fragment("last_name", 2)];
    PartialDataClause();
  }

  /** The two fragments of the partial-data test, joined, spelled out. */
  lemma PartialDataClause()
    ensures Join([Fragment("first_name", 1), Fragment("last_name", 2)], ", ") == "\"first_name\"=$1, \"last_name\"=$2"
  {
    var a, b := Fragment("first_name", 1), Fragment("last_name", 2);
    assert Show(1) == "1" && Show(2) == "2";
    assert a == "\"first_name\"=$1";
    assert b == "\"last_name\"=$2";
    assert [a, b][1..] == [b];
    assert Join([a, b], ", ") == a + ", " + b;
  }

  /** sql.test.js, "works with full data that is valid": the fragments
      `"first_name"=$1`, `"last_name"=$2`, `"email"=$3`, `"is_admin"=$4`
      joined by `", "`, where `email` has no rename entry and passes
      through as its own column. */
  lemma FullDataExample()
    ensures var r := SqlForPartialUpdate(
              [("firstName", Text("Bob")), ("lastName", Text("Laster")),
               ("email", Text("bob@laster.com")), ("isAdmin", Bool(true))],
              map["firstName" := "first_name", "lastName" := "last_name", "isAdmin" := "is_admin"]);
      && r.Success?
      && r.value.setCols == Join([Fragment("first_name", 1), Fragment("last_name", 2),
                                  Fragment("email", 3), Fragment("is_admin", 4)], ", ")
      && r.value.values == [Text("Bob"), Text("Laster"), Text("bob@laster.com"), Bool(true)]
  {
    var data := [("firstName", Text("Bob")), ("lastName", Text("Laster")),
                 ("email", Text("bob@laster.com")), ("isAdmin", Bool(true))];
    var jsToSql := map["firstName" := "first_name", "lastName" := "last_name", "isAdmin" := "is_admin"];
    assert KeysOf(data) == ["firstName", "lastName", "email", "isAdmin"];
    assert ColumnName("firstName", jsToSql) == "first_name";
    assert ColumnName("lastName", jsToSql) == "last_name";
    assert ColumnName("email", jsToSql) == "email";
    assert ColumnName("isAdmin", jsToSql) == "is_admin";
    var frags := [Fragment("first_name", 1), Fragment("last_name", 2), Fragment("email", 3), Fragment("is_admin", 4)];
    assert Fragments(KeysOf(data), jsToSql) == frags;
    assert ValuesOf(data) == [Text("Bob"), Text("Laster"), Text("bob@laster.com"), Bool(true)];
    assert SqlForPartialUpdate(data, jsToSql) == Success(SetClause(Join(frags, ", "), ValuesOf(data)));
  }

  /** sql.test.js, "bad request with no data". */
  lemma NoDataExample()
    ensures SqlForPartialUpdate([], map["firstName" := "first_name", "lastName" := "last_name"])
         == Failure(BadRequestError("No data"))
  {
  }
}
