/**
 What filters and orders mean, said without the operator tables and the comparison function
 that the two stores share: numbers by value, text by its bytes, NULL before everything.
 */
module Meaning {
  import opened Wrappers
  import opened Database
  import opened Comparison
  import opened BrowseCompiler
  import opened Relational
  import opened Sorting
  import opened Demo
  import Agreement
  import Sql
  import L = Like

  ghost predicate NumberKept(op: string, x: real, y: real) {
    || (op == "eq" && x == y) || (op == "ne" && x != y)
    || (op == "gt" && x > y) || (op == "gte" && x >= y)
    || (op == "lt" && x < y) || (op == "lte" && x <= y)
  }

  ghost predicate TextKept(op: string, a: string, b: string) {
    || (op == "eq" && a == b) || (op == "ne" && a != b)
    || (op == "gt" && TextBefore(b, a)) || (op == "gte" && (a == b || TextBefore(b, a)))
    || (op == "lt" && TextBefore(a, b)) || (op == "lte" && (a == b || TextBefore(a, b)))
  }

  ghost predicate HoldsNumbers(c: Column) {
    || (|c.kind| >= 6 && c.kind[..6] == "bigint") || c.kind == "int" || (|c.kind| >= 7 && c.kind[..7] == "decimal")
  }

  /** What a filter keeps of a column's values. */
  ghost predicate ValueKept(column: Column, op: string, wanted: string, v: Value, num: Reading) {
    if op == "is-null" then v.isNull
    else if op == "not-null" then !v.isNull
    else if op == "contains" then
      !v.isNull && exists before, after :: v.text == before + wanted + after
    else if HoldsNumbers(column) then
      !v.isNull && num(v.text).Some? && num(wanted).Some? && NumberKept(op, num(v.text).value, num(wanted).value)
    else !v.isNull && TextKept(op, v.text, wanted)
  }

  ghost predicate FilterKeeps(columns: seq<Column>, f: Filter, row: seq<Value>, num: Reading)
    requires |row| == |columns|
  {
    exists i :: 0 <= i < |columns| && columns[i].name == f.column && ValueKept(columns[i], f.op, f.value, row[i], num)
  }

  ghost predicate RowKept(columns: seq<Column>, filters: seq<Filter>, row: seq<Value>, num: Reading)
    requires |row| == |columns|
  {
    forall k :: 0 <= k < |filters| ==> FilterKeeps(columns, filters[k], row, num)
  }

  lemma KeptValueMeans(column: Column, f: Filter, v: Value, num: Reading)
    requires f.op !in {"is-null", "not-null", "contains"} && OpOf(f.op).Some? && !v.isNull
    requires Numeric(column) ==> num(v.text).Some? && num(f.value).Some?
    ensures OpHolds(OpOf(f.op).value, Compare(Some(v.text), Some(f.value), Numeric(column), num))
            <==> ValueKept(column, f.op, f.value, v, num)
  {
    hide Compare, Numeric, TextBefore;
    NumericKinds(column);
    CompareMeans(Some(v.text), Some(f.value), Numeric(column), num);
  }

  lemma ContainsMeans(text: string, wanted: string)
    ensures L.Contains(text, wanted) <==> exists before, after :: text == before + wanted + after
  {
    if L.Contains(text, wanted) {
      var i :| 0 <= i <= |text| && L.OccursAt(text, wanted, i);
      assert text == text[..i] + wanted + text[i + |wanted|..];
    }
    if before, after :| text == before + wanted + after {
      assert text[|before|..|before| + |wanted|] == wanted;
      assert L.OccursAt(text, wanted, |before|);
    }
  }

  /** The in-memory store keeps exactly the rows that the filter says, operator by operator. */
  lemma FilterMeans(t: DemoTable, f: Filter, row: seq<Value>, num: Reading)
    requires Shaped(t) && |row| == |t.schema.columns| && ReadableRow(t, row, num)
    requires FilterProblem(t, f, num).None?
    ensures Passes(t, f, row, num) <==> FilterKeeps(t.schema.columns, f, row, num)
  {
    hide L.Contains;
    var i := Position(t, f.column);
    assert t.schema.columns[i].name == f.column;
    if f.op == "contains" {
      ContainsMeans(row[i].text, f.value);
    } else if f.op != "is-null" && f.op != "not-null" && !row[i].isNull {
      KeptValueMeans(t.schema.columns[i], f, row[i], num);
    }
    assert Passes(t, f, row, num) <==> ValueKept(t.schema.columns[i], f.op, f.value, row[i], num);
    OnlyColumn(t, f.column, i);
  }

  lemma OnlyColumn(t: DemoTable, name: string, i: nat)
    requires Shaped(t) && i < |t.schema.columns| && t.schema.columns[i].name == name
    ensures forall j :: 0 <= j < |t.schema.columns| && t.schema.columns[j].name == name ==> j == i
  {
  }

  lemma {:induction false} FiltersMean(t: DemoTable, filters: seq<Filter>, row: seq<Value>, num: Reading)
    requires Shaped(t) && |row| == |t.schema.columns| && ReadableRow(t, row, num)
    requires FirstProblem(t, filters, num).None?
    ensures PassesAll(t, filters, row, num) <==> RowKept(t.schema.columns, filters, row, num)
  {
    hide Passes, FilterKeeps, FilterProblem;
    GoodFilters(t, filters, num);
    forall k | 0 <= k < |filters|
      ensures Passes(t, filters[k], row, num) <==> FilterKeeps(t.schema.columns, filters[k], row, num)
    {
      FilterMeans(t, filters[k], row, num);
    }
  }

  /** The same of the generated SQL: its condition is true of exactly the rows that the filter keeps. */
  lemma ConditionMeans(t: DemoTable, f: Filter, k: nat, num: Reading)
    requires Shaped(t) && k < |t.rows| && ReadableRow(t, t.rows[k], num) && FilterProblem(t, f, num).None?
    requires FilterError(f, ColumnMap(t.schema.columns)).None?
    ensures var c := ConditionOf(f).value;
            var arg := if c.Null? then "" else ArgsOf(f)[0].text;
            Holds(Agreement.RelationOf(t), c, arg, Agreement.RelationOf(t).rows[k], num) == True
            <==> FilterKeeps(t.schema.columns, f, t.rows[k], num)
  {
    hide Holds, Passes, FilterKeeps;
    Agreement.FilterAgrees(t, f, k, num);
    FilterMeans(t, f, t.rows[k], num);
  }

  // ---------------------------------------------------------------- order

  /** a is not after b: NULL comes first, then numbers by value or text by its bytes. */
  ghost predicate UpTo(a: Value, b: Value, numbers: bool, num: Reading) {
    || a.isNull
    || (&& !b.isNull
        && if numbers then num(a.text).Some? && num(b.text).Some? && num(a.text).value <= num(b.text).value
           else a.text == b.text || TextBefore(a.text, b.text))
  }

  /** Row a may be shown above row b: by the sort column, then by the first column as a number. */
  ghost predicate Above(columns: seq<Column>, sort: string, a: seq<Value>, b: seq<Value>, num: Reading)
    requires |a| == |columns| && |b| == |columns| && columns != []
  {
    exists i :: 0 <= i < |columns| && (if sort == "" then i == 0 else columns[i].name == sort)
                && AboveAt(columns, i, a, b, num)
  }

  ghost predicate AboveAt(columns: seq<Column>, i: nat, a: seq<Value>, b: seq<Value>, num: Reading)
    requires |a| == |columns| && |b| == |columns| && i < |columns|
  {
    && UpTo(a[i], b[i], HoldsNumbers(columns[i]), num)
    && (UpTo(b[i], a[i], HoldsNumbers(columns[i]), num) ==> UpTo(a[0], b[0], true, num))
  }

  lemma CellsMean(a: Value, b: Value, numbers: bool, num: Reading)
    requires numbers && !a.isNull ==> num(a.text).Some?
    requires numbers && !b.isNull ==> num(b.text).Some?
    ensures Compare(CellOf(a), CellOf(b), numbers, num) <= 0 <==> UpTo(a, b, numbers, num)
  {
    hide Compare, TextBefore;
    CompareMeans(CellOf(a), CellOf(b), numbers, num);
    CompareFlips(CellOf(a), CellOf(b), numbers, num);
  }

  lemma OrderMeans(t: DemoTable, req: BrowseRequest, a: seq<Value>, b: seq<Value>, num: Reading)
    requires Shaped(t) && SortColumn(t, req) < |t.schema.columns|
    requires |a| == |t.schema.columns| && |b| == |t.schema.columns| && ReadableRow(t, a, num) && ReadableRow(t, b, num)
    ensures CompareRows(t, SortColumn(t, req), a, b, num) <= 0 <==> Above(t.schema.columns, req.sort, a, b, num)
  {
    hide Compare, UpTo, Numeric, HoldsNumbers;
    var i := SortColumn(t, req);
    NumericKindsAre(t.schema.columns[i]);
    CellsMean(a[i], b[i], Numeric(t.schema.columns[i]), num);
    CellsMean(b[i], a[i], Numeric(t.schema.columns[i]), num);
    CellsMean(a[0], b[0], true, num);
    CompareFlips(CellOf(a[i]), CellOf(b[i]), Numeric(t.schema.columns[i]), num);
    OnlyColumn(t, t.schema.columns[i].name, i);
    assert AboveAt(t.schema.columns, i, a, b, num) <==> CompareRows(t, i, a, b, num) <= 0;
  }

  lemma NumericKindsAre(c: Column)
    ensures Numeric(c) <==> HoldsNumbers(c)
  {
    NumericKinds(c);
  }

  /** What a request shows of a table: the rows that the filters keep, each once, each above the next. */
  ghost predicate Lists(t: DemoTable, req: BrowseRequest, num: Reading, p: seq<nat>)
    requires Shaped(t)
  {
    && Distinct(p)
    && (forall k: nat :: k in p <==> k < |t.rows| && RowKept(t.schema.columns, req.filters, t.rows[k], num))
    && (forall i :: 0 <= i < |p| ==> p[i] < |t.rows|)
    && (forall i, j :: 0 <= i < j < |p| ==>
          if req.desc then Above(t.schema.columns, req.sort, t.rows[p[j]], t.rows[p[i]], num)
          else Above(t.schema.columns, req.sort, t.rows[p[i]], t.rows[p[j]], num))
  }

  lemma ArrangedMeans(t: DemoTable, req: BrowseRequest, num: Reading)
    requires Shaped(t) && Readable(t, num) && Problem(t, req, num).None?
    ensures Lists(t, req, num, Arranged(t, req, num))
  {
    hide Arranged, PassesAll, RowKept, Above, CompareRows, FirstProblem, ReadableRow;
    var p := Arranged(t, req, num);
    ArrangedIsSorted(t, req, num);
    forall k: nat | k < |t.rows|
      ensures PassesAll(t, req.filters, t.rows[k], num) <==> RowKept(t.schema.columns, req.filters, t.rows[k], num)
    {
      FiltersMean(t, req.filters, t.rows[k], num);
    }
    forall i, j | 0 <= i < j < |p|
      ensures if req.desc then Above(t.schema.columns, req.sort, t.rows[p[j]], t.rows[p[i]], num)
              else Above(t.schema.columns, req.sort, t.rows[p[i]], t.rows[p[j]], num)
    {
      assert !LessOn(t, req, num)(p[j], p[i]);
      CompareRowsChains(t, SortColumn(t, req), t.rows[p[i]], t.rows[p[j]], t.rows[p[j]], num);
      OrderMeans(t, req, t.rows[p[i]], t.rows[p[j]], num);
      OrderMeans(t, req, t.rows[p[j]], t.rows[p[i]], num);
    }
  }

  /** A page of the in-memory store is the piece of such a list that the request names. */
  lemma PageMeans(t: DemoTable, req: BrowseRequest, num: Reading, page: Page) returns (p: seq<nat>)
    requires Shaped(t) && Readable(t, num) && BrowseResult(t, req, num) == Ok(page)
    ensures Lists(t, req, num, p)
    ensures page.columns == Names(t.schema.columns) && req.limit >= 1 && req.offset >= 0
    ensures page.hasMore <==> req.offset + req.limit < |p|
    ensures |page.rows| == if |p| <= req.offset then 0
                           else if |p| - req.offset <= req.limit then |p| - req.offset else req.limit
    ensures forall i :: 0 <= i < |page.rows| ==> page.rows[i] == t.rows[p[req.offset + i]]
  {
    hide Arranged, Lists, FirstProblem;
    ArrangedMeans(t, req, num);
    p := Arranged(t, req, num);
    assert forall i :: 0 <= i < |p| ==> p[i] < |t.rows|;
    var rows := RowsAt(t, p);
    assert page == PageOf(Names(t.schema.columns), rows, req.limit, req.offset, DEMO_NOTICE);
    forall i | 0 <= i < |page.rows| ensures page.rows[i] == t.rows[p[req.offset + i]] {
      assert page.rows[i] == rows[req.offset + i];
    }
  }

  // ---------------------------------------------------------------- the text

  function ConditionTextOf(f: Filter): Option<string> {
    if ConditionOf(f).None? then None else Some(Sql.ConditionText(ConditionOf(f).value))
  }

  /** The symbol for each operator name. */
  ghost predicate Symbol(op: string, symbol: string) {
    || (op == "eq" && symbol == " = ?") || (op == "ne" && symbol == " <> ?")
    || (op == "gt" && symbol == " > ?") || (op == "gte" && symbol == " >= ?")
    || (op == "lt" && symbol == " < ?") || (op == "lte" && symbol == " <= ?")
    || (op == "is-null" && symbol == " IS NULL") || (op == "not-null" && symbol == " IS NOT NULL")
    || (op == "contains" && symbol == " LIKE ? ESCAPE '!'")
  }

  /** The text of a filter's condition is the quoted column and the symbol of the operator. */
  lemma ConditionTextIs(f: Filter, symbol: string)
    requires Symbol(f.op, symbol)
    ensures ConditionTextOf(f) == Some(Sql.Quote(f.column) + symbol)
  {
    hide Sql.Quote;
    var q := Sql.Quote(f.column);
    if f.op == "contains" {
      assert " LIKE ? ESCAPE '" + ['!'] + "'" == symbol;
      assert q + " LIKE ? ESCAPE '" + ['!'] + "'" == q + (" LIKE ? ESCAPE '" + ['!'] + "'");
    } else if f.op != "is-null" && f.op != "not-null" {
      var sign := Sql.OpText(OpOf(f.op).value);
      assert q + " " + sign + " ?" == q + (" " + sign + " ?");
      assert " " + sign + " ?" == symbol;
    }
  }

  lemma OnlyTheseOperators(f: Filter)
    ensures ConditionTextOf(f).Some? <==> exists symbol :: Symbol(f.op, symbol)
  {
    if ConditionTextOf(f).Some? {
      if f.op == "eq" { assert Symbol(f.op, " = ?"); }
      if f.op == "ne" { assert Symbol(f.op, " <> ?"); }
      if f.op == "gt" { assert Symbol(f.op, " > ?"); }
      if f.op == "gte" { assert Symbol(f.op, " >= ?"); }
      if f.op == "lt" { assert Symbol(f.op, " < ?"); }
      if f.op == "lte" { assert Symbol(f.op, " <= ?"); }
      if f.op == "is-null" { assert Symbol(f.op, " IS NULL"); }
      if f.op == "not-null" { assert Symbol(f.op, " IS NOT NULL"); }
      if f.op == "contains" { assert Symbol(f.op, " LIKE ? ESCAPE '!'"); }
    }
  }

  /** A quoted name is the name between backticks, with every backtick in it doubled. */
  lemma QuoteDoubles(a: string, c: char, b: string)
    ensures Sql.Quote(a) == "`" + Sql.Doubled(a) + "`"
    ensures Sql.Doubled("") == "" && Sql.Doubled([c]) == if c == '`' then "``" else [c]
    ensures Sql.Doubled(a + b) == Sql.Doubled(a) + Sql.Doubled(b)
  {
    assert Sql.Doubled([c]) == (if c == '`' then "``" else [c]) + Sql.Doubled([c][1..]);
    DoubledAppends(a, b);
  }

  lemma DoubledFirst(s: string)
    requires s != ""
    ensures Sql.Doubled(s) == Sql.Doubled([s[0]]) + Sql.Doubled(s[1..])
  {
    assert [s[0]][1..] == "" && Sql.Doubled("") == "";
  }

  lemma {:induction false} DoubledAppends(a: string, b: string)
    ensures Sql.Doubled(a + b) == Sql.Doubled(a) + Sql.Doubled(b)
  {
    if a == "" {
      assert a + b == b;
    } else {
      hide Sql.Doubled;
      DoubledFirst(a);
      DoubledFirst(a + b);
      assert (a + b)[1..] == a[1..] + b;
      DoubledAppends(a[1..], b);
    }
  }

  /** The texts of the filters' conditions and of the ordering columns are these. */
  ghost predicate Phrases(req: BrowseRequest, names: seq<string>, conditions: seq<string>, order: seq<string>) {
    && |conditions| == |req.filters| && |order| == |names|
    && (forall i :: 0 <= i < |conditions| ==> ConditionTextOf(req.filters[i]) == Some(conditions[i]))
    && (forall i :: 0 <= i < |order| ==> order[i] == Sql.Quote(names[i]) + if req.desc then " DESC" else " ASC")
  }

  lemma {:induction false} ConditionsInOrder(filters: seq<Filter>, columns: Columns)
    requires FirstFilterError(filters, columns).None?
    ensures |Conditions(filters)| == |filters|
    ensures forall i :: 0 <= i < |filters| ==> ConditionOf(filters[i]) == Some(Conditions(filters)[i])
  {
    if filters != [] {
      ConditionsInOrder(filters[..|filters| - 1], columns);
    }
  }

  /** The whole text of a request: a condition for each filter, in order, and the ordering columns in one direction. */
  lemma TextLayout(schema: string, req: BrowseRequest, meta: Schema, c: Compiled)
    returns (names: seq<string>, conditions: seq<string>, order: seq<string>)
    requires Compile(schema, req, meta) == Ok(c)
    ensures Phrases(req, names, conditions, order)
    ensures req.sort != "" ==> names != [] && names[0] == req.sort
    ensures Sql.Print(c.select) ==
            "SELECT " + Sql.Join(Sql.Quotes(Names(meta.columns)), ", ")
            + " FROM " + Sql.Quote(schema) + "." + Sql.Quote(req.table)
            + (if req.filters == [] then "" else " WHERE " + Sql.Join(conditions, " AND "))
            + " ORDER BY " + Sql.Join(order, ", ") + " LIMIT ? OFFSET ?"
  {
    hide Sql.Join, Sql.Quote, Sql.ConditionText, ChooseKey, ColumnMap, FilterArgs;
    names := Dedup([req.sort] + (if ChooseKey(meta.indexes, ColumnMap(meta.columns)) == [] then [meta.columns[0].name]
                                 else ChooseKey(meta.indexes, ColumnMap(meta.columns))));
    conditions, order := Sql.ConditionTexts(c.select.where), Sql.KeyTexts(c.select.order);
    ConditionsInOrder(req.filters, ColumnMap(meta.columns));
    SortComesFirst(req.sort, if ChooseKey(meta.indexes, ColumnMap(meta.columns)) == [] then [meta.columns[0].name]
                             else ChooseKey(meta.indexes, ColumnMap(meta.columns)));
  }

  lemma {:induction false} SortComesFirst(sort: string, key: seq<string>)
    ensures sort != "" ==> Dedup([sort] + key) != [] && Dedup([sort] + key)[0] == sort
  {
    if key == [] {
      assert [sort] + key == [sort] && [sort][..0] == [];
      assert Dedup([sort]) == if sort == "" then [] else [sort];
    } else {
      SortComesFirst(sort, key[..|key| - 1]);
      assert ([sort] + key)[..|key|] == [sort] + key[..|key| - 1];
    }
  }
}
