/** The in-memory store: filter, stable sort and slice, directly on its rows. */
module Demo {
  import opened Wrappers
  import opened Database
  import opened Comparison
  import opened BrowseCompiler
  import Relational
  import opened Sorting
  import L = Like

  const DEMO_NOTICE := "Read-only demo. Text filters are case-sensitive; contains matches literal text."

  datatype DemoTable = DemoTable(schema: Schema, rows: seq<seq<Value>>)

  /** Every row has a value for every column, there is a column, and column names are distinct. */
  ghost predicate Shaped(t: DemoTable) {
    && t.schema.columns != []
    && (forall i :: 0 <= i < |t.rows| ==> |t.rows[i]| == |t.schema.columns|)
    && (forall i, j :: 0 <= i < j < |t.schema.columns| ==> t.schema.columns[i].name != t.schema.columns[j].name)
    && (forall i :: 0 <= i < |t.schema.columns| ==> t.schema.columns[i].name != "")
  }

  function CellOf(v: Value): Cell { if v.isNull then None else Some(v.text) }

  function Position(t: DemoTable, name: string): nat { Relational.ColumnIndex(t.schema.columns, name) }

  function FilterProblem(t: DemoTable, f: Filter, num: Reading): Option<BrowseError> {
    var i := Position(t, f.column);
    if i == |t.schema.columns| then Some(UnknownFilter)
    else if |f.value| > 64 * 1024 then Some(FilterTooLarge)
    else if f.op == "is-null" || f.op == "not-null" || f.op == "contains" then None
    else if OpOf(f.op).Some? then
      if Numeric(t.schema.columns[i]) && num(f.value).None? then Some(BadNumber) else None
    else Some(BadOperator)
  }

  function FirstProblem(t: DemoTable, filters: seq<Filter>, num: Reading): Option<BrowseError> {
    if filters == [] then None
    else if FilterProblem(t, filters[0], num).Some? then FilterProblem(t, filters[0], num)
    else FirstProblem(t, filters[1..], num)
  }

  predicate Passes(t: DemoTable, f: Filter, row: seq<Value>, num: Reading)
    requires |row| == |t.schema.columns|
  {
    var i := Position(t, f.column);
    i < |row| &&
    var v := row[i];
    if f.op == "is-null" then v.isNull
    else if f.op == "not-null" then !v.isNull
    else if f.op == "contains" then !v.isNull && L.Contains(v.text, f.value)
    else !v.isNull && OpOf(f.op).Some?
         && Relational.OpHolds(OpOf(f.op).value,
                               Compare(Some(v.text), Some(f.value), Numeric(t.schema.columns[i]), num))
  }

  predicate PassesAll(t: DemoTable, filters: seq<Filter>, row: seq<Value>, num: Reading)
    requires |row| == |t.schema.columns|
  {
    forall i :: 0 <= i < |filters| ==> Passes(t, filters[i], row, num)
  }

  /** Positions, in table order, of the rows that pass every filter. */
  function Kept(t: DemoTable, filters: seq<Filter>, num: Reading, n: nat): (p: seq<nat>)
    requires n <= |t.rows| && forall i :: 0 <= i < |t.rows| ==> |t.rows[i]| == |t.schema.columns|
    ensures forall k: nat :: k in p <==> k < n && PassesAll(t, filters, t.rows[k], num)
    ensures forall i, j :: 0 <= i < j < |p| ==> p[i] != p[j]
  {
    if n == 0 then []
    else
      var before := Kept(t, filters, num, n - 1);
      if PassesAll(t, filters, t.rows[n - 1], num) then before + [n - 1] else before
  }

  /** By the sort column, then by the first column as a number. */
  function CompareRows(t: DemoTable, column: nat, a: seq<Value>, b: seq<Value>, num: Reading): int
    requires |a| == |t.schema.columns| && |b| == |t.schema.columns| && column < |a|
  {
    var c := Compare(CellOf(a[column]), CellOf(b[column]), Numeric(t.schema.columns[column]), num);
    if c == 0 then Compare(CellOf(a[0]), CellOf(b[0]), true, num) else c
  }

  predicate Less(t: DemoTable, column: nat, desc: bool, num: Reading, i: nat, j: nat) {
    && i < |t.rows| && j < |t.rows| && column < |t.schema.columns|
    && |t.rows[i]| == |t.schema.columns| && |t.rows[j]| == |t.schema.columns|
    && var c := CompareRows(t, column, t.rows[i], t.rows[j], num);
       if desc then c > 0 else c < 0
  }

  lemma {:induction false} KeptAscends(t: DemoTable, filters: seq<Filter>, num: Reading, n: nat)
    requires n <= |t.rows| && forall i :: 0 <= i < |t.rows| ==> |t.rows[i]| == |t.schema.columns|
    ensures Ascending(Kept(t, filters, num, n))
  {
    hide PassesAll;
    if n > 0 {
      KeptAscends(t, filters, num, n - 1);
      var before := Kept(t, filters, num, n - 1);
      assert forall i :: 0 <= i < |before| ==> before[i] in before;
    }
  }

  // ---------------------------------------------------------------- the direct answer

  function RowsAt(t: DemoTable, p: seq<nat>): seq<seq<Value>>
    requires forall i :: 0 <= i < |p| ==> p[i] < |t.rows|
  {
    seq(|p|, i requires 0 <= i < |p| => t.rows[p[i]])
  }

  function SortColumn(t: DemoTable, req: BrowseRequest): nat {
    if req.sort == "" then 0 else Position(t, req.sort)
  }

  function Problem(t: DemoTable, req: BrowseRequest, num: Reading): Option<BrowseError> {
    if req.limit < 1 || req.limit > 1000 || req.offset < 0 then Some(BadLimit)
    else if |req.filters| > 100 then Some(TooManyFilters)
    else if SortColumn(t, req) >= |t.schema.columns| then Some(UnknownSort)
    else FirstProblem(t, req.filters, num)
  }

  function LessOn(t: DemoTable, req: BrowseRequest, num: Reading): (nat, nat) -> bool {
    (i: nat, j: nat) => Less(t, SortColumn(t, req), req.desc, num, i, j)
  }

  /** Positions of the matching rows in display order. */
  function Arranged(t: DemoTable, req: BrowseRequest, num: Reading): (p: seq<nat>)
    requires forall i :: 0 <= i < |t.rows| ==> |t.rows[i]| == |t.schema.columns|
    ensures forall i :: 0 <= i < |p| ==> p[i] < |t.rows|
  {
    StableSortKeeps(LessOn(t, req, num), Kept(t, req.filters, num, |t.rows|));
    var p := StableSort(LessOn(t, req, num), Kept(t, req.filters, num, |t.rows|));
    assert forall i :: 0 <= i < |p| ==> p[i] in p;
    p
  }

  lemma CompareRowsChains(t: DemoTable, column: nat, a: seq<Value>, b: seq<Value>, c: seq<Value>, num: Reading)
    requires |a| == |t.schema.columns| && |b| == |a| && |c| == |a| && column < |a|
    ensures CompareRows(t, column, a, b, num) == -CompareRows(t, column, b, a, num)
    ensures CompareRows(t, column, a, b, num) <= 0 && CompareRows(t, column, b, c, num) <= 0 ==>
              CompareRows(t, column, a, c, num) <= 0
  {
    var number := Numeric(t.schema.columns[column]);
    CompareFlips(CellOf(a[column]), CellOf(b[column]), number, num);
    CompareFlips(CellOf(a[0]), CellOf(b[0]), true, num);
    if CompareRows(t, column, a, b, num) <= 0 && CompareRows(t, column, b, c, num) <= 0 {
      CompareChains(CellOf(a[column]), CellOf(b[column]), CellOf(c[column]), number, num);
      if Compare(CellOf(a[column]), CellOf(c[column]), number, num) == 0 {
        CompareChains(CellOf(a[0]), CellOf(b[0]), CellOf(c[0]), true, num);
      }
    }
  }

  lemma LessIsOrdering(t: DemoTable, req: BrowseRequest, num: Reading)
    requires Shaped(t) && SortColumn(t, req) < |t.schema.columns|
    ensures Ordering(LessOn(t, req, num), |t.rows|)
  {
    var less, column := LessOn(t, req, num), SortColumn(t, req);
    forall x: nat, y: nat, z: nat | x < |t.rows| && y < |t.rows| && z < |t.rows| && !less(y, x) && !less(z, y)
      ensures !less(z, x)
    {
      CompareRowsChains(t, column, t.rows[x], t.rows[y], t.rows[z], num);
      CompareRowsChains(t, column, t.rows[y], t.rows[z], t.rows[x], num);
      CompareRowsChains(t, column, t.rows[z], t.rows[y], t.rows[x], num);
      CompareRowsChains(t, column, t.rows[z], t.rows[x], t.rows[x], num);
    }
    forall x: nat, y: nat | x < |t.rows| && y < |t.rows| && less(x, y)
      ensures !less(y, x)
    {
      CompareRowsChains(t, column, t.rows[x], t.rows[y], t.rows[y], num);
    }
  }

  /** What is displayed: exactly the matching rows, each once, none after a greater one, ties in table order. */
  lemma ArrangedIsSorted(t: DemoTable, req: BrowseRequest, num: Reading)
    requires Shaped(t) && SortColumn(t, req) < |t.schema.columns|
    ensures var p := Arranged(t, req, num);
            && (forall k: nat :: k in p <==> k < |t.rows| && PassesAll(t, req.filters, t.rows[k], num))
            && Distinct(p) && Sorted(LessOn(t, req, num), p) && Stable(LessOn(t, req, num), p)
  {
    KeptAscends(t, req.filters, num, |t.rows|);
    StableSortIsStable(LessOn(t, req, num), Kept(t, req.filters, num, |t.rows|));
    LessIsOrdering(t, req, num);
    StableSortSorts(LessOn(t, req, num), Kept(t, req.filters, num, |t.rows|), |t.rows|);
  }

  function BrowseResult(t: DemoTable, req: BrowseRequest, num: Reading): Result<Page, BrowseError>
    requires forall i :: 0 <= i < |t.rows| ==> |t.rows[i]| == |t.schema.columns|
  {
    if Problem(t, req, num).Some? then Err(Problem(t, req, num).value)
    else
      var p := Arranged(t, req, num);
      Ok(PageOf(Names(t.schema.columns), RowsAt(t, p), req.limit, req.offset, DEMO_NOTICE))
  }

  // ---------------------------------------------------------------- the code

  /** The first filter that the store refuses. */
  method CheckFilters(t: DemoTable, filters: seq<Filter>, num: Reading) returns (err: Option<BrowseError>)
    ensures err == FirstProblem(t, filters, num)
  {
    assert filters[0..] == filters;
    for n := 0 to |filters|
      invariant FirstProblem(t, filters, num) == FirstProblem(t, filters[n..], num)
    {
      var f := filters[n];
      assert filters[n..][1..] == filters[n + 1..];
      var i := Position(t, f.column);
      if i == |t.schema.columns| { return Some(UnknownFilter); }
      if |f.value| > 64 * 1024 { return Some(FilterTooLarge); }
      if f.op == "is-null" || f.op == "not-null" || f.op == "contains" {
      } else if f.op == "eq" || f.op == "ne" || f.op == "gt" || f.op == "gte" || f.op == "lt" || f.op == "lte" {
        if Numeric(t.schema.columns[i]) {
          if num(f.value).None? { return Some(BadNumber); }
        }
      } else {
        return Some(BadOperator);
      }
    }
    return None;
  }

  /** The cells of a row that are compared as numbers are numbers: those of numeric columns and of the first one. */
  ghost predicate ReadableRow(t: DemoTable, row: seq<Value>, num: Reading)
    requires |row| == |t.schema.columns|
  {
    forall i :: 0 <= i < |row| && !row[i].isNull && (i == 0 || Numeric(t.schema.columns[i])) ==> num(row[i].text).Some?
  }

  ghost predicate Readable(t: DemoTable, num: Reading)
    requires Shaped(t)
  {
    forall k :: 0 <= k < |t.rows| ==> ReadableRow(t, t.rows[k], num)
  }

  /** Comparing a text that is not a number as a number would end the program. */
  predicate Comparable(a: Cell, b: Cell, number: bool, num: Reading) {
    number && a.Some? && b.Some? ==> num(a.value).Some? && num(b.value).Some?
  }

  method CompareCells(a: Cell, b: Cell, number: bool, num: Reading) returns (c: int)
    requires Comparable(a, b, number, num)
    ensures c == Compare(a, b, number, num)
  {
    if a.None? && b.None? { return 0; }
    if a.None? { return -1; }
    if b.None? { return 1; }
    if number {
      var x, y := num(a.value).value, num(b.value).value;
      return if x < y then -1 else if x > y then 1 else 0;
    }
    return Lexicographic(a.value, b.value);
  }

  /** No comparison that sorting makes can end the program. */
  lemma SortingIsDefined(t: DemoTable, column: nat, num: Reading)
    requires Shaped(t) && Readable(t, num) && column < |t.schema.columns|
    ensures forall i, j :: 0 <= i < |t.rows| && 0 <= j < |t.rows| ==>
              && Comparable(CellOf(t.rows[i][column]), CellOf(t.rows[j][column]),
                            Numeric(t.schema.columns[column]), num)
              && Comparable(CellOf(t.rows[i][0]), CellOf(t.rows[j][0]), true, num)
  {
    forall i | 0 <= i < |t.rows| ensures ReadableRow(t, t.rows[i], num) {
    }
  }

  method Matches(t: DemoTable, filters: seq<Filter>, row: seq<Value>, num: Reading) returns (matches: bool)
    requires |row| == |t.schema.columns| && ReadableRow(t, row, num)
    requires forall i :: 0 <= i < |filters| ==>
               FilterProblem(t, filters[i], num).None? && Position(t, filters[i].column) < |row|
    ensures matches == PassesAll(t, filters, row, num)
  {
    for n := 0 to |filters|
      invariant forall k :: 0 <= k < n ==> Passes(t, filters[k], row, num)
    {
      var f := filters[n];
      var i := Position(t, f.column);
      var v := row[i];
      var pass := false;
      if f.op == "is-null" {
        pass := v.isNull;
      } else if f.op == "not-null" {
        pass := !v.isNull;
      } else if f.op == "contains" {
        pass := !v.isNull && L.Contains(v.text, f.value);
      } else if !v.isNull {
        var c := CompareCells(Some(v.text), Some(f.value), Numeric(t.schema.columns[i]), num);
        match f.op {
          case "eq" => pass := c == 0;
          case "ne" => pass := c != 0;
          case "gt" => pass := c > 0;
          case "gte" => pass := c >= 0;
          case "lt" => pass := c < 0;
          case "lte" => pass := c <= 0;
          case _ =>
        }
      }
      assert pass == Passes(t, f, row, num);
      if !pass { return false; }
    }
    return true;
  }

  lemma {:induction false} GoodFilters(t: DemoTable, filters: seq<Filter>, num: Reading)
    requires FirstProblem(t, filters, num).None?
    ensures forall i :: 0 <= i < |filters| ==>
              FilterProblem(t, filters[i], num).None? && Position(t, filters[i].column) < |t.schema.columns|
  {
    if filters != [] {
      GoodFilters(t, filters[1..], num);
      assert forall i :: 1 <= i < |filters| ==> filters[i] == filters[1..][i - 1];
    }
  }

  method CopyPage(t: DemoTable, rows: seq<nat>, limit: nat, offset: nat) returns (page: Page)
    requires forall i :: 0 <= i < |rows| ==> rows[i] < |t.rows|
    ensures page == PageOf(Names(t.schema.columns), RowsAt(t, rows), limit, offset, DEMO_NOTICE)
  {
    var start := if offset < |rows| then offset else |rows|;
    var end := start + if limit < |rows| - start then limit else |rows| - start;
    var copied: seq<seq<Value>> := [];
    for n := start to end
      invariant copied == RowsAt(t, rows)[start..n]
    {
      copied := copied + [t.rows[rows[n]]];
    }
    page := Page(Names(t.schema.columns), copied, end < |rows|, DEMO_NOTICE);
  }

  /** The rows that pass every filter, in table order. */
  method KeepRows(t: DemoTable, filters: seq<Filter>, num: Reading) returns (rows: seq<nat>)
    requires Shaped(t) && Readable(t, num)
    requires forall i :: 0 <= i < |filters| ==>
               FilterProblem(t, filters[i], num).None? && Position(t, filters[i].column) < |t.schema.columns|
    ensures rows == Kept(t, filters, num, |t.rows|)
  {
    hide FilterProblem, Passes, PassesAll;
    rows := [];
    for n := 0 to |t.rows|
      invariant rows == Kept(t, filters, num, n)
    {
      var pass := Matches(t, filters, t.rows[n], num);
      if pass {
        rows := rows + [n];
      }
    }
  }

  method Browse(t: DemoTable, req: BrowseRequest, num: Reading) returns (r: Result<Page, BrowseError>)
    requires Shaped(t) && Readable(t, num)
    ensures r == BrowseResult(t, req, num)
  {
    hide FilterProblem, Passes, PassesAll, Kept, StableSort, FirstProblem, LessOn;
    if req.limit < 1 || req.limit > 1000 || req.offset < 0 { return Err(BadLimit); }
    if |req.filters| > 100 { return Err(TooManyFilters); }
    var sortColumn := 0;
    if req.sort != "" {
      sortColumn := Position(t, req.sort);
      if sortColumn == |t.schema.columns| { return Err(UnknownSort); }
    }
    var problem := CheckFilters(t, req.filters, num);
    if problem.Some? { return Err(problem.value); }
    GoodFilters(t, req.filters, num);
    var rows := KeepRows(t, req.filters, num);
    SortingIsDefined(t, sortColumn, num);
    rows := SortStable(LessOn(t, req, num), rows);
    assert rows == Arranged(t, req, num);
    var page := CopyPage(t, rows, req.limit, req.offset);
    return Ok(page);
  }
}
