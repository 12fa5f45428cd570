/**
 The two stores give the same page: the direct answer of the in-memory store, and whatever
 rows a database may return for the generated SQL text, collected into a page.
 */
module Agreement {
  import opened Wrappers
  import opened Database
  import opened Comparison
  import opened BrowseCompiler
  import opened Relational
  import opened Sql
  import opened Demo
  import opened Collect
  import L = Like

  /** A cell that the wire does not change: valid text within the size limit, or NULL. */
  ghost predicate Plain(v: Value, kind: string) {
    && v == Value(v.text, v.isNull, false, false)
    && (v.isNull ==> v.text == "")
    && Utf8.Valid(v.text) && |v.text| <= MAX_VALUE_BYTES && !BinaryType(kind)
  }

  /** The first column is a number, never NULL and different in every row, and it is the primary key. */
  ghost predicate KeyedTable(t: DemoTable, num: Reading) {
    && Shaped(t) && |t.schema.columns| <= MAX_COLUMNS
    && Numeric(t.schema.columns[0]) && !t.schema.columns[0].nullable
    && (exists i :: 0 <= i < |t.schema.indexes| && t.schema.indexes[i].name == "PRIMARY")
    && (forall i :: 0 <= i < |t.schema.indexes| && t.schema.indexes[i].name == "PRIMARY" ==>
          t.schema.indexes[i].unique && t.schema.indexes[i].columns == [t.schema.columns[0].name])
    && (forall i, j :: 0 <= i < |t.rows| && 0 <= j < |t.rows| && i != j ==>
          Comparison.Compare(CellOf(t.rows[i][0]), CellOf(t.rows[j][0]), true, num) != 0)
  }

  /** The driver's type names for the columns; no text column is announced as binary. */
  ghost predicate PlainTable(t: DemoTable, types: seq<string>) {
    && Shaped(t) && |types| == |t.schema.columns|
    && forall i, j :: 0 <= i < |t.rows| && 0 <= j < |types| ==> Plain(t.rows[i][j], types[j])
  }

  function CellRow(row: seq<Value>): (r: Row)
    ensures |r| == |row|
  {
    seq(|row|, i requires 0 <= i < |row| => CellOf(row[i]))
  }

  function RelationOf(t: DemoTable): (rel: Relation)
    ensures |rel.rows| == |t.rows|
    ensures Shaped(t) ==> Relational.WellFormed(rel)
  {
    Relation(t.schema.columns, seq(|t.rows|, i requires 0 <= i < |t.rows| => CellRow(t.rows[i])))
  }

  // ---------------------------------------------------------------- filters

  lemma {:induction false} IndexOfColumn(columns: seq<Column>, i: nat)
    requires i < |columns| && forall a, b :: 0 <= a < b < |columns| ==> columns[a].name != columns[b].name
    ensures ColumnIndex(columns, columns[i].name) == i
  {
    if i > 0 {
      assert columns[0].name != columns[i].name;
      IndexOfColumn(columns[1..], i - 1);
    }
  }

  /** One filter: the SQL condition is true of a row exactly when the direct test passes. */
  lemma FilterAgrees(t: DemoTable, f: Filter, k: nat, num: Reading)
    requires Shaped(t) && k < |t.rows|
    requires FilterError(f, ColumnMap(t.schema.columns)).None?
    ensures var c := ConditionOf(f).value;
            var arg := if c.Null? then "" else ArgsOf(f)[0].text;
            Holds(RelationOf(t), c, arg, RelationOf(t).rows[k], num) == True <==> Passes(t, f, t.rows[k], num)
  {
    var i := Position(t, f.column);
    assert i < |t.schema.columns|;
    var v := t.rows[k][i];
    assert RelationOf(t).rows[k][i] == CellOf(v);
    if f.op == "contains" && !v.isNull {
      L.LiteralContains(v.text, f.value);
    }
  }

  lemma NothingFiltered(t: DemoTable, k: nat, num: Reading)
    requires Shaped(t) && k < |t.rows|
    ensures Where(RelationOf(t), Conditions([]), FilterArgs([]), RelationOf(t).rows[k], num) == True
    ensures PassesAll(t, [], t.rows[k], num)
  {
  }

  lemma {:induction false} FiltersAgree(t: DemoTable, filters: seq<Filter>, k: nat, num: Reading)
    requires Shaped(t) && k < |t.rows|
    requires FirstFilterError(filters, ColumnMap(t.schema.columns)).None?
    ensures Where(RelationOf(t), Conditions(filters), FilterArgs(filters), RelationOf(t).rows[k], num) == True
            <==> PassesAll(t, filters, t.rows[k], num)
  {
    hide Passes, PassesAll, CellRow, Holds, FilterError, ConditionOf, ArgsOf, RelationOf, Where, Conditions, FilterArgs;
    if filters == [] {
      NothingFiltered(t, k, num);
    } else {
      var last, before := filters[|filters| - 1], filters[..|filters| - 1];
      FiltersAgree(t, before, k, num);
      assert filters == before + [last];
      OneMoreFilter(t, before, last, k, num);
    }
  }

  lemma OneMoreFilter(t: DemoTable, before: seq<Filter>, last: Filter, k: nat, num: Reading)
    requires Shaped(t) && k < |t.rows|
    requires FilterError(last, ColumnMap(t.schema.columns)).None?
    requires Where(RelationOf(t), Conditions(before), FilterArgs(before), RelationOf(t).rows[k], num) == True
             <==> PassesAll(t, before, t.rows[k], num)
    ensures Where(RelationOf(t), Conditions(before + [last]), FilterArgs(before + [last]), RelationOf(t).rows[k], num)
            == True
            <==> PassesAll(t, before + [last], t.rows[k], num)
  {
    hide Holds, Passes, ArgsOf, CellRow, Where, Conditions, FilterArgs;
    FilterAgrees(t, last, k, num);
    WhereStep(RelationOf(t), before, last, RelationOf(t).rows[k], num);
    var all := before + [last];
    assert all[|before|] == last && forall i :: 0 <= i < |before| ==> all[i] == before[i];
  }

  lemma ArgsOfCondition(f: Filter)
    requires ConditionOf(f).Some?
    ensures if ConditionOf(f).value.Null? then ArgsOf(f) == [] else |ArgsOf(f)| == 1 && ArgsOf(f)[0].TextArg?
  {
  }

  lemma WhereStep(rel: Relation, before: seq<Filter>, last: Filter, row: Row, num: Reading)
    requires |row| == |rel.columns| && ConditionOf(last).Some?
    ensures var c := ConditionOf(last).value;
            var arg := if c.Null? then "" else ArgsOf(last)[0].text;
            Where(rel, Conditions(before + [last]), FilterArgs(before + [last]), row, num)
            == And(Where(rel, Conditions(before), FilterArgs(before), row, num), Holds(rel, c, arg, row, num))
  {
    hide Holds, ArgsOf, ConditionOf;
    ArgsOfCondition(last);
    var c := ConditionOf(last).value;
    assert (before + [last])[..|before|] == before;
    assert Conditions(before + [last]) == Conditions(before) + [c];
    assert (Conditions(before) + [c])[..|Conditions(before)|] == Conditions(before);
    assert FilterArgs(before + [last]) == FilterArgs(before) + ArgsOf(last);
    if c.Null? {
      assert FilterArgs(before) + [] == FilterArgs(before);
    } else {
      assert (FilterArgs(before) + ArgsOf(last))[..|FilterArgs(before)|] == FilterArgs(before);
    }
  }

  // ---------------------------------------------------------------- order

  lemma {:induction false} PrimaryIsFirst(t: DemoTable, indexes: seq<Index>, columns: Columns, key: seq<string>)
    requires key != []
    requires exists i :: 0 <= i < |indexes| && indexes[i].name == "PRIMARY"
    requires forall i :: 0 <= i < |indexes| && indexes[i].name == "PRIMARY" ==>
               indexes[i].columns == key && ValidKey(indexes[i], columns)
    ensures FirstKey(indexes, columns, true) == key
  {
    if indexes[0].name != "PRIMARY" {
      assert forall i :: 1 <= i < |indexes| ==> indexes[i] == indexes[1..][i - 1];
      PrimaryIsFirst(t, indexes[1..], columns, key);
    }
  }

  /** The names in the generated ORDER BY. */
  function OrderNames(t: DemoTable, req: BrowseRequest): seq<string>
    requires t.schema.columns != []
  {
    var first := t.schema.columns[0].name;
    if req.sort == "" || req.sort == first then [first] else [req.sort, first]
  }

  lemma GeneratedOrder(t: DemoTable, req: BrowseRequest, num: Reading)
    requires KeyedTable(t, num)
    ensures OrderOf(req, t.schema) == SortKeys(OrderNames(t, req), req.desc)
  {
    hide Dedup, SortKeys, ColumnMap;
    var first := t.schema.columns[0].name;
    ColumnIsMapped(t.schema.columns, 0);
    PrimaryIsFirst(t, t.schema.indexes, ColumnMap(t.schema.columns), [first]);
    assert ChooseKey(t.schema.indexes, ColumnMap(t.schema.columns)) == [first];
    DedupOfTwo(req.sort, first);
  }

  lemma DedupOfTwo(a: string, b: string)
    requires b != ""
    ensures Dedup([a] + [b]) == if a == "" || a == b then [b] else [a, b]
  {
    var names := [a] + [b];
    assert names[..1] == [a] && [a][..0] == [];
    assert Dedup([]) == [];
    assert Dedup([a]) == if a == "" then [] else [a];
  }

  lemma CellsAt(t: DemoTable, k: nat, i: nat)
    requires Shaped(t) && k < |t.rows| && i < |t.schema.columns|
    ensures CellAt(RelationOf(t), RelationOf(t).rows[k], t.schema.columns[i].name) == CellOf(t.rows[k][i])
    ensures IsNumeric(RelationOf(t), t.schema.columns[i].name) == Numeric(t.schema.columns[i])
  {
    IndexOfColumn(t.schema.columns, i);
  }

  /** ORDER BY compares two rows as the direct sort does, up to the direction. */
  lemma OrderAgrees(t: DemoTable, req: BrowseRequest, num: Reading, i: nat, j: nat)
    requires KeyedTable(t, num) && i < |t.rows| && j < |t.rows| && SortColumn(t, req) < |t.schema.columns|
    ensures var c := CompareRows(t, SortColumn(t, req), t.rows[i], t.rows[j], num);
            RowCompare(RelationOf(t), SortKeys(OrderNames(t, req), req.desc),
                       RelationOf(t).rows[i], RelationOf(t).rows[j], num)
            == if req.desc then -c else c
  {
    var rel, a, b := RelationOf(t), RelationOf(t).rows[i], RelationOf(t).rows[j];
    var names, column := OrderNames(t, req), SortColumn(t, req);
    CellsAt(t, i, 0);
    CellsAt(t, j, 0);
    CellsAt(t, i, column);
    CellsAt(t, j, column);
    IndexOfColumn(t.schema.columns, 0);
    var last := SortKeys([t.schema.columns[0].name], req.desc);
    assert RowCompare(rel, last[1..], a, b, num) == 0;
    if |names| == 1 {
      assert SortKeys(names, req.desc) == last;
    } else {
      assert SortKeys(names, req.desc)[1..] == last;
    }
  }

  /** The direct arrangement is one that the database may choose, and there is no other. */
  lemma ArrangedIsSelection(t: DemoTable, schema: string, req: BrowseRequest, num: Reading, c: Compiled)
    requires KeyedTable(t, num) && Problem(t, req, num).None?
    requires Compile(schema, req, t.schema) == Ok(c)
    ensures Selection(RelationOf(t), c.select, FilterArgs(req.filters), num, Arranged(t, req, num))
    ensures Strict(RelationOf(t), c.select.order, num)
  {
    hide RowCompare, Where, PassesAll, Arranged, OrderNames, SortKeys, CellRow, Less, Conditions, FilterArgs;
    var rel, p := RelationOf(t), Arranged(t, req, num);
    GeneratedOrder(t, req, num);
    ArrangedIsSorted(t, req, num);
    forall k | 0 <= k < |rel.rows|
      ensures k in p <==> Where(rel, c.select.where, FilterArgs(req.filters), rel.rows[k], num) == True
    {
      FiltersAgree(t, req.filters, k, num);
    }
    forall i, j | 0 <= i < j < |p|
      ensures RowCompare(rel, c.select.order, rel.rows[p[i]], rel.rows[p[j]], num) <= 0
    {
      assert !LessOn(t, req, num)(p[j], p[i]);
      OrderedPair(t, req, num, p[i], p[j]);
    }
    OrderIsStrict(t, req, num);
  }

  lemma OrderedPair(t: DemoTable, req: BrowseRequest, num: Reading, i: nat, j: nat)
    requires KeyedTable(t, num) && i < |t.rows| && j < |t.rows| && SortColumn(t, req) < |t.schema.columns|
    requires !LessOn(t, req, num)(j, i)
    ensures RowCompare(RelationOf(t), SortKeys(OrderNames(t, req), req.desc),
                       RelationOf(t).rows[i], RelationOf(t).rows[j], num) <= 0
  {
    hide RowCompare, SortKeys, OrderNames, CompareRows, CellRow;
    OrderAgrees(t, req, num, i, j);
    Directions(t, req, num, i, j);
  }

  lemma OrderIsStrict(t: DemoTable, req: BrowseRequest, num: Reading)
    requires KeyedTable(t, num) && SortColumn(t, req) < |t.schema.columns|
    ensures Strict(RelationOf(t), SortKeys(OrderNames(t, req), req.desc), num)
  {
    hide RowCompare, SortKeys, OrderNames, CompareRows, CellRow;
    var rel := RelationOf(t);
    forall i, j | 0 <= i < |rel.rows| && 0 <= j < |rel.rows| && i != j
      ensures RowCompare(rel, SortKeys(OrderNames(t, req), req.desc), rel.rows[i], rel.rows[j], num) != 0
    {
      OrderAgrees(t, req, num, i, j);
      KeysDiffer(t, req, num, i, j);
    }
  }

  lemma Directions(t: DemoTable, req: BrowseRequest, num: Reading, i: nat, j: nat)
    requires Shaped(t) && i < |t.rows| && j < |t.rows| && SortColumn(t, req) < |t.schema.columns|
    requires !LessOn(t, req, num)(j, i)
    ensures var c := CompareRows(t, SortColumn(t, req), t.rows[i], t.rows[j], num); if req.desc then c >= 0 else c <= 0
  {
    CompareRowsChains(t, SortColumn(t, req), t.rows[i], t.rows[j], t.rows[j], num);
  }

  lemma KeysDiffer(t: DemoTable, req: BrowseRequest, num: Reading, i: nat, j: nat)
    requires KeyedTable(t, num) && i < |t.rows| && j < |t.rows| && i != j && SortColumn(t, req) < |t.schema.columns|
    ensures CompareRows(t, SortColumn(t, req), t.rows[i], t.rows[j], num) != 0
  {
  }

  // ---------------------------------------------------------------- pages

  lemma PlainValueSurvives(v: Value, kind: string)
    requires Plain(v, kind)
    ensures ValueOf(CellOf(v), kind) == v
  {
  }

  /** A row read back from the database is the row of the table. */
  lemma RowSurvives(t: DemoTable, types: seq<string>, k: nat)
    requires PlainTable(t, types) && k < |t.rows|
    ensures RowValues(Project(RelationOf(t), Names(t.schema.columns), RelationOf(t).rows[k]), types) == t.rows[k]
  {
    var row := Project(RelationOf(t), Names(t.schema.columns), RelationOf(t).rows[k]);
    forall i | 0 <= i < |row| ensures RowValues(row, types)[i] == t.rows[k][i] {
      CellsAt(t, k, i);
      PlainValueSurvives(t.rows[k][i], types[i]);
    }
  }

  /** One row more than the page holds: enough to tell whether there is a next page. */
  lemma ExtraRowTellsMore(p: seq<nat>, limit: nat, offset: nat)
    ensures |Slice(p, limit + 1, offset)| > limit <==> |Slice(p, limit, offset)| == limit && offset + limit < |p|
    ensures |Slice(p, limit + 1, offset)| <= limit ==> Slice(p, limit + 1, offset) == Slice(p, limit, offset)
    ensures |Slice(p, limit + 1, offset)| > limit ==> Slice(p, limit + 1, offset)[..limit] == Slice(p, limit, offset)
  {
  }

  function Delivered(t: DemoTable, types: seq<string>, out: seq<Row>): Source {
    Source(Names(t.schema.columns), types, out, false, false)
  }

  lemma PageAgrees(t: DemoTable, types: seq<string>, p: seq<nat>, limit: nat, offset: nat)
    requires PlainTable(t, types) && |t.schema.columns| <= MAX_COLUMNS
    requires forall i :: 0 <= i < |p| ==> p[i] < |t.rows|
    ensures var out := Output(RelationOf(t), Names(t.schema.columns), Slice(p, limit + 1, offset));
            var page := PageOf(Names(t.schema.columns), RowsAt(t, p), limit, offset, "");
            && (forall i :: 0 <= i < |out| ==> |out[i]| == |types|)
            && Collected(Delivered(t, types, out), limit)
               == if PageBytes(page.rows) > MAX_RESULT_BYTES then Err(TooLarge) else Ok(page)
  {
    hide Slice, PageBytes, RowValues, Project, CellRow, AnyTruncated, PageOf, Names, RowsAt, Output, Rows;
    var names := Names(t.schema.columns);
    var wide, kept := Slice(p, limit + 1, offset), Slice(p, limit, offset);
    ExtraRowTellsMore(p, limit, offset);
    PageIsSlice(t, p, limit, offset);
    forall i | 0 <= i < |wide| ensures wide[i] < |t.rows| {
      assert wide[i] in p;
    }
    RowsSurvive(t, types, wide);
    RowsSurvive(t, types, kept);
    NothingTruncated(t, types, kept);
    OutputPrefix(RelationOf(t), names, wide, kept);
    assert Collect.Kept(Delivered(t, types, Output(RelationOf(t), names, wide)), limit)
           == Output(RelationOf(t), names, kept);
  }

  lemma OutputPrefix(rel: Relation, names: seq<string>, wide: seq<nat>, kept: seq<nat>)
    requires Relational.WellFormed(rel) && kept <= wide && forall i :: 0 <= i < |wide| ==> wide[i] < |rel.rows|
    ensures |Output(rel, names, wide)| == |wide| && Output(rel, names, wide)[..|kept|] == Output(rel, names, kept)
  {
  }

  lemma PageIsSlice(t: DemoTable, p: seq<nat>, limit: nat, offset: nat)
    requires forall i :: 0 <= i < |p| ==> p[i] < |t.rows|
    ensures forall i :: 0 <= i < |Slice(p, limit, offset)| ==> Slice(p, limit, offset)[i] < |t.rows|
    ensures var page := PageOf(Names(t.schema.columns), RowsAt(t, p), limit, offset, "");
            page == Page(Names(t.schema.columns), RowsAt(t, Slice(p, limit, offset)),
                         |Slice(p, limit + 1, offset)| > limit, "")
    ensures |Names(t.schema.columns)| == |t.schema.columns|
  {
  }

  lemma RowsSurvive(t: DemoTable, types: seq<string>, kept: seq<nat>)
    requires PlainTable(t, types) && forall i :: 0 <= i < |kept| ==> kept[i] < |t.rows|
    ensures var out := Output(RelationOf(t), Names(t.schema.columns), kept);
            && (forall i :: 0 <= i < |out| ==> |out[i]| == |types|)
            && Rows(out, types) == RowsAt(t, kept)
  {
    hide RowValues;
    var out := Output(RelationOf(t), Names(t.schema.columns), kept);
    forall i | 0 <= i < |kept| ensures Rows(out, types)[i] == t.rows[kept[i]] {
      RowSurvives(t, types, kept[i]);
    }
  }

  lemma NothingTruncated(t: DemoTable, types: seq<string>, kept: seq<nat>)
    requires PlainTable(t, types) && forall i :: 0 <= i < |kept| ==> kept[i] < |t.rows|
    ensures !AnyTruncated(RowsAt(t, kept))
  {
    forall i, j | 0 <= i < |kept| && 0 <= j < |t.rows[kept[i]]| ensures !t.rows[kept[i]][j].truncated {
      assert Plain(t.rows[kept[i]][j], types[j]);
    }
  }

  /** Whatever the database returns is the piece of the direct arrangement with one extra row. */
  lemma AnswerIsDirect(t: DemoTable, schema: string, req: BrowseRequest, num: Reading, c: Compiled, out: seq<Row>)
    requires KeyedTable(t, num) && Problem(t, req, num).None?
    requires Compile(schema, req, t.schema) == Ok(c)
    requires Answers(RelationOf(t), Print(c.select), c.args, num, out)
    ensures req.limit >= 0 && req.offset >= 0
    ensures out == Output(RelationOf(t), Names(t.schema.columns),
                          Slice(Arranged(t, req, num), req.limit + 1, req.offset))
  {
    hide Parse, Print, Selection, Strict, Output, Arranged, Names, Slice, Compile, Answers, RelationOf,
         Relational.WellFormed, ArgsFit, FilterArgs;
    ArrangedIsSelection(t, schema, req, num, c);
    CompiledFits(schema, req, t.schema, c);
    AnswerIsPiece(RelationOf(t), Print(c.select), c.args, num, Arranged(t, req, num), out);
  }

  /**
   For every request that both stores accept, and for every list of rows that the database
   may return for the generated text and arguments, the collected page has the columns, rows
   and "more" mark of the direct answer; the only other outcome is the 8 MiB refusal.
   */
  lemma StoresAgree(t: DemoTable, schema: string, req: BrowseRequest, num: Reading, types: seq<string>,
                    c: Compiled, page: Page, out: seq<Row>)
    requires KeyedTable(t, num) && PlainTable(t, types)
    requires Compile(schema, req, t.schema) == Ok(c)
    requires BrowseResult(t, req, num) == Ok(page)
    requires Answers(RelationOf(t), Print(c.select), c.args, num, out)
    ensures forall i :: 0 <= i < |out| ==> |out[i]| == |types|
    ensures Collected(Delivered(t, types, out), req.limit)
            == if PageBytes(page.rows) > MAX_RESULT_BYTES then Err(TooLarge) else Ok(page.(notice := ""))
  {
    hide Output, Collected, PageOf, Arranged, Names, RowsAt, Answers, PageBytes, Slice, Compile, PlainTable, RelationOf;
    AnswerIsDirect(t, schema, req, num, c, out);
    PageAgrees(t, types, Arranged(t, req, num), req.limit, req.offset);
    OnlyNoticeDiffers(t, Arranged(t, req, num), req.limit, req.offset);
  }

  lemma OnlyNoticeDiffers(t: DemoTable, p: seq<nat>, limit: nat, offset: nat)
    requires forall i :: 0 <= i < |p| ==> p[i] < |t.rows|
    ensures PageOf(Names(t.schema.columns), RowsAt(t, p), limit, offset, DEMO_NOTICE).(notice := "")
            == PageOf(Names(t.schema.columns), RowsAt(t, p), limit, offset, "")
  {
  }

  /** The database can answer: the agreement is never about nothing. */
  lemma AnAnswerExists(t: DemoTable, schema: string, req: BrowseRequest, num: Reading, c: Compiled)
    requires Shaped(t) && Compile(schema, req, t.schema) == Ok(c)
    ensures exists out :: Answers(RelationOf(t), Print(c.select), c.args, num, out)
  {
    hide Parse, Print, Compile, Answers;
    var out := AnswerExists(RelationOf(t), schema, req, t.schema.indexes, num, c);
  }

  /** Requests that both accept: they differ only on comparisons of a number with a text that is not one. */
  lemma AcceptanceDiffersOnlyOnNumbers(t: DemoTable, schema: string, req: BrowseRequest, num: Reading)
    requires Shaped(t)
    ensures Problem(t, req, num).None? <==>
            && Compile(schema, req, t.schema).Ok?
            && forall i :: 0 <= i < |req.filters| ==> FilterProblem(t, req.filters[i], num) != Some(BadNumber)
  {
    hide FirstFilterError, FilterError, FilterProblem, Conditions, FilterArgs, OrderOf, ChooseKey;
    FirstErrors(t, req.filters, num);
    if req.sort != "" && req.sort in ColumnMap(t.schema.columns) {
      var i :| 0 <= i < |t.schema.columns| && t.schema.columns[i].name == req.sort;
      IndexOfColumn(t.schema.columns, i);
    }
  }

  /** What the direct store refuses is refused by the other with the same error, unless it is about a number. */
  lemma RefusalsAgree(t: DemoTable, schema: string, req: BrowseRequest, num: Reading, e: BrowseError)
    requires Shaped(t) && Problem(t, req, num) == Some(e) && e != BadNumber
    ensures Compile(schema, req, t.schema) == Err(e)
  {
    hide FirstFilterError, FilterError, FilterProblem, Conditions, FilterArgs, OrderOf, ChooseKey, FirstProblem;
    if req.sort != "" && req.sort in ColumnMap(t.schema.columns) {
      var i :| 0 <= i < |t.schema.columns| && t.schema.columns[i].name == req.sort;
      IndexOfColumn(t.schema.columns, i);
    }
    if SortColumn(t, req) < |t.schema.columns| && FirstProblem(t, req.filters, num) == Some(e) {
      FirstRefusalsAgree(t, req.filters, num, e);
    }
  }

  lemma {:induction false} FirstRefusalsAgree(t: DemoTable, filters: seq<Filter>, num: Reading, e: BrowseError)
    requires Shaped(t) && FirstProblem(t, filters, num) == Some(e) && e != BadNumber
    ensures FirstFilterError(filters, ColumnMap(t.schema.columns)) == Some(e)
  {
    hide FilterError, FilterProblem, ColumnMap;
    var columns := ColumnMap(t.schema.columns);
    SameRefusal(t, filters[0], num);
    assert filters[..1] == [filters[0]] && [filters[0]][..0] == [];
    assert FirstFilterError([], columns) == None;
    assert FirstFilterError([filters[0]], columns) == FilterError(filters[0], columns);
    if FilterProblem(t, filters[0], num).Some? {
      ErrorsPersist(filters, 1, columns);
    } else {
      FirstRefusalsAgree(t, filters[1..], num, e);
      SkipGoodFilter(filters, columns);
    }
  }

  lemma {:induction false} SkipGoodFilter(filters: seq<Filter>, columns: Columns)
    requires filters != [] && FilterError(filters[0], columns).None?
    ensures FirstFilterError(filters, columns) == FirstFilterError(filters[1..], columns)
  {
    var n := |filters| - 1;
    if n == 0 {
      assert filters[..0] == [];
    } else {
      SkipGoodFilter(filters[..n], columns);
      assert filters[..n][1..] == filters[1..][..n - 1];
    }
  }

  lemma SameRefusal(t: DemoTable, f: Filter, num: Reading)
    requires Shaped(t)
    ensures FilterProblem(t, f, num).Some? && FilterProblem(t, f, num) != Some(BadNumber) ==>
              FilterError(f, ColumnMap(t.schema.columns)) == FilterProblem(t, f, num)
    ensures FilterProblem(t, f, num).None? ==> FilterError(f, ColumnMap(t.schema.columns)).None?
  {
    SameFilter(t, f, num);
  }

  lemma {:induction false} FirstErrors(t: DemoTable, filters: seq<Filter>, num: Reading)
    requires Shaped(t)
    ensures FirstProblem(t, filters, num).None? <==>
              forall i :: 0 <= i < |filters| ==> FilterProblem(t, filters[i], num).None?
    ensures FirstFilterError(filters, ColumnMap(t.schema.columns)).None? <==>
              forall i :: 0 <= i < |filters| ==> FilterError(filters[i], ColumnMap(t.schema.columns)).None?
    ensures forall i :: 0 <= i < |filters| ==>
              (FilterProblem(t, filters[i], num).None? <==>
               FilterError(filters[i], ColumnMap(t.schema.columns)).None?
               && FilterProblem(t, filters[i], num) != Some(BadNumber))
  {
    FirstProblemIsAny(t, filters, num);
    FirstErrorIsAny(filters, ColumnMap(t.schema.columns));
    forall i | 0 <= i < |filters|
      ensures FilterProblem(t, filters[i], num).None? <==>
              FilterError(filters[i], ColumnMap(t.schema.columns)).None?
              && FilterProblem(t, filters[i], num) != Some(BadNumber)
    {
      SameFilter(t, filters[i], num);
    }
  }

  lemma SameFilter(t: DemoTable, f: Filter, num: Reading)
    requires Shaped(t)
    ensures FilterProblem(t, f, num).None? <==>
            FilterError(f, ColumnMap(t.schema.columns)).None? && FilterProblem(t, f, num) != Some(BadNumber)
  {
    var i := Position(t, f.column);
    if i < |t.schema.columns| {
      assert f.column in ColumnMap(t.schema.columns);
    }
  }

  lemma {:induction false} FirstProblemIsAny(t: DemoTable, filters: seq<Filter>, num: Reading)
    ensures FirstProblem(t, filters, num).None? <==>
              forall i :: 0 <= i < |filters| ==> FilterProblem(t, filters[i], num).None?
  {
    hide FilterProblem;
    if filters != [] {
      FirstProblemIsAny(t, filters[1..], num);
      assert forall i :: 1 <= i < |filters| ==> filters[i] == filters[1..][i - 1];
    }
  }

  lemma {:induction false} FirstErrorIsAny(filters: seq<Filter>, columns: Columns)
    ensures FirstFilterError(filters, columns).None? <==>
              forall i :: 0 <= i < |filters| ==> FilterError(filters[i], columns).None?
  {
    hide FilterError;
    if filters != [] {
      FirstErrorIsAny(filters[..|filters| - 1], columns);
    }
  }
}
