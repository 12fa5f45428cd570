/** What the database may answer to a browsing query: three-valued conditions, ordering, LIMIT and OFFSET. */
module Relational {
  import opened Wrappers
  import opened Database
  import opened Comparison
  import opened Sql
  import opened BrowseCompiler
  import opened Sorting
  import L = Like

  type Row = seq<Cell>

  datatype Relation = Relation(columns: seq<Column>, rows: seq<Row>)

  ghost predicate WellFormed(rel: Relation) {
    && rel.columns != []
    && (forall i :: 0 <= i < |rel.rows| ==> |rel.rows[i]| == |rel.columns|)
    && (forall i, j :: 0 <= i < j < |rel.columns| ==> rel.columns[i].name != rel.columns[j].name)
    && (forall i :: 0 <= i < |rel.columns| ==> rel.columns[i].name != "")
  }

  datatype Truth = True | False | Unknown

  function And(a: Truth, b: Truth): Truth {
    if a.False? || b.False? then False else if a.True? && b.True? then True else Unknown
  }

  function TruthOf(b: bool): Truth { if b then True else False }

  predicate OpHolds(op: Op, c: int) {
    match op
    case Eq => c == 0
    case Ne => c != 0
    case Gt => c > 0
    case Ge => c >= 0
    case Lt => c < 0
    case Le => c <= 0
  }

  /** Position of the named column; the number of columns if there is none. */
  function ColumnIndex(columns: seq<Column>, name: string): (i: nat)
    ensures i <= |columns|
    ensures i < |columns| ==> columns[i].name == name
    ensures i == |columns| ==> forall k :: 0 <= k < |columns| ==> columns[k].name != name
  {
    if columns == [] || columns[0].name == name then 0 else 1 + ColumnIndex(columns[1..], name)
  }

  /** A condition on one row; a comparison with NULL is unknown. */
  function Holds(rel: Relation, c: Condition, arg: string, row: Row, num: Reading): Truth
    requires |row| == |rel.columns|
  {
    var i := ColumnIndex(rel.columns, c.column);
    if i == |row| then Unknown
    else
      match c
      case Null(_, negated) => TruthOf(row[i].None? != negated)
      case Like(_, escape) => if row[i].None? then Unknown else TruthOf(L.Matches(row[i].value, arg, escape))
      case Compare(_, op) =>
        if row[i].None? then Unknown
        else TruthOf(OpHolds(op, Comparison.Compare(row[i], Some(arg), Numeric(rel.columns[i]), num)))
  }

  function TextOf(a: Arg): string { if a.TextArg? then a.text else "" }

  /** The conjunction of the conditions, each taking its argument from the end of the list. */
  function Where(rel: Relation, where: seq<Condition>, args: seq<Arg>, row: Row, num: Reading): Truth
    requires |row| == |rel.columns|
  {
    if where == [] then True
    else
      var last, before := where[|where| - 1], where[..|where| - 1];
      if last.Null? then And(Where(rel, before, args, row, num), Holds(rel, last, "", row, num))
      else if args == [] then Unknown
      else And(Where(rel, before, args[..|args| - 1], row, num), Holds(rel, last, TextOf(args[|args| - 1]), row, num))
  }

  function CellAt(rel: Relation, row: Row, name: string): Cell
    requires |row| == |rel.columns|
  {
    var i := ColumnIndex(rel.columns, name);
    if i < |row| then row[i] else None
  }

  function IsNumeric(rel: Relation, name: string): bool {
    var i := ColumnIndex(rel.columns, name);
    i < |rel.columns| && Numeric(rel.columns[i])
  }

  /** ORDER BY: the first key that tells the rows apart decides. */
  function RowCompare(rel: Relation, order: seq<SortKey>, a: Row, b: Row, num: Reading): (c: int)
    requires |a| == |rel.columns| && |b| == |rel.columns|
    ensures -1 <= c <= 1
  {
    if order == [] then 0
    else
      var k := order[0];
      var c := Comparison.Compare(CellAt(rel, a, k.column), CellAt(rel, b, k.column), IsNumeric(rel, k.column), num);
      if c != 0 then (if k.desc then -c else c) else RowCompare(rel, order[1..], a, b, num)
  }

  /**
   The positions of the selected rows in an order that ORDER BY allows. The order of rows
   that tie is not determined.
   */
  ghost predicate Selection(rel: Relation, q: Select, args: seq<Arg>, num: Reading, p: seq<nat>)
    requires WellFormed(rel)
  {
    && (forall i :: 0 <= i < |p| ==> p[i] < |rel.rows|)
    && (forall i, j :: 0 <= i < j < |p| ==> p[i] != p[j])
    && (forall k :: 0 <= k < |rel.rows| ==> (k in p <==> Where(rel, q.where, args, rel.rows[k], num) == True))
    && (forall i, j :: 0 <= i < j < |p| ==> RowCompare(rel, q.order, rel.rows[p[i]], rel.rows[p[j]], num) <= 0)
  }

  function Slice(p: seq<nat>, limit: nat, offset: nat): (r: seq<nat>)
    ensures |r| <= limit
    ensures forall i :: 0 <= i < |r| ==> r[i] in p
  {
    var start := if offset < |p| then offset else |p|;
    var size := if limit < |p| - start then limit else |p| - start;
    p[start..start + size]
  }

  function Project(rel: Relation, names: seq<string>, row: Row): Row
    requires |row| == |rel.columns|
  {
    seq(|names|, i requires 0 <= i < |names| => CellAt(rel, row, names[i]))
  }

  function Output(rel: Relation, names: seq<string>, p: seq<nat>): seq<Row>
    requires forall i :: 0 <= i < |rel.rows| ==> |rel.rows[i]| == |rel.columns|
    requires forall i :: 0 <= i < |p| ==> p[i] < |rel.rows|
  {
    seq(|p|, i requires 0 <= i < |p| => Project(rel, names, rel.rows[p[i]]))
  }

  /** The conditions' arguments, then LIMIT, then OFFSET. */
  ghost predicate ArgsFit(q: Select, args: seq<Arg>) {
    && |args| == Slots(q.where) + 2
    && args[|args| - 2].NumberArg? && args[|args| - 2].number >= 0
    && args[|args| - 1].NumberArg? && args[|args| - 1].number >= 0
  }

  /** The output is the LIMIT/OFFSET piece of this arrangement of the selected rows. */
  ghost predicate Arranges(rel: Relation, q: Select, args: seq<Arg>, num: Reading, p: seq<nat>, out: seq<Row>)
    requires WellFormed(rel) && ArgsFit(q, args)
  {
    && Selection(rel, q, args[..|args| - 2], num, p)
    && out == Output(rel, q.columns, Slice(p, args[|args| - 2].number, args[|args| - 1].number))
  }

  /** The database may answer a query text with these rows. */
  ghost predicate Answers(rel: Relation, text: string, args: seq<Arg>, num: Reading, out: seq<Row>)
    requires WellFormed(rel)
  {
    && Parse(text).Some? && ArgsFit(Parse(text).value, args)
    && exists p :: Arranges(rel, Parse(text).value, args, num, p, out)
  }

  // ---------------------------------------------------------------- order

  lemma {:induction false} RowCompareFlips(rel: Relation, order: seq<SortKey>, a: Row, b: Row, num: Reading)
    requires |a| == |rel.columns| && |b| == |rel.columns|
    ensures RowCompare(rel, order, a, b, num) == -RowCompare(rel, order, b, a, num)
  {
    if order != [] {
      var k := order[0];
      CompareFlips(CellAt(rel, a, k.column), CellAt(rel, b, k.column), IsNumeric(rel, k.column), num);
      RowCompareFlips(rel, order[1..], a, b, num);
    }
  }

  lemma {:induction false} RowCompareChains(rel: Relation, order: seq<SortKey>, a: Row, b: Row, c: Row, num: Reading)
    requires |a| == |rel.columns| && |b| == |rel.columns| && |c| == |rel.columns|
    requires RowCompare(rel, order, a, b, num) <= 0 && RowCompare(rel, order, b, c, num) <= 0
    ensures RowCompare(rel, order, a, c, num) <= 0
    ensures RowCompare(rel, order, a, c, num) == 0 ==>
              RowCompare(rel, order, a, b, num) == 0 && RowCompare(rel, order, b, c, num) == 0
  {
    if order != [] {
      var k := order[0];
      var x, y, z := CellAt(rel, a, k.column), CellAt(rel, b, k.column), CellAt(rel, c, k.column);
      var number := IsNumeric(rel, k.column);
      CompareFlips(x, y, number, num);
      CompareFlips(y, z, number, num);
      CompareFlips(x, z, number, num);
      if k.desc {
        CompareChains(z, y, x, number, num);
      } else {
        CompareChains(x, y, z, number, num);
      }
      if Comparison.Compare(x, y, number, num) == 0 && Comparison.Compare(y, z, number, num) == 0 {
        BothTie(x, y, z, number, num);
        RowCompareChains(rel, order[1..], a, b, c, num);
      }
    }
  }

  lemma BothTie(x: Cell, y: Cell, z: Cell, number: bool, num: Reading)
    requires Comparison.Compare(x, y, number, num) == 0 && Comparison.Compare(y, z, number, num) == 0
    ensures Comparison.Compare(x, z, number, num) == 0
  {
    CompareFlips(x, y, number, num);
    CompareFlips(y, z, number, num);
    CompareFlips(x, z, number, num);
    CompareChains(x, y, z, number, num);
    CompareChains(z, y, x, number, num);
  }

  /** Rows that tie in the whole order tie in each of its columns. */
  lemma {:induction false} TieMeansEqualKeys(rel: Relation, order: seq<SortKey>, a: Row, b: Row, num: Reading, i: nat)
    requires |a| == |rel.columns| && |b| == |rel.columns| && i < |order|
    requires RowCompare(rel, order, a, b, num) == 0
    ensures Comparison.Compare(CellAt(rel, a, order[i].column), CellAt(rel, b, order[i].column),
                               IsNumeric(rel, order[i].column), num) == 0
  {
    if i > 0 {
      TieMeansEqualKeys(rel, order[1..], a, b, num, i - 1);
    }
  }

  /** The order tells all rows apart. */
  ghost predicate Strict(rel: Relation, order: seq<SortKey>, num: Reading)
    requires WellFormed(rel)
  {
    forall i, j :: 0 <= i < |rel.rows| && 0 <= j < |rel.rows| && i != j ==>
      RowCompare(rel, order, rel.rows[i], rel.rows[j], num) != 0
  }

  lemma HasElement(q: seq<nat>)
    requires q != []
    ensures exists k :: k in q
  {
    assert q[0] in q;
  }

  /** Two lists of the same distinct elements, both sorted by an antisymmetric relation, are the same. */
  lemma {:induction false} SortedListsAgree(le: (nat, nat) -> bool, p: seq<nat>, q: seq<nat>)
    requires forall k :: k in p <==> k in q
    requires forall i, j :: 0 <= i < j < |p| ==> p[i] != p[j] && le(p[i], p[j])
    requires forall i, j :: 0 <= i < j < |q| ==> q[i] != q[j] && le(q[i], q[j])
    requires forall x, y :: x in p && y in p && le(x, y) && le(y, x) ==> x == y
    ensures p == q
  {
    if p == [] {
      if q != [] {
        HasElement(q);
      }
    } else {
      assert p[0] in p;
      assert q != [] && q[0] in q;
      assert p[0] == q[0];
      assert forall k :: k in p[1..] <==> k in p && k != p[0];
      assert forall k :: k in q[1..] <==> k in q && k != q[0];
      SortedListsAgree(le, p[1..], q[1..]);
      assert p == [p[0]] + p[1..] && q == [q[0]] + q[1..];
    }
  }

  /** Under a strict order the database has exactly one way to arrange the selected rows. */
  lemma SelectionsAgree(rel: Relation, q: Select, args: seq<Arg>, num: Reading, p1: seq<nat>, p2: seq<nat>)
    requires WellFormed(rel) && Strict(rel, q.order, num)
    requires Selection(rel, q, args, num, p1) && Selection(rel, q, args, num, p2)
    ensures p1 == p2
  {
    forall k | k in p1 ensures k in p2 {
      assert 0 <= k < |rel.rows|;
    }
    forall k | k in p2 ensures k in p1 {
      assert 0 <= k < |rel.rows|;
    }
    var le := (i: nat, j: nat) =>
      i < |rel.rows| && j < |rel.rows| && |rel.rows[i]| == |rel.columns| && |rel.rows[j]| == |rel.columns|
      && RowCompare(rel, q.order, rel.rows[i], rel.rows[j], num) <= 0;
    forall x, y | x in p1 && y in p1 && le(x, y) && le(y, x) ensures x == y {
      RowCompareFlips(rel, q.order, rel.rows[x], rel.rows[y], num);
    }
    SortedListsAgree(le, p1, p2);
  }

  // ---------------------------------------------------------------- there is an answer

  /** Positions, in table order, of the rows among the first n that meet the conditions. */
  function Selected(rel: Relation, q: Select, args: seq<Arg>, num: Reading, n: nat): (p: seq<nat>)
    requires WellFormed(rel) && n <= |rel.rows|
    ensures forall k: nat :: k in p <==> k < n && Where(rel, q.where, args, rel.rows[k], num) == True
    ensures Distinct(p)
  {
    if n == 0 then []
    else
      var before := Selected(rel, q, args, num, n - 1);
      if Where(rel, q.where, args, rel.rows[n - 1], num) == True then before + [n - 1] else before
  }

  function Earlier(rel: Relation, order: seq<SortKey>, num: Reading): (nat, nat) -> bool {
    (i: nat, j: nat) =>
      i < |rel.rows| && j < |rel.rows| && |rel.rows[i]| == |rel.columns| && |rel.rows[j]| == |rel.columns|
      && RowCompare(rel, order, rel.rows[i], rel.rows[j], num) < 0
  }

  lemma EarlierIsOrdering(rel: Relation, order: seq<SortKey>, num: Reading)
    requires WellFormed(rel)
    ensures Ordering(Earlier(rel, order, num), |rel.rows|)
  {
    hide RowCompare;
    var less, rows := Earlier(rel, order, num), rel.rows;
    forall x: nat, y: nat, z: nat | x < |rows| && y < |rows| && z < |rows| && !less(y, x) && !less(z, y)
      ensures !less(z, x)
    {
      RowCompareFlips(rel, order, rows[x], rows[y], num);
      RowCompareFlips(rel, order, rows[y], rows[z], num);
      RowCompareFlips(rel, order, rows[x], rows[z], num);
      RowCompareChains(rel, order, rows[x], rows[y], rows[z], num);
    }
    forall x: nat, y: nat | x < |rows| && y < |rows| && less(x, y) ensures !less(y, x) {
      RowCompareFlips(rel, order, rows[x], rows[y], num);
    }
  }

  /** Every query can be answered: the selected rows can always be put in the requested order. */
  lemma SelectionExists(rel: Relation, q: Select, args: seq<Arg>, num: Reading) returns (p: seq<nat>)
    requires WellFormed(rel)
    ensures Selection(rel, q, args, num, p)
  {
    hide RowCompare, Where;
    var less, chosen := Earlier(rel, q.order, num), Selected(rel, q, args, num, |rel.rows|);
    EarlierIsOrdering(rel, q.order, num);
    StableSortSorts(less, chosen, |rel.rows|);
    p := StableSort(less, chosen);
    forall i | 0 <= i < |p| ensures p[i] < |rel.rows| {
      assert p[i] in p;
    }
    forall i, j | 0 <= i < j < |p|
      ensures RowCompare(rel, q.order, rel.rows[p[i]], rel.rows[p[j]], num) <= 0
    {
      assert !less(p[j], p[i]);
      RowCompareFlips(rel, q.order, rel.rows[p[i]], rel.rows[p[j]], num);
    }
  }

  lemma CompiledParts(schema: string, req: BrowseRequest, meta: Schema, c: Compiled)
    requires Compile(schema, req, meta) == Ok(c)
    ensures FirstFilterError(req.filters, ColumnMap(meta.columns)).None?
    ensures c.select.columns == Names(meta.columns) && c.select.where == Conditions(req.filters)
    ensures 1 <= req.limit <= MAX_ROWS && req.offset >= 0
    ensures |c.args| >= 2 && c.args[..|c.args| - 2] == FilterArgs(req.filters)
    ensures c.args[|c.args| - 2] == NumberArg(req.limit + 1) && c.args[|c.args| - 1] == NumberArg(req.offset)
  {
  }

  /** The compiled text and its arguments are a query that a database can run. */
  lemma CompiledFits(schema: string, req: BrowseRequest, meta: Schema, c: Compiled)
    requires NamesPresent(meta) && Compile(schema, req, meta) == Ok(c)
    ensures Parse(Print(c.select)) == Some(c.select) && ArgsFit(c.select, c.args)
    ensures c.select.columns == Names(meta.columns) && req.limit >= 1 && req.offset >= 0
    ensures |c.args| >= 2 && c.args[..|c.args| - 2] == FilterArgs(req.filters)
    ensures c.args[|c.args| - 2] == NumberArg(req.limit + 1) && c.args[|c.args| - 1] == NumberArg(req.offset)
  {
    hide Parse, Print, Names, OrderOf, Conditions, FilterArgs;
    TextMeansRequest(schema, req, meta);
    CompiledParts(schema, req, meta, c);
    ArgsFillSlots(req.filters, ColumnMap(meta.columns));
  }

  /** Whatever the request and the indexes, the database has an answer to the generated text. */
  lemma AnswerExists(rel: Relation, schema: string, req: BrowseRequest, indexes: seq<Index>, num: Reading, c: Compiled)
    returns (out: seq<Row>)
    requires WellFormed(rel) && Compile(schema, req, Schema(rel.columns, indexes)) == Ok(c)
    ensures Answers(rel, Print(c.select), c.args, num, out)
  {
    hide Parse, Print, Selection, Compile, Slice, Output, ArgsFit, FilterArgs;
    CompiledFits(schema, req, Schema(rel.columns, indexes), c);
    var p := SelectionExists(rel, c.select, c.args[..|c.args| - 2], num);
    PositionsInRange(rel, c.select, c.args[..|c.args| - 2], num, p, req.limit + 1, req.offset);
    out := Output(rel, c.select.columns, Slice(p, req.limit + 1, req.offset));
    assert Arranges(rel, c.select, c.args, num, p, out);
  }

  lemma PositionsInRange(rel: Relation, q: Select, args: seq<Arg>, num: Reading, p: seq<nat>, limit: nat, offset: nat)
    requires WellFormed(rel) && Selection(rel, q, args, num, p)
    ensures forall i :: 0 <= i < |p| ==> p[i] < |rel.rows|
    ensures forall i :: 0 <= i < |Slice(p, limit, offset)| ==> Slice(p, limit, offset)[i] < |rel.rows|
  {
  }

  // ---------------------------------------------------------------- generated queries

  predicate Differ(rel: Relation, a: Row, b: Row, name: string, num: Reading)
    requires |a| == |rel.columns| && |b| == |rel.columns|
  {
    Comparison.Compare(CellAt(rel, a, name), CellAt(rel, b, name), IsNumeric(rel, name), num) != 0
  }

  /** No two rows agree in all columns of this key. */
  ghost predicate UniqueOn(rel: Relation, key: seq<string>, num: Reading)
    requires WellFormed(rel)
  {
    forall i, j :: 0 <= i < |rel.rows| && 0 <= j < |rel.rows| && i != j ==>
      SetApart(rel, rel.rows[i], rel.rows[j], key, num)
  }

  ghost predicate SetApart(rel: Relation, a: Row, b: Row, key: seq<string>, num: Reading)
    requires |a| == |rel.columns| && |b| == |rel.columns|
  {
    exists k :: 0 <= k < |key| && Differ(rel, a, b, key[k], num)
  }

  /** The row has a value in every column of this key. */
  ghost predicate Complete(rel: Relation, row: Row, key: seq<string>)
    requires |row| == |rel.columns|
  {
    forall k :: 0 <= k < |key| ==> CellAt(rel, row, key[k]).Some?
  }

  /**
   What the database enforces: no NULL in a column declared without, and for each unique index
   no two rows with the same values in all its columns, unless one of the values is NULL.
   */
  ghost predicate Enforced(rel: Relation, indexes: seq<Index>, num: Reading)
    requires WellFormed(rel)
  {
    && (forall r, c :: 0 <= r < |rel.rows| && 0 <= c < |rel.columns| && !rel.columns[c].nullable ==>
          rel.rows[r][c].Some?)
    && (forall x, i, j :: 0 <= x < |indexes| && 0 <= i < |rel.rows| && 0 <= j < |rel.rows| && i != j ==>
          (&& indexes[x].unique
           && Complete(rel, rel.rows[i], indexes[x].columns) && Complete(rel, rel.rows[j], indexes[x].columns)
           ==> SetApart(rel, rel.rows[i], rel.rows[j], indexes[x].columns, num)))
  }

  /** The rows are as the database keeps them, and some unique index is over columns that are never NULL. */
  ghost predicate Keyed(rel: Relation, indexes: seq<Index>, num: Reading)
    requires WellFormed(rel)
  {
    Enforced(rel, indexes, num) && exists i :: 0 <= i < |indexes| && Usable(indexes[i], rel.columns)
  }

  lemma NeverNullIsComplete(rel: Relation, indexes: seq<Index>, num: Reading, x: nat, r: nat)
    requires WellFormed(rel) && Enforced(rel, indexes, num) && x < |indexes| && Usable(indexes[x], rel.columns)
    requires r < |rel.rows|
    ensures Complete(rel, rel.rows[r], indexes[x].columns)
  {
    var key := indexes[x].columns;
    forall k | 0 <= k < |key| ensures CellAt(rel, rel.rows[r], key[k]).Some? {
      assert NeverNull(rel.columns, key[k]);
      var c :| 0 <= c < |rel.columns| && rel.columns[c].name == key[k] && !rel.columns[c].nullable;
      assert ColumnIndex(rel.columns, key[k]) == c;
    }
  }

  lemma ChosenKeyIsUnique(rel: Relation, indexes: seq<Index>, num: Reading)
    requires WellFormed(rel) && Keyed(rel, indexes, num)
    ensures var key := ChooseKey(indexes, ColumnMap(rel.columns));
            && key != [] && UniqueOn(rel, key, num)
            && forall k :: 0 <= k < |key| ==> key[k] != ""
  {
    hide ChooseKey, Complete, ColumnMap, ValidKey, SetApart;
    var meta := Schema(rel.columns, indexes);
    KeyIsValid(meta);
    var usable :| 0 <= usable < |indexes| && Usable(indexes[usable], rel.columns);
    UsableMeansValid(indexes[usable], rel.columns);
    var key := ChooseKey(indexes, ColumnMap(rel.columns));
    var x := TieBreakerIsPreferred(meta);
    forall i, j | 0 <= i < |rel.rows| && 0 <= j < |rel.rows| && i != j
      ensures SetApart(rel, rel.rows[i], rel.rows[j], key, num)
    {
      NeverNullIsComplete(rel, indexes, num, x, i);
      NeverNullIsComplete(rel, indexes, num, x, j);
    }
    forall k | 0 <= k < |key| ensures key[k] != "" {
      assert NeverNull(rel.columns, key[k]);
    }
  }

  lemma CompiledOrder(schema: string, req: BrowseRequest, meta: Schema)
    requires Compile(schema, req, meta).Ok? && ChooseKey(meta.indexes, ColumnMap(meta.columns)) != []
    ensures Compile(schema, req, meta).value.select.order ==
            SortKeys(Dedup([req.sort] + ChooseKey(meta.indexes, ColumnMap(meta.columns))), req.desc)
  {
  }

  /** The generated ORDER BY covers the whole chosen key, so that rows never tie. */
  lemma OrderCoversKey(rel: Relation, schema: string, req: BrowseRequest, indexes: seq<Index>, num: Reading)
    requires WellFormed(rel) && Compile(schema, req, Schema(rel.columns, indexes)).Ok? && Keyed(rel, indexes, num)
    ensures Strict(rel, Compile(schema, req, Schema(rel.columns, indexes)).value.select.order, num)
  {
    hide Compile, ChooseKey, Dedup, RowCompare, Differ, SortKeys;
    var key := ChooseKey(indexes, ColumnMap(rel.columns));
    ChosenKeyIsUnique(rel, indexes, num);
    CompiledOrder(schema, req, Schema(rel.columns, indexes));
    var all := [req.sort] + key;
    DedupKeeps(all);
    forall i, j | 0 <= i < |rel.rows| && 0 <= j < |rel.rows| && i != j
      ensures RowCompare(rel, SortKeys(Dedup(all), req.desc), rel.rows[i], rel.rows[j], num) != 0
    {
      assert SetApart(rel, rel.rows[i], rel.rows[j], key, num);
      var k :| 0 <= k < |key| && Differ(rel, rel.rows[i], rel.rows[j], key[k], num);
      assert all[k + 1] == key[k];
      KeyTellsApart(rel, Dedup(all), req.desc, rel.rows[i], rel.rows[j], num, key[k]);
    }
  }

  lemma KeyTellsApart(rel: Relation, names: seq<string>, desc: bool, a: Row, b: Row, num: Reading, name: string)
    requires |a| == |rel.columns| && |b| == |rel.columns|
    requires name in names && Differ(rel, a, b, name, num)
    ensures RowCompare(rel, SortKeys(names, desc), a, b, num) != 0
  {
    var m :| 0 <= m < |names| && names[m] == name;
    if RowCompare(rel, SortKeys(names, desc), a, b, num) == 0 {
      TieMeansEqualKeys(rel, SortKeys(names, desc), a, b, num, m);
    }
  }

  function Reversed(p: seq<nat>): seq<nat> {
    seq(|p|, i requires 0 <= i < |p| => p[|p| - 1 - i])
  }

  lemma {:induction false} FlippedKeys(rel: Relation, names: seq<string>, desc: bool, a: Row, b: Row, num: Reading)
    requires |a| == |rel.columns| && |b| == |rel.columns|
    ensures RowCompare(rel, SortKeys(names, !desc), a, b, num) == -RowCompare(rel, SortKeys(names, desc), a, b, num)
  {
    if names != [] {
      FlippedKeys(rel, names[1..], desc, a, b, num);
      assert SortKeys(names, desc)[1..] == SortKeys(names[1..], desc);
      assert SortKeys(names, !desc)[1..] == SortKeys(names[1..], !desc);
    }
  }

  lemma SameElements(p: seq<nat>)
    ensures forall k: nat :: k in Reversed(p) <==> k in p
  {
    forall k: nat | k in p ensures k in Reversed(p) {
      var i :| 0 <= i < |p| && p[i] == k;
      assert Reversed(p)[|p| - 1 - i] == k;
    }
  }

  lemma SelectionReverses(rel: Relation, there: Select, back: Select, args: seq<Arg>, num: Reading, p: seq<nat>)
    requires WellFormed(rel) && Selection(rel, there, args, num, p) && back.where == there.where
    requires forall i, j :: 0 <= i < |rel.rows| && 0 <= j < |rel.rows| ==>
               RowCompare(rel, back.order, rel.rows[i], rel.rows[j], num)
                   == -RowCompare(rel, there.order, rel.rows[i], rel.rows[j], num)
    ensures Selection(rel, back, args, num, Reversed(p))
  {
    hide RowCompare, Where;
    var r := Reversed(p);
    SameElements(p);
    forall i, j | 0 <= i < j < |r|
      ensures RowCompare(rel, back.order, rel.rows[r[i]], rel.rows[r[j]], num) <= 0
    {
      RowCompareFlips(rel, there.order, rel.rows[r[i]], rel.rows[r[j]], num);
      assert RowCompare(rel, there.order, rel.rows[p[|p| - 1 - j]], rel.rows[p[|p| - 1 - i]], num) <= 0;
    }
  }

  /** Reversing the sort direction reverses the whole arrangement. */
  lemma DescendingReverses(rel: Relation, schema: string, req: BrowseRequest, indexes: seq<Index>, num: Reading,
                           args: seq<Arg>, p: seq<nat>)
    requires WellFormed(rel) && Compile(schema, req, Schema(rel.columns, indexes)).Ok?
    requires Selection(rel, Compile(schema, req, Schema(rel.columns, indexes)).value.select, args, num, p)
    ensures Compile(schema, req.(desc := !req.desc), Schema(rel.columns, indexes)).Ok?
    ensures Selection(rel, Compile(schema, req.(desc := !req.desc), Schema(rel.columns, indexes)).value.select,
                      args, num, Reversed(p))
  {
    hide Selection, Dedup, SortKeys, RowCompare, Where, Conditions, FilterArgs, FirstFilterError, ColumnMap;
    var key := ChooseKey(indexes, ColumnMap(rel.columns));
    var names := Dedup([req.sort] + (if key == [] then [rel.columns[0].name] else key));
    var there := Compile(schema, req, Schema(rel.columns, indexes)).value.select;
    var back := Compile(schema, req.(desc := !req.desc), Schema(rel.columns, indexes)).value.select;
    forall i, j | 0 <= i < |rel.rows| && 0 <= j < |rel.rows|
      ensures RowCompare(rel, back.order, rel.rows[i], rel.rows[j], num)
              == -RowCompare(rel, there.order, rel.rows[i], rel.rows[j], num)
    {
      FlippedKeys(rel, names, req.desc, rel.rows[i], rel.rows[j], num);
    }
    SelectionReverses(rel, there, back, args, num, p);
  }

  /** Under a strict order the database has one answer: a piece of the only arrangement. */
  lemma AnswerIsPiece(rel: Relation, text: string, args: seq<Arg>, num: Reading, p: seq<nat>, out: seq<Row>)
    requires WellFormed(rel) && Answers(rel, text, args, num, out)
    requires Strict(rel, Parse(text).value.order, num)
    requires Selection(rel, Parse(text).value, args[..|args| - 2], num, p)
    ensures out == Output(rel, Parse(text).value.columns, Slice(p, args[|args| - 2].number, args[|args| - 1].number))
  {
    hide Parse, Strict, Selection, Output;
    var q := Parse(text).value;
    var p2 :| Arranges(rel, q, args, num, p2, out);
    SelectionsAgree(rel, q, args[..|args| - 2], num, p, p2);
  }

  lemma SameQueryForEveryPage(schema: string, req: BrowseRequest, meta: Schema, limit: nat, offset: nat)
    requires Compile(schema, req, meta).Ok? && 1 <= limit <= MAX_ROWS
    ensures Compile(schema, req.(limit := limit, offset := offset), meta).Ok?
    ensures var c := Compile(schema, req.(limit := limit, offset := offset), meta).value;
            && c.select == Compile(schema, req, meta).value.select && c.select.columns == Names(meta.columns)
            && |c.args| >= 2 && c.args[..|c.args| - 2] == FilterArgs(req.filters)
            && c.args[|c.args| - 2] == NumberArg(limit + 1) && c.args[|c.args| - 1] == NumberArg(offset)
  {
  }

  /**
   With a usable unique index, all pages of a request are consecutive pieces of one list:
   whatever the database answers for a page is the piece at its limit and offset.
   */
  lemma PageIsPiece(rel: Relation, schema: string, req: BrowseRequest, indexes: seq<Index>, num: Reading,
                       p: seq<nat>, limit: nat, offset: nat, out: seq<Row>, c: Compiled, page: Compiled)
    requires WellFormed(rel) && Keyed(rel, indexes, num) && 1 <= limit <= MAX_ROWS
    requires Compile(schema, req, Schema(rel.columns, indexes)) == Ok(c)
    requires Compile(schema, req.(limit := limit, offset := offset), Schema(rel.columns, indexes)) == Ok(page)
    requires Selection(rel, c.select, FilterArgs(req.filters), num, p)
    requires Answers(rel, Print(page.select), page.args, num, out)
    ensures out == Output(rel, Names(rel.columns), Slice(p, limit + 1, offset))
  {
    hide Compile, Parse, Print, Selection, Strict, Keyed, FilterArgs, Answers, Output;
    TextMeansRequest(schema, req.(limit := limit, offset := offset), Schema(rel.columns, indexes));
    OrderCoversKey(rel, schema, req, indexes, num);
    SameQueryForEveryPage(schema, req, Schema(rel.columns, indexes), limit, offset);
    AnswerIsPiece(rel, Print(page.select), page.args, num, p, out);
  }

  /** The rows that a page keeps of what was fetched for it. */
  function First(out: seq<Row>, limit: nat): seq<Row> { if |out| <= limit then out else out[..limit] }

  function Joined(outs: seq<seq<Row>>, limit: nat): seq<Row> {
    if outs == [] then [] else Joined(outs[..|outs| - 1], limit) + First(outs[|outs| - 1], limit)
  }

  /** The database may answer with these rows when it is asked for page k. */
  ghost predicate AnswersPage(rel: Relation, schema: string, req: BrowseRequest, indexes: seq<Index>, num: Reading,
                              k: nat, out: seq<Row>)
    requires WellFormed(rel)
  {
    var c := Compile(schema, req.(offset := k * req.limit), Schema(rel.columns, indexes));
    c.Ok? && Answers(rel, Print(c.value.select), c.value.args, num, out)
  }

  ghost predicate InTable(rel: Relation, p: seq<nat>) { forall i :: 0 <= i < |p| ==> p[i] < |rel.rows| }

  /** The rows kept for page k are the piece of this arrangement that starts at k times the page size. */
  ghost predicate PieceOf(rel: Relation, names: seq<string>, p: seq<nat>, limit: nat, k: nat, out: seq<Row>)
    requires WellFormed(rel)
  {
    InTable(rel, Slice(p, limit, k * limit)) && First(out, limit) == Output(rel, names, Slice(p, limit, k * limit))
  }

  /** The positions on the first n pages. */
  function PagesOf(p: seq<nat>, limit: nat, n: nat): seq<nat> {
    if n == 0 then [] else PagesOf(p, limit, n - 1) + Slice(p, limit, (n - 1) * limit)
  }

  lemma SliceExtends(p: seq<nat>, limit: nat, offset: nat)
    ensures offset + limit < |p| ==> p[..offset] + Slice(p, limit, offset) == p[..offset + limit]
    ensures offset <= |p| <= offset + limit ==> p[..offset] + Slice(p, limit, offset) == p
    ensures offset > |p| ==> Slice(p, limit, offset) == []
    ensures |Slice(p, limit + 1, offset)| <= limit ==> |p| <= offset + limit
  {
  }

  /** Page after page covers the whole list, each element once, in order. */
  lemma {:induction false} PagesCover(p: seq<nat>, limit: nat, n: nat)
    ensures n * limit < |p| ==> PagesOf(p, limit, n) == p[..n * limit]
    ensures n * limit >= |p| ==> PagesOf(p, limit, n) == p
  {
    hide Slice;
    if n > 0 {
      PagesCover(p, limit, n - 1);
      SliceExtends(p, limit, (n - 1) * limit);
      assert (n - 1) * limit + limit == n * limit;
    }
  }

  lemma OutputOfFirst(rel: Relation, names: seq<string>, p: seq<nat>, limit: nat, offset: nat, wide: seq<nat>,
                      kept: seq<nat>)
    requires WellFormed(rel) && forall i :: 0 <= i < |wide| ==> wide[i] < |rel.rows|
    requires wide == Slice(p, limit + 1, offset) && kept == Slice(p, limit, offset)
    ensures forall i :: 0 <= i < |kept| ==> kept[i] < |rel.rows|
    ensures First(Output(rel, names, wide), limit) == Output(rel, names, kept)
    ensures |Output(rel, names, wide)| == |wide|
  {
    hide Project;
    assert forall i :: 0 <= i < |kept| ==> kept[i] == wide[i];
  }

  lemma OutputAppends(rel: Relation, names: seq<string>, a: seq<nat>, b: seq<nat>)
    requires WellFormed(rel)
    requires (forall i :: 0 <= i < |a| ==> a[i] < |rel.rows|) && forall i :: 0 <= i < |b| ==> b[i] < |rel.rows|
    ensures forall i :: 0 <= i < |a + b| ==> (a + b)[i] < |rel.rows|
    ensures Output(rel, names, a + b) == Output(rel, names, a) + Output(rel, names, b)
  {
    hide Project;
  }

  /** One page: what it keeps is its piece of the arrangement, and a page without a next one is the last. */
  lemma KeptPage(rel: Relation, schema: string, req: BrowseRequest, indexes: seq<Index>, num: Reading,
                 p: seq<nat>, k: nat, out: seq<Row>, c: Compiled)
    requires WellFormed(rel) && Keyed(rel, indexes, num) && Compile(schema, req, Schema(rel.columns, indexes)) == Ok(c)
    requires Selection(rel, c.select, FilterArgs(req.filters), num, p)
    requires AnswersPage(rel, schema, req, indexes, num, k, out)
    ensures req.limit >= 1
    ensures PieceOf(rel, Names(rel.columns), p, req.limit, k, out)
    ensures |out| <= req.limit ==> |p| <= (k + 1) * req.limit
  {
    hide Compile, Parse, Print, Selection, Keyed, FilterArgs, Answers, Output, Slice, First, Names;
    CompiledParts(schema, req, Schema(rel.columns, indexes), c);
    var limit, names := req.limit, Names(rel.columns);
    var offset: nat := k * limit;
    var page := Compile(schema, req.(offset := offset), Schema(rel.columns, indexes)).value;
    PageIsPiece(rel, schema, req, indexes, num, p, limit, offset, out, c, page);
    var wide, kept := Slice(p, limit + 1, offset), Slice(p, limit, offset);
    PositionsInRange(rel, c.select, FilterArgs(req.filters), num, p, limit + 1, offset);
    OutputOfFirst(rel, names, p, limit, offset, wide, kept);
    SliceExtends(p, limit, offset);
    assert offset + limit == (k + 1) * limit;
  }

  lemma {:induction false} JoinedPages(rel: Relation, names: seq<string>, p: seq<nat>, limit: nat, outs: seq<seq<Row>>)
    requires WellFormed(rel) && InTable(rel, p)
    requires forall k :: 0 <= k < |outs| ==> PieceOf(rel, names, p, limit, k, outs[k])
    ensures InTable(rel, PagesOf(p, limit, |outs|))
    ensures Joined(outs, limit) == Output(rel, names, PagesOf(p, limit, |outs|))
  {
    hide Output, Slice, First;
    if outs == [] {
      NothingOutput(rel, names);
    } else {
      var n := |outs| - 1;
      JoinedPages(rel, names, p, limit, outs[..n]);
      assert PieceOf(rel, names, p, limit, n, outs[n]);
      OutputAppends(rel, names, PagesOf(p, limit, n), Slice(p, limit, n * limit));
    }
  }

  lemma NothingOutput(rel: Relation, names: seq<string>)
    requires WellFormed(rel)
    ensures Output(rel, names, []) == []
  {
  }

  /**
   With a usable unique index, pages partition the result: whatever the database answers page
   by page, up to a page that reports nothing more, the kept rows joined in order are the one
   arrangement of the rows that meet the conditions.
   */
  lemma PagesPartition(rel: Relation, schema: string, req: BrowseRequest, indexes: seq<Index>, num: Reading,
                       outs: seq<seq<Row>>, c: Compiled) returns (p: seq<nat>)
    requires WellFormed(rel) && Keyed(rel, indexes, num) && Compile(schema, req, Schema(rel.columns, indexes)) == Ok(c)
    requires forall k :: 0 <= k < |outs| ==> AnswersPage(rel, schema, req, indexes, num, k, outs[k])
    requires outs != [] && |outs[|outs| - 1]| <= req.limit
    ensures Selection(rel, c.select, FilterArgs(req.filters), num, p)
    ensures forall i :: 0 <= i < |p| ==> p[i] < |rel.rows|
    ensures req.limit >= 0 && Joined(outs, req.limit) == Output(rel, Names(rel.columns), p)
  {
    hide Compile, Selection, Keyed, FilterArgs, Joined, Output, AnswersPage, PieceOf;
    var limit, n := req.limit, |outs|;
    p := SelectionExists(rel, c.select, FilterArgs(req.filters), num);
    PositionsInRange(rel, c.select, FilterArgs(req.filters), num, p, 0, 0);
    forall k | 0 <= k < n ensures limit >= 1 && PieceOf(rel, Names(rel.columns), p, limit, k, outs[k]) {
      KeptPage(rel, schema, req, indexes, num, p, k, outs[k], c);
    }
    KeptPage(rel, schema, req, indexes, num, p, n - 1, outs[n - 1], c);
    JoinedPages(rel, Names(rel.columns), p, limit, outs);
    PagesCover(p, limit, n);
  }
}
