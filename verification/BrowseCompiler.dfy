/** Compiling a browse request to SQL text and arguments. */
module BrowseCompiler {
  import opened Wrappers
  import opened Database
  import opened Sql
  import L = Like

  const MAX_ROWS := 1000
  const MAX_FILTERS := 100
  const MAX_FILTER_BYTES := 0x1_0000
  const NOTICE := "Offset pagination may shift when data changes."
  const UNORDERED := " No non-null unique key; fallback ordering is not deterministic for ties."

  datatype BrowseError =
    | BadLimit | TooManyFilters | NoColumns | UnknownSort | UnknownFilter | FilterTooLarge | BadOperator | BadNumber

  datatype Arg = TextArg(text: string) | NumberArg(number: int)

  /** A compiled request: the query, its arguments in placeholder order and the notice for its results. */
  datatype Compiled = Compiled(select: Select, args: seq<Arg>, notice: string)

  type Columns = map<string, Column>

  function ColumnMap(columns: seq<Column>): (m: Columns)
    ensures forall name :: name in m <==> exists i :: 0 <= i < |columns| && columns[i].name == name
  {
    if columns == [] then map[]
    else
      var last := columns[|columns| - 1];
      ColumnMap(columns[..|columns| - 1])[last.name := last]
  }

  /** A unique index whose columns are all known and not nullable. */
  predicate ValidKey(index: Index, columns: Columns) {
    && index.unique && |index.columns| > 0
    && forall i :: 0 <= i < |index.columns| ==> index.columns[i] in columns && !columns[index.columns[i]].nullable
  }

  function FirstKey(indexes: seq<Index>, columns: Columns, primaryOnly: bool): seq<string> {
    if indexes == [] then []
    else if ValidKey(indexes[0], columns) && (primaryOnly ==> indexes[0].name == "PRIMARY") then indexes[0].columns
    else FirstKey(indexes[1..], columns, primaryOnly)
  }

  /** The tie-breaking key: a usable primary key, else the first usable unique index, else none. */
  function ChooseKey(indexes: seq<Index>, columns: Columns): seq<string> {
    var primary := FirstKey(indexes, columns, true);
    if primary != [] then primary else FirstKey(indexes, columns, false)
  }

  /** Drops empty names and repetitions, keeping first occurrences in order. */
  function Dedup(names: seq<string>): seq<string> {
    if names == [] then []
    else
      var last, before := names[|names| - 1], Dedup(names[..|names| - 1]);
      if last == "" || last in before then before else before + [last]
  }

  function SortKeys(names: seq<string>, desc: bool): seq<SortKey> {
    seq(|names|, i requires 0 <= i < |names| => SortKey(names[i], desc))
  }

  function OpOf(op: string): Option<Op> {
    if op == "eq" then Some(Eq) else if op == "ne" then Some(Ne)
    else if op == "gt" then Some(Gt) else if op == "gte" then Some(Ge)
    else if op == "lt" then Some(Lt) else if op == "lte" then Some(Le)
    else None
  }

  function ConditionOf(f: Filter): Option<Condition> {
    if f.op == "is-null" then Some(Null(f.column, false))
    else if f.op == "not-null" then Some(Null(f.column, true))
    else if f.op == "contains" then Some(Condition.Like(f.column, '!'))
    else if OpOf(f.op).Some? then Some(Compare(f.column, OpOf(f.op).value))
    else None
  }

  /** The arguments that a filter's condition takes. */
  function ArgsOf(f: Filter): seq<Arg> {
    if f.op == "is-null" || f.op == "not-null" then []
    else if f.op == "contains" then [TextArg("%" + L.Escape(f.value) + "%")]
    else [TextArg(f.value)]
  }

  function FilterError(f: Filter, columns: Columns): Option<BrowseError> {
    if f.column !in columns then Some(UnknownFilter)
    else if |f.value| > MAX_FILTER_BYTES then Some(FilterTooLarge)
    else if ConditionOf(f).None? then Some(BadOperator)
    else None
  }

  function FirstFilterError(filters: seq<Filter>, columns: Columns): Option<BrowseError> {
    if filters == [] then None
    else
      var earlier := FirstFilterError(filters[..|filters| - 1], columns);
      if earlier.Some? then earlier else FilterError(filters[|filters| - 1], columns)
  }

  function Conditions(filters: seq<Filter>): seq<Condition> {
    if filters == [] then []
    else
      var c, before := ConditionOf(filters[|filters| - 1]), Conditions(filters[..|filters| - 1]);
      if c.None? then before else before + [c.value]
  }

  function FilterArgs(filters: seq<Filter>): seq<Arg> {
    if filters == [] then [] else FilterArgs(filters[..|filters| - 1]) + ArgsOf(filters[|filters| - 1])
  }

  function Names(columns: seq<Column>): seq<string> {
    seq(|columns|, i requires 0 <= i < |columns| => columns[i].name)
  }

  function OrderOf(req: BrowseRequest, meta: Schema): seq<SortKey>
    requires meta.columns != []
  {
    var key := ChooseKey(meta.indexes, ColumnMap(meta.columns));
    SortKeys(Dedup([req.sort] + (if key == [] then [meta.columns[0].name] else key)), req.desc)
  }

  function RequestError(req: BrowseRequest, meta: Schema): Option<BrowseError> {
    if req.limit < 1 || req.limit > MAX_ROWS || req.offset < 0 then Some(BadLimit)
    else if |req.filters| > MAX_FILTERS then Some(TooManyFilters)
    else if meta.columns == [] then Some(NoColumns)
    else if req.sort != "" && req.sort !in ColumnMap(meta.columns) then Some(UnknownSort)
    else FirstFilterError(req.filters, ColumnMap(meta.columns))
  }

  function Compile(schema: string, req: BrowseRequest, meta: Schema): Result<Compiled, BrowseError> {
    if RequestError(req, meta).Some? then Err(RequestError(req, meta).value)
    else
      Ok(Compiled(
           Select(Names(meta.columns), schema, req.table, Conditions(req.filters), OrderOf(req, meta)),
           FilterArgs(req.filters) + [NumberArg(req.limit + 1), NumberArg(req.offset)],
           NOTICE + (if ChooseKey(meta.indexes, ColumnMap(meta.columns)) == [] then UNORDERED else "")))
  }

  // ---------------------------------------------------------------- the code

  lemma {:induction false} FirstKeyIsValid(indexes: seq<Index>, columns: Columns, primaryOnly: bool)
    ensures FirstKey(indexes, columns, primaryOnly) != [] <==>
            exists i :: 0 <= i < |indexes| && ValidKey(indexes[i], columns)
                        && (primaryOnly ==> indexes[i].name == "PRIMARY")
    ensures FirstKey(indexes, columns, primaryOnly) != [] ==>
            exists i :: 0 <= i < |indexes| && ValidKey(indexes[i], columns)
                        && indexes[i].columns == FirstKey(indexes, columns, primaryOnly)
  {
    if indexes != [] {
      if ValidKey(indexes[0], columns) && (primaryOnly ==> indexes[0].name == "PRIMARY") {
      } else {
        FirstKeyIsValid(indexes[1..], columns, primaryOnly);
        assert forall i :: 0 < i < |indexes| ==> indexes[i] == indexes[1..][i - 1];
      }
    }
  }

  method FindKey(indexes: seq<Index>, columns: Columns) returns (key: seq<string>)
    ensures key == ChooseKey(indexes, columns)
  {
    key := [];
    var i := 0;
    assert indexes[i..] == indexes;
    while i < |indexes|
      invariant 0 <= i <= |indexes|
      invariant FirstKey(indexes, columns, true) == FirstKey(indexes[i..], columns, true)
      invariant FirstKey(indexes, columns, false) == if key != [] then key else FirstKey(indexes[i..], columns, false)
    {
      var index := indexes[i];
      var valid := index.unique && |index.columns| > 0;
      for j := 0 to |index.columns|
        invariant valid <==> index.unique && |index.columns| > 0 && forall k :: 0 <= k < j ==>
                    index.columns[k] in columns && !columns[index.columns[k]].nullable
      {
        valid := valid && index.columns[j] in columns && !columns[index.columns[j]].nullable;
      }
      assert indexes[i..][1..] == indexes[i + 1..];
      if valid && (key == [] || index.name == "PRIMARY") {
        key := index.columns;
      }
      if valid && index.name == "PRIMARY" {
        return;
      }
      i := i + 1;
    }
  }

  method OrderTexts(sort: string, key: seq<string>, desc: bool) returns (order: seq<string>)
    ensures order == KeyTexts(SortKeys(Dedup([sort] + key), desc))
  {
    order := [];
    var names := [sort] + key;
    var seen: set<string> := {};
    for i := 0 to |names|
      invariant order == KeyTexts(SortKeys(Dedup(names[..i]), desc))
      invariant forall name :: name in seen <==> name in Dedup(names[..i])
    {
      assert names[..i + 1][..i] == names[..i];
      if names[i] == "" || names[i] in seen {
      } else {
        seen := seen + {names[i]};
        order := order + [Quote(names[i]) + (if desc then " DESC" else " ASC")];
        assert order == KeyTexts(SortKeys(Dedup(names[..i]) + [names[i]], desc));
      }
    }
    assert names[..|names|] == names;
  }

  method FilterTexts(filters: seq<Filter>, columns: Columns)
    returns (where: seq<string>, args: seq<Arg>, err: Option<BrowseError>)
    ensures err == FirstFilterError(filters, columns)
    ensures err.None? ==> where == ConditionTexts(Conditions(filters)) && args == FilterArgs(filters)
  {
    hide FirstFilterError, Conditions, ConditionTexts, FilterArgs, Quote, L.Escape, OpText;
    NoFilters(columns);
    where, args, err := [], [], None;
    for i := 0 to |filters|
      invariant FirstFilterError(filters[..i], columns).None?
      invariant where == ConditionTexts(Conditions(filters[..i])) && args == FilterArgs(filters[..i])
    {
      var f := filters[i];
      ErrorsPersist(filters, i + 1, columns);
      OneMoreFilter(filters, i, columns);
      if f.column !in columns { return where, args, Some(UnknownFilter); }
      if |f.value| > MAX_FILTER_BYTES { return where, args, Some(FilterTooLarge); }
      var column := Quote(f.column);
      if f.op == "is-null" {
        where := where + [column + " IS NULL"];
      } else if f.op == "not-null" {
        where := where + [column + " IS NOT NULL"];
      } else if f.op == "contains" {
        where := where + [column + " LIKE ? ESCAPE '!'"];
        args := args + [TextArg("%" + L.Escape(f.value) + "%")];
        assert ConditionText(Condition.Like(f.column, '!')) == column + " LIKE ? ESCAPE '!'";
      } else {
        var op := OpOf(f.op);
        if op.None? { return where, args, Some(BadOperator); }
        where := where + [column + " " + OpText(op.value) + " ?"];
        args := args + [TextArg(f.value)];
      }
      assert where == ConditionTexts(Conditions(filters[..i])) + [ConditionText(ConditionOf(f).value)];
    }
    assert filters[..|filters|] == filters;
  }

  lemma NoFilters(columns: Columns)
    ensures FirstFilterError([], columns) == None && ConditionTexts(Conditions([])) == [] && FilterArgs([]) == []
  {
  }

  lemma OneMoreFilter(filters: seq<Filter>, i: nat, columns: Columns)
    requires i < |filters|
    ensures FirstFilterError(filters[..i], columns).None? ==>
              FirstFilterError(filters[..i + 1], columns) == FilterError(filters[i], columns)
    ensures ConditionOf(filters[i]).Some? ==>
              ConditionTexts(Conditions(filters[..i + 1])) ==
              ConditionTexts(Conditions(filters[..i])) + [ConditionText(ConditionOf(filters[i]).value)]
    ensures FilterArgs(filters[..i + 1]) == FilterArgs(filters[..i]) + ArgsOf(filters[i])
  {
    assert filters[..i + 1][..i] == filters[..i];
  }

  lemma {:induction false} ErrorsPersist(filters: seq<Filter>, k: nat, columns: Columns)
    requires k <= |filters|
    ensures FirstFilterError(filters[..k], columns).Some? ==>
              FirstFilterError(filters, columns) == FirstFilterError(filters[..k], columns)
    decreases |filters| - k
  {
    if k < |filters| {
      assert filters[..k + 1][..k] == filters[..k];
      ErrorsPersist(filters, k + 1, columns);
    } else {
      assert filters[..k] == filters;
    }
  }

  method ColumnNames(meta: Schema) returns (columns: Columns, names: seq<string>)
    ensures columns == ColumnMap(meta.columns) && names == Quotes(Names(meta.columns))
  {
    columns, names := map[], [];
    for i := 0 to |meta.columns|
      invariant columns == ColumnMap(meta.columns[..i]) && names == Quotes(Names(meta.columns[..i]))
    {
      assert meta.columns[..i + 1][..i] == meta.columns[..i];
      columns := columns[meta.columns[i].name := meta.columns[i]];
      names := names + [Quote(meta.columns[i].name)];
      assert Names(meta.columns[..i + 1]) == Names(meta.columns[..i]) + [meta.columns[i].name];
    }
    assert meta.columns[..|meta.columns|] == meta.columns;
  }

  /** Builds the query text, its arguments and the notice. */
  method BrowseSql(schema: string, req: BrowseRequest, meta: Schema)
    returns (text: string, args: seq<Arg>, notice: string, err: Option<BrowseError>)
    ensures err.Some? <==> Compile(schema, req, meta).Err?
    ensures err.Some? ==> Compile(schema, req, meta) == Err(err.value)
    ensures err.None? ==>
              var c := Compile(schema, req, meta).value;
              text == Print(c.select) && args == c.args && notice == c.notice
  {
    hide Join, Quote, ColumnMap, Dedup, SortKeys, Conditions, KeyTexts, FirstFilterError, FilterArgs, ChooseKey;
    text, args, notice, err := "", [], "", None;
    if req.limit < 1 || req.limit > MAX_ROWS || req.offset < 0 { return "", [], "", Some(BadLimit); }
    if |req.filters| > MAX_FILTERS { return "", [], "", Some(TooManyFilters); }
    var columns, names := ColumnNames(meta);
    if |names| == 0 { return "", [], "", Some(NoColumns); }
    if req.sort != "" && req.sort !in columns { return "", [], "", Some(UnknownSort); }
    var key := FindKey(meta.indexes, columns);
    notice := NOTICE;
    if |key| == 0 {
      key := [meta.columns[0].name];
      notice := notice + UNORDERED;
    }
    var order := OrderTexts(req.sort, key, req.desc);
    var where;
    where, args, err := FilterTexts(req.filters, columns);
    if err.Some? { return "", [], "", err; }
    text := "SELECT " + Join(names, ", ") + " FROM " + Quote(schema) + "." + Quote(req.table);
    if |where| > 0 {
      text := text + " WHERE " + Join(where, " AND ");
    }
    text := text + " ORDER BY " + Join(order, ", ") + " LIMIT ? OFFSET ?";
    args := args + [NumberArg(req.limit + 1), NumberArg(req.offset)];
    TextIsPrinted(schema, req, meta, text);
  }

  lemma TextIsPrinted(schema: string, req: BrowseRequest, meta: Schema, text: string)
    requires Compile(schema, req, meta).Ok?
    requires var q := Compile(schema, req, meta).value.select;
             text == (if q.where == []
                      then "SELECT " + Join(Quotes(q.columns), ", ") + " FROM " + Quote(schema) + "." + Quote(req.table)
                      else "SELECT " + Join(Quotes(q.columns), ", ") + " FROM " + Quote(schema) + "." + Quote(req.table)
                           + " WHERE " + Join(ConditionTexts(q.where), " AND "))
                     + " ORDER BY " + Join(KeyTexts(q.order), ", ") + " LIMIT ? OFFSET ?"
    ensures text == Print(Compile(schema, req, meta).value.select)
  {
    hide Compile, Join, Quotes, Quote, ConditionTexts, KeyTexts;
    FieldsOfCompiled(schema, req, meta);
  }

  lemma FieldsOfCompiled(schema: string, req: BrowseRequest, meta: Schema)
    requires Compile(schema, req, meta).Ok?
    ensures Compile(schema, req, meta).value.select.schema == schema
    ensures Compile(schema, req, meta).value.select.table == req.table
  {
  }

  // ---------------------------------------------------------------- what the text says

  predicate NamesPresent(meta: Schema) {
    meta.columns != [] && forall i :: 0 <= i < |meta.columns| ==> meta.columns[i].name != ""
  }

  lemma {:induction false} DedupKeeps(names: seq<string>)
    ensures forall name :: name in Dedup(names) <==> name in names && name != ""
    ensures forall i, j :: 0 <= i < j < |Dedup(names)| ==> Dedup(names)[i] != Dedup(names)[j]
  {
    if names != [] {
      DedupKeeps(names[..|names| - 1]);
      assert names == names[..|names| - 1] + [names[|names| - 1]];
    }
  }

  /** Every kept name stands where it first occurs, and these positions ascend. */
  lemma {:induction false} DedupIsInOrder(names: seq<string>) returns (at: seq<nat>)
    ensures |at| == |Dedup(names)|
    ensures forall i :: 0 <= i < |at| ==> FirstOccurrence(names, at[i]) && names[at[i]] == Dedup(names)[i]
    ensures forall i, j :: 0 <= i < j < |at| ==> at[i] < at[j]
  {
    at := [];
    if names != [] {
      var n := |names| - 1;
      at := DedupIsInOrder(names[..n]);
      forall i | 0 <= i < |at| ensures FirstOccurrence(names, at[i]) {
        assert names[..n][..at[i]] == names[..at[i]];
      }
      if names[n] != "" && names[n] !in Dedup(names[..n]) {
        DedupKeeps(names[..n]);
        at := at + [n];
      }
    }
  }

  ghost predicate FirstOccurrence(names: seq<string>, k: nat) { k < |names| && names[k] !in names[..k] }

  lemma KeyIsValid(meta: Schema)
    ensures var key := ChooseKey(meta.indexes, ColumnMap(meta.columns));
            key != [] <==> exists i :: 0 <= i < |meta.indexes| && ValidKey(meta.indexes[i], ColumnMap(meta.columns))
    ensures var key := ChooseKey(meta.indexes, ColumnMap(meta.columns));
            key != [] ==> exists i :: 0 <= i < |meta.indexes| && ValidKey(meta.indexes[i], ColumnMap(meta.columns))
                                      && meta.indexes[i].columns == key
  {
    FirstKeyIsValid(meta.indexes, ColumnMap(meta.columns), true);
    FirstKeyIsValid(meta.indexes, ColumnMap(meta.columns), false);
  }

  ghost predicate DistinctNames(columns: seq<Column>) {
    forall i, j :: 0 <= i < j < |columns| ==> columns[i].name != columns[j].name
  }

  ghost predicate NeverNull(columns: seq<Column>, name: string) {
    exists c :: 0 <= c < |columns| && columns[c].name == name && !columns[c].nullable
  }

  /** A unique index over columns that exist and are never NULL. */
  ghost predicate Usable(index: Index, columns: seq<Column>) {
    index.unique && |index.columns| > 0 && forall k :: 0 <= k < |index.columns| ==> NeverNull(columns, index.columns[k])
  }

  lemma {:induction false} ColumnIsMapped(columns: seq<Column>, i: nat)
    requires i < |columns| && DistinctNames(columns)
    ensures columns[i].name in ColumnMap(columns) && ColumnMap(columns)[columns[i].name] == columns[i]
  {
    var n := |columns| - 1;
    if i < n {
      ColumnIsMapped(columns[..n], i);
    }
  }

  lemma UsableMeansValid(index: Index, columns: seq<Column>)
    requires DistinctNames(columns)
    ensures ValidKey(index, ColumnMap(columns)) <==> Usable(index, columns)
  {
    hide ColumnMap;
    forall k | 0 <= k < |index.columns|
      ensures index.columns[k] in ColumnMap(columns) && !ColumnMap(columns)[index.columns[k]].nullable
              <==> NeverNull(columns, index.columns[k])
    {
      if c :| 0 <= c < |columns| && columns[c].name == index.columns[k] {
        ColumnIsMapped(columns, c);
      }
    }
  }

  /** Which index breaks ties: the first usable one named PRIMARY, else the first usable one. */
  ghost predicate BreaksTies(indexes: seq<Index>, columns: seq<Column>, i: nat)
    requires i < |indexes|
  {
    && Usable(indexes[i], columns)
    && (if indexes[i].name == "PRIMARY"
        then forall j :: 0 <= j < i ==> !(Usable(indexes[j], columns) && indexes[j].name == "PRIMARY")
        else (forall j :: 0 <= j < i ==> !Usable(indexes[j], columns))
             && forall j :: 0 <= j < |indexes| ==> !(Usable(indexes[j], columns) && indexes[j].name == "PRIMARY"))
  }

  lemma {:induction false} FirstKeyIsFirst(indexes: seq<Index>, columns: seq<Column>, primaryOnly: bool)
    returns (i: nat)
    requires DistinctNames(columns) && FirstKey(indexes, ColumnMap(columns), primaryOnly) != []
    ensures i < |indexes| && indexes[i].columns == FirstKey(indexes, ColumnMap(columns), primaryOnly)
    ensures Usable(indexes[i], columns) && (primaryOnly ==> indexes[i].name == "PRIMARY")
    ensures forall j :: 0 <= j < i ==> !(Usable(indexes[j], columns) && (primaryOnly ==> indexes[j].name == "PRIMARY"))
  {
    hide ColumnMap, Usable, ValidKey;
    UsableMeansValid(indexes[0], columns);
    i := 0;
    if !(ValidKey(indexes[0], ColumnMap(columns)) && (primaryOnly ==> indexes[0].name == "PRIMARY")) {
      var k := FirstKeyIsFirst(indexes[1..], columns, primaryOnly);
      i := k + 1;
      assert forall j :: 1 <= j <= i ==> indexes[j] == indexes[1..][j - 1];
    }
  }

  lemma TieBreakerIsPreferred(meta: Schema) returns (i: nat)
    requires DistinctNames(meta.columns) && ChooseKey(meta.indexes, ColumnMap(meta.columns)) != []
    ensures i < |meta.indexes| && BreaksTies(meta.indexes, meta.columns, i)
    ensures meta.indexes[i].columns == ChooseKey(meta.indexes, ColumnMap(meta.columns))
  {
    hide ColumnMap, Usable, ValidKey;
    var columns := ColumnMap(meta.columns);
    var primary := FirstKey(meta.indexes, columns, true) != [];
    i := FirstKeyIsFirst(meta.indexes, meta.columns, primary);
    FirstKeyIsValid(meta.indexes, columns, true);
    forall j | 0 <= j < |meta.indexes|
      ensures ValidKey(meta.indexes[j], columns) <==> Usable(meta.indexes[j], meta.columns)
    {
      UsableMeansValid(meta.indexes[j], meta.columns);
    }
  }

  /** The notice announces unstable ties exactly when no usable unique index exists. */
  lemma NoticeIsExact(schema: string, req: BrowseRequest, meta: Schema)
    requires Compile(schema, req, meta).Ok?
    ensures Compile(schema, req, meta).value.notice == NOTICE + UNORDERED <==>
            !exists i :: 0 <= i < |meta.indexes| && ValidKey(meta.indexes[i], ColumnMap(meta.columns))
    ensures DistinctNames(meta.columns) ==>
              Compile(schema, req, meta).value.notice ==
              if exists i :: 0 <= i < |meta.indexes| && Usable(meta.indexes[i], meta.columns)
              then "Offset pagination may shift when data changes."
              else "Offset pagination may shift when data changes."
                   + " No non-null unique key; fallback ordering is not deterministic for ties."
  {
    hide ColumnMap, ValidKey, Usable, ChooseKey, FirstFilterError, Conditions, FilterArgs, OrderOf;
    KeyIsValid(meta);
    if DistinctNames(meta.columns) {
      forall i | 0 <= i < |meta.indexes|
        ensures ValidKey(meta.indexes[i], ColumnMap(meta.columns)) <==> Usable(meta.indexes[i], meta.columns)
      {
        UsableMeansValid(meta.indexes[i], meta.columns);
      }
    }
    assert |NOTICE + UNORDERED| > |NOTICE + ""|;
  }

  lemma {:induction false} ConditionsArePrintable(filters: seq<Filter>)
    ensures forall i :: 0 <= i < |Conditions(filters)| && Conditions(filters)[i].Like? ==>
            Conditions(filters)[i].escape == '!'
  {
    if filters != [] {
      ConditionsArePrintable(filters[..|filters| - 1]);
    }
  }

  lemma {:induction false} SlotsAppend(a: seq<Condition>, c: Condition)
    ensures Slots(a + [c]) == Slots(a) + if c.Null? then 0 else 1
  {
    if a == [] {
      assert a + [c] == [c];
    } else {
      SlotsAppend(a[1..], c);
      assert (a + [c])[1..] == a[1..] + [c];
    }
  }

  lemma {:induction false} ArgsFillSlots(filters: seq<Filter>, columns: Columns)
    requires FirstFilterError(filters, columns).None?
    ensures |FilterArgs(filters)| == Slots(Conditions(filters))
    ensures forall i :: 0 <= i < |FilterArgs(filters)| ==> FilterArgs(filters)[i].TextArg?
  {
    if filters != [] {
      ArgsFillSlots(filters[..|filters| - 1], columns);
      SlotsAppend(Conditions(filters[..|filters| - 1]), ConditionOf(filters[|filters| - 1]).value);
    }
  }

  lemma CompiledIsPrintable(schema: string, req: BrowseRequest, meta: Schema)
    requires NamesPresent(meta) && Compile(schema, req, meta).Ok?
    ensures Printable(Compile(schema, req, meta).value.select)
  {
    var key := ChooseKey(meta.indexes, ColumnMap(meta.columns));
    var names := [req.sort] + (if key == [] then [meta.columns[0].name] else key);
    ConditionsArePrintable(req.filters);
    DedupKeeps(names);
    KeyIsValid(meta);
    if key != [] {
      assert key[0] in ColumnMap(meta.columns);
      assert names[1] == key[0];
    } else {
      assert names[1] == meta.columns[0].name;
    }
    assert names[1] in names && names[1] != "";
    assert names[1] in Dedup(names);
  }

  /**
   The generated text reads back as exactly the requested query, whatever characters the
   names contain, and has one placeholder outside quotes for each argument.
   */
  lemma TextMeansRequest(schema: string, req: BrowseRequest, meta: Schema)
    requires NamesPresent(meta) && Compile(schema, req, meta).Ok?
    ensures var c := Compile(schema, req, meta).value;
            && Parse(Print(c.select)) == Some(c.select)
            && Lex(Print(c.select)).Some? && Marks(Lex(Print(c.select)).value) == |c.args|
  {
    var c := Compile(schema, req, meta).value;
    CompiledIsPrintable(schema, req, meta);
    RoundTrip(c.select);
    PlaceholdersMatch(c.select);
    ArgsFillSlots(req.filters, ColumnMap(meta.columns));
  }
}
