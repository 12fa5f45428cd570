/** The session's `next` walked over the two stores: every row that passes the filters, once, in display order. */
module Browsing {
  import opened Wrappers
  import opened Database
  import opened Session
  import opened Consistency
  import opened Sorting
  import opened Comparison
  import opened BrowseCompiler
  import opened Relational
  import opened Demo
  import opened Agreement
  import Sql
  import Collect
  import Paging

  /** How the in-memory store answers browse requests. */
  ghost function DirectAnswers(t: DemoTable, num: Reading): Paging.Answers
    requires Shaped(t)
  {
    (r: BrowseRequest) =>
      match BrowseResult(t, r, num) case Ok(page) => Ok(page) case Err(_) => Err(Failed(""))
  }

  /** All that a request selects from this table, as the in-memory store arranges it. */
  function Whole(t: DemoTable, req: BrowseRequest, num: Reading, notice: string): Paging.Listing
    requires forall i :: 0 <= i < |t.rows| ==> |t.rows[i]| == |t.schema.columns|
  {
    Paging.Listing(Names(t.schema.columns), RowsAt(t, Arranged(t, req, num)), notice)
  }

  /** A session that browses a table from its first row. */
  ghost predicate Browsing(w: World, s: Snapshot, t: DemoTable, num: Reading) {
    && Shaped(t) && |t.rows| <= MAX_INT
    && w.store.Some? && !s.query && s.browse.table != "" && Tidy(s.browse) && s.browse.offset == 0
    && Problem(t, s.browse, num).None?
  }

  lemma {:induction false} KeptIsShort(t: DemoTable, filters: seq<Filter>, num: Reading, n: nat)
    requires n <= |t.rows| && forall i :: 0 <= i < |t.rows| ==> |t.rows[i]| == |t.schema.columns|
    ensures |Demo.Kept(t, filters, num, n)| <= n
  {
    hide PassesAll;
    if n > 0 {
      KeptIsShort(t, filters, num, n - 1);
    }
  }

  lemma ArrangedIsShort(t: DemoTable, req: BrowseRequest, num: Reading)
    requires Shaped(t)
    ensures |Arranged(t, req, num)| <= |t.rows|
  {
    KeptIsShort(t, req.filters, num, |t.rows|);
    StableSortLength(LessOn(t, req, num), Demo.Kept(t, req.filters, num, |t.rows|));
  }

  /** Offset and limit decide neither acceptance nor order. */
  lemma SameRowsAtEveryOffset(t: DemoTable, req: BrowseRequest, num: Reading, offset: nat)
    requires Shaped(t) && Problem(t, req, num).None?
    ensures Problem(t, req.(offset := offset), num).None?
    ensures Arranged(t, req.(offset := offset), num) == Arranged(t, req, num)
    ensures BrowseResult(t, req.(offset := offset), num) == Ok(Whole(t, req, num, DEMO_NOTICE).Piece(req.limit, offset))
  {
    hide PageOf, StableSort, Demo.Kept, FirstProblem;
  }

  lemma DirectServes(t: DemoTable, req: BrowseRequest, num: Reading)
    requires Shaped(t) && Problem(t, req, num).None?
    ensures Paging.Serves(DirectAnswers(t, num), req, Whole(t, req, num, DEMO_NOTICE))
  {
    hide BrowseResult, Whole, Arranged, FirstProblem;
    forall offset: nat
      ensures DirectAnswers(t, num)(req.(offset := offset))
              == Ok(Whole(t, req, num, DEMO_NOTICE).Piece(req.limit, offset))
    {
      SameRowsAtEveryOffset(t, req, num, offset);
    }
  }

  /**
   Over the in-memory store, repeating `next` shows the rows that pass every filter, each
   exactly once, in display order, ties in table order.
   */
  lemma DirectWalk(w: World, s: Snapshot, t: DemoTable, num: Reading)
    requires Browsing(w, s, t, num) && BrowseResult(t, s.browse, num) == Ok(s.result)
    ensures var p, all := Arranged(t, s.browse, num), Whole(t, s.browse, num, DEMO_NOTICE);
            && (forall k: nat :: k in p <==> k < |t.rows| && PassesAll(t, s.browse.filters, t.rows[k], num))
            && Distinct(p) && Sorted(LessOn(t, s.browse, num), p) && Stable(LessOn(t, s.browse, num), p)
            && Paging.Showing(w, s, DirectAnswers(t, num), all)
            && Paging.RowsOf(Paging.Walk(w, s, DirectAnswers(t, num), all)) == RowsAt(t, p)
  {
    hide Arranged, LessOn, PassesAll, Paging.Walk, Paging.Serves, FirstProblem, PageOf, Tidy;
    var all := Whole(t, s.browse, num, DEMO_NOTICE);
    ArrangedIsSorted(t, s.browse, num);
    ArrangedIsShort(t, s.browse, num);
    DirectServes(t, s.browse, num);
    assert Paging.Showing(w, s, DirectAnswers(t, num), all);
    Paging.WalkIsComplete(w, s, DirectAnswers(t, num), all);
    assert all.rows[0..] == all.rows;
  }

  /** A page that the SQL store may give: some answer of the database to the generated text, collected. */
  ghost predicate SqlPage(t: DemoTable, schema: string, num: Reading, types: seq<string>, req: BrowseRequest,
                          page: Page)
    requires Shaped(t)
  {
    var c := Compile(schema, req, t.schema);
    c.Ok? && exists out :: GivesPage(t, num, types, req, c.value, out, page)
  }

  ghost predicate GivesPage(t: DemoTable, num: Reading, types: seq<string>, req: BrowseRequest, c: Compiled,
                            out: seq<Row>, page: Page)
    requires Shaped(t)
  {
    && Answers(RelationOf(t), Sql.Print(c.select), c.args, num, out)
    && req.limit >= 0 && (forall i :: 0 <= i < |out| ==> |out[i]| == |types|)
    && Collect.Collected(Delivered(t, types, out), req.limit) == Ok(page.(notice := ""))
    && page.notice == c.notice
  }

  /** The SQL store, as long as no page is over the size limit; different requests may be answered differently. */
  ghost predicate SqlStore(answers: Paging.Answers, t: DemoTable, schema: string, num: Reading, types: seq<string>,
                           req: BrowseRequest)
    requires Shaped(t)
  {
    forall offset: nat ::
      var answer := answers(req.(offset := offset));
      answer.Ok? && SqlPage(t, schema, num, types, req.(offset := offset), answer.value)
  }

  lemma SqlPageIsPiece(t: DemoTable, schema: string, num: Reading, types: seq<string>, req: BrowseRequest,
                       offset: nat, notice: string, page: Page)
    requires KeyedTable(t, num) && PlainTable(t, types) && Problem(t, req, num).None?
    requires Compile(schema, req, t.schema).Ok? && Compile(schema, req, t.schema).value.notice == notice
    requires SqlPage(t, schema, num, types, req.(offset := offset), page)
    ensures page == Whole(t, req, num, notice).Piece(req.limit, offset)
  {
    hide Answers, Collect.Collected, Sql.Print, Problem, Arranged, Compile, BrowseResult, PlainTable;
    var r := req.(offset := offset);
    var c := Compile(schema, r, t.schema).value;
    var out :| GivesPage(t, num, types, r, c, out, page);
    SameRowsAtEveryOffset(t, req, num, offset);
    NoticeOfMeta(schema, req, t.schema, offset);
    StoresAgree(t, schema, r, num, types, c, BrowseResult(t, r, num).value, out);
  }

  lemma NoticeOfMeta(schema: string, req: BrowseRequest, meta: Schema, offset: nat)
    requires Compile(schema, req, meta).Ok?
    ensures Compile(schema, req.(offset := offset), meta).Ok?
    ensures Compile(schema, req.(offset := offset), meta).value.notice == Compile(schema, req, meta).value.notice
  {
    hide ChooseKey, ColumnMap, FirstFilterError, Conditions, FilterArgs, OrderOf, Names;
  }

  /**
   Over the SQL store, repeating `next` shows the same rows in the same order as over the
   in-memory store, whichever answers the database gives to the generated queries.
   */
  lemma SqlWalk(w: World, s: Snapshot, t: DemoTable, schema: string, num: Reading, types: seq<string>,
                answers: Paging.Answers)
    requires KeyedTable(t, num) && PlainTable(t, types) && Browsing(w, s, t, num)
    requires SqlStore(answers, t, schema, num, types, s.browse) && answers(s.browse) == Ok(s.result)
    ensures var all := Whole(t, s.browse, num, s.result.notice);
            && Paging.Showing(w, s, answers, all)
            && Paging.RowsOf(Paging.Walk(w, s, answers, all)) == RowsAt(t, Arranged(t, s.browse, num))
  {
    hide KeyedTable, PlainTable, SqlPage, Problem, Paging.Walk, Arranged, PageOf, Compile, Tidy;
    var all := Whole(t, s.browse, num, s.result.notice);
    assert s.browse.(offset := 0) == s.browse;
    assert SqlPage(t, schema, num, types, s.browse, s.result);
    NoticeOfPage(t, schema, num, types, s.browse, s.result);
    TidyLimit(s.browse);
    forall offset: nat ensures answers(s.browse.(offset := offset)) == Ok(all.Piece(s.browse.limit, offset)) {
      var page := answers(s.browse.(offset := offset)).value;
      SqlPageIsPiece(t, schema, num, types, s.browse, offset, s.result.notice, page);
    }
    ArrangedIsShort(t, s.browse, num);
    assert Paging.Showing(w, s, answers, all);
    Paging.WalkIsComplete(w, s, answers, all);
    assert all.rows[0..] == all.rows;
  }

  lemma TidyLimit(r: BrowseRequest)
    requires Tidy(r)
    ensures 1 <= r.limit <= 1000 && 0 <= r.offset
  {
  }

  lemma NoticeOfPage(t: DemoTable, schema: string, num: Reading, types: seq<string>, req: BrowseRequest, page: Page)
    requires Shaped(t) && SqlPage(t, schema, num, types, req, page)
    ensures Compile(schema, req, t.schema).Ok? && Compile(schema, req, t.schema).value.notice == page.notice
  {
  }
}
