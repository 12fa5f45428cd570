/** Walking through a list of rows page by page with the session's own `next` and `prev`. */
module Paging {
  import opened Wrappers
  import opened Database
  import opened Session
  import opened Consistency

  /** What a store answers to browse requests while its rows do not change. */
  type Answers = BrowseRequest -> Result<Page, Error>

  /** Everything that a request selects, in order, and what every page of it says besides. */
  datatype Listing = Listing(columns: seq<string>, rows: seq<seq<Value>>, notice: string)
  {
    function Piece(limit: nat, offset: nat): Page { PageOf(columns, rows, limit, offset, notice) }
  }

  function Reply(page: Result<Page, Error>): Env {
    Env(false, Ok(""), Ok(()), Ok([]), Ok(EMPTY_SCHEMA), page, Ok(EMPTY_PAGE), Ok(0), 0, 0, "")
  }

  /** The store answers this request, at every offset, with the piece of one listing that it names. */
  ghost predicate Serves(answers: Answers, request: BrowseRequest, all: Listing)
    requires request.limit >= 0
  {
    forall offset: nat :: answers(request.(offset := offset)) == Ok(all.Piece(request.limit, offset))
  }

  ghost predicate Showing(w: World, s: Snapshot, answers: Answers, all: Listing) {
    && w.store.Some? && !s.query && s.browse.table != "" && Tidy(s.browse)
    && Serves(answers, s.browse, all)
    && s.result == all.Piece(s.browse.limit, s.browse.offset)
    && (s.browse.offset == 0 || s.browse.offset < |all.rows|)
    && |all.rows| <= MAX_INT
  }

  ghost function AfterNext(w: World, s: Snapshot, answers: Answers): Outcome {
    Perform(w, s, Next, Reply(answers(s.browse.(offset := s.browse.offset + s.browse.limit))))
  }

  lemma ShownRows(w: World, s: Snapshot, answers: Answers, all: Listing)
    requires Showing(w, s, answers, all)
    ensures s.browse.offset <= |all.rows|
    ensures s.result.hasMore <==> s.browse.offset + s.browse.limit < |all.rows|
    ensures s.result.rows == if s.result.hasMore
                             then all.rows[s.browse.offset..s.browse.offset + s.browse.limit]
                             else all.rows[s.browse.offset..]
  {
  }

  lemma ServesAtEveryOffset(answers: Answers, request: BrowseRequest, all: Listing, offset: nat)
    requires request.limit >= 0 && Serves(answers, request, all)
    ensures Serves(answers, request.(offset := offset), all)
    ensures answers(request.(offset := offset)) == Ok(all.Piece(request.limit, offset))
  {
    var there := request.(offset := offset);
    forall o: nat ensures answers(there.(offset := o)) == Ok(all.Piece(there.limit, o)) {
      assert there.(offset := o) == request.(offset := o);
    }
  }

  lemma NextShows(w: World, s: Snapshot, answers: Answers, all: Listing)
    requires Showing(w, s, answers, all) && s.result.hasMore
    ensures var o := AfterNext(w, s, answers);
            && o.error.None? && Showing(o.w, o.s, answers, all)
            && o.s.browse == s.browse.(offset := s.browse.offset + s.browse.limit)
            && o.s.browse.offset < |all.rows|
  {
    hide Serves;
    NextMultiple(s.browse.offset, s.browse.limit);
    ServesAtEveryOffset(answers, s.browse, all, s.browse.offset + s.browse.limit);
  }

  /** After a step forward, `prev` restores the browse settings and the page. */
  lemma PrevUndoesNext(w: World, s: Snapshot, answers: Answers, all: Listing)
    requires Showing(w, s, answers, all) && s.result.hasMore
    ensures var o := AfterNext(w, s, answers);
            var back := Perform(o.w, o.s, Prev, Reply(answers(s.browse)));
            back.error.None? && back.s.browse == s.browse && back.s.result == s.result
  {
    hide Serves;
    NextShows(w, s, answers, all);
    ServesAtEveryOffset(answers, s.browse, all, s.browse.offset);
    assert s.browse.(offset := s.browse.offset) == s.browse;
  }

  /** The pages seen by repeating `next` until there is no more. */
  ghost function Walk(w: World, s: Snapshot, answers: Answers, all: Listing): seq<Page>
    requires Showing(w, s, answers, all)
    decreases |all.rows| - s.browse.offset
  {
    if !s.result.hasMore then [s.result]
    else
      NextShows(w, s, answers, all);
      var o := AfterNext(w, s, answers);
      [s.result] + Walk(o.w, o.s, answers, all)
  }

  ghost function RowsOf(pages: seq<Page>): seq<seq<Value>> {
    if pages == [] then [] else pages[0].rows + RowsOf(pages[1..])
  }

  /** The walk shows every remaining row exactly once, in order. */
  lemma {:induction false} WalkIsComplete(w: World, s: Snapshot, answers: Answers, all: Listing)
    requires Showing(w, s, answers, all)
    ensures s.browse.offset <= |all.rows| && RowsOf(Walk(w, s, answers, all)) == all.rows[s.browse.offset..]
    decreases |all.rows| - s.browse.offset
  {
    hide Perform, PageOf, Serves;
    var pages := Walk(w, s, answers, all);
    ShownRows(w, s, answers, all);
    if s.result.hasMore {
      NextShows(w, s, answers, all);
      var o := AfterNext(w, s, answers);
      WalkIsComplete(o.w, o.s, answers, all);
      assert pages[1..] == Walk(o.w, o.s, answers, all);
      assert all.rows[s.browse.offset..] == s.result.rows + all.rows[o.s.browse.offset..];
    } else {
      assert pages[1..] == [] && s.result.rows + [] == s.result.rows;
    }
  }

  /** The number of pages is the least that can hold the remaining rows (and one for no rows). */
  lemma {:induction false} WalkIsShort(w: World, s: Snapshot, answers: Answers, all: Listing)
    requires Showing(w, s, answers, all)
    ensures var pages, left := |Walk(w, s, answers, all)|, |all.rows| - s.browse.offset;
            && 1 <= pages && left <= pages * s.browse.limit
            && (pages - 1) * s.browse.limit < (if left == 0 then 1 else left)
    decreases |all.rows| - s.browse.offset
  {
    hide Perform, PageOf, Serves;
    ShownRows(w, s, answers, all);
    if s.result.hasMore {
      NextShows(w, s, answers, all);
      var o := AfterNext(w, s, answers);
      WalkIsShort(o.w, o.s, answers, all);
      var rest := |Walk(o.w, o.s, answers, all)|;
      assert |Walk(w, s, answers, all)| == 1 + rest;
      OneMorePage(rest, s.browse.limit);
    }
  }

  lemma OneMorePage(pages: nat, limit: nat)
    ensures (1 + pages) * limit == limit + pages * limit
    ensures pages >= 1 ==> pages * limit == limit + (pages - 1) * limit
  {
  }
}
