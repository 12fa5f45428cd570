# A verified model of Relvo

Relvo is a terminal browser for SQL databases. A session holds one connection at a time,
shows one page of a table or query, and lets an outside controller stage a write that only
the person at the terminal can approve. This project models the parts of Relvo whose
correctness is not visible from any single function, and proves what they guarantee over
every input, every run and every interleaving.

The project has six parts.

* **The session** (`Session`, `Actions`, `Runs`, `Consistency`, `Displays`, `Ledger`,
  `Provenance`, `SessionTheorems`, `SavedViews`, `Paging`, `Application`). `Runs` is a labelled transition system for any
  number of concurrent callers. Its steps are the regions that the code executes under its
  state mutex, together with the part of an operation between two such regions, which
  touches only what the operation lock protects. The store, the clock and cancellation are
  inputs, so each theorem speaks about every behaviour of the database. Stores are numbered
  as they are opened, and a ghost log records every call on them and every step of the
  write protocol; `Ledger` says which logs are legal and what follows from that. The class
  `Application.App` has the fields and methods of the code, each proved equal to its step.
* **The terminal's half of write approval** (`Terminal`, `Review`). `Review` composes the
  session with the terminal: snapshots arrive through the event feed and, late and in any
  order, as results of calls. Each typed character carries a ghost note of the write that
  was on display when it was typed.
* **Browsing as SQL and browsing directly** (`Sql`, `Like`, `BrowseCompiler`, `Comparison`,
  `Sorting`, `Relational`, `Encoding`, `Utf8`, `Collect`, `Demo`, `Agreement`, `Meaning`,
  `Browsing`). SQL text is printed and read back
  character by character; the database is a relation between a query text and the row lists
  it may answer with (three-valued conditions, NULL first, ties in any order). The chain
  from request to SQL text to rows to page is proved equal to filtering, sorting and
  slicing in memory, and the session's own paging is then walked over both stores.
* **The guard on raw queries** (`QueryGuard`, `GuardMeaning`): a grammar of acceptable texts,
  the scanner that decides it, and what both mean over literal words and characters.
* **The screen** (`Viewport`): scrolling, column widths and hit-testing.
* **Two small protocols** (`ControlServer`, `ProfileFile`): shutdown of the control server,
  and profile additions by several processes that may crash.

Classes hold the fields that the code updates in place, and each method is proved against a
function of the old state; theorems are about those functions and about runs of them.

Results worth knowing:

* The code's "Pending write changed" refusal in the approval modal can never fire: the modal
  closes or resets whenever the pending write changes (`Review.ChangedRefusalIsUnreachable`).
* The two stores accept exactly the same requests except where the in-memory store refuses
  to compare a numeric column with a text that is not a number
  (`Agreement.AcceptanceDiffersOnlyOnNumbers`).
* When a connect succeeds but its first table cannot be loaded, the page is empty: a page of
  the previous connection is never shown under the new one
  (`SessionTheorems.IdleStateIsConsistent`).
* On a window narrower than 64 columns with the sidebar focused, sidebar and grid together
  are wider than the window, and only then (`Viewport.GridFillsWindow`).

## Model

| member | source | states |
|---|---|---|
| SessionTheorems.WritesRunAtMostOnce | internal/app/app.go:423-461 | In every run each executed statement carries out exactly one earlier staged write, on the store instance it was staged for, unexpired at its approval; no other execution uses that identifier, and none follows its rejection. |
| SessionTheorems.ExecutedWasDispatched | internal/app/app.go:320-332 | Every executed statement is, word for word, the text of a write that some caller dispatched, and a call with its identifier approved it. |
| SessionTheorems.StatementsWereDispatched | internal/app/app.go:308-332 | Every staged write and every query that a store gets is the text of a call that its caller began. |
| SessionTheorems.NothingWrittenWithoutPermission | internal/app/app.go:321-323 | Started without permission to write, no run ever stages, approves or executes anything. |
| SessionTheorems.WritesAreAsStarted | internal/app/app.go:38-38 | Whether writes are enabled is what the start said, in every state of every run. |
| Provenance.EventHasCause | internal/app/app.go:227-461 | Every event of a run was made by one step whose call asked for it. |
| Provenance.CallWasBegun | internal/app/app.go:143-158 | An operation in flight works on the call with which its caller began it. |
| SessionTheorems.ApprovalIsExact | internal/app/app.go:428-431 | In every consistent state an approval passes exactly for the pending identifier, up to its expiry. |
| SessionTheorems.ApprovedIsExecuted | internal/app/app.go:432-437 | An approval that passes is followed by the execution of the pending statement on the current store. |
| SessionTheorems.RejectTakesEffect | internal/app/app.go:473-479 | Rejecting removes the pending write, records it and publishes; another identifier changes nothing. |
| SessionTheorems.ClosedIsFinal | internal/app/app.go:132-139 | Closing takes effect, and afterwards snapshot, stores and log stay as they are. |
| SessionTheorems.SuccessIsCommitted | internal/app/app.go:171-176 | A successful operation commits its whole snapshot as the next revision and publishes it. |
| SessionTheorems.BeginningIsClean | internal/app/app.go:153-157 | An operation starts from the committed snapshot, marked busy and cleared of the last error. |
| Ledger.ExecutionsAreStaged | internal/app/app.go:428-437 | Between staging and approval of an executed write there was no rejection, no replacement, no other approval and no successful connect. |
| Ledger.ExecutedOnce | internal/app/app.go:432-437 | Two executions never share a write identifier. |
| Ledger.NeverAfterRejection | internal/app/app.go:463-480 | A rejected identifier is never executed afterwards. |
| Ledger.NeverAfterReplacement | internal/app/app.go:327-377 | A write staged before a successful connect, or before a later write, is never executed afterwards. |
| Ledger.ReplacedOnlyAfterExpiry | internal/app/app.go:327-329 | A waiting write gives way to a newer one only at or after its expiry. |
| SessionTheorems.StoresAreClosedExactlyOnce | internal/app/app.go:126-141 | Once the application is closed, every store ever opened has exactly one close event, after its opening, and is not used after it. |
| Ledger.NeverUsedAfterClose | internal/app/app.go:348-376 | No method is called on a store after its close, over any legal history. |
| Ledger.OpenedOnce | internal/app/app.go:353-353 | Two openings never yield the same store instance. |
| SessionTheorems.IdleStateIsConsistent | internal/app/app.go:348-419 | Between operations the open stores are exactly the current one, opened for the named connection and database; a pending write waits on it; outside query mode a non-empty page is what that store returned for the displayed request, read after the last successful write. |
| Displays.DisplayIsTrue | internal/app/app.go:285-307 | Between operations the displayed table list is the latest that the current store gave, and a displayed page was read directly after the displayed schema of its table. |
| Displays.EveryRunShows | internal/app/app.go:348-419 | This holds through every step of every run, for failed operations too. |
| SessionTheorems.BrowseSettingsAreInBounds | internal/app/app.go:254-298 | In every state, and in every saved view, the limit is 1..1000 and the offset a nonnegative multiple of it; a browsed table is in the table list. |
| SessionTheorems.FeedHoldsLatest | internal/app/app.go:79-87 | A full event channel holds the current state, and its consumer receives strictly increasing revisions. |
| SavedViews.ViewsComeBack | internal/app/app.go:370-387 | Across any run, reconnecting restores the browse settings with which a connection was left, whether it was left by a connect action or by setting up another connection and whatever happened in between, exactly if their table still exists. |
| SavedViews.ConnectSavesView | internal/app/app.go:370-373 | A successful connect saves the view it leaves, and connecting touches no other view. |
| SavedViews.StepSavesOnlyItsView | internal/app/app.go:227-400 | No step of a run changes the saved view of a connection other than the one its operation started from. |
| SavedViews.ConnectRestoresView | internal/app/app.go:378-387 | Connecting restores the remembered settings if and only if their table is listed. |
| Consistency.PerformKeeps | internal/app/app.go:227-337 | Every action, for every behaviour of the store, either yields a consistent new snapshot or leaves the committed one consistent. |
| Consistency.SetUpKeeps | internal/app/app.go:201-225 | The same for setting up a connection; a failed or tested draft reserves no name, and a success adds exactly the profile and its name. |
| Provenance.SetUpIsKept | internal/app/app.go:214-223 | A connection that was set up is found under its name in every later state of the run. |
| Provenance.KnownNameIsTaken | internal/app/app.go:102-106 | A known name connects to its profile and can be neither set up nor added again. |
| Provenance.ProfilesGrow | internal/app/app.go:112-113 | No step of a run forgets a profile. |
| Actions.ConnectSucceeds | internal/app/app.go:206-213 | Connecting and setting up succeed exactly under their stated conditions. |
| Consistency.ConnectProfileKeeps | internal/app/app.go:348-400 | Connecting never leaks a store: failure and test close the new one, success closes the old one. |
| Consistency.WriteKeeps | internal/app/app.go:437-460 | After a successful execution no page read before it survives, whichever part of the reload fails. |
| Consistency.ApprovalConsumes | internal/app/app.go:428-436 | An approval takes the pending write out of the committed state before anything runs. |
| Consistency.RejectionKeeps | internal/app/app.go:473-478 | A rejection keeps the state consistent and ends the wait. |
| Consistency.AddProfileKeeps | internal/app/app.go:102-114 | Profiles and the displayed connection names stay in step and unique. |
| Consistency.EditIsTidy | internal/app/app.go:254-284 | Every table action keeps the page bounds and names only listed tables. |
| Actions.TableActionShows | internal/app/app.go:254-274 | Over the in-memory store, after opening, filtering, sorting or resizing the first page is shown of exactly the rows that the named settings keep, in the named order; settings that the action does not name stay. |
| Actions.TableActionAsks | internal/app/app.go:254-284 | Every table action asks the store for what it names and shows the answer, or changes nothing. |
| Actions.RefusalsAreNamed | internal/app/app.go:228-274 | What is refused before the store is asked, and why. |
| Actions.QueryShows | internal/app/app.go:308-319 | A query reaches the store as typed and its answer is shown. |
| Actions.WriteIsStaged | internal/app/app.go:320-332 | Exactly when a write is staged, with its own text, for five minutes. |
| Actions.ConnectShows | internal/app/app.go:374-399 | A successful connect shows the named connection, its database, tables and page, and no pending write. |
| Actions.ConnectFallsBack | internal/app/app.go:378-387 | Without a remembered table the first one is shown, unfiltered, at the remembered page size. |
| Actions.TestChangesNothing | internal/app/app.go:360-364 | A test opens and closes a store and changes nothing else. |
| Actions.RefreshShows | internal/app/app.go:285-307 | A refresh replaces the table list and rereads the page or resets the settings. |
| Actions.WriteReloads | internal/app/app.go:443-459 | A successful write is followed by a fresh table list and page, and the status says whether that worked. |
| Runs.EveryRun | internal/app/app.go:76-181 | The session invariant holds in every state of every run of any number of callers. |
| Runs.RunsAreSequential | internal/app/app.go:143-197 | Every concurrent run ends as its operations do when each runs to its end alone, in the order in which they won the operation lock. |
| Runs.IdleRunsAreFolds | internal/app/app.go:160-181 | With no operation in flight the committed state is the fold of the finished operations. |
| Runs.RevisionNamesSnapshot | internal/app/app.go:79-87 | Along a run revisions never decrease, and two snapshots with one revision are identical. |
| Runs.FailedCall | internal/app/app.go:160-181 | A failed call changes the committed snapshot only in revision and error, and in the pending write if it was an approval that had consumed it. |
| Paging.NextShows | internal/app/app.go:275-282 | `next` shows the page that starts right after the one on display. |
| Paging.PrevUndoesNext | internal/app/app.go:283-284 | `prev` after `next` restores the settings and the page. |
| Paging.WalkIsComplete | internal/app/app.go:275-282 | Repeating `next` until there is no more shows every remaining row exactly once, in order. |
| Paging.WalkIsShort | internal/app/app.go:275-282 | The walk takes the least number of pages that can hold the remaining rows. |
| Browsing.DirectWalk | internal/database/demo/demo.go:178-292 | Over the in-memory store, repeating `next` shows exactly the rows that pass every filter, each once, in display order, ties in table order. |
| Browsing.SqlWalk | internal/database/mysql/mysql.go:305-326 | Over the SQL store, with pages under the size limit, it shows the same rows in the same order, whichever answers the database gives to each query. |
| Browsing.SqlPageIsPiece | internal/database/mysql/mysql.go:305-326 | Every page of the SQL store is the piece of the direct arrangement at its offset. |
| Application.App.constructor | internal/app/app.go:37-38 | An application without profiles is in the initial state of the runs. |
| Application.New | internal/app/app.go:33-45 | Starting succeeds exactly with an opener and distinct, nonblank profile names; it yields the state after adding those profiles in order, with writes enabled exactly if allowed. |
| Application.StartIsARun | internal/app/app.go:39-43 | That state is reached by a run of additions, so every theorem about runs holds from it. |
| Application.AddedKeepsAll | internal/app/app.go:112-114 | Adding usable profiles one by one keeps them all, in order, with one revision each. |
| Application.App.PublishLocked | internal/app/app.go:80-87 | Publishing never blocks and never meets a closed channel: the send's preconditions always hold. |
| Application.App.AddProfile | internal/app/app.go:89-116 | Adds exactly when open, named and new; a busy application is unchanged. |
| Application.App.BeginOperation | internal/app/app.go:143-158 | A caller that finds the lock taken or the application closed changes nothing. |
| Application.App.FinishOperation | internal/app/app.go:160-181 | Commits the whole private snapshot or only its error, and frees the lock. |
| Application.App.Dispatch | internal/app/app.go:191-196 | One call is begin, the action and finish of the run model, with the action's error as its result. |
| Application.App.Setup | internal/app/app.go:201-225 | The same for setting up a connection. |
| Application.App.Perform | internal/app/app.go:227-337 | The method computes the action function for every action and every store answer. |
| Application.App.Reload | internal/app/app.go:285-307 | A refresh whose table vanished resets the browse settings; one whose table fails to load keeps them and empties the page. |
| Application.App.ConnectTo | internal/app/app.go:348-369 | Field by field, the method is the connect function. |
| Application.App.SwitchTo | internal/app/app.go:370-399 | The same for replacing the current store. |
| Application.App.SavedView | internal/app/app.go:378-387 | The method restores the view that the connect function names. |
| Application.App.Browse | internal/app/app.go:402-419 | Schema and page are stored together or not at all. |
| Application.App.Lists | internal/app/app.go:339-346 | The search finds a name if and only if it is listed. |
| Application.App.Approve | internal/app/app.go:423-461 | One call is begin, check, work and finish of the run model. |
| Application.App.Consume | internal/app/app.go:428-436 | The check passes exactly for a matching, unexpired write, which is then gone from the published state. |
| Application.App.ExecuteWrite | internal/app/app.go:437-460 | The method computes the write function for every store answer. |
| Application.App.Reject | internal/app/app.go:463-480 | Rejects exactly the pending identifier of an open, idle application. |
| Application.App.Close | internal/app/app.go:126-141 | Closes channel and store once and hands on the store's error; a second call does nothing. |
| Terminal.ChangedWriteResetsText | internal/tui/model.go:144-154 | When the reviewed write changes, the typed text is empty again. |
| Terminal.RevisionNeverDecreases | internal/tui/model.go:119-125 | The displayed revision never decreases, and a snapshot that is not older is displayed. |
| Terminal.ApprovesExactly | internal/tui/modal.go:292-308 | The approval key approves exactly the displayed, unexpired write, on exactly the one word. |
| Terminal.NewWriteIsShown | internal/tui/model.go:144-148 | A new write is shown at once, over anything but a connection form. |
| Terminal.SameWriteChangesLittle | internal/tui/model.go:123-143 | Otherwise a snapshot only changes the display, and closes a filter form or inspector exactly if it belongs to another page. |
| Terminal.GoneWriteIsForgotten | internal/tui/model.go:149-154 | A write that is gone is forgotten and its modal closed. |
| Terminal.LateSetupIsHarmless | internal/tui/model.go:185-199 | Every form has its own number, so a late setup result closes no other form. |
| Terminal.StartShowsPending | internal/tui/model.go:85-90 | A write pending at the start is shown for review. |
| Terminal.Model.Accept | internal/tui/model.go:119-156 | The method computes the acceptance function on the fields that matter for approval, and an arriving snapshot never loses SQL typed in an editor. |
| Terminal.Model.ReviewPending | internal/tui/model.go:144-154 | A new write is shown unless a connection form is open; one that is gone closes its modal. |
| Terminal.Model.FinishSetup | internal/tui/model.go:185-199 | A finished setup closes only the form that started it. |
| Terminal.Model.CloseModal | internal/tui/modal.go:31-50 | Closing drops the text, keeps both SQL drafts and invalidates running setups of a form. |
| Terminal.Model.OpenSql | internal/tui/modal.go:59-75 | An editor opens on its own draft, and both drafts stay. |
| Terminal.Model.SubmitSql | internal/tui/modal.go:311-323 | Exactly nonblank text is dispatched, as the kind of its editor, and stays as the draft. |
| Terminal.Model.ShowPending | internal/tui/modal.go:77-82 | Showing a write starts with empty text. |
| Terminal.Model.PressEnterInApproval | internal/tui/modal.go:292-309 | Approves exactly the displayed, unexpired write, and only on the exact word. |
| Review.EverySystemRun | internal/tui/model.go:98-199 | The invariant of session and terminal together holds for every order of events, results and keys. |
| Review.ReviewedIsExecuted | internal/tui/modal.go:278-309 | Whatever SQL is executed was on display while every character of "approve" was typed and entered. |
| Review.ChangedRefusalIsUnreachable | internal/tui/modal.go:293-296 | In every run the open approval modal shows the pending write of the snapshot on display, so its "changed" refusal never fires. |
| Review.QuietMeansUpToDate | internal/tui/model.go:98-104 | With the feed empty and no event on its way, the terminal shows the application's state. |
| Sql.RoundTrip | internal/database/mysql/mysql.go:296-302 | The generated text reads back as exactly the query it was printed from, for arbitrary names. |
| Sql.LexName | internal/database/mysql/mysql.go:215-215 | A quoted identifier is read back as one name, whatever backticks, marks or keywords it holds. |
| Sql.PlaceholdersMatch | internal/database/mysql/mysql.go:300-301 | Outside quotes there is one placeholder for each condition that takes one, plus two. |
| BrowseCompiler.BrowseSql | internal/database/mysql/mysql.go:217-303 | The loops produce the text, arguments and notice of the compiled request, or its first error. |
| BrowseCompiler.FindKey | internal/database/mysql/mysql.go:238-251 | The scan picks a usable primary key if there is one, else the first usable unique index. |
| BrowseCompiler.OrderTexts | internal/database/mysql/mysql.go:257-269 | The seen-set loop keeps first occurrences in order. |
| BrowseCompiler.FilterTexts | internal/database/mysql/mysql.go:270-295 | Conditions and arguments, or the first filter error. |
| BrowseCompiler.TextMeansRequest | internal/database/mysql/mysql.go:217-303 | The text parses to exactly the requested columns, table, conditions and order, with one placeholder per argument. |
| Meaning.TextLayout | internal/database/mysql/mysql.go:296-301 | The whole text: one condition for each filter in order, the ordering columns in one direction, the requested sort first. |
| Meaning.ConditionTextIs | internal/database/mysql/mysql.go:279-294 | Each operator name becomes its own literal symbol. |
| Meaning.OnlyTheseOperators | internal/database/mysql/mysql.go:280-294 | No other operator name is accepted. |
| Meaning.QuoteDoubles | internal/database/mysql/mysql.go:215-215 | A quoted name is the name between backticks with every backtick doubled. |
| BrowseCompiler.CompiledIsPrintable | internal/database/mysql/mysql.go:252-269 | There is always something to select and to order by. |
| BrowseCompiler.ArgsFillSlots | internal/database/mysql/mysql.go:270-295 | Filter arguments are as many as the placeholders they fill. |
| BrowseCompiler.DedupKeeps | internal/database/mysql/mysql.go:257-263 | The order lists every nonempty name once. |
| BrowseCompiler.DedupIsInOrder | internal/database/mysql/mysql.go:257-269 | Every kept name stands where it first occurs. |
| BrowseCompiler.KeyIsValid | internal/database/mysql/mysql.go:238-251 | A tie-breaking key is found if and only if a unique index over known, non-null columns exists, and it is such an index. |
| BrowseCompiler.TieBreakerIsPreferred | internal/database/mysql/mysql.go:238-251 | Ties are broken by the first usable index named PRIMARY, else by the first usable one. |
| BrowseCompiler.NoticeIsExact | internal/database/mysql/mysql.go:252-256 | The nondeterminism notice appears exactly when no such index exists. |
| Relational.OrderCoversKey | internal/database/mysql/mysql.go:238-269 | Under what a database enforces (NULLs may repeat in a unique index), some usable unique index suffices that distinct rows never tie under the generated order. |
| Relational.SelectionsAgree | internal/database/mysql/mysql.go:257-300 | Under such an order the database can arrange the rows in one way only. |
| Relational.DescendingReverses | internal/database/mysql/mysql.go:264-267 | Flipping the direction gives the exact reverse list. |
| Relational.PageIsPiece | internal/database/mysql/mysql.go:300-301 | With a usable unique index, whatever is answered for a page is the piece of the one list at its limit and offset. |
| Relational.PagesPartition | internal/database/mysql/mysql.go:300-301 | Pages answered one after the other, up to one that reports nothing more, join to the one arrangement of the rows that meet the conditions. |
| Relational.PagesCover | internal/database/mysql/mysql.go:300-301 | Consecutive pieces of a list cover it, each element once, in order. |
| Relational.SelectionExists | internal/database/mysql/mysql.go:257-300 | The selected rows can always be put in the requested order. |
| Relational.AnswerExists | internal/database/mysql/mysql.go:305-316 | For every table, request and set of indexes the database has an answer to the generated text. |
| Like.LiteralContains | internal/database/mysql/mysql.go:285-287 | The escaped pattern matches a text exactly when the value occurs in it as written. |
| Like.EscapeMarks | internal/database/mysql/mysql.go:287-287 | Escaping marks exactly the three special characters, one by one. |
| Like.PatternCharacters | internal/database/mysql/mysql.go:286-287 | What each pattern character matches. |
| Utf8.CutIsMaximal | internal/database/mysql/mysql.go:445-452 | The cut keeps the longest valid prefix within the limit and drops at most three bytes. |
| Utf8.ValidMeansEncoded | internal/database/mysql/mysql.go:442-444 | A text is valid exactly if it encodes some sequence of Unicode scalar values. |
| Utf8.ValidPrefix | internal/database/mysql/mysql.go:449-451 | In valid text a prefix is valid exactly at the end or before a rune start. |
| Utf8.ShrinkUntilValid | internal/database/mysql/mysql.go:447-451 | The shrinking loop ends at the same cut as the preview's loop for every limit. |
| Utf8.PreviewCut | internal/tui/view.go:94-98 | The preview backs up to the last rune start within the limit. |
| Collect.ReadValue | internal/database/mysql/mysql.go:433-458 | NULL stays NULL; text keeps a maximal valid prefix of at most 64 KiB; the rest is hexadecimal. |
| Collect.HexRoundTrip | internal/database/mysql/mysql.go:455-455 | The hexadecimal digits of a value read back as its bytes. |
| Collect.BinaryTypesAreTheEight | internal/database/mysql/mysql.go:438-441 | Binary are exactly eight type names, in any case. |
| Collect.ReadRow | internal/database/mysql/mysql.go:408-420 | A row is read whole or the byte budget is exceeded. |
| Collect.CollectRows | internal/database/mysql/mysql.go:374-431 | The page is the first `limit` rows with an exact "more" mark, or one error and no partial page. |
| Collect.CollectedMeans | internal/database/mysql/mysql.go:374-431 | Columns, rows, "more" mark and notice of a collected page, and exactly when it is refused. |
| Comparison.CompareChains | internal/database/demo/demo.go:158-174 | Comparison with NULL first is transitive; ties chain. |
| Comparison.CompareFlips | internal/database/demo/demo.go:158-174 | Comparison is antisymmetric. |
| Comparison.CompareMeans | internal/database/demo/demo.go:158-174 | NULL is before every value, numbers compare by value, other text by its first differing byte. |
| Comparison.NumericKinds | internal/database/demo/demo.go:154-156 | Which column types hold numbers. |
| Demo.Browse | internal/database/demo/demo.go:178-292 | The loops compute the direct answer, or the first error, for every table whose numbers can be read and every request. |
| Demo.CompareCells | internal/database/demo/demo.go:158-174 | Comparing cells, under the condition without which reading a number would end the program. |
| Demo.SortingIsDefined | internal/database/demo/demo.go:271-276 | Sorting never meets a text that is not a number where it compares numbers. |
| Demo.CheckFilters | internal/database/demo/demo.go:206-225 | Reports the first filter that the store refuses. |
| Demo.Matches | internal/database/demo/demo.go:231-266 | A row is kept exactly if it passes every filter. |
| Demo.KeepRows | internal/database/demo/demo.go:226-270 | The nested loops keep exactly the rows that pass, in table order. |
| Sorting.SortStable | internal/database/demo/demo.go:271-281 | Sorting in place computes the stable arrangement. |
| Demo.ArrangedIsSorted | internal/database/demo/demo.go:226-281 | What is displayed is exactly the matching rows, each once, sorted, ties in table order. |
| Meaning.FilterMeans | internal/database/demo/demo.go:231-261 | Operator by operator, which rows a filter keeps, without reference to the operator tables. |
| Meaning.ConditionMeans | internal/database/mysql/mysql.go:272-295 | The generated condition is true of exactly the same rows. |
| Meaning.OrderMeans | internal/database/demo/demo.go:271-281 | Which of two rows may be shown above the other. |
| Meaning.PageMeans | internal/database/demo/demo.go:271-291 | A page is the piece at its offset of the kept rows, each once, in that order. |
| Demo.CopyPage | internal/database/demo/demo.go:285-290 | The copied page is the requested piece. |
| Agreement.StoresAgree | internal/database/demo/demo.go:176-292 | For a table with a unique numeric first column and plain values, every answer to the generated SQL, once collected, has the columns, rows and "more" mark of the direct store; the only other outcome is the 8 MiB error. |
| Agreement.AnAnswerExists | internal/database/mysql/mysql.go:305-326 | The database always has an answer, so the agreement is never about nothing. |
| Agreement.AcceptanceDiffersOnlyOnNumbers | internal/database/demo/demo.go:186-225 | The stores accept the same requests except for comparisons of a number with a text that is none. |
| Agreement.RefusalsAgree | internal/database/demo/demo.go:186-225 | What the direct store refuses for another reason, the SQL store refuses with the same error. |
| Agreement.FilterAgrees | internal/database/demo/demo.go:231-261 | A filter's SQL condition is true of a row exactly when the direct test passes, NULLs included. |
| Agreement.OrderAgrees | internal/database/demo/demo.go:271-281 | ORDER BY compares rows as the direct sort does. |
| Agreement.PageAgrees | internal/database/mysql/mysql.go:398-421 | Fetching one row more than the page holds tells exactly whether there is a next page. |
| QueryGuard.ValidateQuery | internal/database/mysql/mysql.go:463-528 | Terminates for every text and accepts exactly the texts of the grammar. |
| QueryGuard.VerdictIsAcceptance | internal/database/mysql/mysql.go:463-528 | Accepted are exactly the texts made of closed regions, words and other characters, without banned bytes or comments, blank after the first semicolon, first word a read, no forbidden word. |
| GuardMeaning.WordsDecide | internal/database/mysql/mysql.go:513-527 | A text of the grammar is accepted exactly if it is at most 8 MiB, its first word is one of six and no word one of twenty-seven, in whatever case. |
| GuardMeaning.CaseIsIrrelevant | internal/database/mysql/mysql.go:508-508 | Changing the case of letters anywhere never changes the verdict. |
| GuardMeaning.NoEscapesAccepted | internal/database/mysql/mysql.go:470-486 | No accepted text holds a backslash or a NUL anywhere. |
| GuardMeaning.CommentsAreRefused | internal/database/mysql/mysql.go:470-472 | A comment outside quoted regions is refused, whatever surrounds it. |
| GuardMeaning.SecondStatementIsRefused | internal/database/mysql/mysql.go:473-478 | Anything visible after the first semicolon outside quoted regions is refused. |
| GuardMeaning.UnclosedQuoteIsRefused | internal/database/mysql/mysql.go:498-500 | A quoted region that never closes is refused, for each of the three quotes. |
| Text.BlankMeansSpaces | internal/database/mysql/mysql.go:474-474 | Blank are exactly the encodings of white-space code points. |
| Text.UpperForgetsCase | internal/database/mysql/mysql.go:508-508 | Folding makes texts equal exactly if they differ in the case of letters only. |
| QueryGuard.ReadSound | internal/database/mysql/mysql.go:468-512 | What the scanner reads is a decomposition of the text. |
| QueryGuard.ReadComplete | internal/database/mysql/mysql.go:468-512 | Every decomposition is the one the scanner reads, so it is unique. |
| QueryGuard.ReadPrefix | internal/database/mysql/mysql.go:468-512 | Complete pieces at the start of a text leave whatever follows them to be read on its own. |
| QueryGuard.QuotedContentIsIrrelevant | internal/database/mysql/mysql.go:479-502 | Replacing a quoted region's content by other clean content never changes the verdict, whatever follows the region: comments, escapes, more statements and unclosed regions included. |
| QueryGuard.QuotedContentNeverAdmits | internal/database/mysql/mysql.go:479-502 | No content of a quoted region makes a refused text acceptable, or the reverse. |
| QueryGuard.Scan | internal/database/mysql/mysql.go:467-512 | The index loop finds the words or the first lexical refusal. |
| QueryGuard.SkipRegion | internal/database/mysql/mysql.go:483-500 | The inner loop stops behind the closing quote and treats a doubled quote as content. |
| Viewport.Screen.Clamp | internal/tui/model.go:430-461 | Afterwards every selection lies in its list and window, the left edge is the leftmost from which the selected column fits, and a clamped view is left alone. |
| Viewport.Screen.ClampLines | internal/tui/model.go:431-447 | The vertical half. |
| Viewport.ScrolledIsNearest | internal/tui/model.go:434-447 | A window scrolls no further than needed to show the selection. |
| Viewport.BoundIsNearest | internal/tui/model.go:463-463 | A selection is moved into its list by the shortest way. |
| Viewport.Screen.SettleLeft | internal/tui/model.go:449-457 | The two coupled loops stop at the leftmost edge that shows the selected column. |
| Viewport.LeftmostIsUnique | internal/tui/model.go:448-457 | There is one such edge. |
| Viewport.Screen.ColumnsWidth | internal/tui/view.go:172-178 | The loop sums the widths of the columns in between, clipped at the last column. |
| Viewport.Screen.VisibleColumns | internal/tui/view.go:139-162 | Contiguous columns from the left edge, none narrower than preferred, exactly as wide as the grid, and no further one would fit. |
| Viewport.Screen.Widen | internal/tui/view.go:154-160 | The spare width is handed out completely and evenly, the first columns getting the remainder. |
| Viewport.Screen.SelectionIsVisible | internal/tui/view.go:139-162 | After a clamp the selected column is among the visible ones. |
| Viewport.Screen.HitTest | internal/tui/model.go:552-566 | A position in the grid hits exactly one visible column, and the loop finds it. |
| Viewport.GridFillsWindow | internal/tui/model.go:418-428 | Sidebar and grid together are as wide as the window, except exactly when a narrow window shows only the sidebar. |
| Viewport.FixedSizes | internal/tui/model.go:418-427 | The sidebar is 20 to 28 columns on wide windows, and six lines of the window are frame. |
| ControlServer.GroupCountsGoroutines | internal/control/server.go:162-184 | The wait group counts the accept loop and the running handlers and is never negative. |
| ControlServer.AcceptingGoesOn | internal/control/server.go:164-184 | Until closing or a failing accept the loop goes on accepting. |
| ControlServer.RegisterServesOrRefuses | internal/control/server.go:169-183 | A connection in time is registered, counted and served; a late one is only hung up on. |
| ControlServer.NothingStartsAfterClose | internal/control/server.go:169-174 | Once closed is set no connection is registered and no handler starts. |
| ControlServer.CloseDrains | internal/control/server.go:145-160 | When Close returns nothing runs, every accepted connection is closed and the set is empty, for good. |
| ControlServer.CloseIsNeverStuck | internal/control/server.go:155-155 | While Close waits some goroutine can step. |
| ControlServer.EveryStepIsProgress | internal/control/server.go:155-184 | Whatever step is taken while Close waits lowers the count of remaining steps. |
| ControlServer.WaitIsBounded | internal/control/server.go:155-184 | So in every schedule the wait is no longer than that count. |
| ControlServer.Server.RegisterConnection | internal/control/server.go:169-177 | The accept loop's locked region is the register step. |
| ControlServer.Server.StartClose | internal/control/server.go:147-154 | The locked part of Close hangs up on exactly the registered connections. |
| ControlServer.Server.ForgetConnection | internal/control/server.go:180-180 | A handler's cleanup removes its own connection only. |
| ControlServer.Server.FinishHandler | internal/control/server.go:179-179 | A handler leaves the wait group once. |
| ProfileFile.NoAdditionIsLost | internal/connections/add.go:14-61 | For every interleaving and crash the file is the initial list followed by the saved additions in lock order, without passwords; names stay unique; a process reports success exactly if its addition is in the file. |
| ProfileFile.SuccessIsInFile | internal/connections/add.go:60-60 | A process that reported success finds its profile in the file ever after, name and details as given. |
| ProfileFile.LockExcludes | internal/connections/add.go:37-46 | No two processes are inside the lock together. |
| ProfileFile.AloneIsAdd | internal/connections/add.go:14-61 | The protocol run alone does what one call does. |
| ProfileFile.Disk.Add | internal/connections/add.go:47-60 | Appends exactly the valid, new, resolvable profiles; otherwise the file is untouched. |

## Left out

- Rendering, colours, overlays, help and panel drawing, key maps and text widgets: layout by libraries.
- JSON, the RPC envelope, flags, the command line, environment files and Docker discovery: single checks around libraries.
- Runtime-directory, socket-file and lock-file ownership checks, and removal of the socket when the server has closed: operating-system calls; the lock is taken as an exclusive lock that ends with its process, and rename as atomic.
- Driver, pool, TLS and transactions: a store answers or fails in any way; deadlines, cancellation and timeouts are such failures.
- Profile resolution: its success or failure, and the database name it yields, are inputs.
- Random write identifiers: assumed never to repeat (`Consistency.Fresh`).
- The clock: readings are inputs, and no theorem needs them to increase.
- Password redaction and the wording of statuses and notices, except the ordering notice; statuses are a datatype.
- Revision counters are unbounded here; the code's counter is 64 bits wide.
- Copies of slices in snapshots: snapshots are values here, so aliasing between caller and session is not modelled.
- The part of an operation between two locked regions is one step: it reads and writes only fields that the operation lock protects.
- Cancel only ends a context, so it has no step of its own.
- Application.App.Close: the cancellation of a running operation and the wait for the operation lock, from whose end on it is modelled.
- Application.App.Perform: the "state" and "cancel" actions, which take no lock, are the `Look` step and no step at all.
- Terminal.Model.Accept: the search text, cursor resets, width cache and clamp of the same method are not part of this class; the clamp is in `Viewport`.
- Terminal.Model.CloseModal: the form fields, which closing drops, and focus and scroll positions.
- Terminal.Model.PressEnterInApproval: a write without an expiry time, which the session never stages, is not modelled; scrolling and the reject key are not either.
- Text comparison is exact, byte by byte: collations, and MySQL's coercion of a text to a number, are outside; the numeric reading of a text is one parameter shared by both stores, over real numbers.
- Sql.RoundTrip: the reader covers the SELECT statements that browsing generates and keeps SQL's doubled-quote rule; it is not a reader of all of SQL. Names are sequences of characters, and no column has an empty name.
- Browsing.SqlWalk: a page over 8 MiB, which the store refuses, ends the walk with that error and is not part of it.
- Agreement.StoresAgree: notices differ by design, so they are not compared.
- Collect.CollectRows: failures to obtain column names, types or a row's bytes are the source's one `failed` flag.
- Sorting.SortStable: the library's in-place sort of rows is a stable insertion sort of row positions.
- Demo.Browse: the table lookup and cancellation checks; a numeric cell that cannot be read as a number, which ends the program; a table's column names are taken as distinct, as in the seeded tables.
- Case folding is for ASCII letters only, which is all that the guard and the type names need.
- Viewport.Screen.Clamp: column names are not needed there, only preferred widths of at least 12, which the width cache provides.
- Viewport.Screen.HitTest: the tab bar, the sidebar and the scroll markers of the same click handler.
- ControlServer.CloseDrains: what a handler does while serving, and later callers of Close, which wait for the first.
- ProfileFile.NoAdditionIsLost: a temporary file left behind by a crash; it is never the profiles file.
