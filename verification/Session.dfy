/**
 The application session: what each action does to the operation's private copy of
 the snapshot and to the fields that only the holder of the operation lock touches.
 Every store answer is an input, so a statement for all `Env` is a statement for every
 behaviour of the database, the clock and cancellation.
 */
module Session {
  import opened Wrappers
  import opened Database
  import Text

  const MAX_INT := 0x7FFF_FFFF_FFFF_FFFF
  const MAX_WRITE_BYTES := 0x8_0000
  const WRITE_LIFETIME := 300_000_000_000

  datatype Error =
    | Busy | ApplicationClosed | NameRequired | NameTaken | ContextDone | UnknownConnection
    | NoConnection | RawResults | UnknownTable | BadPageSize | OffsetOverflow | NoTable
    | NoOpener | EmptySql | WritesDisabled | BadSqlSize | WritePending | UnknownAction | NotApprovable | NotPending
    | Failed(message: string)

  datatype Status =
    | Welcome | RowsLoaded(rows: nat) | ListRefreshed | ReloadFailed | QueryReturned(rows: nat)
    | WriteStaged | WriteRejected | Tested(name: string) | ConnectedTo(name: string, loaded: bool)
    | WriteExecuted(affected: int, refreshed: bool)

  datatype Profile = Profile(name: string, details: string)

  datatype PendingWrite = PendingWrite(id: string, connection: string, database: string, sql: string, expires: int)

  datatype Snapshot = Snapshot(
    revision: nat, connection: string, database: string, connections: seq<string>,
    tables: seq<Table>, schema: Schema, browse: BrowseRequest, result: Page,
    busy: bool, error: Option<Error>, status: Status, query: bool,
    pending: Option<PendingWrite>, writesEnabled: bool)

  datatype Action =
    | Connect(connection: string) | Test(connection: string)
    | OpenTable(table: string, filters: seq<Filter>) | SetFilters(filters: seq<Filter>) | ClearFilters
    | Sort(column: string, desc: bool) | PageSize(size: int) | Next | Prev | Refresh
    | Query(sql: string) | Write(sql: string) | Unknown

  /** What happened, in order: calls on numbered store instances and steps of the write protocol. */
  datatype Event =
    | Opened(store: nat, connection: string, database: string)
    | Closed(store: nat)
    | Listed(store: nat, tables: Option<seq<Table>>)
    | Described(store: nat, table: string, schema: Option<Schema>)
    | Browsed(store: nat, request: BrowseRequest, page: Option<Page>)
    | Queried(store: nat, sql: string, page: Option<Page>)
    | Executed(store: nat, sql: string, done: bool)
    | Connected(store: nat)
    | Staged(store: nat, write: PendingWrite, at: int)
    | Approved(id: string, at: int)
    | Declined(id: string)

  /** One answer for every outside call that an operation can make; none makes the same call twice. */
  datatype Env = Env(
    expired: bool, resolved: Result<string, Error>, open: Result<(), Error>,
    tables: Result<seq<Table>, Error>, schema: Result<Schema, Error>, page: Result<Page, Error>,
    queried: Result<Page, Error>, executed: Result<int, Error>, now: int, stagedAt: int, freshId: string)

  /** The fields guarded by the operation lock, the number of stores opened so far and the log. */
  datatype World = World(
    profiles: seq<Profile>, store: Option<nat>, views: map<string, BrowseRequest>, openings: nat, log: seq<Event>)
  {
    function Log(e: Event): World { this.(log := log + [e]) }
  }

  datatype Outcome = Outcome(w: World, s: Snapshot, error: Option<Error>)

  function Finished(w: World, s: Snapshot): Outcome { Outcome(w, s, None) }

  function Refused(w: World, s: Snapshot, e: Error): Outcome { Outcome(w, s, Some(e)) }

  /** What a store answered, as the log remembers it. */
  function Told<T>(answer: Result<T, Error>): Option<T> { if answer.Ok? then Some(answer.value) else None }

  function InitialSnapshot(allowWrites: bool): Snapshot {
    Snapshot(0, "", "", [], [], EMPTY_SCHEMA, NewRequest(100), EMPTY_PAGE, false, None, Welcome, false, None,
             allowWrites)
  }

  predicate KnownProfile(profiles: seq<Profile>, name: string) {
    exists i :: 0 <= i < |profiles| && profiles[i].name == name
  }

  /** The first profile with this name. */
  function FindProfile(profiles: seq<Profile>, name: string): (r: Option<Profile>)
    ensures r.Some? <==> KnownProfile(profiles, name)
    ensures r.Some? ==> r.value.name == name
  {
    if profiles == [] then None
    else if profiles[0].name == name then assert KnownProfile(profiles, name); Some(profiles[0])
    else
      var r := FindProfile(profiles[1..], name);
      assert KnownProfile(profiles[1..], name) ==> KnownProfile(profiles, name) by {
        if i :| 0 <= i < |profiles[1..]| && profiles[1..][i].name == name { assert profiles[i + 1].name == name; }
      }
      assert KnownProfile(profiles, name) ==> KnownProfile(profiles[1..], name) by {
        if i :| 0 <= i < |profiles| && profiles[i].name == name { assert profiles[1..][i - 1].name == name; }
      }
      r
  }

  /** Reads the schema and one page of the browsed table. */
  function LoadPage(w: World, s: Snapshot, env: Env): Outcome
    requires w.store.Some?
  {
    if s.browse.table == "" then Refused(w, s, NoTable)
    else
      var w1 := w.Log(Described(w.store.value, s.browse.table, Told(env.schema)));
      if env.schema.Err? then Refused(w1, s, env.schema.error)
      else if env.page.Err? then Refused(w1.Log(Browsed(w.store.value, s.browse, None)), s, env.page.error)
      else
        Finished(w1.Log(Browsed(w.store.value, s.browse, Some(env.page.value))),
                 s.(schema := env.schema.value, result := env.page.value, query := false,
                    status := RowsLoaded(|env.page.value.rows|)))
  }

  /** The browse settings to use after connecting: the saved view if its table still exists. */
  function RestoreView(views: map<string, BrowseRequest>, name: string, tables: seq<Table>): BrowseRequest {
    var saved := if name in views then views[name] else NewRequest(100);
    var kept := if HasTable(tables, saved.table) then saved else NewRequest(saved.limit);
    if kept.table == "" && |tables| > 0 then kept.(table := tables[0].name) else kept
  }

  function ConnectProfile(w: World, s: Snapshot, p: Profile, test: bool, env: Env): Outcome {
    if env.resolved.Err? then Refused(w, s, env.resolved.error)
    else if env.open.Err? then Refused(w, s, env.open.error)
    else
      var id := w.openings;
      var w1 := w.(openings := id + 1).Log(Opened(id, p.name, env.resolved.value));
      if test then Finished(w1.Log(Closed(id)), s.(status := Tested(p.name)))
      else
        var w2 := w1.Log(Listed(id, Told(env.tables)));
        if env.tables.Err? then Refused(w2.Log(Closed(id)), s, env.tables.error)
        else Switch(w2, s, p, id, env)
  }

  /** Replaces the current store by the newly opened one and shows its first or remembered table. */
  function Switch(w: World, s: Snapshot, p: Profile, id: nat, env: Env): Outcome
    requires env.resolved.Ok? && env.tables.Ok?
  {
    var w1 := if w.store.Some?
              then w.(views := w.views[s.connection := s.browse]).Log(Closed(w.store.value))
              else w;
    var w2 := w1.(store := Some(id)).Log(Connected(id));
    var s2 := s.(connection := p.name, database := env.resolved.value, tables := env.tables.value,
                 schema := EMPTY_SCHEMA, result := EMPTY_PAGE, query := false, pending := None,
                 browse := RestoreView(w1.views, p.name, env.tables.value),
                 status := ConnectedTo(p.name, true));
    if s2.browse.table == "" then Finished(w2, s2)
    else
      var o := LoadPage(w2, s2, env);
      if o.error.Some?
      then Finished(o.w, s2.(status := ConnectedTo(p.name, false), error := o.error))
      else o
  }

  function RefreshList(w: World, s: Snapshot, env: Env): Outcome
    requires w.store.Some?
  {
    var w1 := w.Log(Listed(w.store.value, Told(env.tables)));
    if env.tables.Err? then Refused(w1, s, env.tables.error)
    else
      var s1 := s.(tables := env.tables.value);
      if !HasTable(s1.tables, s1.browse.table)
      then Finished(w1, s1.(browse := NewRequest(100), schema := EMPTY_SCHEMA, result := EMPTY_PAGE,
                            query := false, status := ListRefreshed))
      else
        var o := LoadPage(w1, s1, env);
        if o.error.Some?
        then Finished(o.w, s1.(result := EMPTY_PAGE, query := false, status := ReloadFailed, error := o.error))
        else o
  }

  function RunQuery(w: World, s: Snapshot, sql: string, env: Env): Outcome
    requires w.store.Some?
  {
    if Text.Blank(sql) then Refused(w, s, EmptySql)
    else if env.queried.Err? then Refused(w.Log(Queried(w.store.value, sql, None)), s, env.queried.error)
    else
      Finished(w.Log(Queried(w.store.value, sql, Some(env.queried.value))),
               s.(result := env.queried.value, query := true, status := QueryReturned(|env.queried.value.rows|)))
  }

  function StageWrite(w: World, s: Snapshot, sql: string, env: Env): Outcome
    requires w.store.Some?
  {
    if !s.writesEnabled then Refused(w, s, WritesDisabled)
    else if Text.Blank(sql) || |sql| > MAX_WRITE_BYTES then Refused(w, s, BadSqlSize)
    else if s.pending.Some? && env.now < s.pending.value.expires then Refused(w, s, WritePending)
    else
      var p := PendingWrite(env.freshId, s.connection, s.database, sql, env.stagedAt + WRITE_LIFETIME);
      Finished(w.Log(Staged(w.store.value, p, env.now)), s.(pending := Some(p), status := WriteStaged))
  }

  /** The browse settings that a table action asks for. */
  function Edit(s: Snapshot, a: Action): Result<BrowseRequest, Error> {
    match a
    case OpenTable(table, filters) =>
      if HasTable(s.tables, table) then Ok(BrowseRequest(table, filters, "", false, s.browse.limit, 0))
      else Err(UnknownTable)
    case SetFilters(filters) => Ok(s.browse.(filters := filters, offset := 0))
    case ClearFilters => Ok(s.browse.(filters := [], offset := 0))
    case Sort(column, desc) => Ok(s.browse.(sort := column, desc := desc, offset := 0))
    case PageSize(size) =>
      if size < 1 || size > 1000 then Err(BadPageSize) else Ok(s.browse.(limit := size, offset := 0))
    case Next =>
      if s.browse.offset > MAX_INT - s.browse.limit then Err(OffsetOverflow)
      else Ok(s.browse.(offset := s.browse.offset + s.browse.limit))
    case Prev =>
      Ok(s.browse.(offset := if s.browse.offset < s.browse.limit then 0 else s.browse.offset - s.browse.limit))
    case _ => Err(UnknownAction)
  }

  predicate NeedsTableMode(a: Action) {
    a.SetFilters? || a.ClearFilters? || a.Sort? || a.PageSize? || a.Next? || a.Prev?
  }

  function Perform(w: World, s: Snapshot, a: Action, env: Env): Outcome {
    if env.expired then Refused(w, s, ContextDone)
    else if a.Connect? || a.Test? then
      var p := FindProfile(w.profiles, a.connection);
      if p.None? then Refused(w, s, UnknownConnection) else ConnectProfile(w, s, p.value, a.Test?, env)
    else if w.store.None? then Refused(w, s, NoConnection)
    else if s.query && NeedsTableMode(a) then Refused(w, s, RawResults)
    else
      if a.Refresh? then RefreshList(w, s, env)
      else if a.Query? then RunQuery(w, s, a.sql, env)
      else if a.Write? then StageWrite(w, s, a.sql, env)
      else if a.Next? && !s.result.hasMore then Finished(w, s)
      else
        var e := Edit(s, a);
        if e.Err? then Refused(w, s, e.error) else LoadPage(w, s.(browse := e.value), env)
  }

  function SetUp(w: World, s: Snapshot, p: Profile, test: bool, env: Env): Outcome {
    if Text.Blank(p.name) then Refused(w, s, NameRequired)
    else if KnownProfile(w.profiles, p.name) then Refused(w, s, NameTaken)
    else
      var o := ConnectProfile(w, s, p, test, env);
      if o.error.None? && !test
      then Finished(o.w.(profiles := o.w.profiles + [p]), o.s.(connections := o.s.connections + [p.name]))
      else o
  }

  /** The check at the start of an approval, against the operation's snapshot and the clock. */
  predicate Approvable(s: Snapshot, id: string, now: int) {
    && s.pending.Some? && s.pending.value.id == id && s.writesEnabled
    && s.pending.value.connection == s.connection && s.pending.value.database == s.database
    && now <= s.pending.value.expires
  }

  /** Executes a consumed write and reloads what is on display. */
  function RunWrite(w: World, s: Snapshot, sql: string, env: Env): Outcome
    requires w.store.Some?
  {
    var w1 := w.Log(Executed(w.store.value, sql, env.executed.Ok?));
    if env.executed.Err? then Refused(w1, s, env.executed.error)
    else
      var w2 := w1.Log(Listed(w.store.value, Told(env.tables)));
      if env.tables.Err? then
        Finished(w2, s.(result := EMPTY_PAGE, status := WriteExecuted(env.executed.value, false)))
      else
        var s1 := s.(tables := env.tables.value);
        if !HasTable(s1.tables, s1.browse.table) then
          Finished(w2, s1.(browse := NewRequest(100), schema := EMPTY_SCHEMA, result := EMPTY_PAGE,
                           query := false, status := WriteExecuted(env.executed.value, true)))
        else
          var o := LoadPage(w2, s1, env);
          if o.error.Some?
          then Finished(o.w, s1.(result := EMPTY_PAGE, status := WriteExecuted(env.executed.value, false)))
          else Finished(o.w, o.s.(status := WriteExecuted(env.executed.value, true)))
  }
}
