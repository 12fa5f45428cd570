/** What each action does for the person who asked for it, action by action. */
module Actions {
  import opened Wrappers
  import opened Database
  import opened Session
  import opened Comparison
  import opened BrowseCompiler
  import opened Demo
  import Browsing
  import Meaning
  import Text

  predicate TableAction(a: Action) {
    a.OpenTable? || a.SetFilters? || a.ClearFilters? || a.Sort? || a.PageSize? || a.Next? || a.Prev?
  }

  /** What the action asks for; settings that it does not name stay as they were. */
  ghost predicate AsksFor(a: Action, b: BrowseRequest, q: BrowseRequest) {
    match a
    case OpenTable(table, filters) =>
      && q.table == table && q.filters == filters && q.sort == "" && !q.desc
      && q.limit == b.limit && q.offset == 0
    case SetFilters(filters) =>
      && q.filters == filters && q.offset == 0
      && q.table == b.table && q.sort == b.sort && q.desc == b.desc && q.limit == b.limit
    case ClearFilters =>
      && q.filters == [] && q.offset == 0
      && q.table == b.table && q.sort == b.sort && q.desc == b.desc && q.limit == b.limit
    case Sort(column, desc) =>
      && q.sort == column && q.desc == desc && q.offset == 0
      && q.table == b.table && q.filters == b.filters && q.limit == b.limit
    case PageSize(size) =>
      && q.limit == size && q.offset == 0
      && q.table == b.table && q.filters == b.filters && q.sort == b.sort && q.desc == b.desc
    case Next =>
      && q.offset == b.offset + b.limit && q.limit == b.limit
      && q.table == b.table && q.filters == b.filters && q.sort == b.sort && q.desc == b.desc
    case Prev =>
      && q.offset == (if b.offset < b.limit then 0 else b.offset - b.limit) && q.limit == b.limit
      && q.table == b.table && q.filters == b.filters && q.sort == b.sort && q.desc == b.desc
    case _ => false
  }

  /** Table actions that are refused, or have nothing to do, before the store is asked anything. */
  ghost predicate Idle(s: Snapshot, a: Action) {
    || (s.query && !a.OpenTable?)
    || (a.OpenTable? && !HasTable(s.tables, a.table))
    || (a.PageSize? && !(1 <= a.size <= 1000))
    || (a.Next? && (!s.result.hasMore || s.browse.offset + s.browse.limit > 0x7FFF_FFFF_FFFF_FFFF))
    || (!a.OpenTable? && s.browse.table == "")
    || (a.OpenTable? && a.table == "")
  }

  /** A table action asks the store for what it names, and shows the answer; or it changes nothing. */
  lemma TableActionAsks(w: World, s: Snapshot, a: Action, env: Env)
    requires w.store.Some? && !env.expired && TableAction(a)
    ensures var o, n := Perform(w, s, a, env), |w.log|;
            && (Idle(s, a) ==> o.w == w)
            && (Idle(s, a) && !(a.Next? && !s.query && !s.result.hasMore) ==> o.error.Some?)
            && (!Idle(s, a) && env.schema.Ok? && env.page.Ok? ==>
                  && o.error.None?
                  && o.w == w.(log := o.w.log) && |o.w.log| == n + 2 && o.w.log[..n] == w.log
                  && o.w.log[n] == Described(w.store.value, o.s.browse.table, Some(o.s.schema))
                  && o.w.log[n + 1] == Browsed(w.store.value, o.s.browse, Some(o.s.result))
                  && AsksFor(a, s.browse, o.s.browse) && o.s.schema == env.schema.value && o.s.result == env.page.value
                  && o.s == s.(browse := o.s.browse, schema := o.s.schema, result := o.s.result, query := false,
                               status := RowsLoaded(|o.s.result.rows|)))
  {
  }

  /** Why an action is refused before the store is asked. */
  lemma RefusalsAreNamed(w: World, s: Snapshot, a: Action, env: Env)
    ensures env.expired ==> Perform(w, s, a, env) == Outcome(w, s, Some(ContextDone))
    ensures !env.expired && w.store.None? && !a.Connect? && !a.Test? ==>
              Perform(w, s, a, env) == Outcome(w, s, Some(NoConnection))
    ensures !env.expired && (a.Connect? || a.Test?) && !KnownProfile(w.profiles, a.connection) ==>
              Perform(w, s, a, env) == Outcome(w, s, Some(UnknownConnection))
    ensures !env.expired && w.store.Some? ==>
              && (s.query && TableAction(a) && !a.OpenTable? ==>
                    Perform(w, s, a, env) == Outcome(w, s, Some(RawResults)))
              && (a.OpenTable? && !HasTable(s.tables, a.table) ==>
                    Perform(w, s, a, env) == Outcome(w, s, Some(UnknownTable)))
              && (a.PageSize? && !s.query && !(1 <= a.size <= 1000) ==>
                    Perform(w, s, a, env) == Outcome(w, s, Some(BadPageSize)))
              && (a.Next? && !s.query && !s.result.hasMore ==> Perform(w, s, a, env) == Outcome(w, s, None))
              && (a.Unknown? ==> Perform(w, s, a, env).error == Some(UnknownAction))
  {
    hide ConnectProfile, LoadPage, RefreshList, RunQuery, StageWrite;
  }

  /** When connecting and setting up succeed. */
  lemma ConnectSucceeds(w: World, s: Snapshot, name: string, p: Profile, test: bool, env: Env)
    ensures Perform(w, s, Connect(name), env).error.None? <==>
            && !env.expired && KnownProfile(w.profiles, name)
            && env.resolved.Ok? && env.open.Ok? && env.tables.Ok?
    ensures SetUp(w, s, p, test, env).error.None? <==>
            && !Text.Blank(p.name) && !KnownProfile(w.profiles, p.name)
            && env.resolved.Ok? && env.open.Ok? && (test || env.tables.Ok?)
  {
    hide ConnectProfile, Perform;
    if !env.expired {
      ConnectIs(w, s, name, env);
    } else {
      RefusalsAreNamed(w, s, Connect(name), env);
    }
    var found := FindProfile(w.profiles, name);
    if found.Some? {
      ProfileConnects(w, s, found.value, false, env);
    }
    ProfileConnects(w, s, p, test, env);
  }

  lemma ProfileConnects(w: World, s: Snapshot, p: Profile, test: bool, env: Env)
    ensures ConnectProfile(w, s, p, test, env).error.None? <==>
            env.resolved.Ok? && env.open.Ok? && (test || env.tables.Ok?)
  {
    hide RestoreView;
  }

  /**
   Over the in-memory store: after an action that opens, filters, sorts or resizes, the first page
   is shown of exactly the rows that the action's settings keep, in the order that they ask for.
   */
  lemma TableActionShows(w: World, s: Snapshot, a: Action, env: Env, t: DemoTable, num: Reading) returns (p: seq<nat>)
    requires w.store.Some? && !env.expired && env.schema.Ok? && Shaped(t) && Readable(t, num)
    requires TableAction(a) && !a.Next? && !a.Prev? && !Idle(s, a)
    requires env.page.Ok? && env.page == Browsing.DirectAnswers(t, num)(Perform(w, s, a, env).s.browse)
    ensures var o := Perform(w, s, a, env);
            && o.error.None? && AsksFor(a, s.browse, o.s.browse) && o.s.browse.offset == 0
            && Meaning.Lists(t, o.s.browse, num, p)
            && o.s.result.columns == Names(t.schema.columns)
            && |o.s.result.rows| == (if |p| <= o.s.browse.limit then |p| else o.s.browse.limit)
            && (forall i :: 0 <= i < |o.s.result.rows| ==> o.s.result.rows[i] == t.rows[p[i]])
            && (o.s.result.hasMore <==> |p| > o.s.browse.limit)
  {
    hide Perform, Idle, BrowseResult, Meaning.Lists;
    TableActionAsks(w, s, a, env);
    var o := Perform(w, s, a, env);
    p := Meaning.PageMeans(t, o.s.browse, num, o.s.result);
  }

  /** A query reaches the store as it was typed, and its answer is what is shown. */
  lemma QueryShows(w: World, s: Snapshot, sql: string, env: Env)
    requires w.store.Some? && !env.expired
    ensures var o := Perform(w, s, Query(sql), env);
            if Text.Blank(sql) then o.error.Some? && o.w == w
            else
              && o.w == w.Log(Queried(w.store.value, sql, Told(env.queried)))
              && (env.queried.Ok? ==>
                    && o.error.None?
                    && o.s == s.(result := env.queried.value, query := true,
                                 status := QueryReturned(|env.queried.value.rows|)))
              && (env.queried.Err? ==> o.error == Some(env.queried.error))
  {
  }

  /** Exactly when a write is staged, and for five minutes. */
  lemma WriteIsStaged(w: World, s: Snapshot, sql: string, env: Env)
    requires w.store.Some? && !env.expired
    ensures var o := Perform(w, s, Write(sql), env);
            && (o.error.None? <==>
                  && s.writesEnabled && !Text.Blank(sql) && |sql| <= 524288
                  && (s.pending.Some? ==> env.now >= s.pending.value.expires))
            && (o.error.Some? ==> o.w == w)
            && (o.error.None? ==>
                  && o.s == s.(pending := o.s.pending, status := WriteStaged) && o.s.pending.Some?
                  && o.s.pending.value.sql == sql && o.s.pending.value.id == env.freshId
                  && o.s.pending.value.connection == s.connection && o.s.pending.value.database == s.database
                  && o.s.pending.value.expires == env.stagedAt + 5 * 60 * 1_000_000_000
                  && o.w == w.Log(Staged(w.store.value, o.s.pending.value, env.now)))
  {
  }

  lemma ConnectIs(w: World, s: Snapshot, name: string, env: Env)
    requires !env.expired
    ensures var p := FindProfile(w.profiles, name);
            if p.Some?
            then p.value.name == name && Perform(w, s, Connect(name), env) == ConnectProfile(w, s, p.value, false, env)
            else Perform(w, s, Connect(name), env).error.Some?
  {
    hide ConnectProfile;
  }

  /** A connect that succeeds shows the named connection, its database and its tables, and no pending write. */
  lemma ConnectShows(w: World, s: Snapshot, name: string, env: Env)
    requires !env.expired && Perform(w, s, Connect(name), env).error.None?
    ensures env.resolved.Ok? && env.open.Ok? && env.tables.Ok? && KnownProfile(w.profiles, name)
    ensures var o := Perform(w, s, Connect(name), env);
            && o.s.connection == name && o.s.database == env.resolved.value && o.s.tables == env.tables.value
            && o.s.pending.None? && !o.s.query && o.w.store == Some(w.openings) && o.w.openings == w.openings + 1
            && Opened(w.openings, name, env.resolved.value) in o.w.log
            && o.s.connections == s.connections && o.w.profiles == w.profiles
    ensures var o := Perform(w, s, Connect(name), env);
            if o.s.browse.table == "" then o.s.result == EMPTY_PAGE && o.s.schema == EMPTY_SCHEMA
            else if env.schema.Ok? && env.page.Ok?
            then o.s.result == env.page.value && o.s.schema == env.schema.value && o.s.error == s.error
            else && o.s.result == EMPTY_PAGE && o.s.schema == EMPTY_SCHEMA && o.s.error.Some?
                 && o.s.status == ConnectedTo(name, false)
  {
    hide RestoreView, Perform;
    ConnectIs(w, s, name, env);
  }

  lemma ConnectBrowses(w: World, s: Snapshot, p: Profile, env: Env)
    requires ConnectProfile(w, s, p, false, env).error.None?
    ensures env.tables.Ok?
    ensures ConnectProfile(w, s, p, false, env).s.browse ==
            RestoreView(if w.store.Some? then w.views[s.connection := s.browse] else w.views, p.name, env.tables.value)
  {
    hide RestoreView;
  }

  /** Without a remembered table, the first table is shown, without filters, at the remembered page size. */
  lemma ConnectFallsBack(w: World, s: Snapshot, name: string, env: Env)
    requires !env.expired && Perform(w, s, Connect(name), env).error.None? && env.tables.Ok?
    requires w.store.None? || s.connection != name
    requires name in w.views ==> !HasTable(env.tables.value, w.views[name].table)
    ensures var o := Perform(w, s, Connect(name), env);
            && o.s.browse.filters == [] && o.s.browse.sort == "" && !o.s.browse.desc && o.s.browse.offset == 0
            && o.s.browse.limit == (if name in w.views then w.views[name].limit else 100)
            && o.s.browse.table == if env.tables.value == [] then "" else env.tables.value[0].name
  {
    hide Perform, ConnectProfile;
    ConnectIs(w, s, name, env);
    ConnectBrowses(w, s, FindProfile(w.profiles, name).value, env);
    assert env.tables.value != [] ==> HasTable(env.tables.value, env.tables.value[0].name);
  }

  /** A test opens a store, closes it and changes nothing else. */
  lemma TestChangesNothing(w: World, s: Snapshot, name: string, env: Env)
    requires !env.expired
    ensures var o := Perform(w, s, Test(name), env);
            && (o.error.None? <==> KnownProfile(w.profiles, name) && env.resolved.Ok? && env.open.Ok?)
            && o.s == s.(status := if o.error.None? then Tested(name) else s.status)
            && o.w == w.(openings := o.w.openings, log := o.w.log)
            && (o.error.Some? ==> o.w == w)
            && (o.error.None? ==>
                  o.w.log == w.log + [Opened(w.openings, name, env.resolved.value), Event.Closed(w.openings)])
  {
  }

  /** The displayed table is still listed, and the store answers for its schema and its page. */
  ghost predicate PageAnswered(s: Snapshot, env: Env) {
    && env.tables.Ok? && HasTable(env.tables.value, s.browse.table) && s.browse.table != ""
    && env.schema.Ok? && env.page.Ok?
  }

  /** A refresh replaces the table list and, while the table is still there, reads its page again. */
  lemma RefreshShows(w: World, s: Snapshot, env: Env)
    requires w.store.Some? && !env.expired
    ensures var o := Perform(w, s, Refresh, env);
            && (o.error.None? <==> env.tables.Ok?)
            && (env.tables.Ok? ==>
                  && o.s.tables == env.tables.value && o.s.pending == s.pending && !o.s.query
                  && (HasTable(env.tables.value, s.browse.table) ==> o.s.browse == s.browse)
                  && (PageAnswered(s, env) ==> o.s.result == env.page.value && o.s.schema == env.schema.value)
                  && (!HasTable(env.tables.value, s.browse.table) ==>
                        && o.s.browse == BrowseRequest("", [], "", false, 100, 0)
                        && o.s.result == EMPTY_PAGE && o.s.schema == EMPTY_SCHEMA))
  {
  }

  /** A successful write is followed by a fresh table list and, where that succeeds, a fresh page. */
  lemma WriteReloads(w: World, s: Snapshot, sql: string, env: Env)
    requires w.store.Some?
    ensures var o := RunWrite(w, s, sql, env);
            && |o.w.log| > |w.log| && o.w.log[|w.log|] == Executed(w.store.value, sql, env.executed.Ok?)
            && (o.error.None? <==> env.executed.Ok?)
            && (env.executed.Ok? && env.tables.Ok? ==>
                  && o.s.tables == env.tables.value
                  && (HasTable(env.tables.value, s.browse.table) ==> o.s.browse == s.browse)
                  && (PageAnswered(s, env) ==>
                        o.s.result == env.page.value && o.s.schema == env.schema.value && !o.s.query)
                  && (!HasTable(env.tables.value, s.browse.table) ==>
                        o.s.browse == BrowseRequest("", [], "", false, 100, 0) && o.s.result == EMPTY_PAGE))
            && (env.executed.Ok? ==>
                  o.s.status == WriteExecuted(env.executed.value, env.tables.Ok? &&
                    (!HasTable(env.tables.value, s.browse.table) || PageAnswered(s, env))))
  {
  }
}
