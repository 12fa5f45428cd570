/**
 The application object: the methods of the session, field by field, proved against the
 step functions of `Runs` and the operation functions of `Session`.
 */
module Application {
  import opened Wrappers
  import opened Database
  import opened Session
  import opened Consistency
  import opened Runs
  import Text

  /** A channel of capacity one. Sending to a full channel would block and to a closed one would panic. */
  class Feed {
    var slot: Option<Snapshot>
    var closed: bool
    ghost var delivered: seq<Snapshot>

    constructor ()
      ensures slot == None && !closed && delivered == []
    {
      slot, closed, delivered := None, false, [];
    }

    method Send(s: Snapshot)
      requires !closed && slot.None?
      modifies this
      ensures slot == Some(s) && closed == old(closed) && delivered == old(delivered)
    {
      slot := Some(s);
    }

    /** A receive that gives up when the channel is empty. */
    method TryReceive() returns (r: Option<Snapshot>)
      modifies this
      ensures r == old(slot) && slot == None && closed == old(closed) && delivered == old(delivered)
    {
      r := slot;
      slot := None;
    }

    /** The receive of the feed's consumer. */
    method Receive() returns (s: Snapshot)
      requires slot.Some?
      modifies this
      ensures s == old(slot).value && slot == None && closed == old(closed)
      ensures delivered == old(delivered) + [s]
    {
      s := slot.value;
      slot := None;
      delivered := delivered + [s];
    }

    method Shut()
      requires !closed
      modifies this
      ensures closed && slot == old(slot) && delivered == old(delivered)
    {
      closed := true;
    }
  }

  class App {
    var held: bool
    var state: Snapshot
    var profiles: seq<Profile>
    var store: Option<nat>
    var views: map<string, BrowseRequest>
    var cancel: bool
    var closed: bool
    const events: Feed

    var openings: nat
    ghost var log: seq<Event>
    ghost var flight: Flight

    ghost function Locked(): World
      reads this
    {
      World(profiles, store, views, openings, log)
    }

    ghost function Abs(): State
      reads this, events
    {
      State(state, Locked(), closed, flight, events.slot, events.delivered)
    }

    ghost predicate Valid()
      reads this, events
    {
      && Inv(Abs())
      && (held <==> !flight.Idle?) && (cancel <==> held)
      && (closed <==> events.closed)
    }

    constructor (allowWrites: bool)
      ensures Valid() && fresh(events) && Abs() == Initial(allowWrites)
      ensures state.writesEnabled == allowWrites && state.pending == None && !closed && profiles == []
    {
      held, state, profiles, store, views := false, InitialSnapshot(allowWrites), [], None, map[];
      cancel, closed, openings, log, flight := false, false, 0, [], Idle;
      events := new Feed();
      new;
      InitialOk(allowWrites);
    }

    method PublishLocked()
      requires !events.closed
      modifies this`state, events
      ensures Abs() == Publish(old(Abs())) && !events.closed
    {
      state := state.(revision := state.revision + 1);
      var unread := events.TryReceive();
      events.Send(state);
    }

    method FindName(name: string) returns (r: Option<Profile>)
      ensures r == FindProfile(profiles, name)
    {
      r := None;
      var i := 0;
      assert profiles[i..] == profiles;
      while i < |profiles|
        invariant 0 <= i <= |profiles|
        invariant FindProfile(profiles, name) == FindProfile(profiles[i..], name)
      {
        if profiles[i].name == name {
          r := Some(profiles[i]);
          return;
        }
        assert profiles[i..][1..] == profiles[i + 1..];
        i := i + 1;
      }
    }

    method AddProfile(ghost who: nat, p: Profile) returns (err: Option<Error>)
      requires Valid()
      modifies this, events
      ensures Valid()
      ensures old(held) ==> Abs() == old(Abs()) && err == Some(Error.Busy)
      ensures !old(held) ==> Abs() == AddProfileStep(old(Abs()), p)
      ensures !old(held) ==>
                (err.None? <==> !old(closed) && !Text.Blank(p.name) && !KnownProfile(old(profiles), p.name))
    {
      hide Inv;
      if held { return Some(Error.Busy); }
      if closed { return Some(ApplicationClosed); }
      if Text.Blank(p.name) { return Some(NameRequired); }
      var known := FindName(p.name);
      if known.Some? { return Some(NameTaken); }
      OtherStepsKeepInv(Abs(), Label.AddProfile(who, p));
      profiles := profiles + [p];
      state := state.(connections := state.connections + [p.name]);
      PublishLocked();
      err := None;
    }

    /** Takes the operation lock if it is free and hands out a private snapshot. */
    method BeginOperation(ghost who: nat, ghost call: Call) returns (s: Snapshot, err: Option<Error>)
      requires Valid()
      modifies this, events
      ensures Valid() && s == state
      ensures old(held) ==> Abs() == old(Abs()) && err == Some(Error.Busy)
      ensures !old(held) && old(closed) ==> Abs() == old(Abs()) && err == Some(ApplicationClosed)
      ensures !old(held) && !old(closed) ==> err == None && Abs() == BeginStep(old(Abs()), who, call)
    {
      hide Inv;
      if held { return state, Some(Error.Busy); }
      held := true;
      if closed {
        held := false;
        return state, Some(ApplicationClosed);
      }
      OperationKeepsInv(Abs(), Begin(who, call));
      cancel := true;
      state := state.(busy := true, error := None);
      PublishLocked();
      flight := Running(who, call, state);
      s, err := state, None;
    }

    /** Commits the operation's snapshot, or only its error, and releases the operation lock. */
    method FinishOperation(s: Snapshot, err: Option<Error>) returns (out: Snapshot)
      requires Valid() && held && flight.Done? && flight.s == s && flight.error == err
      modifies this, events
      ensures Valid() && Abs() == FinishStep(old(Abs())) && out == state
    {
      hide Inv;
      OpenInFlight(Abs());
      OperationKeepsInv(Abs(), Runs.Finish(flight.who));
      cancel := false;
      if err.Some? {
        state := state.(error := err);
      } else {
        state := s.(revision := state.revision);
      }
      state := state.(busy := false);
      PublishLocked();
      out := state;
      held := false;
      flight := Idle;
    }

    method Dispatch(ghost who: nat, action: Action, env: Env) returns (out: Snapshot, err: Option<Error>)
      requires Valid() && Fresh(Locked(), env)
      modifies this, events
      ensures Valid() && out == state
      ensures old(held) ==> Abs() == old(Abs()) && err == Some(Error.Busy)
      ensures !old(held) && old(closed) ==> Abs() == old(Abs()) && err == Some(ApplicationClosed)
      ensures !old(held) && !old(closed) ==>
                var worked := WorkStep(BeginStep(old(Abs()), who, Act(action)), env);
                Abs() == FinishStep(worked) && err == worked.flight.error
    {
      hide Inv, Session.Perform;
      var s;
      s, err := BeginOperation(who, Act(action));
      if err.Some? { return s, err; }
      OperationKeepsInv(Abs(), Work(who, env));
      s, err := Perform(s, action, env);
      flight := Done(who, s, err);
      out := FinishOperation(s, err);
    }

    method Setup(ghost who: nat, p: Profile, test: bool, env: Env) returns (out: Snapshot, err: Option<Error>)
      requires Valid() && Fresh(Locked(), env)
      modifies this, events
      ensures Valid() && out == state
      ensures old(held) ==> Abs() == old(Abs()) && err == Some(Error.Busy)
      ensures !old(held) && old(closed) ==> Abs() == old(Abs()) && err == Some(ApplicationClosed)
      ensures !old(held) && !old(closed) ==>
                var worked := WorkStep(BeginStep(old(Abs()), who, Call.Setup(p, test)), env);
                Abs() == FinishStep(worked) && err == worked.flight.error
    {
      hide Inv, ConnectProfile;
      var s;
      s, err := BeginOperation(who, Call.Setup(p, test));
      if err.Some? { return s, err; }
      OperationKeepsInv(Abs(), Work(who, env));
      var known := FindName(p.name);
      if Text.Blank(p.name) {
        err := Some(NameRequired);
      } else if known.Some? {
        err := Some(NameTaken);
      } else {
        s, err := ConnectTo(s, p, test, env);
        if err.None? && !test {
          profiles := profiles + [p];
          s := s.(connections := s.connections + [p.name]);
        }
      }
      flight := Done(who, s, err);
      out := FinishOperation(s, err);
    }

    method Perform(s0: Snapshot, action: Action, env: Env) returns (s: Snapshot, err: Option<Error>)
      modifies this`store, this`views, this`openings, this`log
      ensures Outcome(Locked(), s, err) == Session.Perform(old(Locked()), s0, action, env)
    {
      hide ConnectProfile, RefreshList, LoadPage, FindProfile, Text.Blank, HasTable;
      s, err := s0, None;
      if env.expired { return s, Some(ContextDone); }
      if action.Connect? || action.Test? {
        var profile := FindName(action.connection);
        if profile.None? { return s, Some(UnknownConnection); }
        s, err := ConnectTo(s, profile.value, action.Test?, env);
        return;
      }
      if store.None? { return s, Some(NoConnection); }
      if s.query && NeedsTableMode(action) { return s, Some(RawResults); }
      match action {
        case OpenTable(table, filters) =>
          var listed := Lists(s.tables, table);
          if !listed { return s, Some(UnknownTable); }
          s := s.(browse := BrowseRequest(table, filters, "", false, s.browse.limit, 0));
        case SetFilters(filters) => s := s.(browse := s.browse.(filters := filters, offset := 0));
        case ClearFilters => s := s.(browse := s.browse.(filters := [], offset := 0));
        case Sort(column, desc) => s := s.(browse := s.browse.(sort := column, desc := desc, offset := 0));
        case PageSize(size) =>
          if size < 1 || size > 1000 { return s, Some(BadPageSize); }
          s := s.(browse := s.browse.(limit := size, offset := 0));
        case Next =>
          if !s.result.hasMore { return s, None; }
          if s.browse.offset > MAX_INT - s.browse.limit { return s, Some(OffsetOverflow); }
          s := s.(browse := s.browse.(offset := s.browse.offset + s.browse.limit));
        case Prev =>
          s := s.(browse := s.browse.(offset :=
                    if s.browse.offset < s.browse.limit then 0 else s.browse.offset - s.browse.limit));
        case Refresh =>
          s, err := Reload(s, env);
          return;
        case Query(sql) =>
          if Text.Blank(sql) { return s, Some(EmptySql); }
          log := log + [Queried(store.value, sql, if env.queried.Ok? then Some(env.queried.value) else None)];
          if env.queried.Err? { return s, Some(env.queried.error); }
          s := s.(result := env.queried.value, query := true, status := QueryReturned(|env.queried.value.rows|));
          return s, None;
        case Write(sql) =>
          if !s.writesEnabled { return s, Some(WritesDisabled); }
          if Text.Blank(sql) || |sql| > MAX_WRITE_BYTES { return s, Some(BadSqlSize); }
          if s.pending.Some? && env.now < s.pending.value.expires { return s, Some(WritePending); }
          var p := PendingWrite(env.freshId, s.connection, s.database, sql, env.stagedAt + WRITE_LIFETIME);
          log := log + [Staged(store.value, p, env.now)];
          return s.(pending := Some(p), status := WriteStaged), None;
        case _ => return s, Some(UnknownAction);
      }
      s, err := Browse(s, env);
    }

    method Lists(tables: seq<Table>, name: string) returns (found: bool)
      ensures found == HasTable(tables, name)
    {
      for i := 0 to |tables|
        invariant forall k :: 0 <= k < i ==> tables[k].name != name
      {
        if tables[i].name == name { return true; }
      }
      return false;
    }

    method ListTables(id: nat, env: Env) returns (r: Result<seq<Table>, Error>)
      modifies this`log
      ensures log == old(log) + [Listed(id, Told(env.tables))] && r == env.tables
    {
      log := log + [Listed(id, Told(env.tables))];
      r := env.tables;
    }

    method Reload(s0: Snapshot, env: Env) returns (s: Snapshot, err: Option<Error>)
      requires store.Some?
      modifies this`log
      ensures Outcome(Locked(), s, err) == RefreshList(old(Locked()), s0, env)
    {
      s, err := s0, None;
      var tables := ListTables(store.value, env);
      if tables.Err? { return s, Some(tables.error); }
      s := s.(tables := tables.value);
      var listed := Lists(s.tables, s.browse.table);
      if !listed {
        return s.(browse := NewRequest(100), schema := EMPTY_SCHEMA, result := EMPTY_PAGE, query := false,
                  status := ListRefreshed), None;
      }
      var loaded, failure := Browse(s, env);
      if failure.Some? {
        return s.(result := EMPTY_PAGE, query := false, status := ReloadFailed, error := failure), None;
      }
      s := loaded;
    }

    method Browse(s0: Snapshot, env: Env) returns (s: Snapshot, err: Option<Error>)
      requires store.Some?
      modifies this`log
      ensures Outcome(Locked(), s, err) == LoadPage(old(Locked()), s0, env)
    {
      s, err := s0, None;
      if s.browse.table == "" { return s, Some(NoTable); }
      log := log + [Described(store.value, s.browse.table, Told(env.schema))];
      if env.schema.Err? { return s, Some(env.schema.error); }
      log := log + [Browsed(store.value, s.browse, if env.page.Ok? then Some(env.page.value) else None)];
      if env.page.Err? { return s, Some(env.page.error); }
      s := s.(schema := env.schema.value);
      s := s.(result := env.page.value);
      s := s.(query := false);
      s := s.(status := RowsLoaded(|s.result.rows|));
    }

    method ConnectTo(s0: Snapshot, profile: Profile, test: bool, env: Env) returns (s: Snapshot, err: Option<Error>)
      modifies this`store, this`views, this`openings, this`log
      ensures Outcome(Locked(), s, err) == ConnectProfile(old(Locked()), s0, profile, test, env)
    {
      hide Switch;
      s, err := s0, None;
      if env.resolved.Err? { return s, Some(env.resolved.error); }
      if env.open.Err? { return s, Some(env.open.error); }
      var db := openings;
      openings := openings + 1;
      log := log + [Opened(db, profile.name, env.resolved.value)];
      if test {
        log := log + [Event.Closed(db)];
        return s.(status := Tested(profile.name)), None;
      }
      var tables := ListTables(db, env);
      if tables.Err? {
        log := log + [Event.Closed(db)];
        return s, Some(tables.error);
      }
      s := SwitchTo(s, profile, db, env);
    }

    /** Replaces the current store, remembering its view, and shows the new store's table. */
    method SwitchTo(s0: Snapshot, profile: Profile, db: nat, env: Env) returns (s: Snapshot)
      requires env.resolved.Ok? && env.tables.Ok?
      modifies this`store, this`views, this`log
      ensures Outcome(Locked(), s, None) == Switch(old(Locked()), s0, profile, db, env)
    {
      s := s0;
      if store.Some? {
        views := views[s.connection := s.browse];
        log := log + [Event.Closed(store.value)];
      }
      store := Some(db);
      log := log + [Connected(db)];
      s := s.(connection := profile.name, database := env.resolved.value);
      s := s.(tables := env.tables.value, schema := EMPTY_SCHEMA, result := EMPTY_PAGE);
      s := s.(query := false, pending := None);
      var view := SavedView(profile.name, s.tables);
      s := s.(browse := view, status := ConnectedTo(profile.name, true));
      if s.browse.table != "" {
        var loaded, failure := Browse(s, env);
        if failure.Some? {
          return s.(status := ConnectedTo(profile.name, false), error := failure);
        }
        s := loaded;
      }
    }

    method SavedView(name: string, tables: seq<Table>) returns (browse: BrowseRequest)
      ensures browse == RestoreView(views, name, tables)
    {
      browse := NewRequest(100);
      if name in views {
        browse := views[name];
      }
      var listed := Lists(tables, browse.table);
      if !listed {
        browse := NewRequest(browse.limit);
      }
      if browse.table == "" && |tables| > 0 {
        browse := browse.(table := tables[0].name);
      }
    }

    /** Consumes the pending write, then executes it and reloads the display. */
    method Approve(ghost who: nat, id: string, now: int, env: Env) returns (out: Snapshot, err: Option<Error>)
      requires Valid() && Fresh(Locked(), env)
      modifies this, events
      ensures Valid() && out == state
      ensures old(held) ==> Abs() == old(Abs()) && err == Some(Error.Busy)
      ensures !old(held) && old(closed) ==> Abs() == old(Abs()) && err == Some(ApplicationClosed)
      ensures !old(held) && !old(closed) ==>
                var checked := CheckStep(BeginStep(old(Abs()), who, Call.Approve(id)), now);
                var worked := if checked.flight.Done? then checked else WorkStep(checked, env);
                Abs() == FinishStep(worked) && err == worked.flight.error
    {
      hide Inv, RunWrite, Approvable;
      var s;
      s, err := BeginOperation(who, Call.Approve(id));
      if err.Some? { return s, err; }
      var p := Consume(who, s, id, now);
      if p.None? {
        err := Some(NotApprovable);
        out := FinishOperation(s, err);
        return;
      }
      s := s.(pending := None);
      OpenInFlight(Abs());
      OperationKeepsInv(Abs(), Work(who, env));
      s, err := ExecuteWrite(s, p.value.sql, env);
      flight := Done(who, s, err);
      out := FinishOperation(s, err);
    }

    /** Checks the approval and, if it holds, takes the pending write out of the committed state. */
    method Consume(ghost who: nat, s: Snapshot, id: string, now: int) returns (p: Option<PendingWrite>)
      requires Valid() && flight == Running(who, Call.Approve(id), s) && !closed
      modifies this`state, this`log, this`flight, events
      ensures Valid() && Abs() == CheckStep(old(Abs()), now)
      ensures p.Some? <==> flight.Writing?
      ensures p.Some? ==> p == s.pending
    {
      hide Inv;
      OperationKeepsInv(Abs(), Check(who, now));
      p := s.pending;
      if p.None? || p.value.id != id || !s.writesEnabled || p.value.connection != s.connection
         || p.value.database != s.database || now > p.value.expires
      {
        flight := Done(who, s, Some(NotApprovable));
        return None;
      }
      state := state.(pending := None);
      log := log + [Approved(id, now)];
      PublishLocked();
      flight := Writing(who, s.(pending := None), p.value);
    }

    method ExecuteWrite(s0: Snapshot, sql: string, env: Env) returns (s: Snapshot, err: Option<Error>)
      requires store.Some?
      modifies this`log
      ensures Outcome(Locked(), s, err) == RunWrite(old(Locked()), s0, sql, env)
    {
      s, err := s0, None;
      log := log + [Executed(store.value, sql, env.executed.Ok?)];
      if env.executed.Err? { return s, Some(env.executed.error); }
      var affected := env.executed.value;
      var tables := ListTables(store.value, env);
      var failed := tables.Err?;
      if tables.Ok? {
        s := s.(tables := tables.value);
        var listed := Lists(s.tables, s.browse.table);
        if listed {
          var loaded, failure := Browse(s, env);
          failed := failure.Some?;
          s := loaded;
        } else {
          s := s.(browse := NewRequest(100), schema := EMPTY_SCHEMA, result := EMPTY_PAGE, query := false);
        }
      }
      if failed {
        s := s.(result := EMPTY_PAGE);
      }
      s := s.(status := WriteExecuted(affected, !failed));
    }

    method Reject(ghost who: nat, id: string) returns (err: Option<Error>)
      requires Valid()
      modifies this, events
      ensures Valid()
      ensures old(held) ==> Abs() == old(Abs()) && err == Some(Error.Busy)
      ensures !old(held) ==> Abs() == RejectStep(old(Abs()), id)
      ensures !old(held) ==>
                (err.None? <==> !old(closed) && old(state).pending.Some? && old(state).pending.value.id == id)
    {
      hide Inv;
      if held { return Some(Error.Busy); }
      if closed { return Some(ApplicationClosed); }
      if state.pending.None? || state.pending.value.id != id { return Some(NotPending); }
      OtherStepsKeepInv(Abs(), Label.Reject(who, id));
      log := log + [Declined(id)];
      state := state.(pending := None);
      state := state.(status := WriteRejected);
      PublishLocked();
      err := None;
    }

    /** Called once the operation lock is free; a second call does nothing. */
    /** Called once the operation lock is free; a second call does nothing. `closing` is the store's answer. */
    method Close(ghost who: nat, closing: Option<Error>) returns (err: Option<Error>)
      requires Valid() && !held
      modifies this, events
      ensures Valid() && Abs() == CloseStep(old(Abs()))
      ensures err == if !old(closed) && old(store).Some? then closing else None
    {
      hide Inv;
      OtherStepsKeepInv(Abs(), Label.Close(who));
      if closed { return None; }
      closed := true;
      events.Shut();
      if store.Some? {
        log := log + [Event.Closed(store.value)];
        return closing;
      }
      return None;
    }
  }

  /** The state after adding these profiles one by one. */
  function Added(st: State, profiles: seq<Profile>): State {
    if profiles == [] then st
    else AddProfileStep(Added(st, profiles[..|profiles| - 1]), profiles[|profiles| - 1])
  }

  /** The names are not blank and different. */
  ghost predicate Usable(profiles: seq<Profile>) {
    && (forall i :: 0 <= i < |profiles| ==> !Text.Blank(profiles[i].name))
    && (forall i, j :: 0 <= i < j < |profiles| ==> profiles[i].name != profiles[j].name)
  }

  lemma {:induction false} AddedKeepsAll(st: State, profiles: seq<Profile>)
    requires !st.closed && st.world.profiles == [] && st.snap.connections == [] && Usable(profiles)
    ensures !Added(st, profiles).closed && Added(st, profiles).world.profiles == profiles
    ensures Added(st, profiles).snap.connections == seq(|profiles|, i requires 0 <= i < |profiles| => profiles[i].name)
    ensures Added(st, profiles).snap.revision == st.snap.revision + |profiles|
    ensures Added(st, profiles).snap.writesEnabled == st.snap.writesEnabled
  {
    if profiles != [] {
      var n := |profiles| - 1;
      AddedKeepsAll(st, profiles[..n]);
      assert profiles == profiles[..n] + [profiles[n]];
    }
  }

  /** Starting with profiles is a run of additions from the initial state, so every theorem about runs covers it. */
  lemma {:induction false} StartIsARun(allowWrites: bool, profiles: seq<Profile>) returns (labels: seq<Label>)
    ensures Exec(Initial(allowWrites), labels) == Some(Added(Initial(allowWrites), profiles))
    ensures Added(Initial(allowWrites), profiles).flight.Idle?
  {
    hide WorkStep, CheckStep, FinishStep, BeginStep;
    labels := [];
    if profiles != [] {
      var n := |profiles| - 1;
      var before := StartIsARun(allowWrites, profiles[..n]);
      labels := before + [Label.AddProfile(0, profiles[n])];
      assert labels[..|before|] == before;
    }
  }

  /** Starting the application: it needs a way to open stores, and profiles with distinct names. */
  method New(opener: bool, allowWrites: bool, profiles: seq<Profile>) returns (app: App?, err: Option<Error>)
    ensures err.None? <==> opener && Usable(profiles)
    ensures app == null <==> err.Some?
    ensures app != null ==>
              && fresh(app) && fresh(app.events) && app.Valid()
              && app.Abs() == Added(Initial(allowWrites), profiles) && app.profiles == profiles
              && app.state.writesEnabled == allowWrites
              && app.state.connections == seq(|profiles|, i requires 0 <= i < |profiles| => profiles[i].name)
  {
    hide Inv;
    if !opener { return null, Some(NoOpener); }
    var started := new App(allowWrites);
    for i := 0 to |profiles|
      invariant fresh(started) && fresh(started.events) && started.Valid() && !started.held
      invariant Usable(profiles[..i]) && started.Abs() == Added(Initial(allowWrites), profiles[..i])
    {
      AddedKeepsAll(Initial(allowWrites), profiles[..i]);
      assert profiles[..i + 1][..i] == profiles[..i];
      var failure := started.AddProfile(0, profiles[i]);
      UsableMore(profiles, i);
      if failure.Some? { return null, failure; }
    }
    assert profiles[..|profiles|] == profiles;
    AddedKeepsAll(Initial(allowWrites), profiles);
    return started, None;
  }

  lemma UsableMore(profiles: seq<Profile>, i: nat)
    requires i < |profiles| && Usable(profiles[..i])
    ensures Usable(profiles[..i + 1]) <==>
            !Text.Blank(profiles[i].name) && !KnownProfile(profiles[..i], profiles[i].name)
    ensures Usable(profiles) ==> Usable(profiles[..i + 1])
  {
    if !KnownProfile(profiles[..i], profiles[i].name) {
      assert forall j :: 0 <= j < i ==> profiles[..i][j] == profiles[j];
    } else {
      var k :| 0 <= k < i && profiles[..i][k].name == profiles[i].name;
      assert profiles[..i + 1][k] == profiles[k] && profiles[..i + 1][i] == profiles[i];
    }
    if Text.Blank(profiles[i].name) {
      assert profiles[..i + 1][i] == profiles[i];
    }
  }
}
