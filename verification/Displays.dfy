/**
 What the session displays besides the page: the table list is the latest one that the current
 store gave, and a displayed page comes with the schema that was read just before it.
 */
module Displays {
  import opened Wrappers
  import opened Database
  import opened Session
  import opened Runs
  import Text

  /** The latest list of tables that any store gave, and the store that gave it. */
  ghost function LastListed(log: seq<Event>): Option<(nat, seq<Table>)> {
    if log == [] then None
    else
      var e := log[|log| - 1];
      if e.Listed? && e.tables.Some? then Some((e.store, e.tables.value)) else LastListed(log[..|log| - 1])
  }

  ghost predicate TablesShown(w: World, s: Snapshot) {
    if w.store.Some? then LastListed(w.log) == Some((w.store.value, s.tables))
    else LastListed(w.log) == None && s.tables == []
  }

  ghost predicate ReadTogether(log: seq<Event>, i: nat, store: nat, s: Snapshot) {
    && 0 < i < |log| && log[i] == Browsed(store, s.browse, Some(s.result))
    && log[i - 1] == Described(store, s.browse.table, Some(s.schema))
  }

  ghost predicate SchemaShown(w: World, s: Snapshot) {
    s.query || s.result == EMPTY_PAGE || (w.store.Some? && exists i: nat :: ReadTogether(w.log, i, w.store.value, s))
  }

  ghost predicate Displayed(w: World, s: Snapshot) { TablesShown(w, s) && SchemaShown(w, s) }

  /** The fields that are displayed. */
  ghost predicate SameDisplay(s: Snapshot, t: Snapshot) {
    t.tables == s.tables && t.schema == s.schema && t.browse == s.browse && t.result == s.result && t.query == s.query
  }

  lemma SameDisplayed(w: World, s: Snapshot, t: Snapshot)
    requires Displayed(w, s) && SameDisplay(s, t)
    ensures Displayed(w, t)
  {
    if !s.query && s.result != EMPTY_PAGE {
      var i: nat :| ReadTogether(w.log, i, w.store.value, s);
      assert ReadTogether(w.log, i, w.store.value, t);
    }
  }

  lemma ListedMore(log: seq<Event>, e: Event)
    ensures LastListed(log + [e]) ==
            if e.Listed? && e.tables.Some? then Some((e.store, e.tables.value)) else LastListed(log)
  {
    assert (log + [e])[..|log|] == log;
  }

  lemma SchemaStays(w: World, s: Snapshot, e: Event)
    requires SchemaShown(w, s)
    ensures SchemaShown(w.Log(e), s)
  {
    if !s.query && s.result != EMPTY_PAGE {
      var i: nat :| ReadTogether(w.log, i, w.store.value, s);
      assert ReadTogether(w.Log(e).log, i, w.store.value, s);
    }
  }

  lemma EventKeeps(w: World, s: Snapshot, e: Event)
    requires Displayed(w, s) && !(e.Listed? && e.tables.Some?)
    ensures Displayed(w.Log(e), s)
  {
    ListedMore(w.log, e);
    SchemaStays(w, s, e);
  }

  lemma LoadPageShows(w: World, s: Snapshot, env: Env)
    requires w.store.Some? && TablesShown(w, s)
    ensures var o := LoadPage(w, s, env);
            && TablesShown(o.w, o.s) && TablesShown(o.w, s) && (o.error.None? ==> Displayed(o.w, o.s))
            && (forall t: Snapshot :: SchemaShown(w, t) ==> SchemaShown(o.w, t))
  {
    hide LastListed;
    var e1 := Described(w.store.value, s.browse.table, Told(env.schema));
    var e2 := Browsed(w.store.value, s.browse, Told(env.page));
    var w1, o := w.Log(e1), LoadPage(w, s, env);
    ListedMore(w.log, e1);
    ListedMore(w1.log, e2);
    forall t: Snapshot | SchemaShown(w, t) ensures SchemaShown(o.w, t) {
      SchemaStays(w, t, e1);
      SchemaStays(w1, t, e2);
    }
    if o.error.None? {
      assert ReadTogether(o.w.log, |o.w.log| - 1, w.store.value, o.s);
    }
  }

  lemma SwitchShows(w: World, s: Snapshot, p: Profile, id: nat, env: Env)
    requires env.resolved.Ok? && env.tables.Ok? && LastListed(w.log) == Some((id, env.tables.value))
    ensures var o := Switch(w, s, p, id, env); o.error.None? && Displayed(o.w, o.s)
  {
    hide LastListed, LoadPage, RestoreView, ReadTogether;
    var w1 := if w.store.Some?
              then w.(views := w.views[s.connection := s.browse]).Log(Event.Closed(w.store.value)) else w;
    if w.store.Some? {
      ListedMore(w.log, Event.Closed(w.store.value));
    }
    var w2 := w1.(store := Some(id)).Log(Connected(id));
    ListedMore(w1.log, Connected(id));
    var s2 := s.(connection := p.name, database := env.resolved.value, tables := env.tables.value,
                 schema := EMPTY_SCHEMA, result := EMPTY_PAGE, query := false, pending := None,
                 browse := RestoreView(w1.views, p.name, env.tables.value),
                 status := ConnectedTo(p.name, true));
    if s2.browse.table != "" {
      LoadPageShows(w2, s2, env);
      LoadPageKeepsStore(w2, s2, env);
    }
  }

  lemma LoadPageKeepsStore(w: World, s: Snapshot, env: Env)
    requires w.store.Some?
    ensures LoadPage(w, s, env).w.store == w.store
  {
  }

  /** A successful operation displays its own snapshot truly; a failed one keeps the old display true. */
  ghost predicate StaysTrue(o: Outcome, before: Snapshot) {
    Displayed(o.w, if o.error.None? then o.s else before)
  }

  lemma ConnectShows(w: World, s: Snapshot, p: Profile, test: bool, env: Env)
    requires Displayed(w, s)
    ensures StaysTrue(ConnectProfile(w, s, p, test, env), s)
  {
    hide Displayed, Switch, LastListed;
    if env.resolved.Ok? && env.open.Ok? {
      var id := w.openings;
      var e := Opened(id, p.name, env.resolved.value);
      var w0 := w.(openings := id + 1);
      SameWorld(w, w0, s);
      EventKeeps(w0, s, e);
      var w1 := w0.Log(e);
      if test {
        EventKeeps(w1, s, Event.Closed(id));
        SameDisplayed(w1.Log(Event.Closed(id)), s, s.(status := Tested(p.name)));
      } else if env.tables.Err? {
        EventKeeps(w1, s, Listed(id, None));
        EventKeeps(w1.Log(Listed(id, None)), s, Event.Closed(id));
      } else {
        ListedMore(w1.log, Listed(id, Told(env.tables)));
        SwitchShows(w1.Log(Listed(id, Told(env.tables))), s, p, id, env);
      }
    }
  }

  lemma SameWorld(w: World, v: World, s: Snapshot)
    requires Displayed(w, s) && v.log == w.log && v.store == w.store
    ensures Displayed(v, s)
  {
  }

  lemma ListShows(w: World, s: Snapshot, tables: seq<Table>)
    requires w.store.Some? && Displayed(w, s)
    ensures TablesShown(w.Log(Listed(w.store.value, Some(tables))), s.(tables := tables))
    ensures forall t: Snapshot :: SchemaShown(w, t) ==> SchemaShown(w.Log(Listed(w.store.value, Some(tables))), t)
  {
    ListedMore(w.log, Listed(w.store.value, Some(tables)));
    forall t: Snapshot | SchemaShown(w, t) ensures SchemaShown(w.Log(Listed(w.store.value, Some(tables))), t) {
      SchemaStays(w, t, Listed(w.store.value, Some(tables)));
    }
  }

  lemma RefreshShows(w: World, s: Snapshot, env: Env)
    requires w.store.Some? && Displayed(w, s)
    ensures StaysTrue(RefreshList(w, s, env), s)
  {
    hide LastListed, LoadPage, ReadTogether;
    if env.tables.Err? {
      EventKeeps(w, s, Listed(w.store.value, None));
    } else {
      ListShows(w, s, env.tables.value);
      var w1, s1 := w.Log(Listed(w.store.value, Told(env.tables))), s.(tables := env.tables.value);
      if HasTable(s1.tables, s1.browse.table) {
        LoadPageShows(w1, s1, env);
        LoadPageKeepsStore(w1, s1, env);
      }
    }
  }

  lemma RunWriteShows(w: World, s: Snapshot, sql: string, env: Env)
    requires w.store.Some? && Displayed(w, s)
    ensures StaysTrue(RunWrite(w, s, sql, env), s)
  {
    hide LastListed, LoadPage, ReadTogether;
    var e := Executed(w.store.value, sql, env.executed.Ok?);
    EventKeeps(w, s, e);
    if env.executed.Ok? {
      if env.tables.Err? {
        EventKeeps(w.Log(e), s, Listed(w.store.value, None));
      } else {
        ListShows(w.Log(e), s, env.tables.value);
        var w2, s1 := w.Log(e).Log(Listed(w.store.value, Told(env.tables))), s.(tables := env.tables.value);
        if HasTable(s1.tables, s1.browse.table) {
          LoadPageShows(w2, s1, env);
          LoadPageKeepsStore(w2, s1, env);
          var o, r := LoadPage(w2, s1, env), RunWrite(w, s, sql, env);
          if o.error.None? {
            SameDisplayed(o.w, o.s, r.s);
          }
        }
      }
    }
  }

  lemma PerformShows(w: World, s: Snapshot, a: Action, env: Env)
    requires Displayed(w, s)
    ensures StaysTrue(Perform(w, s, a, env), s)
  {
    hide LastListed, LoadPage, ConnectProfile, RefreshList, ReadTogether, Edit;
    if env.expired {
    } else if a.Connect? || a.Test? {
      var p := FindProfile(w.profiles, a.connection);
      if p.Some? {
        ConnectShows(w, s, p.value, a.Test?, env);
      }
    } else if w.store.Some? && !(s.query && NeedsTableMode(a)) {
      if a.Refresh? {
        RefreshShows(w, s, env);
      } else if a.Query? {
        EventKeeps(w, s, Queried(w.store.value, a.sql, Told(env.queried)));
      } else if a.Write? {
        var o := StageWrite(w, s, a.sql, env);
        if o.error.None? {
          EventKeeps(w, s, Staged(w.store.value, o.s.pending.value, env.now));
          SameDisplayed(o.w, s, o.s);
        }
      } else if Edit(s, a).Ok? {
        var s1 := s.(browse := Edit(s, a).value);
        LoadPageShows(w, s1, env);
        LoadPageKeepsStore(w, s1, env);
      }
    }
  }

  lemma SetUpShows(w: World, s: Snapshot, p: Profile, test: bool, env: Env)
    requires Displayed(w, s)
    ensures StaysTrue(SetUp(w, s, p, test, env), s)
  {
    hide ConnectProfile, Displayed;
    ConnectShows(w, s, p, test, env);
    var o, r := ConnectProfile(w, s, p, test, env), SetUp(w, s, p, test, env);
    if r.error.None? {
      SameDisplayed(o.w, o.s, r.s);
      SameWorld(o.w, r.w, r.s);
    }
  }

  ghost predicate DisplayInv(st: State) {
    match st.flight
    case Idle => Displayed(st.world, st.snap)
    case Running(_, _, s) => Displayed(st.world, st.snap) && Displayed(st.world, s)
    case Writing(_, s, _) => Displayed(st.world, st.snap) && Displayed(st.world, s)
    case Done(_, s, error) => Displayed(st.world, if error.None? then s else st.snap)
  }

  lemma WorkShows(st: State, env: Env)
    requires (st.flight.Running? && !st.flight.call.Approve?) || (st.flight.Writing? && st.world.store.Some?)
    requires DisplayInv(st) && (st.flight.Running? ==> st.flight.s == st.snap)
    requires st.flight.Writing? ==> SameDisplay(st.flight.s, st.snap)
    ensures DisplayInv(WorkStep(st, env))
  {
    hide Displayed, Perform, SetUp, RunWrite;
    if st.flight.Writing? {
      RunWriteShows(st.world, st.flight.s, st.flight.write.sql, env);
      var o := RunWrite(st.world, st.flight.s, st.flight.write.sql, env);
      if o.error.Some? {
        SameDisplayed(o.w, st.flight.s, st.snap);
      }
    } else if st.flight.call.Act? {
      PerformShows(st.world, st.flight.s, st.flight.call.action, env);
    } else {
      SetUpShows(st.world, st.flight.s, st.flight.call.profile, st.flight.call.test, env);
    }
  }

  lemma StepShows(st: State, l: Label)
    requires Inv(st) && DisplayInv(st) && Step(st, l).Some?
    ensures DisplayInv(Step(st, l).value)
  {
    hide Displayed, WorkStep, Inv, Approvable, KnownProfile, Text.Blank;
    PrivateCopies(st);
    var t := Step(st, l).value;
    match l
    case Begin(_, _) => SameDisplayed(st.world, st.snap, t.snap);
    case Check(_, now) =>
      if Approvable(st.flight.s, st.flight.call.id, now) {
        EventKeeps(st.world, st.snap, Session.Approved(st.flight.call.id, now));
        EventKeeps(st.world, st.flight.s, Session.Approved(st.flight.call.id, now));
        SameDisplayed(t.world, st.snap, t.snap);
        SameDisplayed(t.world, st.flight.s, t.flight.s);
      }
    case Work(_, env) => WorkShows(st, env);
    case Finish(_) => SameDisplayed(st.world, if st.flight.error.None? then st.flight.s else st.snap, t.snap);
    case AddProfile(_, p) =>
      SameDisplayed(st.world, st.snap, t.snap);
      SameWorld(st.world, t.world, t.snap);
    case Reject(_, id) =>
      EventKeeps(st.world, st.snap, Declined(id));
      SameDisplayed(t.world, st.snap, t.snap);
    case Close(_) =>
      if !st.closed && st.world.store.Some? {
        EventKeeps(st.world, st.snap, Session.Closed(st.world.store.value));
      }
    case _ =>
  }

  lemma PrivateCopies(st: State)
    requires Inv(st)
    ensures st.flight.Running? ==> st.flight.s == st.snap
    ensures st.flight.Writing? ==> SameDisplay(st.flight.s, st.snap)
  {
  }

  lemma StartShows(allowWrites: bool)
    ensures Displayed(Initial(allowWrites).world, Initial(allowWrites).snap)
  {
  }

  lemma {:induction false} EveryRunShows(allowWrites: bool, labels: seq<Label>)
    requires Exec(Initial(allowWrites), labels).Some?
    ensures DisplayInv(Exec(Initial(allowWrites), labels).value)
  {
    hide Step, Inv, Displayed;
    if labels == [] {
      StartShows(allowWrites);
    } else {
      var n := |labels| - 1;
      EveryRunShows(allowWrites, labels[..n]);
      EveryRun(allowWrites, labels[..n]);
      StepShows(Exec(Initial(allowWrites), labels[..n]).value, labels[n]);
    }
  }

  /**
   With no operation in flight, in any run: the displayed table list is the latest that the
   current store gave, and outside query mode a displayed page was read from it for the displayed
   request, directly after the displayed schema.
   */
  lemma DisplayIsTrue(allowWrites: bool, labels: seq<Label>, st: State)
    requires Exec(Initial(allowWrites), labels) == Some(st) && st.flight.Idle?
    ensures st.world.store.Some? ==> LastListed(st.world.log) == Some((st.world.store.value, st.snap.tables))
    ensures st.world.store.None? ==> LastListed(st.world.log) == None && st.snap.tables == []
    ensures !st.snap.query && st.snap.result != EMPTY_PAGE ==>
              st.world.store.Some? &&
              exists i: nat ::
                && 0 < i < |st.world.log|
                && st.world.log[i] == Browsed(st.world.store.value, st.snap.browse, Some(st.snap.result))
                && st.world.log[i - 1] == Described(st.world.store.value, st.snap.browse.table, Some(st.snap.schema))
  {
    EveryRunShows(allowWrites, labels);
    if !st.snap.query && st.snap.result != EMPTY_PAGE {
      var i: nat :| ReadTogether(st.world.log, i, st.world.store.value, st.snap);
    }
  }
}
