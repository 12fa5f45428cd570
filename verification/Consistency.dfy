/**
 What holds between the operation-locked fields and a snapshot whenever that snapshot is
 the committed one, and the proof that every operation keeps it for every behaviour of
 the store. A failed operation keeps it for the snapshot from before the operation.
 */
module Consistency {
  import opened Wrappers
  import opened Database
  import opened Session
  import opened Ledger
  import Text

  ghost predicate Tidy(r: BrowseRequest) {
    1 <= r.limit <= 1000 && 0 <= r.offset <= MAX_INT && r.offset % r.limit == 0
  }

  ghost function Owned(w: World): set<nat> {
    if w.store.Some? then {w.store.value} else {}
  }

  /** No write has succeeded after position i. */
  ghost predicate Current(log: seq<Event>, i: nat) {
    forall k :: i < k < |log| ==> !(log[k].Executed? && log[k].done)
  }

  ghost predicate SourceAt(log: seq<Event>, i: nat, store: nat, s: Snapshot) {
    && i < |log|
    && (if s.query then log[i].Queried? && log[i].store == store && log[i].page == Some(s.result)
        else log[i] == Browsed(store, s.browse, Some(s.result)))
    && Current(log, i)
  }

  /** The displayed page is empty, or is what the current store returned for the displayed request. */
  ghost predicate Shown(w: World, s: Snapshot) {
    s.result == EMPTY_PAGE || (w.store.Some? && exists i: nat :: SourceAt(w.log, i, w.store.value, s))
  }

  ghost predicate OpenedFor(log: seq<Event>, store: nat, connection: string, database: string) {
    Opened(store, connection, database) in log
  }

  ghost predicate NamesMatch(profiles: seq<Profile>, connections: seq<string>) {
    && |profiles| == |connections|
    && (forall i :: 0 <= i < |profiles| ==> profiles[i].name == connections[i])
    && (forall i, j :: 0 <= i < j < |connections| ==> connections[i] != connections[j])
  }

  ghost predicate TableListed(s: Snapshot) {
    s.browse.table != "" ==> HasTable(s.tables, s.browse.table)
  }

  ghost predicate Written(w: World, s: Snapshot) {
    && (s.pending.Some? ==> w.store.Some?)
    && WaitingWrite(w.log) ==
       (if s.pending.Some? then Some(Waiting(s.pending.value, w.store.value)) else None)
    && (s.pending.Some? ==>
          && s.writesEnabled && s.pending.value.connection == s.connection
          && s.pending.value.database == s.database)
  }

  /** Everything but the displayed page. */
  ghost predicate Ordered(w: World, s: Snapshot) {
    && LegalLog(w.log) && OpenCount(w.log) == w.openings
    && (w.store.Some? ==> OpenedFor(w.log, w.store.value, s.connection, s.database))
    && Written(w, s)
    && Tidy(s.browse) && (forall name <- w.views :: Tidy(w.views[name]))
    && TableListed(s)
    && NamesMatch(w.profiles, s.connections)
  }

  ghost predicate Settled(w: World, s: Snapshot) {
    Ordered(w, s) && Shown(w, s)
  }

  ghost predicate Linked(w: World, s: Snapshot) {
    Settled(w, s) && OpenStores(w.log) == Owned(w)
  }

  /** The identifier drawn for a new write was never used before. */
  ghost predicate Fresh(w: World, env: Env) {
    !StagedBefore(w.log, env.freshId)
  }

  /** An operation that succeeds links its new snapshot; one that fails keeps the old snapshot linked. */
  ghost predicate Keeps(o: Outcome, before: Snapshot) {
    if o.error.None? then Linked(o.w, o.s) else Linked(o.w, before)
  }

  ghost predicate Quiet(e: Event) {
    e.Listed? || e.Described? || e.Browsed? || e.Queried?
  }

  lemma QuietEvent(w: World, s: Snapshot, e: Event)
    requires Ordered(w, s) && w.store.Some? && w.store.value in OpenStores(w.log)
    requires Quiet(e) && e.store == w.store.value
    ensures Ordered(w.Log(e), s)
    ensures OpenStores(w.Log(e).log) == OpenStores(w.log)
    ensures Shown(w, s) ==> Shown(w.Log(e), s)
  {
    Grow(w.log, e);
    if Shown(w, s) {
      StillShown(w, s, e);
    }
  }

  lemma StillShown(w: World, s: Snapshot, e: Event)
    requires Shown(w, s) && !(e.Executed? && e.done)
    ensures Shown(w.Log(e), s)
  {
    if s.result != EMPTY_PAGE {
      var i: nat :| SourceAt(w.log, i, w.store.value, s);
      assert SourceAt(w.Log(e).log, i, w.store.value, s);
    }
  }

  /** A page that was just read is the displayed one. */
  lemma LastIsShown(w: World, s: Snapshot)
    requires w.store.Some? && |w.log| > 0
    requires if s.query then w.log[|w.log| - 1].Queried? && w.log[|w.log| - 1].store == w.store.value
             && w.log[|w.log| - 1].page == Some(s.result)
             else w.log[|w.log| - 1] == Browsed(w.store.value, s.browse, Some(s.result))
    ensures Shown(w, s)
  {
    assert SourceAt(w.log, |w.log| - 1, w.store.value, s);
  }

  lemma LoadPageKeeps(w: World, s: Snapshot, env: Env)
    requires Ordered(w, s) && w.store.Some? && OpenStores(w.log) == Owned(w)
    ensures var o := LoadPage(w, s, env);
            && OpenStores(o.w.log) == Owned(o.w) && o.w.store == w.store
            && (o.error.None? ==> Linked(o.w, o.s))
            && (forall t: Snapshot :: Ordered(w, t) ==> Ordered(o.w, t))
            && (forall t: Snapshot :: Settled(w, t) ==> Settled(o.w, t))
  {
    hide LegalLog, OpenStores, OpenCount, WaitingWrite, SourceAt;
    if s.browse.table != "" {
      var e1 := Described(w.store.value, s.browse.table, Told(env.schema));
      var w1 := w.Log(e1);
      QuietEvent(w, s, e1);
      forall t: Snapshot | Ordered(w, t)
        ensures Ordered(w1, t) && (Shown(w, t) ==> Shown(w1, t))
      {
        QuietEvent(w, t, e1);
      }
      if env.schema.Ok? {
        var e2 := Browsed(w.store.value, s.browse, if env.page.Ok? then Some(env.page.value) else None);
        var w2 := w1.Log(e2);
        var o := LoadPage(w, s, env);
        QuietEvent(w1, s, e2);
        forall t: Snapshot | Ordered(w, t)
          ensures Ordered(w2, t) && (Shown(w, t) ==> Shown(w2, t))
        {
          QuietEvent(w1, t, e2);
        }
        if env.page.Ok? {
          LastIsShown(w2, o.s);
        }
      }
    }
  }

  lemma RestoredIsTidy(views: map<string, BrowseRequest>, name: string, tables: seq<Table>)
    requires forall n <- views :: Tidy(views[n])
    ensures var r := RestoreView(views, name, tables);
            Tidy(r) && (r.table != "" ==> HasTable(tables, r.table))
  {
    var saved := if name in views then views[name] else NewRequest(100);
    TidyStart(NewRequest(100));
    TidyStart(NewRequest(saved.limit));
    var kept := if HasTable(tables, saved.table) then saved else NewRequest(saved.limit);
    assert Tidy(kept);
    if |tables| > 0 {
      assert HasTable(tables, tables[0].name);
    }
  }

  /** A store that has been opened, has not become the current one and is still open. */
  ghost predicate Spare(w: World, s: Snapshot, id: nat) {
    Settled(w, s) && OpenStores(w.log) == Owned(w) + {id} && id !in Owned(w)
  }

  /** The old store, if any, is closed, its view is saved and the spare store takes its place. */
  lemma ReplaceKeeps(w: World, s: Snapshot, id: nat, connection: string, database: string)
    requires Spare(w, s, id) && OpenedFor(w.log, id, connection, database)
    ensures var w1 := if w.store.Some?
                      then w.(views := w.views[s.connection := s.browse]).Log(Closed(w.store.value))
                      else w;
            var w2 := w1.(store := Some(id)).Log(Connected(id));
            && LegalLog(w2.log) && OpenCount(w2.log) == w2.openings && OpenStores(w2.log) == {id}
            && WaitingWrite(w2.log) == None && OpenedFor(w2.log, id, connection, database)
            && (forall name <- w1.views :: Tidy(w1.views[name]))
  {
    hide LegalLog, OpenStores, OpenCount, WaitingWrite, SourceAt, Tidy, Shown, TableListed, NamesMatch;
    var w1 := if w.store.Some?
              then w.(views := w.views[s.connection := s.browse]).Log(Closed(w.store.value))
              else w;
    if w.store.Some? {
      Grow(w.log, Closed(w.store.value));
    }
    assert OpenStores(w1.log) == {id} && LegalLog(w1.log);
    Grow(w1.log, Connected(id));
  }

  lemma SwitchKeeps(w: World, s: Snapshot, p: Profile, id: nat, env: Env)
    requires env.resolved.Ok? && env.tables.Ok?
    requires Spare(w, s, id) && OpenedFor(w.log, id, p.name, env.resolved.value)
    ensures Switch(w, s, p, id, env).error.None?
    ensures Linked(Switch(w, s, p, id, env).w, Switch(w, s, p, id, env).s)
    ensures Switch(w, s, p, id, env).w.profiles == w.profiles
    ensures Switch(w, s, p, id, env).s.connections == s.connections
  {
    hide LegalLog, OpenStores, OpenCount, WaitingWrite, SourceAt, Tidy, NamesMatch;
    ReplaceKeeps(w, s, id, p.name, env.resolved.value);
    var w1 := if w.store.Some?
              then w.(views := w.views[s.connection := s.browse]).Log(Closed(w.store.value))
              else w;
    var w2 := w1.(store := Some(id)).Log(Connected(id));
    var s2 := s.(connection := p.name, database := env.resolved.value, tables := env.tables.value,
                 schema := EMPTY_SCHEMA, result := EMPTY_PAGE, query := false, pending := None,
                 browse := RestoreView(w1.views, p.name, env.tables.value),
                 status := ConnectedTo(p.name, true));
    RestoredIsTidy(w1.views, p.name, env.tables.value);
    assert Linked(w2, s2);
    if s2.browse.table != "" {
      LoadPageKeeps(w2, s2, env);
      var o := LoadPage(w2, s2, env);
      if o.error.Some? {
        assert Settled(o.w, s2);
        assert Settled(o.w, s2.(status := ConnectedTo(p.name, false), error := o.error));
      }
    }
  }

  lemma OpenKeeps(w: World, s: Snapshot, connection: string, database: string)
    requires Linked(w, s)
    ensures var w1 := w.(openings := w.openings + 1).Log(Opened(w.openings, connection, database));
            Spare(w1, s, w.openings) && OpenedFor(w1.log, w.openings, connection, database)
  {
    hide LegalLog, OpenStores, OpenCount, WaitingWrite, SourceAt;
    var e := Opened(w.openings, connection, database);
    OpenStoresAreNumbered(w.log);
    Grow(w.log, e);
    StillShown(w, s, e);
  }

  lemma ListKeeps(w: World, s: Snapshot, id: nat, tables: Option<seq<Table>>)
    requires Spare(w, s, id)
    ensures Spare(w.Log(Listed(id, tables)), s, id)
  {
    hide LegalLog, OpenStores, OpenCount, WaitingWrite, SourceAt;
    Grow(w.log, Listed(id, tables));
    StillShown(w, s, Listed(id, tables));
  }

  lemma ConnectProfileKeeps(w: World, s: Snapshot, p: Profile, test: bool, env: Env)
    requires Linked(w, s)
    ensures Keeps(ConnectProfile(w, s, p, test, env), s)
    ensures var o := ConnectProfile(w, s, p, test, env);
            o.w.profiles == w.profiles && o.s.connections == s.connections
  {
    hide Linked, Settled, Spare, Switch;
    if env.resolved.Ok? && env.open.Ok? {
      var id := w.openings;
      var w1 := w.(openings := id + 1).Log(Opened(id, p.name, env.resolved.value));
      OpenKeeps(w, s, p.name, env.resolved.value);
      if test {
        Drop(w1, s, id);
      } else {
        ListKeeps(w1, s, id, Told(env.tables));
        if env.tables.Err? {
          Drop(w1.Log(Listed(id, Told(env.tables))), s, id);
        } else {
          SwitchKeeps(w1.Log(Listed(id, Told(env.tables))), s, p, id, env);
        }
      }
    }
  }

  /** Closing a store that was opened but never became the current one. */
  lemma Drop(w: World, s: Snapshot, id: nat)
    requires Spare(w, s, id)
    ensures Linked(w.Log(Closed(id)), s)
    ensures forall status :: Linked(w.Log(Closed(id)), s.(status := status))
  {
    hide LegalLog, OpenStores, OpenCount, WaitingWrite, SourceAt;
    Grow(w.log, Closed(id));
    StillShown(w, s, Closed(id));
    forall status ensures Linked(w.Log(Closed(id)), s.(status := status)) {
      SameShown(w.Log(Closed(id)), s, s.(status := status));
    }
  }

  lemma SameShown(w: World, s: Snapshot, t: Snapshot)
    requires Shown(w, s) && t.result == s.result && t.query == s.query && t.browse == s.browse
    ensures Shown(w, t)
  {
    if s.result != EMPTY_PAGE {
      var i: nat :| SourceAt(w.log, i, w.store.value, s);
      assert SourceAt(w.log, i, w.store.value, t);
    }
  }

  lemma RefreshKeeps(w: World, s: Snapshot, env: Env)
    requires Linked(w, s) && w.store.Some?
    ensures Keeps(RefreshList(w, s, env), s)
    ensures RefreshList(w, s, env).w.profiles == w.profiles
  {
    hide LegalLog, OpenStores, OpenCount, WaitingWrite, SourceAt;
    var w1 := w.Log(Listed(w.store.value, Told(env.tables)));
    QuietEvent(w, s, Listed(w.store.value, Told(env.tables)));
    if env.tables.Ok? {
      var s1 := s.(tables := env.tables.value);
      if HasTable(s1.tables, s1.browse.table) {
        LoadPageKeeps(w1, s1, env);
        var o := LoadPage(w1, s1, env);
        if o.error.Some? {
          assert Ordered(o.w, s1);
        }
      }
    }
  }

  lemma QueryKeeps(w: World, s: Snapshot, sql: string, env: Env)
    requires Linked(w, s) && w.store.Some?
    ensures Keeps(RunQuery(w, s, sql, env), s)
  {
    hide LegalLog, OpenStores, OpenCount, WaitingWrite, SourceAt;
    var page := if env.queried.Ok? then Some(env.queried.value) else None;
    var w1 := w.Log(Queried(w.store.value, sql, page));
    QuietEvent(w, s, Queried(w.store.value, sql, page));
    if page.Some? {
      LastIsShown(w1, s.(result := page.value, query := true, status := QueryReturned(|page.value.rows|)));
    }
  }

  lemma StageKeeps(w: World, s: Snapshot, sql: string, env: Env)
    requires Linked(w, s) && w.store.Some? && Fresh(w, env)
    ensures Keeps(StageWrite(w, s, sql, env), s)
  {
    hide LegalLog, OpenStores, OpenCount, WaitingWrite, SourceAt;
    var o := StageWrite(w, s, sql, env);
    if o.error.None? {
      var e := Staged(w.store.value, o.s.pending.value, env.now);
      Grow(w.log, e);
      StillShown(w, s, e);
      SameShown(w.Log(e), s, o.s);
    }
  }

  lemma TidyBounds(r: BrowseRequest)
    requires Tidy(r)
    ensures 1 <= r.limit <= 1000 && r.offset >= 0
  {
  }

  lemma TidyMove(r: BrowseRequest)
    requires Tidy(r)
    ensures r.offset + r.limit <= MAX_INT ==> Tidy(r.(offset := r.offset + r.limit))
    ensures r.offset >= r.limit ==> Tidy(r.(offset := r.offset - r.limit))
  {
    NextMultiple(r.offset, r.limit);
    if r.offset >= r.limit {
      NextMultiple(r.offset - r.limit, r.limit);
    }
  }

  lemma TidyStart(r: BrowseRequest)
    requires 1 <= r.limit <= 1000 && r.offset == 0
    ensures Tidy(r)
  {
    Remainder(0, r.limit, 0, 0);
  }

  lemma EditIsTidy(s: Snapshot, a: Action)
    requires Tidy(s.browse) && TableListed(s) && Edit(s, a).Ok?
    ensures Tidy(Edit(s, a).value)
    ensures Edit(s, a).value.table != "" ==> HasTable(s.tables, Edit(s, a).value.table)
  {
    hide Tidy;
    var r := Edit(s, a).value;
    TidyBounds(s.browse);
    if r.offset == 0 {
      TidyStart(r);
    } else {
      TidyMove(s.browse);
    }
  }

  lemma NextMultiple(n: nat, m: nat)
    requires m > 0
    ensures (n + m) % m == n % m
  {
    assert n + m == m * (n / m + 1) + n % m;
    Remainder(n + m, m, n / m + 1, n % m);
  }

  lemma Remainder(n: nat, m: nat, q: nat, r: nat)
    requires m > 0 && n == m * q + r && r < m
    ensures n % m == r
  {
    var d := n / m - q;
    assert m * d == r - n % m;
    if d != 0 {
      NonzeroMultiple(m, d);
    }
  }

  lemma NonzeroMultiple(m: nat, d: int)
    requires m > 0 && d != 0
    ensures m * d >= m || m * d <= -(m as int)
  {
    if d > 0 {
      assert m * (d - 1) >= 0;
    } else {
      assert m * (-d - 1) >= 0;
    }
  }

  /** Every action keeps the committed snapshot linked, whatever the store answers. */
  lemma PerformKeeps(w: World, s: Snapshot, a: Action, env: Env)
    requires Linked(w, s) && Fresh(w, env)
    ensures Keeps(Perform(w, s, a, env), s)
  {
    hide LegalLog, OpenStores, OpenCount, WaitingWrite, SourceAt;
    if env.expired {
    } else if a.Connect? || a.Test? {
      var p := FindProfile(w.profiles, a.connection);
      if p.Some? {
        ConnectProfileKeeps(w, s, p.value, a.Test?, env);
      }
    } else if w.store.None? || (s.query && NeedsTableMode(a)) {
    } else if a.Refresh? {
      RefreshKeeps(w, s, env);
    } else if a.Query? {
      QueryKeeps(w, s, a.sql, env);
    } else if a.Write? {
      StageKeeps(w, s, a.sql, env);
    } else if Edit(s, a).Ok? && !(a.Next? && !s.result.hasMore) {
      EditIsTidy(s, a);
      var s1 := s.(browse := Edit(s, a).value);
      assert Ordered(w, s1);
      LoadPageKeeps(w, s1, env);
    }
  }

  lemma SetUpKeeps(w: World, s: Snapshot, p: Profile, test: bool, env: Env)
    requires Linked(w, s)
    ensures Keeps(SetUp(w, s, p, test, env), s)
    ensures var o := SetUp(w, s, p, test, env);
            if o.error.Some? then o.w.profiles == w.profiles
            else if test then o.w.profiles == w.profiles && o.s.connections == s.connections
            else o.w.profiles == w.profiles + [p] && o.s.connections == s.connections + [p.name]
  {
    if !Text.Blank(p.name) && !KnownProfile(w.profiles, p.name) {
      ConnectProfileKeeps(w, s, p, test, env);
      var o := ConnectProfile(w, s, p, test, env);
      if o.error.None? && !test {
        var r := SetUp(w, s, p, test, env);
        NewName(w.profiles, s.connections, p);
        SameShown(o.w, o.s, r.s);
        assert Shown(r.w, r.s) by {
          if r.s.result != EMPTY_PAGE {
            var i: nat :| SourceAt(o.w.log, i, o.w.store.value, r.s);
          }
        }
      }
    }
  }

  lemma NewName(profiles: seq<Profile>, connections: seq<string>, p: Profile)
    requires NamesMatch(profiles, connections) && !KnownProfile(profiles, p.name)
    ensures NamesMatch(profiles + [p], connections + [p.name])
  {
    forall i | 0 <= i < |profiles| ensures connections[i] != p.name {
      assert profiles[i].name == connections[i];
    }
  }

  /** The state after an approval consumed the pending write and before it executes it. */
  ghost predicate Consumed(w: World, s: Snapshot, write: PendingWrite) {
    && Linked(w, s) && w.store.Some?
    && |w.log| > 0 && w.log[|w.log| - 1].Approved? && w.log[|w.log| - 1].id == write.id
    && WaitingWrite(w.log[..|w.log| - 1]) == Some(Waiting(write, w.store.value))
  }

  lemma ApprovalConsumes(w: World, s: Snapshot, id: string, now: int)
    requires Linked(w, s) && Approvable(s, id, now)
    ensures Consumed(w.Log(Approved(id, now)), s.(pending := None), s.pending.value)
  {
    hide LegalLog, OpenStores, OpenCount, WaitingWrite, SourceAt;
    var e := Approved(id, now);
    Grow(w.log, e);
    StillShown(w, s, e);
    SameShown(w.Log(e), s, s.(pending := None));
    assert w.Log(e).log[..|w.log|] == w.log;
  }

  lemma RejectionKeeps(w: World, s: Snapshot, id: string)
    requires Linked(w, s) && s.pending.Some? && s.pending.value.id == id
    ensures Linked(w.Log(Declined(id)), s.(pending := None, status := WriteRejected))
  {
    hide LegalLog, OpenStores, OpenCount, WaitingWrite, SourceAt;
    var e := Declined(id);
    Grow(w.log, e);
    StillShown(w, s, e);
    SameShown(w.Log(e), s, s.(pending := None, status := WriteRejected));
  }

  lemma AddProfileKeeps(w: World, s: Snapshot, p: Profile)
    requires Linked(w, s) && !KnownProfile(w.profiles, p.name)
    ensures Linked(w.(profiles := w.profiles + [p]), s.(connections := s.connections + [p.name]))
  {
    NewName(w.profiles, s.connections, p);
    var w1, s1 := w.(profiles := w.profiles + [p]), s.(connections := s.connections + [p.name]);
    if s.result != EMPTY_PAGE {
      var i: nat :| SourceAt(w.log, i, w.store.value, s);
      assert SourceAt(w1.log, i, w1.store.value, s1);
    }
  }

  lemma WriteKeeps(w: World, s: Snapshot, write: PendingWrite, env: Env)
    requires Consumed(w, s, write)
    ensures Keeps(RunWrite(w, s, write.sql, env), s)
  {
    hide LegalLog, OpenStores, OpenCount, WaitingWrite, SourceAt;
    var st := w.store.value;
    var e := Executed(st, write.sql, env.executed.Ok?);
    var w1 := w.Log(e);
    Grow(w.log, e);
    if env.executed.Err? {
      StillShown(w, s, e);
    } else {
      assert Ordered(w1, s);
      var w2 := w1.Log(Listed(st, Told(env.tables)));
      QuietEvent(w1, s, Listed(st, Told(env.tables)));
      if env.tables.Ok? {
        var s1 := s.(tables := env.tables.value);
        if HasTable(s1.tables, s1.browse.table) {
          LoadPageKeeps(w2, s1, env);
          var o := LoadPage(w2, s1, env);
          if o.error.Some? {
            assert Ordered(o.w, s1);
          } else {
            var r := RunWrite(w, s, write.sql, env);
            SameShown(o.w, o.s, r.s);
          }
        }
      }
    }
  }
}
