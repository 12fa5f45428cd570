/** Where each event of the log comes from: which step of a run made it, and for which call. */
module Provenance {
  import opened Wrappers
  import opened Database
  import opened Session
  import opened Consistency
  import opened Runs
  import Text

  /** The work of this operation asks for this event: a store gets only what the operation's call says. */
  ghost predicate Asked(f: Flight, e: Event) {
    match e
    case Staged(_, write, _) => f.Running? && f.call == Act(Write(write.sql)) && f.s.writesEnabled
    case Queried(_, sql, _) => f.Running? && f.call == Act(Query(sql))
    case Executed(_, sql, _) => f.Writing? && f.write.sql == sql
    case Opened(_, connection, _) => f.Running? && Names(f.call, connection)
    case Approved(_, _) => false
    case Declined(_) => false
    case _ => true
  }

  /** The call is to connect to, test or set up a connection of this name. */
  predicate Names(call: Call, connection: string) {
    match call
    case Act(a) => (a.Connect? || a.Test?) && a.connection == connection
    case Setup(p, _) => p.name == connection
    case Approve(_) => false
  }

  ghost predicate AskedBy(st: State, l: Label, e: Event) {
    match l
    case Work(_, _) => Asked(st.flight, e)
    case Check(_, now) => e.Approved? && st.flight.Running? && st.flight.call == Call.Approve(e.id) && e.at == now
    case Reject(_, id) => e == Declined(id)
    case Close(_) => e.Closed?
    case _ => false
  }

  ghost predicate Extends(later: seq<Event>, earlier: seq<Event>) {
    |earlier| <= |later| && later[..|earlier|] == earlier
  }

  /** Everything after the earlier part of the log was asked for by this operation. */
  ghost predicate Adds(later: seq<Event>, earlier: seq<Event>, f: Flight) {
    Extends(later, earlier) && forall k :: |earlier| <= k < |later| ==> Asked(f, later[k])
  }

  lemma Added(log: seq<Event>, earlier: seq<Event>, f: Flight, e: Event)
    requires Adds(log, earlier, f) && Asked(f, e)
    ensures Adds(log + [e], earlier, f)
  {
    assert (log + [e])[..|earlier|] == log[..|earlier|];
  }

  lemma AddsNothing(log: seq<Event>, f: Flight)
    ensures Adds(log, log, f)
  {
  }

  lemma LoadPageAdds(w: World, s: Snapshot, env: Env, earlier: seq<Event>, f: Flight)
    requires w.store.Some? && Adds(w.log, earlier, f)
    ensures Adds(LoadPage(w, s, env).w.log, earlier, f)
  {
    hide Adds;
    var e := Described(w.store.value, s.browse.table, Told(env.schema));
    Added(w.log, earlier, f, e);
    Added(w.Log(e).log, earlier, f, Browsed(w.store.value, s.browse, Told(env.page)));
  }

  lemma SwitchAdds(w: World, s: Snapshot, p: Profile, id: nat, env: Env, earlier: seq<Event>, f: Flight)
    requires env.resolved.Ok? && env.tables.Ok? && Adds(w.log, earlier, f)
    ensures Adds(Switch(w, s, p, id, env).w.log, earlier, f)
  {
    hide Adds, LoadPage;
    var w1 := if w.store.Some?
              then w.(views := w.views[s.connection := s.browse]).Log(Event.Closed(w.store.value)) else w;
    if w.store.Some? {
      Added(w.log, earlier, f, Event.Closed(w.store.value));
    }
    var w2 := w1.(store := Some(id)).Log(Connected(id));
    Added(w1.log, earlier, f, Connected(id));
    var s2 := s.(connection := p.name, database := env.resolved.value, tables := env.tables.value,
                 schema := EMPTY_SCHEMA, result := EMPTY_PAGE, query := false, pending := None,
                 browse := RestoreView(w1.views, p.name, env.tables.value),
                 status := ConnectedTo(p.name, true));
    LoadPageAdds(w2, s2, env, earlier, f);
  }

  lemma ConnectAdds(w: World, s: Snapshot, p: Profile, test: bool, env: Env, f: Flight)
    requires f.Running? && Names(f.call, p.name)
    ensures Adds(ConnectProfile(w, s, p, test, env).w.log, w.log, f)
  {
    hide Adds, Switch;
    AddsNothing(w.log, f);
    if env.resolved.Ok? && env.open.Ok? {
      var id := w.openings;
      var w1 := w.(openings := id + 1).Log(Opened(id, p.name, env.resolved.value));
      Added(w.log, w.log, f, Opened(id, p.name, env.resolved.value));
      Added(w1.log, w.log, f, Event.Closed(id));
      var w2 := w1.Log(Listed(id, Told(env.tables)));
      Added(w1.log, w.log, f, Listed(id, Told(env.tables)));
      Added(w2.log, w.log, f, Event.Closed(id));
      if env.tables.Ok? {
        SwitchAdds(w2, s, p, id, env, w.log, f);
      }
    }
  }

  lemma RefreshAdds(w: World, s: Snapshot, env: Env, f: Flight)
    requires w.store.Some?
    ensures Adds(RefreshList(w, s, env).w.log, w.log, f)
  {
    hide Adds, LoadPage;
    AddsNothing(w.log, f);
    Added(w.log, w.log, f, Listed(w.store.value, Told(env.tables)));
    if env.tables.Ok? {
      LoadPageAdds(w.Log(Listed(w.store.value, Told(env.tables))), s.(tables := env.tables.value), env, w.log, f);
    }
  }

  lemma PerformAdds(w: World, s: Snapshot, a: Action, env: Env, f: Flight)
    requires f.Running? && f.call == Act(a) && f.s == s
    ensures Adds(Perform(w, s, a, env).w.log, w.log, f)
  {
    hide Adds, LoadPage, RefreshList, ConnectProfile;
    AddsNothing(w.log, f);
    if a.Connect? || a.Test? {
      var p := FindProfile(w.profiles, a.connection);
      if p.Some? {
        ConnectAdds(w, s, p.value, a.Test?, env, f);
      }
    } else if w.store.Some? {
      if a.Refresh? {
        RefreshAdds(w, s, env, f);
      } else if a.Query? {
        Added(w.log, w.log, f, Queried(w.store.value, a.sql, Told(env.queried)));
      } else if a.Write? {
        var o := StageWrite(w, s, a.sql, env);
        if o.error.None? {
          Added(w.log, w.log, f, Staged(w.store.value, o.s.pending.value, env.now));
        }
      } else if Edit(s, a).Ok? {
        LoadPageAdds(w, s.(browse := Edit(s, a).value), env, w.log, f);
      }
    }
  }

  lemma RunWriteAdds(w: World, s: Snapshot, env: Env, f: Flight)
    requires w.store.Some? && f.Writing?
    ensures Adds(RunWrite(w, s, f.write.sql, env).w.log, w.log, f)
  {
    hide Adds, LoadPage;
    AddsNothing(w.log, f);
    var e := Executed(w.store.value, f.write.sql, env.executed.Ok?);
    Added(w.log, w.log, f, e);
    Added(w.Log(e).log, w.log, f, Listed(w.store.value, Told(env.tables)));
    if env.tables.Ok? {
      var w2 := w.Log(e).Log(Listed(w.store.value, Told(env.tables)));
      LoadPageAdds(w2, s.(tables := env.tables.value), env, w.log, f);
    }
  }

  lemma WorkAdds(st: State, env: Env)
    requires (st.flight.Running? && !st.flight.call.Approve?) || (st.flight.Writing? && st.world.store.Some?)
    ensures Adds(WorkStep(st, env).world.log, st.world.log, st.flight)
  {
    hide Perform, RunWrite, ConnectProfile, Adds;
    if st.flight.Writing? {
      RunWriteAdds(st.world, st.flight.s, env, st.flight);
    } else if st.flight.call.Act? {
      PerformAdds(st.world, st.flight.s, st.flight.call.action, env, st.flight);
    } else {
      AddsNothing(st.world.log, st.flight);
      ConnectAdds(st.world, st.flight.s, st.flight.call.profile, st.flight.call.test, env, st.flight);
    }
  }

  /** A step only adds to the log, and only what its label asks for. */
  lemma LogGrows(st: State, l: Label)
    requires Step(st, l).Some?
    ensures var later := Step(st, l).value.world.log;
            && Extends(later, st.world.log)
            && forall k :: |st.world.log| <= k < |later| ==> AskedBy(st, l, later[k])
  {
    hide WorkStep;
    if l.Work? {
      WorkAdds(st, l.env);
    }
  }

  lemma StartsEmpty(allowWrites: bool)
    ensures Exec(Initial(allowWrites), []) == Some(Initial(allowWrites)) && Initial(allowWrites).world.log == []
  {
  }

  /** Every event of a run has a step that made it. */
  lemma {:induction false} EventHasCause(allowWrites: bool, labels: seq<Label>, st: State, i: nat) returns (k: nat)
    requires Exec(Initial(allowWrites), labels) == Some(st) && i < |st.world.log|
    ensures k < |labels| && StateAt(allowWrites, labels, k).Some?
    ensures |StateAt(allowWrites, labels, k).value.world.log| <= i
    ensures AskedBy(StateAt(allowWrites, labels, k).value, labels[k], st.world.log[i])
  {
    hide Step, AskedBy;
    StartsEmpty(allowWrites);
    var n := |labels| - 1;
    var before := Exec(Initial(allowWrites), labels[..n]).value;
    LogGrows(before, labels[n]);
    if i < |before.world.log| {
      assert st.world.log[..|before.world.log|][i] == before.world.log[i];
      k := EventHasCause(allowWrites, labels[..n], before, i);
      assert labels[..n][..k] == labels[..k];
    } else {
      k := n;
    }
  }

  /** The caller and the call by which the operation in flight began. */
  function Beginning(f: Flight): Label
    requires f.Running? || f.Writing?
  {
    Begin(f.who, if f.Running? then f.call else Call.Approve(f.write.id))
  }

  lemma BegunBefore(st: State, l: Label)
    requires Step(st, l).Some? && (Step(st, l).value.flight.Running? || Step(st, l).value.flight.Writing?)
    ensures var t := Step(st, l).value;
            if l.Begin? then l == Beginning(t.flight)
            else (st.flight.Running? || st.flight.Writing?) && Beginning(st.flight) == Beginning(t.flight)
  {
    hide WorkStep;
    if l.Work? {
      WorkIsPrivate(st, l.env);
    }
  }

  /** An operation in flight was begun by its caller, for the call that it works on. */
  lemma {:induction false} CallWasBegun(allowWrites: bool, labels: seq<Label>, st: State) returns (b: nat)
    requires Exec(Initial(allowWrites), labels) == Some(st) && (st.flight.Running? || st.flight.Writing?)
    ensures b < |labels|
    ensures labels[b] == Beginning(st.flight)
  {
    hide Step;
    StartsEmpty(allowWrites);
    var n := |labels| - 1;
    var before := Exec(Initial(allowWrites), labels[..n]).value;
    BegunBefore(before, labels[n]);
    if labels[n].Begin? {
      b := n;
    } else {
      b := CallWasBegun(allowWrites, labels[..n], before);
    }
  }

  // ---------------------------------------------------------------- the write gate

  /**
   Operations never change whether writes are enabled, stage no write where they are not, and
   forget no profile.
   */
  ghost predicate Modest(w: World, s: Snapshot, o: Outcome) {
    && o.s.writesEnabled == s.writesEnabled
    && (!s.writesEnabled && s.pending.None? ==> o.s.pending.None?)
    && w.profiles <= o.w.profiles
  }

  lemma LoadPageIsModest(w: World, s: Snapshot, env: Env)
    requires w.store.Some?
    ensures Modest(w, s, LoadPage(w, s, env))
  {
  }

  lemma ConnectIsModest(w: World, s: Snapshot, p: Profile, test: bool, env: Env)
    ensures Modest(w, s, ConnectProfile(w, s, p, test, env))
  {
    hide RestoreView;
  }

  lemma PerformIsModest(w: World, s: Snapshot, a: Action, env: Env)
    ensures Modest(w, s, Perform(w, s, a, env))
  {
    hide ConnectProfile, LoadPage, Edit;
    if a.Connect? || a.Test? {
      var p := FindProfile(w.profiles, a.connection);
      if p.Some? {
        ConnectIsModest(w, s, p.value, a.Test?, env);
      }
    } else if w.store.Some? {
      if a.Refresh? {
        RefreshIsModest(w, s, env);
      } else if Edit(s, a).Ok? {
        LoadPageIsModest(w, s.(browse := Edit(s, a).value), env);
      }
    }
  }

  lemma RefreshIsModest(w: World, s: Snapshot, env: Env)
    requires w.store.Some?
    ensures Modest(w, s, RefreshList(w, s, env))
  {
  }

  lemma RunWriteIsModest(w: World, s: Snapshot, sql: string, env: Env)
    requires w.store.Some?
    ensures Modest(w, s, RunWrite(w, s, sql, env))
  {
  }

  lemma WorkIsModest(st: State, env: Env)
    requires (st.flight.Running? && !st.flight.call.Approve?) || (st.flight.Writing? && st.world.store.Some?)
    ensures var t := WorkStep(st, env); Modest(st.world, st.flight.s, Outcome(t.world, t.flight.s, t.flight.error))
  {
    hide Perform, ConnectProfile, RunWrite;
    if st.flight.Writing? {
      RunWriteIsModest(st.world, st.flight.s, st.flight.write.sql, env);
    } else if st.flight.call.Act? {
      PerformIsModest(st.world, st.flight.s, st.flight.call.action, env);
    } else {
      ConnectIsModest(st.world, st.flight.s, st.flight.call.profile, st.flight.call.test, env);
    }
  }

  ghost predicate Gate(st: State, allowWrites: bool) {
    && st.snap.writesEnabled == allowWrites && (!allowWrites ==> st.snap.pending.None?)
    && (!st.flight.Idle? ==>
          st.flight.s.writesEnabled == allowWrites && (!allowWrites ==> st.flight.s.pending.None?))
  }

  lemma StepKeepsGate(st: State, l: Label, allowWrites: bool)
    requires Gate(st, allowWrites) && Step(st, l).Some?
    ensures Gate(Step(st, l).value, allowWrites)
  {
    hide WorkStep;
    if l.Work? {
      WorkIsModest(st, l.env);
      WorkIsPrivate(st, l.env);
    }
  }

  /** Between its locked regions an operation touches neither the committed snapshot nor the feed. */
  lemma WorkIsPrivate(st: State, env: Env)
    requires (st.flight.Running? && !st.flight.call.Approve?) || (st.flight.Writing? && st.world.store.Some?)
    ensures var t := WorkStep(st, env);
            && t.snap == st.snap && t.closed == st.closed && t.events == st.events && t.delivered == st.delivered
            && t.flight.Done? && t.flight.who == st.flight.who
  {
  }

  lemma {:induction false} EveryRunIsGated(allowWrites: bool, labels: seq<Label>)
    requires Exec(Initial(allowWrites), labels).Some?
    ensures Gate(Exec(Initial(allowWrites), labels).value, allowWrites)
  {
    hide Step;
    if labels != [] {
      var n := |labels| - 1;
      EveryRunIsGated(allowWrites, labels[..n]);
      StepKeepsGate(Exec(Initial(allowWrites), labels[..n]).value, labels[n], allowWrites);
    }
  }

  // ---------------------------------------------------------------- profiles

  /** A set-up that succeeds and is no test keeps the profile and lists its name. */
  lemma SetUpAddsProfile(w: World, s: Snapshot, p: Profile, env: Env)
    requires SetUp(w, s, p, false, env).error.None?
    ensures !Text.Blank(p.name) && !KnownProfile(w.profiles, p.name)
    ensures SetUp(w, s, p, false, env).w.profiles == w.profiles + [p]
    ensures SetUp(w, s, p, false, env).s.connections == s.connections + [p.name]
  {
    hide ConnectProfile;
    ConnectKeepsProfiles(w, s, p, false, env);
  }

  lemma ConnectKeepsProfiles(w: World, s: Snapshot, p: Profile, test: bool, env: Env)
    ensures var o := ConnectProfile(w, s, p, test, env);
            o.w.profiles == w.profiles && o.s.connections == s.connections
  {
    hide RestoreView;
  }

  lemma {:induction false} FoundInLonger(profiles: seq<Profile>, more: seq<Profile>, name: string)
    requires FindProfile(profiles, name).Some?
    ensures FindProfile(profiles + more, name) == FindProfile(profiles, name)
  {
    if profiles[0].name != name {
      FoundInLonger(profiles[1..], more, name);
      assert (profiles + more)[1..] == profiles[1..] + more;
    }
  }

  lemma {:induction false} FoundAtEnd(profiles: seq<Profile>, p: Profile)
    requires !KnownProfile(profiles, p.name)
    ensures FindProfile(profiles + [p], p.name) == Some(p)
  {
    if profiles != [] {
      assert profiles[0].name != p.name;
      forall i | 0 <= i < |profiles[1..]| ensures profiles[1..][i].name != p.name {
        assert profiles[1..][i] == profiles[i + 1];
      }
      FoundAtEnd(profiles[1..], p);
      assert (profiles + [p])[1..] == profiles[1..] + [p];
    }
  }

  /** No step of a run forgets a profile. */
  lemma ProfilesGrow(st: State, l: Label)
    requires Step(st, l).Some?
    ensures st.world.profiles <= Step(st, l).value.world.profiles
  {
    hide WorkStep;
    if l.Work? {
      WorkIsModest(st, l.env);
    }
  }

  lemma FoundAfterStep(st: State, l: Label, name: string)
    requires Step(st, l).Some? && FindProfile(st.world.profiles, name).Some?
    ensures FindProfile(Step(st, l).value.world.profiles, name) == FindProfile(st.world.profiles, name)
  {
    hide Step;
    ProfilesGrow(st, l);
    var before, after := st.world.profiles, Step(st, l).value.world.profiles;
    assert after == before + after[|before|..];
    FoundInLonger(before, after[|before|..], name);
  }

  /** At this position of a run, setting up this connection succeeds. */
  ghost predicate SetsUp(allowWrites: bool, labels: seq<Label>, k: nat, p: Profile)
    requires k < |labels|
  {
    var st, t := StateAt(allowWrites, labels, k), StateAt(allowWrites, labels, k + 1);
    && st.Some? && t.Some? && labels[k].Work?
    && st.value.flight.Running? && st.value.flight.call == Call.Setup(p, false)
    && t.value.flight.Done? && t.value.flight.error.None?
  }

  /** A connection that was set up stays available under its name, in every later state of the run. */
  lemma {:induction false} SetUpIsKept(allowWrites: bool, labels: seq<Label>, k: nat, m: nat, p: Profile)
    requires k < m <= |labels| && SetsUp(allowWrites, labels, k, p) && StateAt(allowWrites, labels, m).Some?
    ensures FindProfile(StateAt(allowWrites, labels, m).value.world.profiles, p.name) == Some(p)
    decreases m
  {
    hide Step;
    assert labels[..m][..m - 1] == labels[..m - 1];
    var before, l := StateAt(allowWrites, labels, m - 1).value, labels[m - 1];
    if m == k + 1 {
      SetUpStep(before, l, p);
    } else {
      SetUpIsKept(allowWrites, labels, k, m - 1, p);
      FoundAfterStep(before, l, p.name);
    }
  }

  lemma SetUpStep(st: State, l: Label, p: Profile)
    requires Step(st, l).Some? && l.Work? && st.flight.Running? && st.flight.call == Call.Setup(p, false)
    requires Step(st, l).value.flight.error.None?
    ensures FindProfile(Step(st, l).value.world.profiles, p.name) == Some(p)
  {
    hide SetUp;
    SetUpAddsProfile(st.world, st.flight.s, p, l.env);
    FoundAtEnd(st.world.profiles, p);
  }

  /** A known name connects to its profile and can be neither set up nor added again. */
  lemma KnownNameIsTaken(st: State, s: Snapshot, p: Profile, q: Profile, test: bool, env: Env)
    requires FindProfile(st.world.profiles, p.name) == Some(p) && q.name == p.name
    ensures !env.expired ==>
              Perform(st.world, s, Connect(p.name), env) == ConnectProfile(st.world, s, p, false, env)
    ensures SetUp(st.world, s, q, test, env).error.Some? && SetUp(st.world, s, q, test, env).w == st.world
    ensures AddProfileStep(st, q) == st
  {
    hide ConnectProfile;
  }
}
