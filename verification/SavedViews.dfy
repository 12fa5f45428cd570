/** Saved views: leaving a connection and coming back to it, with anything in between. */
module SavedViews {
  import opened Wrappers
  import opened Database
  import opened Session
  import opened Runs

  function Saved(views: map<string, BrowseRequest>, name: string): Option<BrowseRequest> {
    if name in views then Some(views[name]) else None
  }

  /** The settings under which a connection was last shown, seen from an operation that connects to it. */
  function LastShown(w: World, s: Snapshot, name: string): Option<BrowseRequest> {
    if w.store.Some? && s.connection == name then Some(s.browse) else Saved(w.views, name)
  }

  /** A successful connect saves the view of the connection it leaves and touches no other view. */
  lemma ConnectSavesView(w: World, s: Snapshot, p: Profile, test: bool, env: Env, name: string)
    ensures var o := ConnectProfile(w, s, p, test, env);
            && (name != s.connection ==> Saved(o.w.views, name) == Saved(w.views, name))
            && (o.error.None? && !test && w.store.Some? ==> Saved(o.w.views, s.connection) == Some(s.browse))
  {
  }

  /** It restores the remembered settings exactly when their table still exists. */
  lemma ConnectRestoresView(w: World, s: Snapshot, p: Profile, env: Env, b: BrowseRequest)
    requires ConnectProfile(w, s, p, false, env).error.None? && LastShown(w, s, p.name) == Some(b) && b.table != ""
    ensures env.tables.Ok?
    ensures ConnectProfile(w, s, p, false, env).s.browse == b <==> HasTable(env.tables.value, b.table)
  {
    var o := ConnectProfile(w, s, p, false, env);
    if !HasTable(env.tables.value, b.table) && o.s.browse.table != "" {
      assert o.s.browse.table == env.tables.value[0].name;
    }
  }

  lemma WorkSavesOnlyItsView(st: State, env: Env, name: string)
    requires (st.flight.Running? && !st.flight.call.Approve?) || (st.flight.Writing? && st.world.store.Some?)
    requires st.flight.s.connection != name
    ensures Saved(WorkStep(st, env).world.views, name) == Saved(st.world.views, name)
  {
    hide ConnectProfile;
    if st.flight.Running? {
      match st.flight.call
      case Act(a) =>
        if a.Connect? || a.Test? {
          var p := FindProfile(st.world.profiles, a.connection);
          if p.Some? {
            ConnectSavesView(st.world, st.flight.s, p.value, a.Test?, env, name);
          }
        }
      case Setup(p, test) => ConnectSavesView(st.world, st.flight.s, p, test, env, name);
    }
  }

  /** No operation between these positions starts from this connection. */
  ghost predicate Away(allowWrites: bool, labels: seq<Label>, i: nat, j: nat, name: string)
    requires i <= j <= |labels|
  {
    forall k :: i <= k < j && labels[k].Work? ==>
      StateAt(allowWrites, labels, k).Some? && !StateAt(allowWrites, labels, k).value.flight.Idle?
      && StateAt(allowWrites, labels, k).value.flight.s.connection != name
  }

  lemma StepSavesOnlyItsView(st: State, l: Label, name: string)
    requires Step(st, l).Some? && (l.Work? ==> !st.flight.Idle? && st.flight.s.connection != name)
    ensures Saved(Step(st, l).value.world.views, name) == Saved(st.world.views, name)
  {
    hide WorkStep;
    if l.Work? {
      WorkSavesOnlyItsView(st, l.env, name);
    }
  }

  lemma {:induction false} ViewStays(allowWrites: bool, labels: seq<Label>, i: nat, j: nat, name: string)
    requires i <= j <= |labels| && StateAt(allowWrites, labels, j).Some? && Away(allowWrites, labels, i, j, name)
    ensures StateAt(allowWrites, labels, i).Some?
    ensures Saved(StateAt(allowWrites, labels, j).value.world.views, name)
            == Saved(StateAt(allowWrites, labels, i).value.world.views, name)
    decreases j - i
  {
    hide Step;
    if i < j {
      assert labels[..j][..j - 1] == labels[..j - 1];
      ViewStays(allowWrites, labels, i, j - 1, name);
      var before, l := StateAt(allowWrites, labels, j - 1).value, labels[j - 1];
      StepSavesOnlyItsView(before, l, name);
    }
  }

  /** The operation in flight is a connect action to this profile, or sets it up and is no test. */
  ghost predicate ConnectingTo(st: State, p: Profile)
    requires st.flight.Running?
  {
    match st.flight.call
    case Act(a) => a.Connect? && FindProfile(st.world.profiles, a.connection) == Some(p)
    case Setup(profile, test) => profile == p && !test
    case Approve(_) => false
  }

  lemma ConnectedBySetup(w: World, s: Snapshot, p: Profile, env: Env)
    requires SetUp(w, s, p, false, env).error.None?
    ensures var o, c := SetUp(w, s, p, false, env), ConnectProfile(w, s, p, false, env);
            c.error.None? && o.w.views == c.w.views && o.s.browse == c.s.browse
  {
    hide ConnectProfile;
  }

  lemma ConnectedByAction(w: World, s: Snapshot, a: Action, p: Profile, env: Env)
    requires a.Connect? && FindProfile(w.profiles, a.connection) == Some(p) && Perform(w, s, a, env).error.None?
    ensures Perform(w, s, a, env) == ConnectProfile(w, s, p, false, env)
  {
    hide ConnectProfile;
  }

  /** Either way of connecting leaves the views and the browse settings that the connect function gives. */
  lemma ConnectedEitherWay(st: State, p: Profile, env: Env)
    requires st.flight.Running? && ConnectingTo(st, p) && WorkStep(st, env).flight.error.None?
    ensures var c := ConnectProfile(st.world, st.flight.s, p, false, env);
            && c.error.None? && WorkStep(st, env).world.views == c.w.views
            && WorkStep(st, env).flight.s.browse == c.s.browse
  {
    hide ConnectProfile, Perform, SetUp;
    match st.flight.call
    case Act(a) => ConnectedByAction(st.world, st.flight.s, a, p, env);
    case Setup(profile, test) => ConnectedBySetup(st.world, st.flight.s, p, env);
  }

  /** At this position of a run, an operation connects to this profile and succeeds. */
  ghost predicate Connects(allowWrites: bool, labels: seq<Label>, i: nat, p: Profile)
    requires i < |labels|
  {
    var st := StateAt(allowWrites, labels, i);
    && st.Some? && labels[i].Work? && st.value.flight.Running?
    && ConnectingTo(st.value, p)
    && Step(st.value, labels[i]).Some? && Step(st.value, labels[i]).value.flight.error.None?
  }

  /**
   Across a run: whatever a connection was showing when an operation left it is what it shows
   when it is connected again, whoever did what in between, if its table still exists then.
   */
  lemma ViewsComeBack(allowWrites: bool, labels: seq<Label>, i: nat, j: nat, away: Profile, back: Profile)
    requires i < j < |labels|
    requires Connects(allowWrites, labels, i, away) && Connects(allowWrites, labels, j, back)
    requires StateAt(allowWrites, labels, i).value.world.store.Some?
    requires StateAt(allowWrites, labels, i).value.flight.s.connection == back.name
    requires StateAt(allowWrites, labels, i).value.flight.s.browse.table != ""
    requires Away(allowWrites, labels, i + 1, j + 1, back.name)
    ensures labels[j].env.tables.Ok?
    ensures HasTable(labels[j].env.tables.value, StateAt(allowWrites, labels, i).value.flight.s.browse.table) <==>
            StateAt(allowWrites, labels, j + 1).Some?
            && StateAt(allowWrites, labels, j + 1).value.flight.Done?
            && StateAt(allowWrites, labels, j + 1).value.flight.s.browse
                == StateAt(allowWrites, labels, i).value.flight.s.browse
  {
    hide ConnectProfile;
    var st, again := StateAt(allowWrites, labels, i).value, StateAt(allowWrites, labels, j).value;
    ConnectedEitherWay(st, away, labels[i].env);
    ConnectedEitherWay(again, back, labels[j].env);
    ConnectSavesView(st.world, st.flight.s, away, false, labels[i].env, back.name);
    assert labels[..i + 1][..i] == labels[..i] && labels[..j + 1][..j] == labels[..j];
    ViewStays(allowWrites, labels, i + 1, j, back.name);
    ConnectRestoresView(again.world, again.flight.s, back, labels[j].env, st.flight.s.browse);
  }
}
