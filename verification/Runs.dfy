/**
 Runs of the application with any number of concurrent callers. A step is one region that
 the code executes under its state mutex, or the part of an operation between two such
 regions, which touches only what the operation lock protects. The operation lock is a
 try-lock: `Begin` is possible only while it is free, and a caller that finds it taken
 takes a `Refuse` step.
 */
module Runs {
  import opened Wrappers
  import opened Database
  import opened Session
  import opened Ledger
  import opened Consistency
  import Text

  datatype Call = Act(action: Action) | Setup(profile: Profile, test: bool) | Approve(id: string)

  /** The operation that holds the operation lock, with its private snapshot. */
  datatype Flight =
    | Idle
    | Running(who: nat, call: Call, s: Snapshot)
    | Writing(who: nat, s: Snapshot, write: PendingWrite)
    | Done(who: nat, s: Snapshot, error: Option<Error>)

  /** `events` is the capacity-one channel; `delivered` is what its consumer has received so far. */
  datatype State = State(
    snap: Snapshot, world: World, closed: bool, flight: Flight,
    events: Option<Snapshot>, delivered: seq<Snapshot>)

  datatype Label =
    | Begin(who: nat, call: Call)
    | Check(who: nat, now: int)
    | Work(who: nat, env: Env)
    | Finish(who: nat)
    | AddProfile(who: nat, profile: Profile)
    | Reject(who: nat, id: string)
    | Close(who: nat)
    | Refuse(who: nat)
    | Look(who: nat)
    | Receive

  function Initial(allowWrites: bool): State {
    State(InitialSnapshot(allowWrites), World([], None, map[], 0, []), false, Idle, None, [])
  }

  /** Counts a new revision and replaces an unread event by the new snapshot. */
  function Publish(st: State): State {
    var s := st.snap.(revision := st.snap.revision + 1);
    st.(snap := s, events := Some(s))
  }

  function BeginStep(st: State, who: nat, call: Call): State {
    var next := Publish(st.(snap := st.snap.(busy := true, error := None)));
    next.(flight := Running(who, call, next.snap))
  }

  function CheckStep(st: State, now: int): State
    requires st.flight.Running? && st.flight.call.Approve?
  {
    var s, id := st.flight.s, st.flight.call.id;
    if Approvable(s, id, now) then
      Publish(st.(snap := st.snap.(pending := None), world := st.world.Log(Session.Approved(id, now))))
        .(flight := Writing(st.flight.who, s.(pending := None), s.pending.value))
    else st.(flight := Done(st.flight.who, s, Some(NotApprovable)))
  }

  function WorkStep(st: State, env: Env): State
    requires (st.flight.Running? && !st.flight.call.Approve?) || (st.flight.Writing? && st.world.store.Some?)
  {
    var o := if st.flight.Writing? then RunWrite(st.world, st.flight.s, st.flight.write.sql, env)
             else match st.flight.call
                  case Act(action) => Perform(st.world, st.flight.s, action, env)
                  case Setup(p, test) => SetUp(st.world, st.flight.s, p, test, env);
    st.(world := o.w, flight := Done(st.flight.who, o.s, o.error))
  }

  function FinishStep(st: State): State
    requires st.flight.Done?
  {
    var s := if st.flight.error.Some? then st.snap.(error := st.flight.error)
             else st.flight.s.(revision := st.snap.revision);
    Publish(st.(snap := s.(busy := false))).(flight := Idle)
  }

  function AddProfileStep(st: State, p: Profile): State {
    if st.closed || Text.Blank(p.name) || KnownProfile(st.world.profiles, p.name) then st
    else Publish(st.(snap := st.snap.(connections := st.snap.connections + [p.name]),
                     world := st.world.(profiles := st.world.profiles + [p])))
  }

  function RejectStep(st: State, id: string): State {
    if st.closed || st.snap.pending.None? || st.snap.pending.value.id != id then st
    else Publish(st.(snap := st.snap.(pending := None, status := WriteRejected),
                     world := st.world.Log(Declined(id))))
  }

  function CloseStep(st: State): State {
    if st.closed then st
    else st.(closed := true,
             world := if st.world.store.Some? then st.world.Log(Session.Closed(st.world.store.value)) else st.world)
  }

  /** The state after a step, or None where the step cannot be taken. */
  ghost function Step(st: State, l: Label): Option<State> {
    match l
    case Begin(who, call) => if st.flight.Idle? && !st.closed then Some(BeginStep(st, who, call)) else None
    case Check(who, now) =>
      if st.flight.Running? && st.flight.call.Approve? && st.flight.who == who then Some(CheckStep(st, now)) else None
    case Work(who, env) =>
      if && Fresh(st.world, env)
         && ((st.flight.Running? && !st.flight.call.Approve?) || (st.flight.Writing? && st.world.store.Some?))
         && st.flight.who == who
      then Some(WorkStep(st, env)) else None
    case Finish(who) => if st.flight.Done? && st.flight.who == who then Some(FinishStep(st)) else None
    case AddProfile(_, p) => if st.flight.Idle? then Some(AddProfileStep(st, p)) else None
    case Reject(_, id) => if st.flight.Idle? then Some(RejectStep(st, id)) else None
    case Close(_) => if st.flight.Idle? then Some(CloseStep(st)) else None
    case Refuse(_) => if !st.flight.Idle? || st.closed then Some(st) else None
    case Look(_) => Some(st)
    case Receive =>
      if st.events.Some? then Some(st.(events := None, delivered := st.delivered + [st.events.value])) else None
  }

  ghost function Exec(st: State, labels: seq<Label>): Option<State> {
    if labels == [] then Some(st)
    else
      var before := Exec(st, labels[..|labels| - 1]);
      if before.None? then None else Step(before.value, labels[|labels| - 1])
  }

  /** The state of a run after its first i steps. */
  ghost function StateAt(allowWrites: bool, labels: seq<Label>, i: nat): Option<State>
    requires i <= |labels|
  {
    Exec(Initial(allowWrites), labels[..i])
  }

  // ---------------------------------------------------------------- invariant of every run

  ghost predicate LinkedInFlight(st: State) {
    match st.flight
    case Idle => Linked(st.world, st.snap)
    case Running(_, _, s) => s == st.snap && Linked(st.world, s)
    case Writing(_, s, write) =>
      s.(revision := st.snap.revision) == st.snap && Consumed(st.world, s, write)
    case Done(_, s, error) => if error.None? then Linked(st.world, s) else Linked(st.world, st.snap)
  }

  ghost predicate FeedOk(st: State) {
    && (st.events.Some? ==> st.events.value == st.snap)
    && (forall i :: 0 <= i < |st.delivered| ==>
          st.delivered[i].revision <= st.snap.revision - (if st.events.Some? then 1 else 0))
    && (forall i, j :: 0 <= i < j < |st.delivered| ==> st.delivered[i].revision < st.delivered[j].revision)
  }

  ghost predicate Inv(st: State) {
    && (st.closed ==> st.flight.Idle?)
    && (if st.closed then Settled(st.world, st.snap) && OpenStores(st.world.log) == {} else LinkedInFlight(st))
    && (st.snap.busy <==> !st.flight.Idle?)
    && Tidy(st.snap.browse) && TableListed(st.snap)
    && FeedOk(st)
  }

  /** Being linked does not depend on the revision, the busy mark, the error or the status. */
  lemma SameLinked(w: World, s: Snapshot, t: Snapshot)
    requires Linked(w, s)
    requires t == s.(revision := t.revision, busy := t.busy, error := t.error, status := t.status)
    ensures Linked(w, t)
  {
    SameShown(w, s, t);
  }

  lemma InitialOk(allowWrites: bool)
    ensures Inv(Initial(allowWrites))
  {
    TidyStart(NewRequest(100));
  }

  /** An operation in flight keeps the application open, and one that writes has a store to write to. */
  lemma OpenInFlight(st: State)
    requires Inv(st) && !st.flight.Idle?
    ensures !st.closed && (st.flight.Writing? ==> st.world.store.Some?)
  {
  }

  lemma OperationKeepsInv(st: State, l: Label)
    requires Inv(st) && Step(st, l).Some?
    requires l.Begin? || l.Check? || l.Work? || l.Finish?
    ensures Inv(Step(st, l).value)
  {
    var t := Step(st, l).value;
    match l
    case Begin(who, call) =>
      SameLinked(st.world, st.snap, t.snap);
    case Check(who, now) =>
      if Approvable(st.snap, st.flight.call.id, now) {
        ApprovalConsumes(st.world, st.snap, st.flight.call.id, now);
      }
    case Work(who, env) =>
      if st.flight.Writing? {
        WriteKeeps(st.world, st.flight.s, st.flight.write, env);
        if t.flight.error.Some? {
          SameLinked(t.world, st.flight.s, st.snap);
        }
      } else if st.flight.call.Act? {
        PerformKeeps(st.world, st.flight.s, st.flight.call.action, env);
      } else {
        SetUpKeeps(st.world, st.flight.s, st.flight.call.profile, st.flight.call.test, env);
      }
    case Finish(who) =>
      SameLinked(st.world, if st.flight.error.None? then st.flight.s else st.snap, t.snap);
  }

  lemma OtherStepsKeepInv(st: State, l: Label)
    requires Inv(st) && Step(st, l).Some?
    requires !(l.Begin? || l.Check? || l.Work? || l.Finish?)
    ensures Inv(Step(st, l).value)
  {
    var t := Step(st, l).value;
    match l
    case AddProfile(_, p) =>
      if t != st {
        AddProfileKeeps(st.world, st.snap, p);
        SameLinked(t.world, st.snap.(connections := st.snap.connections + [p.name]), t.snap);
      }
    case Reject(_, id) =>
      if t != st {
        RejectionKeeps(st.world, st.snap, id);
        SameLinked(t.world, st.snap.(pending := None, status := WriteRejected), t.snap);
      }
    case Close(_) =>
      if !st.closed && st.world.store.Some? {
        Grow(st.world.log, Session.Closed(st.world.store.value));
        StillShown(st.world, st.snap, Session.Closed(st.world.store.value));
      }
    case Refuse(_) =>
    case Look(_) =>
    case Receive =>
  }

  /** The invariant holds in every state of every run. */
  lemma {:induction false} EveryRun(allowWrites: bool, labels: seq<Label>)
    requires Exec(Initial(allowWrites), labels).Some?
    ensures Inv(Exec(Initial(allowWrites), labels).value)
  {
    InitialOk(allowWrites);
    if labels != [] {
      var n := |labels| - 1;
      EveryRun(allowWrites, labels[..n]);
      var before, l := Exec(Initial(allowWrites), labels[..n]).value, labels[n];
      if l.Begin? || l.Check? || l.Work? || l.Finish? {
        OperationKeepsInv(before, l);
      } else {
        OtherStepsKeepInv(before, l);
      }
    }
  }

  // ---------------------------------------------------------------- revisions

  lemma StepRevision(st: State, l: Label)
    requires Step(st, l).Some?
    ensures var t := Step(st, l).value; t.snap == st.snap || t.snap.revision > st.snap.revision
  {
  }

  /** Along a run the revision never decreases, and one revision names one snapshot. */
  lemma {:induction false} RevisionNamesSnapshot(st: State, labels: seq<Label>, i: nat)
    requires Exec(st, labels).Some? && i <= |labels|
    ensures Exec(st, labels[..i]).Some?
    ensures var a, b := Exec(st, labels[..i]).value.snap, Exec(st, labels).value.snap;
            a.revision <= b.revision && (a.revision == b.revision ==> a == b)
  {
    if i < |labels| {
      var n := |labels| - 1;
      RevisionNamesSnapshot(st, labels[..n], i);
      assert labels[..n][..i] == labels[..i];
      StepRevision(Exec(st, labels[..n]).value, labels[n]);
    } else {
      assert labels[..i] == labels;
    }
  }

  // ---------------------------------------------------------------- one call at a time

  /** The state apart from the event channel. */
  function Core(st: State): State { st.(events := None, delivered := []) }

  predicate Neutral(l: Label) { l.Refuse? || l.Look? || l.Receive? }

  datatype History = History(done: seq<seq<Label>>, current: seq<Label>)

  function Advance(h: History, l: Label): History {
    match l
    case Begin(_, _) => History(h.done, [l])
    case Check(_, _) => History(h.done, h.current + [l])
    case Work(_, _) => History(h.done, h.current + [l])
    case Finish(_) => History(h.done + [h.current + [l]], [])
    case AddProfile(_, _) => History(h.done + [[l]], [])
    case Reject(_, _) => History(h.done + [[l]], [])
    case Close(_) => History(h.done + [[l]], [])
    case _ => h
  }

  /** Groups the labels of a run by operation, in the order in which they won the operation lock. */
  function Operations(labels: seq<Label>): History {
    if labels == [] then History([], [])
    else Advance(Operations(labels[..|labels| - 1]), labels[|labels| - 1])
  }

  /** Runs whole operations one after the other, with no other caller. */
  ghost function OneByOne(st: State, operations: seq<seq<Label>>): Option<State> {
    if operations == [] then Some(st)
    else
      var before := OneByOne(st, operations[..|operations| - 1]);
      if before.None? then None else Exec(before.value, operations[|operations| - 1])
  }

  /** The steps of one caller's operation so far, up to (not including) its `Finish`. */
  predicate Underway(steps: seq<Label>, who: nat) {
    && 1 <= |steps| <= 3 && steps[0].Begin? && steps[0].who == who
    && (|steps| == 2 ==> (steps[1].Check? || steps[1].Work?) && steps[1].who == who)
    && (|steps| == 3 ==> steps[1].Check? && steps[1].who == who && steps[2].Work? && steps[2].who == who)
  }

  /** A complete operation: one caller's steps and nothing else. */
  predicate Whole(steps: seq<Label>) {
    || (|steps| == 1 && (steps[0].AddProfile? || steps[0].Reject? || steps[0].Close?))
    || (|steps| >= 2 && steps[|steps| - 1].Finish? && Underway(steps[..|steps| - 1], steps[|steps| - 1].who))
  }

  ghost predicate Matches(flight: Flight, current: seq<Label>) {
    match flight
    case Idle => current == []
    case Running(who, call, _) => current == [Begin(who, call)]
    case Writing(who, _, _) => Underway(current, who) && |current| == 2 && current[1].Check?
    case Done(who, _, _) => Underway(current, who)
  }

  lemma StepOnCore(a: State, b: State, l: Label)
    requires Core(a) == Core(b) && !l.Receive?
    ensures Step(a, l).Some? <==> Step(b, l).Some?
    ensures Step(a, l).Some? ==> Core(Step(a, l).value) == Core(Step(b, l).value)
  {
    hide Perform, SetUp, RunWrite, Approvable, Fresh;
  }

  lemma ExecMore(st: State, labels: seq<Label>, l: Label)
    ensures Exec(st, labels + [l]) ==
            if Exec(st, labels).None? then None else Step(Exec(st, labels).value, l)
  {
    assert (labels + [l])[..|labels|] == labels;
  }

  lemma ExecNothing(st: State)
    ensures Exec(st, []) == Some(st)
  {
  }

  lemma OneMore(st: State, operations: seq<seq<Label>>, steps: seq<Label>)
    ensures OneByOne(st, operations + [steps]) ==
            if OneByOne(st, operations).None? then None else Exec(OneByOne(st, operations).value, steps)
  {
    assert (operations + [steps])[..|operations|] == operations;
  }

  ghost function Replay(st: State, h: History): Option<State> {
    var before := OneByOne(st, h.done);
    if before.None? then None else Exec(before.value, h.current)
  }

  ghost predicate AllWhole(operations: seq<seq<Label>>) {
    forall i :: 0 <= i < |operations| ==> Whole(operations[i])
  }

  lemma AdvanceMatches(st: State, h: History, l: Label)
    requires Step(st, l).Some? && Matches(st.flight, h.current) && AllWhole(h.done)
    ensures Matches(Step(st, l).value.flight, Advance(h, l).current) && AllWhole(Advance(h, l).done)
    ensures Neutral(l) || l.Check? || l.Work? || l.Finish? || h.current == []
  {
    if l.Finish? {
      assert (h.current + [l])[..|h.current|] == h.current;
    }
  }

  lemma NeutralStep(st: State, h: History, l: Label)
    requires Neutral(l) && Step(st, l).Some?
    ensures Core(Step(st, l).value) == Core(st) && Advance(h, l) == h
  {
  }

  lemma NotReceive(l: Label)
    requires !Neutral(l)
    ensures !l.Receive?
  {
  }

  lemma NothingDone(st: State)
    requires st.flight.Idle?
    ensures Replay(st, History([], [])) == Some(st) && Matches(st.flight, []) && AllWhole([])
  {
  }

  lemma AdvanceReplays(st: State, h: History, l: Label)
    requires !Neutral(l) && Replay(st, h).Some? && Step(Replay(st, h).value, l).Some?
    requires l.Check? || l.Work? || l.Finish? || h.current == []
    ensures Replay(st, Advance(h, l)) == Step(Replay(st, h).value, l)
  {
    hide Step;
    var base := OneByOne(st, h.done).value;
    ExecMore(base, h.current, l);
    OneMore(st, h.done, h.current + [l]);
    if h.current == [] {
      assert h.current + [l] == [l];
    }
    ExecNothing(Step(Replay(st, h).value, l).value);
  }

  /**
   Every concurrent run ends in the state that its operations give when each is run to its
   end before the next begins, in the order in which they won the operation lock.
   */
  lemma {:induction false} RunsAreSequential(st: State, labels: seq<Label>)
    requires st.flight.Idle? && Exec(st, labels).Some?
    ensures AllWhole(Operations(labels).done)
    ensures Matches(Exec(st, labels).value.flight, Operations(labels).current)
    ensures Replay(st, Operations(labels)).Some?
    ensures Core(Replay(st, Operations(labels)).value) == Core(Exec(st, labels).value)
  {
    hide Step, Matches, AllWhole, Whole, Core, Replay, Advance, Neutral;
    if labels == [] {
      NothingDone(st);
    } else {
      var n := |labels| - 1;
      RunsAreSequential(st, labels[..n]);
      var h, l, actual := Operations(labels[..n]), labels[n], Exec(st, labels[..n]).value;
      AdvanceMatches(actual, h, l);
      if Neutral(l) {
        NeutralStep(actual, h, l);
      } else {
        NotReceive(l);
        StepOnCore(actual, Replay(st, h).value, l);
        AdvanceReplays(st, h, l);
      }
    }
  }

  /** Between operations nothing is left over: the whole run is the sequence of its operations. */
  lemma IdleRunsAreFolds(st: State, labels: seq<Label>)
    requires st.flight.Idle? && Exec(st, labels).Some? && Exec(st, labels).value.flight.Idle?
    ensures AllWhole(Operations(labels).done) && OneByOne(st, Operations(labels).done).Some?
    ensures Core(OneByOne(st, Operations(labels).done).value) == Core(Exec(st, labels).value)
  {
    RunsAreSequential(st, labels);
  }

  // ---------------------------------------------------------------- failed operations

  /** A failed operation leaves store, views and profiles alone; only the log of calls grows. */
  ghost predicate OnlyLogged(w: World, o: Outcome) {
    o.error.Some? ==> o.w == w.(openings := o.w.openings, log := o.w.log)
  }

  lemma FailedSetup(w: World, s: Snapshot, p: Profile, test: bool, env: Env)
    ensures OnlyLogged(w, ConnectProfile(w, s, p, test, env)) && OnlyLogged(w, SetUp(w, s, p, test, env))
  {
  }

  lemma FailedAction(w: World, s: Snapshot, a: Action, env: Env)
    ensures OnlyLogged(w, Perform(w, s, a, env))
  {
    hide ConnectProfile;
    if a.Connect? || a.Test? {
      var p := FindProfile(w.profiles, a.connection);
      if p.Some? {
        FailedSetup(w, s, p.value, a.Test?, env);
      }
    }
  }

  lemma FailedWrite(w: World, s: Snapshot, sql: string, env: Env)
    requires w.store.Some?
    ensures OnlyLogged(w, RunWrite(w, s, sql, env))
  {
  }

  /**
   A call that fails changes the committed snapshot only in its revision and error, and in
   the pending write if the call was an approval that had consumed it.
   */
  lemma FailedCall(st: State, who: nat, call: Call, now: int, env: Env)
    requires Inv(st) && st.flight.Idle? && !st.closed
    requires Fresh(st.world, env)
    ensures var running := BeginStep(st, who, call);
            var checked := if call.Approve? then CheckStep(running, now) else running;
            var worked := if checked.flight.Done? then checked else WorkStep(checked, env);
            var after := FinishStep(worked);
            worked.flight.error.Some? ==>
              && after.snap == st.snap.(revision := after.snap.revision, error := worked.flight.error,
                                        pending := if checked.flight.Writing? then None else st.snap.pending)
              && after.world == st.world.(openings := after.world.openings, log := after.world.log)
  {
    hide Linked, Consumed, Settled, Tidy, TableListed, Perform, SetUp, RunWrite, FeedOk, Approvable;
    assert Step(st, Begin(who, call)).Some?;
    OperationKeepsInv(st, Begin(who, call));
    var running := BeginStep(st, who, call);
    var checked := if call.Approve? then CheckStep(running, now) else running;
    if call.Approve? {
      OperationKeepsInv(running, Check(who, now));
    }
    match call
    case Act(a) => FailedAction(checked.world, running.snap, a, env);
    case Setup(p, test) => FailedSetup(checked.world, running.snap, p, test, env);
    case Approve(_) =>
      if checked.flight.Writing? {
        OpenInFlight(checked);
        FailedWrite(checked.world, checked.flight.s, checked.flight.write.sql, env);
      }
  }
}
