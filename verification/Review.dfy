/**
 The application and the terminal together. Snapshots travel to the terminal through the
 event feed, at most one at a time, and as results of calls, any number at a time and in
 any order. Approvals reach the application only from the terminal's approval key.
 */
module Review {
  import opened Wrappers
  import opened Database
  import opened Session
  import opened Ledger
  import opened Consistency
  import opened Runs
  import opened Provenance
  import opened Terminal

  /** An approval entered in the modal: the write it showed and everything typed. */
  datatype Entry = Entry(write: PendingWrite, keys: seq<Key>)

  datatype System = System(app: State, tui: Tui, note: Option<Snapshot>, mail: seq<Snapshot>, entries: seq<Entry>)

  datatype Move =
    | AppMove(l: Label)
    | Listen
    | TakeNote
    | Post
    | TakeMail(i: nat)
    | TakeSetupMail(i: nat, form: nat, failed: bool, test: bool)
    | ShowReview
    | Open(modal: Modal)
    | Escape
    | Insert(at: nat, c: char)
    | Delete(at: nat)
    | Enter(now: int)

  ghost predicate Entered(entries: seq<Entry>, id: string) {
    exists i :: 0 <= i < |entries| && entries[i].write.id == id
  }

  function Without(mail: seq<Snapshot>, i: nat): seq<Snapshot>
    requires i < |mail|
  {
    mail[..i] + mail[i + 1..]
  }

  ghost function Next(y: System, m: Move): Option<System> {
    match m
    case AppMove(l) =>
      var after := Runs.Step(y.app, l);
      if l.Receive? || after.None? || (l.Begin? && l.call.Approve? && !Entered(y.entries, l.call.id)) then None
      else Some(y.(app := after.value))
    case Listen =>
      if y.note.Some? || y.app.events.None? then None
      else Some(y.(app := Runs.Step(y.app, Receive).value, note := y.app.events))
    case TakeNote =>
      if y.note.None? then None else Some(y.(tui := Accepted(y.tui, y.note.value), note := None))
    case Post => Some(y.(mail := y.mail + [y.app.snap]))
    case TakeMail(i) =>
      if i >= |y.mail| then None else Some(y.(tui := Accepted(y.tui, y.mail[i]), mail := Without(y.mail, i)))
    case TakeSetupMail(i, form, failed, test) =>
      if i >= |y.mail| then None
      else Some(y.(tui := SetUpDone(y.tui, y.mail[i], form, failed, test), mail := Without(y.mail, i)))
    case ShowReview =>
      if y.tui.snap.pending.None? then None
      else Some(y.(tui := PendingShown(y.tui, y.tui.snap.pending.value)))
    case Open(modal) =>
      if modal.Approval? then None else Some(y.(tui := ModalOpened(y.tui, modal)))
    case Escape => Some(y.(tui := ClosedModal(y.tui)))
    case Insert(at, c) =>
      if at > |y.tui.input| then None
      else Some(y.(tui := y.tui.(input := y.tui.input[..at] + [Key(c, y.tui.pending)] + y.tui.input[at..])))
    case Delete(at) =>
      if at >= |y.tui.input| then None
      else Some(y.(tui := y.tui.(input := y.tui.input[..at] + y.tui.input[at + 1..])))
    case Enter(now) =>
      var write := Approves(y.tui, now);
      if write.None? then Some(y)
      else Some(y.(entries := y.entries + [Entry(write.value, y.tui.input)], tui := ClosedModal(y.tui)))
  }

  function Initially(allowWrites: bool): System {
    var app := Initial(allowWrites);
    System(app, Start(app.snap), None, [], [])
  }

  ghost function After(y: System, moves: seq<Move>): Option<System> {
    if moves == [] then Some(y)
    else
      var before := After(y, moves[..|moves| - 1]);
      if before.None? then None else Next(before.value, moves[|moves| - 1])
  }

  // ---------------------------------------------------------------- what the terminal can know

  ghost predicate WasStaged(log: seq<Event>, w: PendingWrite) {
    exists i :: 0 <= i < |log| && log[i].Staged? && log[i].write == w
  }

  ghost predicate Known(log: seq<Event>, p: Option<PendingWrite>) {
    p.Some? ==> WasStaged(log, p.value)
  }

  /** A snapshot that the application has published or handed out. */
  ghost predicate Heard(app: State, s: Snapshot) {
    && s.revision <= app.snap.revision && (s.revision == app.snap.revision ==> s == app.snap)
    && Known(app.world.log, s.pending)
  }

  ghost predicate EntryOk(log: seq<Event>, e: Entry) {
    && WasStaged(log, e.write) && Typed(e.keys) == "approve"
    && forall k :: 0 <= k < |e.keys| ==> e.keys[k].seen == Some(e.write)
  }

  ghost predicate ApprovalsEntered(y: System) {
    && (forall k :: 0 <= k < |y.app.world.log| && y.app.world.log[k].Approved? ==>
          Entered(y.entries, y.app.world.log[k].id))
    && (y.app.flight.Running? && y.app.flight.call.Approve? ==> Entered(y.entries, y.app.flight.call.id))
  }

  /** The latest state is on display, on its way, or waiting in the feed. */
  ghost predicate LatestUnderWay(y: System) {
    y.app.events == Some(y.app.snap) || y.note == Some(y.app.snap) || y.tui.snap == y.app.snap
  }

  ghost predicate SystemInv(y: System) {
    && Inv(y.app) && Heard(y.app, y.app.snap)
    && Heard(y.app, y.tui.snap) && Known(y.app.world.log, y.tui.pending) && ModalOk(y.tui)
    && (y.note.Some? ==> Heard(y.app, y.note.value))
    && (forall i :: 0 <= i < |y.mail| ==> Heard(y.app, y.mail[i]))
    && (forall i :: 0 <= i < |y.entries| ==> EntryOk(y.app.world.log, y.entries[i]))
    && ApprovalsEntered(y) && LatestUnderWay(y)
  }

  // ---------------------------------------------------------------- steps of the application

  lemma StagedStays(later: seq<Event>, earlier: seq<Event>, w: PendingWrite)
    requires Extends(later, earlier) && WasStaged(earlier, w)
    ensures WasStaged(later, w)
  {
    var i :| 0 <= i < |earlier| && earlier[i].Staged? && earlier[i].write == w;
    assert later[..|earlier|][i] == later[i];
  }

  /** The committed pending write comes from the log. */
  lemma PendingIsStaged(w: World, s: Snapshot)
    requires Linked(w, s)
    ensures Known(w.log, s.pending)
  {
    if s.pending.Some? {
      var i := WaitingSince(w.log);
    }
  }

  lemma CommittedIsKnown(st: State, l: Label)
    requires Inv(st) && Known(st.world.log, st.snap.pending) && Runs.Step(st, l).Some?
    ensures Known(Runs.Step(st, l).value.world.log, Runs.Step(st, l).value.snap.pending)
  {
    LogGrows(st, l);
    var t := Runs.Step(st, l).value;
    if l.Finish? && st.flight.error.None? {
      PendingIsStaged(st.world, st.flight.s);
    } else if t.snap.pending.Some? {
      StagedStays(t.world.log, st.world.log, t.snap.pending.value);
    }
  }

  /** A changed snapshot is in the feed. */
  lemma ChangeIsPublished(st: State, l: Label)
    requires Runs.Step(st, l).Some? && !l.Receive?
    ensures var t := Runs.Step(st, l).value;
            (t.snap == st.snap && t.events == st.events) || t.events == Some(t.snap)
  {
  }

  lemma HeardStays(st: State, l: Label, s: Snapshot)
    requires Heard(st, s) && Runs.Step(st, l).Some?
    ensures Heard(Runs.Step(st, l).value, s)
  {
    StepRevision(st, l);
    LogGrows(st, l);
    if s.pending.Some? {
      StagedStays(Runs.Step(st, l).value.world.log, st.world.log, s.pending.value);
    }
  }

  lemma RunningApprovals(st: State, l: Label)
    requires Runs.Step(st, l).Some?
    ensures var t := Runs.Step(st, l).value;
            t.flight.Running? && t.flight.call.Approve? ==>
              (l.Begin? && l.call == t.flight.call) || (st.flight.Running? && st.flight.call == t.flight.call)
    ensures l.Check? ==> st.flight.Running? && st.flight.call.Approve?
  {
  }

  lemma AppStepKeeps(y: System, l: Label)
    requires SystemInv(y) && Runs.Step(y.app, l).Some?
    requires l.Begin? && l.call.Approve? ==> Entered(y.entries, l.call.id)
    ensures var z := y.(app := Runs.Step(y.app, l).value);
            && Inv(z.app) && Heard(z.app, z.app.snap)
            && Heard(z.app, z.tui.snap) && Known(z.app.world.log, z.tui.pending)
            && (z.note.Some? ==> Heard(z.app, z.note.value))
            && (forall i :: 0 <= i < |z.mail| ==> Heard(z.app, z.mail[i]))
            && (forall i :: 0 <= i < |z.entries| ==> EntryOk(z.app.world.log, z.entries[i]))
            && ApprovalsEntered(z)
  {
    hide Inv, Extends, WasStaged, LatestUnderWay, ModalOk, Entered;
    if l.Begin? || l.Check? || l.Work? || l.Finish? {
      OperationKeepsInv(y.app, l);
    } else {
      OtherStepsKeepInv(y.app, l);
    }
    CommittedIsKnown(y.app, l);
    HeardStays(y.app, l, y.tui.snap);
    LogGrows(y.app, l);
    RunningApprovals(y.app, l);
    var log, before := Runs.Step(y.app, l).value.world.log, y.app.world.log;
    if y.tui.pending.Some? {
      StagedStays(log, before, y.tui.pending.value);
    }
    if y.note.Some? {
      HeardStays(y.app, l, y.note.value);
    }
    forall i | 0 <= i < |y.mail| ensures Heard(Runs.Step(y.app, l).value, y.mail[i]) {
      HeardStays(y.app, l, y.mail[i]);
    }
    forall i | 0 <= i < |y.entries| ensures EntryOk(log, y.entries[i]) {
      StagedStays(log, before, y.entries[i].write);
    }
    ApprovalsStayEntered(y, l);
  }

  lemma ApprovalsStayEntered(y: System, l: Label)
    requires ApprovalsEntered(y) && Runs.Step(y.app, l).Some?
    requires l.Begin? && l.call.Approve? ==> Entered(y.entries, l.call.id)
    ensures ApprovalsEntered(y.(app := Runs.Step(y.app, l).value))
  {
    hide Runs.Step, Entered;
    LogGrows(y.app, l);
    RunningApprovals(y.app, l);
    var log, before := Runs.Step(y.app, l).value.world.log, y.app.world.log;
    forall k | 0 <= k < |log| && log[k].Approved? ensures Entered(y.entries, log[k].id) {
      if k < |before| {
        assert log[..|before|][k] == before[k];
      }
    }
  }

  // ---------------------------------------------------------------- steps of the terminal

  lemma AcceptKeeps(app: State, t: Tui, s: Snapshot)
    requires ModalOk(t) && Heard(app, t.snap) && Known(app.world.log, t.pending) && Heard(app, s)
    ensures ModalOk(Accepted(t, s)) && Heard(app, Accepted(t, s).snap) && Known(app.world.log, Accepted(t, s).pending)
    ensures s == app.snap || t.snap == app.snap ==> Accepted(t, s).snap == app.snap
  {
  }

  lemma KeystrokesKeep(t: Tui, at: nat, c: char)
    requires ModalOk(t) && at <= |t.input|
    ensures ModalOk(t.(input := t.input[..at] + [Key(c, t.pending)] + t.input[at..]))
    ensures at < |t.input| ==> ModalOk(t.(input := t.input[..at] + t.input[at + 1..]))
  {
  }

  lemma EnterKeeps(y: System, now: int)
    requires SystemInv(y)
    ensures SystemInv(Next(y, Enter(now)).value)
  {
    var write := Approves(y.tui, now);
    if write.Some? {
      var e := Entry(write.value, y.tui.input);
      assert EntryOk(y.app.world.log, e);
      var z := Next(y, Enter(now)).value;
      forall id | Entered(y.entries, id) ensures Entered(z.entries, id) {
        var i :| 0 <= i < |y.entries| && y.entries[i].write.id == id;
        assert z.entries[i].write.id == id;
      }
    }
  }

  lemma AppMoveKeeps(y: System, m: Move)
    requires SystemInv(y) && Next(y, m).Some? && (m.AppMove? || m.Listen?)
    ensures SystemInv(Next(y, m).value)
  {
    var l := if m.AppMove? then m.l else Receive;
    AppStepKeeps(y, l);
    if m.AppMove? {
      ChangeIsPublished(y.app, l);
    }
  }

  lemma FormClosed(t: Tui, s: Snapshot, form: nat, failed: bool, test: bool)
    requires ModalOk(Accepted(t, s))
    ensures var u := SetUpDone(t, s, form, failed, test);
            ModalOk(u) && u.snap == Accepted(t, s).snap && u.pending == Accepted(t, s).pending
  {
  }

  lemma SameApprovals(y: System, z: System)
    requires ApprovalsEntered(y) && z.app == y.app && z.entries == y.entries
    ensures ApprovalsEntered(z)
  {
  }

  lemma MailMoveKeeps(y: System, m: Move)
    requires SystemInv(y) && Next(y, m).Some? && (m.TakeNote? || m.Post? || m.TakeMail? || m.TakeSetupMail?)
    ensures SystemInv(Next(y, m).value)
  {
    hide Inv, Heard, ModalOk, Known, Accepted, SetUpDone, EntryOk, ApprovalsEntered;
    if m.TakeNote? {
      AcceptKeeps(y.app, y.tui, y.note.value);
    } else if m.TakeMail? || m.TakeSetupMail? {
      AcceptKeeps(y.app, y.tui, y.mail[m.i]);
      if m.TakeSetupMail? {
        FormClosed(y.tui, y.mail[m.i], m.form, m.failed, m.test);
      }
    }
    SameApprovals(y, Next(y, m).value);
  }

  lemma KeyMoveKeeps(y: System, m: Move)
    requires SystemInv(y) && Next(y, m).Some?
    requires m.ShowReview? || m.Open? || m.Escape? || m.Insert? || m.Delete?
    ensures SystemInv(Next(y, m).value)
  {
    if m.Insert? {
      KeystrokesKeep(y.tui, m.at, m.c);
    } else if m.Delete? {
      KeystrokesKeep(y.tui, m.at, 'x');
    }
  }

  lemma MoveKeeps(y: System, m: Move)
    requires SystemInv(y) && Next(y, m).Some?
    ensures SystemInv(Next(y, m).value)
  {
    if m.AppMove? || m.Listen? {
      AppMoveKeeps(y, m);
    } else if m.Enter? {
      EnterKeeps(y, m.now);
    } else if m.TakeNote? || m.Post? || m.TakeMail? || m.TakeSetupMail? {
      MailMoveKeeps(y, m);
    } else {
      KeyMoveKeeps(y, m);
    }
  }

  lemma {:induction false} EverySystemRun(allowWrites: bool, moves: seq<Move>)
    requires After(Initially(allowWrites), moves).Some?
    ensures SystemInv(After(Initially(allowWrites), moves).value)
  {
    if moves == [] {
      InitialOk(allowWrites);
    } else {
      var n := |moves| - 1;
      EverySystemRun(allowWrites, moves[..n]);
      MoveKeeps(After(Initially(allowWrites), moves[..n]).value, moves[n]);
    }
  }

  // ---------------------------------------------------------------- end to end

  /**
   Whatever SQL is executed was on display in the approval modal while every character of
   the word "approve" was typed and entered.
   */
  lemma ReviewedIsExecuted(allowWrites: bool, moves: seq<Move>, y: System, j: nat) returns (e: nat)
    requires After(Initially(allowWrites), moves) == Some(y)
    requires j < |y.app.world.log| && y.app.world.log[j].Executed?
    ensures e < |y.entries| && y.entries[e].write.sql == y.app.world.log[j].sql
    ensures Typed(y.entries[e].keys) == "approve"
    ensures forall k :: 0 <= k < |y.entries[e].keys| ==> y.entries[e].keys[k].seen == Some(y.entries[e].write)
  {
    EverySystemRun(allowWrites, moves);
    var log := y.app.world.log;
    var i := ExecutionsAreStaged(log, j);
    assert Entered(y.entries, log[j - 1].id);
    var found :| 0 <= found < |y.entries| && y.entries[found].write.id == log[j - 1].id;
    e := found;
    assert EntryOk(log, y.entries[e]);
    var m :| 0 <= m < |log| && log[m].Staged? && log[m].write == y.entries[e].write;
    DistinctIds(log, i, m);
  }

  /** The approval key's "pending write changed" refusal is for a situation that no run reaches. */
  lemma ChangedRefusalIsUnreachable(allowWrites: bool, moves: seq<Move>, y: System)
    requires After(Initially(allowWrites), moves) == Some(y) && y.tui.modal.Approval?
    ensures y.tui.pending.Some? && y.tui.snap.pending == y.tui.pending
  {
    EverySystemRun(allowWrites, moves);
  }

  /** When the feed is empty and no message is on its way, the terminal shows the application's state. */
  lemma QuietMeansUpToDate(allowWrites: bool, moves: seq<Move>, y: System)
    requires After(Initially(allowWrites), moves) == Some(y)
    requires y.app.events.None? && y.note.None?
    ensures y.tui.snap == y.app.snap
  {
    EverySystemRun(allowWrites, moves);
  }
}
