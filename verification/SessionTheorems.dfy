/** What the session guarantees over every run, for any number of callers. */
module SessionTheorems {
  import opened Wrappers
  import opened Database
  import opened Session
  import opened Ledger
  import opened Consistency
  import opened Runs
  import opened Provenance

  ghost predicate Reaches(allowWrites: bool, labels: seq<Label>, st: State) {
    Exec(Initial(allowWrites), labels) == Some(st)
  }

  /** Every execution carries out exactly one staged write, and no other execution carries out the same one. */
  lemma WritesRunAtMostOnce(allowWrites: bool, labels: seq<Label>, st: State, j: nat) returns (i: nat)
    requires Reaches(allowWrites, labels, st)
    requires j < |st.world.log| && st.world.log[j].Executed?
    ensures Authorises(st.world.log, i, j)
    ensures forall m: nat, k: nat :: Authorises(st.world.log, m, k) && k != j ==>
              st.world.log[m].write.id != st.world.log[i].write.id
    ensures forall k: nat :: k < j && st.world.log[k].Declined? ==> st.world.log[k].id != st.world.log[i].write.id
    ensures forall m: nat :: m < |st.world.log| && st.world.log[m].Staged? && m != i ==>
              st.world.log[m].write.id != st.world.log[i].write.id
  {
    var log := st.world.log;
    EveryRun(allowWrites, labels);
    i := ExecutionsAreStaged(log, j);
    forall m: nat, k: nat | Authorises(log, m, k) && k != j
      ensures log[m].write.id != log[i].write.id
    {
      ExecutedOnce(log, if k < j then k else j, if k < j then j else k);
    }
    forall k: nat | k < j && log[k].Declined?
      ensures log[k].id != log[i].write.id
    {
      NeverAfterRejection(log, k, j);
    }
    forall m: nat | m < |log| && log[m].Staged? && m != i
      ensures log[m].write.id != log[i].write.id
    {
      IdsDiffer(log, if m < i then m else i, if m < i then i else m);
    }
  }

  /** In every reachable state an approval passes exactly for the pending identifier, up to its expiry. */
  lemma ApprovalIsExact(w: World, s: Snapshot, id: string, now: int)
    requires Linked(w, s)
    ensures Approvable(s, id, now) <==>
            s.pending.Some? && s.pending.value.id == id && now <= s.pending.value.expires
  {
  }

  /** Such an approval is followed by the execution of the pending statement on the current store. */
  lemma ApprovedIsExecuted(st: State, who: nat, id: string, now: int, env: Env)
    requires Inv(st) && st.flight == Running(who, Call.Approve(id), st.snap) && !st.closed
    requires st.snap.pending.Some? && st.snap.pending.value.id == id && now <= st.snap.pending.value.expires
    ensures var checked := CheckStep(st, now);
            && checked.flight.Writing? && checked.snap.pending.None? && st.world.store.Some?
            && checked.world == st.world.Log(Session.Approved(id, now))
            && var log := WorkStep(checked, env).world.log;
               && |log| > |st.world.log| + 1
               && log[|st.world.log| + 1] ==
                  Executed(st.world.store.value, st.snap.pending.value.sql, env.executed.Ok?)
  {
    hide LoadPage;
    ApprovalIsExact(st.world, st.snap, id, now);
    var checked := CheckStep(st, now);
    FirstExecuted(checked.world, checked.flight.s, checked.flight.write.sql, env);
  }

  lemma FirstExecuted(w: World, s: Snapshot, sql: string, env: Env)
    requires w.store.Some?
    ensures var log := RunWrite(w, s, sql, env).w.log;
            |log| > |w.log| && log[|w.log|] == Executed(w.store.value, sql, env.executed.Ok?)
  {
  }

  /** Rejecting takes the pending write away and records it; any other identifier changes nothing. */
  lemma RejectTakesEffect(st: State, id: string)
    ensures var t := RejectStep(st, id);
            if !st.closed && st.snap.pending.Some? && st.snap.pending.value.id == id then
              && t.world == st.world.Log(Declined(id)) && t.flight == st.flight && t.closed == st.closed
              && t.snap == st.snap.(pending := None, status := WriteRejected, revision := st.snap.revision + 1)
              && t.events == Some(t.snap)
            else t == st
  {
  }

  /** Closing takes effect, and afterwards neither the snapshot nor the stores nor the log change. */
  lemma ClosedIsFinal(st: State, l: Label)
    requires Inv(st) && Step(st, l).Some? && (st.closed || l.Close?)
    ensures var t := Step(st, l).value;
            && t.closed && t.snap == st.snap && t.flight.Idle?
            && (st.closed ==> t.world == st.world)
            && (!st.closed ==>
                  t.world == if st.world.store.Some? then st.world.Log(Session.Closed(st.world.store.value))
                             else st.world)
  {
    hide Linked, Settled;
  }

  /** A finished operation commits all of its snapshot, as the next revision, no longer busy, and publishes it. */
  lemma SuccessIsCommitted(st: State, who: nat, s: Snapshot)
    requires st.flight == Done(who, s, None)
    ensures var t := FinishStep(st);
            && t.snap == s.(revision := st.snap.revision + 1, busy := false) && t.events == Some(t.snap)
            && t.world == st.world && t.flight.Idle? && t.closed == st.closed
  {
  }

  /** A new operation starts from the committed snapshot, marked busy and cleared of the last error. */
  lemma BeginningIsClean(st: State, who: nat, call: Call)
    ensures var t := BeginStep(st, who, call);
            && t.snap == st.snap.(busy := true, error := None, revision := st.snap.revision + 1)
            && t.flight == Running(who, call, t.snap) && t.events == Some(t.snap) && t.world == st.world
  {
  }

  /** Whether writes are enabled is decided at the start and never changes. */
  lemma WritesAreAsStarted(allowWrites: bool, labels: seq<Label>, st: State)
    requires Reaches(allowWrites, labels, st)
    ensures st.snap.writesEnabled == allowWrites
  {
    EveryRunIsGated(allowWrites, labels);
  }

  /** Without permission to write, no run stages, approves or executes anything. */
  lemma NothingWrittenWithoutPermission(labels: seq<Label>, st: State, i: nat)
    requires Reaches(false, labels, st)
    ensures st.snap.pending.None?
    ensures i < |st.world.log| ==> !st.world.log[i].Staged? && !st.world.log[i].Approved? && !st.world.log[i].Executed?
  {
    hide Inv, Step;
    EveryRun(false, labels);
    EveryRunIsGated(false, labels);
    if i < |st.world.log| {
      NothingStaged(labels, st);
      LegalRun(st);
      if st.world.log[i].Executed? || st.world.log[i].Approved? {
        var s := StagingComesFirst(st.world.log, i);
      }
    }
  }

  lemma LegalRun(st: State)
    requires Inv(st)
    ensures LegalLog(st.world.log)
  {
  }

  lemma NothingStaged(labels: seq<Label>, st: State)
    requires Reaches(false, labels, st)
    ensures forall i: nat :: i < |st.world.log| ==> !st.world.log[i].Staged?
  {
    hide Step, Gate;
    forall i: nat | i < |st.world.log| ensures !st.world.log[i].Staged? {
      var k := EventHasCause(false, labels, st, i);
      EveryRunIsGated(false, labels[..k]);
      NotAskedWithoutPermission(StateAt(false, labels, k).value, labels[k], st.world.log[i]);
    }
  }

  lemma NotAskedWithoutPermission(st: State, l: Label, e: Event)
    requires Gate(st, false) && AskedBy(st, l, e)
    ensures !e.Staged?
  {
  }

  /** Every staged write and every query is the text of a call that some caller began, word for word. */
  lemma StatementsWereDispatched(allowWrites: bool, labels: seq<Label>, st: State, i: nat) returns (b: nat, k: nat)
    requires Reaches(allowWrites, labels, st) && i < |st.world.log|
    requires st.world.log[i].Staged? || st.world.log[i].Queried?
    ensures b < k < |labels| && StateAt(allowWrites, labels, k).Some?
    ensures |StateAt(allowWrites, labels, k).value.world.log| <= i
    ensures labels[k].Work? && labels[b].Begin? && labels[b].who == labels[k].who
    ensures labels[b].call == Act(if st.world.log[i].Staged? then Write(st.world.log[i].write.sql)
                                  else Query(st.world.log[i].sql))
  {
    hide Step;
    k := EventHasCause(allowWrites, labels, st, i);
    var before := StateAt(allowWrites, labels, k).value;
    WorkedBy(allowWrites, labels, st, k);
    b := CallWasBegun(allowWrites, labels[..k], before);
  }

  lemma WorkedBy(allowWrites: bool, labels: seq<Label>, st: State, k: nat)
    requires Reaches(allowWrites, labels, st) && k < |labels| && labels[k].Work?
    requires StateAt(allowWrites, labels, k).Some?
    ensures !StateAt(allowWrites, labels, k).value.flight.Idle?
    ensures StateAt(allowWrites, labels, k).value.flight.who == labels[k].who
  {
    PrefixRuns(allowWrites, labels, k + 1);
    assert labels[..k + 1][..k] == labels[..k];
  }

  lemma {:induction false} PrefixRuns(allowWrites: bool, labels: seq<Label>, i: nat)
    requires Exec(Initial(allowWrites), labels).Some? && i <= |labels|
    ensures StateAt(allowWrites, labels, i).Some?
    decreases |labels|
  {
    if i < |labels| {
      var n := |labels| - 1;
      PrefixRuns(allowWrites, labels[..n], i);
      assert labels[..n][..i] == labels[..i];
    } else {
      assert labels[..i] == labels;
    }
  }

  /**
   Every executed statement is, word for word, the text of a write that some caller dispatched,
   and it was approved by a call that named its identifier.
   */
  lemma ExecutedWasDispatched(allowWrites: bool, labels: seq<Label>, st: State, j: nat)
    returns (b: nat, a: nat, i: nat)
    requires Reaches(allowWrites, labels, st) && j < |st.world.log| && st.world.log[j].Executed?
    ensures b < |labels| && a < |labels| && i < j && Authorises(st.world.log, i, j)
    ensures labels[b].Begin? && labels[b].call == Act(Write(st.world.log[j].sql))
    ensures labels[a].Begin? && labels[a].call == Call.Approve(st.world.log[i].write.id)
  {
    hide Step, Inv;
    EveryRun(allowWrites, labels);
    LegalRun(st);
    i := ExecutionsAreStaged(st.world.log, j);
    var k;
    b, k := StatementsWereDispatched(allowWrites, labels, st, i);
    var c := EventHasCause(allowWrites, labels, st, j - 1);
    a := CallWasBegun(allowWrites, labels[..c], StateAt(allowWrites, labels, c).value);
  }

  /** Once the application is closed, every store that was opened has been closed exactly once, and never used after. */
  lemma StoresAreClosedExactlyOnce(allowWrites: bool, labels: seq<Label>, st: State, i: nat) returns (c: nat)
    requires Reaches(allowWrites, labels, st) && st.closed
    requires i < |st.world.log| && st.world.log[i].Opened?
    ensures i < c < |st.world.log| && st.world.log[c] == Event.Closed(st.world.log[i].store)
    ensures forall k: nat :: c < k < |st.world.log| && UsesStore(st.world.log[k]) ==>
              st.world.log[k].store != st.world.log[i].store
    ensures forall k: nat :: k < |st.world.log| && k != c ==> st.world.log[k] != st.world.log[c]
  {
    var log := st.world.log;
    EveryRun(allowWrites, labels);
    c := AllClosed(log, i);
    forall k: nat | c < k < |log| && UsesStore(log[k])
      ensures log[k].store != log[i].store
    {
      NeverUsedAfterClose(log, c, k);
    }
    forall k: nat | k < |log| && k != c
      ensures log[k] != log[c]
    {
      if k < c && log[k].Closed? {
        NeverUsedAfterClose(log, k, c);
      }
    }
  }

  /**
   With no operation in flight: at most one store is open and it was opened for the named
   connection and database, a pending write waits on that store, and the page on display is
   empty or was read from it, for the displayed request and after the last successful write.
   */
  lemma IdleStateIsConsistent(allowWrites: bool, labels: seq<Label>, st: State)
    requires Reaches(allowWrites, labels, st) && st.flight.Idle? && !st.closed
    ensures OpenStores(st.world.log) == Owned(st.world)
    ensures st.world.store.Some? ==>
              Opened(st.world.store.value, st.snap.connection, st.snap.database) in st.world.log
    ensures st.snap.pending.Some? ==>
              && st.world.store.Some? && st.snap.pending.value.connection == st.snap.connection
              && st.snap.pending.value.database == st.snap.database
              && WaitingWrite(st.world.log) == Some(Waiting(st.snap.pending.value, st.world.store.value))
    ensures st.snap.result != EMPTY_PAGE && !st.snap.query ==>
              st.world.store.Some? &&
              exists i: nat :: i < |st.world.log| && Current(st.world.log, i)
                               && st.world.log[i] == Browsed(st.world.store.value, st.snap.browse, Some(st.snap.result))
    ensures NamesMatch(st.world.profiles, st.snap.connections)
  {
    EveryRun(allowWrites, labels);
    if st.snap.result != EMPTY_PAGE {
      var i: nat :| SourceAt(st.world.log, i, st.world.store.value, st.snap);
      assert Current(st.world.log, i);
    }
  }

  /**
   In every reachable state, mid-operation or not: page bounds, the browsed table is
   listed, and saved views are in bounds.
   */
  lemma BrowseSettingsAreInBounds(allowWrites: bool, labels: seq<Label>, st: State)
    requires Reaches(allowWrites, labels, st)
    ensures Tidy(st.snap.browse)
    ensures st.snap.browse.table != "" ==> HasTable(st.snap.tables, st.snap.browse.table)
    ensures forall name <- st.world.views :: Tidy(st.world.views[name])
  {
    EveryRun(allowWrites, labels);
  }

  /** The feed: a full channel holds the current state, and its consumer sees strictly increasing revisions. */
  lemma FeedHoldsLatest(allowWrites: bool, labels: seq<Label>, st: State)
    requires Reaches(allowWrites, labels, st)
    ensures st.events.Some? ==> st.events.value == st.snap
    ensures forall i, j :: 0 <= i < j < |st.delivered| ==> st.delivered[i].revision < st.delivered[j].revision
    ensures st.events.Some? ==> forall i :: 0 <= i < |st.delivered| ==> st.delivered[i].revision < st.snap.revision
  {
    EveryRun(allowWrites, labels);
  }
}
