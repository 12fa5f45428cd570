/**
 The event log read as a history: which stores are open, which staged write is still
 waiting, and which histories are legal. Legality is a condition on each event and the
 events before it; the theorems below say what it means for whole histories.
 */
module Ledger {
  import opened Wrappers
  import opened Database
  import opened Session

  datatype Waiting = Waiting(write: PendingWrite, store: nat)

  ghost function OpenStores(log: seq<Event>): set<nat> {
    if log == [] then {}
    else
      var before := OpenStores(log[..|log| - 1]);
      match log[|log| - 1]
      case Opened(id, _, _) => before + {id}
      case Closed(id) => before - {id}
      case _ => before
  }

  ghost function OpenCount(log: seq<Event>): nat {
    if log == [] then 0
    else OpenCount(log[..|log| - 1]) + if log[|log| - 1].Opened? then 1 else 0
  }

  /** An event after which no earlier write can still be waiting. */
  ghost predicate Settles(e: Event) {
    e.Staged? || e.Approved? || e.Declined? || e.Connected?
  }

  ghost function WaitingWrite(log: seq<Event>): Option<Waiting> {
    if log == [] then None
    else
      var e := log[|log| - 1];
      if e.Staged? then Some(Waiting(e.write, e.store))
      else if Settles(e) then None
      else WaitingWrite(log[..|log| - 1])
  }

  ghost predicate StagedBefore(log: seq<Event>, id: string) {
    exists i :: 0 <= i < |log| && log[i].Staged? && log[i].write.id == id
  }

  ghost predicate Legal(log: seq<Event>, e: Event) {
    match e
    case Opened(id, _, _) => id == OpenCount(log)
    case Approved(id, at) =>
      && WaitingWrite(log).Some? && WaitingWrite(log).value.write.id == id
      && at <= WaitingWrite(log).value.write.expires
    case Declined(id) => WaitingWrite(log).Some? && WaitingWrite(log).value.write.id == id
    case Staged(id, write, at) =>
      && id in OpenStores(log)
      && !StagedBefore(log, write.id)
      && (WaitingWrite(log).Some? ==> at >= WaitingWrite(log).value.write.expires)
    case Executed(id, sql, _) =>
      && id in OpenStores(log)
      && |log| > 0 && log[|log| - 1].Approved?
      && WaitingWrite(log[..|log| - 1]).Some?
      && WaitingWrite(log[..|log| - 1]).value.store == id
      && WaitingWrite(log[..|log| - 1]).value.write.sql == sql
    case _ => e.store in OpenStores(log)
  }

  ghost predicate LegalLog(log: seq<Event>) {
    log == [] || (LegalLog(log[..|log| - 1]) && Legal(log[..|log| - 1], log[|log| - 1]))
  }

  /** Adding one legal event: how every reading of the log changes. */
  lemma Grow(log: seq<Event>, e: Event)
    ensures LegalLog(log) && Legal(log, e) <==> LegalLog(log + [e])
    ensures OpenStores(log + [e]) ==
            if e.Opened? then OpenStores(log) + {e.store}
            else if e.Closed? then OpenStores(log) - {e.store} else OpenStores(log)
    ensures OpenCount(log + [e]) == OpenCount(log) + if e.Opened? then 1 else 0
    ensures WaitingWrite(log + [e]) ==
            if e.Staged? then Some(Waiting(e.write, e.store))
            else if Settles(e) then None else WaitingWrite(log)
  {
    assert (log + [e])[..|log|] == log;
  }

  lemma {:induction false} LegalAt(log: seq<Event>, j: nat)
    requires LegalLog(log) && j < |log|
    ensures LegalLog(log[..j]) && Legal(log[..j], log[j])
    decreases |log|
  {
    if j < |log| - 1 {
      LegalAt(log[..|log| - 1], j);
      assert log[..|log| - 1][..j] == log[..j];
    }
  }

  /** A write that is waiting was staged, and nothing since then has settled it. */
  lemma {:induction false} WaitingSince(log: seq<Event>) returns (i: nat)
    requires WaitingWrite(log).Some?
    ensures i < |log| && log[i].Staged?
    ensures WaitingWrite(log) == Some(Waiting(log[i].write, log[i].store))
    ensures forall k :: i < k < |log| ==> !Settles(log[k])
  {
    i := |log| - 1;
    if !log[i].Staged? {
      i := WaitingSince(log[..|log| - 1]);
    }
  }

  /** Staged writes have different identifiers. */
  lemma IdsDiffer(log: seq<Event>, i: nat, j: nat)
    requires LegalLog(log) && i < j < |log| && log[i].Staged? && log[j].Staged?
    ensures log[i].write.id != log[j].write.id
  {
    LegalAt(log, j);
    assert log[..j][i] == log[i];
  }

  lemma DistinctIds(log: seq<Event>, i: nat, j: nat)
    requires LegalLog(log)
    requires i < |log| && j < |log| && log[i].Staged? && log[j].Staged? && log[i].write.id == log[j].write.id
    ensures i == j
  {
    if i < j {
      IdsDiffer(log, i, j);
    } else if j < i {
      IdsDiffer(log, j, i);
    }
  }

  /** The staged write that the execution at position j carries out. */
  ghost predicate Authorises(log: seq<Event>, i: nat, j: nat) {
    && i + 1 < j < |log| && log[i].Staged? && log[j].Executed? && log[j - 1].Approved?
    && log[j - 1].id == log[i].write.id
    && log[j].sql == log[i].write.sql && log[j].store == log[i].store
    && log[j - 1].at <= log[i].write.expires
    && forall k :: i < k < j - 1 ==> !Settles(log[k])
  }

  /**
   Every execution runs the SQL of an earlier staged write, on the store on which it was
   staged and unexpired when approved, with no rejection, replacement, other approval or
   connection in between.
   */
  lemma ExecutionsAreStaged(log: seq<Event>, j: nat) returns (i: nat)
    requires LegalLog(log) && j < |log| && log[j].Executed?
    ensures Authorises(log, i, j)
  {
    LegalAt(log, j);
    LegalAt(log, j - 1);
    assert log[..j][..j - 1] == log[..j - 1];
    i := WaitingSince(log[..j - 1]);
    forall k | i < k < j - 1 ensures !Settles(log[k]) {
      assert log[..j - 1][k] == log[k];
    }
  }

  /** Nothing is approved or executed that was not staged before. */
  lemma StagingComesFirst(log: seq<Event>, j: nat) returns (i: nat)
    requires LegalLog(log) && j < |log| && (log[j].Approved? || log[j].Executed?)
    ensures i < j && log[i].Staged?
  {
    if log[j].Executed? {
      i := ExecutionsAreStaged(log, j);
    } else {
      LegalAt(log, j);
      i := WaitingSince(log[..j]);
    }
  }

  /** No write identifier is executed twice. */
  lemma ExecutedOnce(log: seq<Event>, j1: nat, j2: nat)
    requires LegalLog(log) && j1 < j2 < |log| && log[j1].Executed? && log[j2].Executed?
    ensures j1 > 0 && log[j1 - 1].Approved? && log[j2 - 1].Approved?
    ensures log[j1 - 1].id != log[j2 - 1].id
  {
    var i1 := ExecutionsAreStaged(log, j1);
    var i2 := ExecutionsAreStaged(log, j2);
    if log[j1 - 1].id == log[j2 - 1].id {
      DistinctIds(log, i1, i2);
      assert Settles(log[j1 - 1]);
      assert false;
    }
  }

  /** A write that was rejected is never executed afterwards. */
  lemma NeverAfterRejection(log: seq<Event>, k: nat, j: nat)
    requires LegalLog(log) && k < j < |log| && log[k].Declined? && log[j].Executed?
    ensures log[j - 1].Approved? && log[j - 1].id != log[k].id
  {
    var i := ExecutionsAreStaged(log, j);
    LegalAt(log, k);
    var m := WaitingSince(log[..k]);
    if log[j - 1].id == log[k].id {
      DistinctIds(log, i, m);
      assert Settles(log[k]);
      assert false;
    }
  }

  /** A write staged before a successful connect, or before a later write, is never executed afterwards. */
  lemma NeverAfterReplacement(log: seq<Event>, i: nat, k: nat, j: nat)
    requires LegalLog(log) && i < k < j < |log|
    requires log[i].Staged? && (log[k].Connected? || log[k].Staged?) && log[j].Executed?
    ensures log[j - 1].Approved? && log[j - 1].id != log[i].write.id
  {
    var m := ExecutionsAreStaged(log, j);
    if log[j - 1].id == log[i].write.id {
      DistinctIds(log, i, m);
      assert Settles(log[k]);
      assert false;
    }
  }

  /** Only an expired write is replaced by a newer one. */
  lemma ReplacedOnlyAfterExpiry(log: seq<Event>, i: nat, k: nat)
    requires LegalLog(log) && i < k < |log| && log[i].Staged? && log[k].Staged?
    requires forall m :: i < m < k ==> !Settles(log[m])
    ensures log[k].at >= log[i].write.expires
  {
    LegalAt(log, k);
    StillWaiting(log[..k], i);
  }

  lemma {:induction false} StillWaiting(log: seq<Event>, i: nat)
    requires i < |log| && log[i].Staged? && forall m :: i < m < |log| ==> !Settles(log[m])
    ensures WaitingWrite(log) == Some(Waiting(log[i].write, log[i].store))
  {
    if i < |log| - 1 {
      StillWaiting(log[..|log| - 1], i);
    }
  }

  lemma {:induction false} OpenStoresAreNumbered(log: seq<Event>)
    requires LegalLog(log)
    ensures forall id <- OpenStores(log) :: id < OpenCount(log)
  {
    if log != [] {
      OpenStoresAreNumbered(log[..|log| - 1]);
    }
  }

  /** Store numbers identify one opening. */
  lemma {:induction false} OpenedOnce(log: seq<Event>, i: nat, j: nat)
    requires LegalLog(log) && i < j < |log| && log[i].Opened? && log[j].Opened?
    ensures log[i].store < log[j].store
  {
    LegalAt(log, i);
    LegalAt(log, j);
    CountGrows(log, i, j);
  }

  lemma {:induction false} CountGrows(log: seq<Event>, i: nat, j: nat)
    requires i < j <= |log| && log[i].Opened?
    ensures OpenCount(log[..i]) < OpenCount(log[..j])
    decreases j
  {
    assert log[..j][..j - 1] == log[..j - 1];
    if i < j - 1 {
      CountGrows(log, i, j - 1);
    }
  }

  ghost predicate UsesStore(e: Event) {
    !e.Approved? && !e.Declined? && !e.Opened?
  }

  /** A store is used only between its opening and its closing; in particular it is closed at most once. */
  lemma NeverUsedAfterClose(log: seq<Event>, c: nat, j: nat)
    requires LegalLog(log) && c < j < |log| && log[c].Closed? && UsesStore(log[j])
    ensures log[j].store != log[c].store
  {
    LegalAt(log, c);
    OpenStoresAreNumbered(log[..c]);
    assert log[..c + 1] == log[..c] + [log[c]];
    Grow(log[..c], log[c]);
    StaysClosed(log, c + 1, j, log[c].store);
    LegalAt(log, j);
  }

  lemma {:induction false} StaysClosed(log: seq<Event>, c: nat, j: nat, id: nat)
    requires LegalLog(log) && c <= j <= |log|
    requires id !in OpenStores(log[..c]) && id < OpenCount(log[..c])
    ensures id !in OpenStores(log[..j]) && id < OpenCount(log[..j])
    decreases j
  {
    if c < j {
      StaysClosed(log, c, j - 1, id);
      LegalAt(log, j - 1);
      assert log[..j] == log[..j - 1] + [log[j - 1]];
      Grow(log[..j - 1], log[j - 1]);
    }
  }

  /** With no store left open, every opened store has been closed. */
  lemma AllClosed(log: seq<Event>, i: nat) returns (c: nat)
    requires OpenStores(log) == {} && i < |log| && log[i].Opened?
    ensures i < c < |log| && log[c] == Closed(log[i].store)
  {
    assert log[..|log|] == log;
    c := ClosedSince(log, i, |log|);
  }

  lemma {:induction false} ClosedSince(log: seq<Event>, i: nat, j: nat) returns (c: nat)
    requires i < j <= |log| && log[i].Opened? && log[i].store !in OpenStores(log[..j])
    ensures i < c < j && log[c] == Closed(log[i].store)
    decreases j
  {
    assert log[..j][..j - 1] == log[..j - 1];
    c := j - 1;
    if log[c] != Closed(log[i].store) {
      c := ClosedSince(log, i, j - 1);
    }
  }
}
