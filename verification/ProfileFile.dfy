/**
 Saving connection profiles: any number of processes add a profile each, under an exclusive
 lock that the operating system releases when a process ends, and any of them may crash at
 any point. Readers take no lock.
 */
module ProfileFile {
  import opened Wrappers
  import Text

  datatype Profile = Profile(name: string, details: string, password: string)

  /** A profile as it is written: everything but the password. */
  datatype Stored = Stored(name: string, details: string)

  datatype File = Absent | Damaged | Holds(profiles: seq<Stored>)

  function Strip(p: Profile): Stored { Stored(p.name, p.details) }

  function Content(f: File): seq<Stored> { if f.Holds? then f.profiles else [] }

  predicate Taken(profiles: seq<Stored>, name: string) {
    exists i :: 0 <= i < |profiles| && profiles[i].name == name
  }

  ghost predicate UniqueNames(profiles: seq<Stored>) {
    forall i, j :: 0 <= i < j < |profiles| ==> profiles[i].name != profiles[j].name
  }

  /** How far a process has come. `Prepared` holds the complete temporary file. */
  datatype Phase =
    | Starting | Locked | Loaded(found: seq<Stored>) | Valid(found: seq<Stored>) | Prepared(next: seq<Stored>)
    | Renamed | Failing | Ended(ok: bool) | Crashed

  predicate InLock(p: Phase) { p.Locked? || p.Loaded? || p.Valid? || p.Prepared? || p.Renamed? || p.Failing? }

  /** `order` lists the processes in the order in which they got the lock, `saved` those that replaced the file. */
  datatype State = State(file: File, holder: Option<nat>, phases: seq<Phase>, order: seq<nat>, saved: set<nat>)

  datatype Label =
    | Lock(i: nat) | Load(i: nat) | Check(i: nat, resolves: bool) | WriteTemp(i: nat) | Rename(i: nat)
    | Unlock(i: nat) | Fail(i: nat) | Crash(i: nat)

  function Start(file: File, n: nat): State {
    State(file, None, seq(n, i => Starting), [], {})
  }

  predicate Enabled(st: State, adds: seq<Profile>, l: Label) {
    && |adds| == |st.phases| && l.i < |st.phases|
    && var p := st.phases[l.i];
       match l
       case Lock(_) => p.Starting? && st.holder.None?
       case Load(_) => p.Locked?
       case Check(_, _) => p.Loaded?
       case WriteTemp(_) => p.Valid?
       case Rename(_) => p.Prepared?
       case Unlock(_) => p.Renamed? || p.Failing?
       case Fail(_) => p.Starting? || p.Locked? || p.Valid? || p.Prepared?
       case Crash(_) => !p.Ended? && !p.Crashed?
  }

  function Step(st: State, adds: seq<Profile>, l: Label): State
    requires Enabled(st, adds, l)
  {
    var i := l.i;
    match l
    case Lock(_) => st.(holder := Some(i), order := st.order + [i], phases := st.phases[i := Locked])
    case Load(_) => st.(phases := st.phases[i := if st.file.Damaged? then Failing else Loaded(Content(st.file))])
    case Check(_, resolves) =>
      var found := st.phases[i].found;
      st.(phases := st.phases[i :=
            if Text.Blank(adds[i].name) || Taken(found, adds[i].name) || !resolves then Failing else Valid(found)])
    case WriteTemp(_) => st.(phases := st.phases[i := Prepared(st.phases[i].found + [Strip(adds[i])])])
    case Rename(_) => st.(file := Holds(st.phases[i].next), saved := st.saved + {i}, phases := st.phases[i := Renamed])
    case Unlock(_) => st.(holder := None, phases := st.phases[i := Ended(st.phases[i].Renamed?)])
    case Fail(_) => st.(phases := st.phases[i := if st.phases[i].Starting? then Ended(false) else Failing])
    case Crash(_) => st.(holder := if st.holder == Some(i) then None else st.holder, phases := st.phases[i := Crashed])
  }

  ghost function Exec(file: File, adds: seq<Profile>, labels: seq<Label>): Option<State> {
    if labels == [] then Some(Start(file, |adds|))
    else
      var before, l := Exec(file, adds, labels[..|labels| - 1]), labels[|labels| - 1];
      if before.None? || !Enabled(before.value, adds, l) then None else Some(Step(before.value, adds, l))
  }

  /** The stored form of the saved processes' profiles, in lock order. */
  function Additions(adds: seq<Profile>, order: seq<nat>, saved: set<nat>): seq<Stored>
    requires forall k :: 0 <= k < |order| ==> order[k] < |adds|
  {
    if order == [] then []
    else
      var i := order[|order| - 1];
      Additions(adds, order[..|order| - 1], saved) + (if i in saved then [Strip(adds[i])] else [])
  }

  /** Processes are listed once each, and exactly the last one listed may be inside the lock. */
  ghost predicate LockInv(adds: seq<Profile>, st: State) {
    && |st.phases| == |adds|
    && (forall k :: 0 <= k < |st.order| ==> st.order[k] < |adds| && !st.phases[st.order[k]].Starting?)
    && (forall j, k :: 0 <= j < k < |st.order| ==> st.order[j] != st.order[k])
    && (forall i :: 0 <= i < |adds| ==> (InLock(st.phases[i]) <==> st.holder == Some(i)))
    && (st.holder.Some? ==>
          st.holder.value < |adds| && |st.order| > 0 && st.order[|st.order| - 1] == st.holder.value)
  }

  ghost predicate SavedInv(i: nat, phase: Phase, saved: set<nat>) {
    && (phase.Renamed? || phase == Ended(true) ==> i in saved)
    && (i in saved ==> phase.Renamed? || phase == Ended(true) || phase.Crashed?)
  }

  /** What a process has read is still what the file holds. */
  ghost predicate FreshInv(file: File, add: Profile, phase: Phase) {
    match phase
    case Loaded(found) => !file.Damaged? && found == Content(file)
    case Valid(found) => !file.Damaged? && found == Content(file) && !Taken(found, add.name)
    case Prepared(next) =>
      !file.Damaged? && next == Content(file) + [Strip(add)] && !Taken(Content(file), add.name)
    case _ => true
  }

  ghost predicate PhaseInv(adds: seq<Profile>, st: State)
    requires |st.phases| == |adds|
  {
    && (forall i :: 0 <= i < |adds| ==> SavedInv(i, st.phases[i], st.saved))
    && (forall i :: 0 <= i < |adds| ==> FreshInv(st.file, adds[i], st.phases[i]))
    && (forall i :: i in st.saved ==> i < |adds| && i in st.order)
  }

  ghost predicate FileInv(file: File, adds: seq<Profile>, st: State)
    requires forall k :: 0 <= k < |st.order| ==> st.order[k] < |adds|
  {
    && (st.file.Damaged? <==> file.Damaged?)
    && (st.saved == {} ==> st.file == file)
    && Content(st.file) == Content(file) + Additions(adds, st.order, st.saved)
    && (UniqueNames(Content(file)) ==> UniqueNames(Content(st.file)))
  }

  ghost predicate Inv(file: File, adds: seq<Profile>, st: State) {
    LockInv(adds, st) && PhaseInv(adds, st) && FileInv(file, adds, st)
  }

  lemma {:induction false} SavingOther(adds: seq<Profile>, order: seq<nat>, saved: set<nat>, i: nat)
    requires forall k :: 0 <= k < |order| ==> order[k] < |adds| && order[k] != i
    ensures Additions(adds, order, saved + {i}) == Additions(adds, order, saved)
  {
    if order != [] {
      SavingOther(adds, order[..|order| - 1], saved, i);
    }
  }

  /** The holder is last in the lock order, so its addition comes last. */
  lemma SavingLast(adds: seq<Profile>, order: seq<nat>, saved: set<nat>, i: nat)
    requires forall k :: 0 <= k < |order| ==> order[k] < |adds|
    requires |order| > 0 && order[|order| - 1] == i && i !in saved
    requires forall j, k :: 0 <= j < k < |order| ==> order[j] != order[k]
    ensures Additions(adds, order, saved + {i}) == Additions(adds, order, saved) + [Strip(adds[i])]
  {
    SavingOther(adds, order[..|order| - 1], saved, i);
  }

  lemma LockInvKept(adds: seq<Profile>, st: State, l: Label)
    requires LockInv(adds, st) && Enabled(st, adds, l)
    ensures LockInv(adds, Step(st, adds, l))
  {
    hide Taken;
    var t := Step(st, adds, l);
    if l.Lock? {
      assert forall k :: 0 <= k < |st.order| ==> st.order[k] != l.i;
    } else {
      assert t.order == st.order;
    }
  }

  lemma PhaseInvKept(adds: seq<Profile>, st: State, l: Label)
    requires LockInv(adds, st) && PhaseInv(adds, st) && Enabled(st, adds, l)
    ensures PhaseInv(adds, Step(st, adds, l))
  {
    hide Taken;
    var t := Step(st, adds, l);
    assert SavedInv(l.i, st.phases[l.i], st.saved) && FreshInv(st.file, adds[l.i], st.phases[l.i]);
    forall i | 0 <= i < |adds|
      ensures SavedInv(i, t.phases[i], t.saved) && FreshInv(t.file, adds[i], t.phases[i])
    {
      assert SavedInv(i, st.phases[i], st.saved) && FreshInv(st.file, adds[i], st.phases[i]);
      if l.Rename? && i != l.i {
        assert InLock(st.phases[l.i]) && !InLock(st.phases[i]);
      }
    }
  }

  lemma FileInvKept(file: File, adds: seq<Profile>, st: State, l: Label)
    requires Inv(file, adds, st) && Enabled(st, adds, l)
    requires LockInv(adds, Step(st, adds, l))
    ensures FileInv(file, adds, Step(st, adds, l))
  {
    hide Taken, UniqueNames, Additions, Content;
    if l.Lock? {
      assert SavedInv(l.i, st.phases[l.i], st.saved);
      OneMoreWaiting(adds, st.order, st.saved, l.i);
    } else if l.Rename? {
      RenameKeepsFile(file, adds, st, l.i);
    }
  }

  lemma OneMoreWaiting(adds: seq<Profile>, order: seq<nat>, saved: set<nat>, i: nat)
    requires (forall k :: 0 <= k < |order| ==> order[k] < |adds|) && i < |adds| && i !in saved
    ensures Additions(adds, order + [i], saved) == Additions(adds, order, saved)
  {
    assert (order + [i])[..|order|] == order;
  }

  lemma RenameKeepsFile(file: File, adds: seq<Profile>, st: State, i: nat)
    requires Inv(file, adds, st) && i < |adds| && st.phases[i].Prepared?
    ensures FileInv(file, adds, st.(file := Holds(st.phases[i].next), saved := st.saved + {i}))
  {
    hide Taken, UniqueNames, Additions;
    assert FreshInv(st.file, adds[i], st.phases[i]) && SavedInv(i, st.phases[i], st.saved);
    assert InLock(st.phases[i]);
    SavingLast(adds, st.order, st.saved, i);
    NewNameIsUnique(Content(st.file), adds[i]);
  }

  lemma NewNameIsUnique(profiles: seq<Stored>, p: Profile)
    requires !Taken(profiles, p.name)
    ensures UniqueNames(profiles) ==> UniqueNames(profiles + [Strip(p)])
  {
  }

  lemma StepKeepsInv(file: File, adds: seq<Profile>, st: State, l: Label)
    requires Inv(file, adds, st) && Enabled(st, adds, l)
    ensures Inv(file, adds, Step(st, adds, l))
  {
    LockInvKept(adds, st, l);
    PhaseInvKept(adds, st, l);
    FileInvKept(file, adds, st, l);
  }

  lemma StartsConsistent(file: File, adds: seq<Profile>)
    ensures Inv(file, adds, Start(file, |adds|))
  {
    assert Content(file) + [] == Content(file);
  }

  lemma {:induction false} EveryRun(file: File, adds: seq<Profile>, labels: seq<Label>)
    requires Exec(file, adds, labels).Some?
    ensures Inv(file, adds, Exec(file, adds, labels).value)
  {
    if labels == [] {
      StartsConsistent(file, adds);
    } else {
      EveryRun(file, adds, labels[..|labels| - 1]);
      StepKeepsInv(file, adds, Exec(file, adds, labels[..|labels| - 1]).value, labels[|labels| - 1]);
    }
  }

  lemma {:induction false} SavedIsAdded(adds: seq<Profile>, order: seq<nat>, saved: set<nat>, i: nat)
    requires forall k :: 0 <= k < |order| ==> order[k] < |adds|
    requires i in order && i in saved
    ensures i < |adds| && Stored(adds[i].name, adds[i].details) in Additions(adds, order, saved)
  {
    if order[|order| - 1] != i {
      assert order == order[..|order| - 1] + [order[|order| - 1]];
      SavedIsAdded(adds, order[..|order| - 1], saved, i);
    }
  }

  /** A process that reported success finds its profile in the file ever after, with name and details as given. */
  lemma SuccessIsInFile(file: File, adds: seq<Profile>, labels: seq<Label>, st: State, i: nat)
    requires Exec(file, adds, labels) == Some(st) && i < |st.phases| && st.phases[i] == Ended(true)
    ensures i < |adds| && Stored(adds[i].name, adds[i].details) in Content(st.file)
  {
    hide Exec;
    NoAdditionIsLost(file, adds, labels, st);
    EveryRun(file, adds, labels);
    SavedIsAdded(adds, st.order, st.saved, i);
  }

  /**
   At every moment, for an unlocked reader too, the file is the initial one followed by the
   saved additions in lock order; names stay unique; a process that reported success is
   among the saved ones and one that reported failure is not.
   */
  lemma NoAdditionIsLost(file: File, adds: seq<Profile>, labels: seq<Label>, st: State)
    requires Exec(file, adds, labels) == Some(st)
    ensures |st.phases| == |adds| && forall k :: 0 <= k < |st.order| ==> st.order[k] < |adds|
    ensures Content(st.file) == Content(file) + Additions(adds, st.order, st.saved)
    ensures st.saved == {} ==> st.file == file
    ensures UniqueNames(Content(file)) ==> UniqueNames(Content(st.file))
    ensures forall i :: 0 <= i < |adds| && st.phases[i].Ended? ==> (st.phases[i].ok <==> i in st.saved)
  {
    EveryRun(file, adds, labels);
    assert forall i :: 0 <= i < |adds| ==> SavedInv(i, st.phases[i], st.saved);
  }

  /** Two processes are never inside the lock together. */
  lemma LockExcludes(file: File, adds: seq<Profile>, labels: seq<Label>, st: State, i: nat, j: nat)
    requires Exec(file, adds, labels) == Some(st)
    requires i < |st.phases| && j < |st.phases| && InLock(st.phases[i]) && InLock(st.phases[j])
    ensures i == j
  {
    EveryRun(file, adds, labels);
  }

  /** The profiles file on disk, and adding to it with the lock held throughout. */
  class Disk {
    var file: File

    constructor (f: File)
      ensures file == f
    {
      file := f;
    }

    /** Validates and appends one profile; on any failure the file is untouched. */
    method Add(p: Profile, resolves: bool, writable: bool) returns (ok: bool)
      modifies this
      ensures ok <==>
              && !old(file).Damaged? && !Text.Blank(p.name) && !Taken(Content(old(file)), p.name)
              && resolves && writable
      ensures file == if ok then Holds(Content(old(file)) + [Strip(p)]) else old(file)
      ensures UniqueNames(Content(old(file))) ==> UniqueNames(Content(file))
    {
      if file.Damaged? { return false; }
      var profiles := if file.Holds? then file.profiles else [];
      if Text.Blank(p.name) { return false; }
      for i := 0 to |profiles|
        invariant forall k :: 0 <= k < i ==> profiles[k].name != p.name
      {
        if profiles[i].name == p.name { return false; }
      }
      if !resolves { return false; }
      if !writable { return false; }
      NewNameIsUnique(profiles, p);
      file := Holds(profiles + [Strip(p)]);
      return true;
    }
  }

  /** The steps of one process that is alone, up to its end. */
  ghost function Alone(file: File, p: Profile, resolves: bool): State {
    var s1 := Step(Start(file, 1), [p], Lock(0));
    var s2 := Step(s1, [p], Load(0));
    if s2.phases[0].Failing? then Step(s2, [p], Unlock(0))
    else
      var s3 := Step(s2, [p], Check(0, resolves));
      if s3.phases[0].Failing? then Step(s3, [p], Unlock(0))
      else Step(Step(Step(s3, [p], WriteTemp(0)), [p], Rename(0)), [p], Unlock(0))
  }

  /** The protocol, run alone, does to the file what one call does. */
  lemma AloneIsAdd(file: File, p: Profile, resolves: bool)
    ensures var st := Alone(file, p, resolves);
            var ok := !file.Damaged? && !Text.Blank(p.name) && !Taken(Content(file), p.name) && resolves;
            && st.file == (if ok then Holds(Content(file) + [Strip(p)]) else file)
            && st.holder == None && st.phases[0] == Ended(ok)
  {
  }
}
