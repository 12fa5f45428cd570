/** The terminal side of a write approval: snapshots coming in, the approval modal and what is typed into it. */
module Terminal {
  import opened Wrappers
  import opened Database
  import opened Session
  import Text

  datatype Modal =
    | NoModal | Approval | ProfileForm | EnvForm | FilterForm | Inspect | QueryEditor | WriteEditor
    | Connections | Palette | Find | Help

  /** One typed character and the pending write that was on display when it was typed. */
  datatype Key = Key(c: char, seen: Option<PendingWrite>)

  datatype Tui = Tui(
    snap: Snapshot, pending: Option<PendingWrite>, modal: Modal, input: seq<Key>, form: nat, setupBusy: bool)

  predicate IsForm(m: Modal) { m.ProfileForm? || m.EnvForm? }

  function Typed(input: seq<Key>): string {
    seq(|input|, i requires 0 <= i < |input| => input[i].c)
  }

  function ClosedModal(t: Tui): Tui {
    t.(modal := NoModal, input := [],
       form := if IsForm(t.modal) then t.form + 1 else t.form,
       setupBusy := if IsForm(t.modal) then false else t.setupBusy)
  }

  function PendingShown(t: Tui, p: PendingWrite): Tui {
    ClosedModal(t).(pending := Some(p), modal := Approval, input := [])
  }

  /** Another modal is opened; every form gets a number of its own. */
  function ModalOpened(t: Tui, modal: Modal): Tui {
    var closed := ClosedModal(t);
    closed.(modal := modal, form := if IsForm(modal) then closed.form + 1 else closed.form)
  }

  predicate DisplayChanged(a: Snapshot, b: Snapshot) {
    || a.connection != b.connection || a.database != b.database || a.browse.table != b.browse.table
    || a.browse.offset != b.browse.offset || a.query != b.query
  }

  /** The snapshot is put on display, and what was open on a row or a filter of another page is closed. */
  function Displayed(t: Tui, s: Snapshot): Tui {
    var t1 := t.(snap := s);
    if DisplayChanged(t.snap, s) && (t.modal.FilterForm? || t.modal.Inspect?) then ClosedModal(t1) else t1
  }

  /** A new pending write is shown for review, unless a connection form is open; one that is gone is dropped. */
  function Reviewed(t: Tui, pending: Option<PendingWrite>): Tui {
    if pending.Some? && t.pending != pending then
      if IsForm(t.modal) then t else PendingShown(t, pending.value)
    else if pending.None? && t.pending.Some? then
      var t1 := t.(pending := None);
      if t.modal.Approval? then ClosedModal(t1) else t1
    else t
  }

  /** A snapshot arrives. One that is older than the one on display is dropped. */
  function Accepted(t: Tui, s: Snapshot): Tui {
    if s.revision < t.snap.revision then t else Reviewed(Displayed(t, s), s.pending)
  }

  /** The end of a connection setup: the form that started it is still open and the setup succeeded. */
  function SetUpDone(t: Tui, s: Snapshot, form: nat, failed: bool, test: bool): Tui {
    var t1 := Accepted(t, s);
    if form != t1.form || !IsForm(t1.modal) then t1
    else
      var t2 := t1.(setupBusy := false);
      if failed || test then t2 else ClosedModal(t2)
  }

  function Start(s: Snapshot): Tui {
    var t := Tui(s, None, NoModal, [], 0, false);
    if s.pending.Some? then PendingShown(t, s.pending.value) else t
  }

  /** The approval key: the write to approve, if every local check passes. */
  function Approves(t: Tui, now: int): Option<PendingWrite> {
    if !t.modal.Approval? || t.pending.None? || t.snap.pending.None? || t.pending != t.snap.pending then None
    else if now > t.pending.value.expires then None
    else if Typed(t.input) != "approve" then None
    else t.pending
  }

  /**
   What the approval modal keeps: it shows the pending write of the snapshot on display,
   and all its text was typed under that write.
   */
  ghost predicate ModalOk(t: Tui) {
    t.modal.Approval? ==>
      && t.pending.Some? && t.pending == t.snap.pending
      && forall k :: 0 <= k < |t.input| ==> t.input[k].seen == t.pending
  }

  /** A pending write that differs from the reviewed one never meets text typed before it. */
  lemma ChangedWriteResetsText(t: Tui, s: Snapshot)
    requires ModalOk(t)
    ensures ModalOk(Accepted(t, s))
    ensures Accepted(t, s).modal.Approval? && Accepted(t, s).pending != t.pending ==> Accepted(t, s).input == []
    ensures Accepted(t, s).modal.Approval? && !t.modal.Approval? ==> Accepted(t, s).input == []
  {
  }

  /** The approval key approves exactly the displayed write, when it has not expired, on exactly the one word. */
  lemma ApprovesExactly(t: Tui, now: int)
    requires ModalOk(t)
    ensures Approves(t, now).Some? <==>
            t.modal.Approval? && now <= t.pending.value.expires && Typed(t.input) == "approve"
    ensures Approves(t, now).Some? ==> Approves(t, now) == t.snap.pending
  {
  }

  /** A new write is shown at once, over anything but a connection form, which is left as it is. */
  lemma NewWriteIsShown(t: Tui, s: Snapshot)
    requires s.revision >= t.snap.revision && s.pending.Some? && s.pending != t.pending
    ensures var u := Accepted(t, s);
            if IsForm(t.modal) then u == t.(snap := s)
            else u.modal.Approval? && u.pending == s.pending && u.snap == s && u.input == []
  {
  }

  /**
   Without a new or vanished write a snapshot only changes what is displayed, except that a filter
   form or an inspector closes exactly if it was opened on another page or kind of result.
   */
  lemma SameWriteChangesLittle(t: Tui, s: Snapshot)
    requires s.revision >= t.snap.revision && s.pending == t.pending
    ensures var elsewhere := !(&& s.connection == t.snap.connection && s.database == t.snap.database
                               && s.browse.table == t.snap.browse.table && s.browse.offset == t.snap.browse.offset
                               && s.query == t.snap.query);
            if (t.modal.FilterForm? || t.modal.Inspect?) && elsewhere
            then Accepted(t, s) == t.(snap := s, modal := NoModal, input := [])
            else Accepted(t, s) == t.(snap := s)
  {
  }

  /** A write that is pending when the terminal starts is shown for review. */
  lemma StartShowsPending(s: Snapshot)
    ensures ModalOk(Start(s)) && Start(s).snap == s && Start(s).pending == s.pending && Start(s).input == []
    ensures if s.pending.Some? then Start(s).modal.Approval? else Start(s).modal.NoModal?
  {
  }

  /** A write that is gone is forgotten and its modal closed. */
  lemma GoneWriteIsForgotten(t: Tui, s: Snapshot)
    requires s.revision >= t.snap.revision && s.pending.None?
    ensures Accepted(t, s).pending.None? && !(t.pending.Some? && Accepted(t, s).modal.Approval?)
  {
  }

  /** Every form has a number of its own, so a setup that ends late never closes another form. */
  lemma LateSetupIsHarmless(t: Tui, s: Snapshot, form: nat, failed: bool, test: bool, modal: Modal)
    ensures IsForm(modal) ==> ModalOpened(t, modal).form > t.form
    ensures IsForm(t.modal) ==> ClosedModal(t).form > t.form
    ensures ModalOpened(t, modal).form >= t.form && ClosedModal(t).form >= t.form && Accepted(t, s).form >= t.form
    ensures form != Accepted(t, s).form ==> SetUpDone(t, s, form, failed, test) == Accepted(t, s)
    ensures form == t.form && IsForm(t.modal) ==>
              var u := SetUpDone(t, s, form, failed, test);
              !u.setupBusy && if failed || test then u.modal == t.modal else u.modal == NoModal
  {
  }

  lemma RevisionNeverDecreases(t: Tui, s: Snapshot)
    ensures Accepted(t, s).snap.revision >= t.snap.revision
    ensures s.revision >= t.snap.revision ==> Accepted(t, s).snap == s
  {
  }

  /** The terminal model's fields that take part in write approval. */
  class Model {
    var snap: Snapshot
    var pending: Option<PendingWrite>
    var modal: Modal
    var input: string
    var form: nat
    var setupBusy: bool
    var sql: string
    var queryDraft: string
    var writeDraft: string
    ghost var keys: seq<Key>

    ghost predicate Valid()
      reads this
    {
      input == Typed(keys)
    }

    ghost function View(): Tui
      reads this
    {
      Tui(snap, pending, modal, keys, form, setupBusy)
    }

    /** The SQL last typed as a query and as a write, in the editor or remembered. */
    function Drafts(): (string, string)
      reads this
    {
      (if modal.QueryEditor? then sql else queryDraft, if modal.WriteEditor? then sql else writeDraft)
    }

    constructor (s: Snapshot)
      ensures Valid() && View() == Start(s) && Drafts() == ("", "")
    {
      snap, pending, modal, input, form, setupBusy, keys := s, None, NoModal, "", 0, false, [];
      sql, queryDraft, writeDraft := "", "", "";
      new;
      if s.pending.Some? {
        ShowPending(s.pending.value);
      }
    }

    method CloseModal()
      requires Valid()
      modifies this`modal, this`input, this`keys, this`form, this`setupBusy, this`sql, this`queryDraft, this`writeDraft
      ensures Valid() && View() == ClosedModal(old(View()))
      ensures Drafts() == old(Drafts()) && sql == ""
    {
      if modal.QueryEditor? {
        queryDraft := sql;
      }
      if modal.WriteEditor? {
        writeDraft := sql;
      }
      if IsForm(modal) {
        form := form + 1;
        setupBusy := false;
      }
      modal := NoModal;
      input, keys := "", [];
      sql := "";
    }

    /** Opens the query or the write editor on its draft. */
    method OpenSql(write: bool)
      requires Valid()
      modifies this
      ensures Valid() && View() == ModalOpened(old(View()), if write then WriteEditor else QueryEditor)
      ensures Drafts() == old(Drafts()) && sql == if write then old(Drafts()).1 else old(Drafts()).0
    {
      CloseModal();
      modal := QueryEditor;
      if write {
        modal := WriteEditor;
      }
      var draft := queryDraft;
      if write {
        draft := writeDraft;
      }
      sql := draft;
    }

    /** Ctrl+Enter in an editor: what was typed is dispatched and stays as the draft. */
    method SubmitSql() returns (action: Option<Action>)
      requires Valid() && (modal.QueryEditor? || modal.WriteEditor?)
      modifies this
      ensures Valid() && Drafts() == old(Drafts())
      ensures action.None? <==> Text.Blank(old(sql))
      ensures action.Some? ==> action.value == if old(modal).WriteEditor? then Write(old(sql)) else Query(old(sql))
      ensures View() == if action.Some? then ClosedModal(old(View())) else old(View())
    {
      var text, write := sql, modal.WriteEditor?;
      if Text.Blank(text) { return None; }
      CloseModal();
      return Some(if write then Write(text) else Query(text));
    }

    method ShowPending(p: PendingWrite)
      requires Valid()
      modifies this`pending, this`modal, this`input, this`keys, this`form, this`setupBusy, this`sql, this`queryDraft,
               this`writeDraft
      ensures Valid() && View() == PendingShown(old(View()), p)
      ensures Drafts() == old(Drafts())
    {
      CloseModal();
      pending := Some(p);
      modal := Approval;
      input, keys := "", [];
    }

    method Accept(s: Snapshot)
      requires Valid()
      modifies this
      ensures Valid() && View() == Accepted(old(View()), s)
      ensures Drafts() == old(Drafts())
    {
      hide Typed, ClosedModal, Reviewed;
      if s.revision < snap.revision { return; }
      var tableChanged := s.connection != snap.connection || s.database != snap.database
                          || s.browse.table != snap.browse.table;
      var changed := tableChanged || s.browse.offset != snap.browse.offset || s.query != snap.query;
      snap := s;
      if changed && (modal.FilterForm? || modal.Inspect?) {
        CloseModal();
      }
      ReviewPending(s.pending);
    }

    /** The part of accepting a snapshot that deals with its pending write. */
    method ReviewPending(next: Option<PendingWrite>)
      requires Valid()
      modifies this`pending, this`modal, this`input, this`keys, this`form, this`setupBusy, this`sql,
               this`queryDraft, this`writeDraft
      ensures Valid() && View() == Reviewed(old(View()), next)
      ensures Drafts() == old(Drafts())
    {
      hide ClosedModal, PendingShown;
      if next.Some? && (pending.None? || pending.value != next.value) {
        if !IsForm(modal) {
          ShowPending(next.value);
        }
      } else if next.None? && pending.Some? {
        pending := None;
        if modal.Approval? {
          CloseModal();
        }
      }
    }

    method FinishSetup(s: Snapshot, id: nat, failed: bool, test: bool)
      requires Valid()
      modifies this
      ensures Valid() && View() == SetUpDone(old(View()), s, id, failed, test)
      ensures Drafts() == old(Drafts())
    {
      Accept(s);
      if id != form || !IsForm(modal) { return; }
      setupBusy := false;
      if !failed && !test {
        CloseModal();
      }
    }

    method PressEnterInApproval(now: int) returns (approved: Option<PendingWrite>)
      requires Valid() && modal.Approval?
      modifies this
      ensures Valid() && approved == Approves(old(View()), now)
      ensures Drafts() == old(Drafts())
      ensures View() == if approved.Some? then ClosedModal(old(View())) else old(View())
    {
      if pending.None? || snap.pending.None? || pending.value != snap.pending.value { return None; }
      if now > pending.value.expires { return None; }
      if input != "approve" { return None; }
      approved := pending;
      CloseModal();
    }
  }
}
