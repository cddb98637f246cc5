/** The editor's undo manager (CompoundGroupedUndoManager): incoming edits are
    collected into compound groups, and one undo or redo step takes back or
    replays a whole group. The Swing manager underneath is abstracted as two
    stacks of groups. */
module UndoGroups {
  import opened Wrappers

  /** One undoable edit, by identity. */
  datatype Edit = Edit(id: nat)

  /** A compound edit: its edits, oldest first. */
  type Group = seq<Edit>

  /** The superclass manager's list of groups split where undo and redo meet:
      `done` can be undone (oldest first), `undone` can be redone (most
      recently undone first). */
  datatype History = History(done: seq<Group>, undone: seq<Group>)

  /** Every edit that is currently applied, in the order it was made. */
  function Flatten(groups: seq<Group>): seq<Edit>
  {
    if groups == [] then [] else Flatten(groups[..|groups| - 1]) + groups[|groups| - 1]
  }

  /** Appending an edit to the last group appends it to the applied edits. */
  lemma {:induction false} FlattenExtendLast(groups: seq<Group>, e: Edit)
    requires groups != []
    ensures Flatten(groups[..|groups| - 1] + [groups[|groups| - 1] + [e]]) == Flatten(groups) + [e]
  {
    var init := groups[..|groups| - 1];
    var g := init + [groups[|groups| - 1] + [e]];
    assert g[..|g| - 1] == init;
  }

  lemma {:induction false} FlattenPushEmpty(groups: seq<Group>)
    ensures Flatten(groups + [[]]) == Flatten(groups)
  {
    var g := groups + [[]];
    assert g[..|g| - 1] == groups;
  }

  /** One step of the superclass `undo`: the newest applied group moves to the
      redo side; with nothing to undo the call throws (None). */
  function UndoStep(h: History): (r: Option<History>)
    ensures h.done == [] <==> r.None?
    ensures r.Some? ==> |r.value.undone| > 0 && r.value.done + [r.value.undone[0]] == h.done && r.value.undone[1..] == h.undone
  {
    if h.done == [] then None
    else Some(History(h.done[..|h.done| - 1], [h.done[|h.done| - 1]] + h.undone))
  }

  /** One step of the superclass `redo`: the most recently undone group is
      applied again; with nothing to redo the call throws (None). */
  function RedoStep(h: History): (r: Option<History>)
    ensures h.undone == [] <==> r.None?
    ensures r.Some? ==> r.value.done == h.done + [h.undone[0]] && r.value.undone == h.undone[1..]
  {
    if h.undone == [] then None
    else Some(History(h.done + [h.undone[0]], h.undone[1..]))
  }

  /** Redo takes back exactly what undo did, and undo what redo did. */
  lemma UndoRedoRoundTrip(h: History)
    ensures UndoStep(h).Some? ==> RedoStep(UndoStep(h).value) == Some(h)
    ensures RedoStep(h).Some? ==> UndoStep(RedoStep(h).value) == Some(h)
  {
    if h.done != [] {
      assert h.done[..|h.done| - 1] + [h.done[|h.done| - 1]] == h.done;
    }
    if h.undone != [] {
      var d := h.done + [h.undone[0]];
      assert d[..|d| - 1] == h.done;
      assert [h.undone[0]] + h.undone[1..] == h.undone;
    }
  }

  /** Undo removes the newest group's edits from the applied edits. */
  lemma UndoDropsNewestGroup(h: History)
    requires h.done != []
    ensures Flatten(UndoStep(h).value.done) + h.done[|h.done| - 1] == Flatten(h.done)
  {
  }

  class CompoundGroupedUndoManager {
    /** Set while an undo or redo runs, so that `startGroup` is ignored. */
    var suspended: bool
    /** The next edit opens a new group. */
    var requestNewCompoundEdit: bool
    /** Whether a current group exists (`compoundEdit != null`). */
    var hasGroup: bool
    var done: seq<Group>
    var undone: seq<Group>

    /** Unless a new group is requested, the current group is the newest
        applied one. */
    ghost predicate Valid()
      reads this
    {
      hasGroup && !requestNewCompoundEdit ==> done != []
    }

    function Current(): History
      reads this
    {
      History(done, undone)
    }

    constructor ()
      ensures Valid()
      ensures !suspended && requestNewCompoundEdit && !hasGroup
      ensures done == [] && undone == []
    {
      suspended := false;
      requestNewCompoundEdit := true;
      hasGroup := false;
      done := [];
      undone := [];
      new;
      StartGroup();
    }

    method SetSuspended(suspended: bool)
      modifies this`suspended
      ensures this.suspended == suspended
    {
      this.suspended := suspended;
    }

    method IsSuspended() returns (s: bool)
      ensures s == suspended
    {
      s := suspended;
    }

    /** Requests that the next edit open a new group; ignored while
        suspended. */
    method StartGroup()
      requires Valid()
      modifies this`requestNewCompoundEdit
      ensures Valid()
      ensures requestNewCompoundEdit == (old(requestNewCompoundEdit) || !suspended)
    {
      if !suspended {
        requestNewCompoundEdit := true;
      }
    }

    /** Adds an edit: to a new group when one was requested or none exists
        (ending the previous group, and discarding what could be redone, as
        the superclass does when a new entry arrives), otherwise to the
        current group. Always accepted. */
    method AddEdit(e: Edit) returns (accepted: bool)
      requires Valid()
      modifies this`requestNewCompoundEdit, this`hasGroup, this`done, this`undone
      ensures Valid() && accepted
      ensures hasGroup && !requestNewCompoundEdit
      ensures Flatten(done) == old(Flatten(done)) + [e]
      ensures done[|done| - 1] == (if old(requestNewCompoundEdit) || !old(hasGroup) then [e] else old(done[|done| - 1]) + [e])
      ensures old(requestNewCompoundEdit) || !old(hasGroup) ==>
        |done| == old(|done|) + 1 && done[..|done| - 1] == old(done) && undone == []
      ensures !(old(requestNewCompoundEdit) || !old(hasGroup)) ==>
        |done| == old(|done|) && done[..|done| - 1] == old(done[..|done| - 1]) && undone == old(undone)
    {
      if requestNewCompoundEdit || !hasGroup {
        FlattenPushEmpty(done);
        done := done + [[]];
        undone := [];
        hasGroup := true;
        requestNewCompoundEdit := false;
      }
      FlattenExtendLast(done, e);
      done := done[..|done| - 1] + [done[|done| - 1] + [e]];
      accepted := true;
    }

    /** Undoes the newest group with `startGroup` suspended; `ok` is false when
        the superclass throws because nothing is left to undo. Either way the
        manager ends unsuspended with a new group requested. */
    method Undo() returns (ok: bool)
      requires Valid()
      modifies this`suspended, this`requestNewCompoundEdit, this`done, this`undone
      ensures Valid()
      ensures !suspended && requestNewCompoundEdit
      ensures ok == UndoStep(old(Current())).Some?
      ensures Current() == (if ok then UndoStep(old(Current())).value else old(Current()))
    {
      SetSuspended(true);
      var step := UndoStep(History(done, undone));
      if step.Some? {
        done, undone := step.value.done, step.value.undone;
      }
      ok := step.Some?;
      SetSuspended(false);
      requestNewCompoundEdit := true;
    }

    /** Redoes the most recently undone group, the mirror of Undo. */
    method Redo() returns (ok: bool)
      requires Valid()
      modifies this`suspended, this`requestNewCompoundEdit, this`done, this`undone
      ensures Valid()
      ensures !suspended && requestNewCompoundEdit
      ensures ok == RedoStep(old(Current())).Some?
      ensures Current() == (if ok then RedoStep(old(Current())).value else old(Current()))
    {
      SetSuspended(true);
      var step := RedoStep(History(done, undone));
      if step.Some? {
        done, undone := step.value.done, step.value.undone;
      }
      ok := step.Some?;
      SetSuspended(false);
      requestNewCompoundEdit := true;
    }
  }
}
