/**
  Laws of the undo/redo history over whole runs of the editor: every
  mutation records its pre-state and invalidates redo, undo and redo undo
  each other, N undos revert N mutations, and distinct label ids survive
  every transition as long as new labels get fresh ids.
 */
module HistoryLaws {
  import opened Labels
  import opened Sessions

  /**
    The transitions that change the label list. A commit carries the form
    in force when the button is pressed (selection, typed text, chosen
    style), so a run may select, type and restyle between presses.
   */
  datatype Mutation =
    | Commit(now: Id, sel: Option<Id>, text: string, st: Style)  // the Add/Edit button at time `now`
    | MoveTo(id: Id, x: real, y: real)                           // the drop of a dragged label

  function Mutate(s: Session, m: Mutation): Session
  {
    match m
    case Commit(now, sel, text, st) => AddOrEdit(s.(selected := sel, inputText := text, style := st), now)
    case MoveTo(id, x, y) => Move(s, id, x, y)
  }

  /** The mutations of `ms`, in order, from `s`. */
  function MutateAll(s: Session, ms: seq<Mutation>): Session
    decreases |ms|
  {
    if |ms| == 0 then s else MutateAll(Mutate(s, ms[0]), ms[1..])
  }

  /** `n` presses of Undo. */
  function UndoN(s: Session, n: nat): Session
  {
    if n == 0 then s else Undo(UndoN(s, n - 1))
  }

  /** `n` presses of Redo. */
  function RedoN(s: Session, n: nat): Session
    decreases n
  {
    if n == 0 then s else RedoN(Redo(s), n - 1)
  }

  /**
    Every mutation first pushes the pre-mutation list onto the history and
    empties the redo stack, so right after it Redo is disabled and a no-op.
   */
  lemma MutationRecordsSnapshot(s: Session, m: Mutation)
    ensures Mutate(s, m).history == s.history + [s.texts]
    ensures Mutate(s, m).redoStack == []
    ensures !CanRedo(Mutate(s, m)) && Redo(Mutate(s, m)) == Mutate(s, m)
  {
  }

  /** Undo right after a mutation brings back the list and the history from before it. */
  lemma UndoRevertsMutation(s: Session, m: Mutation)
    ensures Undo(Mutate(s, m)).texts == s.texts
    ensures Undo(Mutate(s, m)).history == s.history
    ensures Undo(Mutate(s, m)).redoStack == [Mutate(s, m).texts]
  {
  }

  /** Redo undoes Undo: the whole session is as it was. */
  lemma RedoAfterUndo(s: Session)
    requires CanUndo(s)
    ensures Redo(Undo(s)) == s
  {
  }

  /** Undo undoes Redo: the whole session is as it was. */
  lemma UndoAfterRedo(s: Session)
    requires CanRedo(s)
    ensures Undo(Redo(s)) == s
  {
  }

  /**
    After `n` undos from a history of at least `n` snapshots, the `n` most
    recent snapshots have left the history, the oldest of them is live,
    and the redo stack has grown by `n`.
   */
  lemma {:induction false} UndoNShape(s: Session, n: nat)
    requires n <= |s.history|
    ensures UndoN(s, n).history == s.history[..|s.history| - n]
    ensures |UndoN(s, n).redoStack| == |s.redoStack| + n
    ensures n > 0 ==> UndoN(s, n).texts == s.history[|s.history| - n]
  {
    if n > 0 {
      UndoNShape(s, n - 1);
      var u := UndoN(s, n - 1);
      assert CanUndo(u);
      assert u.history[..|u.history| - 1] == s.history[..|s.history| - n];
    }
  }

  /**
    After the mutations `ms` the history has grown by one snapshot per
    mutation, on top of the old history, and the first new snapshot is the
    list the run started from.
   */
  lemma {:induction false} MutateAllHistory(s: Session, ms: seq<Mutation>)
    ensures |MutateAll(s, ms).history| == |s.history| + |ms|
    ensures MutateAll(s, ms).history[..|s.history|] == s.history
    ensures |ms| > 0 ==> MutateAll(s, ms).history[|s.history|] == s.texts
    decreases |ms|
  {
    if |ms| > 0 {
      var t := Mutate(s, ms[0]);
      MutationRecordsSnapshot(s, ms[0]);
      MutateAllHistory(t, ms[1..]);
      var h := MutateAll(s, ms).history;
      assert h[..|t.history|] == t.history;
      assert h[..|s.history|] == t.history[..|s.history|];
    }
  }

  /** N undos after N mutations bring back the starting list and history. */
  lemma UndosRevertMutations(s: Session, ms: seq<Mutation>)
    ensures UndoN(MutateAll(s, ms), |ms|).texts == s.texts
    ensures UndoN(MutateAll(s, ms), |ms|).history == s.history
  {
    var t := MutateAll(s, ms);
    MutateAllHistory(s, ms);
    UndoNShape(t, |ms|);
    var u := UndoN(t, |ms|);
    assert u.history == t.history[..|s.history|];
    if |ms| > 0 {
      assert u.texts == t.history[|s.history|];
    }
  }

  /** From the opening state, N undos after N mutations give back the empty canvas. */
  lemma UndosRevertToEmpty(ms: seq<Mutation>)
    ensures UndoN(MutateAll(Initial, ms), |ms|).texts == []
    ensures !CanUndo(UndoN(MutateAll(Initial, ms), |ms|))
  {
    UndosRevertMutations(Initial, ms);
  }

  /** M redos after M undos give back the whole session from before the undos. */
  lemma {:induction false} RedosAfterUndos(s: Session, m: nat)
    requires m <= |s.history|
    ensures RedoN(UndoN(s, m), m) == s
  {
    if m > 0 {
      var u := UndoN(s, m - 1);
      UndoNShape(s, m - 1);
      assert CanUndo(u);
      RedoAfterUndo(u);
      assert RedoN(UndoN(s, m), m) == RedoN(u, m - 1);
      RedosAfterUndos(s, m - 1);
    }
  }

  /** A mutation after any undos discards every redo snapshot. */
  lemma MutationAfterUndosDiscardsRedo(s: Session, n: nat, m: Mutation)
    ensures !CanRedo(Mutate(UndoN(s, n), m))
    ensures Redo(Mutate(UndoN(s, n), m)) == Mutate(UndoN(s, n), m)
  {
    MutationRecordsSnapshot(UndoN(s, n), m);
  }

  /** Every list the session holds, live or saved, has distinct ids. */
  predicate SessionIdsUnique(s: Session)
  {
    && UniqueIds(s.texts)
    && (forall snap :: snap in s.history ==> UniqueIds(snap))
    && (forall snap :: snap in s.redoStack ==> UniqueIds(snap))
  }

  /**
    The id of a label the Add/Edit button would create at time `now` is
    fresh. The editor takes ids from `Date.now()` and does not check this.
   */
  predicate FreshFor(s: Session, m: Mutation)
  {
    m.Commit? && !Truthy(m.sel) ==> m.now !in Ids(s.texts)
  }

  /** Mutations with fresh ids keep every list's ids distinct. */
  lemma MutationKeepsIdsUnique(s: Session, m: Mutation)
    requires SessionIdsUnique(s)
    requires FreshFor(s, m)
    ensures SessionIdsUnique(Mutate(s, m))
  {
  }

  /** Undo and redo only shuffle lists between the stacks, so distinct ids stay distinct. */
  lemma UndoRedoKeepIdsUnique(s: Session)
    requires SessionIdsUnique(s)
    ensures SessionIdsUnique(Undo(s))
    ensures SessionIdsUnique(Redo(s))
  {
  }

  /**
    Selecting a label and pressing Add/Edit with the form as loaded leaves
    the list as it was (the history still records a snapshot), provided the
    label is in the list, its id is truthy and ids are distinct.
   */
  lemma SelectThenCommitKeepsList(s: Session, l: Label, now: Id)
    requires UniqueIds(s.texts)
    requires l in s.texts
    requires l.id != 0
    ensures AddOrEdit(Select(s, l), now).texts == s.texts
    ensures AddOrEdit(Select(s, l), now).history == s.history + [s.texts]
    ensures AddOrEdit(Select(s, l), now).selected == None
  {
    var t := Select(s, l);
    var r := AddOrEdit(t, now);
    assert r == Edit(t, l.id);
    forall i | 0 <= i < |s.texts|
      ensures r.texts[i] == s.texts[i]
    {
      if s.texts[i].id == l.id {
        var k :| 0 <= k < |s.texts| && s.texts[k] == l;
        assert k == i;
      }
    }
  }
}
