/**
  One editing session of the annotation canvas (the state of the `App`
  component in src/App.js): the live label list, the two snapshot stacks
  of the undo/redo history, the selected label and the form fields. Each
  user-event handler is one atomic transition from the state it was
  rendered with to the next state.
 */
module Sessions {
  import opened Labels

  datatype Option<+T> = None | Some(value: T)

  /** A full copy of the label list at one instant. */
  type Snapshot = seq<Label>

  datatype Session = Session(
    texts: Snapshot,           // the live label list
    history: seq<Snapshot>,    // undo snapshots, most recent LAST
    redoStack: seq<Snapshot>,  // redo snapshots, most recent FIRST
    selected: Option<Id>,      // the label the next commit edits
    inputText: string,         // the text field of the form
    style: Style)              // the style fields of the form

  /** The session when the editor opens. */
  const Initial: Session := Session([], [], [], None, "", DefaultStyle)

  /**
    JavaScript truthiness of the selection: `null` is falsy, and so is
    the number 0, so a selected label whose id is 0 does not count as a
    selection.
   */
  predicate Truthy(sel: Option<Id>)
  {
    sel.Some? && sel.value != 0
  }

  /** The Undo button is enabled exactly when there is a snapshot to go back to. */
  predicate CanUndo(s: Session)
  {
    |s.history| != 0
  }

  /** The Redo button is enabled exactly when there is a snapshot to go forward to. */
  predicate CanRedo(s: Session)
  {
    |s.redoStack| != 0
  }

  /**
    Pushes the live list onto the undo history and forgets every redo
    snapshot; run by each handler before it changes the list, so the
    snapshot is always the pre-mutation list.
   */
  function SaveHistory(s: Session): (r: Session)
    ensures |r.history| == |s.history| + 1 && r.history[..|s.history|] == s.history
    ensures r.history[|s.history|] == s.texts && !CanRedo(r)
    ensures r.texts == s.texts && r.selected == s.selected
    ensures r.inputText == s.inputText && r.style == s.style
  {
    s.(history := s.history + [s.texts], redoStack := [])
  }

  /**
    The add branch of the Add/Edit button: one new label at the end of the
    list, made from the form (text and style) at the fixed start position,
    with the given creation timestamp as its id; the text field is cleared.
   */
  function Add(s: Session, now: Id): (r: Session)
    ensures |r.texts| == |s.texts| + 1 && r.texts[..|s.texts|] == s.texts
    ensures r.texts[|s.texts|] == Label(now, s.inputText, 50.0, 50.0, s.style)
    ensures r.history == s.history + [s.texts] && r.redoStack == []
    ensures r.inputText == "" && r.selected == s.selected && r.style == s.style
  {
    SaveHistory(s).(texts := s.texts + [NewLabel(now, s.inputText, s.style)], inputText := "")
  }

  /**
    The edit branch of the Add/Edit button: the labels carrying `target`
    take the form's text and style and keep their position; the selection
    and the text field are cleared. The snapshot is pushed even when no
    label carries `target`.
   */
  function Edit(s: Session, target: Id): (r: Session)
    ensures |r.texts| == |s.texts| && Ids(r.texts) == Ids(s.texts)
    ensures forall i :: 0 <= i < |s.texts| && s.texts[i].id != target ==> r.texts[i] == s.texts[i]
    ensures forall i :: 0 <= i < |s.texts| && s.texts[i].id == target ==>
              r.texts[i] == s.texts[i].(content := s.inputText, style := s.style)
    ensures target !in Ids(s.texts) ==> r.texts == s.texts
    ensures r.history == s.history + [s.texts] && r.redoStack == []
    ensures r.inputText == "" && r.selected == None && r.style == s.style
  {
    SaveHistory(s).(
      texts := EditLabels(s.texts, target, s.inputText, s.style),
      selected := None,
      inputText := "")
  }

  /**
    The Add/Edit button: an edit of the selected label when the selection
    is truthy, otherwise an add whose id is the timestamp `now`.
   */
  function AddOrEdit(s: Session, now: Id): (r: Session)
    ensures r.history == s.history + [s.texts] && r.redoStack == []
    ensures r.inputText == "" && r.style == s.style
    ensures Truthy(s.selected) ==>
              r.selected == None && |r.texts| == |s.texts| && Ids(r.texts) == Ids(s.texts)
    ensures !Truthy(s.selected) ==>
              r.selected == s.selected && |r.texts| == |s.texts| + 1 && r.texts[..|s.texts|] == s.texts
    ensures !Truthy(s.selected) ==>
              r.texts[|s.texts|] == Label(now, s.inputText, 50.0, 50.0, s.style)
    ensures Truthy(s.selected) ==>
              forall i :: 0 <= i < |s.texts| && s.texts[i].id != s.selected.value ==>
                r.texts[i] == s.texts[i]
    ensures Truthy(s.selected) ==>
              forall i :: 0 <= i < |s.texts| && s.texts[i].id == s.selected.value ==>
                r.texts[i] == s.texts[i].(content := s.inputText, style := s.style)
  {
    if Truthy(s.selected) then Edit(s, s.selected.value) else Add(s, now)
  }

  /**
    The drop of a dragged label: the labels carrying `id` take the
    position (`x`, `y`) and keep their text and style; the form is
    untouched. The snapshot is pushed even when no label carries `id`.
   */
  function Move(s: Session, id: Id, x: real, y: real): (r: Session)
    ensures |r.texts| == |s.texts| && Ids(r.texts) == Ids(s.texts)
    ensures forall i :: 0 <= i < |s.texts| && s.texts[i].id != id ==> r.texts[i] == s.texts[i]
    ensures forall i :: 0 <= i < |s.texts| && s.texts[i].id == id ==>
              r.texts[i] == s.texts[i].(x := x, y := y)
    ensures id !in Ids(s.texts) ==> r.texts == s.texts
    ensures r.history == s.history + [s.texts] && r.redoStack == []
    ensures r.selected == s.selected && r.inputText == s.inputText && r.style == s.style
  {
    SaveHistory(s).(texts := MoveLabels(s.texts, id, x, y))
  }

  /**
    The Undo button: the most recent snapshot becomes the live list and
    leaves the history, and the list it replaces goes to the front of the
    redo stack. With an empty history nothing changes at all. The form and
    the selection are never touched.
   */
  function Undo(s: Session): (r: Session)
    ensures CanUndo(s) ==> r.history + [r.texts] == s.history
    ensures CanUndo(s) ==> r.redoStack == [s.texts] + s.redoStack
    ensures r == s <==> !CanUndo(s)
    ensures |r.history| + |r.redoStack| == |s.history| + |s.redoStack|
    ensures r.selected == s.selected && r.inputText == s.inputText && r.style == s.style
  {
    if |s.history| > 0 then
      var last := |s.history| - 1;
      s.(texts := s.history[last], history := s.history[..last], redoStack := [s.texts] + s.redoStack)
    else
      s
  }

  /**
    The Redo button: the first redo snapshot becomes the live list and
    leaves the redo stack, and the list it replaces is appended to the
    history. With an empty redo stack nothing changes at all. The form and
    the selection are never touched.
   */
  function Redo(s: Session): (r: Session)
    ensures CanRedo(s) ==> [r.texts] + r.redoStack == s.redoStack
    ensures CanRedo(s) ==> r.history == s.history + [s.texts]
    ensures r == s <==> !CanRedo(s)
    ensures |r.history| + |r.redoStack| == |s.history| + |s.redoStack|
    ensures r.selected == s.selected && r.inputText == s.inputText && r.style == s.style
  {
    if |s.redoStack| > 0 then
      s.(texts := s.redoStack[0], history := s.history + [s.texts], redoStack := s.redoStack[1..])
    else
      s
  }

  /**
    Clicking a label: it becomes the selection and its text and style are
    loaded into the form, so the next press of Add/Edit edits it (unless
    its id is the falsy 0); the list and the history are untouched.
   */
  function Select(s: Session, l: Label): (r: Session)
    ensures r.texts == s.texts && r.history == s.history && r.redoStack == s.redoStack
    ensures Truthy(r.selected) <==> l.id != 0
    ensures r.selected.Some? && r.selected.value == l.id
    ensures r.inputText == l.content && r.style == l.style
  {
    s.(selected := Some(l.id), inputText := l.content, style := l.style)
  }
}
