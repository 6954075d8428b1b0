# Text-annotation canvas: label store and undo/redo history

This project models the editing core of a browser text-annotation canvas,
found in the `App` component of `src/App.js`. Users place text labels on a
canvas, drag them around, restyle them, and undo or redo their edits. The
model covers one session record, `Sessions.Session`, which holds:

- the live label list (`texts`);
- the undo history (`history`), a stack of whole-list snapshots whose newest entry is last;
- the redo stack (`redoStack`), whose newest entry is first;
- the selected label id (`selected`, an `Option`);
- the form fields: the input text and the current style.

Each event handler is a pure transition on that record:

- `Sessions.Add`, `Sessions.Edit` and `Sessions.AddOrEdit` model the Add/Edit button.
- `Sessions.Move` models dropping a label at a position.
- `Sessions.SaveHistory` models the snapshot push.
- `Sessions.Undo` and `Sessions.Redo` model the Undo and Redo buttons.
- `Sessions.Select` models clicking a label.

The two list rewrites, edit and move, share one definition, `Labels.UpdateWhere`.
The drag-drop clamp of `DraggableText.handleDrag` is `Drag.DropCoordinate`.
`Drag.DragEnd` is the drop: it clamps the position and then moves the label.

Files:

- `labels.dfy` (module `Labels`): the label and style records, the list rewrites and id uniqueness.
- `sessions.dfy` (module `Sessions`): the session record and the handlers.
- `history_laws.dfy` (module `HistoryLaws`): laws about runs of several transitions.
- `drag.dfy` (module `Drag`): the drop clamp.
- `scenarios.dfy` (module `Scenarios`): three concrete editing sessions.

Three behaviours of the code that the model keeps as written:

- Edit and move with an id that no label carries are not no-ops. They still push a snapshot and empty the redo stack (`src/App.js:25`, `src/App.js:53`). Only the label list stays unchanged.
- Label ids are not guaranteed to be unique. They are `Date.now()` timestamps and nothing checks them. Uniqueness is proved only as an invariant under the precondition that each new id is fresh (`HistoryLaws.MutationKeepsIdsUnique`).
- Undo and redo restore only the label list. The selection and the form fields keep their current values.

Two points about the source that the model reflects:

- The edit branch cannot be reached from the UI. `DraggableText` takes only `text` and `onMove` (`src/App.js:175`), so the `onSelect` callback (`src/App.js:99-107`) is never called and the selection is never set. The model still defines `Select` and `Edit`, because the code defines them.
- The selection test is JavaScript truthiness (`src/App.js:18`). A selected id of `0` counts as "no selection" and gives an add (`Sessions.Truthy`).

## Model

| member | source | states |
|---|---|---|
| `Labels.UpdateWhere` | src/App.js:50-52 | The list rewrite keeps length, order and every id. It leaves labels with other ids unchanged and revises every label with the target id. With an absent id the list is unchanged. |
| `Labels.EditLabels` | src/App.js:20-24 | Editing keeps length, the id sequence and every position. Targeted labels get the new content and style. Other labels are untouched. An absent id changes nothing. |
| `Labels.MoveLabels` | src/App.js:50-52 | Moving keeps length, the id sequence, every content and every style. Targeted labels get the new x and y. Other labels are untouched. An absent id changes nothing. |
| `Labels.UpdateKeepsUniqueIds` | src/App.js:20-24 | Edit and move rewrites keep distinct ids distinct. |
| `Labels.AppendFreshKeepsUniqueIds` | src/App.js:30-42 | Appending a label whose id is not yet in the list keeps ids distinct. |
| `Sessions.SaveHistory` | src/App.js:58-61 | Saving history appends the live list as the newest history entry on top of the old history and empties the redo stack, so Redo is disabled. The live list, the selection and the form are unchanged. |
| `Sessions.Add` | src/App.js:30-44 | Add appends exactly one label, with the given id, the input text, position (50, 50) and the form style. Earlier labels are unchanged. The pre-add list is pushed onto the history, redo is emptied, the input is cleared, and the selection and style stay as they were. |
| `Sessions.Edit` | src/App.js:18-27 | Edit keeps length and ids. Only target labels change, and each keeps its position while taking the form's content and style. The history gets the pre-edit list, redo is emptied, and the selection and input are cleared. |
| `Sessions.AddOrEdit` | src/App.js:17-45 | The Add/Edit button always records the pre-state and clears redo and the input. With a truthy selection it clears the selection and keeps the list's length and ids. Labels with the selected id take the form's content and style and keep their position; all other labels are unchanged. Otherwise it keeps the old list and appends one label: id `now`, the input text, position (50, 50) and the form style. |
| `Sessions.Move` | src/App.js:49-55 | Move keeps length and ids. Only target labels change, and only in x and y. The history gets the pre-move list, redo is emptied, and the form and selection are unchanged. |
| `Sessions.Undo` | src/App.js:64-70 | When the history is non-empty, the old history equals the new history followed by the new live list, and the old live list goes to the front of the redo stack. Undo is a no-op exactly when the history is empty, which is when the button is disabled (line 84). The sum of the two stack sizes is unchanged. |
| `Sessions.Redo` | src/App.js:73-79 | When the redo stack is non-empty, the old redo stack equals the new live list followed by the new redo stack, and the old live list is appended to the history. Redo is a no-op exactly when the redo stack is empty, which is when the button is disabled (line 87). The sum of the two stack sizes is unchanged. |
| `Sessions.Select` | src/App.js:99-107 | Clicking a label loads its text and style into the form and selects its id, without touching the list or either stack. The next commit is an edit exactly when the id is nonzero. |
| `HistoryLaws.MutationRecordsSnapshot` | src/App.js:58-61 | Every mutation (add, edit, move) pushes the pre-mutation list onto the history and empties the redo stack, so afterwards Redo is disabled and a no-op. |
| `HistoryLaws.UndoRevertsMutation` | src/App.js:58-70 | Undo right after any mutation restores the previous list and history. Its redo stack then holds exactly the mutated list. |
| `HistoryLaws.RedoAfterUndo` | src/App.js:64-79 | When undo is enabled, redo after undo restores the entire session. |
| `HistoryLaws.UndoAfterRedo` | src/App.js:64-79 | When redo is enabled, undo after redo restores the entire session. |
| `HistoryLaws.UndoNShape` | src/App.js:64-70 | After n undos on a history of at least n snapshots, the n newest snapshots have left the history, the oldest of them is live, and the redo stack has grown by n. |
| `HistoryLaws.MutateAllHistory` | src/App.js:58-61 | A run of n mutations grows the history by n snapshots on top of the old one. The first new snapshot is the list the run started from. Each commit in the run carries its own form (selection, typed text, style), so the user may type, restyle and select between presses. |
| `HistoryLaws.UndosRevertMutations` | src/App.js:58-70 | N undos after any N mutations bring back the starting label list and history. The mutations are adds, edits and moves, with any typing, restyling or selection between presses. |
| `HistoryLaws.UndosRevertToEmpty` | src/App.js:5-9 | From the opening state, N undos after N mutations give the empty canvas with Undo disabled. The run may add labels with any text and style, and edit or move them. |
| `HistoryLaws.RedosAfterUndos` | src/App.js:64-79 | For M at most the history size, M redos after M undos restore the whole session. |
| `HistoryLaws.MutationAfterUndosDiscardsRedo` | src/App.js:58-61 | A mutation after any number of undos discards all redo snapshots, so the next Redo is a no-op. |
| `HistoryLaws.MutationKeepsIdsUnique` | src/App.js:30-42 | If every list in the session has distinct ids and a new label's id is fresh, every list still has distinct ids after any mutation. |
| `HistoryLaws.UndoRedoKeepIdsUnique` | src/App.js:64-79 | Undo and redo keep every list in the session free of duplicate ids. |
| `HistoryLaws.SelectThenCommitKeepsList` | src/App.js:17-27 | Selecting a listed label with a nonzero id and committing the form as loaded leaves the list as it was (ids distinct). It still pushes a snapshot and clears the selection. |
| `Drag.DropCoordinate` | src/App.js:180-187 | The dropped offset is never negative. When the label fits, it is at most canvas size minus label size. When the label does not fit, it is 0. |
| `Drag.DropCoordinateIsNearest` | src/App.js:180-187 | When the label fits, the dropped offset is the allowed offset closest to the pointer-centred one. A centred offset that is already allowed is kept exactly. |
| `Drag.DragEnd` | src/App.js:176-190 | A drop moves labels with the dragged id exactly to the clamped point on each axis, and they keep their content and style. That point is never negative and lies inside the canvas whenever the label fits. Other labels, the selection and the form are unchanged. It records history like any move. |
| `Scenarios.AddUndoRedoHello` | src/App.js:30-79 | Adding "Hello" to the empty canvas gives one label at (50, 50) with the default style. Undo empties the canvas and redo restores the session. |
| `Scenarios.EditThenUndoThree` | src/App.js:17-70 | Add A, add B, then edit A to A2. Three undos walk back through [A, B] and [A] to the empty canvas. |
| `Scenarios.NewAddDiscardsRedo` | src/App.js:30-79 | Add X, undo, add Y: the second add discards the redo snapshot, so Redo is a no-op and the list is [Y]. |

## Left out

- JSX rendering, the stylesheet import and React's hook plumbing are left out. Each handler is one synchronous transition from the state it was rendered with: no batching, no re-render.
- The in-place `history.pop()` and `redoStack.shift()` (lines 66 and 75) are modelled as removing the last or first snapshot. The aliasing is not modelled.
- `Date.now()` id generation (line 31) is left out as clock input. The id is the parameter `now`, and nothing forces it to be fresh.
- The style pickers (lines 113-154) and the text field's change handler (line 163) are plain form-field setters. The style is a record carried through add, edit and select. The scenarios type text by updating `inputText` directly.
- The DOM reads in `handleDrag` (`querySelector`, `getBoundingClientRect`, `offsetWidth`, `offsetHeight`, pointer coordinates) are left out. They become the parameters `canvas`, `labelWidth`, `labelHeight`, `clientX` and `clientY`.
- Floating-point pixel arithmetic, including `NaN`, is idealised as `real`. The falsy `NaN` id is therefore not represented; only `null` and `0` are falsy.
- The string encoding of the style fields is left out. Font style, weight and decoration are enumerations instead of the strings "normal"/"italic", "normal"/"bold" and "none"/"underline".
