/**
  The label store of the annotation canvas: one record per placed text
  label, and the two rewrites the editor applies to the whole list
  (re-texting a label and moving it). Both walk the whole list and revise
  every label that carries the target id, leaving the others as they are,
  so they share one definition, `UpdateWhere`.
 */
module Labels {

  /** Label ids are the millisecond timestamps taken when a label is created. */
  type Id = int

  datatype FontStyle = NormalStyle | Italic
  datatype FontWeight = NormalWeight | Bold
  datatype TextDecoration = NoDecoration | Underline

  /** The five style fields the form carries and every label copies. */
  datatype Style = Style(
    fontSize: int,
    fontStyle: FontStyle,
    fontWeight: FontWeight,
    textDecoration: TextDecoration,
    fontFamily: string)

  /** The form's style when the editor opens: 16px, normal, normal, no decoration, Arial. */
  const DefaultStyle: Style := Style(16, NormalStyle, NormalWeight, NoDecoration, "Arial")

  /** One placed text label; `x` and `y` are its offset inside the canvas. */
  datatype Label = Label(id: Id, content: string, x: real, y: real, style: Style)

  /** Where a freshly added label is placed. */
  const NewLabelX: real := 50.0
  const NewLabelY: real := 50.0

  function NewLabel(id: Id, content: string, style: Style): Label
  {
    Label(id, content, NewLabelX, NewLabelY, style)
  }

  /** What a rewrite does to each label it targets. */
  datatype Change =
    | Retext(content: string, style: Style)
    | Reposition(x: real, y: real)

  function Revise(l: Label, c: Change): Label
  {
    match c
    case Retext(content, style) => l.(content := content, style := style)
    case Reposition(x, y) => l.(x := x, y := y)
  }

  /** Applies `c` to every label whose id is `id`, keeping the list's length and order. */
  function UpdateWhere(ls: seq<Label>, id: Id, c: Change): (r: seq<Label>)
    ensures |r| == |ls|
    ensures forall i :: 0 <= i < |ls| ==> r[i].id == ls[i].id
    ensures forall i :: 0 <= i < |ls| && ls[i].id != id ==> r[i] == ls[i]
    ensures forall i :: 0 <= i < |ls| && ls[i].id == id ==> r[i] == Revise(ls[i], c)
    ensures id !in Ids(ls) ==> r == ls
  {
    if |ls| == 0 then []
    else [if ls[0].id == id then Revise(ls[0], c) else ls[0]] + UpdateWhere(ls[1..], id, c)
  }

  /** The ids of a label list, in list order. */
  function Ids(ls: seq<Label>): (ids: seq<Id>)
    ensures |ids| == |ls|
    ensures forall i :: 0 <= i < |ls| ==> ids[i] == ls[i].id
  {
    if |ls| == 0 then [] else [ls[0].id] + Ids(ls[1..])
  }

  /** No two labels of the list share an id. */
  predicate UniqueIds(ls: seq<Label>)
  {
    forall i, j :: 0 <= i < j < |ls| ==> ls[i].id != ls[j].id
  }

  /**
    The edit rewrite: every label carrying `id` gets the new content and
    style and keeps its id and position; every other label is untouched.
   */
  function EditLabels(ls: seq<Label>, id: Id, content: string, style: Style): (r: seq<Label>)
    ensures |r| == |ls| && Ids(r) == Ids(ls)
    ensures forall i :: 0 <= i < |ls| ==> r[i].x == ls[i].x && r[i].y == ls[i].y
    ensures forall i :: 0 <= i < |ls| && ls[i].id == id ==>
              r[i].content == content && r[i].style == style
    ensures forall i :: 0 <= i < |ls| && ls[i].id != id ==> r[i] == ls[i]
    ensures id !in Ids(ls) ==> r == ls
  {
    UpdateWhere(ls, id, Retext(content, style))
  }

  /**
    The move rewrite: every label carrying `id` gets the new position and
    keeps its id, content and style; every other label is untouched.
   */
  function MoveLabels(ls: seq<Label>, id: Id, x: real, y: real): (r: seq<Label>)
    ensures |r| == |ls| && Ids(r) == Ids(ls)
    ensures forall i :: 0 <= i < |ls| ==>
              r[i].content == ls[i].content && r[i].style == ls[i].style
    ensures forall i :: 0 <= i < |ls| && ls[i].id == id ==> r[i].x == x && r[i].y == y
    ensures forall i :: 0 <= i < |ls| && ls[i].id != id ==> r[i] == ls[i]
    ensures id !in Ids(ls) ==> r == ls
  {
    UpdateWhere(ls, id, Reposition(x, y))
  }

  /** Rewrites keep ids, so they keep them distinct. */
  lemma UpdateKeepsUniqueIds(ls: seq<Label>, id: Id, c: Change)
    requires UniqueIds(ls)
    ensures UniqueIds(UpdateWhere(ls, id, c))
  {
  }

  /** Appending a label whose id is not yet in the list keeps the ids distinct. */
  lemma AppendFreshKeepsUniqueIds(ls: seq<Label>, l: Label)
    requires UniqueIds(ls)
    requires l.id !in Ids(ls)
    ensures UniqueIds(ls + [l])
  {
  }
}
