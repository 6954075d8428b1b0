/**
  Dropping a dragged label (`DraggableText.handleDrag` in src/App.js):
  the label is centred under the pointer, clamped into the canvas on each
  axis, and the clamped position is handed to the session's move.
  Pixel values are idealised as reals.
 */
module Drag {
  import opened Labels
  import opened Sessions

  /** The canvas's bounding box, relative to the page. */
  datatype Rect = Rect(left: real, top: real, width: real, height: real)

  /** JavaScript's `Math.max` and `Math.min` on two numbers. */
  function Max(a: real, b: real): real
  {
    if a >= b then a else b
  }

  function Min(a: real, b: real): real
  {
    if a <= b then a else b
  }

  function Dist(a: real, b: real): real
  {
    if a >= b then a - b else b - a
  }

  /** The near-edge offset that puts the label's centre under the pointer, before clamping. */
  function Centred(canvasStart: real, labelExtent: real, pointer: real): real
  {
    pointer - canvasStart - labelExtent / 2.0
  }

  /**
    One axis of the drop: the centred offset clamped to `[0, canvas - label]`.
    It is never negative; when the label fits it never passes the far
    edge, and when it does not fit it sticks to the near edge.
   */
  function DropCoordinate(canvasStart: real, canvasExtent: real, labelExtent: real, pointer: real): (p: real)
    ensures p >= 0.0
    ensures labelExtent <= canvasExtent ==> p <= canvasExtent - labelExtent
    ensures labelExtent >= canvasExtent ==> p == 0.0
  {
    Max(0.0, Min(canvasExtent - labelExtent, Centred(canvasStart, labelExtent, pointer)))
  }

  /**
    When the label fits, the drop is the allowed offset closest to the
    centred one; in particular a centred offset that is already allowed is
    kept exactly.
   */
  lemma DropCoordinateIsNearest(canvasStart: real, canvasExtent: real, labelExtent: real, pointer: real)
    requires labelExtent <= canvasExtent
    ensures forall q: real :: 0.0 <= q <= canvasExtent - labelExtent ==>
              Dist(DropCoordinate(canvasStart, canvasExtent, labelExtent, pointer),
                   Centred(canvasStart, labelExtent, pointer))
              <= Dist(q, Centred(canvasStart, labelExtent, pointer))
    ensures var c := Centred(canvasStart, labelExtent, pointer);
            0.0 <= c <= canvasExtent - labelExtent ==>
              DropCoordinate(canvasStart, canvasExtent, labelExtent, pointer) == c
  {
  }

  /** A label lies inside the canvas when both its offsets are in the allowed ranges. */
  predicate InCanvas(l: Label, canvas: Rect, labelWidth: real, labelHeight: real)
  {
    0.0 <= l.x <= canvas.width - labelWidth && 0.0 <= l.y <= canvas.height - labelHeight
  }

  /**
    The drop of the dragged label `id` with the pointer at (`clientX`,
    `clientY`): a move to the clamped position. The moved labels end up
    inside the canvas whenever the label fits in it, and never at a
    negative offset.
   */
  function DragEnd(s: Session, id: Id, canvas: Rect, labelWidth: real, labelHeight: real,
                   clientX: real, clientY: real): (r: Session)
    ensures r.history == s.history + [s.texts] && r.redoStack == []
    ensures |r.texts| == |s.texts| && Ids(r.texts) == Ids(s.texts)
    ensures forall i :: 0 <= i < |s.texts| && s.texts[i].id != id ==> r.texts[i] == s.texts[i]
    ensures forall i :: 0 <= i < |s.texts| && s.texts[i].id == id ==>
              r.texts[i] == s.texts[i].(
                x := DropCoordinate(canvas.left, canvas.width, labelWidth, clientX),
                y := DropCoordinate(canvas.top, canvas.height, labelHeight, clientY))
    ensures forall i :: 0 <= i < |s.texts| && s.texts[i].id == id ==>
              r.texts[i].x >= 0.0 && r.texts[i].y >= 0.0
    ensures r.selected == s.selected && r.inputText == s.inputText && r.style == s.style
    ensures labelWidth <= canvas.width && labelHeight <= canvas.height ==>
              forall i :: 0 <= i < |s.texts| && s.texts[i].id == id ==>
                InCanvas(r.texts[i], canvas, labelWidth, labelHeight)
  {
    var x := DropCoordinate(canvas.left, canvas.width, labelWidth, clientX);
    var y := DropCoordinate(canvas.top, canvas.height, labelHeight, clientY);
    Move(s, id, x, y)
  }
}
