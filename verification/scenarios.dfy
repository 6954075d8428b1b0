/**
  Concrete editing sessions, written out step by step. Typing into the
  text field is the record update `s.(inputText := ...)`.
 */
module Scenarios {
  import opened Labels
  import opened Sessions
  import opened HistoryLaws

  /** Add "Hello" to the empty canvas, undo it, redo it. */
  lemma AddUndoRedoHello()
    ensures var added := Add(Initial.(inputText := "Hello"), 1000);
            && added.texts == [Label(1000, "Hello", 50.0, 50.0, DefaultStyle)]
            && Undo(added).texts == []
            && Redo(Undo(added)) == added
  {
  }

  /** Add "A", add "B", edit "A" into "A2", then three undos walk back to the empty canvas. */
  lemma EditThenUndoThree()
    ensures var s1 := AddOrEdit(Initial.(inputText := "A"), 1);
            var s2 := AddOrEdit(s1.(inputText := "B"), 2);
            var s3 := AddOrEdit(Select(s2, s2.texts[0]).(inputText := "A2"), 3);
            && |s3.texts| == 2 && s3.texts[0].content == "A2" && s3.texts[1].content == "B"
            && Undo(s3).texts == s2.texts
            && |s2.texts| == 2 && s2.texts[0].content == "A" && s2.texts[1].content == "B"
            && Undo(Undo(s3)).texts == s1.texts
            && |s1.texts| == 1 && s1.texts[0].content == "A"
            && Undo(Undo(Undo(s3))).texts == []
  {
  }

  /** Add "X", undo, add "Y": the second add discards the redo snapshot, so redo does nothing. */
  lemma NewAddDiscardsRedo()
    ensures var s1 := Undo(Add(Initial.(inputText := "X"), 1));
            var s2 := Add(s1.(inputText := "Y"), 2);
            && CanRedo(s1)
            && !CanRedo(s2)
            && Redo(s2) == s2
            && |s2.texts| == 1 && s2.texts[0].content == "Y"
  {
  }
}
