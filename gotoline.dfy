/** `GoToLineDialog.go_to_line` (dialogs/goto_line_dialog.py): the typed text
    must be all digits and name a 1-based line of the current editor; then the
    cursor moves to the start of that line and the dialog closes. */
module GoToLine {
  import opened PyString

  /** What pressing Go does. `Invalid` and `OutOfRange` show a warning (the
      dialog's module never imports the message box, so in fact the warning
      call raises; either way nothing moves and the dialog stays open).
      `Jump(line)` is `setCursorPosition(line, 0)` followed by `accept()`. */
  datatype Outcome = Invalid | NoEditor | OutOfRange(total: nat) | Jump(line: nat)

  /** `text` is the line edit's text; `editorLines` is `editor.lines()` of
      the current editor, or None when there is none. */
  function Go(text: string, editorLines: Option<nat>): (r: Outcome)
    ensures r == Invalid <==> !IsDigits(text)
    ensures IsDigits(text) && editorLines.None? ==> r == NoEditor
    ensures IsDigits(text) && editorLines.Some? && !(1 <= DecimalValue(text) <= editorLines.value) ==>
      r == OutOfRange(editorLines.value)
    ensures r.Jump? <==> IsDigits(text) && editorLines.Some? && 1 <= DecimalValue(text) <= editorLines.value
    ensures r.Jump? ==> r.line + 1 == DecimalValue(text) && r.line < editorLines.value
    ensures r.OutOfRange? ==> editorLines == Some(r.total) &&
                              (DecimalValue(text) == 0 || DecimalValue(text) > r.total)
  {
    if !IsDigits(text) then Invalid
    else
      var n := DecimalValue(text) - 1;
      if editorLines.None? then NoEditor
      else if n < 0 || n >= editorLines.value then OutOfRange(editorLines.value)
      else Jump(n)
  }

  /** The cursor and whether the dialog is still open after the outcome. */
  datatype View = View(line: int, index: int, open: bool)

  function After(v: View, o: Outcome): (r: View)
    ensures o.Jump? ==> r == View(o.line, 0, false)
    ensures !o.Jump? ==> r == v
  {
    if o.Jump? then View(o.line, 0, false) else v
  }

  /** "0" passes the digit test but is out of range. */
  lemma ZeroRejected(total: nat)
    ensures Go("0", Some(total)) == OutOfRange(total)
  {
    assert IsDigits("0");
    assert DecimalValue("0") == 0 by {
      assert DigitValue('0') == 0;
    }
  }

  /** The last line is reachable and the one after it is not. */
  lemma LastLineBoundary(text: string, total: nat)
    requires IsDigits(text) && DecimalValue(text) == total && total > 0
    ensures Go(text, Some(total)) == Jump(total - 1)
    ensures After(View(0, 0, true), Go(text, Some(total))) == View(total - 1, 0, false)
  {
  }

  /** Typing a line number and pressing Go closes the dialog exactly when the
      cursor moves, and then it is at column 0 of a line the editor has. */
  lemma JumpIffClosed(text: string, editorLines: Option<nat>, v: View)
    requires v.open
    ensures var w := After(v, Go(text, editorLines));
            (w != v <==> !w.open) &&
            (!w.open ==> editorLines.Some? && 0 <= w.line < editorLines.value && w.index == 0)
  {
  }
}
