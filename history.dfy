/**
 * The formatter's edit history as a value: a linear, branch-discarding
 * timeline of whole-text snapshots and a cursor naming the visible one. The
 * `Editor` class in module Formatter holds the same two fields and is proved
 * to move between exactly these states.
 */
module History {
  import opened JsText

  datatype HistoryState = HistoryState(snapshots: seq<JsString>, cursor: int)

  /** The cursor names a snapshot, so the history is never empty. */
  predicate Valid(h: HistoryState)
  {
    0 <= h.cursor < |h.snapshots|
  }

  /** The text shown in the editor. */
  function Current(h: HistoryState): JsString
    requires Valid(h)
  {
    h.snapshots[h.cursor]
  }

  /** The undo button is enabled unless the cursor is at 0. */
  predicate CanUndo(h: HistoryState)
  {
    h.cursor != 0
  }

  /** The redo button is enabled unless the cursor is at the last snapshot or past it. */
  predicate CanRedo(h: HistoryState)
  {
    h.cursor < |h.snapshots| - 1
  }

  /** The history a session starts with: one empty snapshot. */
  function Initial(): (h: HistoryState)
    ensures Valid(h) && Current(h) == []
    ensures !CanUndo(h) && !CanRedo(h)
  {
    HistoryState([[]], 0)
  }

  /**
   * `updateText(newText, fromHistory)`: text equal to the current snapshot,
   * or a call marked as coming from the history, changes nothing; any other
   * text drops the redo tail, is appended, and becomes current.
   */
  function UpdateText(h: HistoryState, newText: JsString, fromHistory: bool): (r: HistoryState)
    requires Valid(h)
    ensures Valid(r)
    ensures newText == Current(h) || fromHistory ==> r == h
    ensures newText != Current(h) && !fromHistory ==>
      && Current(r) == newText
      && !CanRedo(r) && CanUndo(r)
      && r.cursor == h.cursor + 1
      && r.snapshots[..r.cursor] == h.snapshots[..h.cursor + 1]
  {
    if newText == Current(h) || fromHistory then h
    else
      var newHistory := h.snapshots[..h.cursor + 1] + [newText];
      HistoryState(newHistory, |newHistory| - 1)
  }

  /** `handleUndo`: step back one snapshot unless at the first; the snapshots stay as they are. */
  function Undo(h: HistoryState): (r: HistoryState)
    requires Valid(h)
    ensures Valid(r) && r.snapshots == h.snapshots
    ensures CanUndo(h) ==> r.cursor == h.cursor - 1 && CanRedo(r)
    ensures !CanUndo(h) ==> r == h
  {
    if h.cursor > 0 then HistoryState(h.snapshots, h.cursor - 1) else h
  }

  /** `handleRedo`: step forward one snapshot unless at the last; the snapshots stay as they are. */
  function Redo(h: HistoryState): (r: HistoryState)
    requires Valid(h)
    ensures Valid(r) && r.snapshots == h.snapshots
    ensures CanRedo(h) ==> r.cursor == h.cursor + 1 && CanUndo(r)
    ensures !CanRedo(h) ==> r == h
  {
    if h.cursor < |h.snapshots| - 1 then HistoryState(h.snapshots, h.cursor + 1) else h
  }

  /** After an edit that changed the text, undo shows the text before it and a following redo the edit again. */
  lemma UndoRedoAfterEdit(h: HistoryState, t: JsString)
    requires Valid(h) && t != Current(h)
    ensures Current(Undo(UpdateText(h, t, false))) == Current(h)
    ensures Redo(Undo(UpdateText(h, t, false))) == UpdateText(h, t, false)
  {
    var p := UpdateText(h, t, false);
    assert p.snapshots[p.cursor - 1] == p.snapshots[..p.cursor][h.cursor];
  }

  /** After an undo, a new edit still discards the redo tail. */
  lemma EditAfterUndoDiscardsRedo(h: HistoryState, t: JsString)
    requires Valid(h) && CanUndo(h) && t != Current(Undo(h))
    ensures !CanRedo(UpdateText(Undo(h), t, false))
    ensures |UpdateText(Undo(h), t, false).snapshots| == h.cursor + 1
  {
  }

  /** `k` undos in a row. */
  function UndoTimes(h: HistoryState, k: nat): (r: HistoryState)
    requires Valid(h)
    ensures Valid(r) && r.snapshots == h.snapshots
    decreases k
  {
    if k == 0 then h else UndoTimes(Undo(h), k - 1)
  }

  /** `k` redos in a row. */
  function RedoTimes(h: HistoryState, k: nat): (r: HistoryState)
    requires Valid(h)
    ensures Valid(r) && r.snapshots == h.snapshots
    decreases k
  {
    if k == 0 then h else RedoTimes(Redo(h), k - 1)
  }

  /** Undoing `k` steps that are available moves the cursor back by `k`. */
  lemma {:induction false} UndoTimesMovesBack(h: HistoryState, k: nat)
    requires Valid(h) && k <= h.cursor
    ensures UndoTimes(h, k) == HistoryState(h.snapshots, h.cursor - k)
    decreases k
  {
    if k > 0 {
      UndoTimesMovesBack(Undo(h), k - 1);
    }
  }

  /** Redoing `k` steps that are available moves the cursor forward by `k`. */
  lemma {:induction false} RedoTimesMovesForward(h: HistoryState, k: nat)
    requires Valid(h) && h.cursor + k < |h.snapshots|
    ensures RedoTimes(h, k) == HistoryState(h.snapshots, h.cursor + k)
    decreases k
  {
    if k > 0 {
      RedoTimesMovesForward(Redo(h), k - 1);
    }
  }

  /** Any number of available undos is reversed by as many redos: undo and redo walk one timeline. */
  lemma UndoRedoTimesInverse(h: HistoryState, k: nat)
    requires Valid(h) && k <= h.cursor
    ensures RedoTimes(UndoTimes(h, k), k) == h
  {
    UndoTimesMovesBack(h, k);
    RedoTimesMovesForward(UndoTimes(h, k), k);
  }

  /** What the user can do to the history: type or style (an update), undo, redo. */
  datatype Action = Update(text: JsString) | UndoAction | RedoAction

  /** The history after a session of actions. */
  function Run(h: HistoryState, actions: seq<Action>): (r: HistoryState)
    requires Valid(h)
    ensures Valid(r)
    ensures |h.snapshots| > 0 && r.snapshots[0] == h.snapshots[0]
    decreases |actions|
  {
    if actions == [] then h
    else
      var next := match actions[0]
        case Update(t) => UpdateText(h, t, false)
        case UndoAction => Undo(h)
        case RedoAction => Redo(h)
      ;
      assert next.snapshots[0] == h.snapshots[0] by {
        if actions[0].Update? && next != h {
          assert next.snapshots[..next.cursor][0] == h.snapshots[..h.cursor + 1][0];
        }
      }
      Run(next, actions[1..])
  }

  /** Whatever the session, undoing as far as possible shows the empty text it started with. */
  lemma UndoAllRestoresEmpty(actions: seq<Action>)
    ensures var h := Run(Initial(), actions); Current(UndoTimes(h, h.cursor)) == []
  {
    var h := Run(Initial(), actions);
    UndoTimesMovesBack(h, h.cursor);
  }
}
