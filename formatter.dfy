/**
 * The text formatter page: the editor's history controller, the style action
 * that rewrites the selected range, and the character/word counter. The two
 * copies of the page in the repository hold the same logic; this module models
 * both.
 */
module Formatter {
  import opened Wrappers
  import opened JsText
  import opened History

  /**
   * An entry of the style table: its id and its transform. The transforms
   * are defined in a file that is not part of this model, so they are
   * arbitrary functions here; the model takes nothing for granted about their lengths.
   */
  datatype TextStyle = TextStyle(id: JsString, transform: JsString -> JsString)

  /** `TEXT_STYLES.find(s => s.id === id)`, as the index of the first style with that id. */
  function FindStyle(styles: seq<TextStyle>, id: JsString): (r: Option<nat>)
    ensures r.None? <==> forall k :: 0 <= k < |styles| ==> styles[k].id != id
    ensures r.Some? ==> r.value < |styles| && styles[r.value].id == id
    ensures r.Some? ==> forall k :: 0 <= k < r.value ==> styles[k].id != id
  {
    if styles == [] then None
    else if styles[0].id == id then Some(0)
    else match FindStyle(styles[1..], id)
      case None => None
      case Some(k) => Some(k + 1)
  }

  /** `text.substring(0, start) + transformed + text.substring(end)`. */
  function Splice(text: JsString, start: nat, end: nat, transformed: JsString): JsString
  {
    Substring(text, 0, start) + transformed + Substring(text, end, |text|)
  }

  /**
   * For a selection the browser can report (`start <= end <= length`), the
   * splice keeps the text before `start` and from `end` on, and puts the
   * transformed text, and nothing else, in between.
   */
  lemma SpliceKeepsOutside(text: JsString, start: nat, end: nat, transformed: JsString)
    requires start <= end <= |text|
    ensures var r := Splice(text, start, end, transformed);
      && |r| == |text| - (end - start) + |transformed|
      && r[..start] == text[..start]
      && r[start..start + |transformed|] == transformed
      && r[start + |transformed|..] == text[end..]
  {
    var r := Splice(text, start, end, transformed);
    assert r == text[..start] + transformed + text[end..];
    assert r[..start] == text[..start];
    assert r[start..start + |transformed|] == transformed;
    assert r[start + |transformed|..] == text[end..];
  }

  /** The outcome of a click on a style button. */
  datatype StyleEdit =
    | NoSelection
    | UnknownStyle
    | Styled(newText: JsString, selectionStart: nat, selectionEnd: nat)

  /**
   * The pure part of `handleStyleClick(id)` on the text `text` with the
   * selection `[start, end)`: nothing on an empty selection or an unknown
   * style id; otherwise the spliced text and the selection to restore, which
   * covers the transformed text.
   */
  function ApplyStyle(text: JsString, styles: seq<TextStyle>, id: JsString, start: nat, end: nat): (r: StyleEdit)
    ensures r.NoSelection? <==> |Substring(text, start, end)| == 0
    ensures r.UnknownStyle? <==> |Substring(text, start, end)| != 0 && FindStyle(styles, id).None?
    ensures r.Styled? ==>
      && FindStyle(styles, id).Some?
      && var transformed := styles[FindStyle(styles, id).value].transform(Substring(text, start, end));
      && r.newText == Splice(text, start, end, transformed)
      && r.selectionStart == start
      && r.selectionEnd == start + |transformed|
  {
    var selectedText := Substring(text, start, end);
    if |selectedText| == 0 then NoSelection
    else match FindStyle(styles, id)
      case None => UnknownStyle
      case Some(k) =>
        var transformedText := styles[k].transform(selectedText);
        Styled(Splice(text, start, end, transformedText), start, start + |transformedText|)
  }

  /**
   * A style applied to a non-empty selection of the browser's kind replaces
   * exactly the selected code units by the transform of them and restores a
   * selection that spans the replacement.
   */
  lemma ApplyStyleReplacesSelection(text: JsString, styles: seq<TextStyle>, id: JsString, start: nat, end: nat, k: nat)
    requires start < end <= |text|
    requires FindStyle(styles, id) == Some(k)
    ensures var transformed := styles[k].transform(text[start..end]);
      var r := ApplyStyle(text, styles, id, start, end);
      && r == Styled(text[..start] + transformed + text[end..], start, start + |transformed|)
      && r.newText[..r.selectionStart] == text[..start]
      && r.newText[r.selectionStart..r.selectionEnd] == transformed
      && r.newText[r.selectionEnd..] == text[end..]
  {
    var transformed := styles[k].transform(text[start..end]);
    SpliceKeepsOutside(text, start, end, transformed);
    assert Splice(text, start, end, transformed) == text[..start] + transformed + text[end..];
  }

  /** What `TextCounter` displays. */
  datatype Counts = Counts(characters: nat, words: nat)

  /**
   * `TextCounter`: the length in code units, and the number of pieces that
   * `text.trim().split(/\s+/)` gives, or 0 when the trimmed text is empty.
   */
  function TextCounter(text: JsString): Counts
  {
    var trimmed := Trim(text);
    Counts(|text|, if trimmed == [] then 0 else |SplitOnWhiteSpace(trimmed)|)
  }

  /**
   * The number of maximal runs of non-white-space code units in `s`;
   * `afterSpace` says whether what precedes `s` ends a run.
   */
  function WordRuns(s: JsString, afterSpace: bool): nat
  {
    if s == [] then 0
    else (if afterSpace && !IsWhiteSpace(s[0]) then 1 else 0) + WordRuns(s[1..], IsWhiteSpace(s[0]))
  }

  /**
   * The counter's word count is the number of maximal non-white-space runs
   * of the text, and it is 0 exactly when the text is blank; its character
   * count is the length.
   */
  lemma TextCounterCountsRuns(text: JsString)
    ensures TextCounter(text).characters == |text|
    ensures TextCounter(text).words == WordRuns(text, true)
    ensures TextCounter(text).words == 0 <==> AllWhiteSpace(text)
  {
    var t := Trim(text);
    TrimIsBothEnds(text);
    RunsOfTrimStart(text);
    RunsOfTrimEnd(TrimStart(text));
    if t != [] {
      RunsOfTrimmed(t);
    }
  }

  lemma RunsOfTrimStart(s: JsString)
    ensures WordRuns(TrimStart(s), true) == WordRuns(s, true)
  {
    var ts := TrimStart(s);
    var w := s[..|s| - |ts|];
    assert s == w + ts;
    RunsSkipWhiteSpace(w, ts, true);
  }

  lemma RunsOfTrimEnd(s: JsString)
    ensures WordRuns(TrimEnd(s), true) == WordRuns(s, true)
  {
    var te := TrimEnd(s);
    var w := s[|te|..];
    assert s == te + w;
    RunsIgnoreTrailingWhiteSpace(te, w, true);
  }

  /** A run of white space in front ends any run: what follows starts afresh. */
  lemma {:induction false} RunsSkipWhiteSpace(w: JsString, s: JsString, afterSpace: bool)
    requires AllWhiteSpace(w)
    ensures WordRuns(w + s, afterSpace) == WordRuns(s, if w == [] then afterSpace else true)
  {
    if w != [] {
      assert (w + s)[1..] == w[1..] + s;
      RunsSkipWhiteSpace(w[1..], s, true);
    } else {
      assert w + s == s;
    }
  }

  /** White space at the end starts no run. */
  lemma {:induction false} RunsIgnoreTrailingWhiteSpace(s: JsString, w: JsString, afterSpace: bool)
    requires AllWhiteSpace(w)
    ensures WordRuns(s + w, afterSpace) == WordRuns(s, afterSpace)
  {
    if s == [] {
      assert s + w == w;
      RunsOfWhiteSpace(w, afterSpace);
    } else {
      assert (s + w)[1..] == s[1..] + w;
      RunsIgnoreTrailingWhiteSpace(s[1..], w, IsWhiteSpace(s[0]));
    }
  }

  lemma {:induction false} RunsOfWhiteSpace(w: JsString, afterSpace: bool)
    requires AllWhiteSpace(w)
    ensures WordRuns(w, afterSpace) == 0
  {
    if w != [] {
      RunsOfWhiteSpace(w[1..], true);
    }
  }

  /** A non-empty run of non-white-space at the front is one run. */
  lemma {:induction false} RunsOfWord(s: JsString, i: nat, afterSpace: bool)
    requires 0 < i <= |s|
    requires forall k :: 0 <= k < i ==> !IsWhiteSpace(s[k])
    ensures WordRuns(s, afterSpace) == (if afterSpace then 1 else 0) + WordRuns(s[i..], false)
  {
    if i > 1 {
      RunsOfWord(s[1..], i - 1, false);
      assert s[1..][i - 1..] == s[i..];
    }
  }

  lemma {:induction false} NonWhiteSpaceFound(s: JsString)
    requires s != [] && !IsWhiteSpace(s[|s| - 1])
    ensures FirstNonWhiteSpace(s) < |s|
  {
    if IsWhiteSpace(s[0]) {
      NonWhiteSpaceFound(s[1..]);
    }
  }

  /** On text with no white space at either end, split(/\s+/) gives one piece per run. */
  lemma {:induction false} RunsOfTrimmed(t: JsString)
    requires t != [] && !IsWhiteSpace(t[0]) && !IsWhiteSpace(t[|t| - 1])
    ensures |SplitOnWhiteSpace(t)| == WordRuns(t, true)
    decreases |t|
  {
    var i := FirstWhiteSpace(t);
    RunsOfWord(t, i, true);
    if i < |t| {
      var rest := t[i..];
      var n := FirstNonWhiteSpace(rest);
      var j := i + n;
      NonWhiteSpaceFound(rest);
      SplitStep(t, i, j);
      assert rest == rest[..n] + t[j..];
      RunsSkipWhiteSpace(rest[..n], t[j..], false);
      RunsOfTrimmed(t[j..]);
    }
  }

  /**
   * The formatter page's state. `history` and `historyIndex` are the two
   * pieces of React state of the page; each method below is one event
   * handler, run to completion on the state of one render.
   */
  class Editor {
    var history: seq<JsString>
    var historyIndex: int

    /** The same state as a value. */
    function State(): HistoryState
      reads this
    {
      HistoryState(history, historyIndex)
    }

    ghost predicate Valid()
      reads this
    {
      History.Valid(State())
    }

    /** `inputText = history[historyIndex]`. */
    function InputText(): JsString
      reads this
      requires Valid()
    {
      history[historyIndex]
    }

    /** `useState([''])` and `useState(0)`. */
    constructor ()
      ensures Valid() && State() == Initial()
    {
      history := [[]];
      historyIndex := 0;
    }

    method UpdateText(newText: JsString, fromHistory: bool)
      requires Valid()
      modifies this
      ensures Valid()
      ensures State() == History.UpdateText(old(State()), newText, fromHistory)
    {
      if newText == InputText() {
        return;
      }
      if !fromHistory {
        var newHistory := history[..historyIndex + 1];
        newHistory := newHistory + [newText];
        history := newHistory;
        historyIndex := |newHistory| - 1;
      }
    }

    method HandleUndo()
      requires Valid()
      modifies this
      ensures Valid()
      ensures State() == Undo(old(State()))
    {
      if historyIndex > 0 {
        historyIndex := historyIndex - 1;
      }
    }

    method HandleRedo()
      requires Valid()
      modifies this
      ensures Valid()
      ensures State() == Redo(old(State()))
    {
      if historyIndex < |history| - 1 {
        historyIndex := historyIndex + 1;
      }
    }

    /**
     * `handleStyleClick(id)` with the textarea's selection `[selectionStart,
     * selectionEnd)`. The result says what happened and, for an applied
     * style, which range the deferred callback selects again.
     */
    method HandleStyleClick(styles: seq<TextStyle>, id: JsString, selectionStart: nat, selectionEnd: nat)
      returns (outcome: StyleEdit)
      requires Valid()
      modifies this
      ensures Valid()
      ensures outcome == ApplyStyle(old(InputText()), styles, id, selectionStart, selectionEnd)
      ensures outcome.Styled? ==> State() == History.UpdateText(old(State()), outcome.newText, false)
      ensures !outcome.Styled? ==> State() == old(State())
    {
      outcome := ApplyStyle(InputText(), styles, id, selectionStart, selectionEnd);
      if outcome.Styled? {
        UpdateText(outcome.newText, false);
      }
    }

    /** `clearAll`: `updateText('')`. */
    method ClearAll()
      requires Valid()
      modifies this
      ensures Valid()
      ensures State() == History.UpdateText(old(State()), [], false)
      ensures old(InputText()) == [] ==> State() == old(State())
    {
      UpdateText([], false);
    }
  }

  /**
   * A client of the page: type a text, apply a style to part of it, undo and
   * redo. Undo shows the text before the style was applied and redo the
   * styled text again; `transform` is whatever the style's transform is.
   */
  method StyleThenUndoRedo(typed: JsString, transform: JsString -> JsString, start: nat, end: nat)
    requires start < end <= |typed|
    requires typed[..start] + transform(typed[start..end]) + typed[end..] != typed
  {
    var editor := new Editor();
    editor.UpdateText(typed, false);
    var styles := [TextStyle(Bmp("bold"), transform)];
    assert FindStyle(styles, Bmp("bold")) == Some(0);
    var outcome := editor.HandleStyleClick(styles, Bmp("bold"), start, end);
    ApplyStyleReplacesSelection(typed, styles, Bmp("bold"), start, end, 0);
    var styled := typed[..start] + transform(typed[start..end]) + typed[end..];
    assert outcome == Styled(styled, start, start + |transform(typed[start..end])|);
    assert editor.InputText() == styled;
    editor.HandleUndo();
    assert editor.InputText() == typed;
    editor.HandleRedo();
    assert editor.InputText() == styled;
    assert !CanRedo(editor.State());
  }
}
