/** The per-pane "select all on the first click into the placeholder"
    behaviour: while a pane still shows its placeholder text, the first
    explicit mouse click selects the whole text, so that pasting replaces it;
    a second click is left alone until the pane loses focus. Losing focus
    also formats the pane's document. */
module PlaceholderFocus {

  /** Why the editor's cursor moved. */
  datatype CursorChangeReason =
    NotSet | ContentFlush | RecoverFromMarkers | Explicit | Paste | Undo | Redo

  /** The notifications one pane's handlers receive: a cursor move (with the
      input that caused it, the reason, and the pane's current text) or a
      blur of the pane. */
  datatype EditorEvent =
    | CursorChanged(source: string, reason: CursorChangeReason, text: string)
    | Blurred

  /** What the handlers ask the editor to do. */
  datatype Effect = SelectAll | FormatDocument

  /** The handlers' state for one pane: its placeholder and the `hasFocus` flag. */
  datatype FocusState = FocusState(placeholder: string, hasFocus: bool)

  /** `setupEditor(editor, placeholder)`: the flag starts cleared. */
  function Setup(placeholder: string): (s: FocusState)
    ensures s.placeholder == placeholder && !s.hasFocus
  {
    FocusState(placeholder, false)
  }

  /** The guard of the cursor-change handler. */
  predicate Fires(s: FocusState, source: string, reason: CursorChangeReason, text: string)
  {
    source == "mouse" && reason == Explicit && text == s.placeholder && !s.hasFocus
  }

  /** One notification. A cursor move selects everything exactly when it is
      an explicit mouse click on the untouched placeholder with the flag
      clear, and then sets the flag; otherwise it changes nothing. A blur
      clears the flag and formats the document. */
  function Step(s: FocusState, e: EditorEvent): (r: (FocusState, seq<Effect>))
    ensures r.0.placeholder == s.placeholder
    ensures e.Blurred? ==> !r.0.hasFocus && r.1 == [FormatDocument]
    ensures e.CursorChanged? ==>
      && (r.1 == [SelectAll] <==>
          e.source == "mouse" && e.reason == Explicit && e.text == s.placeholder && !s.hasFocus)
      && (r.1 == [] || r.1 == [SelectAll])
      && (r.0.hasFocus <==> s.hasFocus || r.1 == [SelectAll])
  {
    match e
    case Blurred => (FocusState(s.placeholder, false), [FormatDocument])
    case CursorChanged(source, reason, text) =>
      if !Fires(s, source, reason, text) then (s, [])
      else (FocusState(s.placeholder, true), [SelectAll])
  }

  /** The state and effects after a sequence of notifications: the
      placeholder never changes, each notification causes at most one
      effect, and the document is formatted only on a blur. */
  function Run(s: FocusState, events: seq<EditorEvent>): (r: (FocusState, seq<Effect>))
    ensures r.0.placeholder == s.placeholder
    ensures |r.1| <= |events|
    ensures (forall k :: 0 <= k < |events| ==> events[k].CursorChanged?) ==> FormatDocument !in r.1
    decreases |events|
  {
    if |events| == 0 then (s, [])
    else
      var (s1, e1) := Step(s, events[0]);
      var (s2, e2) := Run(s1, events[1..]);
      assert forall k :: 0 <= k < |events[1..]| ==> events[1..][k] == events[k + 1];
      (s2, e1 + e2)
  }

  /** Between two blurs the whole text is selected at most once, not at all
      if the flag was already set, and the flag ends up set exactly when it
      was set before or the selection happened. */
  lemma {:induction false} SelectAllAtMostOncePerFocus(s: FocusState, events: seq<EditorEvent>)
    requires forall k :: 0 <= k < |events| ==> events[k].CursorChanged?
    ensures multiset(Run(s, events).1)[SelectAll] <= 1
    ensures s.hasFocus ==> multiset(Run(s, events).1)[SelectAll] == 0
    ensures Run(s, events).0.hasFocus <==> s.hasFocus || multiset(Run(s, events).1)[SelectAll] == 1
    ensures multiset(Run(s, events).1)[FormatDocument] == 0
    decreases |events|
  {
    if |events| > 0 {
      var (s1, e1) := Step(s, events[0]);
      SelectAllAtMostOncePerFocus(s1, events[1..]);
      var (s2, e2) := Run(s1, events[1..]);
      assert multiset(e1 + e2) == multiset(e1) + multiset(e2);
    }
  }

  /** After a blur, the next explicit mouse click on the placeholder selects
      everything again, whatever the flag was before. */
  lemma BlurRearms(s: FocusState)
    ensures Run(s, [Blurred, CursorChanged("mouse", Explicit, s.placeholder)]).1
      == [FormatDocument, SelectAll]
    ensures Run(s, [Blurred, CursorChanged("mouse", Explicit, s.placeholder)]).0.hasFocus
  {
    var events := [Blurred, CursorChanged("mouse", Explicit, s.placeholder)];
    assert events[1..] == [CursorChanged("mouse", Explicit, s.placeholder)];
    assert events[1..][1..] == [];
    var s1 := Step(s, Blurred).0;
    var s2 := FocusState(s.placeholder, true);
    assert Step(s1, events[1..][0]) == (s2, [SelectAll]);
    assert Run(s2, events[1..][1..]) == (s2, []);
    assert [SelectAll] + [] == [SelectAll];
    assert Run(s1, events[1..]) == (s2, [SelectAll]);
    assert [FormatDocument] + [SelectAll] == [FormatDocument, SelectAll];
  }
}
