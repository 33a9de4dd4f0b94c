/** The editor session: the documents in the two panes and the language
    selector, as set up at start-up from the persisted values, swapped, and
    reset. */
module Session {
  import opened Wrappers
  import Prettier
  import PlaceholderFocus

  type Document = Prettier.Document

  const PlaceholderOriginal: string := "// Paste your original code here\n"
  const PlaceholderModified: string := "// Paste your modified code here\n"
  const DefaultLanguage: string := "typescript"

  /** The documents of the original and modified panes and the language
      shown in the selector. */
  datatype Session = Session(original: Document, modified: Document, selectedLanguage: string)

  /** The three persisted values; `None` is a value never stored. */
  datatype Persisted = Persisted(language: Option<string>, originalCode: Option<string>, modifiedCode: Option<string>)

  /** `init`: each missing value falls back to its default (language
      `typescript`, each pane its own placeholder); both documents get the
      same language, and the selector shows it. */
  function Init(p: Persisted): (s: Session)
    ensures p.language.Some? ==> s.selectedLanguage == p.language.value
    ensures p.language.None? ==> s.selectedLanguage == DefaultLanguage
    ensures p.originalCode.Some? ==> s.original.text == p.originalCode.value
    ensures p.originalCode.None? ==> s.original.text == PlaceholderOriginal
    ensures p.modifiedCode.Some? ==> s.modified.text == p.modifiedCode.value
    ensures p.modifiedCode.None? ==> s.modified.text == PlaceholderModified
    ensures s.original.languageId == s.selectedLanguage == s.modified.languageId
  {
    var language := p.language.GetOr(DefaultLanguage);
    Session(
      Prettier.Document(p.originalCode.GetOr(PlaceholderOriginal), language),
      Prettier.Document(p.modifiedCode.GetOr(PlaceholderModified), language),
      language)
  }

  /** The values the diff-update handler hands to the store: the modified
      pane's language and both texts. */
  function Snapshot(s: Session): (p: Persisted)
    ensures p.language == Some(s.modified.languageId)
    ensures p.originalCode == Some(s.original.text)
    ensures p.modifiedCode == Some(s.modified.text)
  {
    Persisted(Some(s.modified.languageId), Some(s.original.text), Some(s.modified.text))
  }

  /** Both panes and the selector show one language. */
  predicate Aligned(s: Session)
  {
    s.original.languageId == s.modified.languageId == s.selectedLanguage
  }

  /** A session whose panes and selector agree on the language is restored
      exactly by `init` from its snapshot. */
  lemma SnapshotRestores(s: Session)
    requires Aligned(s)
    ensures Init(Snapshot(s)) == s
  {
  }

  /** Swapping the panes: the old modified document becomes the original and
      the old original the modified; the selector is untouched. */
  function Swap(s: Session): (r: Session)
    ensures r.original == s.modified && r.modified == s.original
    ensures r.selectedLanguage == s.selectedLanguage
  {
    Session(s.modified, s.original, s.selectedLanguage)
  }

  /** Swapping twice changes nothing. */
  lemma SwapInvolution(s: Session)
    ensures Swap(Swap(s)) == s
  {
  }

  /** Reset: both placeholders in `typescript`, and the selector on
      `typescript`, whatever the session was. */
  function Reset(s: Session): (r: Session)
    ensures r.original == Prettier.Document(PlaceholderOriginal, DefaultLanguage)
    ensures r.modified == Prettier.Document(PlaceholderModified, DefaultLanguage)
    ensures r.selectedLanguage == DefaultLanguage
  {
    Session(
      Prettier.Document(PlaceholderOriginal, DefaultLanguage),
      Prettier.Document(PlaceholderModified, DefaultLanguage),
      DefaultLanguage)
  }

  /** Reset yields the same session as a first start with nothing stored. */
  lemma ResetIsFreshStart(s: Session)
    ensures Reset(s) == Init(Persisted(None, None, None))
  {
  }

  /** The placeholder behaviour is bound to the pane, not to the document:
      after a reset and a swap the original pane shows the modified
      placeholder, so a first click there selects nothing. */
  lemma SwappedPlaceholderIsNotSelected(s: Session)
    ensures var shown := Swap(Reset(s)).original.text;
      PlaceholderFocus.Step(PlaceholderFocus.Setup(PlaceholderOriginal),
        PlaceholderFocus.CursorChanged("mouse", PlaceholderFocus.Explicit, shown)).1 == []
  {
  }

  /** Every session reachable from start-up by swaps and resets is aligned:
      `init` yields one, and a swap or a reset keeps it so. Hence every
      snapshot taken along the way is restored exactly. */
  lemma ReachableSessionsAligned(p: Persisted, s: Session)
    ensures Aligned(Init(p))
    ensures Aligned(s) ==> Aligned(Swap(s))
    ensures Aligned(Reset(s))
    ensures Aligned(s) ==> Init(Snapshot(Swap(s))) == Swap(s)
  {
    if Aligned(s) {
      SnapshotRestores(Swap(s));
    }
  }
}
