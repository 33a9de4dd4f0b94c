# prettier-diff, modelled in Dafny

prettier-diff is a browser side-by-side diff editor: an original and a
modified pane, a formatter run on each document, buttons that step through
the differences, swap the panes or reset them, and a live count of added and
removed lines. This project models the parts of it that carry logic, as
immutable values and pure step functions:

- `DiffNavigator` (`diff_navigator.dfy`): the difference navigator. Its state
  is the flattened list of character-level changes and a cursor that starts
  at -1. `Refresh` rebuilds the list from the line-level changes. `Move`,
  `Next` and `Previous` step the cursor with wrap-around. Each step emits the
  editor effect as a `Target`: which pane to focus, the position to put the
  cursor on (the start of the range), and the range to scroll into view.
- `JsArith` (`jsarith.dfy`): JavaScript's truncating `%` (`JsRem`) and the
  navigator's "add the length once if negative" correction (`Wrap`). `Wrap`
  is proved to give the Euclidean residue for every integer cursor, so a
  stale cursor left by a longer list is wrapped too.
- `Prettier` (`prettier.dfy`): the language-id-to-parser map, the fixed
  default options, and the call handed to the formatter by `format` and
  `formatWithCursor`. Object spread is modelled as map union, so the
  caller's keys win.
- `Workers` (`workers.dfy`): the routing of worker requests by language
  tag. It is proved equal to a first-match table lookup, and it is checked
  against the parser choice for the languages that get the formatter.
- `LineCounts` (`line_counts.dfy`): the added/removed line counts. This
  covers the `reduce` as written, its clamp at zero, and a corrected count
  (see Findings).
- `PlaceholderFocus` (`placeholder_focus.dfy`): the "select all on the
  first click into the placeholder" state machine of one pane.
- `Session` (`session.dfy`): start-up defaults for missing stored values,
  the values stored after each diff update, swapping the panes, and reset.
- `Wrappers` (`wrappers.dfy`): `Option`, which stands for JavaScript's
  `undefined`.

Inputs that come from the editor component are parameters: the line and
character changes, cursor events, and the documents' texts.

The cursor is normalised by JavaScript's truncating `%` plus one
`+ length`. For every integer cursor the result equals the Euclidean residue
(`JsArith.Wrap`). N `next()` calls from the unset cursor -1 end at index
N-1, one short of the first change (`NextTimesIndex`). The cycle closes from
a cursor that is in range: n calls on n changes return to the starting
state (`NextCycle`).

## Model

| member | source | states |
|---|---|---|
| JsArith.JsRem | src/DiffNavigator.ts:32 | JavaScript's `%`: the result is strictly between -n and n, has the sign of the dividend, and differs from it by a multiple of n |
| JsArith.Wrap | src/DiffNavigator.ts:31-35 | a truncating remainder followed by a single `+ length` correction lands in [0, n) and equals the Euclidean residue, for every integer cursor |
| DiffNavigator.Flatten | src/DiffNavigator.ts:16-18 | no line changes flatten to nothing, and a single line change flattens to its own char changes (a missing list counts as empty); with `FlattenAppend` this makes the flat list the in-order concatenation of all the lists |
| DiffNavigator.FlattenMembers | src/DiffNavigator.ts:16-18 | every entry of the flat list comes from some line change, every char change of every line change is in it, and it is empty iff no line change has any |
| DiffNavigator.Refresh | src/DiffNavigator.ts:15-19 | the diff-update handler replaces the list with the flattened char changes and leaves the cursor untouched |
| DiffNavigator.FlattenAppend | src/DiffNavigator.ts:16-18 | flattening the line changes distributes over concatenation |
| DiffNavigator.FlattenSplit | src/DiffNavigator.ts:16-18 | for every line change `i`, the flat list is the flattening of the line changes before `i`, then `i`'s char changes (none when its list is missing or empty), then the flattening of those after it |
| DiffNavigator.FlattenContents | src/DiffNavigator.ts:16-18 | each char change of line change `i` sits in the flat list, in order, at the offset given by the line changes before it |
| DiffNavigator.CanNavigate | src/DiffNavigator.ts:22-24 | navigation is possible iff the change list is non-empty |
| DiffNavigator.NoAdditions | src/DiffNavigator.ts:39-44 | the `every(value === 0)` test over the four modified coordinates holds iff all four are 0 |
| DiffNavigator.TargetOf | src/DiffNavigator.ts:39-66 | a deletion-only change targets the original pane with the original range; any other change targets the modified pane with the modified range; the cursor goes to the start of the chosen range |
| DiffNavigator.Move | src/DiffNavigator.ts:26-67 | on an empty list the state is unchanged and no effect is emitted; otherwise the list is kept, the cursor becomes (index + delta) mod n in [0, n) whatever it was before, and the change there is targeted |
| DiffNavigator.Next | src/DiffNavigator.ts:69-71 | `next()` moves the cursor to (index + 1) mod n and targets that change; on an empty list it does nothing |
| DiffNavigator.Previous | src/DiffNavigator.ts:73-75 | `previous()` moves the cursor to (index - 1) mod n and targets that change; on an empty list it does nothing |
| DiffNavigator.EmptyListIsInert | src/DiffNavigator.ts:26-29 | on an empty list neither `next()` nor `previous()` changes the state or emits an effect |
| DiffNavigator.FirstMoveFromUnset | src/DiffNavigator.ts:7-35 | a fresh navigator (cursor -1) after its first diff update: `next()` lands on 0; `previous()` lands on n-2 when n >= 3, and on 0 when n <= 2 |
| DiffNavigator.NextPreviousInverse | src/DiffNavigator.ts:69-75 | with the list unchanged and the cursor in range, `previous()` undoes `next()` and vice versa |
| DiffNavigator.NextTimesIndex | src/DiffNavigator.ts:31-35 | k >= 1 successive `next()` calls leave the list alone and put the cursor at (index + k) mod n, from any starting cursor |
| DiffNavigator.NextCycle | src/DiffNavigator.ts:69-71 | n successive `next()` calls on a list of n changes return to the starting state |
| DiffNavigator.StaleCursorWraps | src/DiffNavigator.ts:15-35 | a cursor at 9, after the list shrinks to 3 changes, is wrapped to 1 by the next `next()` rather than clamped |
| DiffNavigator.TwoChangeWalk | src/DiffNavigator.ts:26-71 | with a deletion-only change then an ordinary one, three `next()` calls visit the first change in the original pane, the second in the modified pane, then the first again |
| Prettier.Spread | src/prettier.ts:47-50 | object spread: the result has the keys of both objects; the later object's values win; the earlier object's other values are kept |
| Prettier.ParserFor | src/prettier.ts:12-20 | `json`, `html` and `css` get the parser of the same name; every other id gets `babel-ts` |
| Prettier.PrettierOptions | src/prettier.ts:8-27 | the options have exactly the keys parser, plugins and endOfLine: the language's parser, the same three plugins, and `endOfLine: 'auto'` |
| Prettier.OptionsDetermineParser | src/prettier.ts:12-27 | two language ids get equal options iff they get the same parser |
| Prettier.FormatCall | src/prettier.ts:29-36 | `format` calls the formatter's plain entry point with the document's whole text and the options for its language |
| Prettier.FormatWithCursorCall | src/prettier.ts:38-51 | `formatWithCursor` calls the cursor entry point with the whole text; its option keys are the default keys plus the caller's keys |
| Prettier.CallerOptionsOverride | src/prettier.ts:45-50 | a key the caller supplies, even as `undefined`, overrides the default; a key the caller leaves out keeps the default |
| Prettier.CursorOnlyCallExtendsFormat | src/prettier.ts:29-50 | with caller options holding only the required `cursorOffset`, `formatWithCursor` passes the same text as `format` and `format`'s options plus that offset, to the other entry point |
| Prettier.CallerParserWins | src/prettier.ts:47-50 | a caller-supplied parser replaces the language's parser, and `endOfLine: 'auto'` stays |
| Workers.WorkerFor | src/main.ts:15-29 | a tag gets a dedicated worker iff the routing table lists it, and then the worker the table pairs it with; any other tag gets the generic editor worker |
| Workers.Lookup | src/main.ts:15-29 | a first-match table lookup returns the first matching entry's worker, or the fallback when no entry matches |
| Workers.WorkerForIsTableLookup | src/main.ts:15-29 | `getWorker` equals the first-match lookup in the tag table, falling back to the generic editor worker, for every tag |
| Workers.TableEntriesRouted | src/main.ts:16-27 | json goes to the JSON worker; css/scss/less to the CSS worker; html/handlebars/razor to the HTML worker; typescript/javascript to the TS worker |
| Workers.FormattedLanguagesAgree | src/main.ts:58-77 | for each language with the formatter registered, the parser is `babel-ts` iff the worker is the TS worker, and json/css/html parsers match the workers of the same name |
| LineCounts.RawCounts | src/main.ts:111-117 | the reduce from [0, 0] gives Σ(modifiedEnd − modifiedStart + 1) added and Σ(originalEnd − originalStart + 1) removed; an empty list gives 0/0 |
| LineCounts.ClampAtZero | src/main.ts:118-119 | `Math.max(x, 0)` is non-negative, at least x, and equals x when x >= 0 |
| LineCounts.CountLines | src/main.ts:110-119 | the displayed counts are non-negative: each is the clamped total of its sum |
| LineCounts.UpdateLineChanges | src/main.ts:109-119 | the handler's loop computes the two sums and clamps each total at zero |
| LineCounts.ClampAppliesToTotals | src/main.ts:111-119 | the clamp acts on the totals, not on each term: terms 3 and -2 display 1 added line |
| LineCounts.InsertionAtTopMiscounted | src/main.ts:111-119 | as written, a pure insertion of lines 1-2 at the top is displayed as 2 added and 1 removed |
| LineCounts.CorrectedCounts | src/main.ts:111-119 | corrected, the counts of well-formed changes are non-negative without any clamp; no changes count 0/0 |
| LineCounts.CorrectedCountsSound | src/main.ts:111-119 | corrected counts of well-formed changes are non-negative without any clamp, and equal the source's sums when no side is empty |
| LineCounts.CorrectedCountsAppend | src/main.ts:111-119 | corrected, appending any change after any list adds exactly the lines on each of its sides, an empty side (end line 0) adding none |
| LineCounts.CorrectedEmptySideAddsNothing | src/main.ts:111-119 | corrected, appending a pure insertion leaves the removed count unchanged, and appending a pure deletion leaves the added count unchanged |
| LineCounts.InsertionAtTopCorrected | src/main.ts:111-119 | corrected, the insertion at the top counts 2 added and 0 removed |
| PlaceholderFocus.Setup | src/main.ts:130-134 | a pane's handlers start with the `hasFocus` flag cleared and the pane's own placeholder |
| PlaceholderFocus.Step | src/main.ts:136-161 | a cursor change selects all iff it is an explicit mouse change while the text equals the placeholder and the flag is clear; that sets the flag, and anything else changes nothing; blur clears the flag and formats the document |
| PlaceholderFocus.Run | src/main.ts:136-161 | over a sequence of notifications the placeholder is kept, there are no more effects than notifications, and nothing is formatted without a blur |
| PlaceholderFocus.SelectAllAtMostOncePerFocus | src/main.ts:134-153 | between blurs, select-all fires at most once, and not at all once the flag is set; the flag ends set iff it was set before or select-all fired |
| PlaceholderFocus.BlurRearms | src/main.ts:139-157 | after a blur, the next explicit mouse click on the placeholder selects all again |
| Session.Init | src/main.ts:174-190 | missing stored values default to language `typescript` and to each pane's placeholder; both documents get that language, and the selector shows it |
| Session.Snapshot | src/main.ts:192-203 | the stored values are the modified pane's language and both texts |
| Session.SnapshotRestores | src/main.ts:174-203 | if both panes and the selector share a language, `init` from the stored values restores the session exactly |
| Session.Swap | src/main.ts:237-247 | swap makes the old modified document the original and the old original the modified; nothing else changes |
| Session.SwapInvolution | src/main.ts:240-246 | swapping twice is the identity |
| Session.Reset | src/main.ts:249-256 | reset puts both placeholders in `typescript` and sets the selector to `typescript` |
| Session.ResetIsFreshStart | src/main.ts:249-256 | reset gives the same session as a first start with nothing stored |
| Session.ReachableSessionsAligned | src/main.ts:174-256 | `init` gives panes and selector one language, swap and reset keep it so, and a swapped session's snapshot restores it exactly |
| Session.SwappedPlaceholderIsNotSelected | src/main.ts:186-187 | each pane keeps the placeholder it was set up with: after reset and swap, a first click in the original pane selects nothing |

## Left out

- Monaco's diff computation, text models, rendering, themes, diagnostics settings and editor construction (src/main.ts:32-44, 79-105) belong to the editor library. Line and character changes are inputs, and workers are tags.
- `focus`, `setPosition` and `revealRangeInCenter`, and the exception they may throw, which is swallowed (src/DiffNavigator.ts:62-66), are UI side effects. The model only emits the `Target`.
- Monaco's `Range` constructor swaps reversed endpoints. The model's `Range` keeps the four coordinates as given, so `Range.Start` is the given start, not a normalised one.
- `getLineChanges()` can return null. TypeScript erases the `!` after it, so the null reaches `.flatMap` (src/DiffNavigator.ts:18) and `.reduce` (src/main.ts:111), and each throws a TypeError. `Refresh` and `CountLines` take a list and do not model that failure.
- JavaScript numbers are doubles. The cursor and all coordinates are unbounded integers. Precision loss cannot happen at realistic list lengths.
- The formatter itself is external: its result (the formatted text, and for `formatWithCursor` the object holding the text and the new cursor offset), its parse errors, idempotence and cursor preservation are not modelled. Only the entry point called and its arguments are.
- The formatting-provider registration and its whole-document edit (src/main.ts:49-77) are left out. Only the set of registered languages is used (`Workers.FormattedLanguagesAgree`).
- Storage I/O (`getMany`, `setMany`, `set`) is asynchronous and best effort. Only the values read and written are modelled (`Session.Init`, `Session.Snapshot`).
- These handlers are UI glue and are left out: the language selector (src/main.ts:205-216), the split/inline radio buttons (src/main.ts:218-228), the next/previous button wiring (src/main.ts:230-235), the rendering of the counts (src/main.ts:121-127), and the debugging globals (src/main.ts:258-264).
- `tailwind.config.js` holds styling configuration with no logic.
- The select-all handler reads the pane's text with `editor.getValue()` when the event fires. The model carries that text as a field of the cursor event. Selecting the full range and running the format action are emitted as effects, not performed.

## Findings

| source | as written | input that shows it | evidently intended | confidence | as-written member | corrected member |
|---|---|---|---|---|---|---|
| src/main.ts:111-119 | each line change adds `end - start + 1` per side. The diff provider marks an empty side with end line 0 and start line set to the line before, so a pure insertion after line k adds 1 - k removed lines, and a pure deletion does the same to the added count. The clamp at zero only hides negative totals. | one line change inserting lines 1-2 at the top: original side 0..0, modified side 1..2. It displays +2 -1, although nothing was removed. | an empty side (end line 0) contributes 0 lines, and a non-empty side contributes end - start + 1 | medium: relies on the diff provider's empty-side convention; not executed | LineCounts.InsertionAtTopMiscounted | LineCounts.CorrectedCountsAppend |
