# Link editing in the rich-text editor's selection toolbar

This project models, in Dafny, how the editor's floating selection toolbar lets
a user attach, change and remove a link.

- **SelectionToolbar** decides whether the toolbar is active and which menu it shows. When a link mark is active, it shows a **LinkEditor** popover instead of the menu.
- It gives the popover two callbacks. Each replaces the link mark over a range of the document with a new href. One uses the chosen href; the other uses a placeholder href while a new document is being created.
- **LinkEditor** is a small input with search-as-you-type. It caches results per query. Keyboard navigation moves an index over the result rows and a final "create" row.
- On Enter, on a click, on Escape or on the remove button, the popover writes the link, creates a document, or removes the link.
- When it closes without any of these, its teardown reconciles the typed text with the document.

The model has six files:

- `options.dfy`: the `Option` type.
- `text.dfy`: JavaScript's `String.prototype.trim` (the full ECMAScript whitespace set) and the `/^https?:\/\//i` test.
- `link_session.dfy`: one LinkEditor session as a value. The `Session` holds:
  - the React state: `value`, `selectedIndex`, `previousValue` and the `results` cache;
  - the `discardInputValue` field;
  - the searches still in flight;
  - whether the component is mounted;
  - the ordered log of calls the component makes to the outside world.

  Each event handler is a function from the session before the event to the session after it. The values `render` derives are functions too. Lemmas state what each handler does.
- `link_session_traces.dfy`: whole sessions.
  - The events that can reach an instance, and when each is possible.
  - A session invariant that every handler preserves, so every run of events keeps it.
  - Particular event sequences that show how the component behaves.
- `link_editor.dfy`: the `LinkEditor` class. Its fields are updated in place by its handler methods. Each method is proved to leave the object in the session the corresponding function computes, and to keep the invariant.
- `selection_toolbar.dfy`: the toolbar.
  - `isActive`, the menu choice and the `render` decision, as functions.
  - The document, as a sequence of inline positions. Each position carries at most one link mark and a set of other marks.
  - The remove-then-add mark transaction, as functions with lemmas.
  - Classes for the editor view and for the toolbar, whose two callbacks dispatch that transaction.

External helpers are parameters or are recorded, not modelled:

- `isUrl` is an uninterpreted predicate, a parameter.
- The text under the editor's selection is a string parameter.
- Calls to `onSearchLink`, `onSelectLink`, `onCreateLink`, `onRemoveLink`, `onClickLink`, `dispatch`, `setTextSelection` and `view.focus` are recorded as effects.
- A search settles as a separate, later event (`SearchResolved` or `SearchRejected`), in any order.

Some behaviours of the code differ from what a reader might expect. The model follows the code:

- Enter with nothing highlighted calls `save(value, value)`. The href is trimmed but the title is the raw input, with any surrounding whitespace (`LinkEditor.js:96-99`).
- The keyboard handlers look results up under the untrimmed input (`LinkEditor.js:86`, `137`). `render` shows the list stored under the trimmed input, or else under `previousValue` (`LinkEditor.js:230-233`).
  - While the input has whitespace at an end, the shown list is invisible to the keys.
  - When `onCreateLink` is provided, Enter on a highlighted shown result then creates a document instead (`SessionTraces.EnterIgnoresHighlightedResult`). Without it, Enter commits nothing there.
- `selectedIndex` is not confined to `[-1, N]` for the keyboard list's length `N`. Hovering a row sets it to a displayed index (`SessionTraces.IndexCanPassKeyboardList`). Only the arrow keys keep it inside that range (`SessionTraces.NavigationStaysInRange`).
- The href normalisation of `save` is idempotent only when `isUrl` accepts the prefixed href. Otherwise `"https://"` is prepended again (`LinkSession.NormalizeHrefFixedPoint`).
- One session can commit more than once. For example, a result is saved with Enter and then the remove button is clicked. What the discard flag guarantees is that teardown adds nothing after a commit (`SessionTraces.TeardownAfterCommitIsQuiet`).
- `save` returns on a blank href before it sets the discard flag. `handleCreateLink` sets the flag before its own blank check, so a blank create still suppresses teardown.
- Tab ignores Shift. Shift+ArrowUp and Shift+ArrowDown do nothing.
- The placeholder href ends in the three characters U+00E2 U+20AC U+00A6 (`SelectionToolbar.js:46`). This is a UTF-8 ellipsis read back as Windows-1252, and the model uses those three characters as written.
- The toolbar computes its menu items even when it will show the LinkEditor. An empty menu therefore hides the LinkEditor too (`Toolbar.RenderChoice`).

## Model

All paths are under `src/components/Editor/components/`; the cells repeat them in full.

| member | source | states |
|---|---|---|
| Text.TrimStartSpec | src/components/Editor/components/LinkEditor.js:188 | dropping leading whitespace keeps a suffix of the input, drops only whitespace, and leaves a string that is empty or starts with a non-whitespace character |
| Text.TrimEndSpec | src/components/Editor/components/LinkEditor.js:231 | dropping trailing whitespace keeps a prefix of the input, drops only whitespace, and leaves a string that is empty or ends with a non-whitespace character |
| Text.TrimSpec | src/components/Editor/components/LinkEditor.js:65 | `trim` yields a contiguous infix of its input with no whitespace at either end, having dropped only whitespace on each side |
| Text.TrimIdempotent | src/components/Editor/components/LinkEditor.js:161 | trimming a trimmed string changes nothing, so a query trimmed in `handleChange` is stored under itself |
| Text.TrimEmptyIff | src/components/Editor/components/LinkEditor.js:56-57 | the trimmed input is empty exactly when the input is all whitespace (the blank test of teardown, `save` and `handleCreateLink`) |
| Text.LooksLikeUrlIff | src/components/Editor/components/LinkEditor.js:236 | `/^https?:\/\//i` matches exactly when the input starts, ignoring ASCII case, with `http://` or `https://` |
| LinkSession.Href | src/components/Editor/components/LinkEditor.js:29-31 | the `href` getter: the mark's href, or the empty string without a mark; the initial input and the value Escape restores (`LinkSession.EscapeEffect`) |
| LinkSession.SuggestedLinkTitle | src/components/Editor/components/LinkEditor.js:33-42 | the `suggestedLinkTitle` getter: the trimmed input, or the trimmed selected text when the input is blank; the result is trimmed (`LinkSession.SuggestedTitleTrimmed`) |
| LinkSession.KeyboardResults | src/components/Editor/components/LinkEditor.js:86 | the list the keyboard handlers consult: the cache entry under the untrimmed input, or none; its length bounds the arrow keys (`LinkSession.ArrowKeysClamp`) |
| LinkSession.DisplayedResults | src/components/Editor/components/LinkEditor.js:230-233 | the list `render` shows: the entry under the trimmed input, else under `previousValue`, else none; the fallback's role is stated by `SessionTraces.FallbackShownWhileSearching`, `SessionTraces.SettledQueryShown` and `SessionTraces.LateResolveKeepsDisplay` |
| LinkSession.ShowCreateLink | src/components/Editor/components/LinkEditor.js:240-244 | the create row is offered with `onCreateLink`, a non-blank suggested title other than the initial href, and input that does not look like an http(s) URL (`LinkSession.RenderFlags`) |
| LinkSession.ShowResults | src/components/Editor/components/LinkEditor.js:246-247 | the result list is shown for a non-blank suggested title when there is a create row or a non-empty shown list (`LinkSession.RenderFlags`) |
| LinkSession.NormalizeHref | src/components/Editor/components/LinkEditor.js:74-76 | the href `save` emits for a trimmed href: unchanged when `isUrl` accepts it or it starts with `/`, else behind `https://` (`LinkSession.NormalizeHrefShape`) |
| LinkSession.PressEnter | src/components/Editor/components/LinkEditor.js:83-106 | the Enter branch of `handleKeyDown`; what each index emits is stated by `LinkSession.EnterResolution` |
| LinkSession.PressEscape | src/components/Editor/components/LinkEditor.js:108-117 | the Escape branch of `handleKeyDown`; its effects are stated by `LinkSession.EscapeEffect` |
| LinkSession.SuggestedTitleTrimmed | src/components/Editor/components/LinkEditor.js:33-42 | the suggested title has no whitespace at either end |
| LinkSession.NormalizeHrefShape | src/components/Editor/components/LinkEditor.js:72-76 | for a trimmed non-empty href the emitted href is trimmed, ends with it, equals it exactly when `isUrl` accepts it or it starts with `/`, and otherwise is `https://` plus it |
| LinkSession.NormalizeHrefFixedPoint | src/components/Editor/components/LinkEditor.js:74-76 | normalising the result again leaves it unchanged if and only if `isUrl` accepts it or it starts with `/` |
| LinkSession.SaveEffect | src/components/Editor/components/LinkEditor.js:64-79 | a blank href leaves the session as it was, discard flag included; otherwise only the flag and the log change: the flag is set and exactly one `onSelectLink` is appended with the given title, the props' `from`/`to`, and the trimmed href, which is kept exactly when `isUrl` accepts it or it starts with `/` and is otherwise `https://` plus it |
| LinkSession.RemoveLinkEffect | src/components/Editor/components/LinkEditor.js:194-209 | only the discard flag and the log change; the flag is set; the old log is kept as a prefix and one, two or three effects are appended: the mark removal over `from`/`to` if and only if there is a mark, `onRemoveLink` if and only if it is provided and never before the removal, and focus last |
| LinkSession.CreateLinkEffect | src/components/Editor/components/LinkEditor.js:184-192 | only the discard flag and the log change; the flag is set even when nothing else happens; `onCreateLink` is appended once, with the trimmed title, if and only if the title is not blank and the callback is provided |
| LinkSession.EnterResolution | src/components/Editor/components/LinkEditor.js:83-106 | only the discard flag and the log change. At a result's index with a non-blank url: one `onSelectLink` with that url trimmed and normalised and that result's title. One past the keyboard list with `onCreateLink`: one `onCreateLink` with the suggested title, or none when it is blank, and the flag is set either way. At -1 with non-blank input: one `onSelectLink` with the normalised trimmed input and the raw input as title. Any other case appends no commit and keeps the flag. Every case ends with the cursor move and focus exactly when the initial range was non-empty |
| LinkSession.EnterAppendsAtMostOne | src/components/Editor/components/LinkEditor.js:85-103 | Enter keeps input, index and cache, appends at most one effect of its own, and ends with the cursor move exactly when the initial range was non-empty |
| LinkSession.EscapeEffect | src/components/Editor/components/LinkEditor.js:108-117 | over an existing link, Escape restores the initial href, changes nothing else but the log, and appends the cursor move and focus without committing, so the teardown that follows emits nothing; without one, Escape is the remove handler |
| LinkSession.ShiftedArrowsIgnored | src/components/Editor/components/LinkEditor.js:119-145 | Shift+ArrowUp and Shift+ArrowDown change nothing; Tab with or without Shift acts as ArrowDown |
| LinkSession.ArrowKeysClamp | src/components/Editor/components/LinkEditor.js:123-143 | ArrowUp decrements the index but never below -1; ArrowDown/Tab increments it but never above the keyboard list's length; nothing else changes |
| LinkSession.ChangeEffect | src/components/Editor/components/LinkEditor.js:153-165 | the input becomes the typed text and the index -1; one search for the trimmed text is issued exactly when it is not blank and `onSearchLink` is provided; cache, fallback and discard flag are untouched |
| LinkSession.SelectedRows | src/components/Editor/components/LinkEditor.js:288-306 | no two result rows are `selected` at once, and the create row is `selected` only when no result row is |
| LinkSession.SearchSettles | src/components/Editor/components/LinkEditor.js:163-175 | a resolved search settles its query; on a mounted instance it stores its list under its query and makes it the fallback, and nothing else changes; every other cache key keeps its value; after unmount the cache and the fallback are unchanged; a rejection only settles its query |
| LinkSession.ResolutionOrderOnlyMovesFallback | src/components/Editor/components/LinkEditor.js:166-172 | two searches for different queries leave the same cache whichever settles first; only `previousValue` differs |
| LinkSession.RenderFlags | src/components/Editor/components/LinkEditor.js:236-247 | the create row is offered only inside the shown list, only with `onCreateLink`, never for input that looks like an http(s) URL, never for the initial href; the list is shown only for a non-blank suggested title; the suggested title is trimmed and is the trimmed input when that is not blank |
| LinkSession.TeardownDecision | src/components/Editor/components/LinkEditor.js:44-62 | unmounting emits something exactly when the discard flag is clear and the input differs from the initial href; then a blank input removes the link and any other input is saved trimmed as href and title |
| SessionTraces.InitInv | src/components/Editor/components/LinkEditor.js:17-27 | a new instance starts with the mark's href as its input, index -1, and satisfies the session invariant |
| SessionTraces.CommittedAppend | src/components/Editor/components/LinkEditor.js:44-48 | appending only non-committing effects leaves whether the session has committed unchanged |
| SessionTraces.StepPreservesInv | src/components/Editor/components/LinkEditor.js:81-225 | every handler that can fire keeps the invariant: index at least -1, a committed session has its discard flag set, cache and in-flight keys are trimmed and non-empty, and the fallback is empty or cached |
| SessionTraces.RunPreservesInv | src/components/Editor/components/LinkEditor.js:44-225 | every possible sequence of events keeps the invariant |
| SessionTraces.TeardownAfterCommitIsQuiet | src/components/Editor/components/LinkEditor.js:44-48 | in any session reachable from a new instance, once a link was written, created or removed, unmounting emits nothing |
| SessionTraces.UntrimmedInputHidesResultsFromKeys | src/components/Editor/components/LinkEditor.js:136-143 | while the input has whitespace at an end, the keyboard sees no results and ArrowDown/Tab can reach index 0 at most |
| SessionTraces.NavigationStaysInRange | src/components/Editor/components/LinkEditor.js:119-145 | on a mounted instance, every sequence of ArrowUp, ArrowDown and Tab presses, with or without Shift, can fire, keeps an index that starts in [-1, N] inside it, N the keyboard list's length, and changes nothing else |
| SessionTraces.FallbackShownWhileSearching | src/components/Editor/components/LinkEditor.js:153-172 | typing a query with no cached list keeps showing the list of the last settled search, `previousValue`, while the new search is in flight |
| SessionTraces.SettledQueryShown | src/components/Editor/components/LinkEditor.js:166-172 | once the search for the current trimmed input resolves on a mounted instance, exactly its list is shown |
| SessionTraces.LateResolveKeepsDisplay | src/components/Editor/components/LinkEditor.js:166-172 | a late resolve for another query leaves the shown list unchanged while the current trimmed input has a cached list |
| SessionTraces.OverlappingSearches | src/components/Editor/components/LinkEditor.js:153-177 | typing two different trimmed queries q1 then q2, with the search for q1 settling last, caches both lists under their own queries, shows the list for q2, and leaves only the fallback pointing at q1 |
| SessionTraces.EnterIgnoresHighlightedResult | src/components/Editor/components/LinkEditor.js:83-95 | with whitespace around a typed query, the resolved list is shown and its first row highlighted by ArrowDown, yet Enter calls `onCreateLink` with the trimmed input instead of saving that row |
| SessionTraces.HighlightFirstShownResult | src/components/Editor/components/LinkEditor.js:131-145 | ArrowDown highlights row 0 of a list shown under the trimmed input while the keyboard list is empty |
| SessionTraces.EnterCreatesPastEmptyList | src/components/Editor/components/LinkEditor.js:89-95 | Enter at index 0 over an empty keyboard list creates a document from the trimmed input |
| SessionTraces.IndexCanPassKeyboardList | src/components/Editor/components/LinkEditor.js:292-306 | hovering the create row below a list shown for the trimmed input sets the index past the end of the empty keyboard list and marks the create row selected |
| SessionTraces.TeardownSavesTypedHost | src/components/Editor/components/LinkEditor.js:55-61 | typing "acme.com" over [0, 8) and closing the popover saves one link "https://acme.com" titled "acme.com" |
| SessionTraces.EnterSavesRawInput | src/components/Editor/components/LinkEditor.js:96-99 | typing "docs" over a collapsed range and pressing Enter saves one link "https://docs" titled "docs" |
| LinkEditorComponent.LinkEditor.constructor | src/components/Editor/components/LinkEditor.js:17-27 | the instance starts in the initial session, with the mark's href as input and initial value, and `to - from` as the initial selection length |
| LinkEditorComponent.LinkEditor.Save | src/components/Editor/components/LinkEditor.js:64-79 | updates the object exactly as `save` does on the session, keeping the invariant |
| LinkEditorComponent.LinkEditor.MoveSelectionToEnd | src/components/Editor/components/LinkEditor.js:220-225 | emits the cursor move to `to` and focus, nothing else |
| LinkEditorComponent.LinkEditor.HandleCreateLink | src/components/Editor/components/LinkEditor.js:184-192 | updates the object exactly as `handleCreateLink` does, keeping the invariant |
| LinkEditorComponent.LinkEditor.HandleRemoveLink | src/components/Editor/components/LinkEditor.js:194-209 | updates the object exactly as `handleRemoveLink` does, keeping the invariant |
| LinkEditorComponent.LinkEditor.ComponentWillUnmount | src/components/Editor/components/LinkEditor.js:44-62 | updates the object exactly as the teardown does, keeping the invariant |
| LinkEditorComponent.LinkEditor.HandleChange | src/components/Editor/components/LinkEditor.js:153-163 | sets the input, resets the index, and issues the search for a non-blank trimmed input when searching is available |
| LinkEditorComponent.LinkEditor.ResolveSearch | src/components/Editor/components/LinkEditor.js:164-172 | settles an issued search; if still mounted, caches its list under its query and makes that query the fallback |
| LinkEditorComponent.LinkEditor.RejectSearch | src/components/Editor/components/LinkEditor.js:173-175 | settles an issued search and changes nothing else |
| LinkEditorComponent.LinkEditor.HandleKeyDown | src/components/Editor/components/LinkEditor.js:81-147 | updates the object exactly as `handleKeyDown` does for each key, keeping the invariant |
| LinkEditorComponent.LinkEditor.MoveDown | src/components/Editor/components/LinkEditor.js:131-145 | moves the index one down, capped at the keyboard list's length |
| LinkEditorComponent.LinkEditor.HandleFocusLink | src/components/Editor/components/LinkEditor.js:149-151 | sets the index to the hovered row's and changes nothing else |
| LinkEditorComponent.LinkEditor.HandleSelectLink | src/components/Editor/components/LinkEditor.js:211-218 | saves the clicked result, then moves the cursor when the initial range was non-empty |
| LinkEditorComponent.LinkEditor.ClickCreateRow | src/components/Editor/components/LinkEditor.js:299-305 | creates from the suggested title, then moves the cursor when the initial range was non-empty |
| LinkEditorComponent.LinkEditor.HandleOpenLink | src/components/Editor/components/LinkEditor.js:179-182 | calls `onClickLink` with the mark's href (not the typed input) and changes nothing else |
| Toolbar.ReplaceLinkMark | src/components/Editor/components/SelectionToolbar.js:73-77 | the `removeMark` then `addMark` of `handleOnSelectLink` over [from, to); its effect is stated by `Toolbar.ReplaceLinkMarkSpec` |
| Toolbar.PlaceholderHref | src/components/Editor/components/SelectionToolbar.js:46 | the placeholder href, `creating#` then the title then the three-character suffix `â€¦`, marked while a document is created; it determines its title (`Toolbar.PlaceholderRoundTrip`, `Toolbar.PlaceholderInjective`) |
| Toolbar.ChooseMenu | src/components/Editor/components/SelectionToolbar.js:92-107 | which menu builder `render` calls; its priority is stated by `Toolbar.ChooseMenuPriority` |
| Toolbar.Render | src/components/Editor/components/SelectionToolbar.js:80-132 | what `render` returns: nothing, the LinkEditor, or the menu; the choice is stated by `Toolbar.RenderChoice` |
| Toolbar.Relink | src/components/Editor/components/SelectionToolbar.js:73-77 | sets the link of exactly the positions in [from, to) and leaves every other position, and the length, unchanged |
| Toolbar.ReplaceLinkMarkSpec | src/components/Editor/components/SelectionToolbar.js:63-78 | after the remove-then-add, every position of the range carries exactly the new href with its character and other marks kept, and every position outside is unchanged |
| Toolbar.ReplaceLinkMarkIdempotent | src/components/Editor/components/SelectionToolbar.js:73-77 | applying the same replacement twice gives the same document as applying it once |
| Toolbar.ReplaceLinkMarkForgetsOldLinks | src/components/Editor/components/SelectionToolbar.js:75-76 | the result does not depend on the links the range carried before |
| Toolbar.PlaceholderRoundTrip | src/components/Editor/components/SelectionToolbar.js:46 | the title is recovered from the placeholder href built for it |
| Toolbar.PlaceholderTitleSound | src/components/Editor/components/SelectionToolbar.js:46 | an href from which a title is recovered is that title's placeholder href |
| Toolbar.PlaceholderInjective | src/components/Editor/components/SelectionToolbar.js:46 | different titles get different placeholder hrefs |
| Toolbar.AnyNonEmpty | src/components/Editor/components/SelectionToolbar.js:31 | `some(nodes, n => n.content.size)` holds exactly when some top-level node has non-zero content size |
| Toolbar.IsActive | src/components/Editor/components/SelectionToolbar.js:19-32 | the toolbar is active exactly when there is a selection, it is neither empty nor a node selection, and some top-level node of its slice has content |
| Toolbar.ChooseMenuPriority | src/components/Editor/components/SelectionToolbar.js:92-107 | the table menu is chosen exactly when both indexes are defined, the column menu exactly when only the column index is, the row menu exactly when only the row index is, and the formatting menu otherwise, each with its own index or the template flag |
| Toolbar.RenderChoice | src/components/Editor/components/SelectionToolbar.js:80-132 | nothing renders exactly in a code block or for an empty menu; otherwise the LinkEditor shows exactly when a link mark is active and its range found, editing that range from that link's href and with `onCreateLink` exactly when the toolbar has one; the menu shows the chosen items; either way the active flag is `isActive` |
| Toolbar.EditorView.Dispatch | src/components/Editor/components/SelectionToolbar.js:73-77 | a mark-only transaction replaces the document and keeps the selection |
| Toolbar.SelectionToolbar.HandleOnSelectLink | src/components/Editor/components/SelectionToolbar.js:63-78 | replaces the link mark over [from, to) with the given href and keeps the selection; the title is not used |
| Toolbar.SelectionToolbar.HandleOnCreateLink | src/components/Editor/components/SelectionToolbar.js:35-61 | without `onCreateLink` nothing happens; with a collapsed selection the assertion fails and nothing changes; otherwise the selection is marked with the placeholder href for the title and one `createAndInsertLink` call is started |

## Left out

- Rendering: the JSX and DOM output, the styled-components CSS, icons, the theme, dictionary strings, tooltips, and `Portal`/`FloatingToolbar` positioning. `Tooltip.js` is rendering only and is not part of this model.
- The ProseMirror library: transactions, `dispatch`, `setTextSelection`, `doc.cut` and `view.focus`.
  - In the LinkEditor they are effects in the log.
  - In the toolbar the document is a sequence of inline positions, and `removeMark`/`addMark` are functions over it.
  - Document positions are indexes into that sequence. Node boundaries are not modelled.
- `event.preventDefault` and `event.stopPropagation`: they have no effect on the component's state.
- `isUrl` is an uninterpreted predicate. `createAndInsertLink`, `getMarkRange`, `isMarkActive`, `isNodeActive`, `getColumnIndex`, `getRowIndex` and the four menu builders are represented by their results: `EditorQueries`, the `menuItems` parameter, and the `creations` log. Their implementations are not part of this model.
- The search provider and `console.error`. Only the cache update on resolve and the absence of one on reject are modelled. Concurrency is modelled as interleaving: issued searches settle as separate events in any order.
- Lookups in the `results` object under keys that `Object.prototype` defines, such as `"constructor"`. The model's cache is a plain map.
- Props that change while an instance is mounted. A session keeps the props it was created with.
- What `onCreateLink`, `onSelectLink`, `onRemoveLink` and `onClickLink` do with their arguments. The connection from the LinkEditor's `onSelectLink` to the toolbar's `handleOnSelectLink` is modelled on each side separately.
- The promise `handleOnCreateLink` returns. Its rejection on a collapsed selection is the `SelectionCollapsed` outcome.
- LinkEditorComponent.LinkEditor.HandleFocusLink: requires a non-negative index, the only kind `render` passes.
- React's rule that handlers do not run on an unmounted instance appears as a `mounted` precondition on the LinkEditor's UI handlers.
