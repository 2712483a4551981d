/**
 * One editing session of the link popover (the LinkEditor component), as a
 * value: the component's state record plus its discard flag, the searches
 * still in flight, whether it is mounted, and the log of calls it has made to
 * its collaborators. Every event handler is a function from the session
 * before the event to the session after it; the class in link_editor.dfy is
 * proved to follow these functions, and the lemmas here and in
 * link_session_traces.dfy state what the component promises.
 */
module LinkSession {
  import opened Options
  import opened Text

  datatype SearchResult = SearchResult(url: string, title: string, subtitle: string)

  /** A link mark of the document; only its href attribute matters here. */
  datatype Mark = Mark(href: string)

  /**
   * The props of one instance. The optional callbacks onCreateLink,
   * onSearchLink and onRemoveLink are modelled by whether they are present;
   * onSelectLink and onClickLink are always present.
   */
  datatype Props = Props(from: int, to: int, mark: Option<Mark>,
                         hasCreateLink: bool, hasSearchLink: bool, hasRemoveLink: bool)

  /** The calls the component makes to the world outside it, in order. */
  datatype Effect =
    | OnSearchLink(query: string)                              // props.onSearchLink(query)
    | OnSelectLink(href: string, title: string, from: int, to: int) // props.onSelectLink({...})
    | OnCreateLink(title: string)                              // props.onCreateLink(title)
    | RemoveMark(from: int, to: int, mark: Mark)               // dispatch(tr.removeMark(from, to, mark))
    | OnRemoveLink                                             // props.onRemoveLink()
    | SetCursor(pos: int)                                      // dispatch(setTextSelection(pos)(tr))
    | Focus                                                    // view.focus()
    | OnClickLink(href: string)                                // props.onClickLink(href)

  datatype Key = Enter | Escape | ArrowUp | ArrowDown | Tab | OtherKey

  /**
   * The mutable part of an instance: the React state (value, selectedIndex,
   * previousValue, results), the discardInputValue field, the search queries
   * issued and not yet settled, whether the component is still mounted, and
   * the effects emitted so far.
   */
  datatype Session = Session(
    value: string,
    selectedIndex: int,
    previousValue: string,
    results: map<string, seq<SearchResult>>,
    discardInputValue: bool,
    pending: multiset<string>,
    mounted: bool,
    log: seq<Effect>)

  /** The href getter: the mark's href, or "" when there is no mark. */
  function Href(p: Props): string {
    if p.mark.Some? then p.mark.value.href else ""
  }

  function InitialSelectionLength(p: Props): int {
    p.to - p.from
  }

  /** The state a freshly constructed instance starts in. */
  function Init(p: Props): Session {
    Session(Href(p), -1, "", map[], false, multiset{}, true, [])
  }

  // ---------------------------------------------------------------------
  // Derived values (getters and render)
  // ---------------------------------------------------------------------

  /** The list the keyboard handlers consult: results[value], untrimmed, or []. */
  function KeyboardResults(s: Session): seq<SearchResult> {
    if s.value in s.results then s.results[s.value] else []
  }

  /** The list render shows: results[value.trim()], else results[previousValue], else []. */
  function DisplayedResults(s: Session): seq<SearchResult> {
    var t := Trim(s.value);
    if t in s.results then s.results[t]
    else if s.previousValue in s.results then s.results[s.previousValue]
    else []
  }

  /** The suggestedLinkTitle getter: the trimmed input, or else the trimmed selected text. */
  function SuggestedLinkTitle(value: string, selectionText: string): string {
    var t := Trim(value);
    if t != [] then t else Trim(selectionText)
  }

  predicate ShowCreateLink(p: Props, s: Session, selectionText: string) {
    var title := SuggestedLinkTitle(s.value, selectionText);
    p.hasCreateLink && title != Href(p) && |title| > 0 && !LooksLikeUrl(s.value)
  }

  predicate ShowResults(p: Props, s: Session, selectionText: string) {
    SuggestedLinkTitle(s.value, selectionText) != []
    && (ShowCreateLink(p, s, selectionText) || |DisplayedResults(s)| > 0)
  }

  /** The `selected` flag of the i-th displayed result row. */
  predicate ResultRowSelected(s: Session, i: nat)
    requires i < |DisplayedResults(s)|
  {
    i == s.selectedIndex
  }

  /** The `selected` flag of the create row, which sits after the displayed results. */
  predicate CreateRowSelected(s: Session) {
    |DisplayedResults(s)| == s.selectedIndex
  }

  // ---------------------------------------------------------------------
  // The href normalisation of save
  // ---------------------------------------------------------------------

  /**
   * The href save emits for an already trimmed href: unchanged when isUrl
   * accepts it or it starts with "/", otherwise prefixed with "https://".
   * isUrl is a predicate defined outside this component and is a parameter.
   */
  function NormalizeHref(isUrl: string -> bool, href: string): string {
    if !isUrl(href) && !StartsWith(href, "/") then "https://" + href else href
  }

  /**
   * For a trimmed non-empty input the emitted href is trimmed and non-empty,
   * ends with the input, is the input exactly when isUrl accepts it or it is
   * root-relative, and otherwise is an https URL.
   */
  lemma NormalizeHrefShape(isUrl: string -> bool, href: string)
    requires Trimmed(href) && href != []
    ensures var r := NormalizeHref(isUrl, href);
      && Trimmed(r) && r != []
      && |href| <= |r| && r[|r| - |href|..] == href
      && (r == href <==> isUrl(href) || StartsWith(href, "/"))
      && (r != href ==> r == "https://" + href && StartsWith(r, "https://") && LooksLikeUrl(r))
  {
    var r := NormalizeHref(isUrl, href);
    if r != href {
      assert r == "https://" + href;
      assert r[|r| - |href|..] == href;
      assert r[|r| - 1] == href[|href| - 1];
      assert r[..8] == "https://";
    }
  }

  /**
   * Normalising is idempotent exactly when isUrl accepts the first result or
   * it is root-relative; a prefixed href that isUrl still rejects is
   * prefixed a second time.
   */
  lemma NormalizeHrefFixedPoint(isUrl: string -> bool, href: string)
    ensures var r := NormalizeHref(isUrl, href);
      NormalizeHref(isUrl, r) == r <==> isUrl(r) || StartsWith(r, "/")
  {
    var r := NormalizeHref(isUrl, href);
    if !isUrl(r) && !StartsWith(r, "/") {
      assert |"https://" + r| > |r|;
    }
  }

  // ---------------------------------------------------------------------
  // The actions the handlers share
  // ---------------------------------------------------------------------

  /** save(href, title). */
  function Save(p: Props, isUrl: string -> bool, s: Session, href: string, title: string): Session {
    var t := Trim(href);
    if t == [] then s
    else s.(discardInputValue := true,
            log := s.log + [OnSelectLink(NormalizeHref(isUrl, t), title, p.from, p.to)])
  }

  /** The calls handleRemoveLink makes, in order. */
  function RemoveLinkEffects(p: Props): seq<Effect> {
    (if p.mark.Some? then [RemoveMark(p.from, p.to, p.mark.value)] else [])
    + (if p.hasRemoveLink then [OnRemoveLink] else [])
    + [Focus]
  }

  /** handleRemoveLink. */
  function HandleRemoveLink(p: Props, s: Session): Session {
    s.(discardInputValue := true, log := s.log + RemoveLinkEffects(p))
  }

  /** handleCreateLink(title): the flag is set before the empty check. */
  function HandleCreateLink(p: Props, s: Session, title: string): Session {
    var flagged := s.(discardInputValue := true);
    var t := Trim(title);
    if t == [] || !p.hasCreateLink then flagged
    else flagged.(log := flagged.log + [OnCreateLink(t)])
  }

  /** moveSelectionToEnd: a collapsed cursor at `to`, then focus. */
  function MoveSelectionToEnd(p: Props, s: Session): Session {
    s.(log := s.log + [SetCursor(p.to), Focus])
  }

  /** The `if (this.initialSelectionLength) this.moveSelectionToEnd()` tail of Enter and of the row clicks. */
  function MoveIfRangeWasSelected(p: Props, s: Session): Session {
    if InitialSelectionLength(p) != 0 then MoveSelectionToEnd(p, s) else s
  }

  // ---------------------------------------------------------------------
  // Event handlers
  // ---------------------------------------------------------------------

  /** handleChange, up to the await: set the value, reset the index, issue the search. */
  function HandleChange(p: Props, s: Session, v: string): Session {
    var typed := s.(value := v, selectedIndex := -1);
    var q := Trim(v);
    if q != [] && p.hasSearchLink
    then typed.(pending := typed.pending + multiset{q}, log := typed.log + [OnSearchLink(q)])
    else typed
  }

  /** The continuation of handleChange when the search for q resolves with rs. */
  function ResolveSearch(s: Session, q: string, rs: seq<SearchResult>): Session
    requires q in s.pending
  {
    var settled := s.(pending := s.pending - multiset{q});
    // setState on an unmounted component is ignored
    if s.mounted then settled.(results := s.results[q := rs], previousValue := q) else settled
  }

  /** The catch branch of handleChange: the error is only logged to the console. */
  function RejectSearch(s: Session, q: string): Session
    requires q in s.pending
  {
    s.(pending := s.pending - multiset{q})
  }

  /** The Enter branch of handleKeyDown. */
  function PressEnter(p: Props, isUrl: string -> bool, s: Session, selectionText: string): Session {
    var results := KeyboardResults(s);
    var i := s.selectedIndex;
    var committed :=
      if i >= 0 then
        if i < |results| then Save(p, isUrl, s, results[i].url, results[i].title)
        else if p.hasCreateLink && i == |results| then
          HandleCreateLink(p, s, SuggestedLinkTitle(s.value, selectionText))
        else s
      else Save(p, isUrl, s, s.value, s.value);
    MoveIfRangeWasSelected(p, committed)
  }

  /** The Escape branch: restore the initial href and move the cursor, or remove the link. */
  function PressEscape(p: Props, s: Session): Session {
    if Href(p) != [] then MoveSelectionToEnd(p, s.(value := Href(p)))
    else HandleRemoveLink(p, s)
  }

  /** ArrowDown without Shift, and Tab with or without it. */
  function MoveDown(s: Session): Session {
    var total := |KeyboardResults(s)|;
    var next := s.selectedIndex + 1;
    s.(selectedIndex := if next < total then next else total)
  }

  /** ArrowUp without Shift. */
  function MoveUp(s: Session): Session {
    var prev := s.selectedIndex - 1;
    s.(selectedIndex := if prev < -1 then -1 else prev)
  }

  /** handleKeyDown; selectionText is the text the editor's selection covers (for suggestedLinkTitle). */
  function HandleKeyDown(p: Props, isUrl: string -> bool, s: Session, key: Key, shift: bool,
                         selectionText: string): Session
  {
    match key
    case Enter => PressEnter(p, isUrl, s, selectionText)
    case Escape => PressEscape(p, s)
    case ArrowUp => if shift then s else MoveUp(s)
    case ArrowDown => if shift then s else MoveDown(s)
    case Tab => MoveDown(s)
    case OtherKey => s
  }

  /** handleFocusLink, called when the mouse enters a row. */
  function HandleFocusLink(s: Session, i: int): Session {
    s.(selectedIndex := i)
  }

  /** A click on a result row: handleSelectLink(url, title). */
  function HandleSelectLink(p: Props, isUrl: string -> bool, s: Session, url: string, title: string): Session {
    MoveIfRangeWasSelected(p, Save(p, isUrl, s, url, title))
  }

  /** A click on the create row, which passes the suggested title it was rendered with. */
  function ClickCreateRow(p: Props, s: Session, selectionText: string): Session {
    MoveIfRangeWasSelected(p, HandleCreateLink(p, s, SuggestedLinkTitle(s.value, selectionText)))
  }

  /** handleOpenLink: the open button passes the mark's href, not the input. */
  function HandleOpenLink(p: Props, s: Session): Session {
    s.(log := s.log + [OnClickLink(Href(p))])
  }

  /** componentWillUnmount: the teardown reconciliation. */
  function ComponentWillUnmount(p: Props, isUrl: string -> bool, s: Session): Session {
    var gone := s.(mounted := false);
    if s.discardInputValue then gone
    else if s.value == Href(p) then gone
    else
      var href := Trim(s.value);
      if href == [] then HandleRemoveLink(p, gone) else Save(p, isUrl, gone, href, href)
  }

  // ---------------------------------------------------------------------
  // Properties of single events
  // ---------------------------------------------------------------------

  /** Effects that write, create or remove a link: the terminal actions of a session. */
  predicate IsCommit(e: Effect) {
    e.OnSelectLink? || e.OnCreateLink? || e.RemoveMark? || e.OnRemoveLink?
  }

  predicate Committed(log: seq<Effect>) {
    exists k :: 0 <= k < |log| && IsCommit(log[k])
  }

  /**
   * save with a blank href changes nothing; otherwise it sets the discard
   * flag and emits exactly one onSelectLink over the props' range, whose
   * href is trimmed and is the trimmed input, possibly behind "https://".
   */
  lemma SaveEffect(p: Props, isUrl: string -> bool, s: Session, href: string, title: string)
    ensures var r := Save(p, isUrl, s, href, title);
      && (AllWhitespace(href) ==> r == s)
      && (!AllWhitespace(href) ==>
            && r == s.(discardInputValue := true, log := r.log)
            && |r.log| == |s.log| + 1 && r.log[..|s.log|] == s.log
            && var e := r.log[|s.log|];
               && e.OnSelectLink? && e.title == title && e.from == p.from && e.to == p.to
               && Trimmed(e.href)
               && e.href == NormalizeHref(isUrl, Trim(href))
               && (e.href == Trim(href) <==> isUrl(Trim(href)) || StartsWith(Trim(href), "/"))
               && (e.href != Trim(href) ==> e.href == "https://" + Trim(href)))
  {
    TrimEmptyIff(href);
    var t := Trim(href);
    if t != [] {
      TrimSpec(href);
      NormalizeHrefShape(isUrl, t);
      var r := Save(p, isUrl, s, href, title);
      assert r.log[..|s.log|] == s.log;
    }
  }

  /**
   * handleRemoveLink always sets the discard flag; it removes the mark only
   * when there is one, notifies onRemoveLink whenever it is provided (mark or
   * not), and gives the editor focus last.
   */
  lemma RemoveLinkEffect(p: Props, s: Session)
    ensures var r := HandleRemoveLink(p, s);
      && r == s.(discardInputValue := true, log := r.log)
      && |s.log| <= |r.log| && r.log[..|s.log|] == s.log
      && var added := r.log[|s.log|..];
         && |added| == (if p.mark.Some? then 1 else 0) + (if p.hasRemoveLink then 1 else 0) + 1
         && ((exists k :: 0 <= k < |added| && added[k].RemoveMark?) <==> p.mark.Some?)
         && ((exists k :: 0 <= k < |added| && added[k] == OnRemoveLink) <==> p.hasRemoveLink)
         && (forall k :: 0 <= k < |added| && added[k].RemoveMark? ==>
               added[k] == RemoveMark(p.from, p.to, p.mark.value))
         && added[|added| - 1] == Focus
         && (forall j, k :: 0 <= j < k < |added| ==> !(added[j] == OnRemoveLink && added[k].RemoveMark?))
  {
    var r := HandleRemoveLink(p, s);
    assert r.log[|s.log|..] == RemoveLinkEffects(p);
    if p.mark.Some? {
      assert RemoveLinkEffects(p)[0].RemoveMark?;
    }
    if p.hasRemoveLink {
      var k := if p.mark.Some? then 1 else 0;
      assert RemoveLinkEffects(p)[k] == OnRemoveLink;
    }
  }

  /**
   * handleCreateLink sets the discard flag even when it then does nothing;
   * it calls onCreateLink once, with the trimmed title, exactly when the title
   * is not blank and the callback is provided.
   */
  lemma CreateLinkEffect(p: Props, s: Session, title: string)
    ensures var r := HandleCreateLink(p, s, title);
      && r == s.(discardInputValue := true, log := r.log)
      && (r.log != s.log <==> !AllWhitespace(title) && p.hasCreateLink)
      && (r.log != s.log ==> r.log == s.log + [OnCreateLink(Trim(title))] && Trimmed(Trim(title)))
  {
    TrimEmptyIff(title);
    TrimSpec(title);
  }

  /**
   * What Enter emits. A result under the index is saved with its own url and
   * title; an index just past the keyboard list creates a document from the
   * suggested title when onCreateLink is provided; no index saves the raw
   * input, href trimmed and normalised, title as typed; any other index, a
   * blank href or a blank title commits nothing. The cursor moves to `to`
   * afterwards exactly when the session began over a non-empty range.
   */
  lemma EnterResolution(p: Props, isUrl: string -> bool, s: Session, selectionText: string)
    ensures var results := KeyboardResults(s);
      var i := s.selectedIndex;
      var tail := if InitialSelectionLength(p) != 0 then [SetCursor(p.to), Focus] else [];
      var title := SuggestedLinkTitle(s.value, selectionText);
      var r := PressEnter(p, isUrl, s, selectionText);
      && r == s.(discardInputValue := r.discardInputValue, log := r.log)
      && (0 <= i < |results| && !AllWhitespace(results[i].url) ==>
            && r.discardInputValue
            && r.log == s.log + [OnSelectLink(NormalizeHref(isUrl, Trim(results[i].url)), results[i].title, p.from, p.to)] + tail)
      && (0 <= i == |results| && p.hasCreateLink ==>
            && r.discardInputValue
            && (title != [] ==> r.log == s.log + [OnCreateLink(title)] + tail)
            && (title == [] ==> r.log == s.log + tail))
      && (i < 0 && !AllWhitespace(s.value) ==>
            && r.discardInputValue
            && r.log == s.log + [OnSelectLink(NormalizeHref(isUrl, Trim(s.value)), s.value, p.from, p.to)] + tail)
      && ((0 <= i < |results| && AllWhitespace(results[i].url))
          || (i < 0 && AllWhitespace(s.value))
          || i > |results| || (i == |results| && !p.hasCreateLink) ==>
            r.discardInputValue == s.discardInputValue && r.log == s.log + tail)
  {
    var results := KeyboardResults(s);
    var i := s.selectedIndex;
    var title := SuggestedLinkTitle(s.value, selectionText);
    if 0 <= i < |results| {
      TrimEmptyIff(results[i].url);
    } else if i >= 0 && i == |results| && p.hasCreateLink {
      SuggestedTitleTrimmed(s.value, selectionText);
      TrimOfTrimmed(title);
    } else if i < 0 {
      TrimEmptyIff(s.value);
    }
  }

  /** The suggested title has no whitespace at either end. */
  lemma SuggestedTitleTrimmed(value: string, selectionText: string)
    ensures Trimmed(SuggestedLinkTitle(value, selectionText))
  {
    TrimSpec(value);
    TrimSpec(selectionText);
  }

  /**
   * Enter keeps the input, the index and the cache, appends to the log at
   * most one effect of its own, and ends with the cursor move exactly when
   * the session began over a non-empty range.
   */
  lemma EnterAppendsAtMostOne(p: Props, isUrl: string -> bool, s: Session, selectionText: string)
    ensures var tail := if InitialSelectionLength(p) != 0 then [SetCursor(p.to), Focus] else [];
      var r := PressEnter(p, isUrl, s, selectionText);
      && r.value == s.value && r.selectedIndex == s.selectedIndex && r.results == s.results
      && |s.log| + |tail| <= |r.log| <= |s.log| + |tail| + 1
      && r.log[..|s.log|] == s.log
      && r.log[|r.log| - |tail|..] == tail
  {
    var results := KeyboardResults(s);
    var i := s.selectedIndex;
    var committed: Session;
    if i >= 0 && i < |results| {
      committed := Save(p, isUrl, s, results[i].url, results[i].title);
      SaveAtMostOne(p, isUrl, s, results[i].url, results[i].title);
    } else if i >= 0 && p.hasCreateLink && i == |results| {
      committed := HandleCreateLink(p, s, SuggestedLinkTitle(s.value, selectionText));
      CreateAtMostOne(p, s, SuggestedLinkTitle(s.value, selectionText));
    } else if i >= 0 {
      committed := s;
    } else {
      committed := Save(p, isUrl, s, s.value, s.value);
      SaveAtMostOne(p, isUrl, s, s.value, s.value);
    }
    assert PressEnter(p, isUrl, s, selectionText) == MoveIfRangeWasSelected(p, committed);
    MoveAfter(p, s, committed);
  }

  /** r keeps s's input, index and cache, and its log is s's plus at most one effect. */
  predicate AtMostOneMore(s: Session, r: Session) {
    && r.value == s.value && r.selectedIndex == s.selectedIndex && r.results == s.results
    && |s.log| <= |r.log| <= |s.log| + 1 && r.log[..|s.log|] == s.log
  }

  lemma SaveAtMostOne(p: Props, isUrl: string -> bool, s: Session, href: string, title: string)
    ensures AtMostOneMore(s, Save(p, isUrl, s, href, title))
  {
  }

  lemma CreateAtMostOne(p: Props, s: Session, title: string)
    ensures AtMostOneMore(s, HandleCreateLink(p, s, title))
  {
  }

  lemma MoveAfter(p: Props, s0: Session, s: Session)
    requires AtMostOneMore(s0, s)
    ensures var tail := if InitialSelectionLength(p) != 0 then [SetCursor(p.to), Focus] else [];
      var r := MoveIfRangeWasSelected(p, s);
      && r.value == s0.value && r.selectedIndex == s0.selectedIndex && r.results == s0.results
      && |s0.log| + |tail| <= |r.log| <= |s0.log| + |tail| + 1
      && r.log[..|s0.log|] == s0.log
      && r.log[|r.log| - |tail|..] == tail
  {
    var r := MoveIfRangeWasSelected(p, s);
    if InitialSelectionLength(p) != 0 {
      assert r.log == s.log + [SetCursor(p.to), Focus];
      assert r.log[..|s0.log|] == s.log[..|s0.log|];
    }
  }

  /**
   * Escape over an existing link restores the input to the initial href and
   * moves the cursor to `to`, committing nothing and leaving the discard flag
   * alone, so the teardown that follows finds nothing to do. Escape without
   * an initial href is handleRemoveLink.
   */
  lemma EscapeEffect(p: Props, isUrl: string -> bool, s: Session)
    ensures var r := PressEscape(p, s);
      && (Href(p) != [] ==>
            && r.value == Href(p) && r.discardInputValue == s.discardInputValue
            && r.log == s.log + [SetCursor(p.to), Focus]
            && r == s.(value := Href(p), log := r.log)
            && ComponentWillUnmount(p, isUrl, r).log == r.log)
      && (Href(p) == [] ==> r == HandleRemoveLink(p, s) && r.discardInputValue)
  {
  }

  /** Shift turns ArrowUp and ArrowDown into no-ops; Tab ignores Shift. */
  lemma ShiftedArrowsIgnored(p: Props, isUrl: string -> bool, s: Session, selectionText: string)
    ensures HandleKeyDown(p, isUrl, s, ArrowUp, true, selectionText) == s
    ensures HandleKeyDown(p, isUrl, s, ArrowDown, true, selectionText) == s
    ensures HandleKeyDown(p, isUrl, s, Tab, true, selectionText) == HandleKeyDown(p, isUrl, s, Tab, false, selectionText)
    ensures HandleKeyDown(p, isUrl, s, Tab, false, selectionText) == HandleKeyDown(p, isUrl, s, ArrowDown, false, selectionText)
  {
  }

  /**
   * ArrowUp never leaves the index below -1 and ArrowDown/Tab never above
   * the keyboard list's length; each moves by at most one, and neither
   * touches anything but the index.
   */
  lemma ArrowKeysClamp(s: Session)
    ensures var up := MoveUp(s);
      && up == s.(selectedIndex := up.selectedIndex)
      && up.selectedIndex >= -1
      && (s.selectedIndex >= 0 ==> up.selectedIndex == s.selectedIndex - 1)
      && (s.selectedIndex < 0 ==> up.selectedIndex == -1)
    ensures var down := MoveDown(s);
      && down == s.(selectedIndex := down.selectedIndex)
      && down.selectedIndex <= |KeyboardResults(s)|
      && (s.selectedIndex < |KeyboardResults(s)| ==> down.selectedIndex == s.selectedIndex + 1)
      && (s.selectedIndex >= |KeyboardResults(s)| ==> down.selectedIndex == |KeyboardResults(s)|)
  {
  }

  /**
   * handleChange always takes the new input and clears the highlight. It
   * issues one search, for the trimmed input, exactly when that is not blank
   * and onSearchLink is provided, and it leaves the cache and the discard
   * flag alone.
   */
  lemma ChangeEffect(p: Props, s: Session, v: string)
    ensures var r := HandleChange(p, s, v);
      && r.value == v && r.selectedIndex == -1
      && r.results == s.results && r.previousValue == s.previousValue
      && r.discardInputValue == s.discardInputValue
      && (r.log != s.log <==> !AllWhitespace(v) && p.hasSearchLink)
      && (r.log != s.log ==>
            && r.log == s.log + [OnSearchLink(Trim(v))]
            && r.pending == s.pending + multiset{Trim(v)}
            && Trimmed(Trim(v)))
      && (r.log == s.log ==> r.pending == s.pending)
  {
    TrimEmptyIff(v);
    TrimSpec(v);
  }

  /**
   * At most one result row is selected, and the create row is selected only
   * when no result row is.
   */
  lemma SelectedRows(s: Session)
    ensures forall i: nat, j: nat :: i < j < |DisplayedResults(s)| ==>
              !(ResultRowSelected(s, i) && ResultRowSelected(s, j))
    ensures CreateRowSelected(s) ==>
              forall i: nat :: i < |DisplayedResults(s)| ==> !ResultRowSelected(s, i)
  {
  }

  /**
   * A resolved search stores its list under its own query and makes that
   * query the fallback; no other key changes. A rejection changes neither.
   */
  lemma SearchSettles(s: Session, q: string, rs: seq<SearchResult>)
    requires q in s.pending
    ensures var r := ResolveSearch(s, q, rs);
      && r.pending == s.pending - multiset{q}
      && (s.mounted ==> q in r.results && r.results[q] == rs && r.previousValue == q)
      && (forall k :: k != q ==> (k in r.results <==> k in s.results))
      && (forall k :: k != q && k in s.results ==> r.results[k] == s.results[k])
      && (!s.mounted ==> r.results == s.results && r.previousValue == s.previousValue)
      && r.value == s.value && r.selectedIndex == s.selectedIndex && r.log == s.log
    ensures var r := ResolveSearch(s, q, rs);
      r == s.(pending := r.pending, results := r.results, previousValue := r.previousValue)
    ensures var r := RejectSearch(s, q);
      && r.results == s.results && r.previousValue == s.previousValue && r.log == s.log
      && r == s.(pending := r.pending)
  {
  }

  /**
   * Searches for different queries write different slots: resolving them in
   * either order leaves the same cache. Only previousValue, the fallback,
   * depends on which resolved last.
   */
  lemma ResolutionOrderOnlyMovesFallback(s: Session, q1: string, r1: seq<SearchResult>,
                                         q2: string, r2: seq<SearchResult>)
    requires q1 != q2 && q1 in s.pending && q2 in s.pending && s.mounted
    ensures var a := ResolveSearch(ResolveSearch(s, q1, r1), q2, r2);
      var b := ResolveSearch(ResolveSearch(s, q2, r2), q1, r1);
      a.results == b.results && a.pending == b.pending
      && a.previousValue == q2 && b.previousValue == q1
  {
    var a1 := ResolveSearch(s, q1, r1);
    assert q2 in a1.pending;
    var b1 := ResolveSearch(s, q2, r2);
    assert q1 in b1.pending;
    UpdatesCommute(s.results, q1, r1, q2, r2);
    RemovalsCommute(s.pending, q1, q2);
  }

  lemma UpdatesCommute(m: map<string, seq<SearchResult>>, k1: string, v1: seq<SearchResult>,
                       k2: string, v2: seq<SearchResult>)
    requires k1 != k2
    ensures m[k1 := v1][k2 := v2] == m[k2 := v2][k1 := v1]
  {
  }

  lemma RemovalsCommute(m: multiset<string>, a: string, b: string)
    ensures m - multiset{a} - multiset{b} == m - multiset{b} - multiset{a}
  {
  }

  /**
   * The create row is offered only when the list is shown, never for input
   * that already looks like an http(s) URL, never for the href the session
   * started with, and its title has no whitespace at either end.
   */
  lemma RenderFlags(p: Props, s: Session, selectionText: string)
    ensures ShowCreateLink(p, s, selectionText) ==> ShowResults(p, s, selectionText)
    ensures LooksLikeUrl(s.value) ==> !ShowCreateLink(p, s, selectionText)
    ensures ShowCreateLink(p, s, selectionText) ==> p.hasCreateLink && SuggestedLinkTitle(s.value, selectionText) != Href(p)
    ensures ShowResults(p, s, selectionText) ==> SuggestedLinkTitle(s.value, selectionText) != []
    ensures Trimmed(SuggestedLinkTitle(s.value, selectionText))
    ensures !AllWhitespace(s.value) ==> SuggestedLinkTitle(s.value, selectionText) == Trim(s.value)
  {
    TrimSpec(s.value);
    TrimSpec(selectionText);
    TrimEmptyIff(s.value);
  }

  /**
   * Teardown emits something exactly when no terminal action set the discard
   * flag and the input differs from the initial href; it then removes the
   * link when the input is blank and otherwise saves the trimmed input as
   * both href and title.
   */
  lemma TeardownDecision(p: Props, isUrl: string -> bool, s: Session)
    ensures var r := ComponentWillUnmount(p, isUrl, s);
      && !r.mounted
      && (r.log != s.log <==> !s.discardInputValue && s.value != Href(p))
      && (!s.discardInputValue && s.value != Href(p) && AllWhitespace(s.value) ==>
            r.log == s.log + RemoveLinkEffects(p))
      && (!s.discardInputValue && s.value != Href(p) && !AllWhitespace(s.value) ==>
            r.log == s.log + [OnSelectLink(NormalizeHref(isUrl, Trim(s.value)), Trim(s.value), p.from, p.to)])
  {
    TrimEmptyIff(s.value);
    TrimIdempotent(s.value);
  }
}
