/**
 * Whole sessions: the events that can reach one instance, when each can
 * happen, and what holds of every sequence of them. Searches settle as
 * separate events in any order after they were issued.
 */
module SessionTraces {
  import opened Options
  import opened Text
  import opened LinkSession

  datatype Event =
    | InputChanged(text: string)
    | SearchResolved(query: string, found: seq<SearchResult>)
    | SearchRejected(query: string)
    | KeyPressed(key: Key, shift: bool, selectionText: string)
    | RowHovered(index: int, selectionText: string)
    | ResultClicked(index: int, selectionText: string)
    | CreateRowClicked(selectionText: string)
    | RemoveClicked
    | OpenClicked
    | Unmounted

  /**
   * When an event can occur: user events only while mounted, mouse events
   * only on rows render shows, the open button only while the input is
   * non-empty, and a search settles only after it was issued.
   */
  predicate Enabled(p: Props, s: Session, e: Event) {
    match e
    case SearchResolved(q, _) => q in s.pending
    case SearchRejected(q) => q in s.pending
    case RowHovered(i, t) =>
      && s.mounted && ShowResults(p, s, t) && 0 <= i
      && (i < |DisplayedResults(s)| || (i == |DisplayedResults(s)| && ShowCreateLink(p, s, t)))
    case ResultClicked(i, t) => s.mounted && ShowResults(p, s, t) && 0 <= i < |DisplayedResults(s)|
    case CreateRowClicked(t) => s.mounted && ShowResults(p, s, t) && ShowCreateLink(p, s, t)
    case OpenClicked => s.mounted && s.value != []
    case _ => s.mounted
  }

  function Step(p: Props, isUrl: string -> bool, s: Session, e: Event): Session
    requires Enabled(p, s, e)
  {
    match e
    case InputChanged(v) => HandleChange(p, s, v)
    case SearchResolved(q, rs) => ResolveSearch(s, q, rs)
    case SearchRejected(q) => RejectSearch(s, q)
    case KeyPressed(k, shift, t) => HandleKeyDown(p, isUrl, s, k, shift, t)
    case RowHovered(i, _) => HandleFocusLink(s, i)
    case ResultClicked(i, _) =>
      var row := DisplayedResults(s)[i];
      HandleSelectLink(p, isUrl, s, row.url, row.title)
    case CreateRowClicked(t) => ClickCreateRow(p, s, t)
    case RemoveClicked => HandleRemoveLink(p, s)
    case OpenClicked => HandleOpenLink(p, s)
    case Unmounted => ComponentWillUnmount(p, isUrl, s)
  }

  /** Every event of es can occur in turn, starting from s. */
  predicate ValidTrace(p: Props, isUrl: string -> bool, s: Session, es: seq<Event>)
    decreases |es|
  {
    es == [] || (Enabled(p, s, es[0]) && ValidTrace(p, isUrl, Step(p, isUrl, s, es[0]), es[1..]))
  }

  function Run(p: Props, isUrl: string -> bool, s: Session, es: seq<Event>): Session
    requires ValidTrace(p, isUrl, s, es)
    decreases |es|
  {
    if es == [] then s else Run(p, isUrl, Step(p, isUrl, s, es[0]), es[1..])
  }

  /**
   * What every reachable session satisfies: the index is never below -1, a
   * session that has committed has its discard flag set (so teardown will not
   * commit again), and the cache and the in-flight searches are keyed by
   * trimmed, non-empty queries, one of which is the fallback when it is set.
   */
  predicate Inv(s: Session) {
    && s.selectedIndex >= -1
    && (Committed(s.log) ==> s.discardInputValue)
    && (forall q :: q in s.pending ==> q != [] && Trimmed(q))
    && (forall q :: q in s.results ==> q != [] && Trimmed(q))
    && (s.previousValue == [] || s.previousValue in s.results)
  }

  lemma InitInv(p: Props)
    ensures Inv(Init(p)) && Init(p).value == Href(p) && Init(p).selectedIndex == -1
  {
  }

  /** Appending effects none of which commits leaves Committed as it was. */
  lemma CommittedAppend(log: seq<Effect>, more: seq<Effect>)
    requires forall k :: 0 <= k < |more| ==> !IsCommit(more[k])
    ensures Committed(log + more) == Committed(log)
  {
    if Committed(log + more) {
      var k :| 0 <= k < |log + more| && IsCommit((log + more)[k]);
      assert k < |log| && IsCommit(log[k]);
    }
    if Committed(log) {
      var k :| 0 <= k < |log| && IsCommit(log[k]);
      assert IsCommit((log + more)[k]);
    }
  }

  /** An event that adds no committing effect and clears no flag keeps the commit clause. */
  lemma QuietStep(s: Session, r: Session)
    requires Inv(s)
    requires |s.log| <= |r.log| && r.log[..|s.log|] == s.log
    requires forall k :: |s.log| <= k < |r.log| ==> !IsCommit(r.log[k])
    requires s.discardInputValue ==> r.discardInputValue
    ensures Committed(r.log) ==> r.discardInputValue
  {
    var more := r.log[|s.log|..];
    assert r.log == s.log + more;
    CommittedAppend(s.log, more);
  }

  lemma SaveKeepsInv(p: Props, isUrl: string -> bool, s: Session, href: string, title: string)
    requires Inv(s)
    ensures Inv(Save(p, isUrl, s, href, title))
  {
  }

  lemma MoveKeepsInv(p: Props, s: Session)
    requires Inv(s)
    ensures Inv(MoveSelectionToEnd(p, s)) && Inv(MoveIfRangeWasSelected(p, s))
  {
    QuietStep(s, MoveSelectionToEnd(p, s));
  }

  lemma EnterKeepsInv(p: Props, isUrl: string -> bool, s: Session, t: string)
    requires Inv(s)
    ensures Inv(PressEnter(p, isUrl, s, t))
  {
    var results := KeyboardResults(s);
    var i := s.selectedIndex;
    var committed: Session;
    if i >= 0 && i < |results| {
      committed := Save(p, isUrl, s, results[i].url, results[i].title);
      SaveKeepsInv(p, isUrl, s, results[i].url, results[i].title);
    } else if i >= 0 && p.hasCreateLink && i == |results| {
      committed := HandleCreateLink(p, s, SuggestedLinkTitle(s.value, t));
    } else if i >= 0 {
      committed := s;
    } else {
      committed := Save(p, isUrl, s, s.value, s.value);
      SaveKeepsInv(p, isUrl, s, s.value, s.value);
    }
    assert PressEnter(p, isUrl, s, t) == MoveIfRangeWasSelected(p, committed);
    MoveKeepsInv(p, committed);
  }

  lemma KeyDownKeepsInv(p: Props, isUrl: string -> bool, s: Session, k: Key, shift: bool, t: string)
    requires Inv(s)
    ensures Inv(HandleKeyDown(p, isUrl, s, k, shift, t))
  {
    match k
    case Enter => EnterKeepsInv(p, isUrl, s, t);
    case Escape =>
      if Href(p) != [] {
        QuietStep(s, PressEscape(p, s));
      }
    case _ =>
  }

  lemma ChangeKeepsInv(p: Props, s: Session, v: string)
    requires Inv(s)
    ensures Inv(HandleChange(p, s, v))
  {
    var r := HandleChange(p, s, v);
    var q := Trim(v);
    TrimSpec(v);
    if q != [] && p.hasSearchLink {
      assert r.log == s.log + [OnSearchLink(q)];
      forall x | x in r.pending ensures x != [] && Trimmed(x) {
        assert x == q || x in s.pending;
      }
    }
    QuietStep(s, r);
  }

  lemma UnmountKeepsInv(p: Props, isUrl: string -> bool, s: Session)
    requires Inv(s)
    ensures Inv(ComponentWillUnmount(p, isUrl, s))
  {
    var gone := s.(mounted := false);
    if !s.discardInputValue && s.value != Href(p) && Trim(s.value) != [] {
      SaveKeepsInv(p, isUrl, gone, Trim(s.value), Trim(s.value));
    }
  }

  lemma StepPreservesInv(p: Props, isUrl: string -> bool, s: Session, e: Event)
    requires Inv(s) && Enabled(p, s, e)
    ensures Inv(Step(p, isUrl, s, e))
  {
    match e
    case InputChanged(v) => ChangeKeepsInv(p, s, v);
    case SearchResolved(q, rs) =>
    case SearchRejected(q) =>
    case KeyPressed(k, shift, t) => KeyDownKeepsInv(p, isUrl, s, k, shift, t);
    case RowHovered(i, _) =>
    case ResultClicked(i, _) =>
      var row := DisplayedResults(s)[i];
      SaveKeepsInv(p, isUrl, s, row.url, row.title);
      MoveKeepsInv(p, Save(p, isUrl, s, row.url, row.title));
    case CreateRowClicked(t) =>
      MoveKeepsInv(p, HandleCreateLink(p, s, SuggestedLinkTitle(s.value, t)));
    case RemoveClicked =>
    case OpenClicked => QuietStep(s, HandleOpenLink(p, s));
    case Unmounted => UnmountKeepsInv(p, isUrl, s);
  }

  lemma {:induction false} RunPreservesInv(p: Props, isUrl: string -> bool, s: Session, es: seq<Event>)
    requires Inv(s) && ValidTrace(p, isUrl, s, es)
    ensures Inv(Run(p, isUrl, s, es))
    decreases |es|
  {
    if es != [] {
      StepPreservesInv(p, isUrl, s, es[0]);
      RunPreservesInv(p, isUrl, Step(p, isUrl, s, es[0]), es[1..]);
    }
  }

  /**
   * The discard flag gates teardown: once any event of a session has
   * written, created or removed a link, unmounting emits nothing.
   */
  lemma TeardownAfterCommitIsQuiet(p: Props, isUrl: string -> bool, es: seq<Event>)
    requires ValidTrace(p, isUrl, Init(p), es)
    requires Committed(Run(p, isUrl, Init(p), es).log)
    ensures var s := Run(p, isUrl, Init(p), es);
      ComponentWillUnmount(p, isUrl, s).log == s.log
  {
    InitInv(p);
    RunPreservesInv(p, isUrl, Init(p), es);
  }

  /**
   * Keys are looked up untrimmed by the keyboard handlers, and the cache
   * holds only trimmed queries: while the input has whitespace at either end
   * the keyboard sees no results, so ArrowDown and Tab can only reach index 0
   * and Enter at index 0 takes the create branch.
   */
  lemma UntrimmedInputHidesResultsFromKeys(s: Session)
    requires Inv(s) && !Trimmed(s.value)
    ensures KeyboardResults(s) == []
    ensures MoveDown(s).selectedIndex <= 0
  {
  }

  /**
   * The display-time fallback: while the search for a newly typed query is
   * in flight, the list of the last settled search stays shown.
   */
  lemma FallbackShownWhileSearching(p: Props, s: Session, v: string)
    requires Inv(s) && s.previousValue != [] && Trim(v) !in s.results
    ensures DisplayedResults(HandleChange(p, s, v)) == s.results[s.previousValue]
  {
  }

  /** Once the search for the current trimmed input settles, its list is shown. */
  lemma SettledQueryShown(s: Session, rs: seq<SearchResult>)
    requires s.mounted && Trim(s.value) in s.pending
    ensures DisplayedResults(ResolveSearch(s, Trim(s.value), rs)) == rs
  {
  }

  /**
   * A search for another query that settles late does not replace the list
   * of the current input: what is shown depends on the input, not on the
   * order in which searches settle.
   */
  lemma LateResolveKeepsDisplay(s: Session, q: string, rs: seq<SearchResult>)
    requires q in s.pending && q != Trim(s.value) && Trim(s.value) in s.results
    ensures DisplayedResults(ResolveSearch(s, q, rs)) == DisplayedResults(s)
  {
  }

  /** A press of one of the keys handleKeyDown moves the highlight with. */
  predicate IsArrowPress(e: Event) {
    e.KeyPressed? && (e.key == ArrowUp || e.key == ArrowDown || e.key == Tab)
  }

  /**
   * However the arrow keys and Tab are pressed, with or without Shift, an
   * index that starts within [-1, N] stays there, N being the length of the
   * keyboard list, and nothing but the index changes.
   */
  lemma {:induction false} NavigationStaysInRange(p: Props, isUrl: string -> bool, s: Session, es: seq<Event>)
    requires s.mounted && -1 <= s.selectedIndex <= |KeyboardResults(s)|
    requires forall i :: 0 <= i < |es| ==> IsArrowPress(es[i])
    ensures ValidTrace(p, isUrl, s, es)
    ensures var r := Run(p, isUrl, s, es);
      && -1 <= r.selectedIndex <= |KeyboardResults(s)|
      && r == s.(selectedIndex := r.selectedIndex)
    decreases |es|
  {
    if es != [] {
      var e := es[0];
      assert IsArrowPress(e);
      var next := Step(p, isUrl, s, e);
      ArrowKeysClamp(s);
      assert next == s.(selectedIndex := next.selectedIndex);
      NavigationStaysInRange(p, isUrl, next, es[1..]);
      assert es == [e] + es[1..];
      RunStep(p, isUrl, s, e, es[1..]);
    }
  }

  // ---------------------------------------------------------------------
  // Particular sessions
  // ---------------------------------------------------------------------

  lemma RunStep(p: Props, isUrl: string -> bool, s: Session, e: Event, rest: seq<Event>)
    requires Enabled(p, s, e) && ValidTrace(p, isUrl, Step(p, isUrl, s, e), rest)
    ensures ValidTrace(p, isUrl, s, [e] + rest)
    ensures Run(p, isUrl, s, [e] + rest) == Run(p, isUrl, Step(p, isUrl, s, e), rest)
  {
    assert ([e] + rest)[1..] == rest;
  }

  lemma RunEmpty(p: Props, isUrl: string -> bool, s: Session)
    ensures ValidTrace(p, isUrl, s, []) && Run(p, isUrl, s, []) == s
  {
  }

  lemma RunTwo(p: Props, isUrl: string -> bool, s: Session, e1: Event, e2: Event)
    requires Enabled(p, s, e1) && Enabled(p, Step(p, isUrl, s, e1), e2)
    ensures ValidTrace(p, isUrl, s, [e1, e2])
    ensures Run(p, isUrl, s, [e1, e2]) == Step(p, isUrl, Step(p, isUrl, s, e1), e2)
  {
    var s1 := Step(p, isUrl, s, e1);
    RunEmpty(p, isUrl, Step(p, isUrl, s1, e2));
    RunStep(p, isUrl, s1, e2, []);
    RunStep(p, isUrl, s, e1, [e2]);
    assert [e1, e2] == [e1] + [e2];
  }

  lemma RunThree(p: Props, isUrl: string -> bool, s: Session, e1: Event, e2: Event, e3: Event)
    requires Enabled(p, s, e1)
    requires Enabled(p, Step(p, isUrl, s, e1), e2)
    requires Enabled(p, Step(p, isUrl, Step(p, isUrl, s, e1), e2), e3)
    ensures ValidTrace(p, isUrl, s, [e1, e2, e3])
    ensures Run(p, isUrl, s, [e1, e2, e3]) == Step(p, isUrl, Step(p, isUrl, Step(p, isUrl, s, e1), e2), e3)
  {
    var s1 := Step(p, isUrl, s, e1);
    RunTwo(p, isUrl, s1, e2, e3);
    RunStep(p, isUrl, s, e1, [e2, e3]);
    assert [e1, e2, e3] == [e1] + [e2, e3];
  }

  lemma RunFour(p: Props, isUrl: string -> bool, s: Session, e1: Event, e2: Event, e3: Event, e4: Event)
    requires Enabled(p, s, e1)
    requires Enabled(p, Step(p, isUrl, s, e1), e2)
    requires Enabled(p, Step(p, isUrl, Step(p, isUrl, s, e1), e2), e3)
    requires Enabled(p, Step(p, isUrl, Step(p, isUrl, Step(p, isUrl, s, e1), e2), e3), e4)
    ensures ValidTrace(p, isUrl, s, [e1, e2, e3, e4])
    ensures Run(p, isUrl, s, [e1, e2, e3, e4])
            == Step(p, isUrl, Step(p, isUrl, Step(p, isUrl, Step(p, isUrl, s, e1), e2), e3), e4)
  {
    var s1 := Step(p, isUrl, s, e1);
    RunThree(p, isUrl, s1, e2, e3, e4);
    RunStep(p, isUrl, s, e1, [e2, e3, e4]);
    assert [e1, e2, e3, e4] == [e1] + [e2, e3, e4];
  }

  /**
   * Searches for q1 and then q2 are issued and q1 settles last: each list
   * lands under its own query, the list shown is the one for the current
   * input q2, and only the fallback points at the late q1.
   */
  lemma OverlappingSearches(p: Props, isUrl: string -> bool, s: Session, q1: string, q2: string,
                            r1: seq<SearchResult>, r2: seq<SearchResult>)
    requires s.mounted && p.hasSearchLink
    requires q1 != q2 && q1 != [] && q2 != [] && Trimmed(q1) && Trimmed(q2)
    ensures var es := [InputChanged(q1), InputChanged(q2), SearchResolved(q2, r2), SearchResolved(q1, r1)];
      && ValidTrace(p, isUrl, s, es)
      && var r := Run(p, isUrl, s, es);
         && r.value == q2 && q1 in r.results && q2 in r.results
         && r.results[q1] == r1 && r.results[q2] == r2
         && r.previousValue == q1
         && DisplayedResults(r) == r2
  {
    TrimOfTrimmed(q1);
    TrimOfTrimmed(q2);
    var e1, e2, e3, e4 := InputChanged(q1), InputChanged(q2), SearchResolved(q2, r2), SearchResolved(q1, r1);
    var s1 := s.(value := q1, selectedIndex := -1, pending := s.pending + multiset{q1},
                 log := s.log + [OnSearchLink(q1)]);
    assert Step(p, isUrl, s, e1) == s1;
    var s2 := s1.(value := q2, pending := s1.pending + multiset{q2}, log := s1.log + [OnSearchLink(q2)]);
    assert Step(p, isUrl, s1, e2) == s2;
    assert q2 in s2.pending && q1 in s2.pending;
    var s3 := s2.(pending := s2.pending - multiset{q2}, results := s2.results[q2 := r2], previousValue := q2);
    assert Step(p, isUrl, s2, e3) == s3;
    assert q1 in s3.pending;
    var s4 := s3.(pending := s3.pending - multiset{q1}, results := s3.results[q1 := r1], previousValue := q1);
    assert Step(p, isUrl, s3, e4) == s4;
    RunFour(p, isUrl, s, e1, e2, e3, e4);
  }

  /**
   * With whitespace at an end of the input the list is shown (under the
   * trimmed query) and ArrowDown highlights its first row, yet the keyboard
   * handlers find no results under the untrimmed input, so Enter creates a
   * new document instead of linking the highlighted result.
   */
  lemma EnterIgnoresHighlightedResult(p: Props, isUrl: string -> bool, v: string, found: SearchResult)
    requires p.from == p.to && p.hasCreateLink && p.hasSearchLink
    requires v != Trim(v) && !AllWhitespace(v)
    ensures var es := [InputChanged(v), SearchResolved(Trim(v), [found]), KeyPressed(ArrowDown, false, "")];
      && ValidTrace(p, isUrl, Init(p), es)
      && var s := Run(p, isUrl, Init(p), es);
         && DisplayedResults(s) == [found] && ResultRowSelected(s, 0)
         && PressEnter(p, isUrl, s, "").log == s.log + [OnCreateLink(Trim(v))]
  {
    HighlightFirstShownResult(p, isUrl, v, found);
    var es := [InputChanged(v), SearchResolved(Trim(v), [found]), KeyPressed(ArrowDown, false, "")];
    EnterCreatesPastEmptyList(p, isUrl, Run(p, isUrl, Init(p), es));
  }

  /** The first three events of EnterIgnoresHighlightedResult, and the session they leave. */
  lemma HighlightFirstShownResult(p: Props, isUrl: string -> bool, v: string, found: SearchResult)
    requires p.hasSearchLink
    requires v != Trim(v) && !AllWhitespace(v)
    ensures var es := [InputChanged(v), SearchResolved(Trim(v), [found]), KeyPressed(ArrowDown, false, "")];
      && ValidTrace(p, isUrl, Init(p), es)
      && var s := Run(p, isUrl, Init(p), es);
         && s.value == v && s.selectedIndex == 0 && KeyboardResults(s) == []
         && DisplayedResults(s) == [found]
  {
    var q := Trim(v);
    TrimEmptyIff(v);
    var e1, e2, e3 := InputChanged(v), SearchResolved(q, [found]), KeyPressed(ArrowDown, false, "");
    var s1 := Step(p, isUrl, Init(p), e1);
    var s2 := Step(p, isUrl, s1, e2);
    assert s2.value == v && s2.results == map[q := [found]];
    assert v !in s2.results;
    assert KeyboardResults(s2) == [];
    ArrowDownStep(p, isUrl, s2, "");
    RunThree(p, isUrl, Init(p), e1, e2, e3);
  }

  lemma ArrowDownStep(p: Props, isUrl: string -> bool, s: Session, t: string)
    requires s.mounted
    ensures Enabled(p, s, KeyPressed(ArrowDown, false, t))
    ensures Step(p, isUrl, s, KeyPressed(ArrowDown, false, t)) == MoveDown(s)
  {
  }

  /** Enter at index 0 over an empty keyboard list takes the create branch. */
  lemma EnterCreatesPastEmptyList(p: Props, isUrl: string -> bool, s: Session)
    requires p.from == p.to && p.hasCreateLink
    requires s.selectedIndex == 0 && KeyboardResults(s) == [] && !AllWhitespace(s.value)
    ensures PressEnter(p, isUrl, s, "").log == s.log + [OnCreateLink(Trim(s.value))]
  {
    TrimEmptyIff(s.value);
    TrimIdempotent(s.value);
    var title := SuggestedLinkTitle(s.value, "");
    assert title == Trim(s.value);
    var created := HandleCreateLink(p, s, title);
    assert created.log == s.log + [OnCreateLink(Trim(s.value))];
    assert PressEnter(p, isUrl, s, "") == MoveIfRangeWasSelected(p, created);
  }

  /**
   * The index is not confined to [-1, N] for the keyboard list's length N:
   * with whitespace at an end of the input, hovering the create row below
   * the results shown for the trimmed input leaves the index past the end of
   * the (empty) keyboard list.
   */
  lemma IndexCanPassKeyboardList(p: Props, isUrl: string -> bool, v: string, found: SearchResult)
    requires p.mark == None && p.hasCreateLink && p.hasSearchLink
    requires v != Trim(v) && !AllWhitespace(v) && !LooksLikeUrl(v)
    ensures var es := [InputChanged(v), SearchResolved(Trim(v), [found]), RowHovered(1, "")];
      && ValidTrace(p, isUrl, Init(p), es)
      && var s := Run(p, isUrl, Init(p), es);
         s.selectedIndex == 1 > |KeyboardResults(s)| == 0 && CreateRowSelected(s)
  {
    var q := Trim(v);
    TrimEmptyIff(v);
    var e1, e2, e3 := InputChanged(v), SearchResolved(q, [found]), RowHovered(1, "");
    var s1 := Step(p, isUrl, Init(p), e1);
    var s2 := Step(p, isUrl, s1, e2);
    assert s2.value == v && s2.results == map[q := [found]];
    assert DisplayedResults(s2) == [found];
    assert ShowCreateLink(p, s2, "");
    RunThree(p, isUrl, Init(p), e1, e2, e3);
  }

  /**
   * A session opened over the range [0, 8) with no link: typing "acme.com"
   * and closing the popover without Enter saves it once, behind https://.
   */
  lemma TeardownSavesTypedHost(isUrl: string -> bool)
    requires !isUrl("acme.com")
    ensures var p := Props(0, 8, None, false, false, false);
      var es := [InputChanged("acme.com"), Unmounted];
      && ValidTrace(p, isUrl, Init(p), es)
      && Run(p, isUrl, Init(p), es).log == [OnSelectLink("https://acme.com", "acme.com", 0, 8)]
  {
    var p := Props(0, 8, None, false, false, false);
    var v := "acme.com";
    TrimOfTrimmed(v);
    assert !StartsWith(v, "/");
    var e1, e2 := InputChanged(v), Unmounted;
    var s1 := Step(p, isUrl, Init(p), e1);
    assert s1 == Init(p).(value := v);
    assert NormalizeHref(isUrl, v) == "https://acme.com";
    var s2 := Step(p, isUrl, s1, e2);
    assert s2 == Save(p, isUrl, s1.(mounted := false), v, v);
    assert s2.log == [OnSelectLink("https://acme.com", v, 0, 8)];
    RunTwo(p, isUrl, Init(p), e1, e2);
  }

  /**
   * Enter with nothing highlighted saves the raw input: typing "docs" over
   * an empty range and pressing Enter links "https://docs" titled "docs".
   */
  lemma EnterSavesRawInput(isUrl: string -> bool)
    requires !isUrl("docs")
    ensures var p := Props(3, 3, None, false, false, false);
      var es := [InputChanged("docs"), KeyPressed(Enter, false, "")];
      && ValidTrace(p, isUrl, Init(p), es)
      && Run(p, isUrl, Init(p), es).log == [OnSelectLink("https://docs", "docs", 3, 3)]
  {
    var p := Props(3, 3, None, false, false, false);
    assert Trim("docs") == "docs";
    assert !StartsWith("docs", "/");
    var e1, e2 := InputChanged("docs"), KeyPressed(Enter, false, "");
    var s1 := Step(p, isUrl, Init(p), e1);
    assert s1.log == [] && s1.value == "docs" && s1.selectedIndex == -1;
    assert NormalizeHref(isUrl, "docs") == "https://docs";
    var s2 := Step(p, isUrl, s1, e2);
    assert s2 == PressEnter(p, isUrl, s1, "");
    assert s2 == Save(p, isUrl, s1, "docs", "docs");
    assert s2.log == [OnSelectLink("https://docs", "docs", 3, 3)];
    RunTwo(p, isUrl, Init(p), e1, e2);
  }
}
