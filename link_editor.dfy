/**
 * The LinkEditor component as an object: its state record and its
 * discardInputValue field are fields that the event handlers update in
 * place, and the calls it makes to its collaborators are recorded in a ghost
 * log instead of being performed. Each handler is proved to leave the object
 * in the session the corresponding function of module LinkSession computes,
 * and to keep the session invariant of module SessionTraces.
 */
module LinkEditorComponent {
  import opened Text
  import opened LinkSession
  import SessionTraces

  class LinkEditor {
    const props: Props
    /** The isUrl helper the component imports; it is not part of this model. */
    const isUrl: string -> bool
    const initialValue: string
    const initialSelectionLength: int

    var discardInputValue: bool
    // this.state
    var value: string
    var selectedIndex: int
    var previousValue: string
    var results: map<string, seq<SearchResult>>
    // Model bookkeeping, not fields of the component: `pending` holds the
    // queries whose searches are still in flight, `mounted` is React's mount state.
    ghost var pending: multiset<string>
    var mounted: bool
    ghost var log: seq<Effect>

    ghost function Snapshot(): Session
      reads this
    {
      Session(value, selectedIndex, previousValue, results, discardInputValue, pending, mounted, log)
    }

    ghost predicate Valid()
      reads this
    {
      && initialValue == Href(props)
      && initialSelectionLength == InitialSelectionLength(props)
      && SessionTraces.Inv(Snapshot())
    }

    constructor (props: Props, isUrl: string -> bool)
      ensures Valid() && this.props == props && this.isUrl == isUrl
      ensures Snapshot() == Init(props)
    {
      this.props := props;
      this.isUrl := isUrl;
      var href := if props.mark.Some? then props.mark.value.href else "";
      initialValue := href;
      initialSelectionLength := props.to - props.from;
      discardInputValue := false;
      value := href;
      selectedIndex := -1;
      previousValue := "";
      results := map[];
      pending := multiset{};
      mounted := true;
      log := [];
      new;
      SessionTraces.InitInv(props);
    }

    /** save(href, title). */
    method Save(href: string, title: string)
      requires Valid()
      modifies this
      ensures Valid()
      ensures Snapshot() == LinkSession.Save(props, isUrl, old(Snapshot()), href, title)
    {
      var h := Trim(href);
      if |h| == 0 {
        return;
      }
      SessionTraces.SaveKeepsInv(props, isUrl, Snapshot(), href, title);
      discardInputValue := true;
      if !isUrl(h) && !StartsWith(h, "/") {
        h := "https://" + h;
      }
      log := log + [OnSelectLink(h, title, props.from, props.to)];
    }

    /** moveSelectionToEnd. */
    method MoveSelectionToEnd()
      requires Valid()
      modifies this
      ensures Valid()
      ensures Snapshot() == LinkSession.MoveSelectionToEnd(props, old(Snapshot()))
    {
      SessionTraces.MoveKeepsInv(props, Snapshot());
      log := log + [SetCursor(props.to)];
      log := log + [Focus];
    }

    /** handleCreateLink(title). */
    method HandleCreateLink(title: string)
      requires Valid()
      modifies this
      ensures Valid()
      ensures Snapshot() == LinkSession.HandleCreateLink(props, old(Snapshot()), title)
    {
      discardInputValue := true;
      var t := Trim(title);
      if |t| == 0 {
        return;
      }
      if props.hasCreateLink {
        log := log + [OnCreateLink(t)];
      }
    }

    /** handleRemoveLink, the remove button's click handler. */
    method HandleRemoveLink()
      requires Valid()
      modifies this
      ensures Valid()
      ensures Snapshot() == LinkSession.HandleRemoveLink(props, old(Snapshot()))
    {
      discardInputValue := true;
      if props.mark.Some? {
        log := log + [RemoveMark(props.from, props.to, props.mark.value)];
      }
      if props.hasRemoveLink {
        log := log + [OnRemoveLink];
      }
      log := log + [Focus];
      assert log == old(log) + RemoveLinkEffects(props);
    }

    /** componentWillUnmount. */
    method ComponentWillUnmount()
      requires Valid() && mounted
      modifies this
      ensures Valid()
      ensures Snapshot() == LinkSession.ComponentWillUnmount(props, isUrl, old(Snapshot()))
    {
      SessionTraces.UnmountKeepsInv(props, isUrl, Snapshot());
      mounted := false;
      if discardInputValue {
        return;
      }
      if value == initialValue {
        return;
      }
      var href := Trim(value);
      if |href| == 0 {
        HandleRemoveLink();
        return;
      }
      Save(href, href);
    }

    /** handleChange up to its await: the search for the trimmed input is issued. */
    method HandleChange(v: string)
      requires Valid() && mounted
      modifies this
      ensures Valid()
      ensures Snapshot() == LinkSession.HandleChange(props, old(Snapshot()), v)
    {
      ghost var next := LinkSession.HandleChange(props, Snapshot(), v);
      SessionTraces.ChangeKeepsInv(props, Snapshot(), v);
      value, selectedIndex := v, -1;
      var trimmedValue := Trim(v);
      if |trimmedValue| > 0 && props.hasSearchLink {
        pending := pending + multiset{trimmedValue};
        log := log + [OnSearchLink(trimmedValue)];
      }
      assert Snapshot() == next;
    }

    /** The continuation of handleChange once onSearchLink(q) resolves with found. */
    method ResolveSearch(q: string, found: seq<SearchResult>)
      requires Valid() && q in pending
      modifies this
      ensures Valid()
      ensures Snapshot() == LinkSession.ResolveSearch(old(Snapshot()), q, found)
    {
      pending := pending - multiset{q};
      if mounted {
        results := results[q := found];
        previousValue := q;
      }
    }

    /** The catch branch of handleChange: nothing but the console sees the error. */
    method RejectSearch(q: string)
      requires Valid() && q in pending
      modifies this
      ensures Valid()
      ensures Snapshot() == LinkSession.RejectSearch(old(Snapshot()), q)
    {
      pending := pending - multiset{q};
    }

    /**
     * handleKeyDown. selectionText is the text under the editor's selection,
     * read by the suggestedLinkTitle getter when Enter takes the create branch.
     */
    method HandleKeyDown(key: Key, shift: bool, selectionText: string)
      requires Valid() && mounted
      modifies this
      ensures Valid()
      ensures Snapshot() == LinkSession.HandleKeyDown(props, isUrl, old(Snapshot()), key, shift, selectionText)
    {
      SessionTraces.KeyDownKeepsInv(props, isUrl, Snapshot(), key, shift, selectionText);
      match key
      case Enter =>
        var found := if value in results then results[value] else [];
        if selectedIndex >= 0 {
          if selectedIndex < |found| {
            Save(found[selectedIndex].url, found[selectedIndex].title);
          } else if props.hasCreateLink && selectedIndex == |found| {
            HandleCreateLink(SuggestedLinkTitle(value, selectionText));
          }
        } else {
          Save(value, value);
        }
        if initialSelectionLength != 0 {
          MoveSelectionToEnd();
        }
      case Escape =>
        if initialValue != "" {
          value := initialValue;
          MoveSelectionToEnd();
        } else {
          HandleRemoveLink();
        }
      case ArrowUp =>
        if !shift {
          var prevIndex := selectedIndex - 1;
          selectedIndex := if prevIndex < -1 then -1 else prevIndex;
        }
      case ArrowDown =>
        if !shift {
          MoveDown();
        }
      case Tab =>
        MoveDown();
      case OtherKey =>
    }

    /** The shared ArrowDown/Tab branch of handleKeyDown. */
    method MoveDown()
      requires Valid()
      modifies this
      ensures Valid()
      ensures Snapshot() == LinkSession.MoveDown(old(Snapshot()))
    {
      var total := if value in results then |results[value]| else 0;
      var nextIndex := selectedIndex + 1;
      selectedIndex := if nextIndex < total then nextIndex else total;
    }

    /** handleFocusLink(i), called with the index of the row the mouse entered. */
    method HandleFocusLink(i: int)
      requires Valid() && mounted && 0 <= i
      modifies this
      ensures Valid()
      ensures Snapshot() == LinkSession.HandleFocusLink(old(Snapshot()), i)
    {
      selectedIndex := i;
    }

    /** handleSelectLink(url, title): a click on a result row. */
    method HandleSelectLink(url: string, title: string)
      requires Valid() && mounted
      modifies this
      ensures Valid()
      ensures Snapshot() == LinkSession.HandleSelectLink(props, isUrl, old(Snapshot()), url, title)
    {
      Save(url, title);
      if initialSelectionLength != 0 {
        MoveSelectionToEnd();
      }
    }

    /** A click on the create row. */
    method ClickCreateRow(selectionText: string)
      requires Valid() && mounted
      modifies this
      ensures Valid()
      ensures Snapshot() == LinkSession.ClickCreateRow(props, old(Snapshot()), selectionText)
    {
      HandleCreateLink(SuggestedLinkTitle(value, selectionText));
      if initialSelectionLength != 0 {
        MoveSelectionToEnd();
      }
    }

    /** handleOpenLink: the open button, enabled while the input is non-empty. */
    method HandleOpenLink()
      requires Valid() && mounted && value != ""
      modifies this
      ensures Valid()
      ensures Snapshot() == LinkSession.HandleOpenLink(props, old(Snapshot()))
    {
      SessionTraces.QuietStep(Snapshot(), LinkSession.HandleOpenLink(props, Snapshot()));
      log := log + [OnClickLink(initialValue)];
    }
  }
}
