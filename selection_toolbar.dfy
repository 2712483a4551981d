/**
 * The SelectionToolbar component: whether the floating toolbar is active,
 * which menu it offers, when it hands the selection to a LinkEditor, and the
 * two callbacks it gives that editor, which replace the link mark over a
 * range of the document.
 *
 * The document is a sequence of inline positions, each carrying at most one
 * link mark (the link mark excludes itself) and a set of other marks.
 */
module Toolbar {
  import opened Options
  import LinkSession

  datatype Position = Position(ch: char, link: Option<string>, otherMarks: set<string>)

  /** Sets the link of every position in [from, to) to link; the rest is untouched. */
  function Relink(doc: seq<Position>, from: int, to: int, link: Option<string>): (r: seq<Position>)
    ensures |r| == |doc|
    ensures forall i :: 0 <= i < |r| ==>
              r[i] == if from <= i < to then doc[i].(link := link) else doc[i]
    decreases |doc|
  {
    if doc == [] then []
    else
      var first := if from <= 0 < to then doc[0].(link := link) else doc[0];
      [first] + Relink(doc[1..], from - 1, to - 1, link)
  }

  /** tr.removeMark(from, to, markType) for the link mark type. */
  function RemoveLinkMark(doc: seq<Position>, from: int, to: int): seq<Position> {
    Relink(doc, from, to, None)
  }

  /** tr.addMark(from, to, markType.create({ href })) for the link mark type. */
  function AddLinkMark(doc: seq<Position>, from: int, to: int, href: string): seq<Position> {
    Relink(doc, from, to, Some(href))
  }

  /** The transaction both callbacks dispatch: remove the link mark, then add one. */
  function ReplaceLinkMark(doc: seq<Position>, from: int, to: int, href: string): seq<Position> {
    AddLinkMark(RemoveLinkMark(doc, from, to), from, to, href)
  }

  /**
   * After the replacement every position of the range carries exactly the
   * new link, keeps its character and its other marks, and every position
   * outside the range is unchanged.
   */
  lemma ReplaceLinkMarkSpec(doc: seq<Position>, from: int, to: int, href: string)
    ensures var r := ReplaceLinkMark(doc, from, to, href);
      && |r| == |doc|
      && (forall i :: 0 <= i < |r| && from <= i < to ==>
            r[i].link == Some(href) && r[i].ch == doc[i].ch && r[i].otherMarks == doc[i].otherMarks)
      && (forall i :: 0 <= i < |r| && !(from <= i < to) ==> r[i] == doc[i])
  {
  }

  /** Replacing twice with the same href is the same as replacing once. */
  lemma ReplaceLinkMarkIdempotent(doc: seq<Position>, from: int, to: int, href: string)
    ensures var once := ReplaceLinkMark(doc, from, to, href);
      ReplaceLinkMark(once, from, to, href) == once
  {
    var once := ReplaceLinkMark(doc, from, to, href);
    var twice := ReplaceLinkMark(once, from, to, href);
    assert |twice| == |once|;
    forall i | 0 <= i < |once| ensures twice[i] == once[i] {
    }
  }

  /**
   * The outcome does not depend on the links the range carried before: two
   * documents that differ only in the links inside [from, to) end up equal.
   */
  lemma ReplaceLinkMarkForgetsOldLinks(d1: seq<Position>, d2: seq<Position>, from: int, to: int, href: string)
    requires |d1| == |d2|
    requires forall i :: 0 <= i < |d1| && from <= i < to ==> d1[i].(link := None) == d2[i].(link := None)
    requires forall i :: 0 <= i < |d1| && !(from <= i < to) ==> d1[i] == d2[i]
    ensures ReplaceLinkMark(d1, from, to, href) == ReplaceLinkMark(d2, from, to, href)
  {
    var r1 := ReplaceLinkMark(d1, from, to, href);
    var r2 := ReplaceLinkMark(d2, from, to, href);
    forall i | 0 <= i < |r1| ensures r1[i] == r2[i] {
      if from <= i < to {
        assert r1[i] == d1[i].(link := None).(link := Some(href));
        assert r2[i] == d2[i].(link := None).(link := Some(href));
      }
    }
  }

  /** The fixed text around the title in the href of a link being created. */
  const PlaceholderPrefix: string := "creating#"
  /** U+2026 as UTF-8 bytes read back as Windows-1252: three characters. */
  const PlaceholderSuffix: string := "\U{00E2}\U{20AC}\U{00A6}"

  function PlaceholderHref(title: string): string {
    PlaceholderPrefix + title + PlaceholderSuffix
  }

  /** Recovers the title from a placeholder href, None for any other href. */
  function PlaceholderTitle(href: string): Option<string> {
    var n := |PlaceholderPrefix|;
    var m := |PlaceholderSuffix|;
    if |href| >= n + m && href[..n] == PlaceholderPrefix && href[|href| - m..] == PlaceholderSuffix
    then Some(href[n..|href| - m])
    else None
  }

  lemma PlaceholderRoundTrip(title: string)
    ensures PlaceholderTitle(PlaceholderHref(title)) == Some(title)
  {
    var h := PlaceholderHref(title);
    assert h[..9] == PlaceholderPrefix;
    assert h[|h| - 3..] == PlaceholderSuffix;
    assert h[9..|h| - 3] == title;
  }

  lemma PlaceholderTitleSound(href: string, title: string)
    requires PlaceholderTitle(href) == Some(title)
    ensures href == PlaceholderHref(title)
  {
    var n := |href|;
    assert href == href[..9] + href[9..n - 3] + href[n - 3..];
  }

  /** Distinct titles never share a placeholder link. */
  lemma PlaceholderInjective(t1: string, t2: string)
    requires PlaceholderHref(t1) == PlaceholderHref(t2)
    ensures t1 == t2
  {
    PlaceholderRoundTrip(t1);
    PlaceholderRoundTrip(t2);
  }

  /**
   * The editor selection as isActive sees it: whether it is empty, whether
   * it is a node selection, and the content size of each top-level node of
   * the selected slice.
   */
  datatype Selection = Selection(empty: bool, isNode: bool, topLevelSizes: seq<nat>)

  /** lodash some(nodes, n => n.content.size): a size of 0 is falsy. */
  function AnyNonEmpty(sizes: seq<nat>): (r: bool)
    ensures r <==> exists i :: 0 <= i < |sizes| && sizes[i] != 0
  {
    if sizes == [] then false
    else if sizes[0] != 0 then true
    else
      var rest := AnyNonEmpty(sizes[1..]);
      assert forall i :: 1 <= i < |sizes| ==> sizes[i] == sizes[1..][i - 1];
      rest
  }

  /** isActive: a missing, empty or node selection is inactive. */
  function IsActive(sel: Option<Selection>): (r: bool)
    ensures r <==> sel.Some? && !sel.value.empty && !sel.value.isNode
                   && exists i :: 0 <= i < |sel.value.topLevelSizes| && sel.value.topLevelSizes[i] != 0
  {
    match sel
    case None => false
    case Some(s) =>
      if s.empty then false
      else if s.isNode then false
      else AnyNonEmpty(s.topLevelSizes)
  }

  /** The menu builder render calls. */
  datatype MenuKind = TableMenu | ColumnMenu(col: nat) | RowMenu(row: nat) | FormattingMenu(isTemplate: bool)

  function ChooseMenu(colIndex: Option<nat>, rowIndex: Option<nat>, isTemplate: bool): MenuKind {
    if colIndex.Some? && rowIndex.Some? then TableMenu
    else if colIndex.Some? then ColumnMenu(colIndex.value)
    else if rowIndex.Some? then RowMenu(rowIndex.value)
    else FormattingMenu(isTemplate)
  }

  /** Each menu is chosen exactly when its own condition holds. */
  lemma ChooseMenuPriority(colIndex: Option<nat>, rowIndex: Option<nat>, isTemplate: bool)
    ensures var k := ChooseMenu(colIndex, rowIndex, isTemplate);
      && (k.TableMenu? <==> colIndex.Some? && rowIndex.Some?)
      && (k.ColumnMenu? <==> colIndex.Some? && rowIndex.None?)
      && (k.RowMenu? <==> colIndex.None? && rowIndex.Some?)
      && (k.FormattingMenu? <==> colIndex.None? && rowIndex.None?)
      && (k.ColumnMenu? ==> k.col == colIndex.value)
      && (k.RowMenu? ==> k.row == rowIndex.value)
      && (k.FormattingMenu? ==> k.isTemplate == isTemplate)
  {
  }

  datatype MenuItem = MenuItem(name: string)

  /** The link mark's extent around the selection start, as getMarkRange finds it. */
  datatype MarkRange = MarkRange(mark: LinkSession.Mark, from: int, to: int)

  /** What render reads from the editor state through the query helpers. */
  datatype EditorQueries = EditorQueries(
    selection: Option<Selection>,
    inCodeBlock: bool,
    colIndex: Option<nat>,
    rowIndex: Option<nat>,
    linkActive: bool,
    linkRange: Option<MarkRange>)

  /** Which of the toolbar's optional props are present. */
  datatype ToolbarProps = ToolbarProps(
    hasCreateLink: bool,
    isTemplate: bool,
    hasSearchLink: bool,
    hasRemoveLink: bool)

  datatype Rendered =
    | Nothing
    | LinkEditorShown(editorProps: LinkSession.Props, active: bool)
    | MenuShown(items: seq<MenuItem>, active: bool)

  /** render; menuItems stands for the four menu builders. */
  function Render(q: EditorQueries, tp: ToolbarProps, menuItems: MenuKind -> seq<MenuItem>): Rendered {
    if q.inCodeBlock then Nothing
    else
      var items := menuItems(ChooseMenu(q.colIndex, q.rowIndex, tp.isTemplate));
      if |items| == 0 then Nothing
      else if q.linkActive && q.linkRange.Some? then
        var range := q.linkRange.value;
        LinkEditorShown(
          LinkSession.Props(range.from, range.to, Some(range.mark), tp.hasCreateLink, tp.hasSearchLink, tp.hasRemoveLink),
          IsActive(q.selection))
      else MenuShown(items, IsActive(q.selection))
  }

  /**
   * Nothing is rendered exactly in a code block or when the chosen menu is
   * empty, even where a link would have been edited. Otherwise a LinkEditor
   * is shown exactly when a link mark is active and its range was found; it
   * edits that range, starts from that link's href and may create links
   * exactly when the toolbar can. The menu shows the chosen builder's items.
   */
  lemma RenderChoice(q: EditorQueries, tp: ToolbarProps, menuItems: MenuKind -> seq<MenuItem>)
    ensures var r := Render(q, tp, menuItems);
      var items := menuItems(ChooseMenu(q.colIndex, q.rowIndex, tp.isTemplate));
      && (r.Nothing? <==> q.inCodeBlock || |items| == 0)
      && (r.LinkEditorShown? <==> !q.inCodeBlock && |items| > 0 && q.linkActive && q.linkRange.Some?)
      && (r.LinkEditorShown? ==>
            && r.editorProps.from == q.linkRange.value.from
            && r.editorProps.to == q.linkRange.value.to
            && r.editorProps.mark == Some(q.linkRange.value.mark)
            && LinkSession.Href(r.editorProps) == q.linkRange.value.mark.href
            && (r.editorProps.hasCreateLink <==> tp.hasCreateLink))
      && (r.MenuShown? ==> r.items == items)
      && (!r.Nothing? ==> r.active == IsActive(q.selection))
  {
  }

  /** The part of the ProseMirror view the callbacks use. */
  class EditorView {
    var doc: seq<Position>
    var selectionFrom: int
    var selectionTo: int

    ghost predicate Valid()
      reads this
    {
      0 <= selectionFrom <= selectionTo <= |doc|
    }

    constructor (doc: seq<Position>, selectionFrom: int, selectionTo: int)
      requires 0 <= selectionFrom <= selectionTo <= |doc|
      ensures Valid()
      ensures this.doc == doc && this.selectionFrom == selectionFrom && this.selectionTo == selectionTo
    {
      this.doc := doc;
      this.selectionFrom := selectionFrom;
      this.selectionTo := selectionTo;
    }

    /** dispatch of a transaction that only changes marks: positions do not move. */
    method Dispatch(newDoc: seq<Position>)
      requires Valid() && |newDoc| == |doc|
      modifies this
      ensures Valid()
      ensures doc == newDoc
      ensures selectionFrom == old(selectionFrom) && selectionTo == old(selectionTo)
    {
      doc := newDoc;
    }
  }

  /** A createAndInsertLink call left running by handleOnCreateLink. */
  datatype Creation = Creation(title: string, href: string)

  datatype CreateOutcome =
    | NotConfigured
    /** assert(from !== to) threw: the returned promise rejects. */
    | SelectionCollapsed
    | PlaceholderInserted(href: string)

  class SelectionToolbar {
    const view: EditorView
    /** Whether the onCreateLink prop is present. */
    const hasCreateLink: bool
    ghost var creations: seq<Creation>

    constructor (view: EditorView, hasCreateLink: bool)
      ensures this.view == view && this.hasCreateLink == hasCreateLink && creations == []
    {
      this.view := view;
      this.hasCreateLink := hasCreateLink;
      creations := [];
    }

    /** handleOnSelectLink; the title the LinkEditor also passes is not used. */
    method HandleOnSelectLink(href: string, from: int, to: int)
      requires view.Valid() && 0 <= from <= to <= |view.doc|
      modifies view
      ensures view.Valid()
      ensures view.doc == ReplaceLinkMark(old(view.doc), from, to, href)
      ensures view.selectionFrom == old(view.selectionFrom) && view.selectionTo == old(view.selectionTo)
    {
      var cleared := RemoveLinkMark(view.doc, from, to);
      view.Dispatch(AddLinkMark(cleared, from, to, href));
    }

    /** handleOnCreateLink, up to the createAndInsertLink call it does not await. */
    method HandleOnCreateLink(title: string) returns (outcome: CreateOutcome)
      requires view.Valid()
      modifies this, view
      ensures view.Valid()
      ensures view.selectionFrom == old(view.selectionFrom) && view.selectionTo == old(view.selectionTo)
      ensures !hasCreateLink ==> outcome == NotConfigured
      ensures hasCreateLink && view.selectionFrom == view.selectionTo ==> outcome == SelectionCollapsed
      ensures outcome.NotConfigured? || outcome.SelectionCollapsed? ==>
                view.doc == old(view.doc) && creations == old(creations)
      ensures hasCreateLink && view.selectionFrom != view.selectionTo ==>
                && outcome == PlaceholderInserted(PlaceholderHref(title))
                && view.doc == ReplaceLinkMark(old(view.doc), view.selectionFrom, view.selectionTo, outcome.href)
                && creations == old(creations) + [Creation(title, outcome.href)]
    {
      if !hasCreateLink {
        return NotConfigured;
      }
      var from, to := view.selectionFrom, view.selectionTo;
      if from == to {
        return SelectionCollapsed;
      }
      var href := "creating#" + title + "\U{00E2}\U{20AC}\U{00A6}";
      var cleared := RemoveLinkMark(view.doc, from, to);
      view.Dispatch(AddLinkMark(cleared, from, to, href));
      creations := creations + [Creation(title, href)];
      outcome := PlaceholderInserted(href);
    }
  }
}
