/** The main window's bookkeeping (Pod5Viewer in pod5Viewer.py): the data
    tabs, the single preview tab, the record of every opened read, tab
    cycling and closing, the plot selection, and the directory filter that
    picks the files to load. */
module Viewer {
  import opened Util
  import ReadData

  /** A read record, as the data handler returns it. */
  type Record = seq<ReadData.Entry>

  // ---------------------------------------------------------------------
  // The directory filter of select_directory

  /** The index of the first '.' in s, or |s| when there is none. */
  function FirstDot(s: string): (r: nat)
    ensures r <= |s| && (r < |s| ==> s[r] == '.')
    ensures forall k :: 0 <= k < r ==> s[k] != '.'
  {
    if |s| == 0 || s[0] == '.' then 0 else FirstDot(s[1..]) + 1
  }

  /** s.split("."): the pieces between the dots. */
  function Segments(s: string): (r: seq<string>)
    ensures |r| >= 1
    ensures forall i :: 0 <= i < |r| ==> '.' !in r[i]
    decreases |s|
  {
    var i := FirstDot(s);
    if i == |s| then
      assert s[..i] == s;
      [s]
    else
      [s[..i]] + Segments(s[i + 1..])
  }

  /** Joining the pieces with "." gives the path back. */
  lemma {:induction false} SegmentsJoin(s: string)
    ensures Join(Segments(s), ".") == s
    decreases |s|
  {
    var i := FirstDot(s);
    if i < |s| {
      var parts := Segments(s);
      var rest := s[i + 1..];
      assert parts == [s[..i]] + Segments(rest);
      assert parts[1..] == Segments(rest);
      assert Join(parts, ".") == s[..i] + "." + Join(Segments(rest), ".");
      SegmentsJoin(rest);
      assert s == s[..i] + "." + rest;
    } else {
      assert Segments(s) == [s];
    }
  }

  /** A path splits into at least two pieces exactly when it holds a dot. */
  lemma SecondSegmentExists(s: string)
    ensures |Segments(s)| >= 2 <==> '.' in s
  {
    var i := FirstDot(s);
    if '.' in s {
      var k :| 0 <= k < |s| && s[k] == '.';
      assert i <= k;
    }
  }

  /** file.split(".")[1] == "pod5", for a path with a dot. */
  predicate IsPod5Path(path: string)
  {
    var parts := Segments(path);
    |parts| >= 2 && parts[1] == "pod5"
  }

  /** What the comprehension keeps of a path: the path itself. */
  function Kept(path: string): string { path }

  /** The list comprehension of select_directory: the paths whose second
      piece is "pod5", in directory order; None when some path has no dot,
      where indexing the split raises IndexError. */
  function Pod5Files(files: seq<string>): (r: Option<seq<string>>)
    ensures r.None? <==> exists k :: 0 <= k < |files| && '.' !in files[k]
  {
    if forall k :: 0 <= k < |files| ==> '.' in files[k] then
      Some(FilterMap(files, IsPod5Path, Kept))
    else None
  }

  /** select_directory once a directory is chosen, given the full paths
      of its regular files: the files to load, or None when nothing is
      loaded (no files, a path without a dot, or no .pod5 file). */
  function SelectDirectory(files: seq<string>): Option<seq<string>>
  {
    if |files| == 0 then None
    else
      match Pod5Files(files)
      case None => None
      case Some(pod5) => if |pod5| > 0 then Some(pod5) else None
  }

  /** The files loaded are exactly the paths whose second piece is "pod5",
      provided every path holds a dot and at least one qualifies. */
  lemma SelectDirectoryLoads(files: seq<string>)
    ensures SelectDirectory(files).Some? <==>
      (forall k :: 0 <= k < |files| ==> '.' in files[k]) && (exists k :: 0 <= k < |files| && IsPod5Path(files[k]))
    ensures SelectDirectory(files).Some? ==>
      forall f :: f in SelectDirectory(files).value <==> f in files && IsPod5Path(f)
  {
    var pod5 := FilterMap(files, IsPod5Path, Kept);
    Pod5Members(files);
    if exists k :: 0 <= k < |files| && IsPod5Path(files[k]) {
      var k :| 0 <= k < |files| && IsPod5Path(files[k]);
      assert files[k] in pod5;
    }
    if |pod5| > 0 {
      assert pod5[0] in pod5;
    }
  }

  /** The filtered list holds exactly the paths whose second piece is
      "pod5". */
  lemma Pod5Members(files: seq<string>)
    ensures forall f :: f in FilterMap(files, IsPod5Path, Kept) <==> f in files && IsPod5Path(f)
  {
    var keep := IsPod5Path;
    var id := Kept;
    var pod5 := FilterMap(files, keep, id);
    FilterMapMembers(files, keep, id);
    forall f | f in pod5
      ensures f in files && IsPod5Path(f)
    {
      assert ImageOfKept(files, keep, id, f);
    }
    forall f | f in files && IsPod5Path(f)
      ensures f in pod5
    {
      var k :| 0 <= k < |files| && files[k] == f;
      assert id(files[k]) in pod5;
    }
  }

  /** FirstDot is the position of the first dot. */
  lemma FirstDotAt(s: string, i: nat)
    requires i < |s| && s[i] == '.' && forall k :: 0 <= k < i ==> s[k] != '.'
    ensures FirstDot(s) == i
  {
  }

  /** Splitting at the first dot. */
  lemma SegmentsAt(s: string, i: nat)
    requires i < |s| && s[i] == '.' && forall k :: 0 <= k < i ==> s[k] != '.'
    ensures Segments(s) == [s[..i]] + Segments(s[i + 1..])
  {
    FirstDotAt(s, i);
  }

  /** A dot-free prefix followed by a dot is the first piece. */
  lemma FirstPiece(a: string, rest: string)
    requires '.' !in a
    ensures Segments(a + "." + rest) == [a] + Segments(rest)
  {
    var s := a + "." + rest;
    assert forall k :: 0 <= k < |a| ==> s[k] == a[k];
    SegmentsAt(s, |a|);
    assert s[..|a|] == a;
    assert s[|a| + 1..] == rest;
  }

  /** A dot-free prefix followed by nothing or a dot is the first piece. */
  lemma LeadingPiece(b: string, tail: string)
    requires '.' !in b
    requires tail == [] || tail[0] == '.'
    ensures Segments(b + tail)[0] == b
  {
    if tail == [] {
      assert b + tail == b;
      assert FirstDot(b) == |b|;
    } else {
      assert b + tail == b + "." + tail[1..];
      assert Segments(b + "." + tail[1..]) == [b] + Segments(tail[1..]) by {
        FirstPiece(b, tail[1..]);
      }
    }
  }

  /** The path a + "." + b + tail, with no dot in a or b, has b as its
      second piece. */
  lemma SecondPiece(a: string, b: string, tail: string)
    requires '.' !in a && '.' !in b
    requires tail == [] || tail[0] == '.'
    ensures |Segments(a + "." + b + tail)| >= 2 && Segments(a + "." + b + tail)[1] == b
  {
    var rest := b + tail;
    assert a + "." + b + tail == a + "." + rest;
    assert Segments(a + "." + rest) == [a] + Segments(rest) by {
      FirstPiece(a, rest);
    }
    assert Segments(rest)[0] == b by {
      LeadingPiece(b, tail);
    }
  }

  /** The test looks at the second dot-separated piece of the whole path,
      not at the extension: with dots only where shown, a/b.c is kept
      exactly when b is "pod5", so a .pod5 file in a directory with a dot
      in its name (/runs/exp.2/reads.pod5: b is "2/reads") is skipped,
      and a backup /runs/reads.pod5.bak is kept. */
  lemma Pod5FilterOnWholePath(a: string, b: string, tail: string)
    requires '.' !in a && '.' !in b
    requires tail == [] || tail[0] == '.'
    ensures IsPod5Path(a + "." + b + tail) <==> b == "pod5"
  {
    SecondPiece(a, b, tail);
  }

  // ---------------------------------------------------------------------
  // The tab widget

  /** A tab: its text (a read ID) and the identity of its page widget. */
  datatype Tab = Tab(text: string, widget: nat)

  /** The state of a QTabWidget: its tabs in order and the current index,
      -1 exactly when there is no tab. */
  datatype TabBar = TabBar(tabs: seq<Tab>, current: int)
  {
    predicate Valid()
    {
      -1 <= current < |tabs| && (current == -1 <==> |tabs| == 0)
    }

    /** indexOf(widget): the tab holding the widget, or -1. */
    function IndexOf(w: nat): (r: int)
      ensures -1 <= r < |tabs|
      ensures r >= 0 ==> tabs[r].widget == w
      ensures r == -1 <==> forall k :: 0 <= k < |tabs| ==> tabs[k].widget != w
    {
      WidgetIndex(tabs, w)
    }

    /** addTab: the tab goes last; the first tab becomes current. */
    function Add(t: Tab): (b: TabBar)
      requires Valid()
      ensures b.Valid() && b.tabs == tabs + [t]
      ensures |tabs| > 0 ==> b.current == current
    {
      TabBar(tabs + [t], if |tabs| == 0 then 0 else current)
    }

    /** setCurrentIndex: an index out of range changes nothing. */
    function Select(i: int): (b: TabBar)
      requires Valid()
      ensures b.Valid() && b.tabs == tabs
      ensures b.current == (if 0 <= i < |tabs| then i else current)
    {
      if 0 <= i < |tabs| then TabBar(tabs, i) else this
    }

    /** removeTab: an index out of range changes nothing. Otherwise the
        tab goes; a current tab before it stays current, and when the
        current tab itself goes the tab to its right (or, for the last
        tab, to its left) becomes current. */
    function Remove(index: int): (b: TabBar)
      requires Valid()
      ensures b.Valid()
      ensures !(0 <= index < |tabs|) ==> b == this
      ensures 0 <= index < |tabs| ==> b.tabs == tabs[..index] + tabs[index + 1..]
    {
      if !(0 <= index < |tabs|) then this
      else
        var rest := tabs[..index] + tabs[index + 1..];
        var c :=
          if |rest| == 0 then -1
          else if index < current then current - 1
          else if index == current then Min(index, |rest| - 1)
          else current;
        TabBar(rest, c)
    }
  }

  function WidgetIndex(tabs: seq<Tab>, w: nat): (r: int)
    ensures -1 <= r < |tabs|
    ensures r >= 0 ==> tabs[r].widget == w
    ensures r == -1 <==> forall k :: 0 <= k < |tabs| ==> tabs[k].widget != w
  {
    if |tabs| == 0 then -1
    else if tabs[0].widget == w then 0
    else
      var r := WidgetIndex(tabs[1..], w);
      if r == -1 then -1 else r + 1
  }

  /** Removing a tab other than the current one keeps the same tab
      current. */
  lemma RemoveKeepsCurrentTab(b: TabBar, index: int)
    requires b.Valid() && 0 <= index < |b.tabs| && index != b.current
    ensures b.Remove(index).tabs[b.Remove(index).current] == b.tabs[b.current]
  {
  }

  /** Removing the current tab selects its right neighbour, or its left
      one when it was the last tab. */
  lemma RemoveCurrentSelectsNeighbour(b: TabBar)
    requires b.Valid() && |b.tabs| >= 2
    ensures var r := b.Remove(b.current);
      b.current + 1 < |b.tabs| ==> r.tabs[r.current] == b.tabs[b.current + 1]
    ensures var r := b.Remove(b.current);
      b.current + 1 == |b.tabs| ==> r.tabs[r.current] == b.tabs[b.current - 1]
  {
  }

  /** Tab texts without repetition. */
  predicate DistinctTexts(tabs: seq<Tab>)
  {
    forall i, j :: 0 <= i < j < |tabs| ==> tabs[i].text != tabs[j].text
  }

  /** The first tab with the given text, or |tabs| when there is none. */
  function FirstWithText(tabs: seq<Tab>, text: string): (r: nat)
    ensures r <= |tabs| && (r < |tabs| ==> tabs[r].text == text)
    ensures forall k :: 0 <= k < r ==> tabs[k].text != text
  {
    if |tabs| == 0 || tabs[0].text == text then 0 else FirstWithText(tabs[1..], text) + 1
  }

  /** Whether some tab shows the text. */
  predicate HasText(tabs: seq<Tab>, text: string)
  {
    exists k :: 0 <= k < |tabs| && tabs[k].text == text
  }

  /** FirstWithText is the first position holding the text, or |tabs| when
      none does. */
  lemma FirstWithTextAt(tabs: seq<Tab>, text: string, i: nat)
    requires i <= |tabs| && (i < |tabs| ==> tabs[i].text == text)
    requires forall k :: 0 <= k < i ==> tabs[k].text != text
    ensures FirstWithText(tabs, text) == i
    ensures HasText(tabs, text) <==> i < |tabs|
  {
  }

  /** The tab widget after add_proper_tab once the preview tab is gone:
      the first tab showing the read becomes current, or a new tab for it
      is added last and made current. */
  function ProperTabs(kept: TabBar, readId: string, w: nat): (r: TabBar)
    requires kept.Valid()
  {
    var k := FirstWithText(kept.tabs, readId);
    if k < |kept.tabs| then kept.Select(k) else kept.Add(Tab(readId, w)).Select(|kept.tabs|)
  }

  /** add_proper_tab leaves the read's tab current, adds a tab only when no
      tab showed the read, changes no other tab, and keeps tab texts
      distinct. */
  lemma ProperTabsShowRead(kept: TabBar, readId: string, w: nat)
    requires kept.Valid()
    ensures var r := ProperTabs(kept, readId, w);
      && r.Valid()
      && 0 <= r.current < |r.tabs| && r.tabs[r.current].text == readId
      && (HasText(kept.tabs, readId) ==> r.tabs == kept.tabs)
      && (!HasText(kept.tabs, readId) ==> r.tabs == kept.tabs + [Tab(readId, w)])
      && (DistinctTexts(kept.tabs) ==> DistinctTexts(r.tabs))
  {
    var k := FirstWithText(kept.tabs, readId);
    FirstWithTextAt(kept.tabs, readId, k);
  }

  /** The IDs plot_signal collects: the current tab's alone, or every
      tab's in order. */
  function PlotSelection(b: TabBar, single: bool): (ids: seq<string>)
    requires b.Valid() && |b.tabs| > 0
    ensures single ==> ids == [b.tabs[b.current].text]
    ensures !single ==> |ids| == |b.tabs| && forall i :: 0 <= i < |ids| ==> ids[i] == b.tabs[i].text
  {
    if single then [b.tabs[b.current].text]
    else seq(|b.tabs|, i requires 0 <= i < |b.tabs| => b.tabs[i].text)
  }

  /** The keys of a dict filled from ids in order: each ID once, at its
      first position. */
  function Dedup(ids: seq<string>): (r: seq<string>)
  {
    if |ids| == 0 then []
    else
      var d := Dedup(ids[..|ids| - 1]);
      if ids[|ids| - 1] in d then d else d + [ids[|ids| - 1]]
  }

  /** The dict keys are the IDs, each exactly once. */
  lemma {:induction false} DedupIsSetOfIds(ids: seq<string>)
    ensures forall x :: x in Dedup(ids) <==> x in ids
    ensures forall i, j :: 0 <= i < j < |Dedup(ids)| ==> Dedup(ids)[i] != Dedup(ids)[j]
  {
    if |ids| > 0 {
      var init := ids[..|ids| - 1];
      DedupIsSetOfIds(init);
      assert ids == init + [ids[|ids| - 1]];
    }
  }

  /** What plot_signal does. */
  datatype PlotOutcome =
    | NoReadOpened                  // no tab: the warning is shown
    | MissingRecord(id: string)     // an ID without a record: KeyError
    | Plotted(ids: seq<string>)     // a new figure for these reads

  // ---------------------------------------------------------------------
  // The main window

  class Pod5Viewer {
    /** data_tab_viewer */
    var bar: TabBar
    /** preview_tab: the widget of the preview tab, if any */
    var preview: Option<nat>
    /** opened_read_data */
    var openedReads: map<string, Record>
    /** whether plot_window holds a figure */
    var plotOpen: bool
    /** the next page widget created */
    var nextWidget: nat

    ghost predicate Valid()
      reads this
    {
      && bar.Valid()
      && WidgetsFresh(bar.tabs, nextWidget)
      && (preview.Some? ==> preview.value < nextWidget)
    }

    /** A proper tab is any tab but the preview tab. */
    predicate IsProper(t: Tab)
      reads this
    {
      preview != Some(t.widget)
    }

    /** No two proper tabs show the same read. */
    predicate NoDuplicateProperTabs()
      reads this
    {
      ProperDistinct(bar.tabs, preview)
    }

    /** Every tab's read has a record. */
    predicate TabsHaveData()
      reads this
    {
      HaveData(bar.tabs, openedReads)
    }

    /** init_attrs and an empty tab widget. */
    constructor ()
      ensures Valid() && NoDuplicateProperTabs() && TabsHaveData()
      ensures bar == TabBar([], -1) && preview == None && openedReads == map[] && !plotOpen
    {
      bar := TabBar([], -1);
      preview := None;
      openedReads := map[];
      plotOpen := false;
      nextWidget := 0;
    }

    /** update_preview_tab for an item (a leaf is a read; a file item has
        children) whose read has the given record: the old preview tab is
        removed, and a new preview tab for the read is added and made
        current. The old preview's record stays. */
    method UpdatePreviewTab(isLeaf: bool, readId: string, record: Record)
      requires Valid()
      modifies this`bar, this`preview, this`openedReads, this`nextWidget
      ensures Valid()
      ensures !isLeaf ==> bar == old(bar) && preview == old(preview) && openedReads == old(openedReads) && nextWidget == old(nextWidget)
      ensures isLeaf ==>
        && bar.tabs == DropPreview(old(bar), old(preview)).tabs + [Tab(readId, old(nextWidget))]
        && bar.current == |bar.tabs| - 1
        && preview == Some(old(nextWidget))
        && openedReads == old(openedReads)[readId := record]
      ensures old(NoDuplicateProperTabs()) ==> NoDuplicateProperTabs()
      ensures old(TabsHaveData()) ==> TabsHaveData()
    {
      if isLeaf {
        DropPreviewKeeps(bar, preview, nextWidget, openedReads);
        bar := DropPreview(bar, preview);
        var w := nextWidget;
        AppendKeeps(bar.tabs, readId, w, openedReads, record);
        nextWidget := nextWidget + 1;
        preview := Some(w);
        openedReads := openedReads[readId := record];
        bar := bar.Add(Tab(readId, w));
        bar := bar.Select(|bar.tabs| - 1);
      }
    }

    /** add_proper_tab for an item: for a read, the preview tab is removed
        and forgotten; a tab already showing the read is made current, and
        otherwise a tab for it is added with its record and made current.
        Afterwards no two tabs show the same read. */
    method AddProperTab(isLeaf: bool, readId: string, record: Record)
      requires Valid() && NoDuplicateProperTabs()
      modifies this`bar, this`preview, this`openedReads, this`nextWidget
      ensures Valid() && NoDuplicateProperTabs()
      ensures !isLeaf ==> bar == old(bar) && preview == old(preview) && openedReads == old(openedReads)
      ensures isLeaf ==>
        var kept := DropPreview(old(bar), old(preview));
        && preview == None
        && bar == ProperTabs(kept, readId, old(nextWidget))
        && openedReads == (if HasText(kept.tabs, readId) then old(openedReads) else old(openedReads)[readId := record])
      ensures old(TabsHaveData()) ==> TabsHaveData()
    {
      if isLeaf {
        DropPreviewKeeps(bar, preview, nextWidget, openedReads);
        bar := DropPreview(bar, preview);
        preview := None;
        SelectOrAddTab(readId, record);
      }
    }

    /** The loop of add_proper_tab once no preview tab is left: the first
        tab showing the read is made current; when there is none, a tab for
        the read is added with its record and made current. */
    method SelectOrAddTab(readId: string, record: Record)
      requires Valid() && preview == None && DistinctTexts(bar.tabs)
      modifies this`bar, this`openedReads, this`nextWidget
      ensures Valid() && DistinctTexts(bar.tabs)
      ensures bar == ProperTabs(old(bar), readId, old(nextWidget))
      ensures openedReads == (if HasText(old(bar).tabs, readId) then old(openedReads) else old(openedReads)[readId := record])
      ensures HaveData(old(bar).tabs, old(openedReads)) ==> HaveData(bar.tabs, openedReads)
    {
      ProperTabsShowRead(bar, readId, nextWidget);
      var i := 0;
      while i < |bar.tabs|
        invariant 0 <= i <= |bar.tabs|
        invariant forall k :: 0 <= k < i ==> bar.tabs[k].text != readId
      {
        if bar.tabs[i].text == readId {
          FirstWithTextAt(bar.tabs, readId, i);
          bar := bar.Select(i);
          return;
        }
        i := i + 1;
      }
      FirstWithTextAt(bar.tabs, readId, i);
      var w := nextWidget;
      AppendKeeps(bar.tabs, readId, w, openedReads, record);
      nextWidget := nextWidget + 1;
      openedReads := openedReads[readId := record];
      bar := bar.Add(Tab(readId, w)).Select(|bar.tabs|);
    }

    /** remove_tab(index) for a tab the widget offers to close: the
        record under the tab's text is deleted and the tab removed; when
        there is no such record, del raises KeyError and nothing changes.
        The preview is forgotten once its tab is gone. */
    method RemoveTab(index: int) returns (keyError: bool)
      requires Valid() && 0 <= index < |bar.tabs|
      modifies this`bar, this`preview, this`openedReads
      ensures Valid()
      ensures keyError <==> old(bar.tabs[index].text) !in old(openedReads)
      ensures keyError ==> bar == old(bar) && openedReads == old(openedReads) && preview == old(preview)
      ensures !keyError ==>
        && openedReads == old(openedReads) - {old(bar.tabs[index].text)}
        && bar == old(bar).Remove(index)
        && preview == (if old(preview).Some? && bar.IndexOf(old(preview).value) == -1 then None else old(preview))
      ensures old(NoDuplicateProperTabs()) ==> NoDuplicateProperTabs()
      ensures old(TabsHaveData()) && (forall j :: 0 <= j < |old(bar.tabs)| && j != index ==> old(bar.tabs[j].text) != old(bar.tabs[index].text))
        ==> TabsHaveData()
    {
      var text := bar.tabs[index].text;
      if text !in openedReads {
        return true;
      }
      ghost var before := bar;
      RemoveKeeps(before, index, nextWidget, preview, openedReads);
      openedReads := openedReads - {text};
      bar := bar.Remove(index);
      if preview.Some? && bar.IndexOf(preview.value) == -1 {
        preview := None;
      }
      keyError := false;
    }

    /** The cycle-reads shortcut: the next tab becomes current, the first
        after the last; without tabs nothing happens. */
    method CycleReads()
      requires Valid()
      modifies this`bar
      ensures Valid() && bar.tabs == old(bar.tabs)
      ensures |bar.tabs| == 0 ==> bar == old(bar)
      ensures |bar.tabs| > 0 ==> bar.current == (old(bar.current) + 1) % |bar.tabs|
    {
      if |bar.tabs| > 0 {
        bar := bar.Select((bar.current + 1) % |bar.tabs|);
      }
    }

    /** The close-tab shortcut: remove_tab on the current tab, if any. */
    method CloseTabShortcut() returns (keyError: bool)
      requires Valid()
      modifies this`bar, this`preview, this`openedReads
      ensures Valid()
      ensures |old(bar.tabs)| == 0 ==> !keyError && bar == old(bar) && openedReads == old(openedReads) && preview == old(preview)
      ensures |old(bar.tabs)| > 0 && !keyError ==>
        openedReads == old(openedReads) - {old(bar.tabs[bar.current].text)} && bar == old(bar).Remove(old(bar.current))
      ensures old(NoDuplicateProperTabs()) ==> NoDuplicateProperTabs()
    {
      keyError := false;
      if |bar.tabs| > 0 {
        keyError := RemoveTab(bar.current);
      }
    }

    /** clear_viewer: no tab, no record and no figure. The preview widget
        is not forgotten; its index is -1 from now on, so removing it
        later changes nothing. */
    method ClearViewer()
      requires Valid()
      modifies this`bar, this`openedReads, this`plotOpen
      ensures Valid() && NoDuplicateProperTabs() && TabsHaveData()
      ensures bar == TabBar([], -1) && openedReads == map[] && !plotOpen
      ensures preview == old(preview) && nextWidget == old(nextWidget)
    {
      bar := TabBar([], -1);
      openedReads := map[];
      plotOpen := false;
    }

    /** plot_signal(single): the reads of the current tab or of every tab
        go to a new figure, each once; an ID without a record raises
        KeyError before the figure is replaced. */
    method PlotSignal(single: bool) returns (outcome: PlotOutcome)
      requires Valid()
      modifies this`plotOpen
      ensures |bar.tabs| == 0 ==> outcome == NoReadOpened && plotOpen == old(plotOpen)
      ensures |bar.tabs| > 0 ==>
        var ids := PlotSelection(bar, single);
        && (outcome.MissingRecord? ==> outcome.id in ids && outcome.id !in openedReads && plotOpen == old(plotOpen))
        && (outcome.Plotted? ==> outcome.ids == Dedup(ids) && (forall x :: x in ids ==> x in openedReads) && plotOpen)
        && (outcome.MissingRecord? || outcome.Plotted?)
        && ((forall x :: x in ids ==> x in openedReads) <==> outcome.Plotted?)
    {
      if |bar.tabs| == 0 {
        return NoReadOpened;
      }
      var ids := PlotSelection(bar, single);
      var keys: seq<string> := [];
      var i := 0;
      while i < |ids|
        invariant 0 <= i <= |ids|
        invariant keys == Dedup(ids[..i])
        invariant forall k :: 0 <= k < i ==> ids[k] in openedReads
      {
        if ids[i] !in openedReads {
          return MissingRecord(ids[i]);
        }
        assert ids[..i + 1][..i] == ids[..i];
        if ids[i] !in keys {
          keys := keys + [ids[i]];
        }
        i := i + 1;
      }
      assert ids[..i] == ids;
      plotOpen := true;
      outcome := Plotted(keys);
    }
  }

  /** Page widgets are below the next one to be created and no two tabs
      share one. */
  predicate WidgetsFresh(tabs: seq<Tab>, next: nat)
  {
    && (forall i :: 0 <= i < |tabs| ==> tabs[i].widget < next)
    && (forall i, j :: 0 <= i < j < |tabs| ==> tabs[i].widget != tabs[j].widget)
  }

  /** No two tabs other than the preview tab share a text. */
  predicate ProperDistinct(tabs: seq<Tab>, preview: Option<nat>)
  {
    forall i, j :: 0 <= i < j < |tabs| && preview != Some(tabs[i].widget) && preview != Some(tabs[j].widget) ==>
      tabs[i].text != tabs[j].text
  }

  predicate HaveData(tabs: seq<Tab>, records: map<string, Record>)
  {
    forall i :: 0 <= i < |tabs| ==> tabs[i].text in records
  }

  /** The positions of the tabs left after removing one. */
  lemma RemoveAtIndex(tabs: seq<Tab>, index: int)
    requires 0 <= index < |tabs|
    ensures var rest := tabs[..index] + tabs[index + 1..];
      forall i :: 0 <= i < |rest| ==> rest[i] == tabs[if i < index then i else i + 1]
  {
  }

  /** Removing a tab keeps the others in order, so widgets stay fresh and
      proper tabs distinct; the other tabs keep their records once the
      removed tab's record is deleted, unless one of them shows the same
      read. */
  lemma RemoveKeeps(b: TabBar, index: int, next: nat, preview: Option<nat>, records: map<string, Record>)
    requires b.Valid()
    ensures WidgetsFresh(b.tabs, next) ==> WidgetsFresh(b.Remove(index).tabs, next)
    ensures ProperDistinct(b.tabs, preview) ==> ProperDistinct(b.Remove(index).tabs, preview)
    ensures HaveData(b.tabs, records) ==> HaveData(b.Remove(index).tabs, records)
    ensures 0 <= index < |b.tabs| && HaveData(b.tabs, records)
      && (forall j :: 0 <= j < |b.tabs| && j != index ==> b.tabs[j].text != b.tabs[index].text)
      ==> HaveData(b.Remove(index).tabs, records - {b.tabs[index].text})
  {
    if 0 <= index < |b.tabs| {
      RemoveAtIndex(b.tabs, index);
    }
  }

  /** The tab widget once the preview tab is removed with
      removeTab(indexOf(preview)), which changes nothing when the preview's
      tab is already gone. */
  function DropPreview(b: TabBar, preview: Option<nat>): (r: TabBar)
    requires b.Valid()
    ensures r.Valid()
    ensures preview.None? ==> r == b
    ensures preview.Some? ==> r == b.Remove(b.IndexOf(preview.value))
  {
    if preview.Some? then b.Remove(b.IndexOf(preview.value)) else b
  }

  /** Dropping the preview tab leaves only proper tabs, so they are
      distinct; widgets stay fresh and records stay. */
  lemma DropPreviewKeeps(b: TabBar, preview: Option<nat>, next: nat, records: map<string, Record>)
    requires b.Valid() && WidgetsFresh(b.tabs, next)
    ensures WidgetsFresh(DropPreview(b, preview).tabs, next)
    ensures ProperDistinct(b.tabs, preview) ==> DistinctTexts(DropPreview(b, preview).tabs)
    ensures HaveData(b.tabs, records) ==> HaveData(DropPreview(b, preview).tabs, records)
  {
    if preview.Some? {
      var index := b.IndexOf(preview.value);
      if index >= 0 {
        RemoveKeeps(b, index, next, preview, records);
        DropTabDistinct(b, index, next);
      }
    }
  }

  /** Removing the one tab that holds a widget leaves proper tabs only,
      and they were distinct before. */
  lemma DropTabDistinct(b: TabBar, index: int, next: nat)
    requires b.Valid() && WidgetsFresh(b.tabs, next) && 0 <= index < |b.tabs|
    ensures ProperDistinct(b.tabs, Some(b.tabs[index].widget)) ==> DistinctTexts(b.Remove(index).tabs)
  {
    var w := b.tabs[index].widget;
    var rest := b.Remove(index).tabs;
    RemoveAtIndex(b.tabs, index);
    if ProperDistinct(b.tabs, Some(w)) {
      forall i, j | 0 <= i < j < |rest|
        ensures rest[i].text != rest[j].text
      {
        var i' := if i < index then i else i + 1;
        var j' := if j < index then j else j + 1;
        assert rest[i] == b.tabs[i'] && rest[j] == b.tabs[j'];
        assert i' != index && j' != index && i' < j';
      }
    }
  }

  /** Appending a tab with a new widget keeps widgets fresh; with the
      appended tab as the preview no two proper tabs share a text, and a
      new text keeps all texts distinct. */
  lemma AppendKeeps(tabs: seq<Tab>, readId: string, next: nat, records: map<string, Record>, record: Record)
    requires WidgetsFresh(tabs, next)
    ensures WidgetsFresh(tabs + [Tab(readId, next)], next + 1)
    ensures DistinctTexts(tabs) ==> ProperDistinct(tabs + [Tab(readId, next)], Some(next))
    ensures DistinctTexts(tabs) && (forall k :: 0 <= k < |tabs| ==> tabs[k].text != readId) ==>
      DistinctTexts(tabs + [Tab(readId, next)])
    ensures HaveData(tabs, records) ==> HaveData(tabs + [Tab(readId, next)], records[readId := record])
  {
  }

  /** Previewing a read that already has a proper tab opens a second tab
      for it. */
  method PreviewDuplicatesProperTab(x: string, y: string, rx: Record, ry: Record) returns (v: Pod5Viewer)
    requires x != y
    ensures v.Valid() && |v.bar.tabs| == 2 && v.bar.tabs[0].text == x && v.bar.tabs[1].text == x
    ensures x in v.openedReads
  {
    v := new Pod5Viewer();
    v.AddProperTab(true, x, rx);
    assert |v.bar.tabs| == 1 && v.bar.tabs[0].text == x && v.preview == None;
    v.UpdatePreviewTab(true, y, ry);
    assert |v.bar.tabs| == 2 && v.bar.tabs[0].text == x && v.preview == Some(v.bar.tabs[1].widget);
    assert v.bar.IndexOf(v.bar.tabs[1].widget) == 1;
    v.UpdatePreviewTab(true, x, rx);
  }

  /** Closing one of two tabs that show the same read deletes the record
      both depend on, so the other tab can no longer be closed: closing it
      raises KeyError and leaves it in place. */
  method SharedReadBlocksClosing(v: Pod5Viewer) returns (keyError: bool)
    requires v.Valid() && |v.bar.tabs| == 2 && v.bar.tabs[0].text == v.bar.tabs[1].text
    requires v.bar.tabs[0].text in v.openedReads
    modifies v
    ensures keyError
    ensures |v.bar.tabs| == 1 && v.bar.tabs[0] == old(v.bar.tabs[1]) && v.bar.tabs[0].text !in v.openedReads
  {
    var first := v.RemoveTab(0);
    keyError := v.RemoveTab(0);
  }
}
