/** The file and read tree (FileNavigator in fileNavigator.py): one
    top-level item per file, its read IDs as children. Reads are hidden by
    a search prefix and an optional whitelist of read IDs, and files and
    reads can be sorted by text, alternating ascending and descending. */
module Navigator {
  import opened Util
  import Sorting

  /** A read ID item and whether it is hidden. */
  datatype ReadItem = ReadItem(text: string, hidden: bool)

  /** A file item: its path, whether it is expanded, and its reads. */
  datatype FileItem = FileItem(text: string, expanded: bool, children: seq<ReadItem>)

  /** hide_item: whether a read is hidden under the search string and the
      reads of interest (None means that filter is off). */
  function HideItem(item: string, search: Option<string>, whitelist: Option<seq<string>>): (hidden: bool)
    ensures !hidden <==> (search.None? || search.value <= item) && (whitelist.None? || item in whitelist.value)
  {
    if search.Some? && whitelist.Some? then
      !(search.value <= item) || item !in whitelist.value
    else if search.Some? then
      !(search.value <= item)
    else if whitelist.Some? then
      item !in whitelist.value
    else
      false
  }

  /** With neither filter on, nothing is hidden. */
  lemma NoFilterHidesNothing(item: string)
    ensures !HideItem(item, None, None)
  {
  }

  /** The children of a file as load_data leaves them: in list order and
      all visible. load_data computes hide_item for each read and calls
      setHidden on it before the read is added to the tree, and Qt ignores
      setHidden on an item that is not in a view. */
  function LoadedReads(ids: seq<string>): (r: seq<ReadItem>)
    ensures |r| == |ids|
    ensures forall j :: 0 <= j < |ids| ==> r[j].text == ids[j] && !r[j].hidden
  {
    seq(|ids|, j requires 0 <= j < |ids| => ReadItem(ids[j], false))
  }

  /** The children of a file as load_data evidently means to create them:
      in list order, each hidden as the filters say. */
  function FilteredReads(ids: seq<string>, search: Option<string>, whitelist: Option<seq<string>>): (r: seq<ReadItem>)
    ensures |r| == |ids|
    ensures forall j :: 0 <= j < |ids| ==> r[j] == ReadItem(ids[j], HideItem(ids[j], search, whitelist))
  {
    seq(|ids|, j requires 0 <= j < |ids| => ReadItem(ids[j], HideItem(ids[j], search, whitelist)))
  }

  /** The children with their hidden flags recomputed, texts and order kept. */
  function Refiltered(children: seq<ReadItem>, search: Option<string>, whitelist: Option<seq<string>>): (r: seq<ReadItem>)
    ensures |r| == |children|
    ensures forall j :: 0 <= j < |r| ==>
      r[j].text == children[j].text && r[j].hidden == HideItem(children[j].text, search, whitelist)
  {
    seq(|children|, j requires 0 <= j < |children| =>
      ReadItem(children[j].text, HideItem(children[j].text, search, whitelist)))
  }

  /** Files in ascending or descending order of their paths. */
  function FileOrder(ascending: bool): (FileItem, FileItem) -> bool
  {
    (a: FileItem, b: FileItem) => (if ascending then StrLess(a.text, b.text) else StrLess(b.text, a.text))
  }

  /** Reads in ascending or descending order of their IDs. */
  function ReadOrder(ascending: bool): (ReadItem, ReadItem) -> bool
  {
    (a: ReadItem, b: ReadItem) => (if ascending then StrLess(a.text, b.text) else StrLess(b.text, a.text))
  }

  lemma FileOrderIsStrict(ascending: bool)
    ensures Sorting.StrictOrder(FileOrder(ascending))
  {
    forall a: FileItem
      ensures !FileOrder(ascending)(a, a)
    {
      StrLessIrreflexive(a.text);
    }
    forall a: FileItem, b: FileItem, c: FileItem | FileOrder(ascending)(a, b) && FileOrder(ascending)(b, c)
      ensures FileOrder(ascending)(a, c)
    {
      if ascending {
        StrLessTransitive(a.text, b.text, c.text);
      } else {
        StrLessTransitive(c.text, b.text, a.text);
      }
    }
  }

  lemma ReadOrderIsStrict(ascending: bool)
    ensures Sorting.StrictOrder(ReadOrder(ascending))
  {
    forall a: ReadItem
      ensures !ReadOrder(ascending)(a, a)
    {
      StrLessIrreflexive(a.text);
    }
    forall a: ReadItem, b: ReadItem, c: ReadItem | ReadOrder(ascending)(a, b) && ReadOrder(ascending)(b, c)
      ensures ReadOrder(ascending)(a, c)
    {
      if ascending {
        StrLessTransitive(a.text, b.text, c.text);
      } else {
        StrLessTransitive(c.text, b.text, a.text);
      }
    }
  }

  /** sort_top_level_items: the files reordered by path, each file with its
      expanded state and its reads, ascending or descending; the result is a
      permutation of the files. */
  lemma SortedFiles(files: seq<FileItem>, ascending: bool)
    ensures var r := Sorting.SortBy(files, FileOrder(ascending));
      && multiset(r) == multiset(files)
      && (forall i, j :: 0 <= i < j < |r| ==>
           (if ascending then !StrLess(r[j].text, r[i].text) else !StrLess(r[i].text, r[j].text)))
  {
    FileOrderIsStrict(ascending);
    Sorting.SortBySorted(files, FileOrder(ascending));
    var r := Sorting.SortBy(files, FileOrder(ascending));
    assert forall i, j :: 0 <= i < j < |r| ==> !FileOrder(ascending)(r[j], r[i]);
  }

  /** sortChildren on one file: its reads reordered by ID, a permutation of
      them, hidden flags carried along. */
  lemma SortedReads(items: seq<ReadItem>, ascending: bool)
    ensures var r := Sorting.SortBy(items, ReadOrder(ascending));
      && multiset(r) == multiset(items)
      && (forall i, j :: 0 <= i < j < |r| ==>
           (if ascending then !StrLess(r[j].text, r[i].text) else !StrLess(r[i].text, r[j].text)))
  {
    ReadOrderIsStrict(ascending);
    Sorting.SortBySorted(items, ReadOrder(ascending));
    var r := Sorting.SortBy(items, ReadOrder(ascending));
    assert forall i, j :: 0 <= i < j < |r| ==> !ReadOrder(ascending)(r[j], r[i]);
  }

  /** Every read's hidden flag agrees with the filters. */
  ghost predicate TreeFiltered(tree: seq<FileItem>, search: Option<string>, whitelist: Option<seq<string>>)
  {
    forall i, j :: 0 <= i < |tree| && 0 <= j < |tree[i].children| ==>
      tree[i].children[j].hidden == HideItem(tree[i].children[j].text, search, whitelist)
  }

  /** The tree load_data builds: one collapsed item per file, in dictionary
      order, with its reads visible. */
  function LoadedTree(files: seq<(string, seq<string>)>): (tree: seq<FileItem>)
    ensures |tree| == |files|
    ensures forall i :: 0 <= i < |files| ==> tree[i] == FileItem(files[i].0, false, LoadedReads(files[i].1))
  {
    seq(|files|, i requires 0 <= i < |files| => FileItem(files[i].0, false, LoadedReads(files[i].1)))
  }

  /** A freshly loaded tree agrees with the filters exactly when the filters
      hide none of the loaded reads: whatever they would hide stays
      visible. */
  lemma LoadedTreeFiltered(files: seq<(string, seq<string>)>, search: Option<string>, whitelist: Option<seq<string>>)
    ensures TreeFiltered(LoadedTree(files), search, whitelist) <==>
      forall i, j :: 0 <= i < |files| && 0 <= j < |files[i].1| ==> !HideItem(files[i].1[j], search, whitelist)
  {
    var tree := LoadedTree(files);
    if TreeFiltered(tree, search, whitelist) {
      forall i, j | 0 <= i < |files| && 0 <= j < |files[i].1|
        ensures !HideItem(files[i].1[j], search, whitelist)
      {
        assert tree[i].children[j] == ReadItem(files[i].1[j], false);
      }
    }
  }

  /** With the search "ab" active, loading a file whose only read is "cd"
      shows that read, although hide_item hides it. */
  lemma LoadShowsHiddenRead()
    ensures HideItem("cd", Some("ab"), None)
    ensures LoadedTree([("f.pod5", ["cd"])])[0].children == [ReadItem("cd", false)]
    ensures !TreeFiltered(LoadedTree([("f.pod5", ["cd"])]), Some("ab"), None)
  {
    var tree := LoadedTree([("f.pod5", ["cd"])]);
    assert "ab"[0] != "cd"[0];
    assert tree[0].children[0] == ReadItem("cd", false);
  }

  /** Filtering the loaded reads gives the children the filters call for. */
  lemma RefilterLoaded(ids: seq<string>, search: Option<string>, whitelist: Option<seq<string>>)
    ensures Refiltered(LoadedReads(ids), search, whitelist) == FilteredReads(ids, search, whitelist)
  {
  }

  class FileNavigator {
    /** The tree widget's items. */
    var tree: seq<FileItem>
    var readsOfInterest: Option<seq<string>>
    var searchString: Option<string>
    /** The text of the search field. */
    var searchText: string
    var sortFilesAscending: bool
    var sortReadsAscending: bool

    /** Every read's hidden flag agrees with the current filters. */
    ghost predicate Filtered()
      reads this
    {
      TreeFiltered(tree, searchString, readsOfInterest)
    }

    /** __init__: an empty tree, no filters, both sorts ascending first. */
    constructor ()
      ensures tree == [] && readsOfInterest == None && searchString == None && searchText == ""
      ensures sortFilesAscending && sortReadsAscending
      ensures Filtered() && !ContainsData()
    {
      tree := [];
      readsOfInterest := None;
      searchString := None;
      searchText := "";
      sortFilesAscending := true;
      sortReadsAscending := true;
    }

    /** contains_data: at least one file is loaded. */
    predicate ContainsData()
      reads this
    {
      |tree| >= 1
    }

    /** load_data: replaces the tree by one collapsed item per file, in
      dictionary order, with its reads in list order. The filters are
      computed for every read but never take effect (see LoadedReads), so
      every read is visible. */
    method LoadData(files: seq<(string, seq<string>)>)
      modifies this`tree
      ensures tree == LoadedTree(files)
      ensures ContainsData() <==> |files| > 0
    {
      tree := [];
      var i := 0;
      while i < |files|
        invariant 0 <= i <= |files| && tree == LoadedTree(files[..i])
      {
        var ids := files[i].1;
        var children: seq<ReadItem> := [];
        var j := 0;
        while j < |ids|
          invariant 0 <= j <= |ids| && children == LoadedReads(ids[..j])
        {
          var hide := HideItem(ids[j], searchString, readsOfInterest);
          children := children + [ReadItem(ids[j], false)];
          j := j + 1;
        }
        assert ids[..j] == ids;
        assert files[..i + 1] == files[..i] + [files[i]];
        tree := tree + [FileItem(files[i].0, false, children)];
        i := i + 1;
      }
      assert files[..i] == files;
    }

    /** load_data as it is evidently meant to work: the loaded reads hidden
      as the filters say, which is what update_view gives once the items
      are in the tree. */
    method LoadDataFiltered(files: seq<(string, seq<string>)>)
      modifies this`tree
      ensures |tree| == |files|
      ensures forall i :: 0 <= i < |files| ==>
        tree[i] == FileItem(files[i].0, false, FilteredReads(files[i].1, searchString, readsOfInterest))
      ensures Filtered()
      ensures ContainsData() <==> |files| > 0
    {
      LoadData(files);
      UpdateView();
      forall i | 0 <= i < |files|
        ensures tree[i] == FileItem(files[i].0, false, FilteredReads(files[i].1, searchString, readsOfInterest))
      {
        RefilterLoaded(files[i].1, searchString, readsOfInterest);
      }
    }

    /** clear: no files and no filters. */
    method Clear()
      modifies this`tree, this`readsOfInterest, this`searchString
      ensures tree == [] && readsOfInterest == None && searchString == None
      ensures Filtered() && !ContainsData()
    {
      tree := [];
      readsOfInterest := None;
      searchString := None;
    }

    /** update_view: every read's hidden flag is recomputed; files, order,
      texts and expanded states are untouched. */
    method UpdateView()
      modifies this`tree
      ensures Filtered()
      ensures |tree| == |old(tree)|
      ensures forall i :: 0 <= i < |tree| ==>
        tree[i] == old(tree[i]).(children := Refiltered(old(tree[i].children), searchString, readsOfInterest))
    {
      var i := 0;
      while i < |tree|
        invariant 0 <= i <= |tree| && |tree| == |old(tree)|
        invariant forall p :: 0 <= p < i ==>
          tree[p] == old(tree[p]).(children := Refiltered(old(tree[p].children), searchString, readsOfInterest))
        invariant forall p :: i <= p < |tree| ==> tree[p] == old(tree[p])
      {
        var children := tree[i].children;
        var j := 0;
        while j < |children|
          invariant 0 <= j <= |children| && |children| == |tree[i].children|
          invariant forall q :: 0 <= q < j ==>
            children[q] == ReadItem(tree[i].children[q].text, HideItem(tree[i].children[q].text, searchString, readsOfInterest))
          invariant forall q :: j <= q < |children| ==> children[q] == tree[i].children[q]
        {
          children := children[j := children[j].(hidden := HideItem(children[j].text, searchString, readsOfInterest))];
          j := j + 1;
        }
        assert children == Refiltered(tree[i].children, searchString, readsOfInterest);
        tree := tree[i := tree[i].(children := children)];
        i := i + 1;
      }
    }

    /** clear_search: no search string, an empty field, and the view
      refiltered. */
    method ClearSearch()
      modifies this`searchString, this`searchText, this`tree
      ensures searchString == None && searchText == ""
      ensures Filtered() && |tree| == |old(tree)|
      ensures forall i :: 0 <= i < |tree| ==>
        tree[i] == old(tree[i]).(children := Refiltered(old(tree[i].children), None, readsOfInterest))
    {
      searchString := None;
      searchText := "";
      UpdateView();
    }

    /** update_search_str after the user edits the field: an empty text
      turns the search off, any other text is the prefix to match. */
    method UpdateSearchStr(text: string)
      modifies this`searchString, this`searchText, this`tree
      ensures searchText == text
      ensures searchString == (if |text| < 1 then None else Some(text))
      ensures Filtered() && |tree| == |old(tree)|
      ensures forall i :: 0 <= i < |tree| ==>
        tree[i] == old(tree[i]).(children := Refiltered(old(tree[i].children), searchString, readsOfInterest))
    {
      searchText := text;
      if |text| < 1 {
        searchString := None;
      } else {
        searchString := Some(text);
      }
      UpdateView();
    }

    /** update_reads_of_interest: a new whitelist (None turns it off), then
      the view refiltered. */
    method UpdateReadsOfInterest(whitelist: Option<seq<string>>)
      modifies this`readsOfInterest, this`tree
      ensures readsOfInterest == whitelist
      ensures Filtered() && |tree| == |old(tree)|
      ensures forall i :: 0 <= i < |tree| ==>
        tree[i] == old(tree[i]).(children := Refiltered(old(tree[i].children), searchString, whitelist))
    {
      readsOfInterest := whitelist;
      UpdateView();
    }

    /** sort_top_level_items: the files are taken out, sorted stably by
      path (reversed when descending) and put back with their expanded
      states. */
    method SortTopLevelItems(ascending: bool)
      modifies this`tree
      ensures tree == Sorting.SortBy(old(tree), FileOrder(ascending))
    {
      var taken := tree;
      tree := [];
      var sorted := Sorting.SortBy(taken, FileOrder(ascending));
      var i := 0;
      while i < |sorted|
        invariant 0 <= i <= |sorted| && tree == sorted[..i]
      {
        assert sorted[..i + 1] == sorted[..i] + [sorted[i]];
        tree := tree + [sorted[i]];
        i := i + 1;
      }
      assert sorted[..i] == sorted;
    }

    /** sort_child_items: each file's reads sorted on their own. */
    method SortChildItems(ascending: bool)
      modifies this`tree
      ensures |tree| == |old(tree)|
      ensures forall i :: 0 <= i < |tree| ==>
        tree[i] == old(tree[i]).(children := Sorting.SortBy(old(tree[i].children), ReadOrder(ascending)))
    {
      var i := 0;
      while i < |tree|
        invariant 0 <= i <= |tree| && |tree| == |old(tree)|
        invariant forall p :: 0 <= p < i ==>
          tree[p] == old(tree[p]).(children := Sorting.SortBy(old(tree[p].children), ReadOrder(ascending)))
        invariant forall p :: i <= p < |tree| ==> tree[p] == old(tree[p])
      {
        tree := tree[i := tree[i].(children := Sorting.SortBy(tree[i].children, ReadOrder(ascending)))];
        i := i + 1;
      }
    }

    /** sort_files: sorts in the current direction, then flips it. */
    method SortFiles()
      modifies this`tree, this`sortFilesAscending
      ensures tree == Sorting.SortBy(old(tree), FileOrder(old(sortFilesAscending)))
      ensures sortFilesAscending == !old(sortFilesAscending)
    {
      SortTopLevelItems(sortFilesAscending);
      sortFilesAscending := !sortFilesAscending;
    }

    /** sort_reads: sorts every file's reads in the current direction, then
      flips it. */
    method SortReads()
      modifies this`tree, this`sortReadsAscending
      ensures |tree| == |old(tree)|
      ensures forall i :: 0 <= i < |tree| ==>
        tree[i] == old(tree[i]).(children := Sorting.SortBy(old(tree[i].children), ReadOrder(old(sortReadsAscending))))
      ensures sortReadsAscending == !old(sortReadsAscending)
    {
      SortChildItems(sortReadsAscending);
      sortReadsAscending := !sortReadsAscending;
    }
  }

  /** Pressing a sort button twice sorts once each way and leaves the
      direction where it started. */
  method SortFilesTwice(nav: FileNavigator) returns (first: seq<FileItem>)
    modifies nav`tree, nav`sortFilesAscending
    ensures first == Sorting.SortBy(old(nav.tree), FileOrder(old(nav.sortFilesAscending)))
    ensures nav.tree == Sorting.SortBy(first, FileOrder(!old(nav.sortFilesAscending)))
    ensures nav.sortFilesAscending == old(nav.sortFilesAscending)
  {
    nav.SortFiles();
    first := nav.tree;
    nav.SortFiles();
  }
}
