/** The sidebar's `FileTree` class: a sorted list of top-level items that the
    sidebar edits in place. Every operation here takes the list of top-level
    items and returns the list after the edit. `selectFile` and `toggleFolder`
    are the shared `FileItems.SelectFile` and `FileItems.ToggleFolder`. */
module SidebarTree {
  import opened Common
  import opened PathStrings
  import opened FileItems
  import opened TreeOrder

  /** `loadFiles`: the given items, sorted, become the tree. */
  function LoadFiles(files: seq<FileItem>): (root: seq<FileItem>)
    ensures Sorted(root) && multiset(root) == multiset(files)
    ensures forall p, ks :: Count(root, p, ks) == Count(files, p, ks)
  {
    SortCount(files);
    Sort(files)
  }

  // ---------------------------------------------------------------- adding

  /** `addItem(item, parentPath)`. With no parent path (absent or empty) the
      item joins the top level, which is re-sorted. Otherwise it joins the
      children of the folder the search finds at the parent path, which are
      re-sorted; when the search finds nothing, or a file, nothing happens.
      Nothing checks that the item's path is new. */
  function AddItem(root: seq<FileItem>, item: FileItem, parentPath: string): (r: seq<FileItem>)
    ensures parentPath == "" ==> Sorted(r) && multiset(r) == multiset(root) + multiset{item}
    ensures parentPath != "" && !IsFolderAt(root, parentPath) ==> r == root
    ensures parentPath == "" || IsFolderAt(root, parentPath) ==>
      forall p, ks :: Count(r, p, ks) == Count(root, p, ks) + ItemCount(item, p, ks)
    ensures SortedTree(root) && SortedItem(item) ==> SortedTree(r)
  {
    AddRootTree(root, item);
    AddChildTree(root, parentPath, item);
    if parentPath == "" then
      AddRootCount(root, item);
      Sort(root + [item])
    else if IsFolderAt(root, parentPath) then
      AddChildCount(root, parentPath, item);
      Update(root, parentPath, AddChild(item))
    else root
  }

  /** Where the added item ends up: at the top level, or among the children of
      the folder at the parent path, which is still found there. */
  lemma AddItemPlaces(root: seq<FileItem>, item: FileItem, parentPath: string)
    ensures parentPath == "" ==> item in AddItem(root, item, parentPath)
    ensures parentPath != "" && IsFolderAt(root, parentPath) ==>
      var r := AddItem(root, item, parentPath);
      IsFolderAt(r, parentPath) && item in Find(r, parentPath).value.children
  {
    if parentPath == "" {
      assert item in multiset(AddItem(root, item, parentPath));
    } else if IsFolderAt(root, parentPath) {
      var n := Find(root, parentPath).value;
      assert AddChild(item)(n) == n.(children := Sort(n.children + [item]));
      FindAfterUpdate(root, parentPath, AddChild(item));
      assert item in multiset(n.children + [item]);
      assert item in multiset(Sort(n.children + [item]));
    }
  }

  /** Adding an item with a new path and no children of its own keeps the paths
      unique, wherever it goes. */
  lemma AddItemKeepsUnique(root: seq<FileItem>, item: FileItem, parentPath: string)
    requires Unique(root) && Count(root, item.path, ANY) == 0
    requires item.kind == File || item.children == []
    ensures Unique(AddItem(root, item, parentPath))
  {
    var r := AddItem(root, item, parentPath);
    if parentPath == "" || IsFolderAt(root, parentPath) {
      AddKeepsUnique(root, r, item);
    }
  }

  // ---------------------------------------------------------------- removing

  /** `remove(items)`: the first item at this level with the path is cut out;
      failing that, each folder's children are searched in turn, and the folder
      whose children lost an item has them re-sorted. */
  function RemoveIn(items: seq<FileItem>, p: string): (r: Option<Removal>)
    ensures r.Some? ==> r.value.removed.path == p
    ensures r.Some? && SortedBelow(items) ==> SortedBelow(r.value.rest)
    decreases items, 1
  {
    match TakeFirst(items, p)
    case Some(rm) =>
      SortedBelowSub(rm.rest, items);
      Some(rm)
    case None => RemoveBelow(items, p)
  }

  /** The `for` loop of `remove`, from the first item of `items` onwards. */
  function RemoveBelow(items: seq<FileItem>, p: string): (r: Option<Removal>)
    ensures r.Some? ==> r.value.removed.path == p
    ensures r.Some? && SortedBelow(items) ==> SortedBelow(r.value.rest)
    decreases items, 0
  {
    if |items| == 0 then None
    else
      var head := items[0];
      assert items == [head] + items[1..];
      SortedBelowCons(head, items[1..]);
      var inner := if head.kind == Folder then RemoveIn(head.children, p) else None;
      if inner.Some? then
        var head' := head.(children := Sort(inner.value.rest));
        SortTree(inner.value.rest);
        SortedBelowCons(head', items[1..]);
        Some(Removal([head'] + items[1..], inner.value.removed))
      else
        match RemoveBelow(items[1..], p)
        case None => None
        case Some(rm) =>
          SortedBelowCons(head, rm.rest);
          Some(Removal([head] + rm.rest, rm.removed))
  }

  /** `remove` succeeds exactly when the path is reachable, and takes away the
      removed item's whole subtree and nothing else. */
  lemma {:induction false} RemoveInCount(items: seq<FileItem>, p: string, q: string, ks: set<Kind>)
    ensures RemoveIn(items, p).Some? <==> Count(items, p, ANY) > 0
    ensures RemoveIn(items, p).Some? ==>
      var rm := RemoveIn(items, p).value;
      Count(items, q, ks) == Count(rm.rest, q, ks) + ItemCount(rm.removed, q, ks)
    decreases items, 1
  {
    match TakeFirst(items, p)
    case Some(rm) =>
      TakeFirstCount(items, p, q, ks);
      TakeFirstCount(items, p, p, ANY);
    case None =>
      RemoveBelowCount(items, p, q, ks);
  }

  lemma {:induction false} RemoveBelowCount(items: seq<FileItem>, p: string, q: string, ks: set<Kind>)
    requires forall j :: 0 <= j < |items| ==> items[j].path != p
    ensures RemoveBelow(items, p).Some? <==> Count(items, p, ANY) > 0
    ensures RemoveBelow(items, p).Some? ==>
      var rm := RemoveBelow(items, p).value;
      Count(items, q, ks) == Count(rm.rest, q, ks) + ItemCount(rm.removed, q, ks)
    decreases items, 0
  {
    if |items| > 0 {
      var head := items[0];
      var tail := items[1..];
      assert items == [head] + tail;
      CountCons(head, tail, q, ks);
      CountCons(head, tail, p, ANY);
      ItemCountUnfold(head, p, ANY);
      if head.kind == Folder {
        RemoveInCount(head.children, p, q, ks);
      }
      var inner := if head.kind == Folder then RemoveIn(head.children, p) else None;
      if inner.Some? {
        var head' := head.(children := Sort(inner.value.rest));
        CountCons(head', tail, q, ks);
        ItemCountUnfold(head, q, ks);
        ItemCountUnfold(head', q, ks);
        CountPermutation(Sort(inner.value.rest), inner.value.rest, q, ks);
      } else {
        RemoveBelowCount(tail, p, q, ks);
        match RemoveBelow(tail, p)
        case None =>
        case Some(rm) =>
          CountCons(head, rm.rest, q, ks);
      }
    }
  }

  datatype Removed = Removed(root: seq<FileItem>, ok: bool)

  /** `removeItem`: reports whether the path was found, and re-sorts the top
      level either way; every list below stays in order. */
  function RemoveItem(root: seq<FileItem>, p: string): (r: Removed)
    ensures Sorted(r.root)
    ensures r.ok <==> Find(root, p).Some?
    ensures !r.ok ==> r.root == Sort(root)
    ensures SortedTree(root) ==> SortedTree(r.root)
  {
    RemoveInCount(root, p, p, ANY);
    FindIffCounted(root, p);
    match RemoveIn(root, p)
    case None =>
      SortTree(root);
      Removed(Sort(root), false)
    case Some(rm) =>
      SortTree(rm.rest);
      Removed(Sort(rm.rest), true)
  }

  /** A successful removal takes away the subtree of an item with the path and
      nothing else; with unique paths, the path is gone afterwards and the paths
      stay unique. */
  lemma RemoveItemTakesSubtree(root: seq<FileItem>, p: string)
    ensures RemoveIn(root, p).Some? ==>
      var rm := RemoveIn(root, p).value;
      rm.removed.path == p &&
      forall q, ks :: Count(RemoveItem(root, p).root, q, ks) + ItemCount(rm.removed, q, ks) == Count(root, q, ks)
    ensures Unique(root) ==> Unique(RemoveItem(root, p).root) && Count(RemoveItem(root, p).root, p, ANY) == 0
  {
    var r := RemoveItem(root, p).root;
    match RemoveIn(root, p)
    case None =>
      SortCount(root);
      RemoveInCount(root, p, p, ANY);
    case Some(rm) =>
      SortCount(rm.rest);
      forall q, ks
        ensures Count(r, q, ks) + ItemCount(rm.removed, q, ks) == Count(root, q, ks)
      {
        RemoveInCount(root, p, q, ks);
      }
      if Unique(root) {
        forall q
          ensures Count(r, q, ANY) <= 1
        {
          assert Count(r, q, ANY) + ItemCount(rm.removed, q, ANY) == Count(root, q, ANY);
        }
        assert Count(r, p, ANY) + ItemCount(rm.removed, p, ANY) == Count(root, p, ANY);
      }
  }

  // ---------------------------------------------------------------- renaming

  datatype Renamed = Renamed(root: seq<FileItem>, ok: bool)

  /** The re-sort at the end of `renameItem`: when the new path has a separator,
      the children of the item the search finds at its parent path are
      re-sorted (nothing happens when there is none); otherwise the top level is
      re-sorted. */
  function Resort(root: seq<FileItem>, newPath: string): (r: seq<FileItem>)
    ensures forall p, ks :: Count(r, p, ks) == Count(root, p, ks)
  {
    if !NoSep(newPath) then
      SortChildrenCount(root, ParentPath(newPath));
      Update(root, ParentPath(newPath), SortChildren())
    else
      SortCount(root);
      Sort(root)
  }

  /** How a rename rewrites the paths below the renamed folder: as written,
      the first occurrence of a pattern is replaced; as evidently intended, a
      path that continues one prefix continues another instead. */
  datatype PathEdit = ReplaceFirstOf(pat: string, rep: string) | MovePrefix(from: string, to: string)

  function ApplyEdit(e: PathEdit, path: string): string {
    match e
    case ReplaceFirstOf(pat, rep) => ReplaceFirst(path, pat, rep)
    case MovePrefix(from, to) => if StartsWith(path, from + [SEP]) then to + path[|from|..] else path
  }

  /** `b` is `a` with every path the search can reach rewritten by `e`: the
      shape, names, kinds and expanded flags stay, and a file's own children
      are left alone. */
  predicate Relabelled(a: seq<FileItem>, b: seq<FileItem>, e: PathEdit)
    decreases a
  {
    && |a| == |b|
    && forall k :: 0 <= k < |a| ==>
      && b[k].name == a[k].name && b[k].kind == a[k].kind && b[k].expanded == a[k].expanded
      && b[k].path == ApplyEdit(e, a[k].path)
      && (a[k].kind == Folder ==> Relabelled(a[k].children, b[k].children, e))
      && (a[k].kind == File ==> b[k].children == a[k].children)
  }

  /** The walk of `updateChildrenPaths`: each item's path is rewritten, and a
      folder's children are walked in turn. */
  function RewritePaths(items: seq<FileItem>, e: PathEdit): (r: seq<FileItem>)
    ensures Relabelled(items, r, e)
    decreases items
  {
    if |items| == 0 then []
    else
      var c := items[0];
      var c' := c.(path := ApplyEdit(e, c.path), children := if c.kind == Folder then RewritePaths(c.children, e) else c.children);
      var rest := RewritePaths(items[1..], e);
      assert forall k :: 0 < k < |items| ==> ([c'] + rest)[k] == rest[k - 1] && items[k] == items[1..][k - 1];
      [c'] + rest
  }

  /** A relabelling keeps the keys of every list, so it keeps every list in
      order. */
  lemma {:induction false} RelabelledTree(a: seq<FileItem>, b: seq<FileItem>, e: PathEdit)
    requires Relabelled(a, b, e) && SortedTree(a)
    ensures SortedTree(b)
    decreases a
  {
    SameKeysSorted(a, b);
    forall k | 0 <= k < |b| && b[k].kind == Folder
      ensures SortedTree(b[k].children)
    {
      RelabelledTree(a[k].children, b[k].children, e);
    }
  }

  /** `updateChildrenPaths` as written: in every path below the folder, the
      first occurrence of the old name is replaced by the new one. */
  function RenamePathsAsWritten(items: seq<FileItem>, oldName: string, newName: string): (r: seq<FileItem>)
    ensures Relabelled(items, r, ReplaceFirstOf(oldName, newName))
  {
    RewritePaths(items, ReplaceFirstOf(oldName, newName))
  }

  /** The item `renameItem` as written makes of `n`: the new name, the first
      occurrence of the old name in its path replaced by the new one, and the
      same replacement in every path below a folder. */
  function RenamedAsWritten(n: FileItem, newName: string): (m: FileItem)
    ensures m.name == newName && m.kind == n.kind && m.expanded == n.expanded
    ensures m.path == ReplaceFirst(n.path, n.name, newName)
    ensures n.kind == Folder ==> Relabelled(n.children, m.children, ReplaceFirstOf(n.name, newName))
    ensures n.kind == File ==> m.children == n.children
  {
    var children := if n.kind == Folder then RenamePathsAsWritten(n.children, n.name, newName) else n.children;
    n.(name := newName, path := ReplaceFirst(n.path, n.name, newName), children := children)
  }

  /** `renameItem` as written: the item the search finds is replaced by the
      renamed one, so its subtree of paths is swapped for the renamed item's,
      and the list the new path points at is re-sorted. */
  function RenameItemAsWritten(root: seq<FileItem>, oldPath: string, newName: string): (r: Renamed)
    ensures r.ok <==> Find(root, oldPath).Some?
    ensures !r.ok ==> r.root == root
    ensures r.ok ==> forall q, ks ::
      Count(r.root, q, ks) + ItemCount(Find(root, oldPath).value, q, ks)
        == Count(root, q, ks) + ItemCount(RenamedAsWritten(Find(root, oldPath).value, newName), q, ks)
  {
    match Find(root, oldPath)
    case None => Renamed(root, false)
    case Some(n) =>
      var n' := RenamedAsWritten(n, newName);
      PutCount(root, oldPath, n');
      Renamed(Resort(Update(root, oldPath, Put(n')), n'.path), true)
  }

  /** A file `d` in folder `docs`, renamed to `e`: the first `d` in `docs/d` is
      the one in `docs`, so the file's path becomes `eocs/d`. The file stays in
      `docs`, its path no longer names its folder, and `docs/e` is not found. */
  lemma RenameAsWrittenRewritesParent()
    ensures var file := FileItem("d", "docs/d", File, [], false);
      var root := [FileItem("docs", "docs", Folder, [file], false)];
      var r := RenameItemAsWritten(root, "docs/d", "e");
      && r.ok
      && Find(r.root, "eocs/d").Some?
      && Find(r.root, "docs/e").None?
      && ParentPath("eocs/d") != "docs"
  {
    var file := FileItem("d", "docs/d", File, [], false);
    var docs := FileItem("docs", "docs", Folder, [file], false);
    var root := [docs];
    assert Find([file], "docs/d") == Some(file);
    assert Find(root, "docs/d") == Some(file);
    assert "docs/d"[..1] == "d";
    assert IndexOfSub("docs/d", "d") == 0;
    var moved := FileItem("e", "eocs/d", File, [], false);
    assert ReplaceFirst("docs/d", "d", "e") == "eocs/d";
    assert RenamedAsWritten(file, "e") == moved;
    var inner := Update([file], "docs/d", Put(moved));
    assert inner == [moved];
    var root1 := Update(root, "docs/d", Put(moved));
    assert root1 == [docs.(children := [moved])];
    assert "eocs/d"[4] == SEP;
    assert "eocs/d"[5..] == "d";
    LastSepIsLast("eocs/d", 4);
    assert ParentPath("eocs/d") == "eocs";
    assert "docs"[0] != "eocs"[0];
    assert Find([moved], "eocs").None?;
    assert Find(root1, "eocs").None?;
    var r := RenameItemAsWritten(root, "docs/d", "e");
    assert r.root == root1;
    assert Find([moved], "eocs/d") == Some(moved);
    assert Find([moved], "docs/e").None?;
  }

  /** Replacing the first `d` of `docs/d` by `z` rewrites the folder part. */
  lemma ZocsPath()
    ensures ReplaceFirst("docs/d", "d", "z") == "zocs/d"
    ensures ParentPath("zocs/d") == "zocs"
  {
    assert "docs/d"[..1] == "d";
    assert IndexOfSub("docs/d", "d") == 0;
    assert "zocs/d"[4] == SEP;
    assert "zocs/d"[5..] == "d";
    LastSepIsLast("zocs/d", 4);
  }

  /** In a folder `docs` whose middle child is at `docs/d`, the search finds
      that child, and putting `m` there changes the middle child alone. */
  lemma DocsEdit(fa: FileItem, fd: FileItem, ff: FileItem, m: FileItem)
    requires fa.path == "docs/a" && fd.path == "docs/d" && fa.kind == File
    ensures var docs := FileItem("docs", "docs", Folder, [fa, fd, ff], false);
      && Find([docs], "docs/d") == Some(fd)
      && Update([docs], "docs/d", Put(m)) == [docs.(children := [fa, m, ff])]
  {
    var docs := FileItem("docs", "docs", Folder, [fa, fd, ff], false);
    assert Find([fa], "docs/d").None?;
    assert Find([fa, fd, ff], "docs/d") == Some(fd);
    assert Update([fa, fd, ff], "docs/d", Put(m)) == [fa, m, ff];
  }

  /** There is no folder `zocs` in a tree whose only top-level item is the
      folder `docs` with children at `docs/a`, `zocs/d` and `docs/f`. */
  lemma NoZocs(docs: FileItem)
    requires docs.path == "docs" && |docs.children| == 3
    requires docs.children[0].path == "docs/a" && docs.children[1].path == "zocs/d" && docs.children[2].path == "docs/f"
    requires docs.children[0].kind == File && docs.children[1].kind == File && docs.children[2].kind == File
    ensures Find([docs], "zocs").None?
  {
    var c := docs.children;
    assert "docs"[0] != "zocs"[0];
    assert |"zocs/d"| != |"zocs"| && |"docs/f"| != |"zocs"| && |"docs/a"| != |"zocs"|;
    assert c == [c[0]] + [c[1], c[2]] && [c[1], c[2]] == [c[1]] + [c[2]];
    assert Find([c[2]], "zocs").None?;
    assert Find([c[1], c[2]], "zocs").None?;
    assert Find(c, "zocs").None?;
  }

  /** What the as-written rename of `docs/d` to `z` leaves in a folder `docs`
      holding `a`, `d`, `f`: the file's path becomes `zocs/d`, and the re-sort
      looks for the folder `zocs`, finds nothing and changes nothing. */
  lemma RenameAsWrittenInDocs()
    ensures var fa := FileItem("a", "docs/a", File, [], false);
      var fd := FileItem("d", "docs/d", File, [], false);
      var ff := FileItem("f", "docs/f", File, [], false);
      var docs := FileItem("docs", "docs", Folder, [fa, fd, ff], false);
      RenameItemAsWritten([docs], "docs/d", "z").root == [docs.(children := [fa, FileItem("z", "zocs/d", File, [], false), ff])]
  {
    var fa := FileItem("a", "docs/a", File, [], false);
    var fd := FileItem("d", "docs/d", File, [], false);
    var ff := FileItem("f", "docs/f", File, [], false);
    var docs := FileItem("docs", "docs", Folder, [fa, fd, ff], false);
    var root := [docs];
    var moved := FileItem("z", "zocs/d", File, [], false);
    DocsEdit(fa, fd, ff, moved);
    ZocsPath();
    assert RenamedAsWritten(fd, "z") == moved;
    var root1 := Update(root, "docs/d", Put(moved));
    NoZocs(docs.(children := [fa, moved, ff]));
    assert Resort(root1, "zocs/d") == root1;
  }

  /** Files `a`, `d`, `f` in folder `docs`, with `d` renamed to `z`: the tree
      was in order, and afterwards `docs` holds `a`, `z`, `f`, out of order. */
  lemma RenameAsWrittenUnsorts()
    ensures var fa := FileItem("a", "docs/a", File, [], false);
      var fd := FileItem("d", "docs/d", File, [], false);
      var ff := FileItem("f", "docs/f", File, [], false);
      var root := [FileItem("docs", "docs", Folder, [fa, fd, ff], false)];
      && SortedTree(root)
      && !SortedTree(RenameItemAsWritten(root, "docs/d", "z").root)
  {
    var fa := FileItem("a", "docs/a", File, [], false);
    var fd := FileItem("d", "docs/d", File, [], false);
    var ff := FileItem("f", "docs/f", File, [], false);
    var docs := FileItem("docs", "docs", Folder, [fa, fd, ff], false);
    var root := [docs];
    assert KeyLe(fa, fd) && KeyLe(fd, ff) by {
      assert "a"[0] < "d"[0] < "f"[0];
    }
    assert Sorted([fa, fd, ff]);
    assert SortedTree([fa, fd, ff]);
    assert SortedTree(root);
    RenameAsWrittenInDocs();
    var moved := FileItem("z", "zocs/d", File, [], false);
    var kids := [fa, moved, ff];
    var r := RenameItemAsWritten(root, "docs/d", "z").root;
    assert !KeyLe(moved, ff) by {
      assert "z"[0] > "f"[0];
    }
    assert kids[1] == moved && kids[2] == ff;
    assert !Sorted(kids);
    assert !SortedTree(kids);
    assert r[0].kind == Folder && r[0].children == kids;
    assert !SortedBelow(r);
  }

  /** Descendant paths for a folder moved from `oldPrefix` to `newPrefix`: a
      path that continues the old prefix continues the new one instead. */
  function Reroot(items: seq<FileItem>, oldPrefix: string, newPrefix: string): (r: seq<FileItem>)
    ensures Relabelled(items, r, MovePrefix(oldPrefix, newPrefix))
  {
    RewritePaths(items, MovePrefix(oldPrefix, newPrefix))
  }

  /** Moving a subtree from `a` to `b` puts it below `b`, and moving it back
      restores it. */
  lemma {:induction false} RelabelledBack(x: seq<FileItem>, y: seq<FileItem>, z: seq<FileItem>, a: string, b: string)
    requires AllUnder(x, a) && Relabelled(x, y, MovePrefix(a, b)) && Relabelled(y, z, MovePrefix(b, a))
    ensures AllUnder(y, b) && z == x
    decreases x
  {
    forall k | 0 <= k < |x|
      ensures StartsWith(y[k].path, b + [SEP]) && z[k].path == x[k].path
      ensures x[k].kind == Folder ==> AllUnder(y[k].children, b) && z[k].children == x[k].children
    {
      var p := x[k].path;
      assert StartsWith(p, a + [SEP]);
      var moved := b + p[|a|..];
      assert y[k].path == moved;
      assert p[..|a| + 1] == a + [SEP];
      assert p[|a|] == SEP;
      assert moved[..|b| + 1] == b + [SEP];
      assert moved[|b|..] == p[|a|..];
      assert a + p[|a|..] == p;
      if x[k].kind == Folder {
        RelabelledBack(x[k].children, y[k].children, z[k].children, a, b);
      }
    }
    assert forall k :: 0 <= k < |x| ==> z[k] == x[k];
  }

  /** Moving a subtree from `a` to `b` puts it below `b`, and moving it back
      restores it. */
  lemma RerootBack(items: seq<FileItem>, a: string, b: string)
    requires AllUnder(items, a)
    ensures AllUnder(Reroot(items, a, b), b)
    ensures Reroot(Reroot(items, a, b), b, a) == items
  {
    RelabelledBack(items, Reroot(items, a, b), Reroot(Reroot(items, a, b), b, a), a, b);
  }

  /** The item the corrected rename makes of `n`: the new name as the last
      segment of a path under the same parent, and every path below a folder
      moved from the old path to the new one. */
  function RenamedNode(n: FileItem, newName: string): (m: FileItem)
    ensures m.name == newName && m.kind == n.kind && m.expanded == n.expanded
    ensures m.path == Sibling(n.path, newName)
    ensures n.kind == Folder ==> Relabelled(n.children, m.children, MovePrefix(n.path, m.path))
    ensures n.kind == File ==> m.children == n.children
  {
    var newPath := Sibling(n.path, newName);
    n.(name := newName, path := newPath,
       children := if n.kind == Folder then Reroot(n.children, n.path, newPath) else n.children)
  }

  /** The renamed item counts once at its own path and nowhere at a path as
      short as its own, when the old folder's paths all lay below the old path. */
  lemma RenamedCounts(n: FileItem, newName: string, q: string)
    requires n.kind == Folder ==> AllUnder(n.children, n.path)
    requires |q| <= |Sibling(n.path, newName)|
    ensures ItemCount(RenamedNode(n, newName), q, ANY) == if q == Sibling(n.path, newName) then 1 else 0
  {
    var m := RenamedNode(n, newName);
    ItemCountUnfold(m, q, ANY);
    if n.kind == Folder {
      RerootBack(n.children, n.path, m.path);
      UnderCountZero(m.children, m.path, q);
    }
  }

  /** The search finds an item at the old path and nothing at the new one, and
      when the item is a folder everything below it lies below the old path. */
  predicate FreeToRename(root: seq<FileItem>, oldPath: string, newName: string) {
    && Find(root, oldPath).Some?
    && Find(root, Sibling(oldPath, newName)).None?
    && (Find(root, oldPath).value.kind == Folder ==> AllUnder(Find(root, oldPath).value.children, oldPath))
  }

  /** When nothing was at the new path and a folder's paths all lay below its
      old path, the renamed item is what the search finds at the new path after
      the edit and the re-sort. */
  lemma RenameFinds(root: seq<FileItem>, oldPath: string, newName: string)
    ensures FreeToRename(root, oldPath, newName) ==>
      var n' := RenamedNode(Find(root, oldPath).value, newName);
      Find(Resort(Update(root, oldPath, Put(n')), n'.path), n'.path) == Some(n')
  {
    if FreeToRename(root, oldPath, newName) {
      var n := Find(root, oldPath).value;
      {
        var n' := RenamedNode(n, newName);
        var newPath := n'.path;
        var root' := Update(root, oldPath, Put(n'));
        FindIffCounted(root, newPath);
        FindPut(root, oldPath, n');
        PutCount(root, oldPath, n');
        RenamedCounts(n, newName, newPath);
        assert Count(root', newPath, ANY) + ItemCount(n, newPath, ANY) == 1;
        if NoSep(newPath) {
          SortCount(root');
          FindPermuted(Sort(root'), root', newPath);
        } else {
          var pp := ParentPath(newPath);
          RenamedCounts(n, newName, pp);
          FindAfterSortChildren(root', pp, newPath);
        }
      }
    }
  }

  /** `renameItem` as evidently intended: the item keeps its parent and takes
      the new name as its last segment, and the paths below a renamed folder
      move with it. The re-sort is as written. The renamed item's subtree of
      paths replaces the old one's, and the search finds the renamed item at
      its new path when nothing was there before. */
  function RenameItem(root: seq<FileItem>, oldPath: string, newName: string): (r: Renamed)
    ensures r.ok <==> Find(root, oldPath).Some?
    ensures !r.ok ==> r.root == root
    ensures r.ok ==> forall q, ks ::
      Count(r.root, q, ks) + ItemCount(Find(root, oldPath).value, q, ks)
        == Count(root, q, ks) + ItemCount(RenamedNode(Find(root, oldPath).value, newName), q, ks)
    ensures FreeToRename(root, oldPath, newName) ==>
      Find(r.root, Sibling(oldPath, newName)) == Some(RenamedNode(Find(root, oldPath).value, newName))
  {
    match Find(root, oldPath)
    case None => Renamed(root, false)
    case Some(n) =>
      var n' := RenamedNode(n, newName);
      PutCount(root, oldPath, n');
      RenameFinds(root, oldPath, newName);
      Renamed(Resort(Update(root, oldPath, Put(n')), n'.path), true)
  }

  /** The corrected rename keeps the item in its folder under the new name, and
      a folder's subtree moves with it and can be moved back. When nothing was
      at the new path, the search finds the renamed item there afterwards. */
  lemma RenameKeepsParent(root: seq<FileItem>, oldPath: string, newName: string)
    requires Find(root, oldPath).Some? && NoSep(newName)
    ensures var n := Find(root, oldPath).value;
      var n' := RenamedNode(n, newName);
      && ParentPath(n'.path) == ParentPath(oldPath)
      && LastSegment(n'.path) == newName
      && (n.kind == Folder && AllUnder(n.children, oldPath) ==>
            AllUnder(n'.children, n'.path) && Reroot(n'.children, n'.path, oldPath) == n.children)
      && (FreeToRename(root, oldPath, newName) ==> Find(RenameItem(root, oldPath, newName).root, n'.path) == Some(n'))
  {
    var n := Find(root, oldPath).value;
    if n.kind == Folder && AllUnder(n.children, oldPath) {
      RerootBack(n.children, oldPath, Sibling(n.path, newName));
    }
  }

  /** In a tree whose paths follow its shape and are unique, the corrected
      rename to a name without a separator keeps every list in order. */
  lemma RenameKeepsOrder(root: seq<FileItem>, oldPath: string, newName: string)
    requires SortedTree(root) && Placed(root, None) && Unique(root) && NoSep(newName)
    ensures SortedTree(RenameItem(root, oldPath, newName).root)
  {
    if Find(root, oldPath).Some? {
      var n := Find(root, oldPath).value;
      var n' := RenamedNode(n, newName);
      var newPath := n'.path;
      if n.kind == Folder {
        FoundTree(root, oldPath);
        RelabelledTree(n.children, n'.children, MovePrefix(n.path, n'.path));
        FoundPlaced(root, None, oldPath);
        PlacedUnder(n.children, oldPath, oldPath);
      }
      PutLeavesOneList(root, None, oldPath, n');
      var root' := Update(root, oldPath, Put(n'));
      if NoSep(oldPath) {
        ButSortedBelow(root', None);
        SortTree(root');
      } else {
        var pp := ParentPath(oldPath);
        assert ParentPath(newPath) == pp;
        RenamedCounts(n, newName, pp);
        PutCount(root, oldPath, n');
        assert Count(root', pp, ANY) <= 1;
        ResortFixes(root', None, pp);
      }
    }
  }

  // ---------------------------------------------------------------- building folders

  /** Round `i` of `createFolderStructure(path)`: a prefix of the path that the
      search does not find becomes a new empty folder, added with `addItem`
      under the previous prefix (or at the top level in round 0). */
  function CreateNext(root: seq<FileItem>, parts: seq<string>, i: nat): (r: seq<FileItem>)
    requires i < |parts|
    ensures SortedTree(root) ==> SortedTree(r)
  {
    var cur := Prefix(parts, i);
    assert SortedItem(NewFolder(parts[i], cur)) by {
      assert SortedTree(NewFolder(parts[i], cur).children);
    }
    if Find(root, cur).None? then AddItem(root, NewFolder(parts[i], cur), if i > 0 then Prefix(parts, i - 1) else "")
    else root
  }

  /** `createFolderStructure(path)` from round `i` on. */
  function CreateFrom(root: seq<FileItem>, parts: seq<string>, i: nat): (r: seq<FileItem>)
    requires i <= |parts|
    ensures SortedTree(root) ==> SortedTree(r)
    decreases |parts| - i
  {
    if i == |parts| then root
    else CreateFrom(CreateNext(root, parts, i), parts, i + 1)
  }

  /** `createFolderStructure(path)`: every prefix of the path the search does
      not find becomes an empty folder; every list stays in order. */
  function CreateFolderStructure(root: seq<FileItem>, path: string): (r: seq<FileItem>)
    ensures SortedTree(root) ==> SortedTree(r)
  {
    CreateFrom(root, Split(path), 0)
  }

  /** Adding an empty folder at a path the search does not find, at the top
      level or under a folder, counts it once at its own path and changes no
      other count. */
  lemma AddFolderCount(root: seq<FileItem>, name: string, cur: string, parentPath: string)
    requires Find(root, cur).None? && (parentPath == "" || IsFolderAt(root, parentPath))
    ensures var next := AddItem(root, NewFolder(name, cur), parentPath);
      forall q, ks :: Count(next, q, ks) == Count(root, q, ks) + (if q == cur && Folder in ks then 1 else 0)
  {
    var f := NewFolder(name, cur);
    forall q, ks
      ensures ItemCount(f, q, ks) == if q == cur && Folder in ks then 1 else 0
    {
      ItemCountUnfold(f, q, ks);
    }
  }

  /** The search finds the added empty folder at its path. */
  lemma AddFolderFound(root: seq<FileItem>, name: string, cur: string, parentPath: string)
    requires Find(root, cur).None? && (parentPath == "" || IsFolderAt(root, parentPath))
    ensures IsFolderAt(AddItem(root, NewFolder(name, cur), parentPath), cur)
  {
    var next := AddItem(root, NewFolder(name, cur), parentPath);
    FindIffCounted(root, cur);
    AddFolderCount(root, name, cur, parentPath);
    CountMono(root, cur, {File}, ANY);
    assert Count(next, cur, ANY) == 1 && Count(next, cur, {File}) == 0;
    FolderFound(next, cur);
  }

  /** Adding an empty folder at a path the search does not find adds no file,
      removes nothing, keeps paths unique, and leaves a folder there when it
      went in at the top level or under a folder. */
  lemma AddFolderFacts(root: seq<FileItem>, name: string, cur: string, parentPath: string)
    requires Find(root, cur).None?
    ensures var next := AddItem(root, NewFolder(name, cur), parentPath);
      && (forall q :: Count(next, q, {File}) == Count(root, q, {File}))
      && (forall q, ks :: Count(root, q, ks) <= Count(next, q, ks))
      && (Unique(root) ==> Unique(next))
      && (parentPath == "" || IsFolderAt(root, parentPath) ==> IsFolderAt(next, cur))
  {
    var f := NewFolder(name, cur);
    FindIffCounted(root, cur);
    if parentPath == "" || IsFolderAt(root, parentPath) {
      AddFolderCount(root, name, cur, parentPath);
      AddFolderFound(root, name, cur, parentPath);
      if Unique(root) {
        AddItemKeepsUnique(root, f, parentPath);
      }
    }
  }

  /** One round adds at most an empty folder at a path the search did not find,
      and leaves a folder at the current prefix when that prefix is no file and
      the previous one is a folder. */
  lemma CreateStep(root: seq<FileItem>, parts: seq<string>, i: nat)
    requires i < |parts|
    ensures var next := CreateNext(root, parts, i);
      && (forall q :: Count(next, q, {File}) == Count(root, q, {File}))
      && (forall q, ks :: Count(root, q, ks) <= Count(next, q, ks))
      && (Unique(root) ==> Unique(next))
      && (Count(root, Prefix(parts, i), {File}) == 0 && (i == 0 || IsFolderAt(root, Prefix(parts, i - 1))) ==>
            IsFolderAt(next, Prefix(parts, i)))
  {
    var cur := Prefix(parts, i);
    if Find(root, cur).None? {
      AddFolderFacts(root, parts[i], cur, if i > 0 then Prefix(parts, i - 1) else "");
    } else if Count(root, cur, {File}) == 0 {
      FoundFolder(root, cur);
    }
  }

  /** `createFolderStructure` from round `i` on adds no file, never removes
      anything and keeps paths unique. */
  lemma {:induction false} CreateCounts(root: seq<FileItem>, parts: seq<string>, i: nat)
    requires i <= |parts|
    ensures forall q :: Count(CreateFrom(root, parts, i), q, {File}) == Count(root, q, {File})
    ensures forall q, ks :: Count(root, q, ks) <= Count(CreateFrom(root, parts, i), q, ks)
    ensures Unique(root) ==> Unique(CreateFrom(root, parts, i))
    decreases |parts| - i
  {
    if i < |parts| {
      CreateStep(root, parts, i);
      CreateCounts(CreateNext(root, parts, i), parts, i + 1);
    }
  }

  /** When no prefix from round `i` on is a file and the previous prefix is a
      folder, `createFolderStructure` leaves a folder at every prefix from
      round `i` on. */
  lemma {:induction false} CreateReaches(root: seq<FileItem>, parts: seq<string>, i: nat)
    requires i <= |parts|
    requires NoFileAt(root, parts, i) && (i == 0 || i == |parts| || IsFolderAt(root, Prefix(parts, i - 1)))
    ensures forall j :: i <= j < |parts| ==> IsFolderAt(CreateFrom(root, parts, i), Prefix(parts, j))
    decreases |parts| - i
  {
    if i < |parts| {
      var cur := Prefix(parts, i);
      var next := CreateNext(root, parts, i);
      CreateStep(root, parts, i);
      assert NoFileAt(next, parts, i + 1) by {
        forall j | i + 1 <= j < |parts|
          ensures Count(next, Prefix(parts, j), {File}) == 0
        {
          assert Count(root, Prefix(parts, j), {File}) == 0;
        }
      }
      CreateReaches(next, parts, i + 1);
      CreateCounts(next, parts, i + 1);
      var r := CreateFrom(next, parts, i + 1);
      FindIffCounted(next, cur);
      assert Count(r, cur, ANY) >= Count(next, cur, ANY);
      assert Count(r, cur, {File}) == Count(next, cur, {File});
      FolderFound(r, cur);
    }
  }

  /** `createFolderStructure` adds only folders, never removes anything, keeps
      paths unique, and, when no prefix of the path is a file, leaves a folder
      at every prefix from round `i` on. */
  lemma CreateFromFacts(root: seq<FileItem>, parts: seq<string>, i: nat)
    requires i <= |parts|
    ensures forall q :: Count(CreateFrom(root, parts, i), q, {File}) == Count(root, q, {File})
    ensures forall q, ks :: Count(root, q, ks) <= Count(CreateFrom(root, parts, i), q, ks)
    ensures Unique(root) ==> Unique(CreateFrom(root, parts, i))
    ensures NoFileAt(root, parts, i) && (i == 0 || i == |parts| || IsFolderAt(root, Prefix(parts, i - 1))) ==>
      forall j :: i <= j < |parts| ==> IsFolderAt(CreateFrom(root, parts, i), Prefix(parts, j))
  {
    CreateCounts(root, parts, i);
    if NoFileAt(root, parts, i) && (i == 0 || i == |parts| || IsFolderAt(root, Prefix(parts, i - 1))) {
      CreateReaches(root, parts, i);
    }
  }

  /** The whole of `createFolderStructure`: when no prefix of the path is a
      file, the search afterwards finds a folder at every prefix, the path
      itself included. */
  lemma CreateFolderStructureFacts(root: seq<FileItem>, path: string)
    ensures forall q :: Count(CreateFolderStructure(root, path), q, {File}) == Count(root, q, {File})
    ensures forall q, ks :: Count(root, q, ks) <= Count(CreateFolderStructure(root, path), q, ks)
    ensures Unique(root) ==> Unique(CreateFolderStructure(root, path))
    ensures NoFileAt(root, Split(path), 0) ==>
      && (forall j :: 0 <= j < |Split(path)| ==> IsFolderAt(CreateFolderStructure(root, path), Prefix(Split(path), j)))
      && IsFolderAt(CreateFolderStructure(root, path), path)
  {
    var parts := Split(path);
    CreateFromFacts(root, parts, 0);
    PrefixLast(parts);
    JoinSplit(path);
  }

  /** `addFileToPath(file, relativePath)`: with no relative path, or one
      without a separator, the file joins the top level; otherwise the folders
      of the path before its last segment are created and the file is added to
      the last of them. */
  function AddFileToPath(root: seq<FileItem>, file: FileItem, relativePath: string): (r: seq<FileItem>)
    ensures SortedTree(root) && SortedItem(file) ==> SortedTree(r)
  {
    AddRootTree(root, file);
    if relativePath == "" then Sort(root + [file])
    else
      var parts := Split(relativePath);
      if |parts| == 1 then Sort(root + [file])
      else
        var folderPath := Join(parts[..|parts| - 1]);
        AddItem(CreateFolderStructure(root, folderPath), file, folderPath)
  }

  /** Where `addFileToPath` puts the file: at the top level for a path without
      a separator, and otherwise inside the folder at the relative path's parent
      path, provided no prefix of that parent path is a file. The file is then
      added exactly once and no other file appears. */
  lemma AddFileToPathPlaces(root: seq<FileItem>, file: FileItem, relativePath: string)
    ensures NoSep(relativePath) ==> file in AddFileToPath(root, file, relativePath)
    ensures var parent := ParentPath(relativePath);
      !NoSep(relativePath) && NoFileAt(root, Split(parent), 0) ==>
      var r := AddFileToPath(root, file, relativePath);
      && (parent == "" ==> file in r)
      && (parent != "" ==> IsFolderAt(r, parent) && file in Find(r, parent).value.children)
      && (forall q :: Count(r, q, {File}) == Count(root, q, {File}) + ItemCount(file, q, {File}))
  {
    var r := AddFileToPath(root, file, relativePath);
    if NoSep(relativePath) {
      assert file in multiset(root + [file]);
      assert file in multiset(Sort(root + [file]));
    } else {
      var parts := Split(relativePath);
      SplitLast(relativePath);
      var parent := ParentPath(relativePath);
      assert Join(parts[..|parts| - 1]) == parent;
      var built := CreateFolderStructure(root, parent);
      CreateFolderStructureFacts(root, parent);
      AddItemPlaces(built, file, parent);
      if NoFileAt(root, Split(parent), 0) {
        assert r == AddItem(built, file, parent);
        assert parent == "" || IsFolderAt(built, parent);
      }
    }
  }
}
