/** The file trees of the `workplace` and `fileTree` stores. The two stores share
    `sortItems`, `findItemByPath`, `createFolderStructure`, `addItem`,
    `toggleFolder`, `selectFile` and `getFlatFileList` line for line, so they
    are modelled once; `getAllFolders` and `removeFileFromTree` belong to the
    `workplace` store only. The two archive loaders differ only in where an
    entry's path is placed. */
module TreeStore {
  import opened Common
  import opened PathStrings
  import opened FileItems
  import opened TreeOrder

  // ---------------------------------------------------------------- building folders

  /** The list `createFolderStructure` pushes into next: the top level, the
      children of the item the search finds at a path, or no list at all,
      when the item found is a file without children, on which a push throws
      a `TypeError`. A file that carries children gives its list, as a folder
      does. A list the search cannot reach (one inside a file's children) is
      named by its path too; the search finds nothing there, so a push onto
      it leaves the tree as it was. */
  datatype Place = AtRoot | Under(path: string) | Nowhere

  /** The tree after `createFolderStructure`, and whether it ran to the end. */
  datatype Built = Built(root: seq<FileItem>, ok: bool)

  /** `parentFolder.push(folder)` followed by `sortItems(parentFolder)`. */
  function Push(root: seq<FileItem>, place: Place, x: FileItem): (r: Option<seq<FileItem>>)
    ensures r.Some? <==> place != Nowhere
    ensures r.Some? && SortedTree(root) && SortedItem(x) ==> SortedTree(r.value)
  {
    match place
    case AtRoot =>
      AddRootTree(root, x);
      Some(Sort(root + [x]))
    case Under(q) =>
      AddChildTree(root, q, x);
      Some(Update(root, q, AddChild(x)))
    case Nowhere => None
  }

  /** A place that names a list names the children of a folder. */
  predicate PlaceOk(root: seq<FileItem>, place: Place) {
    place.Under? ==> IsFolderAt(root, place.path)
  }

  /** A push onto a list adds exactly the pushed item's paths. */
  lemma PushCount(root: seq<FileItem>, place: Place, x: FileItem)
    requires PlaceOk(root, place) && place != Nowhere
    ensures Push(root, place, x).Some?
    ensures forall q, ks :: Count(Push(root, place, x).value, q, ks) == Count(root, q, ks) + ItemCount(x, q, ks)
  {
    match place
    case AtRoot => AddRootCount(root, x);
    case Under(q) => AddChildCount(root, q, x);
  }

  /** `createFolderStructure` from round `i` on. Each round searches the whole
      tree for the next prefix: a missing prefix becomes an empty folder pushed
      onto the current list, whose children list becomes the current one; the
      children of a found folder, or of a found file that carries some, become
      the current list, and a found file without children leaves none. */
  function BuildFrom(root: seq<FileItem>, parts: seq<string>, i: nat, place: Place): (r: Built)
    requires i <= |parts|
    ensures SortedTree(root) ==> SortedTree(r.root)
    decreases |parts| - i
  {
    if i == |parts| then Built(root, true)
    else
      var cur := Prefix(parts, i);
      assert SortedItem(NewFolder(parts[i], cur)) by {
        assert SortedTree(NewFolder(parts[i], cur).children);
      }
      match Find(root, cur)
      case None =>
        (match Push(root, place, NewFolder(parts[i], cur))
         case None => Built(root, false)
         case Some(next) => BuildFrom(next, parts, i + 1, Under(cur)))
      case Some(n) =>
        BuildFrom(root, parts, i + 1, NextPlace(n))
  }

  /** `parentFolder = currentFile.children!` for the item found at a prefix. */
  function NextPlace(n: FileItem): (place: Place)
    ensures place == Nowhere <==> n.kind != Folder && n.children == []
    ensures place != Nowhere ==> place == Under(n.path)
  {
    if n.kind == Folder || n.children != [] then Under(n.path) else Nowhere
  }

  /** `createFolderStructure(path)` from the top level; every list stays in
      order, whether or not it runs to the end. */
  function CreateFolderStructure(root: seq<FileItem>, path: string): (r: Built)
    ensures SortedTree(root) ==> SortedTree(r.root)
  {
    BuildFrom(root, Split(path), 0, AtRoot)
  }

  /** Pushing an empty folder at path `cur` adds one folder at `cur` and
      nothing else. */
  lemma PushFolderCounts(root: seq<FileItem>, place: Place, name: string, cur: string)
    requires PlaceOk(root, place) && place != Nowhere
    ensures var next := Push(root, place, NewFolder(name, cur));
      && next.Some?
      && (forall q :: Count(next.value, q, {File}) == Count(root, q, {File}))
      && (forall q, ks :: Count(next.value, q, ks) == Count(root, q, ks) + (if q == cur && Folder in ks then 1 else 0))
  {
    var f := NewFolder(name, cur);
    PushCount(root, place, f);
    var next := Push(root, place, f).value;
    forall q, ks
      ensures Count(next, q, ks) == Count(root, q, ks) + (if q == cur && Folder in ks then 1 else 0)
    {
      assert ItemCount(f, q, ks) == if q == cur && Folder in ks then 1 else 0;
    }
  }

  /** One round that pushes a new empty folder: no file appears, nothing
      disappears, no path longer than the folder path is touched, paths stay
      unique, and the search then finds a folder at the current prefix. */
  lemma PushFolderFacts(root: seq<FileItem>, parts: seq<string>, i: nat, place: Place)
    requires i < |parts| && PlaceOk(root, place) && place != Nowhere
    requires Find(root, Prefix(parts, i)).None?
    ensures var next := Push(root, place, NewFolder(parts[i], Prefix(parts, i)));
      && next.Some?
      && (forall q :: Count(next.value, q, {File}) == Count(root, q, {File}))
      && (forall q, ks :: Count(root, q, ks) <= Count(next.value, q, ks))
      && (forall q, ks :: |q| > |Join(parts)| ==> Count(next.value, q, ks) == Count(root, q, ks))
      && (Unique(root) ==> Unique(next.value))
      && IsFolderAt(next.value, Prefix(parts, i))
  {
    var cur := Prefix(parts, i);
    PushFolderCounts(root, place, parts[i], cur);
    var next := Push(root, place, NewFolder(parts[i], cur)).value;
    FindIffCounted(root, cur);
    CountMono(root, cur, {File}, ANY);
    assert Count(next, cur, ANY) == 1 && Count(next, cur, {File}) == 0;
    FolderFound(next, cur);
    PrefixShorter(parts, i);
    if Unique(root) {
      forall q
        ensures Count(next, q, ANY) <= 1
      {
        assert Count(next, q, ANY) == Count(root, q, ANY) + (if q == cur then 1 else 0);
      }
    }
  }

  /** From `before` to `after` only empty folders at paths no longer than
      `bound` were added: no file appears, nothing disappears, no longer path
      is touched, and unique paths stay unique. */
  ghost predicate FoldersOnly(before: seq<FileItem>, after: seq<FileItem>, bound: nat) {
    && (forall q :: Count(after, q, {File}) == Count(before, q, {File}))
    && (forall q, ks :: Count(before, q, ks) <= Count(after, q, ks))
    && (forall q, ks :: |q| > bound ==> Count(after, q, ks) == Count(before, q, ks))
    && (Unique(before) ==> Unique(after))
  }

  lemma FoldersOnlyTrans(a: seq<FileItem>, b: seq<FileItem>, c: seq<FileItem>, bound: nat)
    requires FoldersOnly(a, b, bound) && FoldersOnly(b, c, bound)
    ensures FoldersOnly(a, c, bound)
  {
  }

  /** A push onto a list the search does not reach, the children of a file or
      a list below them, changes no count. */
  lemma PushUnreached(root: seq<FileItem>, q: string, x: FileItem)
    requires !IsFolderAt(root, q)
    ensures Push(root, Under(q), x).Some?
    ensures forall p, ks :: Count(Push(root, Under(q), x).value, p, ks) == Count(root, p, ks)
  {
    if Find(root, q).Some? {
      var n := Find(root, q).value;
      forall p, ks
        ensures Count(Push(root, Under(q), x).value, p, ks) == Count(root, p, ks)
      {
        UpdateCount(root, q, AddChild(x), p, ks);
        ItemCountUnfold(n, p, ks);
        ItemCountUnfold(AddChild(x)(n), p, ks);
      }
    }
  }

  /** `createFolderStructure` adds only empty folders at prefixes of the path,
      whether it runs to the end or throws: no file appears, nothing
      disappears, no path longer than the folder path is touched, and paths
      stay unique. */
  lemma {:induction false} BuildCounts(root: seq<FileItem>, parts: seq<string>, i: nat, place: Place)
    requires i <= |parts|
    ensures FoldersOnly(root, BuildFrom(root, parts, i, place).root, |Join(parts)|)
    decreases |parts| - i, 1
  {
    if i < |parts| {
      var cur := Prefix(parts, i);
      match Find(root, cur)
      case None =>
        if place != Nowhere {
          BuildCountsPush(root, parts, i, place);
        }
      case Some(n) =>
        var place' := NextPlace(n);
        assert BuildFrom(root, parts, i, place) == BuildFrom(root, parts, i + 1, place');
        BuildCounts(root, parts, i + 1, place');
    }
  }

  /** A folder with no file at its path stays found while later rounds build
      below it. */
  lemma BuildKeepsFolder(root: seq<FileItem>, parts: seq<string>, i: nat, cur: string)
    requires i <= |parts| && IsFolderAt(root, cur) && Count(root, cur, {File}) == 0
    ensures IsFolderAt(BuildFrom(root, parts, i, Under(cur)).root, cur)
  {
    BuildCounts(root, parts, i, Under(cur));
    StaysFolder(root, BuildFrom(root, parts, i, Under(cur)).root, cur);
  }

  /** One round with no file at the current prefix: it leaves a folder there,
      adds no file, and moves on to that folder's children. */
  lemma BuildStep(root: seq<FileItem>, parts: seq<string>, i: nat, place: Place) returns (next: seq<FileItem>)
    requires i < |parts| && PlaceOk(root, place) && place != Nowhere
    requires NoFileAt(root, parts, i)
    ensures IsFolderAt(next, Prefix(parts, i)) && Count(next, Prefix(parts, i), {File}) == 0
    ensures NoFileAt(next, parts, i + 1)
    ensures BuildFrom(root, parts, i, place) == BuildFrom(next, parts, i + 1, Under(Prefix(parts, i)))
  {
    var cur := Prefix(parts, i);
    if Find(root, cur).None? {
      PushFolderFacts(root, parts, i, place);
      next := Push(root, place, NewFolder(parts[i], cur)).value;
      forall j | i + 1 <= j < |parts|
        ensures Count(next, Prefix(parts, j), {File}) == 0
      {
        assert Count(root, Prefix(parts, j), {File}) == 0;
      }
    } else {
      next := root;
      FoundFolder(root, cur);
    }
  }

  /** The round of `BuildCounts` that pushes a new folder. */
  lemma {:induction false} BuildCountsPush(root: seq<FileItem>, parts: seq<string>, i: nat, place: Place)
    requires i < |parts| && place != Nowhere
    requires Find(root, Prefix(parts, i)).None?
    ensures FoldersOnly(root, BuildFrom(root, parts, i, place).root, |Join(parts)|)
    decreases |parts| - i, 0
  {
    var cur := Prefix(parts, i);
    if PlaceOk(root, place) {
      PushFolderFacts(root, parts, i, place);
    } else {
      PushUnreached(root, place.path, NewFolder(parts[i], cur));
    }
    var next := Push(root, place, NewFolder(parts[i], cur)).value;
    assert FoldersOnly(root, next, |Join(parts)|);
    assert BuildFrom(root, parts, i, place) == BuildFrom(next, parts, i + 1, Under(cur));
    BuildCounts(next, parts, i + 1, Under(cur));
    FoldersOnlyTrans(root, next, BuildFrom(next, parts, i + 1, Under(cur)).root, |Join(parts)|);
  }

  /** When no remaining prefix is a file and there is a list to push onto,
      `createFolderStructure` runs to the end and leaves a folder at every
      remaining prefix. */
  lemma {:induction false} BuildReaches(root: seq<FileItem>, parts: seq<string>, i: nat, place: Place)
    requires i <= |parts| && PlaceOk(root, place) && place != Nowhere
    requires NoFileAt(root, parts, i)
    ensures var r := BuildFrom(root, parts, i, place);
      r.ok && forall j :: i <= j < |parts| ==> IsFolderAt(r.root, Prefix(parts, j))
    decreases |parts| - i
  {
    if i < |parts| {
      var cur := Prefix(parts, i);
      var next := BuildStep(root, parts, i, place);
      var r := BuildFrom(next, parts, i + 1, Under(cur));
      BuildReaches(next, parts, i + 1, Under(cur));
      BuildKeepsFolder(next, parts, i + 1, cur);
      forall j | i <= j < |parts|
        ensures IsFolderAt(r.root, Prefix(parts, j))
      {
        if j > i {
          assert i + 1 <= j < |parts|;
        }
      }
    }
  }

  /** The same facts for a whole folder path. */
  lemma CreateFacts(root: seq<FileItem>, path: string)
    ensures var r := CreateFolderStructure(root, path);
      && (forall q :: Count(r.root, q, {File}) == Count(root, q, {File}))
      && (forall q, ks :: Count(root, q, ks) <= Count(r.root, q, ks))
      && (forall q, ks :: |q| > |path| ==> Count(r.root, q, ks) == Count(root, q, ks))
      && (Unique(root) ==> Unique(r.root))
      && (NoFileAt(root, Split(path), 0) ==> r.ok && IsFolderAt(r.root, path))
  {
    var parts := Split(path);
    JoinSplit(path);
    BuildCounts(root, parts, 0, AtRoot);
    if NoFileAt(root, parts, 0) {
      BuildReaches(root, parts, 0, AtRoot);
      PrefixLast(parts);
    }
  }

  // ---------------------------------------------------------------- adding

  /** What `addItem` did: returned early on a path already present, added the
      item, dropped it (its parent path names a file), or threw while creating
      the parent folders. `Skipped` is an archive entry with no bytes. */
  datatype Outcome = Duplicate | Added | Dropped | Threw | Skipped

  datatype Stored = Stored(root: seq<FileItem>, outcome: Outcome)

  /** `addItem(item)`: an item whose path is already present is ignored; one at
      the top level joins it; otherwise the parent folders are created when the
      parent path is missing, and the item joins the children of the folder the
      search then finds at the parent path. */
  function AddItem(root: seq<FileItem>, item: FileItem): (r: Stored)
    ensures r.outcome == Duplicate <==> Find(root, item.path).Some?
    ensures r.outcome == Duplicate ==> r.root == root
    ensures r.outcome != Skipped
    ensures SortedTree(root) && SortedItem(item) ==> SortedTree(r.root)
  {
    if Find(root, item.path).Some? then Stored(root, Duplicate)
    else
      var parentPath := ParentPath(item.path);
      AddRootTree(root, item);
      if parentPath == "" then Stored(Sort(root + [item]), Added)
      else
        var b := if Find(root, parentPath).None? then CreateFolderStructure(root, parentPath) else Built(root, true);
        AddChildTree(b.root, parentPath, item);
        if !b.ok then Stored(b.root, Threw)
        else if IsFolderAt(b.root, parentPath) then Stored(Update(b.root, parentPath, AddChild(item)), Added)
        else Stored(b.root, Dropped)
  }

  /** `addItem` below the top level, for a path not yet present: the same facts
      as `AddItemFacts`, from those of `createFolderStructure` and of the push. */
  lemma AddNestedFacts(root: seq<FileItem>, item: FileItem)
    requires Find(root, item.path).None? && ParentPath(item.path) != ""
    ensures var r := AddItem(root, item);
      && (forall q :: Count(r.root, q, {File}) == Count(root, q, {File}) + (if r.outcome == Added then ItemCount(item, q, {File}) else 0))
      && (forall q, ks :: Count(root, q, ks) <= Count(r.root, q, ks))
      && (Unique(root) && (item.kind == File || item.children == []) ==> Unique(r.root))
      && (r.outcome == Added ==> Count(r.root, item.path, ANY) > 0)
  {
    var parentPath := ParentPath(item.path);
    var b := if Find(root, parentPath).None? then CreateFolderStructure(root, parentPath) else Built(root, true);
    FindIffCounted(root, item.path);
    CreateFacts(root, parentPath);
    assert |item.path| > |parentPath|;
    assert Count(b.root, item.path, ANY) == 0;
    if b.ok && IsFolderAt(b.root, parentPath) {
      var r := AddItem(root, item);
      AddChildCount(b.root, parentPath, item);
      if Unique(root) && (item.kind == File || item.children == []) {
        AddKeepsUnique(b.root, r.root, item);
      }
      assert Count(r.root, item.path, ANY) >= ItemCount(item, item.path, ANY);
    }
  }

  /** `addItem` never removes anything and adds no file but the item; it keeps
      paths unique; and afterwards an added or already present path is found. */
  lemma AddItemFacts(root: seq<FileItem>, item: FileItem)
    ensures var r := AddItem(root, item);
      && (forall q :: Count(r.root, q, {File}) == Count(root, q, {File}) + (if r.outcome == Added then ItemCount(item, q, {File}) else 0))
      && (forall q, ks :: Count(root, q, ks) <= Count(r.root, q, ks))
      && (Unique(root) && (item.kind == File || item.children == []) ==> Unique(r.root))
      && (r.outcome == Added || r.outcome == Duplicate ==> Find(r.root, item.path).Some?)
  {
    var r := AddItem(root, item);
    if r.outcome != Duplicate {
      FindIffCounted(root, item.path);
      if ParentPath(item.path) == "" {
        AddRootCount(root, item);
        if Unique(root) && (item.kind == File || item.children == []) {
          AddKeepsUnique(root, r.root, item);
        }
        assert Count(r.root, item.path, ANY) >= ItemCount(item, item.path, ANY);
      } else {
        AddNestedFacts(root, item);
      }
      FindIffCounted(r.root, item.path);
    }
  }

  /** An item added below the top level sits among the children of the folder
      the search finds at its parent path. */
  lemma AddedAmongChildren(root: seq<FileItem>, item: FileItem)
    requires AddItem(root, item).outcome == Added && ParentPath(item.path) != ""
    ensures var r := AddItem(root, item);
      IsFolderAt(r.root, ParentPath(item.path)) && item in Find(r.root, ParentPath(item.path)).value.children
  {
    var parentPath := ParentPath(item.path);
    var b := if Find(root, parentPath).None? then CreateFolderStructure(root, parentPath) else Built(root, true);
    var n := Find(b.root, parentPath).value;
    assert AddChild(item)(n) == n.(children := Sort(n.children + [item]));
    FindAfterUpdate(b.root, parentPath, AddChild(item));
    assert item in multiset(n.children + [item]);
    assert item in multiset(Sort(n.children + [item]));
  }

  /** A new item is always added when no prefix of its parent path is a file. */
  lemma AddItemSure(root: seq<FileItem>, item: FileItem)
    requires Find(root, item.path).None? && NoFileAt(root, Split(ParentPath(item.path)), 0)
    ensures AddItem(root, item).outcome == Added
  {
    var parentPath := ParentPath(item.path);
    if parentPath != "" {
      CreateFacts(root, parentPath);
      if Find(root, parentPath).Some? {
        var parts := Split(parentPath);
        JoinSplit(parentPath);
        PrefixLast(parts);
        assert Count(root, Prefix(parts, |parts| - 1), {File}) == 0;
        FoundFolder(root, parentPath);
      }
    }
  }

  /** The paths of the example below. */
  lemma FileParentPaths()
    ensures Split("a/b") == ["a", "b"]
    ensures Prefix(["a", "b"], 0) == "a" && Prefix(["a", "b"], 1) == "a/b"
  {
    var parts := ["a", "b"];
    assert parts[..1] == ["a"] && parts[..2] == parts;
    assert Join(parts) == "a/b" by {
      assert parts[..|parts| - 1] == ["a"];
    }
    assert NoSep(parts[0]) && NoSep(parts[1]);
    SplitJoin(parts);
  }

  lemma FileParentItemPath()
    ensures ParentPath("a/b/c") == "a/b"
  {
    assert "a/b/c"[3] == SEP && "a/b/c"[4..] == "c";
    LastSepIsLast("a/b/c", 3);
  }

  /** Pushing the folder `a/b` into the file `a`'s list puts it before `a/x`. */
  lemma FileParentPush(a: FileItem, x: FileItem)
    requires x == FileItem("x", "a/x", File, [], false) && a == FileItem("a", "a", File, [x], false)
    ensures Push([a], Under("a"), NewFolder("b", "a/b")) == Some([a.(children := [NewFolder("b", "a/b"), x])])
  {
    var b := NewFolder("b", "a/b");
    assert Sort([x, b]) == [b, x] by {
      assert Sort([x]) == [x];
    }
    assert Find([a], "a") == Some(a);
    assert Update([a], "a", AddChild(b)) == [AddChild(b)(a)];
  }

  /** A file that carries children takes the folders built below it into its
      own list, as a folder would: building `a/b` below the file `a` holding
      `a/x` puts a folder `a/b` among `a`'s children and throws nothing. */
  lemma FileParentBuilds()
    ensures var x := FileItem("x", "a/x", File, [], false);
      var a := FileItem("a", "a", File, [x], false);
      CreateFolderStructure([a], "a/b") == Built([a.(children := [NewFolder("b", "a/b"), x])], true)
  {
    var x := FileItem("x", "a/x", File, [], false);
    var a := FileItem("a", "a", File, [x], false);
    var a' := a.(children := [NewFolder("b", "a/b"), x]);
    var parts := ["a", "b"];
    FileParentPaths();
    assert Find([a], "a") == Some(a);
    assert BuildFrom([a], parts, 0, AtRoot) == BuildFrom([a], parts, 1, Under("a"));
    assert Find([a], "a/b").None?;
    FileParentPush(a, x);
    assert BuildFrom([a], parts, 1, Under("a")) == BuildFrom([a'], parts, 2, Under("a/b"));
  }

  /** Adding a file at `a/b/c` there builds the folder inside the file's list,
      and then drops the item, since the search never looks inside a file. */
  lemma FileParentDrops(c: FileItem)
    requires c.path == "a/b/c"
    ensures var x := FileItem("x", "a/x", File, [], false);
      var a := FileItem("a", "a", File, [x], false);
      AddItem([a], c) == Stored([a.(children := [NewFolder("b", "a/b"), x])], Dropped)
  {
    var x := FileItem("x", "a/x", File, [], false);
    var a := FileItem("a", "a", File, [x], false);
    var a' := a.(children := [NewFolder("b", "a/b"), x]);
    FileParentItemPath();
    FileParentBuilds();
    assert Find([a], "a/b/c").None?;
    assert Find([a], "a/b").None?;
    assert !IsFolderAt([a'], "a/b") by {
      assert Find([a'], "a/b").None?;
    }
  }

  /** A top-level item `d` next to a lone file `a` is added. */
  lemma TopLevelItemAdded(a: FileItem, d: FileItem)
    requires a.path == "a" && a.kind == File && d.path == "d"
    ensures AddItem([a], d).outcome == Added
  {
    assert NoSep("d");
    assert Find([a], "d").None?;
  }

  /** The same for the archive entry `d`. */
  lemma TopLevelEntryAdded(a: FileItem)
    requires a.path == "a" && a.kind == File
    ensures EntryStep([a], ZipEntry("d", 1), None).outcome == Added
  {
    TopLevelItemAdded(a, EntryFile(None, ZipEntry("d", 1)));
  }

  /** Two entries, neither of which throws, give their two outcomes. */
  lemma FoldTwo(root: seq<FileItem>, e1: ZipEntry, e2: ZipEntry, step: Step)
    requires step(root, e1).outcome != Threw && step(step(root, e1).root, e2).outcome != Threw
    ensures Fold(root, [e1, e2], step).outcomes == [step(root, e1).outcome, step(step(root, e1).root, e2).outcome]
  {
    var s1 := step(root, e1);
    assert [e1, e2][1..] == [e2] && [e2][1..] == [];
    assert Fold(step(s1.root, e2).root, [], step).outcomes == [];
    assert Fold(s1.root, [e2], step).outcomes == [step(s1.root, e2).outcome];
  }

  /** The archive loop goes on past such an entry: the entry `a/b/c` is
      dropped and a later top-level entry `d` is still added. */
  lemma FileParentArchiveContinues()
    ensures var x := FileItem("x", "a/x", File, [], false);
      var a := FileItem("a", "a", File, [x], false);
      AddEntries([a], [ZipEntry("a/b/c", 1), ZipEntry("d", 1)], None).outcomes == [Dropped, Added]
  {
    var x := FileItem("x", "a/x", File, [], false);
    var a := FileItem("a", "a", File, [x], false);
    var a' := a.(children := [NewFolder("b", "a/b"), x]);
    var e1, e2 := ZipEntry("a/b/c", 1), ZipEntry("d", 1);
    var step := EntryStepFor(None);
    FileParentDrops(EntryFile(None, e1));
    assert step([a], e1) == Stored([a'], Dropped);
    TopLevelEntryAdded(a');
    assert step([a'], e2).outcome == Added;
    FoldTwo([a], e1, e2, step);
    AddEntriesFolds([a], [e1, e2], None);
  }

  /** The archive loop is the fold of its entry step. */
  lemma AddEntriesFolds(root: seq<FileItem>, entries: seq<ZipEntry>, robot: Option<string>)
    ensures AddEntries(root, entries, robot) == Fold(root, entries, EntryStepFor(robot))
  {
  }

  /** Where `addItem` puts a new item, and when it is sure to: if no prefix of
      the parent path is a file, a new item is always added, either at the top
      level or among the children of the folder at its parent path. */
  lemma AddItemPlaces(root: seq<FileItem>, item: FileItem)
    ensures var r := AddItem(root, item);
      var parentPath := ParentPath(item.path);
      && (r.outcome == Added && parentPath == "" ==> item in r.root)
      && (r.outcome == Added && parentPath != "" ==>
            IsFolderAt(r.root, parentPath) && item in Find(r.root, parentPath).value.children)
      && (Find(root, item.path).None? && NoFileAt(root, Split(parentPath), 0) ==> r.outcome == Added)
  {
    var r := AddItem(root, item);
    var parentPath := ParentPath(item.path);
    if r.outcome == Added && parentPath == "" {
      assert item in multiset(root + [item]);
      assert item in multiset(r.root);
    }
    if r.outcome == Added && parentPath != "" {
      AddedAmongChildren(root, item);
    }
    if Find(root, item.path).None? && NoFileAt(root, Split(parentPath), 0) {
      AddItemSure(root, item);
    }
  }

  // ---------------------------------------------------------------- removing

  datatype Taken = Taken(root: seq<FileItem>, removed: Option<FileItem>)

  /** `removeFileFromTree(item)`: at the top level, or among the children of the
      item the search finds at the item's parent path, the first item with
      the item's path is cut out. Nothing is re-sorted. The parent's kind is
      not consulted: any item may carry children, and a missing children list
      is the empty one, from which nothing is cut. */
  function RemoveFileFromTree(root: seq<FileItem>, item: FileItem): (r: Taken)
    ensures r.removed.None? ==> r.root == root
    ensures r.removed.Some? ==> r.removed.value.path == item.path
    ensures r.removed.Some? <==>
      if ParentPath(item.path) == "" then TakeFirst(root, item.path).Some?
      else Find(root, ParentPath(item.path)).Some? && TakeFirst(Find(root, ParentPath(item.path)).value.children, item.path).Some?
  {
    var parentPath := ParentPath(item.path);
    if parentPath == "" then
      match TakeFirst(root, item.path)
      case None => Taken(root, None)
      case Some(rm) => Taken(rm.rest, Some(rm.removed))
    else
      match Find(root, parentPath)
      case None => Taken(root, None)
      case Some(n) =>
        match TakeFirst(n.children, item.path)
        case None => Taken(root, None)
        case Some(rm) => Taken(Update(root, parentPath, Put(n.(children := rm.rest))), Some(rm.removed))
  }

  /** The list a removal cuts from is one the search reaches: the top level,
      or the children of a folder. A file's children are not. */
  predicate ParentReached(root: seq<FileItem>, item: FileItem) {
    ParentPath(item.path) == "" || IsFolderAt(root, ParentPath(item.path))
  }

  /** A removal keeps every list in order: the list the item is cut from keeps
      its order, and nothing else changes. */
  lemma RemoveKeepsOrder(root: seq<FileItem>, item: FileItem)
    requires SortedTree(root)
    ensures SortedTree(RemoveFileFromTree(root, item).root)
  {
    var parentPath := ParentPath(item.path);
    if parentPath == "" {
      if TakeFirst(root, item.path).Some? {
        TakeFirstTree(root, item.path);
      }
    } else if Find(root, parentPath).Some? {
      var n := Find(root, parentPath).value;
      if TakeFirst(n.children, item.path).Some? {
        var n' := n.(children := TakeFirst(n.children, item.path).value.rest);
        if n.kind == Folder {
          FoundTree(root, parentPath);
          TakeFirstTree(n.children, item.path);
        }
        assert Put(n')(n) == n';
        UpdateTree(root, parentPath, Put(n'));
      }
    }
  }

  /** A file that carries children loses the named child as a folder would:
      removing `a/b` from below the file `a` cuts it from `a`'s children. */
  lemma FileParentRemoves()
    ensures var b := FileItem("b", "a/b", File, [], false);
      var a := FileItem("a", "a", File, [b], false);
      RemoveFileFromTree([a], b) == Taken([a.(children := [])], Some(b))
  {
    var b := FileItem("b", "a/b", File, [], false);
    var a := FileItem("a", "a", File, [b], false);
    assert ParentPath("a/b") == "a";
    assert Find([a], "a") == Some(a);
    assert TakeFirst([b], "a/b") == Some(Removal([], b));
  }

  /** A removal from a list the search reaches takes away exactly the removed
      item's subtree; with unique paths, the path is gone afterwards. A removal
      from a file's children changes no count, since neither the search nor
      the counts descend into a file. Either way the paths stay unique. */
  lemma RemoveFacts(root: seq<FileItem>, item: FileItem)
    ensures var r := RemoveFileFromTree(root, item);
      && (r.removed.Some? && ParentReached(root, item) ==>
            forall q, ks :: Count(r.root, q, ks) + ItemCount(r.removed.value, q, ks) == Count(root, q, ks))
      && (!ParentReached(root, item) ==> forall q, ks :: Count(r.root, q, ks) == Count(root, q, ks))
      && (Unique(root) ==> Unique(r.root))
      && (Unique(root) && r.removed.Some? && ParentReached(root, item) ==> Count(r.root, item.path, ANY) == 0)
  {
    var r := RemoveFileFromTree(root, item);
    var parentPath := ParentPath(item.path);
    if r.removed.Some? && !ParentReached(root, item) {
      var n := Find(root, parentPath).value;
      var n' := n.(children := TakeFirst(n.children, item.path).value.rest);
      forall q, ks
        ensures Count(r.root, q, ks) == Count(root, q, ks)
      {
        UpdateCount(root, parentPath, Put(n'), q, ks);
        ItemCountUnfold(n, q, ks);
        ItemCountUnfold(n', q, ks);
      }
    } else if r.removed.Some? {
      forall q, ks
        ensures Count(r.root, q, ks) + ItemCount(r.removed.value, q, ks) == Count(root, q, ks)
      {
        if parentPath == "" {
          TakeFirstCount(root, item.path, q, ks);
        } else {
          var n := Find(root, parentPath).value;
          var rm := TakeFirst(n.children, item.path).value;
          var n' := n.(children := rm.rest);
          UpdateCount(root, parentPath, Put(n'), q, ks);
          ItemCountUnfold(n, q, ks);
          ItemCountUnfold(n', q, ks);
          TakeFirstCount(n.children, item.path, q, ks);
        }
      }
      if Unique(root) {
        forall q
          ensures Count(r.root, q, ANY) <= 1
        {
          assert Count(r.root, q, ANY) + ItemCount(r.removed.value, q, ANY) == Count(root, q, ANY);
        }
        assert Count(r.root, item.path, ANY) + ItemCount(r.removed.value, item.path, ANY) == Count(root, item.path, ANY);
      }
    }
  }

  /** A new file at the top level is added there with its own count, and is
      what a removal then takes. */
  lemma AddAtRootThenTake(root: seq<FileItem>, file: FileItem)
    requires file.kind == File && Find(root, file.path).None? && ParentPath(file.path) == ""
    ensures var added := AddItem(root, file);
      && added.outcome == Added
      && (forall q, ks :: Count(added.root, q, ks) == Count(root, q, ks) + ItemCount(file, q, ks))
      && RemoveFileFromTree(added.root, file).removed == Some(file)
      && ParentReached(added.root, file)
  {
    var added := AddItem(root, file);
    FindIffCounted(root, file.path);
    AddRootCount(root, file);
    assert file in multiset(root + [file]);
    assert file in multiset(added.root);
    TakeOnly(added.root, file);
  }

  /** A new file under an existing folder is added among its children with its
      own count, and is what a removal then takes. */
  lemma AddUnderThenTake(root: seq<FileItem>, file: FileItem)
    requires file.kind == File && Find(root, file.path).None?
    requires ParentPath(file.path) != "" && IsFolderAt(root, ParentPath(file.path))
    ensures var added := AddItem(root, file);
      && added.outcome == Added
      && (forall q, ks :: Count(added.root, q, ks) == Count(root, q, ks) + ItemCount(file, q, ks))
      && RemoveFileFromTree(added.root, file).removed == Some(file)
      && ParentReached(added.root, file)
  {
    var added := AddItem(root, file);
    var parentPath := ParentPath(file.path);
    FindIffCounted(root, file.path);
    var n := Find(root, parentPath).value;
    AddChildCount(root, parentPath, file);
    assert AddChild(file)(n) == n.(children := Sort(n.children + [file]));
    FindAfterUpdate(root, parentPath, AddChild(file));
    var kids := Sort(n.children + [file]);
    assert Find(added.root, parentPath) == Some(n.(children := kids));
    assert file in multiset(n.children + [file]);
    assert file in multiset(kids);
    ChildrenCountBound(added.root, parentPath, file.path, ANY);
    TakeOnly(kids, file);
  }

  /** Removing a file just added under an existing parent takes out that very
      file and restores every count. */
  lemma AddThenRemove(root: seq<FileItem>, file: FileItem)
    requires file.kind == File && Find(root, file.path).None?
    requires ParentPath(file.path) == "" || IsFolderAt(root, ParentPath(file.path))
    ensures var added := AddItem(root, file);
      var r := RemoveFileFromTree(added.root, file);
      && added.outcome == Added
      && r.removed == Some(file)
      && forall q, ks :: Count(r.root, q, ks) == Count(root, q, ks)
  {
    var added := AddItem(root, file);
    if ParentPath(file.path) == "" {
      AddAtRootThenTake(root, file);
    } else {
      AddUnderThenTake(root, file);
    }
    RemoveFacts(added.root, file);
    var r := RemoveFileFromTree(added.root, file);
    forall q, ks
      ensures Count(r.root, q, ks) == Count(root, q, ks)
    {
      assert Count(r.root, q, ks) + ItemCount(file, q, ks) == Count(added.root, q, ks);
    }
  }

  // ---------------------------------------------------------------- archives

  /** An entry of the unzipped archive: its path and its length in bytes. */
  datatype ZipEntry = ZipEntry(path: string, byteLength: nat)

  /** `path.split('/').pop() || 'unknown'`. */
  function EntryName(path: string): (name: string)
    ensures name != ""
    ensures LastSegment(path) != "" ==> name == LastSegment(path)
    ensures LastSegment(path) == "" ==> name == "unknown"
  {
    var last := LastSegment(path);
    if last == "" then "unknown" else last
  }

  /** `addRobotFromFile`'s placement: a path not already below the robot's
      folder is put below it. */
  function RobotPath(robot: string, path: string): (p: string)
    ensures StartsWith(p, robot + [SEP])
    ensures StartsWith(path, robot + [SEP]) ==> p == path
    ensures !StartsWith(path, robot + [SEP]) ==> p[|robot| + 1..] == path
  {
    if StartsWith(path, robot + [SEP]) then path
    else
      var p := robot + [SEP] + path;
      assert p[..|robot| + 1] == robot + [SEP];
      p
  }

  /** The file an entry becomes: below the robot's folder for
      `addRobotFromFile`, at the entry's own path for the `fileTree` store's
      `AddRobot`. */
  function EntryFile(robot: Option<string>, e: ZipEntry): (f: FileItem)
    ensures f.kind == File && f.children == [] && f.name != ""
    ensures robot.Some? ==> StartsWith(f.path, robot.value + [SEP])
    ensures robot.None? ==> f.path == e.path
  {
    var path := if robot.Some? then RobotPath(robot.value, e.path) else e.path;
    FileItem(EntryName(e.path), path, File, [], false)
  }

  datatype Loaded = Loaded(root: seq<FileItem>, outcomes: seq<Outcome>)

  /** One step of an archive loop: the tree before, the entry, the tree after
      and the outcome. */
  type Step = (seq<FileItem>, ZipEntry) -> Stored

  /** The loop over the archive's entries with a given step: a throw ends the
      loop with the entries before it added. */
  function Fold(root: seq<FileItem>, entries: seq<ZipEntry>, step: Step): Loaded
    decreases |entries|
  {
    if |entries| == 0 then Loaded(root, [])
    else
      var s := step(root, entries[0]);
      if s.outcome == Threw then Loaded(s.root, [Threw])
      else
        var rest := Fold(s.root, entries[1..], step);
        Loaded(rest.root, [s.outcome] + rest.outcomes)
  }

  /** The step never removes an item. */
  ghost predicate StepGrows(step: Step) {
    forall r, e, q, ks :: Count(r, q, ks) <= Count(step(r, e).root, q, ks)
  }

  /** The step keeps paths unique. */
  ghost predicate StepKeepsUnique(step: Step) {
    forall r, e :: Unique(r) ==> Unique(step(r, e).root)
  }

  /** After a step that added the entry or found it already present, the
      entry's path is in the tree. */
  ghost predicate StepFinds(step: Step, path: ZipEntry -> string) {
    forall r, e :: step(r, e).outcome in {Added, Duplicate} ==> Find(step(r, e).root, path(e)).Some?
  }

  /** Over a whole archive there is one outcome per entry up to the first
      throw, which ends the list. */
  lemma {:induction false} FoldOutcomes(root: seq<FileItem>, entries: seq<ZipEntry>, step: Step)
    ensures var r := Fold(root, entries, step);
      && |r.outcomes| <= |entries|
      && (|r.outcomes| < |entries| ==> |r.outcomes| > 0 && r.outcomes[|r.outcomes| - 1] == Threw)
      && (forall k :: 0 <= k < |r.outcomes| - 1 ==> r.outcomes[k] != Threw)
      && (forall k :: 0 <= k < |r.outcomes| ==> r.outcomes[k] == step(StateBefore(root, entries, step, k), entries[k]).outcome)
    decreases |entries|
  {
    if |entries| > 0 {
      var r := Fold(root, entries, step);
      var mid := step(root, entries[0]);
      if mid.outcome != Threw {
        FoldOutcomes(mid.root, entries[1..], step);
        var rest := Fold(mid.root, entries[1..], step);
        assert r.outcomes == [mid.outcome] + rest.outcomes;
        forall k | 0 <= k < |r.outcomes|
          ensures r.outcomes[k] == step(StateBefore(root, entries, step, k), entries[k]).outcome
        {
          if k > 0 {
            assert r.outcomes[k] == rest.outcomes[k - 1];
            assert entries[k] == entries[1..][k - 1];
          }
        }
      } else {
        assert r.outcomes == [Threw];
      }
    }
  }

  /** The tree the `k`-th entry is added to: the result of the steps before it. */
  function StateBefore(root: seq<FileItem>, entries: seq<ZipEntry>, step: Step, k: nat): seq<FileItem>
    requires k <= |entries|
    decreases k
  {
    if k == 0 then root else StateBefore(step(root, entries[0]).root, entries[1..], step, k - 1)
  }

  /** A loop over steps that remove nothing removes nothing and, when each
      step keeps paths unique, so does the loop. */
  lemma {:induction false} FoldGrows(root: seq<FileItem>, entries: seq<ZipEntry>, step: Step)
    requires StepGrows(step)
    ensures var r := Fold(root, entries, step);
      && (forall q, ks :: Count(root, q, ks) <= Count(r.root, q, ks))
      && (StepKeepsUnique(step) && Unique(root) ==> Unique(r.root))
    decreases |entries|
  {
    if |entries| > 0 {
      var mid := step(root, entries[0]);
      if mid.outcome != Threw {
        FoldGrows(mid.root, entries[1..], step);
      }
    }
  }

  /** Every entry the loop reports as added or already present is in the
      final tree. */
  lemma {:induction false} FoldFinds(root: seq<FileItem>, entries: seq<ZipEntry>, step: Step, path: ZipEntry -> string, k: nat)
    requires StepGrows(step) && StepFinds(step, path)
    requires k < |Fold(root, entries, step).outcomes|
    requires Fold(root, entries, step).outcomes[k] in {Added, Duplicate}
    ensures k < |entries| && Find(Fold(root, entries, step).root, path(entries[k])).Some?
    decreases |entries|
  {
    var r := Fold(root, entries, step);
    var mid := step(root, entries[0]);
    if mid.outcome != Threw {
      var rest := Fold(mid.root, entries[1..], step);
      assert r == Loaded(rest.root, [mid.outcome] + rest.outcomes);
      if k == 0 {
        FoldGrows(mid.root, entries[1..], step);
        StaysFound(mid.root, rest.root, path(entries[0]));
      } else {
        assert rest.outcomes[k - 1] in {Added, Duplicate};
        FoldFinds(mid.root, entries[1..], step, path, k - 1);
        assert entries[k] == entries[1..][k - 1];
      }
    }
  }

  /** A folder stays found when nothing is removed and no file appears. */
  lemma StaysFolder(before: seq<FileItem>, after: seq<FileItem>, p: string)
    requires IsFolderAt(before, p) && Count(before, p, {File}) == 0
    requires forall q, ks :: Count(before, q, ks) <= Count(after, q, ks)
    requires forall q :: Count(after, q, {File}) == Count(before, q, {File})
    ensures IsFolderAt(after, p)
  {
    FindIffCounted(before, p);
    assert Count(after, p, ANY) >= Count(before, p, ANY);
    assert Count(after, p, {File}) == Count(before, p, {File});
    FolderFound(after, p);
  }

  /** A path the search finds stays found when no count drops. */
  lemma StaysFound(before: seq<FileItem>, after: seq<FileItem>, p: string)
    requires forall q, ks :: Count(before, q, ks) <= Count(after, q, ks)
    requires Find(before, p).Some?
    ensures Find(after, p).Some?
  {
    FindIffCounted(before, p);
    FindIffCounted(after, p);
    assert Count(before, p, ANY) <= Count(after, p, ANY);
  }

  /** One entry's step: an empty entry is skipped, any other is added. */
  function EntryStep(root: seq<FileItem>, e: ZipEntry, robot: Option<string>): (s: Stored)
    ensures s.outcome == Skipped <==> e.byteLength == 0
    ensures e.byteLength == 0 ==> s.root == root
    ensures s.outcome == Added || s.outcome == Duplicate ==> Find(s.root, EntryFile(robot, e).path).Some?
    ensures forall q, ks :: Count(root, q, ks) <= Count(s.root, q, ks)
    ensures Unique(root) ==> Unique(s.root)
  {
    AddItemFacts(root, EntryFile(robot, e));
    if e.byteLength == 0 then Stored(root, Skipped) else AddItem(root, EntryFile(robot, e))
  }

  /** The step of an archive loop, with the robot's folder when there is one. */
  function EntryStepFor(robot: Option<string>): Step {
    (t: seq<FileItem>, e: ZipEntry) => EntryStep(t, e, robot)
  }

  /** Where an entry's step puts it. */
  function EntryPathFor(robot: Option<string>): ZipEntry -> string {
    (e: ZipEntry) => EntryFile(robot, e).path
  }

  /** The entry step removes nothing, keeps paths unique, and leaves an added
      or already present entry findable. */
  lemma EntryStepFacts(robot: Option<string>)
    ensures StepGrows(EntryStepFor(robot))
    ensures StepKeepsUnique(EntryStepFor(robot))
    ensures StepFinds(EntryStepFor(robot), EntryPathFor(robot))
  {
    var step := EntryStepFor(robot);
    forall r, e, q, ks
      ensures Count(r, q, ks) <= Count(step(r, e).root, q, ks)
    {
      assert step(r, e) == EntryStep(r, e, robot);
    }
    forall r, e | Unique(r)
      ensures Unique(step(r, e).root)
    {
      assert step(r, e) == EntryStep(r, e, robot);
    }
    forall r, e | step(r, e).outcome in {Added, Duplicate}
      ensures Find(step(r, e).root, EntryPathFor(robot)(e)).Some?
    {
      assert step(r, e) == EntryStep(r, e, robot);
    }
  }

  /** The loop of `addRobotFromFile` (with the robot's folder) and of the
      `fileTree` store's `AddRobot` (without): empty entries are skipped, the
      others are added in order, and a throw ends the loop. */
  function AddEntries(root: seq<FileItem>, entries: seq<ZipEntry>, robot: Option<string>): (r: Loaded)
    ensures |r.outcomes| <= |entries|
    ensures |r.outcomes| < |entries| ==> |r.outcomes| > 0 && r.outcomes[|r.outcomes| - 1] == Threw
    ensures forall k :: 0 <= k < |r.outcomes| ==> (r.outcomes[k] == Skipped <==> entries[k].byteLength == 0)
    ensures forall q, ks :: Count(root, q, ks) <= Count(r.root, q, ks)
    ensures Unique(root) ==> Unique(r.root)
  {
    var step := EntryStepFor(robot);
    FoldOutcomes(root, entries, step);
    EntryStepFacts(robot);
    FoldGrows(root, entries, step);
    Fold(root, entries, step)
  }

  /** Every entry reported added or already present is in the final tree. */
  lemma AddEntriesFound(root: seq<FileItem>, entries: seq<ZipEntry>, robot: Option<string>, k: nat)
    requires k < |AddEntries(root, entries, robot).outcomes|
    requires AddEntries(root, entries, robot).outcomes[k] in {Added, Duplicate}
    ensures Find(AddEntries(root, entries, robot).root, EntryFile(robot, entries[k]).path).Some?
  {
    EntryStepFacts(robot);
    FoldFinds(root, entries, EntryStepFor(robot), EntryPathFor(robot), k);
  }
}
