/** Order through the whole tree: `sortItems` is applied to one list at a time,
    and the sidebar shows every list, so the tree is in order when the top
    level and the children of every folder the search can reach are sorted.
    The search never looks inside a file, so a file's children do not count. */
module TreeOrder {
  import opened Common
  import opened PathStrings
  import opened FileItems

  // ---------------------------------------------------------------- the invariant

  /** Every list of the tree is sorted. */
  predicate SortedTree(items: seq<FileItem>)
    decreases items, 1
  {
    Sorted(items) && SortedBelow(items)
  }

  /** Every list below the given items is sorted; the items' own list need not be. */
  predicate SortedBelow(items: seq<FileItem>)
    decreases items, 0
  {
    forall k :: 0 <= k < |items| ==> (items[k].kind == Folder ==> SortedTree(items[k].children))
  }

  /** The lists below one item are sorted. */
  predicate SortedItem(x: FileItem) {
    x.kind == Folder ==> SortedTree(x.children)
  }

  lemma SortedBelowCons(x: FileItem, xs: seq<FileItem>)
    ensures SortedBelow([x] + xs) <==> SortedItem(x) && SortedBelow(xs)
  {
    var r := [x] + xs;
    assert r[0] == x;
    assert forall k :: 0 <= k < |xs| ==> r[k + 1] == xs[k];
  }

  lemma SortedBelowAppend(xs: seq<FileItem>, x: FileItem)
    requires SortedBelow(xs) && SortedItem(x)
    ensures SortedBelow(xs + [x])
  {
    var r := xs + [x];
    assert forall k :: 0 <= k < |xs| ==> r[k] == xs[k];
  }

  /** Fewer copies of the same items keep the lists below sorted. */
  lemma SortedBelowSub(a: seq<FileItem>, b: seq<FileItem>)
    ensures multiset(a) <= multiset(b) && SortedBelow(b) ==> SortedBelow(a)
  {
    forall k | 0 <= k < |a| && a[k].kind == Folder && multiset(a) <= multiset(b) && SortedBelow(b)
      ensures SortedTree(a[k].children)
    {
      assert a[k] in multiset(a);
      assert a[k] in multiset(b);
      var j :| 0 <= j < |b| && b[j] == a[k];
    }
  }

  /** `sortItems` on a list whose lower lists are sorted puts the whole tree in
      order. */
  lemma SortTree(xs: seq<FileItem>)
    ensures SortedBelow(xs) ==> SortedTree(Sort(xs))
  {
    SortedBelowSub(Sort(xs), xs);
  }

  // ---------------------------------------------------------------- same keys

  /** Two lists that agree, position by position, on everything the comparator
      looks at. */
  predicate SameKeys(a: seq<FileItem>, b: seq<FileItem>) {
    |a| == |b| && forall k :: 0 <= k < |a| ==> a[k].kind == b[k].kind && a[k].name == b[k].name
  }

  lemma SameKeysSorted(a: seq<FileItem>, b: seq<FileItem>)
    requires SameKeys(a, b) && Sorted(a)
    ensures Sorted(b)
  {
    forall i, j | 0 <= i < j < |b|
      ensures KeyLe(b[i], b[j])
    {
      assert KeyLe(a[i], a[j]);
    }
  }

  // ---------------------------------------------------------------- cutting

  /** Cutting one item out of a sorted list leaves it sorted. */
  lemma CutSorted(s: seq<FileItem>, i: nat)
    requires i < |s| && Sorted(s)
    ensures Sorted(s[..i] + s[i + 1..])
  {
    var r := s[..i] + s[i + 1..];
    forall a, b | 0 <= a < b < |r|
      ensures KeyLe(r[a], r[b])
    {
      var a' := if a < i then a else a + 1;
      var b' := if b < i then b else b + 1;
      assert r[a] == s[a'] && r[b] == s[b'];
    }
  }

  /** `splice` of the first item with a path keeps the tree in order. */
  lemma TakeFirstTree(s: seq<FileItem>, p: string)
    requires SortedTree(s) && TakeFirst(s, p).Some?
    ensures SortedTree(TakeFirst(s, p).value.rest)
  {
    var i := FirstIndex(s, p);
    var rest := TakeFirst(s, p).value.rest;
    assert rest == s[..i] + s[i + 1..];
    CutSorted(s, i);
    SortedBelowSub(rest, s);
  }

  // ---------------------------------------------------------------- search and edits

  /** The children of a folder the search finds are in order. */
  lemma {:induction false} FoundTree(items: seq<FileItem>, p: string)
    requires SortedTree(items) && IsFolderAt(items, p)
    ensures SortedTree(Find(items, p).value.children)
    decreases items
  {
    var head := items[0];
    if head.path != p {
      if head.kind == Folder && Find(head.children, p).Some? {
        FoundTree(head.children, p);
      } else {
        assert items == [head] + items[1..];
        SortedBelowCons(head, items[1..]);
        FoundTree(items[1..], p);
      }
    }
  }

  /** An edit of the found item that keeps its name and kind, and leaves its
      lower lists in order, keeps the tree in order and every key of every
      list. */
  lemma {:induction false} UpdateTree(items: seq<FileItem>, p: string, f: FileItem -> FileItem)
    requires SortedTree(items) && Find(items, p).Some?
    requires var n := Find(items, p).value; f(n).kind == n.kind && f(n).name == n.name && SortedItem(f(n))
    ensures SortedTree(Update(items, p, f)) && SameKeys(items, Update(items, p, f))
    decreases items
  {
    var head := items[0];
    var rest := items[1..];
    var u := Update(items, p, f);
    assert items == [head] + rest;
    SortedBelowCons(head, rest);
    if head.path == p {
      assert u == [f(head)] + rest;
      SortedBelowCons(f(head), rest);
    } else if head.kind == Folder && Find(head.children, p).Some? {
      UpdateTree(head.children, p, f);
      var head' := head.(children := Update(head.children, p, f));
      assert u == [head'] + rest;
      SortedBelowCons(head', rest);
    } else {
      UpdateTree(rest, p, f);
      assert u == [head] + Update(rest, p, f);
      SortedBelowCons(head, Update(rest, p, f));
    }
    SameKeysSorted(items, u);
  }

  /** `parent.children.push(x)` and `sortItems` on the children of whatever the
      search finds at `q` keeps the tree in order, when `x` brings its own
      lists in order. */
  lemma AddChildTree(items: seq<FileItem>, q: string, x: FileItem)
    ensures SortedTree(items) && SortedItem(x) ==> SortedTree(Update(items, q, AddChild(x)))
  {
    if SortedTree(items) && SortedItem(x) && Find(items, q).Some? {
      var n := Find(items, q).value;
      var n' := AddChild(x)(n);
      assert n' == n.(children := Sort(n.children + [x]));
      if n.kind == Folder {
        FoundTree(items, q);
        SortedBelowAppend(n.children, x);
        SortTree(n.children + [x]);
      }
      UpdateTree(items, q, AddChild(x));
    }
  }

  /** `root.push(x)` and `sortItems` on the top level keeps the tree in order. */
  lemma AddRootTree(items: seq<FileItem>, x: FileItem)
    ensures SortedTree(items) && SortedItem(x) ==> SortedTree(Sort(items + [x]))
  {
    if SortedTree(items) && SortedItem(x) {
      SortedBelowAppend(items, x);
      SortTree(items + [x]);
    }
  }

  // ---------------------------------------------------------------- one list out of order

  /** Paths agree with the tree's shape: a top-level path has no separator, and
      a child's path is its folder's path, a separator and one more segment.
      `owner` is the path of the folder whose children `items` are, or `None`
      at the top level. */
  predicate Placed(items: seq<FileItem>, owner: Option<string>)
    decreases items
  {
    forall k :: 0 <= k < |items| ==>
      && (owner.None? ==> NoSep(items[k].path))
      && (owner.Some? ==> !NoSep(items[k].path) && ParentPath(items[k].path) == owner.value)
      && (items[k].kind == Folder ==> Placed(items[k].children, Some(items[k].path)))
  }

  /** Every item the search can reach lies below `prefix`. */
  predicate AllUnder(items: seq<FileItem>, prefix: string)
    decreases items
  {
    forall k :: 0 <= k < |items| ==>
      StartsWith(items[k].path, prefix + [SEP]) && (items[k].kind == Folder ==> AllUnder(items[k].children, prefix))
  }

  /** In a placed tree, everything below a folder lies below its path, and
      below every path that path lies below. */
  lemma {:induction false} PlacedUnder(items: seq<FileItem>, owner: string, prefix: string)
    requires Placed(items, Some(owner)) && (owner == prefix || StartsWith(owner, prefix + [SEP]))
    ensures AllUnder(items, prefix)
    decreases items
  {
    forall k | 0 <= k < |items|
      ensures StartsWith(items[k].path, prefix + [SEP])
      ensures items[k].kind == Folder ==> AllUnder(items[k].children, prefix)
    {
      var x := items[k];
      assert x.path == owner + [SEP] + LastSegment(x.path);
      assert StartsWith(x.path, owner + [SEP]);
      if owner != prefix {
        assert x.path[..|prefix| + 1] == owner[..|prefix| + 1];
      }
      if x.kind == Folder {
        PlacedUnder(x.children, x.path, prefix);
      }
    }
  }

  /** Nothing below `prefix` has a path as short as `prefix`. */
  lemma {:induction false} UnderCountZero(items: seq<FileItem>, prefix: string, q: string)
    requires AllUnder(items, prefix) && |q| <= |prefix|
    ensures Count(items, q, ANY) == 0
    decreases items
  {
    if |items| > 0 {
      assert AllUnder(items[1..], prefix) by {
        assert forall k :: 0 <= k < |items[1..]| ==> items[1..][k] == items[k + 1];
      }
      UnderCountZero(items[1..], prefix, q);
      if items[0].kind == Folder {
        UnderCountZero(items[0].children, prefix, q);
      }
    }
  }

  /** The children of a folder the search finds in a placed tree are placed
      below its path. */
  lemma {:induction false} FoundPlaced(items: seq<FileItem>, owner: Option<string>, p: string)
    requires Placed(items, owner) && IsFolderAt(items, p)
    ensures Placed(Find(items, p).value.children, Some(p))
    decreases items
  {
    var head := items[0];
    if head.path != p {
      if head.kind == Folder && Find(head.children, p).Some? {
        FoundPlaced(head.children, Some(head.path), p);
      } else {
        assert Placed(items[1..], owner) by {
          assert forall k :: 0 <= k < |items[1..]| ==> items[1..][k] == items[k + 1];
        }
        FoundPlaced(items[1..], owner, p);
      }
    }
  }

  /** The list an item with path `p` belongs to in a placed tree: the top level
      for a path without a separator, otherwise the children of the folder at
      its parent path. */
  function LevelOf(p: string): (level: Option<string>)
    ensures level.None? <==> NoSep(p)
  {
    if NoSep(p) then None else Some(ParentPath(p))
  }

  /** Every list is sorted except, possibly, the one that `skip` names. */
  predicate SortedTreeBut(items: seq<FileItem>, owner: Option<string>, skip: Option<string>)
    decreases items, 1
  {
    (owner != skip ==> Sorted(items)) && SortedBelowBut(items, skip)
  }

  predicate SortedBelowBut(items: seq<FileItem>, skip: Option<string>)
    decreases items, 0
  {
    forall k :: 0 <= k < |items| ==>
      (items[k].kind == Folder ==> SortedTreeBut(items[k].children, Some(items[k].path), skip))
  }

  lemma SortedBelowButCons(x: FileItem, xs: seq<FileItem>, skip: Option<string>)
    ensures SortedBelowBut([x] + xs, skip) <==>
      (x.kind == Folder ==> SortedTreeBut(x.children, Some(x.path), skip)) && SortedBelowBut(xs, skip)
  {
    var r := [x] + xs;
    assert r[0] == x;
    assert forall k :: 0 <= k < |xs| ==> r[k + 1] == xs[k];
  }

  /** A tree in order is in order but for any one list. */
  lemma {:induction false} TreeIsBut(items: seq<FileItem>, owner: Option<string>, skip: Option<string>)
    requires SortedTree(items)
    ensures SortedTreeBut(items, owner, skip)
    decreases items
  {
    forall k | 0 <= k < |items| && items[k].kind == Folder
      ensures SortedTreeBut(items[k].children, Some(items[k].path), skip)
    {
      TreeIsBut(items[k].children, Some(items[k].path), skip);
    }
  }

  /** When the skipped list is not part of the tree (no reachable item has its
      owner's path, or it is the top level and `items` is not), the tree is in
      order. */
  lemma {:induction false} ButSorted(items: seq<FileItem>, owner: Option<string>, skip: Option<string>)
    requires SortedTreeBut(items, owner, skip) && owner != skip
    requires skip.None? || Count(items, skip.value, ANY) == 0
    ensures SortedTree(items)
    decreases items, 1
  {
    ButSortedBelow(items, skip);
  }

  lemma {:induction false} ButSortedBelow(items: seq<FileItem>, skip: Option<string>)
    requires SortedBelowBut(items, skip)
    requires skip.None? || Count(items, skip.value, ANY) == 0
    ensures SortedBelow(items)
    decreases items, 0
  {
    forall k | 0 <= k < |items| && items[k].kind == Folder
      ensures SortedTree(items[k].children)
    {
      var x := items[k];
      if skip.Some? {
        InCountAll(items, x, skip.value, ANY);
        ItemCountUnfold(x, skip.value, ANY);
      }
      ButSorted(x.children, Some(x.path), skip);
    }
  }

  /** The tail of a placed tree in order is a placed tree in order. */
  lemma PlacedTail(items: seq<FileItem>, owner: Option<string>)
    requires |items| > 0 && SortedTree(items) && Placed(items, owner)
    ensures SortedTree(items[1..]) && Placed(items[1..], owner) && SortedItem(items[0])
  {
    assert items == [items[0]] + items[1..];
    SortedBelowCons(items[0], items[1..]);
    assert forall k :: 0 <= k < |items[1..]| ==> items[1..][k] == items[k + 1];
  }

  /** Replacing the item the search finds at `p` by `m`, whose lower lists are
      in order, leaves at most the list `p` belongs to out of order; when
      `items` is not that list, its keys are unchanged. */
  lemma {:induction false} PutLeavesOneList(items: seq<FileItem>, owner: Option<string>, p: string, m: FileItem)
    requires SortedTree(items) && Placed(items, owner) && Find(items, p).Some? && SortedItem(m)
    ensures SortedTreeBut(Update(items, p, Put(m)), owner, LevelOf(p))
    ensures owner != LevelOf(p) ==> SameKeys(items, Update(items, p, Put(m)))
    decreases items
  {
    var head := items[0];
    PlacedTail(items, owner);
    if head.path == p {
      PutAtHead(items, owner, p, m);
    } else if head.kind == Folder && Find(head.children, p).Some? {
      PutLeavesOneList(head.children, Some(head.path), p, m);
      PutInHead(items, owner, p, m);
    } else {
      PutLeavesOneList(items[1..], owner, p, m);
      PutInRest(items, owner, p, m);
    }
  }

  /** The step of `PutLeavesOneList` when the first item is the one replaced:
      its list is the one `p` belongs to. */
  lemma PutAtHead(items: seq<FileItem>, owner: Option<string>, p: string, m: FileItem)
    requires |items| > 0 && items[0].path == p && Placed(items, owner) && SortedItem(m)
    requires SortedTree(items[1..])
    ensures owner == LevelOf(p)
    ensures SortedTreeBut(Update(items, p, Put(m)), owner, LevelOf(p))
  {
    var skip := LevelOf(p);
    var rest := items[1..];
    assert Update(items, p, Put(m)) == [m] + rest;
    TreeIsBut(rest, owner, skip);
    if m.kind == Folder {
      TreeIsBut(m.children, Some(m.path), skip);
    }
    SortedBelowButCons(m, rest, skip);
  }

  /** The step of `PutLeavesOneList` when the replaced item is below the first. */
  lemma PutInHead(items: seq<FileItem>, owner: Option<string>, p: string, m: FileItem)
    requires |items| > 0 && items[0].path != p && items[0].kind == Folder && Find(items[0].children, p).Some?
    requires Sorted(items) && SortedTree(items[1..])
    requires SortedTreeBut(Update(items[0].children, p, Put(m)), Some(items[0].path), LevelOf(p))
    ensures SortedTreeBut(Update(items, p, Put(m)), owner, LevelOf(p))
    ensures SameKeys(items, Update(items, p, Put(m)))
  {
    var skip := LevelOf(p);
    var head := items[0];
    var rest := items[1..];
    var u := Update(items, p, Put(m));
    var head' := head.(children := Update(head.children, p, Put(m)));
    assert u == [head'] + rest;
    TreeIsBut(rest, owner, skip);
    SortedBelowButCons(head', rest, skip);
    SameKeysSorted(items, u);
  }

  /** The step of `PutLeavesOneList` when the replaced item is after the first
      item's subtree. */
  lemma PutInRest(items: seq<FileItem>, owner: Option<string>, p: string, m: FileItem)
    requires |items| > 0 && items[0].path != p && !(items[0].kind == Folder && Find(items[0].children, p).Some?)
    requires Sorted(items) && SortedItem(items[0])
    requires SortedTreeBut(Update(items[1..], p, Put(m)), owner, LevelOf(p))
    requires owner != LevelOf(p) ==> SameKeys(items[1..], Update(items[1..], p, Put(m)))
    ensures SortedTreeBut(Update(items, p, Put(m)), owner, LevelOf(p))
    ensures owner != LevelOf(p) ==> SameKeys(items, Update(items, p, Put(m)))
  {
    var skip := LevelOf(p);
    var head := items[0];
    var later := Update(items[1..], p, Put(m));
    var u := Update(items, p, Put(m));
    assert u == [head] + later;
    if head.kind == Folder {
      TreeIsBut(head.children, Some(head.path), skip);
    }
    SortedBelowButCons(head, later, skip);
    if owner != skip {
      assert forall k :: 0 < k < |u| ==> u[k] == later[k - 1] && items[k] == items[1..][k - 1];
      SameKeysSorted(items, u);
    }
  }

  /** The tail of a tree in order but for one list, and its first item's lower
      lists, are in order but for that list. */
  lemma ButTail(items: seq<FileItem>, owner: Option<string>, skip: Option<string>)
    requires |items| > 0 && SortedTreeBut(items, owner, skip)
    ensures SortedTreeBut(items[1..], owner, skip)
    ensures items[0].kind == Folder ==> SortedTreeBut(items[0].children, Some(items[0].path), skip)
  {
    assert items == [items[0]] + items[1..];
    SortedBelowButCons(items[0], items[1..], skip);
  }

  /** The re-sort of `renameItem`, `sortItems` on the children of the item the
      search finds at `q`, puts a tree that is in order but for that list in
      order, as long as only one item has path `q`. */
  lemma {:induction false} ResortFixes(items: seq<FileItem>, owner: Option<string>, q: string)
    requires SortedTreeBut(items, owner, Some(q)) && owner != Some(q) && Count(items, q, ANY) <= 1
    ensures SortedTree(Update(items, q, SortChildren())) && SameKeys(items, Update(items, q, SortChildren()))
    decreases items
  {
    if |items| > 0 {
      var head := items[0];
      var rest := items[1..];
      ButTail(items, owner, Some(q));
      assert items == [head] + rest;
      CountCons(head, rest, q, ANY);
      ItemCountUnfold(head, q, ANY);
      if head.path == q {
        ResortAtHead(items, owner, q);
      } else if head.kind == Folder && Find(head.children, q).Some? {
        FindIffCounted(head.children, q);
        ResortFixes(head.children, Some(head.path), q);
        ButSorted(rest, owner, Some(q));
        ResortInHead(items, q);
      } else {
        if head.kind == Folder {
          FindIffCounted(head.children, q);
          ButSorted(head.children, Some(head.path), Some(q));
        }
        ResortFixes(rest, owner, q);
        ResortInRest(items, q);
      }
    }
  }

  /** The step of `ResortFixes` at the item with path `q`: its children are the
      skipped list, and sorting them puts everything in order. */
  lemma ResortAtHead(items: seq<FileItem>, owner: Option<string>, q: string)
    requires |items| > 0 && items[0].path == q && owner != Some(q)
    requires SortedTreeBut(items, owner, Some(q))
    requires items[0].kind == Folder ==> SortedTreeBut(items[0].children, Some(q), Some(q))
    requires SortedTreeBut(items[1..], owner, Some(q))
    requires Count(items[1..], q, ANY) == 0 && (items[0].kind == Folder ==> Count(items[0].children, q, ANY) == 0)
    ensures SortedTree(Update(items, q, SortChildren())) && SameKeys(items, Update(items, q, SortChildren()))
  {
    var head := items[0];
    var rest := items[1..];
    var head' := head.(children := Sort(head.children));
    var u := Update(items, q, SortChildren());
    assert u == [head'] + rest;
    if head.kind == Folder {
      ButSortedBelow(head.children, Some(q));
      SortTree(head.children);
    }
    ButSortedBelow(rest, Some(q));
    SortedBelowCons(head', rest);
    SameKeysSorted(items, u);
  }

  /** The step of `ResortFixes` when the item with path `q` is below the first. */
  lemma ResortInHead(items: seq<FileItem>, q: string)
    requires |items| > 0 && items[0].path != q && items[0].kind == Folder && Find(items[0].children, q).Some?
    requires Sorted(items) && SortedTree(items[1..])
    requires SortedTree(Update(items[0].children, q, SortChildren()))
    ensures SortedTree(Update(items, q, SortChildren())) && SameKeys(items, Update(items, q, SortChildren()))
  {
    var head' := items[0].(children := Update(items[0].children, q, SortChildren()));
    var u := Update(items, q, SortChildren());
    assert u == [head'] + items[1..];
    SortedBelowCons(head', items[1..]);
    SameKeysSorted(items, u);
  }

  /** The step of `ResortFixes` when the item with path `q` is after the first
      item's subtree. */
  lemma ResortInRest(items: seq<FileItem>, q: string)
    requires |items| > 0 && items[0].path != q && !(items[0].kind == Folder && Find(items[0].children, q).Some?)
    requires Sorted(items) && SortedItem(items[0])
    requires SortedTree(Update(items[1..], q, SortChildren())) && SameKeys(items[1..], Update(items[1..], q, SortChildren()))
    ensures SortedTree(Update(items, q, SortChildren())) && SameKeys(items, Update(items, q, SortChildren()))
  {
    var later := Update(items[1..], q, SortChildren());
    var u := Update(items, q, SortChildren());
    assert u == [items[0]] + later;
    SortedBelowCons(items[0], later);
    assert forall k :: 0 < k < |u| ==> u[k] == later[k - 1] && items[k] == items[1..][k - 1];
    SameKeysSorted(items, u);
  }
}
