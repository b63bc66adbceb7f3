/** The file tree shared by the sidebar class and the two stores: items, the
    folders-first alphabetical order, the pre-order search by path, in-place
    edits of the first match, and the flat listings.

    An absent `children` list is the empty list. The two coincide for folders:
    every folder the code creates has a list, and the search and the listings
    descend only into folders. They differ for files where a list is pushed
    onto or cut from whatever the item's kind: a file with an empty list is
    taken to have none. `localeCompare` is modelled as code-unit lexicographic
    order. */
module FileItems {
  import opened Common
  import opened PathStrings

  datatype Kind = File | Folder

  /** `FileItem` without its size, timestamp and content. */
  datatype FileItem = FileItem(name: string, path: string, kind: Kind, children: seq<FileItem>, expanded: bool)

  /** The folder `createFolderStructure` makes: empty and collapsed. */
  function NewFolder(name: string, path: string): FileItem {
    FileItem(name, path, Folder, [], false)
  }

  // ---------------------------------------------------------------- ordering

  /** `a.localeCompare(b) <= 0`, as lexicographic order on code units. */
  predicate NameLe(a: string, b: string)
    decreases |a|
  {
    |a| == 0 || (|b| > 0 && (a[0] < b[0] || (a[0] == b[0] && NameLe(a[1..], b[1..]))))
  }

  lemma {:induction false} NameLeTotal(a: string, b: string)
    ensures NameLe(a, b) || NameLe(b, a)
    decreases |a|
  {
    if |a| > 0 && |b| > 0 && a[0] == b[0] {
      NameLeTotal(a[1..], b[1..]);
    }
  }

  lemma {:induction false} NameLeTrans(a: string, b: string, c: string)
    requires NameLe(a, b) && NameLe(b, c)
    ensures NameLe(a, c)
    decreases |a|
  {
    if |a| > 0 && a[0] == b[0] && b[0] == c[0] {
      NameLeTrans(a[1..], b[1..], c[1..]);
    }
  }

  /** The comparator of `sortItems`: folders before files, names in order within
      a kind. `KeyLe(x, y)` means the comparator does not put `y` first. */
  predicate KeyLe(x: FileItem, y: FileItem) {
    if x.kind == y.kind then NameLe(x.name, y.name) else x.kind == Folder
  }

  lemma KeyLeTotal(x: FileItem, y: FileItem)
    ensures KeyLe(x, y) || KeyLe(y, x)
  {
    if x.kind == y.kind {
      NameLeTotal(x.name, y.name);
    }
  }

  lemma KeyLeTrans(x: FileItem, y: FileItem, z: FileItem)
    requires KeyLe(x, y) && KeyLe(y, z)
    ensures KeyLe(x, z)
  {
    if x.kind == y.kind && y.kind == z.kind {
      NameLeTrans(x.name, y.name, z.name);
    }
  }

  predicate Sorted(xs: seq<FileItem>) {
    forall i, j :: 0 <= i < j < |xs| ==> KeyLe(xs[i], xs[j])
  }

  lemma PrependSorted(y: FileItem, rest: seq<FileItem>)
    requires Sorted(rest)
    requires forall j :: 0 <= j < |rest| ==> KeyLe(y, rest[j])
    ensures Sorted([y] + rest)
  {
    var r := [y] + rest;
    forall i, j | 0 <= i < j < |r|
      ensures KeyLe(r[i], r[j])
    {
      if i > 0 {
        assert r[i] == rest[i - 1] && r[j] == rest[j - 1];
      } else {
        assert r[j] == rest[j - 1];
      }
    }
  }

  lemma InsertFront(x: FileItem, xs: seq<FileItem>)
    requires Sorted(xs) && |xs| > 0 && KeyLe(x, xs[0])
    ensures Sorted([x] + xs)
  {
    forall j | 0 <= j < |xs|
      ensures KeyLe(x, xs[j])
    {
      if j > 0 {
        KeyLeTrans(x, xs[0], xs[j]);
      }
    }
    PrependSorted(x, xs);
  }

  lemma InsertBehind(x: FileItem, xs: seq<FileItem>, rest: seq<FileItem>)
    requires Sorted(xs) && |xs| > 0 && KeyLe(xs[0], x)
    requires Sorted(rest) && multiset(rest) == multiset(xs[1..]) + multiset{x}
    ensures Sorted([xs[0]] + rest)
  {
    forall j | 0 <= j < |rest|
      ensures KeyLe(xs[0], rest[j])
    {
      assert rest[j] in multiset(rest);
      if rest[j] != x {
        assert rest[j] in multiset(xs[1..]);
        var k :| 0 <= k < |xs[1..]| && xs[1..][k] == rest[j];
        assert xs[k + 1] == rest[j];
      }
    }
    PrependSorted(xs[0], rest);
  }

  /** Inserts `x` in front of the first element it does not follow; earlier
      equal keys stay first, which is what a stable sort does. */
  function Insert(x: FileItem, xs: seq<FileItem>): (r: seq<FileItem>)
    requires Sorted(xs)
    ensures Sorted(r)
    ensures multiset(r) == multiset(xs) + multiset{x}
    decreases |xs|
  {
    if |xs| == 0 then [x]
    else if KeyLe(x, xs[0]) then
      InsertFront(x, xs);
      [x] + xs
    else
      KeyLeTotal(x, xs[0]);
      assert Sorted(xs[1..]);
      var rest := Insert(x, xs[1..]);
      InsertBehind(x, xs, rest);
      assert xs == [xs[0]] + xs[1..];
      [xs[0]] + rest
  }

  /** `sortItems`: `Array.prototype.sort` with the comparator above, which is a
      stable sort. */
  function Sort(xs: seq<FileItem>): (r: seq<FileItem>)
    ensures Sorted(r)
    ensures multiset(r) == multiset(xs)
    ensures |r| == |xs|
    decreases |xs|
  {
    if |xs| == 0 then []
    else
      assert xs == [xs[0]] + xs[1..];
      var r := Insert(xs[0], Sort(xs[1..]));
      assert |r| == |multiset(r)|;
      r
  }

  /** Sorting an already sorted list leaves it as it is. */
  lemma {:induction false} SortIdempotent(xs: seq<FileItem>)
    requires Sorted(xs)
    ensures Sort(xs) == xs
    decreases |xs|
  {
    if |xs| > 0 {
      assert Sorted(xs[1..]);
      SortIdempotent(xs[1..]);
      assert xs == [xs[0]] + xs[1..];
    }
  }

  // ---------------------------------------------------------------- traversal

  /** Every item the search can reach, in pre-order: an item, then (for a
      folder) its subtree, then its later siblings. The search never looks
      inside a file. */
  function Nodes(items: seq<FileItem>): seq<FileItem>
    decreases items
  {
    if |items| == 0 then []
    else [items[0]] + (if items[0].kind == Folder then Nodes(items[0].children) else []) + Nodes(items[1..])
  }

  /** The first item of a list with the given path: a plain linear scan. */
  function FirstWithPath(s: seq<FileItem>, p: string): (r: Option<FileItem>)
    ensures r.Some? ==> r.value in s && r.value.path == p
    ensures r.None? <==> forall k :: 0 <= k < |s| ==> s[k].path != p
  {
    if |s| == 0 then None
    else if s[0].path == p then Some(s[0])
    else FirstWithPath(s[1..], p)
  }

  lemma {:induction false} FirstWithPathConcat(a: seq<FileItem>, b: seq<FileItem>, p: string)
    ensures FirstWithPath(a + b, p) == if FirstWithPath(a, p).Some? then FirstWithPath(a, p) else FirstWithPath(b, p)
    decreases |a|
  {
    if |a| > 0 {
      assert (a + b)[0] == a[0];
      assert (a + b)[1..] == a[1..] + b;
      FirstWithPathConcat(a[1..], b, p);
    } else {
      assert a + b == b;
    }
  }

  /** `findItemByPath`: a depth-first search that returns the first match. */
  function Find(items: seq<FileItem>, p: string): (r: Option<FileItem>)
    ensures r.Some? ==> r.value.path == p
    decreases items
  {
    if |items| == 0 then None
    else if items[0].path == p then Some(items[0])
    else if items[0].kind == Folder && Find(items[0].children, p).Some? then Find(items[0].children, p)
    else Find(items[1..], p)
  }

  /** The search returns the first item with the path in pre-order. */
  lemma {:induction false} FindIsFirstInPreorder(items: seq<FileItem>, p: string)
    ensures Find(items, p) == FirstWithPath(Nodes(items), p)
    decreases items, 1
  {
    if |items| > 0 {
      if items[0].kind == Folder {
        FindIsFirstInPreorder(items[1..], p);
        FindIsFirstInPreorder(items[0].children, p);
        FirstInFolderHead(items, p);
      } else {
        FindIsFirstInPreorder(items[1..], p);
        FirstInFileHead(items, p);
      }
    }
  }

  /** The step of `FindIsFirstInPreorder` for a list that starts with a folder:
      its pre-order is the folder, its subtree's pre-order, then the rest's. */
  lemma FirstInFolderHead(items: seq<FileItem>, p: string)
    requires |items| > 0 && items[0].kind == Folder
    requires Find(items[0].children, p) == FirstWithPath(Nodes(items[0].children), p)
    requires Find(items[1..], p) == FirstWithPath(Nodes(items[1..]), p)
    ensures Find(items, p) == FirstWithPath(Nodes(items), p)
  {
    var head := items[0];
    var below := Nodes(head.children);
    assert Nodes(items) == [head] + (below + Nodes(items[1..]));
    FirstWithPathConcat([head], below + Nodes(items[1..]), p);
    FirstWithPathConcat(below, Nodes(items[1..]), p);
  }

  /** The step of `FindIsFirstInPreorder` for a list that starts with a file:
      the file heads the pre-order, followed by the rest's. */
  lemma FirstInFileHead(items: seq<FileItem>, p: string)
    requires |items| > 0 && items[0].kind == File
    requires Find(items[1..], p) == FirstWithPath(Nodes(items[1..]), p)
    ensures Find(items, p) == FirstWithPath(Nodes(items), p)
  {
    assert Find(items, p) == if items[0].path == p then Some(items[0]) else Find(items[1..], p);
    assert Nodes(items) == [items[0]] + Nodes(items[1..]);
    FirstWithPathConcat([items[0]], Nodes(items[1..]), p);
  }

  // ---------------------------------------------------------------- path counts

  /** Both kinds. */
  const ANY: set<Kind> := {File, Folder}

  /** How many items the search can reach that have path `p` and a kind in `ks`. */
  function Count(items: seq<FileItem>, p: string, ks: set<Kind>): nat
    decreases items
  {
    if |items| == 0 then 0
    else
      (if items[0].path == p && items[0].kind in ks then 1 else 0)
      + (if items[0].kind == Folder then Count(items[0].children, p, ks) else 0)
      + Count(items[1..], p, ks)
  }

  /** The same count for one item and the subtree the search reaches below it. */
  function ItemCount(n: FileItem, p: string, ks: set<Kind>): (c: nat)
    ensures n.path == p && n.kind in ks ==> c >= 1
    ensures n.kind == File || n.children == [] ==> c == if n.path == p && n.kind in ks then 1 else 0
  {
    assert [n][0] == n && [n][1..] == [];
    assert Count([], p, ks) == 0;
    Count([n], p, ks)
  }

  lemma ItemCountUnfold(n: FileItem, p: string, ks: set<Kind>)
    ensures ItemCount(n, p, ks)
         == (if n.path == p && n.kind in ks then 1 else 0) + (if n.kind == Folder then Count(n.children, p, ks) else 0)
  {
    assert [n][0] == n && [n][1..] == [];
    assert Count([], p, ks) == 0;
  }

  lemma {:induction false} CountConcat(a: seq<FileItem>, b: seq<FileItem>, p: string, ks: set<Kind>)
    ensures Count(a + b, p, ks) == Count(a, p, ks) + Count(b, p, ks)
    decreases |a|
  {
    if |a| == 0 {
      assert a + b == b;
    } else {
      assert (a + b)[0] == a[0];
      assert (a + b)[1..] == a[1..] + b;
      CountConcat(a[1..], b, p, ks);
    }
  }

  lemma CountCons(n: FileItem, rest: seq<FileItem>, p: string, ks: set<Kind>)
    ensures Count([n] + rest, p, ks) == ItemCount(n, p, ks) + Count(rest, p, ks)
  {
    CountConcat([n], rest, p, ks);
  }

  /** Cutting the `k`-th item out of a list takes one copy of it from the
      multiset and its own count from every count. */
  lemma CutAt(b: seq<FileItem>, k: nat, p: string, ks: set<Kind>)
    requires k < |b|
    ensures multiset(b) == multiset(b[..k] + b[k + 1..]) + multiset{b[k]}
    ensures Count(b, p, ks) == Count(b[..k] + b[k + 1..], p, ks) + ItemCount(b[k], p, ks)
  {
    assert b == b[..k] + [b[k]] + b[k + 1..];
    CountConcat(b[..k] + [b[k]], b[k + 1..], p, ks);
    CountConcat(b[..k], [b[k]], p, ks);
    CountConcat(b[..k], b[k + 1..], p, ks);
  }

  /** One copy of the same item taken from two equal multisets leaves equal
      multisets. */
  lemma MultisetCancel(a: multiset<FileItem>, b: multiset<FileItem>, x: FileItem)
    requires a + multiset{x} == b + multiset{x}
    ensures a == b
  {
    forall y
      ensures a[y] == b[y]
    {
      assert (a + multiset{x})[y] == (b + multiset{x})[y];
    }
  }

  /** Reordering a list (as `sortItems` does) keeps every count. */
  lemma {:induction false} CountPermutation(a: seq<FileItem>, b: seq<FileItem>, p: string, ks: set<Kind>)
    requires multiset(a) == multiset(b)
    ensures Count(a, p, ks) == Count(b, p, ks)
    decreases |a|
  {
    if |a| == 0 {
      assert |b| == |multiset(b)| == 0;
    } else {
      var x := a[0];
      assert x in multiset(b);
      assert x in b;
      var k :| 0 <= k < |b| && b[k] == x;
      var others := b[..k] + b[k + 1..];
      CutAt(b, k, p, ks);
      assert a == [x] + a[1..];
      assert multiset(a) == multiset{x} + multiset(a[1..]);
      CountCons(x, a[1..], p, ks);
      MultisetCancel(multiset(a[1..]), multiset(others), x);
      CountPermutation(a[1..], others, p, ks);
    }
  }

  /** Counting fewer kinds counts fewer items. */
  lemma {:induction false} CountMono(items: seq<FileItem>, p: string, ks: set<Kind>, ks': set<Kind>)
    requires ks <= ks'
    ensures Count(items, p, ks) <= Count(items, p, ks')
    decreases items
  {
    if |items| > 0 {
      CountMono(items[1..], p, ks, ks');
      if items[0].kind == Folder {
        CountMono(items[0].children, p, ks, ks');
      }
    }
  }

  /** The search finds a path exactly when the path is counted, and what it
      finds is counted under its own kind. */
  lemma {:induction false} FindIffCounted(items: seq<FileItem>, p: string)
    ensures Find(items, p).Some? <==> Count(items, p, ANY) > 0
    ensures Find(items, p).Some? ==> Count(items, p, {Find(items, p).value.kind}) > 0
    decreases items
  {
    if |items| > 0 {
      FindIffCounted(items[1..], p);
      if items[0].kind == Folder {
        FindIffCounted(items[0].children, p);
      }
    }
  }

  /** When no file has the path, what the search finds is a folder. */
  lemma FoundFolder(items: seq<FileItem>, p: string)
    requires Find(items, p).Some? && Count(items, p, {File}) == 0
    ensures Find(items, p).value.kind == Folder
  {
    FindIffCounted(items, p);
  }

  /** The search finds a folder at path `p`. */
  predicate IsFolderAt(items: seq<FileItem>, p: string) {
    Find(items, p).Some? && Find(items, p).value.kind == Folder
  }

  /** A folder that is counted and has no file sharing its path is what the
      search finds. */
  lemma FolderFound(items: seq<FileItem>, p: string)
    requires Count(items, p, ANY) > 0 && Count(items, p, {File}) == 0
    ensures IsFolderAt(items, p)
  {
    FindIffCounted(items, p);
  }

  /** No prefix of `parts` from round `i` on is the path of a file. */
  predicate NoFileAt(root: seq<FileItem>, parts: seq<string>, i: nat) {
    forall j :: i <= j < |parts| ==> Count(root, Prefix(parts, j), {File}) == 0
  }

  /** No path occurs twice among the items the search reaches. */
  ghost predicate Unique(items: seq<FileItem>) {
    forall p :: Count(items, p, ANY) <= 1
  }

  // ---------------------------------------------------------------- editing

  /** Replaces the first item the search finds with path `p` by `f` of it; the
      rest of the tree is shared. This is the in-place mutation of the object
      that `findItemByPath` returns. */
  function Update(items: seq<FileItem>, p: string, f: FileItem -> FileItem): (r: seq<FileItem>)
    ensures |r| == |items|
    ensures Find(items, p).None? ==> r == items
    decreases items
  {
    if |items| == 0 then []
    else if items[0].path == p then [f(items[0])] + items[1..]
    else if items[0].kind == Folder && Find(items[0].children, p).Some? then
      [items[0].(children := Update(items[0].children, p, f))] + items[1..]
    else
      assert items == [items[0]] + items[1..];
      [items[0]] + Update(items[1..], p, f)
  }

  /** The edit swaps the found item's subtree of paths for its replacement's. */
  lemma {:induction false} UpdateCount(items: seq<FileItem>, q: string, f: FileItem -> FileItem, p: string, ks: set<Kind>)
    requires Find(items, q).Some?
    ensures Count(Update(items, q, f), p, ks) + ItemCount(Find(items, q).value, p, ks)
         == Count(items, p, ks) + ItemCount(f(Find(items, q).value), p, ks)
    decreases items
  {
    var head := items[0];
    var rest := items[1..];
    var n := Find(items, q).value;
    var u := Update(items, q, f);
    assert items == [head] + rest;
    CountCons(head, rest, p, ks);
    if head.path == q {
      assert u == [f(head)] + rest;
      CountCons(f(head), rest, p, ks);
    } else if head.kind == Folder && Find(head.children, q).Some? {
      var inner := Update(head.children, q, f);
      var head' := head.(children := inner);
      assert u == [head'] + rest;
      assert n == Find(head.children, q).value;
      UpdateCount(head.children, q, f, p, ks);
      CountCons(head', rest, p, ks);
      ItemCountUnfold(head, p, ks);
      ItemCountUnfold(head', p, ks);
    } else {
      var later := Update(rest, q, f);
      assert n == Find(rest, q).value;
      assert u == [head] + later;
      UpdateCount(rest, q, f, p, ks);
      CountCons(head, later, p, ks);
    }
  }

  /** After an edit that keeps the path, the search finds the edited item. */
  lemma {:induction false} FindAfterUpdate(items: seq<FileItem>, p: string, f: FileItem -> FileItem)
    requires Find(items, p).Some? && f(Find(items, p).value).path == p
    ensures Find(Update(items, p, f), p) == Some(f(Find(items, p).value))
    decreases items
  {
    var head := items[0];
    if head.path != p {
      if head.kind == Folder && Find(head.children, p).Some? {
        FindAfterUpdate(head.children, p, f);
      } else {
        FindAfterUpdate(items[1..], p, f);
        assert Update(items, p, f)[1..] == Update(items[1..], p, f);
      }
    }
  }

  /** An edit that keeps the path, followed by one that undoes it on the found
      item, leaves the tree as it was. */
  lemma {:induction false} UpdateUndo(items: seq<FileItem>, p: string, f: FileItem -> FileItem, g: FileItem -> FileItem)
    requires Find(items, p).Some?
    requires f(Find(items, p).value).path == p
    requires g(f(Find(items, p).value)) == Find(items, p).value
    ensures Update(Update(items, p, f), p, g) == items
    decreases items
  {
    var head := items[0];
    if head.path == p {
      assert items == [head] + items[1..];
    } else if head.kind == Folder && Find(head.children, p).Some? {
      FindAfterUpdate(head.children, p, f);
      UpdateUndo(head.children, p, f, g);
      assert items == [head] + items[1..];
    } else {
      UpdateUndo(items[1..], p, f, g);
      var once := Update(items, p, f);
      assert once[0] == head && once[1..] == Update(items[1..], p, f);
      assert items == [head] + items[1..];
    }
  }

  /** An edit of one item that keeps its path, kind and children keeps every
      count of the tree. */
  lemma UpdateKeepsCounts(items: seq<FileItem>, q: string, f: FileItem -> FileItem)
    requires Find(items, q).Some?
    requires var n := Find(items, q).value; f(n).path == n.path && f(n).kind == n.kind && f(n).children == n.children
    ensures forall p, ks :: Count(Update(items, q, f), p, ks) == Count(items, p, ks)
  {
    var n := Find(items, q).value;
    forall p, ks
      ensures Count(Update(items, q, f), p, ks) == Count(items, p, ks)
    {
      UpdateCount(items, q, f, p, ks);
      ItemCountUnfold(n, p, ks);
      ItemCountUnfold(f(n), p, ks);
    }
  }

  /** Adds `x` to a folder's children and re-sorts them. */
  function AddChild(x: FileItem): FileItem -> FileItem {
    (n: FileItem) => n.(children := Sort(n.children + [x]))
  }

  /** Re-sorts a folder's children. */
  function SortChildren(): FileItem -> FileItem {
    (n: FileItem) => n.(children := Sort(n.children))
  }

  /** Sorting keeps every count. */
  lemma SortCount(xs: seq<FileItem>)
    ensures forall p, ks :: Count(Sort(xs), p, ks) == Count(xs, p, ks)
  {
    forall p, ks
      ensures Count(Sort(xs), p, ks) == Count(xs, p, ks)
    {
      CountPermutation(Sort(xs), xs, p, ks);
    }
  }

  /** Adding an item at the top level and sorting adds exactly its paths. */
  lemma AddRootCount(items: seq<FileItem>, x: FileItem)
    ensures forall p, ks :: Count(Sort(items + [x]), p, ks) == Count(items, p, ks) + ItemCount(x, p, ks)
  {
    forall p, ks
      ensures Count(Sort(items + [x]), p, ks) == Count(items, p, ks) + ItemCount(x, p, ks)
    {
      CountPermutation(Sort(items + [x]), items + [x], p, ks);
      CountConcat(items, [x], p, ks);
    }
  }

  /** Adding a child under the first item with path `q`, when that item is a
      folder, adds exactly the child's paths. */
  lemma AddChildCount(items: seq<FileItem>, q: string, x: FileItem)
    requires Find(items, q).Some? && Find(items, q).value.kind == Folder
    ensures forall p, ks :: Count(Update(items, q, AddChild(x)), p, ks) == Count(items, p, ks) + ItemCount(x, p, ks)
  {
    var n := Find(items, q).value;
    var n' := AddChild(x)(n);
    assert n' == n.(children := Sort(n.children + [x]));
    forall p, ks
      ensures Count(Update(items, q, AddChild(x)), p, ks) == Count(items, p, ks) + ItemCount(x, p, ks)
    {
      UpdateCount(items, q, AddChild(x), p, ks);
      CountPermutation(Sort(n.children + [x]), n.children + [x], p, ks);
      CountConcat(n.children, [x], p, ks);
      ItemCountUnfold(n, p, ks);
      ItemCountUnfold(n', p, ks);
    }
  }

  /** Re-sorting the children of the first item with path `q` keeps every count. */
  lemma SortChildrenCount(items: seq<FileItem>, q: string)
    ensures forall p, ks :: Count(Update(items, q, SortChildren()), p, ks) == Count(items, p, ks)
  {
    if Find(items, q).Some? {
      var n := Find(items, q).value;
      var n' := SortChildren()(n);
      assert n' == n.(children := Sort(n.children));
      forall p, ks
        ensures Count(Update(items, q, SortChildren()), p, ks) == Count(items, p, ks)
      {
        UpdateCount(items, q, SortChildren(), p, ks);
        CountPermutation(Sort(n.children), n.children, p, ks);
        ItemCountUnfold(n, p, ks);
        ItemCountUnfold(n', p, ks);
      }
    }
  }

  /** Adding an item whose path is new, and which brings no reachable children,
      keeps the paths unique. */
  lemma AddKeepsUnique(before: seq<FileItem>, after: seq<FileItem>, x: FileItem)
    requires Unique(before) && Count(before, x.path, ANY) == 0
    requires x.kind == File || x.children == []
    requires forall p :: Count(after, p, ANY) == Count(before, p, ANY) + ItemCount(x, p, ANY)
    ensures Unique(after)
  {
    forall p
      ensures Count(after, p, ANY) <= 1
    {
      assert Count(after, p, ANY) == Count(before, p, ANY) + ItemCount(x, p, ANY);
    }
  }

  // ---------------------------------------------------------------- search after edits

  /** Putting `m` in place of the found item swaps the found item's subtree of
      paths for `m`'s. */
  lemma PutCount(items: seq<FileItem>, p: string, m: FileItem)
    ensures Find(items, p).Some? ==> forall q, ks ::
      Count(Update(items, p, Put(m)), q, ks) + ItemCount(Find(items, p).value, q, ks) == Count(items, q, ks) + ItemCount(m, q, ks)
  {
    if Find(items, p).Some? {
      forall q, ks
        ensures Count(Update(items, p, Put(m)), q, ks) + ItemCount(Find(items, p).value, q, ks) == Count(items, q, ks) + ItemCount(m, q, ks)
      {
        UpdateCount(items, p, Put(m), q, ks);
      }
    }
  }

  /** Putting `m` in place of the found item makes `m` what the search finds at
      its own path, when no item had that path before. */
  lemma {:induction false} FindPut(items: seq<FileItem>, p: string, m: FileItem)
    requires Find(items, p).Some? && Count(items, m.path, ANY) == 0
    ensures Find(Update(items, p, Put(m)), m.path) == Some(m)
    decreases items
  {
    var head := items[0];
    var rest := items[1..];
    assert items == [head] + rest;
    CountCons(head, rest, m.path, ANY);
    ItemCountUnfold(head, m.path, ANY);
    if head.path != p {
      if head.kind == Folder && Find(head.children, p).Some? {
        FindPut(head.children, p, m);
      } else {
        if head.kind == Folder {
          FindIffCounted(head.children, m.path);
        }
        FindPut(rest, p, m);
        assert Update(items, p, Put(m)) == [head] + Update(rest, p, Put(m));
      }
    }
  }

  /** What the search finds in a list is what it finds in one of its items. */
  lemma {:induction false} FoundInElement(b: seq<FileItem>, q: string) returns (e: FileItem)
    requires Find(b, q).Some?
    ensures e in b && Find([e], q) == Find(b, q)
    decreases b
  {
    var head := b[0];
    assert [head][1..] == [];
    if head.path == q || (head.kind == Folder && Find(head.children, q).Some?) {
      e := head;
    } else {
      e := FoundInElement(b[1..], q);
    }
  }

  /** When only one item of a list has path `q` in its subtree, the search of
      the list finds what the search of that item finds. */
  lemma {:induction false} FindAtElement(a: seq<FileItem>, e: FileItem, q: string)
    requires e in a && Find([e], q).Some? && Count(a, q, ANY) <= 1
    ensures Find(a, q) == Find([e], q)
    decreases a
  {
    var head := a[0];
    assert [head][1..] == [];
    if head != e {
      assert e in a[1..];
      assert a == [head] + a[1..];
      CountCons(head, a[1..], q, ANY);
      FindIffCounted([e], q);
      InCountAll(a[1..], e, q, ANY);
      ItemCountUnfold(head, q, ANY);
      if head.kind == Folder {
        FindIffCounted(head.children, q);
      }
      FindAtElement(a[1..], e, q);
    }
  }

  /** Reordering a list in which at most one item has path `q` does not change
      what the search finds there. */
  lemma FindPermuted(a: seq<FileItem>, b: seq<FileItem>, q: string)
    requires multiset(a) == multiset(b) && Count(b, q, ANY) <= 1
    ensures Find(a, q) == Find(b, q)
  {
    CountPermutation(a, b, q, ANY);
    FindIffCounted(a, q);
    FindIffCounted(b, q);
    if Find(b, q).Some? {
      var e := FoundInElement(b, q);
      assert e in multiset(b);
      assert e in a;
      FindAtElement(a, e, q);
    }
  }

  /** Re-sorting the children of the item at `pp` does not change what the
      search finds at another path that at most one item has, unless what it
      finds holds the re-sorted item in its subtree. */
  lemma {:induction false} FindAfterSortChildren(items: seq<FileItem>, pp: string, q: string)
    requires q != pp && Count(items, q, ANY) <= 1
    requires Find(items, q).Some? ==> ItemCount(Find(items, q).value, pp, ANY) == 0
    ensures Find(Update(items, pp, SortChildren()), q) == Find(items, q)
    decreases items
  {
    if |items| > 0 {
      var head := items[0];
      var rest := items[1..];
      assert items == [head] + rest;
      CountCons(head, rest, q, ANY);
      ItemCountUnfold(head, q, ANY);
      ItemCountUnfold(head, pp, ANY);
      FindIffCounted(rest, q);
      if head.kind == Folder {
        FindIffCounted(head.children, pp);
        FindIffCounted(head.children, q);
      }
      if head.path == pp {
        if head.kind == Folder {
          FindPermuted(Sort(head.children), head.children, q);
        }
        SortedHereFinds(items, pp, q);
      } else if head.kind == Folder && Find(head.children, pp).Some? {
        FindAfterSortChildren(head.children, pp, q);
      } else {
        FindAfterSortChildren(rest, pp, q);
        assert Update(items, pp, SortChildren()) == [head] + Update(rest, pp, SortChildren());
      }
    }
  }

  /** The step of `FindAfterSortChildren` at the item whose children are
      re-sorted. */
  lemma SortedHereFinds(items: seq<FileItem>, pp: string, q: string)
    requires |items| > 0 && items[0].path == pp && q != pp
    requires items[0].kind == Folder ==> Find(Sort(items[0].children), q) == Find(items[0].children, q)
    ensures Find(Update(items, pp, SortChildren()), q) == Find(items, q)
  {
    var head' := items[0].(children := Sort(items[0].children));
    assert Update(items, pp, SortChildren()) == [head'] + items[1..];
    assert ([head'] + items[1..])[1..] == items[1..];
  }

  // ---------------------------------------------------------------- removal at one level

  /** What a removal leaves and what it took out. */
  datatype Removal = Removal(rest: seq<FileItem>, removed: FileItem)

  /** `findIndex(item => item.path === p)`, with `|s|` for "not found". */
  function FirstIndex(s: seq<FileItem>, p: string): (i: nat)
    ensures i <= |s|
    ensures i < |s| ==> s[i].path == p
    ensures forall j :: 0 <= j < i ==> s[j].path != p
  {
    if |s| == 0 then 0
    else if s[0].path == p then 0
    else 1 + FirstIndex(s[1..], p)
  }

  /** `splice(findIndex(...), 1)` on one list: the first item with the path is
      cut out, and nothing happens when there is none. */
  function TakeFirst(s: seq<FileItem>, p: string): (r: Option<Removal>)
    ensures r.None? <==> forall j :: 0 <= j < |s| ==> s[j].path != p
    ensures r.Some? ==> r.value.removed.path == p && r.value.removed in s
    ensures r.Some? ==> |r.value.rest| == |s| - 1
    ensures r.Some? ==> multiset(s) == multiset(r.value.rest) + multiset{r.value.removed}
  {
    var i := FirstIndex(s, p);
    if i == |s| then None
    else
      assert s == s[..i] + [s[i]] + s[i + 1..];
      Some(Removal(s[..i] + s[i + 1..], s[i]))
  }

  /** Cutting an item out of a list takes away exactly its paths. */
  lemma TakeFirstCount(s: seq<FileItem>, p: string, q: string, ks: set<Kind>)
    requires TakeFirst(s, p).Some?
    ensures var rm := TakeFirst(s, p).value; Count(s, q, ks) == Count(rm.rest, q, ks) + ItemCount(rm.removed, q, ks)
  {
    var rm := TakeFirst(s, p).value;
    assert multiset(s) == multiset(rm.rest + [rm.removed]);
    CountPermutation(s, rm.rest + [rm.removed], q, ks);
    CountConcat(rm.rest, [rm.removed], q, ks);
  }

  /** An item of a list is counted under its path. */
  lemma InCount(s: seq<FileItem>, x: FileItem)
    requires x in s
    ensures Count(s, x.path, ANY) >= 1
  {
    var k :| 0 <= k < |s| && s[k] == x;
    assert s == s[..k] + ([x] + s[k + 1..]);
    CountConcat(s[..k], [x] + s[k + 1..], x.path, ANY);
    CountCons(x, s[k + 1..], x.path, ANY);
  }

  /** An item of a list brings its whole count into the list's. */
  lemma InCountAll(s: seq<FileItem>, x: FileItem, q: string, ks: set<Kind>)
    requires x in s
    ensures Count(s, q, ks) >= ItemCount(x, q, ks)
  {
    var k :| 0 <= k < |s| && s[k] == x;
    assert s == s[..k] + ([x] + s[k + 1..]);
    CountConcat(s[..k], [x] + s[k + 1..], q, ks);
    CountCons(x, s[k + 1..], q, ks);
  }

  /** When an item is the only one with its path, it is the one cut out. */
  lemma TakeOnly(s: seq<FileItem>, x: FileItem)
    requires x in s && Count(s, x.path, ANY) <= 1
    ensures TakeFirst(s, x.path).Some? && TakeFirst(s, x.path).value.removed == x
  {
    var rm := TakeFirst(s, x.path).value;
    if rm.removed != x {
      assert x in multiset(s);
      assert x in multiset(rm.rest);
      InCount(rm.rest, x);
      TakeFirstCount(s, x.path, x.path, ANY);
      assert false;
    }
  }

  /** The subtree below a found folder is part of the tree. */
  lemma ChildrenCountBound(items: seq<FileItem>, q: string, p: string, ks: set<Kind>)
    requires IsFolderAt(items, q)
    ensures Count(Find(items, q).value.children, p, ks) <= Count(items, p, ks)
  {
    var n := Find(items, q).value;
    var bare := n.(children := []);
    UpdateCount(items, q, Put(bare), p, ks);
    ItemCountUnfold(n, p, ks);
    ItemCountUnfold(bare, p, ks);
  }

  /** The constant edit: the found item is replaced by `n`. */
  function Put(n: FileItem): FileItem -> FileItem {
    (_: FileItem) => n
  }

  // ---------------------------------------------------------------- queries

  datatype Toggled = Toggled(root: seq<FileItem>, ok: bool)

  function Flip(): FileItem -> FileItem {
    (n: FileItem) => n.(expanded := !n.expanded)
  }

  /** `toggleFolder`: flips `expanded` on the found item when it is a folder. */
  function ToggleFolder(root: seq<FileItem>, p: string): (t: Toggled)
    ensures t.ok <==> Find(root, p).Some? && Find(root, p).value.kind == Folder
    ensures !t.ok ==> t.root == root
    ensures t.ok ==> Find(t.root, p) == Some(Find(root, p).value.(expanded := !Find(root, p).value.expanded))
    ensures forall q, ks :: Count(t.root, q, ks) == Count(root, q, ks)
  {
    var found := Find(root, p);
    if found.Some? && found.value.kind == Folder then
      var n := found.value;
      assert Flip()(n) == n.(expanded := !n.expanded);
      FindAfterUpdate(root, p, Flip());
      UpdateKeepsCounts(root, p, Flip());
      Toggled(Update(root, p, Flip()), true)
    else Toggled(root, false)
  }

  /** Toggling a folder twice restores the tree. */
  lemma ToggleTwice(root: seq<FileItem>, p: string)
    ensures ToggleFolder(ToggleFolder(root, p).root, p).root == root
  {
    var t := ToggleFolder(root, p);
    if t.ok {
      UpdateUndo(root, p, Flip(), Flip());
    }
  }

  /** `selectFile`'s lookup: the found item when it is a file. */
  function SelectFile(root: seq<FileItem>, p: string): (r: Option<FileItem>)
    ensures r.Some? <==> Find(root, p).Some? && Find(root, p).value.kind == File
    ensures r.Some? ==> r.value.path == p && r.value.kind == File
  {
    var found := Find(root, p);
    if found.Some? && found.value.kind == File then found else None
  }

  /** The selected file is the first file with the path in pre-order. */
  lemma SelectedIsFirstInPreorder(root: seq<FileItem>, p: string)
    ensures SelectFile(root, p).Some? ==> SelectFile(root, p) == FirstWithPath(Nodes(root), p)
    ensures SelectFile(root, p).Some? ==> SelectFile(root, p).value in Nodes(root)
  {
    FindIsFirstInPreorder(root, p);
  }

  /** The items of a list that have the given kind, in order. */
  function OfKind(s: seq<FileItem>, k: Kind): (r: seq<FileItem>)
    ensures forall i :: 0 <= i < |r| ==> r[i].kind == k
  {
    if |s| == 0 then []
    else (if s[0].kind == k then [s[0]] else []) + OfKind(s[1..], k)
  }

  lemma {:induction false} OfKindConcat(a: seq<FileItem>, b: seq<FileItem>, k: Kind)
    ensures OfKind(a + b, k) == OfKind(a, k) + OfKind(b, k)
    decreases |a|
  {
    if |a| == 0 {
      assert a + b == b;
    } else {
      assert (a + b)[0] == a[0];
      assert (a + b)[1..] == a[1..] + b;
      OfKindConcat(a[1..], b, k);
    }
  }

  /** `getFlatFileList`: files are collected, folders are entered. */
  function FlatFiles(items: seq<FileItem>): (r: seq<FileItem>)
    ensures forall k :: 0 <= k < |r| ==> r[k].kind == File
    decreases items
  {
    if |items| == 0 then []
    else
      var here := if items[0].kind == File then [items[0]] else FlatFiles(items[0].children);
      var rest := FlatFiles(items[1..]);
      assert forall k :: |here| <= k < |here + rest| ==> (here + rest)[k] == rest[k - |here|];
      here + rest
  }

  /** `getAllFolders`: folders are collected and entered, files skipped. */
  function AllFolders(items: seq<FileItem>): (r: seq<FileItem>)
    ensures forall k :: 0 <= k < |r| ==> r[k].kind == Folder
    decreases items
  {
    if |items| == 0 then []
    else
      var below := if items[0].kind == Folder then AllFolders(items[0].children) else [];
      var here := if items[0].kind == Folder then [items[0]] + below else [];
      var rest := AllFolders(items[1..]);
      assert forall k :: 1 <= k < |here| ==> here[k] == below[k - 1];
      assert forall k :: |here| <= k < |here + rest| ==> (here + rest)[k] == rest[k - |here|];
      here + rest
  }

  /** The flat file list is exactly the files of the pre-order, in order. */
  lemma {:induction false} FlatFilesArePreorderFiles(items: seq<FileItem>)
    ensures FlatFiles(items) == OfKind(Nodes(items), File)
    decreases items
  {
    if |items| > 0 {
      FlatFilesArePreorderFiles(items[1..]);
      if items[0].kind == Folder {
        FlatFilesArePreorderFiles(items[0].children);
        FlatFilesFolderStep(items);
      } else {
        FlatFilesFileStep(items);
      }
    }
  }

  /** The step of `FlatFilesArePreorderFiles` for a list that starts with a
      folder: the folder contributes the files of its subtree. */
  lemma FlatFilesFolderStep(items: seq<FileItem>)
    requires |items| > 0 && items[0].kind == Folder
    requires FlatFiles(items[1..]) == OfKind(Nodes(items[1..]), File)
    requires FlatFiles(items[0].children) == OfKind(Nodes(items[0].children), File)
    ensures FlatFiles(items) == OfKind(Nodes(items), File)
  {
    var head := items[0];
    var rest := Nodes(items[1..]);
    var below := Nodes(head.children);
    assert Nodes(items) == ([head] + below) + rest;
    OfKindConcat([head] + below, rest, File);
    assert OfKind([head] + below, File) == OfKind(below, File) by {
      OfKindConcat([head], below, File);
      assert [head][1..] == [];
      assert OfKind([head], File) == [];
      assert [] + OfKind(below, File) == OfKind(below, File);
    }
  }

  /** The step of `FlatFilesArePreorderFiles` for a list that starts with a
      file: the file heads the list. */
  lemma FlatFilesFileStep(items: seq<FileItem>)
    requires |items| > 0 && items[0].kind == File
    requires FlatFiles(items[1..]) == OfKind(Nodes(items[1..]), File)
    ensures FlatFiles(items) == OfKind(Nodes(items), File)
  {
    var head := items[0];
    var rest := Nodes(items[1..]);
    assert Nodes(items) == [head] + rest;
    OfKindConcat([head], rest, File);
    assert [head][1..] == [];
    assert OfKind([head], File) == [head];
  }

  /** The folder list is exactly the folders of the pre-order, in order. */
  lemma {:induction false} AllFoldersArePreorderFolders(items: seq<FileItem>)
    ensures AllFolders(items) == OfKind(Nodes(items), Folder)
    decreases items
  {
    if |items| > 0 {
      AllFoldersArePreorderFolders(items[1..]);
      if items[0].kind == Folder {
        AllFoldersArePreorderFolders(items[0].children);
      }
      AllFoldersStep(items);
    }
  }

  /** The step of `AllFoldersArePreorderFolders`: a folder heads its own list,
      followed by the folders of its subtree. */
  lemma AllFoldersStep(items: seq<FileItem>)
    requires |items| > 0
    requires AllFolders(items[1..]) == OfKind(Nodes(items[1..]), Folder)
    requires items[0].kind == Folder ==> AllFolders(items[0].children) == OfKind(Nodes(items[0].children), Folder)
    ensures AllFolders(items) == OfKind(Nodes(items), Folder)
  {
    var head := items[0];
    var below := if head.kind == Folder then Nodes(head.children) else [];
    assert Nodes(items) == [head] + below + Nodes(items[1..]);
    OfKindConcat([head] + below, Nodes(items[1..]), Folder);
    OfKindConcat([head], below, Folder);
    assert [head][1..] == [];
  }
}
