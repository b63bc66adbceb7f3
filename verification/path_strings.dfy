/** The string operations the file trees apply to `/`-separated paths, with
    JavaScript's semantics: `split('/')`, `join('/')`, `lastIndexOf('/')`,
    `substring(0, k)` (which clamps a negative end to 0), `startsWith`, and
    `replace` with a string pattern (first occurrence only). */
module PathStrings {
  const SEP: char := '/'

  /** `path` holds no separator. */
  predicate NoSep(path: string) {
    forall j :: 0 <= j < |path| ==> path[j] != SEP
  }

  /** Position of the last separator among the first `n` characters of `s`,
      or -1. */
  function LastSepBelow(s: string, n: nat): (i: int)
    requires n <= |s|
    ensures -1 <= i < n
    ensures 0 <= i ==> s[i] == SEP
    ensures forall j :: i < j < n ==> s[j] != SEP
    decreases n
  {
    if n == 0 then -1
    else if s[n - 1] == SEP then n - 1
    else LastSepBelow(s, n - 1)
  }

  /** Position of the last separator in `s`, or -1: `s.lastIndexOf('/')`. */
  function LastSep(s: string): (i: int)
    ensures -1 <= i < |s|
    ensures 0 <= i ==> s[i] == SEP
    ensures i < 0 ==> NoSep(s)
    ensures 0 <= i ==> NoSep(s[i + 1..])
  {
    LastSepBelow(s, |s|)
  }

  /** `path.split('/')`: the maximal separator-free pieces, at least one. The
      pieces are peeled off from the end, which gives the same list as
      JavaScript's left-to-right scan. */
  function Split(s: string): (parts: seq<string>)
    ensures |parts| >= 1
    ensures |parts| == 1 <==> NoSep(s)
    decreases |s|
  {
    var k := LastSep(s);
    if k < 0 then [s] else Split(s[..k]) + [s[k + 1..]]
  }

  /** No piece of a split holds a separator. */
  lemma {:induction false} SplitNoSep(s: string)
    ensures forall k :: 0 <= k < |Split(s)| ==> NoSep(Split(s)[k])
    decreases |s|
  {
    var k := LastSep(s);
    if k >= 0 {
      SplitNoSep(s[..k]);
      var init := Split(s[..k]);
      assert Split(s) == init + [s[k + 1..]];
    }
  }

  /** `parts.join('/')`. */
  function Join(parts: seq<string>): (s: string)
    decreases |parts|
  {
    if |parts| == 0 then ""
    else if |parts| == 1 then parts[0]
    else Join(parts[..|parts| - 1]) + [SEP] + parts[|parts| - 1]
  }

  /** Splitting and joining back gives the original path. */
  lemma {:induction false} JoinSplit(s: string)
    ensures Join(Split(s)) == s
    decreases |s|
  {
    var k := LastSep(s);
    if k >= 0 {
      JoinSplit(s[..k]);
      var init := Split(s[..k]);
      var parts := init + [s[k + 1..]];
      assert parts[..|parts| - 1] == init;
      assert s == s[..k] + [SEP] + s[k + 1..];
    }
  }

  /** Joining separator-free pieces and splitting again gives the pieces back. */
  lemma {:induction false} SplitJoin(parts: seq<string>)
    requires |parts| >= 1
    requires forall k :: 0 <= k < |parts| ==> NoSep(parts[k])
    ensures Split(Join(parts)) == parts
    decreases |parts|
  {
    var last := parts[|parts| - 1];
    if |parts| > 1 {
      var init := parts[..|parts| - 1];
      SplitJoin(init);
      var j := Join(init);
      var s := Join(parts);
      assert s == j + [SEP] + last;
      assert s[|j| + 1..] == last;
      LastSepIsLast(s, |j|);
      assert s[..|j|] == j;
      assert parts == init + [last];
    } else {
      assert NoSep(last);
    }
  }

  /** `path.substring(0, path.lastIndexOf('/'))`: everything before the last
      separator, and `""` when there is none. */
  function ParentPath(path: string): (p: string)
    ensures |p| <= |path| && p == path[..|p|]
    ensures NoSep(path) ==> p == ""
    ensures !NoSep(path) ==> |p| < |path| && path[|p|] == SEP && NoSep(path[|p| + 1..])
  {
    var k := LastSep(path);
    if k < 0 then "" else path[..k]
  }

  /** The text after the last separator: what `split('/').pop()` returns. */
  function LastSegment(path: string): (name: string)
    ensures NoSep(name)
    ensures |name| <= |path| && name == path[|path| - |name|..]
    ensures NoSep(path) ==> name == path
    ensures !NoSep(path) ==> path == ParentPath(path) + [SEP] + name
  {
    var k := LastSep(path);
    if k < 0 then path else path[k + 1..]
  }

  /** The last piece of the split, which `pop()` takes, is the last segment, and
      joining the other pieces gives the parent path: `split`/`pop`/`join` and
      `substring(0, lastIndexOf('/'))` agree. */
  lemma SplitLast(s: string)
    ensures Split(s)[|Split(s)| - 1] == LastSegment(s)
    ensures Join(Split(s)[..|Split(s)| - 1]) == ParentPath(s)
  {
    var k := LastSep(s);
    if k >= 0 {
      var init := Split(s[..k]);
      assert Split(s)[..|Split(s)| - 1] == init;
      JoinSplit(s[..k]);
    }
  }

  /** A separator with no separator after it is the one `LastSep` finds. */
  lemma LastSepIsLast(s: string, k: nat)
    requires k < |s| && s[k] == SEP && NoSep(s[k + 1..])
    ensures LastSep(s) == k
  {
  }

  /** `s.startsWith(prefix)`. */
  predicate StartsWith(s: string, prefix: string) {
    |prefix| <= |s| && s[..|prefix|] == prefix
  }

  /** `pat` occurs in `s` at position `j`. */
  predicate OccursAt(s: string, pat: string, j: int) {
    0 <= j && j + |pat| <= |s| && s[j..j + |pat|] == pat
  }

  /** Position of the first occurrence of `pat` in `s`, or -1. */
  function IndexOfSub(s: string, pat: string): (i: int)
    ensures -1 <= i
    ensures 0 <= i ==> OccursAt(s, pat, i)
    ensures forall j :: 0 <= j && (i < 0 || j < i) ==> !OccursAt(s, pat, j)
    decreases |s|
  {
    if |pat| > |s| then -1
    else if s[..|pat|] == pat then 0
    else
      var k := IndexOfSub(s[1..], pat);
      assert forall j :: 1 <= j ==> OccursAt(s, pat, j) == OccursAt(s[1..], pat, j - 1) by {
        forall j | 1 <= j
          ensures OccursAt(s, pat, j) == OccursAt(s[1..], pat, j - 1)
        {
          if j + |pat| <= |s| {
            assert s[j..j + |pat|] == s[1..][j - 1..j - 1 + |pat|];
          }
        }
      }
      if k < 0 then -1 else 1 + k
  }

  /** `s.replace(pat, rep)` with a string pattern: only the first occurrence is
      replaced, and an empty pattern matches at position 0. */
  function ReplaceFirst(s: string, pat: string, rep: string): (r: string)
    ensures IndexOfSub(s, pat) < 0 ==> r == s
    ensures IndexOfSub(s, pat) >= 0 ==>
      var i := IndexOfSub(s, pat);
      r == s[..i] + rep + s[i + |pat|..]
  {
    var i := IndexOfSub(s, pat);
    if i < 0 then s else s[..i] + rep + s[i + |pat|..]
  }

  /** Replacing a pattern by itself changes nothing. */
  lemma ReplaceSelf(s: string, pat: string)
    ensures ReplaceFirst(s, pat, pat) == s
  {
    var i := IndexOfSub(s, pat);
    if i >= 0 {
      assert s == s[..i] + s[i..i + |pat|] + s[i + |pat|..];
    }
  }

  /** The path of a sibling called `name`: the same parent, a new last segment.
      A path without separators is at the top level, so its sibling is `name`. */
  function Sibling(path: string, name: string): (r: string)
    ensures NoSep(name) ==> ParentPath(r) == ParentPath(path) && LastSegment(r) == name
  {
    if NoSep(path) then name
    else
      var parent := ParentPath(path);
      JoinedParts(parent, name);
      parent + [SEP] + name
  }

  /** In `parent/name` with a separator-free name, the added separator is the
      last one. */
  lemma JoinedParts(parent: string, name: string)
    ensures NoSep(name) ==> ParentPath(parent + [SEP] + name) == parent && LastSegment(parent + [SEP] + name) == name
  {
    var r := parent + [SEP] + name;
    assert r[|parent|] == SEP;
    assert r[|parent| + 1..] == name;
    assert r[..|parent|] == parent;
    if NoSep(name) {
      LastSepIsLast(r, |parent|);
    }
  }

  /** The first `j + 1` pieces joined: the `currentPath` that
      `createFolderStructure` has built after its `j`-th round. */
  function Prefix(parts: seq<string>, j: nat): string
    requires j < |parts|
  {
    Join(parts[..j + 1])
  }

  /** Each round appends a separator and the next piece to the previous prefix,
      which is how the loop grows `currentPath`. */
  lemma PrefixStep(parts: seq<string>, j: nat)
    requires j < |parts|
    ensures Prefix(parts, j) == if j == 0 then parts[0] else Prefix(parts, j - 1) + [SEP] + parts[j]
  {
    if j > 0 {
      assert parts[..j + 1][..j] == parts[..j];
    }
  }

  /** A longer prefix is a different string. */
  lemma PrefixLength(parts: seq<string>, j: nat)
    requires j < |parts|
    ensures |Prefix(parts, j)| >= j
    ensures j > 0 ==> |Prefix(parts, j)| > |Prefix(parts, j - 1)|
  {
    PrefixStep(parts, j);
    if j > 0 {
      PrefixLength(parts, j - 1);
    }
  }

  /** The last prefix is the whole joined list. */
  lemma PrefixLast(parts: seq<string>)
    requires |parts| >= 1
    ensures Prefix(parts, |parts| - 1) == Join(parts)
  {
    assert parts[..|parts|] == parts;
  }

  /** No prefix is longer than the whole joined list. */
  lemma {:induction false} PrefixShorter(parts: seq<string>, j: nat)
    requires j < |parts|
    ensures |Prefix(parts, j)| <= |Join(parts)|
    decreases |parts| - j
  {
    if j + 1 < |parts| {
      PrefixShorter(parts, j + 1);
      PrefixLength(parts, j + 1);
    } else {
      PrefixLast(parts);
    }
  }
}
