/** The whole tree is laid out depth first, and its levels are the one-level listings. */
module RepoTreeLayout {
  import opened Strings
  import opened Ordering
  import opened RepoTree

  predicate SlashPair(s: string, i: int) {
    0 <= i < |s| - 1 && s[i] == '/' && s[i + 1] == '/'
  }

  /** No component is empty, apart from the one after a trailing slash. */
  ghost predicate Shaped(raw: string) {
    raw != "" && raw[0] != '/' && forall i :: !SlashPair(raw, i)
  }

  /** Git never lists another path. */
  ghost predicate GitShaped(out: string) {
    forall raw :: raw in Split(out, '\0') && raw != "" ==> Shaped(raw)
  }

  lemma {:induction false} NoEmptyPart(s: string)
    requires Shaped(s) && s[|s| - 1] != '/'
    ensures "" !in Split(s, '/')
  {
    if |s| > 1 {
      var tail := s[1..];
      assert forall i :: SlashPair(tail, i) ==> SlashPair(s, i + 1);
      if s[1] == '/' {
        assert !SlashPair(s, 1);
        assert tail[1..] == s[2..] && forall i :: SlashPair(s[2..], i) ==> SlashPair(s, i + 2);
        NoEmptyPart(s[2..]);
      } else {
        NoEmptyPart(tail);
      }
    }
  }

  /** The components of such a path, less a trailing slash. */
  lemma ShapedParts(raw: string)
    requires Shaped(raw)
    ensures "" !in Split(Stripped(raw), '/')
  {
    var path := Stripped(raw);
    if IsNested(raw) {
      assert !SlashPair(raw, |raw| - 2);
      assert forall i :: SlashPair(path, i) ==> SlashPair(raw, i);
    }
    NoEmptyPart(path);
  }

  /** `path` lies somewhere below the directory `dir`. */
  predicate Under(dir: string, path: string) {
    StartsWith(path, dir + "/")
  }

  // ---- paths and their components ----

  lemma {:induction false} AccumulatedIsJoin(parts: seq<string>)
    requires "" !in parts && parts != []
    ensures Accumulated(parts) == Join(parts, "/") != ""
    decreases parts
  {
    var n := |parts| - 1;
    assert parts[n] in parts;
    if n > 0 {
      assert "" !in parts[..n];
      AccumulatedIsJoin(parts[..n]);
      assert parts == parts[..n] + [parts[n]];
      JoinConcat(parts[..n], [parts[n]], "/");
    } else {
      assert parts[..0] == [];
    }
  }

  /** The proper ancestors of a path are the joins of its proper component prefixes. */
  lemma UnderIsPrefix(q: string, path: string)
    ensures Under(q, path) <==> Split(q, '/') < Split(path, '/')
  {
    var pq, pp := Split(q, '/'), Split(path, '/');
    if Under(q, path) {
      var r := path[|q| + 1..];
      assert path == q + ['/'] + r;
      SplitConcat(q, r, '/');
    }
    if pq < pp {
      JoinSplit(q, '/');
      JoinSplit(path, '/');
      assert pp == pq + pp[|pq|..];
      JoinConcat(pq, pp[|pq|..], "/");
    }
  }

  lemma OwnDirsAbove(raw: string, q: string)
    requires raw != "" && "" !in Split(Stripped(raw), '/') && q in OwnDirs(raw)
    ensures StartsWith(raw, q + "/")
  {
    var path := Stripped(raw);
    var parts := Split(path, '/');
    if IsNested(raw) && q == path {
      assert raw == q + "/";
    } else {
      var k :| 1 <= k <= |parts| - 1 && q == Accumulated(parts[..k]);
      AccumulatedIsJoin(parts[..k]);
      assert parts == parts[..k] + parts[k..];
      JoinConcat(parts[..k], parts[k..], "/");
      JoinSplit(path, '/');
      assert StartsWith(path, q + "/");
      assert raw[..|q| + 1] == path[..|q| + 1];
    }
  }

  lemma AboveOwnDirs(raw: string, q: string)
    requires raw != "" && "" !in Split(Stripped(raw), '/') && StartsWith(raw, q + "/")
    ensures q in OwnDirs(raw)
  {
    var path := Stripped(raw);
    var parts := Split(path, '/');
    if !(IsNested(raw) && q == path) {
      assert |raw| == |q| + 1 ==> IsNested(raw) && path == q;
      assert path[..|q| + 1] == raw[..|q| + 1];
      hide Accumulated, Ancestors;
      UnderIsPrefix(q, path);
      var k := |Split(q, '/')|;
      assert parts[..k] == Split(q, '/');
      AccumulatedIsJoin(parts[..k]);
      JoinSplit(q, '/');
      AncestorsHold(parts, |parts| - 1, k);
    }
  }

  lemma AncestorsHold(parts: seq<string>, n: nat, k: nat)
    requires 1 <= k <= n <= |parts|
    ensures Accumulated(parts[..k]) in Ancestors(parts, n)
  {
  }

  /** For a git-shaped listing, a path registers exactly the directories it goes through. */
  lemma OwnDirsAreAncestors(raw: string, q: string)
    requires Shaped(raw)
    ensures q in OwnDirs(raw) <==> StartsWith(raw, q + "/")
  {
    hide OwnDirs, StartsWith;
    ShapedParts(raw);
    if q in OwnDirs(raw) {
      OwnDirsAbove(raw, q);
    }
    if StartsWith(raw, q + "/") {
      AboveOwnDirs(raw, q);
    }
  }

  lemma AllDirsAreAncestors(out: string, q: string)
    requires GitShaped(out)
    ensures q in AllDirs(Split(out, '\0'))
            <==> exists raw :: raw in Split(out, '\0') && StartsWith(raw, q + "/")
  {
    hide OwnDirs, Shaped;
    forall raw | raw in Split(out, '\0') && raw != ""
      ensures q in OwnDirs(raw) <==> StartsWith(raw, q + "/")
    {
      OwnDirsAreAncestors(raw, q);
    }
  }

  // ---- keys ----

  /** A directory's key is a proper prefix of a key exactly when that entry lies below it. */
  lemma KeyOfDescendant(d: TreeEntry, e: TreeEntry)
    requires d.isDir
    ensures Under(d.path, e.path) <==> TreeOrder(d) < TreeOrder(e)
  {
    var kd, ke := TreeOrder(d), TreeOrder(e);
    var pd, pe := Split(d.path, '/'), Split(e.path, '/');
    UnderIsPrefix(d.path, e.path);
    if pd < pe {
      forall i | 0 <= i < |kd| ensures kd[i] == ke[i] {
      }
    }
    if kd < ke {
      forall i | 0 <= i < |pd| ensures pd[i] == pe[i] {
        assert kd[i].name == ke[i].name;
      }
    }
  }

  /** Siblings compare by kind, then by name. */
  lemma SiblingKeys(prefix: string, a: TreeEntry, b: TreeEntry)
    requires prefix == "" || prefix[|prefix| - 1] == '/'
    requires a.path == prefix + a.name && b.path == prefix + b.name
    requires '/' !in a.name && '/' !in b.name
    ensures EntryLess(a, b) <==> LevelLess(a, b)
  {
    var k := ChildKey(prefix, a);
    var k' := ChildKey(prefix, b);
    assert k == k';
    PartOrder();
    LevelLessIs(a, b);
    LexSamePrefix(k, [Part(if a.isDir then 0 else 1, a.name)], [Part(if b.isDir then 0 else 1, b.name)], PartLess);
    LexOne(Part(if a.isDir then 0 else 1, a.name), Part(if b.isDir then 0 else 1, b.name));
  }

  lemma LexOne(a: Part, b: Part)
    ensures LexLess([a], [b], PartLess) <==> PartLess(a, b)
  {
  }

  function DirKey(parts: seq<string>): seq<Part> {
    seq(|parts|, i requires 0 <= i < |parts| => Part(0, parts[i]))
  }

  lemma ChildKey(prefix: string, e: TreeEntry) returns (k: seq<Part>)
    requires prefix == "" || prefix[|prefix| - 1] == '/'
    requires e.path == prefix + e.name && '/' !in e.name
    ensures k == DirKey(if prefix == "" then [] else Split(prefix[..|prefix| - 1], '/'))
    ensures TreeOrder(e) == k + [Part(if e.isDir then 0 else 1, e.name)]
  {
    SplitWhole(e.name, '/');
    if prefix == "" {
      assert e.path == e.name;
      k := [];
    } else {
      var dir := prefix[..|prefix| - 1];
      assert prefix == dir + ['/'];
      SplitConcat(dir, e.name, '/');
      k := DirKey(Split(dir, '/'));
    }
    assert |TreeOrder(e)| == |k| + 1;
  }

  // ---- the layout ----

  lemma NoRepeats(tree: seq<TreeEntry>, out: string)
    requires IsTree(tree, out)
    ensures forall i, j :: 0 <= i < j < |tree| ==> tree[i] != tree[j]
  {
    KeyOrder();
  }

  lemma EarlierIndex(tree: seq<TreeEntry>, i: nat, j: nat)
    requires Ascending(tree, EntryLess) && i < |tree| && j < |tree| && EntryLess(tree[i], tree[j])
    ensures i < j
  {
    hide EntryLess;
    KeyOrder();
  }

  lemma StartsWithTransitive(s: string, p: string, q: string)
    requires StartsWith(s, p) && StartsWith(p, q)
    ensures StartsWith(s, q)
  {
  }

  lemma AncestorIsEntry(out: string, e: TreeEntry, q: string)
    requires GitShaped(out) && IsEntry(out, e) && Under(q, e.path)
    ensures IsEntry(out, FromPath(q, true))
  {
    hide AllDirs, GitShaped;
    var fields := Split(out, '\0');
    AllDirsAreAncestors(out, q);
    AllDirsAreAncestors(out, e.path);
    var p := if e.isDir then e.path + "/" else e.path;
    assert StartsWith(p, q + "/") by {
      assert p[..|q| + 1] == e.path[..|q| + 1];
    }
    var raw :| raw in fields && StartsWith(raw, p);
    StartsWithTransitive(raw, p, q + "/");
  }

  /** Every directory an entry lies in is present, before it. */
  lemma AncestorsComeFirst(tree: seq<TreeEntry>, out: string, i: nat, q: string)
    requires IsTree(tree, out) && GitShaped(out) && i < |tree| && Under(q, tree[i].path)
    ensures exists j :: 0 <= j < i && tree[j] == FromPath(q, true)
  {
    hide IsEntry, GitShaped, Under, TreeOrder, LexLess;
    var e, d := tree[i], FromPath(q, true);
    assert e in tree;
    AncestorIsEntry(out, e, q);
    assert d in tree;
    var j :| 0 <= j < |tree| && tree[j] == d;
    KeyOfDescendant(d, e);
    LexExtends(TreeOrder(d), TreeOrder(e), PartLess);
    EarlierIndex(tree, j, i);
  }

  /** A directory is followed at once by exactly its descendants, in one block. */
  lemma SubtreeIsContiguous(tree: seq<TreeEntry>, out: string, i: nat) returns (end: nat)
    requires IsTree(tree, out) && i < |tree| && tree[i].isDir
    ensures i < end <= |tree|
    ensures forall k :: 0 <= k < |tree| ==> (i < k < end <==> Under(tree[i].path, tree[k].path))
  {
    hide TreeOrder, LexLess;
    end := i + 1;
    while end < |tree| && Under(tree[i].path, tree[end].path)
      invariant i < end <= |tree|
      invariant forall k :: i < k < end ==> Under(tree[i].path, tree[k].path)
    {
      end := end + 1;
    }
    forall k | 0 <= k < |tree| && !(i < k < end)
      ensures !Under(tree[i].path, tree[k].path)
    {
      OutsideSubtree(tree, i, end, k);
    }
  }

  lemma OutsideSubtree(tree: seq<TreeEntry>, i: nat, end: nat, k: nat)
    requires Ascending(tree, EntryLess) && i < end <= |tree| && k < |tree| && tree[i].isDir
    requires end < |tree| ==> !Under(tree[i].path, tree[end].path)
    requires !(i < k < end)
    ensures !Under(tree[i].path, tree[k].path)
  {
    hide TreeOrder, LexLess, Under;
    KeyOrder();
    PartOrder();
    var a, c := TreeOrder(tree[i]), TreeOrder(tree[k]);
    KeyOfDescendant(tree[i], tree[k]);
    if a < c {
      LexExtends(a, c, PartLess);
      assert EntryLess(tree[i], tree[k]);
      EarlierIndex(tree, i, k);
      if end < k {
        assert EntryLess(tree[i], tree[end]) && EntryLess(tree[end], tree[k]);
        LexBetween(a, TreeOrder(tree[end]), c, PartLess);
        KeyOfDescendant(tree[i], tree[end]);
      }
    }
  }

  /** Within one directory: sub-directories first, then by name. */
  lemma SiblingsInOrder(tree: seq<TreeEntry>, out: string, i: nat, j: nat, prefix: string)
    requires IsTree(tree, out) && i < j < |tree|
    requires prefix == "" || prefix[|prefix| - 1] == '/'
    requires tree[i].path == prefix + tree[i].name && tree[j].path == prefix + tree[j].name
    ensures tree[i].isDir == tree[j].isDir ==> Before(tree[i].name, tree[j].name)
    ensures tree[j].isDir ==> tree[i].isDir
  {
    assert tree[i] in tree && tree[j] in tree;
    SiblingKeys(prefix, tree[i], tree[j]);
  }

  // ---- the two listings agree ----

  /** The entries of `tree` standing directly in a directory. */
  function Children(tree: seq<TreeEntry>, dir: string): seq<TreeEntry> {
    if tree == [] then []
    else (if StandsIn(dir, tree[0]) then [tree[0]] else []) + Children(tree[1..], dir)
  }

  lemma {:induction false} ChildrenSubsequence(tree: seq<TreeEntry>, dir: string)
    ensures forall e :: e in Children(tree, dir) <==> e in tree && StandsIn(dir, e)
    ensures Ascending(tree, EntryLess) ==> Ascending(Children(tree, dir), EntryLess)
  {
    hide EntryLess, StandsIn;
    if tree != [] {
      ChildrenSubsequence(tree[1..], dir);
      assert forall e :: e in tree <==> e == tree[0] || e in tree[1..];
      if Ascending(tree, EntryLess) {
        var rest := Children(tree[1..], dir);
        forall j | 0 <= j < |rest| ensures EntryLess(tree[0], rest[j]) {
          assert rest[j] in rest;
          assert rest[j] in tree[1..];
        }
      }
    }
  }

  lemma ChildIffEntry(out: string, prefix: string, e: TreeEntry)
    requires GitShaped(out) && (prefix == "" || prefix[|prefix| - 1] == '/')
    ensures IsChild(Split(out, '\0'), prefix, e) <==> IsEntry(out, e) && e.path == prefix + e.name
  {
    hide AllDirs;
    AllDirsAreAncestors(out, e.path);
    if e.path == prefix + e.name && '/' !in e.name {
      NameOfChild(prefix, e.name);
    }
    assert e.path != "" && !IsNested(e.path) ==> (e.path in AllFiles(Split(out, '\0')) <==> e.path in Split(out, '\0'));
    assert e.path == prefix + e.name && e.name != "" && '/' !in e.name ==> e.path[|e.path| - 1] in e.name;
    assert e.path == prefix + e.name && e.name == "" && e.path != "" ==> IsNested(e.path);
  }

  lemma NameOfChild(prefix: string, name: string)
    requires '/' !in name && (prefix == "" || prefix[|prefix| - 1] == '/')
    ensures LastSegment(prefix + name) == name
  {
    SplitWhole(name, '/');
    if prefix == "" {
      assert prefix + name == name;
    } else {
      var dir := prefix[..|prefix| - 1];
      assert prefix + name == dir + ['/'] + name;
      SplitConcat(dir, name, '/');
    }
  }

  /** For every directory, the entries of the whole tree that stand directly in it are its one-level
      listing, element for element and in the same order. */
  lemma LevelsAgree(tree: seq<TreeEntry>, level: seq<TreeEntry>, out: string, dir: string)
    requires GitShaped(out) && IsTree(tree, out) && IsLevel(level, out, dir)
    ensures Children(tree, dir) == level
  {
    hide IsEntry, EntryLess, IsChild, Split, GitShaped, IsListed, LevelLess;
    var sub := Children(tree, dir);
    ChildrenSubsequence(tree, dir);
    forall e ensures e in sub <==> e in level {
      ChildIffEntry(out, Prefix(dir), e);
      ChildIsListed(Split(out, '\0'), dir, e);
    }
    assert Ascending(sub, LevelLess) by {
      ChildrenAscend(sub, out, Prefix(dir));
    }
    LevelOrder();
    AscendingUnique(sub, level, LevelLess);
  }

  /** In particular the path of a directory of the tree, given back as it stands, names it. */
  lemma DirectoryNamesItself(tree: seq<TreeEntry>, out: string, i: nat)
    requires GitShaped(out) && IsTree(tree, out) && i < |tree| && tree[i].isDir
    ensures NamesDir(tree[i].path, tree[i].path, 0)
  {
    var path := tree[i].path;
    assert tree[i] in tree;
    AllDirsAreAncestors(out, path);
    var raw :| raw in Split(out, '\0') && StartsWith(raw, path + "/");
    assert raw[..|path| + 1] == path + "/";
    assert !SlashPair(raw, |path| - 1);
    assert raw[|path|] == (path + "/")[|path|];
    assert forall k :: 0 <= k < |path| ==> raw[k] == (path + "/")[k] == path[k];
  }

  lemma LevelOrder()
    ensures StrictOrder(LevelLess)
  {
    hide Before, StrLess;
    StrOrder();
    forall a, b ensures Before(a, b) <==> StrLess(a, b) {
      StrLessIs(a, b);
    }
  }

  lemma ChildrenAscend(sub: seq<TreeEntry>, out: string, prefix: string)
    requires prefix == "" || prefix[|prefix| - 1] == '/'
    requires Ascending(sub, EntryLess)
    requires forall e :: e in sub ==> IsEntry(out, e) && e.path == prefix + e.name
    ensures Ascending(sub, LevelLess)
  {
    hide EntryLess, LevelLess;
    forall i, j | 0 <= i < j < |sub| ensures LevelLess(sub[i], sub[j]) {
      assert sub[i] in sub && sub[j] in sub;
      SiblingKeys(prefix, sub[i], sub[j]);
    }
  }
}
