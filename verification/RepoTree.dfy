/** The repository file tree, whole and one level at a time. */
module RepoTree {
  import opened Strings
  import opened Ordering

  datatype TreeEntry = TreeEntry(name: string, path: string, isDir: bool)

  function LastSegment(path: string): string {
    var parts := Split(path, '/');
    parts[|parts| - 1]
  }

  function FromPath(path: string, isDir: bool): TreeEntry {
    TreeEntry(LastSegment(path), path, isDir)
  }

  // ---- the sort key ----

  /** One path component; `rank` is 1 only for the last component of a file. */
  datatype Part = Part(rank: nat, name: string)

  predicate PartLess(a: Part, b: Part) {
    a.rank < b.rank || (a.rank == b.rank && StrLess(a.name, b.name))
  }

  predicate KeyLess(a: seq<Part>, b: seq<Part>) {
    LexLess(a, b, PartLess)
  }

  function TreeOrder(e: TreeEntry): seq<Part> {
    var parts, last := Split(e.path, '/'), Count(e.path, '/');
    seq(|parts|, i requires 0 <= i < |parts| => Part(if i == last && !e.isDir then 1 else 0, parts[i]))
  }

  predicate EntryLess(a: TreeEntry, b: TreeEntry) {
    KeyLess(TreeOrder(a), TreeOrder(b))
  }

  lemma PartOrder()
    ensures StrictOrder(PartLess) && Total(PartLess)
  {
    StrOrder();
  }

  lemma KeyOrder()
    ensures StrictOrder(KeyLess) && Total(KeyLess) && StrictOrder(EntryLess)
  {
    PartOrder();
    forall a: seq<Part> ensures !KeyLess(a, a) {
      LexIrreflexive(a, PartLess);
    }
    forall a: seq<Part>, b: seq<Part>, c: seq<Part> | KeyLess(a, b) && KeyLess(b, c) ensures KeyLess(a, c) {
      LexTransitive(a, b, c, PartLess);
    }
    forall a: seq<Part>, b: seq<Part> ensures a == b || KeyLess(a, b) || KeyLess(b, a) {
      LexTotal(a, b, PartLess);
    }
  }

  /** The key determines path and kind. */
  lemma KeyInjective(a: TreeEntry, b: TreeEntry)
    requires TreeOrder(a) == TreeOrder(b)
    ensures a.path == b.path && a.isDir == b.isDir
  {
    var ka, kb := TreeOrder(a), TreeOrder(b);
    var pa, pb := Split(a.path, '/'), Split(b.path, '/');
    assert |pa| == |ka| && |pb| == |kb|;
    forall i | 0 <= i < |pa| ensures pa[i] == pb[i] {
      assert ka[i].name == pa[i] && kb[i].name == pb[i];
    }
    assert pa == pb;
    JoinSplit(a.path, '/');
    JoinSplit(b.path, '/');
    assert ka[Count(a.path, '/')].rank == kb[Count(b.path, '/')].rank;
  }

  // ---- what is listed ----

  /** A trailing slash marks a nested checkout. */
  predicate IsNested(raw: string) {
    raw != "" && raw[|raw| - 1] == '/'
  }

  function Stripped(raw: string): string {
    if IsNested(raw) then raw[..|raw| - 1] else raw
  }

  /** The ancestor path the builder has accumulated after some components. */
  function Accumulated(parts: seq<string>): string {
    if parts == [] then ""
    else
      var before := Accumulated(parts[..|parts| - 1]);
      (if before == "" then "" else before + "/") + parts[|parts| - 1]
  }

  /** The directories one listed path registers. */
  function OwnDirs(raw: string): set<string> {
    var parts := Split(Stripped(raw), '/');
    (if IsNested(raw) then {Stripped(raw)} else {}) + Ancestors(parts, |parts| - 1)
  }

  function Ancestors(parts: seq<string>, n: nat): set<string>
    requires n <= |parts|
  {
    set k | 1 <= k <= n :: Accumulated(parts[..k])
  }

  lemma AncestorsStep(parts: seq<string>, n: nat)
    requires n < |parts|
    ensures Ancestors(parts, n + 1) == Ancestors(parts, n) + {Accumulated(parts[..n + 1])}
  {
  }

  function AllDirs(fields: seq<string>): set<string> {
    set raw, q | raw in fields && raw != "" && q in OwnDirs(raw) :: q
  }

  function AllFiles(fields: seq<string>): set<string> {
    set raw | raw in fields && raw != "" && !IsNested(raw)
  }

  predicate IsEntry(out: string, e: TreeEntry) {
    e == FromPath(e.path, e.isDir)
    && (if e.isDir then e.path in AllDirs(Split(out, '\0')) else e.path in AllFiles(Split(out, '\0')))
  }

  /** The whole tree: every entry once, in key order.  `TreeUnique` shows there is only one such
      sequence. */
  ghost predicate IsTree(tree: seq<TreeEntry>, out: string) {
    Ascending(tree, EntryLess) && forall e :: e in tree <==> IsEntry(out, e)
  }

  lemma TreeUnique(t: seq<TreeEntry>, u: seq<TreeEntry>, out: string)
    requires IsTree(t, out) && IsTree(u, out)
    ensures t == u
  {
    KeyOrder();
    AscendingUnique(t, u, EntryLess);
  }

  /** Record one listed path's directories. */
  method AddDirs(dirs: set<string>, raw: string) returns (more: set<string>)
    requires raw != ""
    ensures more == dirs + OwnDirs(raw)
  {
    var path := Stripped(raw);
    more := if IsNested(raw) then dirs + {path} else dirs;
    ghost var start := more;
    var acc, parts := "", Split(path, '/');
    for j := 0 to |parts| - 1
      invariant acc == Accumulated(parts[..j])
      invariant more == start + Ancestors(parts, j)
    {
      AncestorsStep(parts, j);
      if acc != "" {
        acc := acc + "/";
      }
      acc := acc + parts[j];
      assert parts[..j + 1][..j] == parts[..j];
      more := more + {acc};
    }
  }

  lemma AllDirsSnoc(fields: seq<string>, raw: string)
    ensures AllDirs(fields + [raw]) == AllDirs(fields) + (if raw == "" then {} else OwnDirs(raw))
    ensures AllFiles(fields + [raw]) == AllFiles(fields) + (if raw == "" || IsNested(raw) then {} else {raw})
  {
  }

  function Entries(dirs: seq<string>, files: seq<string>): seq<TreeEntry> {
    seq(|dirs|, i requires 0 <= i < |dirs| => FromPath(dirs[i], true))
    + seq(|files|, i requires 0 <= i < |files| => FromPath(files[i], false))
  }

  lemma EntriesDistinct(dirs: seq<string>, files: seq<string>)
    requires Ascending(dirs, StrLess) && Ascending(files, StrLess)
    ensures var es := Entries(dirs, files); forall i, j :: 0 <= i < j < |es| ==> es[i] != es[j]
    ensures forall e :: e in Entries(dirs, files) <==>
                        e == FromPath(e.path, e.isDir) && (if e.isDir then e.path in dirs else e.path in files)
  {
    hide StrLess, FromPath;
    assert StrictOrder(StrLess) by {
      StrOrder();
    }
    var es := Entries(dirs, files);
    forall e: TreeEntry | e == FromPath(e.path, e.isDir) && (if e.isDir then e.path in dirs else e.path in files)
      ensures e in es
    {
      if e.isDir {
        var i :| 0 <= i < |dirs| && dirs[i] == e.path;
        assert es[i] == e;
      } else {
        var i :| 0 <= i < |files| && files[i] == e.path;
        assert es[|dirs| + i] == e;
      }
    }
    FromPathFields();
  }

  lemma FromPathFields()
    ensures forall p, b {:trigger FromPath(p, b)} :: FromPath(p, b).path == p && FromPath(p, b).isDir == b
  {
  }

  method FullTree(out: string) returns (entries: seq<TreeEntry>)
    ensures IsTree(entries, out)
  {
    var fields := Split(out, '\0');
    var dirs: set<string>, files: set<string> := {}, {};
    for i := 0 to |fields|
      invariant dirs == AllDirs(fields[..i]) && files == AllFiles(fields[..i])
    {
      var raw := fields[i];
      assert fields[..i + 1] == fields[..i] + [raw];
      AllDirsSnoc(fields[..i], raw);
      if raw != "" {
        if !IsNested(raw) {
          files := files + {raw};
        }
        dirs := AddDirs(dirs, raw);
      }
    }
    assert fields[..|fields|] == fields;
    var dirList := InOrder(dirs);
    var fileList := InOrder(files);
    EntriesDistinct(dirList, fileList);
    entries := SortEntries(Entries(dirList, fileList));
  }

  method SortEntries(entries: seq<TreeEntry>) returns (sorted: seq<TreeEntry>)
    requires forall i, j :: 0 <= i < j < |entries| ==> entries[i] != entries[j]
    requires forall e :: e in entries ==> e == FromPath(e.path, e.isDir)
    ensures Ascending(sorted, EntryLess)
    ensures forall e :: e in sorted <==> e in entries
  {
    hide KeyLess, TreeOrder, FromPath;
    KeyOrder();
    sorted := SortByKey(entries, TreeOrder, KeyLess);
    DistinctPermutation(entries, sorted);
    assert forall e :: e in sorted <==> e in multiset(sorted);
    assert forall e :: e in entries <==> e in multiset(entries);
    forall i, j | 0 <= i < j < |sorted| ensures EntryLess(sorted[i], sorted[j]) {
      assert sorted[i] in entries && sorted[j] in entries;
      assert !KeyLess(TreeOrder(sorted[j]), TreeOrder(sorted[i]));
      if TreeOrder(sorted[i]) == TreeOrder(sorted[j]) {
        KeyInjective(sorted[i], sorted[j]);
      }
    }
  }

  // ---- one level ----

  function TrimSlashes(s: string): string
    decreases |s|
  {
    if s != "" && s[0] == '/' then TrimSlashes(s[1..])
    else if s != "" && s[|s| - 1] == '/' then TrimSlashes(s[..|s| - 1])
    else s
  }

  predicate Slashes(s: string, lo: int, hi: int) {
    0 <= lo <= hi <= |s| && forall i :: lo <= i < hi ==> s[i] == '/'
  }

  /** `rel` names the directory `dir`: there are only slashes around it. */
  predicate NamesDir(rel: string, dir: string, lead: nat) {
    lead + |dir| <= |rel| && dir == rel[lead..lead + |dir|] && Slashes(rel, 0, lead)
    && Slashes(rel, lead + |dir|, |rel|)
    && (dir != "" ==> dir[0] != '/' && dir[|dir| - 1] != '/')
  }

  lemma {:induction false} TrimSlashesIs(s: string)
    ensures exists lead: nat :: NamesDir(s, TrimSlashes(s), lead)
    decreases |s|
  {
    var dir := TrimSlashes(s);
    if s != "" && s[0] == '/' {
      TrimSlashesIs(s[1..]);
      var lead: nat :| NamesDir(s[1..], dir, lead);
      assert forall i :: 0 < i < |s| ==> s[i] == s[1..][i - 1];
      assert NamesDir(s, dir, lead + 1);
    } else if s != "" && s[|s| - 1] == '/' {
      TrimSlashesIs(s[..|s| - 1]);
      var lead: nat :| NamesDir(s[..|s| - 1], dir, lead);
      assert forall i :: 0 <= i < |s| - 1 ==> s[i] == s[..|s| - 1][i];
      assert NamesDir(s, dir, lead);
    } else {
      assert NamesDir(s, s, 0);
    }
  }

  lemma DirUnique(rel: string, a: string, i: nat, b: string, j: nat)
    requires NamesDir(rel, a, i) && NamesDir(rel, b, j)
    ensures a == b
  {
    assert a != "" ==> rel[i] == a[0] && rel[i + |a| - 1] == a[|a| - 1];
    assert b != "" ==> rel[j] == b[0] && rel[j + |b| - 1] == b[|b| - 1];
  }

  /** What every path in a directory starts with: nothing at the root, else the directory and a slash. */
  function Prefix(dir: string): string {
    if dir == "" then "" else dir + "/"
  }

  /** The part before the first slash. */
  function FirstSegment(s: string): string {
    if s == "" || s[0] == '/' then "" else [s[0]] + FirstSegment(s[1..])
  }

  /** Directories first, then by name. */
  ghost predicate LevelLess(a: TreeEntry, b: TreeEntry) {
    (a.isDir && !b.isDir) || (a.isDir == b.isDir && Before(a.name, b.name))
  }

  lemma LevelLessIs(a: TreeEntry, b: TreeEntry)
    ensures LevelLess(a, b)
            <==> PartLess(Part(if a.isDir then 0 else 1, a.name), Part(if b.isDir then 0 else 1, b.name))
  {
    StrLessIs(a.name, b.name);
  }

  /** A child of the directory with that prefix: a directory when some listed path goes through
      it, a file when it is listed itself. */
  ghost predicate IsChild(fields: seq<string>, prefix: string, e: TreeEntry) {
    e.path == prefix + e.name && '/' !in e.name
    && (if e.isDir then exists raw :: raw in fields && StartsWith(raw, prefix + e.name + "/")
        else e.name != "" && prefix + e.name in fields)
  }

  /** The entry stands directly in the directory. */
  predicate StandsIn(dir: string, e: TreeEntry) {
    '/' !in e.name && e.path == if dir == "" then e.name else dir + "/" + e.name
  }

  /** A directory of a listing: some listed path goes through it; a file: it is listed itself. */
  ghost predicate IsListed(fields: seq<string>, e: TreeEntry) {
    if e.isDir then exists raw :: raw in fields && StartsWith(raw, e.path + "/")
    else e.name != "" && e.path in fields
  }

  /** One level: everything listed that stands directly in the directory, once, directories first,
      then by name. */
  ghost predicate IsLevel(level: seq<TreeEntry>, out: string, dir: string) {
    Ascending(level, LevelLess)
    && forall e :: e in level <==> StandsIn(dir, e) && IsListed(Split(out, '\0'), e)
  }

  lemma ChildIsListed(fields: seq<string>, dir: string, e: TreeEntry)
    ensures IsChild(fields, Prefix(dir), e) <==> StandsIn(dir, e) && IsListed(fields, e)
  {
    assert "" + e.name == e.name;
  }

  lemma {:induction false} FirstSegmentCut(s: string)
    requires '/' in s
    ensures var d := FirstSegment(s); '/' !in d && StartsWith(s, d + "/")
  {
    if s[0] != '/' {
      FirstSegmentCut(s[1..]);
      assert s == [s[0]] + s[1..];
    }
  }

  lemma {:induction false} FirstSegmentUnique(s: string, d: string)
    requires '/' !in d && StartsWith(s, d + "/")
    ensures '/' in s && FirstSegment(s) == d
  {
    assert s[|d|] == (d + "/")[|d|];
    if d != "" {
      assert s[0] == (d + "/")[0];
      assert s[1..][..|d|] == s[..|d| + 1][1..];
      FirstSegmentUnique(s[1..], d[1..]);
      assert d == [d[0]] + d[1..];
    }
  }

  ghost predicate ChildDir(fields: seq<string>, prefix: string, d: string) {
    '/' !in d && exists raw :: raw in fields && StartsWith(raw, prefix + d + "/")
  }

  ghost predicate ChildFile(fields: seq<string>, prefix: string, f: string) {
    '/' !in f && f != "" && prefix + f in fields
  }

  /** What one listed path adds to a level. */
  lemma OnePathChildren(fields: seq<string>, raw: string, prefix: string, name: string)
    ensures ChildDir(fields + [raw], prefix, name) <==>
            ChildDir(fields, prefix, name)
            || (StartsWith(raw, prefix) && '/' in raw[|prefix|..] && name == FirstSegment(raw[|prefix|..]))
    ensures ChildFile(fields + [raw], prefix, name) <==>
            ChildFile(fields, prefix, name)
            || (StartsWith(raw, prefix) && '/' !in raw[|prefix|..] && raw[|prefix|..] != "" && name == raw[|prefix|..])
  {
    if StartsWith(raw, prefix) {
      var rest := raw[|prefix|..];
      assert raw == prefix + rest;
      if '/' in rest {
        FirstSegmentCut(rest);
        var d := FirstSegment(rest);
        assert prefix + d + "/" == prefix + (d + "/");
        assert raw[..|prefix + d + "/"|] == prefix + rest[..|d| + 1];
      }
      if '/' !in name && StartsWith(raw, prefix + name + "/") {
        assert prefix + name + "/" == prefix + (name + "/");
        assert rest[..|name| + 1] == raw[..|prefix| + |name| + 1][|prefix|..];
        FirstSegmentUnique(rest, name);
      }
    } else {
      var deep := prefix + name + "/";
      assert deep[..|prefix|] == prefix;
      assert |deep| <= |raw| ==> raw[..|deep|][..|prefix|] == raw[..|prefix|];
    }
  }

  method FromLsFiles(out: string, rel: string) returns (level: seq<TreeEntry>)
    ensures exists dir, lead: nat :: NamesDir(rel, dir, lead) && IsLevel(level, out, dir)
    ensures forall dir, lead: nat :: NamesDir(rel, dir, lead) ==> IsLevel(level, out, dir)
  {
    var core := TrimSlashes(rel);
    var prefix, fields := if core == "" then "" else core + "/", Split(out, '\0');
    var dirs: set<string>, files: set<string> := {}, {};
    for i := 0 to |fields|
      invariant forall n :: n in dirs <==> ChildDir(fields[..i], prefix, n)
      invariant forall n :: n in files <==> ChildFile(fields[..i], prefix, n)
    {
      var path := fields[i];
      assert fields[..i + 1] == fields[..i] + [path];
      forall n {
        OnePathChildren(fields[..i], path, prefix, n);
      }
      if path != "" && StartsWith(path, prefix) {
        var rest := path[|prefix|..];
        if '/' in rest {
          dirs := dirs + {FirstSegment(rest)};
        } else if rest != "" {
          files := files + {rest};
        }
      }
    }
    assert fields[..|fields|] == fields;
    var dirList := InOrder(dirs);
    var fileList := InOrder(files);
    level := Level(prefix, dirList, fileList);
    LevelCorrect(prefix, dirList, fileList);
    forall e {
      ChildIsListed(fields, core, e);
    }
    TrimSlashesIs(rel);
    var lead: nat :| NamesDir(rel, core, lead);
    assert IsLevel(level, out, core);
    forall dir, at: nat | NamesDir(rel, dir, at) ensures dir == core {
      DirUnique(rel, core, lead, dir, at);
    }
  }

  function Level(prefix: string, dirs: seq<string>, files: seq<string>): seq<TreeEntry> {
    seq(|dirs|, i requires 0 <= i < |dirs| => TreeEntry(dirs[i], prefix + dirs[i], true))
    + seq(|files|, i requires 0 <= i < |files| => TreeEntry(files[i], prefix + files[i], false))
  }

  lemma LevelCorrect(prefix: string, dirs: seq<string>, files: seq<string>)
    requires Ascending(dirs, StrLess) && Ascending(files, StrLess)
    ensures Ascending(Level(prefix, dirs, files), LevelLess)
    ensures forall e :: e in Level(prefix, dirs, files) <==>
                        e.path == prefix + e.name && (if e.isDir then e.name in dirs else e.name in files)
  {
    hide StrLess, Before;
    var es := Level(prefix, dirs, files);
    forall i, j | 0 <= i < j < |es| ensures LevelLess(es[i], es[j]) {
      StrLessIs(es[i].name, es[j].name);
    }
    forall e: TreeEntry | e.path == prefix + e.name && (if e.isDir then e.name in dirs else e.name in files)
      ensures e in es
    {
      if e.isDir {
        var i :| 0 <= i < |dirs| && dirs[i] == e.name;
        assert es[i] == e;
      } else {
        var i :| 0 <= i < |files| && files[i] == e.name;
        assert es[|dirs| + i] == e;
      }
    }
  }
}
