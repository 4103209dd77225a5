/** Change kinds of paths: the `--name-status` record parser and the nearest-owner lookup. */
module RepoStatus {
  import opened Wrappers
  import opened Strings

  datatype ChangeKind = Modified | Added | Deleted | Untracked

  function FromNameStatus(c: char): Option<ChangeKind> {
    if c == 'A' then Some(Added)
    else if c == 'D' then Some(Deleted)
    else if c == 'M' || c == 'R' || c == 'C' || c == 'T' then Some(Modified)
    else None
  }

  // ---- resolving a path ----

  /** `rfind('/')` */
  method LastSlash(s: string) returns (at: Option<nat>)
    ensures at.None? ==> '/' !in s
    ensures at.Some? ==> at.value < |s| && s[at.value] == '/' && '/' !in s[at.value + 1..]
  {
    var n := |s|;
    while n > 0
      invariant 0 <= n <= |s| && '/' !in s[n..]
    {
      n := n - 1;
      if s[n] == '/' {
        return Some(n);
      }
    }
    assert s[0..] == s;
    return None;
  }

  /** `i` is where an ancestor of `path` recorded as a directory ends. */
  predicate OwnerAt(marks: map<string, ChangeKind>, path: string, i: int) {
    0 <= i < |path| && path[i] == '/' && path[..i] + "/" in marks
  }

  /** The kind recorded for the path itself, else for the path as a directory, else for its
      longest recorded ancestor directory. */
  ghost predicate NearestOwner(marks: map<string, ChangeKind>, path: string, kind: Option<ChangeKind>) {
    if path in marks then kind == Some(marks[path])
    else if path + "/" in marks then kind == Some(marks[path + "/"])
    else
      (kind.None? <==> forall i :: !OwnerAt(marks, path, i))
      && (kind.Some? ==>
            exists i :: OwnerAt(marks, path, i) && kind == Some(marks[path[..i] + "/"])
                        && forall j :: i < j ==> !OwnerAt(marks, path, j))
  }

  method ResolveStatus(marks: map<string, ChangeKind>, path: string) returns (kind: Option<ChangeKind>)
    ensures NearestOwner(marks, path, kind)
  {
    if path in marks {
      return Some(marks[path]);
    }
    if path + "/" in marks {
      return Some(marks[path + "/"]);
    }
    var rest := path;
    while true
      invariant rest <= path
      invariant forall j :: |rest| <= j ==> !OwnerAt(marks, path, j)
      decreases |rest|
    {
      var slash := LastSlash(rest);
      if slash.None? {
        return None;
      }
      var dir := rest[..slash.value];
      assert dir == path[..slash.value];
      assert forall j :: slash.value < j < |rest| ==> rest[j] == rest[slash.value + 1..][j - slash.value - 1];
      if dir + "/" in marks {
        assert OwnerAt(marks, path, slash.value);
        return Some(marks[dir + "/"]);
      }
      rest := dir;
    }
  }

  lemma NearestOwnerUnique(marks: map<string, ChangeKind>, path: string,
                           a: Option<ChangeKind>, b: Option<ChangeKind>)
    requires NearestOwner(marks, path, a) && NearestOwner(marks, path, b)
    ensures a == b
  {
  }

  /** Everything below a recorded directory inherits its kind, unless something nearer is recorded. */
  lemma InheritsFromDirectory(marks: map<string, ChangeKind>, dir: string, rest: string, kind: Option<ChangeKind>)
    requires dir + "/" in marks && NearestOwner(marks, dir + "/" + rest, kind)
    requires forall n :: 0 <= n <= |rest| ==> (n == 0 || dir + "/" + rest[..n] !in marks)
    requires dir + "/" + rest + "/" !in marks && rest != ""
    ensures kind == Some(marks[dir + "/"])
  {
    var path := dir + "/" + rest;
    assert rest[..|rest|] == rest;
    assert path[..|dir|] + "/" == dir + "/";
    assert OwnerAt(marks, path, |dir|);
    forall j | |dir| < j ensures !OwnerAt(marks, path, j) {
      if j < |path| && path[j] == '/' {
        assert path[..j] + "/" == dir + "/" + rest[..j - |dir|];
      }
    }
  }

  // ---- name-status records ----

  /** The non-empty NUL-separated fields. */
  function Fields(out: string): seq<string> {
    NonEmpty(Split(out, '\0'))
  }

  function NonEmpty(parts: seq<string>): seq<string> {
    if parts == [] then [] else (if parts[0] == "" then [] else [parts[0]]) + NonEmpty(parts[1..])
  }

  function Insert(m: map<string, ChangeKind>, path: string, kind: Option<ChangeKind>): map<string, ChangeKind> {
    if kind.Some? then m[path := kind.value] else m
  }

  function Letter(status: string): char {
    if status == "" then ' ' else status[0]
  }

  /** What the fields from some point on do to the map. */
  function ParseFields(f: seq<string>, m: map<string, ChangeKind>): map<string, ChangeKind>
    decreases f
  {
    if f == [] then m
    else
      var letter := Letter(f[0]);
      if letter == 'R' || letter == 'C' then
        if |f| < 3 then m else ParseFields(f[3..], Insert(m, f[2], FromNameStatus(letter)))
      else if |f| < 2 then m
      else ParseFields(f[2..], Insert(m, f[1], FromNameStatus(letter)))
  }

  method ParseNameStatus(out: string) returns (m: map<string, ChangeKind>)
    ensures m == ParseFields(Fields(out), map[])
  {
    var fields := Fields(out);
    m := map[];
    var n := 0;
    while n < |fields|
      invariant 0 <= n <= |fields|
      invariant ParseFields(fields, map[]) == ParseFields(fields[n..], m)
    {
      var letter := Letter(fields[n]);
      var kind := FromNameStatus(letter);
      var width := if letter == 'R' || letter == 'C' then 3 else 2;
      if n + width <= |fields| {
        assert fields[n..][width..] == fields[n + width..];
        if kind.Some? {
          m := m[fields[n + width - 1] := kind.value];
        }
        n := n + width;
      } else {
        n := |fields|;
      }
    }
    assert fields[n..] == [];
  }

  // ---- the records git prints ----

  datatype AnyRecord =
    | Changed(status: string, path: string)
    | Moved(status: string, from: string, path: string)

  predicate IsField(s: string) {
    s != "" && '\0' !in s
  }

  /** Renames and copies carry two paths, everything else one; no field is empty or holds a NUL. */
  predicate WellFormed(r: AnyRecord) {
    IsField(r.status) && IsField(r.path)
    && (r.Moved? <==> r.status[0] == 'R' || r.status[0] == 'C')
    && (r.Moved? ==> IsField(r.from))
  }

  type Record = r: AnyRecord | WellFormed(r) witness Changed("M", "a")

  /** What git's letters mean: added, deleted, modified, renamed, copied, type changed. */
  function KindOf(r: Record): Option<ChangeKind> {
    match r.status[0]
    case 'A' => Some(Added)
    case 'C' => Some(Modified)
    case 'D' => Some(Deleted)
    case 'M' => Some(Modified)
    case 'R' => Some(Modified)
    case 'T' => Some(Modified)
    case _ => None
  }

  function RecordFields(r: Record): seq<string> {
    if r.Moved? then [r.status, r.from, r.path] else [r.status, r.path]
  }

  /** Every field is printed with a NUL after it. */
  function Print(fields: seq<string>): string {
    if fields == [] then "" else fields[0] + "\0" + Print(fields[1..])
  }

  function AllFields(rs: seq<Record>): seq<string> {
    if rs == [] then [] else RecordFields(rs[0]) + AllFields(rs[1..])
  }

  predicate Names(r: Record, p: string) {
    r.path == p && KindOf(r).Some?
  }

  /** The index of the last record of a known letter for path `p`, or -1. */
  function LastFor(rs: seq<Record>, p: string): (i: int)
    ensures -1 <= i < |rs| && (i >= 0 ==> Names(rs[i], p))
    ensures forall j :: i < j < |rs| ==> !Names(rs[j], p)
  {
    if rs == [] then -1
    else
      var n := |rs| - 1;
      if Names(rs[n], p) then n
      else
        var i := LastFor(rs[..n], p);
        assert forall j :: 0 <= j < n ==> rs[j] == rs[..n][j];
        i
  }

  /** For each path the last record of a known letter decides; no other path is in the map. */
  ghost predicate LastWins(rs: seq<Record>, m: map<string, ChangeKind>) {
    forall p :: var i := LastFor(rs, p);
      (p in m <==> i >= 0) && (i >= 0 ==> Some(m[p]) == KindOf(rs[i]))
  }

  lemma {:induction false} NonEmptyConcat(a: seq<string>, b: seq<string>)
    ensures NonEmpty(a + b) == NonEmpty(a) + NonEmpty(b)
  {
    if a == [] {
      assert a + b == b;
    } else {
      assert (a + b)[1..] == a[1..] + b;
      NonEmptyConcat(a[1..], b);
    }
  }

  lemma {:induction false} FieldsOfPrint(fields: seq<string>)
    requires forall f :: f in fields ==> IsField(f)
    ensures Fields(Print(fields)) == fields
  {
    if fields == [] {
      assert [""][1..] == [];
    } else {
      var field, rest := fields[0], Print(fields[1..]);
      assert IsField(field);
      FieldsOfPrint(fields[1..]);
      assert Print(fields) == field + ['\0'] + rest;
      SplitConcat(field, rest, '\0');
      SplitWhole(field, '\0');
      NonEmptyConcat([field], Split(rest, '\0'));
      assert [field][1..] == [] && [field] + fields[1..] == fields;
    }
  }

  lemma {:induction false} AllFieldsAreFields(rs: seq<Record>)
    ensures forall f :: f in AllFields(rs) ==> IsField(f)
  {
    if rs != [] {
      AllFieldsAreFields(rs[1..]);
    }
  }

  function Apply(rs: seq<Record>): map<string, ChangeKind> {
    if rs == [] then map[]
    else
      var n := |rs| - 1;
      Insert(Apply(rs[..n]), rs[n].path, KindOf(rs[n]))
  }

  lemma ApplySnoc(done: seq<Record>, r: Record)
    ensures Apply(done + [r]) == Insert(Apply(done), r.path, KindOf(r))
  {
  }

  lemma ParseOne(r: Record, rest: seq<string>, m: map<string, ChangeKind>)
    ensures ParseFields(RecordFields(r) + rest, m) == ParseFields(rest, Insert(m, r.path, KindOf(r)))
  {
  }

  /** The parser stays in step with the records, whatever their letters and whatever follows. */
  lemma {:induction false} ParseInStep(done: seq<Record>, rs: seq<Record>, rest: seq<string>)
    ensures ParseFields(AllFields(rs) + rest, Apply(done)) == ParseFields(rest, Apply(done + rs))
    decreases rs
  {
    hide Insert, RecordFields, KindOf, Apply, WellFormed, ParseFields;
    if rs == [] {
      assert done + rs == done && [] + rest == rest;
    } else {
      ParseOne(rs[0], AllFields(rs[1..]) + rest, Apply(done));
      ApplySnoc(done, rs[0]);
      ParseInStep(done + [rs[0]], rs[1..], rest);
      assert done + [rs[0]] + rs[1..] == done + rs;
      assert AllFields(rs) + rest == RecordFields(rs[0]) + (AllFields(rs[1..]) + rest);
    }
  }

  /** A record cut short at the end adds nothing. */
  lemma CutRecordIsIgnored(rs: seq<Record>, r: Record, n: nat)
    requires n < |RecordFields(r)|
    ensures LastWins(rs, ParseFields(Fields(Print(AllFields(rs) + RecordFields(r)[..n])), map[]))
  {
    var part := RecordFields(r)[..n];
    AllFieldsAreFields(rs);
    FieldsOfPrint(AllFields(rs) + part);
    ParseInStep([], rs, part);
    assert [] + rs == rs;
    assert ParseFields(part, Apply(rs)) == Apply(rs);
    ApplyLastWins(rs);
  }

  lemma {:induction false} ApplyLastWins(rs: seq<Record>)
    ensures LastWins(rs, Apply(rs))
    decreases |rs|
  {
    if rs != [] {
      ApplyLastWins(rs[..|rs| - 1]);
    }
  }

  /** Parsing what git prints gives the last-wins map of the records: an unknown letter skips its
      own path and nothing else. */
  lemma ParseUndoesPrint(rs: seq<Record>)
    ensures LastWins(rs, ParseFields(Fields(Print(AllFields(rs))), map[]))
  {
    AllFieldsAreFields(rs);
    FieldsOfPrint(AllFields(rs));
    ParseInStep([], rs, []);
    assert [] + rs == rs && AllFields(rs) + [] == AllFields(rs);
    ApplyLastWins(rs);
  }
}
