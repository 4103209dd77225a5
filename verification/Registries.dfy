/** The dispatch registry: two maps that mirror one install-ordered list. */
module Registries {
  import opened Wrappers
  import opened Strings
  import opened Ordering
  import opened Capabilities

  datatype Source = Upload | Url(url: string) | FromRegistry(coordinate: string)

  datatype Frontend = Frontend(entry: string, exposedModule: string, sdkRange: Option<string>, slots: seq<string>)

  datatype Manifest = Manifest(name: string, version: string, witWorld: string,
                               extensionPoints: seq<string>, capabilities: seq<string>,
                               frontend: Option<Frontend>)

  /** The component bytes as their readers see them: the manifest section, if one can be read, and
      the digest of the bytes. */
  datatype Component = Component(embedded: Result<Manifest, string>, sha256: string)

  datatype RecordClaims = RecordClaims(name: string, version: string, witWorld: string, requestedCaps: seq<string>)

  datatype InstallRequest = InstallRequest(
    id: string, component: Component, grantedCaps: seq<string>, source: Source,
    expectedSha256: Option<string>, enabled: bool, createdAt: string, record: Option<RecordClaims>)

  /** What a store record claims about a component, in the order it is checked. */
  datatype Claim = NameClaim | VersionClaim | WitWorldClaim | RequestedCapsClaim

  datatype RegistryError =
    | AlreadyRegistered(id: string)
    | BadManifest(reason: string)
    | UnknownCapability(name: string)
    | RequestsDeferred(cap: Capability)
    | Sha256Mismatch(claimed: string, actual: string)
    | ReReviewRequired(conflicts: seq<Claim>)
    | BadGrant(error: GrantError)

  datatype ExtensionRecord = ExtensionRecord(
    id: string, manifest: Manifest, grantedCaps: seq<Capability>, wasmSha256: string,
    source: Source, enabled: bool, createdAt: string)

  // ---- install checks ----

  /** The semantic checks every embedded manifest goes through. */
  function ValidateManifest(m: Manifest): Result<Manifest, RegistryError> {
    if Trim(m.name) == "" then Err(BadManifest("name must not be empty"))
    else if Trim(m.version) == "" then Err(BadManifest("version must not be empty"))
    else if Trim(m.witWorld) == "" then Err(BadManifest("wit-world must not be empty"))
    else if m.extensionPoints == [] then Err(BadManifest("manifest declares no extension-points"))
    else
      match ParseCaps(m.capabilities)
      case Err(unknown) => Err(UnknownCapability(unknown))
      case Ok(caps) =>
        match FirstDeferred(caps)
        case Some(c) => Err(RequestsDeferred(c))
        case None => Ok(m)
  }

  function FirstDeferred(caps: seq<Capability>): (first: Option<Capability>)
    ensures first.None? <==> forall c :: c in caps ==> IsAvailable(c)
    ensures first.Some? ==> first.value in caps && !IsAvailable(first.value)
  {
    if caps == [] then None else if !IsAvailable(caps[0]) then Some(caps[0]) else FirstDeferred(caps[1..])
  }

  function FromComponent(c: Component): Result<Manifest, RegistryError> {
    match c.embedded
    case Err(reason) => Err(BadManifest(reason))
    case Ok(m) => ValidateManifest(m)
  }

  ghost predicate SameSet(a: seq<string>, b: seq<string>) {
    forall x :: x in a <==> x in b
  }

  /** The claims of a store record agree with the embedded manifest. */
  ghost predicate Agrees(m: Manifest, r: RecordClaims) {
    m.name == r.name && m.version == r.version && m.witWorld == r.witWorld
    && SameSet(m.capabilities, r.requestedCaps)
  }

  ghost predicate Diverges(m: Manifest, r: RecordClaims, c: Claim) {
    match c
    case NameClaim => m.name != r.name
    case VersionClaim => m.version != r.version
    case WitWorldClaim => m.witWorld != r.witWorld
    case RequestedCapsClaim => !SameSet(m.capabilities, r.requestedCaps)
  }

  function Rank(c: Claim): nat {
    match c case NameClaim => 0 case VersionClaim => 1 case WitWorldClaim => 2 case RequestedCapsClaim => 3
  }

  ghost function Conflict(m: Manifest, r: RecordClaims, c: Claim): seq<Claim> {
    if Diverges(m, r, c) then [c] else []
  }

  /** The claims that diverge. */
  ghost function Conflicts(m: Manifest, r: RecordClaims): seq<Claim> {
    Conflict(m, r, NameClaim) + Conflict(m, r, VersionClaim) + Conflict(m, r, WitWorldClaim)
    + Conflict(m, r, RequestedCapsClaim)
  }

  /** The conflicts reported are exactly the claims that diverge, in order; there is none exactly
      when manifest and record agree. */
  lemma ConflictsAre(m: Manifest, r: RecordClaims)
    ensures var cs := Conflicts(m, r);
            (forall c :: c in cs <==> Diverges(m, r, c))
            && (forall i, j :: 0 <= i < j < |cs| ==> Rank(cs[i]) < Rank(cs[j]))
            && (cs == [] <==> Agrees(m, r))
  {
  }

  /** The record an install request leads to, or the first check it fails. */
  ghost function Checked(req: InstallRequest): Result<ExtensionRecord, RegistryError> {
    match FromComponent(req.component)
    case Err(e) => Err(e)
    case Ok(m) =>
      var sha := req.component.sha256;
      if req.expectedSha256.Some? && req.expectedSha256.value != sha then
        Err(Sha256Mismatch(req.expectedSha256.value, sha))
      else if req.record.Some? && Conflicts(m, req.record.value) != [] then
        Err(ReReviewRequired(Conflicts(m, req.record.value)))
      else
        match (ParseCaps(m.capabilities), ParseCaps(req.grantedCaps))
        case (Err(unknown), _) => Err(UnknownCapability(unknown))
        case (_, Err(unknown)) => Err(UnknownCapability(unknown))
        case (Ok(requested), Ok(granted)) =>
          match ValidateGrant(requested, granted)
          case Err(e) => Err(BadGrant(e))
          case Ok(_) => Ok(ExtensionRecord(req.id, m, granted, sha, req.source, req.enabled, req.createdAt))
  }

  /** A manifest that names itself, exports something and requests only what is available. */
  ghost predicate Installable(m: Manifest) {
    !White(m.name, 0, |m.name|) && !White(m.version, 0, |m.version|) && !White(m.witWorld, 0, |m.witWorld|)
    && m.extensionPoints != [] && AllIn(m.capabilities, WIRE[..3])
  }

  lemma {:induction false} AvailableOnWire(caps: seq<string>)
    ensures ParseCaps(caps).Ok? && FirstDeferred(ParseCaps(caps).value).None? <==> AllIn(caps, WIRE[..3])
  {
    hide Parse, IsAvailable;
    ParseCapsOkIff(caps);
    if ParseCaps(caps).Ok? {
      var cs := ParseCaps(caps).value;
      forall i | 0 <= i < |caps|
        ensures cs[i] in cs && caps[i] in caps && (IsAvailable(cs[i]) <==> caps[i] in WIRE[..3])
      {
        WireIs(caps[i]);
      }
    }
  }

  lemma InstallableIff(c: Component)
    ensures FromComponent(c).Ok? <==> c.embedded.Ok? && Installable(c.embedded.value)
    ensures FromComponent(c).Ok? ==> FromComponent(c).value == c.embedded.value
  {
    hide Trim, ParseCaps, FirstDeferred, AllIn, White;
    if c.embedded.Ok? {
      var m := c.embedded.value;
      TrimIs(m.name);
      TrimIs(m.version);
      TrimIs(m.witWorld);
      AvailableOnWire(m.capabilities);
    }
  }

  /** An install is accepted exactly when the component holds an installable manifest, has the digest
      asserted for it, does not contradict a supplied record, and the grant is lawful.  What is then
      recorded is what the component and the request say. */
  lemma InstallPolicy(req: InstallRequest)
    ensures Checked(req).Ok? <==>
              req.component.embedded.Ok? && Installable(req.component.embedded.value)
              && (req.expectedSha256.Some? ==> req.expectedSha256.value == req.component.sha256)
              && (req.record.Some? ==> Agrees(req.component.embedded.value, req.record.value))
              && AllIn(req.grantedCaps, WIRE)
              && LawfulGrant(req.component.embedded.value.capabilities, req.grantedCaps)
    ensures Checked(req).Ok? ==>
              var r := Checked(req).value;
              r.id == req.id && r.manifest == req.component.embedded.value && AsStrs(r.grantedCaps) == req.grantedCaps
              && r.wasmSha256 == req.component.sha256 && r.source == req.source && r.enabled == req.enabled
              && r.createdAt == req.createdAt
  {
    hide Agrees, Conflicts, FromComponent, Installable, LawfulGrant, AllIn, ValidateGrant, ParseCaps, AsStrs;
    InstallableIff(req.component);
    if req.component.embedded.Ok? && Installable(req.component.embedded.value) {
      var m := req.component.embedded.value;
      if req.record.Some? {
        ConflictsAre(m, req.record.value);
      }
      AvailableAreKnown(m);
      ParseCapsOkIff(req.grantedCaps);
      ParseCapsRoundTrip(req.grantedCaps);
      if ParseCaps(req.grantedCaps).Ok? {
        GrantPolicyOnWire(m.capabilities, req.grantedCaps);
      }
    }
  }

  /** Why an install was refused: each error names a fault the request really has. */
  ghost predicate IsFault(req: InstallRequest, e: RegistryError) {
    var embedded := req.component.embedded;
    match e
    case AlreadyRegistered(_) => false
    case BadManifest(reason) =>
      if embedded.Err? then reason == embedded.error
      else
        var m := embedded.value;
        (White(m.name, 0, |m.name|) || White(m.version, 0, |m.version|) || White(m.witWorld, 0, |m.witWorld|)
         || m.extensionPoints == [])
    case UnknownCapability(name) =>
      name !in WIRE && embedded.Ok? && (name in embedded.value.capabilities || name in req.grantedCaps)
    case RequestsDeferred(c) => embedded.Ok? && !IsAvailable(c) && AsStr(c) in embedded.value.capabilities
    case Sha256Mismatch(claimed, actual) =>
      req.expectedSha256 == Some(claimed) && actual == req.component.sha256 && claimed != actual
    case ReReviewRequired(conflicts) =>
      embedded.Ok? && req.record.Some? && conflicts != []
      && forall c :: c in conflicts <==> Diverges(embedded.value, req.record.value, c)
    case BadGrant(NotRequested(c)) =>
      embedded.Ok? && IsAvailable(c) && AsStr(c) in req.grantedCaps && AsStr(c) !in embedded.value.capabilities
    case BadGrant(Deferred(c)) => !IsAvailable(c) && AsStr(c) in req.grantedCaps
  }

  lemma WireNames(caps: seq<string>, c: Capability)
    requires ParseCaps(caps).Ok?
    ensures c in ParseCaps(caps).value <==> AsStr(c) in caps
  {
    hide ParseCaps;
    ParseCapsOkIff(caps);
    ParseSame(caps, ParseCaps(caps).value, AsStr(c), c);
  }

  lemma UnknownName(caps: seq<string>)
    requires ParseCaps(caps).Err?
    ensures ParseCaps(caps).error !in WIRE && ParseCaps(caps).error in caps
  {
    hide Parse;
    ParseCapsRoundTrip(caps);
    WireIs(ParseCaps(caps).error);
  }

  lemma ManifestRefusal(req: InstallRequest)
    requires FromComponent(req.component).Err?
    ensures IsFault(req, FromComponent(req.component).error)
  {
    hide Trim, ParseCaps, Parse, AsStr, White;
    if req.component.embedded.Ok? {
      var m := req.component.embedded.value;
      TrimIs(m.name);
      TrimIs(m.version);
      TrimIs(m.witWorld);
      if ParseCaps(m.capabilities).Err? {
        UnknownName(m.capabilities);
      } else if FirstDeferred(ParseCaps(m.capabilities).value).Some? {
        WireNames(m.capabilities, FirstDeferred(ParseCaps(m.capabilities).value).value);
      }
    }
  }

  lemma GrantRefusal(requested: seq<string>, granted: seq<string>)
    requires ParseCaps(requested).Ok? && ParseCaps(granted).Ok?
    requires ValidateGrant(ParseCaps(requested).value, ParseCaps(granted).value).Err?
    ensures var e := ValidateGrant(ParseCaps(requested).value, ParseCaps(granted).value).error;
            AsStr(e.cap) in granted && AsStr(e.cap) != "log"
            && if e.Deferred? then !IsAvailable(e.cap) else IsAvailable(e.cap) && AsStr(e.cap) !in requested
  {
    hide ParseCaps, ValidateGrant;
    var e := ValidateGrant(ParseCaps(requested).value, ParseCaps(granted).value).error;
    ValidateGrantIff(ParseCaps(requested).value, ParseCaps(granted).value);
    WireNames(granted, e.cap);
    WireNames(requested, e.cap);
  }

  lemma InstallRefusal(req: InstallRequest)
    requires Checked(req).Err?
    ensures IsFault(req, Checked(req).error)
  {
    hide Agrees, Diverges, FromComponent, ParseCaps, ValidateGrant, White, AsStr, IsAvailable;
    var manifest := FromComponent(req.component);
    if manifest.Err? {
      ManifestRefusal(req);
    } else {
      InstallableIff(req.component);
      AvailableAreKnown(manifest.value);
      if req.record.Some? {
        ConflictsAre(manifest.value, req.record.value);
      }
      if ParseCaps(req.grantedCaps).Err? {
        UnknownName(req.grantedCaps);
      } else if ValidateGrant(ParseCaps(manifest.value.capabilities).value, ParseCaps(req.grantedCaps).value).Err? {
        GrantRefusal(manifest.value.capabilities, req.grantedCaps);
      }
    }
  }

  lemma AvailableAreKnown(m: Manifest)
    requires Installable(m)
    ensures ParseCaps(m.capabilities).Ok?
  {
    ParseCapsOkIff(m.capabilities);
    forall c | c in m.capabilities ensures c in WIRE {
      assert c in WIRE[..3];
    }
  }

  /** Both lists sorted and without repeats. */
  method SameSetOf(a: seq<string>, b: seq<string>) returns (same: bool)
    ensures same <==> SameSet(a, b)
  {
    var xs := SortedDedup(a);
    var ys := SortedDedup(b);
    same := xs == ys;
    StrOrder();
    if SameSet(a, b) {
      AscendingUnique(xs, ys, StrLess);
    }
  }

  lemma AppendNext(xs: seq<string>, s: seq<string>, i: nat)
    requires StrictOrder(StrLess) && Total(StrLess) && Ascending(xs, StrLess) && i < |s|
    requires Sorted(s, x => x, StrLess)
    requires xs != [] ==> i > 0 && xs[|xs| - 1] == s[i - 1] != s[i]
    ensures Ascending(xs + [s[i]], StrLess)
  {
  }

  method SortedDedup(a: seq<string>) returns (xs: seq<string>)
    ensures Ascending(xs, StrLess) && forall x :: x in xs <==> x in a
  {
    StrOrder();
    hide StrLess;
    var s := SortByKey(a, x => x, StrLess);
    assert forall x :: x in s <==> x in multiset(s);
    assert forall x :: x in a <==> x in multiset(a);
    xs := [];
    for i := 0 to |s|
      invariant Ascending(xs, StrLess) && forall x :: x in xs <==> x in s[..i]
      invariant xs != [] ==> i > 0 && xs[|xs| - 1] == s[i - 1]
      invariant xs == [] ==> i == 0
    {
      if xs == [] || xs[|xs| - 1] != s[i] {
        AppendNext(xs, s, i);
        xs := xs + [s[i]];
      }
      assert s[..i + 1] == s[..i] + [s[i]];
    }
    assert s[..|s|] == s;
  }

  method Reconcile(m: Manifest, r: RecordClaims) returns (conflicts: seq<Claim>)
    ensures conflicts == Conflicts(m, r)
  {
    conflicts := [];
    if m.name != r.name {
      conflicts := conflicts + [NameClaim];
    }
    if m.version != r.version {
      conflicts := conflicts + [VersionClaim];
    }
    if m.witWorld != r.witWorld {
      conflicts := conflicts + [WitWorldClaim];
    }
    var sameCaps := SameSetOf(m.capabilities, r.requestedCaps);
    if !sameCaps {
      conflicts := conflicts + [RequestedCapsClaim];
    }
  }

  // ---- the install-ordered list and its two indexes ----

  ghost predicate DistinctIds(order: seq<ExtensionRecord>) {
    forall i, j :: 0 <= i < j < |order| ==> order[i].id != order[j].id
  }

  predicate Registered(order: seq<ExtensionRecord>, id: string) {
    exists i :: 0 <= i < |order| && order[i].id == id
  }

  function Repeat<T>(x: T, n: nat): seq<T> {
    seq(n, _ => x)
  }

  function Occurrences(xs: seq<string>, x: string): nat {
    if xs == [] then 0 else (if xs[|xs| - 1] == x then 1 else 0) + Occurrences(xs[..|xs| - 1], x)
  }

  /** The ids exporting an interface, in install order, as often as each manifest lists it. */
  function Exporting(order: seq<ExtensionRecord>, i: string): seq<string> {
    if order == [] then []
    else
      var r := order[|order| - 1];
      Exporting(order[..|order| - 1], i) + Repeat(r.id, Occurrences(r.manifest.extensionPoints, i))
  }

  /** The enabled records exporting an interface, in the same order and multiplicity. */
  function DispatchList(order: seq<ExtensionRecord>, i: string): seq<ExtensionRecord> {
    if order == [] then []
    else
      var r := order[|order| - 1];
      DispatchList(order[..|order| - 1], i)
      + if r.enabled then Repeat(r, Occurrences(r.manifest.extensionPoints, i)) else []
  }

  function Without(order: seq<ExtensionRecord>, id: string): seq<ExtensionRecord> {
    if order == [] then []
    else
      var r := order[|order| - 1];
      Without(order[..|order| - 1], id) + if r.id == id then [] else [r]
  }

  function WithEnabled(order: seq<ExtensionRecord>, id: string, enabled: bool): seq<ExtensionRecord> {
    seq(|order|, i requires 0 <= i < |order| =>
      if order[i].id == id then order[i].(enabled := enabled) else order[i])
  }

  function WithGrants(order: seq<ExtensionRecord>, id: string, granted: seq<Capability>): seq<ExtensionRecord> {
    seq(|order|, i requires 0 <= i < |order| =>
      if order[i].id == id then order[i].(grantedCaps := granted) else order[i])
  }

  /** The map by id mirrors the list. */
  ghost predicate IdIndex(order: seq<ExtensionRecord>, byId: map<string, ExtensionRecord>) {
    (forall i :: 0 <= i < |order| ==> order[i].id in byId && byId[order[i].id] == order[i])
    && forall id :: id in byId ==> Registered(order, id)
  }

  /** The map by interface mirrors the list: never an empty entry, never a dead id. */
  ghost predicate ExportIndex(order: seq<ExtensionRecord>, byExport: map<string, seq<string>>) {
    forall i :: (i in byExport <==> Exporting(order, i) != [])
                && (i in byExport ==> byExport[i] == Exporting(order, i))
  }

  /** Both maps are determined by the list. */
  lemma IndexesUnique(order: seq<ExtensionRecord>,
                      byId: map<string, ExtensionRecord>, byExport: map<string, seq<string>>,
                      byId': map<string, ExtensionRecord>, byExport': map<string, seq<string>>)
    requires IdIndex(order, byId) && IdIndex(order, byId')
    requires ExportIndex(order, byExport) && ExportIndex(order, byExport')
    ensures byId == byId' && byExport == byExport'
  {
  }

  /** Removing what was just installed restores the list, and with it both maps. */
  lemma {:induction false} RemoveUndoesInstall(order: seq<ExtensionRecord>, r: ExtensionRecord)
    requires !Registered(order, r.id)
    ensures Without(order + [r], r.id) == order
  {
    assert (order + [r])[..|order|] == order;
    WithoutAbsent(order, r.id);
  }

  lemma {:induction false} WithoutAbsent(order: seq<ExtensionRecord>, id: string)
    requires !Registered(order, id)
    ensures Without(order, id) == order
  {
    if order != [] {
      var n := |order| - 1;
      forall i | 0 <= i < n ensures order[..n][i].id != id {
        assert order[i].id != id;
      }
      assert !Registered(order[..n], id);
      WithoutAbsent(order[..n], id);
      assert order[n].id != id && order == order[..n] + [order[n]];
    }
  }

  lemma {:induction false} WithoutMembers(order: seq<ExtensionRecord>, id: string)
    ensures forall r :: r in Without(order, id) <==> r in order && r.id != id
  {
    if order != [] {
      var n := |order| - 1;
      WithoutMembers(order[..n], id);
      assert order == order[..n] + [order[n]];
    }
  }

  lemma {:induction false} WithoutDistinct(order: seq<ExtensionRecord>, id: string)
    requires DistinctIds(order)
    ensures DistinctIds(Without(order, id))
  {
    if order != [] {
      var n := |order| - 1;
      WithoutDistinct(order[..n], id);
      WithoutMembers(order[..n], id);
      var w := Without(order[..n], id);
      forall i | 0 <= i < |w| ensures w[i].id != order[n].id {
        assert w[i] in w;
        assert w[i] in order[..n];
      }
    }
  }

  function Drop(ids: seq<string>, id: string): seq<string> {
    if ids == [] then []
    else Drop(ids[..|ids| - 1], id) + if ids[|ids| - 1] == id then [] else [ids[|ids| - 1]]
  }

  lemma {:induction false} DropConcat(a: seq<string>, b: seq<string>, id: string)
    ensures Drop(a + b, id) == Drop(a, id) + Drop(b, id)
    decreases b
  {
    if b == [] {
      assert a + b == a;
    } else {
      assert (a + b)[..|a + b| - 1] == a + b[..|b| - 1];
      DropConcat(a, b[..|b| - 1], id);
    }
  }

  lemma {:induction false} DropRepeat(x: string, n: nat, id: string)
    ensures Drop(Repeat(x, n), id) == if x == id then [] else Repeat(x, n)
    decreases n
  {
    if n > 0 {
      assert Repeat(x, n)[..n - 1] == Repeat(x, n - 1);
      DropRepeat(x, n - 1, id);
    }
  }

  lemma {:induction false} ExportingWithout(order: seq<ExtensionRecord>, id: string, i: string)
    ensures Exporting(Without(order, id), i) == Drop(Exporting(order, i), id)
  {
    if order != [] {
      var n := |order| - 1;
      var w, r := Without(order[..n], id), order[n];
      ExportingWithout(order[..n], id, i);
      DropConcat(Exporting(order[..n], i), Repeat(r.id, Occurrences(r.manifest.extensionPoints, i)), id);
      DropRepeat(r.id, Occurrences(r.manifest.extensionPoints, i), id);
      if r.id != id {
        assert (w + [r])[..|w|] == w;
      } else {
        assert w + [] == w;
      }
    }
  }

  lemma {:induction false} ExportingUnchanged(a: seq<ExtensionRecord>, b: seq<ExtensionRecord>, i: string)
    requires |a| == |b|
    requires forall k :: 0 <= k < |a| ==> a[k].id == b[k].id && a[k].manifest == b[k].manifest
    ensures Exporting(a, i) == Exporting(b, i)
  {
    if a != [] {
      ExportingUnchanged(a[..|a| - 1], b[..|b| - 1], i);
    }
  }

  /** No index list holds a dead id. */
  lemma {:induction false} ExportingMembers(order: seq<ExtensionRecord>, i: string)
    ensures forall k :: 0 <= k < |Exporting(order, i)| ==> Registered(order, Exporting(order, i)[k])
  {
    if order != [] {
      var n := |order| - 1;
      ExportingMembers(order[..n], i);
      assert order[n].id == order[n].id;
      forall id | Registered(order[..n], id) ensures Registered(order, id) {
        var k :| 0 <= k < n && order[..n][k].id == id;
        assert order[k].id == id;
      }
    }
  }

  /** The enabled records behind a list of ids. */
  function Lookup(byId: map<string, ExtensionRecord>, ids: seq<string>): seq<ExtensionRecord> {
    if ids == [] then []
    else
      var id := ids[|ids| - 1];
      Lookup(byId, ids[..|ids| - 1]) + if id in byId && byId[id].enabled then [byId[id]] else []
  }

  lemma {:induction false} LookupConcat(byId: map<string, ExtensionRecord>, a: seq<string>, b: seq<string>)
    ensures Lookup(byId, a + b) == Lookup(byId, a) + Lookup(byId, b)
    decreases b
  {
    if b == [] {
      assert a + b == a;
    } else {
      assert (a + b)[..|a + b| - 1] == a + b[..|b| - 1];
      LookupConcat(byId, a, b[..|b| - 1]);
    }
  }

  lemma {:induction false} LookupRepeat(byId: map<string, ExtensionRecord>, r: ExtensionRecord, n: nat)
    requires r.id in byId && byId[r.id] == r
    ensures Lookup(byId, Repeat(r.id, n)) == if r.enabled then Repeat(r, n) else []
    decreases n
  {
    if n > 0 {
      assert Repeat(r.id, n)[..n - 1] == Repeat(r.id, n - 1);
      LookupRepeat(byId, r, n - 1);
      assert Repeat(r, n) == Repeat(r, n - 1) + [r];
    }
  }

  /** Following the index through the id map gives the enabled records of the list. */
  lemma {:induction false} LookupIsDispatchList(order: seq<ExtensionRecord>, byId: map<string, ExtensionRecord>,
                                                i: string)
    requires forall r :: r in order ==> r.id in byId && byId[r.id] == r
    ensures Lookup(byId, Exporting(order, i)) == DispatchList(order, i)
    decreases order
  {
    if order != [] {
      var n := |order| - 1;
      var r := order[n];
      hide Lookup, Occurrences, Repeat;
      assert r in order;
      LookupIsDispatchList(order[..n], byId, i);
      LookupConcat(byId, Exporting(order[..n], i), Repeat(r.id, Occurrences(r.manifest.extensionPoints, i)));
      LookupRepeat(byId, r, Occurrences(r.manifest.extensionPoints, i));
    }
  }

  // ---- indexing one record, export by export ----

  function Partial(order: seq<ExtensionRecord>, id: string, exports: seq<string>, i: string): seq<string> {
    Exporting(order, i) + Repeat(id, Occurrences(exports, i))
  }

  ghost predicate PartialIndex(order: seq<ExtensionRecord>, id: string, exports: seq<string>,
                               byExport: map<string, seq<string>>)
  {
    forall i :: (i in byExport <==> Partial(order, id, exports, i) != [])
                && (i in byExport ==> byExport[i] == Partial(order, id, exports, i))
  }

  lemma PartialStart(order: seq<ExtensionRecord>, id: string, byExport: map<string, seq<string>>)
    requires ExportIndex(order, byExport)
    ensures PartialIndex(order, id, [], byExport)
  {
  }

  lemma PartialAt(order: seq<ExtensionRecord>, id: string, exports: seq<string>, e: string, i: string)
    ensures Partial(order, id, exports + [e], i)
         == Partial(order, id, exports, i) + if i == e then [id] else []
  {
  }

  lemma PartialStep(order: seq<ExtensionRecord>, id: string, exports: seq<string>, e: string,
                    byExport: map<string, seq<string>>)
    requires PartialIndex(order, id, exports, byExport)
    ensures PartialIndex(order, id, exports + [e],
                         byExport[e := (if e in byExport then byExport[e] else []) + [id]])
  {
    hide Exporting, Occurrences, Repeat, Partial;
    forall i ensures Partial(order, id, exports + [e], i)
                  == Partial(order, id, exports, i) + if i == e then [id] else []
    {
      PartialAt(order, id, exports, e, i);
    }
  }

  lemma PartialDone(order: seq<ExtensionRecord>, r: ExtensionRecord, byExport: map<string, seq<string>>)
    requires PartialIndex(order, r.id, r.manifest.extensionPoints, byExport)
    ensures ExportIndex(order + [r], byExport)
  {
  }

  lemma InstalledIdIndex(order: seq<ExtensionRecord>, byId: map<string, ExtensionRecord>, r: ExtensionRecord)
    requires DistinctIds(order) && IdIndex(order, byId) && !Registered(order, r.id)
    ensures DistinctIds(order + [r]) && IdIndex(order + [r], byId[r.id := r])
  {
    var all := order + [r];
    forall id | id in byId[r.id := r] ensures Registered(all, id) {
      if id == r.id {
        assert all[|order|].id == id;
      } else {
        var k :| 0 <= k < |order| && order[k].id == id;
        assert all[k].id == id;
      }
    }
  }

  // ---- removing one record, export by export ----

  function Remaining(order: seq<ExtensionRecord>, id: string, exports: seq<string>, i: string): seq<string> {
    if i in exports then Drop(Exporting(order, i), id) else Exporting(order, i)
  }

  ghost predicate RemainingIndex(order: seq<ExtensionRecord>, id: string, exports: seq<string>,
                                 byExport: map<string, seq<string>>)
  {
    forall i :: (i in byExport <==> Remaining(order, id, exports, i) != [])
                && (i in byExport ==> byExport[i] == Remaining(order, id, exports, i))
  }

  function DropFrom(byExport: map<string, seq<string>>, e: string, id: string): map<string, seq<string>> {
    if e !in byExport then byExport
    else if Drop(byExport[e], id) == [] then byExport - {e}
    else byExport[e := Drop(byExport[e], id)]
  }

  lemma RemainingAt(order: seq<ExtensionRecord>, id: string, exports: seq<string>, e: string,
                    byExport: map<string, seq<string>>, i: string)
    requires var left := Remaining(order, id, exports, i);
             (i in byExport <==> left != []) && (i in byExport ==> byExport[i] == left)
    ensures var now, left := DropFrom(byExport, e, id), Remaining(order, id, exports + [e], i);
            (i in now <==> left != []) && (i in now ==> now[i] == left)
  {
    assert Drop([], id) == [];
    hide Drop, Exporting;
    if i == e {
      DropTwice(Exporting(order, e), id);
    } else {
      assert i in exports + [e] <==> i in exports;
    }
  }

  lemma RemainingStep(order: seq<ExtensionRecord>, id: string, exports: seq<string>, e: string,
                      byExport: map<string, seq<string>>)
    requires RemainingIndex(order, id, exports, byExport)
    ensures RemainingIndex(order, id, exports + [e], DropFrom(byExport, e, id))
  {
    forall i
      ensures var now, left := DropFrom(byExport, e, id), Remaining(order, id, exports + [e], i);
              (i in now <==> left != []) && (i in now ==> now[i] == left)
    {
      RemainingAt(order, id, exports, e, byExport, i);
    }
  }

  lemma RemainingDone(order: seq<ExtensionRecord>, r: ExtensionRecord, byExport: map<string, seq<string>>)
    requires DistinctIds(order) && r in order
    requires RemainingIndex(order, r.id, r.manifest.extensionPoints, byExport)
    ensures ExportIndex(Without(order, r.id), byExport)
  {
    forall i ensures Exporting(Without(order, r.id), i) == Remaining(order, r.id, r.manifest.extensionPoints, i) {
      ExportingWithout(order, r.id, i);
      if i !in r.manifest.extensionPoints {
        NotExporting(order, r, i);
      }
    }
  }

  class Registry {
    var byId: map<string, ExtensionRecord>
    var byExport: map<string, seq<string>>
    /** The registered records in install order. */
    ghost var order: seq<ExtensionRecord>

    ghost predicate Valid()
      reads this
    {
      DistinctIds(order) && IdIndex(order, byId) && ExportIndex(order, byExport)
    }

    constructor ()
      ensures Valid() && order == []
    {
      byId, byExport, order := map[], map[], [];
    }

    method Install(req: InstallRequest) returns (result: Result<ExtensionRecord, RegistryError>)
      requires Valid()
      modifies this
      ensures Valid()
      ensures result == if Registered(old(order), req.id) then Err(AlreadyRegistered(req.id)) else Checked(req)
      ensures result.Ok? ==> order == old(order) + [result.value] && result.value.id == req.id
      ensures result.Err? ==> order == old(order) && byId == old(byId) && byExport == old(byExport)
    {
      if req.id in byId {
        return Err(AlreadyRegistered(req.id));
      }
      var parsed := FromComponent(req.component);
      if parsed.Err? {
        return Err(parsed.error);
      }
      var manifest, sha := parsed.value, req.component.sha256;
      if req.expectedSha256.Some? && req.expectedSha256.value != sha {
        return Err(Sha256Mismatch(req.expectedSha256.value, sha));
      }
      if req.record.Some? {
        var conflicts := Reconcile(manifest, req.record.value);
        if conflicts != [] {
          return Err(ReReviewRequired(conflicts));
        }
      }
      var requested := ParseCaps(manifest.capabilities);
      if requested.Err? {
        return Err(UnknownCapability(requested.error));
      }
      var granted := ParseCaps(req.grantedCaps);
      if granted.Err? {
        return Err(UnknownCapability(granted.error));
      }
      var grant := ValidateGrant(requested.value, granted.value);
      if grant.Err? {
        return Err(BadGrant(grant.error));
      }
      var record := ExtensionRecord(req.id, manifest, granted.value, sha, req.source, req.enabled, req.createdAt);
      Index(record);
      result := Ok(record);
    }

    method Index(record: ExtensionRecord)
      requires Valid() && !Registered(order, record.id)
      modifies this
      ensures Valid() && order == old(order) + [record]
    {
      var exports := record.manifest.extensionPoints;
      PartialStart(order, record.id, byExport);
      for k := 0 to |exports|
        modifies `byExport
        invariant PartialIndex(order, record.id, exports[..k], byExport)
      {
        var e := exports[k];
        var ids := if e in byExport then byExport[e] else [];
        assert exports[..k + 1] == exports[..k] + [e];
        PartialStep(order, record.id, exports[..k], e, byExport);
        byExport := byExport[e := ids + [record.id]];
      }
      assert exports[..|exports|] == exports;
      PartialDone(order, record, byExport);
      InstalledIdIndex(order, byId, record);
      byId := byId[record.id := record];
      order := order + [record];
    }

    /** The dispatch set of an interface. */
    method FindByExport(i: string) returns (records: seq<ExtensionRecord>)
      requires Valid()
      ensures records == DispatchList(order, i)
    {
      var ids := if i in byExport then byExport[i] else [];
      records := [];
      for k := 0 to |ids|
        invariant records == Lookup(byId, ids[..k])
      {
        assert ids[..k + 1][..k] == ids[..k];
        if ids[k] in byId && byId[ids[k]].enabled {
          records := records + [byId[ids[k]]];
        }
      }
      assert ids[..|ids|] == ids;
      LookupIsDispatchList(order, byId, i);
    }

    method SetEnabled(id: string, enabled: bool) returns (known: bool)
      requires Valid()
      modifies this
      ensures Valid() && known == Registered(old(order), id)
      ensures order == WithEnabled(old(order), id, enabled)
    {
      KnownIds(order, byId, id);
      known := id in byId;
      SetEnabledIndexes(order, byId, byExport, id, enabled);
      if known {
        byId := byId[id := byId[id].(enabled := enabled)];
      }
      order := WithEnabled(order, id, enabled);
    }

    method SetGrants(id: string, granted: seq<Capability>) returns (known: bool)
      requires Valid()
      modifies this
      ensures Valid() && known == Registered(old(order), id)
      ensures order == WithGrants(old(order), id, granted)
    {
      KnownIds(order, byId, id);
      known := id in byId;
      SetGrantsIndexes(order, byId, byExport, id, granted);
      if known {
        byId := byId[id := byId[id].(grantedCaps := granted)];
      }
      order := WithGrants(order, id, granted);
    }

    method Remove(id: string) returns (removed: Option<ExtensionRecord>)
      requires Valid()
      modifies this
      ensures Valid() && order == Without(old(order), id)
      ensures removed.Some? <==> Registered(old(order), id)
      ensures removed.Some? ==> removed.value in old(order) && removed.value.id == id
    {
      if id !in byId {
        WithoutAbsent(order, id);
        return None;
      }
      var record := byId[id];
      byId := byId - {id};
      var exports := record.manifest.extensionPoints;
      assert RemainingIndex(order, id, [], byExport);
      for k := 0 to |exports|
        modifies `byExport
        invariant RemainingIndex(order, id, exports[..k], byExport)
      {
        var e := exports[k];
        assert exports[..k + 1] == exports[..k] + [e];
        RemainingStep(order, id, exports[..k], e, byExport);
        if e in byExport {
          var ids := Drop(byExport[e], id);
          byExport := if ids == [] then byExport - {e} else byExport[e := ids];
        }
      }
      assert exports[..|exports|] == exports;
      assert record in order;
      RemainingDone(order, record, byExport);
      WithoutIdIndex(order, old(byId), id);
      WithoutDistinct(order, id);
      order := Without(order, id);
      removed := Some(record);
    }
  }

  lemma KnownIds(order: seq<ExtensionRecord>, byId: map<string, ExtensionRecord>, id: string)
    requires IdIndex(order, byId)
    ensures id in byId <==> Registered(order, id)
  {
  }

  lemma SetEnabledIndexes(order: seq<ExtensionRecord>, byId: map<string, ExtensionRecord>,
                          byExport: map<string, seq<string>>, id: string, enabled: bool)
    requires DistinctIds(order) && IdIndex(order, byId) && ExportIndex(order, byExport)
    ensures var order' := WithEnabled(order, id, enabled);
            var byId' := if id in byId then byId[id := byId[id].(enabled := enabled)] else byId;
            DistinctIds(order') && IdIndex(order', byId') && ExportIndex(order', byExport)
  {
    hide DistinctIds, ExportIndex;
    var byId' := if id in byId then byId[id := byId[id].(enabled := enabled)] else byId;
    KeepIndexes(order, WithEnabled(order, id, enabled), byId, byId', byExport);
  }

  lemma SetGrantsIndexes(order: seq<ExtensionRecord>, byId: map<string, ExtensionRecord>,
                         byExport: map<string, seq<string>>, id: string, granted: seq<Capability>)
    requires DistinctIds(order) && IdIndex(order, byId) && ExportIndex(order, byExport)
    ensures var order' := WithGrants(order, id, granted);
            var byId' := if id in byId then byId[id := byId[id].(grantedCaps := granted)] else byId;
            DistinctIds(order') && IdIndex(order', byId') && ExportIndex(order', byExport)
  {
    hide DistinctIds, ExportIndex;
    var byId' := if id in byId then byId[id := byId[id].(grantedCaps := granted)] else byId;
    KeepIndexes(order, WithGrants(order, id, granted), byId, byId', byExport);
  }

  lemma WithoutIdIndex(order: seq<ExtensionRecord>, byId: map<string, ExtensionRecord>, id: string)
    requires DistinctIds(order) && IdIndex(order, byId)
    ensures IdIndex(Without(order, id), byId - {id})
  {
    WithoutMembers(order, id);
    var w := Without(order, id);
    forall i | 0 <= i < |w| ensures w[i].id in byId - {id} && byId[w[i].id] == w[i] {
      assert w[i] in order;
    }
    forall k | k in byId - {id} ensures Registered(w, k) {
      var i :| 0 <= i < |order| && order[i].id == k;
      assert order[i] in w;
    }
  }

  lemma {:induction false} DropTwice(ids: seq<string>, id: string)
    ensures Drop(Drop(ids, id), id) == Drop(ids, id)
  {
    if ids != [] {
      var n := |ids| - 1;
      DropTwice(ids[..n], id);
      DropConcat(Drop(ids[..n], id), if ids[n] == id then [] else [ids[n]], id);
    }
  }

  lemma {:induction false} NoOccurrence(xs: seq<string>, x: string)
    requires x !in xs
    ensures Occurrences(xs, x) == 0
  {
    if xs != [] {
      NoOccurrence(xs[..|xs| - 1], x);
    }
  }

  /** An interface the record does not export has no id of it in its list. */
  lemma {:induction false} NotExporting(order: seq<ExtensionRecord>, record: ExtensionRecord, i: string)
    requires DistinctIds(order) && i !in record.manifest.extensionPoints
    requires forall k :: 0 <= k < |order| && order[k].id == record.id ==> order[k] == record
    ensures Drop(Exporting(order, i), record.id) == Exporting(order, i)
  {
    if order != [] {
      var n := |order| - 1;
      var r := order[n];
      assert forall k :: 0 <= k < n ==> order[..n][k] == order[k];
      NotExporting(order[..n], record, i);
      var reps := Repeat(r.id, Occurrences(r.manifest.extensionPoints, i));
      if r.id == record.id {
        NoOccurrence(r.manifest.extensionPoints, i);
      }
      DropConcat(Exporting(order[..n], i), reps, record.id);
      DropRepeat(r.id, Occurrences(r.manifest.extensionPoints, i), record.id);
    }
  }

  /** Updating one record in place keeps both indexes in step. */
  lemma KeepIndexes(order: seq<ExtensionRecord>, order': seq<ExtensionRecord>,
                    byId: map<string, ExtensionRecord>, byId': map<string, ExtensionRecord>,
                    byExport: map<string, seq<string>>)
    requires DistinctIds(order) && IdIndex(order, byId) && ExportIndex(order, byExport)
    requires |order'| == |order| && byId'.Keys == byId.Keys
    requires forall k :: 0 <= k < |order| ==> order'[k].id == order[k].id && order'[k].manifest == order[k].manifest
    requires forall k :: 0 <= k < |order| ==> order'[k].id in byId' && byId'[order'[k].id] == order'[k]
    ensures DistinctIds(order') && IdIndex(order', byId') && ExportIndex(order', byExport)
  {
    forall id | id in byId' ensures Registered(order', id) {
      var k :| 0 <= k < |order| && order[k].id == id;
      assert order'[k].id == id;
    }
    forall i ensures Exporting(order', i) == Exporting(order, i) {
      ExportingUnchanged(order', order, i);
    }
  }
}
