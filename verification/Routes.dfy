/** The `/extensions` routes: a durable row per extension, its bytes in the blob store, and the
    dispatch registry beside them. */
module Routes {
  import opened Wrappers
  import opened Capabilities
  import opened Registries

  /** A store row. */
  datatype Extension = Extension(
    id: string, name: string, version: string, witWorld: string, exports: seq<string>,
    requestedCaps: seq<string>, grantedCaps: seq<string>, wasmSha256: string, enabled: bool,
    source: Source, frontend: Option<Frontend>, createdAt: string)

  datatype RouteError =
    | EmptyComponent
    | Refused(error: RegistryError)
    | ExtensionExists(id: string)
    | ExtensionNotFound(id: string)
    | UnknownCap(name: string)
    | GrantRefused(reason: GrantError)
    | StoreFailed
    | BlobFailed

  datatype InstallBody =
    InstallBody(id: Option<string>, component: Component, isEmpty: bool, source: Source, createdAt: string)

  function ToStoreExtension(r: ExtensionRecord): Extension {
    var m := r.manifest;
    Extension(r.id, m.name, m.version, m.witWorld, m.extensionPoints, m.capabilities, AsStrs(r.grantedCaps),
              r.wasmSha256, r.enabled, r.source, m.frontend, r.createdAt)
  }

  function InstallId(b: InstallBody): string {
    var sha := b.component.sha256;
    if b.id.Some? then b.id.value else "ext-" + (if |sha| < 16 then sha else sha[..16])
  }

  /** Installs are default-deny: no grants, disabled. */
  function RequestOf(b: InstallBody): InstallRequest {
    InstallRequest(InstallId(b), b.component, [], b.source, None, false, b.createdAt, None)
  }

  /** The rows, the digests whose bytes are stored, and the registered records. */
  datatype Stores = Stores(rows: map<string, Extension>, blobs: set<string>, order: seq<ExtensionRecord>)

  /** Whether an install gets as far as the registry. */
  ghost predicate Accepted(st: Stores, b: InstallBody) {
    !b.isEmpty && !Registered(st.order, InstallId(b)) && Checked(RequestOf(b)).Ok?
  }

  ghost function AfterInstall(st: Stores, b: InstallBody, storeOk: bool, blobOk: bool): Stores {
    var id := InstallId(b);
    if Accepted(st, b) && storeOk && id !in st.rows then
      var r := Checked(RequestOf(b)).value;
      Stores(st.rows[id := ToStoreExtension(r)],
             if blobOk then st.blobs + {r.wasmSha256} else st.blobs,
             st.order + [r])
    else st
  }

  function AfterDelete(st: Stores, id: string, readOk: bool, writeOk: bool, blobOk: bool): Stores {
    if readOk && id in st.rows && writeOk then
      Stores(st.rows - {id},
             if blobOk then st.blobs - {st.rows[id].wasmSha256} else st.blobs,
             Without(st.order, id))
    else st
  }

  function AfterSetEnabled(st: Stores, id: string, enabled: bool, storeOk: bool): Stores {
    if storeOk && id in st.rows then
      Stores(st.rows[id := st.rows[id].(enabled := enabled)], st.blobs, WithEnabled(st.order, id, enabled))
    else st
  }

  /** The capabilities a grant request resolves to, or why it is refused. */
  function ResolveGrant(row: Extension, caps: seq<string>): Result<seq<Capability>, RouteError> {
    match (ParseCaps(row.requestedCaps), ParseCaps(caps))
    case (Err(unknown), _) => Err(UnknownCap(unknown))
    case (_, Err(unknown)) => Err(UnknownCap(unknown))
    case (Ok(requested), Ok(granted)) =>
      match ValidateGrant(requested, granted)
      case Err(e) => Err(GrantRefused(e))
      case Ok(_) => Ok(granted)
  }

  function AfterSetGrants(st: Stores, id: string, caps: seq<string>, readOk: bool, writeOk: bool): Stores {
    if readOk && id in st.rows && ResolveGrant(st.rows[id], caps).Ok? && writeOk then
      Stores(st.rows[id := st.rows[id].(grantedCaps := caps)], st.blobs,
             WithGrants(st.order, id, ResolveGrant(st.rows[id], caps).value))
    else st
  }

  class ExtensionRoutes {
    var rows: map<string, Extension>
    var blobs: set<string>
    const registry: Registry

    ghost predicate Valid()
      reads this, registry
    {
      registry.Valid()
    }

    ghost function Now(): Stores
      reads this, registry
    {
      Stores(rows, blobs, registry.order)
    }

    /** The daemon starts over whatever rows and bytes an earlier one left. */
    constructor (registry: Registry, rows: map<string, Extension>, blobs: set<string>)
      requires registry.Valid()
      ensures Valid() && Now() == Stores(rows, blobs, registry.order)
    {
      this.registry, this.rows, this.blobs := registry, rows, blobs;
    }

    method CreateRow(row: Extension, storeOk: bool) returns (result: Result<Extension, RouteError>)
      modifies this`rows
      ensures result == if !storeOk then Err(StoreFailed)
                        else if row.id in old(rows) then Err(ExtensionExists(row.id))
                        else Ok(row)
      ensures rows == if result.Ok? then old(rows)[row.id := row] else old(rows)
    {
      if !storeOk {
        return Err(StoreFailed);
      }
      if row.id in rows {
        return Err(ExtensionExists(row.id));
      }
      rows := rows[row.id := row];
      return Ok(row);
    }

    /** Register first, then write the row and the bytes; a lost row write rolls the registry back. */
    method Install(b: InstallBody, storeOk: bool, blobOk: bool) returns (result: Result<Extension, RouteError>)
      requires Valid()
      modifies this, registry
      ensures Valid() && Now() == AfterInstall(old(Now()), b, storeOk, blobOk)
      ensures var id := InstallId(b);
              result == if b.isEmpty then Err(EmptyComponent)
                        else if Registered(old(registry.order), id) then Err(Refused(AlreadyRegistered(id)))
                        else if Checked(RequestOf(b)).Err? then Err(Refused(Checked(RequestOf(b)).error))
                        else if !storeOk then Err(StoreFailed)
                        else if id in old(rows) then Err(ExtensionExists(id))
                        else if !blobOk then Err(BlobFailed)
                        else Ok(rows[id])
      ensures rows == old(rows) ==> registry.byId == old(registry.byId) && registry.byExport == old(registry.byExport)
    {
      hide Checked, IdIndex, ExportIndex, DistinctIds;
      if b.isEmpty {
        return Err(EmptyComponent);
      }
      var id := InstallId(b);
      ghost var byId, byExport := registry.byId, registry.byExport;
      var registered := registry.Install(RequestOf(b));
      if registered.Err? {
        return Err(Refused(registered.error));
      }
      result := CreateRow(ToStoreExtension(registered.value), storeOk);
      if result.Err? {
        var _ := registry.Remove(id);
        RemoveUndoesInstall(old(registry.order), registered.value);
        IndexesUnique(registry.order, byId, byExport, registry.byId, registry.byExport);
      } else {
        assert id in rows && id !in old(rows);
        if blobOk {
          blobs := blobs + {result.value.wasmSha256};
        } else {
          result := Err(BlobFailed);
        }
      }
    }

    /** Row, bytes, record; a failure to delete the bytes is ignored. */
    method Delete(id: string, readOk: bool, writeOk: bool, blobOk: bool) returns (result: Result<bool, RouteError>)
      requires Valid()
      modifies this, registry
      ensures Valid() && Now() == AfterDelete(old(Now()), id, readOk, writeOk, blobOk)
      ensures result == if !readOk || (id in old(rows) && !writeOk) then Err(StoreFailed) else Ok(id in old(rows))
    {
      if !readOk {
        return Err(StoreFailed);
      }
      if id !in rows {
        return Ok(false);
      }
      if !writeOk {
        return Err(StoreFailed);
      }
      var sha := rows[id].wasmSha256;
      rows := rows - {id};
      if blobOk {
        blobs := blobs - {sha};
      }
      var _ := registry.Remove(id);
      return Ok(true);
    }

    method SetEnabled(id: string, enabled: bool, storeOk: bool) returns (result: Result<Extension, RouteError>)
      requires Valid()
      modifies this, registry
      ensures Valid() && Now() == AfterSetEnabled(old(Now()), id, enabled, storeOk)
      ensures result == if !storeOk then Err(StoreFailed)
                        else if id !in old(rows) then Err(ExtensionNotFound(id))
                        else Ok(old(rows)[id].(enabled := enabled))
    {
      if !storeOk {
        return Err(StoreFailed);
      }
      if id !in rows {
        return Err(ExtensionNotFound(id));
      }
      rows := rows[id := rows[id].(enabled := enabled)];
      var _ := registry.SetEnabled(id, enabled);
      return Ok(rows[id]);
    }

    method SetGrants(id: string, caps: seq<string>, readOk: bool, writeOk: bool)
      returns (result: Result<Extension, RouteError>)
      requires Valid()
      modifies this, registry
      ensures Valid() && Now() == AfterSetGrants(old(Now()), id, caps, readOk, writeOk)
      ensures result == if !readOk then Err(StoreFailed)
                        else if id !in old(rows) then Err(ExtensionNotFound(id))
                        else if ResolveGrant(old(rows)[id], caps).Err? then Err(ResolveGrant(old(rows)[id], caps).error)
                        else if !writeOk then Err(StoreFailed)
                        else Ok(old(rows)[id].(grantedCaps := caps))
    {
      if !readOk {
        return Err(StoreFailed);
      }
      if id !in rows {
        return Err(ExtensionNotFound(id));
      }
      var grant := ResolveGrant(rows[id], caps);
      if grant.Err? {
        return Err(grant.error);
      }
      if !writeOk {
        return Err(StoreFailed);
      }
      rows := rows[id := rows[id].(grantedCaps := caps)];
      var _ := registry.SetGrants(id, grant.value);
      return Ok(rows[id]);
    }
  }

  // ---- what each route does ----

  /** Nothing but the row of `id` differs. */
  ghost predicate SameRowsBut(rows: map<string, Extension>, rows': map<string, Extension>, id: string) {
    forall x :: x != id ==> (x in rows' <==> x in rows) && (x in rows ==> rows'[x] == rows[x])
  }

  /** Nothing but the records of `id` differs, and none has moved. */
  ghost predicate SameRecordsBut(order: seq<ExtensionRecord>, order': seq<ExtensionRecord>, id: string) {
    |order'| == |order| && forall k :: 0 <= k < |order| ==>
      order'[k].id == order[k].id && (order[k].id != id ==> order'[k] == order[k])
  }

  /** The first 16 characters of a digest, or all of them. */
  ghost predicate IsShort(sha: string, short: string) {
    short <= sha && (|short| == 16 || (short == sha && |sha| < 16))
  }

  /** An install is default-deny: what it adds, row and record, is disabled and has no grant; all else
      it takes from the component. */
  lemma InstallEffect(st: Stores, b: InstallBody, storeOk: bool, blobOk: bool)
    ensures var st', id, sha := AfterInstall(st, b, storeOk, blobOk), InstallId(b), b.component.sha256;
            var embedded := b.component.embedded;
            if !b.isEmpty && !Registered(st.order, id) && embedded.Ok? && Installable(embedded.value)
               && storeOk && id !in st.rows
            then
              var m := embedded.value;
              SameRowsBut(st.rows, st'.rows, id) && id in st'.rows
              && st'.rows[id] == Extension(id, m.name, m.version, m.witWorld, m.extensionPoints, m.capabilities, [],
                                           sha, false, b.source, m.frontend, b.createdAt)
              && st'.order == st.order + [ExtensionRecord(id, m, [], sha, b.source, false, b.createdAt)]
              && (forall x :: x in st'.blobs <==> x in st.blobs || (blobOk && x == sha))
            else st' == st
    ensures b.id.Some? ==> InstallId(b) == b.id.value
    ensures b.id.None? ==> exists short :: IsShort(b.component.sha256, short) && InstallId(b) == "ext-" + short
  {
    hide Checked, Installable, Registered;
    InstallPolicy(RequestOf(b));
    if b.id.None? {
      var sha := b.component.sha256;
      assert IsShort(sha, if |sha| < 16 then sha else sha[..16]);
    }
    if Checked(RequestOf(b)).Ok? {
      assert Checked(RequestOf(b)).value.grantedCaps == [] by {
        assert |AsStrs(Checked(RequestOf(b)).value.grantedCaps)| == 0;
      }
    }
  }

  /** One record stands before the other. */
  ghost predicate InOrder(order: seq<ExtensionRecord>, a: ExtensionRecord, b: ExtensionRecord) {
    exists p, q :: 0 <= p < q < |order| && order[p] == a && order[q] == b
  }

  lemma {:induction false} WithoutKeepsOrder(order: seq<ExtensionRecord>, id: string, a: nat, b: nat)
    requires a < b < |Without(order, id)|
    ensures InOrder(order, Without(order, id)[a], Without(order, id)[b])
  {
    var n := |order| - 1;
    var before := Without(order[..n], id);
    if b < |before| {
      WithoutKeepsOrder(order[..n], id, a, b);
      var p, q :| 0 <= p < q < n && order[..n][p] == before[a] && order[..n][q] == before[b];
      assert order[p] == before[a] && order[q] == before[b];
    } else {
      WithoutMembers(order[..n], id);
      assert before[a] in before;
      var p :| 0 <= p < n && order[..n][p] == before[a];
      assert order[p] == before[a] && order[n] == Without(order, id)[b];
    }
  }

  /** A delete takes the row, the records and, if it can, the bytes of one extension, and leaves the
      others as they were, in order. */
  lemma DeleteEffect(st: Stores, id: string, readOk: bool, writeOk: bool, blobOk: bool)
    ensures var st' := AfterDelete(st, id, readOk, writeOk, blobOk);
            if readOk && writeOk && id in st.rows then
              SameRowsBut(st.rows, st'.rows, id) && id !in st'.rows
              && (forall r :: r in st'.order <==> r in st.order && r.id != id)
              && (forall a, b :: 0 <= a < b < |st'.order| ==> InOrder(st.order, st'.order[a], st'.order[b]))
              && (forall x :: x in st'.blobs <==> x in st.blobs && !(blobOk && x == st.rows[id].wasmSha256))
            else st' == st
  {
    hide InOrder, Without;
    var st' := AfterDelete(st, id, readOk, writeOk, blobOk);
    WithoutMembers(st.order, id);
    if readOk && writeOk && id in st.rows {
      forall a, b | 0 <= a < b < |st'.order|
        ensures InOrder(st.order, st'.order[a], st'.order[b])
      {
        WithoutKeepsOrder(st.order, id, a, b);
      }
    }
  }

  /** Enable and disable set the flag of the row and of the record, and nothing else. */
  lemma SetEnabledEffect(st: Stores, id: string, enabled: bool, storeOk: bool)
    ensures var st' := AfterSetEnabled(st, id, enabled, storeOk);
            if storeOk && id in st.rows then
              SameRowsBut(st.rows, st'.rows, id) && SameRecordsBut(st.order, st'.order, id) && st'.blobs == st.blobs
              && id in st'.rows && st'.rows[id] == st.rows[id].(enabled := enabled)
              && forall k :: 0 <= k < |st.order| && st.order[k].id == id ==>
                   st'.order[k] == st.order[k].(enabled := enabled)
            else st' == st
  {
  }

  /** A grant is accepted exactly when row, request and wire strings allow it; then the row and the
      record hold the grant asked for, and nothing else changes. */
  lemma SetGrantsEffect(st: Stores, id: string, caps: seq<string>, readOk: bool, writeOk: bool)
    ensures var st' := AfterSetGrants(st, id, caps, readOk, writeOk);
            if readOk && writeOk && id in st.rows && AllIn(st.rows[id].requestedCaps, WIRE) && AllIn(caps, WIRE)
               && LawfulGrant(st.rows[id].requestedCaps, caps)
            then
              SameRowsBut(st.rows, st'.rows, id) && SameRecordsBut(st.order, st'.order, id) && st'.blobs == st.blobs
              && id in st'.rows && st'.rows[id] == st.rows[id].(grantedCaps := caps)
              && forall k :: 0 <= k < |st.order| && st.order[k].id == id ==>
                   AsStrs(st'.order[k].grantedCaps) == caps
                   && st'.order[k] == st.order[k].(grantedCaps := st'.order[k].grantedCaps)
            else st' == st
  {
    hide LawfulGrant, AllIn, ValidateGrant, ParseCaps, AsStrs;
    if id in st.rows {
      var requested := st.rows[id].requestedCaps;
      ParseCapsOkIff(requested);
      ParseCapsOkIff(caps);
      ParseCapsRoundTrip(caps);
      if ParseCaps(requested).Ok? && ParseCaps(caps).Ok? {
        GrantPolicyOnWire(requested, caps);
      }
    }
  }

  /** Why a grant was refused: the error names a string of the row or of the request that is at fault. */
  lemma GrantRefusalIsFault(row: Extension, caps: seq<string>)
    requires ResolveGrant(row, caps).Err?
    ensures match ResolveGrant(row, caps).error
            case UnknownCap(name) => name !in WIRE && (name in row.requestedCaps || name in caps)
            case GrantRefused(Deferred(c)) => AsStr(c) in caps && !IsAvailable(c)
            case GrantRefused(NotRequested(c)) => AsStr(c) in caps && AsStr(c) !in row.requestedCaps && IsAvailable(c)
            case _ => false
  {
    hide ParseCaps, ValidateGrant, AsStr, IsAvailable;
    if ParseCaps(row.requestedCaps).Err? {
      UnknownName(row.requestedCaps);
    } else if ParseCaps(caps).Err? {
      UnknownName(caps);
    } else {
      GrantRefusal(row.requestedCaps, caps);
    }
  }

  // ---- the two copies in step ----

  /** A registered record and its row agree on identity, exports, requests and grants; it may be
      enabled only if its row is. */
  ghost predicate RowMatches(row: Extension, r: ExtensionRecord) {
    row.id == r.id && row.name == r.manifest.name && row.version == r.manifest.version
    && row.witWorld == r.manifest.witWorld && row.exports == r.manifest.extensionPoints
    && row.requestedCaps == r.manifest.capabilities && row.frontend == r.manifest.frontend
    && row.wasmSha256 == r.wasmSha256 && row.source == r.source && row.createdAt == r.createdAt
    && ParseCaps(row.grantedCaps) == Ok(r.grantedCaps)
    && (r.enabled ==> row.enabled)
  }

  /** Every live grant is available and was requested, or is `log`. */
  ghost predicate GrantsLawful(r: ExtensionRecord) {
    var requested := ParseCaps(r.manifest.capabilities);
    requested.Ok? && forall c :: c in r.grantedCaps ==> IsAvailable(c) && Grantable(requested.value, c)
  }

  ghost predicate RecordCoherent(rows: map<string, Extension>, r: ExtensionRecord) {
    r.id in rows && RowMatches(rows[r.id], r) && GrantsLawful(r)
  }

  ghost predicate Coherent(st: Stores) {
    DistinctIds(st.order) && forall k :: 0 <= k < |st.order| ==> RecordCoherent(st.rows, st.order[k])
  }

  lemma InstallKeeps(st: Stores, b: InstallBody, storeOk: bool, blobOk: bool)
    requires Coherent(st)
    ensures Coherent(AfterInstall(st, b, storeOk, blobOk))
  {
  }

  lemma DeleteKeeps(st: Stores, id: string, readOk: bool, writeOk: bool, blobOk: bool)
    requires Coherent(st)
    ensures Coherent(AfterDelete(st, id, readOk, writeOk, blobOk))
  {
    WithoutMembers(st.order, id);
    WithoutDistinct(st.order, id);
    var w := Without(st.order, id);
    forall k | 0 <= k < |w| ensures w[k].id != id && RecordCoherent(st.rows, w[k]) {
      assert w[k] in w;
      var j :| 0 <= j < |st.order| && st.order[j] == w[k];
      assert RecordCoherent(st.rows, st.order[j]);
    }
  }

  lemma SetEnabledKeeps(st: Stores, id: string, enabled: bool, storeOk: bool)
    requires Coherent(st)
    ensures Coherent(AfterSetEnabled(st, id, enabled, storeOk))
  {
    forall k | 0 <= k < |st.order|
      ensures var st' := AfterSetEnabled(st, id, enabled, storeOk);
              st'.order[k].id == st.order[k].id && RecordCoherent(st'.rows, st'.order[k])
    {
      assert RecordCoherent(st.rows, st.order[k]);
    }
  }

  /** A breaker trip disables in the registry alone; the row keeps its flag. */
  lemma TripKeeps(st: Stores, id: string)
    requires Coherent(st)
    ensures Coherent(st.(order := WithEnabled(st.order, id, false)))
  {
  }

  lemma SetGrantsKeeps(st: Stores, id: string, caps: seq<string>, readOk: bool, writeOk: bool)
    requires Coherent(st)
    ensures Coherent(AfterSetGrants(st, id, caps, readOk, writeOk))
  {
    var st' := AfterSetGrants(st, id, caps, readOk, writeOk);
    if st' != st {
      ParseCapsRoundTrip(caps);
      forall k | 0 <= k < |st.order|
        ensures st'.order[k].id == st.order[k].id && RecordCoherent(st'.rows, st'.order[k])
      {
        assert RecordCoherent(st.rows, st.order[k]);
        if st.order[k].id == id {
          ValidateGrantIff(ParseCaps(st.rows[id].requestedCaps).value, ParseCaps(caps).value);
        }
      }
    }
  }

  // ---- rows and bytes ----

  /** The bytes of every installed extension are stored. */
  ghost predicate Backed(st: Stores) {
    forall id :: id in st.rows ==> st.rows[id].wasmSha256 in st.blobs
  }

  /** An install that fails only to store the bytes leaves its row behind without them, unless they
      were there already. */
  lemma InstallBacksIff(st: Stores, b: InstallBody, storeOk: bool, blobOk: bool)
    requires Backed(st)
    ensures Backed(AfterInstall(st, b, storeOk, blobOk)) <==>
            InstallId(b) !in AfterInstall(st, b, storeOk, blobOk).rows || InstallId(b) in st.rows
            || blobOk || b.component.sha256 in st.blobs
  {
    var st', id := AfterInstall(st, b, storeOk, blobOk), InstallId(b);
    if st' != st {
      assert st'.rows[id].wasmSha256 == b.component.sha256;
      forall x | x in st.rows ensures st'.rows[x] == st.rows[x] && st.rows[x].wasmSha256 in st'.blobs {
      }
    }
  }

  /** The route takes the bytes to be unshared.  They are not when the same component is installed
      under two ids: deleting one then deletes the bytes of the other, and only then. */
  lemma DeleteBacksIff(st: Stores, id: string, readOk: bool, writeOk: bool, blobOk: bool)
    requires Backed(st)
    ensures Backed(AfterDelete(st, id, readOk, writeOk, blobOk)) <==>
            !(readOk && writeOk && blobOk && id in st.rows)
            || forall x :: x in st.rows && x != id ==> st.rows[x].wasmSha256 != st.rows[id].wasmSha256
  {
    var st' := AfterDelete(st, id, readOk, writeOk, blobOk);
    forall x | x in st.rows && x != id ensures x in st'.rows && st'.rows[x] == st.rows[x] {
    }
  }
}
