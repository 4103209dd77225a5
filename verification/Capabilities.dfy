/** The host capability vocabulary and the grant policy. */
module Capabilities {
  import opened Wrappers

  datatype Capability = Log | StoreRead | HttpFetch | StoreWrite | SecretsRead | Kv | EmitEvent

  datatype GrantError = NotRequested(cap: Capability) | Deferred(cap: Capability)

  function AsStr(c: Capability): string {
    match c
    case Log => "log"
    case StoreRead => "store-read"
    case HttpFetch => "http-fetch"
    case StoreWrite => "store-write"
    case SecretsRead => "secrets-read"
    case Kv => "kv"
    case EmitEvent => "emit-event"
  }

  function Parse(s: string): Result<Capability, string> {
    if s == "log" then Ok(Log)
    else if s == "store-read" then Ok(StoreRead)
    else if s == "http-fetch" then Ok(HttpFetch)
    else if s == "store-write" then Ok(StoreWrite)
    else if s == "secrets-read" then Ok(SecretsRead)
    else if s == "kv" then Ok(Kv)
    else if s == "emit-event" then Ok(EmitEvent)
    else Err(s)
  }

  predicate IsAvailable(c: Capability) {
    c.Log? || c.StoreRead? || c.HttpFetch?
  }

  predicate IsAlwaysGranted(c: Capability) {
    c.Log?
  }

  /** All of the wire strings, or the first unknown one. */
  function ParseCaps(caps: seq<string>): Result<seq<Capability>, string> {
    if caps == [] then Ok([])
    else
      match Parse(caps[0])
      case Err(unknown) => Err(unknown)
      case Ok(c) =>
        match ParseCaps(caps[1..])
        case Err(unknown) => Err(unknown)
        case Ok(rest) => Ok([c] + rest)
  }

  function AsStrs(caps: seq<Capability>): seq<string> {
    seq(|caps|, i requires 0 <= i < |caps| => AsStr(caps[i]))
  }

  function ValidateGrant(requested: seq<Capability>, granted: seq<Capability>): Result<(), GrantError> {
    if granted == [] then Ok(())
    else if IsAlwaysGranted(granted[0]) then ValidateGrant(requested, granted[1..])
    else if !IsAvailable(granted[0]) then Err(Deferred(granted[0]))
    else if granted[0] !in requested then Err(NotRequested(granted[0]))
    else ValidateGrant(requested, granted[1..])
  }

  /** What an admin may grant. */
  predicate Grantable(requested: seq<Capability>, c: Capability) {
    c == Log || (IsAvailable(c) && c in requested)
  }

  /** The policy accepts exactly the grants within requested plus `log`, none of them deferred;
      otherwise it names the first offender. */
  lemma {:induction false} ValidateGrantIff(requested: seq<Capability>, granted: seq<Capability>)
    ensures var v := ValidateGrant(requested, granted);
            match v
            case Ok(_) => forall c :: c in granted ==> Grantable(requested, c)
            case Err(e) =>
              (e.Deferred? <==> !IsAvailable(e.cap))
              && exists i :: 0 <= i < |granted| && granted[i] == e.cap && !Grantable(requested, e.cap)
                             && forall j :: 0 <= j < i ==> Grantable(requested, granted[j])
  {
    if granted != [] {
      ValidateGrantIff(requested, granted[1..]);
      var v := ValidateGrant(requested, granted);
      if !Grantable(requested, granted[0]) {
        assert granted[0] == v.error.cap;
      } else if v.Err? {
        var i :| 0 <= i < |granted[1..]| && granted[1..][i] == v.error.cap
                 && forall j :: 0 <= j < i ==> Grantable(requested, granted[1..][j]);
        assert granted[i + 1] == v.error.cap;
        assert forall j :: 0 < j < i + 1 ==> granted[j] == granted[1..][j - 1];
      }
    }
  }

  /** The wire strings in use; the first three are available. */
  const WIRE := ["log", "store-read", "http-fetch", "store-write", "secrets-read", "kv", "emit-event"]

  lemma WireIs(s: string)
    ensures Parse(s).Ok? <==> s in WIRE
    ensures Parse(s).Ok? ==> (IsAvailable(Parse(s).value) <==> s in WIRE[..3])
    ensures Parse(s) == Ok(Log) <==> s == "log"
  {
    assert WIRE[..3] == ["log", "store-read", "http-fetch"];
  }

  ghost predicate AllIn(caps: seq<string>, known: seq<string>) {
    forall c :: c in caps ==> c in known
  }

  lemma {:induction false} ParseCapsOkIff(caps: seq<string>)
    ensures ParseCaps(caps).Ok? <==> AllIn(caps, WIRE)
    ensures ParseCaps(caps).Ok? ==>
              var cs := ParseCaps(caps).value;
              |cs| == |caps| && forall i :: 0 <= i < |caps| ==> Parse(caps[i]) == Ok(cs[i])
  {
    hide Parse;
    if caps != [] {
      ParseCapsOkIff(caps[1..]);
      WireIs(caps[0]);
      assert caps == [caps[0]] + caps[1..];
    }
  }

  /** A grant, in wire strings: every one is `log`, or was requested and is available. */
  ghost predicate LawfulGrant(requested: seq<string>, granted: seq<string>) {
    forall c :: c in granted ==> c == "log" || (c in requested && c in WIRE[..3])
  }

  /** The grant policy on wire strings: accepted exactly when every string is known and the grant is
      lawful. */
  lemma GrantPolicyOnWire(requested: seq<string>, granted: seq<string>)
    requires ParseCaps(requested).Ok? && ParseCaps(granted).Ok?
    ensures ValidateGrant(ParseCaps(requested).value, ParseCaps(granted).value).Ok? <==> LawfulGrant(requested, granted)
  {
    hide Parse, ParseCaps, ValidateGrant, IsAvailable;
    var rs, gs := ParseCaps(requested).value, ParseCaps(granted).value;
    ValidateGrantIff(rs, gs);
    ParseCapsOkIff(requested);
    ParseCapsOkIff(granted);
    forall i | 0 <= i < |granted|
      ensures gs[i] in gs && granted[i] in granted
      ensures Grantable(rs, gs[i]) <==> granted[i] == "log" || (granted[i] in requested && granted[i] in WIRE[..3])
    {
      WireIs(granted[i]);
      ParseSame(requested, rs, granted[i], gs[i]);
    }
    assert ValidateGrant(rs, gs).Ok? <==> forall c :: c in gs ==> Grantable(rs, c);
  }

  /** Equal capabilities have equal wire strings. */
  lemma ParseSame(caps: seq<string>, cs: seq<Capability>, s: string, c: Capability)
    requires |cs| == |caps| && forall i :: 0 <= i < |caps| ==> Parse(caps[i]) == Ok(cs[i])
    requires Parse(s) == Ok(c)
    ensures c in cs <==> s in caps
  {
    if c in cs {
      var i :| 0 <= i < |cs| && cs[i] == c;
      assert caps[i] == s;
    }
  }

  /** The wire string `i` is unknown and none before it is. */
  predicate FirstUnknown(caps: seq<string>, i: int, u: string) {
    0 <= i < |caps| && caps[i] == u && Parse(u).Err? && forall j :: 0 <= j < i ==> Parse(caps[j]).Ok?
  }

  /** Wire strings and capabilities correspond one to one: what parses prints back, and a list that
      does not parse is reported by its first unknown string ... */
  lemma {:induction false} ParseCapsRoundTrip(caps: seq<string>)
    ensures var p := ParseCaps(caps);
            match p
            case Ok(cs) => AsStrs(cs) == caps
            case Err(u) => exists i :: FirstUnknown(caps, i, u)
  {
    if caps != [] {
      ParseCapsRoundTrip(caps[1..]);
      if ParseCaps(caps).Ok? {
        assert AsStrs(ParseCaps(caps).value) == [caps[0]] + caps[1..];
      } else if Parse(caps[0]).Err? {
        assert FirstUnknown(caps, 0, caps[0]);
      } else {
        var u := ParseCaps(caps).error;
        var i :| FirstUnknown(caps[1..], i, u);
        assert forall j :: 0 < j <= i ==> caps[j] == caps[1..][j - 1];
        assert FirstUnknown(caps, i + 1, u);
      }
    }
  }

  /** ... and what is printed parses back. */
  lemma {:induction false} PrintCapsRoundTrip(caps: seq<Capability>)
    ensures ParseCaps(AsStrs(caps)) == Ok(caps)
    decreases caps
  {
    if caps != [] {
      PrintCapsRoundTrip(caps[1..]);
      assert AsStrs(caps)[1..] == AsStrs(caps[1..]);
      assert Parse(AsStr(caps[0])) == Ok(caps[0]);
      assert [caps[0]] + caps[1..] == caps;
    }
  }
}
