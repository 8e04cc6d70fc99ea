/** The QR-Link descriptor format:
      qrlink://v1/{id}/{proto}/{host}:{port}[?auth={auth}&t={topic}]
    `Parse` runs the parser's fail-closed checks in the parser's order; `Render` and
    `Admissible` describe the accepted language independently, and the two lemmas at the
    end of the module show that the parser accepts exactly that language. */
module Protocol {
  import opened Wrappers
  import opened Text
  import opened Json
  import opened UrlCodec

  const Scheme: string := "qrlink://"
  const SupportedProtos: set<string> := {"mqtt", "http", "ws", "ble", "mdns"}
  const SupportedAuth: set<string> := {"open", "pin", "token", "mtls", "mfa"}
  const ProtocolVersion: int := 1

  /** A parsed device descriptor. The fields after `topic` are filled in from the device's
      `$meta` document; they hold whatever JSON value the device sent. */
  datatype DeviceLink = DeviceLink(
    version: int,
    id: string,
    proto: string,
    host: string,
    port: int,
    auth: string,
    topic: Option<string>,
    name: Json,
    deviceType: Json,
    icon: Json,
    refreshMs: Json,
    layout: Json,
    authHint: Json,
    schema: Json)

  const DefaultRefreshMs: Json := JNum(2000.0)
  const DefaultLayout: Json := JStr("auto")
  const DefaultSchema: Json := JObj([])

  /** A link as the dataclass constructor builds it: metadata at the field defaults. */
  function NewLink(version: int, id: string, proto: string, host: string, port: int,
                   auth: string, topic: Option<string>): DeviceLink
  {
    DeviceLink(version, id, proto, host, port, auth, topic,
               JNull, JNull, JNull, DefaultRefreshMs, DefaultLayout, JNull, DefaultSchema)
  }

  /** No metadata has been applied yet. */
  predicate Fresh(l: DeviceLink)
  {
    l.name == JNull && l.deviceType == JNull && l.icon == JNull && l.refreshMs == DefaultRefreshMs
    && l.layout == DefaultLayout && l.authHint == JNull && l.schema == DefaultSchema
  }

  /** `host:port`; splitting it at its last colon gives back the host and the port text. */
  function Endpoint(l: DeviceLink): (e: string)
    ensures ':' in e
    ensures SplitLast(e, ':') == (l.host, IntToString(l.port))
    ensures l.port >= 0 ==> ParseNat(SplitLast(e, ':').1) == Some(l.port)
  {
    var portText := IntToString(l.port);
    NoColonInNumber(l.port);
    SplitLastConcat(l.host, ':', portText);
    ParseNatToString(if l.port >= 0 then l.port else 0);
    l.host + ":" + portText
  }

  lemma NoColonInNumber(n: int)
    ensures ':' !in IntToString(n)
  {
    var digits := NatToString(if n < 0 then -n else n);
    forall i | 0 <= i < |digits| ensures digits[i] != ':' {
      assert IsDigit(digits[i]);
    }
  }

  /** The retained metadata topic: present exactly when the link has a non-empty topic. */
  function MetaTopic(l: DeviceLink): (r: Option<string>)
    ensures r.Some? <==> l.topic.Some? && l.topic.value != ""
    ensures r.Some? ==> r.value == l.topic.value + "/$meta"
  {
    match l.topic
    case Some(t) => if t != "" then Some(t + "/$meta") else None
    case None => None
  }

  /** The metadata topic is never the data topic, so the two kinds of message can be told apart. */
  lemma MetaTopicNotDataTopic(l: DeviceLink)
    requires MetaTopic(l).Some?
    ensures MetaTopic(l).value != l.topic.value
  {
    assert |MetaTopic(l).value| > |l.topic.value|;
  }

  /** `update_from_metadata`: every metadata key present in `meta` overwrites its field,
      every absent key leaves its field alone, and the identity fields never change. */
  function UpdateFromMetadata(l: DeviceLink, meta: Object): (r: DeviceLink)
    ensures r.version == l.version && r.id == l.id && r.proto == l.proto && r.host == l.host
            && r.port == l.port && r.auth == l.auth && r.topic == l.topic
    ensures HasKey(meta, "name") ==> r.name == Get(meta, "name").value
    ensures !HasKey(meta, "name") ==> r.name == l.name
    ensures HasKey(meta, "type") ==> r.deviceType == Get(meta, "type").value
    ensures !HasKey(meta, "type") ==> r.deviceType == l.deviceType
    ensures HasKey(meta, "icon") ==> r.icon == Get(meta, "icon").value
    ensures !HasKey(meta, "icon") ==> r.icon == l.icon
    ensures HasKey(meta, "refresh_ms") ==> r.refreshMs == Get(meta, "refresh_ms").value
    ensures !HasKey(meta, "refresh_ms") ==> r.refreshMs == l.refreshMs
    ensures HasKey(meta, "layout") ==> r.layout == Get(meta, "layout").value
    ensures !HasKey(meta, "layout") ==> r.layout == l.layout
    ensures HasKey(meta, "auth_hint") ==> r.authHint == Get(meta, "auth_hint").value
    ensures !HasKey(meta, "auth_hint") ==> r.authHint == l.authHint
    ensures HasKey(meta, "schema") ==> r.schema == Get(meta, "schema").value
    ensures !HasKey(meta, "schema") ==> r.schema == l.schema
  {
    l.(name := GetOr(meta, "name", l.name),
       deviceType := GetOr(meta, "type", l.deviceType),
       icon := GetOr(meta, "icon", l.icon),
       refreshMs := GetOr(meta, "refresh_ms", l.refreshMs),
       layout := GetOr(meta, "layout", l.layout),
       authHint := GetOr(meta, "auth_hint", l.authHint),
       schema := GetOr(meta, "schema", l.schema))
  }

  /** Applying the same metadata twice is the same as applying it once. */
  lemma UpdateFromMetadataIdempotent(l: DeviceLink, meta: Object)
    ensures UpdateFromMetadata(UpdateFromMetadata(l, meta), meta) == UpdateFromMetadata(l, meta)
  {
  }

  /** Two metadata messages in a row act like one message holding their dict merge. */
  lemma UpdateFromMetadataCompose(l: DeviceLink, m1: Object, m2: Object)
    requires DistinctKeys(m2)
    ensures UpdateFromMetadata(UpdateFromMetadata(l, m1), m2) == UpdateFromMetadata(l, Update(m1, m2))
  {
    GetOrMerge(m1, m2, "name", l.name);
    GetOrMerge(m1, m2, "type", l.deviceType);
    GetOrMerge(m1, m2, "icon", l.icon);
    GetOrMerge(m1, m2, "refresh_ms", l.refreshMs);
    GetOrMerge(m1, m2, "layout", l.layout);
    GetOrMerge(m1, m2, "auth_hint", l.authHint);
    GetOrMerge(m1, m2, "schema", l.schema);
  }

  lemma GetOrMerge(m1: Object, m2: Object, key: string, x: Json)
    requires DistinctKeys(m2)
    ensures GetOr(m2, key, GetOr(m1, key, x)) == GetOr(Update(m1, m2), key, x)
  {
  }

  // ---------------------------------------------------------------------------
  // Parsing

  /** The text before the first `?`. */
  function PathPart(rest: string): (p: string)
    ensures '?' !in p
  {
    match SplitFirst(rest, '?')
    case None => rest
    case Some(pq) => pq.0
  }

  /** The text after the first `?`, if there is one. */
  function QueryPart(rest: string): Option<string>
  {
    match SplitFirst(rest, '?')
    case None => None
    case Some(pq) => Some(pq.1)
  }

  /** The `auth` query value: the first one given, "open" when absent, and coerced to "open"
      when it is not a supported method. */
  function QueryAuth(query: string): (a: string)
    ensures a in SupportedAuth
  {
    var a := FirstValue(ParseQsl(query), "auth").GetOr("open");
    if a in SupportedAuth then a else "open"
  }

  /** The `t` query value: the first one given, None when absent. */
  function QueryTopic(query: string): Option<string>
  {
    FirstValue(ParseQsl(query), "t")
  }

  /** `parse_qrlink_url`: None for anything that is not a well-formed version-1 link. */
  function Parse(raw: string): (r: Option<DeviceLink>)
    ensures r.Some? ==> Scheme <= raw
    ensures r.Some? ==> r.value.version == ProtocolVersion && r.value.proto in SupportedProtos
                        && r.value.auth in SupportedAuth && r.value.port >= 0 && Fresh(r.value)
    ensures r.Some? ==> '/' !in r.value.id
  {
    if !(Scheme <= raw) then None
    else
      var rest := raw[|Scheme|..];
      var segments := Split(PathPart(rest), '/');
      if |segments| < 4 then None
      else ParseSegments(segments, QueryPart(rest).GetOr(""))
  }

  /** The checks on the path segments `v{n}`, id, proto and endpoint, in the parser's order. */
  function ParseSegments(segments: seq<string>, query: string): (r: Option<DeviceLink>)
    requires |segments| >= 4
    ensures r.Some? ==> r.value.version == ProtocolVersion && r.value.proto in SupportedProtos
                        && r.value.auth in SupportedAuth && r.value.port >= 0 && Fresh(r.value)
    ensures r.Some? ==> r.value.id == segments[1] && r.value.proto == segments[2]
  {
    if !("v" <= segments[0]) then None
    else if ParseNat(segments[0][1..]) != Some(ProtocolVersion) then None
    else if segments[2] !in SupportedProtos then None
    else
      var endpoint := Join(segments[3..], '/');
      if ':' !in endpoint then None
      else
        var hostPort := SplitLast(endpoint, ':');
        match ParseNat(hostPort.1)
        case None => None
        case Some(port) =>
          Some(NewLink(ProtocolVersion, segments[1], segments[2], hostPort.0, port,
                       QueryAuth(query), QueryTopic(query)))
  }

  lemma JoinParts(parts: seq<string>, c: char)
    requires |parts| >= 4
    ensures Join(parts, c) == parts[0] + [c] + parts[1] + [c] + parts[2] + [c] + Join(parts[3..], c)
  {
    var p1 := parts[1..];
    var p2 := parts[2..];
    assert p1[0] == parts[1] && p1[1..] == p2;
    assert p2[0] == parts[2] && p2[1..] == parts[3..];
    assert Join(p2, c) == parts[2] + [c] + Join(parts[3..], c);
    assert Join(p1, c) == parts[1] + [c] + Join(p2, c);
    assert Join(parts, c) == parts[0] + [c] + Join(p1, c);
  }

  // ---------------------------------------------------------------------------
  // The accepted language

  /** The textual pieces of a link: version digits, id, proto, host, port digits and query. */
  datatype Shape = Shape(ver: string, id: string, proto: string, host: string, port: string,
                         query: Option<string>)

  function QuerySuffix(q: Option<string>): string
  {
    match q
    case None => ""
    case Some(s) => "?" + s
  }

  function PathOf(sh: Shape): string
  {
    "v" + sh.ver + "/" + sh.id + "/" + sh.proto + "/" + sh.host + ":" + sh.port
  }

  function Render(sh: Shape): string
  {
    Scheme + PathOf(sh) + QuerySuffix(sh.query)
  }

  /** The shapes whose rendering is a valid link: version number 1, an id free of `/` and
      `?`, a supported proto, a host free of `?` and a decimal port. */
  predicate Admissible(sh: Shape)
  {
    ParseNat(sh.ver) == Some(ProtocolVersion)
    && '/' !in sh.id && '?' !in sh.id
    && sh.proto in SupportedProtos
    && '?' !in sh.host
    && |sh.port| > 0 && AllDigits(sh.port)
  }

  /** The link an admissible shape denotes. */
  function LinkOf(sh: Shape): DeviceLink
    requires Admissible(sh)
  {
    var q := sh.query.GetOr("");
    NewLink(ProtocolVersion, sh.id, sh.proto, sh.host, DigitsValue(sh.port), QueryAuth(q), QueryTopic(q))
  }

  lemma DigitsExclude(s: string, ch: char)
    requires AllDigits(s) && !IsDigit(ch)
    ensures ch !in s
  {
    forall i | 0 <= i < |s| ensures s[i] != ch {
      assert IsDigit(s[i]);
    }
  }

  lemma ProtoExcludes(proto: string)
    requires proto in SupportedProtos
    ensures '/' !in proto && '?' !in proto
  {
    assert proto == "mqtt" || proto == "http" || proto == "ws" || proto == "ble" || proto == "mdns";
  }

  /** Every admissible shape renders to a link the parser accepts, with the denoted fields. */
  lemma ParseRender(sh: Shape)
    requires Admissible(sh)
    ensures Parse(Render(sh)) == Some(LinkOf(sh))
  {
    var raw := Render(sh);
    var path := PathOf(sh);
    var rest := path + QuerySuffix(sh.query);
    assert raw == Scheme + rest;
    assert raw[|Scheme|..] == rest;
    PathOfSplit(sh);
    match sh.query {
      case None =>
        assert rest == path;
      case Some(q) =>
        assert rest == path + ['?'] + q;
        SplitFirstConcat(path, '?', q);
    }
    assert PathPart(rest) == path;
    assert QueryPart(rest) == sh.query;
    ParseSegmentsOf(sh);
  }

  /** The path of an admissible shape has no `?` and splits into `v{ver}`, id, proto and the
      pieces of the endpoint. */
  lemma PathOfSplit(sh: Shape)
    requires Admissible(sh)
    ensures '?' !in PathOf(sh)
    ensures Split(PathOf(sh), '/') == ["v" + sh.ver, sh.id, sh.proto] + Split(sh.host + ":" + sh.port, '/')
  {
    PathOfPieces(sh);
    ProtoExcludes(sh.proto);
    DigitsExclude(sh.ver, '/');
    assert "v" + sh.ver == ['v'] + sh.ver;
    SplitThree("v" + sh.ver, sh.id, sh.proto, sh.host + ":" + sh.port, '/');
  }

  lemma SplitThree(a: string, b: string, c: string, d: string, sep: char)
    requires sep !in a && sep !in b && sep !in c
    ensures Split(a + [sep] + (b + [sep] + (c + [sep] + d)), sep) == [a, b, c] + Split(d, sep)
  {
    var t2 := c + [sep] + d;
    var t1 := b + [sep] + t2;
    var x := Split(d, sep);
    SplitCons(c, sep, d);
    assert Split(t2, sep) == [c] + x;
    SplitCons(b, sep, t2);
    assert Split(t1, sep) == [b] + ([c] + x);
    SplitCons(a, sep, t1);
    assert Split(a + [sep] + t1, sep) == [a] + ([b] + ([c] + x));
    ConsThree(a, b, c, x);
  }

  lemma ConsThree<T>(a: T, b: T, c: T, x: seq<T>)
    ensures [a] + ([b] + ([c] + x)) == [a, b, c] + x
  {
    var l := [a] + ([b] + ([c] + x));
    var r := [a, b, c] + x;
    assert |l| == |r|;
    forall i | 0 <= i < |l|
      ensures l[i] == r[i]
    {
      if i >= 3 {
        assert l[i] == x[i - 3];
      }
    }
  }

  lemma PathOfPieces(sh: Shape)
    requires Admissible(sh)
    ensures PathOf(sh) == ("v" + sh.ver) + ['/'] + (sh.id + ['/'] + (sh.proto + ['/'] + (sh.host + ":" + sh.port)))
    ensures '?' !in PathOf(sh)
  {
    DigitsExclude(sh.ver, '?');
    DigitsExclude(sh.port, '?');
    ProtoExcludes(sh.proto);
    var p := PathOf(sh);
    assert p == ['v'] + sh.ver + ['/'] + sh.id + ['/'] + sh.proto + ['/'] + sh.host + [':'] + sh.port;
  }

  lemma ParseSegmentsOf(sh: Shape)
    requires Admissible(sh)
    ensures ParseSegments(["v" + sh.ver, sh.id, sh.proto] + Split(sh.host + ":" + sh.port, '/'),
                          sh.query.GetOr("")) == Some(LinkOf(sh))
  {
    var endpoint := sh.host + ":" + sh.port;
    var segments := ["v" + sh.ver, sh.id, sh.proto] + Split(endpoint, '/');
    assert segments[3..] == Split(endpoint, '/');
    JoinSplit(endpoint, '/');
    assert segments[0][1..] == sh.ver;
    DigitsExclude(sh.port, ':');
    assert endpoint == sh.host + [':'] + sh.port;
    SplitLastConcat(sh.host, ':', sh.port);
  }

  /** The shape a successfully parsed link was read from. */
  function ShapeOf(raw: string): Shape
    requires Parse(raw).Some?
  {
    var rest := raw[|Scheme|..];
    ShapeOfParts(Split(PathPart(rest), '/'), QueryPart(rest))
  }

  function ShapeOfParts(segments: seq<string>, query: Option<string>): Shape
    requires |segments| >= 4 && ':' in Join(segments[3..], '/') && "v" <= segments[0]
  {
    var hostPort := SplitLast(Join(segments[3..], '/'), ':');
    Shape(segments[0][1..], segments[1], segments[2], hostPort.0, hostPort.1, query)
  }

  /** Re-rendering the pieces gives back the joined segments. */
  lemma ShapeOfPartsPath(segments: seq<string>, query: Option<string>)
    requires |segments| >= 4 && ':' in Join(segments[3..], '/') && "v" <= segments[0]
    ensures PathOf(ShapeOfParts(segments, query)) == Join(segments, '/')
  {
    var sh := ShapeOfParts(segments, query);
    JoinParts(segments, '/');
    assert segments[0] == ['v'] + sh.ver;
    Assemble(segments[0], sh.ver, sh.id, sh.proto, Join(segments[3..], '/'), sh.host, sh.port);
  }

  lemma Assemble(s0: string, ver: string, id: string, proto: string, endpoint: string,
                 host: string, port: string)
    requires s0 == ['v'] + ver && endpoint == host + [':'] + port
    ensures s0 + ['/'] + id + ['/'] + proto + ['/'] + endpoint
            == "v" + ver + "/" + id + "/" + proto + "/" + host + ":" + port
  {
  }

  lemma PathOfExcludes(sh: Shape)
    requires '?' !in PathOf(sh)
    ensures '?' !in sh.id && '?' !in sh.host
  {
    assert PathOf(sh) == (("v" + sh.ver + "/") + sh.id) + ("/" + sh.proto + "/") + sh.host + (":" + sh.port);
  }

  /** What a successful parse establishes about the pieces of the input. */
  lemma ParseFacts(raw: string)
    requires Parse(raw).Some?
    ensures Scheme <= raw
    ensures var segments := Split(PathPart(raw[|Scheme|..]), '/');
      && |segments| >= 4 && "v" <= segments[0]
      && ParseNat(segments[0][1..]) == Some(ProtocolVersion)
      && segments[2] in SupportedProtos
      && ':' in Join(segments[3..], '/')
      && ParseNat(SplitLast(Join(segments[3..], '/'), ':').1).Some?
  {
  }

  /** Every link the parser accepts is the rendering of an admissible shape, and the
      parsed fields are the ones that shape denotes. */
  lemma RenderShapeOf(raw: string)
    requires Parse(raw).Some?
    ensures Admissible(ShapeOf(raw))
    ensures Render(ShapeOf(raw)) == raw
    ensures Parse(raw) == Some(LinkOf(ShapeOf(raw)))
  {
    ParseFacts(raw);
    var rest := raw[|Scheme|..];
    var path := PathPart(rest);
    var segments := Split(path, '/');
    var sh := ShapeOfParts(segments, QueryPart(rest));
    assert sh == ShapeOf(raw);
    RenderParts(raw, segments, sh);
  }

  lemma RenderParts(raw: string, segments: seq<string>, sh: Shape)
    requires Scheme <= raw
    requires segments == Split(PathPart(raw[|Scheme|..]), '/')
    requires |segments| >= 4 && "v" <= segments[0] && ':' in Join(segments[3..], '/')
    requires ParseNat(segments[0][1..]) == Some(ProtocolVersion) && segments[2] in SupportedProtos
    requires ParseNat(SplitLast(Join(segments[3..], '/'), ':').1).Some?
    requires sh == ShapeOfParts(segments, QueryPart(raw[|Scheme|..]))
    ensures Admissible(sh) && Render(sh) == raw
  {
    RenderPartsText(raw, segments, sh);
    RenderPartsAdmissible(raw, segments, sh);
  }

  lemma RenderPartsText(raw: string, segments: seq<string>, sh: Shape)
    requires Scheme <= raw
    requires segments == Split(PathPart(raw[|Scheme|..]), '/')
    requires |segments| >= 4 && "v" <= segments[0] && ':' in Join(segments[3..], '/')
    requires ParseNat(segments[0][1..]) == Some(ProtocolVersion) && segments[2] in SupportedProtos
    requires ParseNat(SplitLast(Join(segments[3..], '/'), ':').1).Some?
    requires sh == ShapeOfParts(segments, QueryPart(raw[|Scheme|..]))
    ensures Render(sh) == raw
  {
    var rest := raw[|Scheme|..];
    var path := PathPart(rest);
    PartsPath(raw, segments, sh);
    assert raw == Scheme + rest;
    RestParts(rest);
    assert sh.query == QueryPart(rest);
    ConcatAssoc(Scheme, path, QuerySuffix(sh.query));
  }

  lemma RenderPartsAdmissible(raw: string, segments: seq<string>, sh: Shape)
    requires Scheme <= raw
    requires segments == Split(PathPart(raw[|Scheme|..]), '/')
    requires |segments| >= 4 && "v" <= segments[0] && ':' in Join(segments[3..], '/')
    requires ParseNat(segments[0][1..]) == Some(ProtocolVersion) && segments[2] in SupportedProtos
    requires ParseNat(SplitLast(Join(segments[3..], '/'), ':').1).Some?
    requires sh == ShapeOfParts(segments, QueryPart(raw[|Scheme|..]))
    ensures Admissible(sh)
  {
    PartsPath(raw, segments, sh);
    PathOfExcludes(sh);
    assert '/' !in segments[1];
  }

  /** The shape's path is the path part of the link it was read from. */
  lemma PartsPath(raw: string, segments: seq<string>, sh: Shape)
    requires Scheme <= raw
    requires segments == Split(PathPart(raw[|Scheme|..]), '/')
    requires |segments| >= 4 && "v" <= segments[0] && ':' in Join(segments[3..], '/')
    requires ParseNat(segments[0][1..]) == Some(ProtocolVersion) && segments[2] in SupportedProtos
    requires ParseNat(SplitLast(Join(segments[3..], '/'), ':').1).Some?
    requires sh == ShapeOfParts(segments, QueryPart(raw[|Scheme|..]))
    ensures PathOf(sh) == PathPart(raw[|Scheme|..])
  {
    JoinSplit(PathPart(raw[|Scheme|..]), '/');
    ShapeOfPartsPath(segments, sh.query);
  }

  lemma ConcatAssoc<T>(a: seq<T>, b: seq<T>, c: seq<T>)
    ensures a + b + c == a + (b + c)
  {
  }

  /** The text around the first `?` puts the rest of the link back together. */
  lemma RestParts(rest: string)
    ensures rest == PathPart(rest) + QuerySuffix(QueryPart(rest))
  {
    var r := SplitFirst(rest, '?');
    if r.Some? {
      var pq := r.value;
      assert PathPart(rest) == pq.0;
      assert QueryPart(rest) == Some(pq.1);
      assert QuerySuffix(Some(pq.1)) == ['?'] + pq.1;
      assert rest == pq.0 + ['?'] + pq.1;
    } else {
      assert PathPart(rest) == rest;
      assert QuerySuffix(QueryPart(rest)) == [];
    }
  }
}
