/** The serialising side of QR-Link: a virtual device of the emulator, the link it
    advertises and the retained `$meta` document it publishes. The signal generators and
    the MQTT publishing loop are not part of this model. */
module EmulatorDevice {
  import opened Wrappers
  import opened Text
  import opened Json
  import opened UrlCodec
  import opened Protocol

  /** The configuration fields the serialisers read, and the broker the device publishes to. */
  datatype Device = Device(
    id: string,
    name: string,
    deviceType: string,
    topic: string,
    auth: string,
    refreshMs: int,
    brokerHost: string,
    brokerPort: int)

  const PinHint: string := "Ingrese el PIN del dispositivo"
  const TokenHint: string := "Se requiere token de acceso"

  /** `qrlink://v1/{id}/mqtt/{host}:{port}`, the part of the link that is always present. */
  function BaseUrl(d: Device): string
  {
    Scheme + "v1/" + d.id + "/mqtt/" + d.brokerHost + ":" + IntToString(d.brokerPort)
  }

  /** The query parameters, in insertion order: `auth` unless the method is "open",
      then `t` when the topic is non-empty. */
  function QueryParams(d: Device): (ps: seq<Pair>)
    ensures ("auth", d.auth) in ps <==> d.auth != "open"
    ensures ("t", d.topic) in ps <==> d.topic != ""
    ensures forall i :: 0 <= i < |ps| ==> ps[i] == ("auth", d.auth) || ps[i] == ("t", d.topic)
  {
    var auth := if d.auth != "open" then [("auth", d.auth)] else [];
    var topic := if d.topic != "" then [("t", d.topic)] else [];
    assert d.topic != "" ==> (auth + topic)[|auth|] == ("t", d.topic);
    auth + topic
  }

  /** `get_qrlink_url`: the base, followed by `?` and the encoded parameters when there are any. */
  function QrLinkUrl(d: Device): (url: string)
    ensures BaseUrl(d) <= url
    ensures url == BaseUrl(d) <==> d.auth == "open" && d.topic == ""
    ensures url != BaseUrl(d) ==> url[|BaseUrl(d)|] == '?'
  {
    var params := QueryParams(d);
    if |params| > 0 then
      assert (BaseUrl(d) + "?" + Urlencode(params))[|BaseUrl(d)|] == '?';
      BaseUrl(d) + "?" + Urlencode(params)
    else BaseUrl(d)
  }

  /** The device-side metadata topic; unlike the link's, it is defined for every topic. */
  function DeviceMetaTopic(d: Device): string
  {
    d.topic + "/$meta"
  }

  function AuthHint(auth: string): Option<string>
  {
    if auth == "pin" then Some(PinHint)
    else if auth == "token" then Some(TokenHint)
    else None
  }

  /** `get_metadata`, with the subclass's icon and schema passed in. */
  function Metadata(d: Device, icon: string, schema: Object): (meta: Object)
    ensures Get(meta, "v") == Some(JNum(1.0))
    ensures Get(meta, "id") == Some(JStr(d.id))
    ensures Get(meta, "name") == Some(JStr(d.name))
    ensures Get(meta, "type") == Some(JStr(d.deviceType))
    ensures Get(meta, "icon") == Some(JStr(icon))
    ensures Get(meta, "refresh_ms") == Some(JNum(d.refreshMs as real))
    ensures Get(meta, "layout") == Some(JStr("auto"))
    ensures Get(meta, "schema") == Some(JObj(schema))
    ensures HasKey(meta, "auth_hint") <==> d.auth == "pin" || d.auth == "token"
    ensures d.auth == "pin" ==> Get(meta, "auth_hint") == Some(JStr(PinHint))
    ensures d.auth == "token" ==> Get(meta, "auth_hint") == Some(JStr(TokenHint))
  {
    MetaDocumentGets(d.id, d.name, d.deviceType, icon, d.refreshMs as real, schema, AuthHint(d.auth));
    MetaDocument(d.id, d.name, d.deviceType, icon, d.refreshMs as real, schema, AuthHint(d.auth))
  }

  function HintMembers(hint: Option<string>): Object
  {
    match hint
    case Some(h) => [Member("auth_hint", JStr(h))]
    case None => []
  }

  lemma HintMembersGet(hint: Option<string>)
    ensures DistinctKeys(HintMembers(hint))
    ensures Get(HintMembers(hint), "auth_hint") == match hint case Some(h) => Some(JStr(h)) case None => None
    ensures forall k :: k != "auth_hint" ==> Get(HintMembers(hint), k).None?
  {
    var tail := HintMembers(hint);
    if hint.Some? {
      assert tail[1..] == [];
    }
  }

  /** The eight fixed members of the document, in insertion order. */
  function FixedMembers(id: string, name: string, kind: string, icon: string, refresh: real,
                        schema: Object): Object
  {
    [Member("v", JNum(1.0)), Member("id", JStr(id)), Member("name", JStr(name)),
     Member("type", JStr(kind)), Member("icon", JStr(icon)), Member("refresh_ms", JNum(refresh)),
     Member("layout", JStr("auto")), Member("schema", JObj(schema))]
  }

  /** The document in insertion order: the eight fixed members, then the hint if any. */
  function MetaDocument(id: string, name: string, kind: string, icon: string, refresh: real,
                        schema: Object, hint: Option<string>): Object
  {
    FixedMembers(id, name, kind, icon, refresh, schema) + HintMembers(hint)
  }

  /** Each key of the document reads back as the value it was inserted with. */
  lemma MetaDocumentGets(id: string, name: string, kind: string, icon: string, refresh: real,
                         schema: Object, hint: Option<string>)
    ensures var meta := MetaDocument(id, name, kind, icon, refresh, schema, hint);
      && Get(meta, "v") == Some(JNum(1.0))
      && Get(meta, "id") == Some(JStr(id))
      && Get(meta, "name") == Some(JStr(name))
      && Get(meta, "type") == Some(JStr(kind))
      && Get(meta, "icon") == Some(JStr(icon))
      && Get(meta, "refresh_ms") == Some(JNum(refresh))
      && Get(meta, "layout") == Some(JStr("auto"))
      && Get(meta, "schema") == Some(JObj(schema))
      && Get(meta, "auth_hint") == match hint case Some(h) => Some(JStr(h)) case None => None
  {
    var fixed := FixedMembers(id, name, kind, icon, refresh, schema);
    var meta := MetaDocument(id, name, kind, icon, refresh, schema, hint);
    var tail := HintMembers(hint);
    assert forall j :: 0 <= j < |fixed| ==> meta[j] == fixed[j];
    LeadingKeysGet(meta);
    assert Get(meta, FixedKeys[0]) == Some(meta[0].value);
    assert Get(meta, FixedKeys[1]) == Some(meta[1].value);
    assert Get(meta, FixedKeys[2]) == Some(meta[2].value);
    assert Get(meta, FixedKeys[3]) == Some(meta[3].value);
    assert Get(meta, FixedKeys[4]) == Some(meta[4].value);
    assert Get(meta, FixedKeys[5]) == Some(meta[5].value);
    assert Get(meta, FixedKeys[6]) == Some(meta[6].value);
    assert Get(meta, FixedKeys[7]) == Some(meta[7].value);
    FixedKeysDistinct();
    GetAfter(fixed, tail, "auth_hint");
    HintMembersGet(hint);
  }

  /** In an object that starts with the fixed keys, each of them reads back as its member. */
  lemma LeadingKeysGet(o: Object)
    requires |o| >= |FixedKeys| && forall j :: 0 <= j < |FixedKeys| ==> o[j].key == FixedKeys[j]
    ensures forall i :: 0 <= i < |FixedKeys| ==> Get(o, FixedKeys[i]) == Some(o[i].value)
  {
    FixedKeysDistinct();
    forall i | 0 <= i < |FixedKeys| ensures Get(o, FixedKeys[i]) == Some(o[i].value) {
      GetAt(o, i, FixedKeys[i]);
    }
  }

  /** The metadata document never repeats a key. */
  lemma MetadataDistinct(d: Device, icon: string, schema: Object)
    ensures DistinctKeys(Metadata(d, icon, schema))
  {
    var fixed := FixedMembers(d.id, d.name, d.deviceType, icon, d.refreshMs as real, schema);
    var tail := HintMembers(AuthHint(d.auth));
    HintMembersGet(AuthHint(d.auth));
    FixedKeysDistinct();
    assert forall i :: 0 <= i < |fixed| ==> fixed[i].key == FixedKeys[i];
    var k := 8;
    while k > 0
      invariant 0 <= k <= 8
      invariant DistinctKeys(fixed[k..] + tail)
    {
      var rest := fixed[k..] + tail;
      assert (fixed[k - 1..] + tail)[1..] == rest;
      assert (fixed[k - 1..] + tail)[0] == fixed[k - 1];
      forall j | 0 <= j < |fixed[k..]| ensures fixed[k..][j].key != fixed[k - 1].key {
        assert fixed[k..][j] == fixed[k + j];
      }
      GetAfter(fixed[k..], tail, fixed[k - 1].key);
      k := k - 1;
    }
    assert fixed[0..] == fixed;
  }

  /** The keys of the fixed members, in order. */
  const FixedKeys: seq<string> := ["v", "id", "name", "type", "icon", "refresh_ms", "layout", "schema"]

  lemma FixedKeysDistinct()
    ensures forall i, j :: 0 <= i < j < |FixedKeys| ==> FixedKeys[i] != FixedKeys[j]
    ensures forall i :: 0 <= i < |FixedKeys| ==> FixedKeys[i] != "auth_hint"
  {
    forall i, j | 0 <= i < j < |FixedKeys| ensures FixedKeys[i] != FixedKeys[j] {
      assert |FixedKeys[i]| != |FixedKeys[j]| || FixedKeys[i][0] != FixedKeys[j][0];
    }
  }

  /** A link applied to the device's metadata takes the device's name, type, icon, refresh
      period, layout and schema, and its hint when the device has one. */
  lemma MetadataApplied(l: DeviceLink, d: Device, icon: string, schema: Object)
    ensures var r := UpdateFromMetadata(l, Metadata(d, icon, schema));
      && r.name == JStr(d.name) && r.deviceType == JStr(d.deviceType) && r.icon == JStr(icon)
      && r.refreshMs == JNum(d.refreshMs as real) && r.layout == JStr("auto")
      && r.schema == JObj(schema)
      && r.authHint == (match AuthHint(d.auth) case Some(h) => JStr(h) case None => l.authHint)
  {
  }

  /** For a non-empty topic both sides agree on where the metadata lives. */
  lemma MetaTopicsAgree(d: Device, l: DeviceLink)
    requires d.topic != "" && l.topic == Some(d.topic)
    ensures MetaTopic(l) == Some(DeviceMetaTopic(d))
  {
  }

  // ---------------------------------------------------------------------------
  // Round trip

  /** The shape of the advertised link. */
  function UrlShape(d: Device): Shape
    requires d.brokerPort >= 0
  {
    var params := QueryParams(d);
    Shape("1", d.id, "mqtt", d.brokerHost, NatToString(d.brokerPort),
          if |params| > 0 then Some(Urlencode(params)) else None)
  }

  lemma UrlShapeRenders(d: Device)
    requires d.brokerPort >= 0
    ensures Render(UrlShape(d)) == QrLinkUrl(d)
  {
    var sh := UrlShape(d);
    RenderPieces(Scheme, d.id, d.brokerHost, IntToString(d.brokerPort), QuerySuffix(sh.query));
  }

  lemma RenderPieces(scheme: string, id: string, host: string, port: string, suffix: string)
    ensures scheme + ("v" + "1" + "/" + id + "/" + "mqtt" + "/" + host + ":" + port) + suffix
            == scheme + "v1/" + id + "/mqtt/" + host + ":" + port + suffix
  {
    assert "v" + "1" + "/" == "v1/";
    assert "/" + "mqtt" + "/" == "/mqtt/";
  }

  /** What the parser reads from the encoded parameters. */
  lemma QueryValues(d: Device)
    requires IsAscii(d.auth) && IsAscii(d.topic)
    ensures FirstValue(ParseQsl(Urlencode(QueryParams(d))), "auth")
            == if d.auth != "open" && d.auth != "" then Some(d.auth) else None
    ensures FirstValue(ParseQsl(Urlencode(QueryParams(d))), "t")
            == if d.topic != "" then Some(d.topic) else None
  {
    var params := QueryParams(d);
    assert AsciiPairs(params);
    ParseUrlencode(params);
    var auth := if d.auth != "open" then [("auth", d.auth)] else [];
    var topic := if d.topic != "" then [("t", d.topic)] else [];
    assert params == auth + topic;
    assert NonBlank(topic) == topic;
    if d.auth != "open" {
      assert params[1..] == topic;
    }
  }

  /** Parsing the advertised link gives back the device's id, the "mqtt" proto, the broker
      endpoint, its auth method (or "open" for one the reader does not support) and its topic
      (None for an empty topic). */
  lemma QrLinkRoundTrip(d: Device)
    requires '/' !in d.id && '?' !in d.id && '?' !in d.brokerHost
    requires d.brokerPort >= 0
    requires IsAscii(d.auth) && IsAscii(d.topic)
    ensures Parse(QrLinkUrl(d)).Some?
    ensures var l := Parse(QrLinkUrl(d)).value;
      && l.id == d.id && l.proto == "mqtt" && l.host == d.brokerHost && l.port == d.brokerPort
      && l.auth == (if d.auth in SupportedAuth then d.auth else "open")
      && l.topic == (if d.topic != "" then Some(d.topic) else None)
      && Endpoint(l) == d.brokerHost + ":" + IntToString(d.brokerPort)
  {
    UrlParses(d);
    UrlLink(d);
  }

  /** The fields of the link the advertised shape denotes. */
  lemma UrlLink(d: Device)
    requires '/' !in d.id && '?' !in d.id && '?' !in d.brokerHost
    requires d.brokerPort >= 0
    requires IsAscii(d.auth) && IsAscii(d.topic)
    ensures Admissible(UrlShape(d))
    ensures var l := LinkOf(UrlShape(d));
      && l.id == d.id && l.proto == "mqtt" && l.host == d.brokerHost && l.port == d.brokerPort
      && l.auth == (if d.auth in SupportedAuth then d.auth else "open")
      && l.topic == (if d.topic != "" then Some(d.topic) else None)
      && Endpoint(l) == d.brokerHost + ":" + IntToString(d.brokerPort)
  {
    UrlAdmissible(d);
    DigitsValueToString(d.brokerPort);
    UrlQuery(d);
  }

  lemma UrlQuery(d: Device)
    requires IsAscii(d.auth) && IsAscii(d.topic)
    requires d.brokerPort >= 0
    ensures var q := UrlShape(d).query.GetOr("");
      && QueryAuth(q) == (if d.auth in SupportedAuth then d.auth else "open")
      && QueryTopic(q) == (if d.topic != "" then Some(d.topic) else None)
  {
    var params := QueryParams(d);
    assert UrlShape(d).query.GetOr("") == Urlencode(params);
    QueryValues(d);
    QueryFields(Urlencode(params), d.auth, d.topic);
  }

  lemma QueryFields(q: string, auth: string, topic: string)
    requires FirstValue(ParseQsl(q), "auth") == if auth != "open" && auth != "" then Some(auth) else None
    requires FirstValue(ParseQsl(q), "t") == if topic != "" then Some(topic) else None
    ensures QueryAuth(q) == (if auth in SupportedAuth then auth else "open")
    ensures QueryTopic(q) == (if topic != "" then Some(topic) else None)
  {
    AuthChoice(FirstValue(ParseQsl(q), "auth"), auth);
  }

  lemma AuthChoice(v: Option<string>, auth: string)
    requires v == if auth != "open" && auth != "" then Some(auth) else None
    ensures (if v.GetOr("open") in SupportedAuth then v.GetOr("open") else "open")
         == (if auth in SupportedAuth then auth else "open")
  {
  }

  lemma UrlAdmissible(d: Device)
    requires '/' !in d.id && '?' !in d.id && '?' !in d.brokerHost
    requires d.brokerPort >= 0
    ensures Admissible(UrlShape(d))
  {
    assert ParseNat("1") == Some(1) by {
      assert DigitsValue("1") == 10 * DigitsValue("") + DigitValue('1');
    }
    assert "mqtt" in SupportedProtos;
  }

  lemma UrlParses(d: Device)
    requires '/' !in d.id && '?' !in d.id && '?' !in d.brokerHost
    requires d.brokerPort >= 0
    ensures Admissible(UrlShape(d))
    ensures Parse(QrLinkUrl(d)) == Some(LinkOf(UrlShape(d)))
  {
    var sh := UrlShape(d);
    UrlAdmissible(d);
    UrlShapeRenders(d);
    ParseRender(sh);
  }
}
