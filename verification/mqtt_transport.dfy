/** The decision logic of the MQTT transport for one device link: the connect sequence,
    the subscriptions it makes, the connected flag kept by the broker callbacks, and the
    routing of incoming messages. The broker is not modelled: what it does during
    `connect` is the `BrokerOutcome` argument, and each incoming message arrives already
    decoded (`None` when the payload is not valid UTF-8 JSON). */
module MqttTransport {
  import opened Wrappers
  import opened Json
  import opened Protocol

  /** What happens when the client talks to the broker during `connect`. */
  datatype BrokerOutcome =
    | ConnectRaises     // the socket connect raised ConnectionRefusedError or OSError
    | HandshakeTimeout  // no successful CONNACK within the timeout
    | HandshakeDone     // the broker answered with rc = 0 in time

  datatype Subscription = Subscription(topic: string, qos: nat)

  /** `hasClient` stands for `_client is not None`; `connected` and `metaReceived` for the two
      events; the callback flags say whether a data and a metadata callback are registered. */
  datatype Transport = Transport(
    link: DeviceLink,
    hasClient: bool,
    connected: bool,
    metaReceived: bool,
    hasDataCallback: bool,
    hasMetaCallback: bool,
    subscriptions: seq<Subscription>)

  /** A callback invocation. A metadata callback also records the link as it was when the
      callback ran, that is, after the metadata had been applied to it. */
  datatype Delivery =
    | MetaDelivered(payload: Object, linkSeen: DeviceLink)
    | DataDelivered(payload: Object)

  function NewTransport(link: DeviceLink): (t: Transport)
    ensures t.link == link && !t.hasClient && !t.connected && !t.metaReceived
    ensures !t.hasDataCallback && !t.hasMetaCallback && t.subscriptions == []
  {
    Transport(link, false, false, false, false, false, [])
  }

  predicate IsConnected(t: Transport)
  {
    t.connected
  }

  /** What `connect` subscribes to after the handshake: the retained metadata topic first
      (QoS 1), then the data topic (QoS 0), each only when the link has a topic. */
  function Subscriptions(link: DeviceLink): (subs: seq<Subscription>)
    ensures link.topic.Some? && link.topic.value != "" ==>
              subs == [Subscription(MetaTopic(link).value, 1), Subscription(link.topic.value, 0)]
    ensures !(link.topic.Some? && link.topic.value != "") ==> subs == []
  {
    var meta := match MetaTopic(link) case Some(mt) => [Subscription(mt, 1)] case None => [];
    var data := match link.topic case Some(t) => if t != "" then [Subscription(t, 0)] else [] case None => [];
    meta + data
  }

  /** The two subscriptions are to different topics. */
  lemma SubscriptionsDistinct(link: DeviceLink)
    ensures var subs := Subscriptions(link);
      forall i, j :: 0 <= i < j < |subs| ==> subs[i].topic != subs[j].topic
  {
    if MetaTopic(link).Some? {
      MetaTopicNotDataTopic(link);
    }
  }

  /** `connect`: register the callbacks and make a new client, then
      - a raising socket connect gives false (the new client stays assigned);
      - a handshake timeout disconnects and gives false;
      - a completed handshake subscribes and gives true, whether or not the metadata
        arrives during the wait that follows. */
  function Connect(t: Transport, withMetaCallback: bool, outcome: BrokerOutcome): (r: (bool, Transport))
    ensures r.0 <==> outcome == HandshakeDone
    ensures r.1.link == t.link
    ensures r.1.hasDataCallback && r.1.hasMetaCallback == withMetaCallback
    ensures outcome == ConnectRaises ==> r.1.hasClient && r.1.subscriptions == [] && r.1.connected == t.connected
    ensures outcome == HandshakeTimeout ==> !r.1.hasClient && r.1.subscriptions == []
    ensures outcome == HandshakeDone ==>
              r.1.hasClient && IsConnected(r.1) && r.1.subscriptions == Subscriptions(t.link)
    ensures r.1.metaReceived == t.metaReceived
  {
    var t1 := t.(hasDataCallback := true, hasMetaCallback := withMetaCallback,
                 hasClient := true, subscriptions := []);
    match outcome
    case ConnectRaises => (false, t1)
    case HandshakeTimeout => (false, Disconnect(t1))
    case HandshakeDone => (true, t1.(connected := true, subscriptions := Subscriptions(t.link)))
  }

  /** `disconnect`: stop and drop the client, if there is one. */
  function Disconnect(t: Transport): (r: Transport)
    ensures !r.hasClient && r.subscriptions == (if t.hasClient then [] else t.subscriptions)
    ensures r.(hasClient := t.hasClient, subscriptions := t.subscriptions) == t
  {
    if t.hasClient then t.(hasClient := false, subscriptions := []) else t
  }

  /** A second `disconnect` does nothing. */
  lemma DisconnectIdempotent(t: Transport)
    ensures Disconnect(Disconnect(t)) == Disconnect(t)
    ensures !t.hasClient ==> Disconnect(t) == t
  {
  }

  /** `_on_connect`: only a zero return code marks the transport connected. */
  function OnConnect(t: Transport, rc: int): (r: Transport)
    ensures IsConnected(r) <==> rc == 0 || IsConnected(t)
    ensures r.(connected := t.connected) == t
  {
    if rc == 0 then t.(connected := true) else t
  }

  /** `_on_disconnect`: clears the connected flag whatever the return code. */
  function OnDisconnect(t: Transport, rc: int): (r: Transport)
    ensures !IsConnected(r)
    ensures r.(connected := t.connected) == t
  {
    t.(connected := false)
  }

  /** `_on_message`. An undecodable payload is dropped. A message on the metadata topic is
      applied to the link, then handed to the metadata callback (if any), then marks the
      metadata as received; one on the data topic goes to the data callback (if any);
      anything else is ignored. */
  function OnMessage(t: Transport, topic: string, payload: Option<Object>): (r: (Transport, seq<Delivery>))
    ensures payload.None? ==> r == (t, [])
    ensures |r.1| <= 1
    ensures r.0.(link := t.link, metaReceived := t.metaReceived) == t
  {
    match payload
    case None => (t, [])
    case Some(p) =>
      if MetaTopic(t.link).Some? && topic == MetaTopic(t.link).value then
        var link := UpdateFromMetadata(t.link, p);
        (t.(link := link, metaReceived := true), if t.hasMetaCallback then [MetaDelivered(p, link)] else [])
      else if t.link.topic == Some(topic) then
        (t, if t.hasDataCallback then [DataDelivered(p)] else [])
      else (t, [])
  }

  /** A metadata message updates the link before the callback sees it and marks the metadata
      as received; it never reaches the data callback. */
  lemma MetaMessageRouting(t: Transport, p: Object)
    requires MetaTopic(t.link).Some?
    ensures var (t', ds) := OnMessage(t, MetaTopic(t.link).value, Some(p));
      && t'.link == UpdateFromMetadata(t.link, p) && t'.metaReceived
      && (t.hasMetaCallback <==> ds == [MetaDelivered(p, t'.link)])
      && (!t.hasMetaCallback <==> ds == [])
  {
  }

  /** A data message changes nothing and reaches only the data callback. */
  lemma DataMessageRouting(t: Transport, p: Object)
    requires t.link.topic.Some?
    ensures var (t', ds) := OnMessage(t, t.link.topic.value, Some(p));
      && t' == t
      && (t.hasDataCallback <==> ds == [DataDelivered(p)])
      && (!t.hasDataCallback <==> ds == [])
  {
    if MetaTopic(t.link).Some? {
      MetaTopicNotDataTopic(t.link);
    }
  }

  /** A message on any other topic is ignored. */
  lemma OtherTopicIgnored(t: Transport, topic: string, payload: Option<Object>)
    requires MetaTopic(t.link).None? || topic != MetaTopic(t.link).value
    requires t.link.topic != Some(topic)
    ensures OnMessage(t, topic, payload) == (t, [])
  {
  }

  /** Once `connect` has succeeded, only subscribed topics ever produce a callback. Topic
      names are at least one character long (section 4.7.3 of MQTT 3.1.1). */
  lemma DeliveriesFromSubscriptions(t: Transport, withMeta: bool, topic: string, payload: Option<Object>)
    requires topic != ""
    ensures var t1 := Connect(t, withMeta, HandshakeDone).1;
      |OnMessage(t1, topic, payload).1| > 0 ==>
        exists i :: 0 <= i < |t1.subscriptions| && t1.subscriptions[i].topic == topic
  {
    var t1 := Connect(t, withMeta, HandshakeDone).1;
    if |OnMessage(t1, topic, payload).1| > 0 {
      if MetaTopic(t1.link).Some? && topic == MetaTopic(t1.link).value {
        assert t1.subscriptions[0].topic == topic;
      } else {
        assert t1.link.topic == Some(topic);
        assert t1.subscriptions[1].topic == topic;
      }
    }
  }
}
