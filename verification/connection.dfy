/** The connection manager: at most one active transport, and the history of devices
    connected to so far (most recent last, one entry per device id) with a cursor for
    switching between them.

    In the source the active link, the transport's link and the newest history entry are
    one shared object, so metadata applied by the transport shows up in all three. Here
    they are values, and `Deliver` writes the updated link back to each of them; `Valid`
    states that they agree. */
module Connection {
  import opened Wrappers
  import opened Json
  import opened Protocol
  import MqttTransport
  import opened Modular

  datatype Manager = Manager(
    transport: Option<MqttTransport.Transport>,
    active: Option<DeviceLink>,
    hasOnData: bool,
    hasOnMeta: bool,
    known: seq<DeviceLink>,
    index: int)

  /** A manager with no transport, no callbacks and an empty history. */
  function Init(): (m: Manager)
    ensures m.active.None? && m.transport.None? && m.known == [] && DeviceCount(m) == 0
    ensures m.index == -1 && !m.hasOnData
    ensures Valid(m)
  {
    Manager(None, None, false, false, [], -1)
  }

  function DeviceCount(m: Manager): nat
  {
    |m.known|
  }

  predicate IsConnected(m: Manager)
  {
    m.transport.Some? && MqttTransport.IsConnected(m.transport.value)
  }

  /** No two history entries share a device id. */
  predicate UniqueIds(s: seq<DeviceLink>)
  {
    forall i, j :: 0 <= i < j < |s| ==> s[i].id != s[j].id
  }

  /** The manager's invariant: ids unique; the cursor is -1 exactly for an empty history and
      otherwise on an entry; a transport exists exactly when a device is active, and then the
      active link is the transport's and the newest history entry. */
  ghost predicate Valid(m: Manager)
  {
    && UniqueIds(m.known)
    && (|m.known| == 0 <==> m.index == -1)
    && (|m.known| > 0 ==> 0 <= m.index < |m.known|)
    && (m.transport.Some? <==> m.active.Some?)
    && (m.transport.Some? ==>
          m.active.value == m.transport.value.link
          && |m.known| > 0 && m.known[|m.known| - 1] == m.active.value)
  }

  // ---------------------------------------------------------------------------
  // History

  /** The history without the entries for `id`, in their order. */
  function RemoveId(s: seq<DeviceLink>, id: string): (r: seq<DeviceLink>)
    ensures |r| <= |s|
    ensures forall x :: x in r <==> x in s && x.id != id
    ensures UniqueIds(s) ==> UniqueIds(r)
    ensures (forall i :: 0 <= i < |s| ==> s[i].id != id) ==> r == s
  {
    if |s| == 0 then []
    else
      var rest := RemoveId(s[1..], id);
      if s[0].id == id then rest
      else
        KeepFirst(s, id, rest);
        [s[0]] + rest
  }

  /** Keeping the first entry in front of the filtered others keeps the filter's contents
      and the uniqueness of ids. */
  lemma KeepFirst(s: seq<DeviceLink>, id: string, rest: seq<DeviceLink>)
    requires |s| > 0 && s[0].id != id
    requires forall x :: x in rest <==> x in s[1..] && x.id != id
    requires UniqueIds(s[1..]) ==> UniqueIds(rest)
    ensures forall x :: x in [s[0]] + rest <==> x in s && x.id != id
    ensures UniqueIds(s) ==> UniqueIds([s[0]] + rest)
  {
    assert s == [s[0]] + s[1..];
    if UniqueIds(s) {
      KeepFirstUnique(s, rest);
    }
  }

  lemma KeepFirstUnique(s: seq<DeviceLink>, rest: seq<DeviceLink>)
    requires |s| > 0
    requires forall x :: x in rest ==> x in s[1..]
    requires UniqueIds(s[1..]) ==> UniqueIds(rest)
    requires UniqueIds(s)
    ensures UniqueIds([s[0]] + rest)
  {
    assert UniqueIds(s[1..]) by {
      forall i, j | 0 <= i < j < |s[1..]| ensures s[1..][i].id != s[1..][j].id {
        assert s[1..][i] == s[i + 1] && s[1..][j] == s[j + 1];
      }
    }
    forall j | 0 <= j < |rest| ensures rest[j].id != s[0].id {
      assert rest[j] in s[1..];
      var k :| 0 <= k < |s[1..]| && s[1..][k] == rest[j];
      assert s[1..][k] == s[k + 1];
    }
    var r := [s[0]] + rest;
    forall i, j | 0 <= i < j < |r| ensures r[i].id != r[j].id {
      if i == 0 {
        assert r[j] == rest[j - 1];
      } else {
        assert r[i] == rest[i - 1] && r[j] == rest[j - 1];
      }
    }
  }

  /** With unique ids, removing an id that is present takes away exactly one entry. */
  lemma {:induction false} RemoveIdCount(s: seq<DeviceLink>, id: string)
    requires UniqueIds(s)
    ensures (exists i :: 0 <= i < |s| && s[i].id == id) ==> |RemoveId(s, id)| == |s| - 1
    ensures (forall i :: 0 <= i < |s| ==> s[i].id != id) ==> |RemoveId(s, id)| == |s|
  {
    if |s| > 0 {
      RemoveIdCount(s[1..], id);
      if s[0].id == id {
        assert forall i :: 0 <= i < |s[1..]| ==> s[1..][i].id != id by {
          forall i | 0 <= i < |s[1..]| ensures s[1..][i].id != id {
            assert s[1..][i] == s[i + 1];
          }
        }
      } else {
        if exists i :: 0 <= i < |s| && s[i].id == id {
          var i :| 0 <= i < |s| && s[i].id == id;
          assert s[1..][i - 1] == s[i];
        }
      }
    }
  }

  /** `_add_to_history`: drop any entry with the same id, append the link, point at it. */
  function AddToHistory(m: Manager, link: DeviceLink): (r: Manager)
    ensures r.known == RemoveId(m.known, link.id) + [link]
    ensures r.index == |r.known| - 1
    ensures UniqueIds(m.known) ==> UniqueIds(r.known)
    ensures r.(known := m.known, index := m.index) == m
  {
    var rest := RemoveId(m.known, link.id);
    var known := rest + [link];
    assert forall i :: 0 <= i < |rest| ==> rest[i] in rest;
    m.(known := known, index := |known| - 1)
  }

  /** A known id keeps the count; a new id adds one entry. */
  lemma AddToHistoryCount(m: Manager, link: DeviceLink)
    requires UniqueIds(m.known)
    ensures (exists i :: 0 <= i < |m.known| && m.known[i].id == link.id) ==>
              DeviceCount(AddToHistory(m, link)) == DeviceCount(m)
    ensures (forall i :: 0 <= i < |m.known| ==> m.known[i].id != link.id) ==>
              DeviceCount(AddToHistory(m, link)) == DeviceCount(m) + 1
  {
    RemoveIdCount(m.known, link.id);
  }

  // ---------------------------------------------------------------------------
  // Connect and disconnect

  /** `disconnect`: drop the transport and the active device, keep the history. */
  function Disconnect(m: Manager): (r: Manager)
    ensures r.transport.None? && (m.transport.Some? ==> r.active.None?)
    ensures r.known == m.known && r.index == m.index
    ensures r.hasOnData == m.hasOnData && r.hasOnMeta == m.hasOnMeta
    ensures m.transport.None? ==> r == m
  {
    if m.transport.Some? then m.(transport := None, active := None) else m
  }

  lemma DisconnectValid(m: Manager)
    requires Valid(m)
    ensures Valid(Disconnect(m))
    ensures Disconnect(m).active.None?
    ensures Disconnect(Disconnect(m)) == Disconnect(m)
  {
  }

  /** `connect`: record the callbacks, disconnect whatever was active, and then, for an MQTT
      link whose transport connects, make it active and move it to the end of the history. */
  function Connect(m: Manager, link: DeviceLink, withOnMeta: bool, outcome: MqttTransport.BrokerOutcome): (r: (bool, Manager))
    ensures r.0 <==> link.proto == "mqtt" && outcome == MqttTransport.HandshakeDone
    ensures r.1.hasOnData && r.1.hasOnMeta == withOnMeta
    ensures !r.0 ==> r.1.transport.None? && r.1.known == m.known && r.1.index == m.index
    ensures r.0 ==> r.1.active == Some(link) && r.1.transport.Some? && r.1.transport.value.link == link
                    && r.1.known == RemoveId(m.known, link.id) + [link] && r.1.index == |r.1.known| - 1
  {
    var m1 := Disconnect(m.(hasOnData := true, hasOnMeta := withOnMeta));
    if link.proto == "mqtt" then
      var (ok, t) := MqttTransport.Connect(MqttTransport.NewTransport(link), withOnMeta, outcome);
      if ok then (true, AddToHistory(m1.(transport := Some(t), active := Some(link)), link))
      else (false, m1)
    else (false, m1)
  }

  /** Every connect attempt ends with the old device inactive: after a failure nothing is
      active at all. */
  lemma FailedConnectInactive(m: Manager, link: DeviceLink, withOnMeta: bool, outcome: MqttTransport.BrokerOutcome)
    requires Valid(m)
    requires !Connect(m, link, withOnMeta, outcome).0
    ensures Connect(m, link, withOnMeta, outcome).1.active.None?
    ensures !IsConnected(Connect(m, link, withOnMeta, outcome).1)
  {
  }

  lemma ConnectValid(m: Manager, link: DeviceLink, withOnMeta: bool, outcome: MqttTransport.BrokerOutcome)
    requires Valid(m)
    ensures Valid(Connect(m, link, withOnMeta, outcome).1)
  {
    var r := Connect(m, link, withOnMeta, outcome);
    if r.0 {
      var rest := RemoveId(m.known, link.id);
      assert r.1.known[|r.1.known| - 1] == link;
      assert UniqueIds(r.1.known);
    }
  }

  /** After a successful connect the link is the only history entry with its id, and every
      other device that was known still is. */
  lemma ConnectKeepsOthers(m: Manager, link: DeviceLink, withOnMeta: bool, outcome: MqttTransport.BrokerOutcome)
    requires Connect(m, link, withOnMeta, outcome).0
    ensures var known := Connect(m, link, withOnMeta, outcome).1.known;
      && (forall x :: x in known && x.id == link.id ==> x == link)
      && (forall x :: x in m.known && x.id != link.id ==> x in known)
  {
  }

  /** `reconnect_to`: without a data callback from an earlier `connect` nothing happens;
      otherwise it is `connect` with the recorded callbacks. */
  function ReconnectTo(m: Manager, link: DeviceLink, outcome: MqttTransport.BrokerOutcome): (r: (bool, Manager))
    ensures !m.hasOnData ==> r == (false, m)
    ensures m.hasOnData ==> r == Connect(m, link, m.hasOnMeta, outcome)
  {
    if !m.hasOnData then (false, m) else Connect(m, link, m.hasOnMeta, outcome)
  }

  // ---------------------------------------------------------------------------
  // Switching

  /** `switch_next`: with two or more devices, advance the cursor cyclically and return the
      entry under it; otherwise return nothing and change nothing. */
  function SwitchNext(m: Manager): (r: (Option<DeviceLink>, Manager))
    requires Valid(m)
    ensures |m.known| <= 1 ==> r == (None, m)
    ensures |m.known| > 1 ==>
              r.1 == m.(index := (m.index + 1) % |m.known|) && r.0 == Some(m.known[r.1.index])
    ensures Valid(r.1)
  {
    if |m.known| <= 1 then (None, m)
    else
      var i := (m.index + 1) % |m.known|;
      (Some(m.known[i]), m.(index := i))
  }

  /** `switch_prev`: as `switch_next`, one step back; from the first entry it wraps to the last. */
  function SwitchPrev(m: Manager): (r: (Option<DeviceLink>, Manager))
    requires Valid(m)
    ensures |m.known| <= 1 ==> r == (None, m)
    ensures |m.known| > 1 ==>
              r.1 == m.(index := (m.index - 1) % |m.known|) && r.0 == Some(m.known[r.1.index])
    ensures Valid(r.1)
  {
    if |m.known| <= 1 then (None, m)
    else
      var i := (m.index - 1) % |m.known|;
      (Some(m.known[i]), m.(index := i))
  }

  /** The two ends wrap: next from the last entry gives the first, prev from the first gives the last. */
  lemma SwitchWraps(m: Manager)
    requires Valid(m) && |m.known| > 1
    ensures m.index == |m.known| - 1 ==> SwitchNext(m).1.index == 0
    ensures m.index == 0 ==> SwitchPrev(m).1.index == |m.known| - 1
  {
    StepMod(m.index, |m.known|);
  }

  /** Next then prev returns to the same manager. */
  lemma SwitchNextPrev(m: Manager)
    requires Valid(m)
    ensures SwitchPrev(SwitchNext(m).1).1 == m
  {
    if |m.known| > 1 {
      var n := |m.known|;
      StepMod(m.index, n);
      var i := (m.index + 1) % n;
      StepMod(i, n);
    }
  }

  /** `k` steps forward. */
  function NextTimes(m: Manager, k: nat): (r: Manager)
    requires Valid(m)
    ensures Valid(r) && r.known == m.known
  {
    if k == 0 then m else SwitchNext(NextTimes(m, k - 1)).1
  }

  /** Stepping forward `k` times moves the cursor by `k` modulo the history length, so a full
      round of `n` steps comes back to the start: every device is reached. */
  lemma {:induction false} NextTimesIndex(m: Manager, k: nat)
    requires Valid(m) && |m.known| > 1
    ensures NextTimes(m, k) == m.(index := (m.index + k) % |m.known|)
  {
    var n := |m.known|;
    if k == 0 {
      ModUnique(m.index, n, 0, m.index);
    } else {
      NextTimesIndex(m, k - 1);
      var prev := NextTimes(m, k - 1);
      var a := m.index + (k - 1);
      ModSucc(a, n);
      assert prev == m.(index := a % n);
      var j := (prev.index + 1) % n;
      assert j == (m.index + k) % n by {
        assert a + 1 == m.index + k;
      }
      assert NextTimes(m, k) == prev.(index := j);
    }
  }

  // ---------------------------------------------------------------------------
  // Incoming messages

  /** An incoming broker message for the active transport. Metadata changes the shared link,
      so the active device and the newest history entry change with it. Without a transport
      nothing is subscribed and nothing is delivered. */
  function Deliver(m: Manager, topic: string, payload: Option<Object>): (r: (Manager, seq<MqttTransport.Delivery>))
    requires Valid(m)
    ensures Valid(r.0)
    ensures m.transport.None? ==> r == (m, [])
    ensures DeviceCount(r.0) == DeviceCount(m) && r.0.index == m.index
    ensures forall i :: 0 <= i < |m.known| - 1 ==> r.0.known[i] == m.known[i]
    ensures r.0.hasOnData == m.hasOnData && r.0.hasOnMeta == m.hasOnMeta
    ensures m.transport.Some? ==> r.1 == MqttTransport.OnMessage(m.transport.value, topic, payload).1
  {
    match m.transport
    case None => (m, [])
    case Some(t) =>
      var (t', ds) := MqttTransport.OnMessage(t, topic, payload);
      var link := t'.link;
      assert link.id == t.link.id by {
        if payload.Some? && MetaTopic(t.link).Some? && topic == MetaTopic(t.link).value {
          assert link == UpdateFromMetadata(t.link, payload.value);
        }
      }
      var known := m.known[|m.known| - 1 := link];
      assert forall i :: 0 <= i < |known| ==> known[i].id == m.known[i].id;
      (m.(transport := Some(t'), active := Some(link), known := known), ds)
  }

  /** A metadata message is visible through the active device and the history. */
  lemma DeliverMetadata(m: Manager, p: Object)
    requires Valid(m) && m.transport.Some? && MetaTopic(m.active.value).Some?
    ensures var r := Deliver(m, MetaTopic(m.active.value).value, Some(p)).0;
      && r.active == Some(UpdateFromMetadata(m.active.value, p))
      && r.known[|r.known| - 1] == r.active.value
  {
  }
}
