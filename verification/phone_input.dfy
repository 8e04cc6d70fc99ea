/** The phone backend's message handling: the event-name table, the translation of one
    decoded WebSocket message into an input event, the size check and sliding-window rate
    limit applied to each raw message of a connection, the bounded event queue, and the
    shapes of the messages sent back to the phone.

    The WebSocket and HTTP server, the threads and the broadcast itself are not modelled.
    A raw message is its length and its `json.loads` result (`None` when it does not decode);
    the monotonic clock is `now`, in milliseconds. */
module PhoneInput {
  import opened Wrappers
  import opened Text
  import opened Json
  import opened Events
  import Deque

  const Source: string := "phone"
  const MaxMessageLength: nat := 4096
  const MaxQrlinkUrlLength: nat := 512
  const MaxAiChatLength: nat := 1024
  const MaxMessagesPerSecond: nat := 30
  const RateWindowMs: nat := 1000
  const QueueCapacity: nat := 64
  const QrScheme: string := "qrlink://"

  // ---------------------------------------------------------------------------
  // Event names

  /** The names the phone may send in an "input" message, and the event each one stands for. */
  const EventMap: map<string, EventType> := map[
    "nav_up" := NavUp, "nav_down" := NavDown, "nav_left" := NavLeft, "nav_right" := NavRight,
    "confirm" := Confirm, "cancel" := Cancel, "home" := Home,
    "digit_up" := DigitUp, "digit_down" := DigitDown, "digit_next" := DigitNext,
    "digit_prev" := DigitPrev, "digit_submit" := DigitSubmit,
    "digit_0" := DigitKey(0), "digit_1" := DigitKey(1), "digit_2" := DigitKey(2),
    "digit_3" := DigitKey(3), "digit_4" := DigitKey(4), "digit_5" := DigitKey(5),
    "digit_6" := DigitKey(6), "digit_7" := DigitKey(7), "digit_8" := DigitKey(8),
    "digit_9" := DigitKey(9), "digit_backspace" := DigitBackspace,
    "alpha_key" := AlphaKey, "alpha_backspace" := AlphaBackspace, "alpha_enter" := AlphaEnter,
    "alpha_shift" := AlphaShift, "biometric_auth" := BiometricAuth,
    "next_device" := NextDevice, "prev_device" := PrevDevice, "scan_qr" := ScanQr, "quit" := Quit]

  /** The table read backwards: the name of each event the phone can send. */
  function EventName(kind: EventType): Option<string>
  {
    match kind
    case NavUp => Some("nav_up")
    case NavDown => Some("nav_down")
    case NavLeft => Some("nav_left")
    case NavRight => Some("nav_right")
    case Confirm => Some("confirm")
    case Cancel => Some("cancel")
    case Home => Some("home")
    case DigitUp => Some("digit_up")
    case DigitDown => Some("digit_down")
    case DigitNext => Some("digit_next")
    case DigitPrev => Some("digit_prev")
    case DigitSubmit => Some("digit_submit")
    case DigitKey(d) => Some(DigitNames[d])
    case DigitBackspace => Some("digit_backspace")
    case AlphaKey => Some("alpha_key")
    case AlphaBackspace => Some("alpha_backspace")
    case AlphaEnter => Some("alpha_enter")
    case AlphaShift => Some("alpha_shift")
    case BiometricAuth => Some("biometric_auth")
    case NextDevice => Some("next_device")
    case PrevDevice => Some("prev_device")
    case ScanQr => Some("scan_qr")
    case Quit => Some("quit")
    case _ => None
  }

  const DigitNames: seq<string> :=
    ["digit_0", "digit_1", "digit_2", "digit_3", "digit_4", "digit_5", "digit_6", "digit_7", "digit_8", "digit_9"]

  /** Every name in the table is the name of the event it maps to. */
  lemma EventMapNamed(name: string)
    requires name in EventMap
    ensures EventName(EventMap[name]) == Some(name)
  {
    if name in NavNames {
      NavNamesNamed(name);
    } else if name in PinNames {
      PinNamesNamed(name);
    } else if name in DigitNameSet {
      DigitNamesNamed(name);
    } else {
      assert name in MiscNames;
      MiscNamesNamed(name);
    }
  }

  const NavNames: set<string> := {"nav_up", "nav_down", "nav_left", "nav_right", "confirm", "cancel", "home"}
  const PinNames: set<string> := {"digit_up", "digit_down", "digit_next", "digit_prev", "digit_submit", "digit_backspace"}
  const DigitNameSet: set<string> :=
    {"digit_0", "digit_1", "digit_2", "digit_3", "digit_4", "digit_5", "digit_6", "digit_7", "digit_8", "digit_9"}
  const MiscNames: set<string> :=
    {"alpha_key", "alpha_backspace", "alpha_enter", "alpha_shift", "biometric_auth",
     "next_device", "prev_device", "scan_qr", "quit"}

  lemma NavNamesNamed(name: string)
    requires name in NavNames
    ensures name in EventMap && EventName(EventMap[name]) == Some(name)
  {
  }

  lemma PinNamesNamed(name: string)
    requires name in PinNames
    ensures name in EventMap && EventName(EventMap[name]) == Some(name)
  {
  }

  lemma DigitNamesNamed(name: string)
    requires name in DigitNameSet
    ensures name in EventMap && EventName(EventMap[name]) == Some(name)
  {
  }

  lemma MiscNamesNamed(name: string)
    requires name in MiscNames
    ensures name in EventMap && EventName(EventMap[name]) == Some(name)
  {
  }

  /** Every named event is in the table under its name. */
  lemma EventNameMapped(kind: EventType)
    requires EventName(kind).Some?
    ensures EventName(kind).value in EventMap && EventMap[EventName(kind).value] == kind
  {
    if kind.DigitKey? {
      DigitKeyMapped(kind.d);
    } else {
      OtherKeyMapped(kind);
    }
  }

  lemma DigitKeyMapped(d: Digit)
    ensures DigitNames[d] in EventMap && EventMap[DigitNames[d]] == DigitKey(d)
  {
    if d < 5 {
      assert d == 0 || d == 1 || d == 2 || d == 3 || d == 4;
    } else {
      assert d == 5 || d == 6 || d == 7 || d == 8 || d == 9;
    }
  }

  lemma OtherKeyMapped(kind: EventType)
    requires EventName(kind).Some? && !kind.DigitKey?
    ensures EventName(kind).value in EventMap && EventMap[EventName(kind).value] == kind
  {
    match kind
    case NavUp => NavKeyMapped(kind);
    case NavDown => NavKeyMapped(kind);
    case NavLeft => NavKeyMapped(kind);
    case NavRight => NavKeyMapped(kind);
    case Confirm => ChoiceKeyMapped(kind);
    case Cancel => ChoiceKeyMapped(kind);
    case Home => ChoiceKeyMapped(kind);
    case DigitUp => PinKeyMapped(kind);
    case DigitDown => PinKeyMapped(kind);
    case DigitNext => PinKeyMapped(kind);
    case DigitPrev => PinEditKeyMapped(kind);
    case DigitSubmit => PinEditKeyMapped(kind);
    case DigitBackspace => PinEditKeyMapped(kind);
    case AlphaKey => AlphaKeyMapped(kind);
    case AlphaBackspace => AlphaKeyMapped(kind);
    case AlphaEnter => AlphaKeyMapped(kind);
    case AlphaShift => AlphaKeyMapped(kind);
    case _ => MiscKeyMapped(kind);
  }

  lemma NavKeyMapped(kind: EventType)
    requires kind in {NavUp, NavDown, NavLeft, NavRight}
    ensures EventName(kind).Some? && EventName(kind).value in EventMap && EventMap[EventName(kind).value] == kind
  {
  }

  lemma ChoiceKeyMapped(kind: EventType)
    requires kind in {Confirm, Cancel, Home}
    ensures EventName(kind).Some? && EventName(kind).value in EventMap && EventMap[EventName(kind).value] == kind
  {
  }

  lemma PinKeyMapped(kind: EventType)
    requires kind in {DigitUp, DigitDown, DigitNext}
    ensures EventName(kind).Some? && EventName(kind).value in EventMap && EventMap[EventName(kind).value] == kind
  {
  }

  lemma PinEditKeyMapped(kind: EventType)
    requires kind in {DigitPrev, DigitSubmit, DigitBackspace}
    ensures EventName(kind).Some? && EventName(kind).value in EventMap && EventMap[EventName(kind).value] == kind
  {
  }

  lemma AlphaKeyMapped(kind: EventType)
    requires kind in {AlphaKey, AlphaBackspace, AlphaEnter, AlphaShift}
    ensures EventName(kind).Some? && EventName(kind).value in EventMap && EventMap[EventName(kind).value] == kind
  {
  }

  lemma MiscKeyMapped(kind: EventType)
    requires EventName(kind).Some?
    requires kind in {BiometricAuth, NextDevice, PrevDevice, ScanQr, Quit}
    ensures EventName(kind).value in EventMap && EventMap[EventName(kind).value] == kind
  {
  }

  /** The table is one-to-one: a name maps to an event exactly when it is that event's name.
      So 32 names stand for 32 different events, and the system events, links and chat
      messages have no name. */
  lemma EventMapBijective(name: string, kind: EventType)
    ensures name in EventMap && EventMap[name] == kind <==> EventName(kind) == Some(name)
  {
    if name in EventMap && EventMap[name] == kind {
      EventMapNamed(name);
    }
    if EventName(kind) == Some(name) {
      EventNameMapped(kind);
    }
  }

  // ---------------------------------------------------------------------------
  // Message translation

  /** The result of `_parse_message`: an event, no event, or an exception (a message that is
      valid JSON of an unexpected shape makes `.get`, `len`, `startswith` or the table lookup
      raise; the exception ends the phone's connection). */
  datatype Parsed = Produced(event: InputEvent) | NoEvent | Raises

  /** `len()` of a JSON value, where Python defines it. */
  function Len(j: Json): Option<nat>
  {
    match j
    case JStr(s) => Some(|s|)
    case JArr(items) => Some(|items|)
    case JObj(members) => Some(|members|)
    case _ => None
  }

  /** What `json.loads` makes of a raw message: a JSON value; a decode error (text that is not
      JSON); or, for a binary message that is not UTF-8, a `UnicodeDecodeError`, which
      `_parse_message` does not catch. */
  datatype Decoded = Value(json: Json) | NotJson | NotUtf8

  /** `_parse_message` on the decoded message. */
  function ParseMessage(data: Decoded): (r: Parsed)
    ensures data.NotJson? ==> r == NoEvent
    ensures data.NotUtf8? ==> r == Raises
    ensures r.Produced? ==> data.Value? && data.json.JObj? && r.event.source == Source
  {
    match data
    case NotJson => NoEvent
    case NotUtf8 => Raises
    case Value(JObj(obj)) =>
      var msgType := Get(obj, "type");
      if msgType == Some(JStr("input")) then ParseInput(obj)
      else if msgType == Some(JStr("qrlink")) then ParseQrlink(GetOr(obj, "url", JStr("")))
      else if msgType == Some(JStr("ai_chat")) then ParseAiChat(GetOr(obj, "message", JStr("")))
      else NoEvent
    case Value(_) => Raises
  }

  /** An "input" message: the event named by "event", carrying "value" (null when absent).
      A list or object as the name cannot be looked up in the table and raises. */
  function ParseInput(obj: Object): (r: Parsed)
    ensures r.Produced? ==> r.event.source == Source
  {
    match GetOr(obj, "event", JStr(""))
    case JStr(name) =>
      if name in EventMap then Produced(InputEvent(EventMap[name], GetOr(obj, "value", JNull), Source))
      else NoEvent
    case JArr(_) => Raises
    case JObj(_) => Raises
    case _ => NoEvent
  }

  /** A "qrlink" message: a URL over 512 characters is rejected; otherwise it becomes an event
      exactly when it starts with the scheme. */
  function ParseQrlink(url: Json): (r: Parsed)
    ensures r.Produced? ==> r.event.source == Source
  {
    match Len(url)
    case None => Raises
    case Some(n) =>
      if n > MaxQrlinkUrlLength then NoEvent
      else match url
        case JStr(u) => if QrScheme <= u then Produced(InputEvent(QrLinkReceived, JStr(u), Source)) else NoEvent
        case _ => Raises
  }

  /** An "ai_chat" message: cut to 1024 elements, then an event unless empty. A dict cannot be
      sliced, so a dict over the limit raises. */
  function ParseAiChat(message: Json): (r: Parsed)
    ensures r.Produced? ==> r.event.source == Source
  {
    match message
    case JStr(s) =>
      var t := Prefix(s, MaxAiChatLength);
      if t != "" then Produced(InputEvent(AiChatMessage, JStr(t), Source)) else NoEvent
    case JArr(items) =>
      var t := if |items| > MaxAiChatLength then items[..MaxAiChatLength] else items;
      if t != [] then Produced(InputEvent(AiChatMessage, JArr(t), Source)) else NoEvent
    case JObj(members) =>
      if |members| > MaxAiChatLength then Raises
      else if members != [] then Produced(InputEvent(AiChatMessage, JObj(members), Source))
      else NoEvent
    case _ => Raises
  }

  /** A named input event comes through with its kind and value; an unknown name gives nothing. */
  lemma InputMessage(obj: Object, name: string)
    requires Get(obj, "type") == Some(JStr("input"))
    requires GetOr(obj, "event", JStr("")) == JStr(name)
    ensures ParseMessage(Value(JObj(obj))).Produced? <==> name in EventMap
    ensures name in EventMap ==>
              ParseMessage(Value(JObj(obj))).event == InputEvent(EventMap[name], GetOr(obj, "value", JNull), Source)
  {
  }

  /** A link message with a text URL gives an event exactly when the URL fits in 512
      characters and starts with the scheme, and the event carries the URL unchanged. */
  lemma QrlinkMessage(obj: Object, url: string)
    requires Get(obj, "type") == Some(JStr("qrlink"))
    requires GetOr(obj, "url", JStr("")) == JStr(url)
    ensures ParseMessage(Value(JObj(obj))).Produced? <==> |url| <= MaxQrlinkUrlLength && QrScheme <= url
    ensures ParseMessage(Value(JObj(obj))).Produced? ==>
              ParseMessage(Value(JObj(obj))).event == InputEvent(QrLinkReceived, JStr(url), Source)
    ensures !ParseMessage(Value(JObj(obj))).Raises?
  {
  }

  /** A chat message with text gives an event exactly when the text is non-empty; the event
      carries the first 1024 characters. */
  lemma AiChatMessageText(obj: Object, text: string)
    requires Get(obj, "type") == Some(JStr("ai_chat"))
    requires GetOr(obj, "message", JStr("")) == JStr(text)
    ensures ParseMessage(Value(JObj(obj))).Produced? <==> text != ""
    ensures text != "" ==> var e := ParseMessage(Value(JObj(obj))).event;
      && e.kind == AiChatMessage && e.value.JStr?
      && |e.value.s| == (if |text| > MaxAiChatLength then MaxAiChatLength else |text|)
      && e.value.s <= text
  {
  }

  /** A message of any other type, or with no type, gives nothing. */
  lemma UnknownTypeIgnored(obj: Object)
    requires Get(obj, "type") !in {Some(JStr("input")), Some(JStr("qrlink")), Some(JStr("ai_chat"))}
    ensures ParseMessage(Value(JObj(obj))) == NoEvent
  {
  }

  /** Well-formed messages (text names, URLs and chat messages) never raise. */
  lemma TextMessagesDoNotRaise(obj: Object)
    requires forall key :: key in ["event", "url", "message"] ==> GetOr(obj, key, JStr("")).JStr?
    ensures !ParseMessage(Value(JObj(obj))).Raises?
  {
    assert GetOr(obj, "event", JStr("")).JStr?;
    assert GetOr(obj, "url", JStr("")).JStr?;
    assert GetOr(obj, "message", JStr("")).JStr?;
  }

  // ---------------------------------------------------------------------------
  // One connection

  /** A raw message as the server hands it over: its length and its decoded content. */
  datatype Frame = Frame(length: nat, decoded: Decoded)

  /** The backend's state as the message path sees it. */
  datatype Phone = Phone(queue: seq<InputEvent>, numericMode: bool, running: bool)

  predicate PhoneValid(p: Phone)
  {
    Deque.Fits(p.queue, QueueCapacity)
  }

  /** A connection's window of accepted-message times, at most 30 of them. */
  predicate WindowValid(times: seq<int>)
  {
    Deque.Fits(times, MaxMessagesPerSecond)
  }

  /** The rate limit: a full window whose oldest entry is less than one second old refuses. */
  predicate RateLimited(times: seq<int>, now: int)
  {
    |times| >= MaxMessagesPerSecond && now - times[0] < RateWindowMs
  }

  datatype StepResult = StepResult(phone: Phone, times: seq<int>, open: bool)

  /** One iteration of the connection handler's loop. An oversize message is dropped before
      anything else and does not count; a rate-limited one is dropped and not recorded; any
      other is recorded and parsed, and its event, if any, is queued. A message that raises
      closes the connection. */
  function HandleFrame(p: Phone, times: seq<int>, f: Frame, now: int): (r: StepResult)
    requires PhoneValid(p) && WindowValid(times)
    ensures PhoneValid(r.phone) && WindowValid(r.times)
    ensures f.length > MaxMessageLength ==> r == StepResult(p, times, true)
    ensures f.length <= MaxMessageLength && RateLimited(times, now) ==> r == StepResult(p, times, true)
    ensures f.length <= MaxMessageLength && !RateLimited(times, now) ==>
              r.times == Deque.Push(times, now, MaxMessagesPerSecond)
  {
    if f.length > MaxMessageLength then StepResult(p, times, true)
    else if RateLimited(times, now) then StepResult(p, times, true)
    else
      var times' := Deque.Push(times, now, MaxMessagesPerSecond);
      match ParseMessage(f.decoded)
      case Produced(e) => StepResult(p.(queue := Deque.Push(p.queue, e, QueueCapacity)), times', true)
      case NoEvent => StepResult(p, times', true)
      case Raises => StepResult(p, times', false)
  }

  /** What the handler does with a message that passes both checks: its event, if any, is
      queued, and the queue keeps the 64 newest events. */
  lemma HandleFrameQueues(p: Phone, times: seq<int>, f: Frame, now: int)
    requires PhoneValid(p) && WindowValid(times)
    requires f.length <= MaxMessageLength && !RateLimited(times, now)
    ensures var r := HandleFrame(p, times, f, now);
      && (ParseMessage(f.decoded).Produced? ==>
            r.phone.queue == Deque.Push(p.queue, ParseMessage(f.decoded).event, QueueCapacity) && r.open)
      && (ParseMessage(f.decoded).NoEvent? ==> r.phone == p && r.open)
      && (ParseMessage(f.decoded).Raises? ==> r.phone == p && !r.open)
  {
  }

  /** A binary message that is not UTF-8 passes the size and rate checks and is recorded,
      then closes the connection: `json.loads` raises an error `_parse_message` does not
      catch. A message that is not JSON is recorded and the connection stays open. */
  lemma UndecodableFrames(p: Phone, times: seq<int>, f: Frame, now: int)
    requires PhoneValid(p) && WindowValid(times)
    requires f.length <= MaxMessageLength && !RateLimited(times, now)
    ensures f.decoded.NotUtf8? ==>
      HandleFrame(p, times, f, now) == StepResult(p, Deque.Push(times, now, MaxMessagesPerSecond), false)
    ensures f.decoded.NotJson? ==>
      HandleFrame(p, times, f, now) == StepResult(p, Deque.Push(times, now, MaxMessagesPerSecond), true)
  {
  }

  /** Times from a monotonic clock: never decreasing and never after `now`. */
  predicate Monotonic(times: seq<int>, now: int)
  {
    (forall i, j :: 0 <= i < j < |times| ==> times[i] <= times[j])
    && (forall i :: 0 <= i < |times| ==> times[i] <= now)
  }

  /** The rate limit keeps its promise: whenever a message is accepted on a full window, the
      31 accepted messages ending with it span at least one second; and with monotonic times
      the window stays sorted. */
  lemma RateLimitSpacing(p: Phone, times: seq<int>, f: Frame, now: int)
    requires PhoneValid(p) && WindowValid(times) && Monotonic(times, now)
    requires f.length <= MaxMessageLength && !RateLimited(times, now)
    ensures |times| == MaxMessagesPerSecond ==> now - times[0] >= RateWindowMs
    ensures Monotonic(HandleFrame(p, times, f, now).times, now)
  {
    var t' := HandleFrame(p, times, f, now).times;
    if |times| == MaxMessagesPerSecond {
      assert t' == times[1..] + [now];
      assert forall i :: 0 <= i < |t'| - 1 ==> t'[i] == times[i + 1];
    } else {
      assert t' == times + [now];
    }
  }

  // ---------------------------------------------------------------------------
  // Backend interface

  function Init(): (p: Phone)
    ensures p.queue == [] && !p.numericMode && !p.running && !IsAvailable(p) && PhoneValid(p)
  {
    Phone([], false, false)
  }

  predicate IsAvailable(p: Phone)
  {
    p.running
  }

  function Start(p: Phone): (r: Phone)
    ensures IsAvailable(r) && r.queue == p.queue
  {
    p.(running := true)
  }

  function Stop(p: Phone): (r: Phone)
    ensures !IsAvailable(r) && r.queue == p.queue
  {
    p.(running := false)
  }

  /** `poll`: the oldest queued event, whether or not the server is running. */
  function Poll(p: Phone): (r: (Option<InputEvent>, Phone))
    ensures r.0.None? <==> p.queue == []
    ensures r.0.Some? ==> [r.0.value] + r.1.queue == p.queue
    ensures r.1.numericMode == p.numericMode && r.1.running == p.running
  {
    var (e, q) := Deque.Pop(p.queue);
    (e, p.(queue := q))
  }

  // ---------------------------------------------------------------------------
  // Messages to the phone

  /** Setting numeric mode stores it and announces `{"type": "mode", "numeric": b}`. */
  function SetNumericMode(p: Phone, enabled: bool): (r: (Phone, Object))
    ensures r.0 == p.(numericMode := enabled)
    ensures Get(r.1, "type") == Some(JStr("mode")) && Get(r.1, "numeric") == Some(JBool(enabled))
    ensures DistinctKeys(r.1)
  {
    ConsLaws();
    var tail := [Member("numeric", JBool(enabled))] + [];
    var msg := [Member("type", JStr("mode"))] + tail;
    assert tail[1..] == [] && msg[1..] == tail;
    assert Get(msg, "type") == Some(JStr("mode"));
    assert Get(msg, "numeric") == Get(tail, "numeric") == Some(JBool(enabled));
    assert DistinctKeys(tail[1..]) && Get(tail[1..], "numeric").None? && DistinctKeys(tail);
    assert Get(msg[1..], "type").None?;
    (p.(numericMode := enabled), msg)
  }

  /** `send_state(state, **kwargs)`: `{"type": "state", "state": state}` updated with the
      keyword arguments, which win over the two fixed keys. */
  function StateMessage(state: string, kwargs: Object): (msg: Object)
    requires DistinctKeys(kwargs)
    ensures forall k :: HasKey(kwargs, k) ==> Get(msg, k) == Get(kwargs, k)
    ensures !HasKey(kwargs, "type") ==> Get(msg, "type") == Some(JStr("state"))
    ensures !HasKey(kwargs, "state") ==> Get(msg, "state") == Some(JStr(state))
    ensures forall k :: k != "type" && k != "state" && !HasKey(kwargs, k) ==> !HasKey(msg, k)
  {
    ConsLaws();
    Update([Member("type", JStr("state"))] + ([Member("state", JStr(state))] + []), kwargs)
  }

  /** `send_ai_response`. */
  function AiResponseMessage(message: string): (msg: Object)
    ensures Get(msg, "type") == Some(JStr("ai_response")) && Get(msg, "message") == Some(JStr(message))
  {
    ConsLaws();
    [Member("type", JStr("ai_response"))] + ([Member("message", JStr(message))] + [])
  }

  /** `send_device_list`. */
  function DeviceListMessage(devices: seq<Object>, selected: int, activeId: string): (msg: Object)
    ensures Get(msg, "type") == Some(JStr("device_list"))
    ensures Get(msg, "devices") == Some(JArr(seq(|devices|, i requires 0 <= i < |devices| => JObj(devices[i]))))
    ensures Get(msg, "selected") == Some(JNum(selected as real))
    ensures Get(msg, "active") == Some(JStr(activeId))
  {
    var items := seq(|devices|, i requires 0 <= i < |devices| => JObj(devices[i]));
    ConsLaws();
    [Member("type", JStr("device_list"))] + ([Member("devices", JArr(items))]
    + ([Member("selected", JNum(selected as real))] + ([Member("active", JStr(activeId))] + [])))
  }
}
