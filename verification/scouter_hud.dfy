/** The application controller: a state machine over scanning, PIN entry, connecting,
    streaming, the device list and the error screen. Each input event is handled by the
    handler of the current state; the one broker handshake an event may start is decided by
    the explicit `outcome`, and the monotonic clock the PIN gate reads is the explicit `now`.
    The display is reduced to the choice of screen `Render` makes; the data lock, the frame
    pacing and the logging are not modelled. */
module ScouterHud {
  import opened Wrappers
  import opened Json
  import opened Events
  import opened Protocol
  import AuthManager
  import PinEntry
  import Connection
  import InputManager
  import MqttTransport
  import Renderer

  datatype AppState = Scanning | Auth | Connecting | Streaming | DeviceList | Error

  /** The controller's fields; `inputs` are the input manager's backends. */
  datatype Hud = Hud(
    state: AppState,
    latest: Option<Object>,
    running: bool,
    errorMsg: string,
    errorReturn: AppState,
    pin: Option<PinEntry.Entry>,
    pending: Option<DeviceLink>,
    listIndex: int,
    auth: AuthManager.Manager,
    conn: Connection.Manager,
    inputs: seq<InputManager.Backend>)

  const PinLength: nat := 4

  /** Every backend that has a numeric-mode switch has it set to `on`. */
  predicate NumericModeIs(bs: seq<InputManager.Backend>, on: bool)
  {
    forall i :: 0 <= i < |bs| && bs[i].hasNumericMode ==> bs[i].numericMode == on
  }

  /** The invariants of the parts, whatever the state: every transport was connected with
      the data callback, and every error returns to scanning. */
  ghost predicate PartsValid(h: Hud)
  {
    && Connection.Valid(h.conn)
    && AuthManager.Valid(h.auth)
    && h.errorReturn == Scanning
    && (h.conn.transport.Some? ==> h.conn.transport.value.hasDataCallback)
  }

  /** The controller's invariant between two events: the PIN entry and the pending link
      exist exactly in the PIN state, and only then are the backends in numeric mode; the
      connecting state never outlasts the call that entered it; the device list is shown
      only with a selection on a known device; streaming and the device list have an active
      device. */
  ghost predicate Valid(h: Hud)
  {
    && PartsValid(h)
    && h.state != Connecting
    && (h.state == Auth <==> h.pin.Some?)
    && (h.pin.Some? <==> h.pending.Some?)
    && (h.pin.Some? ==> PinEntry.Valid(h.pin.value) && h.pin.value.pinLength == PinLength)
    && (h.pending.Some? ==> AuthManager.NeedsAuth(h.pending.value))
    && NumericModeIs(h.inputs, h.state == Auth)
    && (h.state == DeviceList ==> 0 <= h.listIndex < Connection.DeviceCount(h.conn))
    && (h.state == Streaming || h.state == DeviceList ==> h.conn.active.Some?)
  }

  /** A controller between two connection attempts: outside the PIN state's data. */
  ghost predicate Idle(h: Hud)
  {
    PartsValid(h) && h.pin.None? && h.pending.None? && NumericModeIs(h.inputs, false)
  }

  /** `__init__`: scanning, running, no data, no PIN entry, the first list row, an auth
      manager without configured PINs and a connection manager without devices. The
      backends are as constructed, not yet in numeric mode. */
  function Init(inputs: seq<InputManager.Backend>): (h: Hud)
    requires NumericModeIs(inputs, false)
    ensures Valid(h)
    ensures h.state == Scanning && h.running && h.latest.None? && h.errorMsg == ""
    ensures h.errorReturn == Scanning && h.pin.None? && h.pending.None? && h.listIndex == 0
    ensures h.conn.active.None? && Connection.DeviceCount(h.conn) == 0 && h.inputs == inputs
    ensures h.auth.configPins == map[]
  {
    Hud(Scanning, None, true, "", Scanning, None, None, 0, AuthManager.NewManager(map[]), Connection.Init(), inputs)
  }

  // ---------------------------------------------------------------------------
  // Connection flow

  function ConnectError(link: DeviceLink): string
  {
    "Cannot connect to " + Endpoint(link) + ". Is the broker running?"
  }

  /** `_show_error`. */
  function ShowError(h: Hud, msg: string, returnState: AppState): (r: Hud)
    ensures r.state == Error && r.errorMsg == msg && r.errorReturn == returnState
    ensures r.(state := h.state, errorMsg := h.errorMsg, errorReturn := h.errorReturn) == h
  {
    h.(errorMsg := msg, errorReturn := returnState, state := Error)
  }

  /** `_do_connect`: a connect with both callbacks; success streams with no data yet,
      failure shows the broker error and returns to scanning. */
  function DoConnect(h: Hud, link: DeviceLink, outcome: MqttTransport.BrokerOutcome): (r: Hud)
    requires Idle(h)
    ensures Valid(r)
    ensures r.state == Streaming <==> link.proto == "mqtt" && outcome == MqttTransport.HandshakeDone
    ensures r.state == Streaming ==> r.latest.None? && r.conn.active == Some(link)
    ensures r.state != Streaming ==>
              r.state == Error && r.errorMsg == ConnectError(link) && r.errorReturn == Scanning
              && r.conn.active.None? && r.latest == h.latest
    ensures r.conn == Connection.Connect(h.conn, link, true, outcome).1
    ensures r.running == h.running && r.auth == h.auth && r.inputs == h.inputs && r.listIndex == h.listIndex
  {
    Connection.ConnectValid(h.conn, link, true, outcome);
    var (ok, c) := Connection.Connect(h.conn, link, true, outcome);
    if ok then h.(conn := c, state := Streaming, latest := None)
    else ShowError(h.(conn := c), ConnectError(link), Scanning)
  }

  /** `_initiate_connection`: a device that needs authentication gets a four-digit PIN
      entry titled with its name (or id), the backends switch to numeric mode and no
      connection is attempted; any other device is connected at once. */
  function InitiateConnection(h: Hud, link: DeviceLink, outcome: MqttTransport.BrokerOutcome): (r: Hud)
    requires Idle(h)
    ensures Valid(r)
    ensures AuthManager.NeedsAuth(link) ==>
              r.state == Auth && r.pending == Some(link)
              && r.pin == Some(PinEntry.Init(PinLength, Renderer.Title(link)))
              && NumericModeIs(r.inputs, true) && r.conn == h.conn && r.auth == h.auth
    ensures !AuthManager.NeedsAuth(link) ==> r == DoConnect(h, link, outcome)
  {
    if AuthManager.NeedsAuth(link) then
      var bs := InputManager.SetNumericMode(h.inputs, true);
      h.(pending := Some(link), pin := Some(PinEntry.Init(PinLength, Renderer.Title(link))),
         state := Auth, inputs := bs)
    else DoConnect(h, link, outcome)
  }

  // ---------------------------------------------------------------------------
  // Event handling

  /** `_handle_event`: QUIT stops the loop in every state; otherwise the handler of the
      current state, and none for scanning or connecting. */
  function HandleEvent(h: Hud, e: InputEvent, now: nat, outcome: MqttTransport.BrokerOutcome): (r: Hud)
    requires Valid(h)
    ensures Valid(r)
    ensures e.kind == Quit ==> r == h.(running := false)
    ensures e.kind != Quit ==> r.running == h.running
  {
    if e.kind == Quit then h.(running := false)
    else
      match h.state
      case Auth => HandleAuth(h, e, now, outcome)
      case Streaming => HandleStreaming(h, e, outcome)
      case DeviceList => HandleDeviceList(h, e, outcome)
      case Error => HandleError(h, e)
      case _ => h
  }

  /** `_handle_auth_event`: the PIN entry takes the event; a cancel leaves for scanning, a
      finished PIN is validated, and a valid one clears the PIN state and connects while an
      invalid one restarts the entry with the gate's message. */
  function HandleAuth(h: Hud, e: InputEvent, now: nat, outcome: MqttTransport.BrokerOutcome): (r: Hud)
    requires Valid(h)
    ensures Valid(r)
    ensures r.running == h.running
  {
    if h.pin.None? || h.pending.None? then h
    else
      var pe := PinEntry.HandleEvent(h.pin.value, e.kind);
      var link := h.pending.value;
      if PinEntry.WasCancelled(pe) then
        LeaveAuthValid(h, h.auth);
        h.(inputs := InputManager.SetNumericMode(h.inputs, false), pin := None, pending := None, state := Scanning)
      else if PinEntry.IsDone(pe) then
        AuthManager.ValidatePinValid(h.auth, link, PinEntry.PinValue(pe), now);
        var (res, a) := AuthManager.ValidatePin(h.auth, link, PinEntry.PinValue(pe), now);
        if res.success then
          LeaveAuthValid(h, a);
          DoConnect(h.(auth := a, inputs := InputManager.SetNumericMode(h.inputs, false), pin := None, pending := None),
                    link, outcome)
        else
          StayInAuthValid(h, a, PinEntry.SetError(pe, res.error));
          h.(auth := a, pin := Some(PinEntry.SetError(pe, res.error)))
      else
        StayInAuthValid(h, h.auth, pe);
        h.(pin := Some(pe))
  }

  /** Leaving the PIN state with a valid auth manager: the controller is idle, and valid once
      it is back to scanning. */
  lemma LeaveAuthValid(h: Hud, a: AuthManager.Manager)
    requires Valid(h) && AuthManager.Valid(a)
    ensures var h' := h.(auth := a, inputs := InputManager.SetNumericMode(h.inputs, false), pin := None, pending := None);
      Idle(h') && (a == h.auth ==> Valid(h.(inputs := h'.inputs, pin := None, pending := None, state := Scanning)))
  {
  }

  /** Staying in the PIN state with a valid entry of the same length and a valid auth
      manager keeps the invariant. */
  lemma StayInAuthValid(h: Hud, a: AuthManager.Manager, pe: PinEntry.Entry)
    requires Valid(h) && h.pin.Some? && AuthManager.Valid(a)
    requires PinEntry.Valid(pe) && pe.pinLength == PinLength
    ensures Valid(h.(auth := a, pin := Some(pe)))
  {
  }

  /** `_handle_streaming_event`: next and previous switch and start the connection flow
      for the device switched to; home opens the device list when there is a device;
      cancel disconnects and goes back to scanning. */
  function HandleStreaming(h: Hud, e: InputEvent, outcome: MqttTransport.BrokerOutcome): (r: Hud)
    requires Valid(h) && h.state == Streaming
    ensures Valid(r)
    ensures r.running == h.running
  {
    if e.kind == NextDevice || e.kind == PrevDevice then
      var (next, c) := if e.kind == NextDevice then Connection.SwitchNext(h.conn) else Connection.SwitchPrev(h.conn);
      if next.Some? then InitiateConnection(h.(conn := c), next.value, outcome) else h.(conn := c)
    else if e.kind == Home then
      if Connection.DeviceCount(h.conn) > 0 then h.(listIndex := 0, state := DeviceList) else h
    else if e.kind == Cancel then
      Connection.DisconnectValid(h.conn);
      h.(conn := Connection.Disconnect(h.conn), state := Scanning)
    else h
  }

  function Max(a: int, b: int): int { if a >= b then a else b }
  function Min(a: int, b: int): int { if a <= b then a else b }

  /** `_handle_device_list_event`: up and down move the selection and stop at the ends,
      confirm starts the connection flow for the selected device, cancel returns to
      streaming. */
  function HandleDeviceList(h: Hud, e: InputEvent, outcome: MqttTransport.BrokerOutcome): (r: Hud)
    requires Valid(h) && h.state == DeviceList
    ensures Valid(r)
    ensures r.running == h.running
  {
    var devices := h.conn.known;
    if e.kind == NavUp then h.(listIndex := Max(0, h.listIndex - 1))
    else if e.kind == NavDown then h.(listIndex := Min(|devices| - 1, h.listIndex + 1))
    else if e.kind == Confirm then
      if devices != [] then InitiateConnection(h, devices[h.listIndex], outcome) else h
    else if e.kind == Cancel then h.(state := Streaming)
    else h
  }

  /** `_handle_error_event`: confirm or cancel returns to the state recorded with the error. */
  function HandleError(h: Hud, e: InputEvent): (r: Hud)
    requires Valid(h) && h.state == Error
    ensures Valid(r)
    ensures r.running == h.running
  {
    if e.kind == Confirm || e.kind == Cancel then h.(state := h.errorReturn) else h
  }

  // ---------------------------------------------------------------------------
  // Callbacks and the loop

  /** `_on_data`: the newest payload replaces the one before. */
  function OnData(h: Hud, data: Object): (r: Hud)
    ensures r.latest == Some(data) && r.(latest := h.latest) == h
  {
    h.(latest := Some(data))
  }

  /** The callbacks run for the deliveries of one broker message, in order; `_on_meta`
      only logs. */
  function Callbacks(h: Hud, ds: seq<MqttTransport.Delivery>): (r: Hud)
    ensures r.(latest := h.latest) == h
    decreases |ds|
  {
    if ds == [] then h
    else
      var h1 := match ds[0]
        case DataDelivered(p) => OnData(h, p)
        case MetaDelivered(_, _) => h;
      Callbacks(h1, ds[1..])
  }

  /** A broker message for the active transport. */
  function Deliver(h: Hud, topic: string, payload: Option<Object>): (r: Hud)
    requires Valid(h)
    ensures Valid(r)
    ensures r.(latest := h.latest, conn := h.conn) == h
    ensures Connection.DeviceCount(r.conn) == Connection.DeviceCount(h.conn)
  {
    var (c, ds) := Connection.Deliver(h.conn, topic, payload);
    Callbacks(h.(conn := c), ds)
  }

  /** `input.start()` before the loop: starting a backend does not touch its mode. */
  function StartInputs(h: Hud, raises: seq<bool>): (r: Hud)
    requires Valid(h) && |raises| == |h.inputs|
    ensures Valid(r)
    ensures r.inputs == InputManager.Start(h.inputs, raises)
    ensures r.(inputs := h.inputs) == h
  {
    h.(inputs := InputManager.Start(h.inputs, raises))
  }

  /** One pass of `_run_loop` while running: poll the inputs and handle the event, if any. */
  function Tick(h: Hud, now: nat, outcome: MqttTransport.BrokerOutcome): (r: Hud)
    requires Valid(h)
    ensures Valid(r)
    ensures !h.running ==> r == h
    ensures h.running && InputManager.Poll(h.inputs).0.None? ==> r == h
    ensures h.running && InputManager.Poll(h.inputs).0.Some? ==>
              r == HandleEvent(h.(inputs := InputManager.Poll(h.inputs).1), InputManager.Poll(h.inputs).0.value, now, outcome)
  {
    if !h.running then h
    else
      var (e, bs) := InputManager.Poll(h.inputs);
      PollKeepsModes(h.inputs);
      if e.Some? then HandleEvent(h.(inputs := bs), e.value, now, outcome) else h
  }

  lemma PollKeepsModes(bs: seq<InputManager.Backend>)
    ensures forall on :: NumericModeIs(bs, on) ==> NumericModeIs(InputManager.Poll(bs).1, on)
  {
    var (e, rs) := InputManager.Poll(bs);
    if e.Some? {
      var k :| InputManager.ServedAt(bs, k, e.value, rs);
    }
  }

  /** The loop's `finally`: the connection is closed. */
  function Shutdown(h: Hud): (r: Hud)
    requires Valid(h)
    ensures r.conn == Connection.Disconnect(h.conn) && r.conn.active.None?
    ensures r.(conn := h.conn) == h
  {
    Connection.DisconnectValid(h.conn);
    h.(conn := Connection.Disconnect(h.conn))
  }

  // ---------------------------------------------------------------------------
  // Rendering

  /** What `_render` puts on the display; `Unchanged` leaves the last frame. */
  datatype View =
    | ScanningView
    | PinView(entry: PinEntry.Entry)
    | FrameView(link: DeviceLink, data: Object)
    | DeviceListView(list: Renderer.DeviceList)
    | ErrorView(lines: seq<string>)
    | Unchanged

  function Render(h: Hud): View
  {
    match h.state
    case Scanning => ScanningView
    case Auth => if h.pin.Some? then PinView(h.pin.value) else Unchanged
    case Connecting => Unchanged
    case Streaming =>
      if h.latest.Some? && h.latest.value != [] && h.conn.active.Some? then FrameView(h.conn.active.value, h.latest.value)
      else Unchanged
    case DeviceList =>
      var activeId := if h.conn.active.Some? then h.conn.active.value.id else "";
      DeviceListView(Renderer.RenderDeviceList(h.conn.known, h.listIndex, activeId))
    case Error => ErrorView(Renderer.WrapMessage(h.errorMsg))
  }

  // ---------------------------------------------------------------------------
  // Properties of the state machine

  /** Scanning has no handler: every event but QUIT is ignored. */
  lemma ScanningIgnoresEvents(h: Hud, e: InputEvent, now: nat, outcome: MqttTransport.BrokerOutcome)
    requires Valid(h) && h.state == Scanning && e.kind != Quit
    ensures HandleEvent(h, e, now, outcome) == h
  {
  }

  /** After QUIT the loop does nothing more. */
  lemma QuitEndsLoop(h: Hud, e: InputEvent, now: nat, now': nat, outcome: MqttTransport.BrokerOutcome, outcome': MqttTransport.BrokerOutcome)
    requires Valid(h) && e.kind == Quit
    ensures var r := HandleEvent(h, e, now, outcome);
      !r.running && Tick(r, now', outcome') == r
  {
  }

  /** Cancelling the PIN entry returns to scanning with the PIN state cleared and numeric
      mode off, and neither connects nor consults the PIN gate. */
  lemma AuthCancelled(h: Hud, e: InputEvent, now: nat, outcome: MqttTransport.BrokerOutcome)
    requires Valid(h) && h.state == Auth && e.kind != Quit
    requires PinEntry.WasCancelled(PinEntry.HandleEvent(h.pin.value, e.kind))
    ensures var r := HandleEvent(h, e, now, outcome);
      && r.state == Scanning && r.pin.None? && r.pending.None? && NumericModeIs(r.inputs, false)
      && r.conn == h.conn && r.auth == h.auth
  {
  }

  /** A finished PIN the gate accepts clears the PIN state, turns numeric mode off and
      connects to the pending device. */
  lemma AuthAccepted(h: Hud, e: InputEvent, now: nat, outcome: MqttTransport.BrokerOutcome)
    requires Valid(h) && h.state == Auth && e.kind != Quit
    requires var pe := PinEntry.HandleEvent(h.pin.value, e.kind);
      !PinEntry.WasCancelled(pe) && PinEntry.IsDone(pe)
      && AuthManager.ValidatePin(h.auth, h.pending.value, PinEntry.PinValue(pe), now).0.success
    ensures var pe := PinEntry.HandleEvent(h.pin.value, e.kind);
      var link := h.pending.value;
      var r := HandleEvent(h, e, now, outcome);
      && r.pin.None? && r.pending.None? && NumericModeIs(r.inputs, false)
      && r.auth == AuthManager.ValidatePin(h.auth, link, PinEntry.PinValue(pe), now).1
      && r.conn == Connection.Connect(h.conn, link, true, outcome).1
      && (r.state == Streaming <==> link.proto == "mqtt" && outcome == MqttTransport.HandshakeDone)
      && (r.state != Streaming ==> r.state == Error && r.errorMsg == ConnectError(link))
  {
  }

  /** A finished PIN the gate refuses keeps the PIN state: the entry restarts showing the
      gate's message, and nothing connects. */
  lemma AuthRejected(h: Hud, e: InputEvent, now: nat, outcome: MqttTransport.BrokerOutcome)
    requires Valid(h) && h.state == Auth && e.kind != Quit
    requires var pe := PinEntry.HandleEvent(h.pin.value, e.kind);
      !PinEntry.WasCancelled(pe) && PinEntry.IsDone(pe)
      && !AuthManager.ValidatePin(h.auth, h.pending.value, PinEntry.PinValue(pe), now).0.success
    ensures var pe := PinEntry.HandleEvent(h.pin.value, e.kind);
      var res := AuthManager.ValidatePin(h.auth, h.pending.value, PinEntry.PinValue(pe), now);
      var r := HandleEvent(h, e, now, outcome);
      && r.state == Auth && r.pending == h.pending && r.conn == h.conn && r.auth == res.1
      && r.pin == Some(PinEntry.SetError(pe, res.0.error)) && r.pin.value.errorMsg == res.0.error
  {
  }

  /** While the PIN is being typed only the entry changes. */
  lemma AuthTyping(h: Hud, e: InputEvent, now: nat, outcome: MqttTransport.BrokerOutcome)
    requires Valid(h) && h.state == Auth && e.kind != Quit
    requires var pe := PinEntry.HandleEvent(h.pin.value, e.kind);
      !PinEntry.WasCancelled(pe) && !PinEntry.IsDone(pe)
    ensures HandleEvent(h, e, now, outcome) == h.(pin := Some(PinEntry.HandleEvent(h.pin.value, e.kind)))
  {
  }

  /** The PIN gate guards the connection: from the PIN state the connection manager changes
      only when a finished PIN has been accepted for the pending device. */
  lemma ConnectOnlyWithAcceptedPin(h: Hud, e: InputEvent, now: nat, outcome: MqttTransport.BrokerOutcome)
    requires Valid(h) && h.state == Auth
    requires HandleEvent(h, e, now, outcome).conn != h.conn
    ensures var pe := PinEntry.HandleEvent(h.pin.value, e.kind);
      && e.kind != Quit && !PinEntry.WasCancelled(pe) && PinEntry.IsDone(pe)
      && AuthManager.ValidatePin(h.auth, h.pending.value, PinEntry.PinValue(pe), now).0.success
  {
  }

  /** HOME opens the device list on its first row exactly when a device is known. */
  lemma StreamingHome(h: Hud, e: InputEvent, now: nat, outcome: MqttTransport.BrokerOutcome)
    requires Valid(h) && h.state == Streaming && e.kind == Home
    ensures var r := HandleEvent(h, e, now, outcome);
      && (Connection.DeviceCount(h.conn) > 0 ==> r == h.(listIndex := 0, state := DeviceList))
      && (Connection.DeviceCount(h.conn) == 0 ==> r == h)
  {
  }

  /** CANCEL while streaming disconnects and goes back to scanning. */
  lemma StreamingCancel(h: Hud, e: InputEvent, now: nat, outcome: MqttTransport.BrokerOutcome)
    requires Valid(h) && h.state == Streaming && e.kind == Cancel
    ensures var r := HandleEvent(h, e, now, outcome);
      && r.state == Scanning && r.conn == Connection.Disconnect(h.conn) && r.conn.active.None?
      && r.conn.known == h.conn.known
  {
    Connection.DisconnectValid(h.conn);
  }

  /** With at most one known device, switching does nothing at all. */
  lemma SwitchWithOneDevice(h: Hud, e: InputEvent, now: nat, outcome: MqttTransport.BrokerOutcome)
    requires Valid(h) && h.state == Streaming && Connection.DeviceCount(h.conn) <= 1
    requires e.kind == NextDevice || e.kind == PrevDevice
    ensures HandleEvent(h, e, now, outcome) == h
  {
  }

  /** NEXT_DEVICE with several devices starts the connection flow for the history entry
      after the cursor: an open device that connects becomes the active one and moves to
      the end of the history; one that needs a PIN is only made pending. */
  lemma SwitchNextConnects(h: Hud, e: InputEvent, now: nat, outcome: MqttTransport.BrokerOutcome)
    requires Valid(h) && h.state == Streaming && e.kind == NextDevice
    requires Connection.DeviceCount(h.conn) > 1
    ensures var n := Connection.DeviceCount(h.conn);
      var link := h.conn.known[(h.conn.index + 1) % n];
      var r := HandleEvent(h, e, now, outcome);
      && (AuthManager.NeedsAuth(link) ==> r.state == Auth && r.pending == Some(link))
      && (!AuthManager.NeedsAuth(link) && r.state == Streaming ==>
            r.conn.active == Some(link) && r.conn.known[|r.conn.known| - 1] == link
            && r.conn.index == |r.conn.known| - 1)
  {
  }

  /** NAV_UP and NAV_DOWN move the selection by one and stop at the first and last rows;
      they never connect. */
  lemma DeviceListMoves(h: Hud, e: InputEvent, now: nat, outcome: MqttTransport.BrokerOutcome)
    requires Valid(h) && h.state == DeviceList && (e.kind == NavUp || e.kind == NavDown)
    ensures var n := Connection.DeviceCount(h.conn);
      var r := HandleEvent(h, e, now, outcome);
      && r == h.(listIndex := r.listIndex)
      && 0 <= r.listIndex < n
      && (e.kind == NavUp ==> r.listIndex == (if h.listIndex == 0 then 0 else h.listIndex - 1))
      && (e.kind == NavDown ==> r.listIndex == (if h.listIndex == n - 1 then n - 1 else h.listIndex + 1))
  {
  }

  /** Down then up returns to the same row, unless down was stopped by the last row. */
  lemma DownThenUp(h: Hud, d: InputEvent, u: InputEvent, now: nat, outcome: MqttTransport.BrokerOutcome)
    requires Valid(h) && h.state == DeviceList && d.kind == NavDown && u.kind == NavUp
    requires h.listIndex < Connection.DeviceCount(h.conn) - 1
    ensures HandleEvent(HandleEvent(h, d, now, outcome), u, now, outcome) == h
  {
  }

  /** CONFIRM starts the connection flow for the selected row; CANCEL returns to streaming. */
  lemma DeviceListChoose(h: Hud, e: InputEvent, now: nat, outcome: MqttTransport.BrokerOutcome)
    requires Valid(h) && h.state == DeviceList
    ensures e.kind == Confirm ==>
              HandleEvent(h, e, now, outcome) == InitiateConnection(h, h.conn.known[h.listIndex], outcome)
    ensures e.kind == Cancel ==> HandleEvent(h, e, now, outcome) == h.(state := Streaming)
  {
  }

  /** The error screen is left by CONFIRM or CANCEL, for scanning, and by nothing else but QUIT. */
  lemma ErrorReturns(h: Hud, e: InputEvent, now: nat, outcome: MqttTransport.BrokerOutcome)
    requires Valid(h) && h.state == Error && e.kind != Quit
    ensures var r := HandleEvent(h, e, now, outcome);
      && (e.kind == Confirm || e.kind == Cancel ==> r == h.(state := Scanning))
      && (e.kind != Confirm && e.kind != Cancel ==> r == h)
  {
  }

  /** A failed connection always ends on the error screen, and leaving it leads to scanning. */
  lemma FailedConnectThenConfirm(h: Hud, link: DeviceLink, outcome: MqttTransport.BrokerOutcome, e: InputEvent, now: nat, outcome': MqttTransport.BrokerOutcome)
    requires Idle(h) && outcome != MqttTransport.HandshakeDone && e.kind == Confirm
    ensures var r := DoConnect(h, link, outcome);
      && r.state == Error && r.errorMsg == ConnectError(link)
      && HandleEvent(r, e, now, outcome').state == Scanning
  {
  }

  /** A message on the active device's data topic becomes the latest data; one on its
      metadata topic leaves the data as it was. */
  lemma DeliverData(h: Hud, p: Object)
    requires Valid(h) && h.conn.active.Some? && h.conn.active.value.topic.Some?
    ensures Deliver(h, h.conn.active.value.topic.value, Some(p)).latest == Some(p)
  {
    var t := h.conn.transport.value;
    MqttTransport.DataMessageRouting(t, p);
    var (c, ds) := Connection.Deliver(h.conn, t.link.topic.value, Some(p));
    assert ds == [MqttTransport.DataDelivered(p)];
    assert Callbacks(h.(conn := c), ds) == Callbacks(OnData(h.(conn := c), p), []);
  }

  lemma DeliverMetadataKeepsData(h: Hud, p: Object)
    requires Valid(h) && h.conn.active.Some? && MetaTopic(h.conn.active.value).Some?
    ensures Deliver(h, MetaTopic(h.conn.active.value).value, Some(p)).latest == h.latest
  {
    var t := h.conn.transport.value;
    MqttTransport.MetaMessageRouting(t, p);
    var (c, ds) := Connection.Deliver(h.conn, MetaTopic(t.link).value, Some(p));
    if ds != [] {
      assert ds[0].MetaDelivered? && ds[1..] == [];
      assert Callbacks(h.(conn := c), ds) == Callbacks(h.(conn := c), []);
    }
  }

  /** The screen follows the state: the PIN screen shows the entry, the device list has
      rows, the error screen wraps the message without losing a word, and streaming shows
      the newest data on the active device once there is any. */
  lemma RenderFollowsState(h: Hud)
    requires Valid(h)
    ensures h.state == Scanning ==> Render(h) == ScanningView
    ensures h.state == Auth ==> Render(h) == PinView(h.pin.value)
    ensures h.state == DeviceList ==> Render(h).DeviceListView? && Render(h).list.Listing?
    ensures h.state == Error ==> Render(h).ErrorView? && Renderer.LineWords(Render(h).lines) == Text.Words(h.errorMsg)
    ensures h.state == Streaming ==>
              (Render(h) == Unchanged <==> h.latest.None? || h.latest.value == [])
    ensures h.state == Streaming && h.latest.Some? && h.latest.value != [] ==>
              Render(h) == FrameView(h.conn.active.value, h.latest.value)
  {
    Renderer.WrapMessageProperties(h.errorMsg);
  }
}
