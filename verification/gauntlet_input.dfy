/** The Gauntlet backend: the translation of the glove's four-byte pad notifications into
    input events, the 64-event queue they go into, the battery notification, and the mode
    and haptic bytes written back. The BLE scan, the connection loop and the background
    thread are not modelled: the link going up or down is a transition of its own, and each
    write is returned instead of being sent. */
module GauntletInput {
  import opened Wrappers
  import opened Events
  import Deque

  const Source: string := "gauntlet"
  const QueueCapacity: nat := 64

  type Byte = b: int | 0 <= b < 256

  // Pad event types on the wire.
  const Tap: Byte := 0x01
  const Release: Byte := 0x02
  const Hold: Byte := 0x03
  const DoubleTap: Byte := 0x04
  const Chord: Byte := 0x10

  // Pad masks: one bit per pad, pad 1 the lowest.
  const Pad1: Byte := 0x01
  const Pad2: Byte := 0x02
  const Pad3: Byte := 0x04
  const Pad4: Byte := 0x08
  const Pad5: Byte := 0x10
  const Pads1And4: Byte := 0x09
  const AllPads: Byte := 0x1F

  /** Navigation mode, single taps. */
  function NavTap(mask: Byte): Option<EventType>
  {
    if mask == Pad1 then Some(NavLeft)
    else if mask == Pad2 then Some(NavUp)
    else if mask == Pad3 then Some(NavDown)
    else if mask == Pad4 then Some(NavRight)
    else if mask == Pad5 then Some(Confirm)
    else None
  }

  /** Numeric mode, single taps (PIN entry). */
  function NumericTap(mask: Byte): Option<EventType>
  {
    if mask == Pad1 then Some(DigitDown)
    else if mask == Pad2 then Some(DigitPrev)
    else if mask == Pad3 then Some(DigitNext)
    else if mask == Pad4 then Some(DigitUp)
    else if mask == Pad5 then Some(DigitSubmit)
    else None
  }

  /** `_translate_event`: taps go through the table of the current mode; a pad 1+4 chord
      cancels, a double tap on pad 5 goes home, holding pad 5 toggles voice and holding all
      five pads locks, in either mode. Everything else, releases included, means nothing. */
  function Translate(numeric: bool, eventType: Byte, mask: Byte): Option<EventType>
  {
    if eventType == Tap then (if numeric then NumericTap(mask) else NavTap(mask))
    else if eventType == Chord then (if mask == Pads1And4 then Some(Cancel) else None)
    else if eventType == DoubleTap then (if mask == Pad5 then Some(Home) else None)
    else if eventType == Hold then
      (if mask == Pad5 then Some(ToggleVoice) else if mask == AllPads then Some(Lock) else None)
    else None
  }

  /** The pad that taps to each navigation event: the navigation tap table read backwards. */
  function NavPad(kind: EventType): Option<Byte>
  {
    match kind
    case NavLeft => Some(Pad1)
    case NavUp => Some(Pad2)
    case NavDown => Some(Pad3)
    case NavRight => Some(Pad4)
    case Confirm => Some(Pad5)
    case _ => None
  }

  /** The pad that taps to each PIN-entry event. */
  function NumericPad(kind: EventType): Option<Byte>
  {
    match kind
    case DigitDown => Some(Pad1)
    case DigitPrev => Some(Pad2)
    case DigitNext => Some(Pad3)
    case DigitUp => Some(Pad4)
    case DigitSubmit => Some(Pad5)
    case _ => None
  }

  /** Each tap table is a one-to-one correspondence between the five single pads and five
      events: a tap gives an event exactly when that event's pad was tapped. */
  lemma TapTablesBijective(mask: Byte, kind: EventType)
    ensures Translate(false, Tap, mask) == Some(kind) <==> NavPad(kind) == Some(mask)
    ensures Translate(true, Tap, mask) == Some(kind) <==> NumericPad(kind) == Some(mask)
  {
  }

  /** Only taps depend on the mode; in numeric mode a tap never navigates. */
  lemma ModeAffectsOnlyTaps(eventType: Byte, mask: Byte)
    ensures eventType != Tap ==> Translate(true, eventType, mask) == Translate(false, eventType, mask)
    ensures Translate(true, Tap, mask).Some? ==> NumericPad(Translate(true, Tap, mask).value).Some?
  {
  }

  /** A release, or an unknown event type, never produces an event. */
  lemma ReleaseIgnored(numeric: bool, eventType: Byte, mask: Byte)
    requires eventType !in {Tap, Chord, DoubleTap, Hold}
    ensures Translate(numeric, eventType, mask) == None
  {
  }

  /** The gestures available in both modes, one mask each. */
  lemma Gestures(numeric: bool, eventType: Byte, mask: Byte)
    ensures Translate(numeric, eventType, mask) == Some(Cancel) <==> eventType == Chord && mask == Pads1And4
    ensures Translate(numeric, eventType, mask) == Some(Home) <==> eventType == DoubleTap && mask == Pad5
    ensures Translate(numeric, eventType, mask) == Some(ToggleVoice) <==> eventType == Hold && mask == Pad5
    ensures Translate(numeric, eventType, mask) == Some(Lock) <==> eventType == Hold && mask == AllPads
  {
  }

  // ---------------------------------------------------------------------------
  // The backend

  /** `battery` is the last reported percentage. */
  datatype Gauntlet = Gauntlet(
    queue: seq<InputEvent>,
    numericMode: bool,
    running: bool,
    connected: bool,
    hasBleak: bool,
    battery: Option<Byte>)

  predicate Valid(g: Gauntlet)
  {
    Deque.Fits(g.queue, QueueCapacity)
  }

  function Init(hasBleak: bool): (g: Gauntlet)
    ensures Valid(g) && g.queue == [] && !g.numericMode && !g.running && !g.connected && g.battery.None?
  {
    Gauntlet([], false, false, false, hasBleak, None)
  }

  /** Available only with the BLE library and a live link. */
  predicate IsAvailable(g: Gauntlet)
  {
    g.hasBleak && g.connected
  }

  /** `start`: without the BLE library nothing happens. */
  function Start(g: Gauntlet): (r: Gauntlet)
    ensures r.running <==> g.running || g.hasBleak
    ensures r.(running := g.running) == g
  {
    if !g.hasBleak then g else g.(running := true)
  }

  function Stop(g: Gauntlet): (r: Gauntlet)
    ensures !r.running && !IsAvailable(r)
    ensures r.(running := g.running, connected := g.connected) == g
  {
    g.(running := false, connected := false)
  }

  /** The connection loop's link going up (notifications subscribed) or down. */
  function LinkUp(g: Gauntlet): (r: (Gauntlet, Byte))
    ensures r.0.connected && r.0.(connected := g.connected) == g
    ensures r.1 == ModeByte(g.numericMode) && (r.1 == 2 <==> g.numericMode)
    ensures r.1 == SetNumericMode(r.0, g.numericMode).1.value
  {
    (g.(connected := true), ModeByte(g.numericMode))
  }

  function LinkDown(g: Gauntlet): (r: Gauntlet)
    ensures !r.connected && r.(connected := g.connected) == g
  {
    g.(connected := false)
  }

  /** `_on_input_notification`: event type in byte 0, pad mask in byte 1, a wrapping
      timestamp in bytes 2 and 3 that is not read. Shorter notifications are dropped. */
  function OnInputNotification(g: Gauntlet, data: seq<Byte>): (r: Gauntlet)
    requires Valid(g)
    ensures Valid(r)
    ensures r.(queue := g.queue) == g
    ensures |data| < 4 ==> r == g
    ensures |data| >= 4 ==>
              match Translate(g.numericMode, data[0], data[1])
              case Some(k) => r.queue == Deque.Push(g.queue, Event(k, Source), QueueCapacity)
              case None => r == g
  {
    if |data| < 4 then g
    else
      match Translate(g.numericMode, data[0], data[1])
      case Some(k) => g.(queue := Deque.Push(g.queue, Event(k, Source), QueueCapacity))
      case None => g
  }

  /** The timestamp and any trailing bytes never matter: two notifications with the same
      event type and pad mask have the same effect. */
  lemma TimestampIgnored(g: Gauntlet, data: seq<Byte>, data': seq<Byte>)
    requires Valid(g) && |data| >= 4 && |data'| >= 4
    requires data[0] == data'[0] && data[1] == data'[1]
    ensures OnInputNotification(g, data) == OnInputNotification(g, data')
  {
  }

  /** `_on_battery_notification`: the first byte, if any, is the new percentage. */
  function OnBattery(g: Gauntlet, data: seq<Byte>): (r: Gauntlet)
    ensures |data| >= 1 ==> r.battery == Some(data[0])
    ensures |data| == 0 ==> r == g
    ensures r.(battery := g.battery) == g
  {
    if |data| >= 1 then g.(battery := Some(data[0])) else g
  }

  /** `poll`: the oldest queued event; it does not depend on the link. */
  function Poll(g: Gauntlet): (r: (Option<InputEvent>, Gauntlet))
    ensures r.0.None? <==> g.queue == []
    ensures r.0.Some? ==> [r.0.value] + r.1.queue == g.queue
    ensures r.1.(queue := g.queue) == g
  {
    var (e, q) := Deque.Pop(g.queue);
    (e, g.(queue := q))
  }

  /** A notification translated on an empty queue is what the next poll returns. */
  lemma NotificationThenPoll(g: Gauntlet, data: seq<Byte>)
    requires Valid(g) && g.queue == [] && |data| >= 4
    ensures Poll(OnInputNotification(g, data)).0 ==
              match Translate(g.numericMode, data[0], data[1])
              case Some(k) => Some(Event(k, Source))
              case None => None
  {
  }

  // ---------------------------------------------------------------------------
  // Writes to the glove

  /** The mode status byte: 2 for numeric, 1 for navigation. */
  function ModeByte(numeric: bool): (b: Byte)
    ensures b == 1 || b == 2
    ensures numeric <==> b == 2
  {
    if numeric then 0x02 else 0x01
  }

  /** Setting the mode stores it and, while the link is up, writes the mode byte. */
  function SetNumericMode(g: Gauntlet, enabled: bool): (r: (Gauntlet, Option<Byte>))
    ensures r.0 == g.(numericMode := enabled)
    ensures r.1.Some? <==> g.connected
    ensures r.1.Some? ==> (r.1.value == 2 <==> enabled)
  {
    (g.(numericMode := enabled), if g.connected then Some(ModeByte(enabled)) else None)
  }

  datatype HapticPattern = Short | Double | Long | Success

  function HapticByte(p: HapticPattern): Byte
  {
    match p
    case Short => 0x01
    case Double => 0x02
    case Long => 0x03
    case Success => 0x04
  }

  /** Every pattern has its own byte. */
  lemma HapticByteInjective(p: HapticPattern, q: HapticPattern)
    ensures HapticByte(p) == HapticByte(q) <==> p == q
  {
  }

  /** `send_haptic`: a write only while the link is up. */
  function SendHaptic(g: Gauntlet, p: HapticPattern): (r: Option<Byte>)
    ensures r.Some? <==> g.connected
    ensures r.Some? ==> r.value == HapticByte(p)
  {
    if g.connected then Some(HapticByte(p)) else None
  }
}
