/** Input events shared by every backend and consumed by the state machine.
    The event kinds are the union of the members declared in the event enum and the
    members the PIN screen and the phone backend refer to (direct digits, backspace,
    the alphabetic keys, biometric confirmation, received links and chat messages). */
module Events {
  import opened Json

  type Digit = d: int | 0 <= d <= 9

  datatype EventType =
    // Navigation
    | NavUp | NavDown | NavLeft | NavRight | Confirm | Cancel | Home
    // PIN / numeric entry
    | DigitUp | DigitDown | DigitNext | DigitPrev | DigitSubmit
    | DigitKey(d: Digit) | DigitBackspace
    // Alphabetic entry
    | AlphaKey | AlphaBackspace | AlphaEnter | AlphaShift
    // Device management
    | NextDevice | PrevDevice | ScanQr
    // Out-of-band payloads
    | BiometricAuth | QrLinkReceived | AiChatMessage
    // System
    | ToggleVoice | Lock | Quit

  /** One event: its kind, an optional payload (JNull for None) and the backend that produced it.
      The monotonic timestamp is not part of the model: nothing in the core reads it. */
  datatype InputEvent = InputEvent(kind: EventType, value: Json, source: string)

  function Event(kind: EventType, source: string): InputEvent
  {
    InputEvent(kind, JNull, source)
  }

}
