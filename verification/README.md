# ScouterHUD session core in Dafny

ScouterHUD is a monocular head-up display. The user scans a QR-Link code
(`qrlink://v1/{id}/{proto}/{host}:{port}?auth=…&t=…`). The HUD parses it into a device
link. If the device asks for a PIN, the HUD shows a PIN-entry screen; a lockout gate
allows five wrong PINs and then blocks the device for 900 seconds. The HUD then
connects to the device's MQTT broker. It subscribes to the retained `{topic}/$meta`
metadata topic and the data topic, and draws live readings with a layout chosen by
the device type.

Input comes from up to three backends, merged by priority:
- a window or terminal keyboard;
- a phone web controller speaking JSON over WebSocket, rate-limited per connection;
- a BLE glove ("Gauntlet") sending four-byte pad notifications.

Each backend switches to a numeric layout while a PIN is being entered. The connection
manager keeps the history of devices, one entry per device id, most recent last, and
switches between them cyclically. The emulator's devices advertise the QR-Link URLs
and the metadata documents the HUD consumes.

The model is purely functional. Every object of the program is an immutable datatype,
and every method is a function returning the new state. Anything outside the program
becomes an explicit argument:
- the monotonic clock is `now` (seconds for the PIN gate, milliseconds for the phone's
  rate limit);
- what the broker does during a connect is a `BrokerOutcome`;
- a decoded MQTT payload is an `Option<Object>`, with None for one that is not valid JSON;
- a phone message is decoded to a JSON value, to "not JSON", or to "not UTF-8" (a binary
  message `json.loads` cannot decode, which raises);
- the presence of optional libraries is a flag;
- each key press, character, frame or notification is a parameter.

Modules follow the source files:
- `Protocol` (protocol.py), `UrlCodec` (the `urlencode`/`parse_qs` pair the link uses)
  and `EmulatorDevice` (the device base class);
- `MqttTransport`, `Connection`, `AuthManager` and `PinEntry`;
- `InputManager`, `Deque` (the bounded event queues), `KeyboardInput`, `PhoneInput`
  and `GauntletInput`;
- `Widgets` and `Renderer`;
- `ScouterHud`, the application's state machine in main.py;
- the shared helpers `Wrappers`, `Text`, `Json`, `Events` and `Modular` (remainder facts
  for the cyclic cursors).

## Model

| member | source | states |
|---|---|---|
| Protocol.Endpoint | software/scouterhud/qrlink/protocol.py:41-43 | `host:port` contains a colon, and splitting at the last colon gives back the host and the port's decimal text, which parses back to the port |
| Protocol.MetaTopic | software/scouterhud/qrlink/protocol.py:45-50 | the metadata topic exists exactly for a non-empty topic and is the topic followed by `/$meta` |
| Protocol.MetaTopicNotDataTopic | software/scouterhud/qrlink/protocol.py:45-50 | the metadata topic is never the data topic, so the transport's routing can tell the two apart |
| Protocol.UpdateFromMetadata | software/scouterhud/qrlink/protocol.py:52-60 | each of the seven metadata keys present in the message overwrites its field; absent keys and the identity fields (version, id, proto, host, port, auth, topic) are unchanged |
| Protocol.UpdateFromMetadataIdempotent | software/scouterhud/qrlink/protocol.py:52-60 | applying the same metadata twice equals applying it once |
| Protocol.UpdateFromMetadataCompose | software/scouterhud/qrlink/protocol.py:52-60 | two metadata messages in a row act like one message holding their dict merge |
| Protocol.GetOrMerge | software/scouterhud/qrlink/protocol.py:54-60 | `meta.get(k, default)` over a merge reads the later message first, then the earlier one |
| Protocol.PathPart | software/scouterhud/qrlink/protocol.py:84-88 | the path is the text before the first `?` and contains no `?` |
| Protocol.RestParts | software/scouterhud/qrlink/protocol.py:84-88 | path part, `?` and query part put the rest of the link back together |
| Protocol.QueryAuth | software/scouterhud/qrlink/protocol.py:125-131 | the auth method read from the query is always one of the five supported methods |
| Protocol.Parse | software/scouterhud/qrlink/protocol.py:63-148 | a parsed link came from a string with the `qrlink://` scheme, has version 1, a supported proto and an id without `/` |
| Protocol.ParseSegments | software/scouterhud/qrlink/protocol.py:91-141 | the version, proto, endpoint and port checks, in order; a result carries segment 1 as its id and segment 2 as its proto |
| Protocol.ParseRender | software/scouterhud/qrlink/protocol.py:63-148 | every admissible shape (version 1, id free of `/` and `?`, supported proto, numeric port) renders to a URL the parser maps to exactly the link the shape denotes |
| Protocol.RenderShapeOf | software/scouterhud/qrlink/protocol.py:63-148 | conversely, every URL the parser accepts is the rendering of an admissible shape, and parsing it gives that shape's link |
| Protocol.ParseFacts | software/scouterhud/qrlink/protocol.py:82-122 | what a successful parse establishes about the pieces of its input (scheme, segment count, `v` prefix, port digits) |
| Protocol.PathOfSplit | software/scouterhud/qrlink/protocol.py:91-99 | a rendered path splits on `/` into `v{n}`, id, proto and the endpoint's pieces |
| Protocol.ShapeOfPartsPath | software/scouterhud/qrlink/protocol.py:91-99 | re-rendering the pieces read from the segments gives back the joined path |
| Protocol.RenderParts | software/scouterhud/qrlink/protocol.py:82-122 | the pieces of an accepted URL form an admissible shape rendering to that same URL |
| Protocol.ParseSegmentsOf | software/scouterhud/qrlink/protocol.py:91-141 | the segment checks accept the segments of an admissible shape and give its link |
| UrlCodec.HexDigit | emulator/devices/base.py:70 | the upper-case hex digit of `d` reads back as `d` |
| UrlCodec.Utf8 | emulator/devices/base.py:70 | one to four bytes per character, and the character itself for ASCII |
| UrlCodec.QuoteChar | emulator/devices/base.py:70 | `quote_plus` of one character is non-empty and uses only the encoded alphabet |
| UrlCodec.QuotePlus | emulator/devices/base.py:70 | `quote_plus` output uses only the encoded alphabet and is empty exactly for empty input |
| UrlCodec.PercentBytesEncoded | emulator/devices/base.py:70 | percent escapes use only the encoded alphabet |
| UrlCodec.UnquoteQuoteChar | software/scouterhud/qrlink/protocol.py:125 | decoding undoes the encoding of one ASCII character in front of any rest |
| UrlCodec.UnquoteQuotePlus | software/scouterhud/qrlink/protocol.py:125 | `unquote_plus(quote_plus(s)) == s` for ASCII `s` |
| UrlCodec.Pieces | emulator/devices/base.py:70 | one `k=v` piece per parameter, in order |
| UrlCodec.FirstValue | software/scouterhud/qrlink/protocol.py:126-127 | `params.get(key, [d])[0]`: none exactly when no pair has the key, otherwise the value of the first pair that has it |
| UrlCodec.EncodedExcludes | software/scouterhud/qrlink/protocol.py:125 | encoded text contains no `&`, `=` or other non-alphabet character, so splitting is unambiguous |
| UrlCodec.FieldOfPiece | software/scouterhud/qrlink/protocol.py:125 | one encoded piece parses back to its pair, or to nothing when the value is blank |
| UrlCodec.FieldsOfPieces | software/scouterhud/qrlink/protocol.py:125 | the pieces parse back to the pairs with non-blank values, in order |
| UrlCodec.ParseUrlencode | software/scouterhud/qrlink/protocol.py:125 | parsing `urlencode(params)` gives back the pairs with non-blank values, in order |
| EmulatorDevice.QueryParams | emulator/devices/base.py:64-68 | `auth` is present exactly when the method is not "open", `t` exactly for a non-empty topic, and nothing else |
| EmulatorDevice.QrLinkUrl | emulator/devices/base.py:61-71 | the URL starts with the base link, equals it exactly when there are no parameters, and otherwise continues with `?` |
| EmulatorDevice.Metadata | emulator/devices/base.py:43-59 | the eight fixed members with the device's values; `auth_hint` present exactly for "pin" and "token", with the matching text |
| EmulatorDevice.MetaDocumentGets | emulator/devices/base.py:45-58 | each member of the document in insertion order reads back as its value, and the hint is there exactly when the device has one |
| EmulatorDevice.HintMembersGet | emulator/devices/base.py:55-58 | the optional hint member holds only `auth_hint` |
| EmulatorDevice.MetadataDistinct | emulator/devices/base.py:43-59 | the metadata document never repeats a key |
| EmulatorDevice.MetadataApplied | emulator/devices/base.py:43-59 | a link updated with a device's metadata takes the device's name, type, icon, refresh, layout "auto", schema and hint |
| EmulatorDevice.MetaTopicsAgree | emulator/devices/base.py:73-76 | for a non-empty topic the device publishes metadata where the HUD's link looks for it |
| EmulatorDevice.UrlShapeRenders | emulator/devices/base.py:61-71 | the advertised URL is the rendering of the device's shape |
| EmulatorDevice.QueryValues | emulator/devices/base.py:64-70 | the parser's first `auth` and `t` values are the device's non-default method and topic |
| EmulatorDevice.QueryFields | software/scouterhud/qrlink/protocol.py:125-131 | those values become the link's auth (unsupported methods coerced to "open") and topic |
| EmulatorDevice.UrlQuery | emulator/devices/base.py:64-70 | the query of the advertised shape yields the device's auth and topic |
| EmulatorDevice.UrlAdmissible | emulator/devices/base.py:61-71 | an id free of `/` and `?`, a host free of `?` and a non-negative port give an admissible shape |
| EmulatorDevice.UrlLink | emulator/devices/base.py:61-71 | the link the advertised shape denotes has the device's id, "mqtt", broker host and port, auth and topic |
| EmulatorDevice.UrlParses | emulator/devices/base.py:61-71 | the parser accepts the advertised URL and returns the shape's link |
| EmulatorDevice.QrLinkRoundTrip | emulator/devices/base.py:61-71 | parsing an emulated device's advertised link gives back its id, "mqtt", broker endpoint, auth method (or "open") and topic |
| MqttTransport.NewTransport | software/scouterhud/qrlink/transports/mqtt.py:25-31 | a new transport has no client, no callbacks, no subscriptions and is not connected |
| MqttTransport.Subscriptions | software/scouterhud/qrlink/transports/mqtt.py:65-70 | for a non-empty topic the metadata topic (QoS 1) and then the data topic (QoS 0); otherwise none |
| MqttTransport.SubscriptionsDistinct | software/scouterhud/qrlink/transports/mqtt.py:65-70 | the two subscriptions are to different topics |
| MqttTransport.Connect | software/scouterhud/qrlink/transports/mqtt.py:33-76 | succeeds exactly when the handshake completes, then connected and subscribed; a refused connect leaves the client assigned and unsubscribed; a timeout disconnects; the callbacks are always registered |
| MqttTransport.Disconnect | software/scouterhud/qrlink/transports/mqtt.py:78-83 | no client afterwards; nothing else changes |
| MqttTransport.DisconnectIdempotent | software/scouterhud/qrlink/transports/mqtt.py:78-83 | a second disconnect does nothing |
| MqttTransport.OnConnect | software/scouterhud/qrlink/transports/mqtt.py:89-94 | only return code 0 marks the transport connected |
| MqttTransport.OnDisconnect | software/scouterhud/qrlink/transports/mqtt.py:96-99 | always clears the connected flag |
| MqttTransport.OnMessage | software/scouterhud/qrlink/transports/mqtt.py:101-117 | an undecodable payload is dropped; at most one callback per message; only the link and the metadata flag can change |
| MqttTransport.MetaMessageRouting | software/scouterhud/qrlink/transports/mqtt.py:109-114 | a metadata message updates the link before the metadata callback sees it, marks metadata received and never reaches the data callback |
| MqttTransport.DataMessageRouting | software/scouterhud/qrlink/transports/mqtt.py:115-117 | a data message changes nothing and reaches only the data callback |
| MqttTransport.OtherTopicIgnored | software/scouterhud/qrlink/transports/mqtt.py:108-117 | a message on any other topic is ignored |
| MqttTransport.DeliveriesFromSubscriptions | software/scouterhud/qrlink/transports/mqtt.py:65-117 | after a successful connect only subscribed topics ever produce a callback |
| Connection.Init | software/scouterhud/qrlink/connection.py:23-31 | no transport, no active device, empty history, cursor -1, and the invariant holds |
| Connection.RemoveId | software/scouterhud/qrlink/connection.py:90 | keeps exactly the entries with another id, in order, preserving unique ids |
| Connection.RemoveIdCount | software/scouterhud/qrlink/connection.py:90 | with unique ids, removing a present id drops exactly one entry and an absent id none |
| Connection.AddToHistory | software/scouterhud/qrlink/connection.py:87-92 | the link moves to the end of the history, the cursor points at it, and ids stay unique |
| Connection.AddToHistoryCount | software/scouterhud/qrlink/connection.py:87-92 | a known id keeps the count, a new id adds one |
| Connection.Disconnect | software/scouterhud/qrlink/connection.py:61-65 | the transport and the active device are dropped; history and cursor are kept |
| Connection.DisconnectValid | software/scouterhud/qrlink/connection.py:61-65 | disconnect keeps the invariant, leaves nothing active and is idempotent |
| Connection.Connect | software/scouterhud/qrlink/connection.py:33-59 | succeeds exactly for an "mqtt" link whose handshake completes; success makes it active and newest in the history; failure keeps the history; the callbacks are recorded either way |
| Connection.FailedConnectInactive | software/scouterhud/qrlink/connection.py:43-59 | after a failed connect nothing is active or connected, because the old device was disconnected first |
| Connection.ConnectValid | software/scouterhud/qrlink/connection.py:33-59 | connect keeps the invariant (unique ids, cursor on an entry, active = transport's link = newest entry) |
| Connection.ConnectKeepsOthers | software/scouterhud/qrlink/connection.py:87-92 | after a successful connect the link is the only entry with its id and every other known device still is known |
| Connection.ReconnectTo | software/scouterhud/qrlink/connection.py:81-85 | without a data callback from an earlier connect nothing happens; otherwise it is connect with the recorded callbacks |
| Connection.SwitchNext | software/scouterhud/qrlink/connection.py:67-72 | with two or more devices the cursor advances cyclically and the entry under it is returned; otherwise nothing changes |
| Connection.SwitchPrev | software/scouterhud/qrlink/connection.py:74-79 | the same one step back, wrapping from the first entry to the last |
| Connection.SwitchWraps | software/scouterhud/qrlink/connection.py:67-79 | next from the last entry gives the first; prev from the first gives the last |
| Connection.SwitchNextPrev | software/scouterhud/qrlink/connection.py:67-79 | prev undoes next |
| Connection.NextTimes | software/scouterhud/qrlink/connection.py:67-72 | `k` steps forward keep the invariant and the history |
| Connection.NextTimesIndex | software/scouterhud/qrlink/connection.py:67-72 | `k` steps forward move the cursor by `k` modulo the history length, so every device is reached |
| Connection.Deliver | software/scouterhud/qrlink/transports/mqtt.py:101-117 | a broker message keeps the invariant, the count, the cursor and the callbacks, and every history entry but the newest; the shared link's metadata is written to the active device and the newest entry; without a transport nothing happens |
| Connection.DeliverMetadata | software/scouterhud/qrlink/transports/mqtt.py:109-111 | metadata shows up through the active device and the newest history entry |
| AuthManager.NewManager | software/scouterhud/auth/auth_manager.py:42-55 | the configured PINs are the given ones, no device is locked out, the invariant holds |
| AuthManager.AuthType | software/scouterhud/auth/auth_manager.py:61-63 | the method with an empty one read as "open"; never empty |
| AuthManager.NeedsAuthType | software/scouterhud/auth/auth_manager.py:57-63 | a device needs authentication exactly when its effective method is not "open" |
| AuthManager.IsLockedOut | software/scouterhud/auth/auth_manager.py:65-74 | locked exactly while a lockout is set and in the future; an expired lockout is removed together with the failure count |
| AuthManager.IsLockedOutValid | software/scouterhud/auth/auth_manager.py:65-74 | the lockout check keeps the invariant and never touches another device |
| AuthManager.LockoutRemaining | software/scouterhud/auth/auth_manager.py:76-83 | on the whole-second clock: zero exactly when no lockout is pending; otherwise now plus the remaining time is the lockout end |
| AuthManager.LockoutRemainingBounded | software/scouterhud/auth/auth_manager.py:76-83 | the remaining time is at most 900 seconds |
| AuthManager.LockedOutIffRemaining | software/scouterhud/auth/auth_manager.py:65-83 | on the whole-second clock, locked out exactly when time remains |
| AuthManager.ValidatePin | software/scouterhud/auth/auth_manager.py:85-130 | succeeds exactly when the device is not locked out and the expected PIN is the one given; the credential is that PIN |
| AuthManager.ComparePin | software/scouterhud/auth/auth_manager.py:98-130 | succeeds exactly when the PIN matches the runtime PIN, or else the configured one |
| AuthManager.ValidateToken | software/scouterhud/auth/auth_manager.py:132-140 | succeeds exactly for a non-empty stored token, which is the credential; otherwise "No token configured" |
| AuthManager.StorePin | software/scouterhud/auth/auth_manager.py:142-144 | sets the runtime PIN of one device, nothing else |
| AuthManager.StoreToken | software/scouterhud/auth/auth_manager.py:146-148 | sets the token of one device, nothing else |
| AuthManager.LockedOutRefuses | software/scouterhud/auth/auth_manager.py:87-92 | while locked out even the right PIN is refused with the minutes-left message, and nothing changes |
| AuthManager.NoPinRefuses | software/scouterhud/auth/auth_manager.py:94-104 | with no PIN at all the attempt is refused without counting a failure |
| AuthManager.CorrectPinClears | software/scouterhud/auth/auth_manager.py:106-110 | the right PIN succeeds and clears the device's failure count and lockout |
| AuthManager.WrongPinCounts | software/scouterhud/auth/auth_manager.py:112-130 | a wrong PIN adds one failure; the fifth sets a 900-second lockout with the "Too many attempts" message, earlier ones report the attempts left |
| AuthManager.ValidatePinValid | software/scouterhud/auth/auth_manager.py:85-130 | validation keeps the invariant (counts 1..5, a lockout exactly at five failures), keeps the time bound, and changes no other device |
| AuthManager.ComparePinValid | software/scouterhud/auth/auth_manager.py:98-130 | the comparison step keeps the invariant and the bound and changes no other device |
| AuthManager.ClearValid | software/scouterhud/auth/auth_manager.py:106-110 | the right PIN forgets the device's failures and lockout and keeps the invariant, the bound and every other device |
| AuthManager.StrikeValid | software/scouterhud/auth/auth_manager.py:112-130 | a wrong PIN on a device that is not locked out keeps the invariant, the bound and every other device |
| AuthManager.SameOthersTrans | software/scouterhud/auth/auth_manager.py:85-130 | "no other device changed" composes over the two steps of validation |
| AuthManager.BoundedLater | software/scouterhud/auth/auth_manager.py:76-83 | a lockout bound that holds now holds at every later time |
| AuthManager.WrongStep | software/scouterhud/auth/auth_manager.py:112-130 | one wrong PIN on a device that is not locked out adds one failure and locks it for 900 seconds exactly when that reaches five, changing nothing else |
| AuthManager.StrikesFrom | software/scouterhud/auth/auth_manager.py:112-130 | from any count `c`, `n` more wrong PINs with `c + n <= 5` give count `c + n`, keep the PINs, and set the lockout exactly when the count reaches five |
| AuthManager.StrikesCount | software/scouterhud/auth/auth_manager.py:112-130 | after `n` wrong PINs from a clean state the failure count is `n`, the PINs are unchanged, and a 900-second lockout is set exactly at five |
| AuthManager.FiveStrikes | software/scouterhud/auth/auth_manager.py:26-27 | five wrong PINs in a row lock the device out for the next 900 seconds |
| PinEntry.Zeros | software/scouterhud/auth/pin_entry.py:31 | `[0] * n` |
| PinEntry.Init | software/scouterhud/auth/pin_entry.py:28-36 | a fresh entry: all digits 0, cursor on the first, nothing submitted, cancelled or failed; the PIN text has the configured length |
| PinEntry.PinValue | software/scouterhud/auth/pin_entry.py:46-49 | one decimal digit character per digit |
| PinEntry.DigitsText | software/scouterhud/auth/pin_entry.py:46-49 | each character is the digit's character |
| PinEntry.PinValueDigits | software/scouterhud/auth/pin_entry.py:46-49 | reading the text back gives the digits |
| PinEntry.PinValueInjective | software/scouterhud/auth/pin_entry.py:46-49 | two entries show the same PIN exactly when their digits agree |
| PinEntry.Clamp | software/scouterhud/auth/pin_entry.py:64 | the cursor bound keeps it on a digit and leaves an in-range value alone |
| PinEntry.SetCursorDigit | software/scouterhud/auth/pin_entry.py:62-65 | setting the selected digit keeps the entry well-formed |
| PinEntry.Rotate | software/scouterhud/auth/pin_entry.py:73-79 | up turns 9 into 0 and otherwise adds one; down turns 0 into 9 and otherwise subtracts one; in general the result is the digit in 0..9 congruent to the digit plus the step, as Python's `% 10` gives |
| PinEntry.HandleEvent | software/scouterhud/auth/pin_entry.py:59-92 | every event keeps the entry well-formed, its length and its device name |
| PinEntry.EditIsLocal | software/scouterhud/auth/pin_entry.py:61-79 | a digit edit touches only the digit under the cursor and clears the error message |
| PinEntry.EditValue | software/scouterhud/auth/pin_entry.py:61-79 | the new digit and cursor per editing event: direct digits set and advance, backspace zeroes and steps back, up/down rotate |
| PinEntry.MoveClamps | software/scouterhud/auth/pin_entry.py:81-85 | moving right stops at the last digit and left at the first; nothing else changes |
| PinEntry.SubmitAndCancel | software/scouterhud/auth/pin_entry.py:87-92 | submit marks the entry done and counts exactly one more attempt; cancel marks it cancelled |
| PinEntry.OtherEventsIgnored | software/scouterhud/auth/pin_entry.py:59-92 | events outside the PIN vocabulary leave the entry as it is |
| PinEntry.UpDownInverse | software/scouterhud/auth/pin_entry.py:73-79 | up then down restores the digits and cursor |
| PinEntry.UpTimes | software/scouterhud/auth/pin_entry.py:73-75 | `k` turns upward keep the entry well-formed and the cursor in place |
| PinEntry.RotateUpTimes | software/scouterhud/auth/pin_entry.py:73-75 | after `k` turns upward the selected digit advanced by `k` modulo 10 and no other digit changed |
| PinEntry.UpTimesPeriodic | software/scouterhud/auth/pin_entry.py:73-75 | ten more turns give the same digits |
| PinEntry.UpReachesEveryDigit | software/scouterhud/auth/pin_entry.py:73-75 | every digit is reachable from every other by turning up |
| PinEntry.SetError | software/scouterhud/auth/pin_entry.py:94-99 | shows the message, clears the submission, zeroes the digits and puts the cursor on the first, keeping attempts and cancellation |
| PinEntry.SetErrorRestarts | software/scouterhud/auth/pin_entry.py:94-99 | a retry after an error starts from the same digits and cursor as a fresh screen |
| InputManager.AddBackend | software/scouterhud/input/input_manager.py:21-23 | the backend goes last and the others keep their order |
| InputManager.Start | software/scouterhud/input/input_manager.py:25-30 | each backend is started unless its start raises; the others are unaffected |
| InputManager.Poll | software/scouterhud/input/input_manager.py:39-47 | the oldest event of the first available backend with one, which alone loses it; nothing when no backend is ready |
| InputManager.PollEmpty | software/scouterhud/input/input_manager.py:39-47 | with no backends there is never an event |
| InputManager.PollSkipsUnavailable | software/scouterhud/input/input_manager.py:39-47 | an unavailable backend is never polled |
| InputManager.PollPriority | software/scouterhud/input/input_manager.py:39-47 | a ready backend is served before every later one, which keeps its queue |
| InputManager.SetNumericMode | software/scouterhud/input/input_manager.py:49-53 | every backend with the switch gets the mode; the others and all queues are unchanged |
| InputManager.SetNumericModeKeepsPoll | software/scouterhud/input/input_manager.py:49-53 | switching the mode never changes what the next poll returns |
| Deque.Push | software/scouterhud/input/phone_input.py:113 | `deque(maxlen).append`: the new element goes last; below capacity nothing is lost; at capacity the oldest is dropped |
| Deque.Pop | software/scouterhud/input/phone_input.py:162-166 | `popleft` guarded by emptiness: nothing for an empty queue, otherwise the first element and the rest |
| Deque.PushAll | software/scouterhud/input/keyboard_input.py:67-84 | a run of appends keeps the capacity |
| Deque.Newest | software/scouterhud/input/keyboard_input.py:41 | the newest `cap` elements, in order |
| Deque.PushAllKeepsNewest | software/scouterhud/input/keyboard_input.py:41 | a run of appends onto a bounded deque keeps exactly the newest `cap` elements of everything, in order |
| Deque.NewestStep | software/scouterhud/input/keyboard_input.py:41 | one bounded append does not change which newest elements survive later appends |
| Deque.PushPop | software/scouterhud/input/gauntlet_input.py:132 | below capacity, a pop after a push returns the oldest element |
| KeyboardInput.NumericIsRelabelledNav | software/scouterhud/input/keyboard_input.py:91-123 | the numeric table is the navigation table relabelled, and only yields PIN-entry events or Cancel |
| KeyboardInput.FixedKeys | software/scouterhud/input/keyboard_input.py:91-123 | Escape cancels and Return confirms or submits in both modes |
| KeyboardInput.MappedEvents | software/scouterhud/input/keyboard_input.py:72-82 | the events of a batch of key presses, each from the keyboard with no value |
| KeyboardInput.MappedEventsAllMapped | software/scouterhud/input/keyboard_input.py:72-82 | a batch of mapped keys loses nothing and keeps the order |
| KeyboardInput.Init | software/scouterhud/input/keyboard_input.py:40-44 | an empty queue, not running, navigation mode |
| KeyboardInput.Start | software/scouterhud/input/keyboard_input.py:57-62 | runs only with the window library |
| KeyboardInput.Stop | software/scouterhud/input/keyboard_input.py:64-65 | stops and changes nothing else |
| KeyboardInput.SetNumericMode | software/scouterhud/input/keyboard_input.py:53-55 | stores the mode, nothing else |
| KeyboardInput.Poll | software/scouterhud/input/keyboard_input.py:67-84 | when not running (or without the window library) nothing is read or returned; the queue stays within 32 events |
| KeyboardInput.PollServesOldest | software/scouterhud/input/keyboard_input.py:67-84 | a running poll returns the oldest of the 32 newest events among the queued and newly read ones |
| KeyboardInput.CloseRequestQuits | software/scouterhud/input/keyboard_input.py:72-74 | a window-close request surfaces as a Quit event in either mode |
| KeyboardInput.MapCharTable | software/scouterhud/input/keyboard_input.py:186-216 | the terminal tables: w/a/s/d arrows, newline or carriage return, x, and the h/n/p/q shortcuts; the numeric table is the navigation one relabelled; no key scans a QR |
| KeyboardInput.MapCharRelabel | software/scouterhud/input/keyboard_input.py:186-216 | for every character the numeric table is the navigation table relabelled, and no character scans a QR |
| KeyboardInput.StdinStart | software/scouterhud/input/keyboard_input.py:151-161 | runs unless the terminal cannot enter character mode |
| KeyboardInput.StdinStop | software/scouterhud/input/keyboard_input.py:163-168 | stops, keeping the mode |
| KeyboardInput.StdinPoll | software/scouterhud/input/keyboard_input.py:170-184 | an event exactly when running, a character was read and it is mapped; it carries the terminal source |
| PhoneInput.EventMapNamed | software/scouterhud/input/phone_input.py:27-60 | every name in the table is the name of the event it maps to |
| PhoneInput.NavNamesNamed | software/scouterhud/input/phone_input.py:28-34 | each navigation name is in the table and names the event it maps to |
| PhoneInput.PinNamesNamed | software/scouterhud/input/phone_input.py:35-50 | each PIN-editing name is in the table and names the event it maps to |
| PhoneInput.DigitNamesNamed | software/scouterhud/input/phone_input.py:40-49 | each direct-digit name is in the table and names the event it maps to |
| PhoneInput.MiscNamesNamed | software/scouterhud/input/phone_input.py:51-59 | each remaining name is in the table and names the event it maps to |
| PhoneInput.EventNameMapped | software/scouterhud/input/phone_input.py:27-60 | every named event is in the table under its name |
| PhoneInput.DigitKeyMapped | software/scouterhud/input/phone_input.py:40-49 | `digit_0` … `digit_9` map to the ten direct digits |
| PhoneInput.NavKeyMapped | software/scouterhud/input/phone_input.py:28-31 | the four direction names map to their events |
| PhoneInput.ChoiceKeyMapped | software/scouterhud/input/phone_input.py:32-34 | `confirm`, `cancel` and `home` map to their events |
| PhoneInput.PinKeyMapped | software/scouterhud/input/phone_input.py:35-37 | `digit_up`, `digit_down` and `digit_next` map to their events |
| PhoneInput.PinEditKeyMapped | software/scouterhud/input/phone_input.py:38-50 | `digit_prev`, `digit_submit` and `digit_backspace` map to their events |
| PhoneInput.AlphaKeyMapped | software/scouterhud/input/phone_input.py:51-54 | the four text-entry names map to their events |
| PhoneInput.MiscKeyMapped | software/scouterhud/input/phone_input.py:55-59 | the biometric, device-switching, scan and quit names map to their events |
| PhoneInput.OtherKeyMapped | software/scouterhud/input/phone_input.py:27-60 | every named non-digit event is in the table under its name |
| PhoneInput.EventMapBijective | software/scouterhud/input/phone_input.py:27-60 | a name maps to an event exactly when it is that event's name, so the table is one-to-one |
| PhoneInput.ParseMessage | software/scouterhud/input/phone_input.py:307-351 | text that is not JSON gives no event; a binary message that is not UTF-8 raises, as `json.loads` does outside the caught errors; every event comes from a JSON object and from the phone |
| PhoneInput.ParseInput | software/scouterhud/input/phone_input.py:316-325 | an input event comes from the phone |
| PhoneInput.ParseQrlink | software/scouterhud/input/phone_input.py:327-337 | a link event comes from the phone |
| PhoneInput.ParseAiChat | software/scouterhud/input/phone_input.py:339-349 | a chat event comes from the phone |
| PhoneInput.InputMessage | software/scouterhud/input/phone_input.py:316-325 | an input message gives an event exactly for a name in the table, with that event and the message's value (null when absent) |
| PhoneInput.QrlinkMessage | software/scouterhud/input/phone_input.py:327-337 | a text URL gives an event exactly when it fits in 512 characters and has the `qrlink://` scheme; the event carries the URL; never raises |
| PhoneInput.AiChatMessageText | software/scouterhud/input/phone_input.py:339-349 | a text message gives an event exactly when non-empty, carrying its first 1024 characters |
| PhoneInput.UnknownTypeIgnored | software/scouterhud/input/phone_input.py:314-351 | any other message type gives nothing |
| PhoneInput.TextMessagesDoNotRaise | software/scouterhud/input/phone_input.py:314-351 | messages whose event, URL and chat fields are text never raise |
| PhoneInput.HandleFrame | software/scouterhud/input/phone_input.py:279-299 | an oversize or rate-limited message is dropped without touching the window; otherwise its time enters the window and its event, if any, the queue; a raising message closes the connection |
| PhoneInput.UndecodableFrames | software/scouterhud/input/phone_input.py:279-312 | a checked message that is not UTF-8 is recorded in the window and closes the connection; one that is not JSON is recorded and the connection stays open |
| PhoneInput.HandleFrameQueues | software/scouterhud/input/phone_input.py:293-298 | an accepted message's event is appended to the 64-event queue |
| PhoneInput.RateLimitSpacing | software/scouterhud/input/phone_input.py:286-294 | on a monotonic clock, a message accepted on a full window comes at least one second after the oldest of the last 30 accepted, and the window stays monotonic |
| PhoneInput.Init | software/scouterhud/input/phone_input.py:111-123 | an empty queue, navigation mode, not running |
| PhoneInput.Start | software/scouterhud/input/phone_input.py:141-150 | the server runs and the backend is available |
| PhoneInput.Stop | software/scouterhud/input/phone_input.py:152-160 | the backend is no longer available |
| PhoneInput.Poll | software/scouterhud/input/phone_input.py:162-166 | the oldest queued event, whether or not the server runs |
| PhoneInput.SetNumericMode | software/scouterhud/input/phone_input.py:132-136 | stores the mode and broadcasts `{"type": "mode", "numeric": b}` |
| PhoneInput.StateMessage | software/scouterhud/input/phone_input.py:168-172 | `{"type": "state", "state": s}` updated with the keyword arguments, which win on a clash; no other keys |
| PhoneInput.AiResponseMessage | software/scouterhud/input/phone_input.py:174-176 | `{"type": "ai_response", "message": m}` |
| PhoneInput.DeviceListMessage | software/scouterhud/input/phone_input.py:178-189 | `{"type": "device_list", "devices": …, "selected": i, "active": id}` |
| GauntletInput.TapTablesBijective | software/scouterhud/input/gauntlet_input.py:72-99 | each tap table is a one-to-one correspondence between the five single pads and five events |
| GauntletInput.ModeAffectsOnlyTaps | software/scouterhud/input/gauntlet_input.py:309-340 | only taps depend on the mode; in numeric mode a tap only gives PIN-entry events |
| GauntletInput.ReleaseIgnored | software/scouterhud/input/gauntlet_input.py:309-340 | a release or an unknown event type never gives an event |
| GauntletInput.Gestures | software/scouterhud/input/gauntlet_input.py:81-112 | cancel, home, voice toggle and lock each come from exactly one gesture, in both modes |
| GauntletInput.Init | software/scouterhud/input/gauntlet_input.py:124-142 | an empty queue, navigation mode, not running, not connected, no battery reading |
| GauntletInput.Start | software/scouterhud/input/gauntlet_input.py:169-185 | without the BLE library nothing happens |
| GauntletInput.Stop | software/scouterhud/input/gauntlet_input.py:186-194 | stops and drops the link |
| GauntletInput.LinkUp | software/scouterhud/input/gauntlet_input.py:251-282 | the link going up marks the backend connected, changes nothing else, and writes the current mode byte (2 for numeric, 1 otherwise), the same byte a mode change would write on the link |
| GauntletInput.LinkDown | software/scouterhud/input/gauntlet_input.py:251-282 | the link going down marks it disconnected |
| GauntletInput.OnInputNotification | software/scouterhud/input/gauntlet_input.py:283-301 | notifications under four bytes are dropped; otherwise the translated event, if any, is appended to the 64-event queue |
| GauntletInput.TimestampIgnored | software/scouterhud/input/gauntlet_input.py:283-301 | the timestamp bytes never matter |
| GauntletInput.OnBattery | software/scouterhud/input/gauntlet_input.py:302-308 | the first byte, if any, is the new battery level |
| GauntletInput.Poll | software/scouterhud/input/gauntlet_input.py:195-198 | the oldest queued event, independent of the link |
| GauntletInput.NotificationThenPoll | software/scouterhud/input/gauntlet_input.py:283-301 | on an empty queue, the next poll returns the translated event of a notification |
| GauntletInput.ModeByte | software/scouterhud/input/gauntlet_input.py:341-352 | 2 for numeric, 1 for navigation |
| GauntletInput.SetNumericMode | software/scouterhud/input/gauntlet_input.py:152-159 | stores the mode and writes the mode byte exactly while the link is up |
| GauntletInput.HapticByteInjective | software/scouterhud/input/gauntlet_input.py:61-66 | every haptic pattern has its own byte |
| GauntletInput.SendHaptic | software/scouterhud/input/gauntlet_input.py:200-208 | a write of the pattern's byte exactly while the link is up |
| Widgets.ValueColor | software/scouterhud/display/widgets.py:36-59 | white without a schema, otherwise green, yellow or red |
| Widgets.RedIsBreach | software/scouterhud/display/widgets.py:36-59 | red exactly at or past a threshold |
| Widgets.YellowIsNearBreach | software/scouterhud/display/widgets.py:36-59 | yellow only within 10% short of a threshold |
| Widgets.ColorBands | software/scouterhud/display/widgets.py:36-59 | with a schema the colours split the readings exactly: red at or past a threshold, yellow exactly when not red and within 10% of a threshold, green exactly when neither |
| Widgets.UpperThresholdMonotone | software/scouterhud/display/widgets.py:36-59 | with only an upper threshold a higher reading is never less alarming |
| Widgets.LowerThresholdMonotone | software/scouterhud/display/widgets.py:36-59 | with only a lower threshold a lower reading is never less alarming |
| Widgets.NoThresholdsGreen | software/scouterhud/display/widgets.py:36-59 | a schema without thresholds colours every reading green |
| Widgets.DrawHeader | software/scouterhud/display/widgets.py:61-80 | the name cut to 22 characters, the type's last dotted segment as the badge (none for an empty type), and the content's start 34 pixels lower |
| Widgets.BadgeOfDottedType | software/scouterhud/display/widgets.py:61-80 | a dotted type's badge is its last component |
| Widgets.StatusBar | software/scouterhud/display/widgets.py:113-129 | alerts replace the status with a red alert line; otherwise the upper-cased status, green exactly for stable, running or idle, else yellow |
| Renderer.ChooseLayoutByPrefix | software/scouterhud/display/renderer.py:30-43 | a type gets a specialised layout exactly when it starts with that layout's prefix, and the generic one exactly when it starts with none |
| Renderer.PrefixesExclusive | software/scouterhud/display/renderer.py:32-41 | at most one layout prefix matches a type, so the order of the tests does not matter |
| Renderer.PrefixesDiffer | software/scouterhud/display/renderer.py:32-41 | two different layout prefixes differ within their common length |
| Renderer.UntypedIsGeneric | software/scouterhud/display/renderer.py:30-43 | a link without a type gets the generic layout |
| Renderer.AlertBorder | software/scouterhud/display/renderer.py:45-48 | the red border is drawn exactly when the sample's "alerts" is truthy |
| Renderer.NonTs | software/scouterhud/display/renderer.py:219-221 | the members other than "ts", in order |
| Renderer.GenericRowsCutoff | software/scouterhud/display/renderer.py:215-228 | the generic rows are the first members other than "ts", as many as fit above y 200, with "..." exactly when some are left over |
| Renderer.GenericShowsSix | software/scouterhud/display/renderer.py:215-228 | below the header there is room for six rows |
| Renderer.GenericHeader | software/scouterhud/display/renderer.py:217 | the generic header's badge falls back to "custom" |
| Renderer.InfraStatus | software/scouterhud/display/renderer.py:157-159 | "OK" and no alerts exactly when the count is 0; otherwise the status is the only alert |
| Renderer.InfraStatusCount | software/scouterhud/display/renderer.py:157-159 | the alert count can be read back from the status line |
| Renderer.InfraStatusBar | software/scouterhud/display/renderer.py:157-159 | the infrastructure status bar is "OK" in yellow (not one of the green words) with no alerts, or a red alert line repeating the status |
| Renderer.Unlines | software/scouterhud/display/renderer.py:263-275 | one drawn line per word group, its words joined by spaces |
| Renderer.WrapLoopGroups | software/scouterhud/display/renderer.py:263-275 | the string loop of the error screen draws exactly the joined word groups of the reference |
| Renderer.FlattenGroups | software/scouterhud/display/renderer.py:263-275 | the groups hold all the words, in order |
| Renderer.GroupsFit | software/scouterhud/display/renderer.py:266-273 | every group of two or more words fits in 28 characters |
| Renderer.GroupsNonEmpty | software/scouterhud/display/renderer.py:266-275 | only the first group can be empty, and only when the first word alone is too long |
| Renderer.LineWordsUnlines | software/scouterhud/display/renderer.py:263-275 | splitting the drawn lines gives back the groups' words |
| Renderer.GroupsAreWords | software/scouterhud/display/renderer.py:263-275 | every group consists of words |
| Renderer.FlattenMember | software/scouterhud/display/renderer.py:263-275 | a word of a group is a word of the message |
| Renderer.WrapMessageProperties | software/scouterhud/display/renderer.py:256-277 | the error screen's lines give back the message's words in order; a line over 28 characters is a single word; an empty line only comes first, before an over-long first word |
| Renderer.Window | software/scouterhud/display/renderer.py:305-307 | the window starts two rows above the selection (not before the first) and holds five rows, or fewer only when it reaches the end of the list |
| Renderer.WindowHoldsSelection | software/scouterhud/display/renderer.py:305-310 | a valid selection is always inside the window, at most two rows from its top |
| Renderer.DeviceRowFacts | software/scouterhud/display/renderer.py:311-334 | the title is the first 20 characters of the name or id (all of it when shorter); the type is "unknown" when unset, the whole type without a dot, otherwise the dot-free text after its last dot; the PIN badge appears exactly for a method other than "" and "open"; active exactly for the active id |
| Renderer.DeviceListRows | software/scouterhud/display/renderer.py:305-342 | the list shows the device count, at most five rows, one per device of the window in order, and the scroll marks exactly when rows are hidden |
| Renderer.DeviceListSelection | software/scouterhud/display/renderer.py:305-334 | the selected device is among the shown rows and exactly its row is highlighted |
| Renderer.RenderDeviceList | software/scouterhud/display/renderer.py:280-349 | the empty-history screen exactly for no devices |
| Renderer.DeviceListShowsWindow | software/scouterhud/display/renderer.py:305-342 | the rows are the window's devices in order, exactly the selected one is highlighted, and the scroll marks show exactly when rows are hidden above or below |
| Renderer.ConnectingText | software/scouterhud/display/renderer.py:245-253 | the first 28 characters of the device id, or all of it when shorter |
| Text.SplitLast | software/scouterhud/qrlink/protocol.py:121 | `rsplit(c, 1)`: the separator is absent from the second part and the parts join back to the input |
| Text.LastSegment | software/scouterhud/display/renderer.py:329 | `split(".")[-1]`: the whole input when it has no dot, otherwise the dot-free text following its last dot |
| Text.Prefix | software/scouterhud/display/renderer.py:324 | `s[:n]`: a prefix of length at most `n`, the whole text when shorter |
| Text.Words | software/scouterhud/display/renderer.py:263 | `split()`: the words contain no blank and are non-empty |
| Text.WordsLayout | software/scouterhud/display/renderer.py:263 | the input is its words, in order, laid between runs of blanks, with at least one blank between two words, so `split()` yields exactly the maximal blank-free runs |
| Text.WordsUnwords | software/scouterhud/display/renderer.py:263-267 | splitting words joined by spaces gives them back |
| Text.StripJoin | software/scouterhud/display/renderer.py:267 | `f"{line} {word}".strip()` of a joined line is the line with the word appended |
| Text.ParseNatToString | software/scouterhud/qrlink/protocol.py:105 | decimal text of a number parses back to it |
| Json.GetSpec | software/scouterhud/qrlink/protocol.py:54-60 | `dict.get`: the first member with the key, none when absent |
| Json.Update | software/scouterhud/input/phone_input.py:168-172 | `dict.update`: the other's keys win, the rest keep their values, no new keys appear |
| ScouterHud.Init | software/scouterhud/main.py:71-102 | scanning, running, no data, no PIN entry, list row 0, error return "scanning", no configured PINs, no devices; the invariant holds |
| ScouterHud.ShowError | software/scouterhud/main.py:350-354 | the error screen with the message and the return state, nothing else changed |
| ScouterHud.DoConnect | software/scouterhud/main.py:172-191 | streaming with no data on the new active device exactly when an "mqtt" handshake completes; otherwise the error screen with "Cannot connect to host:port. Is the broker running?", returning to scanning, nothing active |
| ScouterHud.InitiateConnection | software/scouterhud/main.py:158-170 | a device needing authentication is only made pending, with a four-digit PIN entry titled by name or id and numeric mode on, and no connection is attempted; any other device is connected at once |
| ScouterHud.HandleEvent | software/scouterhud/main.py:220-234 | QUIT stops the loop in every state and changes nothing else; every event keeps the invariant |
| ScouterHud.HandleAuth | software/scouterhud/main.py:236-259 | PIN-state events keep the invariant and the running flag |
| ScouterHud.LeaveAuthValid | software/scouterhud/main.py:243-257 | leaving the PIN state (cancelled or accepted) with numeric mode off and no PIN entry gives a controller ready to connect, and a valid one back at scanning |
| ScouterHud.StayInAuthValid | software/scouterhud/main.py:241-259 | staying in the PIN state with an entry of the same length keeps the invariant |
| ScouterHud.HandleStreaming | software/scouterhud/main.py:261-282 | streaming events keep the invariant and the running flag |
| ScouterHud.HandleDeviceList | software/scouterhud/main.py:284-300 | device-list events keep the invariant and the running flag |
| ScouterHud.HandleError | software/scouterhud/main.py:302-305 | error-screen events keep the invariant and the running flag |
| ScouterHud.OnData | software/scouterhud/main.py:343-345 | the newest payload replaces the latest data, nothing else changes |
| ScouterHud.Callbacks | software/scouterhud/main.py:343-348 | the callbacks of a broker message change only the latest data |
| ScouterHud.Deliver | software/scouterhud/main.py:343-348 | a broker message keeps the invariant and the device count and changes only the connection and the latest data |
| ScouterHud.StartInputs | software/scouterhud/main.py:197 | starting the inputs keeps the invariant and changes nothing else |
| ScouterHud.PollKeepsModes | software/scouterhud/main.py:202 | polling the inputs never changes a backend's mode |
| ScouterHud.Tick | software/scouterhud/main.py:199-204 | after QUIT the loop does nothing; with no input nothing changes; otherwise the polled event is handled; the invariant is kept |
| ScouterHud.Shutdown | software/scouterhud/main.py:213-215 | the loop's exit disconnects, leaving nothing active |
| ScouterHud.ScanningIgnoresEvents | software/scouterhud/main.py:226-234 | scanning has no handler: every event but QUIT is ignored |
| ScouterHud.QuitEndsLoop | software/scouterhud/main.py:199-226 | after QUIT the loop's next pass does nothing |
| ScouterHud.AuthCancelled | software/scouterhud/main.py:243-248 | cancelling the PIN entry returns to scanning with the PIN state cleared and numeric mode off, without connecting or consulting the PIN gate |
| ScouterHud.AuthAccepted | software/scouterhud/main.py:250-257 | a finished PIN the gate accepts clears the PIN state, turns numeric mode off and connects to the pending device, ending streaming or on the error screen |
| ScouterHud.AuthRejected | software/scouterhud/main.py:250-259 | a finished PIN the gate refuses keeps the PIN state and restarts the entry with the gate's message, without connecting |
| ScouterHud.AuthTyping | software/scouterhud/main.py:236-259 | while the PIN is typed only the entry changes |
| ScouterHud.ConnectOnlyWithAcceptedPin | software/scouterhud/main.py:236-259 | from the PIN state the connection manager changes only when a finished PIN was accepted for the pending device |
| ScouterHud.StreamingHome | software/scouterhud/main.py:275-278 | HOME opens the device list on row 0 exactly when a device is known, and does nothing otherwise |
| ScouterHud.StreamingCancel | software/scouterhud/main.py:280-282 | CANCEL disconnects, keeps the history and returns to scanning |
| ScouterHud.SwitchWithOneDevice | software/scouterhud/main.py:263-273 | with at most one known device switching does nothing |
| ScouterHud.SwitchNextConnects | software/scouterhud/main.py:263-267 | NEXT_DEVICE starts the connection flow for the entry after the cursor: a PIN device becomes pending; an open device that connects becomes active, newest in the history, with the cursor on it |
| ScouterHud.DeviceListMoves | software/scouterhud/main.py:288-292 | NAV_UP and NAV_DOWN move the selection by one, stop at the first and last rows and change nothing else |
| ScouterHud.DownThenUp | software/scouterhud/main.py:288-292 | down then up returns to the same row unless down was stopped by the last row |
| ScouterHud.DeviceListChoose | software/scouterhud/main.py:294-300 | CONFIRM starts the connection flow for the selected row; CANCEL returns to streaming |
| ScouterHud.ErrorReturns | software/scouterhud/main.py:302-305 | CONFIRM or CANCEL leaves the error screen for scanning; everything else but QUIT is ignored |
| ScouterHud.FailedConnectThenConfirm | software/scouterhud/main.py:185-191 | a failed connection ends on the error screen, and confirming it leads to scanning |
| ScouterHud.DeliverData | software/scouterhud/main.py:343-345 | a message on the active device's data topic becomes the latest data |
| ScouterHud.DeliverMetadataKeepsData | software/scouterhud/main.py:347-348 | a metadata message leaves the latest data as it was |
| ScouterHud.RenderFollowsState | software/scouterhud/main.py:309-339 | the screen follows the state: the PIN screen shows the entry, the device list has rows, the error screen keeps every word of the message, streaming shows the newest non-empty data on the active device |

## Left out

- Pixels, fonts and coordinates: renderer.py and widgets.py are reduced to the decisions made before drawing. These are the layout, colours, header text, status text, which rows are shown, the word wrap and the device list window.
- The value cells of the medical, vehicle, home and industrial layouts are not modelled. For the infrastructure layout only the status bar is.
- Renderer.InfraStatus: takes the alert count as an integer. Reading `active_alerts` from the data with its default of 0 is not modelled, and neither is a value there that is not an integer (Python would format a float or a string into the status).
- Renderer.Title / Renderer.TypeText: a name or type that is not a string, but truthy, is shown as the id, or treated as an empty type.
- Widgets.ValueColor: a non-numeric threshold (a string, say) is treated as absent. Python would raise when comparing it.
- The display backends, the camera and QR decoding, and the `run_scan`, `run_demo` and `main` entry points: these are I/O.
- The connecting screen shown during the blocking connect is not a state of `ScouterHud`. Renderer.ConnectingText models its text.
- Threads, the data lock, the 50 ms frame pacing and logging: each callback and each loop pass is one atomic step.
- The phone's HTTP and WebSocket server, the local IP lookup, the HTML page and the broadcast transport. Messages the phone receives are returned as JSON objects instead.
- The Gauntlet's BLE scan, its connection loop and its reconnection delays. Link up and link down are transitions of their own, and writes are returned instead of sent.
- The metadata wait of up to 3 seconds in `connect`: metadata may arrive before or after `connect` returns, and each arrival is a `Deliver` step.
- JSON numbers are reals; floating-point rounding and the `int`/`float` distinction are not modelled.
- Protocol.Parse: Python's `int()` also accepts signs, surrounding spaces and underscores. The model accepts only non-empty ASCII digit strings, so such ports and versions are rejected.
- UrlCodec.UnquotePlus: only percent escapes of ASCII bytes are decoded, so the round-trip lemmas require ASCII topics and auth methods.
- `urlparse(raw)` in the parser is computed and never used, so it is not modelled.
- PinEntry.Init: a PIN length of 0 is excluded. The program always uses 4.
- PinEntry rendering (`render`) is not modelled.
- PhoneInput.HandleFrame: the rate clock is integer milliseconds where the program uses float seconds.
- Text.Strip / Text.Words: whitespace is the ASCII blanks only.
- Text.Upper / Widgets.StatusBar: only ASCII letters are upper-cased, so the upper-cased status keeps its length. Python's `str.upper()` also maps other letters ("é" to "É") and can lengthen the text ("ß" to "SS").
- AuthManager.LockoutRemaining: the clock is whole seconds. The program's `time.monotonic()` is a float and it returns `int(remaining)`; that truncation is lost, so the program can report 0 in the last fraction of a second of a lockout, where the model reports at least 1.
- AuthManager.LockedOutIffRemaining: for the same reason the "locked out exactly when time remains" equivalence holds only on the whole-second clock. With the program's float clock, the remaining time can be 0 while the device is still locked out; only "time remains implies locked out" carries over.
- MqttTransport.OnMessage: a payload that is valid JSON but not an object (`5`, `[1, 2]`, `"x"`) is not represented. In the program, one on the metadata topic makes `update_from_metadata` raise on `.get`. One on the data topic becomes the latest data, and the renderer later raises on `data.get`.
- The event types are the union of those in events.py and those that phone_input.py and pin_entry.py use. Those are the ten direct digits, digit backspace, the four alpha keys, biometric auth, the received QR-Link and the AI chat message. events.py does not declare them.
- Stopping the input backends at shutdown (`input.stop()`) is not modelled; only the disconnect is.
