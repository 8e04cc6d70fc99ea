/** The two desktop keyboard backends: the window one, which drains the window system's
    key-down and quit events into a 32-event queue, and the terminal one, which reads one
    character per poll. Both translate through a navigation table and a numeric table
    chosen by the numeric-mode switch. The window system and the terminal are not
    modelled: the pending keys, the pending quit requests and the character read are
    arguments. */
module KeyboardInput {
  import opened Wrappers
  import opened Json
  import opened Events
  import Deque

  const Source: string := "keyboard"
  const StdinSource: string := "keyboard-stdin"
  const QueueCapacity: nat := 32

  /** A key code as the window system reports it; letters are their lower-case character. */
  datatype Key = KeyUp | KeyDown | KeyLeft | KeyRight | KeyReturn | KeyEscape | KeyLetter(ch: char) | KeyOther

  /** The navigation table: arrows, Return, Escape and the five letter shortcuts. */
  function MapKeyNav(key: Key): Option<EventType>
  {
    match key
    case KeyUp => Some(NavUp)
    case KeyDown => Some(NavDown)
    case KeyLeft => Some(NavLeft)
    case KeyRight => Some(NavRight)
    case KeyReturn => Some(Confirm)
    case KeyEscape => Some(Cancel)
    case KeyLetter(c) =>
      if c == 'h' then Some(Home)
      else if c == 'n' then Some(NextDevice)
      else if c == 'p' then Some(PrevDevice)
      else if c == 'q' then Some(Quit)
      else if c == 's' then Some(ScanQr)
      else None
    case KeyOther => None
  }

  /** The numeric table: only arrows, Return and Escape mean anything. */
  function MapKeyNumeric(key: Key): Option<EventType>
  {
    match key
    case KeyUp => Some(DigitUp)
    case KeyDown => Some(DigitDown)
    case KeyLeft => Some(DigitPrev)
    case KeyRight => Some(DigitNext)
    case KeyReturn => Some(DigitSubmit)
    case KeyEscape => Some(Cancel)
    case _ => None
  }

  function MapKey(numeric: bool, key: Key): Option<EventType>
  {
    if numeric then MapKeyNumeric(key) else MapKeyNav(key)
  }

  /** How the numeric layout relabels the navigation layout: vertical moves change the digit,
      horizontal moves change the position, confirming submits, cancelling stays. Every other
      navigation event has no numeric counterpart. */
  function Relabel(kind: Option<EventType>): Option<EventType>
  {
    match kind
    case Some(NavUp) => Some(DigitUp)
    case Some(NavDown) => Some(DigitDown)
    case Some(NavLeft) => Some(DigitPrev)
    case Some(NavRight) => Some(DigitNext)
    case Some(Confirm) => Some(DigitSubmit)
    case Some(Cancel) => Some(Cancel)
    case _ => None
  }

  /** The events of the numeric layout: the PIN-entry ones and Cancel. */
  predicate NumericEvent(kind: EventType)
  {
    kind in {DigitUp, DigitDown, DigitPrev, DigitNext, DigitSubmit, Cancel}
  }

  /** The numeric table is the navigation table relabelled, so the two layouts use the same
      physical keys; in numeric mode no key can navigate, switch device, scan or quit. */
  lemma NumericIsRelabelledNav(key: Key)
    ensures MapKeyNumeric(key) == Relabel(MapKeyNav(key))
    ensures MapKeyNumeric(key).Some? ==> NumericEvent(MapKeyNumeric(key).value)
  {
  }

  /** Escape cancels and Return confirms or submits, whatever the mode. */
  lemma FixedKeys(numeric: bool)
    ensures MapKey(numeric, KeyEscape) == Some(Cancel)
    ensures MapKey(numeric, KeyReturn) == Some(if numeric then DigitSubmit else Confirm)
  {
  }

  /** The events a batch of key presses maps to, in order; unmapped keys give nothing. */
  function MappedEvents(numeric: bool, keys: seq<Key>): (r: seq<InputEvent>)
    ensures |r| <= |keys|
    ensures forall i :: 0 <= i < |r| ==> r[i].source == Source && r[i].value == JNull
  {
    if |keys| == 0 then []
    else
      var head := match MapKey(numeric, keys[0]) case Some(k) => [Event(k, Source)] case None => [];
      head + MappedEvents(numeric, keys[1..])
  }

  /** A batch where every key is mapped loses nothing and keeps the order. */
  lemma {:induction false} MappedEventsAllMapped(numeric: bool, keys: seq<Key>)
    requires forall i :: 0 <= i < |keys| ==> MapKey(numeric, keys[i]).Some?
    ensures |MappedEvents(numeric, keys)| == |keys|
    ensures forall i :: 0 <= i < |keys| ==> MappedEvents(numeric, keys)[i].kind == MapKey(numeric, keys[i]).value
  {
    if |keys| > 0 {
      MappedEventsAllMapped(numeric, keys[1..]);
      var rest := MappedEvents(numeric, keys[1..]);
      assert MappedEvents(numeric, keys) == [Event(MapKey(numeric, keys[0]).value, Source)] + rest;
      forall i | 0 <= i < |keys|
        ensures MappedEvents(numeric, keys)[i].kind == MapKey(numeric, keys[i]).value
      {
        if i > 0 {
          assert keys[1..][i - 1] == keys[i];
        }
      }
    }
  }

  // ---------------------------------------------------------------------------
  // The window backend

  datatype Keyboard = Keyboard(queue: seq<InputEvent>, running: bool, numericMode: bool, hasPygame: bool)

  predicate Valid(kb: Keyboard)
  {
    Deque.Fits(kb.queue, QueueCapacity)
  }

  function Init(hasPygame: bool): (kb: Keyboard)
    ensures Valid(kb) && kb.queue == [] && !kb.running && !kb.numericMode
  {
    Keyboard([], false, false, hasPygame)
  }

  /** `start`: runs only when the window library is present. */
  function Start(kb: Keyboard): (r: Keyboard)
    ensures r.running <==> kb.hasPygame || kb.running
    ensures r.(running := kb.running) == kb
  {
    if !kb.hasPygame then kb else kb.(running := true)
  }

  function Stop(kb: Keyboard): (r: Keyboard)
    ensures !r.running && r.(running := kb.running) == kb
  {
    kb.(running := false)
  }

  function SetNumericMode(kb: Keyboard, enabled: bool): (r: Keyboard)
    ensures r.numericMode == enabled && r.(numericMode := kb.numericMode) == kb
  {
    kb.(numericMode := enabled)
  }

  /** The events one poll adds: the mapped key presses, then one Quit per window-close request. */
  function Pending(numeric: bool, keys: seq<Key>, quits: nat): seq<InputEvent>
  {
    MappedEvents(numeric, keys) + seq(quits, _ => Event(Quit, Source))
  }

  /** `poll`: when not running (or without the window library) nothing is read and nothing is
      returned; otherwise the new events are appended to the queue and the oldest is returned. */
  function Poll(kb: Keyboard, keys: seq<Key>, quits: nat): (r: (Option<InputEvent>, Keyboard))
    requires Valid(kb)
    ensures Valid(r.1)
    ensures !(kb.running && kb.hasPygame) ==> r == (None, kb)
    ensures r.1.(queue := kb.queue) == kb
  {
    if !kb.running || !kb.hasPygame then (None, kb)
    else
      var q := Deque.PushAll(kb.queue, Pending(kb.numericMode, keys, quits), QueueCapacity);
      var (e, q') := Deque.Pop(q);
      (e, kb.(queue := q'))
  }

  /** What a running poll hands out: the oldest of the 32 newest events among the queued ones
      and the new ones, and the rest stay queued in order. Nothing is lost while the queue
      does not overflow. */
  lemma PollServesOldest(kb: Keyboard, keys: seq<Key>, quits: nat)
    requires Valid(kb) && kb.running && kb.hasPygame
    ensures var all := kb.queue + Pending(kb.numericMode, keys, quits);
      var kept := Deque.Newest(all, QueueCapacity);
      var (e, kb') := Poll(kb, keys, quits);
      && (e.None? <==> all == [])
      && (e.Some? ==> [e.value] + kb'.queue == kept)
      && (|all| <= QueueCapacity ==> kept == all)
  {
    Deque.PushAllKeepsNewest(kb.queue, Pending(kb.numericMode, keys, quits), QueueCapacity);
  }

  /** A window-close request always surfaces as a Quit event, whatever the mode: with an
      empty queue and no key presses, the poll returns it. */
  lemma CloseRequestQuits(kb: Keyboard)
    requires Valid(kb) && kb.running && kb.hasPygame && kb.queue == []
    ensures Poll(kb, [], 1).0 == Some(Event(Quit, Source))
  {
    PollServesOldest(kb, [], 1);
    assert MappedEvents(kb.numericMode, []) == [];
    assert Pending(kb.numericMode, [], 1) == [Event(Quit, Source)];
  }

  /** The window backend counts as available whatever its state: the interface default. */
  predicate IsAvailable(kb: Keyboard)
  {
    true
  }

  // ---------------------------------------------------------------------------
  // The terminal backend

  /** The terminal tables: w/a/s/d for the arrows, newline or carriage return for Return,
      x for Escape, and in navigation mode h, n, p and q as in the window tables. */
  function MapChar(numeric: bool, ch: char): Option<EventType>
  {
    MapKey(numeric, CharKey(numeric, ch))
  }

  /** The key a terminal character stands for. 's' is a move down in both modes, so scanning
      has no terminal key. */
  function CharKey(numeric: bool, ch: char): Key
  {
    if ch == 'w' then KeyUp
    else if ch == 's' then KeyDown
    else if ch == 'a' then KeyLeft
    else if ch == 'd' then KeyRight
    else if ch == '\n' || ch == '\r' then KeyReturn
    else if ch == 'x' then KeyEscape
    else if !numeric && ch in "hnpq" then KeyLetter(ch)
    else KeyOther
  }

  /** The terminal tables spelled out, and they obey the same relabelling as the window
      tables: numeric mode never navigates, and nothing in the terminal scans. */
  lemma MapCharTable(ch: char)
    ensures MapChar(false, 'w') == Some(NavUp) && MapChar(true, 'w') == Some(DigitUp)
    ensures MapChar(false, 's') == Some(NavDown) && MapChar(true, 's') == Some(DigitDown)
    ensures MapChar(false, 'a') == Some(NavLeft) && MapChar(true, 'a') == Some(DigitPrev)
    ensures MapChar(false, 'd') == Some(NavRight) && MapChar(true, 'd') == Some(DigitNext)
    ensures MapChar(false, 'x') == Some(Cancel) && MapChar(true, 'x') == Some(Cancel)
    ensures ch == '\n' || ch == '\r' ==> MapChar(false, ch) == Some(Confirm) && MapChar(true, ch) == Some(DigitSubmit)
    ensures MapChar(false, 'h') == Some(Home) && MapChar(false, 'n') == Some(NextDevice)
    ensures MapChar(false, 'p') == Some(PrevDevice) && MapChar(false, 'q') == Some(Quit)
    ensures MapChar(true, ch) == Relabel(MapChar(false, ch))
    ensures MapChar(false, ch) != Some(ScanQr)
  {
    MapCharMoves(ch);
    MapCharLetters();
    MapCharRelabel(ch);
  }

  lemma MapCharMoves(ch: char)
    ensures MapChar(false, 'w') == Some(NavUp) && MapChar(true, 'w') == Some(DigitUp)
    ensures MapChar(false, 's') == Some(NavDown) && MapChar(true, 's') == Some(DigitDown)
    ensures MapChar(false, 'a') == Some(NavLeft) && MapChar(true, 'a') == Some(DigitPrev)
    ensures MapChar(false, 'd') == Some(NavRight) && MapChar(true, 'd') == Some(DigitNext)
    ensures MapChar(false, 'x') == Some(Cancel) && MapChar(true, 'x') == Some(Cancel)
    ensures ch == '\n' || ch == '\r' ==> MapChar(false, ch) == Some(Confirm) && MapChar(true, ch) == Some(DigitSubmit)
  {
  }

  lemma MapCharLetters()
    ensures MapChar(false, 'h') == Some(Home) && MapChar(false, 'n') == Some(NextDevice)
    ensures MapChar(false, 'p') == Some(PrevDevice) && MapChar(false, 'q') == Some(Quit)
  {
    assert 'h' in "hnpq" && 'n' in "hnpq" && 'p' in "hnpq" && 'q' in "hnpq";
  }

  /** Numeric mode relabels the terminal table the way it relabels the window table, and no
      terminal character scans. */
  lemma MapCharRelabel(ch: char)
    ensures MapChar(true, ch) == Relabel(MapChar(false, ch))
    ensures MapChar(false, ch) != Some(ScanQr)
  {
    if !(ch in "hnpq") {
      assert CharKey(false, ch) != KeyLetter('s');
    }
  }

  datatype Stdin = Stdin(running: bool, numericMode: bool)

  /** `start`: runs unless the terminal cannot be put into character mode. */
  function StdinStart(s: Stdin, terminalFails: bool): (r: Stdin)
    ensures r.running <==> s.running || !terminalFails
    ensures r.numericMode == s.numericMode
  {
    if terminalFails then s else s.(running := true)
  }

  function StdinStop(s: Stdin): (r: Stdin)
    ensures !r.running && r.numericMode == s.numericMode
  {
    s.(running := false)
  }

  predicate StdinAvailable(s: Stdin)
  {
    s.running
  }

  /** `poll`: at most one character is read, and only while running; it is mapped directly
      (the queue is never used). */
  function StdinPoll(s: Stdin, ch: Option<char>): (r: Option<InputEvent>)
    ensures r.Some? <==> s.running && ch.Some? && MapChar(s.numericMode, ch.value).Some?
    ensures r.Some? ==> r.value == Event(MapChar(s.numericMode, ch.value).value, StdinSource)
  {
    if !s.running then None
    else match ch
      case None => None
      case Some(c) =>
        match MapChar(s.numericMode, c)
        case Some(k) => Some(Event(k, StdinSource))
        case None => None
  }
}
