/** The PIN entry screen's state machine: a row of decimal digits with a selected position,
    edited either directly (a digit key, backspace) or by rotation (up/down on the selected
    digit, left/right to move), then submitted or cancelled. Drawing is not modelled. */
module PinEntry {
  import opened Text
  import opened Events
  import opened Modular

  datatype Entry = Entry(
    pinLength: nat,
    deviceName: string,
    digits: seq<Digit>,
    cursor: nat,
    submitted: bool,
    cancelled: bool,
    attempts: nat,
    errorMsg: string)

  /** The shape every reachable entry has: one digit per position and the cursor on one of them. */
  predicate Valid(e: Entry)
  {
    e.pinLength >= 1 && |e.digits| == e.pinLength && e.cursor < e.pinLength
  }

  function Zeros(n: nat): (ds: seq<Digit>)
    ensures |ds| == n
    ensures forall i :: 0 <= i < n ==> ds[i] == 0
  {
    seq(n, i => 0)
  }

  /** A fresh screen: all digits 0, cursor on the first, nothing submitted, cancelled or failed. */
  function Init(pinLength: nat, deviceName: string): (e: Entry)
    requires pinLength >= 1
    ensures Valid(e)
    ensures e.pinLength == pinLength && e.deviceName == deviceName
    ensures forall i :: 0 <= i < |e.digits| ==> e.digits[i] == 0
    ensures e.cursor == 0 && !e.submitted && !e.cancelled && e.attempts == 0 && e.errorMsg == ""
    ensures !IsDone(e) && |PinValue(e)| == pinLength
  {
    Entry(pinLength, deviceName, Zeros(pinLength), 0, false, false, 0, "")
  }

  predicate IsDone(e: Entry)
  {
    e.submitted || e.cancelled
  }

  predicate WasCancelled(e: Entry)
  {
    e.cancelled
  }

  /** The digits as text, one character per digit. */
  function PinValue(e: Entry): (s: string)
    ensures |s| == |e.digits|
    ensures AllDigits(s)
  {
    DigitsText(e.digits)
  }

  function DigitsText(ds: seq<Digit>): (s: string)
    ensures |s| == |ds|
    ensures forall i :: 0 <= i < |ds| ==> s[i] == DigitChar(ds[i])
  {
    if |ds| == 0 then "" else [DigitChar(ds[0])] + DigitsText(ds[1..])
  }

  /** Reading the text back digit by digit gives the digits: the text loses nothing. */
  lemma PinValueDigits(e: Entry)
    ensures forall i :: 0 <= i < |e.digits| ==> DigitValue(PinValue(e)[i]) == e.digits[i]
  {
  }

  /** Two entries show the same PIN exactly when their digits agree. */
  lemma PinValueInjective(e1: Entry, e2: Entry)
    ensures PinValue(e1) == PinValue(e2) <==> e1.digits == e2.digits
  {
    if PinValue(e1) == PinValue(e2) {
      PinValueDigits(e1);
      PinValueDigits(e2);
      assert forall i :: 0 <= i < |e1.digits| ==> e1.digits[i] == DigitValue(PinValue(e2)[i]);
    }
  }

  // ---------------------------------------------------------------------------
  // Events

  function Clamp(i: int, n: nat): (r: nat)
    requires n >= 1
    ensures r < n
    ensures 0 <= i < n ==> r == i
  {
    if i < 0 then 0 else if i >= n then n - 1 else i
  }

  function SetCursorDigit(e: Entry, d: Digit): (r: Entry)
    requires Valid(e)
    ensures Valid(r)
  {
    e.(digits := e.digits[e.cursor := d])
  }

  /** Rotation keeps a digit in 0..9: up adds one, down subtracts one, both modulo 10
      (Python's `%` with a positive modulus, which never gives a negative digit). */
  function Rotate(d: Digit, delta: int): (r: Digit)
    ensures delta == 1 ==> r == (if d == 9 then 0 else d + 1)
    ensures delta == -1 ==> r == (if d == 0 then 9 else d - 1)
    ensures (d + delta - r) % 10 == 0
  {
    (d + delta) % 10
  }

  /** `handle_event`: a digit key sets the selected digit and moves right, backspace zeroes
      it and moves left; up/down rotate it; left/right move; submit/confirm submits and
      counts an attempt; cancel cancels. Every other event is ignored. */
  function HandleEvent(e: Entry, kind: EventType): (r: Entry)
    requires Valid(e)
    ensures Valid(r)
    ensures r.pinLength == e.pinLength && r.deviceName == e.deviceName
  {
    var n := e.pinLength;
    var c := e.cursor;
    match kind
    case DigitKey(d) => SetCursorDigit(e, d).(cursor := Clamp(c + 1, n), errorMsg := "")
    case DigitBackspace => SetCursorDigit(e, 0).(cursor := Clamp(c - 1, n), errorMsg := "")
    case DigitUp => SetCursorDigit(e, Rotate(e.digits[c], 1)).(errorMsg := "")
    case NavUp => SetCursorDigit(e, Rotate(e.digits[c], 1)).(errorMsg := "")
    case DigitDown => SetCursorDigit(e, Rotate(e.digits[c], -1)).(errorMsg := "")
    case NavDown => SetCursorDigit(e, Rotate(e.digits[c], -1)).(errorMsg := "")
    case DigitNext => e.(cursor := Clamp(c + 1, n))
    case NavRight => e.(cursor := Clamp(c + 1, n))
    case DigitPrev => e.(cursor := Clamp(c - 1, n))
    case NavLeft => e.(cursor := Clamp(c - 1, n))
    case DigitSubmit => e.(submitted := true, attempts := e.attempts + 1)
    case Confirm => e.(submitted := true, attempts := e.attempts + 1)
    case Cancel => e.(cancelled := true)
    case _ => e
  }

  /** `set_error`: show the message and start over with zeros, keeping the attempt count
      and the cancelled flag. */
  function SetError(e: Entry, msg: string): (r: Entry)
    requires Valid(e)
    ensures Valid(r)
    ensures r.errorMsg == msg && !r.submitted && r.cursor == 0
    ensures r.digits == Zeros(e.pinLength)
    ensures r.attempts == e.attempts && r.cancelled == e.cancelled
    ensures r.pinLength == e.pinLength && r.deviceName == e.deviceName
  {
    e.(errorMsg := msg, submitted := false, digits := Zeros(e.pinLength), cursor := 0)
  }

  // ---------------------------------------------------------------------------
  // Properties of handle_event

  /** Events that change digits. */
  predicate EditsDigit(kind: EventType)
  {
    kind.DigitKey? || kind == DigitBackspace || kind == DigitUp || kind == NavUp
    || kind == DigitDown || kind == NavDown
  }

  /** Events that only move the cursor. */
  predicate MovesCursor(kind: EventType)
  {
    kind == DigitNext || kind == NavRight || kind == DigitPrev || kind == NavLeft
  }

  predicate Submits(kind: EventType)
  {
    kind == DigitSubmit || kind == Confirm
  }

  /** A digit edit touches only the digit under the cursor, clears the error message and
      leaves the submitted, cancelled and attempt state alone. */
  lemma EditIsLocal(e: Entry, kind: EventType)
    requires Valid(e) && EditsDigit(kind)
    ensures var r := HandleEvent(e, kind);
      && (forall i :: 0 <= i < e.pinLength && i != e.cursor ==> r.digits[i] == e.digits[i])
      && r.errorMsg == ""
      && r.submitted == e.submitted && r.cancelled == e.cancelled && r.attempts == e.attempts
  {
  }

  /** The new value of the selected digit and where the cursor goes, per editing event. */
  lemma EditValue(e: Entry, kind: EventType)
    requires Valid(e) && EditsDigit(kind)
    ensures var r := HandleEvent(e, kind);
      && (kind.DigitKey? ==>
            r.digits[e.cursor] == kind.d
            && r.cursor == if e.cursor + 1 < e.pinLength then e.cursor + 1 else e.pinLength - 1)
      && (kind == DigitBackspace ==>
            r.digits[e.cursor] == 0
            && r.cursor == if e.cursor > 0 then e.cursor - 1 else 0)
      && (kind == DigitUp || kind == NavUp ==>
            r.digits[e.cursor] == (if e.digits[e.cursor] == 9 then 0 else e.digits[e.cursor] + 1)
            && r.cursor == e.cursor)
      && (kind == DigitDown || kind == NavDown ==>
            r.digits[e.cursor] == (if e.digits[e.cursor] == 0 then 9 else e.digits[e.cursor] - 1)
            && r.cursor == e.cursor)
  {
  }

  /** Moving right stops at the last digit, moving left at the first; nothing else changes. */
  lemma MoveClamps(e: Entry, kind: EventType)
    requires Valid(e) && MovesCursor(kind)
    ensures var r := HandleEvent(e, kind);
      && r == e.(cursor := r.cursor)
      && (kind == DigitNext || kind == NavRight ==>
            r.cursor == if e.cursor == e.pinLength - 1 then e.cursor else e.cursor + 1)
      && (kind == DigitPrev || kind == NavLeft ==>
            r.cursor == if e.cursor == 0 then 0 else e.cursor - 1)
  {
  }

  /** Submitting marks the entry done and counts exactly one more attempt; cancelling marks it
      done and cancelled. Neither touches the digits. */
  lemma SubmitAndCancel(e: Entry, kind: EventType)
    requires Valid(e)
    ensures Submits(kind) ==> var r := HandleEvent(e, kind);
      r == e.(submitted := true, attempts := e.attempts + 1) && IsDone(r)
    ensures kind == Cancel ==> var r := HandleEvent(e, kind);
      r == e.(cancelled := true) && IsDone(r) && WasCancelled(r)
  {
  }

  /** Events outside the PIN vocabulary leave the entry as it is. */
  lemma OtherEventsIgnored(e: Entry, kind: EventType)
    requires Valid(e)
    requires !EditsDigit(kind) && !MovesCursor(kind) && !Submits(kind) && kind != Cancel
    ensures HandleEvent(e, kind) == e
  {
  }

  /** Up then down restores the digits and cursor. */
  lemma UpDownInverse(e: Entry)
    requires Valid(e)
    ensures HandleEvent(HandleEvent(e, DigitUp), DigitDown) == e.(errorMsg := "")
  {
    var c := e.cursor;
    var up := HandleEvent(e, DigitUp);
    assert up.digits[c] == (e.digits[c] as int + 1) % 10;
    var down := HandleEvent(up, DigitDown);
    assert down.digits[c] == e.digits[c];
    assert down.digits == e.digits;
  }

  /** `k` turns upward on the selected digit. */
  function UpTimes(e: Entry, k: nat): (r: Entry)
    requires Valid(e)
    ensures Valid(r) && r.pinLength == e.pinLength && r.cursor == e.cursor
  {
    if k == 0 then e else HandleEvent(UpTimes(e, k - 1), DigitUp)
  }

  /** After `k` turns upward the selected digit has advanced by `k` modulo 10 and no other
      digit has moved. */
  lemma {:induction false} RotateUpTimes(e: Entry, k: nat)
    requires Valid(e)
    ensures UpTimes(e, k).digits == e.digits[e.cursor := (e.digits[e.cursor] as int + k) % 10]
  {
    var c := e.cursor;
    if k == 0 {
      assert e.digits[c := e.digits[c]] == e.digits;
    } else {
      RotateUpTimes(e, k - 1);
      var prev := UpTimes(e, k - 1);
      UpStep(prev);
      ModSucc(e.digits[c] as int + k - 1, 10);
    }
  }

  /** One turn upward rotates the selected digit and nothing else. */
  lemma UpStep(e: Entry)
    requires Valid(e)
    ensures HandleEvent(e, DigitUp).digits == e.digits[e.cursor := (e.digits[e.cursor] as int + 1) % 10]
  {
  }

  /** Turning upward is periodic: ten more turns give the same digits. */
  lemma UpTimesPeriodic(e: Entry, k: nat)
    requires Valid(e)
    ensures UpTimes(e, k + 10).digits == UpTimes(e, k).digits
  {
    RotateUpTimes(e, k + 10);
    RotateUpTimes(e, k);
    assert (e.digits[e.cursor] as int + (k + 10)) % 10 == (e.digits[e.cursor] as int + k) % 10;
  }

  /** Any digit can be reached from any other by turning up at most nine times. */
  lemma UpReachesEveryDigit(e: Entry, d: Digit)
    requires Valid(e)
    ensures UpTimes(e, (d as int - e.digits[e.cursor] as int) % 10).digits[e.cursor] == d
  {
    var k := (d as int - e.digits[e.cursor] as int) % 10;
    RotateUpTimes(e, k);
    assert (e.digits[e.cursor] as int + k) % 10 == d;
  }

  /** A retry after `set_error` starts from the same digits and cursor as a fresh screen. */
  lemma SetErrorRestarts(e: Entry, msg: string)
    requires Valid(e)
    ensures var r := SetError(e, msg);
      var f := Init(e.pinLength, e.deviceName);
      r.digits == f.digits && r.cursor == f.cursor && r.submitted == f.submitted
  {
  }
}
