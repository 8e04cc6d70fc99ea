/** The per-device PIN gate: five consecutive wrong PINs lock a device id out for 900
    seconds, and an expired lockout is cleared the next time it is looked at.
    The monotonic clock is the explicit argument `now`, in whole seconds. */
module AuthManager {
  import opened Wrappers
  import opened Text
  import opened Protocol

  const MaxPinAttempts: nat := 5
  const LockoutSeconds: nat := 900

  datatype AuthResult = AuthResult(success: bool, credential: string, error: string)

  function Failure(error: string): AuthResult
  {
    AuthResult(false, "", error)
  }

  /** PINs from the configuration, runtime PIN and token overrides, and the rate-limit state:
      consecutive failures and lockout expiry times, both per device id. */
  datatype Manager = Manager(
    configPins: map<string, string>,
    storedTokens: map<string, string>,
    storedPins: map<string, string>,
    failedAttempts: map<string, nat>,
    lockoutUntil: map<string, nat>)

  /** A manager with the given configuration PINs and no runtime state. */
  function NewManager(pins: map<string, string>): (m: Manager)
    ensures m.configPins == pins
    ensures Valid(m)
    ensures forall id :: !IsLockedOut(m, id, 0).0
  {
    Manager(pins, map[], map[], map[], map[])
  }

  /** The rate-limit invariant: a recorded failure count lies in 1..5, a device has a
      lockout exactly when its count has reached 5, and a lockout time is never 0. */
  ghost predicate Valid(m: Manager)
  {
    (forall id :: id in m.failedAttempts ==> 1 <= m.failedAttempts[id] <= MaxPinAttempts)
    && (forall id :: id in m.lockoutUntil ==> m.lockoutUntil[id] > 0)
    && (forall id :: id in m.lockoutUntil <==> id in m.failedAttempts && m.failedAttempts[id] == MaxPinAttempts)
  }

  /** No lockout ends more than 900 seconds after `now`. */
  ghost predicate Bounded(m: Manager, now: nat)
  {
    forall id :: id in m.lockoutUntil ==> m.lockoutUntil[id] <= now + LockoutSeconds
  }

  // ---------------------------------------------------------------------------
  // Auth method

  /** A device needs authentication unless its method is "open" or empty. */
  predicate NeedsAuth(link: DeviceLink)
  {
    link.auth != "open" && link.auth != ""
  }

  /** The method, with an empty one read as "open". */
  function AuthType(link: DeviceLink): (t: string)
    ensures t != ""
  {
    if link.auth == "" then "open" else link.auth
  }

  /** Authentication is needed exactly when the effective method is not "open". */
  lemma NeedsAuthType(link: DeviceLink)
    ensures NeedsAuth(link) <==> AuthType(link) != "open"
  {
  }

  // ---------------------------------------------------------------------------
  // Lockout

  /** `_lockout_until.get(id, 0)`. */
  function LockoutTime(m: Manager, id: string): nat
  {
    if id in m.lockoutUntil then m.lockoutUntil[id] else 0
  }

  /** `is_locked_out`: true while a lockout is set and has not expired; a lockout found
      expired is removed together with the failure count. */
  function IsLockedOut(m: Manager, id: string, now: nat): (r: (bool, Manager))
    ensures r.0 <==> id in m.lockoutUntil && m.lockoutUntil[id] != 0 && now < m.lockoutUntil[id]
    ensures r.0 ==> r.1 == m
    ensures !r.0 && LockoutTime(m, id) != 0 ==>
              r.1 == m.(lockoutUntil := m.lockoutUntil - {id}, failedAttempts := m.failedAttempts - {id})
    ensures !r.0 && LockoutTime(m, id) == 0 ==> r.1 == m
  {
    var t := LockoutTime(m, id);
    if t != 0 && now < t then (true, m)
    else if t != 0 then (false, m.(lockoutUntil := m.lockoutUntil - {id}, failedAttempts := m.failedAttempts - {id}))
    else (false, m)
  }

  /** Checking the lockout keeps the invariant and never touches another device's state. */
  lemma IsLockedOutValid(m: Manager, id: string, now: nat)
    requires Valid(m)
    ensures Valid(IsLockedOut(m, id, now).1)
    ensures Bounded(m, now) ==> Bounded(IsLockedOut(m, id, now).1, now)
    ensures SameOthers(m, IsLockedOut(m, id, now).1, id)
  {
  }

  /** `get_lockout_remaining`: whole seconds left, 0 when there is no lockout or it has expired. */
  function LockoutRemaining(m: Manager, id: string, now: nat): (r: nat)
    ensures r == 0 <==> LockoutTime(m, id) == 0 || LockoutTime(m, id) <= now
    ensures r > 0 ==> now + r == LockoutTime(m, id)
  {
    var t := LockoutTime(m, id);
    if t != 0 && t > now then t - now else 0
  }

  /** Under the bound, the remaining time of a lockout is at most 900 seconds. */
  lemma LockoutRemainingBounded(m: Manager, id: string, now: nat)
    requires Bounded(m, now)
    ensures LockoutRemaining(m, id, now) <= LockoutSeconds
  {
  }

  /** The two views of a lockout agree: locked out exactly when time remains. */
  lemma LockedOutIffRemaining(m: Manager, id: string, now: nat)
    ensures IsLockedOut(m, id, now).0 <==> LockoutRemaining(m, id, now) > 0
  {
  }

  // ---------------------------------------------------------------------------
  // PIN and token validation

  /** The PIN to compare against: a non-empty runtime PIN, otherwise the configured one. */
  function ExpectedPin(m: Manager, id: string): Option<string>
  {
    if id in m.storedPins && m.storedPins[id] != "" then Some(m.storedPins[id])
    else if id in m.configPins then Some(m.configPins[id])
    else None
  }

  function FailureCount(m: Manager, id: string): nat
  {
    if id in m.failedAttempts then m.failedAttempts[id] else 0
  }

  const NoPinError: string := "No PIN configured for this device"

  function LockedOutError(remaining: nat): string
  {
    "Locked out. Try again in " + NatToString(remaining / 60 + 1) + " min"
  }

  function TooManyAttemptsError(): string
  {
    "Too many attempts. Locked for " + NatToString(LockoutSeconds / 60) + " min"
  }

  function InvalidPinError(left: nat): string
  {
    "Invalid PIN (" + NatToString(left) + " attempts left)"
  }

  /** `validate_pin`: lockout first, then the expected PIN, then the comparison. */
  function ValidatePin(m: Manager, link: DeviceLink, pin: string, now: nat): (r: (AuthResult, Manager))
    ensures r.0.success <==> !IsLockedOut(m, link.id, now).0 && ExpectedPin(m, link.id) == Some(pin)
    ensures r.0.success ==> r.0.credential == pin
  {
    var id := link.id;
    var (locked, m1) := IsLockedOut(m, id, now);
    if locked then
      (Failure(LockedOutError(LockoutRemaining(m1, id, now))), m1)
    else
      ComparePin(m1, id, pin, now)
  }

  /** The part of `validate_pin` after the lockout check. */
  function ComparePin(m: Manager, id: string, pin: string, now: nat): (r: (AuthResult, Manager))
    ensures r.0.success <==> ExpectedPin(m, id) == Some(pin)
  {
    match ExpectedPin(m, id)
    case None => (Failure(NoPinError), m)
    case Some(expected) =>
      if pin == expected then
        (AuthResult(true, pin, ""),
         m.(failedAttempts := m.failedAttempts - {id}, lockoutUntil := m.lockoutUntil - {id}))
      else
        var failures := FailureCount(m, id) + 1;
        var m2 := m.(failedAttempts := m.failedAttempts[id := failures]);
        if failures >= MaxPinAttempts then
          (Failure(TooManyAttemptsError()), m2.(lockoutUntil := m2.lockoutUntil[id := now + LockoutSeconds]))
        else
          (Failure(InvalidPinError(MaxPinAttempts - failures)), m2)
  }

  /** `validate_token`: succeeds exactly when a non-empty token is stored for the id. */
  function ValidateToken(m: Manager, link: DeviceLink): (r: AuthResult)
    ensures r.success <==> link.id in m.storedTokens && m.storedTokens[link.id] != ""
    ensures r.success ==> r.credential == m.storedTokens[link.id]
    ensures !r.success ==> r.error == "No token configured"
  {
    if link.id in m.storedTokens && m.storedTokens[link.id] != "" then
      AuthResult(true, m.storedTokens[link.id], "")
    else Failure("No token configured")
  }

  function StorePin(m: Manager, id: string, pin: string): (r: Manager)
    ensures r.storedPins == m.storedPins[id := pin]
    ensures r.(storedPins := m.storedPins) == m
  {
    m.(storedPins := m.storedPins[id := pin])
  }

  function StoreToken(m: Manager, id: string, token: string): (r: Manager)
    ensures r.storedTokens == m.storedTokens[id := token]
    ensures r.(storedTokens := m.storedTokens) == m
  {
    m.(storedTokens := m.storedTokens[id := token])
  }

  /** The state of every device other than `id` is the same in both managers. */
  ghost predicate SameOthers(m: Manager, m': Manager, id: string)
  {
    m'.configPins == m.configPins && m'.storedPins == m.storedPins && m'.storedTokens == m.storedTokens
    && (forall other :: other != id ==>
          (other in m'.failedAttempts <==> other in m.failedAttempts)
          && (other in m.failedAttempts ==> m'.failedAttempts[other] == m.failedAttempts[other])
          && (other in m'.lockoutUntil <==> other in m.lockoutUntil)
          && (other in m.lockoutUntil ==> m'.lockoutUntil[other] == m.lockoutUntil[other]))
  }

  // ---------------------------------------------------------------------------
  // Properties of validate_pin

  /** While locked out even the right PIN is refused, and nothing changes. */
  lemma LockedOutRefuses(m: Manager, link: DeviceLink, pin: string, now: nat)
    requires IsLockedOut(m, link.id, now).0
    ensures !ValidatePin(m, link, pin, now).0.success
    ensures ValidatePin(m, link, pin, now).1 == m
    ensures ValidatePin(m, link, pin, now).0.error == LockedOutError(LockoutRemaining(m, link.id, now))
  {
  }

  /** With neither a runtime nor a configured PIN, the attempt is refused and the failure
      count is not touched (an expired lockout is still cleared). */
  lemma NoPinRefuses(m: Manager, link: DeviceLink, pin: string, now: nat)
    requires !IsLockedOut(m, link.id, now).0
    requires ExpectedPin(m, link.id).None?
    ensures ValidatePin(m, link, pin, now) == (Failure(NoPinError), IsLockedOut(m, link.id, now).1)
  {
  }

  /** The right PIN succeeds and clears the device's count and lockout. */
  lemma CorrectPinClears(m: Manager, link: DeviceLink, now: nat)
    requires !IsLockedOut(m, link.id, now).0
    requires ExpectedPin(m, link.id).Some?
    ensures var (res, m') := ValidatePin(m, link, ExpectedPin(m, link.id).value, now);
      && res.success && res.credential == ExpectedPin(m, link.id).value
      && link.id !in m'.failedAttempts && link.id !in m'.lockoutUntil
  {
  }

  /** A wrong PIN adds one failure; the fifth locks the device out for 900 seconds from now,
      the ones before report how many attempts are left. */
  lemma WrongPinCounts(m: Manager, link: DeviceLink, pin: string, now: nat)
    requires !IsLockedOut(m, link.id, now).0
    requires ExpectedPin(m, link.id).Some? && ExpectedPin(m, link.id).value != pin
    ensures var m1 := IsLockedOut(m, link.id, now).1;
      var (res, m') := ValidatePin(m, link, pin, now);
      var failures := FailureCount(m1, link.id) + 1;
      && !res.success
      && m'.failedAttempts == m1.failedAttempts[link.id := failures]
      && (failures >= MaxPinAttempts ==>
            m'.lockoutUntil == m1.lockoutUntil[link.id := now + LockoutSeconds] && res.error == TooManyAttemptsError())
      && (failures < MaxPinAttempts ==>
            m'.lockoutUntil == m1.lockoutUntil && res.error == InvalidPinError(MaxPinAttempts - failures))
  {
  }

  /** `validate_pin` keeps the invariant and (at the same time) the bound, and only touches the state of the
      device it was asked about. */
  lemma ValidatePinValid(m: Manager, link: DeviceLink, pin: string, now: nat)
    requires Valid(m)
    ensures Valid(ValidatePin(m, link, pin, now).1)
    ensures Bounded(m, now) ==> Bounded(ValidatePin(m, link, pin, now).1, now)
    ensures SameOthers(m, ValidatePin(m, link, pin, now).1, link.id)
  {
    IsLockedOutValid(m, link.id, now);
    var (locked, m1) := IsLockedOut(m, link.id, now);
    if !locked {
      ComparePinValid(m1, link.id, pin, now);
      SameOthersTrans(m, m1, ComparePin(m1, link.id, pin, now).1, link.id);
    }
  }

  /** Once a device is not locked out, comparing its PIN keeps the invariant and the bound. */
  lemma ComparePinValid(m: Manager, id: string, pin: string, now: nat)
    requires Valid(m)
    requires id !in m.lockoutUntil
    ensures Valid(ComparePin(m, id, pin, now).1)
    ensures Bounded(m, now) ==> Bounded(ComparePin(m, id, pin, now).1, now)
    ensures SameOthers(m, ComparePin(m, id, pin, now).1, id)
  {
    if ExpectedPin(m, id) == Some(pin) {
      ClearValid(m, id, pin, now);
    } else if ExpectedPin(m, id).Some? {
      StrikeValid(m, id, pin, now);
    } else {
      assert ComparePin(m, id, pin, now).1 == m;
    }
  }

  /** The right PIN forgets the device's failures and lockout, which keeps the invariant and
      the bound. */
  lemma ClearValid(m: Manager, id: string, pin: string, now: nat)
    requires Valid(m)
    requires ExpectedPin(m, id) == Some(pin)
    ensures Valid(ComparePin(m, id, pin, now).1)
    ensures Bounded(m, now) ==> Bounded(ComparePin(m, id, pin, now).1, now)
    ensures SameOthers(m, ComparePin(m, id, pin, now).1, id)
  {
    var m' := m.(failedAttempts := m.failedAttempts - {id}, lockoutUntil := m.lockoutUntil - {id});
    assert ComparePin(m, id, pin, now).1 == m';
  }

  /** A wrong PIN adds one failure to a device that is not locked out, which keeps the
      invariant and the bound. */
  lemma StrikeValid(m: Manager, id: string, pin: string, now: nat)
    requires Valid(m)
    requires id !in m.lockoutUntil
    requires ExpectedPin(m, id).Some? && ExpectedPin(m, id).value != pin
    ensures Valid(ComparePin(m, id, pin, now).1)
    ensures Bounded(m, now) ==> Bounded(ComparePin(m, id, pin, now).1, now)
    ensures SameOthers(m, ComparePin(m, id, pin, now).1, id)
  {
    var failures := FailureCount(m, id) + 1;
    var m' := m.(failedAttempts := m.failedAttempts[id := failures],
                 lockoutUntil := if failures >= MaxPinAttempts then m.lockoutUntil[id := now + LockoutSeconds]
                                 else m.lockoutUntil);
    assert ComparePin(m, id, pin, now).1 == m';
    StrikeKeeps(m, id, now, m');
  }

  lemma StrikeKeeps(m: Manager, id: string, now: nat, m': Manager)
    requires Valid(m)
    requires id !in m.lockoutUntil
    requires m' == m.(failedAttempts := m.failedAttempts[id := FailureCount(m, id) + 1],
                      lockoutUntil := if FailureCount(m, id) + 1 >= MaxPinAttempts
                                      then m.lockoutUntil[id := now + LockoutSeconds] else m.lockoutUntil)
    ensures Valid(m') && (Bounded(m, now) ==> Bounded(m', now)) && SameOthers(m, m', id)
  {
    assert FailureCount(m, id) < MaxPinAttempts;
  }

  lemma SameOthersTrans(m: Manager, m1: Manager, m2: Manager, id: string)
    requires SameOthers(m, m1, id) && SameOthers(m1, m2, id)
    ensures SameOthers(m, m2, id)
  {
  }

  /** The bound holds at every later time. */
  lemma BoundedLater(m: Manager, now: nat, later: nat)
    requires Bounded(m, now) && now <= later
    ensures Bounded(m, later)
  {
  }

  // ---------------------------------------------------------------------------
  // Five strikes

  /** `n` wrong attempts in a row at the same time. */
  function WrongAttempts(m: Manager, link: DeviceLink, pin: string, now: nat, n: nat): Manager
    decreases n
  {
    if n == 0 then m else WrongAttempts(ValidatePin(m, link, pin, now).1, link, pin, now, n - 1)
  }

  /** From a device with no failures, five wrong PINs lock it out: until 900 seconds have
      passed every attempt is refused, the right PIN included. */
  lemma FiveStrikes(m: Manager, link: DeviceLink, pin: string, now: nat, later: nat)
    requires Valid(m)
    requires link.id !in m.failedAttempts
    requires ExpectedPin(m, link.id).Some? && ExpectedPin(m, link.id).value != pin
    requires now <= later < now + LockoutSeconds
    ensures IsLockedOut(WrongAttempts(m, link, pin, now, MaxPinAttempts), link.id, later).0
  {
    StrikesCount(m, link, pin, now, MaxPinAttempts);
  }

  /** One wrong PIN on a device that is not locked out, as a change of the two maps. */
  lemma WrongStep(m: Manager, link: DeviceLink, pin: string, now: nat)
    requires link.id !in m.lockoutUntil
    requires ExpectedPin(m, link.id).Some? && ExpectedPin(m, link.id).value != pin
    ensures var failures := FailureCount(m, link.id) + 1;
      ValidatePin(m, link, pin, now).1
        == m.(failedAttempts := m.failedAttempts[link.id := failures],
              lockoutUntil := if failures >= MaxPinAttempts then m.lockoutUntil[link.id := now + LockoutSeconds]
                              else m.lockoutUntil)
  {
    assert LockoutTime(m, link.id) == 0;
    assert IsLockedOut(m, link.id, now) == (false, m);
  }

  /** Wrong PINs in a row on a device that is not locked out: each adds a failure, the
      fifth failure sets a lockout 900 seconds from now, and the PINs are not touched. */
  lemma {:induction false} StrikesFrom(m: Manager, link: DeviceLink, pin: string, now: nat, n: nat)
    requires link.id !in m.lockoutUntil
    requires ExpectedPin(m, link.id).Some? && ExpectedPin(m, link.id).value != pin
    requires FailureCount(m, link.id) + n <= MaxPinAttempts
    ensures var m' := WrongAttempts(m, link, pin, now, n);
      && ExpectedPin(m', link.id) == ExpectedPin(m, link.id)
      && FailureCount(m', link.id) == FailureCount(m, link.id) + n
      && LockoutTime(m', link.id) == (if n > 0 && FailureCount(m, link.id) + n == MaxPinAttempts then now + LockoutSeconds else 0)
    decreases n
  {
    if n > 0 {
      var next := ValidatePin(m, link, pin, now).1;
      WrongStep(m, link, pin, now);
      assert FailureCount(next, link.id) == FailureCount(m, link.id) + 1;
      assert ExpectedPin(next, link.id) == ExpectedPin(m, link.id);
      assert WrongAttempts(m, link, pin, now, n) == WrongAttempts(next, link, pin, now, n - 1);
      if n > 1 {
        StrikesFrom(next, link, pin, now, n - 1);
      }
    }
  }

  /** `n` wrong PINs from a device with no failures leave `n` failures, and a lockout of
      900 seconds from now exactly at the fifth. */
  lemma StrikesCount(m: Manager, link: DeviceLink, pin: string, now: nat, n: nat)
    requires link.id !in m.failedAttempts && link.id !in m.lockoutUntil
    requires ExpectedPin(m, link.id).Some? && ExpectedPin(m, link.id).value != pin
    requires n <= MaxPinAttempts
    ensures var m' := WrongAttempts(m, link, pin, now, n);
      && ExpectedPin(m', link.id) == ExpectedPin(m, link.id)
      && FailureCount(m', link.id) == n
      && LockoutTime(m', link.id) == (if n == MaxPinAttempts then now + LockoutSeconds else 0)
  {
    StrikesFrom(m, link, pin, now, n);
  }
}
