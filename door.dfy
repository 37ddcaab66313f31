/**
 * The door actuator's request handler and re-lock scheduler
 * (class `DoorServer` of the asyncio firmware).
 *
 * A request carries form data; when its `psk` matches the shared secret the
 * actuator is switched on at once and a task is armed that sleeps for the
 * requested duration and then switches the actuator off, unless a later
 * request has moved the stored deadline `unlocked_until` in the meantime.
 *
 * Time is an explicit parameter: `now` is milliseconds since boot and
 * `ticks_ms()` is `now` modulo the tick period. An armed task is a pending
 * `Timer(fireAt, armed)`: it wakes at absolute time `fireAt` and re-locks
 * only if the stored deadline still equals the tick value `armed` it wrote.
 * The actuator (the PWM duty and the built-in LED, always switched together)
 * is one boolean, `unlocked`.
 */
module Door {
  import opened Wrappers
  import opened Ticks

  const MIN_UNLOCK_SECONDS: int := 1
  const MAX_UNLOCK_SECONDS: int := 30
  /** The longest re-lock delay a request can arm, in milliseconds. */
  const MAX_UNLOCK_MS: int := MAX_UNLOCK_SECONDS * 1000

  // ---------------------------------------------------------------------
  // int(duration): decimal integers as MicroPython's int() reads them
  // ---------------------------------------------------------------------

  predicate IsSpace(c: char) {
    c == ' ' || c == '\t' || c == '\n' || c == '\r' || c == '\U{0B}' || c == '\U{0C}'
  }

  predicate IsDigit(c: char) {
    '0' <= c <= '9'
  }

  predicate AllDigits(s: string) {
    forall i | 0 <= i < |s| :: IsDigit(s[i])
  }

  /** Drops leading white space. */
  function TrimStart(s: string): (t: string)
    ensures |t| <= |s| && t == s[|s| - |t|..]
    ensures |t| > 0 ==> !IsSpace(t[0])
    ensures forall i {:trigger IsSpace(s[i])} :: 0 <= i < |s| - |t| ==> IsSpace(s[i])
  {
    if |s| > 0 && IsSpace(s[0]) then TrimStart(s[1..]) else s
  }

  /** Drops trailing white space. */
  function TrimEnd(s: string): (t: string)
    ensures |t| <= |s| && t == s[..|t|]
    ensures |t| > 0 ==> !IsSpace(t[|t| - 1])
    ensures forall i {:trigger IsSpace(s[i])} :: |t| <= i < |s| ==> IsSpace(s[i])
  {
    if |s| > 0 && IsSpace(s[|s| - 1]) then TrimEnd(s[..|s| - 1]) else s
  }

  function Strip(s: string): string {
    TrimEnd(TrimStart(s))
  }

  /** The value of a string of decimal digits, most significant first. */
  function DigitsValue(ds: string): nat
    requires AllDigits(ds)
  {
    if ds == [] then 0 else DigitsValue(ds[..|ds| - 1]) * 10 + (ds[|ds| - 1] as int - '0' as int)
  }

  /** An optional sign followed by at least one decimal digit. */
  predicate IsIntLiteral(t: string) {
    var body := if |t| > 0 && (t[0] == '+' || t[0] == '-') then t[1..] else t;
    |body| > 0 && AllDigits(body)
  }

  /** `int(s)` for a string: `None` where Python raises ValueError. */
  function ParseInt(s: string): (r: Option<int>)
    ensures r.Some? <==> IsIntLiteral(Strip(s))
  {
    ParseLiteral(Strip(s))
  }

  /** `int` once the surrounding white space is gone: a sign, then digits. */
  function ParseLiteral(t: string): (r: Option<int>)
    ensures r.Some? <==> IsIntLiteral(t)
  {
    var negative := |t| > 0 && t[0] == '-';
    var body := if |t| > 0 && (t[0] == '+' || t[0] == '-') then t[1..] else t;
    if |body| > 0 && AllDigits(body) then
      var magnitude: int := DigitsValue(body);
      Some(if negative then -magnitude else magnitude)
    else
      None
  }

  function DigitChar(d: nat): (c: char)
    requires d < 10
    ensures IsDigit(c) && c as int - '0' as int == d
  {
    ('0' as int + d) as char
  }

  /** The decimal numeral of a natural number (Python's `str(n)`). */
  function ShowNat(n: nat): (s: string)
    ensures |s| > 0 && AllDigits(s)
  {
    if n < 10 then [DigitChar(n)] else ShowNat(n / 10) + [DigitChar(n % 10)]
  }

  /** The decimal numeral of an integer, with a leading '-' when negative. */
  function Show(n: int): string {
    if n < 0 then "-" + ShowNat(-n) else ShowNat(n)
  }

  lemma {:induction false} DigitsValueOfShowNat(n: nat)
    ensures DigitsValue(ShowNat(n)) == n
  {
    if n >= 10 {
      var s := ShowNat(n);
      assert s[..|s| - 1] == ShowNat(n / 10);
      DigitsValueOfShowNat(n / 10);
    }
  }

  /** A string that neither starts nor ends with white space is its own stripped form. */
  lemma StripUnpadded(s: string)
    requires |s| > 0 && !IsSpace(s[0]) && !IsSpace(s[|s| - 1])
    ensures Strip(s) == s
  {
    assert TrimStart(s) == s;
  }

  /** A bare run of digits parses to its value. */
  lemma ParseIntOfDigits(digits: string)
    requires |digits| > 0 && AllDigits(digits)
    ensures ParseInt(digits) == Some(DigitsValue(digits))
  {
    assert IsDigit(digits[0]) && IsDigit(digits[|digits| - 1]);
    StripUnpadded(digits);
  }

  /** A '-' and then digits reads as the negated value of the digits. */
  lemma NegativeLiteral(t: string)
    requires |t| > 1 && t[0] == '-' && AllDigits(t[1..])
    ensures ParseLiteral(t) == Some(-(DigitsValue(t[1..]) as int))
  {
  }

  /** A '-' followed by digits has no white space to strip. */
  lemma StripNegated(digits: string)
    requires |digits| > 0 && AllDigits(digits)
    ensures Strip("-" + digits) == "-" + digits
  {
    var s := "-" + digits;
    assert IsDigit(digits[|digits| - 1]) && s[|s| - 1] == digits[|digits| - 1];
    StripUnpadded(s);
  }

  /** `int(str(n)) == n`: every integer's numeral parses back to it. */
  lemma ParseIntOfShow(n: int)
    ensures ParseInt(Show(n)) == Some(n)
  {
    if n < 0 {
      var digits := ShowNat(-n);
      DigitsValueOfShowNat(-n);
      StripNegated(digits);
      assert Show(n)[0] == '-' && Show(n)[1..] == digits;
      NegativeLiteral(Show(n));
    } else {
      DigitsValueOfShowNat(n);
      ParseIntOfDigits(ShowNat(n));
    }
  }

  /** A string with no decimal digit at all is not an integer. */
  lemma ParseIntNeedsDigit(s: string)
    requires forall i | 0 <= i < |s| :: !IsDigit(s[i])
    ensures ParseInt(s) == None
  {
    var t := Strip(s);
    assert t == TrimStart(s)[..|t|];
    if |t| > 0 {
      assert t[|t| - 1] in s;
    }
  }

  // ---------------------------------------------------------------------
  // parse_duration and the clamp
  // ---------------------------------------------------------------------

  /** `parse_duration`: `int(duration)`, or the configured default for None or a non-integer. */
  function ParseDuration(duration: Option<string>, defaultSeconds: int): (d: int)
    ensures duration.None? ==> d == defaultSeconds
  {
    match duration
    case None => defaultSeconds
    case Some(text) =>
      match ParseInt(text)
      case Some(n) => n
      case None => defaultSeconds
  }

  /** A duration that is not an integer numeral falls back to the default. */
  lemma ParseDurationOfNonInteger(text: string, defaultSeconds: int)
    requires !IsIntLiteral(Strip(text))
    ensures ParseDuration(Some(text), defaultSeconds) == defaultSeconds
  {
  }

  /** A duration that is sent as a numeral is the duration used. */
  lemma ParseDurationOfShow(n: int, defaultSeconds: int)
    ensures ParseDuration(Some(Show(n)), defaultSeconds) == n
  {
    ParseIntOfShow(n);
  }

  /** `max(min(duration, 30), 1)`. */
  function Clamp(d: int): (r: int)
    ensures MIN_UNLOCK_SECONDS <= r <= MAX_UNLOCK_SECONDS
    ensures MIN_UNLOCK_SECONDS <= d <= MAX_UNLOCK_SECONDS ==> r == d
    ensures d < MIN_UNLOCK_SECONDS ==> r == MIN_UNLOCK_SECONDS
    ensures d > MAX_UNLOCK_SECONDS ==> r == MAX_UNLOCK_SECONDS
  {
    var upper := if d < MAX_UNLOCK_SECONDS then d else MAX_UNLOCK_SECONDS;
    if upper > MIN_UNLOCK_SECONDS then upper else MIN_UNLOCK_SECONDS
  }

  /** `dict.get(key)`: the stored value, or None when the key is absent. */
  function Get(data: map<string, string>, key: string): (r: Option<string>)
    ensures r.None? <==> key !in data
    ensures r.Some? ==> r.value == data[key]
  {
    if key in data then Some(data[key]) else None
  }

  /** `params.get('psk') == env.SHARED_PASSWORD`: a missing key never matches. */
  predicate Authentic(data: map<string, string>, secret: string)
    ensures Authentic(data, secret) <==> "psk" in data && data["psk"] == secret
  {
    Get(data, "psk") == Some(secret)
  }

  /** The number of seconds a request unlocks for. */
  function UnlockSeconds(data: map<string, string>, defaultSeconds: int): (secs: int)
    ensures MIN_UNLOCK_SECONDS <= secs <= MAX_UNLOCK_SECONDS
    ensures "duration" !in data ==> secs == Clamp(defaultSeconds)
  {
    Clamp(ParseDuration(Get(data, "duration"), defaultSeconds))
  }

  // ---------------------------------------------------------------------
  // The scheduler as a state machine
  // ---------------------------------------------------------------------

  /** A sleeping `schedule_lock` task: wakes at `fireAt`, re-locks if the deadline is still `armed`. */
  datatype Timer = Timer(fireAt: nat, armed: Tick)

  /** `unlocked_until`, the actuator, and the tasks still asleep. */
  datatype DoorState = DoorState(unlockedUntil: Tick, unlocked: bool, pending: seq<Timer>)

  /** After `DoorServer()` and `door.lock()` in `main`: locked, `unlocked_until == 0`, nothing armed. */
  function Booted(): (s: DoorState)
    ensures !s.unlocked && s.pending == [] && s.unlockedUntil == 0
  {
    DoorState(0, false, [])
  }

  /** The first half of `schedule_lock(duration_ms)`, run at `now`: compare, then store and arm. */
  function ArmRelock(s: DoorState, now: nat, durationMs: nat): (s': DoorState)
    ensures s'.unlocked == s.unlocked
    ensures var until := TicksAdd(TicksMs(now), durationMs);
      if TicksDiff(until, s.unlockedUntil) < 0 then s' == s
      else s'.unlockedUntil == until && s'.pending == s.pending + [Timer(now + durationMs, until)]
  {
    var until := TicksAdd(TicksMs(now), durationMs);
    if TicksDiff(until, s.unlockedUntil) < 0 then s
    else s.(unlockedUntil := until, pending := s.pending + [Timer(now + durationMs, until)])
  }

  /** `index` at `now`: the new state and the handler's return value (`'OK'`, or None on a bad psk). */
  function Request(s: DoorState, now: nat, data: map<string, string>, secret: string, defaultSeconds: int)
    : (r: (DoorState, Option<string>))
    ensures !Authentic(data, secret) ==> r == (s, None)
    ensures Authentic(data, secret) ==>
      r.1 == Some("OK") && r.0.unlocked &&
      r.0 == ArmRelock(s.(unlocked := true), now, UnlockSeconds(data, defaultSeconds) * 1000)
  {
    if !Authentic(data, secret) then (s, None)
    else (ArmRelock(s.(unlocked := true), now, UnlockSeconds(data, defaultSeconds) * 1000), Some("OK"))
  }

  /** Whether the task at index `i`, on waking, finds the deadline it wrote still in place. */
  predicate Relocks(s: DoorState, i: nat)
    requires i < |s.pending|
  {
    s.unlockedUntil == s.pending[i].armed
  }

  /** The second half of `schedule_lock`: task `i` wakes, re-locks if its deadline is current, and ends. */
  function FireTimer(s: DoorState, i: nat): (s': DoorState)
    requires i < |s.pending|
    ensures s'.pending == s.pending[..i] + s.pending[i + 1..]
    ensures s'.unlockedUntil == s.unlockedUntil
    ensures s'.unlocked <==> s.unlocked && !Relocks(s, i)
  {
    DoorState(s.unlockedUntil, if Relocks(s, i) then false else s.unlocked, s.pending[..i] + s.pending[i + 1..])
  }

  // ---------------------------------------------------------------------
  // Invariants while ticks stay below half a period (about 6.2 days)
  // ---------------------------------------------------------------------

  /** An unlocked door has a sleeping task armed for the current deadline. */
  ghost predicate RelockArmed(s: DoorState) {
    s.unlocked ==> exists k :: 0 <= k < |s.pending| && s.pending[k].armed == s.unlockedUntil
  }

  /**
   * The invariant at time `now`, while no tick has wrapped and the stored
   * deadline is a true time: every sleeping task wakes at the tick it armed,
   * no task is armed past the stored deadline, a locked door's deadline has
   * passed, and an unlocked door has a re-lock armed.
   */
  ghost predicate Calm(s: DoorState, now: nat) {
    && s.unlockedUntil < HALF
    && (forall k :: 0 <= k < |s.pending| ==>
          s.pending[k].fireAt == s.pending[k].armed && s.pending[k].armed <= s.unlockedUntil)
    && (!s.unlocked ==> s.unlockedUntil <= now)
    && RelockArmed(s)
  }

  /** Requests handled from now on arm deadlines that stay below half a period. */
  predicate SmallTicks(now: nat) {
    now + MAX_UNLOCK_MS < HALF
  }

  lemma BootedCalm(now: nat)
    ensures Calm(Booted(), now)
  {
  }

  /**
   * Latest deadline wins: with small ticks, arming for `now + durationMs`
   * leaves the stored deadline at the later of the two, and arms a task
   * exactly when the new deadline is not earlier than the stored one.
   */
  lemma ArmRelockLatestWins(s: DoorState, now: nat, durationMs: nat)
    requires s.unlockedUntil < HALF && now + durationMs < HALF
    ensures var s' := ArmRelock(s, now, durationMs);
      && s'.unlockedUntil == (if now + durationMs < s.unlockedUntil then s.unlockedUntil else now + durationMs)
      && (s'.pending == s.pending <==> now + durationMs < s.unlockedUntil)
      && s'.unlockedUntil >= s.unlockedUntil
  {
    DiffSmall(now + durationMs, s.unlockedUntil);
  }

  /**
   * An authenticated request with small ticks: the door is unlocked; the
   * deadline moves to `now` plus the clamped duration and a task is armed for
   * it, unless the stored deadline is later, in which case nothing is armed.
   */
  lemma AuthenticRequestExtends(s: DoorState, now: nat, data: map<string, string>, secret: string, defaultSeconds: int)
    requires Authentic(data, secret) && s.unlockedUntil < HALF && SmallTicks(now)
    ensures var until := now + UnlockSeconds(data, defaultSeconds) * 1000;
      Request(s, now, data, secret, defaultSeconds).0 ==
        if until < s.unlockedUntil then s.(unlocked := true)
        else DoorState(until, true, s.pending + [Timer(until, until)])
  {
    var ms := UnlockSeconds(data, defaultSeconds) * 1000;
    var s1 := s.(unlocked := true);
    assert Request(s, now, data, secret, defaultSeconds).0 == ArmRelock(s1, now, ms);
    assert 1000 <= ms <= MAX_UNLOCK_MS;
    assert TicksMs(now) == now;
    assert TicksAdd(now, ms) == now + ms;
    ArmRelockLatestWins(s1, now, ms);
  }

  /** An authenticated request keeps the invariant. */
  lemma {:induction false} RequestKeepsCalm(s: DoorState, now: nat, data: map<string, string>, secret: string, defaultSeconds: int)
    requires Calm(s, now) && SmallTicks(now)
    ensures Calm(Request(s, now, data, secret, defaultSeconds).0, now)
  {
    if Authentic(data, secret) {
      var ms := UnlockSeconds(data, defaultSeconds) * 1000;
      var u := s.unlocked;
      var s1 := s.(unlocked := true);
      var s' := ArmRelock(s1, now, ms);
      ArmRelockLatestWins(s1, now, ms);
      if now + ms < s.unlockedUntil {
        // The deadline already stored is later, so the door was unlocked and its re-lock stands.
        assert s.unlocked;
        assert s' == s1;
      } else {
        var k := |s'.pending| - 1;
        assert s'.pending[k].armed == s'.unlockedUntil;
        forall j | 0 <= j < |s'.pending|
          ensures s'.pending[j].fireAt == s'.pending[j].armed && s'.pending[j].armed <= s'.unlockedUntil
        {
          if j < |s.pending| {
            assert s'.pending[j] == s.pending[j];
          }
        }
      }
    }
  }

  /** A task that wakes on time (at or after `fireAt`) keeps the invariant. */
  lemma {:induction false} FireTimerKeepsCalm(s: DoorState, i: nat, now: nat)
    requires Calm(s, now) && i < |s.pending| && s.pending[i].fireAt <= now
    ensures Calm(FireTimer(s, i), now)
  {
    var s' := FireTimer(s, i);
    forall j | 0 <= j < |s'.pending|
      ensures s'.pending[j].fireAt == s'.pending[j].armed && s'.pending[j].armed <= s'.unlockedUntil
    {
      if j < i {
        assert s'.pending[j] == s.pending[j];
      } else {
        assert s'.pending[j] == s.pending[j + 1];
      }
    }
    FireTimerKeepsRelockArmed(s, i);
  }

  /** Waking a task never leaves an unlocked door without a re-lock, at any tick value. */
  lemma {:induction false} FireTimerKeepsRelockArmed(s: DoorState, i: nat)
    requires RelockArmed(s) && i < |s.pending|
    ensures RelockArmed(FireTimer(s, i))
  {
    var s' := FireTimer(s, i);
    if s'.unlocked {
      var k :| 0 <= k < |s.pending| && s.pending[k].armed == s.unlockedUntil;
      assert k != i;
      var k' := if k < i then k else k - 1;
      assert s'.pending[k'] == s.pending[k];
    }
  }

  /**
   * No premature re-lock: a task that re-locks is the one armed for the
   * current (latest) deadline, and it does so no earlier than that deadline.
   */
  lemma RelockOnlyAtDeadline(s: DoorState, i: nat, now: nat)
    requires Calm(s, now) && i < |s.pending| && s.pending[i].fireAt <= now
    requires Relocks(s, i)
    ensures s.pending[i].fireAt == s.unlockedUntil
    ensures now >= s.unlockedUntil
  {
  }

  /**
   * A task armed for an older deadline changes nothing when it wakes except
   * that it is gone; in particular, it leaves an unlocked door unlocked.
   */
  lemma {:induction false} SupersededTimerIsNoOp(s: DoorState, i: nat)
    requires i < |s.pending| && !Relocks(s, i)
    ensures FireTimer(s, i).unlocked == s.unlocked
    ensures FireTimer(s, i).unlockedUntil == s.unlockedUntil
    ensures multiset(FireTimer(s, i).pending) + multiset{s.pending[i]} == multiset(s.pending)
  {
    var s' := FireTimer(s, i);
    assert s.pending == s.pending[..i] + [s.pending[i]] + s.pending[i + 1..];
  }

  // ---------------------------------------------------------------------
  // The overlapping-request scenarios
  // ---------------------------------------------------------------------

  /** The state after two authenticated requests, A at `tA` and then B at `tB`. */
  function TwoRequests(s: DoorState, tA: nat, dataA: map<string, string>,
                       tB: nat, dataB: map<string, string>, secret: string, defaultSeconds: int): DoorState
  {
    Request(Request(s, tA, dataA, secret, defaultSeconds).0, tB, dataB, secret, defaultSeconds).0
  }

  /**
   * Two authenticated requests on a locked door, A at `tA` and B at `tB`:
   * the door stays unlocked, the deadline is the later of the two, and a task
   * is armed for B exactly when B's deadline is not the earlier one.
   */
  lemma {:induction false} TwoRequestsExtend(s: DoorState, tA: nat, dataA: map<string, string>,
                                             tB: nat, dataB: map<string, string>, secret: string, defaultSeconds: int)
    requires !s.unlocked && s.unlockedUntil <= tA <= tB && SmallTicks(tB)
    requires Authentic(dataA, secret) && Authentic(dataB, secret)
    ensures var a := tA + UnlockSeconds(dataA, defaultSeconds) * 1000;
      var b := tB + UnlockSeconds(dataB, defaultSeconds) * 1000;
      TwoRequests(s, tA, dataA, tB, dataB, secret, defaultSeconds) ==
        if b < a then DoorState(a, true, s.pending + [Timer(a, a)])
        else DoorState(b, true, s.pending + [Timer(a, a), Timer(b, b)])
  {
    var a := tA + UnlockSeconds(dataA, defaultSeconds) * 1000;
    var b := tB + UnlockSeconds(dataB, defaultSeconds) * 1000;
    var s1 := Request(s, tA, dataA, secret, defaultSeconds).0;
    assert s1 == DoorState(a, true, s.pending + [Timer(a, a)]) by {
      AuthenticRequestExtends(s, tA, dataA, secret, defaultSeconds);
    }
    ExtendsOpenDoor(s.pending, a, tB, dataB, secret, defaultSeconds);
  }

  /** A request made while the door is held open until `a` (small ticks). */
  lemma ExtendsOpenDoor(pending: seq<Timer>, a: nat, tB: nat, dataB: map<string, string>, secret: string, defaultSeconds: int)
    requires a < HALF && SmallTicks(tB) && Authentic(dataB, secret)
    ensures var b := tB + UnlockSeconds(dataB, defaultSeconds) * 1000;
      Request(DoorState(a, true, pending + [Timer(a, a)]), tB, dataB, secret, defaultSeconds).0 ==
        if b < a then DoorState(a, true, pending + [Timer(a, a)])
        else DoorState(b, true, pending + [Timer(a, a), Timer(b, b)])
  {
    var b := tB + UnlockSeconds(dataB, defaultSeconds) * 1000;
    AuthenticRequestExtends(DoorState(a, true, pending + [Timer(a, a)]), tB, dataB, secret, defaultSeconds);
    assert pending + [Timer(a, a)] + [Timer(b, b)] == pending + [Timer(a, a), Timer(b, b)];
  }

  /**
   * When B's deadline is later, A's task is superseded: it wakes and leaves
   * the door open; B's task then re-locks it.
   */
  lemma {:induction false} LaterRequestSupersedes(s: DoorState, tA: nat, dataA: map<string, string>,
                                                  tB: nat, dataB: map<string, string>, secret: string, defaultSeconds: int)
    requires !s.unlocked && s.unlockedUntil <= tA <= tB && SmallTicks(tB)
    requires Authentic(dataA, secret) && Authentic(dataB, secret)
    requires tA + UnlockSeconds(dataA, defaultSeconds) * 1000 < tB + UnlockSeconds(dataB, defaultSeconds) * 1000
    ensures var s2 := TwoRequests(s, tA, dataA, tB, dataB, secret, defaultSeconds);
      var n := |s.pending|;
      && n + 1 < |s2.pending|
      && FireTimer(s2, n).unlocked
      && FireTimer(s2, n).pending[n] == s2.pending[n + 1]
      && !FireTimer(FireTimer(s2, n), n).unlocked
  {
    var b := tB + UnlockSeconds(dataB, defaultSeconds) * 1000;
    TwoRequestsExtend(s, tA, dataA, tB, dataB, secret, defaultSeconds);
    var s2 := TwoRequests(s, tA, dataA, tB, dataB, secret, defaultSeconds);
    var n := |s.pending|;
    assert s2.pending[n + 1] == Timer(b, b);
    var s3 := FireTimer(s2, n);
    assert s3.pending == s.pending + [Timer(b, b)];
    assert s3.pending[n] == Timer(b, b);
  }

  /** The shared secret and the default used in the scenarios. */
  const SCENARIO_SECRET: string := "secret"

  function Ask(seconds: int): map<string, string> {
    map["psk" := SCENARIO_SECRET, "duration" := Show(seconds)]
  }

  lemma AskedSeconds(seconds: int)
    requires MIN_UNLOCK_SECONDS <= seconds <= MAX_UNLOCK_SECONDS
    ensures Authentic(Ask(seconds), SCENARIO_SECRET)
    ensures UnlockSeconds(Ask(seconds), 10) == seconds
  {
    ParseDurationOfShow(seconds, 10);
  }

  /**
   * A 5 s request at t = 1 s, then a 20 s request at t = 3 s: the first
   * task wakes at 6 s and leaves the door open; the second wakes at 23 s,
   * 22 s after the first request, and locks it.
   */
  lemma FiveThenTwenty()
    ensures var s2 := TwoRequests(Booted(), 1000, Ask(5), 3000, Ask(20), SCENARIO_SECRET, 10);
      && s2.pending == [Timer(6000, 6000), Timer(23000, 23000)]
      && FireTimer(s2, 0).unlocked
      && !FireTimer(FireTimer(s2, 0), 0).unlocked
  {
    AskedSeconds(5);
    AskedSeconds(20);
    TwoRequestsExtend(Booted(), 1000, Ask(5), 3000, Ask(20), SCENARIO_SECRET, 10);
    LaterRequestSupersedes(Booted(), 1000, Ask(5), 3000, Ask(20), SCENARIO_SECRET, 10);
  }

  /**
   * A 20 s request at t = 1 s, then a 5 s request at t = 3 s: the second
   * arms nothing and the door stays open until the first task wakes at 21 s.
   */
  lemma TwentyThenFive()
    ensures var s2 := TwoRequests(Booted(), 1000, Ask(20), 3000, Ask(5), SCENARIO_SECRET, 10);
      && s2.unlocked
      && s2.pending == [Timer(21000, 21000)]
      && !FireTimer(s2, 0).unlocked
  {
    AskedSeconds(5);
    AskedSeconds(20);
    TwoRequestsExtend(Booted(), 1000, Ask(20), 3000, Ask(5), SCENARIO_SECRET, 10);
  }

  // ---------------------------------------------------------------------
  // Wrap-around: the comparison against a stale deadline
  // ---------------------------------------------------------------------

  /**
   * As written, `ticks_diff(until_ms, self.unlocked_until) < 0` also holds
   * when the stored deadline is an old one from half a tick period ago (or
   * the initial 0 once the counter passes 2^29 ms). Such a request unlocks
   * the door and arms no re-lock at all.
   */
  lemma StaleDeadlineLeavesDoorOpen()
    ensures var s := Request(Booted(), HALF, map["psk" := SCENARIO_SECRET], SCENARIO_SECRET, 10).0;
      s.unlocked && s.pending == [] && !RelockArmed(s)
  {
    var s := Request(Booted(), HALF, map["psk" := SCENARIO_SECRET], SCENARIO_SECRET, 10).0;
    assert UnlockSeconds(map["psk" := SCENARIO_SECRET], 10) == 10;
    UpperHalfLooksEarlier(HALF + 10000);
  }

  /**
   * The evidently intended rule: a request may leave the stored deadline in
   * place only while the door is already held open for it; a locked door
   * always arms a re-lock.
   */
  function ArmRelockGuarded(s: DoorState, now: nat, durationMs: nat): (s': DoorState)
    ensures s'.unlocked == s.unlocked
    ensures !s.unlocked ==> s'.unlockedUntil == TicksAdd(TicksMs(now), durationMs)
    ensures !s.unlocked ==> s'.pending == s.pending + [Timer(now + durationMs, s'.unlockedUntil)]
    ensures s' == s <==> s.unlocked && TicksDiff(TicksAdd(TicksMs(now), durationMs), s.unlockedUntil) < 0
    ensures s' != s ==>
      s'.unlockedUntil == TicksAdd(TicksMs(now), durationMs) &&
      s'.pending == s.pending + [Timer(now + durationMs, s'.unlockedUntil)]
  {
    var until := TicksAdd(TicksMs(now), durationMs);
    if s.unlocked && TicksDiff(until, s.unlockedUntil) < 0 then s
    else s.(unlockedUntil := until, pending := s.pending + [Timer(now + durationMs, until)])
  }

  /** `index` with the guarded comparison, made before the actuator is switched on. */
  function RequestGuarded(s: DoorState, now: nat, data: map<string, string>, secret: string, defaultSeconds: int)
    : (r: (DoorState, Option<string>))
    ensures !Authentic(data, secret) ==> r == (s, None)
    ensures Authentic(data, secret) ==> r.1 == Some("OK") && r.0.unlocked
    ensures var ms := UnlockSeconds(data, defaultSeconds) * 1000;
      Authentic(data, secret) && s.unlocked && TicksDiff(TicksAdd(TicksMs(now), ms), s.unlockedUntil) < 0 ==>
        r.0 == s
    ensures var ms := UnlockSeconds(data, defaultSeconds) * 1000;
      Authentic(data, secret) && !(s.unlocked && TicksDiff(TicksAdd(TicksMs(now), ms), s.unlockedUntil) < 0) ==>
        r.0.unlockedUntil == TicksAdd(TicksMs(now), ms) && r.0.pending == s.pending + [Timer(now + ms, r.0.unlockedUntil)]
  {
    if !Authentic(data, secret) then (s, None)
    else (ArmRelockGuarded(s, now, UnlockSeconds(data, defaultSeconds) * 1000).(unlocked := true), Some("OK"))
  }

  /** With the guard, an unlocked door always has a re-lock armed, whatever the tick values. */
  lemma {:induction false} RequestGuardedKeepsRelockArmed(s: DoorState, now: nat, data: map<string, string>, secret: string, defaultSeconds: int)
    requires RelockArmed(s)
    ensures RelockArmed(RequestGuarded(s, now, data, secret, defaultSeconds).0)
  {
    if Authentic(data, secret) {
      var ms := UnlockSeconds(data, defaultSeconds) * 1000;
      var a := ArmRelockGuarded(s, now, ms);
      var s' := a.(unlocked := true);
      if s.unlocked && TicksDiff(TicksAdd(TicksMs(now), ms), s.unlockedUntil) < 0 {
        var k :| 0 <= k < |s.pending| && s.pending[k].armed == s.unlockedUntil;
        assert s'.pending[k].armed == s'.unlockedUntil;
      } else {
        var k := |a.pending| - 1;
        assert s'.pending[k].armed == s'.unlockedUntil;
      }
    }
  }

  /** The guard changes nothing while ticks stay small: it agrees with the code as written. */
  lemma GuardedAgreesWhenCalm(s: DoorState, now: nat, durationMs: nat)
    requires Calm(s, now) && now + durationMs < HALF
    ensures ArmRelockGuarded(s, now, durationMs) == ArmRelock(s, now, durationMs)
  {
    DiffSmall(now + durationMs, s.unlockedUntil);
  }

  // ---------------------------------------------------------------------
  // The firmware object
  // ---------------------------------------------------------------------

  class DoorServer {
    /** `env.SHARED_PASSWORD` and `env.DEFAULT_UNLOCK_DURATION`. */
    const sharedPassword: string
    const defaultDuration: int

    /** `self.unlocked_until`, a tick value. */
    var unlockedUntil: Tick
    /** The actuator: PWM duty 1023 with the LED on, or duty 0 with the LED off. */
    var unlocked: bool
    /** The `schedule_lock` tasks that are asleep. */
    var pending: seq<Timer>

    function State(): DoorState
      reads this
    {
      DoorState(unlockedUntil, unlocked, pending)
    }

    /** `DoorServer()`: `unlocked_until = 0`; the actuator is as the hardware powered up. */
    constructor(sharedPassword: string, defaultDuration: int, unlockedAtPowerOn: bool)
      ensures this.sharedPassword == sharedPassword && this.defaultDuration == defaultDuration
      ensures State() == DoorState(0, unlockedAtPowerOn, [])
    {
      this.sharedPassword := sharedPassword;
      this.defaultDuration := defaultDuration;
      unlockedUntil := 0;
      unlocked := unlockedAtPowerOn;
      pending := [];
    }

    /** `main`: construct the server and lock the door before serving. */
    static method Start(sharedPassword: string, defaultDuration: int, unlockedAtPowerOn: bool)
      returns (door: DoorServer)
      ensures fresh(door)
      ensures door.sharedPassword == sharedPassword && door.defaultDuration == defaultDuration
      ensures door.State() == Booted()
    {
      door := new DoorServer(sharedPassword, defaultDuration, unlockedAtPowerOn);
      door.Lock();
    }

    /** `lock()`: duty 0, LED off. Idempotent. */
    method Lock()
      modifies this`unlocked
      ensures !unlocked
    {
      unlocked := false;
    }

    /** `unlock()`: duty 1023, LED on. Idempotent. */
    method Unlock()
      modifies this`unlocked
      ensures unlocked
    {
      unlocked := true;
    }

    /** The first half of `schedule_lock`, up to the sleep. */
    method ScheduleLock(now: nat, durationMs: nat)
      modifies this`unlockedUntil, this`pending
      ensures State() == ArmRelock(old(State()), now, durationMs)
      ensures unlockedUntil == old(unlockedUntil) || unlockedUntil == TicksAdd(TicksMs(now), durationMs)
    {
      var untilMs := TicksAdd(TicksMs(now), durationMs);
      if TicksDiff(untilMs, unlockedUntil) < 0 {
        return;
      }
      unlockedUntil := untilMs;
      pending := pending + [Timer(now + durationMs, untilMs)];
    }

    /** The second half of `schedule_lock`: sleeping task `i` wakes and checks the deadline. */
    method ResumeScheduledLock(i: nat)
      requires i < |pending|
      modifies this`unlocked, this`pending
      ensures State() == FireTimer(old(State()), i)
      ensures unlocked == (old(unlocked) && old(pending[i].armed) != unlockedUntil)
    {
      var untilMs := pending[i].armed;
      pending := pending[..i] + pending[i + 1..];
      if unlockedUntil == untilMs {
        Lock();
      }
    }

    /** `index(request)` at time `now`, for the request's form data. */
    method Index(now: nat, data: map<string, string>) returns (reply: Option<string>)
      modifies this`unlocked, this`unlockedUntil, this`pending
      ensures (State(), reply) == Request(old(State()), now, data, sharedPassword, defaultDuration)
      ensures !Authentic(data, sharedPassword) ==> unchanged(this) && reply == None
    {
      if Get(data, "psk") != Some(sharedPassword) {
        return None;
      }
      var duration := ParseDuration(Get(data, "duration"), defaultDuration);
      var unlockDuration := Clamp(duration);
      Unlock();
      ScheduleLock(now, unlockDuration * 1000);
      reply := Some("OK");
    }
  }
}
