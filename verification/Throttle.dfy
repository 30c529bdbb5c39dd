/** The rate limit on the login endpoint. Times and durations are in nanoseconds. */
module Throttle {
  import opened Bytes

  const U32_MAX: nat := 0xFFFF_FFFF

  type U32 = n: nat | n <= U32_MAX

  const MILLISECOND: nat := 1_000_000
  /** `Duration` counts whole seconds in 64 bits. */
  const MAX_DURATION: nat := 0xFFFF_FFFF_FFFF_FFFF * 1_000_000_000 + 999_999_999

  const FREE_ATTEMPTS: nat := 3
  const BASE_COOLDOWN: nat := 250 * MILLISECOND
  const MAX_COOLDOWN: nat := 5000 * MILLISECOND

  function Pow2(n: nat): nat {
    if n == 0 then 1 else 2 * Pow2(n - 1)
  }

  function CheckedSub(a: nat, b: nat): Option<nat> {
    if a < b then None else Some(a - b)
  }

  /** `1u32.checked_shl(n)` */
  function CheckedShlOne(n: nat): Option<nat> {
    if n >= 32 then None else Some(Pow2(n))
  }

  function CheckedMul(d: nat, n: nat): Option<nat> {
    if d * n > MAX_DURATION then None else Some(d * n)
  }

  function Min(a: nat, b: nat): nat {
    if a < b then a else b
  }

  function Cooldown(failures: U32): nat {
    match CheckedSub(failures, FREE_ATTEMPTS)
    case None => 0
    case Some(over) =>
      if over == 0 then 0
      else
        var shifted := CheckedShlOne(over - 1);
        var product := CheckedMul(BASE_COOLDOWN, if shifted.Some? then shifted.value else U32_MAX);
        Min(if product.Some? then product.value else MAX_COOLDOWN, MAX_COOLDOWN)
  }

  datatype State = State(failures: U32, nextAllowed: Option<nat>)

  datatype Outcome = Refused(retryAfter: nat) | Checked(ok: bool)

  predicate InCooldown(s: State, now: nat) {
    s.nextAllowed.Some? && now < s.nextAllowed.value
  }

  function Answer(s: State, now: nat, ok: bool): Outcome {
    if InCooldown(s, now) then Refused(s.nextAllowed.value - now) else Checked(ok)
  }

  function After(s: State, now: nat, ok: bool): State {
    if InCooldown(s, now) then s
    else if ok then State(0, None)
    else
      var failures := Min(s.failures + 1, U32_MAX);
      State(failures, if Cooldown(failures) == 0 then None else Some(now + Cooldown(failures)))
  }

  class LoginThrottle {
    var failures: U32
    var nextAllowed: Option<nat>

    function Snapshot(): State
      reads this
    {
      State(failures, nextAllowed)
    }

    constructor ()
      ensures Snapshot() == State(0, None)
    {
      failures, nextAllowed := 0, None;
    }

    /** One login attempt at `now`, under the lock; `verified` is what the credential check would say. */
    method Attempt(now: nat, verified: bool) returns (r: Outcome)
      modifies this
      ensures Snapshot() == After(old(Snapshot()), now, verified)
      ensures r == Answer(old(Snapshot()), now, verified)
      ensures r.Checked? ==> r.ok == verified
      ensures r == Checked(true) ==> Snapshot() == State(0, None)
      ensures r.Refused? ==> Snapshot() == old(Snapshot())
    {
      if nextAllowed.Some? && now < nextAllowed.value {
        return Refused(nextAllowed.value - now);
      }
      if verified {
        failures, nextAllowed := 0, None;
      } else {
        failures := if failures == U32_MAX then U32_MAX else failures + 1;
        var cooldown := Cooldown(failures);
        nextAllowed := if cooldown == 0 then None else Some(now + cooldown);
      }
      r := Checked(verified);
    }
  }

  // ---- The cooldown ----

  lemma {:induction false} Pow2Monotone(a: nat, b: nat)
    requires a <= b
    ensures Pow2(a) <= Pow2(b)
  {
    if a < b {
      Pow2Monotone(a, b - 1);
    }
  }

  lemma Pow2Of31()
    ensures Pow2(31) == 0x8000_0000
  {
    assert Pow2(8) == 256;
    assert Pow2(16) == 0x1_0000;
    assert Pow2(24) == 0x100_0000;
  }

  /** Free for three failures, then 250 ms doubling for five, then five seconds. */
  lemma CooldownShape(failures: U32)
    ensures failures <= 3 ==> Cooldown(failures) == 0
    ensures 4 <= failures <= 8 ==> Cooldown(failures) == Pow2(failures - 4) * 250 * MILLISECOND
    ensures failures >= 9 ==> Cooldown(failures) == 5000 * MILLISECOND
  {
    assert Pow2(4) == 16 && Pow2(5) == 32;
    if failures >= 9 {
      var over := failures - 3;
      if over - 1 < 32 {
        Pow2Monotone(5, over - 1);
        Pow2Monotone(over - 1, 31);
        Pow2Of31();
      }
    } else if failures >= 4 {
      Pow2Monotone(failures - 4, 4);
    }
  }

  /** No failure count overflows the multiplication: the cap alone sets the ceiling. */
  lemma CooldownNeverOverflows(failures: U32)
    requires failures > FREE_ATTEMPTS
    ensures
      var shifted := CheckedShlOne(failures - FREE_ATTEMPTS - 1);
      CheckedMul(BASE_COOLDOWN, if shifted.Some? then shifted.value else U32_MAX).Some?
  {
    var n := failures - FREE_ATTEMPTS - 1;
    if n < 32 {
      Pow2Monotone(n, 31);
      Pow2Of31();
    }
  }

  lemma CooldownIsMonotone(a: U32, b: U32)
    requires a <= b
    ensures Cooldown(a) <= Cooldown(b) <= 5000 * MILLISECOND
  {
    CooldownShape(a);
    CooldownShape(b);
    if 4 <= a <= b <= 8 {
      Pow2Monotone(a - 4, b - 4);
    }
    assert Pow2(4) == 16;
    if 4 <= a <= 8 {
      Pow2Monotone(a - 4, 4);
    }
    if 4 <= b <= 8 {
      Pow2Monotone(b - 4, 4);
    }
  }

  // ---- Runs of attempts ----

  /** When an attempt is made, and what the credential check would say of it. */
  datatype Attempt = Attempt(now: nat, ok: bool)

  /** The clock does not run backwards. */
  ghost predicate Ordered(attempts: seq<Attempt>) {
    forall i, j | 0 <= i <= j < |attempts| :: attempts[i].now <= attempts[j].now
  }

  ghost function StateAfter(s: State, attempts: seq<Attempt>): State
    decreases |attempts|
  {
    if attempts == [] then s
    else
      var before := StateAfter(s, attempts[..|attempts| - 1]);
      var last := attempts[|attempts| - 1];
      After(before, last.now, last.ok)
  }

  /** The times at which the credentials were really checked. */
  ghost function CheckTimes(s: State, attempts: seq<Attempt>): seq<nat>
    decreases |attempts|
  {
    if attempts == [] then []
    else
      var a := attempts[0];
      var rest := CheckTimes(After(s, a.now, a.ok), attempts[1..]);
      if InCooldown(s, a.now) then rest else [a.now] + rest
  }

  /** The next allowed moment is never more than a full cooldown ahead of the last attempt. */
  lemma {:induction false} CooldownIsShort(attempts: seq<Attempt>)
    requires Ordered(attempts)
    ensures var s := StateAfter(State(0, None), attempts);
      s.nextAllowed.Some? ==> attempts != [] && s.nextAllowed.value <= attempts[|attempts| - 1].now + 5000 * MILLISECOND
    decreases |attempts|
  {
    if attempts != [] {
      var init, last := attempts[..|attempts| - 1], attempts[|attempts| - 1];
      CooldownIsShort(init);
      var before := StateAfter(State(0, None), init);
      CooldownIsMonotone(Min(before.failures + 1, U32_MAX), U32_MAX);
      assert init != [] ==> init[|init| - 1].now <= last.now;
    }
  }

  /** A refusal changes nothing, and asks the caller to wait five seconds at most. */
  lemma RefusalIsShortAndHarmless(earlier: seq<Attempt>, now: nat, ok: bool)
    requires Ordered(earlier + [Attempt(now, ok)])
    ensures
      var s := StateAfter(State(0, None), earlier);
      Answer(s, now, ok).Refused? ==>
        && 0 < Answer(s, now, ok).retryAfter <= 5000 * MILLISECOND
        && After(s, now, ok) == s
  {
    var all := earlier + [Attempt(now, ok)];
    assert Ordered(earlier) by {
      forall i, j | 0 <= i <= j < |earlier| ensures earlier[i].now <= earlier[j].now {
        assert all[i].now <= all[j].now;
      }
    }
    CooldownIsShort(earlier);
    if earlier != [] {
      assert all[|earlier| - 1].now <= all[|earlier|].now;
    }
  }

  // ---- What a success does, and when an attempt is refused ----

  /** What a history of attempts is answered. */
  ghost function Answers(s: State, attempts: seq<Attempt>): seq<Outcome>
    decreases |attempts|
  {
    if attempts == [] then [] else [Answer(s, attempts[0].now, attempts[0].ok)] + Answers(After(s, attempts[0].now, attempts[0].ok), attempts[1..])
  }

  /** The answer to a new attempt, after a history. */
  ghost function AnswerAfter(earlier: seq<Attempt>, a: Attempt): Outcome {
    Answer(StateAfter(State(0, None), earlier), a.now, a.ok)
  }

  /** Checked attempts that failed, since the last one that succeeded. */
  ghost function Streak(attempts: seq<Attempt>): nat
    decreases |attempts|
  {
    if attempts == [] then 0
    else
      var earlier, last := attempts[..|attempts| - 1], attempts[|attempts| - 1];
      match AnswerAfter(earlier, last)
      case Refused(_) => Streak(earlier)
      case Checked(ok) => if ok then 0 else Streak(earlier) + 1
  }

  /** When the last attempt was checked. */
  ghost function LastCheck(attempts: seq<Attempt>): Option<nat>
    decreases |attempts|
  {
    if attempts == [] then None
    else
      var earlier, last := attempts[..|attempts| - 1], attempts[|attempts| - 1];
      if AnswerAfter(earlier, last).Checked? then Some(last.now) else LastCheck(earlier)
  }

  /** The streak as the throttle counts it. */
  ghost function Counted(attempts: seq<Attempt>): U32 {
    Min(Streak(attempts), U32_MAX)
  }

  /** The throttle remembers the streak, and its cooldown counted from the last check. */
  lemma {:induction false} StateIsStreak(attempts: seq<Attempt>)
    ensures Streak(attempts) > 0 ==> LastCheck(attempts).Some?
    ensures StateAfter(State(0, None), attempts)
      == State(Counted(attempts), if Cooldown(Counted(attempts)) == 0 then None else Some(LastCheck(attempts).value + Cooldown(Counted(attempts))))
    decreases |attempts|
  {
    if attempts != [] {
      StateIsStreak(attempts[..|attempts| - 1]);
    }
  }

  /**
   * An attempt is refused exactly when four or more checks have failed since the last success and the cooldown of that
   * many failures, counted from the last check, has not run out; it is told how much of it is left. Otherwise it is
   * checked, and answered what the credential check says.
   */
  lemma RefusedIff(earlier: seq<Attempt>, a: Attempt)
    ensures Streak(earlier) > 3 ==> LastCheck(earlier).Some?
    ensures var wait := Cooldown(Counted(earlier));
      AnswerAfter(earlier, a) ==
        if Streak(earlier) > 3 && a.now < LastCheck(earlier).value + wait then Refused(LastCheck(earlier).value + wait - a.now)
        else Checked(a.ok)
  {
    StateIsStreak(earlier);
    CooldownShape(Counted(earlier));
    if 4 <= Streak(earlier) <= 8 {
      Pow2Monotone(0, Streak(earlier) - 4);
    }
  }

  /** The first three failures after a success, or from the start, are free. */
  lemma ThreeFailuresAreFree(earlier: seq<Attempt>, a: Attempt)
    requires Streak(earlier) <= 3
    ensures AnswerAfter(earlier, a) == Checked(a.ok)
  {
    RefusedIff(earlier, a);
  }

  /** After a success the throttle answers whatever follows as a fresh one would. */
  lemma SuccessStartsAfresh(earlier: seq<Attempt>, a: Attempt, later: seq<Attempt>)
    requires AnswerAfter(earlier, a) == Checked(true)
    ensures Answers(StateAfter(State(0, None), earlier + [a]), later) == Answers(State(0, None), later)
  {
    assert (earlier + [a])[..|earlier|] == earlier;
  }

  // ---- How fast guesses can be made ----

  /** No attempt that is checked succeeds; what an attempt refused in a cooldown carried does not count. */
  ghost predicate NoSuccess(s: State, attempts: seq<Attempt>)
    decreases |attempts|
  {
    attempts != [] ==>
      && (!InCooldown(s, attempts[0].now) ==> !attempts[0].ok)
      && NoSuccess(After(s, attempts[0].now, attempts[0].ok), attempts[1..])
  }

  /** Nothing is checked before its time. */
  lemma {:induction false} NotBefore(s: State, attempts: seq<Attempt>, from: nat)
    requires Ordered(attempts)
    requires attempts != [] ==> from <= attempts[0].now || (s.nextAllowed.Some? && from <= s.nextAllowed.value)
    requires NoSuccess(s, attempts)
    ensures forall t | t in CheckTimes(s, attempts) :: from <= t
    decreases |attempts|
  {
    if attempts != [] {
      var a := attempts[0];
      var next := After(s, a.now, a.ok);
      assert Ordered(attempts[1..]);
      assert |attempts| > 1 ==> a.now <= attempts[1].now;
      NotBefore(next, attempts[1..], from);
    }
  }

  /** Between two checks of a streak lies the cooldown the first of them opened. */
  lemma {:induction false} ChecksAreSpaced(s: State, attempts: seq<Attempt>, k: nat)
    requires Ordered(attempts) && NoSuccess(s, attempts) && k + 1 < |CheckTimes(s, attempts)|
    ensures CheckTimes(s, attempts)[k] + Cooldown(Min(s.failures + k + 1, U32_MAX)) <= CheckTimes(s, attempts)[k + 1]
    decreases |attempts|
  {
    var a := attempts[0];
    var next := After(s, a.now, a.ok);
    var rest := CheckTimes(next, attempts[1..]);
    assert Ordered(attempts[1..]);
    if InCooldown(s, a.now) {
      ChecksAreSpaced(next, attempts[1..], k);
    } else if k > 0 {
      ChecksAreSpaced(next, attempts[1..], k - 1);
    } else {
      NotBefore(next, attempts[1..], a.now + Cooldown(Min(s.failures + 1, U32_MAX)));
      assert rest[0] in rest;
    }
  }

  /** The cooldowns opened by failures `1` to `k`. */
  ghost function TotalCooldown(k: nat): nat {
    if k == 0 then 0 else TotalCooldown(k - 1) + Cooldown(Min(k, U32_MAX))
  }

  lemma {:induction false} TotalCooldownShape(k: nat)
    requires k >= 8
    ensures TotalCooldown(k) == (7750 + 5000 * (k - 8)) * MILLISECOND
  {
    CooldownShape(Min(k, U32_MAX));
    if k == 8 {
      CooldownShape(1);
      CooldownShape(2);
      CooldownShape(3);
      CooldownShape(4);
      CooldownShape(5);
      CooldownShape(6);
      CooldownShape(7);
      assert TotalCooldown(3) == 0;
      assert TotalCooldown(6) == 1750 * MILLISECOND;
    } else {
      TotalCooldownShape(k - 1);
    }
  }

  lemma {:induction false} StreakTakesTime(attempts: seq<Attempt>, k: nat)
    requires Ordered(attempts) && NoSuccess(State(0, None), attempts) && k < |CheckTimes(State(0, None), attempts)|
    ensures CheckTimes(State(0, None), attempts)[k] >= CheckTimes(State(0, None), attempts)[0] + TotalCooldown(k)
  {
    if k > 0 {
      StreakTakesTime(attempts, k - 1);
      ChecksAreSpaced(State(0, None), attempts, k - 1);
    }
  }

  /**
   * However many attempts arrive, when, and with whatever credentials: between successes the n-th
   * credential check, from the ninth on, comes at least 7750 + 5000 (n - 9) milliseconds after the
   * first.
   */
  lemma GuessingIsSlow(attempts: seq<Attempt>, n: nat)
    requires Ordered(attempts) && NoSuccess(State(0, None), attempts) && 9 <= n <= |CheckTimes(State(0, None), attempts)|
    ensures CheckTimes(State(0, None), attempts)[n - 1] >= CheckTimes(State(0, None), attempts)[0] + (7750 + 5000 * (n - 9)) * MILLISECOND
  {
    StreakTakesTime(attempts, n - 1);
    TotalCooldownShape(n - 1);
  }

  /** The moments at which the cooldowns end, from the one `done` failures opened. */
  ghost function Schedule(done: nat, n: nat): seq<nat>
    decreases n
  {
    if n == 0 then [] else [TotalCooldown(done)] + Schedule(done + 1, n - 1)
  }

  /** Wrong guesses made at just those moments. */
  ghost function PatientGuesses(done: nat, n: nat): seq<Attempt>
    decreases n
  {
    if n == 0 then [] else [Attempt(TotalCooldown(done), false)] + PatientGuesses(done + 1, n - 1)
  }

  /** The bound is exact: a patient guesser is never refused, and is checked every time. */
  lemma {:induction false} BoundIsExact(s: State, done: nat, n: nat)
    requires done + n <= U32_MAX && s.failures == done
    requires s.nextAllowed.Some? ==> s.nextAllowed.value <= TotalCooldown(done)
    ensures CheckTimes(s, PatientGuesses(done, n)) == Schedule(done, n)
    decreases n
  {
    if n > 0 {
      var now := TotalCooldown(done);
      var rest := PatientGuesses(done + 1, n - 1);
      var guesses := [Attempt(now, false)] + rest;
      assert guesses == PatientGuesses(done, n) && guesses[1..] == rest;
      var next := After(s, now, false);
      assert now + Cooldown(done + 1) == TotalCooldown(done + 1);
      BoundIsExact(next, done + 1, n - 1);
    }
  }
}
