/**
 * The login screen's state machine: the failed-attempt counter with its
 * timed lockout, one press of the login button (`login`) as a pure step over
 * that state, the message and popup each outcome shows, and the screen
 * object itself, whose methods update the two counter fields in place and
 * are proved against the pure step.
 *
 * The wall clock is read twice per press: `now` for the lock check and
 * `stamp` when a failure is recorded, after the verifier calls (whole
 * seconds, two independent parameters); the account database
 * is the `Verifier` oracle of module Accounts.
 */
module Login {
  import opened Wrappers
  import opened Validation
  import opened Accounts

  /** Failed attempts that lock the screen, and how long the lock lasts. */
  const MaxAttempts := 5
  const LockoutDuration := 30

  /** `failed_attempts` and `last_attempt_time`. */
  datatype Lockout = Lockout(failed: int, last: int)

  /** The state of a new screen, and the state after a successful login. */
  const Fresh := Lockout(0, 0)

  /** The bound every reachable state keeps. */
  predicate WithinBound(s: Lockout)
  {
    0 <= s.failed <= MaxAttempts
  }

  /** Locked: the maximum number of failures reached, and the last one less
      than the lockout duration ago. */
  predicate IsLocked(s: Lockout, now: int)
  {
    s.failed >= MaxAttempts && now - s.last < LockoutDuration
  }

  /** What `is_account_locked` returns, and the state it leaves behind. */
  datatype LockCheck = LockCheck(locked: bool, remaining: int, after: Lockout)

  /** `is_account_locked`: while locked, the whole seconds left; once the lock
      has run out, the counter is cleared (the time of the last failure is
      kept). */
  function CheckLock(s: Lockout, now: int): (r: LockCheck)
    ensures r.locked <==> IsLocked(s, now)
    ensures r.locked ==> r.after == s && r.remaining == LockoutDuration - (now - s.last) && r.remaining > 0
    ensures s.failed < MaxAttempts ==> !r.locked && r.remaining == 0 && r.after == s
    ensures s.failed >= MaxAttempts && !r.locked ==> r.remaining == 0 && r.after == Lockout(0, s.last)
    ensures !r.locked ==> r.after.failed < MaxAttempts
  {
    if s.failed >= MaxAttempts then
      if now - s.last < LockoutDuration then LockCheck(true, LockoutDuration - (now - s.last), s)
      else LockCheck(false, 0, Lockout(0, s.last))
    else LockCheck(false, 0, s)
  }

  /** While the lock lasts the seconds shown count down with the clock. */
  lemma RemainingCountsDown(s: Lockout, t1: int, t2: int)
    requires IsLocked(s, t1) && IsLocked(s, t2) && t1 < t2
    ensures CheckLock(s, t2).remaining < CheckLock(s, t1).remaining
  {
  }

  /** A lock never shows more than the lockout duration, once the clock is at
      or past the failure that set it. */
  lemma RemainingAtMostDuration(s: Lockout, now: int)
    requires IsLocked(s, now) && s.last <= now
    ensures 0 < CheckLock(s, now).remaining <= LockoutDuration
  {
  }

  /** What one press of the login button ends in. */
  datatype Outcome =
    | Locked(seconds: int)
    | Invalid(message: string)
    | Success(session: Session, screen: Screen)
    | Failed(remaining: int)

  /** The outcome, the state left behind and the partitions asked. */
  datatype StepResult = StepResult(outcome: Outcome, after: Lockout, asked: seq<Role>)

  /** `login`: refuse while locked; otherwise validate the cleaned-up input,
      ask the verifiers, and either reset the counter and open the role's
      screen, or count one more failure. The clock is read twice: `now` by
      the lock check, and `stamp` when the failure is recorded, after the
      verifiers have answered. */
  function Step(s: Lockout, now: int, stamp: int, rawEmail: string, rawPassword: string, verify: Verifier): (r: StepResult)
    ensures r.outcome.Locked? <==> IsLocked(s, now)
    ensures r.outcome.Locked? ==>
              r.after == s && r.asked == [] && r.outcome.seconds == CheckLock(s, now).remaining > 0
    ensures !IsLocked(s, now) ==> (r.outcome.Invalid? <==> ValidateCredentials(rawEmail, rawPassword).Rejected?)
    ensures r.outcome.Invalid? ==> r.after == CheckLock(s, now).after && r.asked == []
    ensures r.asked != [] <==> r.outcome.Success? || r.outcome.Failed?
    ensures r.outcome.Success? ==> r.after == Fresh && r.outcome.screen == ScreenFor(r.outcome.session.role)
    ensures r.outcome.Failed? ==>
              r.after == Lockout(CheckLock(s, now).after.failed + 1, stamp)
              && r.outcome.remaining == MaxAttempts - r.after.failed
    ensures WithinBound(s) ==> WithinBound(r.after)
    ensures WithinBound(s) && r.outcome.Failed? ==> 0 <= r.outcome.remaining < MaxAttempts
    ensures !IsLocked(s, now) && ValidateCredentials(rawEmail, rawPassword).Rejected? ==>
              r.outcome == Invalid(ValidateCredentials(rawEmail, rawPassword).message)
    ensures !IsLocked(s, now) && ValidateCredentials(rawEmail, rawPassword).Accepted? ==>
              var c := ValidateCredentials(rawEmail, rawPassword);
              var a := AttemptLogin(verify, c.email, c.password);
              r.asked == a.asked
              && (r.outcome.Success? <==> a.access.Granted?)
              && (a.access.Granted? ==> r.outcome.session == SessionFor(a.access.role, a.access.account))
  {
    var check := CheckLock(s, now);
    if check.locked then StepResult(Locked(check.remaining), s, [])
    else Unlocked(check.after, stamp, ValidateCredentials(rawEmail, rawPassword), verify)
  }

  /** The part of `login` after the lock check, from the validated input on;
      a failure is stamped with the clock reading `stamp`. */
  function Unlocked(s: Lockout, stamp: int, credentials: Credentials, verify: Verifier): (r: StepResult)
    ensures !r.outcome.Locked?
    ensures r.outcome.Invalid? <==> credentials.Rejected?
    ensures r.outcome.Invalid? ==> r.after == s && r.asked == []
    ensures r.asked != [] <==> r.outcome.Success? || r.outcome.Failed?
    ensures r.outcome.Success? ==> r.after == Fresh && r.outcome.screen == ScreenFor(r.outcome.session.role)
    ensures r.outcome.Failed? ==>
              r.after == Lockout(s.failed + 1, stamp) && r.outcome.remaining == MaxAttempts - r.after.failed
    ensures 0 <= s.failed < MaxAttempts ==> WithinBound(r.after)
    ensures credentials.Rejected? ==> r.outcome == Invalid(credentials.message)
    ensures credentials.Accepted? ==>
              var a := AttemptLogin(verify, credentials.email, credentials.password);
              r.asked == a.asked
              && (r.outcome.Success? <==> a.access.Granted?)
              && (a.access.Granted? ==> r.outcome.session == SessionFor(a.access.role, a.access.account))
  {
    match credentials
    case Rejected(message) => StepResult(Invalid(message), s, [])
    case Accepted(email, password) =>
      var attempt := AttemptLogin(verify, email, password);
      match attempt.access
      case Granted(role, account) =>
        StepResult(Success(SessionFor(role, account), ScreenFor(role)), Fresh, attempt.asked)
      case Denied =>
        StepResult(Failed(MaxAttempts - (s.failed + 1)), Lockout(s.failed + 1, stamp), attempt.asked)
  }

  /** Past the lock check, a press is decided by the validated input and
      the verifiers alone. */
  lemma StepPastLock(s: Lockout, now: int, stamp: int, rawEmail: string, rawPassword: string, verify: Verifier)
    requires !IsLocked(s, now)
    ensures Step(s, now, stamp, rawEmail, rawPassword, verify)
            == Unlocked(CheckLock(s, now).after, stamp, ValidateCredentials(rawEmail, rawPassword), verify)
  {
  }

  /** Valid credentials that a verifier grants always log in: the counter is
      reset and the granted role's session and screen are opened. */
  lemma GrantedMeansSuccess(s: Lockout, now: int, stamp: int, rawEmail: string, rawPassword: string, verify: Verifier)
    requires !IsLocked(s, now)
    requires ValidateCredentials(rawEmail, rawPassword).Accepted?
    requires AttemptLogin(verify, ValidateCredentials(rawEmail, rawPassword).email,
                          ValidateCredentials(rawEmail, rawPassword).password).access.Granted?
    ensures var c := ValidateCredentials(rawEmail, rawPassword);
            var a := AttemptLogin(verify, c.email, c.password);
            Step(s, now, stamp, rawEmail, rawPassword, verify)
            == StepResult(Success(SessionFor(a.access.role, a.access.account), ScreenFor(a.access.role)),
                          Fresh, a.asked)
  {
    var c := ValidateCredentials(rawEmail, rawPassword);
    assert Step(s, now, stamp, rawEmail, rawPassword, verify) == Unlocked(CheckLock(s, now).after, stamp, c, verify);
  }

  /** A successful login always rests on a verifier that returned the very
      account the session is built from, for the cleaned-up credentials. */
  lemma SuccessMeansVerified(s: Lockout, now: int, stamp: int, rawEmail: string, rawPassword: string, verify: Verifier)
    requires Step(s, now, stamp, rawEmail, rawPassword, verify).outcome.Success?
    ensures var c := ValidateCredentials(rawEmail, rawPassword);
            c.Accepted?
            && var a := AttemptLogin(verify, c.email, c.password);
            a.access.Granted?
            && verify(a.access.role, c.email, c.password) == Match(a.access.account)
            && Step(s, now, stamp, rawEmail, rawPassword, verify).outcome.session == SessionFor(a.access.role, a.access.account)
  {
  }

  /** A verifier that raises counts as a failed attempt, exactly like wrong
      credentials, and the remaining partitions are not asked. */
  lemma FaultCountsAsFailure(s: Lockout, now: int, stamp: int, rawEmail: string, rawPassword: string, verify: Verifier)
    requires !IsLocked(s, now)
    requires ValidateCredentials(rawEmail, rawPassword).Accepted?
    requires verify(Company, ValidateCredentials(rawEmail, rawPassword).email,
                    ValidateCredentials(rawEmail, rawPassword).password) == Fault
    ensures Step(s, now, stamp, rawEmail, rawPassword, verify).outcome.Failed?
    ensures Step(s, now, stamp, rawEmail, rawPassword, verify).asked == [Company]
  {
    var c := ValidateCredentials(rawEmail, rawPassword);
    assert AttemptLogin(verify, c.email, c.password) == Attempt(Denied, [Company]);
    assert Step(s, now, stamp, rawEmail, rawPassword, verify) == Unlocked(CheckLock(s, now).after, stamp, c, verify);
  }

  /** The failure that brings the counter to the maximum shows no attempts
      left, and from then on every press is refused for the lockout
      duration, counted from the failure's stamp `t`, without asking any
      verifier and without changing the state. */
  lemma LockHoldsForDuration(s: Lockout, pressed: int, t: int, rawEmail: string, rawPassword: string,
                             verify: Verifier, now: int, stamp2: int, email2: string, password2: string,
                             verify2: Verifier)
    requires WithinBound(s)
    requires Step(s, pressed, t, rawEmail, rawPassword, verify).outcome == Failed(0)
    requires t <= now < t + LockoutDuration
    ensures var locked := Step(s, pressed, t, rawEmail, rawPassword, verify).after;
            var r := Step(locked, now, stamp2, email2, password2, verify2);
            locked.failed == MaxAttempts
            && r.outcome.Locked? && 0 < r.outcome.seconds <= LockoutDuration
            && r.after == locked && r.asked == []
  {
  }

  /** Once the lock has run out, the screen behaves exactly as one whose
      counter is at zero. */
  lemma LockExpires(s: Lockout, now: int, stamp: int, rawEmail: string, rawPassword: string, verify: Verifier)
    requires s.failed >= MaxAttempts && now - s.last >= LockoutDuration
    ensures Step(s, now, stamp, rawEmail, rawPassword, verify)
            == Step(Lockout(0, s.last), now, stamp, rawEmail, rawPassword, verify)
  {
  }

  /** One press of the button with its inputs: the two clock readings, the
      two fields and the account database at that moment. */
  datatype Try = Try(now: int, stamp: int, email: string, password: string, verify: Verifier)

  /** The state after a sequence of presses. */
  function Run(s: Lockout, tries: seq<Try>): Lockout
    decreases |tries|
  {
    if tries == [] then s
    else
      var t := tries[0];
      Run(Step(s, t.now, t.stamp, t.email, t.password, t.verify).after, tries[1..])
  }

  /** The counter stays within its bound whatever the presses. */
  lemma {:induction false} RunKeepsBound(s: Lockout, tries: seq<Try>)
    requires WithinBound(s)
    ensures WithinBound(Run(s, tries))
    decreases |tries|
  {
    if tries != [] {
      var t := tries[0];
      RunKeepsBound(Step(s, t.now, t.stamp, t.email, t.password, t.verify).after, tries[1..]);
    }
  }

  /** A press whose input is well formed but matches no account. */
  predicate Denies(t: Try)
  {
    var c := ValidateCredentials(t.email, t.password);
    c.Accepted? && AttemptLogin(t.verify, c.email, c.password).access.Denied?
  }

  /** Below the maximum, a denied press adds one failure, stamped with the
      clock reading taken after the verifiers, not with the press time. */
  lemma DeniedStep(s: Lockout, t: Try)
    requires 0 <= s.failed < MaxAttempts && Denies(t)
    ensures Step(s, t.now, t.stamp, t.email, t.password, t.verify).after == Lockout(s.failed + 1, t.stamp)
  {
    var c := ValidateCredentials(t.email, t.password);
    assert Step(s, t.now, t.stamp, t.email, t.password, t.verify) == Unlocked(s, t.stamp, c, t.verify);
  }

  /** Consecutive denied presses are counted one by one, until the maximum. */
  lemma {:induction false} FailuresAccumulate(s: Lockout, tries: seq<Try>)
    requires 0 <= s.failed && s.failed + |tries| <= MaxAttempts
    requires forall i :: 0 <= i < |tries| ==> Denies(tries[i])
    ensures Run(s, tries).failed == s.failed + |tries|
    decreases |tries|
  {
    if tries != [] {
      var t := tries[0];
      var next := Step(s, t.now, t.stamp, t.email, t.password, t.verify).after;
      DeniedStep(s, t);
      var rest := tries[1..];
      assert forall i :: 0 <= i < |rest| ==> Denies(rest[i]) by {
        forall i | 0 <= i < |rest| ensures Denies(rest[i]) {
          assert rest[i] == tries[i + 1];
        }
      }
      FailuresAccumulate(next, rest);
    }
  }

  /** A popup: its title and its text. */
  datatype Popup = Popup(title: string, text: string)

  /** The error label's text after a press, and the popup it opens if any. */
  datatype Feedback = Feedback(message: string, popup: Option<Popup>)

  const LockedTitle := "Cuenta Bloqueada"
  const WarningTitle := "Advertencia"
  const BadCredentials := "Credenciales incorrectas o usuario no válido."

  /** The decimal digit for 0..9. */
  function Digit(d: nat): char
    requires d < 10
  {
    ('0' as int + d) as char
  }

  /** The decimal text of a natural number, as an f-string writes it: no
      leading zero, except for zero itself. */
  function Decimal(n: nat): (r: string)
    ensures |r| >= 1 && forall i :: 0 <= i < |r| ==> '0' <= r[i] <= '9'
    ensures r[0] == '0' <==> n == 0
  {
    if n < 10 then [Digit(n)] else Decimal(n / 10) + [Digit(n % 10)]
  }

  /** The number a string of decimal digits denotes. */
  function DigitsValue(r: string): int
  {
    if r == [] then 0 else DigitsValue(r[..|r| - 1]) * 10 + (r[|r| - 1] as int - '0' as int)
  }

  /** The number shown in a message is the number meant. */
  lemma {:induction false} DecimalRoundTrip(n: nat)
    ensures DigitsValue(Decimal(n)) == n
  {
    if n >= 10 {
      DecimalRoundTrip(n / 10);
      var r := Decimal(n);
      assert r[..|r| - 1] == Decimal(n / 10);
    }
  }

  /** The decimal text of an integer. */
  function IntText(n: int): string
  {
    if n < 0 then "-" + Decimal(-n) else Decimal(n)
  }

  /** The label and popup each outcome of `login` shows: the lock message in
      both; the validation message; nothing on success; the bad-credentials
      message, with the attempts left while there are any, and a warning
      popup when one or two are left. */
  function FeedbackOf(o: Outcome): (f: Feedback)
    ensures o.Locked? ==>
              f.popup == Some(Popup(LockedTitle, f.message))
              && "Cuenta bloqueada por " + IntText(o.seconds) <= f.message
    ensures o.Invalid? ==> f == Feedback(o.message, None)
    ensures o.Success? ==> f == Feedback("", None)
    ensures o.Failed? ==> BadCredentials <= f.message && (f.message == BadCredentials <==> o.remaining <= 0)
    ensures o.Failed? ==> (f.popup.Some? <==> 1 <= o.remaining <= 2)
    ensures o.Failed? && o.remaining > 0 ==>
              BadCredentials + " Te quedan " + IntText(o.remaining) + " intentos" <= f.message
    ensures o.Failed? && f.popup.Some? ==>
              f.popup.value.title == WarningTitle
              && "Credenciales incorrectas. Te quedan " + IntText(o.remaining) + " intentos" <= f.popup.value.text
  {
    match o
    case Locked(seconds) =>
      var message := "Cuenta bloqueada por " + IntText(seconds)
                     + " segundos debido a múltiples intentos fallidos.";
      Feedback(message, Some(Popup(LockedTitle, message)))
    case Invalid(message) => Feedback(message, None)
    case Success(_, _) => Feedback("", None)
    case Failed(remaining) =>
      var text := if remaining > 0
                   then BadCredentials + " Te quedan " + IntText(remaining) + " intentos."
                   else BadCredentials;
      var popup := if remaining <= 2 && remaining > 0
                   then Some(Popup(WarningTitle, "Credenciales incorrectas. Te quedan " + IntText(remaining)
                                                 + " intentos antes de que la cuenta sea bloqueada."))
                   else None;
      Feedback(text, popup)
  }

  /** The login screen: its counter fields change in place. */
  class LoginScreen {
    var failedAttempts: int
    var lastAttemptTime: int

    /** The counter fields as a value. */
    function State(): Lockout
      reads this
    {
      Lockout(failedAttempts, lastAttemptTime)
    }

    predicate Valid()
      reads this
    {
      WithinBound(State())
    }

    constructor ()
      ensures State() == Fresh && Valid()
    {
      failedAttempts := 0;
      lastAttemptTime := 0;
    }

    /** `is_account_locked`. */
    method IsAccountLocked(now: int) returns (locked: bool, remaining: int)
      modifies this
      ensures var c := CheckLock(old(State()), now);
              locked == c.locked && remaining == c.remaining && State() == c.after
    {
      if failedAttempts >= MaxAttempts {
        if now - lastAttemptTime < LockoutDuration {
          return true, LockoutDuration - (now - lastAttemptTime);
        } else {
          failedAttempts := 0;
          return false, 0;
        }
      }
      return false, 0;
    }

    /** `record_failed_attempt`. */
    method RecordFailedAttempt(now: int)
      modifies this
      ensures State() == Lockout(old(failedAttempts) + 1, now)
    {
      failedAttempts := failedAttempts + 1;
      lastAttemptTime := now;
    }

    /** `reset_failed_attempts`. */
    method ResetFailedAttempts()
      modifies this
      ensures State() == Fresh
    {
      failedAttempts := 0;
      lastAttemptTime := 0;
    }

    /** `handle_successful_login`: clear the counter, build the session and
        pick the role's screen. */
    method HandleSuccessfulLogin(role: Role, account: Account) returns (session: Session, screen: Screen)
      modifies this
      ensures State() == Fresh && session == SessionFor(role, account) && screen == ScreenFor(role)
    {
      ResetFailedAttempts();
      session := SessionFor(role, account);
      screen := ScreenFor(role);
    }

    /** The second half of `login`, once the input is valid: ask the
        verifiers, then either open the session or record the failure. */
    method TryAccounts(stamp: int, email: string, password: string, verify: Verifier)
      returns (outcome: Outcome, asked: seq<Role>)
      requires 0 <= failedAttempts < MaxAttempts
      modifies this
      ensures var r := Unlocked(old(State()), stamp, Accepted(email, password), verify);
              outcome == r.outcome && State() == r.after && asked == r.asked
    {
      var attempt := AttemptLogin(verify, email, password);
      asked := attempt.asked;
      if attempt.access.Granted? {
        var session, screen := HandleSuccessfulLogin(attempt.access.role, attempt.access.account);
        outcome := Success(session, screen);
      } else {
        RecordFailedAttempt(stamp);
        outcome := Failed(MaxAttempts - failedAttempts);
      }
    }

    /** `login`, one press of the button: does what `Step` describes to the
        counter fields and shows what `FeedbackOf` describes. `now` is the
        clock when the button is pressed, `stamp` the clock when a failure
        is recorded, after the verifiers. */
    method Login(now: int, stamp: int, rawEmail: string, rawPassword: string, verify: Verifier)
      returns (outcome: Outcome, asked: seq<Role>, feedback: Feedback)
      requires Valid()
      modifies this
      ensures Valid()
      ensures var r := Step(old(State()), now, stamp, rawEmail, rawPassword, verify);
              outcome == r.outcome && State() == r.after && asked == r.asked
      ensures feedback == FeedbackOf(outcome)
    {
      ghost var before := State();
      var locked, remaining := IsAccountLocked(now);
      if locked {
        outcome, asked := Locked(remaining), [];
      } else {
        var credentials := ValidateCredentials(rawEmail, rawPassword);
        StepPastLock(before, now, stamp, rawEmail, rawPassword, verify);
        if credentials.Rejected? {
          outcome, asked := Invalid(credentials.message), [];
        } else {
          outcome, asked := TryAccounts(stamp, credentials.email, credentials.password, verify);
        }
      }
      feedback := FeedbackOf(outcome);
    }
  }
}
