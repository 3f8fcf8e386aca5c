# Login screen core: sanitiser, validators, lockout and login flow

This project models the credential pipeline of the `LoginScreen` of the
driver-monitoring app (`screens_logic/login_logic.py`) and proves properties
about it. The pipeline has four parts:

- **Sanitiser** (`sanitizer.dfy`, module `Sanitizer`). `sanitize_input` runs
  three passes in order. First it strips whitespace at both ends. Then it
  deletes the characters `\x00`-`\x1f` and `\x7f`-`\x9f`. Last, it replaces
  every whitespace run with one space.
- **Validators** (`validation.dfy`, module `Validation`):
  - `validate_email` checks for empty, then length over 254, then the
    address pattern;
  - `validate_password` checks for empty, then length over 128;
  - `validate_credentials` sanitises both fields, lower-cases the address,
    and checks the address before the password;
  - the two focus-loss hooks are modelled here too.
- **Accounts** (`accounts.dfy`, module `Accounts`):
  - `attempt_login` asks the company, admin and driver partitions in that
    order;
  - the session record that `handle_successful_login` stores;
  - the role-to-screen routing that `handle_successful_login` and
    `on_pre_enter` share.
- **Lockout and login** (`login.dfy`, module `Login`):
  - the counter pair `failed_attempts` / `last_attempt_time`, with 5
    attempts and a 30-second lock;
  - `login` as a pure step `Step` over that pair;
  - the label text and popup each outcome shows (`FeedbackOf`);
  - the screen as a class `LoginScreen`. Its two fields change in place,
    and its methods are proved against the pure functions.

The wall clock is read twice in one press, and each reading is an integer
parameter in seconds. The lock check reads it as `now` (line 184). A
failure is stamped with `stamp`, the reading `record_failed_attempt` takes
after the verifiers have answered (line 200). The two readings are
independent, so time spent in the verifier calls moves the start of a
lock. The three
`verify_*_login` database calls are one oracle, `Verifier`. For each
partition it answers `Match(account)`, `NoMatch` or `Fault` (an exception).

Some of the code's behaviour is easy to misread. The model follows the code at these points:

- **Verifier exceptions count as failures.** An exception inside a verifier
  is caught in `attempt_login` (lines 269-271), so `login` records a failed
  attempt for it (line 343). `Login.FaultCountsAsFailure` states this.
- **The output is not always trimmed.** A control character in front of a
  space shields that space from the strip, because the strip runs first.
  `Sanitizer.SanitizeMayLeadWithSpace` proves that `[c, ' '] + w` sanitises
  to `" " + w`.
- **The fifth failure does not show the lock.** It shows only the
  bad-credentials message, with no attempts left and no popup. The lock
  message appears from the next press on.
- **Remaining seconds are truncated, not rounded up.** Lock seconds come from
  `int(...)`, which truncates. With an integer clock this is exactly
  `30 - (now - last)`.
- **Whitespace that is also a control character is deleted, not
  collapsed.** Tab, newline and the other control-class whitespace go in the
  second pass, before runs are collapsed, so `"my\tpass"` sanitises to
  `"mypass"`. `Sanitizer.SanitizeDropsControl` states this for any control
  character between two words, the tab included, and
  `Sanitizer.SanitizeJoinsWords` keeps one space only for control-free
  runs.
- **A lock runs from the failure's stamp, not from the press.** The failed
  attempt is stamped after the verifier calls, so slow verifiers make the
  lock end later. `Login.DeniedStep` and `Login.LockHoldsForDuration` state
  this with the second clock reading.
- **Invalid input keeps the count, after any lazy reset.** The lock check runs
  before validation, so an expired lock has already cleared the counter by
  then.

## Model

| member | source | states |
|---|---|---|
| Sanitizer.TrimStart | screens_logic/login_logic.py:170 | result is a suffix of the input that does not start with whitespace; everything removed is whitespace |
| Sanitizer.TrimEnd | screens_logic/login_logic.py:170 | result is a prefix of the input that does not end with whitespace; everything removed is whitespace |
| Sanitizer.Strip | screens_logic/login_logic.py:170 | no whitespace at either end; empty exactly when the input is all whitespace |
| Sanitizer.DropControls | screens_logic/login_logic.py:173 | no character of `[\x00-\x1f\x7f-\x9f]` is left; never longer than the input |
| Sanitizer.Collapse | screens_logic/login_logic.py:176 | empty iff the input is; no two neighbouring whitespace characters; every whitespace left is `' '`; a leading space stays a leading space; keeps the input free of control characters |
| Sanitizer.CollapseSpaceRun | screens_logic/login_logic.py:176 | a non-empty whitespace run followed by text or by nothing becomes exactly one space |
| Sanitizer.CollapseWordPrefix | screens_logic/login_logic.py:176 | text without whitespace passes the collapse unchanged, whatever follows it |
| Sanitizer.CollapseRun | screens_logic/login_logic.py:176 | a word, a whitespace run and what follows collapse to the word, one space, and the collapsed rest |
| Sanitizer.Sanitize | screens_logic/login_logic.py:162-178 | empty input gives `""`; the output has no control character, no whitespace run, and only `' '` as whitespace |
| Sanitizer.StripKeepsText | screens_logic/login_logic.py:170 | stripping removes only whitespace: the non-whitespace text is unchanged |
| Sanitizer.CollapseKeepsText | screens_logic/login_logic.py:176 | collapsing runs leaves the non-whitespace text unchanged |
| Sanitizer.DropControlsKeepsText | screens_logic/login_logic.py:173 | deleting control characters commutes with taking the non-whitespace text |
| Sanitizer.SanitizeKeepsText | screens_logic/login_logic.py:162-178 | the visible text of the output is exactly the input's non-whitespace, non-control characters, all of them, in order |
| Sanitizer.DropControlsKeepsClean | screens_logic/login_logic.py:173 | text without control characters passes the second pass unchanged |
| Sanitizer.CollapseKeepsSpaceless | screens_logic/login_logic.py:176 | text without whitespace passes the third pass unchanged |
| Sanitizer.StripUnpads | screens_logic/login_logic.py:170 | whitespace padding around a word is stripped to the word |
| Sanitizer.SanitizeBlank | screens_logic/login_logic.py:166-178 | input made only of whitespace sanitises to `""` |
| Sanitizer.SanitizeUnpads | screens_logic/login_logic.py:162-178 | a padded word sanitises to the bare word |
| Sanitizer.SanitizeJoinsWords | screens_logic/login_logic.py:162-178 | two words separated by a control-free whitespace run sanitise to the two words joined by exactly one space |
| Sanitizer.SanitizeDropsControl | screens_logic/login_logic.py:173 | a control character between two words is deleted and the words join |
| Sanitizer.SanitizeMayLeadWithSpace | screens_logic/login_logic.py:169-176 | the output can start with a space: control char, space, word gives space, word |
| Validation.ScanMatchesShape | screens_logic/login_logic.py:141-142 | the left-to-right scan accepts exactly the strings of the form local `@` domain `.` letters{2,} |
| Validation.MatchesEmailPattern | screens_logic/login_logic.py:141-142 | true iff the string matches the pattern, or matches it before one final newline (Python's `$`) |
| Validation.ValidateEmail | screens_logic/login_logic.py:131-145 | accepted iff 1..254 characters and of the pattern; the message is "obligatorio" for empty input, "demasiado largo" over 254, "no es válido" otherwise, and `""` on success |
| Validation.ValidatePassword | screens_logic/login_logic.py:147-160 | accepted iff length 1..128; "obligatoria" for empty input, "demasiado larga" over 128; the `len < 1` message can never be returned |
| Validation.Lower | screens_logic/login_logic.py:231 | same length, no upper-case ASCII letter left, each character unchanged or its lower-case letter |
| Validation.LowerKeepsSanitized | screens_logic/login_logic.py:231 | lower-casing keeps a sanitised string free of control characters and whitespace runs |
| Validation.LowerKeepsPattern | screens_logic/login_logic.py:231 | lower-casing neither makes nor breaks a match of the address pattern |
| Validation.EmailCaseBlind | screens_logic/login_logic.py:231-235 | validating the lower-cased address gives the same verdict and message as validating the original |
| Validation.ValidateCredentials | screens_logic/login_logic.py:226-244 | accepted iff both validators accept the cleaned fields; the accepted values are the sanitised lower-cased address and the sanitised password; a bad address is reported whatever the password; with a good address, a bad password is reported with the password validator's own message |
| Validation.AcceptedIsClean | screens_logic/login_logic.py:226-244 | an accepted address has the pattern's shape and at most 254 characters, the password has 1..128; both are free of control characters and whitespace runs |
| Validation.EmailReportedFirst | screens_logic/login_logic.py:234-237 | an address that sanitises to nothing is refused as missing, whatever the password |
| Validation.BlankPasswordRejected | screens_logic/login_logic.py:239-242 | with a valid address, an all-whitespace password is refused as missing |
| Validation.OnEmailBlur | screens_logic/login_logic.py:367-378 | no effect iff the sanitised text is empty; clears the label iff it is valid; otherwise shows the too-long message exactly when the sanitised text is longer than 254 characters, and the malformed message else |
| Validation.OnPasswordBlur | screens_logic/login_logic.py:380-389 | never clears the label; shows a message iff the sanitised password is over 128 characters, and that message is the too-long one |
| Accounts.AttemptLogin | screens_logic/login_logic.py:246-271 | asks a non-empty prefix of company, admin, driver; every partition asked before the last gave no record; access is granted iff the last one returned a record, with that partition's role and that record; an exception ends the search denied |
| Accounts.FirstMatchWins | screens_logic/login_logic.py:250-264 | the first partition in order that holds the credentials decides the role, and later partitions are not asked |
| Accounts.FaultStopsSearch | screens_logic/login_logic.py:250-271 | an exception from a verifier denies access and stops the search there |
| Accounts.ScreenFor | screens_logic/login_logic.py:281-311 | the driver, and only the driver, goes to the trip-start screen |
| Accounts.RoutingIsOneToOne | screens_logic/login_logic.py:281-311 | different roles go to different screens and screen names |
| Accounts.ResumeScreen | screens_logic/login_logic.py:409-417 | navigates iff the stored role is one of the three role names, and then to that role's screen |
| Accounts.SessionFor | screens_logic/login_logic.py:281-309 | the session copies id, name and e-mail; admins and drivers carry the account's company id, companies none |
| Accounts.ResumeAgreesWithLogin | screens_logic/login_logic.py:411-417 | re-entering with the stored session reaches the screen the login chose |
| Login.CheckLock | screens_logic/login_logic.py:180-193 | locked iff at least 5 failures and the last under 30 s ago; while locked, the state is unchanged and the seconds left are `30 - elapsed`, above 0; below 5 failures it reports unlocked and changes nothing; after an expired lock the counter is 0 and the time is kept |
| Login.RemainingCountsDown | screens_logic/login_logic.py:186-188 | while locked, a later clock shows strictly fewer seconds |
| Login.RemainingAtMostDuration | screens_logic/login_logic.py:186-188 | the seconds shown lie in 1..30 once the clock is at or after the last failure |
| Login.Step | screens_logic/login_logic.py:313-359 | locked iff the lock check says so, and then the state is unchanged, no verifier is asked and the seconds shown are the lock check's remaining seconds; a rejection carries the validator's message; with accepted credentials the partitions asked are those `attempt_login` asks, the outcome is success iff a verifier grants access, and the session is built from the granted role and account; invalid iff validation rejects; verifiers are asked iff the outcome is success or failure; success resets to (0, 0) and routes by role; failure adds one to the counter and stamps it with the second clock reading `stamp`, not the press time `now`, with `remaining = 5 - failed`; the 0..5 bound is kept |
| Login.Unlocked | screens_logic/login_logic.py:330-359 | the part after the lock check: invalid input shows the validator's message and leaves the state alone; accepted input asks what `attempt_login` asks and succeeds iff access is granted, with the session of the granted role and account; success resets; failure counts one and stamps the clock reading it is given |
| Login.GrantedMeansSuccess | screens_logic/login_logic.py:330-352 | when not locked, accepted credentials that a verifier grants always log in: session and screen of the granted role, counter reset, and the partitions `attempt_login` asked |
| Login.StepPastLock | screens_logic/login_logic.py:319-331 | when unlocked, the result depends only on the state after the lock check, the validated input and the verifiers |
| Login.SuccessMeansVerified | screens_logic/login_logic.py:336-340 | a successful login always rests on a verifier returning the account the session is built from, for the cleaned credentials |
| Login.FaultCountsAsFailure | screens_logic/login_logic.py:337-347 | a company verifier that raises gives a counted failure, and no other partition is asked |
| Login.LockHoldsForDuration | screens_logic/login_logic.py:319-324 | the failure that shows 0 attempts left brings the counter to 5; every press in the 30 s after that failure's stamp is refused with 1..30 seconds shown, no verifier asked and the state unchanged |
| Login.LockExpires | screens_logic/login_logic.py:189-192 | once the lock has run out, a press behaves exactly as with a counter at 0 |
| Login.RunKeepsBound | screens_logic/login_logic.py:180-201 | across any sequence of presses the counter stays within 0..5 |
| Login.DeniedStep | screens_logic/login_logic.py:195-200 | below 5, a denied press adds exactly one failure and stamps it with the clock reading taken after the verifiers |
| Login.FailuresAccumulate | screens_logic/login_logic.py:195-200 | k consecutive denied presses from a count c, with c + k at most 5, leave the count at c + k |
| Login.Decimal | screens_logic/login_logic.py:350 | the text of a number is a non-empty string of decimal digits with no leading zero, except for zero itself |
| Login.DecimalRoundTrip | screens_logic/login_logic.py:350 | reading the digits back gives the number shown |
| Login.FeedbackOf | screens_logic/login_logic.py:320-359 | a lock shows the same text in label and popup "Cuenta Bloqueada", starting with the seconds; after a failure, the label extends the bad-credentials message iff attempts remain, and then states the remaining count; the warning popup appears iff 1 or 2 remain, titled "Advertencia" and stating the remaining count |
| Login.LoginScreen.constructor | screens_logic/login_logic.py:30-33 | a new screen has no failures and time 0 |
| Login.LoginScreen.IsAccountLocked | screens_logic/login_logic.py:180-193 | returns what `CheckLock` says and leaves the fields as `CheckLock` says |
| Login.LoginScreen.RecordFailedAttempt | screens_logic/login_logic.py:195-201 | one more failure, stamped with `now` |
| Login.LoginScreen.ResetFailedAttempts | screens_logic/login_logic.py:203-208 | both fields back to 0 |
| Login.LoginScreen.HandleSuccessfulLogin | screens_logic/login_logic.py:273-311 | fields reset to 0; returns the session of `SessionFor` and the screen of `ScreenFor` |
| Login.LoginScreen.TryAccounts | screens_logic/login_logic.py:336-359 | with valid input: asks the verifiers, then resets or counts one failure stamped with the clock reading it is given, as `Unlocked` says |
| Login.LoginScreen.Login | screens_logic/login_logic.py:313-365 | keeps the 0..5 bound; with the press time for the lock check and the later reading for the failure stamp, outcome, partitions asked and new fields are those of `Step`; the label and popup are those of `FeedbackOf` |

## Left out

- Drawing and widgets are not modelled: popups, canvas drawing, the colour
  table, the `on_enter` animation, `load_data`, `clear_fields` and the
  `self.ids` lookups. The two field texts are parameters. A missing input
  widget is the caller passing `""`.
- `print` logging is not modelled.
- `set_error_message` also clears the label after 5 seconds. That timer is
  not modelled; only the label text and popup chosen are.
- The `App.get_running_app().current_user` singleton is not modelled. The
  session is returned as a value. A company session has no `company_id` key,
  shown as `None`.
- The `verify_*_login` database calls are an abstract oracle. Their truthiness
  test (`if company:`) is folded into `Match`/`NoMatch`, so a falsy record
  such as an empty dict is `NoMatch`.
- Account records always have `id`, `name` and `email`. A record without them
  raises `KeyError` in `handle_successful_login` after the counter reset, and
  the outer `except` of `login` (lines 361-365) then shows the generic error
  message. That path is not modelled.
- `time.time()` is a float. The model uses whole seconds. With a fractional
  clock, `int()` can show "0 segundos" in the last second of a lock.
- Sanitizer.IsSpace lists the code points that Python's `str.strip` and `\s`
  treat as whitespace. Surrogates and unassigned code points are not
  considered.
- Validation.Lower lower-cases ASCII only. Python's `lower()` also maps
  non-ASCII letters, some of them to ASCII (the Kelvin sign becomes `k`).
  Such an address is refused by the model but may be accepted by the code.
- No bug in the source is claimed. The unreachable `len < 1` branch in
  `validate_password` is harmless, and `Validation.ValidatePassword` states
  that its message never appears.
- `core/index.py` is not part of this model. It is camera capture, image
  blending and reporting threads.
