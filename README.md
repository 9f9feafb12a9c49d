# PhoneWave in Dafny

PhoneWave answers a phone call. The caller keys a number of seconds followed by
'#'. PhoneWave then switches a smart plug on for that long, counts down on a
small OLED panel, and switches the plug off when the timer fires or the caller
hangs up. This project models the call-driven core of that program and proves
its properties.

- `wrappers.dfy`, module `Wrappers`: the `Option` type.
- `decimal.dfy`, module `Decimal`: ASCII digit strings.
  - `Value` is what Python's `int()` gives for a non-empty string of
    '0'..'9'. It also reads "" as 0, where `int("")` raises; the parser
    rejects "" before it reads a value.
  - `Digits` is how `f"{n:d}"` prints a natural number.
  - The lemmas say that every digit string is zeros followed by the canonical
    form of its value.
- `oled_display.dfy`, module `OledDisplay`: the display controller.
  - The `divmod(remaining, 60)` split and the `f"{mins:02d}:{secs:02d}"` text,
    with their round trip.
  - A class `Oled` whose only state is the screen contents. Each drawing call
    does nothing when no device could be opened.
- `sip_client.dfy`, module `SipHandler`: the call bookkeeping.
  - Classes `Client`, `Account` and `Call`.
  - The DTMF buffer of a call is specified against the whole digit stream it
    has received. The buffer is the run after the last '#'. The callback
    receives exactly the non-empty runs that a '#' closes, in order.
- `main.dfy`, module `TimerControl`: the timer and plug controller.
  - The module globals `plug_timer`, `display_thread` and
    `stop_display_event` are the fields of a `Controller`.
  - The plug's answers to ON and OFF are parameters.
  - Everything the controller does to the outside is appended to a ghost
    trace of `Action`s: plug commands, timer and countdown starts and stops,
    and display calls.
  - Its invariant says three things:
    - At most one off-timer and at most one countdown thread have ever been
      live at a time.
    - The fields agree with the trace.
    - Between events, a timer is pending exactly when the last plug command
      was a successful ON.
  - A failed ON is a plug command too. Take "9#" switched on successfully,
    then "3#" whose ON fails. The cleanup has cancelled the first timer and
    no OFF is sent, so no timer is pending while the plug may still be on
    from the first ON. Nothing switches it off until a later OFF, such as
    the one sent on hang-up.
  - The countdown thread's loop is a method over the observations it makes on
    each turn: whether the stop flag is set, and the time since start in
    milliseconds. It is proved against a function that gives the values it
    reports.
- `phone.dfy`, module `PhoneWave`: the wiring that `main` sets up.
  - `handle_dtmf` and `on_call_disconnect` are the client's callbacks.
  - Scenario methods, checked by the verifier, put the parts together: a 120-second run, the countdown
    around its end, an invalid code, a hang-up right after "5#", a second
    code that replaces the first, and a failed ON after a successful one.

A call that is no longer current can still report DISCONNECTED. It then clears
`current_call` even if a newer call is current, and it runs
`on_call_disconnect`. That cancels the newer call's timer and countdown and
switches the plug off. `Call.OnCallState` and `App.CallState` model this as
written.

## Model

| member | source | states |
|---|---|---|
| Decimal.Digits | hardware_control/oled_display.py:40 | the canonical decimal form of `n` is a non-empty digit string whose value is `n`, starts with '0' only for 0, and has one digit exactly below 10 |
| Decimal.Value | main.py:54 | a string of `k` digits reads as a number below ten to the `k` |
| Decimal.ValueIgnoresLeadingZeros | main.py:54 | leading zeros do not change the value `int()` reads from a digit string |
| Decimal.ZerosValue | main.py:54-55 | a string of zeros reads as 0 |
| Decimal.CanonicalForm | main.py:54 | every digit string is some zeros followed by the canonical form of its value, or only zeros when the value is 0 |
| TimerControl.ParseDuration | main.py:53-56 | an accepted code is all digits and gives a positive number of seconds |
| TimerControl.AcceptsPaddedDecimal | main.py:53-56 | zeros followed by the decimal form of any positive `n` are accepted as `n` |
| TimerControl.AcceptedIsPaddedDecimal | main.py:53-57 | a code is rejected exactly when it is empty, holds a non-digit, or is all zeros; an accepted code is zeros followed by the decimal form of its value |
| TimerControl.SingleDigitDuration | main.py:53-56 | a single digit '1'..'9' is that many seconds |
| TimerControl.ParseExamples | main.py:53-60 | "045" is 45 and "120" is 120; "0", "00", "12*", "A" and "" are rejected |
| TimerControl.LastPlugCommand | main.py:32 | the last plug command in a trace, if any, is an ON or an OFF |
| TimerControl.CleanupActions | main.py:15-27 | the cleanup sends no plug command; it cancels the timer exactly when one is pending and stops the countdown exactly when one runs, one action each, the cancel first |
| TimerControl.PrefixNeverTwoLive | main.py:15-27 | the never-two-live property of a trace holds for each of its prefixes |
| TimerControl.StopBetween | main.py:15-27 | if fewer workers of a kind are live after `b` actions than after `a`, an action in between stopped one |
| TimerControl.StartsSeparatedByStop | main.py:62-74 | in a trace with never two live workers of a kind, between any two starts of that kind there is a stop of that kind: the old timer and countdown are always stopped before new ones start |
| TimerControl.Controller.constructor | main.py:10-12 | at start there is no timer, no countdown thread and the stop flag is clear |
| TimerControl.Controller.Startup | main.py:90-100 | start-up shows "System Starting..." and then ("System Ready", "Waiting for call..."), and keeps the invariant |
| TimerControl.Controller.CleanupTimerAndThreads | main.py:15-27 | afterwards there is no timer and no countdown thread; a pending timer is cancelled and a running countdown is stopped by setting the flag; with neither, nothing changes, so a second call is a no-op; the last plug command is kept |
| TimerControl.Controller.PlugOffTask | main.py:29-34 | the timer firing sends exactly one OFF whatever it returns, shows ("Timer Finished", "Plug is OFF"), and ends with no timer and no countdown; the invariant is kept |
| TimerControl.Controller.HandleDtmf | main.py:47-76 | an invalid code shows ("Invalid Time", code) and changes nothing else; a valid one first cancels the old timer and countdown, then sends ON; on success exactly one timer and one countdown for the parsed seconds exist with the flag clear; on failure neither exists, no OFF is sent, and the screen shows ("Plug Error", "Check connection") |
| TimerControl.Controller.OnCallDisconnect | main.py:78-86 | hang-up cleans up, sends exactly one OFF whatever the state was, and leaves ("System Ready", "Waiting for call...") on the screen after ("Call Ended", "Plug is OFF") |
| TimerControl.Controller.Shutdown | main.py:109-113 | the `finally` block cleans up, setting the stop flag when a countdown ran, sends one last OFF and blanks the display |
| TimerControl.TruncateMs | main.py:41 | `int()` of a time in milliseconds truncates toward zero: the whole seconds it gives lie within one second of the time, on the side of zero |
| TimerControl.Remaining | main.py:40-42 | the remaining seconds never exceed the total and, while time is left, are the whole seconds left rounded down; they are negative exactly once a whole second more than the total has passed, and they are 0 during that last part-second |
| TimerControl.RemainingMonotone | main.py:40-41 | the remaining seconds never go up as time passes |
| TimerControl.CountdownReports | main.py:39-44 | the loop reports at most once per turn; it reports on every turn when it never leaves early, and leaves before the last report otherwise |
| TimerControl.ReportsAreRemaining | main.py:39-44 | each reported value comes from a turn that found the flag clear, is that turn's remaining time, and lies in [0, total]; the loop leaves at the first turn that finds the flag set or a whole second past the total, and reports on every turn before that |
| TimerControl.ReportsNonIncreasing | main.py:39-44 | when the observed times do not decrease, the reported values never go up |
| TimerControl.UpdateDisplayCountdown | main.py:36-45 | the loop reports exactly what `CountdownReports` gives for its turns, and leaves the countdown of the last reported value on the screen |
| OledDisplay.DivMod60 | hardware_control/oled_display.py:39 | minutes * 60 + seconds is the input, seconds lie in [0, 60), and minutes are not negative for an input that is not negative |
| OledDisplay.Pad2 | hardware_control/oled_display.py:40 | `:02d` gives at least two digits reading back as the number, exactly two below 100, and a '-' first for negatives |
| OledDisplay.TimeStringShape | hardware_control/oled_display.py:39-40 | below 6000 seconds the clock text has five characters, with digits around a ':' at index 2 |
| OledDisplay.ClockRoundTrip | hardware_control/oled_display.py:39-40 | reading the clock text back as minutes * 60 + seconds gives the seconds it was made from |
| OledDisplay.Oled.constructor | hardware_control/oled_display.py:10-29 | the display starts blank, with or without a device |
| OledDisplay.Oled.DisplayMessage | hardware_control/oled_display.py:31-35 | the screen shows (line1, line2), line2 "" by default; without a device nothing changes |
| OledDisplay.Oled.UpdateCountdown | hardware_control/oled_display.py:37-46 | the screen shows "PLUG IS ON" over the clock text of the remaining seconds; without a device nothing changes |
| OledDisplay.Oled.Clear | hardware_control/oled_display.py:49-51 | the screen is blank; without a device nothing changes |
| SipHandler.Segments | sip_handler/sip_client.py:65-74 | a digit stream splits into '#'-free runs, at least one |
| SipHandler.NonEmpty | sip_handler/sip_client.py:70 | only non-empty runs are kept, all taken from the input |
| SipHandler.Pending | sip_handler/sip_client.py:69-74 | the buffer after any stream never holds '#' |
| SipHandler.Codes | sip_handler/sip_client.py:69-71 | every code handed on is non-empty and holds no '#' |
| SipHandler.JoinSegments | sip_handler/sip_client.py:69-74 | joining the runs with '#' gives the stream back, so no digit is lost |
| SipHandler.SegmentsJoin | sip_handler/sip_client.py:69-74 | '#'-free runs joined with '#' split back into exactly those runs, so the split is unique |
| SipHandler.SegmentsExtend | sip_handler/sip_client.py:73-74 | digits without '#' only extend the open run |
| SipHandler.Client.constructor | sip_handler/sip_client.py:6-12 | a client holds its callbacks and has no current call |
| SipHandler.Account.OnIncomingCall | sip_handler/sip_client.py:48-56 | a new call with an empty buffer and no player becomes the current call and is answered with 200 |
| PhoneWave.App.IncomingCall | sip_handler/sip_client.py:48-56 | an incoming call becomes the current call with an empty buffer and nothing received, and is answered with 200 |
| SipHandler.Call.constructor | sip_handler/sip_client.py:59-63 | a call starts with an empty buffer and no player |
| SipHandler.Call.OnDtmfDigit | sip_handler/sip_client.py:65-74 | a digit other than '#' is appended and nothing is handed on; '#' empties the buffer, and the callback gets the old buffer exactly when there is a callback and the buffer was non-empty; the buffer stays the open run of the stream and the callback has had exactly the closed non-empty runs |
| SipHandler.Call.OnCallState | sip_handler/sip_client.py:76-84 | on DISCONNECTED the current call and the player are cleared and the disconnect callback runs once if there is one; any other state changes nothing |
| PhoneWave.App.constructor | main.py:88-100 | the program starts with both callbacks installed, no call, no timer, no countdown and a clear stop flag; the two start-up messages are logged and ("System Ready", "Waiting for call...") is on the screen |
| PhoneWave.App.DtmfDigit | sip_handler/sip_client.py:65-74 | a digit goes to the call, and a completed code goes to `handle_dtmf`. Without a code, the timer, the trace and the screen stay as they were. An invalid code shows ("Invalid Time", code). A valid one cleans up and sends ON; on success one timer and one countdown for the parsed seconds exist and the screen is unchanged; on failure neither exists and the screen shows ("Plug Error", "Check connection") |
| PhoneWave.App.CallState | sip_handler/sip_client.py:79-84 | DISCONNECTED clears the current call and the player, and runs `on_call_disconnect`: cleanup, one OFF, and ("System Ready", "Waiting for call...") left on the screen. Other states leave the current call, the player, the timer, the countdown, the stop flag, the trace and the screen as they were |
| PhoneWave.App.TimerExpires | main.py:29-34 | the pending timer firing sends OFF, leaves ("Timer Finished", "Plug is OFF") on the screen, and cancels the timer and stops the countdown, setting the stop flag |
| PhoneWave.App.Shutdown | main.py:109-113 | shutdown cleans up, leaving no timer and no countdown, and ends with OFF and a blank display |

## Left out

- The smart plug's HTTP requests are not modelled. `turn_on` and `turn_off`
  are recorded as actions, and their answers are parameters.
- The SIP stack is not modelled: starting, stopping, registration,
  transport, credentials, and the WAV playback in `onCallMediaState`. The
  `player` field is only cleared.
- Real concurrency is not modelled. The timer and the countdown thread are
  recorded as started and stopped, and the events they cause are separate
  method calls. A race between cancelling and firing is not modelled.
  `join` and `time.sleep` are not modelled.
- Wall-clock time is not modelled. Each turn of the countdown loop observes
  the elapsed time as whole milliseconds, where the program uses a float.
- TimerControl.Remaining: the elapsed time is never negative and the
  subtraction is exact. The program reads `time.time()`, a wall clock. If
  the clock is set back by more than the time already elapsed, `elapsed`
  goes negative and `int(total_duration - elapsed)` exceeds the total. The
  float subtraction also rounds: for the code "9007199254740995" (2^53 + 3)
  the first value is the total plus one. The bound `r <= total` is proved
  only for the model's exact, non-negative elapsed time.
- TimerControl.ReportsAreRemaining: the bound [0, total] on each report
  rests on the same assumptions. A clock set back, or the float rounding
  for totals above 2^53, can make the program show more than the total.
- The drawing details are not modelled: fonts, the centring of the clock
  text, and the panel's size. The screen keeps only the text it shows.
- The `print` logging is not modelled.
- The endless `while True` loop in `main` is not modelled, nor the
  exceptions that end it. The start-up, the callbacks and the `finally`
  block are separate methods.
- TimerControl.ParseDuration: accepts only ASCII digits. Python's `int()`
  also takes surrounding whitespace, a sign, '_' separators and non-ASCII
  digits. None of these can come from a DTMF keypad.
- TimerControl.ParseDuration: accepts codes of any length. Python's `int()`
  refuses strings of more than 4300 digits by default. It raises
  `ValueError` for them, so the program shows "Invalid Time".
- TimerControl.Controller.HandleDtmf: a duration longer than Python's
  `threading.TIMEOUT_MAX` makes the timer thread fail with `OverflowError`.
  The timer then never fires. The model keeps it pending, and it can still
  fire through `PlugOffTask`.
- TimerControl.UpdateDisplayCountdown: the stop flag each turn observes
  (`Tick.stopSet`) is an input. It is not tied to
  `Controller.stopDisplayEvent`. So the model does not exclude a report
  after a cleanup has set the flag.
- SipHandler.Call.OnDtmfDigit: an empty code is never handed on, because of
  the buffer check in sip_handler/sip_client.py:70. A design reading where
  '#' alone delivers an empty code that the parser then rejects is not what
  the code does, so the model follows the code.
