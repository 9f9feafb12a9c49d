/** The timer/plug controller: what happens when a code arrives, when the
    off-timer fires, when the call ends and when the program shuts down.
    The module globals `plug_timer`, `display_thread` and
    `stop_display_event` are the fields of one `Controller`; the smart plug's
    answers are parameters, and everything the controller does to the
    outside (plug commands, timer and thread starts and stops, display
    calls) is recorded in the ghost `trace`. */
module TimerControl {
  import opened Wrappers
  import opened Decimal
  import opened OledDisplay

  /** `int(duration_str)` followed by the `<= 0` check: a duration is a
      non-empty string of ASCII digits with a positive value. */
  function ParseDuration(durationStr: string): (r: Option<nat>)
    ensures r.Some? ==> r.value > 0 && AllDigits(durationStr)
  {
    if durationStr != [] && AllDigits(durationStr) && Value(durationStr) > 0
    then Some(Value(durationStr))
    else None
  }

  /** Leading zeros are accepted: zeros followed by a positive number in
      decimal parse to that number. */
  lemma AcceptsPaddedDecimal(k: nat, n: nat)
    requires n > 0
    ensures ParseDuration(Zeros(k) + Digits(n)) == Some(n)
  {
    ValueIgnoresLeadingZeros(k, Digits(n));
  }

  /** Nothing else is accepted: an accepted string is zeros followed by the
      decimal form of its value, and a string is rejected exactly when it is
      empty, holds a non-digit, or is all zeros. */
  lemma AcceptedIsPaddedDecimal(s: string)
    ensures ParseDuration(s).Some? ==>
      var n := ParseDuration(s).value;
      |Digits(n)| <= |s| && s == Zeros(|s| - |Digits(n)|) + Digits(n)
    ensures ParseDuration(s).None? <==> s == [] || !AllDigits(s) || s == Zeros(|s|)
  {
    if AllDigits(s) {
      CanonicalForm(s);
      if s == Zeros(|s|) {
        ZerosValue(|s|);
      }
    }
  }

  /** A single non-zero digit is a duration of that many seconds. */
  lemma SingleDigitDuration(c: char)
    requires '1' <= c <= '9'
    ensures ParseDuration([c]) == Some(DigitValue(c))
  {
    var s := [c];
    assert AllDigits(s);
    assert s[..0] == [];
    assert Value(s) == Value(s[..0]) * 10 + DigitValue(c);
    assert Value(s) == DigitValue(c) > 0;
  }

  /** The examples of what a caller may key in before '#'. */
  lemma ParseExamples()
    ensures ParseDuration("045") == Some(45)
    ensures ParseDuration("120") == Some(120)
    ensures ParseDuration("0") == None && ParseDuration("00") == None
    ensures ParseDuration("12*") == None && ParseDuration("A") == None
    ensures ParseDuration("") == None
  {
    assert "045"[..2] == "04" && "04"[..1] == "0" && "0"[..0] == "";
    assert Value("0") == 0 && Value("04") == 4;
    assert "120"[..2] == "12" && "12"[..1] == "1";
    assert "00"[..1] == "0";
    assert !IsDigit("12*"[2]);
    assert !IsDigit("A"[0]);
  }

  const StartingText: string := "System Starting..."
  const ReadyText: string := "System Ready"
  const WaitingText: string := "Waiting for call..."
  const FinishedText: string := "Timer Finished"
  const PlugOffText: string := "Plug is OFF"
  const InvalidText: string := "Invalid Time"
  const PlugErrorText: string := "Plug Error"
  const CheckText: string := "Check connection"
  const EndedText: string := "Call Ended"

  /** Everything the controller does to the world outside it. */
  datatype Action =
    | PlugOn(ok: bool)
    | PlugOff(ok: bool)
    | TimerStarted(seconds: nat)
    | TimerCancelled
    | CountdownStarted(seconds: nat)
    | CountdownStopped
    | Shown(line1: string, line2: string)
    | Cleared

  /** The two kinds of background worker the controller owns. */
  datatype Worker = OffTimer | CountdownThread

  /** +1 when an action starts a worker of kind `w`, -1 when it stops one. */
  function Delta(a: Action, w: Worker): int {
    match a
    case TimerStarted(_) => if w == OffTimer then 1 else 0
    case TimerCancelled => if w == OffTimer then -1 else 0
    case CountdownStarted(_) => if w == CountdownThread then 1 else 0
    case CountdownStopped => if w == CountdownThread then -1 else 0
    case _ => 0
  }

  /** Workers of kind `w` started and not yet stopped. */
  function Live(t: seq<Action>, w: Worker): int {
    if t == [] then 0 else Live(t[..|t| - 1], w) + Delta(t[|t| - 1], w)
  }

  /** After every prefix of the trace there is at most one timer and at most
      one countdown thread, and never fewer than none. */
  predicate NeverTwoLive(t: seq<Action>) {
    && (t != [] ==> NeverTwoLive(t[..|t| - 1]))
    && 0 <= Live(t, OffTimer) <= 1
    && 0 <= Live(t, CountdownThread) <= 1
  }

  predicate IsPlugCommand(a: Action) {
    a.PlugOn? || a.PlugOff?
  }

  /** The last command sent to the plug, if any. */
  function LastPlugCommand(t: seq<Action>): (r: Option<Action>)
    ensures r.Some? ==> IsPlugCommand(r.value)
  {
    if t == [] then None
    else if IsPlugCommand(t[|t| - 1]) then Some(t[|t| - 1])
    else LastPlugCommand(t[..|t| - 1])
  }

  /** The last command sent to the plug was an ON that succeeded. A failed
      ON after a successful one makes this false, although the plug may
      still be on from the earlier command. */
  predicate LastCommandWasSuccessfulOn(t: seq<Action>) {
    LastPlugCommand(t) == Some(PlugOn(true))
  }

  lemma Record(t: seq<Action>, a: Action)
    ensures (t + [a])[..|t|] == t
    ensures forall w :: Live(t + [a], w) == Live(t, w) + Delta(a, w)
    ensures LastPlugCommand(t + [a]) == if IsPlugCommand(a) then Some(a) else LastPlugCommand(t)
    ensures NeverTwoLive(t + [a]) <==>
      && NeverTwoLive(t)
      && 0 <= Live(t, OffTimer) + Delta(a, OffTimer) <= 1
      && 0 <= Live(t, CountdownThread) + Delta(a, CountdownThread) <= 1
  {
    assert (t + [a])[..|t|] == t;
  }

  /** The trace shows exactly the workers the globals hold. */
  predicate TraceAgrees(t: seq<Action>, timer: bool, thread: bool) {
    && NeverTwoLive(t)
    && Live(t, OffTimer) == (if timer then 1 else 0)
    && Live(t, CountdownThread) == (if thread then 1 else 0)
  }

  /** Switching the plug on and starting both workers, from none. */
  lemma Armed(t: seq<Action>, seconds: nat)
    requires TraceAgrees(t, false, false)
    ensures var armed := t + [PlugOn(true)] + [TimerStarted(seconds)] + [CountdownStarted(seconds)];
      TraceAgrees(armed, true, true) && LastCommandWasSuccessfulOn(armed)
  {
    Record(t, PlugOn(true));
    Record(t + [PlugOn(true)], TimerStarted(seconds));
    Record(t + [PlugOn(true)] + [TimerStarted(seconds)], CountdownStarted(seconds));
  }

  /** Actions that neither command the plug nor start or stop a worker. */
  lemma Quiet(t: seq<Action>, a: Action, timer: bool, thread: bool)
    requires TraceAgrees(t, timer, thread)
    requires !IsPlugCommand(a) && Delta(a, OffTimer) == 0 && Delta(a, CountdownThread) == 0
    ensures TraceAgrees(t + [a], timer, thread)
    ensures LastPlugCommand(t + [a]) == LastPlugCommand(t)
  {
    Record(t, a);
  }

  /** A plug command leaves the workers alone and becomes the last one. */
  lemma PlugCommand(t: seq<Action>, a: Action, timer: bool, thread: bool)
    requires TraceAgrees(t, timer, thread) && IsPlugCommand(a)
    ensures TraceAgrees(t + [a], timer, thread)
    ensures LastPlugCommand(t + [a]) == Some(a)
  {
    Record(t, a);
  }

  /** Stopping the one live worker of kind `w`. */
  lemma Stop(t: seq<Action>, a: Action, w: Worker, other: bool)
    requires !IsPlugCommand(a) && Delta(a, w) == -1
    requires w == OffTimer ==> a == TimerCancelled && TraceAgrees(t, true, other)
    requires w == CountdownThread ==> a == CountdownStopped && TraceAgrees(t, other, true)
    ensures w == OffTimer ==> TraceAgrees(t + [a], false, other)
    ensures w == CountdownThread ==> TraceAgrees(t + [a], other, false)
    ensures LastPlugCommand(t + [a]) == LastPlugCommand(t)
  {
    Record(t, a);
  }

  lemma {:induction false} PrefixNeverTwoLive(t: seq<Action>, k: nat)
    requires NeverTwoLive(t) && k <= |t|
    ensures NeverTwoLive(t[..k])
    decreases |t| - k
  {
    if k < |t| {
      var init := t[..|t| - 1];
      assert init[..k] == t[..k];
      PrefixNeverTwoLive(init, k);
    } else {
      assert t[..k] == t;
    }
  }

  /** If fewer workers are live after `b` actions than after `a`, one of the
      actions in between stopped one. */
  lemma {:induction false} StopBetween(t: seq<Action>, w: Worker, a: nat, b: nat)
    requires a <= b <= |t|
    requires Live(t[..b], w) < Live(t[..a], w)
    ensures exists k :: a <= k < b && Delta(t[k], w) == -1
    decreases b
  {
    if b == a {
    } else {
      var p := t[..b];
      assert p[..b - 1] == t[..b - 1];
      assert p[b - 1] == t[b - 1];
      if Delta(t[b - 1], w) != -1 {
        StopBetween(t, w, a, b - 1);
      }
    }
  }

  /** At most one timer and one countdown ever exist: between any two starts
      of a worker kind the trace stops one of that kind. */
  lemma StartsSeparatedByStop(t: seq<Action>, w: Worker, i: nat, j: nat)
    requires NeverTwoLive(t)
    requires i < j < |t| && Delta(t[i], w) == 1 && Delta(t[j], w) == 1
    ensures exists k :: i < k < j && Delta(t[k], w) == -1
  {
    PrefixNeverTwoLive(t, i + 1);
    PrefixNeverTwoLive(t, j + 1);
    var pi, pj := t[..i + 1], t[..j + 1];
    assert pi[..i] == t[..i] && pi[i] == t[i];
    assert pj[..j] == t[..j] && pj[j] == t[j];
    assert Live(t[..i + 1], w) == 1;
    assert Live(t[..j], w) == 0;
    StopBetween(t, w, i + 1, j);
  }

  /** The actions of `cleanup_timer_and_threads` given the old globals. */
  function CleanupActions(timer: Option<nat>, thread: Option<nat>): (r: seq<Action>)
    ensures forall i :: 0 <= i < |r| ==> !IsPlugCommand(r[i])
    ensures |r| == (if timer.Some? then 1 else 0) + (if thread.Some? then 1 else 0)
    ensures TimerCancelled in r <==> timer.Some?
    ensures CountdownStopped in r <==> thread.Some?
    ensures timer.Some? ==> r[0] == TimerCancelled
  {
    (if timer.Some? then [TimerCancelled] else []) + (if thread.Some? then [CountdownStopped] else [])
  }

  class Controller {
    const oled: Oled
    /** The pending off-timer, by its duration in seconds. */
    var plugTimer: Option<nat>
    /** The countdown thread, by the total it counts down from. */
    var displayThread: Option<nat>
    var stopDisplayEvent: bool
    ghost var trace: seq<Action>

    /** The timer and the countdown thread come and go together, a running
        countdown has its stop flag clear, and the trace agrees with the
        globals. */
    ghost predicate Consistent()
      reads this
    {
      && plugTimer == displayThread
      && (plugTimer.Some? ==> plugTimer.value > 0 && !stopDisplayEvent)
      && TraceAgrees(trace, plugTimer.Some?, displayThread.Some?)
    }

    /** Between events, moreover, an off-timer is pending exactly when the
        plug was last switched on successfully. */
    ghost predicate Valid()
      reads this
    {
      Consistent() && (plugTimer.Some? <==> LastCommandWasSuccessfulOn(trace))
    }

    constructor (oled: Oled)
      ensures Valid() && this.oled == oled
      ensures plugTimer == None && displayThread == None && !stopDisplayEvent && trace == []
    {
      this.oled := oled;
      plugTimer := None;
      displayThread := None;
      stopDisplayEvent := false;
      trace := [];
    }

    /** The two messages `main` shows around starting the SIP client. */
    method Startup()
      requires Valid()
      modifies this`trace, oled
      ensures Valid()
      ensures trace == old(trace) + [Shown(StartingText, "")] + [Shown(ReadyText, WaitingText)]
      ensures oled.screen == if oled.hasDevice then Message(ReadyText, WaitingText)
                             else old(oled.screen)
    {
      oled.DisplayMessage(StartingText);
      Quiet(trace, Shown(StartingText, ""), plugTimer.Some?, displayThread.Some?);
      trace := trace + [Shown(StartingText, "")];
      oled.DisplayMessage(ReadyText, WaitingText);
      Quiet(trace, Shown(ReadyText, WaitingText), plugTimer.Some?, displayThread.Some?);
      trace := trace + [Shown(ReadyText, WaitingText)];
    }

    /** `cleanup_timer_and_threads`: cancel the timer, stop the countdown.
        When neither exists it changes nothing, so a second call is a no-op. */
    method CleanupTimerAndThreads()
      requires Consistent()
      modifies this
      ensures Consistent()
      ensures plugTimer == None && displayThread == None
      ensures stopDisplayEvent == (old(stopDisplayEvent) || old(displayThread).Some?)
      ensures trace == old(trace) + CleanupActions(old(plugTimer), old(displayThread))
      ensures LastPlugCommand(trace) == LastPlugCommand(old(trace))
      ensures old(plugTimer).None? && old(displayThread).None? ==> unchanged(this)
    {
      if plugTimer.Some? {
        plugTimer := None;
        Stop(trace, TimerCancelled, OffTimer, displayThread.Some?);
        trace := trace + [TimerCancelled];
      }
      if displayThread.Some? {
        stopDisplayEvent := true;
        displayThread := None;
        Stop(trace, CountdownStopped, CountdownThread, false);
        trace := trace + [CountdownStopped];
      }
    }

    /** `plug_off_task`, the off-timer firing. */
    method PlugOffTask(offOk: bool)
      requires Valid()
      modifies this, oled
      ensures Valid()
      ensures plugTimer == None && displayThread == None
      ensures stopDisplayEvent == (old(stopDisplayEvent) || old(displayThread).Some?)
      ensures trace == old(trace) + [PlugOff(offOk)] + [Shown(FinishedText, PlugOffText)]
                       + CleanupActions(old(plugTimer), old(displayThread))
      ensures oled.screen == if oled.hasDevice then Message(FinishedText, PlugOffText) else old(oled.screen)
    {
      PlugCommand(trace, PlugOff(offOk), plugTimer.Some?, displayThread.Some?);
      trace := trace + [PlugOff(offOk)];
      oled.DisplayMessage(FinishedText, PlugOffText);
      Quiet(trace, Shown(FinishedText, PlugOffText), plugTimer.Some?, displayThread.Some?);
      trace := trace + [Shown(FinishedText, PlugOffText)];
      CleanupTimerAndThreads();
    }

    /** `handle_dtmf`: a code that is not a positive number is shown and
        otherwise ignored; a valid one first clears the old timer and
        countdown, then switches the plug on, and only if that worked starts
        a new timer and countdown for the parsed number of seconds. */
    method HandleDtmf(durationStr: string, plugOk: bool)
      requires Valid()
      modifies this, oled
      ensures Valid()
      ensures ParseDuration(durationStr).None? ==>
        && plugTimer == old(plugTimer) && displayThread == old(displayThread)
        && stopDisplayEvent == old(stopDisplayEvent)
        && trace == old(trace) + [Shown(InvalidText, durationStr)]
        && oled.screen == (if oled.hasDevice then Message(InvalidText, durationStr) else old(oled.screen))
      ensures ParseDuration(durationStr).Some? ==>
        var seconds := ParseDuration(durationStr).value;
        && (plugOk ==> trace == old(trace) + CleanupActions(old(plugTimer), old(displayThread))
                                + [PlugOn(true)] + [TimerStarted(seconds)] + [CountdownStarted(seconds)])
        && (!plugOk ==> trace == old(trace) + CleanupActions(old(plugTimer), old(displayThread))
                                 + [PlugOn(false)] + [Shown(PlugErrorText, CheckText)])
        && plugTimer == (if plugOk then Some(seconds) else None)
        && displayThread == plugTimer
        && stopDisplayEvent == (if plugOk then false else old(stopDisplayEvent) || old(displayThread).Some?)
        && oled.screen == (if !plugOk && oled.hasDevice then Message(PlugErrorText, CheckText)
                           else old(oled.screen))
    {
      var parsed := ParseDuration(durationStr);
      if parsed.None? {
        oled.DisplayMessage(InvalidText, durationStr);
        Quiet(trace, Shown(InvalidText, durationStr), plugTimer.Some?, displayThread.Some?);
        trace := trace + [Shown(InvalidText, durationStr)];
        return;
      }
      var seconds := parsed.value;
      CleanupTimerAndThreads();
      if plugOk {
        Armed(trace, seconds);
        trace := trace + [PlugOn(true)];
        plugTimer := Some(seconds);
        trace := trace + [TimerStarted(seconds)];
        stopDisplayEvent := false;
        displayThread := Some(seconds);
        trace := trace + [CountdownStarted(seconds)];
      } else {
        PlugCommand(trace, PlugOn(false), false, false);
        trace := trace + [PlugOn(false)];
        oled.DisplayMessage(PlugErrorText, CheckText);
        Quiet(trace, Shown(PlugErrorText, CheckText), false, false);
        trace := trace + [Shown(PlugErrorText, CheckText)];
      }
    }

    /** `on_call_disconnect`: clear the timer and countdown, switch the plug
        off whatever it was believed to be, and show that the call ended
        before going back to the waiting screen. */
    method OnCallDisconnect(offOk: bool)
      requires Valid()
      modifies this, oled
      ensures Valid()
      ensures plugTimer == None && displayThread == None
      ensures stopDisplayEvent == (old(stopDisplayEvent) || old(displayThread).Some?)
      ensures trace == old(trace) + CleanupActions(old(plugTimer), old(displayThread))
                       + [PlugOff(offOk)] + [Shown(EndedText, PlugOffText)]
                       + [Shown(ReadyText, WaitingText)]
      ensures oled.screen == if oled.hasDevice then Message(ReadyText, WaitingText)
                             else old(oled.screen)
    {
      CleanupTimerAndThreads();
      PlugCommand(trace, PlugOff(offOk), false, false);
      trace := trace + [PlugOff(offOk)];
      oled.DisplayMessage(EndedText, PlugOffText);
      Quiet(trace, Shown(EndedText, PlugOffText), false, false);
      trace := trace + [Shown(EndedText, PlugOffText)];
      oled.DisplayMessage(ReadyText, WaitingText);
      Quiet(trace, Shown(ReadyText, WaitingText), false, false);
      trace := trace + [Shown(ReadyText, WaitingText)];
    }

    /** The `finally` block of `main`: clean up, switch the plug off once
        more, and blank the display. */
    method Shutdown(offOk: bool)
      requires Valid()
      modifies this, oled
      ensures Valid()
      ensures plugTimer == None && displayThread == None
      ensures stopDisplayEvent == (old(stopDisplayEvent) || old(displayThread).Some?)
      ensures trace == old(trace) + CleanupActions(old(plugTimer), old(displayThread))
                       + [PlugOff(offOk)] + [Cleared]
      ensures oled.screen == if oled.hasDevice then Blank else old(oled.screen)
    {
      CleanupTimerAndThreads();
      PlugCommand(trace, PlugOff(offOk), false, false);
      trace := trace + [PlugOff(offOk)];
      oled.Clear();
      Quiet(trace, Cleared, false, false);
      trace := trace + [Cleared];
    }
  }

  /** What the countdown thread finds at the top of one turn of its loop:
      whether the stop flag is set, and the time since it began, in
      milliseconds. */
  datatype Tick = Tick(stopSet: bool, elapsedMs: nat)

  /** Python's `int()` of a float number of seconds given in milliseconds:
      truncation toward zero, so anything above -1 second becomes 0. */
  function TruncateMs(ms: int): (s: int)
    ensures ms >= 0 ==> 0 <= s && s * 1000 <= ms < s * 1000 + 1000
    ensures ms < 0 ==> s <= 0 && s * 1000 - 1000 < ms <= s * 1000
  {
    if ms >= 0 then ms / 1000 else -((-ms) / 1000)
  }

  /** `int(total_duration - elapsed)`: the whole seconds left, never more
      than the total; it only goes below zero once a whole second more than
      the total has passed, and until then the last part-second shows as 0. */
  function Remaining(total: nat, elapsedMs: nat): (r: int)
    ensures r <= total
    ensures elapsedMs <= total * 1000 ==> r * 1000 <= total * 1000 - elapsedMs < r * 1000 + 1000
    ensures r < 0 <==> elapsedMs >= (total + 1) * 1000
    ensures total * 1000 < elapsedMs < (total + 1) * 1000 ==> r == 0
  {
    TruncateMs(total * 1000 - elapsedMs)
  }

  /** As time goes on the remaining seconds never go up. */
  lemma RemainingMonotone(total: nat, earlier: nat, later: nat)
    requires earlier <= later
    ensures Remaining(total, later) <= Remaining(total, earlier)
  {
    var a, b := total * 1000 - earlier, total * 1000 - later;
    assert b <= a;
  }

  /** The values the countdown loop reports over the turns `ticks`, and
      whether it has left the loop (flag set, or less than nothing left). */
  function CountdownReports(total: nat, ticks: seq<Tick>): (r: (seq<int>, bool))
    ensures |r.0| <= |ticks|
    ensures r.1 ==> |r.0| < |ticks|
    ensures !r.1 ==> |r.0| == |ticks|
  {
    if ticks == [] then ([], false)
    else if ticks[0].stopSet || Remaining(total, ticks[0].elapsedMs) < 0 then ([], true)
    else
      var rest := CountdownReports(total, ticks[1..]);
      ([Remaining(total, ticks[0].elapsedMs)] + rest.0, rest.1)
  }

  /** Each report is the remaining time of a turn that found the flag clear,
      and lies in [0, total]; the loop leaves at the first turn that finds
      the flag set or a whole second past the total, and otherwise keeps
      reporting. */
  lemma {:induction false} ReportsAreRemaining(total: nat, ticks: seq<Tick>)
    ensures var (reports, exited) := CountdownReports(total, ticks);
      && |reports| <= |ticks|
      && (forall i :: 0 <= i < |reports| ==>
            && !ticks[i].stopSet && reports[i] == Remaining(total, ticks[i].elapsedMs)
            && 0 <= reports[i] <= total)
      && (exited ==>
            && |reports| < |ticks|
            && (ticks[|reports|].stopSet || ticks[|reports|].elapsedMs >= (total + 1) * 1000))
      && (!exited ==> |reports| == |ticks|)
  {
    if ticks != [] {
      if !ticks[0].stopSet && Remaining(total, ticks[0].elapsedMs) >= 0 {
        ReportsAreRemaining(total, ticks[1..]);
      }
    }
  }

  /** As time goes on the reported value never goes up. */
  lemma ReportsNonIncreasing(total: nat, ticks: seq<Tick>)
    requires forall i, j :: 0 <= i <= j < |ticks| ==> ticks[i].elapsedMs <= ticks[j].elapsedMs
    ensures var reports := CountdownReports(total, ticks).0;
      forall i, j :: 0 <= i <= j < |reports| ==> reports[j] <= reports[i]
  {
    ReportsAreRemaining(total, ticks);
    var reports := CountdownReports(total, ticks).0;
    forall i, j | 0 <= i <= j < |reports|
      ensures reports[j] <= reports[i]
    {
      RemainingMonotone(total, ticks[i].elapsedMs, ticks[j].elapsedMs);
    }
  }

  /** One turn of the countdown loop that finds the flag clear and time left
      moves one report from the rest of the turns to those already made. */
  lemma ReportsStep(total: nat, ticks: seq<Tick>, i: nat, done: seq<int>)
    requires i < |ticks| && !ticks[i].stopSet && Remaining(total, ticks[i].elapsedMs) >= 0
    ensures done + CountdownReports(total, ticks[i..]).0
            == (done + [Remaining(total, ticks[i].elapsedMs)]) + CountdownReports(total, ticks[i + 1..]).0
    ensures CountdownReports(total, ticks[i..]).1 == CountdownReports(total, ticks[i + 1..]).1
  {
    assert ticks[i..][1..] == ticks[i + 1..];
  }

  /** Where the countdown loop stops: at a turn that finds the flag set or
      the time used up, or after the last turn. */
  lemma ReportsEnd(total: nat, ticks: seq<Tick>, i: nat, done: seq<int>)
    requires i <= |ticks|
    requires i < |ticks| ==> ticks[i].stopSet || Remaining(total, ticks[i].elapsedMs) < 0
    ensures (done + CountdownReports(total, ticks[i..]).0, CountdownReports(total, ticks[i..]).1)
            == (done, i < |ticks|)
  {
    if i == |ticks| {
      assert ticks[i..] == [];
    }
    assert done + [] == done;
  }

  /** `update_display_countdown`: while the stop flag is clear, show the
      seconds left; leave once none are left. */
  method UpdateDisplayCountdown(oled: Oled, total: nat, ticks: seq<Tick>) returns (reported: seq<int>, exited: bool)
    modifies oled
    ensures (reported, exited) == CountdownReports(total, ticks)
    ensures oled.screen == if oled.hasDevice && reported != []
                           then CountdownScreen(reported[|reported| - 1])
                           else old(oled.screen)
  {
    reported := [];
    var i := 0;
    ghost var before := oled.screen;
    assert ticks[i..] == ticks;
    while i < |ticks| && !ticks[i].stopSet
      invariant 0 <= i <= |ticks|
      invariant CountdownReports(total, ticks).0 == reported + CountdownReports(total, ticks[i..]).0
      invariant CountdownReports(total, ticks).1 == CountdownReports(total, ticks[i..]).1
      invariant oled.screen == if oled.hasDevice && reported != []
                               then CountdownScreen(reported[|reported| - 1])
                               else before
    {
      var remaining := Remaining(total, ticks[i].elapsedMs);
      if remaining < 0 {
        break;
      }
      oled.UpdateCountdown(remaining);
      ReportsStep(total, ticks, i, reported);
      reported := reported + [remaining];
      assert reported[|reported| - 1] == remaining;
      i := i + 1;
    }
    exited := i < |ticks|;
    ReportsEnd(total, ticks, i, reported);
  }
}
