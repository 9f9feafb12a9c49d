/** The program as `main` assembles it: one display, one SIP client whose
    DTMF callback is `handle_dtmf` and whose disconnect callback is
    `on_call_disconnect`, and one controller. Each event of the telephony
    stack or of the off-timer is one method. */
module PhoneWave {
  import opened Wrappers
  import opened OledDisplay
  import opened SipHandler
  import opened TimerControl

  class App {
    const oled: Oled
    const client: Client
    const account: Account
    const controller: Controller

    ghost predicate Valid()
      reads this, controller
    {
      && controller.Valid()
      && controller.oled == oled
      && account.client == client
      && client.hasDtmfCallback && client.hasDisconnectCallback
    }

    /** Builds the parts and shows the start-up messages; registering with
        the SIP server is not part of this model. */
    constructor (hasDevice: bool)
      ensures Valid() && fresh(oled) && fresh(client) && fresh(controller)
      ensures oled.hasDevice == hasDevice && client.currentCall == null
      ensures controller.plugTimer == None && controller.displayThread == None
      ensures !controller.stopDisplayEvent
      ensures controller.trace == [Shown(StartingText, "")] + [Shown(ReadyText, WaitingText)]
      ensures oled.screen == if hasDevice then Message(ReadyText, WaitingText) else Blank
    {
      var o := new Oled(hasDevice);
      var c := new Client(true, true);
      var ctl := new Controller(o);
      ctl.Startup();
      oled := o;
      client := c;
      account := new Account(c);
      controller := ctl;
    }

    method IncomingCall(callId: int) returns (call: Call, status: int)
      requires Valid()
      modifies client
      ensures Valid()
      ensures fresh(call) && call.Valid() && call.client == client
      ensures call.dtmfBuffer == "" && call.received == []
      ensures client.currentCall == call && status == 200
    {
      call, status := account.OnIncomingCall(callId);
    }

    /** A digit on `call`; a completed code goes to `handle_dtmf`, with
        `plugOk` as the plug's answer to ON. */
    method DtmfDigit(call: Call, digit: char, plugOk: bool) returns (code: Option<string>)
      requires Valid() && call.Valid() && call.client == client
      modifies call`dtmfBuffer, call`received, call`delivered, controller, oled
      ensures Valid() && call.Valid()
      ensures call.received == old(call.received) + [digit]
      ensures call.dtmfBuffer == if digit == Terminator then "" else old(call.dtmfBuffer) + [digit]
      ensures code == if digit == Terminator && old(call.dtmfBuffer) != "" then Some(old(call.dtmfBuffer)) else None
      ensures code.None? ==>
        && controller.trace == old(controller.trace)
        && controller.plugTimer == old(controller.plugTimer)
        && oled.screen == old(oled.screen)
      ensures code.Some? && ParseDuration(code.value).None? ==>
        && controller.trace == old(controller.trace) + [Shown(InvalidText, code.value)]
        && controller.plugTimer == old(controller.plugTimer)
        && oled.screen == (if oled.hasDevice then Message(InvalidText, code.value) else old(oled.screen))
      ensures code.Some? && ParseDuration(code.value).Some? ==>
        var seconds := ParseDuration(code.value).value;
        && (plugOk ==> controller.trace == old(controller.trace)
                         + CleanupActions(old(controller.plugTimer), old(controller.displayThread))
                         + [PlugOn(true)] + [TimerStarted(seconds)] + [CountdownStarted(seconds)])
        && (!plugOk ==> controller.trace == old(controller.trace)
                          + CleanupActions(old(controller.plugTimer), old(controller.displayThread))
                          + [PlugOn(false)] + [Shown(PlugErrorText, CheckText)])
        && controller.plugTimer == (if plugOk then Some(seconds) else None)
        && controller.displayThread == controller.plugTimer
        && oled.screen == (if !plugOk && oled.hasDevice then Message(PlugErrorText, CheckText)
                           else old(oled.screen))
    {
      code := call.OnDtmfDigit(digit);
      if code.Some? {
        controller.HandleDtmf(code.value, plugOk);
      }
    }

    /** A call state change; on DISCONNECTED the plug goes off (`offOk` is
        its answer). */
    method CallState(call: Call, state: InvState, offOk: bool)
      requires Valid() && call.client == client
      modifies client, call`hasPlayer, controller, oled
      ensures Valid()
      ensures state == Disconnected ==>
        && client.currentCall == null && !call.hasPlayer
        && controller.plugTimer == None && controller.displayThread == None
        && oled.screen == (if oled.hasDevice then Message(ReadyText, WaitingText) else old(oled.screen))
        && controller.trace == old(controller.trace)
                               + CleanupActions(old(controller.plugTimer), old(controller.displayThread))
                               + [PlugOff(offOk)] + [Shown(EndedText, PlugOffText)]
                               + [Shown(ReadyText, WaitingText)]
      ensures state != Disconnected ==>
        && client.currentCall == old(client.currentCall) && call.hasPlayer == old(call.hasPlayer)
        && controller.trace == old(controller.trace)
        && controller.plugTimer == old(controller.plugTimer)
        && controller.displayThread == old(controller.displayThread)
        && controller.stopDisplayEvent == old(controller.stopDisplayEvent)
        && oled.screen == old(oled.screen)
    {
      var notified := call.OnCallState(state);
      if notified {
        controller.OnCallDisconnect(offOk);
      }
    }

    /** The pending off-timer fires. A cancelled timer never fires, so only
        the pending one can. */
    method TimerExpires(offOk: bool)
      requires Valid() && controller.plugTimer.Some?
      modifies controller, oled
      ensures Valid()
      ensures controller.plugTimer == None && controller.displayThread == None
      ensures controller.stopDisplayEvent
      ensures controller.trace == old(controller.trace) + [PlugOff(offOk)] + [Shown(FinishedText, PlugOffText)]
                                  + [TimerCancelled] + [CountdownStopped]
      ensures oled.screen == if oled.hasDevice then Message(FinishedText, PlugOffText) else old(oled.screen)
    {
      controller.PlugOffTask(offOk);
    }

    method Shutdown(offOk: bool)
      requires Valid()
      modifies controller, oled
      ensures Valid()
      ensures controller.plugTimer == None && controller.displayThread == None
      ensures controller.stopDisplayEvent
              == (old(controller.stopDisplayEvent) || old(controller.displayThread).Some?)
      ensures controller.trace == old(controller.trace)
                                  + CleanupActions(old(controller.plugTimer), old(controller.displayThread))
                                  + [PlugOff(offOk)] + [Cleared]
      ensures oled.screen == if oled.hasDevice then Blank else old(oled.screen)
    {
      controller.Shutdown(offOk);
    }
  }

  /** A 120-second run: the timer fires once, the plug goes off and both
      workers are gone. */
  method ScenarioTimerRunsOut()
  {
    var oled := new Oled(true);
    var controller := new Controller(oled);
    assert ParseDuration("120") == Some(120) by { ParseExamples(); }
    controller.HandleDtmf("120", true);
    assert controller.plugTimer == Some(120) && controller.displayThread == Some(120);
    ghost var armed := controller.trace;
    controller.PlugOffTask(true);
    assert controller.trace == armed + [PlugOff(true)] + [Shown(FinishedText, PlugOffText)]
                               + CleanupActions(Some(120), Some(120));
    assert controller.plugTimer == None && controller.displayThread == None;
    assert oled.screen == Message(FinishedText, PlugOffText);
  }

  /** The countdown of a 120-second run: 120 at the start, still 0 at 120.4
      seconds, and out of the loop at 121 seconds. */
  method ScenarioCountdown()
  {
    var oled := new Oled(false);
    var ticks := [Tick(false, 0), Tick(false, 120_400), Tick(false, 121_000)];
    assert ticks[1..][1..] == [Tick(false, 121_000)];
    var reports, exited := UpdateDisplayCountdown(oled, 120, ticks);
    assert reports == [120, 0] && exited;
  }

  /** "0" as a code: shown as invalid, the plug is never switched. */
  method ScenarioInvalidCode()
  {
    var oled := new Oled(true);
    var controller := new Controller(oled);
    assert ParseDuration("0") == None by { ParseExamples(); }
    controller.HandleDtmf("0", true);
    assert controller.trace == [] + [Shown(InvalidText, "0")];
    assert controller.plugTimer == None && oled.screen == Message(InvalidText, "0");
  }

  /** Call, "5#", hang up at once: the plug goes off and the timer and
      countdown are gone, so no timer can fire afterwards. */
  method ScenarioHangUp()
  {
    var app := new App(true);
    var call, _ := app.IncomingCall(3);
    var code := app.DtmfDigit(call, '5', true);
    SingleDigitDuration('5');
    code := app.DtmfDigit(call, '#', true);
    assert code == Some("5") && app.controller.plugTimer == Some(5);
    app.CallState(call, Disconnected, true);
    assert app.controller.plugTimer == None && app.client.currentCall == null;
  }

  /** Two codes in one call: the first timer is cancelled before the plug
      is switched on again, and only the second one is pending. */
  method ScenarioSecondCodeReplacesFirst()
  {
    var oled := new Oled(false);
    var controller := new Controller(oled);
    SingleDigitDuration('9');
    controller.HandleDtmf("9", true);
    ghost var first := controller.trace;
    SingleDigitDuration('3');
    controller.HandleDtmf("3", true);
    assert controller.plugTimer == Some(3);
    assert controller.trace == first + CleanupActions(Some(9), Some(9))
                               + [PlugOn(true)] + [TimerStarted(3)] + [CountdownStarted(3)];
  }

  /** "9#" switches the plug on, then "3#" fails to switch it on again: the
      cleanup has cancelled the first timer, so no timer is pending and no
      OFF has been sent, while the plug may still be on from the first ON. */
  method ScenarioFailedOnAfterOn()
  {
    var oled := new Oled(false);
    var controller := new Controller(oled);
    SingleDigitDuration('9');
    controller.HandleDtmf("9", true);
    assert controller.trace == [] + CleanupActions(None, None)
                               + [PlugOn(true)] + [TimerStarted(9)] + [CountdownStarted(9)];
    ghost var first := controller.trace;
    SingleDigitDuration('3');
    controller.HandleDtmf("3", false);
    assert controller.plugTimer == None && controller.displayThread == None;
    assert controller.trace == first + CleanupActions(Some(9), Some(9))
                               + [PlugOn(false)] + [Shown(PlugErrorText, CheckText)];
    assert controller.trace == [PlugOn(true), TimerStarted(9), CountdownStarted(9), TimerCancelled,
                                CountdownStopped, PlugOn(false), Shown(PlugErrorText, CheckText)];
    assert forall i :: 0 <= i < |controller.trace| ==> !controller.trace[i].PlugOff?;
  }
}
