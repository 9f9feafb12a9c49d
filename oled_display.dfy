/** The status display: the `mm:ss` countdown text and the two-line screen
    that the controller writes to. The I2C device itself is reduced to
    whether it could be opened and what it currently shows. */
module OledDisplay {
  import opened Wrappers
  import opened Decimal

  /** Python's `divmod(remaining, 60)`. Python floors, and for the positive
      divisor 60 that agrees with Dafny's Euclidean `/` and `%`. */
  function DivMod60(remaining: int): (r: (int, int))
    ensures r.0 * 60 + r.1 == remaining
    ensures 0 <= r.1 < 60
    ensures remaining >= 0 ==> r.0 >= 0
  {
    (remaining / 60, remaining % 60)
  }

  /** Python's `f"{n:02d}"`: at least two characters, zero-padded after the
      sign; a negative number always has two characters with its '-'. */
  function Pad2(n: int): (s: string)
    ensures n >= 0 ==> AllDigits(s) && Value(s) == n
    ensures n >= 0 ==> |s| == (if n < 100 then 2 else |Digits(n)|)
    ensures n < 0 ==> |s| >= 2 && s[0] == '-'
  {
    if n < 0 then "-" + Digits(-n)
    else if n < 10 then
      (ValueIgnoresLeadingZeros(1, Digits(n));
       assert Zeros(1) == "0";
       "0" + Digits(n))
    else Digits(n)
  }

  /** The text `update_countdown` draws: for a count that is not negative,
      the minutes in digits, ':', and two digits of seconds below 60, which
      together make up the count. */
  function TimeString(remaining: int): string
  {
    var (mins, secs) := DivMod60(remaining);
    Pad2(mins) + ":" + Pad2(secs)
  }

  /** Reads a clock string back: digits, ':', exactly two digits. */
  function ParseClock(s: string): Option<int>
  {
    if |s| >= 4 && s[|s| - 3] == ':' && AllDigits(s[..|s| - 3]) && AllDigits(s[|s| - 2..])
    then Some(Value(s[..|s| - 3]) * 60 + Value(s[|s| - 2..]))
    else None
  }

  /** Below 100 minutes the clock is exactly "mm:ss". */
  lemma TimeStringShape(remaining: int)
    requires 0 <= remaining < 6000
    ensures |TimeString(remaining)| == 5 && TimeString(remaining)[2] == ':'
    ensures AllDigits(TimeString(remaining)[..2]) && AllDigits(TimeString(remaining)[3..])
  {
    var (mins, secs) := DivMod60(remaining);
    var s := TimeString(remaining);
    assert s == Pad2(mins) + ":" + Pad2(secs);
    assert s[..2] == Pad2(mins) && s[3..] == Pad2(secs);
  }

  /** The displayed clock determines the remaining seconds: reading it back
      as minutes * 60 + seconds gives the number it was made from. */
  lemma ClockRoundTrip(remaining: int)
    requires remaining >= 0
    ensures ParseClock(TimeString(remaining)) == Some(remaining)
  {
    var (mins, secs) := DivMod60(remaining);
    var s := TimeString(remaining);
    var m, c := Pad2(mins), Pad2(secs);
    assert s == m + ":" + c;
    assert |c| == 2;
    assert s[..|s| - 3] == m && s[|s| - 3] == ':' && s[|s| - 2..] == c;
  }

  /** What the panel shows. */
  datatype Screen =
    | Blank
    | Message(line1: string, line2: string)
    | Countdown(title: string, clock: string)

  /** What `update_countdown` draws for `remaining` seconds. */
  function CountdownScreen(remaining: int): Screen {
    Countdown("PLUG IS ON", TimeString(remaining))
  }

  /** The display controller; `hasDevice` is false when opening the I2C
      device failed, and then every drawing call returns at once. */
  class Oled {
    const hasDevice: bool
    var screen: Screen

    constructor (hasDevice: bool)
      ensures this.hasDevice == hasDevice && screen == Blank
    {
      this.hasDevice := hasDevice;
      screen := Blank;
    }

    method DisplayMessage(line1: string, line2: string := "")
      modifies this
      ensures screen == if hasDevice then Message(line1, line2) else old(screen)
    {
      if !hasDevice { return; }
      screen := Message(line1, line2);
    }

    method UpdateCountdown(remaining: int)
      modifies this
      ensures screen == if hasDevice then CountdownScreen(remaining) else old(screen)
    {
      if !hasDevice { return; }
      var timeStr := TimeString(remaining);
      screen := Countdown("PLUG IS ON", timeStr);
    }

    method Clear()
      modifies this
      ensures screen == if hasDevice then Blank else old(screen)
    {
      if !hasDevice { return; }
      screen := Blank;
    }
  }
}
