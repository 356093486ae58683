/**
 * The focus/break countdown (hooks/useTimer.ts): the timer state, its
 * callbacks, the one-second tick effect, the `mm:ss` formatter and the
 * progress percentage.
 */
module FocusTimer {

  import opened Wrappers
  import opened Digits

  datatype Mode = Focus | Break

  /** A mode's full length in seconds: 25 minutes of focus, 5 of break. */
  function Duration(m: Mode): (d: int)
    ensures d > 0
  {
    match m
    case Focus => 25 * 60
    case Break => 5 * 60
  }

  datatype TimerState = TimerState(timeLeft: int, running: bool, mode: Mode)

  /** The state at mount: stopped, in focus mode, with `initialMinutes` on the clock. */
  function Initial(initialMinutes: int): TimerState {
    TimerState(initialMinutes * 60, false, Focus)
  }

  /** toggleTimer: start or pause. */
  function Toggle(s: TimerState): TimerState {
    s.(running := !s.running)
  }

  /** resetTimer: stopped, with the current mode's full length on the clock. */
  function Reset(s: TimerState): TimerState {
    s.(running := false, timeLeft := Duration(s.mode))
  }

  /** switchMode: the new mode, stopped, with its full length on the clock. */
  function Switch(m: Mode): TimerState {
    TimerState(Duration(m), false, m)
  }

  /** The tick effect after a change: a timer at zero is stopped; otherwise the interval is armed and nothing changes. */
  function Settle(s: TimerState): TimerState {
    if s.running && s.timeLeft > 0 then s
    else if s.timeLeft == 0 then s.(running := false)
    else s
  }

  /** One second of the interval, which is armed only while running above zero, then the effect again. */
  function Tick(s: TimerState): TimerState {
    if s.running && s.timeLeft > 0 then Settle(s.(timeLeft := s.timeLeft - 1)) else s
  }

  /** The effect has run: no timer sits at zero while running. */
  predicate Settled(s: TimerState) {
    s.timeLeft == 0 ==> !s.running
  }

  /** What every reachable state keeps once mounted with the default 25 minutes. */
  predicate Consistent(s: TimerState) {
    Settled(s) && 0 <= s.timeLeft <= Duration(s.mode)
  }

  /** Toggling twice restores the running flag. */
  lemma ToggleTwice(s: TimerState)
    ensures Toggle(Toggle(s)) == s
  {
  }

  /**
   * With the effect run after each toggle, toggling twice still restores a
   * settled state; at zero a toggle cannot start the timer.
   */
  lemma SettledToggleTwice(s: TimerState)
    requires Settled(s)
    ensures Settle(Toggle(Settle(Toggle(s)))) == s
    ensures s.timeLeft == 0 ==> !Settle(Toggle(s)).running
    ensures s.timeLeft != 0 ==> Settle(Toggle(s)).running == !s.running
  {
  }

  /** Reset keeps the mode, stops the timer and refills the clock, so progress is back at 0. */
  lemma ResetEffect(s: TimerState)
    ensures var r := Reset(s);
      && r.mode == s.mode && !r.running
      && r.timeLeft == (if s.mode == Focus then 1500 else 300)
      && Progress(r.mode, r.timeLeft) == 0.0
  {
    FullClockIsNoProgress(s.mode);
  }

  /** Switching sets the mode, stops the timer and fills the clock for it, so progress is 0. */
  lemma SwitchEffect(m: Mode)
    ensures var r := Switch(m);
      && r.mode == m && !r.running
      && r.timeLeft == (if m == Focus then 1500 else 300)
      && Progress(r.mode, r.timeLeft) == 0.0
  {
    FullClockIsNoProgress(m);
  }

  /**
   * A tick takes exactly one second off, and only while running above zero;
   * the tick that reaches zero stops the timer; nothing else changes.
   */
  lemma TickEffect(s: TimerState)
    ensures Tick(s).timeLeft == if s.running && s.timeLeft > 0 then s.timeLeft - 1 else s.timeLeft
    ensures Tick(s).mode == s.mode
    ensures s.running && s.timeLeft > 0 ==> (Tick(s).running <==> s.timeLeft > 1)
    ensures !s.running ==> Tick(s) == s
  {
  }

  /** `n` ticks in a row. */
  function Ticks(s: TimerState, n: nat): TimerState
    decreases n
  {
    if n == 0 then s else Ticks(Tick(s), n - 1)
  }

  /**
   * A running timer counts down one second per tick, keeps running until
   * it reaches zero and stops there.
   */
  lemma {:induction false} CountsDown(s: TimerState, n: nat)
    requires s.running && Settled(s) && n <= s.timeLeft
    ensures Ticks(s, n).timeLeft == s.timeLeft - n
    ensures Ticks(s, n).running <==> n < s.timeLeft
    ensures Ticks(s, n).mode == s.mode
    decreases n
  {
    if n > 0 {
      TickEffect(s);
      if Tick(s).running {
        CountsDown(Tick(s), n - 1);
      } else {
        StoppedStaysPut(Tick(s), n - 1);
      }
    }
  }

  /** A stopped timer does not move however many seconds pass. */
  lemma {:induction false} StoppedStaysPut(s: TimerState, n: nat)
    requires !s.running
    ensures Ticks(s, n) == s
    decreases n
  {
    if n > 0 {
      StoppedStaysPut(Tick(s), n - 1);
    }
  }

  /** Every operation, each followed by the effect, keeps a consistent state consistent. */
  lemma OperationsStayConsistent(s: TimerState, m: Mode)
    requires Consistent(s)
    ensures Consistent(Settle(Toggle(s)))
    ensures Consistent(Reset(s))
    ensures Consistent(Switch(m))
    ensures Consistent(Tick(s))
  {
  }

  /** The mount state is consistent exactly when the initial minutes are between 0 and 25. */
  lemma InitialConsistency(initialMinutes: int)
    ensures Consistent(Initial(initialMinutes)) <==> 0 <= initialMinutes <= 25
  {
  }

  /**
   * formatTime's seconds: JavaScript's `%`, whose remainder takes the sign
   * of the dividend and is smaller than the divisor in magnitude.
   */
  function JsRem(a: int, b: int): (r: int)
    requires b > 0
    ensures a >= 0 ==> 0 <= r < b
    ensures a < 0 ==> -b < r <= 0
    ensures (a - r) % b == 0
  {
    if a >= 0 then
      MultipleRem(a / b, b);
      assert a - a % b == (a / b) * b;
      a % b
    else
      MultipleRem(-((-a) / b), b);
      assert a + (-a) % b == -((-a) / b) * b;
      -((-a) % b)
  }

  /** A multiple of `b` leaves no remainder. */
  lemma MultipleRem(q: int, b: int)
    requires b > 0
    ensures (q * b) % b == 0
  {
    var d, r := (q * b) / b, (q * b) % b;
    assert (q - d) * b == r;
    ProductSign(q - d, b);
  }

  /** A non-zero multiple of `b` is at least `b` away from zero. */
  lemma ProductSign(k: int, b: int)
    requires b > 0
    ensures k >= 1 ==> k * b >= b
    ensures k <= -1 ==> k * b <= -b
  {
  }

  /** formatTime: whole minutes (rounded down) and the remaining seconds, each padded to two digits. */
  function FormatTime(seconds: int): string {
    PadStart2(IntToString(seconds / 60)) + ":" + PadStart2(IntToString(JsRem(seconds, 60)))
  }

  /** Reads `mm:ss` back: digits, a colon, then exactly two digits. */
  function ParseTime(text: string): Option<int> {
    if |text| >= 3 && text[|text| - 3] == ':' then
      match (ParseDigits(text[..|text| - 3]), ParseDigits(text[|text| - 2..]))
      case (Some(m), Some(s)) => Some(m * 60 + s)
      case _ => None
    else None
  }

  /**
   * Every non-negative count, written as m minutes and r < 60 seconds, is
   * formatted as the zero-padded minutes and seconds, and parsing the text
   * gives the count back.
   */
  lemma FormatTimeRoundTrip(m: nat, r: nat)
    requires r < 60
    ensures FormatTime(m * 60 + r) == PadStart2(NatToString(m)) + ":" + PadStart2(NatToString(r))
    ensures ParseTime(FormatTime(m * 60 + r)) == Some(m * 60 + r)
  {
    var mm, ss := PadStart2(NatToString(m)), PadStart2(NatToString(r));
    FormatTimeFields(m, r);
    FieldsRoundTrip(m, r, mm, ss);
  }

  /** The minutes and seconds of m * 60 + r are m and r. */
  lemma FormatTimeFields(m: nat, r: nat)
    requires r < 60
    ensures FormatTime(m * 60 + r) == PadStart2(NatToString(m)) + ":" + PadStart2(NatToString(r))
  {
    assert (m * 60 + r) / 60 == m;
    assert JsRem(m * 60 + r, 60) == r;
  }

  /** The padded minutes and seconds fields, joined by a colon, parse back to the count they stand for. */
  lemma FieldsRoundTrip(m: nat, r: nat, mm: string, ss: string)
    requires r < 60 && mm == PadStart2(NatToString(m)) && ss == PadStart2(NatToString(r))
    ensures ParseTime(mm + ":" + ss) == Some(m * 60 + r)
  {
    SecondsFieldIsTwoDigits(r);
    PaddedRoundTrip(m);
    PaddedRoundTrip(r);
    ParseJoined(mm, ss, m, r);
  }

  /** The seconds field is exactly two characters. */
  lemma SecondsFieldIsTwoDigits(n: nat)
    requires n < 100
    ensures |PadStart2(NatToString(n))| == 2
  {
    if n >= 10 {
      assert |NatToString(n / 10)| == 1;
    }
  }

  /** Parsing a joined `mm:ss` reads the two fields separately. */
  lemma ParseJoined(mm: string, ss: string, m: nat, r: nat)
    requires |ss| == 2 && ParseDigits(mm) == Some(m) && ParseDigits(ss) == Some(r)
    ensures ParseTime(mm + ":" + ss) == Some(m * 60 + r)
  {
    var text := mm + ":" + ss;
    assert text[|text| - 3] == ':';
    assert text[..|text| - 3] == mm;
    assert text[|text| - 2..] == ss;
  }

  /** The progress bar: the share of the current mode's length that has elapsed, in percent. */
  function Progress(m: Mode, timeLeft: int): real {
    match m
    case Focus => ((25 * 60 - timeLeft) as real / (25 * 60) as real) * 100.0
    case Break => ((5 * 60 - timeLeft) as real / (5 * 60) as real) * 100.0
  }

  lemma FullClockIsNoProgress(m: Mode)
    ensures Progress(m, Duration(m)) == 0.0
  {
  }

  /** Progress is 0 on a full clock, 100 at zero, and within [0, 100] in between. */
  lemma ProgressBounds(m: Mode, timeLeft: int)
    ensures Progress(m, Duration(m)) == 0.0
    ensures Progress(m, 0) == 100.0
    ensures 0 <= timeLeft <= Duration(m) ==> 0.0 <= Progress(m, timeLeft) <= 100.0
    ensures Progress(m, timeLeft) == 0.0 <==> timeLeft == Duration(m)
  {
  }

  /** At mount the bar starts empty only for the default 25 minutes. */
  lemma InitialProgress(initialMinutes: int)
    ensures Progress(Focus, Initial(initialMinutes).timeLeft) == 0.0 <==> initialMinutes == 25
  {
  }

  /** The hook's state: the three state variables, updated by its callbacks and effect. */
  class Timer {
    var timeLeft: int
    var isRunning: bool
    var mode: Mode

    function View(): TimerState
      reads this
    {
      TimerState(timeLeft, isRunning, mode)
    }

    constructor (initialMinutes: int)
      ensures View() == Initial(initialMinutes)
    {
      timeLeft := initialMinutes * 60;
      isRunning := false;
      mode := Focus;
    }

    method ToggleTimer()
      modifies this
      ensures View() == Toggle(old(View()))
    {
      isRunning := !isRunning;
    }

    method ResetTimer()
      modifies this
      ensures View() == Reset(old(View()))
    {
      isRunning := false;
      timeLeft := if mode == Focus then 25 * 60 else 5 * 60;
    }

    method SwitchMode(newMode: Mode)
      modifies this
      ensures View() == Switch(newMode)
    {
      mode := newMode;
      isRunning := false;
      timeLeft := if newMode == Focus then 25 * 60 else 5 * 60;
    }

    /** The tick effect, run after a render that changed the clock or the running flag. */
    method RunEffect()
      modifies this
      ensures View() == Settle(old(View()))
    {
      if isRunning && timeLeft > 0 {
        return;
      } else if timeLeft == 0 {
        isRunning := false;
      }
    }

    /** One second passes: the armed interval takes a second off and the effect runs again. */
    method OnSecond()
      modifies this
      ensures View() == Tick(old(View()))
    {
      if isRunning && timeLeft > 0 {
        timeLeft := timeLeft - 1;
        RunEffect();
      }
    }
  }
}
