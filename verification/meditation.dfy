/** The meditation countdown: a chosen duration, the seconds left, and
    whether it runs; reaching zero stops it and reports completion. Also
    its `m:ss` clock text. */
module Meditation {
  import opened Common
  import opened JsNumber

  datatype Timer = Timer(duration: nat, timeLeft: int, active: bool)

  const Fresh := Timer(300, 300, false)

  /** The preset buttons, in seconds. */
  predicate IsPreset(t: int) {
    t == 300 || t == 600 || t == 900
  }

  datatype Event = Tick | StartPause | Preset(seconds: nat) | Reset | Exit

  /** The completion effect, run after every change: at zero seconds the
      timer stops and `onComplete` fires. */
  function Settle(s: Timer): (r: (Timer, bool))
    ensures r.1 <==> s.timeLeft == 0
    ensures r.1 ==> r.0 == s.(active := false)
    ensures !r.1 ==> r.0 == s
  {
    if s.active && s.timeLeft > 0 then (s, false)
    else if s.timeLeft == 0 then (s.(active := false), true)
    else (s, false)
  }

  /** The timer's reaction to one event, and whether `onComplete` fired.
      The interval exists only while active with time left, so a tick at
      any other time changes nothing; a preset sets
      both the duration and the countdown and pauses; Reset rewinds to the
      duration and pauses; Exit reports completion whatever the time left. */
  function Step(s: Timer, e: Event): (r: (Timer, bool))
    requires e.Preset? ==> IsPreset(e.seconds)
    ensures e == Exit ==> r == (s, true)
    ensures e.Tick? && s.active && s.timeLeft > 0 ==>
              r.0.timeLeft == s.timeLeft - 1 && r.0.duration == s.duration
              && (r.1 <==> s.timeLeft == 1) && (r.0.active <==> s.timeLeft > 1)
    ensures e.Tick? && !(s.active && s.timeLeft > 0) ==> r == (s, false)
    ensures e.Preset? ==> r.0 == Timer(e.seconds, e.seconds, false) && !r.1
    ensures e.Reset? && s.duration > 0 ==> r.0 == Timer(s.duration, s.duration, false) && !r.1
    ensures e.StartPause? ==> r.0.duration == s.duration && r.0.timeLeft == s.timeLeft
  {
    match e
    case Exit => (s, true)
    case Tick =>
      if s.active && s.timeLeft > 0 then Settle(s.(timeLeft := s.timeLeft - 1)) else (s, false)
    case StartPause => Settle(s.(active := !s.active))
    case Preset(t) => Settle(Timer(t, t, false))
    case Reset => Settle(s.(active := false, timeLeft := s.duration))
  }

  /** The countdown never leaves `0..duration` and the duration is always
      a preset. */
  predicate Valid(s: Timer) {
    IsPreset(s.duration) && 0 <= s.timeLeft <= s.duration
  }

  lemma StepKeepsValid(s: Timer, e: Event)
    requires Valid(s) && (e.Preset? ==> IsPreset(e.seconds))
    ensures Valid(Step(s, e).0)
  {
  }

  /** `n` ticks, with the number of completions they report. */
  function Ticks(s: Timer, n: nat): (Timer, nat)
    decreases n
  {
    if n == 0 then (s, 0)
    else
      var (t, done) := Step(s, Tick);
      var (u, k) := Ticks(t, n - 1);
      (u, k + (if done then 1 else 0))
  }

  /** Started with `n` seconds left, the timer reports completion exactly
      once over the next `n` ticks, on the last one, and ends stopped at 0. */
  lemma {:induction false} RunsToCompletion(s: Timer, n: nat)
    requires s.active && s.timeLeft == n && n > 0
    ensures Ticks(s, n) == (s.(timeLeft := 0, active := false), 1)
    decreases n
  {
    if n > 1 {
      RunsToCompletion(s.(timeLeft := n - 1), n - 1);
    }
  }

  /** A paused or finished timer does not move. */
  lemma {:induction false} PausedStays(s: Timer, n: nat)
    requires !s.active || s.timeLeft <= 0
    ensures Ticks(s, n) == (s, 0)
    decreases n
  {
    if n > 0 {
      PausedStays(s, n - 1);
    }
  }

  // ---------------------------------------------------------------------
  // formatTime

  /** `secs.toString().padStart(2, '0')` for a seconds value below 60. */
  function Pad2(n: nat): (r: string)
    requires n < 60
    ensures |r| == 2
  {
    if n < 10 then "0" + Digits(n)
    else
      assert Digits(n) == [DigitChar(n / 10), DigitChar(n % 10)];
      Digits(n)
  }

  /** `formatTime(seconds)`: whole minutes, a colon, two-digit seconds. */
  function FormatTime(seconds: nat): (r: string)
    ensures |r| >= 4 && r[|r| - 3] == ':'
    ensures r[..|r| - 3] == Digits(seconds / 60)
  {
    Digits(seconds / 60) + ":" + Pad2(seconds % 60)
  }

  /** Reads an `m:ss` clock back into seconds. */
  function ParseClock(t: string): (r: Option<nat>)
  {
    if |t| < 4 || t[|t| - 3] != ':' then None
    else
      var m := t[..|t| - 3];
      var ss := t[|t| - 2..];
      if (forall i :: 0 <= i < |m| ==> IsDigit(m[i], 10)) && IsDigit(ss[0], 10) && IsDigit(ss[1], 10)
      then Some(Value(m, 10) * 60 + Value(ss, 10))
      else None
  }

  /** The clock text determines the seconds: reading it back gives them. */
  lemma FormatTimeRoundTrip(seconds: nat)
    ensures ParseClock(FormatTime(seconds)) == Some(seconds)
  {
    var m := Digits(seconds / 60);
    var ss := Pad2(seconds % 60);
    ValueOfDigits(seconds / 60);
    PadValue(seconds % 60);
    ParseClockOf(m, ss);
    assert FormatTime(seconds) == m + ":" + ss;
    DivMod60(seconds);
  }

  lemma DivMod60(n: nat)
    ensures (n / 60) * 60 + n % 60 == n
  {
  }

  /** Reading minutes digits, a colon and two seconds digits. */
  lemma ParseClockOf(m: string, ss: string)
    requires |m| >= 1 && forall i :: 0 <= i < |m| ==> IsDigit(m[i], 10)
    requires |ss| == 2 && IsDigit(ss[0], 10) && IsDigit(ss[1], 10)
    ensures ParseClock(m + ":" + ss) == Some(Value(m, 10) * 60 + Value(ss, 10))
  {
    var t := m + ":" + ss;
    assert t[|t| - 3] == ':';
    assert t[..|t| - 3] == m;
    assert t[|t| - 2..] == ss;
  }

  lemma PadValue(n: nat)
    requires n < 60
    ensures IsDigit(Pad2(n)[0], 10) && IsDigit(Pad2(n)[1], 10)
    ensures Value(Pad2(n), 10) == n
  {
    var p := Pad2(n);
    if n < 10 {
      assert p == ['0', DigitChar(n)];
      assert p[..1] == ['0'];
      assert Value(p[..1], 10) == 0 by {
        assert p[..1][..0] == [];
      }
    } else {
      assert p == Digits(n) == [DigitChar(n / 10), DigitChar(n % 10)];
      assert p[..1] == [DigitChar(n / 10)];
      assert Value(p[..1], 10) == n / 10 by {
        assert p[..1][..0] == [];
      }
    }
  }

  /** The default five minutes read `5:00`. */
  lemma FiveMinutes()
    ensures FormatTime(300) == "5:00"
    ensures FormatTime(59) == "0:59"
  {
    assert Digits(5) == "5" && Digits(0) == "0";
    assert Pad2(0) == "00";
    assert Digits(59) == Digits(5) + [DigitChar(9)] == "59";
    assert Pad2(59) == "59";
  }
}
