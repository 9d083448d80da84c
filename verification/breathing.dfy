/** The 4-4-4 breathing pacer: a phase, a seconds countdown and a count of
    completed cycles, advanced by one-second ticks while active. */
module Breathing {

  datatype Phase = Inhale | Hold | Exhale

  datatype Pacer = Pacer(phase: Phase, timeLeft: int, cycles: nat, active: bool)

  const Fresh := Pacer(Inhale, 4, 0, true)

  /** The phase that follows a finished one. */
  function NextPhase(p: Phase): (q: Phase)
    ensures q != p
  {
    match p
    case Inhale => Hold
    case Hold => Exhale
    case Exhale => Inhale
  }

  /** One interval callback. An inactive pacer has no interval. At one
      second or less the phase advances and the countdown restarts at 4;
      a cycle is counted when exhaling ends. */
  function Tick(s: Pacer): (r: Pacer)
    ensures !s.active ==> r == s
    ensures s.active && s.timeLeft > 1 ==> r == s.(timeLeft := s.timeLeft - 1)
    ensures s.active && s.timeLeft <= 1 ==>
              && r.phase == NextPhase(s.phase) && r.timeLeft == 4 && r.active
              && r.cycles == s.cycles + (if s.phase == Exhale then 1 else 0)
  {
    if !s.active then s
    else if s.timeLeft <= 1 then
      s.(phase := NextPhase(s.phase), timeLeft := 4,
         cycles := if s.phase == Exhale then s.cycles + 1 else s.cycles)
    else s.(timeLeft := s.timeLeft - 1)
  }

  /** `n` ticks in a row. */
  function Ticks(s: Pacer, n: nat): Pacer
    decreases n
  {
    if n == 0 then s else Ticks(Tick(s), n - 1)
  }

  /** The countdown stays within 1..4 and only cycles grow. */
  predicate InRange(s: Pacer) {
    1 <= s.timeLeft <= 4
  }

  lemma {:induction false} TicksKeepRange(s: Pacer, n: nat)
    requires InRange(s)
    ensures InRange(Ticks(s, n))
    ensures Ticks(s, n).cycles >= s.cycles
    decreases n
  {
    if n > 0 {
      TicksKeepRange(Tick(s), n - 1);
    }
  }

  lemma {:induction false} TicksAdd(s: Pacer, a: nat, b: nat)
    ensures Ticks(s, a + b) == Ticks(Ticks(s, a), b)
    decreases a
  {
    if a > 0 {
      TicksAdd(Tick(s), a - 1, b);
    }
  }

  /** Four ticks at the start of a phase finish it. */
  lemma FourTicks(s: Pacer)
    requires s.active && s.timeLeft == 4
    ensures Ticks(s, 4) == s.(phase := NextPhase(s.phase),
                              cycles := s.cycles + (if s.phase == Exhale then 1 else 0))
  {
    assert Ticks(s, 4) == Tick(Tick(Tick(Tick(s))));
  }

  /** Twelve ticks from the start of inhaling are one full cycle. */
  lemma TwelveTicks(s: Pacer)
    requires s.active && s.timeLeft == 4 && s.phase == Inhale
    ensures Ticks(s, 12) == s.(cycles := s.cycles + 1)
  {
    TicksAdd(s, 4, 8);
    TicksAdd(Ticks(s, 4), 4, 4);
    FourTicks(s);
    FourTicks(Ticks(s, 4));
    FourTicks(Ticks(Ticks(s, 4), 4));
  }

  /** `12 k` seconds after a fresh start exactly `k` cycles are done and
      inhaling starts again. */
  lemma {:induction false} CyclesAfter(k: nat)
    ensures Ticks(Fresh, 12 * k) == Fresh.(cycles := k)
  {
    if k > 0 {
      CyclesAfter(k - 1);
      TicksAdd(Fresh, 12 * (k - 1), 12);
      TwelveTicks(Fresh.(cycles := k - 1));
    }
  }

  /** Finish Session: the pacer stops (and the hub awards its points). */
  function Finish(s: Pacer): (r: Pacer)
    ensures !r.active && r.cycles == s.cycles && Tick(r) == r
  {
    s.(active := false)
  }
}
