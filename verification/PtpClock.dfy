/** Time of day from a nanosecond timer, a seconds counter and a half-second flag.

The hardware counts nanoseconds and wraps every second.  Software counts seconds in one interrupt
handler and notes the half second in another, both some time after the fact; a captured nanosecond
value is paired with whatever the two say when it is looked at, and corrected. */
module PtpClock {
  import opened Division

  const SEC: nat := 1_000_000_000
  const HALF: nat := 500_000_000
  const EARLY: nat := 250_000_000
  const LATE: nat := 750_000_000

  /** The seconds to report with a captured nanosecond value. */
  function Corrected(rtc: int, half: bool, nsec: nat): int
  {
    if nsec > LATE && !half then rtc - 1
    else if nsec < EARLY && half then rtc + 1
    else rtc
  }

  function Second(t: int): int { t / SEC }
  function Nanos(t: int): nat { t % SEC }
  predicate LateHalf(t: int) { Nanos(t) >= HALF }

  /** If software is in the phase of instant `seen`, the correction finds the second of the capture
      instant exactly when `seen` lies within half a second of where it should. */
  lemma CorrectedIff(capture: int, seen: int)
    ensures Corrected(Second(seen), LateHalf(seen), Nanos(capture)) == Second(capture) <==>
            var s, c := Second(capture) * SEC, Nanos(capture);
            if c > 750_000_000 then s + HALF <= seen < s + SEC + HALF
            else if c < 250_000_000 then s - HALF <= seen < s + HALF
            else s <= seen < s + SEC
  {
    var s, c, r, m := Second(capture), Nanos(capture), Second(seen), Nanos(seen);
    assert seen == r * SEC + m && capture == s * SEC + c;
  }

  /** A quarter of a second either way is always good enough ... */
  lemma WithinQuarter(capture: int, seen: int)
    requires capture <= seen + 250_000_000 && seen < capture + 250_000_000
    ensures Corrected(Second(seen), LateHalf(seen), Nanos(capture)) == Second(capture)
  {
    CorrectedIff(capture, seen);
    assert capture == Second(capture) * SEC + Nanos(capture);
  }

  /** ... and no wider margin on either side is. */
  lemma QuarterIsTight(s: int)
    ensures var capture := s * SEC + 750_000_000;
            Corrected(Second(capture + 250_000_000), LateHalf(capture + 250_000_000), Nanos(capture)) != Second(capture)
    ensures var capture := s * SEC + 250_000_000;
            Corrected(Second(capture - 250_000_000 - 1), LateHalf(capture - 250_000_000 - 1), Nanos(capture)) != Second(capture)
  {
    CorrectedIff(s * SEC + 750_000_000, s * SEC + 750_000_000 + 250_000_000);
    CorrectedIff(s * SEC + 250_000_000, s * SEC - 1);
  }

  /** The counters are 32 bits wide; the correction commutes with that. */
  lemma CorrectedWraps(rtc: int, half: bool, nsec: nat)
    ensures Corrected(rtc % TWO32, half, nsec) % TWO32 == Corrected(rtc, half, nsec) % TWO32
  {
  }

  // ---------------------------------------------------------------- the clock and its interrupts

  /** `now` is the true time, of which the timer register shows the nanoseconds; `secondDue` and
      `halfDue` say that an interrupt has been raised and not yet serviced.  `seen` says that the handler
      has read the event register and found the seconds event, but has not yet got the lock under which
      it changes the counter and the flag. */
  datatype Clock = Clock(now: nat, rtc: int, half: bool, secondDue: bool, halfDue: bool, seen: bool)

  /** Software is in the phase of the clock, or one interrupt behind by less than a quarter second. */
  predicate InPhase(c: Clock)
  {
    var s, n := Second(c.now), Nanos(c.now);
    (c.seen ==> c.secondDue) &&
    if c.secondDue then !c.halfDue && c.half && c.rtc == s - 1 && n < 250_000_000
    else if c.halfDue then !c.half && c.rtc == s && HALF <= n < 750_000_000
    else c.rtc == s && c.half == (n >= HALF)
  }

  /** Time may pass as long as no interrupt waits for a quarter of a second. */
  predicate MayTick(c: Clock, dt: nat)
  {
    var m, m' := c.now / HALF, (c.now + dt) / HALF;
    && m' <= m + (if c.secondDue || c.halfDue then 0 else 1)
    && (m' > m || c.secondDue || c.halfDue ==> (c.now + dt) % HALF < 250_000_000)
  }

  function Tick(c: Clock, dt: nat): Clock
  {
    var m, m' := c.now / HALF, (c.now + dt) / HALF;
    if m' == m then c.(now := c.now + dt)
    else if m' % 2 == 0 then c.(now := c.now + dt, secondDue := true)
    else c.(now := c.now + dt, halfDue := true)
  }

  /** The handler reads the event register ... */
  function SecondSeen(c: Clock): Clock
  {
    c.(seen := true)
  }

  /** ... and acts on what it has read, with the lock. */
  function SecondHandler(c: Clock): Clock
  {
    c.(seen := false, secondDue := false, half := false, rtc := c.rtc + 1)
  }

  function HalfHandler(c: Clock): Clock
  {
    c.(halfDue := false, half := true)
  }

  lemma HalvesOf(t: nat)
    ensures Second(t) == t / HALF / 2 && Nanos(t) == t % HALF + (if t / HALF % 2 == 1 then HALF else 0)
  {
    var q, r := t / HALF, t % HALF;
    assert t == q * HALF + r;
    var s := q / 2;
    assert t == s * SEC + (q % 2) * HALF + r;
  }

  lemma TickKeeps(c: Clock, dt: nat)
    requires InPhase(c) && MayTick(c, dt)
    ensures InPhase(Tick(c, dt))
  {
    HalvesOf(c.now);
    HalvesOf(c.now + dt);
  }

  lemma HandlersKeep(c: Clock)
    requires InPhase(c)
    ensures c.secondDue ==> InPhase(SecondSeen(c))
    ensures c.seen ==> InPhase(SecondHandler(c))
    ensures c.halfDue ==> InPhase(HalfHandler(c))
  {
  }

  /** While software is in phase, every capture less than a quarter of a second old gets its true
      second; in particular reading the clock gives the true time. */
  lemma RecentCaptureExact(c: Clock, capture: nat)
    requires InPhase(c) && c.now - 250_000_000 < capture <= c.now
    ensures Corrected(c.rtc, c.half, Nanos(capture)) == Second(capture)
  {
    assert c.now == Second(c.now) * SEC + Nanos(c.now);
    var seen := if c.secondDue then Second(c.now) * SEC - 1
                else if c.halfDue then Second(c.now) * SEC + HALF - 1
                else c.now;
    assert Second(seen) == c.rtc && LateHalf(seen) == c.half;
    WithinQuarter(capture, seen);
  }

  /** One nanosecond older is too old: a capture at 750 ms, looked at on the second. */
  lemma OlderCaptureWrong(s: nat)
    requires s > 0
    ensures var c := Clock(s * SEC, s, false, false, false, false);
            InPhase(c) && Corrected(c.rtc, c.half, Nanos(c.now - 250_000_000)) != Second(c.now - 250_000_000)
  {
    assert (s * SEC - 250_000_000) == (s - 1) * SEC + 750_000_000;
  }

  // ---------------------------------------------------------------- whole runs

  datatype Event = Pass(dt: nat) | SeeSecond | ServeSecond | ServeHalf | Read

  predicate Possible(c: Clock, e: Event)
  {
    match e
    case Pass(dt) => MayTick(c, dt)
    case SeeSecond => c.secondDue
    case ServeSecond => c.seen
    case ServeHalf => c.halfDue
    case Read => true
  }

  function After(c: Clock, e: Event): Clock
  {
    match e
    case Pass(dt) => Tick(c, dt)
    case SeeSecond => SecondSeen(c)
    case ServeSecond => SecondHandler(c)
    case ServeHalf => HalfHandler(c)
    case Read => c
  }

  /** Time passes, interrupts are serviced in time, and the clock is read now and then. */
  predicate Legal(c: Clock, es: seq<Event>)
    decreases |es|
  {
    es == [] || (Possible(c, es[0]) && Legal(After(c, es[0]), es[1..]))
  }

  /** What reading gives at `c`, in nanoseconds. */
  function Reading(c: Clock): int
  {
    Corrected(c.rtc, c.half, Nanos(c.now)) * SEC + Nanos(c.now)
  }

  function Readings(c: Clock, es: seq<Event>): seq<int>
    decreases |es|
  {
    if es == [] then []
    else (if es[0].Read? then [Reading(c)] else []) + Readings(After(c, es[0]), es[1..])
  }

  /** The true times of the readings. */
  function Instants(c: Clock, es: seq<Event>): seq<int>
    decreases |es|
  {
    if es == [] then []
    else (if es[0].Read? then [c.now] else []) + Instants(After(c, es[0]), es[1..])
  }

  lemma PhaseKept(c: Clock, e: Event)
    requires InPhase(c) && Possible(c, e)
    ensures InPhase(After(c, e)) && After(c, e).now >= c.now
  {
    match e
    case Pass(dt) => TickKeeps(c, dt);
    case _ => HandlersKeep(c);
  }

  lemma ReadingIsNow(c: Clock)
    requires InPhase(c)
    ensures Reading(c) == c.now
  {
    RecentCaptureExact(c, c.now);
  }

  lemma {:induction false} InstantsGrow(c: Clock, es: seq<Event>)
    requires InPhase(c) && Legal(c, es)
    ensures forall i :: 0 <= i < |Instants(c, es)| ==> c.now <= Instants(c, es)[i]
    ensures forall i, j :: 0 <= i < j < |Instants(c, es)| ==> Instants(c, es)[i] <= Instants(c, es)[j]
    decreases |es|
  {
    hide InPhase, Possible, After;
    if es != [] {
      PhaseKept(c, es[0]);
      InstantsGrow(After(c, es[0]), es[1..]);
    }
  }

  /** In every run in which interrupts are serviced within a quarter of a second, every reading is the
      true time; so the readings never decrease. */
  lemma {:induction false} ReadingsTrue(c: Clock, es: seq<Event>)
    requires InPhase(c) && Legal(c, es)
    ensures Readings(c, es) == Instants(c, es)
    ensures forall i, j :: 0 <= i < j < |Readings(c, es)| ==> Readings(c, es)[i] <= Readings(c, es)[j]
    decreases |es|
  {
    hide InPhase, Possible, After, Reading;
    InstantsGrow(c, es);
    if es != [] {
      PhaseKept(c, es[0]);
      ReadingIsNow(c);
      ReadingsTrue(After(c, es[0]), es[1..]);
    }
  }

  // ---------------------------------------------------------------- setting the time

  /** Setting writes the seconds counter and the timer and clears a pending seconds interrupt; the
      half-second flag and a pending half-second interrupt stay as they are, and so does what the handler
      has already read. */
  function SetTime(c: Clock, sec: nat, nsec: nat): Clock
    requires nsec < SEC
  {
    c.(now := sec * SEC + nsec, rtc := sec, secondDue := false)
  }

  /** The time set is the time that the register shows. */
  lemma SetShows(sec: nat, nsec: nat)
    requires nsec < SEC
    ensures Second(sec * SEC + nsec) == sec && Nanos(sec * SEC + nsec) == nsec
  {
  }

  /** Reading back at once gives the time set exactly when the flag does not contradict it. */
  lemma ReadAfterSetIff(c: Clock, sec: nat, nsec: nat)
    requires nsec < SEC
    ensures var d := SetTime(c, sec, nsec);
            Nanos(d.now) == nsec &&
            (Corrected(d.rtc, d.half, Nanos(d.now)) == sec <==>
             !(nsec > 750_000_000 && !c.half) && !(nsec < 250_000_000 && c.half))
  {
    hide Second, Nanos;
    SetShows(sec, nsec);
  }

  /** The clock is in phase afterwards, and so right from then on, exactly when the flag already says
      what the new nanoseconds say, or the pending half-second interrupt will make it, and no handler
      that has read the seconds event waits for the lock. */
  lemma InPhaseAfterSetIff(c: Clock, sec: nat, nsec: nat)
    requires InPhase(c) && nsec < SEC
    ensures InPhase(SetTime(c, sec, nsec)) <==>
            !c.seen && if c.halfDue then HALF <= nsec < 750_000_000 else c.half == (nsec >= HALF)
  {
    SetShows(sec, nsec);
  }

  /** It goes wrong in phase: the handler has read the event when the time is set to 600 ms, agreeing with
      the flag; then it counts a second that the setter has already accounted for. */
  lemma HandlerAfterSet(c: Clock, sec: nat)
    requires InPhase(c) && c.seen
    ensures var d := SetTime(c, sec, 600_000_000); var e := SecondHandler(d);
            && d.half == LateHalf(d.now) && !d.halfDue
            && !InPhase(e) && Corrected(e.rtc, e.half, Nanos(e.now)) == Second(e.now) + 1
  {
    SetShows(sec, 600_000_000);
  }

  /** It goes wrong: set to a tenth of a second while the flag is up, the clock reads a second late. */
  lemma SetReadsLate(c: Clock, sec: nat)
    requires c.half
    ensures var d := SetTime(c, sec, 100_000_000); Corrected(d.rtc, d.half, Nanos(d.now)) == sec + 1
  {
  }

  /** The half seconds that the timer register passes are those of the true time. */
  lemma RegisterHalves(t: nat, dt: nat)
    ensures (Nanos(t) + dt) / HALF == (t + dt) / HALF - 2 * Second(t)
  {
    var q, v := Second(t), Nanos(t);
    assert t == 2 * q * HALF + v;
    var a, b := (v + dt) / HALF, (v + dt) % HALF;
    assert t + dt == (2 * q + a) * HALF + b;
  }

  lemma RegisterWraps(t: nat, dt: nat)
    ensures (Nanos(t) + dt) % SEC == Nanos(t + dt)
  {
    var q, v := Second(t), Nanos(t);
    var e, f := (v + dt) / SEC, (v + dt) % SEC;
    assert t + dt == (q + e) * SEC + f;
  }

  /** So the register alone tells which interrupt is due. */
  lemma TickByRegister(c: Clock, dt: nat)
    ensures var v := Nanos(c.now);
            && ((v + dt) / HALF == v / HALF ==> Tick(c, dt) == c.(now := c.now + dt))
            && ((v + dt) / HALF != v / HALF && (v + dt) / HALF % 2 == 0 ==>
                  Tick(c, dt) == c.(now := c.now + dt, secondDue := true))
            && ((v + dt) / HALF != v / HALF && (v + dt) / HALF % 2 == 1 ==>
                  Tick(c, dt) == c.(now := c.now + dt, halfDue := true))
  {
    RegisterHalves(c.now, 0);
    RegisterHalves(c.now, dt);
  }

  // ---------------------------------------------------------------- the driver's clock

  class Timer {
    ghost var now: nat
    ghost var seconds: int       // the seconds counter before wrapping to 32 bits
    var value: nat               // the timer register
    var rtc: nat
    var rtcHalf: bool
    var secondDue: bool
    var halfDue: bool
    var seen: bool

    ghost function View(): Clock
      reads this
    {
      Clock(now, seconds, rtcHalf, secondDue, halfDue, seen)
    }

    ghost predicate Valid()
      reads this
    {
      value == Nanos(now) && rtc == seconds % TWO32 && InPhase(View())
    }

    constructor ()
      ensures Valid() && now == 0
    {
      now, seconds, value, rtc, rtcHalf, secondDue, halfDue, seen := 0, 0, 0, 0, false, false, false, false;
    }

    /** The hardware runs for a while and may raise an interrupt. */
    method Pass(dt: nat)
      requires Valid() && MayTick(View(), dt)
      modifies this
      ensures Valid() && now == old(now) + dt
    {
      hide InPhase, MayTick, Tick, Nanos;
      TickKeeps(View(), dt);
      TickByRegister(View(), dt);
      RegisterWraps(now, dt);
      ghost var next := Tick(View(), dt);
      var total := value + dt;
      var crossed := value / HALF != total / HALF;
      if crossed {
        if total / HALF % 2 == 0 {
          secondDue := true;
        } else {
          halfDue := true;
        }
      }
      value := total % SEC;
      now := now + dt;
      assert View() == next;
    }

    /** The look at the event register at the beginning of mx6q_isr. */
    method ReadEvents()
      requires Valid()
      modifies `seen
      ensures Valid() && View() == if secondDue then SecondSeen(old(View())) else old(View())
    {
      HandlersKeep(View());
      if secondDue {
        seen := true;
      }
    }

    /** The TS_TIMER part of mx6q_isr, under the lock. */
    method SecondInterrupt()
      requires Valid() && seen
      modifies this
      ensures Valid() && now == old(now) && View() == SecondHandler(old(View()))
    {
      hide InPhase;
      HandlersKeep(View());
      seen := false;
      secondDue := false;
      rtcHalf := false;
      rtc := (rtc + 1) % TWO32;
      seconds := seconds + 1;
    }

    /** mx6q_1588_isr. */
    method HalfInterrupt()
      requires Valid() && halfDue
      modifies this
      ensures Valid() && now == old(now) && View() == HalfHandler(old(View()))
    {
      HandlersKeep(View());
      rtcHalf := true;
      halfDue := false;
    }

    /** The seconds recorded with a timestamp captured at the instant `at`. */
    method SecondsFor(nsec: nat, ghost at: nat) returns (sec: nat)
      requires Valid() && now - 250_000_000 < at <= now && nsec == Nanos(at)
      ensures sec == Second(at) % TWO32
    {
      RecentCaptureExact(View(), at);
      CorrectedWraps(seconds, rtcHalf, nsec);
      var s: int := rtc;
      if nsec > LATE && !rtcHalf {
        s := s - 1;
      } else if nsec < EARLY && rtcHalf {
        s := s + 1;
      }
      sec := s % TWO32;
    }

    /** mx6q_ptp_get_cnt: the true time, so two readings never go backwards. */
    method GetCount() returns (sec: nat, nsec: nat)
      requires Valid()
      ensures nsec == Nanos(now) && sec == Second(now) % TWO32
    {
      nsec := value;
      sec := SecondsFor(nsec, now);
    }

    /** mx6q_ptp_set_cnt. */
    method SetCount(sec: nat, nsec: nat)
      requires Valid() && sec < TWO32 && nsec < SEC
      modifies this
      ensures View() == SetTime(old(View()), sec, nsec)
      ensures Valid() <==> !seen && if halfDue then HALF <= nsec < LATE else rtcHalf == (nsec >= HALF)
    {
      InPhaseAfterSetIff(View(), sec, nsec);
      value := 0;
      secondDue := false;
      rtc := sec;
      value := nsec;
      now, seconds := sec * SEC + nsec, sec;
    }
  }
}
