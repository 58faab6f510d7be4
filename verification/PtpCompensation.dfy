/** Correcting the rate of the timestamp clock.

Each clock tick adds an increment to the timer; once in every so many ticks it adds a corrected
increment instead.  Asked to speed up or slow down by `comp` nanoseconds a second, the driver
searches for the pair that comes closest. */
module PtpCompensation {

  import opened Division
  import PtpClock

  const WORST: nat := 0xFFFF_FFFF

  /** How the driver sets up its clock: one of frequency and period is a second divided by the other. */
  predicate Config(freq: nat, period: nat)
  {
    freq > 0 && period > 0 && freq * period <= PtpClock.SEC
  }

  /** Too large a correction to try. */
  predicate Ignored(freq: nat, comp: nat)
    requires freq > 0
  {
    Floor(comp, freq) > Floor(freq, 2)
  }

  /** The correction would come to more than half as many nanoseconds a tick as there are ticks. */
  lemma IgnoredIff(freq: nat, comp: nat)
    requires freq > 0
    ensures Ignored(freq, comp) <==> comp >= freq * (freq / 2 + 1)
  {
    FloorAtLeast(comp, freq, Floor(freq, 2) + 1);
  }

  /** The increment to search from and the offset to search for. */
  function Increment(freq: nat, period: nat, comp: nat): nat
    requires freq > 0
  {
    period + Floor(comp, freq)
  }

  function Remaining(freq: nat, comp: nat): (r: nat)
    requires freq > 0
  {
    Multiply(1, freq, Floor(comp, freq));
    comp - Floor(comp, freq)
  }

  // ---------------------------------------------------------------- candidates

  /** Correcting by `i` nanoseconds at a time: how many ticks apart. */
  function Every(freq: nat, rem: nat, i: nat): nat
    requires rem > 0
  {
    Floor(freq * i, rem)
  }

  /** The offset per second that makes, rounded down, less the one asked for; 32 bits unsigned. */
  function Excess(freq: nat, rem: nat, comp: nat, i: nat): nat
    requires rem > 0 && Every(freq, rem, i) > 0
  {
    Wrap(Floor(freq * i, Every(freq, rem, i)) - comp)
  }

  /** The arithmetic stays in 32 bits and never divides by zero. */
  predicate InRange(freq: nat, rem: nat, inc: nat)
  {
    0 < rem <= freq && freq * inc < TWO32
  }

  /** `i` is a correction that the search looks at. */
  predicate Candidate(freq: nat, rem: nat, inc: nat, i: nat)
  {
    rem > 0 && 1 <= i <= inc && Every(freq, rem, i) > 0
  }

  lemma InRangeCandidate(freq: nat, rem: nat, inc: nat, i: nat)
    requires InRange(freq, rem, inc) && 1 <= i <= inc
    ensures freq <= freq * i < TWO32 && Candidate(freq, rem, inc, i)
  {
    hide Floor;
    Multiply(i, inc, freq);
    Multiply(1, i, freq);
    FloorAtLeast(freq * i, rem, 1);
  }

  /** The first candidate of least excess up to `upTo`. */
  ghost predicate Least(freq: nat, rem: nat, comp: nat, upTo: nat, i: nat)
  {
    && Candidate(freq, rem, upTo, i)
    && (forall j: nat :: Candidate(freq, rem, upTo, j) ==>
          && Excess(freq, rem, comp, i) <= Excess(freq, rem, comp, j)
          && (j < i ==> Excess(freq, rem, comp, i) < Excess(freq, rem, comp, j)))
  }

  /** Every candidate up to `upTo` is as bad as can be. */
  ghost predicate AllWorst(freq: nat, rem: nat, comp: nat, upTo: nat)
  {
    forall j: nat :: Candidate(freq, rem, upTo, j) ==> Excess(freq, rem, comp, j) == WORST
  }

  /** The outcome of the search. */
  ghost predicate Selected(freq: nat, rem: nat, comp: nat, inc: nat, i: nat, every: nat)
  {
    if every > 0 then
      Least(freq, rem, comp, inc, i) && every == Every(freq, rem, i) && Excess(freq, rem, comp, i) < WORST
    else
      i == inc && AllWorst(freq, rem, comp, inc)
  }

  // ---------------------------------------------------------------- corrections below the clock frequency

  /** No candidate falls short, so the subtraction does not wrap: the excess is what correction `i`
      gains, in whole nanoseconds per second, over what was asked for. */
  lemma NeverTooSmall(freq: nat, comp: nat, inc: nat, i: nat)
    requires 0 < comp && InRange(freq, comp, inc) && 1 <= i <= inc
    ensures Candidate(freq, comp, inc, i)
    ensures Excess(freq, comp, comp, i) == Floor(freq * i, Every(freq, comp, i)) - comp < WORST
  {
    hide Floor, Wrap;
    InRangeCandidate(freq, comp, inc, i);
    var n, p := freq * i, Every(freq, comp, i);
    FloorAtLeast(n, p, comp);
    Multiply(1, p, Floor(n, p));
  }

  lemma ExcessBounds(freq: nat, comp: nat, inc: nat, i: nat)
    requires 0 < comp && InRange(freq, comp, inc) && 1 <= i <= inc
    ensures Candidate(freq, comp, inc, i)
    ensures var p, e := Every(freq, comp, i), Excess(freq, comp, comp, i);
            (comp + e) * p <= freq * i < (comp + e + 1) * p
  {
    hide Floor, Wrap;
    NeverTooSmall(freq, comp, inc, i);
    var p, e := Every(freq, comp, i), Excess(freq, comp, comp, i);
    assert (comp + e + 1) * p == p * (comp + e) + p;
  }

  lemma SmallInRange(freq: nat, period: nat, comp: nat)
    requires Config(freq, period) && 0 < comp < freq
    ensures Remaining(freq, comp) == comp && Increment(freq, period, comp) == period
    ensures !Ignored(freq, comp) && InRange(freq, comp, period)
  {
    hide Floor;
    FloorIs(comp, freq, 0);
  }

  /** The chosen correction makes the clock gain (or lose) at least what was asked for in a second, and
      too much by less than the `every`-th part of it. */
  lemma GainsEnough(freq: nat, period: nat, comp: nat, i: nat, every: nat)
    requires Config(freq, period) && 0 < comp < freq
    requires Selected(freq, comp, comp, period, i, every)
    ensures 1 <= i <= period && every == Every(freq, comp, i) >= 1
    ensures comp * every <= freq * i < comp * (every + 1)
  {
    hide Floor, Wrap, Excess;
    SmallInRange(freq, period, comp);
    NeverTooSmall(freq, comp, period, 1);
    assert comp * (every + 1) == comp * every + comp;
  }

  /** No other correction of up to a whole increment comes nearer by a nanosecond a second: the rate
      `freq * j / Every(j)` exceeds the chosen rate less one. */
  lemma NoneNearer(freq: nat, period: nat, comp: nat, i: nat, every: nat, j: nat)
    requires Config(freq, period) && 0 < comp < freq
    requires Selected(freq, comp, comp, period, i, every) && 1 <= j <= period
    ensures Candidate(freq, comp, period, j)
    ensures freq * i * Every(freq, comp, j) < (freq * j + Every(freq, comp, j)) * every
  {
    hide Floor, Wrap, Excess, Every, Candidate;
    GainsEnough(freq, period, comp, i, every);
    SmallInRange(freq, period, comp);
    ExcessBounds(freq, comp, period, i);
    ExcessBounds(freq, comp, period, j);
    CrossMultiply(freq * i, freq * j, every, Every(freq, comp, j),
                  comp + Excess(freq, comp, comp, i), comp + Excess(freq, comp, comp, j));
  }

  lemma CrossMultiply(a: nat, b: nat, p: nat, q: nat, x: nat, y: nat)
    requires p > 0 && q > 0 && x <= y && a < (x + 1) * p && y * q <= b
    ensures a * q < (b + q) * p
  {
    Multiply(x, y, q);
    assert (x + 1) * q == x * q + q;
    Multiply((x + 1) * q, b + q, p);
    Multiply(a + 1, (x + 1) * p, q);
    assert (a + 1) * q == a * q + q;
    assert (x + 1) * p * q == (x + 1) * q * p;
  }

  // ---------------------------------------------------------------- larger corrections

  /** A correction of the clock frequency or more leaves more than a clock's worth to search for,
      except in two cases; otherwise the first division is by zero. */
  lemma LargeTrapsIff(freq: nat, comp: nat)
    requires freq >= 3 && comp >= freq
    ensures Remaining(freq, comp) > freq <==> comp >= freq + 2
    ensures comp < freq + 2 ==> Floor(comp, freq) == 1
  {
    hide Floor;
    var q := Floor(comp, freq);
    FloorAtLeast(comp, freq, 1);
    FloorAtLeast(comp, freq, 2);
    if q >= 2 {
      Multiply(2, q, freq - 1);
      assert (freq - 1) * q == freq * q - q;
    }
  }

  /** Which requests divide by zero, for every clock. */
  lemma TrapsIff(freq: nat, comp: nat)
    requires freq > 0
    ensures comp > 0 && !Ignored(freq, comp) && Remaining(freq, comp) > freq <==> comp >= freq + 2 && !Ignored(freq, comp)
  {
    hide Floor;
    FloorAtLeast(freq, 2, 1);
    FloorAtLeast(freq, 2, 2);
    FloorAtLeast(comp, freq, 1);
    FloorAtLeast(comp, freq, 2);
    if freq >= 3 && comp >= freq {
      LargeTrapsIff(freq, comp);
    }
  }

  /** It happens at the default clock. */
  lemma TrapHappens()
    ensures var freq, period, comp := 125_000_000, 8, 125_000_002;
            Config(freq, period) && !Ignored(freq, comp) && Remaining(freq, comp) > freq
  {
    hide Floor;
    FloorIs(125_000_002, 125_000_000, 1);
    FloorIs(125_000_000, 2, 62_500_000);
  }

  lemma NotTrapping(freq: nat, period: nat, comp: nat)
    requires Config(freq, period) && comp > 0 && !Ignored(freq, comp)
    requires Remaining(freq, comp) <= freq
    ensures InRange(freq, Remaining(freq, comp), Increment(freq, period, comp))
  {
    hide Floor;
    var q := Floor(comp, freq);
    AtMostOne(freq, comp);
    Multiply(1, period, freq);
    Multiply(q, 1, freq);
    assert freq * (period + q) == freq * period + freq * q;
  }

  lemma AtMostOne(freq: nat, comp: nat)
    requires freq > 0 && comp > 0 && !Ignored(freq, comp) && Remaining(freq, comp) <= freq
    ensures Floor(comp, freq) <= 1 && Floor(comp, freq) < comp
  {
    hide Floor;
    FloorAtLeast(freq, 2, 2);
    FloorAtLeast(freq, 2, 1);
    FloorAtLeast(comp, freq, 1);
    if comp >= freq && freq >= 3 {
      LargeTrapsIff(freq, comp);
    }
  }

  /** One more than the clock frequency, if accepted, selects a correction period of zero. */
  lemma OneOverSelectsNothing(freq: nat, period: nat, i: nat, every: nat)
    requires Config(freq, period) && !Ignored(freq, freq + 1)
    requires Selected(freq, Remaining(freq, freq + 1), freq + 1, Increment(freq, period, freq + 1), i, every)
    ensures Remaining(freq, freq + 1) <= freq
    ensures i == period + 1 && every == 0
  {
    hide Floor, Wrap, AllWorst;
    FloorAtLeast(freq, 2, 1);
    FloorAtLeast(freq + 1, freq, 1);
    FloorAtLeast(freq + 1, freq, 2);
    if every > 0 {
      FloorIs(freq * i, freq, i);
      FloorIs(freq * i, i, freq);
      WrapMinusOne();
    }
  }

  lemma WrapMinusOne()
    ensures Wrap(-1) == WORST
  {
  }

  // ---------------------------------------------------------------- the search, one candidate at a time

  /** What the search knows once it has looked at the candidates up to `seen`. */
  ghost predicate SoFar(freq: nat, rem: nat, comp: nat, inc: nat, seen: nat, best: nat, every: nat, least: nat)
  {
    0 < least &&
    if every > 0 then
      && Least(freq, rem, comp, seen, best) && every == Every(freq, rem, best)
      && least == Excess(freq, rem, comp, best) < WORST
    else
      best == inc && least == WORST && AllWorst(freq, rem, comp, seen)
  }

  lemma OneMore(freq: nat, rem: nat, inc: nat, i: nat, j: nat)
    requires InRange(freq, rem, inc) && 1 <= i <= inc
    ensures Candidate(freq, rem, i, j) <==> j == i || Candidate(freq, rem, i - 1, j)
  {
    InRangeCandidate(freq, rem, inc, i);
  }

  /** The next candidate does not beat the best one. */
  lemma NotBetter(freq: nat, rem: nat, comp: nat, inc: nat, i: nat, best: nat, every: nat, least: nat)
    requires InRange(freq, rem, inc) && 1 <= i <= inc
    requires SoFar(freq, rem, comp, inc, i - 1, best, every, least)
    requires Candidate(freq, rem, inc, i) && Excess(freq, rem, comp, i) >= least
    ensures SoFar(freq, rem, comp, inc, i, best, every, least)
  {
    hide Floor, Wrap, Every, InRange;
    forall j: nat ensures Candidate(freq, rem, i, j) <==> j == i || Candidate(freq, rem, i - 1, j) {
      OneMore(freq, rem, inc, i, j);
    }
    WrapsBelow(freq, rem, comp, i);
  }

  lemma WrapsBelow(freq: nat, rem: nat, comp: nat, i: nat)
    requires rem > 0 && Every(freq, rem, i) > 0
    ensures Excess(freq, rem, comp, i) <= WORST
  {
  }

  /** The next candidate beats the best one. */
  lemma Better(freq: nat, rem: nat, comp: nat, inc: nat, i: nat, best: nat, every: nat, least: nat)
    requires InRange(freq, rem, inc) && 1 <= i <= inc
    requires SoFar(freq, rem, comp, inc, i - 1, best, every, least)
    requires Candidate(freq, rem, inc, i) && Excess(freq, rem, comp, i) < least
    ensures Least(freq, rem, comp, i, i) && Excess(freq, rem, comp, i) < WORST
    ensures SoFar(freq, rem, comp, inc, i, i, Every(freq, rem, i), Excess(freq, rem, comp, i)) ||
            Excess(freq, rem, comp, i) == 0
  {
    hide Floor, Wrap, Every, InRange;
    forall j: nat ensures Candidate(freq, rem, i, j) <==> j == i || Candidate(freq, rem, i - 1, j) {
      OneMore(freq, rem, inc, i, j);
    }
    if every > 0 {
      WrapsBelow(freq, rem, comp, best);
    }
  }

  /** An exact match is not beaten by any later candidate. */
  lemma Exact(freq: nat, rem: nat, comp: nat, inc: nat, i: nat)
    requires InRange(freq, rem, inc) && 1 <= i <= inc
    requires Least(freq, rem, comp, i, i) && Excess(freq, rem, comp, i) == 0
    ensures Least(freq, rem, comp, inc, i)
  {
    hide Floor, Wrap, Every, Excess;
    forall j: nat | Candidate(freq, rem, inc, j) && j < i ensures Candidate(freq, rem, i, j) {
    }
  }

  lemma NoneYet(freq: nat, rem: nat, comp: nat, inc: nat)
    ensures SoFar(freq, rem, comp, inc, 0, inc, 0, WORST)
  {
  }

  lemma Finished(freq: nat, rem: nat, comp: nat, inc: nat, best: nat, every: nat, least: nat)
    requires SoFar(freq, rem, comp, inc, inc, best, every, least)
    ensures best <= inc && Selected(freq, rem, comp, inc, best, every)
  {
  }

  lemma Chosen(freq: nat, rem: nat, comp: nat, inc: nat, i: nat)
    requires Least(freq, rem, comp, inc, i) && Excess(freq, rem, comp, i) < WORST
    ensures i <= inc && Selected(freq, rem, comp, inc, i, Every(freq, rem, i))
  {
  }

  /** What the 32 bit arithmetic computes. */
  lemma Computed(freq: nat, rem: nat, comp: nat, inc: nat, i: nat)
    requires InRange(freq, rem, inc) && 1 <= i <= inc
    ensures rem > 0 && Every(freq, rem, i) > 0
    ensures Floor(Wrap(freq * i), rem) == Every(freq, rem, i)
    ensures Wrap(Floor(Wrap(freq * i), Every(freq, rem, i)) - comp) == Excess(freq, rem, comp, i)
  {
    hide Floor, Wrap;
    InRangeCandidate(freq, rem, inc, i);
  }

  lemma SomethingRemains(freq: nat, comp: nat)
    requires freq > 0 && comp > 0 && !Ignored(freq, comp)
    ensures Remaining(freq, comp) > 0
  {
    hide Floor;
    FloorAtLeast(freq, 2, 1);
    Multiply(2, freq, Floor(comp, freq));
  }

  // ---------------------------------------------------------------- the driver

  class Clock {
    const freq: nat
    const period: nat
    var increment: nat     // the increment field of MX6Q_TIMER_INCR
    var corrected: nat     // its correction increment field
    var every: nat         // MX6Q_TIMER_CORR

    constructor (freq: nat, period: nat)
      requires Config(freq, period)
      ensures this.freq == freq && this.period == period
      ensures increment == period && corrected == 0 && every == 0
    {
      this.freq, this.period := freq, period;
      increment, corrected, every := period, 0, 0;
    }

    /** mx6q_ptp_set_compensation.  `trapped` stands for a division by zero. */
    method SetCompensation(comp: nat, positive: bool) returns (trapped: bool)
      requires Config(freq, period) && comp < TWO32
      modifies this
      ensures trapped <==> comp > 0 && !Ignored(freq, comp) && Remaining(freq, comp) > freq
      ensures trapped || (comp > 0 && Ignored(freq, comp)) ==> unchanged(this)
      ensures comp == 0 ==> increment == period && corrected == 0 && every == 0
      ensures !trapped && comp > 0 && !Ignored(freq, comp) ==>
                && InRange(freq, Remaining(freq, comp), Increment(freq, period, comp))
                && increment == Increment(freq, period, comp)
                && exists i: nat :: i <= increment &&
                     Selected(freq, Remaining(freq, comp), comp, increment, i, every) &&
                     corrected == if positive then increment + i else increment - i
    {
      trapped := false;
      if comp == 0 {
        every, increment, corrected := 0, period, 0;
        return;
      }
      if Floor(comp, freq) > Floor(freq, 2) {
        return;
      }
      trapped := Correct(comp, positive);
    }

    method Correct(comp: nat, positive: bool) returns (trapped: bool)
      requires Config(freq, period) && 0 < comp < TWO32 && !Ignored(freq, comp)
      modifies this
      ensures trapped <==> Remaining(freq, comp) > freq
      ensures trapped ==> unchanged(this)
      ensures !trapped ==>
                && InRange(freq, Remaining(freq, comp), Increment(freq, period, comp))
                && increment == Increment(freq, period, comp)
                && exists i: nat :: i <= increment &&
                     Selected(freq, Remaining(freq, comp), comp, increment, i, every) &&
                     corrected == if positive then increment + i else increment - i
    {
      hide Ignored, Selected, InRange, Floor;
      var inc := period;
      if comp >= freq {
        inc := inc + Floor(comp, freq);
      } else {
        FloorIs(comp, freq, 0);
      }
      assert inc == Increment(freq, period, comp);
      hide Increment;
      var rem := comp - Floor(comp, freq);
      assert rem == Remaining(freq, comp);
      hide Remaining;
      SomethingRemains(freq, comp);
      FloorAtLeast(freq, rem, 1);
      if Floor(freq, rem) == 0 {
        return true;
      }
      NotTrapping(freq, period, comp);
      var i, p := Search(comp, rem, inc);
      increment, every := inc, p;
      corrected := if positive then inc + i else inc - i;
      trapped := false;
      assert i <= increment && Selected(freq, Remaining(freq, comp), comp, increment, i, every);
    }

    /** The search loop, once its first division is known to be safe. */
    method Search(comp: nat, rem: nat, inc: nat) returns (best: nat, every: nat)
      requires InRange(freq, rem, inc) && comp < TWO32
      ensures best <= inc && Selected(freq, rem, comp, inc, best, every)
    {
      hide *;
      var least := WORST;
      best, every := inc, 0;
      var i := 1;
      NoneYet(freq, rem, comp, inc);
      while i <= inc
        invariant 1 <= i <= inc + 1
        invariant least > 0 && SoFar(freq, rem, comp, inc, i - 1, best, every, least)
      {
        InRangeCandidate(freq, rem, inc, i);
        Computed(freq, rem, comp, inc, i);
        var p := Floor(Wrap(freq * i), rem);
        var e := Wrap(Floor(Wrap(freq * i), p) - comp);
        if e == 0 {
          Better(freq, rem, comp, inc, i, best, every, least);
          Exact(freq, rem, comp, inc, i);
          Chosen(freq, rem, comp, inc, i);
          return i, p;
        } else if e < least {
          Better(freq, rem, comp, inc, i, best, every, least);
          best, every, least := i, p, e;
        } else {
          NotBetter(freq, rem, comp, inc, i, best, every, least);
        }
        i := i + 1;
      }
      Finished(freq, rem, comp, inc, best, every, least);
    }
  }
}
