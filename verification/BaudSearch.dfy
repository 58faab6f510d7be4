/** Choosing the UART's reference divider and baud rate numerator.

The rate is (clk / rfdiv) * bir / (16 * 10000), with a divider of 1 to 7 and a numerator that should
not exceed 10000.  The driver tries the dividers from the largest down and keeps the one whose
estimated rate is nearest to the rate asked for. */
module BaudSearch {
  import opened Division

  const MIN_DIV: nat := 1
  const MAX_DIV: nat := 7
  const UBMR: nat := 10000           // the denominator, UBMR + 1
  const GIGA: nat := 1_000_000_000
  const WORST: nat := 0xFFFF_FFFF

  /** Clock and rate keep the 32 bit sums in range. */
  predicate Sane(clk: nat, baud: nat)
  {
    0 < clk && clk + UBMR < TWO32 && 0 < baud && 16 * baud < 0x8000_0000
  }

  // ---------------------------------------------------------------- one divider

  function Reference(clk: nat, i: nat): nat
    requires i > 0
  {
    Floor(clk, i)
  }

  /** A ten thousandth of the reference clock, rounded up. */
  function Chunk(ref: nat): (c: nat)
    requires ref > 0
    ensures c > 0 && UBMR * (c - 1) < ref <= UBMR * c
  {
    Ceiling(ref, UBMR)
  }

  /** The numerator for a reference clock. */
  function Numerator(ref: nat, baud: nat): (bir: nat)
    requires ref > 0
    ensures 16 * baud <= Chunk(ref) * bir < 16 * baud + Chunk(ref)
  {
    Ceiling(16 * baud, Chunk(ref))
  }

  /** The divisor of the estimate, computed in 32 bits. */
  function Divisor(bir: nat): nat
    requires bir > 0
  {
    Wrap(16 * Ceiling(GIGA, bir))
  }

  /** The wrap-around happens exactly for the numerators 1, 2 and 3. */
  lemma DivisorWrapsIff(bir: nat)
    requires bir > 0
    ensures Divisor(bir) == 16 * Ceiling(GIGA, bir) <==> bir > 3
    ensures Divisor(bir) >= 16
    ensures bir <= UBMR ==> Divisor(bir) >= 1_600_000
  {
    hide Ceiling;
    var k := Ceiling(GIGA, bir);
    CeilingAtMost(GIGA, bir, 0x0FFF_FFFF);
    CeilingAtMost(GIGA, bir, 0);
    CeilingAtMost(GIGA, bir, 99_999);
    if bir <= 3 {
      CeilingValues();
    }
  }

  lemma CeilingValues()
    ensures Ceiling(GIGA, 1) == 1_000_000_000 && Divisor(1) == 3115098112
    ensures Ceiling(GIGA, 2) == 500_000_000 && Divisor(2) == 3705032704
    ensures Ceiling(GIGA, 3) == 333_333_334 && Divisor(3) == 1038366048
  {
  }

  lemma NumeratorPositive(ref: nat, baud: nat)
    requires ref > 0 && baud > 0
    ensures Numerator(ref, baud) > 0
  {
    hide Ceiling, Chunk;
    CeilingAtMost(16 * baud, Chunk(ref), 0);
  }

  /** The rate that the driver expects of a reference clock. */
  function Estimate(ref: nat, baud: nat): nat
    requires ref > 0 && baud > 0
  {
    NumeratorPositive(ref, baud);
    DivisorWrapsIff(Numerator(ref, baud));
    Ceiling(ref * 100_000, Divisor(Numerator(ref, baud)))
  }

  function Difference(a: nat, b: nat): nat { if a > b then a - b else b - a }

  /** The error that the driver expects of divider `i`. */
  function Miss(clk: nat, baud: nat, i: nat): nat
    requires 0 < i <= clk && baud > 0
  {
    FloorAtLeast(clk, i, 1);
    Difference(Estimate(Reference(clk, i), baud), baud)
  }

  // ---------------------------------------------------------------- how near the rate is

  /** The rate, 16 * 10000 times over. */
  function Rate(ref: nat, bir: nat): nat { ref * bir }

  /** The numerator is in range exactly when the clock reaches sixteen times the rate, rounded up to a
      multiple of 10000. */
  lemma NumeratorFitsIff(ref: nat, baud: nat)
    requires ref > 0 && baud > 0
    ensures 1 <= Numerator(ref, baud)
    ensures Numerator(ref, baud) <= UBMR <==> 16 * baud <= UBMR * Chunk(ref)
  {
    hide Ceiling, Chunk;
    NumeratorPositive(ref, baud);
    CeilingAtMost(16 * baud, Chunk(ref), UBMR);
  }

  /** With c = ceil(ref / 10000), the rate lies above baud - baud / c and below baud + c / 16. */
  lemma RateBounds(ref: nat, baud: nat)
    requires ref > 0 && baud > 0
    ensures var c, rate := Chunk(ref), Rate(ref, Numerator(ref, baud));
            && 160_000 * (c - 1) * baud < c * rate
            && 16 * rate < 160_000 * (16 * baud + c)
  {
    hide Ceiling, Chunk;
    var c, bir := Chunk(ref), Numerator(ref, baud);
    LowerBound(ref, baud, c, bir);
    UpperBound(ref, baud, c, bir);
  }

  lemma LowerBound(ref: nat, baud: nat, c: nat, bir: nat)
    requires c > 0 && baud > 0 && UBMR * (c - 1) < ref && 16 * baud <= c * bir
    ensures 160_000 * (c - 1) * baud < c * (ref * bir)
  {
    Multiply(16 * baud, c * bir, ref);
    assert c * bir * ref == c * (ref * bir);
    Multiply(UBMR * (c - 1) + 1, ref, baud);
    assert (UBMR * (c - 1) + 1) * baud == UBMR * ((c - 1) * baud) + baud;
    assert 160_000 * (c - 1) * baud == 160_000 * ((c - 1) * baud);
    assert 16 * baud * ref == 16 * (ref * baud);
  }

  lemma UpperBound(ref: nat, baud: nat, c: nat, bir: nat)
    requires ref <= UBMR * c && c * bir < 16 * baud + c
    ensures 16 * (ref * bir) < 160_000 * (16 * baud + c)
  {
    Multiply(ref, UBMR * c, bir);
    assert UBMR * c * bir == UBMR * (c * bir);
  }

  /** Unless the divisor wraps around, the estimate is the rate rounded up, less a hundred-thousandth. */
  lemma EstimateBounds(ref: nat, baud: nat)
    requires ref > 0 && baud > 0 && Numerator(ref, baud) > 3
    ensures var e, bir := Estimate(ref, baud), Numerator(ref, baud);
            && 160_000 * e < Rate(ref, bir) + 160_000
            && 100_000 * Rate(ref, bir) < 16 * e * (GIGA + bir)
  {
    hide Ceiling, Chunk, Wrap;
    var e, bir := Estimate(ref, baud), Numerator(ref, baud);
    var k := Ceiling(GIGA, bir);
    DivisorWrapsIff(bir);
    CeilingAtMost(GIGA, bir, 0);
    EstimateAbove(ref, e, bir, k);
    EstimateBelow(ref, e, bir, k);
  }

  lemma EstimateAbove(ref: nat, e: nat, bir: nat, k: nat)
    requires k > 0 && GIGA <= bir * k && 16 * k * e < ref * 100_000 + 16 * k
    ensures 160_000 * e < ref * bir + 160_000
  {
    if e > 0 {
      // 16 k (e - 1) < 100000 ref; times bir
      var f := e - 1;
      assert 16 * k * e == 16 * k * f + 16 * k;
      Multiply(GIGA, bir * k, f);
      assert bir * k * f == bir * (k * f);
      assert 16 * k * f == 16 * (k * f);
      if bir > 0 {
        Multiply(16 * (k * f) + 1, ref * 100_000, bir);
        assert (16 * (k * f) + 1) * bir == 16 * (bir * (k * f)) + bir;
        assert ref * 100_000 * bir == 100_000 * (ref * bir);
      }
    }
  }

  lemma EstimateBelow(ref: nat, e: nat, bir: nat, k: nat)
    requires ref > 0 && bir > 0 && bir * k < GIGA + bir && ref * 100_000 <= 16 * k * e
    ensures 100_000 * (ref * bir) < 16 * e * (GIGA + bir)
  {
    Multiply(ref * 100_000, 16 * k * e, bir);
    assert ref * 100_000 * bir == 100_000 * (ref * bir);
    assert 16 * k * e * bir == 16 * ((bir * k) * e);
    assert e > 0;
    Multiply(bir * k + 1, GIGA + bir, e);
    assert (bir * k + 1) * e == (bir * k) * e + e;
    assert 16 * e * (GIGA + bir) == 16 * ((GIGA + bir) * e);
  }

  // ---------------------------------------------------------------- the search

  /** The largest divider tried. */
  function Largest(clk: nat, baud: nat): (d: nat)
    requires baud > 0
    ensures MIN_DIV <= d <= MAX_DIV
  {
    var d := Floor(clk, 16 * baud);
    if d > MAX_DIV then MAX_DIV else if d < MIN_DIV then MIN_DIV else d
  }

  /** It is the largest up to 7 whose reference clock is at least sixteen times the rate, and 1 if there
      is none. */
  lemma LargestIs(clk: nat, baud: nat)
    requires baud > 0
    ensures var d := Largest(clk, baud);
            && 1 <= d <= 7
            && (if clk >= 16 * baud then 16 * baud * d <= clk else d == 1)
            && (forall j: nat :: d < j <= 7 ==> 16 * baud * j > clk)
  {
    hide Floor;
    var q, d := Floor(clk, 16 * baud), Largest(clk, baud);
    FloorAtLeast(clk, 16 * baud, d);
    FloorAtLeast(clk, 16 * baud, 1);
    forall j: nat | d < j <= 7 ensures 16 * baud * j > clk {
      FloorAtLeast(clk, 16 * baud, j);
      assert 16 * baud * j == j * (16 * baud);
    }
    assert 16 * baud * d == d * (16 * baud);
  }

  lemma DividerFits(clk: nat, baud: nat, i: nat)
    requires clk > 0 && baud > 0 && 1 <= i <= Largest(clk, baud)
    ensures 0 < i <= clk && Reference(clk, i) > 0
    ensures clk >= 16 * baud ==> Reference(clk, i) >= 16 * baud
  {
    hide Floor;
    var d := Floor(clk, 16 * baud);
    FloorAtLeast(clk, i, 1);
    if d >= 1 {
      Multiply(i, d, 16 * baud);
      FloorAtLeast(clk, i, 16 * baud);
      assert 16 * baud * i == i * (16 * baud);
    }
    FloorAtLeast(clk, 16 * baud, 1);
  }

  /** Every divider tried gets a numerator in range, if the clock is at least sixteen times the rate. */
  lemma NumeratorsFit(clk: nat, baud: nat, i: nat)
    requires baud > 0 && clk >= 16 * baud && 1 <= i <= Largest(clk, baud)
    ensures Reference(clk, i) > 0
    ensures 1 <= Numerator(Reference(clk, i), baud) <= UBMR
  {
    hide Floor, Ceiling, Numerator, Chunk, Largest;
    DividerFits(clk, baud, i);
    NumeratorFitsIff(Reference(clk, i), baud);
  }

  /** Of the dividers from `from` to `to` none has a smaller error than `best`, and no larger one has as
      small an error. */
  ghost predicate BestOf(clk: nat, baud: nat, from: nat, to: nat, best: nat)
    requires baud > 0 && 0 < from && to <= clk
  {
    && from <= best <= to
    && (forall j: nat :: from <= j <= to ==>
          && Miss(clk, baud, best) <= Miss(clk, baud, j)
          && (j > best ==> Miss(clk, baud, best) < Miss(clk, baud, j)))
  }

  /** The errors fit 32 bits, below the value the search starts from. */
  lemma MissFits(clk: nat, baud: nat, i: nat)
    requires Sane(clk, baud) && 0 < i <= clk
    ensures Miss(clk, baud, i) < WORST
  {
    hide Floor, Ceiling, Wrap, Divisor, Chunk;
    FloorAtLeast(clk, i, 1);
    var ref := Reference(clk, i);
    Multiply(1, i, ref);
    EstimateFits(ref, baud);
  }

  lemma EstimateFits(ref: nat, baud: nat)
    requires 0 < ref < TWO32 && 0 < baud && 16 * baud < 0x8000_0000
    ensures Estimate(ref, baud) < WORST
  {
    hide Floor, Ceiling, Wrap, Divisor, Chunk;
    var bir, e := Numerator(ref, baud), Estimate(ref, baud);
    NumeratorPositive(ref, baud);
    DivisorWrapsIff(bir);
    if bir > 3 {
      RateBounds(ref, baud);
      EstimateBounds(ref, baud);
      ChunkBound(ref);
    } else {
      var d := Divisor(bir);
      CeilingAtMost(ref * 100_000, d, 1_000_000_000);
      Multiply(1_600_000, d, 1_000_000_000);
    }
  }

  lemma ChunkBound(ref: nat)
    requires 0 < ref < TWO32
    ensures Chunk(ref) <= 429_497
  {
  }

  lemma BestStep(clk: nat, baud: nat, to: nat, best: nat, i: nat)
    requires baud > 0 && 0 < i < to <= clk && BestOf(clk, baud, i + 1, to, best)
    ensures if Miss(clk, baud, i) < Miss(clk, baud, best) then BestOf(clk, baud, i, to, i)
            else BestOf(clk, baud, i, to, best)
  {
    hide Miss;
  }

  lemma ExactIsBest(clk: nat, baud: nat, to: nat, i: nat)
    requires baud > 0 && 0 < i <= to <= clk && BestOf(clk, baud, i, to, i) && Miss(clk, baud, i) == 0
    ensures BestOf(clk, baud, 1, to, i)
  {
    hide Miss;
  }

  /** What the search has found once it has tried the dividers from `from` up. */
  ghost predicate Found(clk: nat, baud: nat, from: nat, to: nat, rfdiv: nat, bir: nat, least: nat)
    requires baud > 0 && 0 < from && to <= clk
  {
    && BestOf(clk, baud, from, to, rfdiv)
    && least == Miss(clk, baud, rfdiv)
    && Reference(clk, rfdiv) > 0 && bir == Numerator(Reference(clk, rfdiv), baud)
  }

  /** One pass of the loop: the numerator and the estimate, in 32 bit (the product in 64 bit) steps. */
  method Try(clk: nat, baud: nat, i: nat) returns (bir: nat, estimate: nat)
    requires Sane(clk, baud) && 0 < i <= clk
    ensures Reference(clk, i) > 0 && bir == Numerator(Reference(clk, i), baud)
    ensures estimate == Estimate(Reference(clk, i), baud)
  {
    hide Floor, Ceiling, Wrap;
    FloorAtLeast(clk, i, 1);
    var ref := Floor(clk, i);
    var c := Ceiling(ref, UBMR);
    bir := Ceiling(baud * 16, c);
    assert c == Chunk(ref) && bir == Numerator(ref, baud);
    NumeratorPositive(ref, baud);
    DivisorWrapsIff(bir);
    estimate := Ceiling(ref * 100_000, Wrap(16 * Ceiling(10_000 * 100_000, bir)));
  }

  /** The divisor search of ser_stty. */
  method Search(clk: nat, baud: nat) returns (rfdiv: nat, bir: nat)
    requires Sane(clk, baud)
    ensures 1 <= rfdiv <= Largest(clk, baud) <= clk && Reference(clk, rfdiv) > 0
    ensures bir == Numerator(Reference(clk, rfdiv), baud)
    ensures BestOf(clk, baud, 1, Largest(clk, baud), rfdiv)
  {
    hide Floor, Ceiling, Wrap, Divisor, Chunk, Numerator, Estimate, Reference;
    rfdiv := Floor(clk, 16 * baud);
    if rfdiv > MAX_DIV {
      rfdiv := MAX_DIV;
    }
    if rfdiv < MIN_DIV {
      rfdiv := MIN_DIV;
    }
    ghost var top := Largest(clk, baud);
    assert rfdiv == top;
    hide Largest;
    DividerFits(clk, baud, top);
    var least := WORST;
    bir := 0;
    var i := rfdiv;
    while i >= MIN_DIV
      invariant 0 <= i <= top <= clk && least > 0
      invariant i == top ==> least == WORST
      invariant i < top ==> Found(clk, baud, i + 1, top, rfdiv, bir, least)
      decreases i
    {
      MissFits(clk, baud, i);
      if i < top {
        BestStep(clk, baud, top, rfdiv, i);
      }
      var b, estimate := Try(clk, baud, i);
      var miss := if estimate > baud then estimate - baud else baud - estimate;
      assert miss == Miss(clk, baud, i);
      if miss < least {
        least, bir, rfdiv := miss, b, i;
      }
      if estimate == baud {
        ExactIsBest(clk, baud, top, i);
        break;
      }
      i := i - 1;
    }
  }

  // ---------------------------------------------------------------- how near the choice is

  /** How far the rate is off, 16 * 10000 times over. */
  function Off(ref: nat, baud: nat): nat
    requires ref > 0
  {
    Difference(Rate(ref, Numerator(ref, baud)), 160_000 * baud)
  }

  lemma OffNearMiss(ref: nat, baud: nat)
    requires ref > 0 && baud > 0 && 3 < Numerator(ref, baud) <= UBMR
    ensures var e := Estimate(ref, baud); var miss := 160_000 * Difference(e, baud);
            Difference(Off(ref, baud), miss) <= 160_000 + 2 * e
  {
    hide Ceiling, Chunk, Divisor, Numerator, Estimate;
    var e, bir := Estimate(ref, baud), Numerator(ref, baud);
    EstimateBounds(ref, baud);
    Multiply(bir, UBMR, e);
    assert 16 * e * (GIGA + bir) == 16 * (e * GIGA) + 16 * (e * bir);
  }

  /** A slower reference clock has the larger numerator. */
  lemma NumeratorGrows(clk: nat, ref: nat, baud: nat)
    requires 0 < ref <= clk
    ensures Chunk(ref) <= Chunk(clk)
    ensures Numerator(ref, baud) <= 3 ==> 16 * baud <= 3 * Chunk(clk)
  {
    hide Numerator, Chunk;
    var c := Chunk(ref);
    if Numerator(ref, baud) <= 3 {
      Multiply(Numerator(ref, baud), 3, c);
    }
  }

  /** Divider `i` gets a numerator whose estimate does not wrap around. */
  predicate Unwrapped(clk: nat, baud: nat, i: nat)
  {
    0 < i <= clk && Reference(clk, i) > 0 && Numerator(Reference(clk, i), baud) > 3
  }

  /** None of the estimates wraps around exactly when sixteen times the rate exceeds three times the
      ten thousandth of the module clock: a test that can be made before the search. */
  lemma NoWrapIff(clk: nat, baud: nat)
    requires clk > 0 && baud > 0
    ensures (forall i: nat :: 1 <= i <= Largest(clk, baud) ==> Unwrapped(clk, baud, i)) <==> 16 * baud > 3 * Chunk(clk)
  {
    hide Numerator, Chunk, Largest, Floor;
    FloorIs(clk, 1, clk);
    SmallNumerator(clk, baud);
    if 16 * baud > 3 * Chunk(clk) {
      forall i: nat | 1 <= i <= Largest(clk, baud) ensures Unwrapped(clk, baud, i) {
        DividerFits(clk, baud, i);
        Multiply(1, i, Reference(clk, i));
        NumeratorGrows(clk, Reference(clk, i), baud);
      }
    } else {
      assert Reference(clk, 1) == clk;
      assert !Unwrapped(clk, baud, 1);
    }
  }

  lemma SmallNumerator(ref: nat, baud: nat)
    requires ref > 0
    ensures Numerator(ref, baud) <= 3 <==> 16 * baud <= 3 * Chunk(ref)
  {
    hide Ceiling, Chunk;
    CeilingAtMost(16 * baud, Chunk(ref), 3);
  }

  /** As long as no estimate wraps around, no divider gives a rate nearer to the one asked for than the
      chosen one by more than the rounding of the two estimates. */
  lemma NearlyNearest(clk: nat, baud: nat, rfdiv: nat, j: nat)
    requires Sane(clk, baud) && clk >= 16 * baud && 16 * baud > 3 * Chunk(clk)
    requires Largest(clk, baud) <= clk && BestOf(clk, baud, 1, Largest(clk, baud), rfdiv) && 1 <= j <= Largest(clk, baud)
    ensures Reference(clk, rfdiv) > 0 && Reference(clk, j) > 0
    ensures var a, b := Reference(clk, rfdiv), Reference(clk, j);
            Off(a, baud) <= Off(b, baud) + 320_000 + 2 * Estimate(a, baud) + 2 * Estimate(b, baud)
  {
    hide Reference, Numerator, Estimate, Off, Largest, Chunk;
    NoWrapIff(clk, baud);
    assert Unwrapped(clk, baud, rfdiv) && Unwrapped(clk, baud, j);
    NumeratorsFit(clk, baud, rfdiv);
    NumeratorsFit(clk, baud, j);
    OffNearMiss(Reference(clk, rfdiv), baud);
    OffNearMiss(Reference(clk, j), baud);
    assert Miss(clk, baud, rfdiv) <= Miss(clk, baud, j);
  }

  // ---------------------------------------------------------------- slow rates

  /** At 96 MHz, the default clock, and 300 baud the divider 6 gives the rate exactly; the wrap-around
      makes the search miss it and settle for divider 7, at 343 baud. */
  lemma SlowRateMissed()
    ensures var clk, baud := 96_000_000, 300;
            && Sane(clk, baud) && 16 * baud <= 3 * Chunk(clk)
            && Rate(Reference(clk, 6), Numerator(Reference(clk, 6), baud)) == 160_000 * baud
            && BestOf(clk, baud, 1, Largest(clk, baud), 7)
            && Rate(Reference(clk, 7), Numerator(Reference(clk, 7), baud)) > 160_000 * 342
  {
    hide Floor, Ceiling, Wrap, Divisor, Chunk, Numerator, Estimate, Reference, Miss;
    CeilingValues();
    FourDivides();
    SlowTry(7, 13_714_285, 1372, 4, 4_000_000_000, 343);
    SlowTry(6, 16_000_000, 1600, 3, 1_038_366_048, 1541);
    SlowTry(5, 19_200_000, 1920, 3, 1_038_366_048, 1850);
    SlowTry(4, 24_000_000, 2400, 2, 3_705_032_704, 648);
    SlowTry(3, 32_000_000, 3200, 2, 3_705_032_704, 864);
    SlowTry(2, 48_000_000, 4800, 1, 3_115_098_112, 1541);
    SlowTry(1, 96_000_000, 9600, 1, 3_115_098_112, 3082);
    FloorAtLeast(96_000_000, 16 * 300, 7);
  }

  lemma FourDivides()
    ensures Divisor(4) == 4_000_000_000
  {
  }

  /** What the search computes for one divider. */
  lemma SlowTry(i: nat, ref: nat, c: nat, bir: nat, d: nat, estimate: nat)
    requires 0 < i <= 7 && ref > 0 && c > 0 && bir > 0 && d > 0
    requires i * ref <= 96_000_000 < i * ref + i
    requires ref <= UBMR * c < ref + UBMR
    requires 4800 <= c * bir < 4800 + c
    requires d == Divisor(bir)
    requires ref * 100_000 <= d * estimate < ref * 100_000 + d
    ensures Reference(96_000_000, i) == ref && Numerator(ref, 300) == bir
    ensures Miss(96_000_000, 300, i) == Difference(estimate, 300)
  {
    hide Floor, Ceiling, Wrap, Divisor;
    FloorIs(96_000_000, i, ref);
    CeilingIs(ref, UBMR, c);
    CeilingIs(16 * 300, c, bir);
    CeilingIs(ref * 100_000, d, estimate);
  }

  // ---------------------------------------------------------------- the register

  /** The divider field of UFCR as the driver encodes it, and what the field means. */
  function EncodeDivider(i: nat): nat { if i < 7 then 6 - i else 6 }
  function DecodeDivider(field: nat): nat { if field < 6 then 6 - field else 7 }

  lemma DividerRoundTrip(i: nat)
    requires MIN_DIV <= i <= MAX_DIV
    ensures EncodeDivider(i) < 8 && DecodeDivider(EncodeDivider(i)) == i
  {
  }
}
