/** Credit based shaping of the two AVB transmit queues.

A queue that is to get `q` of a port's `port` Mbps needs the idle slope 512 * q / (port - q); the
hardware takes powers of two up to 128 and multiples of 128. */
module AvbShaper {
  import opened Division

  const WIDE_OPEN: nat := 1536

  predicate Legal(slope: nat)
  {
    slope > 0 && (slope % 128 == 0 || slope in {1, 2, 4, 8, 16, 32, 64})
  }

  /** `r` is the least legal slope that is not below `value`. */
  ghost predicate LeastLegal(r: nat, value: nat)
  {
    Legal(r) && r >= value && forall w: nat :: Legal(w) && w >= value ==> r <= w
  }

  /** valid_idleslope. */
  method ValidIdleSlope(value: nat) returns (r: nat)
    requires value + 127 < TWO32
    ensures LeastLegal(r, value)
  {
    r := value;
    if value < 128 {
      var tmp := 128;
      while tmp != 0
        invariant tmp in {128, 64, 32, 16, 8, 4, 2, 1, 0}
        invariant if tmp == 0 then value == 0 else value < 2 * tmp
        decreases tmp
      {
        if value / tmp % 2 == 1 {
          break;
        }
        tmp := tmp / 2;
      }
      if value > tmp {
        r := 2 * tmp;
      }
    } else {
      var tmp := (value + 127) / 128;
      r := tmp * 128;
    }
    if r == 0 {
      r := 1;
    }
    assert Legal(r) && r >= value;
    forall w: nat | Legal(w) && w >= value ensures r <= w {
      MultiplesAbove(value, w);
    }
  }

  lemma MultiplesAbove(value: nat, w: nat)
    requires Legal(w) && w >= value
    ensures value > 64 ==> (value + 127) / 128 * 128 <= w
  {
  }

  // ---------------------------------------------------------------- what a slope grants

  /** `slope` falls short of 512 * q / (port - q) by less than one. */
  predicate NearlyEnough(slope: nat, q: nat, port: nat)
  {
    q < port && (slope + 1) * (port - q) > 512 * q
  }

  predicate Enough(slope: nat, q: nat, port: nat)
  {
    q < port && slope * (port - q) >= 512 * q
  }

  /** The slope programmed for a share `q` of `port`: no smaller legal one comes that near. */
  ghost predicate Programmed(slope: nat, q: nat, port: nat)
  {
    && Legal(slope) && slope <= WIDE_OPEN && NearlyEnough(slope, q, port)
    && (forall w: nat :: Legal(w) && NearlyEnough(w, q, port) ==> slope <= w)
  }

  lemma NearlyEnoughIff(w: nat, q: nat, port: nat)
    requires q < port
    ensures NearlyEnough(w, q, port) <==> w >= Floor(512 * q, port - q)
  {
    hide Floor;
    FloorAtLeast(512 * q, port - q, w + 1);
  }

  /** Below three quarters of the port the exact slope is below 1536, which is legal. */
  lemma BelowWideOpen(q: nat, port: nat)
    requires 4 * q < 3 * port
    ensures q < port && Floor(512 * q, port - q) < WIDE_OPEN
  {
    hide Floor;
    FloorAtLeast(512 * q, port - q, WIDE_OPEN);
  }

  lemma LeastIsProgrammed(r: nat, q: nat, port: nat)
    requires 4 * q < 3 * port && LeastLegal(r, Floor(512 * q, port - q))
    ensures Programmed(r, q, port)
  {
    hide Floor, NearlyEnough;
    BelowWideOpen(q, port);
    assert Legal(WIDE_OPEN);
    forall w: nat ensures NearlyEnough(w, q, port) <==> w >= Floor(512 * q, port - q) {
      NearlyEnoughIff(w, q, port);
    }
  }

  /** The slope programmed grants the whole share unless the exact slope lies strictly between a legal
      one and its successor: the division rounds down before the search for a legal slope. */
  lemma EnoughIff(slope: nat, q: nat, port: nat)
    requires Programmed(slope, q, port)
    ensures var v := Floor(512 * q, port - q);
            Enough(slope, q, port) <==> !(Legal(v) && v * (port - q) < 512 * q)
  {
    hide Floor;
    var d := port - q;
    var v := Floor(512 * q, d);
    NearlyEnoughIff(slope, q, port);
    NearlyEnoughIff(v, q, port);
    assert (v + 1) * d == v * d + d;
    if slope > v {
      Multiply(v + 1, slope, d);
    }
  }

  /** It happens: 201 of 1000 Mbit/s would take a slope of 128.8, and get 128. */
  lemma ShareFallsShort()
    ensures Programmed(128, 201, 1000) && !Enough(128, 201, 1000) && 4 * 201 < 3 * 1000
  {
    forall w: nat | Legal(w) && NearlyEnough(w, 201, 1000) ensures 128 <= w {
    }
  }

  /** The slope given to both queues when a request is refused is that of the largest requests granted. */
  lemma WideOpenIsReached()
    ensures 4 * 749 < 3 * 1000 && Programmed(1536, 749, 1000) && WIDE_OPEN == 1536
  {
    forall w: nat | Legal(w) && NearlyEnough(w, 749, 1000) ensures 1536 <= w {
      assert w > 1408;
    }
  }

  // ---------------------------------------------------------------- units

  /** Requests are in kbit/s; this is what the driver makes of them in Mbit/s. */
  function Megabits(kbits: nat): nat
  {
    Floor(Wrap(kbits + 1023), 1024)
  }

  /** It divides by 1024 and not by 1000, so that it covers a request only while the rounding up makes
      up for the difference; beyond 42 * 1024 kbit/s it never does. */
  lemma MegabitsCoverIff(kbits: nat)
    requires 0 < kbits && kbits + 1023 < TWO32
    ensures 1000 * Megabits(kbits) >= kbits <==> (kbits - 1) % 1024 + 24 * ((kbits - 1) / 1024) < 1000
    ensures kbits > 43008 ==> 1000 * Megabits(kbits) < kbits
  {
    assert Megabits(kbits) == (kbits - 1) / 1024 + 1;
  }

  lemma MegabitsSmall(kbits: nat)
    ensures Megabits(kbits) < 4194304
  {
  }

  // ---------------------------------------------------------------- the driver

  datatype Outcome = EOK | EINVAL

  class Shaper {
    var slope1: nat     // the slope field of MX6Q_DMACFG1
    var slope2: nat     // the slope field of MX6Q_DMACFG2

    constructor ()
      ensures slope1 == 0 && slope2 == 0
    {
      slope1, slope2 := 0, 0;
    }

    /** The part of mx6q_set_tx_bw that computes the slopes, given the port's rate in Mbit/s. */
    method SetTxBandwidth(bandwidth: seq<nat>, port: nat) returns (error: Outcome)
      requires |bandwidth| == 8 && port < TWO32
      requires forall i :: 0 <= i < 8 ==> bandwidth[i] < TWO32
      modifies this
      ensures var q2 := Megabits(bandwidth[2] + bandwidth[3]);
              var q1 := Megabits(bandwidth[4] + bandwidth[5] + bandwidth[6] + bandwidth[7]);
              if port == 0 then error == EOK && unchanged(this)
              else if 4 * (q1 + q2) >= 3 * port then error == EINVAL && slope1 == slope2 == WIDE_OPEN
              else error == EOK && Programmed(slope1, q1, port) && Programmed(slope2, q2, port)
    {
      hide Floor, Wrap, Programmed, LeastLegal;
      if port == 0 {
        return EOK;
      }
      var q2 := Floor(Wrap(bandwidth[2] + bandwidth[3] + 1023), 1024);
      var q1 := Floor(Wrap(bandwidth[4] + bandwidth[5] + bandwidth[6] + bandwidth[7] + 1023), 1024);
      MegabitsSmall(bandwidth[2] + bandwidth[3]);
      MegabitsSmall(bandwidth[4] + bandwidth[5] + bandwidth[6] + bandwidth[7]);
      FloorAtLeast(4 * (q1 + q2), port, 3);
      if Floor(Wrap(4 * (q1 + q2)), port) >= 3 {
        slope1, slope2 := WIDE_OPEN, WIDE_OPEN;
        return EINVAL;
      }
      BelowWideOpen(q1, port);
      BelowWideOpen(q2, port);
      slope1 := ValidIdleSlope(Floor(Wrap(512 * q1), port - q1));
      slope2 := ValidIdleSlope(Floor(Wrap(512 * q2), port - q2));
      LeastIsProgrammed(slope1, q1, port);
      LeastIsProgrammed(slope2, q2, port);
      error := EOK;
    }
  }
}
