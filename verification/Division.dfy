/** Integer division as the drivers use it: of non-negative numbers, rounding down, and the macro that
rounds up. */
module Division {

  const TWO32: nat := 0x1_0000_0000

  /** A result stored in 32 unsigned bits. */
  function Wrap(x: int): (w: nat)
    ensures w < TWO32 && (0 <= x < TWO32 ==> w == x)
  {
    x % TWO32
  }

  function Floor(a: nat, b: nat): (q: nat)
    requires b > 0
    ensures b * q <= a < b * q + b
  {
    a / b
  }

  function Ceiling(a: nat, b: nat): (q: nat)
    requires b > 0
    ensures a <= b * q < a + b
  {
    if a == 0 then 0 else (a - 1) / b + 1
  }

  lemma Multiply(a: nat, b: nat, c: nat)
    requires a <= b
    ensures a * c <= b * c && c * a <= c * b
  {
  }

  lemma FloorAtLeast(a: nat, b: nat, k: nat)
    requires b > 0
    ensures Floor(a, b) >= k <==> b * k <= a
  {
    hide Floor;
    var q := Floor(a, b);
    if q >= k {
      Multiply(k, q, b);
    } else {
      Multiply(q + 1, k, b);
      assert b * (q + 1) == b * q + b;
    }
  }

  lemma FloorIs(a: nat, b: nat, q: nat)
    requires b > 0 && b * q <= a < b * q + b
    ensures Floor(a, b) == q
  {
    hide Floor;
    assert b * (q + 1) == b * q + b;
    FloorAtLeast(a, b, q);
    FloorAtLeast(a, b, q + 1);
  }

  lemma CeilingAtMost(a: nat, b: nat, k: nat)
    requires b > 0
    ensures Ceiling(a, b) <= k <==> a <= b * k
  {
    hide Ceiling;
    var q := Ceiling(a, b);
    if q <= k {
      Multiply(q, k, b);
    } else {
      Multiply(k + 1, q, b);
      assert b * (k + 1) == b * k + b;
    }
  }

  lemma CeilingIs(a: nat, b: nat, q: nat)
    requires b > 0 && a <= b * q < a + b
    ensures Ceiling(a, b) == q
  {
    hide Ceiling;
    CeilingAtMost(a, b, q);
    if q > 0 {
      assert b * q == b * (q - 1) + b;
      CeilingAtMost(a, b, q - 1);
    }
  }
}
