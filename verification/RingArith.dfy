/** Positions in a descriptor ring.

The driver and the DMA engine name ring slots by an index below the ring size.  The proofs count
descriptors without wrapping, from the moment the ring was initialised; slot `Slot(k, n)` holds
descriptor number `k`.  Two descriptors less than a full turn apart never share a slot.
*/
module RingArith {

  /** The remainder of `k` by `n`, by repeated subtraction. */
  function Slot(k: nat, n: nat): (i: nat)
    requires n > 0
    ensures i < n
  {
    if k < n then k else Slot(k - n, n)
  }

  /** The successor of a slot, as the macros NEXT_TX and NEXT_RX compute it. */
  function Next(i: nat, n: nat): (r: nat)
    requires i < n
    ensures r == if i == n - 1 then 0 else i + 1
  {
    (i + 1) % n
  }

  /** How far slot `i` lies after slot `from`, going round. */
  function Distance(from: nat, i: nat, n: nat): int
  {
    if i >= from then i - from else i + n - from
  }

  /** NEXT_TX and NEXT_RX step to the slot of the next descriptor. */
  lemma {:induction false} SlotNext(k: nat, n: nat)
    requires n > 0
    ensures Slot(k + 1, n) == Next(Slot(k, n), n)
  {
    if k >= n {
      SlotNext(k - n, n);
    }
  }

  /** Descriptors less than one turn apart use different slots. */
  lemma {:induction false} SlotsDiffer(a: nat, b: nat, n: nat)
    requires n > 0 && a < b < a + n
    ensures Slot(a, n) != Slot(b, n)
  {
    if a >= n {
      SlotsDiffer(a - n, b - n, n);
    }
  }

  /** How often the index has come round to slot 0 before descriptor `k`, the first time not counted. */
  function Turn(k: nat, n: nat): nat
    requires n > 0
  {
    if k < n then 0 else 1 + Turn(k - n, n)
  }

  /** Of two descriptors less than one turn apart the later one has the lower slot exactly when the index
      came round in between. */
  lemma {:induction false} LowerAfterTurn(a: nat, b: nat, n: nat)
    requires n > 0 && a < b < a + n
    ensures Slot(b, n) < Slot(a, n) <==> Turn(a, n) < Turn(b, n)
  {
    if a >= n {
      LowerAfterTurn(a - n, b - n, n);
    }
  }

  /** A turn and a slot name the descriptor. */
  lemma {:induction false} TurnAndSlot(k: nat, n: nat)
    requires n > 0
    ensures k == Turn(k, n) * n + Slot(k, n)
  {
    if k >= n {
      TurnAndSlot(k - n, n);
      assert Turn(k, n) * n == Turn(k - n, n) * n + n;
    }
  }

  /** The configured ring size: a multiple of four between the driver's limits. */
  function RingSize(requested: nat, least: nat): (n: nat)
    requires least % 4 == 0 && 0 < least <= 2048
    ensures least <= n <= 2048 && n % 4 == 0
    ensures least <= requested <= 2048 ==> n <= requested < n + 4
    ensures requested < least ==> n == least
    ensures requested > 2048 ==> n == 2048
  {
    var r := requested - requested % 4;
    if r < least then least else if r > 2048 then 2048 else r
  }

  /** One full turn later the same slot comes round again. */
  lemma SlotTurn(k: nat, n: nat)
    requires n > 0
    ensures Slot(k + n, n) == Slot(k, n)
  {
  }

  /** Every slot is used by exactly one descriptor of a window of `n` consecutive ones. */
  lemma {:induction false} SlotCovered(first: nat, i: nat, n: nat) returns (k: nat)
    requires i < n
    ensures first <= k < first + n && Slot(k, n) == i
  {
    if first >= n {
      k := SlotCovered(first - n, i, n);
      k := k + n;
    } else {
      k := if first <= i then i else i + n;
    }
  }
}
