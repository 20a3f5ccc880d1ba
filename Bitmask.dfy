/** `bitmask2set` of `src/ai/backend/agent/resources.py`: the positions of the
    set bits of an integer mask, read off by shifting it right one bit at a
    time. */
module Bitmask {
  import opened Seqs

  function Pow2(n: nat): (p: nat)
    ensures p >= 1
  {
    if n == 0 then 1 else 2 * Pow2(n - 1)
  }

  /** Bit `i` of a non-negative integer, `(n >> i) & 1 == 1`: the low bit
      after `i` right shifts of one bit each. */
  predicate Bit(n: nat, i: nat) {
    if i == 0 then n % 2 == 1 else Bit(n / 2, i - 1)
  }

  /** The bit positions the loop appends, starting at position `offset`:
      in increasing order, and none for a mask that is not positive. */
  function Positions(mask: int, offset: nat): seq<nat>
    decreases if mask > 0 then mask else 0
  {
    if mask <= 0 then []
    else (if mask % 2 == 1 then [offset] else []) + Positions(mask / 2, offset + 1)
  }

  /** `bitmask2set(mask)`: the set of `i` with bit `i` of `mask` set; empty
      for zero and for every negative mask, which the `while mask > 0` loop
      never enters. */
  method Bitmask2Set(mask: int) returns (bits: set<nat>)
    ensures forall i: nat :: i in bits <==> mask > 0 && Bit(mask, i)
  {
    var m := mask;
    var bpos: nat := 0;
    var bset: seq<nat> := [];
    while m > 0
      invariant bset + Positions(m, bpos) == Positions(mask, 0)
      decreases if m > 0 then m else 0
    {
      PositionsStep(m, bpos);
      if m % 2 == 1 {
        AppendAssoc(bset, [bpos], Positions(m / 2, bpos + 1));
        bset := bset + [bpos];
      } else {
        assert [] + Positions(m / 2, bpos + 1) == Positions(m / 2, bpos + 1);
      }
      m := m / 2;
      bpos := bpos + 1;
    }
    AppendNothing(bset, Positions(m, bpos));
    bits := set x | x in bset;
    forall i: nat
      ensures i in bits <==> mask > 0 && Bit(mask, i)
    {
      PositionsBits(mask, 0, i);
    }
  }

  lemma PositionsStep(m: int, offset: nat)
    requires m > 0
    ensures Positions(m, offset) == (if m % 2 == 1 then [offset] else []) + Positions(m / 2, offset + 1)
  {
  }

  /** A zero mask has no bit set. */
  lemma {:induction false} NoBitOfZero(i: nat)
    ensures !Bit(0, i)
  {
    if i > 0 {
      NoBitOfZero(i - 1);
    }
  }

  /** `i` is among the positions from `offset` exactly when bit
      `i - offset` of the mask is set. */
  lemma {:induction false} PositionsBits(mask: int, offset: nat, i: nat)
    ensures i in Positions(mask, offset) <==> mask > 0 && i >= offset && Bit(mask, i - offset)
    decreases if mask > 0 then mask else 0
  {
    if mask > 0 {
      PositionsStep(mask, offset);
      PositionsBits(mask / 2, offset + 1, i);
      if i > offset {
        if mask / 2 == 0 {
          NoBitOfZero(i - offset - 1);
        }
      }
    }
  }

  /** The value a list of bit positions stands for. */
  function SumPow2(ps: seq<nat>): nat {
    if |ps| == 0 then 0 else Pow2(ps[0]) + SumPow2(ps[1..])
  }

  lemma {:induction false} SumPow2Append(a: seq<nat>, b: seq<nat>)
    ensures SumPow2(a + b) == SumPow2(a) + SumPow2(b)
  {
    if |a| > 0 {
      assert (a + b)[1..] == a[1..] + b;
      SumPow2Append(a[1..], b);
    } else {
      assert a + b == b;
    }
  }

  /** The positions determine the mask: adding up `2 ** i` over the
      positions read from a non-negative mask gives the mask back. */
  lemma {:induction false} PositionsValue(mask: nat, offset: nat)
    ensures SumPow2(Positions(mask, offset)) == mask * Pow2(offset)
    decreases mask
  {
    if mask > 0 {
      var head: seq<nat> := if mask % 2 == 1 then [offset] else [];
      PositionsStep(mask, offset);
      SumPow2Append(head, Positions(mask / 2, offset + 1));
      PositionsValue(mask / 2, offset + 1);
      var p := Pow2(offset);
      assert SumPow2(head) == (mask % 2) * p;
      HalfAndBit(mask, p);
    }
  }

  lemma HalfAndBit(mask: nat, p: nat)
    ensures (mask % 2) * p + (mask / 2) * (2 * p) == mask * p
  {
    var h := mask / 2;
    var b := mask % 2;
    assert mask == b + 2 * h;
    calc {
      b * p + h * (2 * p);
    ==
      b * p + (2 * h) * p;
    ==
      (b + 2 * h) * p;
    }
  }

  /** The positions come out strictly increasing, so none is repeated. */
  lemma {:induction false} PositionsIncreasing(mask: int, offset: nat)
    ensures forall j :: 0 <= j < |Positions(mask, offset)| ==> Positions(mask, offset)[j] >= offset
    ensures forall j, k :: 0 <= j < k < |Positions(mask, offset)| ==>
      Positions(mask, offset)[j] < Positions(mask, offset)[k]
    decreases if mask > 0 then mask else 0
  {
    if mask > 0 {
      PositionsStep(mask, offset);
      PositionsIncreasing(mask / 2, offset + 1);
    }
  }
}
