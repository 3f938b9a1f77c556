/** Bits of unsigned words, read off by halving. */
module BitMasks {

  function Pow2(d: nat): (p: nat)
    ensures p > 0
  {
    if d == 0 then 1 else 2 * Pow2(d - 1)
  }

  predicate Bit(mask: nat, d: nat) {
    if d == 0 then mask % 2 == 1 else Bit(mask / 2, d - 1)
  }

  /** Setting a bit that is clear. */
  function WithBit(mask: nat, d: nat): nat {
    mask + Pow2(d)
  }

  lemma {:induction false} WithBitSets(mask: nat, x: nat, d: nat)
    requires !Bit(mask, x)
    ensures Bit(WithBit(mask, x), d) <==> Bit(mask, d) || d == x
    decreases x + d
  {
    if x == 0 || d == 0 {
    } else {
      WithBitSets(mask / 2, x - 1, d - 1);
    }
  }

  lemma {:induction false} NoBits(d: nat)
    ensures !Bit(0, d)
  {
    if d == 0 {
    } else {
      NoBits(d - 1);
    }
  }

  /** The word with its low `n` bits set. */
  lemma {:induction false} AllOnes(n: nat, d: nat)
    requires d < n
    ensures Bit(Pow2(n) - 1, d)
  {
    if d == 0 {
    } else {
      AllOnes(n - 1, d - 1);
    }
  }
}
