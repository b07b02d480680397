/** Binary digits of natural numbers. */
module Bits {
  function Pow2(n: nat): (p: nat)
    ensures p > 0
  {
    if n == 0 then 1 else 2 * Pow2(n - 1)
  }

  lemma PowersOf2()
    ensures Pow2(8) == 256 && Pow2(9) == 512 && Pow2(16) == 0x1_0000 && Pow2(32) == 0x1_0000_0000
  {
    PowersAdd(3, 3);
    PowersAdd(6, 2);
    PowersAdd(8, 1);
    PowersAdd(8, 8);
    PowersAdd(16, 16);
  }

  lemma {:induction false} PowersAdd(a: nat, b: nat)
    ensures Pow2(a + b) == Pow2(a) * Pow2(b)
  {
    if a > 0 {
      PowersAdd(a - 1, b);
    }
  }

  /** Bit `k` of `v`, counted from the least significant one. */
  predicate Bit(v: nat, k: nat) {
    if k == 0 then v % 2 == 1 else Bit(v / 2, k - 1)
  }

  lemma BitUnfold(v: nat, k: nat)
    ensures Bit(v, k) <==> if k == 0 then v % 2 == 1 else Bit(v / 2, k - 1)
  {
  }

  /** Bit `k` counts for 2^k. */
  lemma {:induction false} BitOfSum(q: nat, r: nat, k: nat)
    requires r < Pow2(k)
    ensures Bit(q * Pow2(k) + r, k) <==> q % 2 == 1
  {
    if k > 0 {
      var low := q * Pow2(k - 1);
      assert q * Pow2(k) == 2 * low;
      hide Pow2, Bit;
      assert (2 * low + r) / 2 == low + r / 2;
      BitUnfold(2 * low + r, k);
      PowerHalf(r, k);
      BitOfSum(q, r / 2, k - 1);
    }
  }

  lemma PowerHalf(r: nat, k: nat)
    requires k > 0 && r < Pow2(k)
    ensures r / 2 < Pow2(k - 1)
  {
  }

  /** `v | 1 << k`. */
  function SetBit(v: nat, k: nat): nat {
    if k == 0 then v / 2 * 2 + 1 else SetBit(v / 2, k - 1) * 2 + v % 2
  }

  lemma {:induction false} SetBitSets(v: nat, k: nat, j: nat)
    ensures Bit(SetBit(v, k), j) <==> j == k || Bit(v, j)
  {
    if k > 0 && j > 0 {
      SetBitSets(v / 2, k - 1, j - 1);
    }
  }

  /** Halving drops one bit, and half of a number below 2^width lies below 2^(width - 1). */
  lemma Halves(v: nat, k: nat, width: nat)
    requires v < Pow2(width) && width > 0
    ensures Pow2(width) == 2 * Pow2(width - 1) && v / 2 < Pow2(width - 1)
    ensures SetBit(v, k) <= 2 * (if k == 0 then v / 2 else SetBit(v / 2, k - 1)) + 1
  {
  }

  lemma {:induction false} SetBitBounded(v: nat, k: nat, width: nat)
    requires v < Pow2(width) && k < width
    ensures SetBit(v, k) < Pow2(width)
  {
    hide SetBit, Pow2;
    Halves(v, k, width);
    if k > 0 {
      SetBitBounded(v / 2, k - 1, width - 1);
    }
  }

  /** A number is determined by its bits. */
  lemma {:induction false} SameBits(a: nat, b: nat, width: nat)
    requires a < Pow2(width) && b < Pow2(width)
    requires forall j: nat :: j < width ==> (Bit(a, j) <==> Bit(b, j))
    ensures a == b
  {
    if width > 0 {
      forall j: nat | j < width - 1 ensures Bit(a / 2, j) <==> Bit(b / 2, j) {
        assert Bit(a, j + 1) <==> Bit(b, j + 1);
      }
      SameBits(a / 2, b / 2, width - 1);
      assert Bit(a, 0) <==> Bit(b, 0);
    }
  }
}
