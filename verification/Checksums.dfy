/** What the checksums of the volume compute, bit by bit: rotate right by one, then add the next byte. */
module Checksums {
  import opened Bits
  import opened Bytes

  /** The next bit, in a number of `width` bits that goes round. */
  function NextBit(k: nat, width: nat): nat {
    if k + 1 < width then k + 1 else 0
  }

  /** A term at or above bit `n` leaves the bits below alone. */
  lemma {:induction false} BitBelow(q: nat, r: nat, n: nat, k: nat)
    requires r < Pow2(n) && k < n
    ensures Bit(q * Pow2(n) + r, k) <==> Bit(r, k)
    decreases n
  {
    var low := q * Pow2(n - 1);
    assert q * Pow2(n) == 2 * low;
    BitUnfold(2 * low + r, k);
    BitUnfold(r, k);
    PowerHalf(r, n);
    hide Pow2, Bit;
    assert (2 * low + r) / 2 == low + r / 2 && (2 * low + r) % 2 == r % 2;
    if k > 0 {
      BitBelow(q, r / 2, n - 1, k - 1);
    }
  }

  lemma RotateTop(value: nat, top: nat)
    requires value < 2 * top
    ensures Rotate(value, 2 * top) == value / 2 + (if value % 2 == 1 then top else 0)
  {
    assert 2 * top / 2 == top;
    if value % 2 == 1 {
      assert value % 2 * top == top;
    } else {
      assert value % 2 * top == 0;
    }
  }

  lemma RotateParts(value: nat, width: nat)
    requires value < Pow2(width) && width > 0
    ensures Rotate(value, Pow2(width)) == value % 2 * Pow2(width - 1) + value / 2 < Pow2(width)
    ensures value / 2 < Pow2(width - 1)
  {
    var top := Pow2(width - 1);
    assert Pow2(width) == 2 * top;
    hide Pow2, Rotate;
    RotateTop(value, top);
    assert value % 2 * top == if value % 2 == 1 then top else 0;
  }

  /** One rotation: every bit moves one place down, the lowest to the top. */
  lemma RotateBits(value: nat, width: nat, k: nat)
    requires value < Pow2(width) && k < width
    ensures Bit(Rotate(value, Pow2(width)), k) <==> Bit(value, NextBit(k, width))
  {
    hide Pow2, Bit, Rotate;
    RotateParts(value, width);
    if k + 1 < width {
      BitBelow(value % 2, value / 2, width - 1, k);
      BitUnfold(value, k + 1);
    } else {
      BitOfSum(value % 2, value / 2, width - 1);
      BitUnfold(value, 0);
    }
  }

  lemma SmallMod(v: nat, m: nat)
    requires v < m
    ensures v % m == v
  {
  }

  lemma RoundZero(value: nat, width: nat)
    requires value < Pow2(width) && width > 0
    ensures Round(value, 0, Pow2(width)) == Rotate(value, Pow2(width))
  {
    hide Pow2, Rotate;
    RotateParts(value, width);
    SmallMod(Rotate(value, Pow2(width)), Pow2(width));
  }

  /** A zero byte rotates the checksum of the bytes before it by one bit; any other byte is added to that; a skipped
      byte changes nothing. */
  lemma ChecksumStep(data: seq<byte>, b: byte, skip: set<nat>, width: nat)
    requires width > 0
    ensures |data| in skip ==> Checksum(data + [b], skip, Pow2(width)) == Checksum(data, skip, Pow2(width))
    ensures |data| !in skip ==>
      Checksum(data + [b], skip, Pow2(width)) == (Checksum(data + [0], skip, Pow2(width)) + b) % Pow2(width)
    ensures |data| !in skip ==> forall k: nat :: k < width ==>
      (Bit(Checksum(data + [0], skip, Pow2(width)), k) <==>
       Bit(Checksum(data, skip, Pow2(width)), NextBit(k, width)))
  {
    hide Pow2, Bit, Rotate, Round, Checksum, NextBit;
    var before := Checksum(data, skip, Pow2(width));
    if |data| in skip {
      ChecksumSkipped(data, b, skip, Pow2(width));
    } else {
      ChecksumAppend(data, b, skip, Pow2(width));
      ChecksumAppend(data, 0, skip, Pow2(width));
      RoundZero(before, width);
      RoundAdds(before, b, Pow2(width));
      forall k: nat | k < width ensures Bit(Rotate(before, Pow2(width)), k) <==> Bit(before, NextBit(k, width)) {
        RotateBits(before, width, k);
      }
    }
  }

  lemma RoundAdds(value: nat, b: byte, modulus: nat)
    requires modulus > 0 && Round(value, 0, modulus) == Rotate(value, modulus)
    ensures Round(value, b, modulus) == (Round(value, 0, modulus) + b) % modulus
  {
    hide Rotate;
  }

  lemma ChecksumSkipped(data: seq<byte>, b: byte, skip: set<nat>, modulus: nat)
    requires modulus > 0 && |data| in skip
    ensures Checksum(data + [b], skip, modulus) == Checksum(data, skip, modulus)
  {
    assert (data + [b])[..|data|] == data;
  }

  /** What one more byte does to a checksum of `width` bits. */
  ghost predicate Extends(f: seq<byte> -> nat, data: seq<byte>, b: byte, skip: set<nat>, width: nat) {
    if |data| in skip then f(data + [b]) == f(data)
    else
      && f(data + [b]) == (f(data + [0]) + b) % Pow2(width)
      && forall k: nat :: k < width ==> (Bit(f(data + [0]), k) <==> Bit(f(data), NextBit(k, width)))
  }

  ghost predicate RotatesAndAdds(f: seq<byte> -> nat, skip: set<nat>, width: nat) {
    && f([]) == 0
    && (forall data: seq<byte> :: f(data) < Pow2(width))
    && (forall data: seq<byte>, b: byte :: Extends(f, data, b, skip, width))
  }

  /** The checksum of the builder obeys these laws. */
  lemma ChecksumRotates(skip: set<nat>, width: nat)
    requires width > 0
    ensures RotatesAndAdds(data => Checksum(data, skip, Pow2(width)), skip, width)
  {
    hide Pow2, Bit, NextBit, Checksum;
    var f := (data: seq<byte>) => Checksum(data, skip, Pow2(width));
    ChecksumEmpty([], skip, Pow2(width));
    forall data: seq<byte>, b: byte ensures Extends(f, data, b, skip, width) {
      ChecksumStep(data, b, skip, width);
    }
  }

  lemma SameWhenRotated(f: seq<byte> -> nat, g: seq<byte> -> nat, data: seq<byte>, b: byte, skip: set<nat>, width: nat)
    requires Extends(f, data, b, skip, width) && Extends(g, data, b, skip, width) && f(data) == g(data)
    requires f(data + [0]) < Pow2(width) && g(data + [0]) < Pow2(width)
    ensures f(data + [b]) == g(data + [b])
  {
    hide Pow2, Bit, NextBit;
    if |data| !in skip {
      SameBits(f(data + [0]), g(data + [0]), width);
    }
  }

  /** No other function does. */
  lemma {:induction false} ChecksumUnique(f: seq<byte> -> nat, data: seq<byte>, skip: set<nat>, width: nat)
    requires width > 0 && RotatesAndAdds(f, skip, width)
    ensures f(data) == Checksum(data, skip, Pow2(width))
    decreases |data|
  {
    hide Checksum, Pow2, Extends;
    var g := (data: seq<byte>) => Checksum(data, skip, Pow2(width));
    ChecksumRotates(skip, width);
    if data == [] {
      ChecksumEmpty(data, skip, Pow2(width));
    } else {
      var init, b := data[..|data| - 1], data[|data| - 1];
      ChecksumUnique(f, init, skip, width);
      SameWhenRotated(f, g, init, b, skip, width);
      assert data == init + [b];
    }
  }

  /** How far down a single bit has moved. */
  function Position(width: nat, n: nat): nat
    requires width > 0
  {
    (width - n % width) % width
  }

  /** A one that is followed by zeros goes round the bits. */
  lemma {:induction false} ChecksumOfOne(n: nat, width: nat)
    requires width in {16, 32}
    ensures Checksum([1] + Zeros(n), {}, Pow2(width)) == Pow2(Position(width, n))
  {
    hide Checksum, Pow2, Round, Position;
    if n == 0 {
      PositionAtFirst(width);
      OneAlone(width);
      assert [1] + Zeros(0) == [1];
    } else {
      var before := [1] + Zeros(n - 1);
      PositionStep(width, n);
      assert [1] + Zeros(n) == before + [0];
      ChecksumOfOne(n - 1, width);
      ChecksumAppend(before, 0, {}, Pow2(width));
      RotatePower(Position(width, n - 1), width);
    }
  }

  lemma OneAlone(width: nat)
    requires width > 0
    ensures Checksum([1], {}, Pow2(width)) == Pow2(0)
  {
    assert [] + [1] == [1];
    PowerBelow(0, width);
    ChecksumAppend([], 1, {}, Pow2(width));
    hide Pow2;
    RoundOne(Pow2(width));
  }

  lemma RoundOne(modulus: nat)
    requires modulus > 1
    ensures Round(0, 1, modulus) == 1
  {
    assert 0 * (modulus / 2) == 0;
    SmallMod(1, modulus);
  }

  lemma PositionAtFirst(width: nat)
    requires width in {16, 32}
    ensures Position(width, 0) == 0
  {
  }

  /** The remainder goes up by one, or back to zero. */
  lemma TurnStep(width: nat, n: nat)
    requires width in {16, 32} && n > 0
    ensures n % width == NextBit((n - 1) % width, width)
  {
    var q, a := (n - 1) / width, (n - 1) % width;
    assert n - 1 == width * q + a;
    if a + 1 < width {
      Remainder(width, q, a + 1);
    } else {
      assert n == width * (q + 1) + 0;
      Remainder(width, q + 1, 0);
    }
  }

  lemma Remainder(width: nat, q: nat, a: nat)
    requires width in {16, 32} && a < width
    ensures (width * q + a) % width == a
  {
    if width == 16 {
      assert (16 * q + a) % 16 == a;
    } else {
      assert (32 * q + a) % 32 == a;
    }
  }

  lemma PositionIs(width: nat, m: nat)
    requires m < width
    ensures (width - m) % width == if m == 0 then 0 else width - m
  {
    if m > 0 {
      SmallMod(width - m, width);
    }
  }

  lemma PositionStep(width: nat, n: nat)
    requires width in {16, 32} && n > 0
    ensures Position(width, n - 1) < width && Position(width, n) < width
    ensures NextBit(Position(width, n), width) == Position(width, n - 1)
  {
    TurnStep(width, n);
    var a, b := (n - 1) % width, n % width;
    PositionIs(width, a);
    PositionIs(width, b);
    assert Position(width, n - 1) == (if a == 0 then 0 else width - a);
    assert Position(width, n) == (if b == 0 then 0 else width - b);
  }

  lemma RotatePower(e: nat, width: nat)
    requires e < width
    ensures Round(Pow2(e), 0, Pow2(width)) == Pow2(if e == 0 then width - 1 else e - 1)
  {
    PowerBelow(e, width);
    RoundZero(Pow2(e), width);
    RotateParts(Pow2(e), width);
  }

  lemma {:induction false} PowerBelow(e: nat, width: nat)
    requires e < width
    ensures Pow2(e) < Pow2(width)
  {
    if e > 0 {
      PowerBelow(e - 1, width - 1);
    }
  }
}
