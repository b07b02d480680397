/** Bytes, fixed-width little-endian numbers, and the rotate-and-add checksums. */
module Bytes {
  type byte = x: int | 0 <= x < 256
  type u16 = x: int | 0 <= x < 0x1_0000
  type u32 = x: int | 0 <= x < 0x1_0000_0000

  /** The 16-bit number with the given low and high byte. */
  function Pair(low: byte, high: byte): u16 {
    (low as int) + 256 * (high as int)
  }

  /** `int.from_bytes` of the first four bytes, least significant first. */
  function Low32(s: seq<byte>): u32
    requires |s| >= 4
  {
    (s[0] as int) + 0x100 * s[1] as int + 0x1_0000 * s[2] as int + 0x100_0000 * s[3] as int
  }

  function Zeros(n: nat): (s: seq<byte>)
    ensures |s| == n
  {
    seq(n, _ => 0)
  }

  function Pow256(n: nat): (p: nat) {
    if n == 0 then 1 else 256 * Pow256(n - 1)
  }

  /** The `width` low bytes of `v`, least significant first. */
  function Le(v: nat, width: nat): (s: seq<byte>)
    ensures |s| == width
  {
    if width == 0 then [] else [v % 256] + Le(v / 256, width - 1)
  }

  function FromLe(s: seq<byte>): nat {
    if s == [] then 0 else s[0] + 256 * FromLe(s[1..])
  }

  lemma {:induction false} LeRoundTrip(v: nat, width: nat)
    requires v < Pow256(width)
    ensures FromLe(Le(v, width)) == v
  {
    if width > 0 {
      LeRoundTrip(v / 256, width - 1);
      assert Le(v, width)[1..] == Le(v / 256, width - 1);
    }
  }

  lemma PowersOf256()
    ensures Pow256(1) == 256
    ensures Pow256(2) == 0x1_0000
    ensures Pow256(4) == 0x1_0000_0000
    ensures Pow256(8) == 0x1_0000_0000_0000_0000
  {
    assert Pow256(3) == 0x100_0000;
    assert Pow256(5) == 0x100_0000_0000;
    assert Pow256(6) == 0x1_0000_0000_0000;
    assert Pow256(7) == 0x100_0000_0000_0000;
  }

  /** The number stored at `s[at..at + width]`. */
  function NumberAt(s: seq<byte>, at: nat, width: nat): nat
    requires at + width <= |s|
  {
    FromLe(s[at..at + width])
  }

  lemma NumberAtLe(s: seq<byte>, at: nat, width: nat, v: nat)
    requires width in {1, 2, 4, 8}
    requires at + width <= |s| && s[at..at + width] == Le(v, width)
    requires v < Pow256(width)
    ensures NumberAt(s, at, width) == v
  {
    LeRoundTrip(v, width);
  }

  /** `s` with `data` written over it from position `at`. */
  function Patch(s: seq<byte>, at: nat, data: seq<byte>): (r: seq<byte>)
    requires at + |data| <= |s|
    ensures |r| == |s|
    ensures forall k :: 0 <= k < |s| ==> r[k] == if at <= k < at + |data| then data[k - at] else s[k]
  {
    s[..at] + data + s[at + |data|..]
  }

  /** Two adjoining writes are one. */
  lemma PatchTwice(data: seq<byte>, at: nat, a: seq<byte>, b: seq<byte>)
    requires at + |a| + |b| <= |data|
    ensures Patch(Patch(data, at, a), at + |a|, b) == Patch(data, at, a + b)
  {
  }

  /** Writes `data` over `a` from `at` on, like an assignment to a slice of a byte array. */
  method CopyInto(a: array<byte>, at: nat, data: seq<byte>)
    requires at + |data| <= a.Length
    modifies a
    ensures a[..] == Patch(old(a[..]), at, data)
  {
    forall k | 0 <= k < |data| {
      a[at + k] := data[k];
    }
  }

  /** `struct.pack_into` of one unsigned little-endian number that fits its field. */
  method Pack(a: array<byte>, at: nat, value: nat, width: nat)
    requires at + width <= a.Length && value < Pow256(width)
    modifies a
    ensures a[..] == Patch(old(a[..]), at, Le(value, width))
  {
    CopyInto(a, at, Le(value, width));
  }

  /** One round of the exFAT checksums on `bits` bits: rotate right by one, then add. */
  function Rotate(value: nat, modulus: nat): nat
    requires modulus > 0
  {
    value / 2 + value % 2 * (modulus / 2)
  }

  function Round(value: nat, b: byte, modulus: nat): nat
    requires modulus > 0
  {
    (Rotate(value, modulus) + b) % modulus
  }

  /** The checksum of `data` without the bytes at the positions in `skip`. */
  function Checksum(data: seq<byte>, skip: set<nat>, modulus: nat): (v: nat)
    requires modulus > 0
    ensures v < modulus
  {
    if data == [] then 0
    else
      var last := |data| - 1;
      var before := Checksum(data[..last], skip, modulus);
      if last in skip then before else Round(before, data[last], modulus)
  }

  /** The loop that every checksum function of the builder runs. */
  method ComputeChecksum(data: seq<byte>, skip: set<nat>, modulus: nat) returns (value: nat)
    requires modulus > 0
    ensures value == Checksum(data, skip, modulus)
  {
    value := 0;
    for i := 0 to |data|
      invariant value == Checksum(data[..i], skip, modulus)
    {
      assert data[..i + 1][..i] == data[..i];
      if i in skip {
        continue;
      }
      value := (value / 2 + value % 2 * (modulus / 2) + data[i]) % modulus;
    }
    assert data[..|data|] == data;
  }

  lemma ChecksumEmpty(data: seq<byte>, skip: set<nat>, modulus: nat)
    requires modulus > 0 && |data| == 0
    ensures Checksum(data, skip, modulus) == 0
  {
  }

  lemma ChecksumAppend(data: seq<byte>, b: byte, skip: set<nat>, modulus: nat)
    requires modulus > 0 && |data| !in skip
    ensures Checksum(data + [b], skip, modulus) == Round(Checksum(data, skip, modulus), b, modulus)
  {
    assert (data + [b])[..|data|] == data;
  }

  /** A checksum does not see the bytes that it skips. */
  lemma {:induction false} ChecksumSkips(a: seq<byte>, b: seq<byte>, skip: set<nat>, modulus: nat)
    requires modulus > 0 && |a| == |b|
    requires forall k: nat :: k < |a| && k !in skip ==> a[k] == b[k]
    ensures Checksum(a, skip, modulus) == Checksum(b, skip, modulus)
  {
    if a != [] {
      ChecksumSkips(a[..|a| - 1], b[..|b| - 1], skip, modulus);
    }
  }
}
