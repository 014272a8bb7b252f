/** Bit streams: what write_bits and read_bits do to a sequence of bits.
    The bit order inside one field is low bit first. */
module Bits {

  /** 2 to the n. */
  function Pow2(n: nat): (r: int)
    ensures r > 0
  {
    if n == 0 then 1 else 2 * Pow2(n - 1)
  }

  /** The n low bits of v in two's complement. */
  function ToBits(v: int, n: nat): (bits: seq<bool>)
    ensures |bits| == n
    decreases n
  {
    if n == 0 then [] else [v % 2 == 1] + ToBits(v / 2, n - 1)
  }

  /** The number whose low bits are `bits` and whose upper bits are zero. */
  function FromBits(bits: seq<bool>): nat {
    if bits == [] then 0 else (if bits[0] then 1 else 0) + 2 * FromBits(bits[1..])
  }

  lemma AtLeastOneMultiple(m: int, k: int)
    requires m > 0 && k >= 1
    ensures m * k >= m
  {
    assert m * (k - 1) >= 0;
  }

  lemma NoMultipleBetween(m: int, a: int, b: int)
    requires m > 0 && -m < m * a - m * b < m
    ensures a == b
  {
    var k := a - b;
    assert m * k == m * a - m * b;
    if k >= 1 {
      AtLeastOneMultiple(m, k);
    } else if k <= -1 {
      AtLeastOneMultiple(m, -k);
    }
  }

  lemma ModUnique(v: int, m: nat, q: int, r: int)
    requires m > 0 && v == m * q + r && 0 <= r < m
    ensures v % m == r && v / m == q
  {
    var q', r' := v / m, v % m;
    assert m * q - m * q' == r' - r;
    NoMultipleBetween(m, q, q');
  }

  /** Taking one low bit off and reducing the rest. */
  lemma ModTwice(v: int, m: nat)
    requires m > 0
    ensures v % (2 * m) == v % 2 + 2 * ((v / 2) % m)
  {
    var h := v / 2;
    var a, b := h / m, h % m;
    assert h == m * a + b;
    assert 2 * h == (2 * m) * a + 2 * b;
    ModUnique(v, 2 * m, a, v % 2 + 2 * b);
  }

  /** Reading back what was written gives the value modulo 2^n. */
  lemma {:induction false} ReadBackMod(v: int, n: nat)
    ensures FromBits(ToBits(v, n)) == v % Pow2(n)
    decreases n
  {
    if n > 0 {
      ReadBackMod(v / 2, n - 1);
      ModTwice(v, Pow2(n - 1));
      assert ToBits(v, n)[1..] == ToBits(v / 2, n - 1);
    }
  }

  /** Writing what was read gives the same bits, even after adding a multiple of a larger power of two. */
  lemma {:induction false} WriteBackBits(bits: seq<bool>)
    ensures ToBits(FromBits(bits), |bits|) == bits
    ensures FromBits(bits) < Pow2(|bits|)
  {
    if bits != [] {
      WriteBackBits(bits[1..]);
      var v := FromBits(bits);
      assert v / 2 == FromBits(bits[1..]);
      assert bits == [bits[0]] + bits[1..];
    }
  }

  /** Reducing modulo 2^c first does not change the n low bits when n <= c. */
  lemma {:induction false} ToBitsOfMod(v: int, c: nat, n: nat)
    requires n <= c
    ensures ToBits(v % Pow2(c), n) == ToBits(v, n)
    decreases n
  {
    if n > 0 {
      var m := Pow2(c - 1);
      ModTwice(v, m);
      var w := v % Pow2(c);
      assert w == v % 2 + 2 * ((v / 2) % m);
      ModUnique(w, 2, (v / 2) % m, v % 2);
      ToBitsOfMod(v / 2, c - 1, n - 1);
    }
  }

  lemma {:induction false} Pow2Monotone(m: nat, n: nat)
    requires m <= n
    ensures Pow2(m) <= Pow2(n)
    decreases n
  {
    if m < n {
      Pow2Monotone(m, n - 1);
    }
  }

  lemma {:induction false} Pow2Product(m: nat, n: nat)
    ensures Pow2(m + n) == Pow2(m) * Pow2(n)
  {
    if m > 0 {
      Pow2Product(m - 1, n);
      assert Pow2(m) * Pow2(n) == 2 * (Pow2(m - 1) * Pow2(n));
    }
  }

  /** The writer of bitsio: the bits written so far. */
  class BitWriter {
    var bits: seq<bool>

    constructor ()
      ensures bits == []
    {
      bits := [];
    }

    method WriteBits(v: int, n: nat)
      modifies this
      ensures bits == old(bits) + ToBits(v, n)
    {
      bits := bits + ToBits(v, n);
    }

    method WriteTrue()
      modifies this
      ensures bits == old(bits) + [true]
    {
      bits := bits + [true];
    }

    method WriteFalse()
      modifies this
      ensures bits == old(bits) + [false]
    {
      bits := bits + [false];
    }
  }

  /** The reader of bitsio: the bits not read yet. Both reads fail past the end. */
  class BitReader {
    var rest: seq<bool>

    constructor (bits: seq<bool>)
      ensures rest == bits
    {
      rest := bits;
    }

    method ReadBit() returns (ok: bool, bit: bool)
      modifies this
      ensures ok == (|old(rest)| > 0)
      ensures ok ==> bit == old(rest)[0] && rest == old(rest)[1..]
      ensures !ok ==> rest == old(rest)
    {
      ok, bit := |rest| > 0, false;
      if ok {
        bit, rest := rest[0], rest[1..];
      }
    }

    method ReadBits(n: nat) returns (ok: bool, v: nat)
      modifies this
      ensures ok == (|old(rest)| >= n)
      ensures ok ==> v == FromBits(old(rest)[..n]) && rest == old(rest)[n..]
      ensures !ok ==> rest == old(rest)
    {
      ok, v := |rest| >= n, 0;
      if ok {
        v, rest := FromBits(rest[..n]), rest[n..];
      }
    }
  }
}
