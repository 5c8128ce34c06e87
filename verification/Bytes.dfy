/** Bytes, and unsigned numbers stored as little-endian bytes. */
module Bytes {

  type byte = x: int | 0 <= x < 256

  /** The number of values of an unsigned 32-bit word. */
  const WORD: nat := 0x1_0000_0000

  function Pow2(n: nat): nat { if n == 0 then 1 else 2 * Pow2(n - 1) }

  /** The unsigned value of `s`, least significant byte first. */
  function Value(s: seq<byte>): nat {
    if s == [] then 0 else s[0] + 256 * Value(s[1..])
  }

  lemma ValueOfMore(b: byte, rest: seq<byte>)
    ensures Value([b] + rest) == b + 256 * Value(rest)
  {
    assert ([b] + rest)[1..] == rest;
  }

  lemma ValueOfEight(b: seq<byte>)
    requires |b| == 8
    ensures Value(b) ==
            b[0] as int + 0x100 * b[1] as int + 0x1_0000 * b[2] as int + 0x100_0000 * b[3] as int
            + 0x1_0000_0000 * b[4] as int + 0x100_0000_0000 * b[5] as int
            + 0x1_0000_0000_0000 * b[6] as int + 0x100_0000_0000_0000 * b[7] as int
  {
    assert b[7..] == [b[7]] + [] && b[6..] == [b[6]] + b[7..] && b[5..] == [b[5]] + b[6..];
    assert b[4..] == [b[4]] + b[5..] && b[3..] == [b[3]] + b[4..] && b[2..] == [b[2]] + b[3..];
    assert b[1..] == [b[1]] + b[2..] && b == [b[0]] + b[1..];
    ValueOfMore(b[7], []);
    ValueOfMore(b[6], b[7..]);
    ValueOfMore(b[5], b[6..]);
    ValueOfMore(b[4], b[5..]);
    ValueOfMore(b[3], b[4..]);
    ValueOfMore(b[2], b[3..]);
    ValueOfMore(b[1], b[2..]);
    ValueOfMore(b[0], b[1..]);
  }

  /** The `n` low-order bytes of `x`, least significant first. */
  function LittleEndian(x: nat, n: nat): (s: seq<byte>)
    ensures |s| == n
  {
    if n == 0 then [] else [x % 256] + LittleEndian(x / 256, n - 1)
  }

  /** Storing the value of some bytes gives these bytes back. */
  lemma {:induction false} LittleEndianOfValue(s: seq<byte>)
    ensures LittleEndian(Value(s), |s|) == s
  {
    if s != [] {
      LittleEndianOfValue(s[1..]);
      assert Value(s) % 256 == s[0] && Value(s) / 256 == Value(s[1..]);
    }
  }

  function Pow256(n: nat): (p: nat)
    ensures p > 0
  {
    if n == 0 then 1 else 256 * Pow256(n - 1)
  }

  /** What is stored is the number modulo the size of the store. */
  lemma {:induction false} ValueOfLittleEndian(x: nat, n: nat)
    ensures Value(LittleEndian(x, n)) == x % Pow256(n)
  {
    if n > 0 {
      ValueOfLittleEndian(x / 256, n - 1);
      ModOfProduct(x, Pow256(n - 1));
    }
  }

  lemma ModOfProduct(x: nat, p: nat)
    requires p > 0
    ensures 256 * p > 0 && x % (256 * p) == x % 256 + 256 * (x / 256 % p)
  {
    var q, r := x / 256 / p, x / 256 % p;
    assert x == 256 * (p * q + r) + x % 256 && 256 * (p * q) == (256 * p) * q;
    RemainderIs(x, 256 * p, q, 256 * r + x % 256);
  }

  lemma RemainderIs(x: nat, d: nat, q: nat, r: nat)
    requires x == d * q + r && r < d
    ensures x % d == r
  {
    var k := q - x / d;
    assert d * k == x % d - r by { assert d * k == d * q - d * (x / d); }
    SmallMultiple(d, k);
  }

  lemma SmallMultiple(d: int, k: int)
    requires -d < d * k < d
    ensures k == 0
  {
  }

  /** A number made of a low part of `m` bytes and a high part is stored part by part. */
  lemma {:induction false} LittleEndianConcat(lo: nat, hi: nat, m: nat, n: nat)
    requires lo < Pow256(m)
    ensures LittleEndian(lo + Pow256(m) * hi, m + n) == LittleEndian(lo, m) + LittleEndian(hi, n)
  {
    if m > 0 {
      var rest := Pow256(m - 1) * hi;
      assert Pow256(m) * hi == 256 * rest;
      assert (lo + 256 * rest) % 256 == lo % 256 && (lo + 256 * rest) / 256 == lo / 256 + rest;
      LittleEndianConcat(lo / 256, hi, m - 1, n);
    }
  }

  /** The low-order bytes of a 64-bit number are its two 32-bit words. */
  lemma LittleEndianWords(x: nat)
    ensures LittleEndian(x, 8) == LittleEndian(x % WORD, 4) + LittleEndian(x / WORD % WORD, 4)
  {
    LowWord(x, 4);
    LowWord(x / WORD, 0);
  }

  lemma LowWord(x: nat, n: nat)
    ensures LittleEndian(x, 4 + n) == LittleEndian(x % WORD, 4) + LittleEndian(x / WORD, n)
  {
    Pow256OfWord();
    LittleEndianConcat(x % WORD, x / WORD, 4, n);
    assert x == x % WORD + WORD * (x / WORD);
  }

  lemma Pow256OfWord()
    ensures Pow256(4) == WORD
  {
  }
}
