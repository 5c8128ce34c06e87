/** The MD5 block function: four rounds of sixteen steps over a 64-byte block. */
module Md5Block {
  import opened Bytes
  import opened Md5Steps

  /** The four chaining words. */
  datatype Chain = Chain(a: bv32, b: bv32, c: bv32, d: bv32)

  type Block = s: seq<byte> | |s| == 64 witness seq(64, _ => 0)

  const INITIAL := Chain(0x67452301, 0xefcdab89, 0x98badcfe, 0x10325476)

  // ---------------------------------------------------------------------------------------------
  // The operations

  function F(x: bv32, y: bv32, z: bv32): bv32 { (x & y) | (!x & z) }

  function G(x: bv32, y: bv32, z: bv32): bv32 { (x & z) | (y & !z) }

  function H(x: bv32, y: bv32, z: bv32): bv32 { x ^ y ^ z }

  function I(x: bv32, y: bv32, z: bv32): bv32 { y ^ (x | !z) }

  /** The round functions of section 3.4 of RFC 1321. */
  function Mix(round: nat, x: bv32, y: bv32, z: bv32): bv32 {
    if round == 0 then F(x, y, z) else if round == 1 then G(x, y, z) else if round == 2 then H(x, y, z) else I(x, y, z)
  }

  function F1(x: bv32, y: bv32, z: bv32): bv32 { z ^ (x & (y ^ z)) }

  function F2(x: bv32, y: bv32, z: bv32): bv32 { F1(z, x, y) }

  /** The program's macros, which use fewer operators in the first two rounds. */
  function Macro(round: nat, x: bv32, y: bv32, z: bv32): bv32 {
    if round == 0 then F1(x, y, z)
    else if round == 1 then F2(x, y, z)
    else if round == 2 then H(x, y, z)
    else I(x, y, z)
  }

  function RotateLeft(w: bv32, s: bv32): bv32 {
    if s <= 32 then (w << s) | (w >> (32 - s)) else w
  }

  /** A rotation shifts the word up in 64 bits, and what leaves the low half comes back at its bottom. */
  lemma RotateLeftFolds(w: bv32, s: bv32)
    requires s < 32
    ensures var wide := (w as bv64) << s; RotateLeft(w, s) as bv64 == (wide & 0xffff_ffff) | (wide >> 32)
  {
  }

  function Plus(a: bv32, b: bv32): bv32 { a + b }

  function Words32(): Ops<bv32> { Ops(Plus, RotateLeft, Mix, Macro) }

  lemma FirstMacro(x: bv32, y: bv32, z: bv32)
    ensures z ^ (x & (y ^ z)) == (x & y) | (!x & z)
  {
  }

  lemma FirstRound(x: bv32, y: bv32, z: bv32)
    ensures F1(x, y, z) == F(x, y, z)
  {
    FirstMacro(x, y, z);
  }

  lemma SecondMacro(x: bv32, y: bv32, z: bv32)
    ensures y ^ (z & (x ^ y)) == (x & z) | (y & !z)
  {
  }

  lemma SecondRound(x: bv32, y: bv32, z: bv32)
    ensures F2(x, y, z) == G(x, y, z)
  {
    SecondMacro(x, y, z);
  }

  /** The macros are the standard's functions. */
  lemma MacroIsMix(round: nat, x: bv32, y: bv32, z: bv32)
    ensures Macro(round, x, y, z) == Mix(round, x, y, z)
  {
    if round == 0 {
      FirstRound(x, y, z);
    } else if round == 1 {
      SecondRound(x, y, z);
    }
  }

  lemma Words32AreSound()
    ensures Sound(Words32())
  {
    forall round, x, y, z ensures Words32().macro(round, x, y, z) == Words32().mix(round, x, y, z) {
      MacroIsMix(round, x, y, z);
    }
  }

  // ---------------------------------------------------------------------------------------------
  // The rows

  // The additive constants, round by round.

  const SINES1: seq<bv32> := [
    0xd76aa478, 0xe8c7b756, 0x242070db, 0xc1bdceee, 0xf57c0faf, 0x4787c62a, 0xa8304613, 0xfd469501,
    0x698098d8, 0x8b44f7af, 0xffff5bb1, 0x895cd7be, 0x6b901122, 0xfd987193, 0xa679438e, 0x49b40821
  ]

  const SINES2: seq<bv32> := [
    0xf61e2562, 0xc040b340, 0x265e5a51, 0xe9b6c7aa, 0xd62f105d, 0x02441453, 0xd8a1e681, 0xe7d3fbc8,
    0x21e1cde6, 0xc33707d6, 0xf4d50d87, 0x455a14ed, 0xa9e3e905, 0xfcefa3f8, 0x676f02d9, 0x8d2a4c8a
  ]

  const SINES3: seq<bv32> := [
    0xfffa3942, 0x8771f681, 0x6d9d6122, 0xfde5380c, 0xa4beea44, 0x4bdecfa9, 0xf6bb4b60, 0xbebfbc70,
    0x289b7ec6, 0xeaa127fa, 0xd4ef3085, 0x04881d05, 0xd9d4d039, 0xe6db99e5, 0x1fa27cf8, 0xc4ac5665
  ]

  const SINES4: seq<bv32> := [
    0xf4292244, 0x432aff97, 0xab9423a7, 0xfc93a039, 0x655b59c3, 0x8f0ccc92, 0xffeff47d, 0x85845dd1,
    0x6fa87e4f, 0xfe2ce6e0, 0xa3014314, 0x4e0811a1, 0xf7537e82, 0xbd3af235, 0x2ad7d2bb, 0xeb86d391
  ]

  /** The `j`-th word of a block. */
  function Word(block: Block, j: nat): bv32
    requires j < 16
  {
    block[4 * j] as bv32 | (block[4 * j + 1] as bv32 << 8)
    | (block[4 * j + 2] as bv32 << 16) | (block[4 * j + 3] as bv32 << 24)
  }

  /** Which word of the block step `j` of a round uses. */
  function WordIndex(round: nat, j: nat): (i: nat)
    ensures i < 16
  {
    if round == 0 then j % 16
    else if round == 1 then (5 * j + 1) % 16
    else if round == 2 then (3 * j + 5) % 16
    else 7 * j % 16
  }

  function ShiftOf(round: nat, j: nat): bv32 {
    if j % 4 == 0 then if round == 0 then 7 else if round == 1 then 5 else if round == 2 then 4 else 6
    else if j % 4 == 1 then if round == 0 then 12 else if round == 1 then 9 else if round == 2 then 11 else 10
    else if j % 4 == 2 then if round == 0 then 17 else if round == 1 then 14 else if round == 2 then 16 else 15
    else if round == 0 then 22 else if round == 1 then 20 else if round == 2 then 23 else 21
  }

  /** The rows of one round by rule. */
  function RoundRows(round: nat, sines: seq<bv32>): (rows: seq<Row<bv32>>)
    ensures |rows| == |sines|
    ensures forall j :: 0 <= j < |rows| ==> rows[j] == Row(WordIndex(round, j), sines[j], ShiftOf(round, j))
  {
    seq(|sines|, j requires 0 <= j < |sines| => Row(WordIndex(round, j), sines[j], ShiftOf(round, j)))
  }

  function Rows(): seq<Row<bv32>> {
    RoundRows(0, SINES1) + RoundRows(1, SINES2) + RoundRows(2, SINES3) + RoundRows(3, SINES4)
  }

  /** The lines of the program: the word each step takes, its constant and its shift. */
  const LINES1: seq<Row<bv32>> := [
    Row(0, 0xd76aa478, 7), Row(1, 0xe8c7b756, 12), Row(2, 0x242070db, 17), Row(3, 0xc1bdceee, 22),
    Row(4, 0xf57c0faf, 7), Row(5, 0x4787c62a, 12), Row(6, 0xa8304613, 17), Row(7, 0xfd469501, 22),
    Row(8, 0x698098d8, 7), Row(9, 0x8b44f7af, 12), Row(10, 0xffff5bb1, 17), Row(11, 0x895cd7be, 22),
    Row(12, 0x6b901122, 7), Row(13, 0xfd987193, 12), Row(14, 0xa679438e, 17), Row(15, 0x49b40821, 22)
  ]

  const LINES2: seq<Row<bv32>> := [
    Row(1, 0xf61e2562, 5), Row(6, 0xc040b340, 9), Row(11, 0x265e5a51, 14), Row(0, 0xe9b6c7aa, 20),
    Row(5, 0xd62f105d, 5), Row(10, 0x02441453, 9), Row(15, 0xd8a1e681, 14), Row(4, 0xe7d3fbc8, 20),
    Row(9, 0x21e1cde6, 5), Row(14, 0xc33707d6, 9), Row(3, 0xf4d50d87, 14), Row(8, 0x455a14ed, 20),
    Row(13, 0xa9e3e905, 5), Row(2, 0xfcefa3f8, 9), Row(7, 0x676f02d9, 14), Row(12, 0x8d2a4c8a, 20)
  ]

  const LINES3: seq<Row<bv32>> := [
    Row(5, 0xfffa3942, 4), Row(8, 0x8771f681, 11), Row(11, 0x6d9d6122, 16), Row(14, 0xfde5380c, 23),
    Row(1, 0xa4beea44, 4), Row(4, 0x4bdecfa9, 11), Row(7, 0xf6bb4b60, 16), Row(10, 0xbebfbc70, 23),
    Row(13, 0x289b7ec6, 4), Row(0, 0xeaa127fa, 11), Row(3, 0xd4ef3085, 16), Row(6, 0x04881d05, 23),
    Row(9, 0xd9d4d039, 4), Row(12, 0xe6db99e5, 11), Row(15, 0x1fa27cf8, 16), Row(2, 0xc4ac5665, 23)
  ]

  const LINES4: seq<Row<bv32>> := [
    Row(0, 0xf4292244, 6), Row(7, 0x432aff97, 10), Row(14, 0xab9423a7, 15), Row(5, 0xfc93a039, 21),
    Row(12, 0x655b59c3, 6), Row(3, 0x8f0ccc92, 10), Row(10, 0xffeff47d, 15), Row(1, 0x85845dd1, 21),
    Row(8, 0x6fa87e4f, 6), Row(15, 0xfe2ce6e0, 10), Row(6, 0xa3014314, 15), Row(13, 0x4e0811a1, 21),
    Row(4, 0xf7537e82, 6), Row(11, 0xbd3af235, 10), Row(2, 0x2ad7d2bb, 15), Row(9, 0xeb86d391, 21)
  ]

  function Lines(): seq<Row<bv32>> { LINES1 + LINES2 + LINES3 + LINES4 }

  function Input(block: Block): (input: seq<bv32>)
    ensures |input| == 16
  {
    seq(16, j requires 0 <= j < 16 => Word(block, j))
  }

  // ---------------------------------------------------------------------------------------------
  // The block function

  /** The chaining words after one more block. */
  function Transform(c: Chain, block: Block): Chain {
    var r := Compressed(Words32(), Rows(), Input(block), Regs(c.a, c.b, c.c, c.d));
    Chain(r.a, r.b, r.c, r.d)
  }

  lemma Lines1AreRows()
    ensures LINES1 == RoundRows(0, SINES1) && |SINES1| == 16
  {
    assert LINES1[0] == RoundRows(0, SINES1)[0] && LINES1[1] == RoundRows(0, SINES1)[1]
        && LINES1[2] == RoundRows(0, SINES1)[2] && LINES1[3] == RoundRows(0, SINES1)[3];
    assert LINES1[4] == RoundRows(0, SINES1)[4] && LINES1[5] == RoundRows(0, SINES1)[5]
        && LINES1[6] == RoundRows(0, SINES1)[6] && LINES1[7] == RoundRows(0, SINES1)[7];
    assert LINES1[8] == RoundRows(0, SINES1)[8] && LINES1[9] == RoundRows(0, SINES1)[9]
        && LINES1[10] == RoundRows(0, SINES1)[10] && LINES1[11] == RoundRows(0, SINES1)[11];
    assert LINES1[12] == RoundRows(0, SINES1)[12] && LINES1[13] == RoundRows(0, SINES1)[13]
        && LINES1[14] == RoundRows(0, SINES1)[14] && LINES1[15] == RoundRows(0, SINES1)[15];
  }

  lemma Lines2AreRows()
    ensures LINES2 == RoundRows(1, SINES2) && |SINES2| == 16
  {
    assert LINES2[0] == RoundRows(1, SINES2)[0] && LINES2[1] == RoundRows(1, SINES2)[1]
        && LINES2[2] == RoundRows(1, SINES2)[2] && LINES2[3] == RoundRows(1, SINES2)[3];
    assert LINES2[4] == RoundRows(1, SINES2)[4] && LINES2[5] == RoundRows(1, SINES2)[5]
        && LINES2[6] == RoundRows(1, SINES2)[6] && LINES2[7] == RoundRows(1, SINES2)[7];
    assert LINES2[8] == RoundRows(1, SINES2)[8] && LINES2[9] == RoundRows(1, SINES2)[9]
        && LINES2[10] == RoundRows(1, SINES2)[10] && LINES2[11] == RoundRows(1, SINES2)[11];
    assert LINES2[12] == RoundRows(1, SINES2)[12] && LINES2[13] == RoundRows(1, SINES2)[13]
        && LINES2[14] == RoundRows(1, SINES2)[14] && LINES2[15] == RoundRows(1, SINES2)[15];
  }

  lemma Lines3AreRows()
    ensures LINES3 == RoundRows(2, SINES3) && |SINES3| == 16
  {
    assert LINES3[0] == RoundRows(2, SINES3)[0] && LINES3[1] == RoundRows(2, SINES3)[1]
        && LINES3[2] == RoundRows(2, SINES3)[2] && LINES3[3] == RoundRows(2, SINES3)[3];
    assert LINES3[4] == RoundRows(2, SINES3)[4] && LINES3[5] == RoundRows(2, SINES3)[5]
        && LINES3[6] == RoundRows(2, SINES3)[6] && LINES3[7] == RoundRows(2, SINES3)[7];
    assert LINES3[8] == RoundRows(2, SINES3)[8] && LINES3[9] == RoundRows(2, SINES3)[9]
        && LINES3[10] == RoundRows(2, SINES3)[10] && LINES3[11] == RoundRows(2, SINES3)[11];
    assert LINES3[12] == RoundRows(2, SINES3)[12] && LINES3[13] == RoundRows(2, SINES3)[13]
        && LINES3[14] == RoundRows(2, SINES3)[14] && LINES3[15] == RoundRows(2, SINES3)[15];
  }

  lemma Lines4AreRows()
    ensures LINES4 == RoundRows(3, SINES4) && |SINES4| == 16
  {
    assert LINES4[0] == RoundRows(3, SINES4)[0] && LINES4[1] == RoundRows(3, SINES4)[1]
        && LINES4[2] == RoundRows(3, SINES4)[2] && LINES4[3] == RoundRows(3, SINES4)[3];
    assert LINES4[4] == RoundRows(3, SINES4)[4] && LINES4[5] == RoundRows(3, SINES4)[5]
        && LINES4[6] == RoundRows(3, SINES4)[6] && LINES4[7] == RoundRows(3, SINES4)[7];
    assert LINES4[8] == RoundRows(3, SINES4)[8] && LINES4[9] == RoundRows(3, SINES4)[9]
        && LINES4[10] == RoundRows(3, SINES4)[10] && LINES4[11] == RoundRows(3, SINES4)[11];
    assert LINES4[12] == RoundRows(3, SINES4)[12] && LINES4[13] == RoundRows(3, SINES4)[13]
        && LINES4[14] == RoundRows(3, SINES4)[14] && LINES4[15] == RoundRows(3, SINES4)[15];
  }

  /** The program's lines follow the rule. */
  lemma LinesAreRows()
    ensures Lines() == Rows() && |Rows()| == 64 && forall k :: 0 <= k < 64 ==> Rows()[k].word < 16
  {
    Lines1AreRows();
    Lines2AreRows();
    Lines3AreRows();
    Lines4AreRows();
  }

  lemma LinesRun(block: Block)
    ensures Faithful(Words32(), Input(block)) && Lines() == Rows() && |Lines()| % 4 == 0 && Fits(Lines(), Input(block))
  {
    LinesAreRows();
    Words32AreSound();
    SoundIsFaithful(Words32(), Input(block));
  }

  /** `Md5Transform`: the program's lines on four variables, added to the chaining words in place. */
  method Md5Transform(buf: array<bv32>, block: Block)
    requires buf.Length == 4
    modifies buf
    ensures Chain(buf[0], buf[1], buf[2], buf[3]) == Transform(old(Chain(buf[0], buf[1], buf[2], buf[3])), block)
  {
    LinesRun(block);
    Compress(Words32(), Lines(), Input(block), buf);
  }

  /** The same on a chain. */
  method RunBlock(c: Chain, block: Block) returns (c': Chain)
    ensures c' == Transform(c, block)
  {
    var words := new bv32[4];
    words[0], words[1], words[2], words[3] := c.a, c.b, c.c, c.d;
    Md5Transform(words, block);
    c' := Chain(words[0], words[1], words[2], words[3]);
  }

  /** The `n` low-order bytes of a word in memory. */
  function WordBytes(w: bv32, n: nat): (s: seq<byte>)
    ensures |s| == n
  {
    if n == 0 then [] else [(w & 0xff) as int] + WordBytes(w >> 8, n - 1)
  }

  function WordsBytes(ws: seq<bv32>): (s: seq<byte>)
    ensures |s| == 4 * |ws|
  {
    if ws == [] then [] else WordBytes(ws[0], 4) + WordsBytes(ws[1..])
  }

  /** The sixteen bytes of the chaining words in memory. */
  function ChainBytes(c: Chain): (s: seq<byte>)
    ensures |s| == 16
  {
    WordsBytes([c.a, c.b, c.c, c.d])
  }
}
