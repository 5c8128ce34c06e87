/** A published test of MD5: section A.5 of RFC 1321 gives the digest of "abc".  Its one block goes through all
    64 steps, so the literals below fix every constant, shift and operation. */
module Md5Test {
  import opened Bytes
  import opened Md5Steps
  import opened Md5Block
  import opened Md5

  const START: Regs<bv32> := Regs(0x67452301, 0xefcdab89, 0x98badcfe, 0x10325476)

  /** The words of the padded message. */
  predicate IsAbc(input: seq<bv32>) {
    && |input| == 16 && input[0] == 0x80636261 && input[14] == 0x18
    && forall j :: 1 <= j < 16 && j != 14 ==> input[j] == 0
  }

  /** The registers are `r` after `k` of the steps. */
  predicate Reached(rows: seq<Row<bv32>>, input: seq<bv32>, k: nat, r: Regs<bv32>) {
    && |rows| == 64 && Fits(rows, input) && IsAbc(input)
    && k <= 64 && Steps(Words32(), rows, input, k, START) == r
  }

  lemma OneStep(rows: seq<Row<bv32>>, input: seq<bv32>, k: nat, r: Regs<bv32>, w: bv32)
    requires Reached(rows, input, k, r) && k < 64
    requires NewWord(Words32(), k / 16, rows[k], input, r) == w
    ensures Reached(rows, input, k + 1, Regs(r.d, w, r.b, r.c))
  {
  }

  /** `lines` are the rows from `at` on. */
  predicate Part(rows: seq<Row<bv32>>, at: nat, lines: seq<Row<bv32>>) {
    |lines| == 16 && at + 16 <= |rows| && forall j :: 0 <= j < 16 ==> lines[j] == rows[at + j]
  }

  lemma Round1(rows: seq<Row<bv32>>, lines: seq<Row<bv32>>, input: seq<bv32>)
    requires Reached(rows, input, 0, Regs(0x67452301, 0xefcdab89, 0x98badcfe, 0x10325476)) && Part(rows, 0, lines)
    requires lines[0] == Row(0, 0xd76aa478, 7) && lines[1] == Row(1, 0xe8c7b756, 12)
    requires lines[2] == Row(2, 0x242070db, 17) && lines[3] == Row(3, 0xc1bdceee, 22)
    requires lines[4] == Row(4, 0xf57c0faf, 7) && lines[5] == Row(5, 0x4787c62a, 12)
    requires lines[6] == Row(6, 0xa8304613, 17) && lines[7] == Row(7, 0xfd469501, 22)
    requires lines[8] == Row(8, 0x698098d8, 7) && lines[9] == Row(9, 0x8b44f7af, 12)
    requires lines[10] == Row(10, 0xffff5bb1, 17) && lines[11] == Row(11, 0x895cd7be, 22)
    requires lines[12] == Row(12, 0x6b901122, 7) && lines[13] == Row(13, 0xfd987193, 12)
    requires lines[14] == Row(14, 0xa679438e, 17) && lines[15] == Row(15, 0x49b40821, 22)
    ensures Reached(rows, input, 16, Regs(0xdda9b9a6, 0x72aff2e0, 0xe396856b, 0xa1051895))
  {
    OneStep(rows, input, 0, Regs(0x67452301, 0xefcdab89, 0x98badcfe, 0x10325476), 0xd6d117b4);
    OneStep(rows, input, 1, Regs(0x10325476, 0xd6d117b4, 0xefcdab89, 0x98badcfe), 0x344a8432);
    OneStep(rows, input, 2, Regs(0x98badcfe, 0x344a8432, 0xd6d117b4, 0xefcdab89), 0x2f6fbd72);
    OneStep(rows, input, 3, Regs(0xefcdab89, 0x2f6fbd72, 0x344a8432, 0xd6d117b4), 0x7ad956f2);
    OneStep(rows, input, 4, Regs(0xd6d117b4, 0x7ad956f2, 0x2f6fbd72, 0x344a8432), 0xc73741ef);
    OneStep(rows, input, 5, Regs(0x344a8432, 0xc73741ef, 0x7ad956f2, 0x2f6fbd72), 0x8bac3051);
    OneStep(rows, input, 6, Regs(0x2f6fbd72, 0x8bac3051, 0xc73741ef, 0x7ad956f2), 0x207dc67b);
    OneStep(rows, input, 7, Regs(0x7ad956f2, 0x207dc67b, 0x8bac3051, 0xc73741ef), 0x928d99f6);
    OneStep(rows, input, 8, Regs(0xc73741ef, 0x928d99f6, 0x207dc67b, 0x8bac3051), 0x854b3712);
    OneStep(rows, input, 9, Regs(0x8bac3051, 0x854b3712, 0x928d99f6, 0x207dc67b), 0x74e2f284);
    OneStep(rows, input, 10, Regs(0x207dc67b, 0x74e2f284, 0x854b3712, 0x928d99f6), 0x3020401c);
    OneStep(rows, input, 11, Regs(0x928d99f6, 0x3020401c, 0x74e2f284, 0x854b3712), 0x5ed49596);
    OneStep(rows, input, 12, Regs(0x854b3712, 0x5ed49596, 0x3020401c, 0x74e2f284), 0xdda9b9a6);
    OneStep(rows, input, 13, Regs(0x74e2f284, 0xdda9b9a6, 0x5ed49596, 0x3020401c), 0xa1051895);
    OneStep(rows, input, 14, Regs(0x3020401c, 0xa1051895, 0xdda9b9a6, 0x5ed49596), 0xe396856b);
    OneStep(rows, input, 15, Regs(0x5ed49596, 0xe396856b, 0xa1051895, 0xdda9b9a6), 0x72aff2e0);
  }

  lemma Round2(rows: seq<Row<bv32>>, lines: seq<Row<bv32>>, input: seq<bv32>)
    requires Reached(rows, input, 16, Regs(0xdda9b9a6, 0x72aff2e0, 0xe396856b, 0xa1051895)) && Part(rows, 16, lines)
    requires lines[0] == Row(1, 0xf61e2562, 5) && lines[1] == Row(6, 0xc040b340, 9)
    requires lines[2] == Row(11, 0x265e5a51, 14) && lines[3] == Row(0, 0xe9b6c7aa, 20)
    requires lines[4] == Row(5, 0xd62f105d, 5) && lines[5] == Row(10, 0x02441453, 9)
    requires lines[6] == Row(15, 0xd8a1e681, 14) && lines[7] == Row(4, 0xe7d3fbc8, 20)
    requires lines[8] == Row(9, 0x21e1cde6, 5) && lines[9] == Row(14, 0xc33707d6, 9)
    requires lines[10] == Row(3, 0xf4d50d87, 14) && lines[11] == Row(8, 0x455a14ed, 20)
    requires lines[12] == Row(13, 0xa9e3e905, 5) && lines[13] == Row(2, 0xfcefa3f8, 9)
    requires lines[14] == Row(7, 0x676f02d9, 14) && lines[15] == Row(12, 0x8d2a4c8a, 20)
    ensures Reached(rows, input, 32, Regs(0x790a77fb, 0x726342d3, 0xa62884aa, 0x9f47e4f8))
  {
    OneStep(rows, input, 16, Regs(0xdda9b9a6, 0x72aff2e0, 0xe396856b, 0xa1051895), 0x3e9e9126);
    OneStep(rows, input, 17, Regs(0xa1051895, 0x3e9e9126, 0x72aff2e0, 0xe396856b), 0x4a1d804e);
    OneStep(rows, input, 18, Regs(0xe396856b, 0x4a1d804e, 0x3e9e9126, 0x72aff2e0), 0xe25e1652);
    OneStep(rows, input, 19, Regs(0x72aff2e0, 0xe25e1652, 0x4a1d804e, 0x3e9e9126), 0xb5b204e4);
    OneStep(rows, input, 20, Regs(0x3e9e9126, 0xb5b204e4, 0xe25e1652, 0x4a1d804e), 0x59a8ffda);
    OneStep(rows, input, 21, Regs(0x4a1d804e, 0x59a8ffda, 0xb5b204e4, 0xe25e1652), 0x6d002f1e);
    OneStep(rows, input, 22, Regs(0xe25e1652, 0x6d002f1e, 0x59a8ffda, 0xb5b204e4), 0xabfc7920);
    OneStep(rows, input, 23, Regs(0xb5b204e4, 0xabfc7920, 0x6d002f1e, 0x59a8ffda), 0x47092c07);
    OneStep(rows, input, 24, Regs(0x59a8ffda, 0x47092c07, 0xabfc7920, 0x6d002f1e), 0xb7f268cf);
    OneStep(rows, input, 25, Regs(0x6d002f1e, 0xb7f268cf, 0x47092c07, 0xabfc7920), 0x09388eff);
    OneStep(rows, input, 26, Regs(0xabfc7920, 0x09388eff, 0xb7f268cf, 0x47092c07), 0xfe1623b1);
    OneStep(rows, input, 27, Regs(0x47092c07, 0xfe1623b1, 0x09388eff, 0xb7f268cf), 0x786acb8f);
    OneStep(rows, input, 28, Regs(0xb7f268cf, 0x786acb8f, 0xfe1623b1, 0x09388eff), 0x790a77fb);
    OneStep(rows, input, 29, Regs(0x09388eff, 0x790a77fb, 0x786acb8f, 0xfe1623b1), 0x9f47e4f8);
    OneStep(rows, input, 30, Regs(0xfe1623b1, 0x9f47e4f8, 0x790a77fb, 0x786acb8f), 0xa62884aa);
    OneStep(rows, input, 31, Regs(0x786acb8f, 0xa62884aa, 0x9f47e4f8, 0x790a77fb), 0x726342d3);
  }

  lemma Round3(rows: seq<Row<bv32>>, lines: seq<Row<bv32>>, input: seq<bv32>)
    requires Reached(rows, input, 32, Regs(0x790a77fb, 0x726342d3, 0xa62884aa, 0x9f47e4f8)) && Part(rows, 32, lines)
    requires lines[0] == Row(5, 0xfffa3942, 4) && lines[1] == Row(8, 0x8771f681, 11)
    requires lines[2] == Row(11, 0x6d9d6122, 16) && lines[3] == Row(14, 0xfde5380c, 23)
    requires lines[4] == Row(1, 0xa4beea44, 4) && lines[5] == Row(4, 0x4bdecfa9, 11)
    requires lines[6] == Row(7, 0xf6bb4b60, 16) && lines[7] == Row(10, 0xbebfbc70, 23)
    requires lines[8] == Row(13, 0x289b7ec6, 4) && lines[9] == Row(0, 0xeaa127fa, 11)
    requires lines[10] == Row(3, 0xd4ef3085, 16) && lines[11] == Row(6, 0x04881d05, 23)
    requires lines[12] == Row(9, 0xd9d4d039, 4) && lines[13] == Row(12, 0xe6db99e5, 11)
    requires lines[14] == Row(15, 0x1fa27cf8, 16) && lines[15] == Row(2, 0xc4ac5665, 23)
    ensures Reached(rows, input, 48, Regs(0x7f2e507b, 0x7beb9700, 0x8fae6399, 0x99d9679d))
  {
    OneStep(rows, input, 32, Regs(0x790a77fb, 0x726342d3, 0xa62884aa, 0x9f47e4f8), 0xb3707ebf);
    OneStep(rows, input, 33, Regs(0x9f47e4f8, 0xb3707ebf, 0x726342d3, 0xa62884aa), 0x60127b2e);
    OneStep(rows, input, 34, Regs(0xa62884aa, 0x60127b2e, 0xb3707ebf, 0x726342d3), 0x8d212ff5);
    OneStep(rows, input, 35, Regs(0x726342d3, 0x8d212ff5, 0x60127b2e, 0xb3707ebf), 0x3b0875c7);
    OneStep(rows, input, 36, Regs(0xb3707ebf, 0x3b0875c7, 0x8d212ff5, 0x60127b2e), 0x21b117b9);
    OneStep(rows, input, 37, Regs(0x60127b2e, 0x21b117b9, 0x3b0875c7, 0x8d212ff5), 0x6e7429d5);
    OneStep(rows, input, 38, Regs(0x8d212ff5, 0x6e7429d5, 0x21b117b9, 0x3b0875c7), 0x3575227e);
    OneStep(rows, input, 39, Regs(0x3b0875c7, 0x3575227e, 0x6e7429d5, 0x21b117b9), 0x5a2f5ea5);
    OneStep(rows, input, 40, Regs(0x21b117b9, 0x5a2f5ea5, 0x3575227e, 0x6e7429d5), 0x11de1779);
    OneStep(rows, input, 41, Regs(0x6e7429d5, 0x11de1779, 0x5a2f5ea5, 0x3575227e), 0xfadcaa38);
    OneStep(rows, input, 42, Regs(0x3575227e, 0xfadcaa38, 0x11de1779, 0x5a2f5ea5), 0x31c465ca);
    OneStep(rows, input, 43, Regs(0x5a2f5ea5, 0x31c465ca, 0xfadcaa38, 0x11de1779), 0x4c6124f4);
    OneStep(rows, input, 44, Regs(0x11de1779, 0x4c6124f4, 0x31c465ca, 0xfadcaa38), 0x7f2e507b);
    OneStep(rows, input, 45, Regs(0xfadcaa38, 0x7f2e507b, 0x4c6124f4, 0x31c465ca), 0x99d9679d);
    OneStep(rows, input, 46, Regs(0x31c465ca, 0x99d9679d, 0x7f2e507b, 0x4c6124f4), 0x8fae6399);
    OneStep(rows, input, 47, Regs(0x4c6124f4, 0x8fae6399, 0x99d9679d, 0x7f2e507b), 0x7beb9700);
  }

  lemma Round4(rows: seq<Row<bv32>>, lines: seq<Row<bv32>>, input: seq<bv32>)
    requires Reached(rows, input, 48, Regs(0x7f2e507b, 0x7beb9700, 0x8fae6399, 0x99d9679d)) && Part(rows, 48, lines)
    requires lines[0] == Row(0, 0xf4292244, 6) && lines[1] == Row(7, 0x432aff97, 10)
    requires lines[2] == Row(14, 0xab9423a7, 15) && lines[3] == Row(5, 0xfc93a039, 21)
    requires lines[4] == Row(12, 0x655b59c3, 6) && lines[5] == Row(3, 0x8f0ccc92, 10)
    requires lines[6] == Row(10, 0xffeff47d, 15) && lines[7] == Row(1, 0x85845dd1, 21)
    requires lines[8] == Row(8, 0x6fa87e4f, 6) && lines[9] == Row(15, 0xfe2ce6e0, 10)
    requires lines[10] == Row(6, 0xa3014314, 15) && lines[11] == Row(13, 0x4e0811a1, 21)
    requires lines[12] == Row(4, 0xf7537e82, 6) && lines[13] == Row(11, 0xbd3af235, 10)
    requires lines[14] == Row(2, 0x2ad7d2bb, 15) && lines[15] == Row(9, 0xeb86d391, 21)
    ensures Reached(rows, input, 64, Regs(0x310ade8f, 0xc08226b3, 0xe484b9d8, 0x624d8cb2))
  {
    OneStep(rows, input, 48, Regs(0x7f2e507b, 0x7beb9700, 0x8fae6399, 0x99d9679d), 0x7b201df8);
    OneStep(rows, input, 49, Regs(0x99d9679d, 0x7b201df8, 0x7beb9700, 0x8fae6399), 0xf4e8e96e);
    OneStep(rows, input, 50, Regs(0x8fae6399, 0xf4e8e96e, 0x7b201df8, 0x7beb9700), 0xb298cefd);
    OneStep(rows, input, 51, Regs(0x7beb9700, 0xb298cefd, 0xf4e8e96e, 0x7b201df8), 0x8bf025c4);
    OneStep(rows, input, 52, Regs(0x7b201df8, 0x8bf025c4, 0xb298cefd, 0xf4e8e96e), 0x06cc5e8a);
    OneStep(rows, input, 53, Regs(0xf4e8e96e, 0x06cc5e8a, 0x8bf025c4, 0xb298cefd), 0x5b0d97aa);
    OneStep(rows, input, 54, Regs(0xb298cefd, 0x5b0d97aa, 0x06cc5e8a, 0x8bf025c4), 0x7d632dd0);
    OneStep(rows, input, 55, Regs(0x8bf025c4, 0x7d632dd0, 0x5b0d97aa, 0x06cc5e8a), 0x3bfa2c27);
    OneStep(rows, input, 56, Regs(0x06cc5e8a, 0x3bfa2c27, 0x7d632dd0, 0x5b0d97aa), 0x7f81cc35);
    OneStep(rows, input, 57, Regs(0x5b0d97aa, 0x7f81cc35, 0x3bfa2c27, 0x7d632dd0), 0x094454ab);
    OneStep(rows, input, 58, Regs(0x7d632dd0, 0x094454ab, 0x7f81cc35, 0x3bfa2c27), 0x4f9dbe3f);
    OneStep(rows, input, 59, Regs(0x3bfa2c27, 0x4f9dbe3f, 0x094454ab, 0x7f81cc35), 0x7327d604);
    OneStep(rows, input, 60, Regs(0x7f81cc35, 0x7327d604, 0x4f9dbe3f, 0x094454ab), 0x310ade8f);
    OneStep(rows, input, 61, Regs(0x094454ab, 0x310ade8f, 0x7327d604, 0x4f9dbe3f), 0x624d8cb2);
    OneStep(rows, input, 62, Regs(0x4f9dbe3f, 0x624d8cb2, 0x310ade8f, 0x7327d604), 0xe484b9d8);
    OneStep(rows, input, 63, Regs(0x7327d604, 0xe484b9d8, 0x624d8cb2, 0x310ade8f), 0xc08226b3);
  }

  lemma Lines1(rows: seq<Row<bv32>>, input: seq<bv32>)
    requires Reached(rows, input, 0, Regs(0x67452301, 0xefcdab89, 0x98badcfe, 0x10325476)) && Part(rows, 0, LINES1)
    ensures Reached(rows, input, 16, Regs(0xdda9b9a6, 0x72aff2e0, 0xe396856b, 0xa1051895))
  {
    Round1(rows, LINES1, input);
  }

  lemma Lines2(rows: seq<Row<bv32>>, input: seq<bv32>)
    requires Reached(rows, input, 16, Regs(0xdda9b9a6, 0x72aff2e0, 0xe396856b, 0xa1051895)) && Part(rows, 16, LINES2)
    ensures Reached(rows, input, 32, Regs(0x790a77fb, 0x726342d3, 0xa62884aa, 0x9f47e4f8))
  {
    Round2(rows, LINES2, input);
  }

  lemma Lines3(rows: seq<Row<bv32>>, input: seq<bv32>)
    requires Reached(rows, input, 32, Regs(0x790a77fb, 0x726342d3, 0xa62884aa, 0x9f47e4f8)) && Part(rows, 32, LINES3)
    ensures Reached(rows, input, 48, Regs(0x7f2e507b, 0x7beb9700, 0x8fae6399, 0x99d9679d))
  {
    Round3(rows, LINES3, input);
  }

  lemma Lines4(rows: seq<Row<bv32>>, input: seq<bv32>)
    requires Reached(rows, input, 48, Regs(0x7f2e507b, 0x7beb9700, 0x8fae6399, 0x99d9679d)) && Part(rows, 48, LINES4)
    ensures Reached(rows, input, 64, Regs(0x310ade8f, 0xc08226b3, 0xe484b9d8, 0x624d8cb2))
  {
    Round4(rows, LINES4, input);
  }

  lemma PartsOfRows()
    ensures |Rows()| == 64
    ensures Part(Rows(), 0, LINES1) && Part(Rows(), 16, LINES2) && Part(Rows(), 32, LINES3) && Part(Rows(), 48, LINES4)
  {
    Lines1AreRows();
    Lines2AreRows();
    Lines3AreRows();
    Lines4AreRows();
  }

  const ABC: seq<byte> := [0x61, 0x62, 0x63]

  lemma LengthOfAbc()
    ensures LittleEndian(24, 8) == [24, 0, 0, 0, 0, 0, 0, 0]
  {
  }

  lemma PaddedAbc()
    ensures ABC + Padding(3) == [0x61, 0x62, 0x63, 0x80] + Zeros(52) + [24, 0, 0, 0, 0, 0, 0, 0]
  {
    LengthOfAbc();
  }

  lemma InputOfAbc(block: Block)
    requires block == [0x61, 0x62, 0x63, 0x80] + Zeros(52) + [24, 0, 0, 0, 0, 0, 0, 0]
    ensures IsAbc(Input(block))
  {
    assert block[56] == 24 && block[57] == 0 && block[58] == 0 && block[59] == 0;
    assert forall j :: 4 <= j < 64 && j != 56 ==> block[j] == 0;
    assert forall j: nat :: 1 <= j < 16 && j != 14 ==> Word(block, j) == 0;
  }

  lemma TransformAbc(block: Block)
    requires IsAbc(Input(block))
    ensures Transform(INITIAL, block) == Chain(0x98500190, 0xb04fd23c, 0x7d3f96d6, 0x727fe128)
  {
    var input := Input(block);
    PartsOfRows();
    LinesAreRows();
    assert Reached(Rows(), input, 0, START);
    Lines1(Rows(), input);
    Lines2(Rows(), input);
    Lines3(Rows(), input);
    Lines4(Rows(), input);
  }

  lemma BytesOfWord(w: bv32, w1: bv32, w2: bv32, w3: bv32)
    requires w >> 8 == w1 && w1 >> 8 == w2 && w2 >> 8 == w3
    ensures WordBytes(w, 4) == [(w & 0xff) as int, (w1 & 0xff) as int, (w2 & 0xff) as int, (w3 & 0xff) as int]
  {
    assert WordBytes(w3, 1) == [(w3 & 0xff) as int];
    assert WordBytes(w2, 2) == [(w2 & 0xff) as int] + WordBytes(w3, 1);
    assert WordBytes(w1, 3) == [(w1 & 0xff) as int] + WordBytes(w2, 2);
  }

  lemma BytesOfMore(w: bv32, rest: seq<bv32>)
    ensures WordsBytes([w] + rest) == WordBytes(w, 4) + WordsBytes(rest)
  {
    assert ([w] + rest)[1..] == rest;
  }

  lemma BytesOfChain(c: Chain)
    ensures ChainBytes(c) == WordBytes(c.a, 4) + WordBytes(c.b, 4) + WordBytes(c.c, 4) + WordBytes(c.d, 4)
  {
    BytesOfMore(c.d, []);
    BytesOfMore(c.c, [c.d]);
    BytesOfMore(c.b, [c.c, c.d]);
    BytesOfMore(c.a, [c.b, c.c, c.d]);
    assert [c.a, c.b, c.c, c.d] == [c.a] + [c.b, c.c, c.d] && [c.b, c.c, c.d] == [c.b] + [c.c, c.d]
        && [c.c, c.d] == [c.c] + [c.d] && [c.d] == [c.d] + [];
  }

  lemma BytesOfDigest()
    ensures ChainBytes(Chain(0x98500190, 0xb04fd23c, 0x7d3f96d6, 0x727fe128)) ==
            [0x90, 0x01, 0x50, 0x98, 0x3c, 0xd2, 0x4f, 0xb0, 0xd6, 0x96, 0x3f, 0x7d, 0x28, 0xe1, 0x7f, 0x72]
  {
    BytesOfChain(Chain(0x98500190, 0xb04fd23c, 0x7d3f96d6, 0x727fe128));
    BytesOfWord(0x98500190, 0x00985001, 0x00009850, 0x00000098);
    BytesOfWord(0xb04fd23c, 0x00b04fd2, 0x0000b04f, 0x000000b0);
    BytesOfWord(0x7d3f96d6, 0x007d3f96, 0x00007d3f, 0x0000007d);
    BytesOfWord(0x727fe128, 0x00727fe1, 0x0000727f, 0x00000072);
    assert WordBytes(0x98500190, 4) == [0x90, 0x01, 0x50, 0x98];
    assert WordBytes(0xb04fd23c, 4) == [0x3c, 0xd2, 0x4f, 0xb0];
    assert WordBytes(0x7d3f96d6, 4) == [0xd6, 0x96, 0x3f, 0x7d];
    assert WordBytes(0x727fe128, 4) == [0x28, 0xe1, 0x7f, 0x72];
  }

  /** The digest of "abc". */
  lemma DigestOfAbc()
    ensures Digest(Transform, [0x61, 0x62, 0x63]) ==
            [0x90, 0x01, 0x50, 0x98, 0x3c, 0xd2, 0x4f, 0xb0, 0xd6, 0x96, 0x3f, 0x7d, 0x28, 0xe1, 0x7f, 0x72]
  {
    PaddedAbc();
    var block: Block := ABC + Padding(3);
    InputOfAbc(block);
    TransformAbc(block);
    AbsorbBlock(Transform, INITIAL, [], block);
    assert [] + block == block;
    BytesOfDigest();
  }
}
