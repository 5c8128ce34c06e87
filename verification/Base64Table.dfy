/** Base64 and the cipher on it, character by character: Table 1 and section 4 of RFC 4648. */
module Base64Table {
  import opened Bytes
  import opened Base64
  import opened Cipher

  const UPPER := "ABCDEFGHIJKLMNOPQRSTUVWXYZ"
  const LOWER := "abcdefghijklmnopqrstuvwxyz"
  const DIGITS := "0123456789"

  /** The 64 symbols in their order. */
  function Table(p: Symbol62): (t: string)
    ensures |t| == 64
  {
    UPPER + LOWER + DIGITS + [p] + "/"
  }

  lemma UpperAt(v: nat)
    requires v < 26
    ensures UPPER[v] as int == 'A' as int + v
  {
  }

  lemma LowerAt(v: nat)
    requires v < 26
    ensures LOWER[v] as int == 'a' as int + v
  {
  }

  lemma DigitAt(v: nat)
    requires v < 10
    ensures DIGITS[v] as int == '0' as int + v
  {
  }

  lemma SymbolIsInTable(p: Symbol62, v: nat)
    requires v < 64
    ensures Symbol(p, v) == Table(p)[v]
  {
    if v < 26 { UpperAt(v); }
    else if v < 52 { LowerAt(v - 26); }
    else if v < 62 { DigitAt(v - 52); }
  }

  lemma SextetsAre(a: byte, b: byte, c: byte)
    ensures var n := Group(a, b, c);
            && Sextet(n, 0) == a / 4 && Sextet(n, 1) == a % 4 * 16 + b / 16
            && Sextet(n, 2) == b % 16 * 4 + c / 64 && Sextet(n, 3) == c % 64
  {
    var x: nat, y: nat, z: nat, w: nat := a / 4, a % 4 * 16 + b / 16, b % 16 * 4 + c / 64, c % 64;
    SextetsOfGroup(x, y, z, w);
    assert Group64(x, y, z, w) == Group(a, b, c);
  }

  lemma SymbolsAre(p: Symbol62, a: byte, b: byte, c: byte)
    ensures Symbols(p, Group(a, b, c), 4) ==
            [Symbol(p, a / 4), Symbol(p, a % 4 * 16 + b / 16), Symbol(p, b % 16 * 4 + c / 64), Symbol(p, c % 64)]
    ensures Symbols(p, Group(a, b, c), 3) ==
            [Symbol(p, a / 4), Symbol(p, a % 4 * 16 + b / 16), Symbol(p, b % 16 * 4 + c / 64)]
    ensures Symbols(p, Group(a, b, c), 2) == [Symbol(p, a / 4), Symbol(p, a % 4 * 16 + b / 16)]
  {
    SextetsAre(a, b, c);
  }

  lemma EncodeThreeSymbols(p: Symbol62, a: byte, b: byte, c: byte, rest: seq<byte>)
    ensures Encode(p, [a, b, c] + rest) ==
            [Symbol(p, a / 4), Symbol(p, a % 4 * 16 + b / 16), Symbol(p, b % 16 * 4 + c / 64), Symbol(p, c % 64)]
            + Encode(p, rest)
  {
    SymbolsAre(p, a, b, c);
    assert ([a, b, c] + rest)[3..] == rest;
  }

  /** Three bytes are four symbols: of their 24 bits, six at a time from the left. */
  lemma EncodeThree(p: Symbol62, a: byte, b: byte, c: byte, rest: seq<byte>)
    ensures Encode(p, [a, b, c] + rest) ==
            [Table(p)[a / 4], Table(p)[a % 4 * 16 + b / 16], Table(p)[b % 16 * 4 + c / 64], Table(p)[c % 64]]
            + Encode(p, rest)
  {
    EncodeThreeSymbols(p, a, b, c, rest);
    SymbolIsInTable(p, a / 4);
    SymbolIsInTable(p, a % 4 * 16 + b / 16);
    SymbolIsInTable(p, b % 16 * 4 + c / 64);
    SymbolIsInTable(p, c % 64);
  }

  lemma EncodeShort(p: Symbol62, a: byte, b: byte)
    ensures Encode(p, [a]) == [Symbol(p, a / 4), Symbol(p, a % 4 * 16), '=', '=']
    ensures Encode(p, [a, b]) == [Symbol(p, a / 4), Symbol(p, a % 4 * 16 + b / 16), Symbol(p, b % 16 * 4), '=']
  {
    SymbolsAre(p, a, 0, 0);
    SymbolsAre(p, a, b, 0);
  }

  /** One byte at the end is padded with zero bits, and its two symbols with '='. */
  lemma EncodeOne(p: Symbol62, a: byte)
    ensures Encode(p, []) == ""
    ensures Encode(p, [a]) == [Table(p)[a / 4], Table(p)[a % 4 * 16], '=', '=']
  {
    EncodeShort(p, a, 0);
    SymbolIsInTable(p, a / 4);
    SymbolIsInTable(p, a % 4 * 16);
  }

  /** So are two. */
  lemma EncodeTwo(p: Symbol62, a: byte, b: byte)
    ensures Encode(p, [a, b]) == [Table(p)[a / 4], Table(p)[a % 4 * 16 + b / 16], Table(p)[b % 16 * 4], '=']
  {
    EncodeShort(p, a, b);
    SymbolIsInTable(p, a / 4);
    SymbolIsInTable(p, a % 4 * 16 + b / 16);
    SymbolIsInTable(p, b % 16 * 4);
  }

  lemma TableIsAlphabet(p: Symbol62, v: nat)
    requires v < 64
    ensures InAlphabet(p, Table(p)[v]) && Find(p, Table(p)[v]) == v
  {
    SymbolIsInTable(p, v);
    FindSymbol(p, v);
  }

  /** Only the characters of the table are symbols. */
  lemma InTableIff(p: Symbol62, c: char)
    ensures InAlphabet(p, c) <==> c in Table(p)
  {
    if InAlphabet(p, c) {
      SymbolFind(p, c);
      SymbolIsInTable(p, Find(p, c));
    }
    if c in Table(p) {
      var v :| 0 <= v < 64 && Table(p)[v] == c;
      TableIsAlphabet(p, v);
    }
  }

  lemma OctetsAre(x: nat, y: nat, z: nat, w: nat)
    requires x < 64 && y < 64 && z < 64 && w < 64
    ensures var n := Group64(x, y, z, w);
            && Octet(n, 0) == x * 4 + y / 16 && Octet(n, 1) == y % 16 * 16 + z / 4 && Octet(n, 2) == z % 4 * 64 + w
  {
    var a: byte, b: byte, c: byte := x * 4 + y / 16, y % 16 * 16 + z / 4, z % 4 * 64 + w;
    OctetsOfGroup(a, b, c);
    assert Group(a, b, c) == Group64(x, y, z, w);
  }

  lemma DecodeFourSymbols(p: Symbol62, x: nat, y: nat, z: nat, w: nat, rest: string)
    requires x < 64 && y < 64 && z < 64 && w < 64
    ensures Decode(p, [Symbol(p, x), Symbol(p, y), Symbol(p, z), Symbol(p, w)] + rest) ==
            [x * 4 + y / 16, y % 16 * 16 + z / 4, z % 4 * 64 + w] + Decode(p, rest)
  {
    var n := Group64(x, y, z, w);
    SextetsOfGroup(x, y, z, w);
    assert Symbols(p, n, 4) == [Symbol(p, x), Symbol(p, y), Symbol(p, z), Symbol(p, w)];
    DecodeGroup(p, n, rest);
    OctetsAre(x, y, z, w);
  }

  /** Four symbols are three bytes. */
  lemma DecodeFour(p: Symbol62, x: nat, y: nat, z: nat, w: nat, rest: string)
    requires x < 64 && y < 64 && z < 64 && w < 64
    ensures Decode(p, [Table(p)[x], Table(p)[y], Table(p)[z], Table(p)[w]] + rest) ==
            [x * 4 + y / 16, y % 16 * 16 + z / 4, z % 4 * 64 + w] + Decode(p, rest)
  {
    SymbolIsInTable(p, x);
    SymbolIsInTable(p, y);
    SymbolIsInTable(p, z);
    SymbolIsInTable(p, w);
    DecodeFourSymbols(p, x, y, z, w, rest);
  }

  lemma DecodeTwoSymbols(p: Symbol62, x: nat, y: nat, rest: string)
    requires x < 64 && y < 64 && (rest == "" || !InAlphabet(p, rest[0]))
    ensures Decode(p, rest) == [] && Decode(p, [Symbol(p, x)] + rest) == []
    ensures Decode(p, [Symbol(p, x), Symbol(p, y)] + rest) == [x * 4 + y / 16]
  {
    FindSymbol(p, x);
    FindSymbol(p, y);
    RunOfPadded(p, "", rest);
    assert "" + rest == rest;
    RunOfPadded(p, [Symbol(p, x)], rest);
    RunOfPadded(p, [Symbol(p, x), Symbol(p, y)], rest);
    OctetsAre(x, y, 0, 0);
  }

  lemma DecodeThreeSymbols(p: Symbol62, x: nat, y: nat, z: nat, rest: string)
    requires x < 64 && y < 64 && z < 64 && (rest == "" || !InAlphabet(p, rest[0]))
    ensures Decode(p, [Symbol(p, x), Symbol(p, y), Symbol(p, z)] + rest) == [x * 4 + y / 16, y % 16 * 16 + z / 4]
  {
    FindSymbol(p, x);
    FindSymbol(p, y);
    FindSymbol(p, z);
    RunOfPadded(p, [Symbol(p, x), Symbol(p, y), Symbol(p, z)], rest);
    OctetsAre(x, y, z, 0);
  }

  /** Two or three symbols before the end are one or two bytes, one is none, and their spare bits are dropped. */
  lemma DecodeEnd(p: Symbol62, x: nat, y: nat, z: nat, rest: string)
    requires x < 64 && y < 64 && z < 64 && (rest == "" || rest[0] !in Table(p))
    ensures Decode(p, rest) == [] && Decode(p, [Table(p)[x]] + rest) == []
    ensures Decode(p, [Table(p)[x], Table(p)[y]] + rest) == [x * 4 + y / 16]
    ensures Decode(p, [Table(p)[x], Table(p)[y], Table(p)[z]] + rest) == [x * 4 + y / 16, y % 16 * 16 + z / 4]
  {
    if rest != "" { InTableIff(p, rest[0]); }
    SymbolIsInTable(p, x);
    SymbolIsInTable(p, y);
    SymbolIsInTable(p, z);
    DecodeTwoSymbols(p, x, y, rest);
    DecodeThreeSymbols(p, x, y, z, rest);
  }

  // ---------------------------------------------------------------------------------------------
  // The cipher

  /** Bit `i` of a number, counted from the lowest. */
  predicate Bit(n: nat, i: nat) { if i == 0 then n % 2 == 1 else Bit(n / 2, i - 1) }

  lemma {:induction false} XorBitAt(a: nat, b: nat, n: nat, i: nat)
    requires i < n
    ensures Bit(XorBits(a, b, n), i) <==> Bit(a, i) != Bit(b, i)
  {
    var rest := XorBits(a / 2, b / 2, n - 1);
    var bit := if a % 2 == b % 2 then 0 else 1;
    assert (bit + 2 * rest) / 2 == rest && (bit + 2 * rest) % 2 == bit;
    if i > 0 { XorBitAt(a / 2, b / 2, n - 1, i - 1); }
  }

  /** `r` differs from `a` in exactly the bits of `key`. */
  ghost predicate IsMasked(a: byte, key: byte, r: byte) {
    forall i: nat :: i < 8 ==> (Bit(r, i) <==> Bit(a, i) != Bit(key, i))
  }

  lemma XorIsMasked(a: byte, key: byte)
    ensures IsMasked(a, key, Xor(a, key))
  {
    forall i: nat | i < 8 ensures Bit(Xor(a, key), i) <==> Bit(a, i) != Bit(key, i) { XorBitAt(a, key, 8, i); }
  }

  lemma SealedIs(text: seq<byte>)
    ensures var d := Seal(text, MASK);
            && |d| == |text| + 1 && d[|text|] == 20
            && forall i :: 0 <= i < |text| ==> IsMasked(text[|text| - 1 - i], 20, d[i])
  {
    var d := Seal(text, MASK);
    forall i | 0 <= i < |text| ensures IsMasked(text[|text| - 1 - i], 20, d[i]) {
      XorIsMasked(text[|text| - 1 - i], 20);
    }
  }

  /** An encrypted text is the encoding of its bytes in reverse, each masked with 20, and of the byte 20. */
  lemma EncryptedIs(p: Symbol62, text: seq<byte>)
    ensures exists d: seq<byte> ::
              && Encrypt(p, text) == Encode(p, d) && |d| == |text| + 1 && d[|text|] == 20
              && forall i :: 0 <= i < |text| ==> IsMasked(text[|text| - 1 - i], 20, d[i])
  {
    SealedIs(text);
  }

  lemma UnsealedIs(d: seq<byte>, key: byte)
    requires d != [] && key == KeyOf(d[|d| - 1])
    ensures var n := |d| - 1;
            && |Unseal(d)| == n && forall i :: 0 <= i < n ==> IsMasked(d[n - 1 - i], key, Unseal(d)[i])
  {
    var n := |d| - 1;
    forall i | 0 <= i < n ensures IsMasked(d[n - 1 - i], key, Unseal(d)[i]) { XorIsMasked(d[n - 1 - i], key); }
  }

  /** What division by 32 leaves of a signed character, as a byte. */
  function Remainder(c: byte): byte {
    if c < 128 then c % 32 else (256 - (256 - c as int) % 32) % 256
  }

  lemma RemainderIsKey(c: byte)
    ensures Remainder(c) == KeyOf(c)
  {
  }

  /** Decrypting masks all bytes but the last with what division by 32 leaves of the last one, and reverses them. */
  lemma DecryptedIs(p: Symbol62, s: string)
    ensures Decrypt(p, s).None? <==> Decode(p, s) == []
    ensures var d := Decode(p, s);
            d != [] ==>
              var n := |d| - 1;
              && |Decrypt(p, s).value| == n
              && forall i :: 0 <= i < n ==> IsMasked(d[n - 1 - i], Remainder(d[n]), Decrypt(p, s).value[i])
  {
    var d := Decode(p, s);
    if d != [] {
      RemainderIsKey(d[|d| - 1]);
      UnsealedIs(d, Remainder(d[|d| - 1]));
    }
  }
}
