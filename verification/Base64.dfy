/** Base64 as section 4 of RFC 4648 defines it, over two alphabets that differ in symbol 62. */
module Base64 {
  import opened Bytes

  /** Symbol 62 is '+' in one alphabet and '-' in the other. */
  type Symbol62 = c: char | c == '+' || c == '-' witness '+'

  function Symbol(p: Symbol62, v: int): char
    requires 0 <= v < 64
  {
    if v < 26 then ('A' as int + v) as char
    else if v < 52 then ('a' as int + v - 26) as char
    else if v < 62 then ('0' as int + v - 52) as char
    else if v == 62 then p else '/'
  }

  /** The place of a character in the alphabet; a search that fails leaves 255 in a byte. */
  function Find(p: Symbol62, c: char): byte {
    if 'A' <= c <= 'Z' then c as int - 'A' as int
    else if 'a' <= c <= 'z' then c as int - 'a' as int + 26
    else if '0' <= c <= '9' then c as int - '0' as int + 52
    else if c == p then 62 else if c == '/' then 63 else 255
  }

  predicate InAlphabet(p: Symbol62, c: char) {
    'A' <= c <= 'Z' || 'a' <= c <= 'z' || '0' <= c <= '9' || c == p || c == '/'
  }

  lemma FindSymbol(p: Symbol62, v: int)
    requires 0 <= v < 64
    ensures InAlphabet(p, Symbol(p, v)) && Find(p, Symbol(p, v)) == v && Symbol(p, v) != '='
  {
  }

  lemma SymbolFind(p: Symbol62, c: char)
    ensures InAlphabet(p, c) <==> Find(p, c) < 64
    ensures Find(p, c) < 64 ==> Symbol(p, Find(p, c)) == c && c != '='
  {
  }

  // ---------------------------------------------------------------------------------------------
  // Groups of 24 bits

  function Group(a: byte, b: byte, c: byte): nat { 65536 * (a as int) + 256 * (b as int) + c as int }

  /** The sextets of a group, most significant first. */
  function Sextet(n: nat, k: nat): (v: int)
    requires k < 4
    ensures 0 <= v < 64
  {
    match k
    case 0 => n / 64 / 64 / 64 % 64
    case 1 => n / 64 / 64 % 64
    case 2 => n / 64 % 64
    case _ => n % 64
  }

  /** The bytes of a group, most significant first. */
  function Octet(n: nat, k: nat): (v: byte)
    requires k < 3
  {
    match k
    case 0 => n / 256 / 256 % 256
    case 1 => n / 256 % 256
    case _ => n % 256
  }

  function Group64(a: nat, b: nat, c: nat, d: nat): nat { 262144 * a + 4096 * b + 64 * c + d }

  lemma GroupOfSextets(n: nat)
    requires n < 16777216
    ensures Group64(Sextet(n, 0), Sextet(n, 1), Sextet(n, 2), Sextet(n, 3)) == n
  {
    var n1 := n / 64;
    var n2 := n1 / 64;
    assert n1 < 262144 && n2 < 4096 && n2 / 64 < 64;
    assert n == 64 * n1 + n % 64 && n1 == 64 * n2 + n1 % 64 && n2 == 64 * (n2 / 64) + n2 % 64;
  }

  lemma OctetsOfGroup(a: byte, b: byte, c: byte)
    ensures Group(a, b, c) < 16777216
    ensures Octet(Group(a, b, c), 0) == a && Octet(Group(a, b, c), 1) == b && Octet(Group(a, b, c), 2) == c
  {
  }

  lemma GroupOfOctets(n: nat)
    requires n < 16777216
    ensures Group(Octet(n, 0), Octet(n, 1), Octet(n, 2)) == n
  {
    var n1 := n / 256;
    assert n1 < 65536 && n1 / 256 < 256;
    assert n == 256 * n1 + n % 256 && n1 == 256 * (n1 / 256) + n1 % 256;
  }

  lemma DivMod64(n: nat, q: nat, r: nat)
    requires n == 64 * q + r && r < 64
    ensures n / 64 == q && n % 64 == r
  {
  }

  lemma SextetsOfGroup(a: nat, b: nat, c: nat, d: nat)
    requires a < 64 && b < 64 && c < 64 && d < 64
    ensures var n := Group64(a, b, c, d);
            n < 16777216 && Sextet(n, 0) == a && Sextet(n, 1) == b && Sextet(n, 2) == c && Sextet(n, 3) == d
  {
    DivMod64(Group64(a, b, c, d), 4096 * a + 64 * b + c, d);
    DivMod64(4096 * a + 64 * b + c, 64 * a + b, c);
    DivMod64(64 * a + b, a, b);
  }

  // ---------------------------------------------------------------------------------------------
  // Encoding and decoding by groups

  /** The first `k` symbols of a group. */
  function Symbols(p: Symbol62, n: nat, k: nat): (s: string)
    requires k <= 4
    ensures |s| == k
  {
    seq(k, i requires 0 <= i < k => Symbol(p, Sextet(n, i)))
  }

  /** The first `k` bytes of a group. */
  function Octets(n: nat, k: nat): (s: seq<byte>)
    requires k <= 3
    ensures |s| == k
  {
    seq(k, i requires 0 <= i < k => Octet(n, i))
  }

  /** Missing bytes of the last group count as zero, and missing symbols are written '='. */
  function Encode(p: Symbol62, data: seq<byte>): string {
    if |data| == 0 then ""
    else if |data| == 1 then Symbols(p, Group(data[0], 0, 0), 2) + "=="
    else if |data| == 2 then Symbols(p, Group(data[0], data[1], 0), 3) + "="
    else Symbols(p, Group(data[0], data[1], data[2]), 4) + Encode(p, data[3..])
  }

  /** The symbols before the first '=' or other foreign character. */
  function Run(p: Symbol62, s: string): string {
    if s != "" && InAlphabet(p, s[0]) then [s[0]] + Run(p, s[1..]) else ""
  }

  /** Missing symbols of the last group count as zero. */
  function DecodeRun(p: Symbol62, s: string): seq<byte>
    requires forall k :: 0 <= k < |s| ==> InAlphabet(p, s[k])
    decreases |s|
  {
    if |s| <= 1 then []
    else if |s| == 2 then Octets(Group64(Find(p, s[0]), Find(p, s[1]), 0, 0), 1)
    else if |s| == 3 then Octets(Group64(Find(p, s[0]), Find(p, s[1]), Find(p, s[2]), 0), 2)
    else Octets(Group64(Find(p, s[0]), Find(p, s[1]), Find(p, s[2]), Find(p, s[3])), 3) + DecodeRun(p, s[4..])
  }

  lemma {:induction false} RunIsInAlphabet(p: Symbol62, s: string)
    ensures forall k :: 0 <= k < |Run(p, s)| ==> InAlphabet(p, Run(p, s)[k])
  {
    if s != "" && InAlphabet(p, s[0]) { RunIsInAlphabet(p, s[1..]); }
  }

  function Decode(p: Symbol62, s: string): seq<byte> {
    RunIsInAlphabet(p, s);
    DecodeRun(p, Run(p, s))
  }

  lemma {:induction false} RunAppend(p: Symbol62, a: string, b: string)
    requires forall k :: 0 <= k < |a| ==> InAlphabet(p, a[k])
    ensures Run(p, a + b) == a + Run(p, b)
  {
    if a == "" {
      assert a + b == b && a + Run(p, b) == Run(p, b);
    } else {
      assert (a + b)[1..] == a[1..] + b;
      RunAppend(p, a[1..], b);
    }
  }

  lemma SymbolsAreInAlphabet(p: Symbol62, n: nat, k: nat)
    requires k <= 4
    ensures forall i :: 0 <= i < k ==>
            InAlphabet(p, Symbols(p, n, k)[i]) && Find(p, Symbols(p, n, k)[i]) == Sextet(n, i)
  {
    forall i | 0 <= i < k
      ensures InAlphabet(p, Symbols(p, n, k)[i]) && Find(p, Symbols(p, n, k)[i]) == Sextet(n, i)
    {
      FindSymbol(p, Sextet(n, i));
    }
  }

  // ---------------------------------------------------------------------------------------------
  // Both ways

  /** With the low sextets zero, as they are when bytes are missing, nothing is lost. */
  lemma ShortGroups(a: byte, b: byte)
    ensures Sextet(Group(a, 0, 0), 2) == 0 && Sextet(Group(a, 0, 0), 3) == 0
    ensures Sextet(Group(a, b, 0), 3) == 0
  {
    DivMod64(Group(a, 0, 0), 1024 * (a as int), 0);
    DivMod64(1024 * (a as int), 16 * (a as int), 0);
    DivMod64(Group(a, b, 0), 1024 * (a as int) + 4 * (b as int), 0);
  }

  lemma DecodeGroup(p: Symbol62, n: nat, rest: string)
    requires n < 16777216
    ensures Decode(p, Symbols(p, n, 4) + rest) == Octets(n, 3) + Decode(p, rest)
  {
    var s := Symbols(p, n, 4);
    SymbolsAreInAlphabet(p, n, 4);
    RunAppend(p, s, rest);
    RunIsInAlphabet(p, rest);
    GroupOfSextets(n);
    assert (s + Run(p, rest))[4..] == Run(p, rest);
  }

  lemma RunOfPadded(p: Symbol62, s: string, pad: string)
    requires (forall k :: 0 <= k < |s| ==> InAlphabet(p, s[k])) && (pad == "" || !InAlphabet(p, pad[0]))
    ensures Run(p, s + pad) == s
  {
    RunAppend(p, s, pad);
    assert Run(p, pad) == "";
    assert s + "" == s;
  }

  lemma DecodeTail1(p: Symbol62, a: byte)
    ensures Decode(p, Symbols(p, Group(a, 0, 0), 2) + "==") == [a]
  {
    var n := Group(a, 0, 0);
    SymbolsAreInAlphabet(p, n, 2);
    RunOfPadded(p, Symbols(p, n, 2), "==");
    ShortGroups(a, 0);
    OctetsOfGroup(a, 0, 0);
    GroupOfSextets(n);
  }

  lemma DecodeTail2(p: Symbol62, a: byte, b: byte)
    ensures Decode(p, Symbols(p, Group(a, b, 0), 3) + "=") == [a, b]
  {
    var n := Group(a, b, 0);
    SymbolsAreInAlphabet(p, n, 3);
    RunOfPadded(p, Symbols(p, n, 3), "=");
    ShortGroups(a, b);
    OctetsOfGroup(a, b, 0);
    GroupOfSextets(n);
  }

  lemma DecodeFirst(p: Symbol62, a: byte, b: byte, c: byte, rest: string)
    ensures Decode(p, Symbols(p, Group(a, b, c), 4) + rest) == [a, b, c] + Decode(p, rest)
  {
    OctetsOfGroup(a, b, c);
    DecodeGroup(p, Group(a, b, c), rest);
    assert Octets(Group(a, b, c), 3) == [a, b, c];
  }

  /** Decoding undoes encoding, for every byte string and either alphabet. */
  lemma {:induction false} DecodeEncode(p: Symbol62, data: seq<byte>)
    ensures Decode(p, Encode(p, data)) == data
  {
    if |data| == 0 {
      assert Run(p, "") == "";
    } else if |data| == 1 {
      DecodeTail1(p, data[0]);
    } else if |data| == 2 {
      DecodeTail2(p, data[0], data[1]);
    } else {
      DecodeFirst(p, data[0], data[1], data[2], Encode(p, data[3..]));
      DecodeEncode(p, data[3..]);
      assert data == [data[0], data[1], data[2]] + data[3..];
    }
  }

  lemma {:induction false} EncodedLength(p: Symbol62, data: seq<byte>)
    ensures |Encode(p, data)| == 4 * ((|data| + 2) / 3)
  {
    if |data| >= 3 { EncodedLength(p, data[3..]); }
  }

  /** Padded text whose unused bits are zero. */
  predicate Canonical(p: Symbol62, s: string)
    decreases |s|
  {
    s == "" || (|s| >= 4 && InAlphabet(p, s[0]) && InAlphabet(p, s[1])
                && if InAlphabet(p, s[2]) && InAlphabet(p, s[3]) then Canonical(p, s[4..])
                   else if InAlphabet(p, s[2]) then |s| == 4 && s[3] == '=' && Find(p, s[2]) % 4 == 0
                   else |s| == 4 && s[2] == '=' && s[3] == '=' && Find(p, s[1]) % 16 == 0)
  }

  lemma UnusedBits(a: byte, b: byte)
    ensures Sextet(Group(a, 0, 0), 1) % 16 == 0 && Sextet(Group(a, b, 0), 2) % 4 == 0
  {
    DivMod64(Group(a, 0, 0), 1024 * (a as int), 0);
    DivMod64(1024 * (a as int), 16 * (a as int), 0);
    DivMod64(Group(a, b, 0), 1024 * (a as int) + 4 * (b as int), 0);
    DivMod64(16 * (a as int), a / 4, 16 * (a as int % 4));
    DivMod64(1024 * (a as int) + 4 * (b as int), 16 * (a as int) + b / 16, 4 * (b as int % 16));
  }

  lemma {:induction false} EncodedIsCanonical(p: Symbol62, data: seq<byte>)
    ensures Canonical(p, Encode(p, data))
  {
    if |data| == 1 {
      SymbolsAreInAlphabet(p, Group(data[0], 0, 0), 2);
      UnusedBits(data[0], 0);
    } else if |data| == 2 {
      SymbolsAreInAlphabet(p, Group(data[0], data[1], 0), 3);
      UnusedBits(data[0], data[1]);
    } else if |data| >= 3 {
      var n := Group(data[0], data[1], data[2]);
      SymbolsAreInAlphabet(p, n, 4);
      EncodedIsCanonical(p, data[3..]);
      assert (Symbols(p, n, 4) + Encode(p, data[3..]))[4..] == Encode(p, data[3..]);
    }
  }

  /** Symbols are the symbols of the group they make. */
  lemma SymbolsOfGroup(p: Symbol62, a: char, b: char, c: char, d: char)
    requires InAlphabet(p, a) && InAlphabet(p, b) && InAlphabet(p, c) && InAlphabet(p, d)
    ensures var n := Group64(Find(p, a), Find(p, b), Find(p, c), Find(p, d));
            n < 16777216 && Symbols(p, n, 4) == [a, b, c, d]
  {
    SymbolFind(p, a);
    SymbolFind(p, b);
    SymbolFind(p, c);
    SymbolFind(p, d);
    SextetsOfGroup(Find(p, a), Find(p, b), Find(p, c), Find(p, d));
  }

  /** Two or three symbols whose unused bits are zero make a group of one or two bytes. */
  lemma ShortGroup(x: nat, q: nat, r: nat, w: nat)
    requires x < 64 && q < 4 && r < 16 && w < 16
    ensures Group64(x, 16 * q + r, 4 * w, 0) == Group(4 * x + q, 16 * r + w, 0)
  {
  }

  /** Groups whose unused bits are zero are determined by the bytes that are kept. */
  lemma KeptBytes(x: nat, y: nat, z: nat)
    requires x < 64 && y < 64 && z < 64 && z % 4 == 0
    ensures var n := Group64(x, y, z, 0); Group(Octet(n, 0), Octet(n, 1), 0) == n
    ensures y % 16 == 0 && z == 0 ==> var n := Group64(x, y, 0, 0); Group(Octet(n, 0), 0, 0) == n
  {
    var q, r, w := y / 16, y % 16, z / 4;
    ShortGroup(x, q, r, w);
    OctetsOfGroup(4 * x + q, 16 * r + w, 0);
  }

  lemma EncodeTail1(p: Symbol62, a: char, b: char)
    requires InAlphabet(p, a) && InAlphabet(p, b) && Find(p, b) % 16 == 0
    ensures Encode(p, Decode(p, [a, b] + "==")) == [a, b] + "=="
  {
    RunOfPadded(p, [a, b], "==");
    SymbolFind(p, a);
    SymbolFind(p, b);
    var n := Group64(Find(p, a), Find(p, b), 0, 0);
    assert Decode(p, [a, b] + "==") == Octets(n, 1);
    assert Group(Octet(n, 0), 0, 0) == n by { KeptBytes(Find(p, a), Find(p, b), 0); }
    assert Symbols(p, n, 2) == [a, b] by {
      SymbolsOfGroup(p, a, b, 'A', 'A');
      assert Symbols(p, n, 2) == Symbols(p, n, 4)[..2];
    }
  }

  lemma EncodeTail2(p: Symbol62, a: char, b: char, c: char)
    requires InAlphabet(p, a) && InAlphabet(p, b) && InAlphabet(p, c) && Find(p, c) % 4 == 0
    ensures Encode(p, Decode(p, [a, b, c] + "=")) == [a, b, c] + "="
  {
    RunOfPadded(p, [a, b, c], "=");
    SymbolFind(p, a);
    SymbolFind(p, b);
    SymbolFind(p, c);
    var n := Group64(Find(p, a), Find(p, b), Find(p, c), 0);
    assert Decode(p, [a, b, c] + "=") == Octets(n, 2);
    assert Group(Octet(n, 0), Octet(n, 1), 0) == n by { KeptBytes(Find(p, a), Find(p, b), Find(p, c)); }
    assert Symbols(p, n, 3) == [a, b, c] by {
      SymbolsOfGroup(p, a, b, c, 'A');
      assert Symbols(p, n, 3) == Symbols(p, n, 4)[..3];
    }
  }

  lemma {:induction false} CanonicalRoundTrip(p: Symbol62, s: string)
    requires Canonical(p, s)
    ensures Encode(p, Decode(p, s)) == s
    decreases |s|
  {
    if s != "" {
      if InAlphabet(p, s[2]) && InAlphabet(p, s[3]) {
        var n := Group64(Find(p, s[0]), Find(p, s[1]), Find(p, s[2]), Find(p, s[3]));
        SymbolsOfGroup(p, s[0], s[1], s[2], s[3]);
        assert s == Symbols(p, n, 4) + s[4..];
        DecodeGroup(p, n, s[4..]);
        CanonicalRoundTrip(p, s[4..]);
        EncodeGroup(p, n, Decode(p, s[4..]));
      } else if InAlphabet(p, s[2]) {
        EncodeTail2(p, s[0], s[1], s[2]);
        assert s == [s[0], s[1], s[2]] + "=";
      } else {
        EncodeTail1(p, s[0], s[1]);
        assert s == [s[0], s[1]] + "==";
      }
    }
  }

  lemma EncodeGroup(p: Symbol62, n: nat, rest: seq<byte>)
    requires n < 16777216
    ensures Encode(p, Octets(n, 3) + rest) == Symbols(p, n, 4) + Encode(p, rest)
  {
    GroupOfOctets(n);
    assert (Octets(n, 3) + rest)[3..] == rest;
  }

  /** Encoding undoes decoding on exactly the canonical texts. */
  lemma EncodeDecodeIff(p: Symbol62, s: string)
    ensures Encode(p, Decode(p, s)) == s <==> Canonical(p, s)
  {
    if Canonical(p, s) { CanonicalRoundTrip(p, s); }
    EncodedIsCanonical(p, Decode(p, s));
  }

  // ---------------------------------------------------------------------------------------------
  // The two alphabets

  function Dashed(s: string): string { seq(|s|, i requires 0 <= i < |s| => if s[i] == '+' then '-' else s[i]) }

  lemma DashedAppend(a: string, b: string)
    ensures Dashed(a + b) == Dashed(a) + Dashed(b)
  {
  }

  lemma DashedSymbols(n: nat, k: nat)
    requires k <= 4
    ensures Symbols('-', n, k) == Dashed(Symbols('+', n, k))
  {
  }

  /** The second encoder writes '-' where the first writes '+'. */
  lemma {:induction false} SecondAlphabet(data: seq<byte>)
    ensures Encode('-', data) == Dashed(Encode('+', data))
  {
    if |data| == 1 {
      DashedSymbols(Group(data[0], 0, 0), 2);
      DashedAppend(Symbols('+', Group(data[0], 0, 0), 2), "==");
    } else if |data| == 2 {
      DashedSymbols(Group(data[0], data[1], 0), 3);
      DashedAppend(Symbols('+', Group(data[0], data[1], 0), 3), "=");
    } else if |data| >= 3 {
      var n := Group(data[0], data[1], data[2]);
      DashedSymbols(n, 4);
      DashedAppend(Symbols('+', n, 4), Encode('+', data[3..]));
      SecondAlphabet(data[3..]);
    }
  }
}
