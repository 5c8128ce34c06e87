/** `base64_encode` and `base64_decode`, and their twins over the second alphabet, as loops that fill
    small arrays. */
module Base64Loops {
  import opened Bytes
  import opened Base64

  /** The masks and shifts of the encoder. */
  method ToSextets(a3: array<byte>, a4: array<byte>)
    requires a3.Length == 3 && a4.Length == 4 && a3 != a4
    modifies a4
    ensures var n := Group(a3[0], a3[1], a3[2]);
            a4[0] == Sextet(n, 0) && a4[1] == Sextet(n, 1) && a4[2] == Sextet(n, 2) && a4[3] == Sextet(n, 3)
  {
    a4[0] := a3[0] / 4;
    a4[1] := a3[0] % 4 * 16 + a3[1] / 16;
    a4[2] := a3[1] % 16 * 4 + a3[2] / 64;
    a4[3] := a3[2] % 64;
    SameBits(a3[0], a3[1], a3[2]);
    SextetsOfGroup(a4[0], a4[1], a4[2], a4[3]);
  }

  lemma SameBits(a: byte, b: byte, c: byte)
    ensures Group(a, b, c) == Group64(a / 4, a % 4 * 16 + b / 16, b % 16 * 4 + c / 64, c % 64)
  {
  }

  /** The first `k` symbols of a group, appended to the result. */
  method AppendSymbols(p: Symbol62, a3: array<byte>, k: nat, ret: string) returns (r: string)
    requires a3.Length == 3 && k <= 4
    ensures r == ret + Symbols(p, Group(a3[0], a3[1], a3[2]), k)
  {
    var a4 := new byte[4];
    ToSextets(a3, a4);
    ghost var n := Group(a3[0], a3[1], a3[2]);
    r := ret;
    for j := 0 to k
      invariant forall i :: 0 <= i < 4 ==> a4[i] == Sextet(n, i)
      invariant r == ret + Symbols(p, n, j)
    {
      r := r + [Symbol(p, a4[j])];
    }
  }

  /** `base64_encode`. */
  method EncodeLoop(p: Symbol62, data: seq<byte>) returns (ret: string)
    ensures ret == Encode(p, data)
  {
    ret := "";
    var a3 := new byte[3];
    var i, pos := 0, 0;
    ghost var start := 0;
    while pos < |data|
      invariant 0 <= i < 3 && 0 <= start && pos == start + i && pos <= |data|
      invariant forall k :: start <= k < pos ==> a3[k - start] == data[k]
      invariant Encode(p, data) == ret + Encode(p, data[start..])
    {
      a3[i] := data[pos];
      i, pos := i + 1, pos + 1;
      if i == 3 {
        ghost var rest := data[start..];
        assert forall k :: 0 <= k < 3 ==> rest[k] == data[start + k];
        ret := EncodeFull(p, a3, ret, rest);
        assert rest[3..] == data[pos..];
        i, start := 0, pos;
      }
    }
    ghost var rest := data[start..];
    assert forall k :: 0 <= k < i ==> rest[k] == data[start + k];
    if i > 0 {
      ret := EncodeTail(p, a3, i, ret, rest);
    }
  }

  /** A complete group. */
  method EncodeFull(p: Symbol62, a3: array<byte>, ret: string, ghost rest: seq<byte>) returns (r: string)
    requires a3.Length == 3 && |rest| >= 3 && forall k :: 0 <= k < 3 ==> a3[k] == rest[k]
    ensures r + Encode(p, rest[3..]) == ret + Encode(p, rest)
  {
    r := AppendSymbols(p, a3, 4, ret);
  }

  /** The last group: missing bytes are zero, missing symbols are '='. */
  method EncodeTail(p: Symbol62, a3: array<byte>, i: nat, ret: string, ghost rest: seq<byte>) returns (r: string)
    requires a3.Length == 3 && 0 < i < 3 && |rest| == i && forall k :: 0 <= k < i ==> a3[k] == rest[k]
    modifies a3
    ensures r == ret + Encode(p, rest)
  {
    for j := i to 3
      invariant forall k :: 0 <= k < i ==> a3[k] == rest[k]
      invariant forall k :: i <= k < j ==> a3[k] == 0
    {
      a3[j] := 0;
    }
    r := AppendSymbols(p, a3, i + 1, ret);
    ghost var symbols := r;
    var n := i;
    while n < 3
      invariant i <= n <= 3
      invariant r == symbols + Equals(n - i)
    {
      r := r + "=";
      n := n + 1;
    }
    assert Equals(3 - i) == if i == 1 then "==" else "=";
  }

  function Equals(n: nat): string { seq(n, _ => '=') }

  lemma SameOctets(x: nat, y: nat, z: nat, w: nat)
    requires x < 64 && y < 64 && z < 64 && w < 64
    ensures var n := Group64(x, y, z, w);
            Octet(n, 0) == 4 * x + y / 16 && Octet(n, 1) == y % 16 * 16 + z / 4 && Octet(n, 2) == z % 4 * 64 + w
  {
    var q, r, u, v := y / 16, y % 16, z / 4, z % 4;
    assert Group64(x, 16 * q + r, 4 * u + v, w) == Group(4 * x + q, r * 16 + u, v * 64 + w);
    OctetsOfGroup(4 * x + q, r * 16 + u, v * 64 + w);
  }

  /** The masks and shifts of the decoder; sums are cut to a byte.  The first bytes do not depend on
      symbols that are missing. */
  method ToOctets(a4: array<byte>, a3: array<byte>)
    requires a3.Length == 3 && a4.Length == 4 && a3 != a4
    modifies a3
    ensures a4[0] < 64 && a4[1] < 64 ==> a3[0] == Octet(Group64(a4[0], a4[1], 0, 0), 0)
    ensures a4[0] < 64 && a4[1] < 64 && a4[2] < 64 ==>
              a3[0] == Octet(Group64(a4[0], a4[1], a4[2], 0), 0) && a3[1] == Octet(Group64(a4[0], a4[1], a4[2], 0), 1)
    ensures a4[0] < 64 && a4[1] < 64 && a4[2] < 64 && a4[3] < 64 ==>
              var n := Group64(a4[0], a4[1], a4[2], a4[3]);
              a3[0] == Octet(n, 0) && a3[1] == Octet(n, 1) && a3[2] == Octet(n, 2)
  {
    var c0: int, c1: int, c2: int, c3: int := a4[0], a4[1], a4[2], a4[3];
    a3[0] := (c0 * 4 + c1 / 16 % 4) % 256;
    a3[1] := c1 % 16 * 16 + c2 / 4 % 16;
    a3[2] := (c2 % 4 * 64 + c3) % 256;
    OctetsOfSymbols(c0, c1, c2, c3);
  }

  /** Nothing is cut off when the symbols are known. */
  lemma NothingCut(x: nat, y: nat)
    requires x < 64 && y < 64
    ensures (x * 4 + y / 16 % 4) % 256 == 4 * x + y / 16
    ensures x / 4 % 16 == x / 4 && (x % 4 * 64 + y) % 256 == x % 4 * 64 + y
  {
  }

  lemma OctetsOfSymbols(c0: byte, c1: byte, c2: byte, c3: byte)
    ensures var x: int, y: int, z: int, w: int := c0, c1, c2, c3;
            x < 64 && y < 64 ==>
              && (x * 4 + y / 16 % 4) % 256 == Octet(Group64(x, y, 0, 0), 0)
              && (z < 64 ==>
                    && (x * 4 + y / 16 % 4) % 256 == Octet(Group64(x, y, z, 0), 0)
                    && y % 16 * 16 + z / 4 % 16 == Octet(Group64(x, y, z, 0), 1)
                    && (w < 64 ==>
                          && (x * 4 + y / 16 % 4) % 256 == Octet(Group64(x, y, z, w), 0)
                          && y % 16 * 16 + z / 4 % 16 == Octet(Group64(x, y, z, w), 1)
                          && (z % 4 * 64 + w) % 256 == Octet(Group64(x, y, z, w), 2)))
  {
    if c0 < 64 && c1 < 64 {
      NothingCut(c0, c1);
      SameOctets(c0, c1, 0, 0);
      if c2 < 64 {
        NothingCut(c2, 0);
        SameOctets(c0, c1, c2, 0);
        if c3 < 64 {
          NothingCut(c2, c3);
          SameOctets(c0, c1, c2, c3);
        }
      }
    }
  }

  /** Looks up the four characters; a character that is not in the alphabet, such as the filler 0,
      becomes 255. */
  method FindAll(p: Symbol62, a4: array<byte>)
    requires a4.Length == 4
    modifies a4
    ensures forall k :: 0 <= k < 4 ==> a4[k] == Find(p, old(a4[k]) as char)
  {
    for j := 0 to 4
      invariant forall k :: 0 <= k < j ==> a4[k] == Find(p, old(a4[k]) as char)
      invariant forall k :: j <= k < 4 ==> a4[k] == old(a4[k])
    {
      a4[j] := Find(p, a4[j] as char);
    }
  }

  lemma DecodeQuad(p: Symbol62, s: string)
    requires |s| >= 4 && forall k :: 0 <= k < 4 ==> InAlphabet(p, s[k])
    ensures Decode(p, s) ==
            Octets(Group64(Find(p, s[0]), Find(p, s[1]), Find(p, s[2]), Find(p, s[3])), 3) + Decode(p, s[4..])
  {
    var n := Group64(Find(p, s[0]), Find(p, s[1]), Find(p, s[2]), Find(p, s[3]));
    SymbolsOfGroup(p, s[0], s[1], s[2], s[3]);
    assert s == Symbols(p, n, 4) + s[4..];
    DecodeGroup(p, n, s[4..]);
  }

  /** What the last, incomplete group decodes to. */
  lemma DecodeShort(p: Symbol62, s: string, i: nat)
    requires i < 4 && i <= |s| && (forall k :: 0 <= k < i ==> InAlphabet(p, s[k])) && (i == |s| || !InAlphabet(p, s[i]))
    ensures Decode(p, s) ==
            if i <= 1 then []
            else if i == 2 then Octets(Group64(Find(p, s[0]), Find(p, s[1]), 0, 0), 1)
            else Octets(Group64(Find(p, s[0]), Find(p, s[1]), Find(p, s[2]), 0), 2)
  {
    RunOfPadded(p, s[..i], s[i..]);
    assert s == s[..i] + s[i..];
  }

  /** `base64_decode`. */
  method DecodeLoop(p: Symbol62, s: string) returns (ret: seq<byte>)
    ensures ret == Decode(p, s)
  {
    ret := [];
    var a4 := new byte[4];
    var i, pos := 0, 0;
    ghost var start := 0;
    while pos < |s| && s[pos] != '=' && InAlphabet(p, s[pos])
      invariant 0 <= i < 4 && 0 <= start && pos == start + i && pos <= |s|
      invariant forall k :: start <= k < pos ==> InAlphabet(p, s[k]) && a4[k - start] == s[k] as int
      invariant Decode(p, s) == ret + Decode(p, s[start..])
    {
      a4[i] := s[pos] as int;
      i, pos := i + 1, pos + 1;
      if i == 4 {
        ghost var rest := s[start..];
        assert forall k :: 0 <= k < 4 ==> rest[k] == s[start + k];
        ret := DecodeFull(p, a4, ret, rest);
        assert rest[4..] == s[pos..];
        i, start := 0, pos;
      }
    }
    ghost var rest := s[start..];
    assert forall k :: 0 <= k < i ==> rest[k] == s[start + k];
    assert pos < |s| ==> rest[i] == s[pos];
    DecodeShort(p, rest, i);
    if i > 0 {
      ret := DecodeTail(p, a4, i, ret, rest);
    }
  }

  /** Looks the symbols up and puts their bits together. */
  method Bytes3(p: Symbol62, a4: array<byte>, i: nat, ghost rest: string) returns (a3: array<byte>)
    requires a4.Length == 4 && i <= 4 && i <= |rest|
    requires forall k :: 0 <= k < i ==> InAlphabet(p, rest[k]) && a4[k] == rest[k] as int
    modifies a4
    ensures a3.Length == 3
    ensures i >= 2 ==> a3[0] == Octet(Group64(Find(p, rest[0]), Find(p, rest[1]), 0, 0), 0)
    ensures i >= 3 ==> var n := Group64(Find(p, rest[0]), Find(p, rest[1]), Find(p, rest[2]), 0);
                       a3[0] == Octet(n, 0) && a3[1] == Octet(n, 1)
    ensures i == 4 ==> var n := Group64(Find(p, rest[0]), Find(p, rest[1]), Find(p, rest[2]), Find(p, rest[3]));
                       a3[0] == Octet(n, 0) && a3[1] == Octet(n, 1) && a3[2] == Octet(n, 2)
  {
    forall k | 0 <= k < i ensures Find(p, rest[k]) < 64 && a4[k] as char == rest[k] { SymbolFind(p, rest[k]); }
    FindAll(p, a4);
    assert forall k :: 0 <= k < i ==> a4[k] == Find(p, rest[k]);
    a3 := new byte[3];
    ToOctets(a4, a3);
  }

  method AppendBytes(a3: array<byte>, k: nat, ret: seq<byte>) returns (r: seq<byte>)
    requires a3.Length == 3 && k <= 3
    ensures r == ret + a3[..k]
  {
    r := ret;
    for j := 0 to k
      invariant r == ret + a3[..j]
    {
      r := r + [a3[j]];
    }
  }

  /** A complete group. */
  method DecodeFull(p: Symbol62, a4: array<byte>, ret: seq<byte>, ghost rest: string) returns (r: seq<byte>)
    requires a4.Length == 4 && |rest| >= 4
    requires forall k :: 0 <= k < 4 ==> InAlphabet(p, rest[k]) && a4[k] == rest[k] as int
    modifies a4
    ensures r + Decode(p, rest[4..]) == ret + Decode(p, rest)
  {
    var a3 := Bytes3(p, a4, 4, rest);
    r := AppendBytes(a3, 3, ret);
    AfterFull(p, rest, ret, a3[..3]);
  }

  lemma AfterFull(p: Symbol62, rest: string, ret: seq<byte>, three: seq<byte>)
    requires |rest| >= 4 && (forall k :: 0 <= k < 4 ==> InAlphabet(p, rest[k])) && |three| == 3
    requires var n := Group64(Find(p, rest[0]), Find(p, rest[1]), Find(p, rest[2]), Find(p, rest[3]));
             three[0] == Octet(n, 0) && three[1] == Octet(n, 1) && three[2] == Octet(n, 2)
    ensures ret + three + Decode(p, rest[4..]) == ret + Decode(p, rest)
  {
    DecodeQuad(p, rest);
    AllOctets(Group64(Find(p, rest[0]), Find(p, rest[1]), Find(p, rest[2]), Find(p, rest[3])), three);
    Associates(ret, three, Decode(p, rest[4..]));
  }

  lemma AllOctets(n: nat, three: seq<byte>)
    requires |three| == 3 && three[0] == Octet(n, 0) && three[1] == Octet(n, 1) && three[2] == Octet(n, 2)
    ensures three == Octets(n, 3)
  {
  }

  lemma Associates<T>(a: seq<T>, b: seq<T>, c: seq<T>)
    ensures a + b + c == a + (b + c)
  {
  }

  /** The last group: missing symbols are looked up too, but do not reach the bytes that are kept. */
  method DecodeTail(p: Symbol62, a4: array<byte>, i: nat, ret: seq<byte>, ghost rest: string) returns (r: seq<byte>)
    requires a4.Length == 4 && 0 < i < 4 && i <= |rest|
    requires forall k :: 0 <= k < i ==> InAlphabet(p, rest[k]) && a4[k] == rest[k] as int
    modifies a4
    ensures r == ret + if i == 1 then []
                       else if i == 2 then Octets(Group64(Find(p, rest[0]), Find(p, rest[1]), 0, 0), 1)
                       else Octets(Group64(Find(p, rest[0]), Find(p, rest[1]), Find(p, rest[2]), 0), 2)
  {
    for j := i to 4
      invariant forall k :: 0 <= k < i ==> a4[k] == rest[k] as int
    {
      a4[j] := 0;
    }
    var a3 := Bytes3(p, a4, i, rest);
    r := AppendBytes(a3, i - 1, ret);
  }
}
