/** `url_encode` and `url_decode`: percent coding as in section 2.1 of RFC 3986, with '+' for a space. */
module Url {
  import opened Bytes

  // ---------------------------------------------------------------------------------------------
  // Characters

  predicate IsDigit(c: byte) { 48 <= c <= 57 }

  predicate IsAlnum(c: byte) { IsDigit(c) || 65 <= c <= 90 || 97 <= c <= 122 }

  /** Written as it is: letters, digits, '-', '_', '.' and '~'. */
  predicate IsPlain(c: byte) { IsAlnum(c) || c == 45 || c == 95 || c == 46 || c == 126 }

  const SPACE: byte := 32
  const PLUS: byte := 43
  const PERCENT: byte := 37

  function ToHex(code: byte): byte {
    var d := code % 16;
    if d < 10 then 48 + d else 65 + d - 10
  }

  function ToLower(c: byte): byte { if 65 <= c <= 90 then c + 32 else c }

  /** The value of a hexadecimal digit; for any other character some byte. */
  function FromHex(c: byte): byte { if IsDigit(c) then c - 48 else (ToLower(c) - 87) % 256 }

  /** Bitwise or. */
  function Or(a: nat, b: nat): nat
    decreases a + b
  {
    if a == 0 && b == 0 then 0 else (if a % 2 == 1 || b % 2 == 1 then 1 else 0) + 2 * Or(a / 2, b / 2)
  }

  lemma {:induction false} OrBound(a: nat, b: nat, n: nat)
    requires a < Pow2(n) && b < Pow2(n)
    ensures Or(a, b) < Pow2(n)
  {
    if n > 0 && (a > 0 || b > 0) { OrBound(a / 2, b / 2, n - 1); }
  }

  lemma OrOfBytes(a: byte, b: byte)
    ensures Or(a, b) < 256
  {
    assert Pow2(8) == 256;
    OrBound(a, b, 8);
  }

  /** The character two digits stand for. */
  function Unhex(hi: byte, lo: byte): byte {
    var h := FromHex(hi) as int * 16 % 256;
    OrOfBytes(h, FromHex(lo));
    Or(h, FromHex(lo))
  }

  lemma {:induction false} OrZero(x: nat)
    ensures Or(x, 0) == x
  {
    if x > 0 { OrZero(x / 2); }
  }

  function Shift(x: nat, k: nat): nat { if k == 0 then x else 2 * Shift(x, k - 1) }

  lemma OrEven(a: nat, y: nat)
    ensures Or(2 * a, y) == y % 2 + 2 * Or(a, y / 2)
  {
  }

  /** Bits that do not overlap add up. */
  lemma {:induction false} OrShifted(x: nat, y: nat, k: nat)
    requires y < Pow2(k)
    ensures Or(Shift(x, k), y) == Shift(x, k) + y
  {
    if k == 0 {
      OrZero(x);
    } else {
      OrShifted(x, y / 2, k - 1);
      OrEven(Shift(x, k - 1), y);
    }
  }

  lemma OrNibbles(x: nat, y: nat)
    requires y < 16
    ensures Or(16 * x, y) == 16 * x + y
  {
    assert Pow2(4) == 16;
    assert Shift(x, 1) == 2 * Shift(x, 0);
    assert Shift(x, 2) == 2 * Shift(x, 1);
    assert Shift(x, 3) == 2 * Shift(x, 2);
    assert Shift(x, 4) == 2 * Shift(x, 3);
    OrShifted(x, y, 4);
  }

  lemma FromToHex(d: byte)
    requires d < 16
    ensures FromHex(ToHex(d)) == d
  {
  }

  lemma UnhexDigits(hi: byte, lo: byte)
    requires FromHex(hi) < 16 && FromHex(lo) < 16
    ensures Unhex(hi, lo) == 16 * (FromHex(hi) as int) + FromHex(lo)
  {
    var x: nat, y: nat := FromHex(hi), FromHex(lo);
    assert x * 16 % 256 == 16 * x;
    OrNibbles(x, y);
  }

  lemma UnhexHex(c: byte)
    ensures Unhex(ToHex(c / 16), ToHex(c % 16)) == c
  {
    FromToHex(c / 16);
    FromToHex(c % 16);
    UnhexDigits(ToHex(c / 16), ToHex(c % 16));
  }

  // ---------------------------------------------------------------------------------------------
  // Strings

  function EncodeOne(c: byte): seq<byte> {
    if IsPlain(c) then [c] else if c == SPACE then [PLUS] else [PERCENT, ToHex(c / 16), ToHex(c % 16)]
  }

  function Encode(s: seq<byte>): seq<byte> {
    if s == [] then [] else EncodeOne(s[0]) + Encode(s[1..])
  }

  /** How two digits are read. */
  type Reading = (byte, byte) -> byte

  /** What is written to the buffer; a '%' without two characters after it is dropped. */
  function Unescape(u: Reading, s: seq<byte>): seq<byte>
    decreases |s|
  {
    if s == [] then []
    else if s[0] == PERCENT then if |s| >= 3 then [u(s[1], s[2])] + Unescape(u, s[3..]) else Unescape(u, s[1..])
    else [if s[0] == PLUS then SPACE else s[0]] + Unescape(u, s[1..])
  }

  /** A C string ends at its first zero. */
  function UpToNul(s: seq<byte>): seq<byte> {
    if s == [] || s[0] == 0 then [] else [s[0]] + UpToNul(s[1..])
  }

  function Decode(s: seq<byte>): seq<byte> { UpToNul(Unescape(Unhex, s)) }

  predicate IsText(s: seq<byte>) { forall k :: 0 <= k < |s| ==> s[k] != 0 }

  lemma {:induction false} UpToNulOfText(s: seq<byte>)
    requires IsText(s)
    ensures UpToNul(s) == s
  {
    if s != [] { UpToNulOfText(s[1..]); }
  }

  lemma UnescapeOne(c: byte, rest: seq<byte>)
    ensures Unescape(Unhex, EncodeOne(c) + rest) == [c] + Unescape(Unhex, rest)
  {
    UnhexHex(c);
    var e := EncodeOne(c);
    assert (e + rest)[|e|..] == rest;
  }

  lemma {:induction false} UnescapeEncode(s: seq<byte>)
    ensures Unescape(Unhex, Encode(s)) == s
  {
    if s != [] {
      UnescapeOne(s[0], Encode(s[1..]));
      UnescapeEncode(s[1..]);
    }
  }

  /** Decoding undoes encoding for every text. */
  lemma DecodeEncode(s: seq<byte>)
    requires IsText(s)
    ensures Decode(Encode(s)) == s
  {
    UnescapeEncode(s);
    UpToNulOfText(s);
  }

  /** Both buffers are large enough. */
  lemma {:induction false} EncodedLength(s: seq<byte>)
    ensures |s| <= |Encode(s)| <= 3 * |s|
  {
    if s != [] { EncodedLength(s[1..]); }
  }

  lemma {:induction false} DecodedLength(s: seq<byte>)
    ensures |Decode(s)| <= |Unescape(Unhex, s)| <= |s|
    decreases |s|
  {
    UnescapedLength(Unhex, s);
    UpToNulLength(Unescape(Unhex, s));
  }

  lemma {:induction false} UnescapedLength(u: Reading, s: seq<byte>)
    ensures |Unescape(u, s)| <= |s|
    decreases |s|
  {
    if s != [] {
      if s[0] == PERCENT && |s| >= 3 { UnescapedLength(u, s[3..]); } else { UnescapedLength(u, s[1..]); }
    }
  }

  lemma {:induction false} UpToNulLength(s: seq<byte>)
    ensures |UpToNul(s)| <= |s|
  {
    if s != [] { UpToNulLength(s[1..]); }
  }

  // ---------------------------------------------------------------------------------------------
  // The other way

  predicate IsUpperHex(c: byte) { IsDigit(c) || 65 <= c <= 70 }

  /** An escape the encoder would write: upper-case digits, and a character that needs it. */
  predicate IsEscape(hi: byte, lo: byte) {
    IsUpperHex(hi) && IsUpperHex(lo) && var c := Unhex(hi, lo); c != 0 && c != SPACE && !IsPlain(c)
  }

  predicate Canonical(t: seq<byte>)
    decreases |t|
  {
    t == [] || (if t[0] == PERCENT then |t| >= 3 && IsEscape(t[1], t[2]) && Canonical(t[3..])
                else (IsPlain(t[0]) || t[0] == PLUS) && Canonical(t[1..]))
  }

  lemma ToFromHex(c: byte)
    requires IsUpperHex(c)
    ensures FromHex(c) < 16 && ToHex(FromHex(c)) == c
  {
  }

  lemma HexUnhex(hi: byte, lo: byte)
    requires IsUpperHex(hi) && IsUpperHex(lo)
    ensures ToHex(Unhex(hi, lo) / 16) == hi && ToHex(Unhex(hi, lo) % 16) == lo
  {
    ToFromHex(hi);
    ToFromHex(lo);
    UnhexDigits(hi, lo);
    var x: nat, y: nat := FromHex(hi), FromHex(lo);
    assert (16 * x + y) / 16 == x && (16 * x + y) % 16 == y;
  }

  lemma EscapeOfOne(c: byte)
    requires c != 0 && c != SPACE && !IsPlain(c)
    ensures IsEscape(ToHex(c / 16), ToHex(c % 16))
  {
    UnhexHex(c);
  }

  lemma {:induction false} EncodedIsCanonical(s: seq<byte>)
    requires IsText(s)
    ensures Canonical(Encode(s))
  {
    if s != [] {
      EncodedIsCanonical(s[1..]);
      var e, rest := EncodeOne(s[0]), Encode(s[1..]);
      assert (e + rest)[|e|..] == rest;
      if !IsPlain(s[0]) && s[0] != SPACE { EscapeOfOne(s[0]); }
    }
  }

  lemma {:induction false} CanonicalRoundTrip(t: seq<byte>)
    requires Canonical(t)
    ensures IsText(Unescape(Unhex, t)) && Encode(Unescape(Unhex, t)) == t
    decreases |t|
  {
    if t != [] {
      if t[0] == PERCENT {
        CanonicalRoundTrip(t[3..]);
        HexUnhex(t[1], t[2]);
        assert t == [PERCENT, t[1], t[2]] + t[3..];
      } else {
        CanonicalRoundTrip(t[1..]);
        assert t == [t[0]] + t[1..];
      }
    }
  }

  lemma {:induction false} UpToNulIsText(s: seq<byte>)
    ensures IsText(UpToNul(s))
  {
    if s != [] && s[0] != 0 { UpToNulIsText(s[1..]); }
  }

  /** Encoding undoes decoding on exactly the canonical texts. */
  lemma EncodeDecodeIff(t: seq<byte>)
    ensures Encode(Decode(t)) == t <==> Canonical(t)
  {
    UpToNulIsText(Unescape(Unhex, t));
    EncodedIsCanonical(Decode(t));
    if Canonical(t) {
      CanonicalRoundTrip(t);
      UpToNulOfText(Unescape(Unhex, t));
    }
  }

  // ---------------------------------------------------------------------------------------------
  // The loops, writing into buffers of the size the program allocates

  /** The C string in a buffer. */
  method Text(buf: array<byte>, ghost text: seq<byte>) returns (s: seq<byte>)
    requires |text| < buf.Length && buf[..|text|] == text && buf[|text|] == 0
    ensures s == UpToNul(text)
  {
    s := [];
    while buf[|s|] != 0
      invariant |s| <= |text| && s == text[..|s|]
      invariant UpToNul(text) == s + UpToNul(text[|s|..])
      decreases |text| - |s|
    {
      assert buf[|s|] == text[|s|];
      assert text[|s|..][1..] == text[|s| + 1..];
      s := s + [buf[|s|]];
    }
    assert |s| < |text| ==> buf[|s|] == text[|s|];
  }

  method Put(buf: array<byte>, n: nat, c: byte)
    requires n < buf.Length
    modifies buf
    ensures buf[..n + 1] == old(buf[..n]) + [c]
  {
    buf[n] := c;
  }

  /** Encodes one character into the buffer. */
  method EncodeUnit(c: byte, buf: array<byte>, n: nat) returns (n': nat)
    requires n + 3 <= buf.Length
    modifies buf
    ensures n' == n + |EncodeOne(c)| && buf[..n'] == old(buf[..n]) + EncodeOne(c)
  {
    if IsPlain(c) {
      Put(buf, n, c);
      n' := n + 1;
    } else if c == SPACE {
      Put(buf, n, PLUS);
      n' := n + 1;
    } else {
      Put(buf, n, PERCENT);
      Put(buf, n + 1, ToHex(c / 16));
      Put(buf, n + 2, ToHex(c % 16));
      n' := n + 3;
    }
  }

  method UrlEncode(s: seq<byte>) returns (r: seq<byte>)
    requires IsText(s)
    ensures r == Encode(s)
  {
    var buf := new byte[3 * |s| + 1];
    var n := 0;
    for i := 0 to |s|
      invariant 0 <= n <= 3 * i && buf[..n] == Encode(s[..i])
    {
      EncodeAppend(s, i);
      n := EncodeUnit(s[i], buf, n);
    }
    assert s[..|s|] == s;
    assert buf[..n] == Encode(s);
    buf[n] := 0;
    EncodedIsText(s);
    UpToNulOfText(Encode(s));
    r := Text(buf, Encode(s));
  }

  lemma {:induction false} EncodeConcat(a: seq<byte>, b: seq<byte>)
    ensures Encode(a + b) == Encode(a) + Encode(b)
  {
    if a == [] {
      assert a + b == b;
    } else {
      assert (a + b)[1..] == a[1..] + b;
      EncodeConcat(a[1..], b);
    }
  }

  lemma EncodeAppend(s: seq<byte>, i: nat)
    requires i < |s|
    ensures Encode(s[..i + 1]) == Encode(s[..i]) + EncodeOne(s[i])
  {
    assert s[..i + 1] == s[..i] + [s[i]];
    EncodeConcat(s[..i], [s[i]]);
    assert Encode([s[i]]) == EncodeOne(s[i]) + Encode([]);
  }

  lemma {:induction false} EncodedIsText(s: seq<byte>)
    requires IsText(s)
    ensures IsText(Encode(s))
  {
    if s != [] { EncodedIsText(s[1..]); }
  }

  lemma UnescapeAt(u: Reading, s: seq<byte>, i: nat)
    requires i < |s|
    ensures Unescape(u, s[i..]) ==
            if s[i] != PERCENT then [if s[i] == PLUS then SPACE else s[i]] + Unescape(u, s[i + 1..])
            else if i + 2 < |s| then [u(s[i + 1], s[i + 2])] + Unescape(u, s[i + 3..])
            else Unescape(u, s[i + 1..])
  {
  }

  /** Writes one character that the rest of the string starts with. */
  method PutNext(buf: array<byte>, n: nat, c: byte, ghost rest: seq<byte>)
    requires n < buf.Length
    modifies buf
    ensures buf[..n + 1] + rest == old(buf[..n]) + ([c] + rest)
  {
    buf[n] := c;
  }

  /** Decodes the character at `i` into the buffer. */
  method DecodeUnit(u: Reading, s: seq<byte>, i: nat, buf: array<byte>, n: nat) returns (i': nat, n': nat)
    requires i < |s| && n < buf.Length
    modifies buf
    ensures i < i' <= |s| && n <= n' <= n + 1 <= buf.Length
    ensures buf[..n'] + Unescape(u, s[i'..]) == old(buf[..n]) + Unescape(u, s[i..])
  {
    UnescapeAt(u, s, i);
    if s[i] == PERCENT {
      if i + 2 < |s| {
        PutNext(buf, n, u(s[i + 1], s[i + 2]), Unescape(u, s[i + 3..]));
        i', n' := i + 3, n + 1;
      } else {
        i', n' := i + 1, n;
      }
    } else {
      PutNext(buf, n, if s[i] == PLUS then SPACE else s[i], Unescape(u, s[i + 1..]));
      i', n' := i + 1, n + 1;
    }
  }

  method DecodeInto(u: Reading, s: seq<byte>, buf: array<byte>) returns (n: nat)
    requires |s| < buf.Length
    modifies buf
    ensures n <= |s| && buf[..n] == Unescape(u, s)
  {
    var i := 0;
    n := 0;
    ghost var whole := Unescape(u, s);
    assert s[0..] == s;
    while i < |s|
      invariant 0 <= n <= i <= |s|
      invariant whole == buf[..n] + Unescape(u, s[i..])
    {
      i, n := DecodeUnit(u, s, i, buf, n);
    }
  }

  method UrlDecode(s: seq<byte>) returns (r: seq<byte>)
    requires IsText(s)
    ensures r == Decode(s)
  {
    var buf := new byte[|s| + 1];
    var n := DecodeInto(Unhex, s, buf);
    buf[n] := 0;
    r := Text(buf, Unescape(Unhex, s));
  }
}
