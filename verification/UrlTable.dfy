/** Percent coding character by character. */
module UrlTable {
  import opened Bytes
  import opened Url

  /** "0123456789ABCDEF". */
  const DIGITS: seq<byte> := [48, 49, 50, 51, 52, 53, 54, 55, 56, 57, 65, 66, 67, 68, 69, 70]

  lemma HexDigits(d: byte)
    requires d < 16
    ensures ToHex(d) == DIGITS[d]
  {
  }

  /** Letters, digits, '-', '_', '.' and '~' stay, a space becomes '+', and anything else '%' and two digits. */
  lemma EncodedCharacter(c: byte, rest: seq<byte>)
    ensures Encode([c] + rest) ==
            (if 65 <= c <= 90 || 97 <= c <= 122 || 48 <= c <= 57 || c == 45 || c == 95 || c == 46 || c == 126 then [c]
             else if c == 32 then [43]
             else [37, DIGITS[c / 16], DIGITS[c % 16]]) + Encode(rest)
  {
    HexDigits(c / 16);
    HexDigits(c % 16);
    assert ([c] + rest)[1..] == rest;
  }

  lemma EscapeIs(h: byte, l: byte, rest: seq<byte>)
    requires FromHex(h) < 16 && FromHex(l) < 16
    ensures Unescape(Unhex, [37, h, l] + rest) == [16 * FromHex(h) as int + FromHex(l)] + Unescape(Unhex, rest)
  {
    UnhexDigits(h, l);
    assert ([37, h, l] + rest)[3..] == rest;
  }

  /** `c` is the digit for `d`, in either case. */
  predicate IsHex(c: byte, d: byte) {
    if d < 10 then c as int == '0' as int + d
    else d < 16 && (c as int == 'A' as int + d - 10 || c as int == 'a' as int + d - 10)
  }

  lemma HexIsRead(c: byte, d: byte)
    requires IsHex(c, d)
    ensures FromHex(c) == d
  {
  }

  /** '%' and two hexadecimal digits of either case are one character. */
  lemma DecodedEscape(hi: byte, lo: byte, h: byte, l: byte, rest: seq<byte>)
    requires IsHex(h, hi) && IsHex(l, lo)
    ensures Unescape(Unhex, [37, h, l] + rest) == [16 * hi as int + lo] + Unescape(Unhex, rest)
  {
    HexIsRead(h, hi);
    HexIsRead(l, lo);
    EscapeIs(h, l, rest);
  }

  /** Any other character but '%' stands for itself, '+' for a space; a '%' with less after it is dropped. */
  lemma DecodedCharacter(c: byte, rest: seq<byte>)
    ensures c != 37 ==> Unescape(Unhex, [c] + rest) == [if c == 43 then 32 else c] + Unescape(Unhex, rest)
    ensures c == 37 && |rest| < 2 ==> Unescape(Unhex, [c] + rest) == Unescape(Unhex, rest)
  {
    assert ([c] + rest)[1..] == rest;
  }

  /** The decoded text ends before the first zero. */
  lemma {:induction false} UpToNulStops(a: seq<byte>, b: seq<byte>)
    requires IsText(a)
    ensures UpToNul(a) == a && UpToNul(a + [0] + b) == a
  {
    if a != [] {
      UpToNulStops(a[1..], b);
      assert (a + [0] + b)[1..] == a[1..] + [0] + b;
    }
  }
}
