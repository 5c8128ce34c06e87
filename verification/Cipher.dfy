/** `Encrypt` and `Decrypt`: reverse, mask, append the mask number, and encode; and back. */
module Cipher {
  import opened Bytes
  import opened Base64
  import opened Base64Loops
  import opened Options

  // ---------------------------------------------------------------------------------------------
  // Exclusive or, bit by bit

  /** The exclusive or of the low-order `n` bits. */
  function XorBits(a: nat, b: nat, n: nat): (r: nat)
    ensures r < Pow2(n)
  {
    if n == 0 then 0 else (if a % 2 == b % 2 then 0 else 1) + 2 * XorBits(a / 2, b / 2, n - 1)
  }

  lemma {:induction false} XorBitsTwice(a: nat, b: nat, n: nat)
    requires a < Pow2(n)
    ensures XorBits(XorBits(a, b, n), b, n) == a
  {
    if n > 0 {
      XorBitsTwice(a / 2, b / 2, n - 1);
      var rest := XorBits(a / 2, b / 2, n - 1);
      var bit := if a % 2 == b % 2 then 0 else 1;
      assert (bit + 2 * rest) / 2 == rest && (bit + 2 * rest) % 2 == bit;
      assert a == a % 2 + 2 * (a / 2);
    }
  }

  function Xor(a: byte, b: byte): byte {
    assert Pow2(8) == 256;
    XorBits(a, b, 8)
  }

  lemma XorTwice(a: byte, b: byte)
    ensures Xor(Xor(a, b), b) == a
  {
    assert Pow2(8) == 256;
    XorBitsTwice(a, b, 8);
  }

  // ---------------------------------------------------------------------------------------------
  // The cipher

  /** The number appended to every text. */
  const MASK: byte := 20

  /** The low-order bits of a signed character's remainder by 32, which takes the character's sign. */
  function KeyOf(mask: byte): byte {
    if mask < 128 then mask % 32 else (-((256 - mask) % 32)) % 256
  }

  function Reversed(s: seq<byte>): (r: seq<byte>)
    ensures |r| == |s|
  {
    seq(|s|, i requires 0 <= i < |s| => s[|s| - 1 - i])
  }

  function Masked(s: seq<byte>, key: byte): (r: seq<byte>)
    ensures |r| == |s|
  {
    seq(|s|, i requires 0 <= i < |s| => Xor(s[i], key))
  }

  /** Reversed and masked, with the mask number at the end. */
  function Seal(text: seq<byte>, mask: byte): seq<byte> { Masked(Reversed(text), KeyOf(mask)) + [mask] }

  function Unseal(d: seq<byte>): seq<byte>
    requires d != []
  {
    Reversed(Masked(d[..|d| - 1], KeyOf(d[|d| - 1])))
  }

  function Encrypt(p: Symbol62, text: seq<byte>): string { Encode(p, Seal(text, MASK)) }

  /** There is no mask number to read when nothing is decoded; the program then throws. */
  function Decrypt(p: Symbol62, s: string): Option<seq<byte>> {
    var d := Decode(p, s);
    if d == [] then None else Some(Unseal(d))
  }

  lemma MaskedTwice(s: seq<byte>, key: byte)
    ensures Masked(Masked(s, key), key) == s
  {
    forall i | 0 <= i < |s| ensures Masked(Masked(s, key), key)[i] == s[i] { XorTwice(s[i], key); }
  }

  lemma ReversedTwice(s: seq<byte>)
    ensures Reversed(Reversed(s)) == s
  {
  }

  lemma UnsealSeal(text: seq<byte>, mask: byte)
    ensures Unseal(Seal(text, mask)) == text
  {
    var m := Masked(Reversed(text), KeyOf(mask));
    assert Seal(text, mask)[..|m|] == m;
    MaskedTwice(Reversed(text), KeyOf(mask));
    ReversedTwice(text);
  }

  lemma SealUnseal(d: seq<byte>, mask: byte)
    requires d != []
    ensures Seal(Unseal(d), mask) == d <==> d[|d| - 1] == mask
  {
    var body := d[..|d| - 1];
    if d[|d| - 1] == mask {
      ReversedTwice(Masked(body, KeyOf(mask)));
      MaskedTwice(body, KeyOf(mask));
      assert d == body + [mask];
    } else {
      assert Seal(Unseal(d), mask)[|d| - 1] == mask;
    }
  }

  /** Decrypting undoes encrypting, for every byte string and either alphabet. */
  lemma DecryptEncrypt(p: Symbol62, text: seq<byte>)
    ensures Decrypt(p, Encrypt(p, text)) == Some(text)
  {
    DecodeEncode(p, Seal(text, MASK));
    UnsealSeal(text, MASK);
  }

  /** Encrypting undoes decrypting on exactly the canonical texts that end in the mask number. */
  lemma EncryptDecryptIff(p: Symbol62, s: string)
    requires Decrypt(p, s).Some?
    ensures Encrypt(p, Decrypt(p, s).value) == s <==> Canonical(p, s) && Decode(p, s)[|Decode(p, s)| - 1] == MASK
  {
    RoundTripIff(p, s, MASK);
  }

  lemma RoundTripIff(p: Symbol62, s: string, mask: byte)
    requires Decode(p, s) != []
    ensures Encode(p, Seal(Unseal(Decode(p, s)), mask)) == s
            <==> Canonical(p, s) && Decode(p, s)[|Decode(p, s)| - 1] == mask
  {
    var d := Decode(p, s);
    var sealed := Seal(Unseal(d), mask);
    SealUnseal(d, mask);
    DecodeEncode(p, sealed);
    EncodedIsCanonical(p, sealed);
    if Canonical(p, s) { CanonicalRoundTrip(p, s); }
  }

  /** What the second cipher writes is what the first writes with '-' for '+'. */
  lemma SecondCipher(text: seq<byte>)
    ensures Encrypt('-', text) == Dashed(Encrypt('+', text))
  {
    SecondAlphabet(Seal(text, MASK));
  }

  // ---------------------------------------------------------------------------------------------
  // The loops

  method MaskLoop(s: seq<byte>, key: byte) returns (r: seq<byte>)
    ensures r == Masked(s, key)
  {
    r := [];
    for i := 0 to |s|
      invariant r == Masked(s, key)[..i]
    {
      r := r + [Xor(s[i], key)];
    }
  }

  method EncryptLoop(p: Symbol62, text: seq<byte>) returns (encoded: string)
    ensures encoded == Encrypt(p, text)
  {
    var masked := MaskLoop(Reversed(text), KeyOf(MASK));
    encoded := EncodeLoop(p, masked + [MASK]);
  }

  method DecryptLoop(p: Symbol62, s: string) returns (text: Option<seq<byte>>)
    ensures text == Decrypt(p, s)
  {
    var decoded := DecodeLoop(p, s);
    if decoded == [] { return None; }
    var masked := MaskLoop(decoded[..|decoded| - 1], KeyOf(decoded[|decoded| - 1]));
    text := Some(Reversed(masked));
  }
}
