/** The streaming hasher `CMd5`, against the one-shot definition of sections 3.1 to 3.5 of RFC 1321.
    Nothing here depends on what the block function `f` computes. */
module Md5 {
  import opened Bytes
  import opened Md5Block

  type BlockFunction = (Chain, Block) -> Chain

  // ---------------------------------------------------------------------------------------------
  // The one-shot definition

  /** The chaining words after every full 64-byte block of `m`; a last partial block is not used. */
  function Absorb(f: BlockFunction, c: Chain, m: seq<byte>): Chain
    decreases |m|
  {
    if |m| < 64 then c else Absorb(f, f(c, m[..64]), m[64..])
  }

  function Zeros(n: nat): seq<byte> { seq(n, _ => 0) }

  /** A one bit, as few zeros as make room for the length at the end of a block, and the low-order
      64 bits of the length in bits. */
  function Padding(n: nat): seq<byte> {
    [0x80] + Zeros((119 - n % 64) % 64) + LittleEndian(8 * n, 8)
  }

  function Digest(f: BlockFunction, m: seq<byte>): (d: seq<byte>)
    ensures |d| == 16
  {
    ChainBytes(Absorb(f, INITIAL, m + Padding(|m|)))
  }

  /** Padding fills up to a block boundary: one more block when the tail leaves room for the marker
      and the length, two otherwise. */
  lemma PaddedLength(m: seq<byte>)
    ensures |m + Padding(|m|)| == 64 * (|m| / 64 + (if |m| % 64 < 56 then 1 else 2))
  {
  }

  lemma PaddingEnds(n: nat)
    ensures var p := Padding(n);
            && |p| >= 9 && p[|p| - 8..] == LittleEndian(8 * n, 8)
            && p[0] == 0x80 && forall i :: 0 < i < |p| - 8 ==> p[i] == 0
  {
  }

  lemma LengthField(n: nat)
    ensures Value(LittleEndian(8 * n, 8)) == 8 * n % 0x1_0000_0000_0000_0000
  {
    ValueOfLittleEndian(8 * n, 8);
    assert Pow256(8) == 0x1_0000_0000_0000_0000;
  }

  lemma PaddingFills(n: nat)
    ensures (n + |Padding(n)|) % 64 == 0 && 9 <= |Padding(n)| < 9 + 64
  {
    var q, k := n / 64, n % 64;
    ZerosNeeded(64 * q, k);
    assert n == 64 * q + k && |Padding(n)| == 9 + if k < 56 then 55 - k else 119 - k;
    assert (64 * (q + 1)) % 64 == 0 && (64 * (q + 2)) % 64 == 0;
  }

  /** Sections 3.1 and 3.2 of RFC 1321: a one bit, zeros, and in the last eight bytes the length in bits modulo
      2^64; they fill up to a multiple of 64 bytes, and there are no more of them than needed. */
  lemma PaddingMeans(n: nat)
    ensures var p := Padding(n);
            && (n + |p|) % 64 == 0 && 9 <= |p| < 9 + 64
            && p[0] == 0x80 && (forall i :: 0 < i < |p| - 8 ==> p[i] == 0)
            && Value(p[|p| - 8..]) == 8 * n % 0x1_0000_0000_0000_0000
  {
    PaddingFills(n);
    PaddingEnds(n);
    LengthField(n);
  }

  lemma {:induction false} AbsorbConcat(f: BlockFunction, c: Chain, x: seq<byte>, y: seq<byte>)
    requires |x| % 64 == 0
    ensures Absorb(f, c, x + y) == Absorb(f, Absorb(f, c, x), y)
    decreases |x|
  {
    if |x| < 64 {
      assert x + y == y;
    } else {
      assert (x + y)[..64] == x[..64] && (x + y)[64..] == x[64..] + y;
      AbsorbConcat(f, f(c, x[..64]), x[64..], y);
    }
  }

  lemma AbsorbBlock(f: BlockFunction, c: Chain, x: seq<byte>, block: seq<byte>)
    requires |x| % 64 == 0 && |block| == 64
    ensures Absorb(f, c, x + block) == f(Absorb(f, c, x), block)
  {
    AbsorbConcat(f, c, x, block);
    assert block[..64] == block;
  }

  /** The words `lo` and `hi` are the low-order 64 bits of the length in bits of `n` bytes. */
  predicate Counts(lo: nat, hi: nat, n: nat) {
    lo == 8 * n % WORD && hi == 8 * n / WORD % WORD
  }

  /** The low counter word after an update. */
  function AddLow(lo: nat, len: nat): nat { (lo + 8 * len % WORD) % WORD }

  /** The high counter word after an update: a carry, and the bits of the length beyond 32. */
  function AddHigh(lo: nat, hi: nat, len: nat): nat {
    ((if AddLow(lo, len) < lo then (hi + 1) % WORD else hi) + len / 0x2000_0000) % WORD
  }

  /** The carry is right: the pair keeps the length in bits modulo 2^64. */
  lemma CounterAdds(lo: nat, hi: nat, n: nat, len: nat)
    requires Counts(lo, hi, n) && len < WORD
    ensures Counts(AddLow(lo, len), AddHigh(lo, hi, len), n + len)
  {
    var q := 8 * n / WORD;
    var low, high := 8 * len % WORD, len / 0x2000_0000;
    var carry := if lo + low < WORD then 0 else 1;
    DivMod(8 * len, high, low);
    DivMod(lo + low, carry, lo + low - WORD * carry);
    assert 8 * (n + len) == WORD * (q + high + carry) + AddLow(lo, len);
    DivMod(8 * (n + len), q + high + carry, AddLow(lo, len));
    AddMod(q, carry, high);
  }

  lemma DivMod(x: nat, q: nat, r: nat)
    requires x == WORD * q + r && r < WORD
    ensures x / WORD == q && x % WORD == r
  {
  }

  lemma AddMod(q: nat, carry: nat, high: nat)
    requires carry <= 1
    ensures ((if carry == 1 then (q % WORD + 1) % WORD else q % WORD) + high) % WORD == (q + high + carry) % WORD
  {
  }

  lemma CounterTail(lo: nat, hi: nat, blocks: nat, tail: nat)
    requires Counts(lo, hi, blocks + tail) && blocks % 64 == 0 && tail < 64
    ensures lo / 8 % 64 == tail
  {
    var q := 8 * (blocks + tail) / WORD;
    var k := blocks + tail - 0x2000_0000 * q;
    assert lo == 8 * k;
    Mod64(k, blocks / 64 - 0x80_0000 * q, tail);
  }

  lemma Mod64(k: int, c: int, tail: nat)
    requires k == 64 * c + tail && tail < 64
    ensures k % 64 == tail
  {
  }

  // ---------------------------------------------------------------------------------------------
  // Memory primitives

  method Copy(dst: array<byte>, off: nat, src: seq<byte>)
    requires off + |src| <= dst.Length
    modifies dst
    ensures dst[..off] == old(dst[..off])
    ensures dst[off..off + |src|] == src
    ensures dst[off + |src|..] == old(dst[off + |src|..])
  {
    forall k | 0 <= k < |src| { dst[off + k] := src[k]; }
  }

  lemma ValueOfFour(s: seq<byte>)
    requires |s| == 4
    ensures LittleEndian((s[3] as int * 0x100 + s[2]) * 0x1_0000 + (s[1] as int * 0x100 + s[0]), 4) == s
  {
    LittleEndianOfValue(s);
    assert s[2..][1..] == s[3..] && s[1..][1..] == s[2..] && s[3..][1..] == [];
    assert Value(s[3..]) == s[3];
    assert Value(s[2..]) == s[2] + 256 * s[3] as int;
    assert Value(s[1..]) == s[1] + 256 * Value(s[2..]);
  }

  /** Reads each of the first `longs` words byte by byte, lowest byte first, and stores it back in
      host order.  On a little-endian host this changes nothing. */
  method ByteReverse(p: array<byte>, longs: nat)
    requires 0 < longs && 4 * longs <= p.Length
    modifies p
    ensures p[..] == old(p[..])
  {
    var cur, left := 0, longs;
    while left > 0
      invariant cur == 4 * (longs - left) && left <= longs
      invariant p[..] == old(p[..])
    {
      var bytes := p[cur..cur + 4];
      ValueOfFour(bytes);
      var value := (bytes[3] as int * 0x100 + bytes[2]) * 0x1_0000 + (bytes[1] as int * 0x100 + bytes[0]);
      Copy(p, cur, LittleEndian(value, 4));
      assert p[..] == p[..cur] + p[cur..cur + 4] + p[cur + 4..];
      cur, left := cur + 4, left - 1;
    }
  }

  // ---------------------------------------------------------------------------------------------
  // The hasher

  /** `f` is MD5's block function. */
  ghost predicate IsMd5(f: BlockFunction) {
    forall c: Chain, block: Block {:trigger Transform(c, block)} :: f(c, block) == Transform(c, block)
  }

  method Run(ghost f: BlockFunction, c: Chain, block: Block) returns (c': Chain)
    requires IsMd5(f)
    ensures c' == f(c, block)
  {
    c' := RunBlock(c, block);
  }

  class Hasher {
    /** The block function, which only the proofs look at: `Run` runs the blocks in place. */
    ghost const f: BlockFunction
    var buf: Chain
    var bits0: nat
    var bits1: nat
    const input: array<byte>
    /** The message hashed so far: its full blocks, and what comes after them. */
    ghost var blocks: seq<byte>
    ghost var tail: seq<byte>
    ghost var length: nat

    ghost predicate Ready() { input.Length == 64 && IsMd5(f) }

    ghost function Message(): seq<byte>
      reads this
    {
      blocks + tail
    }

    /** The chaining words are those of the full blocks, the buffer starts with the tail, and the
        counter is the length in bits modulo 2^64.  The rest of the buffer is arbitrary. */
    ghost predicate Valid()
      reads this, input
    {
      && Ready()
      && |blocks| % 64 == 0 && |tail| < 64
      && buf == Absorb(f, INITIAL, blocks)
      && input[..|tail|] == tail
      && length == |blocks| + |tail| && Counts(bits0, bits1, length)
    }

    /** Leaves every field and the buffer unset, as the program does. */
    constructor ()
      ensures f == Transform && Ready() && fresh(input)
    {
      f := Transform;
      input := new byte[64];
    }

    /** Starts a message, whatever bytes an earlier message left in the buffer. */
    method Init()
      requires Ready()
      modifies this
      ensures Valid() && Message() == []
    {
      buf := INITIAL;
      bits0, bits1 := 0, 0;
      blocks, tail, length := [], [], 0;
    }

    /** Runs the block function over the buffer. */
    method Compress()
      requires Ready() && |blocks| % 64 == 0 && buf == Absorb(f, INITIAL, blocks)
      modifies this`buf, this`blocks, this`tail, input
      ensures input[..] == old(input[..])
      ensures blocks == old(blocks) + old(input[..]) && tail == []
      ensures |blocks| % 64 == 0 && buf == Absorb(f, INITIAL, blocks)
    {
      ByteReverse(input, 16);
      AbsorbBlock(f, INITIAL, blocks, input[..]);
      buf := Run(f, buf, input[..]);
      blocks, tail := blocks + input[..], [];
    }

    /** Adds a length to the two counter words, and tells how many bytes the buffer had. */
    method CountBits(len: nat) returns (had: nat)
      requires Valid() && len < WORD
      modifies this`bits0, this`bits1, this`length
      ensures had == |tail|
      ensures length == |blocks| + |tail| + len && Counts(bits0, bits1, length)
    {
      CounterAdds(bits0, bits1, length, len);
      CounterTail(bits0, bits1, |blocks|, |tail|);
      had := bits0;
      bits0 := AddLow(bits0, len);
      if bits0 < had {
        bits1 := (bits1 + 1) % WORD;
      }
      bits1 := (bits1 + len / 0x2000_0000) % WORD;
      had := had / 8 % 64;
      length := length + len;
    }

    /** Compresses the full blocks of `data` from position `start` on, straight through the buffer. */
    method CompressBlocks(data: seq<byte>, start: nat) returns (pos: nat)
      requires start <= |data| && Ready()
      requires |blocks| % 64 == 0 && buf == Absorb(f, INITIAL, blocks) && tail == []
      modifies this`buf, this`blocks, this`tail, input
      ensures start <= pos <= |data| < pos + 64
      ensures blocks == old(blocks) + data[start..pos] && tail == []
      ensures |blocks| % 64 == 0 && buf == Absorb(f, INITIAL, blocks)
    {
      pos := start;
      while |data| - pos >= 64
        invariant start <= pos <= |data| && Ready()
        invariant |blocks| % 64 == 0 && buf == Absorb(f, INITIAL, blocks)
        invariant blocks == old(blocks) + data[start..pos] && tail == []
      {
        Copy(input, 0, data[pos..pos + 64]);
        assert input[..] == data[pos..pos + 64];
        Adjacent(data, start, pos, pos + 64);
        Compress();
        pos := pos + 64;
      }
    }

    /** Completes the block in the buffer, which has `value` bytes, and compresses it. */
    method CompleteBlock(data: seq<byte>, value: nat) returns (room: nat)
      requires Ready() && value == |tail| < 64 <= value + |data| && input[..value] == tail
      requires |blocks| % 64 == 0 && buf == Absorb(f, INITIAL, blocks)
      modifies this`buf, this`blocks, this`tail, input
      ensures room == 64 - value && blocks == old(Message()) + data[..room] && tail == []
      ensures |blocks| % 64 == 0 && buf == Absorb(f, INITIAL, blocks)
    {
      room := 64 - value;
      Copy(input, value, data[..room]);
      assert input[..] == tail + data[..room];
      Compress();
    }

    /** Keeps `rest` in the buffer after the `value` bytes it already has. */
    method Keep(rest: seq<byte>, value: nat)
      requires Ready() && value == |tail| && value + |rest| < 64 && input[..value] == tail
      modifies this`tail, input
      ensures tail == old(tail) + rest && input[..|tail|] == tail
    {
      Copy(input, value, rest);
      assert input[..value + |rest|] == input[..value] + input[value..value + |rest|];
      tail := tail + rest;
    }

    /** With no bytes left over in the buffer: compresses the full blocks of `data` from `start` on
        and keeps the rest. */
    method UpdateAligned(data: seq<byte>, start: nat)
      requires start <= |data| && Ready()
      requires |blocks| % 64 == 0 && buf == Absorb(f, INITIAL, blocks) && tail == []
      modifies this`buf, this`blocks, this`tail, input
      ensures Message() == old(blocks) + data[start..]
      ensures |blocks| % 64 == 0 && |tail| < 64
      ensures buf == Absorb(f, INITIAL, blocks) && input[..|tail|] == tail
    {
      var pos := CompressBlocks(data, start);
      Keep(data[pos..], 0);
      assert data[start..] == data[start..pos] + data[pos..];
    }

    /** Appends `data` to the message. */
    method Update(data: seq<byte>)
      requires Valid() && |data| < WORD
      modifies this, input
      ensures Valid() && Message() == old(Message()) + data
    {
      var value := CountBits(|data|);
      var pos := 0;
      if value != 0 {
        if |data| < 64 - value {
          Keep(data, value);
          assert Message() == old(Message()) + data;
          return;
        }
        pos := CompleteBlock(data, value);
      }
      UpdateAligned(data, pos);
      Rejoin(old(Message()), data, pos);
    }

    /** Writes the marker and the zeros, compressing when they do not leave room for the length. */
    method Pad()
      requires Valid()
      modifies this`buf, this`blocks, this`tail, input
      ensures |blocks| % 64 == 0 && buf == Absorb(f, INITIAL, blocks)
      ensures var n := |old(tail)|;
              if n < 56 then blocks == old(blocks) && input[..56] == old(tail) + [0x80] + Zeros(55 - n)
              else blocks == old(blocks) + (old(tail) + [0x80] + Zeros(63 - n)) && input[..56] == Zeros(56)
    {
      CounterTail(bits0, bits1, |blocks|, |tail|);
      var count := bits0 / 8 % 64;
      assert count == |tail|;
      input[count] := 0x80;
      var cur := count + 1;
      count := 63 - count;
      if count < 8 {
        Copy(input, cur, Zeros(count));
        assert input[..] == tail + [0x80] + Zeros(count);
        Compress();
        Copy(input, 0, Zeros(56));
      } else {
        Copy(input, cur, Zeros(count - 8));
      }
    }

    /** Stores the length in the last two words of the buffer and compresses. */
    method CompressWithLength()
      requires Ready() && |blocks| % 64 == 0 && buf == Absorb(f, INITIAL, blocks)
      modifies this`buf, input
      ensures buf == Absorb(f, INITIAL, blocks + (old(input[..56]) + LittleEndian(bits0, 4) + LittleEndian(bits1, 4)))
    {
      ByteReverse(input, 14);
      ghost var front := input[..56];
      Copy(input, 56, LittleEndian(bits0, 4));
      assert input[..60] == front + LittleEndian(bits0, 4);
      Copy(input, 60, LittleEndian(bits1, 4));
      assert input[..60] == front + LittleEndian(bits0, 4) && input[60..] == LittleEndian(bits1, 4);
      assert input[..] == front + LittleEndian(bits0, 4) + LittleEndian(bits1, 4);
      AbsorbBlock(f, INITIAL, blocks, input[..]);
      buf := Run(f, buf, input[..]);
    }

    /** Ends the message.  The next one starts with `Init`. */
    method Final() returns (digest: seq<byte>)
      requires Valid()
      modifies this, input
      ensures digest == Digest(f, old(Message()))
    {
      ghost var padded := Message() + Padding(|Message()|);
      FinalBlocks(blocks, tail, bits0, bits1);
      Pad();
      CompressWithLength();
      assert buf == Absorb(f, INITIAL, padded);
      digest := Output();
    }

    /** Stores the chaining words as the sixteen bytes of the digest. */
    method Output() returns (digest: seq<byte>)
      ensures digest == ChainBytes(buf)
    {
      var out := new byte[16];
      Copy(out, 0, ChainBytes(buf));
      ByteReverse(out, 4);
      digest := out[..];
    }
  }

  lemma Adjacent(s: seq<byte>, i: nat, j: nat, k: nat)
    requires i <= j <= k <= |s|
    ensures s[i..j] + s[j..k] == s[i..k]
  {
  }

  lemma Rejoin(m: seq<byte>, s: seq<byte>, i: nat)
    requires i <= |s|
    ensures (m + s[..i]) + s[i..] == m + s
    ensures m + s[..0] == m
  {
  }

  lemma Regroup(a: seq<byte>, b: seq<byte>, c: seq<byte>, z: seq<byte>, l: seq<byte>, h: seq<byte>)
    ensures (a + b) + (c + z + (l + h)) == a + (b + c + z + l + h)
  {
  }

  lemma RegroupTwo(a: seq<byte>, b: seq<byte>, c: seq<byte>, y: seq<byte>, z: seq<byte>, l: seq<byte>, h: seq<byte>)
    ensures (a + b) + (c + (y + z) + (l + h)) == (a + (b + c + y)) + (z + l + h)
  {
  }

  lemma ZerosNeeded(blocks: nat, tail: nat)
    requires blocks % 64 == 0 && tail < 64
    ensures (119 - (blocks + tail) % 64) % 64 == if tail < 56 then 55 - tail else 119 - tail
  {
  }

  /** The padding, with the length as the two counter words. */
  lemma {:induction false} PaddingWords(blocks: nat, tail: nat, lo: nat, hi: nat)
    requires Counts(lo, hi, blocks + tail) && blocks % 64 == 0 && tail < 64
    ensures Padding(blocks + tail) ==
            [0x80] + Zeros(if tail < 56 then 55 - tail else 119 - tail) + (LittleEndian(lo, 4) + LittleEndian(hi, 4))
  {
    ZerosNeeded(blocks, tail);
    LittleEndianWords(8 * (blocks + tail));
  }

  /** The padded message, cut where the program compresses. */
  lemma {:induction false} FinalBlocks(blocks: seq<byte>, tail: seq<byte>, lo: nat, hi: nat)
    requires |blocks| % 64 == 0 && |tail| < 64
    requires Counts(lo, hi, |blocks + tail|)
    ensures
      var m, l, h := blocks + tail, LittleEndian(lo, 4), LittleEndian(hi, 4);
      m + Padding(|m|) ==
      if |tail| < 56 then blocks + (tail + [0x80] + Zeros(55 - |tail|) + l + h)
      else (blocks + (tail + [0x80] + Zeros(63 - |tail|))) + (Zeros(56) + l + h)
  {
    PaddedTail(blocks, tail, Padding(|blocks + tail|), lo, hi, LittleEndian(lo, 4), LittleEndian(hi, 4));
  }

  lemma {:induction false} PaddedTail(blocks: seq<byte>, tail: seq<byte>, pad: seq<byte>, lo: nat, hi: nat,
      l: seq<byte>, h: seq<byte>)
    requires |blocks| % 64 == 0 && |tail| < 64 && Counts(lo, hi, |blocks + tail|)
    requires pad == Padding(|blocks + tail|) && l == LittleEndian(lo, 4) && h == LittleEndian(hi, 4)
    ensures (blocks + tail) + pad ==
            if |tail| < 56 then blocks + (tail + [0x80] + Zeros(55 - |tail|) + l + h)
            else (blocks + (tail + [0x80] + Zeros(63 - |tail|))) + (Zeros(56) + l + h)
  {
    assert pad == [0x80] + Zeros(if |tail| < 56 then 55 - |tail| else 119 - |tail|) + (l + h) by {
      assert |blocks + tail| == |blocks| + |tail|;
      PaddingWords(|blocks|, |tail|, lo, hi);
    }
    FinalCut(blocks, tail, pad, l, h);
  }

  lemma {:induction false} FinalCut(blocks: seq<byte>, tail: seq<byte>, pad: seq<byte>, l: seq<byte>, h: seq<byte>)
    requires |tail| < 64 && pad == [0x80] + Zeros(if |tail| < 56 then 55 - |tail| else 119 - |tail|) + (l + h)
    ensures (blocks + tail) + pad ==
            if |tail| < 56 then blocks + (tail + [0x80] + Zeros(55 - |tail|) + l + h)
            else (blocks + (tail + [0x80] + Zeros(63 - |tail|))) + (Zeros(56) + l + h)
  {
    if |tail| < 56 {
      Regroup(blocks, tail, [0x80], Zeros(55 - |tail|), l, h);
    } else {
      assert Zeros(119 - |tail|) == Zeros(63 - |tail|) + Zeros(56);
      RegroupTwo(blocks, tail, [0x80], Zeros(63 - |tail|), Zeros(56), l, h);
    }
  }

  // ---------------------------------------------------------------------------------------------
  // Any split of a message

  function Concat(chunks: seq<seq<byte>>): seq<byte> {
    if chunks == [] then [] else Concat(chunks[..|chunks| - 1]) + chunks[|chunks| - 1]
  }

  /** However a message is cut into updates, and whatever the hasher was used for before, the digest
      is that of the message. */
  method HashChunks(h: Hasher, chunks: seq<seq<byte>>) returns (digest: seq<byte>)
    requires h.Ready()
    requires forall k :: 0 <= k < |chunks| ==> |chunks[k]| < WORD
    modifies h, h.input
    ensures digest == Digest(h.f, Concat(chunks))
  {
    h.Init();
    for k := 0 to |chunks|
      invariant h.Valid() && h.Message() == Concat(chunks[..k])
    {
      assert chunks[..k + 1][..k] == chunks[..k];
      h.Update(chunks[k]);
    }
    assert chunks[..|chunks|] == chunks;
    digest := h.Final();
  }

  /** MD5 itself: the hasher with the block function of the standard. */
  method HashMd5(chunks: seq<seq<byte>>) returns (digest: seq<byte>)
    requires forall k :: 0 <= k < |chunks| ==> |chunks[k]| < WORD
    ensures digest == Digest(Transform, Concat(chunks))
  {
    var h := new Hasher();
    digest := HashChunks(h, chunks);
  }
}
