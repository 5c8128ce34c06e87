/** The 64 steps of an MD5 block, over any kind of word: the rotating form that section 3.4 of RFC 1321
    describes, and the program's form, where four variables keep their places. */
module Md5Steps {

  /** `mix` is the round function of the standard, `macro` that of the program. */
  datatype Ops<!W> = Ops(
    plus: (W, W) -> W, rotate: (W, bv32) -> W,
    mix: (nat, W, W, W) -> W, macro: (nat, W, W, W) -> W)

  /** All that the two forms need of the operations to be the same. */
  ghost predicate Sound<W(!new)>(o: Ops<W>) {
    forall round, x, y, z :: o.macro(round, x, y, z) == o.mix(round, x, y, z)
  }

  /** A step: the word of the block it uses, its constant and its shift. */
  datatype Row<W> = Row(word: nat, sine: W, shift: bv32)

  datatype Regs<W> = Regs(a: W, b: W, c: W, d: W)

  predicate Fits<W>(rows: seq<Row<W>>, input: seq<W>) {
    forall k :: 0 <= k < |rows| ==> rows[k].word < |input|
  }

  // ---------------------------------------------------------------------------------------------
  // The standard: one operation, and then the registers change roles

  function NewWord<W>(o: Ops<W>, round: nat, row: Row<W>, input: seq<W>, r: Regs<W>): W
    requires row.word < |input|
  {
    var sum := o.plus(r.a, o.plus(o.mix(round, r.b, r.c, r.d), o.plus(input[row.word], row.sine)));
    o.plus(o.rotate(sum, row.shift), r.b)
  }

  function Step<W>(o: Ops<W>, round: nat, row: Row<W>, input: seq<W>, r: Regs<W>): Regs<W>
    requires row.word < |input|
  {
    Regs(r.d, NewWord(o, round, row, input, r), r.b, r.c)
  }

  /** The registers after the first `k` steps. */
  function Steps<W>(o: Ops<W>, rows: seq<Row<W>>, input: seq<W>, k: nat, r: Regs<W>): Regs<W>
    requires k <= |rows| && Fits(rows, input)
  {
    if k == 0 then r else Step(o, (k - 1) / 16, rows[k - 1], input, Steps(o, rows, input, k - 1, r))
  }

  // ---------------------------------------------------------------------------------------------
  // The program: `w` is overwritten and the others stay

  /** `MD5STEP`. */
  function Overwrite<W>(o: Ops<W>, round: nat, row: Row<W>, input: seq<W>, w: W, x: W, y: W, z: W): W
    requires row.word < |input|
  {
    var data := o.plus(input[row.word], row.sine);
    o.plus(o.rotate(o.plus(w, o.plus(o.macro(round, x, y, z), data)), row.shift), x)
  }

  /** Overwriting a variable computes the standard's new word. */
  ghost predicate Faithful<W(!new)>(o: Ops<W>, input: seq<W>) {
    forall round, row: Row<W>, w, x, y, z {:trigger Overwrite(o, round, row, input, w, x, y, z)} ::
      row.word < |input| ==>
        Overwrite(o, round, row, input, w, x, y, z) == NewWord(o, round, row, input, Regs(w, x, y, z))
  }

  lemma SoundIsFaithful<W(!new)>(o: Ops<W>, input: seq<W>)
    requires Sound(o)
    ensures Faithful(o, input)
  {
  }

  /** One line of the program, seen as a step of the standard. */
  lemma {:induction false} LineIsStep<W(!new)>(o: Ops<W>, rows: seq<Row<W>>, input: seq<W>, round: nat, k: nat,
      start: Regs<W>, w: W, x: W, y: W, z: W)
    requires Faithful(o, input) && Fits(rows, input) && k < |rows| && round == k / 16
    requires Steps(o, rows, input, k, start) == Regs(w, x, y, z)
    ensures Steps(o, rows, input, k + 1, start) == Regs(z, Overwrite(o, round, rows[k], input, w, x, y, z), x, y)
  {
  }

  lemma SameRound(k: nat)
    requires k % 4 == 0
    ensures (k + 1) / 16 == k / 16 && (k + 2) / 16 == k / 16 && (k + 3) / 16 == k / 16
  {
    var m := k / 4;
    var q := m / 4;
    assert k == 16 * q + 4 * (m % 4);
    Div16(k, q, 4 * (m % 4));
    Div16(k + 1, q, 4 * (m % 4) + 1);
    Div16(k + 2, q, 4 * (m % 4) + 2);
    Div16(k + 3, q, 4 * (m % 4) + 3);
  }

  lemma Div16(n: nat, q: nat, r: nat)
    requires n == 16 * q + r && r < 16
    ensures n / 16 == q
  {
  }

  lemma RoomForFour(k: nat, n: nat)
    requires k % 4 == 0 && n % 4 == 0 && k < n
    ensures k + 4 <= n && (k + 4) % 4 == 0
  {
  }

  /** Four lines of the program.  They write a, d, c and b in turn, and after them every variable has its
      old role again. */
  method FourSteps<W(!new)>(o: Ops<W>, rows: seq<Row<W>>, input: seq<W>, k: nat, r: Regs<W>, ghost start: Regs<W>)
    returns (r': Regs<W>)
    requires Faithful(o, input) && Fits(rows, input) && k % 4 == 0 && k + 4 <= |rows|
             && r == Steps(o, rows, input, k, start)
    ensures r' == Steps(o, rows, input, k + 4, start)
  {
    var round := k / 16;
    SameRound(k);
    var a, b, c, d := r.a, r.b, r.c, r.d;
    LineIsStep(o, rows, input, round, k, start, a, b, c, d);
    a := Overwrite(o, round, rows[k], input, a, b, c, d);
    LineIsStep(o, rows, input, round, k + 1, start, d, a, b, c);
    d := Overwrite(o, round, rows[k + 1], input, d, a, b, c);
    LineIsStep(o, rows, input, round, k + 2, start, c, d, a, b);
    c := Overwrite(o, round, rows[k + 2], input, c, d, a, b);
    LineIsStep(o, rows, input, round, k + 3, start, b, c, d, a);
    b := Overwrite(o, round, rows[k + 3], input, b, c, d, a);
    r' := Regs(a, b, c, d);
  }

  /** All lines of the program leave in its variables what the standard's steps leave in its registers. */
  method AllSteps<W(!new)>(o: Ops<W>, rows: seq<Row<W>>, input: seq<W>, start: Regs<W>) returns (r: Regs<W>)
    requires Faithful(o, input) && Fits(rows, input) && |rows| % 4 == 0
    ensures r == Steps(o, rows, input, |rows|, start)
  {
    r := start;
    var k := 0;
    while k < |rows|
      invariant k % 4 == 0 && k <= |rows| && r == Steps(o, rows, input, k, start)
    {
      RoomForFour(k, |rows|);
      r := FourSteps(o, rows, input, k, r, start);
      k := k + 4;
    }
  }

  /** The steps' result added to the registers they started from. */
  function Compressed<W>(o: Ops<W>, rows: seq<Row<W>>, input: seq<W>, r: Regs<W>): Regs<W>
    requires Fits(rows, input)
  {
    var s := Steps(o, rows, input, |rows|, r);
    Regs(o.plus(r.a, s.a), o.plus(r.b, s.b), o.plus(r.c, s.c), o.plus(r.d, s.d))
  }

  /** The whole function of the program, on its four words in place. */
  method Compress<W(!new)>(o: Ops<W>, rows: seq<Row<W>>, input: seq<W>, buf: array<W>)
    requires Faithful(o, input) && Fits(rows, input) && |rows| % 4 == 0 && buf.Length == 4
    modifies buf
    ensures Regs(buf[0], buf[1], buf[2], buf[3]) ==
            Compressed(o, rows, input, old(Regs(buf[0], buf[1], buf[2], buf[3])))
  {
    var r := AllSteps(o, rows, input, Regs(buf[0], buf[1], buf[2], buf[3]));
    buf[0] := o.plus(buf[0], r.a);
    buf[1] := o.plus(buf[1], r.b);
    buf[2] := o.plus(buf[2], r.c);
    buf[3] := o.plus(buf[3], r.d);
  }
}
