/** The C text functions the program relies on: `strchr`, `strtok_r`, `atoi`, and decimal printing. */
module CText {

  // ---------------------------------------------------------------------------------------------
  // Searching

  /** Where `c` first occurs in `s`, or the length of `s`. */
  function IndexOf(s: string, c: char): (i: nat)
    ensures i <= |s|
    ensures i < |s| ==> s[i] == c
  {
    if s == [] || s[0] == c then 0 else 1 + IndexOf(s[1..], c)
  }

  lemma {:induction false} IndexOfIsFirst(s: string, c: char)
    ensures forall k :: 0 <= k < IndexOf(s, c) ==> s[k] != c
  {
    if s != [] && s[0] != c { IndexOfIsFirst(s[1..], c); }
  }

  lemma {:induction false} IndexOfIsUnique(s: string, c: char, i: nat)
    requires i <= |s| && (i < |s| ==> s[i] == c) && forall k :: 0 <= k < i ==> s[k] != c
    ensures IndexOf(s, c) == i
  {
    if i > 0 { IndexOfIsUnique(s[1..], c, i - 1); }
  }

  // ---------------------------------------------------------------------------------------------
  // Tokens

  /** What repeated calls of `strtok_r` return: the maximal non-empty runs without the delimiter. */
  function Tokens(s: string, d: char): seq<string>
    decreases |s|
  {
    if s == [] then []
    else if s[0] == d then Tokens(s[1..], d)
    else
      var n := IndexOf(s, d);
      [s[..n]] + Tokens(s[n..], d)
  }

  /** A run without delimiters, followed by a delimiter, is the first token. */
  lemma TokensField(field: string, rest: string, d: char)
    requires d !in field
    ensures Tokens(field + [d] + rest, d) == (if field == [] then [] else [field]) + Tokens(rest, d)
  {
    var s := field + [d] + rest;
    if field == [] {
      assert s[1..] == rest;
    } else {
      IndexOfIsUnique(s, d, |field|);
      assert s[..|field|] == field && s[|field|..] == [d] + rest;
      assert ([d] + rest)[1..] == rest;
    }
  }

  lemma TokensLast(field: string, d: char)
    requires d !in field
    ensures Tokens(field, d) == if field == [] then [] else [field]
  {
    if field != [] {
      IndexOfIsUnique(field, d, |field|);
      assert field[|field|..] == [] && field[..|field|] == field;
    }
  }

  // ---------------------------------------------------------------------------------------------
  // Numbers

  predicate IsDigit(c: char) { '0' <= c <= '9' }

  predicate IsSpace(c: char) { c == ' ' || 9 <= c as int <= 13 }

  /** The number written by the digits at the start of `s`, appended to the digits of `acc`. */
  function Digits(s: string, acc: nat): nat {
    if s == [] || !IsDigit(s[0]) then acc else Digits(s[1..], 10 * acc + (s[0] as int - '0' as int))
  }

  function SkipSpaces(s: string): string {
    if s != [] && IsSpace(s[0]) then SkipSpaces(s[1..]) else s
  }

  const INT64_MAX: int := 0x7fff_ffff_ffff_ffff

  /** `atol`: leading blanks, a sign, digits; out of range it saturates. */
  function Atol(s: string): int {
    var t := SkipSpaces(s);
    if t != [] && t[0] == '-' then
      var n: int := Digits(t[1..], 0);
      if n > INT64_MAX + 1 then -INT64_MAX - 1 else -n
    else
      var n := Digits(if t != [] && t[0] == '+' then t[1..] else t, 0);
      if n > INT64_MAX then INT64_MAX else n
  }

  /** The low-order 32 bits of `x` as a signed number. */
  function Int32(x: int): int {
    var m := x % 0x1_0000_0000;
    if m < 0x8000_0000 then m else m - 0x1_0000_0000
  }

  /** `atoi`: the low-order 32 bits of `atol`. */
  function Atoi(s: string): int { Int32(Atol(s)) }

  /** Decimal digits, as `%d` prints a number that is not negative. */
  function Decimal(n: nat): (s: string)
    ensures s != [] && forall k :: 0 <= k < |s| ==> IsDigit(s[k])
  {
    if n < 10 then [('0' as int + n) as char] else Decimal(n / 10) + [('0' as int + n % 10) as char]
  }

  lemma {:induction false} DigitsAppend(a: string, b: string, acc: nat)
    requires forall k :: 0 <= k < |a| ==> IsDigit(a[k])
    ensures Digits(a + b, acc) == Digits(b, Digits(a, acc))
  {
    if a == [] {
      assert a + b == b;
    } else {
      assert (a + b)[1..] == a[1..] + b;
      DigitsAppend(a[1..], b, 10 * acc + (a[0] as int - '0' as int));
    }
  }

  lemma {:induction false} DigitsOfDecimal(n: nat)
    ensures Digits(Decimal(n), 0) == n
  {
    if n >= 10 {
      DigitsOfDecimal(n / 10);
      DigitsAppend(Decimal(n / 10), [('0' as int + n % 10) as char], 0);
    }
  }

  function Print(n: int): string { if n < 0 then ['-'] + Decimal(-n) else Decimal(n) }

  lemma Int32Keeps(n: int)
    requires -0x8000_0000 <= n < 0x8000_0000
    ensures Int32(n) == n
  {
  }

  lemma AtolOfDecimal(n: nat, rest: string)
    requires n <= 0x8000_0000 && (rest == [] || !IsDigit(rest[0]))
    ensures Atol(Decimal(n) + rest) == n && Atol(['-'] + (Decimal(n) + rest)) == 0 - n
  {
    var s := Decimal(n) + rest;
    DigitsOfDecimal(n);
    DigitsAppend(Decimal(n), rest, 0);
    assert Digits(s, 0) == n;
    assert IsDigit(s[0]);
    assert (['-'] + s)[1..] == s;
  }

  /** Reading back a printed number, whatever follows it, provided no digit does. */
  lemma AtoiOfPrint(n: int, rest: string)
    requires -0x8000_0000 <= n < 0x8000_0000 && (rest == [] || !IsDigit(rest[0]))
    ensures Atol(Print(n) + rest) == n && Atoi(Print(n) + rest) == n
  {
    AtolOfDecimal(if n < 0 then -n else n, rest);
    if n < 0 { assert Print(n) + rest == ['-'] + (Decimal(-n) + rest); }
    Int32Keeps(n);
  }

  lemma AtolOfPrint(n: int)
    requires -0x8000_0000 <= n < 0x8000_0000
    ensures Atol(Print(n)) == n && Atoi(Print(n)) == n
  {
    AtoiOfPrint(n, []);
    assert Print(n) + [] == Print(n);
  }

  lemma {:induction false} SpacesAreSkipped(spaces: string, s: string)
    requires forall k :: 0 <= k < |spaces| ==> spaces[k] == ' ' || 9 <= spaces[k] as int <= 13
    requires s == "" || (s[0] != ' ' && !(9 <= s[0] as int <= 13))
    ensures SkipSpaces(spaces + s) == s
  {
    if spaces == "" {
      assert spaces + s == s;
    } else {
      assert (spaces + s)[1..] == spaces[1..] + s;
      SpacesAreSkipped(spaces[1..], s);
    }
  }

  lemma DigitsOfDecimalAndMore(n: nat, rest: string)
    requires rest == "" || !IsDigit(rest[0])
    ensures Digits(Decimal(n) + rest, 0) == n
  {
    DigitsOfDecimal(n);
    DigitsAppend(Decimal(n), rest, 0);
  }

  /** A number after blanks, with an optional sign and whatever follows, held between the ends of 64 bits. */
  lemma AtolMeans(spaces: string, n: nat, rest: string)
    requires forall k :: 0 <= k < |spaces| ==> spaces[k] == ' ' || 9 <= spaces[k] as int <= 13
    requires rest == "" || !('0' <= rest[0] <= '9')
    ensures Atol(spaces + (Decimal(n) + rest)) == if n > 0x7fff_ffff_ffff_ffff then 0x7fff_ffff_ffff_ffff else n
    ensures Atol(spaces + ("+" + (Decimal(n) + rest))) == if n > 0x7fff_ffff_ffff_ffff then 0x7fff_ffff_ffff_ffff else n
    ensures Atol(spaces + ("-" + (Decimal(n) + rest))) ==
            if n > 0x8000_0000_0000_0000 then -0x8000_0000_0000_0000 else 0 - n
  {
    var s := Decimal(n) + rest;
    DigitsOfDecimalAndMore(n, rest);
    assert IsDigit(s[0]);
    SpacesAreSkipped(spaces, s);
    SpacesAreSkipped(spaces, "+" + s);
    SpacesAreSkipped(spaces, "-" + s);
    assert ("+" + s)[1..] == s && ("-" + s)[1..] == s;
  }

  /** Text without a number reads as 0. */
  lemma AtolOfNothing(s: string)
    requires s == "" || !(IsSpace(s[0]) || IsDigit(s[0]) || s[0] == '-' || s[0] == '+')
    ensures Atol(s) == 0
  {
  }
}
