/** `strtok_r`: cutting a buffer into tokens in place. */
module StrTok {
  import opened CText
  import opened ConfText

  lemma {:induction false} TokensSkip(s: string, d: char, i: nat)
    requires i <= |s| && forall k :: 0 <= k < i ==> s[k] == d
    ensures Tokens(s, d) == Tokens(s[i..], d)
  {
    if i > 0 { TokensSkip(s[1..], d, i - 1); }
  }

  /** What follows the token at the start of `s`. */
  function AfterToken(s: string, d: char): string {
    var n := IndexOf(s, d);
    if n < |s| then s[n + 1..] else ""
  }

  lemma TokensStep(s: string, d: char)
    requires s != "" && s[0] != d
    ensures Tokens(s, d) == [s[..IndexOf(s, d)]] + Tokens(AfterToken(s, d), d)
  {
  }

  method SkipDelimiters(a: array<char>, p: nat, d: char, ghost text: string) returns (start: nat)
    requires Holds(a, p, text) && d != NUL
    ensures p <= start <= p + |text| && Holds(a, start, text[start - p..])
    ensures Tokens(text, d) == Tokens(text[start - p..], d) && (start < p + |text| ==> text[start - p] != d)
  {
    start := p;
    while a[start] == d
      invariant p <= start <= p + |text|
      invariant forall k :: 0 <= k < start - p ==> text[k] == d
      decreases p + |text| - start
    {
      HeldChar(a, p, text, start - p);
      start := start + 1;
    }
    HeldChar(a, p, text, start - p);
    TokensSkip(text, d, start - p);
  }

  method FindDelimiter(a: array<char>, start: nat, d: char, ghost text: string) returns (end: nat)
    requires Holds(a, start, text) && d != NUL
    ensures end == start + IndexOf(text, d)
  {
    end := start;
    while a[end] != NUL && a[end] != d
      invariant start <= end <= start + |text|
      invariant forall k :: 0 <= k < end - start ==> text[k] != d
      decreases start + |text| - end
    {
      HeldChar(a, start, text, end - start);
      end := end + 1;
    }
    HeldChar(a, start, text, end - start);
    IndexOfIsUnique(text, d, end - start);
  }

  /** Ends the C string after `n` characters, leaving another one behind. */
  method CutAt(a: array<char>, start: nat, n: nat, ghost text: string)
    requires Holds(a, start, text) && n < |text|
    modifies a
    ensures Holds(a, start, text[..n]) && Holds(a, start + n + 1, text[n + 1..])
    ensures forall k :: 0 <= k < a.Length && k != start + n ==> a[k] == old(a[k])
  {
    a[start + n] := NUL;
    ghost var rest := text[n + 1..];
    assert forall k :: 0 <= k < |rest| ==> rest[k] == text[n + 1 + k];
  }

  /** One call: skips delimiters, ends the token with a NUL, and remembers where to go on. */
  method NextToken(a: array<char>, p: nat, d: char, ghost text: string)
    returns (found: bool, start: nat, next: nat, ghost rest: string)
    requires Holds(a, p, text) && d != NUL
    modifies a
    ensures found <==> Tokens(text, d) != []
    ensures found ==> && p <= next && Holds(a, start, Tokens(text, d)[0]) && Holds(a, next, rest) && |rest| < |text|
                      && Tokens(rest, d) == Tokens(text, d)[1..]
                      && (start + |Tokens(text, d)[0]| < next || rest == "")
    ensures forall k :: 0 <= k < p || p + |text| <= k < a.Length ==> a[k] == old(a[k])
  {
    start := SkipDelimiters(a, p, d, text);
    ghost var here := text[start - p..];
    HeldChar(a, start, here, 0);
    next, rest := start, "";
    found := a[start] != NUL;
    if found {
      TokensStep(here, d);
      next, rest := EndToken(a, start, d, here);
    }
  }

  method EndToken(a: array<char>, start: nat, d: char, ghost text: string) returns (next: nat, ghost rest: string)
    requires Holds(a, start, text) && text != "" && text[0] != d && d != NUL
    modifies a
    ensures rest == AfterToken(text, d) && start <= next
    ensures Holds(a, start, text[..IndexOf(text, d)]) && Holds(a, next, rest)
    ensures start + IndexOf(text, d) < next || rest == ""
    ensures forall k :: 0 <= k < start || start + |text| <= k < a.Length ==> a[k] == old(a[k])
  {
    next := FindDelimiter(a, start, d, text);
    rest := AfterToken(text, d);
    HeldChar(a, start, text, next - start);
    if a[next] != NUL {
      CutAt(a, start, next - start, text);
      next := next + 1;
    } else {
      assert text[..next - start] == text;
    }
  }

  /** All tokens of a buffer, each left in place as a C string. */
  method Cut(a: array<char>, d: char, ghost text: string) returns (starts: seq<nat>)
    requires Holds(a, 0, text) && d != NUL
    modifies a
    ensures |starts| == |Tokens(text, d)|
    ensures forall j :: 0 <= j < |starts| ==> Holds(a, starts[j], Tokens(text, d)[j])
  {
    starts := [];
    ghost var rest := text;
    ghost var tokens := Tokens(text, d);
    var next := 0;
    while true
      invariant Holds(a, next, rest)
      invariant |starts| <= |tokens| && Tokens(rest, d) == tokens[|starts|..]
      invariant forall j :: 0 <= j < |starts| ==> Holds(a, starts[j], tokens[j])
      invariant forall j :: 0 <= j < |starts| ==> starts[j] + |tokens[j]| < next || rest == ""
      decreases |rest|
    {
      var found, start, after;
      ghost var rest';
      found, start, after, rest' := NextToken(a, next, d, rest);
      if !found { break; }
      starts, next, rest := starts + [start], after, rest';
    }
  }
}
