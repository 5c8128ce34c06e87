/** `CConf`: trimming and splitting a line of the configuration file inside its buffer. */
module ConfText {
  import opened CText

  const NUL := '\0'

  predicate IsBlank(c: char) { c == ' ' || c == '\t' || c == '\r' || c == '\n' }

  // ---------------------------------------------------------------------------------------------
  // On strings

  function DropBlanks(s: string): string {
    if s != "" && IsBlank(s[0]) then DropBlanks(s[1..]) else s
  }

  function DropTrailing(s: string): string {
    if s != "" && IsBlank(s[|s| - 1]) then DropTrailing(s[..|s| - 1]) else s
  }

  /** Without the remark at the end and the blanks before it. */
  function Content(s: string): string { DropTrailing(s[..IndexOf(s, '#')]) }

  lemma DropBlanksSuffix(s: string, i: nat)
    requires i <= |s| && (forall k :: 0 <= k < i ==> IsBlank(s[k])) && (i == |s| || !IsBlank(s[i]))
    ensures DropBlanks(s) == s[i..]
  {
    if i > 0 { DropBlanksSuffix(s[1..], i - 1); }
  }

  lemma DropTrailingPrefix(s: string, i: nat)
    requires i <= |s| && (forall k :: i <= k < |s| ==> IsBlank(s[k])) && (i == 0 || !IsBlank(s[i - 1]))
    ensures DropTrailing(s) == s[..i]
  {
  }

  lemma {:induction false} DropBlanksIsSuffix(s: string)
    ensures exists i | 0 <= i <= |s| :: DropBlanks(s) == s[i..]
    ensures DropBlanks(s) != "" ==> !IsBlank(DropBlanks(s)[0])
  {
    if s != "" && IsBlank(s[0]) {
      DropBlanksIsSuffix(s[1..]);
      var i :| 0 <= i <= |s[1..]| && DropBlanks(s[1..]) == s[1..][i..];
      assert s[1..][i..] == s[i + 1..];
    } else {
      assert s == s[0..];
    }
  }

  // ---------------------------------------------------------------------------------------------
  // In a buffer

  /** The C string at `p` is `text`. */
  ghost predicate Holds(a: array<char>, p: nat, text: string)
    reads a
  {
    && p + |text| < a.Length && a[p + |text|] == NUL
    && (forall k :: 0 <= k < |text| ==> a[p + k] == text[k] && text[k] != NUL)
  }

  lemma HeldChar(a: array<char>, p: nat, text: string, k: nat)
    requires Holds(a, p, text) && k <= |text|
    ensures a[p + k] == NUL <==> k == |text|
    ensures k < |text| ==> a[p + k] == text[k]
  {
  }

  /** `ConfTrimLeft`: drops leading blanks by moving the rest of the string down. */
  method TrimLeft(a: array<char>, p: nat, ghost text: string)
    requires Holds(a, p, text)
    modifies a
    ensures Holds(a, p, DropBlanks(text))
    ensures forall k :: 0 <= k < p || p + |text| < k < a.Length ==> a[k] == old(a[k])
  {
    var cur := p;
    while IsBlank(a[cur])
      invariant p <= cur <= p + |text|
      invariant forall k :: 0 <= k < cur - p ==> IsBlank(text[k])
      decreases a.Length - cur
      modifies {}
    {
      HeldChar(a, p, text, cur - p);
      cur := cur + 1;
    }
    ghost var skipped := cur - p;
    HeldChar(a, p, text, skipped);
    DropBlanksSuffix(text, skipped);
    var to := p;
    while true
      invariant cur == to + skipped && p <= to && cur <= p + |text|
      invariant forall k :: p <= k < to ==> a[k] == text[k - p + skipped]
      invariant forall k :: cur <= k < a.Length ==> a[k] == old(a[k])
      invariant forall k :: 0 <= k < p ==> a[k] == old(a[k])
      decreases a.Length - to
    {
      assert a[cur] == old(a[cur]) && (a[cur] == NUL <==> cur == p + |text|) by {
        assert cur < p + |text| ==> text[cur - p] != NUL;
      }
      a[to] := a[cur];
      if a[to] == NUL { break; }
      to, cur := to + 1, cur + 1;
    }
  }

  /** `ConfTrimRight`: cuts off a remark and the blanks before it.  The walk to the left has nothing to
      stop it at the start of the buffer, so it is `defined` only if it meets something else first. */
  method TrimRight(a: array<char>, ghost text: string) returns (defined: bool)
    requires Holds(a, 0, text)
    modifies a
    ensures defined <==> text == "" || Content(text) != ""
    ensures defined ==> Holds(a, 0, Content(text))
    ensures forall k :: |text| < k < a.Length ==> a[k] == old(a[k])
  {
    HeldChar(a, 0, text, 0);
    if a[0] == NUL { return true; }
    var cur := 0;
    while a[cur] != NUL && a[cur] != '#'
      invariant 0 <= cur <= |text|
      invariant forall k :: 0 <= k < cur ==> text[k] != '#'
      decreases |text| - cur
      modifies {}
    {
      HeldChar(a, 0, text, cur);
      cur := cur + 1;
    }
    HeldChar(a, 0, text, cur);
    IndexOfIsUnique(text, '#', cur);
    a[cur] := NUL;
    ghost var end := cur;
    while cur > 0 && IsBlank(a[cur - 1])
      invariant 0 <= cur <= end
      invariant forall k :: cur <= k < end ==> IsBlank(text[k])
      modifies {}
    {
      assert a[cur - 1] == text[cur - 1];
      cur := cur - 1;
    }
    DropTrailingPrefix(text[..end], cur);
    assert text[..end][..cur] == text[..cur];
    defined := cur > 0;
    if defined { a[cur] := NUL; }
  }

  /** Cuts the C string at its first '='. */
  method CutAtEqual(a: array<char>, ghost text: string) returns (found: bool, cut: nat)
    requires Holds(a, 0, text)
    modifies a
    ensures cut == IndexOf(text, '=') && found == (cut < |text|)
    ensures !found ==> Holds(a, 0, text)
    ensures found ==> Holds(a, 0, text[..cut]) && Holds(a, cut + 1, text[cut + 1..])
  {
    cut := 0;
    while a[cut] != NUL && a[cut] != '='
      invariant 0 <= cut <= |text|
      invariant forall k :: 0 <= k < cut ==> text[k] != '='
      decreases |text| - cut
      modifies {}
    {
      HeldChar(a, 0, text, cut);
      cut := cut + 1;
    }
    HeldChar(a, 0, text, cut);
    IndexOfIsUnique(text, '=', cut);
    found := a[cut] == '=';
    if found { a[cut] := NUL; }
  }

  /** `ConfKeyValue`: the key and the value on either side of the first '='. */
  method KeyValue(a: array<char>, ghost text: string) returns (found: bool, value: nat)
    requires Holds(a, 0, text) && (text == "" || (!IsBlank(text[0]) && text[0] != '#'))
    modifies a
    ensures found <==> IndexOf(text, '=') < |text|
    ensures found ==> var i := IndexOf(text, '=');
                      Holds(a, 0, Content(text[..i])) && Holds(a, value, DropBlanks(text[i + 1..]))
  {
    var cut;
    found, cut := CutAtEqual(a, text);
    value := cut + 1;
    if found {
      ghost var key := text[..cut];
      ContentOfKey(key);
      var _ := TrimRight(a, key);
      assert Holds(a, 0, Content(key)) && Holds(a, value, text[value..]);
      TrimLeft(a, value, text[value..]);
    }
  }

  /** A key that starts with something visible keeps it. */
  lemma ContentOfKey(key: string)
    requires key == "" || (!IsBlank(key[0]) && key[0] != '#')
    ensures (key == "" || Content(key) != "") && |Content(key)| <= |key|
  {
    var cut := key[..IndexOf(key, '#')];
    DropTrailingShrinks(cut);
    if key != "" {
      assert cut[0] == key[0];
      KeepsFirst(cut);
    }
  }

  lemma {:induction false} DropTrailingShrinks(s: string)
    ensures |DropTrailing(s)| <= |s|
  {
    if s != "" && IsBlank(s[|s| - 1]) { DropTrailingShrinks(s[..|s| - 1]); }
  }

  lemma {:induction false} KeepsFirst(s: string)
    requires s != "" && !IsBlank(s[0])
    ensures DropTrailing(s) != "" && DropTrailing(s)[0] == s[0]
  {
    if IsBlank(s[|s| - 1]) { KeepsFirst(s[..|s| - 1]); }
  }

  /** The C string at `p`. */
  method ReadText(a: array<char>, p: nat, ghost text: string) returns (s: string)
    requires Holds(a, p, text)
    ensures s == text
  {
    s := "";
    while a[p + |s|] != NUL
      invariant |s| <= |text| && s == text[..|s|]
      decreases |text| - |s|
    {
      HeldChar(a, p, text, |s|);
      s := s + [a[p + |s|]];
    }
    HeldChar(a, p, text, |s|);
  }
}
