/** `BdxGetUrlDomain`: the labels of a host, with the well-known suffixes moved to the end. */
module Domain {
  import opened CText

  /** Tells the well-known suffixes, `www` among them. */
  type Suffixes = string -> bool

  const WWW := "www"

  predicate Known(word: string) {
    word in {"asia", "biz", "cc", "cn", "co", "com", "edu", "gov", "hk", "info",
             "me", "mobi", "name", "net", "org", "so", "tel", "tv", "www"}
  }

  // ---------------------------------------------------------------------------------------------
  // Labels

  function Labels(host: string): (labels: seq<string>)
    ensures labels != []
  {
    var i := IndexOf(host, '.');
    if i == |host| then [host] else [host[..i]] + Labels(host[i + 1..])
  }

  function JoinDots(labels: seq<string>): string
    requires labels != []
  {
    if |labels| == 1 then labels[0] else labels[0] + ['.'] + JoinDots(labels[1..])
  }

  predicate DotFree(labels: seq<string>) { forall k :: 0 <= k < |labels| ==> '.' !in labels[k] }

  lemma {:induction false} LabelsOfJoin(labels: seq<string>)
    requires labels != [] && DotFree(labels)
    ensures Labels(JoinDots(labels)) == labels
  {
    if |labels| == 1 {
      IndexOfIsUnique(labels[0], '.', |labels[0]|);
    } else {
      var rest := JoinDots(labels[1..]);
      var s := labels[0] + ['.'] + rest;
      IndexOfIsUnique(s, '.', |labels[0]|);
      assert s[..|labels[0]|] == labels[0] && s[|labels[0]| + 1..] == rest;
      LabelsOfJoin(labels[1..]);
    }
  }

  lemma {:induction false} LabelsAreDotFree(host: string)
    ensures DotFree(Labels(host))
  {
    var i := IndexOf(host, '.');
    IndexOfIsFirst(host, '.');
    if i < |host| { LabelsAreDotFree(host[i + 1..]); }
  }

  lemma {:induction false} JoinOfLabels(host: string)
    ensures JoinDots(Labels(host)) == host
  {
    var i := IndexOf(host, '.');
    if i < |host| {
      JoinOfLabels(host[i + 1..]);
      assert Labels(host)[1..] == Labels(host[i + 1..]);
      assert host == host[..i] + ['.'] + host[i + 1..];
    }
  }

  // ---------------------------------------------------------------------------------------------
  // The partition

  function Filter(p: string -> bool, labels: seq<string>): seq<string> {
    if labels == [] then [] else (if p(labels[0]) then [labels[0]] else []) + Filter(p, labels[1..])
  }

  function Front(labels: seq<string>): seq<string>
    requires labels != []
  {
    labels[..|labels| - 1]
  }

  function Last(labels: seq<string>): string
    requires labels != []
  {
    labels[|labels| - 1]
  }

  function IsName(known: Suffixes): string -> bool { word => !known(word) }

  function IsKept(known: Suffixes): string -> bool { word => known(word) && word != WWW }

  /** The labels that are no suffix, in their order. */
  function Names(known: Suffixes, labels: seq<string>): seq<string>
    requires labels != []
  {
    Filter(IsName(known), Front(labels))
  }

  /** The suffixes but "www", in their order, and the last label unless it is empty. */
  function Tail(known: Suffixes, labels: seq<string>): seq<string>
    requires labels != []
  {
    Filter(IsKept(known), Front(labels)) + if Last(labels) == "" then [] else [Last(labels)]
  }

  /** A name that ends in a dot has an empty last label. */
  function OrEmpty(tail: seq<string>): seq<string> { if tail == [] then [""] else tail }

  function Arranged(known: Suffixes, labels: seq<string>): (r: seq<string>)
    requires labels != []
    ensures r != []
  {
    Names(known, labels) + OrEmpty(Tail(known, labels))
  }

  function Strip(prefix: string, s: string): string {
    if |prefix| <= |s| && s[..|prefix|] == prefix then s[|prefix|..] else s
  }

  const HTTP := "http://"
  const HTTPS := "https://"

  function HostOf(url: string): string {
    var s := Strip(HTTPS, Strip(HTTP, url));
    s[..IndexOf(s, '/')]
  }

  function DomainOf(known: Suffixes, url: string): string { JoinDots(Arranged(known, Labels(HostOf(url)))) }

  // ---------------------------------------------------------------------------------------------
  // Properties

  lemma {:induction false} FilterAppend(p: string -> bool, a: seq<string>, b: seq<string>)
    ensures Filter(p, a + b) == Filter(p, a) + Filter(p, b)
  {
    if a == [] {
      assert a + b == b;
    } else {
      assert (a + b)[1..] == a[1..] + b;
      FilterAppend(p, a[1..], b);
    }
  }

  lemma {:induction false} FilterHolds(p: string -> bool, labels: seq<string>)
    ensures forall k :: 0 <= k < |Filter(p, labels)| ==> p(Filter(p, labels)[k]) && Filter(p, labels)[k] in labels
  {
    if labels != [] { FilterHolds(p, labels[1..]); }
  }

  lemma {:induction false} FilterAll(p: string -> bool, labels: seq<string>)
    requires forall k :: 0 <= k < |labels| ==> p(labels[k])
    ensures Filter(p, labels) == labels
  {
    if labels != [] { FilterAll(p, labels[1..]); }
  }

  lemma {:induction false} FilterNone(p: string -> bool, labels: seq<string>)
    requires forall k :: 0 <= k < |labels| ==> !p(labels[k])
    ensures Filter(p, labels) == []
  {
    if labels != [] { FilterNone(p, labels[1..]); }
  }

  function Count(labels: seq<string>, word: string): nat {
    if labels == [] then 0 else (if labels[0] == word then 1 else 0) + Count(labels[1..], word)
  }

  /** No label but "www" is lost or repeated before the last one. */
  lemma {:induction false} PartitionKeepsLabels(known: Suffixes, labels: seq<string>, word: string)
    requires word != WWW
    ensures Count(Filter(IsName(known), labels), word) + Count(Filter(IsKept(known), labels), word) ==
            Count(labels, word)
  {
    if labels != [] {
      PartitionKeepsLabels(known, labels[1..], word);
      CountHead(IsName(known), labels, word);
      CountHead(IsKept(known), labels, word);
    }
  }

  lemma CountHead(p: string -> bool, labels: seq<string>, word: string)
    requires labels != []
    ensures Count(Filter(p, labels), word) ==
            (if p(labels[0]) && labels[0] == word then 1 else 0) + Count(Filter(p, labels[1..]), word)
  {
    if p(labels[0]) { assert Filter(p, labels)[1..] == Filter(p, labels[1..]); }
    else { assert Filter(p, labels) == Filter(p, labels[1..]); }
  }

  /** Labels that are arranged already are told apart again. */
  lemma Rearranged(known: Suffixes, names: seq<string>, kept: seq<string>, last: string)
    requires forall k :: 0 <= k < |names| ==> IsName(known)(names[k])
    requires forall k :: 0 <= k < |kept| ==> IsKept(known)(kept[k])
    ensures var labels := names + (kept + [last]);
            Names(known, labels) == names && Filter(IsKept(known), Front(labels)) == kept && Last(labels) == last
  {
    assert Front(names + (kept + [last])) == names + kept;
    FilterAppend(IsName(known), names, kept);
    FilterAppend(IsKept(known), names, kept);
    FilterAll(IsName(known), names);
    FilterNone(IsKept(known), names);
    FilterAll(IsKept(known), kept);
    FilterNone(IsName(known), kept);
    assert names + [] == names && [] + kept == kept;
  }

  lemma RearrangedTail(known: Suffixes, names: seq<string>, kept: seq<string>, last: string)
    requires forall k :: 0 <= k < |names| ==> IsName(known)(names[k])
    requires forall k :: 0 <= k < |kept| ==> IsKept(known)(kept[k])
    requires last == "" ==> kept == []
    ensures Arranged(known, names + (kept + [last])) == names + (kept + [last])
  {
    Rearranged(known, names, kept, last);
    if last == "" {
      assert kept + [] == [] && kept + [last] == [""];
    }
  }

  /** Arranging arranged labels changes nothing. */
  lemma ArrangedTwice(known: Suffixes, labels: seq<string>)
    requires labels != [] && !known("")
    ensures Arranged(known, Arranged(known, labels)) == Arranged(known, labels)
  {
    var names, kept, last := Names(known, labels), Filter(IsKept(known), Front(labels)), Last(labels);
    FilterHolds(IsName(known), Front(labels));
    FilterHolds(IsKept(known), Front(labels));
    if last != "" || kept == [] {
      RearrangedTail(known, names, kept, last);
      assert kept == [] ==> [] + [last] == [last];
    } else {
      assert Tail(known, labels) == kept && kept == Front(kept) + [Last(kept)];
      assert IsKept(known)(Last(kept));
      RearrangedTail(known, names, Front(kept), Last(kept));
    }
  }

  lemma {:induction false} NoSlash(labels: seq<string>)
    requires labels != []
    ensures '/' !in JoinDots(labels) <==> forall k :: 0 <= k < |labels| ==> '/' !in labels[k]
  {
    if |labels| > 1 {
      NoSlash(labels[1..]);
      assert forall k :: 0 <= k < |labels[1..]| ==> labels[1..][k] == labels[k + 1];
    }
  }

  lemma StripNothing(prefix: string, s: string)
    requires '/' in prefix && '/' !in s
    ensures Strip(prefix, s) == s
  {
  }

  lemma HostOfHost(s: string)
    requires '/' !in s
    ensures HostOf(s) == s
  {
    assert HTTP[5] == '/' && HTTPS[6] == '/';
    StripNothing(HTTP, s);
    StripNothing(HTTPS, s);
    IndexOfIsUnique(s, '/', |s|);
  }

  lemma HostHasNoSlash(url: string)
    ensures '/' !in HostOf(url)
  {
    IndexOfIsFirst(Strip(HTTPS, Strip(HTTP, url)), '/');
  }

  lemma ArrangedIsMadeOfLabels(known: Suffixes, labels: seq<string>, k: nat)
    requires labels != [] && k < |Arranged(known, labels)|
    ensures Arranged(known, labels)[k] in labels || Arranged(known, labels)[k] == ""
  {
    FilterHolds(IsName(known), Front(labels));
    FilterHolds(IsKept(known), Front(labels));
    assert forall x :: x in Front(labels) ==> x in labels;
    var n := |Names(known, labels)|;
    if k < n { assert Arranged(known, labels)[k] == Names(known, labels)[k]; }
    else { assert Arranged(known, labels)[k] == OrEmpty(Tail(known, labels))[k - n]; }
  }

  lemma ArrangedLabels(known: Suffixes, url: string)
    ensures var r := Arranged(known, Labels(HostOf(url)));
            DotFree(r) && forall k :: 0 <= k < |r| ==> '/' !in r[k]
  {
    var labels := Labels(HostOf(url));
    LabelsAreDotFree(HostOf(url));
    HostHasNoSlash(url);
    JoinOfLabels(HostOf(url));
    NoSlash(labels);
    forall k | 0 <= k < |Arranged(known, labels)|
      ensures '.' !in Arranged(known, labels)[k] && '/' !in Arranged(known, labels)[k]
    {
      ArrangedIsMadeOfLabels(known, labels, k);
    }
  }

  /** Taking the domain of a domain gives the same domain. */
  lemma DomainTwice(known: Suffixes, url: string)
    requires !known("")
    ensures DomainOf(known, DomainOf(known, url)) == DomainOf(known, url)
  {
    var labels := Labels(HostOf(url));
    var r := Arranged(known, labels);
    ArrangedLabels(known, url);
    NoSlash(r);
    HostOfHost(JoinDots(r));
    LabelsOfJoin(r);
    ArrangedTwice(known, labels);
  }

  /** The empty label is no suffix, so this holds of the program's own list. */
  lemma KnownDomainTwice(url: string)
    ensures DomainOf(Known, DomainOf(Known, url)) == DomainOf(Known, url)
  {
    DomainTwice(Known, url);
  }

  // ---------------------------------------------------------------------------------------------
  // From the text of a URL

  lemma StripScheme(scheme: string, rest: string)
    requires scheme == "" || scheme == "http://" || scheme == "https://"
    requires scheme != "" || (!("http://" <= rest) && !("https://" <= rest))
    requires scheme == "http://" ==> !("https://" <= rest)
    ensures Strip(HTTPS, Strip(HTTP, scheme + rest)) == rest
  {
    if scheme == "" {
      assert scheme + rest == rest;
    } else {
      assert (scheme + rest)[..|scheme|] == scheme && (scheme + rest)[|scheme|..] == rest;
      if scheme == "https://" {
        assert (scheme + rest)[4] == 's';
      }
    }
  }

  lemma NoScheme(host: string, path: string)
    requires '/' !in host && (path == "" || path[0] == '/')
    ensures host != "http:" ==> !("http://" <= host + path)
    ensures host != "https:" ==> !("https://" <= host + path)
  {
    var rest := host + path;
    IndexOfIsUnique(rest, '/', |host|);
    if "http://" <= rest {
      assert forall k :: 0 <= k < 7 ==> rest[k] == "http://"[k];
      IndexOfIsUnique(rest, '/', 5);
      assert host == rest[..5] == "http:";
    }
    if "https://" <= rest {
      assert forall k :: 0 <= k < 8 ==> rest[k] == "https://"[k];
      IndexOfIsUnique(rest, '/', 6);
      assert host == rest[..6] == "https:";
    }
  }

  /** The host is what stands between the scheme, if there is one, and the next '/'. */
  lemma HostOfUrl(scheme: string, host: string, path: string)
    requires scheme == "" || scheme == "http://" || scheme == "https://"
    requires '/' !in host && (path == "" || path[0] == '/')
    requires scheme == "" ==> host != "http:" && host != "https:"
    requires scheme == "http://" ==> host != "https:"
    ensures HostOf(scheme + (host + path)) == host
  {
    NoScheme(host, path);
    StripScheme(scheme, host + path);
    IndexOfIsUnique(host + path, '/', |host|);
  }

  /** The domain of a URL, from the labels of its host. */
  lemma DomainOfUrl(known: Suffixes, scheme: string, labels: seq<string>, path: string)
    requires scheme == "" || scheme == "http://" || scheme == "https://"
    requires labels != [] && DotFree(labels) && '/' !in JoinDots(labels) && (path == "" || path[0] == '/')
    requires scheme == "" ==> JoinDots(labels) != "http:" && JoinDots(labels) != "https:"
    requires scheme == "http://" ==> JoinDots(labels) != "https:"
    ensures DomainOf(known, scheme + (JoinDots(labels) + path)) == JoinDots(Arranged(known, labels))
  {
    HostOfUrl(scheme, JoinDots(labels), path);
    LabelsOfJoin(labels);
  }

  lemma ShopWords()
    ensures Known("www") && Known("com") && !Known("a") && !Known("shop")
  {
  }

  lemma ShopCut()
    requires Known("www") && Known("com") && !Known("a") && !Known("shop")
    ensures Cut(Known, ["www"] + (["a"] + (["com"] + (["shop"] + ["cn"]))), [], []) ==
            ([] + ["a"] + ["shop"], [] + ["com"] + ["cn"])
  {
    CutOne(Known, "www", ["a"] + (["com"] + (["shop"] + ["cn"])), [], []);
    CutOne(Known, "a", ["com"] + (["shop"] + ["cn"]), [], []);
    CutOne(Known, "com", ["shop"] + ["cn"], [] + ["a"], []);
    CutOne(Known, "shop", ["cn"], [] + ["a"], [] + ["com"]);
    assert ["cn"][1..] == [];
  }

  /** "www" goes, "com" moves behind the names, and the last label stays last. */
  lemma ShopLabels()
    ensures Arranged(Known, ["www", "a", "com", "shop", "cn"]) == ["a", "shop", "com", "cn"]
  {
    var labels := ["www", "a", "com", "shop", "cn"];
    ShopWords();
    ShopCut();
    assert labels == ["www"] + (["a"] + (["com"] + (["shop"] + ["cn"])));
    CutIsPartition(Known, labels, [], []);
    assert Names(Known, labels) == [] + ["a"] + ["shop"] && Tail(Known, labels) == [] + ["com"] + ["cn"];
  }

  lemma JoinFive(a: string, b: string, c: string, d: string, e: string)
    ensures JoinDots([a, b, c, d, e]) == a + "." + (b + "." + (c + "." + (d + "." + e)))
    ensures JoinDots([b, c, d, e]) == b + "." + (c + "." + (d + "." + e))
  {
    assert [a, b, c, d, e][1..] == [b, c, d, e] && [b, c, d, e][1..] == [c, d, e];
    assert [c, d, e][1..] == [d, e] && [d, e][1..] == [e];
    assert JoinDots([d, e]) == d + "." + e;
    assert JoinDots([c, d, e]) == c + "." + JoinDots([d, e]);
  }

  lemma ShopHost()
    ensures JoinDots(["www", "a", "com", "shop", "cn"]) == "www.a.com.shop.cn"
  {
    JoinFive("www", "a", "com", "shop", "cn");
  }

  lemma ShopHostHasNoSlash()
    ensures '/' !in "www.a.com.shop.cn" && DotFree(["www", "a", "com", "shop", "cn"])
  {
  }

  lemma ShopJoined()
    ensures JoinDots(["a", "shop", "com", "cn"]) == "a.shop.com.cn"
  {
    JoinFive("", "a", "shop", "com", "cn");
  }

  /** A whole URL. */
  lemma ShopDomain()
    ensures DomainOf(Known, "http://" + ("www.a.com.shop.cn" + "/x")) == "a.shop.com.cn"
  {
    ShopHost();
    ShopHostHasNoSlash();
    ShopLabels();
    ShopJoined();
    DomainOfUrl(Known, "http://", ["www", "a", "com", "shop", "cn"], "/x");
  }

  // ---------------------------------------------------------------------------------------------
  // The loops

  function Dotted(words: seq<string>): string {
    if words == [] then "" else words[0] + ['.'] + Dotted(words[1..])
  }

  lemma {:induction false} JoinDotted(names: seq<string>, rest: seq<string>)
    requires rest != []
    ensures JoinDots(names + rest) == Dotted(names) + JoinDots(rest)
  {
    if names == [] {
      assert names + rest == rest;
    } else {
      assert (names + rest)[1..] == names[1..] + rest;
      JoinDotted(names[1..], rest);
    }
  }

  lemma {:induction false} DottedAppend(words: seq<string>, word: string)
    ensures Dotted(words + [word]) == Dotted(words) + word + ['.']
  {
    if words == [] {
      assert (words + [word])[1..] == [];
    } else {
      assert (words + [word])[1..] == words[1..] + [word];
      DottedAppend(words[1..], word);
    }
  }

  /** What one more label in front adds. */
  lemma LabelInFront(known: Suffixes, word: string, labels: seq<string>)
    requires labels != []
    ensures Names(known, [word] + labels) == (if !known(word) then [word] else []) + Names(known, labels)
    ensures Tail(known, [word] + labels) == (if known(word) && word != WWW then [word] else []) + Tail(known, labels)
  {
    var all := Front([word] + labels);
    assert all[1..] == Front(labels) && all[0] == word;
  }

  lemma OnlyLabel(known: Suffixes, word: string)
    ensures Names(known, [word]) == [] && Tail(known, [word]) == if word == "" then [] else [word]
  {
  }

  /** The names and the tail found in some labels, added to those found so far. */
  function Cut(known: Suffixes, labels: seq<string>, names: seq<string>, tail: seq<string>): (seq<string>, seq<string>)
    requires labels != []
    decreases |labels|
  {
    var word, rest := labels[0], labels[1..];
    if rest == [] then (names, if word == "" then tail else tail + [word])
    else if !known(word) then Cut(known, rest, names + [word], tail)
    else if word != WWW then Cut(known, rest, names, tail + [word])
    else Cut(known, rest, names, tail)
  }

  lemma {:induction false} CutIsPartition(known: Suffixes, labels: seq<string>, names: seq<string>, tail: seq<string>)
    requires labels != []
    ensures Cut(known, labels, names, tail).0 == names + Names(known, labels)
    ensures Cut(known, labels, names, tail).1 == tail + Tail(known, labels)
    decreases |labels|
  {
    var word, rest := labels[0], labels[1..];
    if rest == [] {
      assert labels == [word];
      OnlyLabel(known, word);
    } else {
      assert labels == [word] + rest;
      LabelInFront(known, word, rest);
      if !known(word) {
        CutIsPartition(known, rest, names + [word], tail);
      } else if word != WWW {
        CutIsPartition(known, rest, names, tail + [word]);
      } else {
        CutIsPartition(known, rest, names, tail);
      }
    }
  }

  /** Where the label that starts at `b` ends. */
  function EndOf(s: string, n: nat, b: nat): (e: nat)
    requires b <= n <= |s|
    ensures b <= e <= n
  {
    b + IndexOf(s[b..n], '.')
  }

  lemma EndIsDot(s: string, n: nat, b: nat, i: nat)
    requires b <= i < n <= |s| && i <= EndOf(s, n, b)
    ensures s[i] == '.' <==> i == EndOf(s, n, b)
  {
    assert s[b..n][i - b] == s[i];
    IndexOfIsFirst(s[b..n], '.');
  }

  lemma NextLabel(s: string, n: nat, b: nat)
    requires b <= n <= |s|
    ensures var e := EndOf(s, n, b);
            Labels(s[b..n]) == if e < n then [s[b..e]] + Labels(s[e + 1..n]) else [s[b..n]]
  {
    var rest, e := s[b..n], EndOf(s, n, b);
    assert rest[..e - b] == s[b..e];
    if e < n { assert rest[e - b + 1..] == s[e + 1..n]; }
  }

  /** Puts one label where it belongs. */
  method Place(known: Suffixes, word: string, names: seq<string>, tail: seq<string>, ghost rest: seq<string>)
    returns (names': seq<string>, tail': seq<string>)
    requires rest != []
    ensures Cut(known, rest, names', tail') == Cut(known, [word] + rest, names, tail)
  {
    CutOne(known, word, rest, names, tail);
    names', tail' := names, tail;
    if !known(word) {
      names' := names + [word];
    } else if word != WWW {
      tail' := tail + [word];
    }
  }

  lemma CutOne(known: Suffixes, word: string, rest: seq<string>, names: seq<string>, tail: seq<string>)
    requires rest != []
    ensures Cut(known, [word] + rest, names, tail) ==
            if !known(word) then Cut(known, rest, names + [word], tail)
            else if word != WWW then Cut(known, rest, names, tail + [word])
            else Cut(known, rest, names, tail)
  {
  }

  /** Cuts the host at its dots, telling names and suffixes apart. */
  method CutHost(known: Suffixes, s: string, ghost n: nat) returns (names: seq<string>, tail: seq<string>)
    requires n <= |s| && (forall k :: 0 <= k < n ==> s[k] != '/') && (n == |s| || s[n] == '/')
    ensures (names, tail) == Cut(known, Labels(s[0..n]), [], [])
  {
    names, tail := [], [];
    var b, i := 0, 0;
    ghost var whole := Cut(known, Labels(s[0..n]), [], []);
    while i < |s| && s[i] != '/'
      invariant 0 <= b <= n && b <= i <= EndOf(s, n, b)
      invariant Cut(known, Labels(s[b..n]), names, tail) == whole
    {
      EndIsDot(s, n, b, i);
      if s[i] == '.' {
        NextLabel(s, n, b);
        names, tail := Place(known, s[b..i], names, tail, Labels(s[i + 1..n]));
        b := i + 1;
      }
      i := i + 1;
    }
    assert i == n;
    NextLabel(s, n, b);
    if i > b { tail := tail + [s[b..i]]; }
  }

  /** `BdxGetUrlDomain` appends the domain to what the caller already has. */
  method GetUrlDomain(known: Suffixes, url: string, acc: string) returns (domain: string)
    ensures domain == acc + DomainOf(known, url)
  {
    var s := Strip(HTTPS, Strip(HTTP, url));
    IndexOfIsFirst(s, '/');
    var names, tail := CutHost(known, s, IndexOf(s, '/'));
    assert s[0..IndexOf(s, '/')] == HostOf(url);
    ghost var labels := Labels(HostOf(url));
    CutIsPartition(known, labels, [], []);
    assert names == Names(known, labels) && tail == Tail(known, labels);
    domain := JoinParts(names, tail, acc);
  }

  method JoinParts(names: seq<string>, tail: seq<string>, acc: string) returns (domain: string)
    ensures domain == acc + JoinDots(names + OrEmpty(tail))
  {
    domain := acc;
    for i := 0 to |names|
      invariant domain == acc + Dotted(names[..i])
    {
      DottedAppend(names[..i], names[i]);
      assert names[..i + 1] == names[..i] + [names[i]];
      domain := domain + names[i] + ".";
    }
    assert names[..|names|] == names;
    JoinDotted(names, OrEmpty(tail));
    var joined := JoinTail(tail);
    domain := domain + joined;
  }

  method JoinTail(tail: seq<string>) returns (r: string)
    ensures r == JoinDots(OrEmpty(tail))
  {
    r := "";
    for i := 0 to |tail|
      invariant r == if i < |tail| || i == 0 then Dotted(tail[..i]) else JoinDots(tail)
    {
      assert tail[..i + 1] == tail[..i] + [tail[i]];
      DottedAppend(tail[..i], tail[i]);
      if i != |tail| - 1 {
        r := r + tail[i] + ".";
      } else {
        JoinDotted(tail[..i], [tail[i]]);
        assert tail[..i] + [tail[i]] == tail;
        r := r + tail[i];
      }
    }
  }
}
