/** What one pass does to one order, with every key spelled out. */
module SettlementOrder {
  import opened CText
  import opened Options
  import opened Redis
  import opened Settlement

  predicate NoHash(s: string) { '#' !in s }

  lemma {:induction false} NoHashHasNone(s: string)
    requires NoHash(s)
    ensures Hashes(s) == 0
  {
    if s != "" { NoHashHasNone(s[1..]); }
  }

  lemma {:induction false} HashesAreNone(s: string)
    requires Hashes(s) == 0
    ensures NoHash(s)
  {
    if s != "" { HashesAreNone(s[1..]); }
  }

  /** The order of a user: "user#repository#item#subscription". */
  function Order(user: string, repo: string, item: string, sub: string): string {
    user + "#" + (repo + "#" + (item + "#" + sub))
  }

  lemma CutFirst(key: string, part: string, rest: string, n: nat)
    requires NoHash(part) && n > 0
    ensures Cuts(key, part + "#" + rest, n) == [part] + Cuts(key, rest, n - 1)
  {
    var s := part + "#" + rest;
    IndexOfIsUnique(s, '#', |part|);
    assert s[..|part|] == part && s[|part| + 1..] == rest;
  }

  lemma CutLast(key: string, part: string)
    requires NoHash(part)
    ensures Cuts(key, part, 1) == [part]
  {
    IndexOfIsUnique(part, '#', |part|);
    assert part[..|part|] == part;
  }

  lemma HashesOfTwo(part: string, rest: string)
    requires NoHash(part)
    ensures Hashes(part + "#" + rest) == 1 + Hashes(rest)
  {
    NoHashHasNone(part);
    HashesAppend(part + "#", rest);
    HashesAppend(part, "#");
    assert Hashes("#") == 1;
  }

  lemma HashesOfOrder(user: string, repo: string, item: string, sub: string)
    requires NoHash(user) && NoHash(repo) && NoHash(item) && NoHash(sub)
    ensures FourPart(Order(user, repo, item, sub))
  {
    NoHashHasNone(sub);
    HashesOfTwo(item, sub);
    HashesOfTwo(repo, item + "#" + sub);
    HashesOfTwo(user, repo + "#" + (item + "#" + sub));
  }

  lemma CutsOfOrder(key: string, user: string, repo: string, item: string, sub: string)
    requires NoHash(user) && NoHash(repo) && NoHash(item) && NoHash(sub)
    ensures Cuts(key, Order(user, repo, item, sub), 4) == [user] + ([repo] + ([item] + [sub]))
  {
    CutLast(key, sub);
    CutFirst(key, item, sub, 2);
    CutFirst(key, repo, item + "#" + sub, 3);
    CutFirst(key, user, repo + "#" + (item + "#" + sub), 4);
  }

  lemma FourInARow(a: string, b: string, c: string, d: string)
    ensures [a] + ([b] + ([c] + [d])) == [a, b, c, d]
  {
  }

  lemma OrdersKeyOf(m: string, user: string)
    requires Split(m)[0] == user
    ensures OrdersKey(m) == user + "#orderid"
  {
    HashOrderid();
  }

  lemma HashOrderid()
    ensures "#" + "orderid" == "#orderid"
  {
  }

  /** An order has four parts, and they are what the program cuts it into. */
  lemma PartsOfOrder(user: string, repo: string, item: string, sub: string)
    requires NoHash(user) && NoHash(repo) && NoHash(item) && NoHash(sub)
    ensures var m := Order(user, repo, item, sub);
            FourPart(m) && Split(m) == [user, repo, item, sub] && OrdersKey(m) == user + "#orderid"
  {
    var m := Order(user, repo, item, sub);
    HashesOfOrder(user, repo, item, sub);
    CutsOfOrder(m, user, repo, item, sub);
    FourInARow(user, repo, item, sub);
    assert Split(m)[0] == user;
    OrdersKeyOf(m, user);
  }

  /** The first part of some parts, and what the next search starts from. */
  lemma JoinStarts(key: string, parts: seq<string>)
    requires parts != [] && NoHash(parts[0])
    ensures Part(Join(parts)) == parts[0]
    ensures Next(key, Join(parts)) == if |parts| == 1 then key else Join(parts[1..])
  {
    var s := Join(parts);
    if |parts| == 1 {
      IndexOfIsUnique(s, '#', |s|);
      assert s[..|s|] == s;
    } else {
      var rest := Join(parts[1..]);
      assert s == parts[0] + "#" + rest;
      IndexOfIsUnique(s, '#', |parts[0]|);
      assert s[..|parts[0]|] == parts[0] && s[|parts[0]| + 1..] == rest;
    }
  }

  /** After the last part comes the first one again. */
  function After(i: nat, n: nat): (j: nat)
    requires i < n
    ensures j < n
  {
    if i + 1 < n then i + 1 else 0
  }

  lemma OneCut(parts: seq<string>, i: nat, n: nat)
    requires (forall j :: 0 <= j < |parts| ==> NoHash(parts[j])) && i < |parts| && n > 0
    ensures Cuts(Join(parts), Join(parts[i..]), n) ==
            [parts[i]] + Cuts(Join(parts), Join(parts[After(i, |parts|)..]), n - 1)
  {
    JoinStarts(Join(parts), parts[i..]);
    assert parts[i..][0] == parts[i];
    if i + 1 < |parts| { assert parts[i..][1..] == parts[i + 1..]; } else { assert parts[0..] == parts; }
  }

  lemma TwoCuts(parts: seq<string>, i: nat, j: nat, n: nat)
    requires (forall j :: 0 <= j < |parts| ==> NoHash(parts[j])) && i < |parts| && j == After(i, |parts|)
    ensures Cuts(Join(parts), Join(parts[i..]), n + 2) ==
            [parts[i]] + ([parts[j]] + Cuts(Join(parts), Join(parts[After(j, |parts|)..]), n))
  {
    OneCut(parts, i, n + 2);
    OneCut(parts, j, n + 1);
  }

  /** A member of any number of parts: the searches go around, so too few parts are used again from the first one,
      and what is over is left out. */
  lemma PartsOfMember(parts: seq<string>)
    requires parts != [] && forall j :: 0 <= j < |parts| ==> NoHash(parts[j])
    ensures var i1 := After(0, |parts|);
            var i2 := After(i1, |parts|);
            Split(Join(parts)) == [parts[0]] + ([parts[i1]] + ([parts[i2]] + ([parts[After(i2, |parts|)]] + [])))
  {
    var i1 := After(0, |parts|);
    var i2 := After(i1, |parts|);
    TwoCuts(parts, 0, i1, 2);
    TwoCuts(parts, i2, After(i2, |parts|), 0);
    assert parts[0..] == parts;
  }

  predicate InSet(e: Option<Entry>, m: string) { e.Some? && e.value.Members? && m in e.value.members }

  /** One open order after a pass, whatever else the pass did: a finished one has status 1 and has changed sets,
      any other is where it was with the status it had. */
  lemma OrderAfterPass(s: Store, ms: seq<string>, user: string, repo: string, item: string, sub: string)
    requires Ready(s) && IsPass(s, ms)
    requires NoHash(user) && NoHash(repo) && NoHash(item) && NoHash(sub)
    requires InSet(Lookup(s, "need_updated_datahub_order"), Order(user, repo, item, sub))
    ensures var m, t := Order(user, repo, item, sub), SettleAll(s, ms);
            if IsFinished(Lookup(s, "order_status#" + m), Lookup(s, "order_count#" + m),
                          Lookup(s, "order_limit#" + m), Lookup(s, "order_expire#" + m)) then
              && Lookup(t, "order_status#" + m) == Some(Str("1", 0))
              && !InSet(Lookup(t, "need_updated_datahub_order"), m)
              && InSet(Lookup(t, "already_updated_datahub_order"), m)
            else
              && Lookup(t, "order_status#" + m) == Lookup(s, "order_status#" + m)
              && InSet(Lookup(t, "need_updated_datahub_order"), m)
              && (InSet(Lookup(t, "already_updated_datahub_order"), m) ==>
                    InSet(Lookup(s, "already_updated_datahub_order"), m))
  {
    var m, t := Order(user, repo, item, sub), SettleAll(s, ms);
    HashesOfOrder(user, repo, item, sub);
    DueIff(s, m);
    KeysOfOrder(m);
    PassConservesOrders(s, ms);
    if !Due(s, m) { StatusIsKept(s, ms, m); }
  }

  lemma StatusIsKept(s: Store, ms: seq<string>, m: string)
    requires Ready(s) && IsPass(s, ms) && FourPart(m) && !Due(s, m)
    ensures Lookup(SettleAll(s, ms), StatusKey(m)) == Lookup(s, StatusKey(m))
  {
    PassSettlesTheDue(s, ms);
    assert Lookup(SettleAll(s, ms), StatusKey(m)) == Expected(s, Settled(s), StatusKey(m));
    OrderKeysAreNotSets(m);
    forall d | d in Settled(s) ensures StatusKey(d) != StatusKey(m) && OrdersKey(d) != StatusKey(m) {
      KeysApart(d, d);
      KeysApart(m, d);
    }
    assert Having(OrdersKey, Settled(s), StatusKey(m)) == {};
  }

  lemma FirstPartIff(d: string, user: string)
    requires NoHash(user) && Hashes(d) > 0
    ensures Part(d) == user <==> user + "#" <= d
  {
    PartCounts(d);
    if Part(d) == user { assert d == user + "#" + d[IndexOf(d, '#') + 1..]; }
    if user + "#" <= d {
      assert d[|user|] == (user + "#")[|user|] && d[..|user|] == (user + "#")[..|user|] == user;
      IndexOfIsUnique(d, '#', |user|);
    }
  }

  lemma OfUser(s: Store, ms: seq<string>, user: string)
    requires Ready(s) && IsPass(s, ms) && NoHash(user)
    ensures Having(Part, Settled(s), user) == set d | d in ms && Finished(s, d) && user + "#" <= d
  {
    forall d | d in ms ensures (d in Settled(s) <==> Finished(s, d)) && (Part(d) == user <==> user + "#" <= d) {
      DueIff(s, d);
      FirstPartIff(d, user);
    }
  }

  /** The user's sorted set after a pass: one front entry less for each of the user's finished orders. */
  lemma UserAfterPass(s: Store, ms: seq<string>, user: string, repo: string, item: string, sub: string)
    requires Ready(s) && IsPass(s, ms) && Order(user, repo, item, sub) in ms
    requires NoHash(user) && NoHash(repo) && NoHash(item) && NoHash(sub)
    requires var e := Lookup(s, user + "#orderid"); e.Some? && e.value.Ranked? && e.value.ranks != []
    ensures var ranks := s[user + "#orderid"].ranks;
            var n := |set d | d in ms && Finished(s, d) && user + "#" <= d|;
            Lookup(SettleAll(s, ms), user + "#orderid") == if n < |ranks| then Some(Ranked(ranks[n..])) else None
  {
    var m := Order(user, repo, item, sub);
    PartsOfOrder(user, repo, item, sub);
    FirstOfSplit(m);
    OfUser(s, ms, user);
    PassPopsSortedSets(s, ms, m);
  }

  lemma FirstOfSplit(m: string)
    ensures Split(m)[0] == Part(m)
  {
  }
}
