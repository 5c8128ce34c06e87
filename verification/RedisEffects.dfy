/** What the commands leave under their key, and where, spelled out on the entries themselves. */
module RedisEffects {
  import opened CText
  import opened Options
  import opened Redis
  import opened Sharding
  import opened RankedSets

  // ---------------------------------------------------------------------------------------------
  // Numbers

  lemma PrintIsNumber(n: int)
    ensures IsNumber(Print(n)) && Number(Print(n)) == n
  {
    DigitsOfDecimal(if n < 0 then -n else n);
    if n < 0 { assert Print(n)[1..] == Decimal(-n); }
  }

  /** Numbers are decimal: one more digit on the right is ten times the number and the digit. */
  lemma NumberIsDecimal(s: string, d: char)
    requires IsNumber(s) && IsDigit(d)
    ensures IsNumber(s + [d])
    ensures Number(s + [d]) == 10 * Number(s) + (if s[0] == '-' then -1 else 1) * (d as int - '0' as int)
  {
    var t := s + [d];
    if s[0] == '-' {
      assert t[1..] == s[1..] + [d];
      DigitsAppend(s[1..], [d], 0);
    } else {
      DigitsAppend(s, [d], 0);
    }
  }

  lemma NumberOfOneDigit(d: char)
    requires IsDigit(d)
    ensures IsNumber([d]) && Number([d]) == d as int - '0' as int
    ensures IsNumber(['-', d]) && Number(['-', d]) == '0' as int - d as int
  {
    assert ['-', d][1..] == [d] && [d][1..] == [];
    assert Digits([d], 0) == Digits([], d as int - '0' as int);
  }

  /** `atoi` reads the same number as the server. */
  lemma AtoiIsNumber(s: string)
    requires IsNumber(s) && -0x8000_0000 <= Number(s) < 0x8000_0000
    ensures Atoi(s) == Number(s)
  {
    assert SkipSpaces(s) == s;
    Int32Keeps(Number(s));
  }

  /** A number is counted up by `amount`, nothing counts as zero, and anything else is refused. */
  predicate CountedUp(before: Option<Entry>, after: Option<Entry>, ok: bool, amount: int) {
    if before.None? || (before.value.Str? && IsNumber(before.value.text)) then
      && ok && after.Some? && after.value.Str? && IsNumber(after.value.text)
      && Number(after.value.text) == (if before.None? then 0 else Number(before.value.text)) + amount
      && after.value.ttl == if before.None? then 0 else before.value.ttl
    else !ok && after == before
  }

  lemma AddCountsUp(e: Option<Entry>, amount: int)
    ensures CountedUp(e, Add(e, amount).0, Add(e, amount).1.ok, amount)
  {
    PrintIsNumber(amount);
    if e.Some? && e.value.Str? && IsNumber(e.value.text) { PrintIsNumber(Number(e.value.text) + amount); }
  }

  lemma PrintOne()
    ensures Print(1) == "1"
  {
  }

  // ---------------------------------------------------------------------------------------------
  // Sorted sets

  /** The order of strings: the first difference decides, and a prefix comes first. */
  lemma {:induction false} BeforeIff(a: string, b: string)
    ensures Before(a, b) <==>
            exists k :: 0 <= k < |b| && k <= |a| && a[..k] == b[..k] && (k == |a| || a[k] < b[k])
  {
    if a == [] {
      if b != [] { assert a[..0] == b[..0]; }
    } else if b != [] {
      var a', b' := a[1..], b[1..];
      BeforeIff(a', b');
      if a[0] < b[0] { assert a[..0] == b[..0]; }
      if k :| 0 <= k < |b'| && k <= |a'| && a'[..k] == b'[..k] && (k == |a'| || a'[k] < b'[k]) {
        if a[0] == b[0] {
          assert a[..k + 1] == [a[0]] + a'[..k] && b[..k + 1] == [b[0]] + b'[..k];
        }
      }
      if k :| 0 <= k < |b| && k <= |a| && a[..k] == b[..k] && (k == |a| || a[k] < b[k]) {
        if k > 0 {
          assert a[0] == a[..k][0] && b[0] == b[..k][0];
          assert a'[..k - 1] == a[..k][1..] && b'[..k - 1] == b[..k][1..];
        }
      }
    }
  }

  /** Every other member keeps its score and this one has the new score. */
  ghost predicate Placed(before: seq<Rank>, after: seq<Rank>, score: int, member: string) {
    forall r: Rank :: r in after <==> r == Rank(score, member) || (r in before && r.member != member)
  }

  lemma {:induction false} InWithout(z: seq<Rank>, member: string, r: Rank)
    ensures r in Without(z, member) <==> r in z && r.member != member
  {
    if z != [] {
      InWithout(z[1..], member, r);
      assert r in z <==> r == z[0] || r in z[1..];
    }
  }

  lemma {:induction false} InInsert(z: seq<Rank>, s: Rank, r: Rank)
    ensures r in Insert(z, s) <==> r == s || r in z
  {
    if z != [] {
      InInsert(z[1..], s, r);
      assert r in z <==> r == z[0] || r in z[1..];
    }
  }

  /** In order: by score, equal scores by member, each member once. */
  predicate InOrder(z: seq<Rank>) {
    forall i, j :: 0 <= i < j < |z| ==>
      && (z[i].score < z[j].score || (z[i].score == z[j].score && Before(z[i].member, z[j].member)))
      && z[i].member != z[j].member
  }

  lemma InsertPlaces(z: seq<Rank>, score: int, member: string)
    ensures Placed(z, Insert(Without(z, member), Rank(score, member)), score, member)
    ensures InOrder(z) ==> InOrder(Insert(Without(z, member), Rank(score, member)))
  {
    var w := Without(z, member);
    forall r: Rank
      ensures r in Insert(w, Rank(score, member)) <==> r == Rank(score, member) || (r in z && r.member != member)
    {
      InWithout(z, member, r);
      InInsert(w, Rank(score, member), r);
    }
    if Ordered(z) {
      WithoutKeepsOrder(z, member);
      InsertKeepsOrder(w, Rank(score, member));
    }
  }

  // ---------------------------------------------------------------------------------------------
  // Where

  /** All entries are kept, but for those of `keys` on server `i`. */
  ghost predicate OnlyAt(before: seq<Store>, after: seq<Store>, i: nat, keys: set<string>) {
    && |after| == |before|
    && forall j, k :: 0 <= j < |before| && (j != i || k !in keys) ==> Lookup(after[j], k) == Lookup(before[j], k)
  }

  lemma OnIsLocal(hash: Hash, shards: seq<Store>, key: string, c: Command)
    requires shards != []
    ensures var (after, r) := Sharded(hash, shards, On(key, c));
            && OnlyAt(shards, after, Index(hash, |shards|, key), {key})
            && At(hash, after, key) == OnEntry(c, At(hash, shards, key)).0
            && r == OnEntry(c, At(hash, shards, key)).1
  {
  }

  lemma PutOrderIsLocal(hash: Hash, shards: seq<Store>, key: string, score: string, m: string)
    requires shards != []
    ensures var (after, r) := Sharded(hash, shards, PutOrder(key, score, m));
            var i := Index(hash, |shards|, score);
            && OnlyAt(shards, after, i, {key})
            && Lookup(after[i], key) == OnEntry(ZAdd(score, m), Lookup(shards[i], key)).0
            && r == OnEntry(ZAdd(score, m), Lookup(shards[i], key)).1
  {
  }

  lemma MoveIsLocal(hash: Hash, shards: seq<Store>, src: string, dst: string, m: string)
    requires shards != []
    ensures var (after, r) := Sharded(hash, shards, Move(src, dst, m));
            var i := Index(hash, |shards|, src);
            && OnlyAt(shards, after, i, {src, dst})
            && after[i] == SMove(shards[i], src, dst, m).0 && r == SMove(shards[i], src, dst, m).1
  {
  }

  /** A member leaves the first set for the second when both are sets and it is in the first. */
  lemma MoveMoves(s: Store, src: string, dst: string, m: string)
    ensures var (t, r) := SMove(s, src, dst, m);
            var a, b := Lookup(s, src), Lookup(s, dst);
            if a.None? then t == s && r.ok
            else if !a.value.Members? || (b.Some? && !b.value.Members?) then t == s && !r.ok
            else if src == dst || m !in a.value.members then t == s && r.ok
            else && r.ok && Lookup(t, dst) == Some(Members((if b.None? then {} else b.value.members) + {m}))
                 && Lookup(t, src) == if a.value.members == {m} then None else Some(Members(a.value.members - {m}))
  {
  }

  lemma InsertionPlaces(e: Option<Entry>, score: string, m: string)
    ensures var (e', r) := OnEntry(ZAdd(score, m), e);
            if !IsNumber(score) || (e.Some? && !e.value.Ranked?) then !r.ok && e' == e
            else
              && r.ok && e'.Some? && e'.value.Ranked?
              && var z := if e.None? then [] else e.value.ranks;
                 && Placed(z, e'.value.ranks, Number(score), m)
                 && (InOrder(z) ==> InOrder(e'.value.ranks))
  {
    if e.Some? && e.value.Ranked? && IsNumber(score) { InsertPlaces(e.value.ranks, Number(score), m); }
  }
}
