/** A server's sorted sets are always in order, so an insertion changes nothing exactly when the set has
    that member at that score. */
module RankedSets {
  import opened Options
  import opened Redis
  import opened Sharding

  // ---------------------------------------------------------------------------------------------
  // The order of ranks

  lemma {:induction false} BeforeIsStrict(a: string, b: string)
    ensures !(Before(a, b) && Before(b, a)) && !Before(a, a)
    ensures a != b ==> Before(a, b) || Before(b, a)
  {
    if a != [] {
      if b != [] {
        BeforeIsStrict(a[1..], b[1..]);
        if a[0] == b[0] && a[1..] == b[1..] { assert a == [a[0]] + a[1..] && b == [b[0]] + b[1..]; }
      } else {
        BeforeIsStrict(a[1..], []);
      }
    }
  }

  lemma {:induction false} BeforeIsTransitive(a: string, b: string, c: string)
    requires Before(a, b) && Before(b, c)
    ensures Before(a, c)
  {
    if a != [] && a[0] == b[0] && b[0] == c[0] { BeforeIsTransitive(a[1..], b[1..], c[1..]); }
  }

  lemma LowerIsStrict(a: Rank, b: Rank)
    ensures !(Lower(a, b) && Lower(b, a)) && (a.member != b.member ==> Lower(a, b) || Lower(b, a))
  {
    BeforeIsStrict(a.member, b.member);
  }

  lemma LowerIsTransitive(a: Rank, b: Rank, c: Rank)
    requires Lower(a, b) && Lower(b, c)
    ensures Lower(a, c)
  {
    if a.score == b.score == c.score { BeforeIsTransitive(a.member, b.member, c.member); }
  }

  // ---------------------------------------------------------------------------------------------
  // Ordered sets

  /** By rank, each member once. */
  predicate Ordered(z: seq<Rank>) {
    forall i, j :: 0 <= i < j < |z| ==> Lower(z[i], z[j]) && z[i].member != z[j].member
  }

  /** In an ordered set a member stands at a score exactly when the set has it there. */
  lemma {:induction false} StandsInOrdered(z: seq<Rank>, r: Rank)
    requires Ordered(z)
    ensures Stands(z, r) <==> r in z
  {
    if z != [] {
      var rest := z[1..];
      assert forall k :: 0 <= k < |rest| ==> rest[k] == z[k + 1];
      StandsInOrdered(rest, r);
      if z[0].member != r.member && r in rest {
        var k :| 0 <= k < |rest| && rest[k] == r;
        assert Lower(z[0], z[k + 1]);
        LowerIsStrict(z[0], r);
      }
    }
  }

  lemma {:induction false} WithoutKeepsOrder(z: seq<Rank>, member: string)
    requires Ordered(z)
    ensures Ordered(Without(z, member))
    ensures forall k :: 0 <= k < |Without(z, member)| ==>
            Without(z, member)[k] in z && Without(z, member)[k].member != member
  {
    if z != [] {
      WithoutKeepsOrder(z[1..], member);
      PrependKeepsOrder(z[0], Without(z[1..], member), z);
    }
  }

  lemma PrependKeepsOrder(first: Rank, w: seq<Rank>, z: seq<Rank>)
    requires Ordered(z) && z != [] && first == z[0] && Ordered(w) && forall k :: 0 <= k < |w| ==> w[k] in z[1..]
    ensures Ordered([first] + w)
  {
    forall k | 0 <= k < |w| ensures Lower(first, w[k]) && first.member != w[k].member {
      var j :| 0 <= j < |z[1..]| && z[1..][j] == w[k];
      assert z[j + 1] == w[k];
    }
  }

  lemma {:induction false} InsertKeepsOrder(z: seq<Rank>, r: Rank)
    requires Ordered(z) && forall k :: 0 <= k < |z| ==> z[k].member != r.member
    ensures Ordered(Insert(z, r))
    ensures forall x :: x in Insert(z, r) ==> x == r || x in z
  {
    if z != [] {
      LowerIsStrict(r, z[0]);
      if Lower(r, z[0]) {
        forall k | 0 <= k < |z| ensures Lower(r, z[k]) { if k > 0 { LowerIsTransitive(r, z[0], z[k]); } }
      } else {
        InsertKeepsOrder(z[1..], r);
        var w := Insert(z[1..], r);
        forall k | 0 <= k < |w| ensures Lower(z[0], w[k]) && z[0].member != w[k].member {
          if w[k] != r {
            assert w[k] in w && w[k] in z[1..];
            var j :| 0 <= j < |z[1..]| && z[1..][j] == w[k];
            assert z[j + 1] == w[k];
          }
        }
      }
    }
  }

  // ---------------------------------------------------------------------------------------------
  // Every store a run can reach

  predicate TidyEntry(e: Option<Entry>) { e.Some? && e.value.Ranked? ==> Ordered(e.value.ranks) }

  /** Every sorted set of the store is in order. */
  predicate Tidy(s: Store) { forall key :: key in s ==> TidyEntry(Some(s[key])) }

  lemma OnEntryKeepsTidy(c: Command, e: Option<Entry>)
    requires TidyEntry(e)
    ensures TidyEntry(OnEntry(c, e).0)
  {
    if c.ZAdd? && IsNumber(c.score) && e.Some? && e.value.Ranked? {
      WithoutKeepsOrder(e.value.ranks, c.member);
      InsertKeepsOrder(Without(e.value.ranks, c.member), Rank(Number(c.score), c.member));
    }
  }

  lemma FlatKeepsTidy(s: Store, q: Request)
    requires Tidy(s)
    ensures Tidy(Flat(s, q).0)
  {
    match q
    case On(key, c) => OnEntryKeepsTidy(c, Lookup(s, key));
    case Move(_, _, _) =>
    case PutOrder(key, score, m) => OnEntryKeepsTidy(ZAdd(score, m), Lookup(s, key));
  }

  lemma {:induction false} RunKeepsTidy(s: Store, qs: seq<Request>)
    requires Tidy(s)
    ensures Tidy(AfterFlat(s, qs))
    decreases |qs|
  {
    if qs != [] {
      FlatKeepsTidy(s, qs[0]);
      RunKeepsTidy(Flat(s, qs[0]).0, qs[1..]);
    }
  }

  /** On a store that any requests have made from nothing: a misrouted insertion of a number is right
      exactly when the key has that member at that score and the other server has a sorted set or
      nothing under it, or when both have something else. */
  lemma PutOrderAfterAnyRun(hash: Hash, shards: seq<Store>, qs: seq<Request>, key: string, score: string, m: string)
    requires var flat := AfterFlat(map[], qs); shards != [] && Agree(hash, shards, flat)
    requires Index(hash, |shards|, key) != Index(hash, |shards|, score) && IsNumber(score)
    ensures var flat := AfterFlat(map[], qs);
            var e, stray := Lookup(flat, key), Lookup(shards[Index(hash, |shards|, score)], key);
            IsRight(hash, shards, flat, PutOrder(key, score, m))
            <==> || (!IsRankedOrMissing(e) && !IsRankedOrMissing(stray))
                 || (IsRankedOrMissing(stray) && e.Some? && e.value.Ranked? && Rank(Number(score), m) in e.value.ranks)
  {
    var flat := AfterFlat(map[], qs);
    RunKeepsTidy(map[], qs);
    PutOrderIsRightIff(hash, shards, flat, key, score, m);
    var e := Lookup(flat, key);
    if e.Some? && e.value.Ranked? { StandsInOrdered(e.value.ranks, Rank(Number(score), m)); }
  }
}
