/** A store split over several servers, against one flat store.  Nothing here depends on how keys are
    hashed, only on the server being chosen by a function of one string. */
module Sharding {
  import opened Options
  import opened Redis

  type Hash = string -> nat

  /** A request of the program: a command on one key, a move between two sets, or an insertion into
      a sorted set. */
  datatype Request =
    | On(key: string, c: Command)
    | Move(src: string, dst: string, member: string)
    | PutOrder(key: string, score: string, member: string)

  function Flat(s: Store, q: Request): (Store, Reply) {
    match q
    case On(key, c) => Exec(s, key, c)
    case Move(src, dst, m) => SMove(s, src, dst, m)
    case PutOrder(key, score, m) => Exec(s, key, ZAdd(score, m))
  }

  function Index(hash: Hash, n: nat, s: string): nat
    requires n > 0
    ensures Index(hash, n, s) < n
  {
    hash(s) % n
  }

  /** The string that chooses the server: the key, the source key, and for an insertion the score. */
  function RoutedBy(q: Request): string {
    match q
    case On(key, _) => key
    case Move(src, _, _) => src
    case PutOrder(_, score, _) => score
  }

  function Sharded(hash: Hash, shards: seq<Store>, q: Request): (seq<Store>, Reply)
    requires shards != []
  {
    var i := Index(hash, |shards|, RoutedBy(q));
    var (s, r) := Flat(shards[i], q);
    (shards[i := s], r)
  }

  /** Reading changes nothing, and neither does a refused command. */
  lemma ReadingChangesNothing(hash: Hash, shards: seq<Store>, key: string, c: Command)
    requires shards != [] && (c.Get? || c.Smembers? || c.ZFront? || c.Del?)
    ensures Sharded(hash, shards, On(key, c)).0 == shards
    ensures Sharded(hash, shards, On(key, c)).1 == OnEntry(c, Lookup(shards[Index(hash, |shards|, key)], key)).1
  {
    var i := Index(hash, |shards|, key);
    assert OnEntry(c, Lookup(shards[i], key)).0 == Lookup(shards[i], key);
    assert Exec(shards[i], key, c).0 == shards[i];
  }

  lemma RefusedDelete(e: Option<Entry>)
    ensures !OnEntry(Del, e).1.ok
  {
  }

  lemma SmembersReply(s: Store, key: string)
    ensures OnEntry(Smembers, Lookup(s, key)).1.members == MembersOf(s, key)
    ensures OnEntry(Smembers, Lookup(s, key)).1.ok == IsSetOrMissing(Lookup(s, key))
  {
  }

  lemma FrontReply(e: Option<Entry>, before: string)
    ensures var r := OnEntry(ZFront(before), e).1;
            if e.Some? && !e.value.Ranked? then !r.ok && r.text == before
            else r.ok == (r.text != "")
                 && r.text == if e.None? || e.value.ranks == [] then before else e.value.ranks[0].member
  {
  }

  /** What the server of a key holds for it. */
  function At(hash: Hash, shards: seq<Store>, key: string): Option<Entry>
    requires shards != []
  {
    Lookup(shards[Index(hash, |shards|, key)], key)
  }

  /** Every key looks the same in its own server as in the flat store. */
  ghost predicate Agree(hash: Hash, shards: seq<Store>, flat: Store)
    requires shards != []
  {
    forall key {:trigger At(hash, shards, key)} :: At(hash, shards, key) == Lookup(flat, key)
  }

  /** The request goes to the server of every key it changes. */
  predicate WellRouted(hash: Hash, n: nat, q: Request)
    requires n > 0
  {
    match q
    case On(_, _) => true
    case Move(src, dst, _) => Index(hash, n, src) == Index(hash, n, dst)
    case PutOrder(key, score, _) => Index(hash, n, key) == Index(hash, n, score)
  }

  lemma MoveOnlyLooksAtItsKeys(s: Store, t: Store, src: string, dst: string, m: string, key: string)
    requires Lookup(s, src) == Lookup(t, src) && Lookup(s, dst) == Lookup(t, dst)
    ensures SMove(s, src, dst, m).1 == SMove(t, src, dst, m).1
    ensures Lookup(s, key) == Lookup(t, key) ==>
              Lookup(SMove(s, src, dst, m).0, key) == Lookup(SMove(t, src, dst, m).0, key)
    ensures key != src && key != dst ==> Lookup(SMove(s, src, dst, m).0, key) == Lookup(s, key)
  {
  }

  /** One well-routed request: same answer, and the stores still agree. */
  lemma StepRefines(hash: Hash, shards: seq<Store>, flat: Store, q: Request)
    requires shards != [] && Agree(hash, shards, flat) && WellRouted(hash, |shards|, q)
    ensures Sharded(hash, shards, q).1 == Flat(flat, q).1
    ensures Agree(hash, Sharded(hash, shards, q).0, Flat(flat, q).0)
  {
    var i := Index(hash, |shards|, RoutedBy(q));
    match q {
      case On(key, _) => assert At(hash, shards, key) == Lookup(flat, key);
      case Move(src, dst, m) =>
        assert At(hash, shards, src) == Lookup(flat, src) && At(hash, shards, dst) == Lookup(flat, dst);
        MoveOnlyLooksAtItsKeys(shards[i], flat, src, dst, m, src);
      case PutOrder(key, _, _) => assert At(hash, shards, key) == Lookup(flat, key);
    }
    forall key ensures At(hash, Sharded(hash, shards, q).0, key) == Lookup(Flat(flat, q).0, key) {
      assert At(hash, shards, key) == Lookup(flat, key);
      if q.Move? {
        MoveOnlyLooksAtItsKeys(shards[i], flat, q.src, q.dst, q.member, key);
        MoveOnlyLooksAtItsKeys(flat, flat, q.src, q.dst, q.member, key);
      }
    }
  }

  function RunFlat(s: Store, qs: seq<Request>): seq<Reply>
    decreases |qs|
  {
    if qs == [] then [] else var (s', r) := Flat(s, qs[0]); [r] + RunFlat(s', qs[1..])
  }

  function RunSharded(hash: Hash, shards: seq<Store>, qs: seq<Request>): seq<Reply>
    requires shards != []
    decreases |qs|
  {
    if qs == [] then [] else var (t, r) := Sharded(hash, shards, qs[0]); [r] + RunSharded(hash, t, qs[1..])
  }

  function AfterFlat(s: Store, qs: seq<Request>): Store
    decreases |qs|
  {
    if qs == [] then s else AfterFlat(Flat(s, qs[0]).0, qs[1..])
  }

  function AfterSharded(hash: Hash, shards: seq<Store>, qs: seq<Request>): (t: seq<Store>)
    requires shards != []
    ensures |t| == |shards|
    decreases |qs|
  {
    if qs == [] then shards else AfterSharded(hash, Sharded(hash, shards, qs[0]).0, qs[1..])
  }

  /** Any sequence of well-routed requests over any number of servers gets the answers of one map,
      and leaves its contents. */
  lemma {:induction false} ShardedRefinesFlat(hash: Hash, shards: seq<Store>, flat: Store, qs: seq<Request>)
    requires shards != [] && Agree(hash, shards, flat)
    requires forall k :: 0 <= k < |qs| ==> WellRouted(hash, |shards|, qs[k])
    ensures RunSharded(hash, shards, qs) == RunFlat(flat, qs)
    ensures Agree(hash, AfterSharded(hash, shards, qs), AfterFlat(flat, qs))
    decreases |qs|
  {
    if qs != [] {
      StepRefines(hash, shards, flat, qs[0]);
      ShardedRefinesFlat(hash, Sharded(hash, shards, qs[0]).0, Flat(flat, qs[0]).0, qs[1..]);
    }
  }

  /** With one server every request is well routed, so moves and insertions are right too. */
  lemma OneServerRefinesFlat(hash: Hash, s: Store, qs: seq<Request>)
    ensures RunSharded(hash, [s], qs) == RunFlat(s, qs)
  {
    assert forall q :: WellRouted(hash, 1, q);
    ShardedRefinesFlat(hash, [s], s, qs);
  }

  // ---------------------------------------------------------------------------------------------
  // Exactly when the two oddly routed requests are right

  /** The request gets the flat store's answer, and the stores still agree afterwards. */
  ghost predicate IsRight(hash: Hash, shards: seq<Store>, flat: Store, q: Request)
    requires shards != []
  {
    Sharded(hash, shards, q).1 == Flat(flat, q).1 && Agree(hash, Sharded(hash, shards, q).0, Flat(flat, q).0)
  }

  lemma {:induction false} WithoutShrinks(z: seq<Rank>, member: string)
    ensures |Without(z, member)| <= |z|
    ensures HasMember(z, member) ==> |Without(z, member)| < |z|
    ensures !HasMember(z, member) ==> Without(z, member) == z
  {
    if z != [] {
      WithoutShrinks(z[1..], member);
      assert HasMember(z, member) <==> z[0].member == member || HasMember(z[1..], member) by {
        assert forall k :: 0 < k < |z| ==> z[k] == z[1..][k - 1];
        assert forall k :: 0 <= k < |z[1..]| ==> z[1..][k] == z[k + 1];
      }
    }
  }

  lemma {:induction false} InsertGrows(z: seq<Rank>, r: Rank)
    ensures |Insert(z, r)| == |z| + 1
  {
    if z != [] { InsertGrows(z[1..], r); }
  }

  /** Inserting changes nothing exactly when the member stands at that score already. */
  lemma {:induction false} StandsIff(z: seq<Rank>, r: Rank)
    ensures Insert(Without(z, r.member), r) == z <==> Stands(z, r)
  {
    InsertGrows(Without(z, r.member), r);
    if z != [] {
      var rest := z[1..];
      WithoutShrinks(rest, r.member);
      StandsIff(rest, r);
      if z[0].member == r.member && !HasMember(rest, r.member) {
        assert Without(z, r.member) == rest;
        if rest != [] { assert rest[0].member != r.member; }
      }
    }
  }

  /** When an insertion that goes to the wrong server, which has `stray` under the key, still does what it
      should: the score is no number; or both entries are something else than a sorted set; or the
      member stands at that score already and the other server has a sorted set or nothing. */
  predicate HarmlessInsertion(e: Option<Entry>, stray: Option<Entry>, score: string, m: string) {
    || !IsNumber(score)
    || (!IsRankedOrMissing(e) && !IsRankedOrMissing(stray))
    || (IsRankedOrMissing(stray) && e.Some? && e.value.Ranked? && Stands(e.value.ranks, Rank(Number(score), m)))
  }

  /** An insertion is right exactly when the score happens to choose the server of the key, or when it is
      harmless. */
  lemma PutOrderIsRightIff(hash: Hash, shards: seq<Store>, flat: Store, key: string, score: string, m: string)
    requires shards != [] && Agree(hash, shards, flat)
    ensures IsRight(hash, shards, flat, PutOrder(key, score, m))
            <==> || Index(hash, |shards|, key) == Index(hash, |shards|, score)
                 || HarmlessInsertion(Lookup(flat, key), Lookup(shards[Index(hash, |shards|, score)], key), score, m)
  {
    var q := PutOrder(key, score, m);
    var i, own := Index(hash, |shards|, score), Index(hash, |shards|, key);
    if own == i {
      StepRefines(hash, shards, flat, q);
    } else {
      var e := Lookup(flat, key);
      if e.Some? && e.value.Ranked? && IsNumber(score) { StandsIff(e.value.ranks, Rank(Number(score), m)); }
      StrayWrite(hash, shards, flat, q, key);
    }
  }

  /** A write of one key on a wrong server leaves agreement exactly when it should change nothing. */
  lemma StrayWrite(hash: Hash, shards: seq<Store>, flat: Store, q: Request, key: string)
    requires shards != [] && Agree(hash, shards, flat) && q.PutOrder? && q.key == key
    requires Index(hash, |shards|, key) != Index(hash, |shards|, q.score)
    ensures Agree(hash, Sharded(hash, shards, q).0, Flat(flat, q).0)
            <==> OnEntry(ZAdd(q.score, q.member), Lookup(flat, key)).0 == Lookup(flat, key)
  {
    var own := Index(hash, |shards|, key);
    var t, after := Sharded(hash, shards, q).0, Flat(flat, q).0;
    assert t[own] == shards[own];
    assert At(hash, t, key) == At(hash, shards, key) == Lookup(flat, key);
    if Lookup(after, key) == Lookup(flat, key) {
      forall k ensures At(hash, t, k) == Lookup(after, k) { assert At(hash, shards, k) == Lookup(flat, k); }
    }
  }

  /** When a move that goes to the wrong server, which has `stray` under the second key, still does what it
      should: the first key is no set; or the second is refused in both places; or it is refused in
      neither, and the member is not in the first set or already in the second. */
  predicate HarmlessMove(flat: Store, stray: Option<Entry>, src: string, dst: string, m: string) {
    || src !in flat || !flat[src].Members?
    || (!IsSetOrMissing(Lookup(flat, dst)) && !IsSetOrMissing(stray))
    || (IsSetOrMissing(Lookup(flat, dst)) && IsSetOrMissing(stray)
        && (m !in MembersOf(flat, src) || m in MembersOf(flat, dst)))
  }

  /** A move is right exactly when both keys have the same server, or when it is harmless. */
  lemma MoveIsRightIff(hash: Hash, shards: seq<Store>, flat: Store, src: string, dst: string, m: string)
    requires shards != [] && Agree(hash, shards, flat)
    ensures IsRight(hash, shards, flat, Move(src, dst, m))
            <==> || Index(hash, |shards|, src) == Index(hash, |shards|, dst)
                 || HarmlessMove(flat, Lookup(shards[Index(hash, |shards|, src)], dst), src, dst, m)
  {
    var q := Move(src, dst, m);
    var i, own := Index(hash, |shards|, src), Index(hash, |shards|, dst);
    var t, after := Sharded(hash, shards, q).0, Flat(flat, q).0;
    if i == own {
      StepRefines(hash, shards, flat, q);
    } else {
      assert At(hash, shards, src) == Lookup(flat, src) && At(hash, shards, dst) == Lookup(flat, dst);
      assert t[own] == shards[own];
      StrayMove(shards[i], flat, src, dst, m);
      if HarmlessMove(flat, Lookup(shards[i], dst), src, dst, m) {
        forall k ensures At(hash, t, k) == Lookup(after, k) {
          assert At(hash, shards, k) == Lookup(flat, k);
          MoveOnlyLooksAtItsKeys(flat, flat, src, dst, m, k);
          MoveOnlyLooksAtItsKeys(shards[i], shards[i], src, dst, m, k);
        }
      } else if Sharded(hash, shards, q).1 == Flat(flat, q).1 {
        assert At(hash, t, src) != Lookup(after, src) || At(hash, t, dst) != Lookup(after, dst);
      }
    }
  }

  /** A move on a server that has the first set but not the right second one. */
  lemma StrayMove(shard: Store, flat: Store, src: string, dst: string, m: string)
    requires src != dst && Lookup(shard, src) == Lookup(flat, src)
    ensures var stray, wanted := SMove(shard, src, dst, m), SMove(flat, src, dst, m);
            (stray.1 == wanted.1 && Lookup(stray.0, src) == Lookup(wanted.0, src)
                && Lookup(flat, dst) == Lookup(wanted.0, dst))
            <==> HarmlessMove(flat, Lookup(shard, dst), src, dst, m)
  {
    var moved := MembersOf(flat, src) - {m};
    if m in MembersOf(flat, src) {
      assert SetOrNothing(moved) != Lookup(flat, src) by { assert m !in moved; }
      if IsSetOrMissing(Lookup(flat, dst)) {
        assert m in MembersOf(flat, dst) ==> MembersOf(flat, dst) + {m} == MembersOf(flat, dst);
        assert m !in MembersOf(flat, dst) ==> MembersOf(flat, dst) + {m} != MembersOf(flat, dst);
      }
    }
  }

  /** Whatever the hash, any two keys, or any key and score, that it sends to different servers make a move
      and an insertion go wrong. */
  lemma MisroutedRequests(hash: Hash, shards: seq<Store>, flat: Store, src: string, dst: string, key: string,
      score: string, m: string)
    requires shards != [] && Agree(hash, shards, flat)
    requires Index(hash, |shards|, src) != Index(hash, |shards|, dst) && m in MembersOf(flat, src) && dst !in flat
    requires Index(hash, |shards|, key) != Index(hash, |shards|, score) && key !in flat && IsNumber(score)
    ensures !IsRight(hash, shards, flat, Move(src, dst, m)) && !IsRight(hash, shards, flat, PutOrder(key, score, m))
  {
    MoveIsRightIff(hash, shards, flat, src, dst, m);
    PutOrderIsRightIff(hash, shards, flat, key, score, m);
  }

  /** Two servers, one of them empty, where that happens. */
  lemma MisroutedExample(hash: Hash, src: string, dst: string, score: string)
    requires Index(hash, 2, src) != Index(hash, 2, dst) && Index(hash, 2, dst) != Index(hash, 2, score)
             && IsNumber(score)
    ensures var flat: Store := map[src := Members({"m"})];
            var shards: seq<Store> := if Index(hash, 2, src) == 0 then [flat, map[]] else [map[], flat];
            && Agree(hash, shards, flat)
            && !IsRight(hash, shards, flat, Move(src, dst, "m"))
            && !IsRight(hash, shards, flat, PutOrder(dst, score, "m"))
  {
    var flat: Store := map[src := Members({"m"})];
    var shards: seq<Store> := if Index(hash, 2, src) == 0 then [flat, map[]] else [map[], flat];
    forall k ensures At(hash, shards, k) == Lookup(flat, k) { }
    MisroutedRequests(hash, shards, flat, src, dst, dst, score, "m");
  }
}
