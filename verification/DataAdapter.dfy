/** `CDataAdapter`: every operation hashes one string with a shared MD5 hasher and goes to the server
    chosen by the digest. */
module DataAdapter {
  import opened Bytes
  import opened Options
  import opened Redis
  import opened RedisEffects
  import opened Sharding
  import Md5
  import Md5Block
  import Md5Test

  /** The bytes of a string. */
  function Octets(s: string): seq<byte> {
    seq(|s|, i requires 0 <= i < |s| => s[i] as int % 256)
  }

  /** The hashed bytes: the length is passed as a 32-bit number. */
  function Hashed(s: string): (data: seq<byte>)
    ensures |data| < WORD
  {
    Octets(s)[..|s| % WORD]
  }

  /** The first eight bytes of the digest, as an unsigned number.  MD5 is `f == Md5Block.Transform`. */
  function PostKey(f: Md5.BlockFunction): Hash {
    s => Value(Md5.Digest(f, Hashed(s))[..8])
  }

  class Adapter {
    /** MD5's block function, which only the proofs look at. */
    ghost const f: Md5.BlockFunction
    const hasher: Md5.Hasher
    var shards: seq<Store>

    ghost predicate Valid()
      reads this
    {
      hasher.Ready() && hasher.f == f && shards != []
    }

    /** One server for each entry of the server list; the list must not be empty. */
    constructor (servers: seq<Store>)
      requires servers != []
      ensures Valid() && f == Md5Block.Transform && shards == servers && fresh(hasher) && fresh(hasher.input)
    {
      f := Md5Block.Transform;
      hasher := new Md5.Hasher();
      shards := servers;
    }

    /** The server of a string depends on the string alone, whatever the hasher was used for before. */
    method ShardOf(s: string) returns (idx: nat)
      requires Valid()
      modifies hasher, hasher.input
      ensures idx == Index(PostKey(f), |shards|, s)
    {
      hasher.Init();
      hasher.Update(Hashed(s));
      assert hasher.Message() == Hashed(s);
      var digest := hasher.Final();
      assert digest == Md5.Digest(f, Hashed(s));
      idx := Value(digest[..8]) % |shards|;
    }

    /** Runs one command on the server chosen by `routed`. */
    method Run(q: Request, routed: string) returns (reply: Reply)
      requires Valid() && routed == RoutedBy(q)
      modifies this`shards, hasher, hasher.input
      ensures Valid() && shards == Sharded(PostKey(f), old(shards), q).0
              && reply == Sharded(PostKey(f), old(shards), q).1
    {
      var idx := ShardOf(routed);
      var (s, r) := Flat(shards[idx], q);
      shards := shards[idx := s];
      reply := r;
    }

    method UserGet(uid: string) returns (ok: bool, rule: string)
      requires Valid()
      modifies this`shards, hasher, hasher.input
      ensures Valid() && shards == old(shards)
      ensures var e := At(PostKey(f), shards, uid);
              if e.Some? && e.value.Str? && e.value.text != "" then ok && rule == e.value.text else !ok
    {
      var r := Run(On(uid, Get), uid);
      ok, rule := r.ok, r.text;
      ReadingChangesNothing(PostKey(f), old(shards), uid, Get);
    }

    method UserPut(uid: string, rule: string) returns (ok: bool)
      requires Valid()
      modifies this`shards, hasher, hasher.input
      ensures Valid() && shards == Sharded(PostKey(f), old(shards), On(uid, Set(rule, -1))).0 && ok
      ensures At(PostKey(f), shards, uid) == Some(Str(rule, 0))
      ensures OnlyAt(old(shards), shards, Index(PostKey(f), |shards|, uid), {uid})
    {
      OnIsLocal(PostKey(f), shards, uid, Set(rule, -1));
      var r := Run(On(uid, Set(rule, -1)), uid);
      ok := r.ok;
    }

    method UserPutExpire(uid: string, rule: string, expiration: int) returns (ok: bool)
      requires Valid()
      modifies this`shards, hasher, hasher.input
      ensures Valid() && shards == Sharded(PostKey(f), old(shards), On(uid, Set(rule, expiration))).0 && ok
      ensures At(PostKey(f), shards, uid) == Some(Str(rule, if expiration > 0 then expiration else 0))
      ensures OnlyAt(old(shards), shards, Index(PostKey(f), |shards|, uid), {uid})
    {
      OnIsLocal(PostKey(f), shards, uid, Set(rule, expiration));
      var r := Run(On(uid, Set(rule, expiration)), uid);
      ok := r.ok;
    }

    method UserIncr(uid: string, expire: int) returns (ok: bool)
      requires Valid()
      modifies this`shards, hasher, hasher.input
      ensures Valid() && shards == Sharded(PostKey(f), old(shards), On(uid, Incr(expire))).0
      ensures expire > 0 ==> !ok && At(PostKey(f), shards, uid) == At(PostKey(f), old(shards), uid)
      ensures expire <= 0 ==> CountedUp(At(PostKey(f), old(shards), uid), At(PostKey(f), shards, uid), ok, 1)
      ensures expire <= 0 && At(PostKey(f), old(shards), uid).None? ==>
              At(PostKey(f), shards, uid) == Some(Str("1", 0))
      ensures OnlyAt(old(shards), shards, Index(PostKey(f), |shards|, uid), {uid})
    {
      OnIsLocal(PostKey(f), shards, uid, Incr(expire));
      AddCountsUp(At(PostKey(f), shards, uid), 1);
      PrintOne();
      var r := Run(On(uid, Incr(expire)), uid);
      ok := r.ok;
    }

    method UserIncrBy(uid: string, increment: int) returns (ok: bool)
      requires Valid()
      modifies this`shards, hasher, hasher.input
      ensures Valid() && shards == Sharded(PostKey(f), old(shards), On(uid, IncrBy(increment))).0
      ensures CountedUp(At(PostKey(f), old(shards), uid), At(PostKey(f), shards, uid), ok,
                        if increment > 0 then increment else 1)
      ensures OnlyAt(old(shards), shards, Index(PostKey(f), |shards|, uid), {uid})
    {
      ghost var amount := if increment > 0 then increment else 1;
      OnIsLocal(PostKey(f), shards, uid, IncrBy(increment));
      AddCountsUp(At(PostKey(f), shards, uid), amount);
      var r := Run(On(uid, IncrBy(increment)), uid);
      ok := r.ok;
    }

    method UserSadd(uid: string, rule: string) returns (ok: bool)
      requires Valid()
      modifies this`shards, hasher, hasher.input
      ensures Valid() && shards == Sharded(PostKey(f), old(shards), On(uid, Sadd(rule))).0
      ensures var e, e' := At(PostKey(f), old(shards), uid), At(PostKey(f), shards, uid);
              if e.None? then ok && e' == Some(Members({rule}))
              else if e.value.Members? then ok && e' == Some(Members(e.value.members + {rule}))
              else !ok && e' == e
      ensures OnlyAt(old(shards), shards, Index(PostKey(f), |shards|, uid), {uid})
    {
      OnIsLocal(PostKey(f), shards, uid, Sadd(rule));
      var r := Run(On(uid, Sadd(rule)), uid);
      ok := r.ok;
    }

    method UserSmembers(uid: string) returns (ok: bool, members: set<string>)
      requires Valid()
      modifies this`shards, hasher, hasher.input
      ensures Valid() && shards == old(shards)
      ensures var e := At(PostKey(f), shards, uid);
              && members == (if e.Some? && e.value.Members? then e.value.members else {})
              && ok == (e.None? || e.value.Members?)
    {
      var r := Run(On(uid, Smembers), uid);
      ok, members := r.ok, r.members;
      ReadingChangesNothing(PostKey(f), old(shards), uid, Smembers);
      SmembersReply(shards[Index(PostKey(f), |shards|, uid)], uid);
    }

    /** Never deletes: the command it sends is refused. */
    method UserDel(uid: string) returns (ok: bool)
      requires Valid()
      modifies this`shards, hasher, hasher.input
      ensures Valid() && shards == old(shards) && !ok
    {
      var r := Run(On(uid, Del), uid);
      ok := r.ok;
      ReadingChangesNothing(PostKey(f), old(shards), uid, Del);
      RefusedDelete(At(PostKey(f), shards, uid));
    }

    method UserSmove(uid: string, dstuid: string, rule: string) returns (ok: bool)
      requires Valid()
      modifies this`shards, hasher, hasher.input
      ensures Valid() && shards == Sharded(PostKey(f), old(shards), Move(uid, dstuid, rule)).0
      ensures var i := Index(PostKey(f), |shards|, uid);
              && OnlyAt(old(shards), shards, i, {uid, dstuid})
              && var src, dst := Lookup(old(shards)[i], uid), Lookup(old(shards)[i], dstuid);
                 var src', dst' := Lookup(shards[i], uid), Lookup(shards[i], dstuid);
                 if src.None? then ok && src' == src && dst' == dst
                 else if !src.value.Members? || (dst.Some? && !dst.value.Members?) then
                   !ok && src' == src && dst' == dst
                 else if uid == dstuid || rule !in src.value.members then ok && src' == src && dst' == dst
                 else ok && dst' == Some(Members((if dst.None? then {} else dst.value.members) + {rule}))
                      && src' == if src.value.members == {rule} then None else Some(Members(src.value.members - {rule}))
    {
      MoveIsLocal(PostKey(f), shards, uid, dstuid, rule);
      MoveMoves(shards[Index(PostKey(f), |shards|, uid)], uid, dstuid, rule);
      var r := Run(Move(uid, dstuid, rule), uid);
      ok := r.ok;
    }

    /** Chooses the server by the score. */
    method UserPutOrderSet(key: string, score: string, member: string) returns (ok: bool)
      requires Valid()
      modifies this`shards, hasher, hasher.input
      ensures Valid() && shards == Sharded(PostKey(f), old(shards), PutOrder(key, score, member)).0
      ensures var i := Index(PostKey(f), |shards|, score);
              && OnlyAt(old(shards), shards, i, {key})
              && var e, e' := Lookup(old(shards)[i], key), Lookup(shards[i], key);
                 if !IsNumber(score) || (e.Some? && !e.value.Ranked?) then !ok && e' == e
                 else
                   && ok && e'.Some? && e'.value.Ranked?
                   && var z := if e.None? then [] else e.value.ranks;
                      && Placed(z, e'.value.ranks, Number(score), member)
                      && (InOrder(z) ==> InOrder(e'.value.ranks))
    {
      PutOrderIsLocal(PostKey(f), shards, key, score, member);
      InsertionPlaces(Lookup(shards[Index(PostKey(f), |shards|, score)], key), score, member);
      var r := Run(PutOrder(key, score, member), score);
      ok := r.ok;
    }

    /** The front member; with no set there is none, and the caller keeps, and is told it has, whatever
        text it came with. */
    method UserGetSortedSet(uid: string, before: string) returns (ok: bool, rule: string)
      requires Valid()
      modifies this`shards, hasher, hasher.input
      ensures Valid() && shards == old(shards)
      ensures var e := At(PostKey(f), shards, uid);
              if e.Some? && !e.value.Ranked? then !ok && rule == before
              else ok == (rule != "")
                   && rule == if e.None? || e.value.ranks == [] then before else e.value.ranks[0].member
    {
      var r := Run(On(uid, ZFront(before)), uid);
      ok, rule := r.ok, r.text;
      ReadingChangesNothing(PostKey(f), old(shards), uid, ZFront(before));
      FrontReply(At(PostKey(f), shards, uid), before);
    }

    method UserRemoveSortedSet(uid: string) returns (ok: bool)
      requires Valid()
      modifies this`shards, hasher, hasher.input
      ensures Valid() && shards == Sharded(PostKey(f), old(shards), On(uid, ZPop)).0
      ensures var e, e' := At(PostKey(f), old(shards), uid), At(PostKey(f), shards, uid);
              if e.None? then ok && e' == None
              else if e.value.Ranked? then
                ok && e' == if |e.value.ranks| <= 1 then None else Some(Ranked(e.value.ranks[1..]))
              else !ok && e' == e
      ensures OnlyAt(old(shards), shards, Index(PostKey(f), |shards|, uid), {uid})
    {
      OnIsLocal(PostKey(f), shards, uid, ZPop);
      var r := Run(On(uid, ZPop), uid);
      ok := r.ok;
    }

    /** Runs requests one after the other. */
    method RunAll(qs: seq<Request>) returns (replies: seq<Reply>)
      requires Valid()
      modifies this`shards, hasher, hasher.input
      ensures Valid() && replies == RunSharded(PostKey(f), old(shards), qs)
      ensures shards == AfterSharded(PostKey(f), old(shards), qs)
      decreases |qs|
    {
      if qs == [] { return []; }
      var r := Run(qs[0], RoutedBy(qs[0]));
      var rest := RunAll(qs[1..]);
      replies := [r] + rest;
    }

    /** Any sequence of well-routed requests through the adapter gets the answers of one flat store, and
        leaves the servers in agreement with it. */
    method Serve(qs: seq<Request>, ghost flat: Store) returns (replies: seq<Reply>)
      requires Valid() && Agree(PostKey(f), shards, flat)
      requires forall k :: 0 <= k < |qs| ==> WellRouted(PostKey(f), |shards|, qs[k])
      modifies this`shards, hasher, hasher.input
      ensures Valid() && replies == RunFlat(flat, qs) && Agree(PostKey(f), shards, AfterFlat(flat, qs))
    {
      ShardedRefinesFlat(PostKey(f), shards, flat, qs);
      replies := RunAll(qs);
    }
  }

  /** The program's routing: by the MD5 digest of the string, for any number of servers. */
  method ServerOf(servers: seq<Store>, s: string) returns (idx: nat)
    requires servers != []
    ensures idx == Value(Md5.Digest(Md5Block.Transform, Hashed(s))[..8]) % |servers|
  {
    var adapter := new Adapter(servers);
    idx := adapter.ShardOf(s);
  }

  lemma HashedAbc()
    ensures Hashed("abc") == [0x61, 0x62, 0x63]
  {
    assert "abc"[0] as int == 0x61 && "abc"[1] as int == 0x62 && "abc"[2] as int == 0x63;
  }

  const DIGEST_OF_ABC: seq<byte> := [
    0x90, 0x01, 0x50, 0x98, 0x3c, 0xd2, 0x4f, 0xb0, 0xd6, 0x96, 0x3f, 0x7d, 0x28, 0xe1, 0x7f, 0x72
  ]

  lemma ValueOfAbc()
    ensures Value(DIGEST_OF_ABC[..8]) == 0xb04fd23c98500190
  {
    ValueOfEight(DIGEST_OF_ABC[..8]);
  }

  lemma DigestOfAbc()
    ensures Md5.Digest(Md5Block.Transform, Hashed("abc")) == DIGEST_OF_ABC
  {
    HashedAbc();
    Md5Test.DigestOfAbc();
  }

  lemma KeyOf(f: Md5.BlockFunction, s: string, d: seq<byte>)
    requires Md5.Digest(f, Hashed(s)) == d
    ensures PostKey(f)(s) == Value(d[..8])
  {
  }

  /** The key "abc" is hashed to the first eight bytes of its published digest, lowest byte first. */
  lemma KeyOfAbc()
    ensures PostKey(Md5Block.Transform)("abc") == 0xb04fd23c98500190
  {
    DigestOfAbc();
    KeyOf(Md5Block.Transform, "abc", DIGEST_OF_ABC);
    ValueOfAbc();
  }
}
