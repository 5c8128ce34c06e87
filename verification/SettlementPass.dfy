/** The daily settlement pass as the program runs it, through the sharded adapter. */
module SettlementPass {
  import opened CText
  import opened Redis
  import opened Sharding
  import opened Settlement
  import opened DataAdapter

  lemma ReadAgrees(hash: Hash, shards: seq<Store>, flat: Store, key: string)
    requires shards != [] && Agree(hash, shards, flat)
    ensures At(hash, shards, key) == Lookup(flat, key)
    ensures MembersOf(shards[Index(hash, |shards|, key)], key) == MembersOf(flat, key)
  {
  }

  lemma ReadMeans(s: Store, key: string)
    ensures var e := Lookup(s, key); var r := Read(s, key);
            if e.Some? && e.value.Str? && e.value.text != "" then r.ok && r.text == e.value.text else !r.ok
  {
  }

  /** Both sets of orders are on one server, as they are when there is only one. */
  ghost predicate SameServer(hash: Hash, n: nat)
    requires n > 0
  {
    forall a, b :: IsSetName(a) && IsSetName(b) ==> Index(hash, n, a) == Index(hash, n, b)
  }

  lemma OneServerIsEnough(hash: Hash)
    ensures SameServer(hash, 1)
  {
  }

  /** The order in which a set is visited; the program's is that of the server's reply. */
  method Enumerate(members: set<string>) returns (order: seq<string>)
    ensures Distinct(order) && forall m :: m in order <==> m in members
  {
    order := [];
    var todo := members;
    while todo != {}
      invariant Distinct(order) && (forall m :: m in order ==> m !in todo)
      invariant forall m :: m in members <==> m in order || m in todo
      decreases todo
    {
      var m :| m in todo;
      todo := todo - {m};
      order := order + [m];
    }
  }

  class Settler {
    const redis: Adapter
    /** The servers taken together. */
    ghost var flat: Store

    ghost predicate Valid()
      reads this, redis
    {
      redis.Valid() && Agree(PostKey(redis.f), redis.shards, flat) && SameServer(PostKey(redis.f), |redis.shards|)
    }

    constructor (redis: Adapter, ghost flat: Store)
      requires redis.Valid() && Agree(PostKey(redis.f), redis.shards, flat)
               && SameServer(PostKey(redis.f), |redis.shards|)
      ensures Valid() && this.redis == redis && this.flat == flat
    {
      this.redis := redis;
      this.flat := flat;
    }

    method Fetch(key: string) returns (ok: bool, text: string)
      requires Valid()
      modifies redis`shards, redis.hasher, redis.hasher.input
      ensures Valid() && ok == Read(flat, key).ok && (ok ==> text == Read(flat, key).text)
    {
      ReadAgrees(PostKey(redis.f), redis.shards, flat, key);
      ReadMeans(flat, key);
      ok, text := redis.UserGet(key);
    }

    method Put(key: string, text: string)
      requires Valid()
      modifies this`flat, redis`shards, redis.hasher, redis.hasher.input
      ensures Valid() && flat == Exec(old(flat), key, Set(text, -1)).0
    {
      StepRefines(PostKey(redis.f), redis.shards, flat, On(key, Set(text, -1)));
      var _ := redis.UserPut(key, text);
      flat := Exec(flat, key, Set(text, -1)).0;
    }

    method MoveOrder(member: string)
      requires Valid()
      modifies this`flat, redis`shards, redis.hasher, redis.hasher.input
      ensures Valid() && flat == SMove(old(flat), NEED, ALREADY, member).0
    {
      assert IsSetName(NEED) && IsSetName(ALREADY);
      StepRefines(PostKey(redis.f), redis.shards, flat, Move(NEED, ALREADY, member));
      var _ := redis.UserSmove(NEED, ALREADY, member);
      flat := SMove(flat, NEED, ALREADY, member).0;
    }

    method PopFront(key: string)
      requires Valid()
      modifies this`flat, redis`shards, redis.hasher, redis.hasher.input
      ensures Valid() && flat == Exec(old(flat), key, ZPop).0
    {
      StepRefines(PostKey(redis.f), redis.shards, flat, On(key, ZPop));
      var _ := redis.UserRemoveSortedSet(key);
      flat := Exec(flat, key, ZPop).0;
    }

    /** The nested tests on the status, count, limit and expiry of an order. */
    method IsDue(m: string) returns (due: bool)
      requires Valid()
      modifies redis`shards, redis.hasher, redis.hasher.input
      ensures Valid() && due == Due(flat, m)
      ensures var whole := Join(Split(m));
              due == IsFinished(Lookup(flat, "order_status#" + m), Lookup(flat, "order_count#" + whole),
                                Lookup(flat, "order_limit#" + whole), Lookup(flat, "order_expire#" + whole))
      ensures FourPart(m) ==> Join(Split(m)) == m
    {
      DueAnyIff(flat, m);
      RebuiltIff(m);
      due := TestOpen(StatusKey(m));
      if due {
        var whole := Join(Split(m));
        due := TestUsedUp(CountKey(whole), LimitKey(whole), ExpireKey(whole));
      }
    }

    method TestOpen(statusKey: string) returns (open: bool)
      requires Valid()
      modifies redis`shards, redis.hasher, redis.hasher.input
      ensures Valid() && open == IsOpen(flat, statusKey)
    {
      var ok, status := Fetch(statusKey);
      open := ok && Atoi(status) == 0;
    }

    method TestUsedUp(countKey: string, limitKey: string, expireKey: string) returns (used: bool)
      requires Valid()
      modifies redis`shards, redis.hasher, redis.hasher.input
      ensures Valid() && used == IsUsedUp(flat, countKey, limitKey, expireKey)
    {
      used := TestCount(countKey, limitKey);
      if used {
        var expires, _ := Fetch(expireKey);
        used := !expires;
      }
    }

    method TestCount(countKey: string, limitKey: string) returns (reached: bool)
      requires Valid()
      modifies redis`shards, redis.hasher, redis.hasher.input
      ensures Valid()
      ensures reached == (Read(flat, countKey).ok && Read(flat, limitKey).ok
                          && Atoi(Read(flat, countKey).text) >= Atoi(Read(flat, limitKey).text))
    {
      reached := false;
      var found, count := Fetch(countKey);
      if found {
        var hasLimit, limit := Fetch(limitKey);
        reached := hasLimit && Atoi(count) >= Atoi(limit);
      }
    }

    method CloseOrder(status: string, member: string, orders: string)
      requires Valid()
      modifies this`flat, redis`shards, redis.hasher, redis.hasher.input
      ensures Valid() && flat == Close(old(flat), status, member, orders)
    {
      Put(status, "1");
      MoveOrder(member);
      PopFront(orders);
    }

    method SettleMember(m: string)
      requires Valid()
      modifies this`flat, redis`shards, redis.hasher, redis.hasher.input
      ensures Valid() && flat == SettleOne(old(flat), m)
    {
      var due := IsDue(m);
      if due {
        CloseOrder(StatusKey(m), Join(Split(m)), OrdersKey(m));
      }
    }

    /** One day's pass over the members read at its start: the result is that of visiting them one by
        one on a flat store, in some order. */
    method SettlePass() returns (order: seq<string>)
      requires Valid()
      modifies this`flat, redis`shards, redis.hasher, redis.hasher.input
      ensures Valid() && IsPass(old(flat), order) && flat == SettleAll(old(flat), order)
    {
      var members := OpenOrders();
      order := Enumerate(members);
      SettleEach(order);
    }

    method SettleEach(order: seq<string>)
      requires Valid()
      modifies this`flat, redis`shards, redis.hasher, redis.hasher.input
      ensures Valid() && flat == SettleAll(old(flat), order)
    {
      for i := 0 to |order|
        invariant Valid() && flat == SettleAll(old(flat), order[..i])
      {
        SettleAllSoFar(old(flat), order, i);
        SettleMember(order[i]);
      }
      assert order[..|order|] == order;
    }

    method OpenOrders() returns (members: set<string>)
      requires Valid()
      modifies redis`shards, redis.hasher, redis.hasher.input
      ensures Valid() && members == MembersOf(flat, NEED)
    {
      ReadAgrees(PostKey(redis.f), redis.shards, flat, NEED);

      var _, found := redis.UserSmembers(NEED);
      members := found;
    }
  }
}
