/** The daily settlement of used-up orders in `CUserQueryUpdate::Core`. */
module Settlement {
  import opened CText
  import opened Options
  import opened Redis

  const NEED := "need_updated_datahub_order"
  const ALREADY := "already_updated_datahub_order"

  // ---------------------------------------------------------------------------------------------
  // Splitting a member "user#repo#item#subscription"

  /** From here to the next '#', or to the end. */
  function Part(rest: string): string { rest[..IndexOf(rest, '#')] }

  /** After the next '#'; a search that fails makes the next one start over. */
  function Next(key: string, rest: string): string {
    var i := IndexOf(rest, '#');
    if i < |rest| then rest[i + 1..] else key
  }

  /** `n` searches for '#', starting at `rest`. */
  function Cuts(key: string, rest: string, n: nat): (parts: seq<string>)
    ensures |parts| == n
    decreases n
  {
    if n == 0 then [] else [Part(rest)] + Cuts(key, Next(key, rest), n - 1)
  }

  /** The user, repository, item and subscription of a member. */
  function Split(key: string): (parts: seq<string>)
    ensures |parts| == 4
  {
    Cuts(key, key, 4)
  }

  function Join(parts: seq<string>): string
    requires parts != []
  {
    if |parts| == 1 then parts[0] else parts[0] + "#" + Join(parts[1..])
  }

  function Hashes(s: string): nat {
    if s == "" then 0 else (if s[0] == '#' then 1 else 0) + Hashes(s[1..])
  }

  lemma {:induction false} HashesAppend(a: string, b: string)
    ensures Hashes(a + b) == Hashes(a) + Hashes(b)
  {
    if a == "" {
      assert a + b == b;
    } else {
      assert (a + b)[1..] == a[1..] + b;
      HashesAppend(a[1..], b);
    }
  }

  lemma {:induction false} PartHasNoHash(rest: string)
    ensures Hashes(Part(rest)) == 0
  {
    if rest != "" && rest[0] != '#' {
      PartHasNoHash(rest[1..]);
      assert Part(rest)[1..] == Part(rest[1..]);
    }
  }

  /** What a search finds, in terms of how many '#' are left. */
  lemma {:induction false} PartCounts(rest: string)
    ensures var i := IndexOf(rest, '#');
            if i == |rest| then Hashes(rest) == 0 && Part(rest) == rest
            else Hashes(rest) == 1 + Hashes(rest[i + 1..]) && rest == Part(rest) + "#" + rest[i + 1..]
  {
    if rest != "" && rest[0] != '#' {
      PartCounts(rest[1..]);
      assert Part(rest)[1..] == Part(rest[1..]);
    }
  }

  /** Parts without '#' make a string with one '#' less than there are parts. */
  lemma {:induction false} JoinHashes(parts: seq<string>)
    requires parts != [] && forall k :: 0 <= k < |parts| ==> Hashes(parts[k]) == 0
    ensures Hashes(Join(parts)) == |parts| - 1
  {
    if |parts| > 1 {
      JoinHashes(parts[1..]);
      HashesAppend(parts[0] + "#", Join(parts[1..]));
      HashesAppend(parts[0], "#");
      assert Hashes("#") == 1;
    }
  }

  lemma {:induction false} CutsHaveNoHash(key: string, rest: string, n: nat)
    ensures forall k :: 0 <= k < n ==> Hashes(Cuts(key, rest, n)[k]) == 0
    decreases n
  {
    if n > 0 {
      PartHasNoHash(rest);
      CutsHaveNoHash(key, Next(key, rest), n - 1);
    }
  }

  lemma {:induction false} CutsRejoin(key: string, rest: string, n: nat)
    requires n > 0 && Hashes(rest) == n - 1
    ensures Join(Cuts(key, rest, n)) == rest
    decreases n
  {
    PartCounts(rest);
    if n > 1 {
      CutsRejoin(key, Next(key, rest), n - 1);
      assert Cuts(key, rest, n)[1..] == Cuts(key, Next(key, rest), n - 1);
    }
  }

  /** The member the program rebuilds from the parts is the member it started from exactly when the
      member has four parts. */
  lemma RebuiltIff(key: string)
    ensures Join(Split(key)) == key <==> Hashes(key) == 3
  {
    CutsHaveNoHash(key, key, 4);
    JoinHashes(Split(key));
    if Hashes(key) == 3 { CutsRejoin(key, key, 4); }
  }

  // ---------------------------------------------------------------------------------------------
  // One pass over the orders

  function StatusKey(m: string): string { "order_status" + ("#" + m) }

  function CountKey(m: string): string { "order_count" + ("#" + m) }

  function LimitKey(m: string): string { "order_limit" + ("#" + m) }

  function ExpireKey(m: string): string { "order_expire" + ("#" + m) }

  /** The sorted set of a user's orders. */
  function OrdersKey(m: string): string { Split(m)[0] + ("#" + "orderid") }

  function Read(s: Store, key: string): Reply { OnEntry(Get, Lookup(s, key)).1 }

  /** The order has a status, and it is 0. */
  predicate IsOpen(s: Store, status: string) { Read(s, status).ok && Atoi(Read(s, status).text) == 0 }

  predicate IsUsedUp(s: Store, count: string, limit: string, expire: string) {
    && Read(s, count).ok && Read(s, limit).ok && Atoi(Read(s, count).text) >= Atoi(Read(s, limit).text)
    && !Read(s, expire).ok
  }

  /** An open order that is used up and has no expiry key left. */
  predicate Due(s: Store, m: string) {
    var whole := Join(Split(m));
    IsOpen(s, StatusKey(m)) && IsUsedUp(s, CountKey(whole), LimitKey(whole), ExpireKey(whole))
  }

  /** What the body of the loop does for one member. */
  function SettleOne(s: Store, m: string): Store {
    if Due(s, m) then Close(s, StatusKey(m), Join(Split(m)), OrdersKey(m)) else s
  }

  /** The three writes: the order's status, its move to the other set, the user's sorted set. */
  function Close(s: Store, status: string, m: string, orders: string): Store {
    Exec(SMove(Exec(s, status, Set("1", -1)).0, NEED, ALREADY, m).0, orders, ZPop).0
  }

  function SettleAll(s: Store, ms: seq<string>): Store
    decreases |ms|
  {
    if ms == [] then s else SettleAll(SettleOne(s, ms[0]), ms[1..])
  }

  // ---------------------------------------------------------------------------------------------
  // The keys of different orders do not clash

  lemma {:induction false} NoHashes(s: string)
    requires forall k :: 0 <= k < |s| ==> s[k] != '#'
    ensures Hashes(s) == 0
  {
    if s != "" { NoHashes(s[1..]); }
  }

  lemma KeyHashes(name: string, m: string)
    requires forall k :: 0 <= k < |name| ==> name[k] != '#'
    ensures Hashes(name + ("#" + m)) == 1 + Hashes(m)
  {
    NoHashes(name);
    HashesAppend(name, "#" + m);
    assert ("#" + m)[1..] == m;
  }

  predicate FourPart(m: string) { Hashes(m) == 3 }

  lemma OrderKeyHashes(m: string)
    ensures Hashes(StatusKey(m)) == 1 + Hashes(m)
    ensures Hashes(CountKey(m)) == 1 + Hashes(m)
    ensures Hashes(LimitKey(m)) == 1 + Hashes(m)
    ensures Hashes(ExpireKey(m)) == 1 + Hashes(m)
  {
    KeyHashes("order_status", m);
    KeyHashes("order_count", m);
    KeyHashes("order_limit", m);
    KeyHashes("order_expire", m);
  }

  lemma OrdersKeyHashes(m: string)
    ensures Hashes(OrdersKey(m)) == 1
  {
    PartHasNoHash(m);
    SuffixHashes(Part(m), "orderid");
    FirstPart(m, "#" + "orderid");
  }

  lemma FirstPart(m: string, suffix: string)
    ensures Split(m)[0] + suffix == Part(m) + suffix
  {
  }

  lemma SuffixHashes(user: string, name: string)
    requires Hashes(user) == 0 && forall k :: 0 <= k < |name| ==> name[k] != '#'
    ensures Hashes(user + ("#" + name)) == 1
  {
    HashesAppend(user, "#" + name);
    NoHashes(name);
    assert ("#" + name)[1..] == name;
  }

  lemma NamesDiffer(m: string, d: string)
    ensures StatusKey(m) == StatusKey(d) ==> m == d
    ensures CountKey(m) != StatusKey(d) && LimitKey(m) != StatusKey(d) && ExpireKey(m) != StatusKey(d)
  {
    assert StatusKey(d)[6] == 's';
    assert CountKey(m)[6] == 'c' && LimitKey(m)[6] == 'l' && ExpireKey(m)[6] == 'e';
    assert StatusKey(m)[13..] == m && StatusKey(d)[13..] == d;
  }

  predicate IsSetName(key: string) { key == NEED || key == ALREADY }

  lemma OrderKeysAreNotSets(m: string)
    ensures !IsSetName(StatusKey(m)) && !IsSetName(CountKey(m)) && !IsSetName(LimitKey(m)) && !IsSetName(ExpireKey(m))
    ensures !IsSetName(OrdersKey(m))
  {
    assert StatusKey(m)[0] == 'o' && CountKey(m)[0] == 'o' && LimitKey(m)[0] == 'o' && ExpireKey(m)[0] == 'o';
    assert NEED[0] == 'n' && ALREADY[0] == 'a';
    assert OrdersKey(m)[|OrdersKey(m)| - 1] == 'd';
    assert NEED[|NEED| - 1] == 'r' && ALREADY[|ALREADY| - 1] == 'r';
  }

  /** All the keys of one order are apart from those that settling another order changes. */
  lemma KeysApart(m: string, d: string)
    requires FourPart(m) && FourPart(d)
    ensures Join(Split(m)) == m
    ensures StatusKey(m) == StatusKey(d) ==> m == d
    ensures CountKey(m) != StatusKey(d) && LimitKey(m) != StatusKey(d) && ExpireKey(m) != StatusKey(d)
    ensures StatusKey(m) != OrdersKey(d) && CountKey(m) != OrdersKey(d)
    ensures LimitKey(m) != OrdersKey(d) && ExpireKey(m) != OrdersKey(d)
  {
    RebuiltIff(m);
    NamesDiffer(m, d);
    OrderKeyHashes(m);
    OrdersKeyHashes(d);
  }

  // ---------------------------------------------------------------------------------------------
  // When an order is due

  lemma KeysOfOrder(m: string)
    ensures StatusKey(m) == "order_status#" + m && CountKey(m) == "order_count#" + m
    ensures LimitKey(m) == "order_limit#" + m && ExpireKey(m) == "order_expire#" + m
  {
    assert "order_status" + ("#" + m) == "order_status#" + m && "order_count" + ("#" + m) == "order_count#" + m;
    assert "order_limit" + ("#" + m) == "order_limit#" + m && "order_expire" + ("#" + m) == "order_expire#" + m;
  }

  /** The server has something to give for it. */
  predicate IsText(e: Option<Entry>) { e.Some? && e.value.Str? && e.value.text != "" }

  /** The order is still open, has been used as often as its limit, and has no expiry. */
  predicate IsFinished(status: Option<Entry>, count: Option<Entry>, limit: Option<Entry>, expiry: Option<Entry>) {
    && IsText(status) && Atoi(status.value.text) == 0
    && IsText(count) && IsText(limit) && Atoi(count.value.text) >= Atoi(limit.value.text)
    && !IsText(expiry)
  }

  /** The same of the order `m` of a store. */
  predicate Finished(s: Store, m: string) {
    IsFinished(Lookup(s, "order_status#" + m), Lookup(s, "order_count#" + m), Lookup(s, "order_limit#" + m),
               Lookup(s, "order_expire#" + m))
  }

  /** Any member: its own status decides, and the count, limit and expiry under the text rebuilt from its parts. */
  lemma DueAnyIff(s: Store, m: string)
    ensures var whole := Join(Split(m));
            Due(s, m) <==> IsFinished(Lookup(s, "order_status#" + m), Lookup(s, "order_count#" + whole),
                                      Lookup(s, "order_limit#" + whole), Lookup(s, "order_expire#" + whole))
  {
    KeysOfOrder(m);
    KeysOfOrder(Join(Split(m)));
  }

  /** An order of four parts is due exactly when it is finished by its own four keys. */
  lemma DueIff(s: Store, m: string)
    requires FourPart(m)
    ensures Due(s, m) <==> IsFinished(Lookup(s, "order_status#" + m), Lookup(s, "order_count#" + m),
                                      Lookup(s, "order_limit#" + m), Lookup(s, "order_expire#" + m))
  {
    RebuiltIff(m);
    DueAnyIff(s, m);
  }

  // ---------------------------------------------------------------------------------------------
  // The result of a pass, without its order

  function StatusKeys(settled: set<string>): set<string> { set d | d in settled :: StatusKey(d) }

  /** How many of the settled orders belong to the user of the sorted set `key`. */
  function Pops(settled: set<string>, key: string): nat { |Having(OrdersKey, settled, key)| }

  function Having(f: string -> string, settled: set<string>, key: string): set<string> {
    set d | d in settled && f(d) == key
  }

  function PopFronts(e: Option<Entry>, n: nat): Option<Entry> {
    if n == 0 then e else OnEntry(ZPop, PopFronts(e, n - 1)).0
  }

  /** What `key` holds once the orders `settled` have been settled, in terms of the store before. */
  function Expected(s: Store, settled: set<string>, key: string): Option<Entry> {
    if IsSetName(key) then
      if settled == {} then Lookup(s, key)
      else if key == NEED then SetOrNothing(MembersOf(s, NEED) - settled)
      else Some(Members(MembersOf(s, ALREADY) + settled))
    else ExpectedOther(Lookup(s, key), key in StatusKeys(settled), Pops(settled, key))
  }

  function ExpectedOther(e: Option<Entry>, settled: bool, pops: nat): Option<Entry> {
    if settled then Some(Str("1", 0)) else PopFronts(e, pops)
  }

  ghost predicate Became(s: Store, before: Store, settled: set<string>) {
    forall key :: Lookup(s, key) == Expected(before, settled, key)
  }

  /** The orders that can be settled: four-part members of the first set, with the second one a set. */
  predicate Settleable(s: Store, ms: set<string>) {
    && (forall m :: m in ms ==> FourPart(m))
    && ms <= MembersOf(s, NEED)
    && IsSetOrMissing(Lookup(s, ALREADY))
  }

  lemma HavingOne(f: string -> string, settled: set<string>, m: string, key: string)
    ensures Having(f, settled + {m}, key) == Having(f, settled, key) + (if f(m) == key then {m} else {})
  {
  }

  lemma PopsOne(settled: set<string>, m: string, key: string)
    requires m !in settled
    ensures Pops(settled + {m}, key) == Pops(settled, key) + (if OrdersKey(m) == key then 1 else 0)
  {
    HavingOne(OrdersKey, settled, m, key);
  }

  /** Settling other orders does not touch what decides about `m`. */
  lemma DueIsLocal(before: Store, settled: set<string>, s: Store, m: string)
    requires Became(s, before, settled) && FourPart(m) && m !in settled
    requires forall d :: d in settled ==> FourPart(d)
    ensures Due(s, m) == Due(before, m)
  {
    forall d | d in settled
      ensures StatusKey(m) != StatusKey(d) && CountKey(m) != StatusKey(d) && LimitKey(m) != StatusKey(d)
              && ExpireKey(m) != StatusKey(d)
      ensures StatusKey(m) != OrdersKey(d) && CountKey(m) != OrdersKey(d) && LimitKey(m) != OrdersKey(d)
              && ExpireKey(m) != OrdersKey(d)
    {
      KeysApart(m, d);
    }
    KeysApart(m, m);
    OrderKeysAreNotSets(m);
    Untouched(before, settled, StatusKey(m));
    Untouched(before, settled, CountKey(m));
    Untouched(before, settled, LimitKey(m));
    Untouched(before, settled, ExpireKey(m));
    assert Lookup(s, StatusKey(m)) == Lookup(before, StatusKey(m));
    assert Lookup(s, CountKey(m)) == Lookup(before, CountKey(m));
    assert Lookup(s, LimitKey(m)) == Lookup(before, LimitKey(m));
    assert Lookup(s, ExpireKey(m)) == Lookup(before, ExpireKey(m));
  }

  lemma Untouched(before: Store, settled: set<string>, key: string)
    requires !IsSetName(key) && forall d :: d in settled ==> StatusKey(d) != key && OrdersKey(d) != key
    ensures Expected(before, settled, key) == Lookup(before, key)
  {
  }

  lemma LookupAfterMove(s: Store, src: string, dst: string, m: string, key: string)
    requires src != dst && m in MembersOf(s, src) && IsSetOrMissing(Lookup(s, dst))
    ensures Lookup(SMove(s, src, dst, m).0, key) ==
            if key == src then SetOrNothing(MembersOf(s, src) - {m})
            else if key == dst then Some(Members(MembersOf(s, dst) + {m}))
            else Lookup(s, key)
  {
  }

  lemma LookupAfterExec(s: Store, k: string, c: Command, key: string)
    ensures Lookup(Exec(s, k, c).0, key) == if key == k then OnEntry(c, Lookup(s, k)).0 else Lookup(s, key)
  {
  }

  /** The three writes, when their keys are apart. */
  lemma ThreeWrites(s: Store, status: string, src: string, dst: string, orders: string, m: string, key: string)
    requires src != dst && m in MembersOf(s, src) && IsSetOrMissing(Lookup(s, dst))
    requires status != src && status != dst && status != orders && orders != src && orders != dst
    ensures Lookup(Exec(SMove(Exec(s, status, Set("1", -1)).0, src, dst, m).0, orders, ZPop).0, key) ==
            if key == src then SetOrNothing(MembersOf(s, src) - {m})
            else if key == dst then Some(Members(MembersOf(s, dst) + {m}))
            else if key == status then Some(Str("1", 0))
            else if key == orders then OnEntry(ZPop, Lookup(s, key)).0
            else Lookup(s, key)
  {
    var s1 := Exec(s, status, Set("1", -1)).0;
    assert MembersOf(s1, src) == MembersOf(s, src) && MembersOf(s1, dst) == MembersOf(s, dst);
    assert Lookup(s1, dst) == Lookup(s, dst);
    LookupAfterExec(s, status, Set("1", -1), key);
    LookupAfterExec(s, status, Set("1", -1), orders);
    LookupAfterMove(s1, src, dst, m, key);
    LookupAfterMove(s1, src, dst, m, orders);
    LookupAfterExec(SMove(s1, src, dst, m).0, orders, ZPop, key);
  }

  /** What settling one due order makes of each key. */
  lemma LookupAfterSettling(s: Store, m: string, key: string)
    requires FourPart(m) && Due(s, m) && m in MembersOf(s, NEED) && IsSetOrMissing(Lookup(s, ALREADY))
    ensures Lookup(SettleOne(s, m), key) ==
            if key == NEED then SetOrNothing(MembersOf(s, NEED) - {m})
            else if key == ALREADY then Some(Members(MembersOf(s, ALREADY) + {m}))
            else if key == StatusKey(m) then Some(Str("1", 0))
            else if key == OrdersKey(m) then OnEntry(ZPop, Lookup(s, key)).0
            else Lookup(s, key)
  {
    OrderKeysAreNotSets(m);
    KeysApart(m, m);
    assert NEED != ALREADY by { assert NEED[0] != ALREADY[0]; }
    ThreeWrites(s, StatusKey(m), NEED, ALREADY, OrdersKey(m), m, key);
  }

  /** A due order leaves the first set exactly when its member has four parts. */
  lemma LeavesIff(s: Store, m: string)
    requires m in MembersOf(s, NEED) && IsSetOrMissing(Lookup(s, ALREADY)) && Due(s, m)
    ensures m !in MembersOf(SettleOne(s, m), NEED) <==> FourPart(m)
  {
    RebuiltIff(m);
    if FourPart(m) {
      LookupAfterSettling(s, m, NEED);
    } else {
      OrderKeysAreNotSets(m);
      assert NEED != ALREADY by { assert NEED[0] != ALREADY[0]; }
      OthersStay(s, StatusKey(m), NEED, ALREADY, OrdersKey(m), Join(Split(m)), m);
    }
  }

  lemma OthersStay(s: Store, status: string, src: string, dst: string, orders: string, moved: string, m: string)
    requires src != dst && status != src && orders != src && moved != m && m in MembersOf(s, src)
    ensures m in MembersOf(Exec(SMove(Exec(s, status, Set("1", -1)).0, src, dst, moved).0, orders, ZPop).0, src)
  {
  }

  lemma SetsSoFar(before: Store, settled: set<string>, s: Store)
    requires Settleable(before, settled) && Became(s, before, settled)
    ensures MembersOf(s, NEED) == MembersOf(before, NEED) - settled
    ensures MembersOf(s, ALREADY) == MembersOf(before, ALREADY) + settled
    ensures IsSetOrMissing(Lookup(s, ALREADY))
  {
    assert NEED != ALREADY by { assert NEED[0] != ALREADY[0]; }
    assert Lookup(s, NEED) == Expected(before, settled, NEED);
    assert Lookup(s, ALREADY) == Expected(before, settled, ALREADY);
  }

  lemma StatusKeysOne(settled: set<string>, m: string)
    ensures StatusKeys(settled + {m}) == StatusKeys(settled) + {StatusKey(m)}
  {
  }

  lemma NotAStatusKey(settled: set<string>, m: string)
    requires FourPart(m) && forall d :: d in settled ==> FourPart(d)
    ensures OrdersKey(m) !in StatusKeys(settled)
  {
    forall d | d in settled ensures StatusKey(d) != OrdersKey(m) { KeysApart(d, m); }
  }

  /** A key that is neither of the two sets, one settled order later. */
  lemma ExpectedOne(before: Store, settled: set<string>, m: string, key: string)
    requires m !in settled && FourPart(m) && (forall d :: d in settled ==> FourPart(d)) && !IsSetName(key)
    ensures Expected(before, settled + {m}, key) ==
            if key == StatusKey(m) then Some(Str("1", 0))
            else if key == OrdersKey(m) then OnEntry(ZPop, Expected(before, settled, key)).0
            else Expected(before, settled, key)
  {
    StatusKeysOne(settled, m);
    PopsOne(settled, m, key);
    NotAStatusKey(settled, m);
    assert key in StatusKeys(settled + {m}) <==> key in StatusKeys(settled) || key == StatusKey(m);
  }

  lemma ExpectedSets(before: Store, settled: set<string>, m: string)
    ensures Expected(before, settled + {m}, NEED) == SetOrNothing(MembersOf(before, NEED) - settled - {m})
    ensures Expected(before, settled + {m}, ALREADY) == Some(Members(MembersOf(before, ALREADY) + settled + {m}))
  {
    assert NEED != ALREADY by { assert NEED[0] != ALREADY[0]; }
    assert MembersOf(before, NEED) - settled - {m} == MembersOf(before, NEED) - (settled + {m});
    assert MembersOf(before, ALREADY) + settled + {m} == MembersOf(before, ALREADY) + (settled + {m});
  }

  lemma SettleStep(before: Store, settled: set<string>, s: Store, m: string, key: string)
    requires Settleable(before, settled + {m}) && m !in settled
    requires Became(s, before, settled) && Due(s, m)
    ensures Lookup(SettleOne(s, m), key) == Expected(before, settled + {m}, key)
  {
    SetsSoFar(before, settled, s);
    assert Lookup(s, key) == Expected(before, settled, key);
    SettleStepAt(before, settled, s, m, key);
  }

  lemma SettleStepAt(before: Store, settled: set<string>, s: Store, m: string, key: string)
    requires (forall d :: d in settled + {m} ==> FourPart(d)) && m !in settled && Due(s, m)
    requires m in MembersOf(before, NEED)
    requires MembersOf(s, NEED) == MembersOf(before, NEED) - settled
    requires MembersOf(s, ALREADY) == MembersOf(before, ALREADY) + settled
    requires IsSetOrMissing(Lookup(s, ALREADY))
    requires Lookup(s, key) == Expected(before, settled, key)
    ensures Lookup(SettleOne(s, m), key) == Expected(before, settled + {m}, key)
  {
    LookupAfterSettling(s, m, key);
    if IsSetName(key) {
      ExpectedSets(before, settled, m);
    } else {
      ExpectedOne(before, settled, m, key);
    }
  }

  // ---------------------------------------------------------------------------------------------
  // Whole passes

  predicate Distinct(ms: seq<string>) { forall i, j :: 0 <= i < j < |ms| ==> ms[i] != ms[j] }

  function Chosen(p: string -> bool, ms: seq<string>): set<string> { set m | m in ms && p(m) }

  /** The orders of a pass that are due when it starts. */
  function DueIn(s: Store, ms: seq<string>): set<string> { Chosen(m => Due(s, m), ms) }

  lemma ChosenHead(p: string -> bool, ms: seq<string>)
    requires ms != []
    ensures Chosen(p, ms) == (if p(ms[0]) then {ms[0]} else {}) + Chosen(p, ms[1..])
  {
  }

  lemma DueInHead(s: Store, ms: seq<string>, settled: set<string>)
    requires ms != []
    ensures settled + DueIn(s, ms) == AndIfDue(s, settled, ms[0]) + DueIn(s, ms[1..])
  {
    ChosenHead(m => Due(s, m), ms);
  }

  function AndIfDue(s: Store, settled: set<string>, m: string): set<string> {
    if Due(s, m) then settled + {m} else settled
  }

  lemma SettleNothing(s: Store)
    ensures Became(s, s, {})
  {
  }

  /** In the middle of a pass: `settled` are done, `ms` are to come. */
  ghost predicate MidPass(before: Store, settled: set<string>, s: Store, ms: seq<string>) {
    && Became(s, before, settled) && Settleable(before, settled) && Distinct(ms)
    && forall i :: 0 <= i < |ms| ==> ms[i] !in settled && FourPart(ms[i]) && ms[i] in MembersOf(before, NEED)
  }

  lemma {:induction false} SettleRest(before: Store, settled: set<string>, s: Store, ms: seq<string>)
    requires MidPass(before, settled, s, ms)
    ensures Became(SettleAll(s, ms), before, settled + DueIn(before, ms))
    decreases |ms|
  {
    if ms == [] {
      assert settled + DueIn(before, ms) == settled;
    } else {
      DueInHead(before, ms, settled);
      MidPassStep(before, settled, s, ms);
      SettleRest(before, AndIfDue(before, settled, ms[0]), SettleOne(s, ms[0]), ms[1..]);
    }
  }

  lemma MidPassStep(before: Store, settled: set<string>, s: Store, ms: seq<string>)
    requires MidPass(before, settled, s, ms) && ms != []
    ensures MidPass(before, AndIfDue(before, settled, ms[0]), SettleOne(s, ms[0]), ms[1..])
  {
    var m := ms[0];
    SettleStepAll(before, settled, s, m);
    var settled' := AndIfDue(before, settled, m);
    assert Settleable(before, settled');
    forall i | 0 <= i < |ms[1..]|
      ensures ms[1..][i] !in settled' && FourPart(ms[1..][i]) && ms[1..][i] in MembersOf(before, NEED)
    {
      assert ms[1..][i] == ms[i + 1];
    }
    assert Distinct(ms[1..]);
  }

  lemma SettleStepAll(before: Store, settled: set<string>, s: Store, m: string)
    requires Settleable(before, settled + {m}) && m !in settled && Became(s, before, settled)
    ensures Became(SettleOne(s, m), before, AndIfDue(before, settled, m))
  {
    DueIsLocal(before, settled, s, m);
    if Due(s, m) {
      forall key ensures Lookup(SettleOne(s, m), key) == Expected(before, settled + {m}, key) {
        SettleStep(before, settled, s, m, key);
      }
    }
  }

  /** The state a pass can start from: well-formed orders, and the second key a set. */
  predicate Ready(s: Store) { Settleable(s, MembersOf(s, NEED)) }

  /** An enumeration of the orders to look at. */
  ghost predicate IsPass(s: Store, ms: seq<string>) {
    Distinct(ms) && forall m :: m in ms <==> m in MembersOf(s, NEED)
  }

  function Settled(s: Store): set<string> { set m | m in MembersOf(s, NEED) && Due(s, m) }

  /** A pass settles exactly the orders that are finished when it starts, whatever their order. */
  lemma PassSettlesTheDue(s: Store, ms: seq<string>)
    requires Ready(s) && IsPass(s, ms)
    ensures Became(SettleAll(s, ms), s, Settled(s))
    ensures Settled(s) == set m | m in MembersOf(s, NEED) && Finished(s, m)
  {
    forall m | m in MembersOf(s, NEED) ensures Due(s, m) <==> Finished(s, m) { DueIff(s, m); }
    SettleNothing(s);
    assert MidPass(s, {}, s, ms);
    SettleRest(s, {}, s, ms);
    assert {} + DueIn(s, ms) == Settled(s);
  }

  lemma SameLookups(s: Store, t: Store)
    requires forall key :: Lookup(s, key) == Lookup(t, key)
    ensures s == t
  {
    assert forall key :: key in s <==> Lookup(s, key).Some?;
    assert forall key :: key in t <==> Lookup(t, key).Some?;
    forall key | key in s ensures s[key] == t[key] { assert Lookup(s, key) == Lookup(t, key); }
  }

  /** The order in which the members are visited makes no difference. */
  lemma PassOrderIsIrrelevant(s: Store, ms: seq<string>, ns: seq<string>)
    requires Ready(s) && IsPass(s, ms) && IsPass(s, ns)
    ensures SettleAll(s, ms) == SettleAll(s, ns)
  {
    PassSettlesTheDue(s, ms);
    PassSettlesTheDue(s, ns);
    SameLookups(SettleAll(s, ms), SettleAll(s, ns));
  }

  /** No order is lost or invented, a member changes sets exactly when it is due, and settled orders
      are closed. */
  lemma PassConservesOrders(s: Store, ms: seq<string>)
    requires Ready(s) && IsPass(s, ms)
    ensures var t := SettleAll(s, ms);
            && MembersOf(t, NEED) == MembersOf(s, NEED) - Settled(s)
            && MembersOf(t, ALREADY) == MembersOf(s, ALREADY) + Settled(s)
            && MembersOf(t, NEED) + MembersOf(t, ALREADY) == MembersOf(s, NEED) + MembersOf(s, ALREADY)
            && (MembersOf(s, NEED) !! MembersOf(s, ALREADY) ==> MembersOf(t, NEED) !! MembersOf(t, ALREADY))
            && (forall m :: m in Settled(s) ==> Lookup(t, StatusKey(m)) == Some(Str("1", 0)))
            && Ready(t)
  {
    var t := SettleAll(s, ms);
    PassSettlesTheDue(s, ms);
    SetsSoFar(s, Settled(s), t);
    forall m | m in Settled(s) ensures Lookup(t, StatusKey(m)) == Some(Str("1", 0)) {
      OrderKeysAreNotSets(m);
      assert Lookup(t, StatusKey(m)) == Expected(s, Settled(s), StatusKey(m));
    }
  }

  lemma {:induction false} PopFrontsDrops(e: Option<Entry>, n: nat)
    requires e.Some? && e.value.Ranked? && e.value.ranks != []
    ensures PopFronts(e, n) == if n < |e.value.ranks| then Some(Ranked(e.value.ranks[n..])) else None
  {
    if n > 0 { PopFrontsDrops(e, n - 1); }
  }

  /** A user's sorted set loses one front entry for each of the user's settled orders. */
  lemma PassPopsSortedSets(s: Store, ms: seq<string>, m: string)
    requires Ready(s) && IsPass(s, ms) && m in ms
    requires var e := Lookup(s, OrdersKey(m)); e.Some? && e.value.Ranked? && e.value.ranks != []
    ensures var ranks := s[OrdersKey(m)].ranks;
            var n := |Having(Part, Settled(s), Part(m))|;
            Lookup(SettleAll(s, ms), OrdersKey(m)) == if n < |ranks| then Some(Ranked(ranks[n..])) else None
  {
    PassSettlesTheDue(s, ms);
    var key := OrdersKey(m);
    OrderKeysAreNotSets(m);
    NotAStatusKey(Settled(s), m);
    assert Lookup(SettleAll(s, ms), key) == Expected(s, Settled(s), key);
    SameUser(Settled(s), m);
    PopFrontsDrops(Lookup(s, key), Pops(Settled(s), key));
  }

  lemma SameOrdersKey(m: string, d: string)
    ensures OrdersKey(m) == OrdersKey(d) <==> Part(m) == Part(d)
  {
    assert Split(m)[0] == Part(m) && Split(d)[0] == Part(d);
    if OrdersKey(m) == OrdersKey(d) { SameSuffix(Part(m), Part(d), "#" + "orderid"); }
  }

  lemma SameSuffix(a: string, b: string, suffix: string)
    requires a + suffix == b + suffix
    ensures a == b
  {
    assert a == (a + suffix)[..|a|] && b == (b + suffix)[..|b|];
    assert |a + suffix| == |b + suffix|;
  }

  lemma HavingSame(f: string -> string, g: string -> string, settled: set<string>, key: string, user: string)
    requires forall d :: d in settled ==> (f(d) == key <==> g(d) == user)
    ensures Having(f, settled, key) == Having(g, settled, user)
  {
  }

  lemma SameUser(settled: set<string>, m: string)
    ensures Pops(settled, OrdersKey(m)) == |Having(Part, settled, Part(m))|
  {
    forall d | d in settled ensures OrdersKey(d) == OrdersKey(m) <==> Part(d) == Part(m) { SameOrdersKey(d, m); }
    HavingSame(OrdersKey, Part, settled, OrdersKey(m), Part(m));
  }

  /** A second pass right after the first finds nothing to do. */
  lemma SecondPassDoesNothing(s: Store, ms: seq<string>, ns: seq<string>)
    requires Ready(s) && IsPass(s, ms) && IsPass(SettleAll(s, ms), ns)
    ensures SettleAll(SettleAll(s, ms), ns) == SettleAll(s, ms)
  {
    var t := SettleAll(s, ms);
    PassSettlesTheDue(s, ms);
    PassConservesOrders(s, ms);
    forall m | m in MembersOf(t, NEED) ensures !Due(t, m) { DueIsLocal(s, Settled(s), t, m); }
    assert Settled(t) == {};
    PassSettlesTheDue(t, ns);
    SettleNothing(t);
    SameLookups(SettleAll(t, ns), t);
  }

  // ---------------------------------------------------------------------------------------------
  // Many days

  /** A pass, a new order, or any change to the other keys.  The program itself adds no orders: its one
      call that would is commented out, so they come from elsewhere. */
  datatype Event = Pass(order: seq<string>) | NewOrder(member: string) | Elsewhere(after: Store)

  ghost predicate Possible(s: Store, e: Event) {
    match e
    case Pass(order) => IsPass(s, order)
    case NewOrder(m) => FourPart(m) && m !in MembersOf(s, ALREADY)
    case Elsewhere(t) => Lookup(t, NEED) == Lookup(s, NEED) && Lookup(t, ALREADY) == Lookup(s, ALREADY)
  }

  function After(s: Store, e: Event): Store {
    match e
    case Pass(order) => SettleAll(s, order)
    case NewOrder(m) => Exec(s, NEED, Sadd(m)).0
    case Elsewhere(t) => t
  }

  ghost predicate IsHistory(s: Store, es: seq<Event>)
    decreases |es|
  {
    es == [] || (Possible(s, es[0]) && IsHistory(After(s, es[0]), es[1..]))
  }

  function Final(s: Store, es: seq<Event>): Store
    decreases |es|
  {
    if es == [] then s else Final(After(s, es[0]), es[1..])
  }

  function OpenedBy(e: Event): set<string> { if e.NewOrder? then {e.member} else {} }

  function ClosedBy(s: Store, e: Event): set<string> { if e.Pass? then Settled(s) else {} }

  function Opened(es: seq<Event>): set<string> {
    if es == [] then {} else OpenedBy(es[0]) + Opened(es[1..])
  }

  /** The orders that some pass of the history found due. */
  function Closed(s: Store, es: seq<Event>): set<string>
    decreases |es|
  {
    if es == [] then {} else ClosedBy(s, es[0]) + Closed(After(s, es[0]), es[1..])
  }

  /** What every event keeps: both keys hold sets, the orders have four parts, no order is in both. */
  predicate Books(s: Store) {
    && IsSetOrMissing(Lookup(s, NEED)) && IsSetOrMissing(Lookup(s, ALREADY))
    && (forall m :: m in MembersOf(s, NEED) ==> FourPart(m))
    && MembersOf(s, NEED) !! MembersOf(s, ALREADY)
  }

  lemma PassKeepsBooks(s: Store, order: seq<string>)
    requires Books(s) && IsPass(s, order)
    ensures Books(SettleAll(s, order))
    ensures MembersOf(SettleAll(s, order), NEED) == MembersOf(s, NEED) - Settled(s)
    ensures MembersOf(SettleAll(s, order), ALREADY) == MembersOf(s, ALREADY) + Settled(s)
  {
    PassConservesOrders(s, order);
    PassSettlesTheDue(s, order);
    assert Lookup(SettleAll(s, order), NEED) == Expected(s, Settled(s), NEED);
  }

  lemma NewOrderKeepsBooks(s: Store, m: string)
    requires Books(s) && FourPart(m) && m !in MembersOf(s, ALREADY)
    ensures var t := Exec(s, NEED, Sadd(m)).0;
            Books(t) && MembersOf(t, NEED) == MembersOf(s, NEED) + {m} && MembersOf(t, ALREADY) == MembersOf(s, ALREADY)
  {
  }

  lemma EventKeepsBooks(s: Store, e: Event)
    requires Books(s) && Possible(s, e)
    ensures Books(After(s, e)) && OpenedBy(e) !! MembersOf(s, ALREADY)
    ensures MembersOf(After(s, e), ALREADY) == MembersOf(s, ALREADY) + ClosedBy(s, e)
    ensures MembersOf(After(s, e), NEED) == MembersOf(s, NEED) + OpenedBy(e) - ClosedBy(s, e)
  {
    match e {
      case Pass(order) => PassKeepsBooks(s, order);
      case NewOrder(m) => NewOrderKeepsBooks(s, m);
      case Elsewhere(t) =>
        assert MembersOf(t, NEED) == MembersOf(s, NEED) && MembersOf(t, ALREADY) == MembersOf(s, ALREADY);
    }
  }

  /** A settled order is not among those opened later. */
  lemma {:induction false} NotReopened(s: Store, es: seq<Event>)
    requires Books(s) && IsHistory(s, es)
    ensures Opened(es) !! MembersOf(s, ALREADY)
    decreases |es|
  {
    if es != [] {
      EventKeepsBooks(s, es[0]);
      NotReopened(After(s, es[0]), es[1..]);
    }
  }

  lemma SetsBalance(need: set<string>, already: set<string>, o: set<string>, c: set<string>, o': set<string>,
      c': set<string>)
    requires o' !! already + c
    ensures need + o - c + o' - c' == need + (o + o') - (c + c')
    ensures already + c + c' == already + (c + c')
  {
  }

  /** Over any history of passes, new orders and other traffic: the settled orders are the ones settled
      before plus those some pass found due, and the open ones are all the others. */
  lemma {:induction false} HistoryBalances(s: Store, es: seq<Event>)
    requires Books(s) && IsHistory(s, es)
    ensures Books(Final(s, es))
    ensures MembersOf(Final(s, es), ALREADY) == MembersOf(s, ALREADY) + Closed(s, es)
    ensures MembersOf(Final(s, es), NEED) == MembersOf(s, NEED) + Opened(es) - Closed(s, es)
    decreases |es|
  {
    if es != [] {
      EventKeepsBooks(s, es[0]);
      var t, rest := After(s, es[0]), es[1..];
      HistoryBalances(t, rest);
      NotReopened(t, rest);
      SetsBalance(MembersOf(s, NEED), MembersOf(s, ALREADY), OpenedBy(es[0]), ClosedBy(s, es[0]), Opened(rest),
          Closed(t, rest));
    }
  }

  lemma {:induction false} SettleAllSoFar(s: Store, ms: seq<string>, i: nat)
    requires i < |ms|
    ensures SettleAll(s, ms[..i + 1]) == SettleOne(SettleAll(s, ms[..i]), ms[i])
  {
    assert ms[..i + 1] == ms[..i] + [ms[i]];
    SettleAllAppend(s, ms[..i], ms[i]);
  }

  lemma {:induction false} SettleAllAppend(s: Store, ms: seq<string>, m: string)
    ensures SettleAll(s, ms + [m]) == SettleOne(SettleAll(s, ms), m)
    decreases |ms|
  {
    if ms == [] {
      assert ms + [m] == [m];
      assert SettleAll(SettleOne(s, m), []) == SettleOne(s, m);
    } else {
      assert (ms + [m])[0] == ms[0] && (ms + [m])[1..] == ms[1..] + [m];
      SettleAllAppend(SettleOne(s, ms[0]), ms[1..], m);
    }
  }
}
