/** A settlement pass over members of any form.  A malformed member is rebuilt to another text, and what
    then moves is that text, if it is a member. */
module SettlementAny {
  import opened Options
  import opened CText
  import opened Redis
  import opened Settlement

  /** What the program rebuilds from the parts of a member. */
  function Rebuilt(m: string): string { Join(Split(m)) }

  // ---------------------------------------------------------------------------------------------
  // One member

  /** Closing an order changes the answer to no read but that of its own status. */
  lemma ReadAfterClose(s: Store, status: string, src: string, dst: string, m: string, orders: string, key: string)
    requires src != dst && key != status && key != src && key != dst
    ensures Read(Exec(SMove(Exec(s, status, Set("1", -1)).0, src, dst, m).0, orders, ZPop).0, key) == Read(s, key)
  {
    var s1 := Exec(s, status, Set("1", -1)).0;
    var s2 := SMove(s1, src, dst, m).0;
    LookupAfterExec(s, status, Set("1", -1), key);
    assert Lookup(s2, key) == Lookup(s1, key);
    LookupAfterExec(s2, orders, ZPop, key);
  }

  lemma NeedIsNotAlready()
    ensures NEED != ALREADY
  {
    assert NEED[0] != ALREADY[0];
  }

  lemma ReadAfterSettling(s: Store, d: string, key: string)
    requires key != StatusKey(d) && !IsSetName(key)
    ensures Read(SettleOne(s, d), key) == Read(s, key)
  {
    NeedIsNotAlready();
    if Due(s, d) { ReadAfterClose(s, StatusKey(d), NEED, ALREADY, Rebuilt(d), OrdersKey(d), key); }
  }

  /** Settling one member changes nothing about whether another is due. */
  lemma DueIsKept(s: Store, d: string, m: string)
    requires m != d
    ensures Due(SettleOne(s, d), m) == Due(s, m)
  {
    NamesDiffer(m, d);
    NamesDiffer(Rebuilt(m), d);
    OrderKeysAreNotSets(m);
    OrderKeysAreNotSets(Rebuilt(m));
    ReadAfterSettling(s, d, StatusKey(m));
    ReadAfterSettling(s, d, CountKey(Rebuilt(m)));
    ReadAfterSettling(s, d, LimitKey(Rebuilt(m)));
    ReadAfterSettling(s, d, ExpireKey(Rebuilt(m)));
  }

  lemma SetsAfterClose(s: Store, status: string, src: string, dst: string, m: string, orders: string)
    requires src != dst && IsSetOrMissing(Lookup(s, dst))
    requires status != src && status != dst && orders != src && orders != dst
    ensures var t := Exec(SMove(Exec(s, status, Set("1", -1)).0, src, dst, m).0, orders, ZPop).0;
            && MembersOf(t, src) == MembersOf(s, src) - {m} && IsSetOrMissing(Lookup(t, dst))
            && MembersOf(t, dst) == MembersOf(s, dst) + ({m} * MembersOf(s, src))
  {
    var s1 := Exec(s, status, Set("1", -1)).0;
    var s2 := SMove(s1, src, dst, m).0;
    assert MembersOf(s1, src) == MembersOf(s, src) && MembersOf(s1, dst) == MembersOf(s, dst);
    assert Lookup(s1, dst) == Lookup(s, dst) && Lookup(s1, src) == Lookup(s, src);
    if m in MembersOf(s1, src) {
      LookupAfterMove(s1, src, dst, m, src);
      LookupAfterMove(s1, src, dst, m, dst);
    } else {
      assert s2 == s1;
    }
    LookupAfterExec(s2, orders, ZPop, src);
    LookupAfterExec(s2, orders, ZPop, dst);
  }

  lemma SetsAfterSettling(s: Store, m: string)
    requires IsSetOrMissing(Lookup(s, ALREADY))
    ensures var t := SettleOne(s, m);
            var moved := if Due(s, m) then {Rebuilt(m)} else {};
            && MembersOf(t, NEED) == MembersOf(s, NEED) - moved && IsSetOrMissing(Lookup(t, ALREADY))
            && MembersOf(t, ALREADY) == MembersOf(s, ALREADY) + (moved * MembersOf(s, NEED))
  {
    NeedIsNotAlready();
    OrderKeysAreNotSets(m);
    if Due(s, m) { SetsAfterClose(s, StatusKey(m), NEED, ALREADY, Rebuilt(m), OrdersKey(m)); }
  }

  // ---------------------------------------------------------------------------------------------
  // A pass

  /** The texts that the due members of a pass are rebuilt to. */
  function Moved(s: Store, ms: seq<string>): set<string> { set m | m in ms && Due(s, m) :: Rebuilt(m) }

  lemma MovedHead(s: Store, t: Store, ms: seq<string>)
    requires ms != [] && forall m :: m in ms[1..] ==> Due(t, m) == Due(s, m)
    ensures Moved(s, ms) == (if Due(s, ms[0]) then {Rebuilt(ms[0])} else {}) + Moved(t, ms[1..])
  {
    assert forall m :: m in ms <==> m == ms[0] || m in ms[1..];
  }

  lemma {:induction false} SetsAfterAll(s: Store, ms: seq<string>)
    requires IsSetOrMissing(Lookup(s, ALREADY)) && Distinct(ms)
    ensures MembersOf(SettleAll(s, ms), NEED) == MembersOf(s, NEED) - Moved(s, ms)
    ensures MembersOf(SettleAll(s, ms), ALREADY) == MembersOf(s, ALREADY) + (Moved(s, ms) * MembersOf(s, NEED))
    decreases |ms|
  {
    if ms != [] {
      var t, rest := SettleOne(s, ms[0]), ms[1..];
      SetsAfterSettling(s, ms[0]);
      forall m | m in rest ensures Due(t, m) == Due(s, m) {
        var k :| 0 <= k < |rest| && rest[k] == m;
        assert ms[k + 1] == m && ms[0] != ms[k + 1];
        DueIsKept(s, ms[0], m);
      }
      assert forall i, j :: 0 <= i < j < |rest| ==> rest[i] == ms[i + 1] && rest[j] == ms[j + 1];
      SetsAfterAll(t, rest);
      MovedHead(s, t, ms);
      var first := if Due(s, ms[0]) then {Rebuilt(ms[0])} else {};
      SetsAdd(MembersOf(s, NEED), MembersOf(s, ALREADY), first, Moved(t, rest));
    }
  }

  lemma SetsAdd(need: set<string>, already: set<string>, a: set<string>, b: set<string>)
    ensures need - a - b == need - (a + b)
    ensures already + a * need + b * (need - a) == already + (a + b) * need
  {
  }

  /** A pass over any members, in any order: a member leaves the first set exactly when some due member is
      rebuilt to it, and is then in the second; nothing is lost or invented. */
  lemma PassWithAnyMembers(s: Store, ms: seq<string>)
    requires IsSetOrMissing(Lookup(s, ALREADY)) && IsPass(s, ms)
    ensures var t := SettleAll(s, ms);
            && MembersOf(t, NEED) <= MembersOf(s, NEED)
            && (forall m :: m in MembersOf(s, NEED) ==>
                  (m !in MembersOf(t, NEED) <==> exists d :: d in MembersOf(s, NEED) && Due(s, d) && Rebuilt(d) == m))
            && MembersOf(t, ALREADY) == MembersOf(s, ALREADY) + (MembersOf(s, NEED) - MembersOf(t, NEED))
            && MembersOf(t, NEED) + MembersOf(t, ALREADY) == MembersOf(s, NEED) + MembersOf(s, ALREADY)
            && (MembersOf(s, NEED) !! MembersOf(s, ALREADY) ==> MembersOf(t, NEED) !! MembersOf(t, ALREADY))
  {
    SetsAfterAll(s, ms);
  }

  /** A malformed member never leaves by itself: only a four-part text is ever moved. */
  lemma OnlyFourPartTextsMove(s: Store, ms: seq<string>, m: string)
    requires IsSetOrMissing(Lookup(s, ALREADY)) && IsPass(s, ms)
    requires m in MembersOf(s, NEED) && m !in MembersOf(SettleAll(s, ms), NEED)
    ensures FourPart(m)
  {
    PassWithAnyMembers(s, ms);
    var d :| d in MembersOf(s, NEED) && Due(s, d) && Rebuilt(d) == m;
    CutsHaveNoHash(d, d, 4);
    JoinHashes(Split(d));
  }
}
