/** The in-memory copies of the user and gateway tables, and how a refresh keeps them in step. */
module Cache {
  import opened Options
  import opened Rows

  /** A user's permissions. */
  datatype User = User(token: string, queryTimes: int, fields: seq<string>, goodsTimes: int, goodsFields: string)

  // ---------------------------------------------------------------------------------------------
  // Comparing maps by size and one-way inclusion

  /** The five comparisons of two users. */
  predicate SameUser(a: User, b: User) {
    && a.token == b.token && a.queryTimes == b.queryTimes && a.fields == b.fields
    && a.goodsFields == b.goodsFields && a.goodsTimes == b.goodsTimes
  }

  /** The nine comparisons of two gateway entries; the request parameters are not among them. */
  predicate SameNine(a: Api, b: Api) {
    && a.host == b.host && a.path == b.path && a.cname == b.cname && a.key == b.key && a.isHttps == b.isHttps
    && a.isVerify == b.isVerify && a.limit == b.limit && a.reqType == b.reqType && a.template == b.template
  }

  ghost predicate Alike<V>(same: (V, V) -> bool, src: map<string, V>, dest: map<string, V>) {
    src.Keys == dest.Keys && forall k :: k in src ==> same(src[k], dest[k])
  }

  lemma {:induction false} SubsetOfSameSize(a: set<string>, b: set<string>)
    requires a <= b && |a| == |b|
    ensures a == b
  {
    if b != {} {
      if a == {} {
        assert false;
      }
      var x :| x in a;
      SubsetOfSameSize(a - {x}, b - {x});
    }
  }

  lemma SameSize<V>(src: map<string, V>, dest: map<string, V>)
    requires src.Keys == dest.Keys
    ensures |src| == |dest|
  {
  }

  /** Looks up every entry of one map in the other: together with equal sizes that is enough. */
  method IsEqual<V(!new)>(same: (V, V) -> bool, src: map<string, V>, dest: map<string, V>) returns (equal: bool)
    ensures equal <==> Alike(same, src, dest)
  {
    if src.Keys == dest.Keys { SameSize(src, dest); }
    if |src| != |dest| { return false; }
    var todo := src.Keys;
    while todo != {}
      invariant todo <= src.Keys
      invariant forall k :: k in src && k !in todo ==> k in dest && same(src[k], dest[k])
      decreases todo
    {
      var k :| k in todo;
      if k !in dest || !same(src[k], dest[k]) { return false; }
      todo := todo - {k};
    }
    assert |src| == |src.Keys| && |dest| == |dest.Keys|;
    SubsetOfSameSize(src.Keys, dest.Keys);
    equal := true;
  }

  /** `MapIsEqual`: the five fields are all a user has, so this is equality. */
  method MapIsEqual(src: map<string, User>, dest: map<string, User>) returns (equal: bool)
    ensures equal <==> src == dest
  {
    equal := IsEqual(SameUser, src, dest);
  }

  /** `MapGateWayConfigIsEqual`. */
  method MapGateWayConfigIsEqual(src: map<string, Api>, dest: map<string, Api>) returns (equal: bool)
    ensures equal <==> Alike(SameNine, src, dest)
    ensures equal <==> src.Keys == dest.Keys && forall k :: k in src ==> src[k].(params := dest[k].params) == dest[k]
  {
    equal := IsEqual(SameNine, src, dest);
  }

  // ---------------------------------------------------------------------------------------------
  // A snapshot of the table

  type RowParser = seq<Column> -> Option<Named>

  function RowParse(): RowParser { row => Parse(Record(row)) }

  /** What each row stands for, if they all can be parsed. */
  function ParseRows(parse: RowParser, rows: seq<seq<Column>>): Option<seq<Named>> {
    if rows == [] then Some([])
    else
      var n := |rows| - 1;
      var front, last := ParseRows(parse, rows[..n]), parse(rows[n]);
      if front.Some? && last.Some? then Some(front.value + [last.value]) else None
  }

  function ParseAll(rows: seq<seq<Column>>): Option<seq<Named>> { ParseRows(RowParse(), rows) }

  /** A table can be read exactly when every row can. */
  lemma {:induction false} RowsParseIff(parse: RowParser, rows: seq<seq<Column>>)
    ensures ParseRows(parse, rows).Some? <==> forall k :: 0 <= k < |rows| ==> parse(rows[k]).Some?
    ensures ParseRows(parse, rows).Some? ==>
              && |ParseRows(parse, rows).value| == |rows|
              && forall k :: 0 <= k < |rows| ==> parse(rows[k]) == Some(ParseRows(parse, rows).value[k])
  {
    if rows != [] {
      var n := |rows| - 1;
      RowsParseIff(parse, rows[..n]);
      assert forall k :: 0 <= k < n ==> rows[..n][k] == rows[k];
    }
  }

  /** Entries are inserted in order, and an entry whose name is taken is dropped. */
  function Collect(entries: seq<Named>): map<string, Api> {
    if entries == [] then map[]
    else
      var last := entries[|entries| - 1];
      var m := Collect(entries[..|entries| - 1]);
      if last.name in m then m else m[last.name := last.api]
  }

  /** Entry `i` is the first of its name. */
  predicate IsFirst(entries: seq<Named>, i: nat, name: string)
    requires i < |entries|
  {
    entries[i].name == name && forall j :: 0 <= j < i ==> entries[j].name != name
  }

  /** A snapshot holds, for each name, the first entry of that name and nothing else. */
  lemma {:induction false} FirstEntryWins(entries: seq<Named>, name: string)
    ensures name in Collect(entries) <==> exists i :: 0 <= i < |entries| && entries[i].name == name
    ensures forall i :: 0 <= i < |entries| && IsFirst(entries, i, name) ==> Collect(entries)[name] == entries[i].api
    decreases |entries|
  {
    if entries != [] {
      var n := |entries| - 1;
      var front := entries[..n];
      FirstEntryWins(front, name);
      assert forall i :: 0 <= i < n ==> front[i] == entries[i];
      if i :| 0 <= i < n && front[i].name == name { assert entries[i].name == name; }
    }
  }

  // ---------------------------------------------------------------------------------------------
  // Refreshing

  /** The cache after a refresh that found `snapshot` in the table. */
  ghost function Refreshed(cache: map<string, Api>, snapshot: map<string, Api>): map<string, Api> {
    if Alike(SameNine, snapshot, cache) then cache else snapshot
  }

  ghost function AfterAll(cache: map<string, Api>, snapshots: seq<map<string, Api>>): map<string, Api> {
    if snapshots == [] then cache
    else Refreshed(AfterAll(cache, snapshots[..|snapshots| - 1]), snapshots[|snapshots| - 1])
  }

  lemma RefreshedIsAlike(cache: map<string, Api>, snapshot: map<string, Api>)
    ensures Alike(SameNine, snapshot, Refreshed(cache, snapshot))
  {
  }

  /** The two maps have the same names and differ in the request parameters of some of them, but in nothing
      else. */
  ghost predicate OnlyParamsDiffer(cache: map<string, Api>, snapshot: map<string, Api>) {
    && Alike(SameNine, snapshot, cache)
    && exists name :: name in snapshot && snapshot[name].params != cache[name].params
  }

  lemma AlikeWithSameParams(a: map<string, Api>, b: map<string, Api>)
    requires Alike(SameNine, a, b) && forall name :: name in a ==> a[name].params == b[name].params
    ensures a == b
  {
    forall name | name in a ensures a[name] == b[name] { assert SameNine(a[name], b[name]); }
  }

  /** A refresh leaves the snapshot itself exactly unless only request parameters differ. */
  lemma UpToDateIff(cache: map<string, Api>, snapshot: map<string, Api>)
    ensures Refreshed(cache, snapshot) == snapshot <==> !OnlyParamsDiffer(cache, snapshot)
  {
    if Alike(SameNine, snapshot, cache) && !OnlyParamsDiffer(cache, snapshot) { AlikeWithSameParams(snapshot, cache); }
  }

  /** Such a difference goes unnoticed. */
  lemma StaleParameters(name: string, api: Api)
    requires api.params != []
    ensures var cache, snapshot := map[name := api.(params := [])], map[name := api];
            Refreshed(cache, snapshot) == cache && cache != snapshot
  {
    var cache, snapshot := map[name := api.(params := [])], map[name := api];
    assert cache[name] != snapshot[name];
  }

  lemma {:induction false} CacheStays(cache: map<string, Api>, snapshots: seq<map<string, Api>>)
    requires forall j :: 0 <= j < |snapshots| ==> Alike(SameNine, snapshots[j], cache)
    ensures AfterAll(cache, snapshots) == cache
  {
    if snapshots != [] { CacheStays(cache, snapshots[..|snapshots| - 1]); }
  }

  /** The snapshots from `i` on are all alike, and the one before them is not. */
  ghost predicate Stretch(cache: map<string, Api>, snapshots: seq<map<string, Api>>, i: nat)
    requires i < |snapshots|
  {
    && (forall j :: i <= j < |snapshots| ==> Alike(SameNine, snapshots[j], snapshots[i]))
    && !Alike(SameNine, snapshots[i], if i == 0 then cache else snapshots[i - 1])
  }

  /** Over any run of refreshes the cache agrees with the last snapshot in names and the nine compared
      fields, and is exactly the first snapshot of the last stretch of alike ones. */
  lemma {:induction false} CacheFollowsTable(cache: map<string, Api>, snapshots: seq<map<string, Api>>)
    ensures snapshots != [] ==> Alike(SameNine, snapshots[|snapshots| - 1], AfterAll(cache, snapshots))
    ensures forall i :: 0 <= i < |snapshots| && Stretch(cache, snapshots, i) ==>
            AfterAll(cache, snapshots) == snapshots[i]
    decreases |snapshots|
  {
    if snapshots != [] {
      var n := |snapshots| - 1;
      var front := snapshots[..n];
      CacheFollowsTable(cache, front);
      RefreshedIsAlike(AfterAll(cache, front), snapshots[n]);
      forall i | 0 <= i < |snapshots| && Stretch(cache, snapshots, i)
        ensures AfterAll(cache, snapshots) == snapshots[i]
      {
        if i < n {
          StretchStays(cache, snapshots, i);
        } else {
          StretchStarts(cache, snapshots);
        }
      }
    }
  }

  lemma AlikeChains(a: map<string, Api>, b: map<string, Api>, c: map<string, Api>)
    requires Alike(SameNine, a, b) && Alike(SameNine, b, c)
    ensures Alike(SameNine, a, c)
  {
    forall k | k in a ensures SameNine(a[k], c[k]) { assert SameNine(a[k], b[k]) && SameNine(b[k], c[k]); }
  }

  /** Every run has a last stretch, or never leaves the cache it started with. */
  lemma {:induction false} LastStretchExists(cache: map<string, Api>, snapshots: seq<map<string, Api>>)
    requires snapshots != []
    ensures (exists i | 0 <= i < |snapshots| :: Stretch(cache, snapshots, i))
            || forall j :: 0 <= j < |snapshots| ==> Alike(SameNine, snapshots[j], cache)
    decreases |snapshots|
  {
    var n := |snapshots| - 1;
    var front := snapshots[..n];
    assert forall j :: 0 <= j < n ==> front[j] == snapshots[j];
    var before := if n == 0 then cache else snapshots[n - 1];
    if !Alike(SameNine, snapshots[n], before) {
      assert Stretch(cache, snapshots, n);
    } else if n > 0 {
      LastStretchExists(cache, front);
      if i :| 0 <= i < |front| && Stretch(cache, front, i) {
        AlikeChains(snapshots[n], snapshots[n - 1], snapshots[i]);
        assert Stretch(cache, snapshots, i);
      } else {
        AlikeChains(snapshots[n], snapshots[n - 1], cache);
      }
    }
  }

  /** Over any run the cache is one of its snapshots, or what it was; it agrees with the last snapshot in all
      but request parameters, and is that snapshot exactly when those agree too. */
  lemma CacheAfterAnyRun(cache: map<string, Api>, snapshots: seq<map<string, Api>>)
    requires snapshots != []
    ensures var after, last := AfterAll(cache, snapshots), snapshots[|snapshots| - 1];
            && Alike(SameNine, last, after)
            && (after == cache
                || exists i | 0 <= i < |snapshots| :: Stretch(cache, snapshots, i) && after == snapshots[i])
            && (after == last <==> forall name :: name in last ==> last[name].params == after[name].params)
  {
    CacheFollowsTable(cache, snapshots);
    LastStretchExists(cache, snapshots);
    if forall j :: 0 <= j < |snapshots| ==> Alike(SameNine, snapshots[j], cache) { CacheStays(cache, snapshots); }
    var after, last := AfterAll(cache, snapshots), snapshots[|snapshots| - 1];
    if forall name :: name in last ==> last[name].params == after[name].params { AlikeWithSameParams(last, after); }
  }

  /** After any run the cache is the last snapshot exactly when no request parameter has changed since the
      first snapshot of the last stretch. */
  lemma CacheIsCurrentIff(cache: map<string, Api>, snapshots: seq<map<string, Api>>, i: nat)
    requires i < |snapshots| && Stretch(cache, snapshots, i)
    ensures var first, last := snapshots[i], snapshots[|snapshots| - 1];
            AfterAll(cache, snapshots) == last <==>
            last.Keys == first.Keys && forall name :: name in last ==> last[name].params == first[name].params
  {
    CacheFollowsTable(cache, snapshots);
    var first, last := snapshots[i], snapshots[|snapshots| - 1];
    assert Alike(SameNine, last, first);
    if forall name :: name in last ==> last[name].params == first[name].params { AlikeWithSameParams(last, first); }
  }

  lemma StretchStays(cache: map<string, Api>, snapshots: seq<map<string, Api>>, i: nat)
    requires i < |snapshots| - 1 && Stretch(cache, snapshots, i)
    requires var front := snapshots[..|snapshots| - 1];
             Stretch(cache, front, i) ==> AfterAll(cache, front) == front[i]
    ensures AfterAll(cache, snapshots) == snapshots[i]
  {
    var n := |snapshots| - 1;
    var front := snapshots[..n];
    assert forall j :: 0 <= j < n ==> front[j] == snapshots[j];
    assert Stretch(cache, front, i);
    assert Alike(SameNine, snapshots[n], snapshots[i]);
  }

  lemma StretchStarts(cache: map<string, Api>, snapshots: seq<map<string, Api>>)
    requires snapshots != [] && Stretch(cache, snapshots, |snapshots| - 1)
    requires var front := snapshots[..|snapshots| - 1];
             front != [] ==> Alike(SameNine, front[|front| - 1], AfterAll(cache, front))
    ensures AfterAll(cache, snapshots) == snapshots[|snapshots| - 1]
  {
  }

  // ---------------------------------------------------------------------------------------------
  // From the entries of a table to the cache

  /** The rows a table holds for given entries. */
  predicate IsTable(rows: seq<seq<Column>>, entries: seq<Named>) {
    |rows| == |entries| && forall k :: 0 <= k < |rows| ==> Storable(entries[k]) && rows[k] == RowOf(entries[k])
  }

  lemma {:induction false} TableParses(rows: seq<seq<Column>>, entries: seq<Named>)
    requires IsTable(rows, entries)
    ensures ParseAll(rows) == Some(entries)
  {
    forall k | 0 <= k < |rows| ensures RowParse()(rows[k]) == Some(entries[k]) { RowRoundTrip(entries[k]); }
    EachParses(RowParse(), rows, entries);
  }

  lemma EachParses(parse: RowParser, rows: seq<seq<Column>>, entries: seq<Named>)
    requires |rows| == |entries| && forall k :: 0 <= k < |rows| ==> parse(rows[k]) == Some(entries[k])
    ensures ParseRows(parse, rows) == Some(entries)
  {
    RowsParseIff(parse, rows);
    var found := ParseRows(parse, rows).value;
    forall k | 0 <= k < |rows| ensures found[k] == entries[k] { assert parse(rows[k]) == Some(entries[k]); }
    assert found == entries;
  }

  predicate DistinctNames(entries: seq<Named>) {
    forall j, k :: 0 <= j < k < |entries| ==> entries[j].name != entries[k].name
  }

  ghost predicate Holds(m: map<string, Api>, entries: seq<Named>) {
    && (forall name :: name in m <==> exists k :: 0 <= k < |entries| && entries[k].name == name)
    && (forall k :: 0 <= k < |entries| ==> m[entries[k].name] == entries[k].api)
  }

  lemma CollectHolds(entries: seq<Named>)
    requires DistinctNames(entries)
    ensures Holds(Collect(entries), entries)
  {
    forall name ensures name in Collect(entries) <==> exists k :: 0 <= k < |entries| && entries[k].name == name {
      FirstEntryWins(entries, name);
    }
    forall k | 0 <= k < |entries| ensures Collect(entries)[entries[k].name] == entries[k].api {
      FirstEntryWins(entries, entries[k].name);
    }
  }

  /** A table of storable entries with distinct names, read in one refresh: the cache has exactly their names
      and agrees in the nine compared fields, and it holds exactly these entries unless only request
      parameters had changed, and then it does not. */
  lemma TableReachesCache(cache: map<string, Api>, rows: seq<seq<Column>>, entries: seq<Named>)
    requires IsTable(rows, entries) && DistinctNames(entries)
    ensures ParseAll(rows) == Some(entries)
    ensures var after := Refreshed(cache, Collect(entries));
            && after.Keys == Collect(entries).Keys
            && (forall k :: 0 <= k < |entries| ==>
                  entries[k].name in after && SameNine(entries[k].api, after[entries[k].name]))
            && (Holds(after, entries) <==> !OnlyParamsDiffer(cache, Collect(entries)))
  {
    TableParses(rows, entries);
    CollectHolds(entries);
    RefreshedIsAlike(cache, Collect(entries));
    UpToDateIff(cache, Collect(entries));
    if Holds(Refreshed(cache, Collect(entries)), entries) {
      OneHolder(Collect(entries), Refreshed(cache, Collect(entries)), entries);
    }
  }

  lemma OneHolder(a: map<string, Api>, b: map<string, Api>, entries: seq<Named>)
    requires Holds(a, entries) && Holds(b, entries)
    ensures a == b
  {
  }

  class Gateway {
    var cache: map<string, Api>

    /** `SwapApiGateWayMap`: empties the cache and copies the snapshot into it, field by field. */
    method Swap(src: map<string, Api>)
      modifies this
      ensures cache == src
    {
      cache := map[];
      var todo := src.Keys;
      while todo != {}
        invariant todo <= src.Keys && cache.Keys == src.Keys - todo
        invariant forall k :: k in cache ==> cache[k] == src[k]
        decreases todo
      {
        var k :| k in todo;
        var s := src[k];
        var api := Api(s.host, s.path, s.cname, s.params, s.key, s.isHttps, s.isVerify, s.limit, s.reqType, s.template);
        cache := cache[k := api];
        todo := todo - {k};
      }
    }

    /** One refresh from the rows of the table; `undefined` when a row has too few fields. */
    method Refresh(rows: seq<seq<Column>>) returns (defined: bool)
      requires forall i :: 0 <= i < |rows| ==> IsText(Record(rows[i]))
      modifies this
      ensures defined <==> ParseAll(rows).Some?
      ensures cache == if defined then Refreshed(old(cache), Collect(ParseAll(rows).value)) else old(cache)
    {
      var snapshot;
      defined, snapshot := ReadTable(rows);
      if defined {
        var equal := MapGateWayConfigIsEqual(snapshot, cache);
        if !equal { Swap(snapshot); }
      }
    }
  }

  predicate IsText(s: string) { '\0' !in s }

  /** Prints and parses every row, and inserts what it finds. */
  method ReadTable(rows: seq<seq<Column>>) returns (defined: bool, snapshot: map<string, Api>)
    requires forall i :: 0 <= i < |rows| ==> IsText(Record(rows[i]))
    ensures defined <==> ParseAll(rows).Some?
    ensures defined ==> snapshot == Collect(ParseAll(rows).value)
  {
    snapshot := map[];
    ghost var entries := [];
    for i := 0 to |rows|
      invariant ParseAll(rows[..i]) == Some(entries) && snapshot == Collect(entries)
    {
      var record := PrintRow(rows[i]);
      var parsed := ParseRecord(record);
      if parsed.None? {
        RowsParseIff(RowParse(), rows);
        return false, snapshot;
      }
      assert rows[..i + 1][..i] == rows[..i];
      CollectOne(entries, parsed.value);
      var Named(name, api) := parsed.value;
      if name !in snapshot { snapshot := snapshot[name := api]; }
      entries := entries + [parsed.value];
    }
    assert rows[..|rows|] == rows;
    defined := true;
  }

  lemma CollectOne(entries: seq<Named>, e: Named)
    ensures var m := Collect(entries); Collect(entries + [e]) == if e.name in m then m else m[e.name := e.api]
  {
  }

  // ---------------------------------------------------------------------------------------------
  // The user table, compared in full

  class Users {
    var cache: map<string, User>

    /** `SwapMap`. */
    method Swap(src: map<string, User>)
      modifies this
      ensures cache == src
    {
      cache := map[];
      var todo := src.Keys;
      while todo != {}
        invariant todo <= src.Keys && cache.Keys == src.Keys - todo
        invariant forall k :: k in cache ==> cache[k] == src[k]
        decreases todo
      {
        var k :| k in todo;
        var s := src[k];
        cache := cache[k := User(s.token, s.queryTimes, s.fields, s.goodsTimes, s.goodsFields)];
        todo := todo - {k};
      }
    }
  }
}
