/** The "URLS" setting of the gateway's configuration: records of five fields, cut at ';' and then at ','. */
module UrlApis {
  import opened CText
  import opened ConfText
  import opened Rows

  datatype Query = Query(param: string, province: int, carrier: string, limit: int)

  type Apis = map<string, Query>

  // ---------------------------------------------------------------------------------------------
  // What a value means

  function Cut(s: string, n: nat): (r: string)
    ensures r <= s && (|r| == n || (|r| < n && r == s))
  {
    if |s| <= n then s else s[..n]
  }

  /** The parameter has room for 128 characters, the carrier for 8. */
  function QueryOf(fields: seq<string>): Query
    requires |fields| >= 5
  {
    Query(Cut(fields[1], 128), Atol(fields[2]), Cut(fields[3], 8), Atol(fields[4]))
  }

  /** The fields of each record. */
  function Records(value: string): seq<seq<string>> { FieldsOf(Tokens(value, ';')) }

  function FieldsOf(records: seq<string>): (r: seq<seq<string>>)
    ensures |r| == |records|
  {
    seq(|records|, i requires 0 <= i < |records| => Tokens(records[i], ','))
  }

  function Flatten(rs: seq<seq<string>>): seq<string> { if rs == [] then [] else rs[0] + Flatten(rs[1..]) }

  /** One entry for every five fields; the program counts fields on from one record to the next. */
  function Fill(apis: Apis, fields: seq<string>): Apis
    decreases |fields|
  {
    if |fields| < 5 then apis else Fill(apis[fields[0] := QueryOf(fields)], fields[5..])
  }

  // ---------------------------------------------------------------------------------------------
  // When the entries are the records

  /** The fields five by five. */
  function Fives(fields: seq<string>): seq<seq<string>> {
    if |fields| < 5 then [] else [fields[..5]] + Fives(fields[5..])
  }

  lemma {:induction false} FivesAreFives(fields: seq<string>)
    ensures forall k :: 0 <= k < |Fives(fields)| ==> |Fives(fields)[k]| == 5
  {
    if |fields| >= 5 { FivesAreFives(fields[5..]); }
  }

  /** The entries are made of the records' fields exactly when every record has five of them. */
  lemma {:induction false} FivesAreRecordsIff(rs: seq<seq<string>>)
    ensures Fives(Flatten(rs)) == rs <==> forall k :: 0 <= k < |rs| ==> |rs[k]| == 5
  {
    if forall k :: 0 <= k < |rs| ==> |rs[k]| == 5 {
      if rs != [] {
        var rest := Flatten(rs[1..]);
        FivesAreRecordsIff(rs[1..]);
        assert (rs[0] + rest)[..5] == rs[0] && (rs[0] + rest)[5..] == rest;
      }
    } else {
      FivesAreFives(Flatten(rs));
    }
  }

  /** One entry for each record, later records of a name replacing earlier ones. */
  function FillRecords(apis: Apis, rs: seq<seq<string>>): Apis
    requires forall k :: 0 <= k < |rs| ==> |rs[k]| == 5
    decreases |rs|
  {
    if rs == [] then apis else FillRecords(apis[rs[0][0] := QueryOf(rs[0])], rs[1..])
  }

  lemma {:induction false} FillIsByFives(apis: Apis, fields: seq<string>)
    ensures (forall k :: 0 <= k < |Fives(fields)| ==> |Fives(fields)[k]| == 5)
            && Fill(apis, fields) == FillRecords(apis, Fives(fields))
    decreases |fields|
  {
    FivesAreFives(fields);
    if |fields| >= 5 {
      assert QueryOf(fields) == QueryOf(fields[..5]) && fields[..5][0] == fields[0];
      FillIsByFives(apis[fields[0] := QueryOf(fields)], fields[5..]);
      assert Fives(fields)[1..] == Fives(fields[5..]);
    }
  }

  /** With five fields in every record, each record is one entry. */
  lemma EntriesAreRecords(apis: Apis, rs: seq<seq<string>>)
    requires forall k :: 0 <= k < |rs| ==> |rs[k]| == 5
    ensures Fill(apis, Flatten(rs)) == FillRecords(apis, rs)
  {
    FivesAreRecordsIff(rs);
    FillIsByFives(apis, Flatten(rs));
  }

  /** A record that is one field short takes that field from the next record, whose own fields all move up. */
  lemma ShortRecordShifts(a: string, b: string, c: string, d: string, rest: seq<string>)
    requires |rest| == 5
    ensures Fill(map[], Flatten([[a, b, c, d], rest])) ==
            map[a := Query(Cut(b, 128), Atol(c), Cut(d, 8), Atol(rest[0]))]
  {
    var rs := [[a, b, c, d], rest];
    assert Flatten(rs[1..]) == rest + Flatten([]) by { assert rs[1..] == [rest]; }
    assert Flatten(rs) == [a, b, c, d] + rest;
    assert Flatten(rs)[..5] == [a, b, c, d, rest[0]];
  }

  // ---------------------------------------------------------------------------------------------
  // There and back

  datatype Api = Api(name: string, query: Query)

  function Show(a: Api): string {
    var q := a.query;
    a.name + [','] + (q.param + [','] + (Print(q.province) + [','] + (q.carrier + [','] + Print(q.limit))))
  }

  function ShowAll(list: seq<Api>): string { if list == [] then "" else Show(list[0]) + [';'] + ShowAll(list[1..]) }

  predicate IsPart(s: string) { s != "" && ',' !in s && ';' !in s }

  predicate Showable(a: Api) {
    && IsPart(a.name) && IsPart(a.query.param) && IsPart(a.query.carrier)
    && |a.query.param| <= 128 && |a.query.carrier| <= 8 && IsInt32(a.query.province) && IsInt32(a.query.limit)
  }

  lemma PrintIsPart(n: int)
    ensures IsPart(Print(n))
  {
    assert !IsDigit(',') && !IsDigit(';');
  }

  function Parts(a: Api): seq<string> {
    [a.name, a.query.param, Print(a.query.province), a.query.carrier, Print(a.query.limit)]
  }

  lemma {:induction false} OneMorePart(part: string, rest: string)
    requires IsPart(part) && ';' !in rest
    ensures Tokens(part + [','] + rest, ',') == [part] + Tokens(rest, ',') && ';' !in part + [','] + rest
  {
    TokensField(part, rest, ',');
  }

  lemma {:induction false} FiveParts(a: string, b: string, c: string, d: string, e: string)
    requires IsPart(a) && IsPart(b) && IsPart(c) && IsPart(d) && IsPart(e)
    ensures var s := a + [','] + (b + [','] + (c + [','] + (d + [','] + e)));
            Tokens(s, ',') == [a] + ([b] + ([c] + ([d] + [e]))) && ';' !in s && s != ""
  {
    TokensLast(e, ',');
    OneMorePart(d, e);
    OneMorePart(c, d + [','] + e);
    OneMorePart(b, c + [','] + (d + [','] + e));
    OneMorePart(a, b + [','] + (c + [','] + (d + [','] + e)));
  }

  lemma {:induction false} ShowTokens(a: Api)
    requires Showable(a)
    ensures Tokens(Show(a), ',') == Parts(a) && ';' !in Show(a) && Show(a) != ""
  {
    PrintIsPart(a.query.province);
    PrintIsPart(a.query.limit);
    FiveParts(a.name, a.query.param, Print(a.query.province), a.query.carrier, Print(a.query.limit));
  }

  lemma {:induction false} PartsQuery(a: Api)
    requires Showable(a)
    ensures QueryOf(Parts(a)) == a.query
  {
    AtolOfPrint(a.query.province);
    AtolOfPrint(a.query.limit);
  }

  /** A later entry of a name replaces an earlier one. */
  function Insert(apis: Apis, list: seq<Api>): Apis
    decreases |list|
  {
    if list == [] then apis else Insert(apis[list[0].name := list[0].query], list[1..])
  }

  function AllParts(list: seq<Api>): seq<seq<string>> {
    if list == [] then [] else [Parts(list[0])] + AllParts(list[1..])
  }

  lemma {:induction false} FirstRecord(record: string, rest: string)
    requires record != "" && ';' !in record
    ensures Records(record + [';'] + rest) == [Tokens(record, ',')] + Records(rest)
  {
    TokensField(record, rest, ';');
    FieldsOfMore(record, Tokens(rest, ';'));
  }

  lemma {:induction false} FieldsOfMore(record: string, records: seq<string>)
    ensures FieldsOf([record] + records) == [Tokens(record, ',')] + FieldsOf(records)
  {
  }

  lemma {:induction false} RecordsOfShow(list: seq<Api>)
    requires forall k :: 0 <= k < |list| ==> Showable(list[k])
    ensures Records(ShowAll(list)) == AllParts(list)
  {
    if list != [] {
      ShowTokens(list[0]);
      RecordsOfShow(list[1..]);
      FirstRecord(Show(list[0]), ShowAll(list[1..]));
    }
  }

  lemma {:induction false} FillParts(apis: Apis, list: seq<Api>)
    requires forall k :: 0 <= k < |list| ==> Showable(list[k])
    ensures Fill(apis, Flatten(AllParts(list))) == Insert(apis, list)
    decreases |list|
  {
    if list != [] {
      var fields := Parts(list[0]) + Flatten(AllParts(list[1..]));
      assert fields[5..] == Flatten(AllParts(list[1..])) && QueryOf(fields) == QueryOf(Parts(list[0]));
      PartsQuery(list[0]);
      FillParts(apis[list[0].name := list[0].query], list[1..]);
    }
  }

  /** A printed list of entries is read back exactly. */
  lemma {:induction false} UrlsRoundTrip(apis: Apis, list: seq<Api>)
    requires forall k :: 0 <= k < |list| ==> Showable(list[k])
    ensures Fill(apis, Flatten(Records(ShowAll(list)))) == Insert(apis, list)
  {
    RecordsOfShow(list);
    FillParts(apis, list);
  }

  // ---------------------------------------------------------------------------------------------
  // The nested loops

  function LastFour(fields: seq<string>): seq<string>
    requires |fields| >= 4
  {
    fields[|fields| - 4..]
  }

  lemma FiveFewer(n: nat)
    requires n >= 5
    ensures (n - 5) % 5 == n % 5 && (n % 5 == 4 ==> n >= 9)
  {
  }

  lemma {:induction false} FillMore(apis: Apis, done: seq<string>, next: string)
    ensures Fill(apis, done + [next]) ==
            if |done| % 5 == 4 then Fill(apis, done)[LastFour(done)[0] := QueryOf(LastFour(done) + [next])]
            else Fill(apis, done)
    decreases |done|
  {
    if |done| >= 5 {
      var rest := done[5..];
      assert (done + [next])[5..] == rest + [next] && QueryOf(done + [next]) == QueryOf(done);
      FillMore(apis[done[0] := QueryOf(done)], rest, next);
      FiveFewer(|done|);
      if |done| % 5 == 4 { assert LastFour(rest) == LastFour(done); }
    } else if |done| == 4 {
      assert LastFour(done) == done;
    }
  }

  lemma {:induction false} FlattenSoFar(rs: seq<seq<string>>, i: nat)
    requires i < |rs|
    ensures Flatten(rs[..i + 1]) == Flatten(rs[..i]) + rs[i]
  {
    if i == 0 {
      assert rs[..1] == [rs[0]] && [rs[0]][1..] == [];
    } else {
      assert rs[..i + 1][1..] == rs[1..][..i] && rs[..i][1..] == rs[1..][..i - 1];
      FlattenSoFar(rs[1..], i - 1);
    }
  }

  /** One field: it is added to those met so far, and every fifth makes an entry. */
  method AddField(field: string, fields: seq<string>, apis: Apis, ghost start: Apis)
    returns (fields': seq<string>, apis': Apis)
    requires apis == Fill(start, fields)
    ensures fields' == fields + [field] && apis' == Fill(start, fields')
  {
    FillMore(start, fields, field);
    var index := |fields|;
    fields', apis' := fields + [field], apis;
    if index % 5 == 4 {
      apis' := apis[LastFour(fields)[0] := QueryOf(LastFour(fields) + [field])];
    }
  }

  /** One record. */
  method AddRecord(record: string, fields: seq<string>, apis: Apis, ghost start: Apis)
    returns (fields': seq<string>, apis': Apis)
    requires NUL !in record && apis == Fill(start, fields)
    ensures fields' == fields + Tokens(record, ',') && apis' == Fill(start, fields')
  {
    fields', apis' := fields, apis;
    var tokens := CutString(record, ',');
    for k := 0 to |tokens|
      invariant fields' == fields + tokens[..k] && apis' == Fill(start, fields')
    {
      fields', apis' := AddField(tokens[k], fields', apis', start);
      assert tokens[..k + 1] == tokens[..k] + [tokens[k]];
    }
    assert tokens[..|tokens|] == tokens;
  }

  /** The first "URLS" line of a section. */
  method ReadUrls(value: string, start: Apis) returns (apis: Apis)
    requires NUL !in value
    ensures apis == Fill(start, Flatten(Records(value)))
  {
    var records := CutString(value, ';');
    ghost var rs := Records(value);
    apis := start;
    var fields: seq<string> := [];
    for i := 0 to |records|
      invariant fields == Flatten(rs[..i]) && apis == Fill(start, fields)
    {
      TokensAreParts(value, ';', i);
      FlattenSoFar(rs, i);
      fields, apis := AddRecord(records[i], fields, apis, start);
    }
    assert rs[..|records|] == rs;
  }
}
