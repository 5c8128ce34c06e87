/** Gateway settings on their way from a database row through a printed record into memory. */
module Rows {
  import opened CText
  import opened Options
  import opened ConfText
  import opened StrTok

  // ---------------------------------------------------------------------------------------------
  // Printing a row

  /** A column is a C string or NULL. */
  type Column = Option<string>

  function Shown(c: Column): string { if c.None? then "NULL" else c.value }

  /** Every column, each followed by ';'. */
  function Record(row: seq<Column>): string {
    if row == [] then "" else Shown(row[0]) + [';'] + Record(row[1..])
  }

  lemma {:induction false} RecordAppend(a: seq<Column>, b: seq<Column>)
    ensures Record(a + b) == Record(a) + Record(b)
  {
    if a == [] {
      assert a + b == b;
    } else {
      assert (a + b)[1..] == a[1..] + b;
      RecordAppend(a[1..], b);
    }
  }

  /** `GetColumnValue`. */
  method PrintRow(row: seq<Column>) returns (record: string)
    ensures record == Record(row)
  {
    record := "";
    var i := 0;
    while i < |row|
      invariant 0 <= i <= |row| && record == Record(row[..i])
    {
      RecordAppend(row[..i], [row[i]]);
      assert row[..i + 1] == row[..i] + [row[i]];
      record := record + if row[i].Some? then row[i].value else "NULL";
      record := record + ";";
      i := i + 1;
    }
    assert row[..i] == row;
  }

  /** What is left of a row when it is cut at ';' again. */
  function NonEmpty(row: seq<Column>): seq<string> {
    if row == [] then [] else (if Shown(row[0]) == "" then [] else [Shown(row[0])]) + NonEmpty(row[1..])
  }

  predicate Clean(row: seq<Column>) { forall k :: 0 <= k < |row| ==> ';' !in Shown(row[k]) }

  /** Cutting a printed row gives its non-empty columns in order. */
  lemma {:induction false} TokensOfRecord(row: seq<Column>)
    requires Clean(row)
    ensures Tokens(Record(row), ';') == NonEmpty(row)
  {
    if row != [] {
      TokensOfRecord(row[1..]);
      TokensField(Shown(row[0]), Record(row[1..]), ';');
    }
  }

  lemma {:induction false} NonEmptyAll(row: seq<Column>)
    ensures |NonEmpty(row)| <= |row|
    ensures |NonEmpty(row)| == |row| <==> forall k :: 0 <= k < |row| ==> Shown(row[k]) != ""
    ensures |NonEmpty(row)| == |row| ==> forall k :: 0 <= k < |row| ==> NonEmpty(row)[k] == Shown(row[k])
  {
    if row != [] {
      var rest := row[1..];
      NonEmptyAll(rest);
      assert forall k :: 0 <= k < |rest| ==> rest[k] == row[k + 1];
      assert forall k :: 0 < k < |row| ==> row[k] == rest[k - 1];
    }
  }

  // ---------------------------------------------------------------------------------------------
  // Parsing a record

  datatype Api = Api(
    host: string, path: string, cname: string, params: seq<string>, key: string,
    isHttps: int, isVerify: int, limit: int, reqType: int, template: string)

  datatype Named = Named(name: string, api: Api)

  /** The settings that eleven tokens stand for; with fewer the program reads a missing string. */
  function FromTokens(t: seq<string>): Option<Named> {
    if |t| < 11 then None
    else Some(Named(t[0], Api(t[3], t[2], t[1], Tokens(t[4], '|'), t[5], Atoi(t[7]), Atoi(t[6]),
                              Int32(Atol(t[8])), Atoi(t[9]), t[10])))
  }

  function Parse(record: string): Option<Named> { FromTokens(Tokens(record, ';')) }

  /** A copy of a string in a buffer of its own. */
  method Buffer(s: string) returns (a: array<char>)
    requires NUL !in s
    ensures fresh(a) && Holds(a, 0, s)
  {
    a := new char[|s| + 1];
    for i := 0 to |s|
      invariant forall k :: 0 <= k < i ==> a[k] == s[k]
    {
      a[i] := s[i];
    }
    a[|s|] := NUL;
    assert forall k :: 0 <= k < |s| ==> s[k] in s;
  }

  /** The tokens of a string, read out of its buffer. */
  method CutString(s: string, d: char) returns (tokens: seq<string>)
    requires NUL !in s && d != NUL
    ensures tokens == Tokens(s, d)
  {
    var buf := Buffer(s);
    var starts := Cut(buf, d, s);
    tokens := [];
    for i := 0 to |starts|
      invariant tokens == Tokens(s, d)[..i]
      modifies {}
    {
      var token := ReadText(buf, starts[i], Tokens(s, d)[i]);
      tokens := tokens + [token];
    }
  }

  /** `GetMysqlFieldsApiGateWayConfig`. */
  method ParseRecord(record: string) returns (parsed: Option<Named>)
    requires NUL !in record
    ensures parsed == Parse(record)
  {
    var t := CutString(record, ';');
    if |t| < 11 { return None; }
    TokensAreParts(record, ';', 4);
    var params := CutString(t[4], '|');
    var https, verify, limit, kind := Atoi(t[7]), Atoi(t[6]), Int32(Atol(t[8])), Atoi(t[9]);
    parsed := Some(Named(t[0], Api(t[3], t[2], t[1], params, t[5], https, verify, limit, kind, t[10])));
  }

  lemma {:induction false} TokensAreParts(s: string, d: char, j: nat)
    requires j < |Tokens(s, d)|
    ensures forall c :: c in Tokens(s, d)[j] ==> c in s
    decreases |s|
  {
    if s[0] == d {
      TokensAreParts(s[1..], d, j);
    } else if j > 0 {
      var n := IndexOf(s, d);
      TokensAreParts(s[n..], d, j - 1);
    }
  }

  /** A row of eleven clean columns can be parsed exactly when none of them is empty.  Its columns are then the
      name, the alias, the path, the host, the parameters, the key, whether to verify, whether it is HTTPS,
      the limit, the type of request and the template; a column that is NULL reads "NULL". */
  lemma ParsesIff(row: seq<Column>)
    requires |row| == 11 && Clean(row)
    ensures Parse(Record(row)).Some? <==> forall k :: 0 <= k < |row| ==> row[k] != Some("")
    ensures Parse(Record(row)).Some? ==>
              var Named(name, api) := Parse(Record(row)).value;
              var c := seq(11, k requires 0 <= k < 11 => if row[k].None? then "NULL" else row[k].value);
              && name == c[0] && api.cname == c[1] && api.path == c[2] && api.host == c[3]
              && api.params == Tokens(c[4], '|') && api.key == c[5]
              && api.isVerify == Atoi(c[6]) && api.isHttps == Atoi(c[7]) && api.limit == Int32(Atol(c[8]))
              && api.reqType == Atoi(c[9]) && api.template == c[10]
  {
    TokensOfRecord(row);
    NonEmptyAll(row);
  }

  // ---------------------------------------------------------------------------------------------
  // There and back

  function JoinBars(params: seq<string>): string
    requires params != []
  {
    if |params| == 1 then params[0] else params[0] + ['|'] + JoinBars(params[1..])
  }

  lemma {:induction false} TokensOfBars(params: seq<string>)
    requires params != [] && forall k :: 0 <= k < |params| ==> params[k] != "" && '|' !in params[k]
    ensures Tokens(JoinBars(params), '|') == params && JoinBars(params) != ""
  {
    if |params| == 1 {
      TokensLast(params[0], '|');
    } else {
      TokensOfBars(params[1..]);
      TokensField(params[0], JoinBars(params[1..]), '|');
    }
  }

  /** The row a table holds for given settings. */
  function RowOf(n: Named): seq<Column>
    requires n.api.params != []
  {
    [Some(n.name), Some(n.api.cname), Some(n.api.path), Some(n.api.host), Some(JoinBars(n.api.params)), Some(n.api.key),
     Some(Print(n.api.isVerify)), Some(Print(n.api.isHttps)), Some(Print(n.api.limit)), Some(Print(n.api.reqType)),
     Some(n.api.template)]
  }

  predicate IsField(s: string) { s != "" && ';' !in s }

  predicate IsInt32(n: int) { -0x8000_0000 <= n < 0x8000_0000 }

  predicate Storable(n: Named) {
    && IsField(n.name) && IsField(n.api.cname) && IsField(n.api.path) && IsField(n.api.host) && IsField(n.api.key)
    && IsField(n.api.template)
    && IsInt32(n.api.isVerify) && IsInt32(n.api.isHttps) && IsInt32(n.api.limit) && IsInt32(n.api.reqType)
    && n.api.params != [] && forall k :: 0 <= k < |n.api.params| ==> IsField(n.api.params[k]) && '|' !in n.api.params[k]
  }

  lemma {:induction false} BarsAreClean(params: seq<string>)
    requires params != [] && forall k :: 0 <= k < |params| ==> ';' !in params[k]
    ensures ';' !in JoinBars(params)
  {
    if |params| > 1 { BarsAreClean(params[1..]); }
  }

  lemma PrintIsField(n: int)
    ensures IsField(Print(n))
  {
  }

  lemma RowIsClean(n: Named)
    requires Storable(n)
    ensures Clean(RowOf(n)) && forall k :: 0 <= k < 11 ==> Shown(RowOf(n)[k]) != ""
  {
    BarsAreClean(n.api.params);
    TokensOfBars(n.api.params);
    PrintIsField(n.api.isVerify);
    PrintIsField(n.api.isHttps);
    PrintIsField(n.api.limit);
    PrintIsField(n.api.reqType);
  }

  /** Settings come back from their printed row field by field. */
  lemma RowRoundTrip(n: Named)
    requires Storable(n)
    ensures Parse(Record(RowOf(n))) == Some(n)
  {
    var row := RowOf(n);
    RowIsClean(n);
    TokensOfRecord(row);
    NonEmptyAll(row);
    TokensOfBars(n.api.params);
    AtolOfPrint(n.api.isVerify);
    AtolOfPrint(n.api.isHttps);
    AtolOfPrint(n.api.limit);
    AtolOfPrint(n.api.reqType);
  }
}
