/** Reading the configuration file: `BdxInitConfig` and the section readers it calls in turn. */
module Config {
  import opened CText
  import opened ConfText

  // ---------------------------------------------------------------------------------------------
  // Lines

  const PACKET := 1024

  /** How much one `fgets` takes: through the next newline, but no more than fits the buffer. */
  function LineLength(text: string): (n: nat)
    ensures n <= |text| && n < PACKET && (text != "" ==> n > 0)
  {
    var i := IndexOf(text, '\n');
    var n := if i < |text| then i + 1 else |text|;
    if n < PACKET then n else PACKET - 1
  }

  /** A line as the string functions see it, up to its first NUL. */
  function LineOf(text: string): string {
    var line := text[..LineLength(text)];
    line[..IndexOf(line, NUL)]
  }

  function Lines(text: string): seq<string>
    decreases |text|
  {
    if text == "" then [] else [LineOf(text)] + Lines(text[LineLength(text)..])
  }

  /** What a line means.  `Bad` is a remark after blanks: trimming it runs off the buffer. */
  datatype Line = Ignored | Bad | Header(name: string) | Setting(key: string, value: string)

  function Classify(line: string): Line {
    var t := DropBlanks(line);
    if t == "" || line[0] == '#' then Ignored
    else if t[0] == '#' then Bad
    else
      var u := Content(t);
      var i := IndexOf(u, '=');
      if t[0] == '[' then Header(u)
      else if i < |u| then Setting(Content(u[..i]), DropBlanks(u[i + 1..]))
      else Ignored
  }

  /** Before the first header a remark is bad wherever it starts. */
  function ClassifyEarly(line: string): Line {
    var t := DropBlanks(line);
    if t != "" && t[0] == '#' then Bad else Classify(line)
  }

  // ---------------------------------------------------------------------------------------------
  // Writing a line

  predicate Blanks(s: string) {
    forall k :: 0 <= k < |s| ==> s[k] == ' ' || s[k] == '\t' || s[k] == '\r' || s[k] == '\n'
  }

  /** Starts and ends with something visible, and holds no remark sign. */
  predicate Visible(s: string) {
    s != "" && IsSeen(s[0]) && IsSeen(s[|s| - 1]) && '#' !in s
  }

  predicate IsSeen(c: char) { c != ' ' && c != '\t' && c != '\r' && c != '\n' }

  predicate Remark(s: string) { s == "" || s[0] == '#' }

  lemma {:induction false} ContentOfLine(s: string, blanks: string, remark: string)
    requires (s == "" || Visible(s)) && Blanks(blanks) && Remark(remark)
    ensures Content(s + blanks + remark) == s
  {
    var whole := s + blanks + remark;
    IndexOfIsUnique(whole, '#', |s + blanks|);
    assert whole[..|s + blanks|] == s + blanks;
    DropTrailingPrefix(s + blanks, |s|);
    assert (s + blanks)[..|s|] == s;
  }

  lemma DropBlanksOf(blanks: string, s: string)
    requires Blanks(blanks) && (s == "" || !IsBlank(s[0]))
    ensures DropBlanks(blanks + s) == s
  {
    DropBlanksSuffix(blanks + s, |blanks|);
    assert (blanks + s)[|blanks|..] == s;
  }

  /** The middle of a setting, cut at its '='. */
  lemma {:induction false} CutSetting(key: string, b1: string, b2: string, value: string)
    requires Visible(key) && '=' !in key && Blanks(b1) && Blanks(b2) && (value == "" || Visible(value))
    ensures var u := key + b1 + "=" + (b2 + value);
            var i := IndexOf(u, '=');
            i < |u| && Content(u[..i]) == key && DropBlanks(u[i + 1..]) == value
  {
    var u := key + b1 + "=" + (b2 + value);
    IndexOfIsUnique(u, '=', |key + b1|);
    ContentOfLine(key, b1, "");
    assert u[..|key + b1|] == key + b1 + "";
    assert u[|key + b1| + 1..] == b2 + value;
    DropBlanksOf(b2, value);
  }

  lemma {:induction false} CutHeader(name: string, indent: string, rest: string)
    requires Visible(name) && Blanks(indent)
    ensures DropBlanks(indent + (name + rest)) == name + rest && (indent + (name + rest))[0] != '#'
  {
    DropBlanksOf(indent, name + rest);
    assert indent == "" || IsBlank(indent[0]);
  }

  /** A setting is read back whatever blanks and remark surround it. */
  lemma {:induction false} SettingRoundTrip(indent: string, key: string, b1: string, b2: string, value: string,
      b3: string, remark: string)
    requires Visible(key) && '=' !in key && key[0] != '[' && (Visible(value) || (value == "" && b2 == ""))
    requires Blanks(indent) && Blanks(b1) && Blanks(b2) && Blanks(b3) && Remark(remark)
    ensures Classify(indent + (key + b1 + "=" + (b2 + value) + b3 + remark)) == Setting(key, value)
  {
    SettingIsVisible(key, b1, b2, value);
    CutSetting(key, b1, b2, value);
    assert (key + b1 + "=" + (b2 + value))[0] == key[0];
    SettingLine(indent, key + b1 + "=" + (b2 + value), b3, remark);
  }

  /** A line is classified by its visible part. */
  lemma {:induction false} SettingLine(indent: string, u: string, b3: string, remark: string)
    requires Visible(u) && u[0] != '[' && Blanks(indent) && Blanks(b3) && Remark(remark)
    ensures var i := IndexOf(u, '=');
            Classify(indent + (u + b3 + remark)) ==
            if i < |u| then Setting(Content(u[..i]), DropBlanks(u[i + 1..])) else Ignored
  {
    var t := u + b3 + remark;
    assert t == u + (b3 + remark) && t[0] == u[0];
    CutHeader(u, indent, b3 + remark);
    ContentOfLine(u, b3, remark);
    ClassifyTrimmed(indent + t, t, u);
  }

  lemma {:induction false} ClassifyTrimmed(line: string, t: string, u: string)
    requires t != "" && line != "" && DropBlanks(line) == t && Content(t) == u
    requires line[0] != '#' && t[0] != '#' && t[0] != '['
    ensures var i := IndexOf(u, '=');
            Classify(line) == if i < |u| then Setting(Content(u[..i]), DropBlanks(u[i + 1..])) else Ignored
  {
  }

  lemma {:induction false} SettingIsVisible(key: string, b1: string, b2: string, value: string)
    requires Visible(key) && (Visible(value) || (value == "" && b2 == "")) && Blanks(b1) && Blanks(b2)
    ensures Visible(key + b1 + "=" + (b2 + value))
  {
    assert !IsBlank('#') && !IsBlank('=');
  }

  lemma {:induction false} HeaderRoundTrip(indent: string, name: string, b: string, remark: string)
    requires Visible(name) && name[0] == '[' && Blanks(indent) && Blanks(b) && Remark(remark)
    ensures Classify(indent + (name + b + remark)) == Header(name)
  {
    assert name + b + remark == name + (b + remark);
    CutHeader(name, indent, b + remark);
    ContentOfLine(name, b, remark);
  }

  // ---------------------------------------------------------------------------------------------
  // The meaning of a file

  datatype Value = Text(text: string) | Num(n: int)

  /** Which headers are recognised, and which parameter a setting of a section gives what value. */
  datatype Schema<!F> = Schema(known: string -> bool, target: (string, string, string) -> Target<F>)

  datatype Target<F> = Nowhere | At(field: F, value: Value)

  /** `Stuck`: an unrecognised header is looked at again and again. */
  datatype Outcome<F> = NoHeader | Undefined | Stuck(section: string) | Done(config: map<F, Value>)

  function Assign<F>(config: map<F, Value>, t: Target<F>): map<F, Value> {
    match t
    case Nowhere => config
    case At(f, v) => config[f := v]
  }

  /** One left-to-right pass over the lines after a header. */
  function Fold<F>(schema: Schema<F>, section: string, lines: seq<string>, config: map<F, Value>): Outcome<F>
    decreases |lines|
  {
    if !schema.known(section) then Stuck(section)
    else if lines == [] then Done(config)
    else
      match Classify(lines[0])
      case Ignored => Fold(schema, section, lines[1..], config)
      case Bad => Undefined
      case Header(name) => Fold(schema, name, lines[1..], config)
      case Setting(key, value) =>
        Fold(schema, section, lines[1..], Assign(config, schema.target(section, key, value)))
  }

  /** The whole file: everything before the first header is skipped. */
  function Meaning<F>(schema: Schema<F>, lines: seq<string>, config: map<F, Value>): Outcome<F>
    decreases |lines|
  {
    if lines == [] then NoHeader
    else
      match ClassifyEarly(lines[0])
      case Bad => Undefined
      case Header(name) => Fold(schema, name, lines[1..], config)
      case _ => Meaning(schema, lines[1..], config)
  }

  // ---------------------------------------------------------------------------------------------
  // When reading succeeds, and what the parameters are then

  predicate IsHeader(line: string) { Classify(line).Header? }

  /** The header in force at line `i`: the nearest one before it, or `first` when there is none. */
  function SectionAt(first: string, lines: seq<string>, i: nat): string
    requires i <= |lines|
  {
    if i == 0 then first
    else if IsHeader(lines[i - 1]) then Classify(lines[i - 1]).name
    else SectionAt(first, lines, i - 1)
  }

  predicate AllKnown(known: string -> bool, lines: seq<string>) {
    forall i :: 0 <= i < |lines| && IsHeader(lines[i]) ==> known(Classify(lines[i]).name)
  }

  predicate NoneBad(lines: seq<string>) { forall i :: 0 <= i < |lines| ==> !Classify(lines[i]).Bad? }

  lemma {:induction false} FoldCompletesIff<F>(schema: Schema<F>, section: string, lines: seq<string>,
      config: map<F, Value>)
    ensures Fold(schema, section, lines, config).Done?
            <==> schema.known(section) && AllKnown(schema.known, lines) && NoneBad(lines)
    decreases |lines|
  {
    if schema.known(section) && lines != [] {
      var rest := lines[1..];
      assert forall i :: 0 <= i < |rest| ==> rest[i] == lines[i + 1];
      assert NoneBad(lines) <==> !Classify(lines[0]).Bad? && NoneBad(rest);
      assert AllKnown(schema.known, lines) <==>
        (IsHeader(lines[0]) ==> schema.known(Classify(lines[0]).name)) && AllKnown(schema.known, rest);
      match Classify(lines[0])
      case Ignored => FoldCompletesIff(schema, section, rest, config);
      case Bad =>
      case Header(name) => FoldCompletesIff(schema, name, rest, config);
      case Setting(key, value) =>
        FoldCompletesIff(schema, section, rest, Assign(config, schema.target(section, key, value)));
    }
  }

  /** What line `i` writes. */
  function WriteAt<F>(schema: Schema<F>, first: string, lines: seq<string>, i: nat): Target<F>
    requires i < |lines|
  {
    match Classify(lines[i])
    case Setting(key, value) => schema.target(SectionAt(first, lines, i), key, value)
    case _ => Nowhere
  }

  predicate Writes<F(==)>(schema: Schema<F>, first: string, lines: seq<string>, i: nat, f: F)
    requires i < |lines|
  {
    var t := WriteAt(schema, first, lines, i);
    t.At? && t.field == f
  }

  /** The header in force after the first line. */
  function NextSection(first: string, line: string): string {
    if IsHeader(line) then Classify(line).name else first
  }

  lemma {:induction false} SectionAtTail(first: string, lines: seq<string>, i: nat)
    requires i < |lines|
    ensures SectionAt(first, lines, i + 1) == SectionAt(NextSection(first, lines[0]), lines[1..], i)
  {
    if i > 0 { SectionAtTail(first, lines, i - 1); }
  }

  lemma WriteAtTail<F>(schema: Schema<F>, first: string, lines: seq<string>, i: nat)
    requires i + 1 < |lines|
    ensures WriteAt(schema, first, lines, i + 1) == WriteAt(schema, NextSection(first, lines[0]), lines[1..], i)
  {
    SectionAtTail(first, lines, i);
  }

  lemma FoldTail<F>(schema: Schema<F>, first: string, lines: seq<string>, config: map<F, Value>)
    requires lines != [] && Fold(schema, first, lines, config).Done?
    ensures Fold(schema, first, lines, config) ==
            Fold(schema, NextSection(first, lines[0]), lines[1..], Assign(config, WriteAt(schema, first, lines, 0)))
  {
  }

  lemma {:induction false} UnwrittenStays<F>(schema: Schema<F>, first: string, lines: seq<string>,
      config: map<F, Value>, f: F)
    requires Fold(schema, first, lines, config).Done?
    requires forall i :: 0 <= i < |lines| ==> !Writes(schema, first, lines, i, f)
    ensures var after := Fold(schema, first, lines, config).config;
            (f in after <==> f in config) && (f in config ==> after[f] == config[f])
    decreases |lines|
  {
    if lines != [] {
      FoldTail(schema, first, lines, config);
      var next := NextSection(first, lines[0]);
      forall i | 0 <= i < |lines[1..]| ensures !Writes(schema, next, lines[1..], i, f) {
        WriteAtTail(schema, first, lines, i);
        assert !Writes(schema, first, lines, i + 1, f);
      }
      assert !Writes(schema, first, lines, 0, f);
      UnwrittenStays(schema, next, lines[1..], Assign(config, WriteAt(schema, first, lines, 0)), f);
    }
  }

  lemma {:induction false} LastWriteStays<F>(schema: Schema<F>, first: string, lines: seq<string>,
      config: map<F, Value>, i: nat, f: F)
    requires Fold(schema, first, lines, config).Done?
    requires i < |lines| && Writes(schema, first, lines, i, f)
    requires forall j :: i < j < |lines| ==> !Writes(schema, first, lines, j, f)
    ensures var after := Fold(schema, first, lines, config).config;
            f in after && after[f] == WriteAt(schema, first, lines, i).value
    decreases |lines|
  {
    FoldTail(schema, first, lines, config);
    var next := NextSection(first, lines[0]);
    var config' := Assign(config, WriteAt(schema, first, lines, 0));
    forall j | i <= j < |lines[1..]| ensures !Writes(schema, next, lines[1..], j, f) {
      WriteAtTail(schema, first, lines, j);
      assert !Writes(schema, first, lines, j + 1, f);
    }
    if i == 0 {
      UnwrittenStays(schema, next, lines[1..], config', f);
    } else {
      WriteAtTail(schema, first, lines, i - 1);
      LastWriteStays(schema, next, lines[1..], config', i - 1, f);
    }
  }

  // ---------------------------------------------------------------------------------------------
  // The same for the whole file

  /** The first header, or the number of lines. */
  function FirstHeader(lines: seq<string>): (p: nat)
    ensures p <= |lines|
  {
    if lines == [] || IsHeader(lines[0]) then 0 else 1 + FirstHeader(lines[1..])
  }

  predicate EarlyGood(lines: seq<string>, p: nat)
    requires p <= |lines|
  {
    forall i :: 0 <= i < p ==> !ClassifyEarly(lines[i]).Bad?
  }

  lemma {:induction false} MeaningIsFold<F>(schema: Schema<F>, lines: seq<string>, config: map<F, Value>)
    ensures var p := FirstHeader(lines);
            if !EarlyGood(lines, p) then Meaning(schema, lines, config) == Undefined
            else if p == |lines| then Meaning(schema, lines, config) == NoHeader
            else IsHeader(lines[p])
                 && Meaning(schema, lines, config) == Fold(schema, Classify(lines[p]).name, lines[p + 1..], config)
    decreases |lines|
  {
    if lines != [] {
      if IsHeader(lines[0]) {
        assert !ClassifyEarly(lines[0]).Bad?;
      } else {
        var rest := lines[1..];
        var p := FirstHeader(rest);
        MeaningIsFold(schema, rest, config);
        assert forall i :: 0 <= i < |rest| ==> rest[i] == lines[i + 1];
        assert EarlyGood(lines, p + 1) <==> !ClassifyEarly(lines[0]).Bad? && EarlyGood(rest, p);
        assert p < |rest| ==> rest[p + 1..] == lines[p + 2..];
      }
    }
  }

  /** Reading completes exactly when there is a header, every header is recognised, there is no remark
      before the first header and no indented remark after it. */
  lemma CompletesIff<F>(schema: Schema<F>, lines: seq<string>, config: map<F, Value>)
    ensures var p := FirstHeader(lines);
            Meaning(schema, lines, config).Done?
            <==> p < |lines| && EarlyGood(lines, p) && AllKnown(schema.known, lines[p..]) && NoneBad(lines[p..])
  {
    var p := FirstHeader(lines);
    MeaningIsFold(schema, lines, config);
    if p < |lines| && EarlyGood(lines, p) {
      var rest := lines[p + 1..];
      FoldCompletesIff(schema, Classify(lines[p]).name, rest, config);
      assert forall i :: 0 <= i < |rest| ==> rest[i] == lines[p..][i + 1];
      assert lines[p..][0] == lines[p];
    }
  }

  /** A header that is not recognised keeps the program looking at it. */
  lemma UnknownHeaderSticks<F>(schema: Schema<F>, name: string, config: map<F, Value>)
    requires Visible(name) && name[0] == '[' && !schema.known(name)
    ensures Meaning(schema, [name], config) == Stuck(name)
  {
    HeaderRoundTrip("", name, "", "");
    assert "" + (name + "" + "") == name;
    assert name[0] != '#';
    DropBlanksSuffix(name, 0);
  }

  /** A remark before the first header is trimmed past the start of the buffer. */
  lemma EarlyRemarkIsBad<F>(schema: Schema<F>, remark: string, rest: seq<string>, config: map<F, Value>)
    requires remark != "" && remark[0] == '#'
    ensures Meaning(schema, [remark] + rest, config) == Undefined
  {
  }

  /** Line `i` gives the parameter `f` a value, by the header nearest before it. */
  predicate FileWrites<F(==)>(schema: Schema<F>, lines: seq<string>, i: nat, f: F)
    requires i < |lines|
  {
    i > FirstHeader(lines) && Writes(schema, "", lines, i, f)
  }

  lemma {:induction false} SectionAtSuffix(first: string, lines: seq<string>, p: nat, i: nat)
    requires p < |lines| && IsHeader(lines[p]) && i <= |lines| - p - 1
    ensures SectionAt(first, lines, p + 1 + i) == SectionAt(Classify(lines[p]).name, lines[p + 1..], i)
  {
    if i > 0 { SectionAtSuffix(first, lines, p, i - 1); }
  }

  lemma WriteAtSuffix<F>(schema: Schema<F>, lines: seq<string>, p: nat, i: nat)
    requires p < |lines| && IsHeader(lines[p]) && i < |lines[p + 1..]|
    ensures WriteAt(schema, "", lines, p + 1 + i) == WriteAt(schema, Classify(lines[p]).name, lines[p + 1..], i)
  {
    SectionAtSuffix("", lines, p, i);
    assert lines[p + 1..][i] == lines[p + 1 + i];
  }

  lemma WritesSuffix<F>(schema: Schema<F>, lines: seq<string>, p: nat, i: nat, f: F)
    requires p < i < |lines| && IsHeader(lines[p])
    ensures Writes(schema, "", lines, i, f) == Writes(schema, Classify(lines[p]).name, lines[p + 1..], i - p - 1, f)
  {
    WriteAtSuffix(schema, lines, p, i - p - 1);
  }

  /** A parameter has the value of the last line that sets it under the nearest header before that
      line, or what it had at the start when no line does. */
  lemma LastWriteWins<F>(schema: Schema<F>, lines: seq<string>, config: map<F, Value>, f: F)
    requires Meaning(schema, lines, config).Done?
    ensures var after := Meaning(schema, lines, config).config;
            || ((forall i :: 0 <= i < |lines| ==> !FileWrites(schema, lines, i, f))
                && (f in after <==> f in config) && (f in config ==> after[f] == config[f]))
            || exists i | 0 <= i < |lines| ::
                 && FileWrites(schema, lines, i, f)
                 && (forall j :: i < j < |lines| ==> !FileWrites(schema, lines, j, f))
                 && f in after && after[f] == WriteAt(schema, "", lines, i).value
  {
    MeaningIsFold(schema, lines, config);
    var p := FirstHeader(lines);
    var name, rest := Classify(lines[p]).name, lines[p + 1..];
    forall i | p < i < |lines|
      ensures FileWrites(schema, lines, i, f) == Writes(schema, name, rest, i - p - 1, f)
    {
      WritesSuffix(schema, lines, p, i, f);
    }
    var last := LastWriter(schema, name, rest, f);
    if last == |rest| {
      UnwrittenStays(schema, name, rest, config, f);
    } else {
      LastWriteStays(schema, name, rest, config, last, f);
      WriteAtSuffix(schema, lines, p, last);
      assert FileWrites(schema, lines, p + 1 + last, f);
    }
  }

  /** The last line that writes `f`, or the number of lines. */
  function LastWriter<F(==)>(schema: Schema<F>, first: string, lines: seq<string>, f: F): (i: nat)
    ensures i <= |lines|
    ensures i < |lines| ==>
              Writes(schema, first, lines, i, f) && forall j :: i < j < |lines| ==> !Writes(schema, first, lines, j, f)
    ensures i == |lines| ==> forall j :: 0 <= j < |lines| ==> !Writes(schema, first, lines, j, f)
  {
    LastWriterUpTo(schema, first, lines, |lines|, f)
  }

  function LastWriterUpTo<F(==)>(schema: Schema<F>, first: string, lines: seq<string>, n: nat, f: F): (i: nat)
    requires n <= |lines|
    requires forall j :: n <= j < |lines| ==> !Writes(schema, first, lines, j, f)
    ensures i < n || i == |lines|
    ensures i < |lines| ==>
              Writes(schema, first, lines, i, f) && forall j :: i < j < |lines| ==> !Writes(schema, first, lines, j, f)
    ensures i == |lines| ==> forall j :: 0 <= j < |lines| ==> !Writes(schema, first, lines, j, f)
  {
    if n == 0 then |lines|
    else if Writes(schema, first, lines, n - 1, f) then n - 1
    else LastWriterUpTo(schema, first, lines, n - 1, f)
  }
}
