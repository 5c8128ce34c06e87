/** Whole files: how their text falls into lines, and what becomes of the settings printed into them. */
module ConfigFile {
  import opened CText
  import opened ConfText
  import opened Config
  import opened GatewayConfig

  // ---------------------------------------------------------------------------------------------
  // Lines

  /** Every line followed by a newline. */
  function Printed(lines: seq<string>): string {
    if lines == [] then "" else lines[0] + "\n" + Printed(lines[1..])
  }

  /** A line that one read can take whole. */
  predicate Plain(line: string) { '\n' !in line && NUL !in line && |line| < 1023 }

  lemma PrintedLine(line: string, rest: string)
    requires Plain(line)
    ensures LineLength(line + "\n" + rest) == |line| + 1
    ensures LineOf(line + "\n" + rest) == line + "\n" && (line + "\n" + rest)[|line| + 1..] == rest
  {
    var text := line + "\n" + rest;
    IndexOfIsUnique(text, '\n', |line|);
    assert text[..|line| + 1] == line + "\n";
    assert NUL !in line + "\n";
    IndexOfIsUnique(line + "\n", NUL, |line| + 1);
  }

  /** The lines of a printed file are the lines printed. */
  lemma {:induction false} LinesOfPrinted(lines: seq<string>)
    requires forall k :: 0 <= k < |lines| ==> Plain(lines[k])
    ensures |Lines(Printed(lines))| == |lines|
    ensures forall k :: 0 <= k < |lines| ==> Lines(Printed(lines))[k] == lines[k] + "\n"
  {
    if lines != [] {
      PrintedLine(lines[0], Printed(lines[1..]));
      LinesOfPrinted(lines[1..]);
    }
  }

  // ---------------------------------------------------------------------------------------------
  // Settings

  lemma LineOfHeader(name: string)
    requires Visible(name) && name[0] == '['
    ensures Classify(name + "\n") == Header(name) && ClassifyEarly(name + "\n") == Header(name)
  {
    HeaderRoundTrip("", name, "\n", "");
    assert "" + (name + "\n" + "") == name + "\n";
    DropBlanksSuffix(name + "\n", 0);
  }

  lemma LineOfSetting(key: string, value: string)
    requires Visible(key) && '=' !in key && key[0] != '[' && (value == "" || Visible(value))
    ensures Classify(key + "=" + value + "\n") == Setting(key, value)
  {
    SettingRoundTrip("", key, "", "", value, "\n", "");
    assert "" + (key + "" + "=" + ("" + value) + "\n" + "") == key + "=" + value + "\n";
  }

  lemma TwoLines(schema: Schema<Field>, name: string, key: string, value: string, lines: seq<string>,
      config: map<Field, Value>)
    requires schema.known(name) && |lines| == 2
    requires ClassifyEarly(lines[0]) == Header(name) && Classify(lines[1]) == Setting(key, value)
    ensures Meaning(schema, lines, config) == Done(Assign(config, schema.target(name, key, value)))
  {
    var after := Assign(config, schema.target(name, key, value));
    assert lines[1..] == [lines[1]] && lines[1..][1..] == [];
    assert Fold(schema, name, [], after) == Done(after);
    assert Fold(schema, name, lines[1..], config) == Fold(schema, name, [], after);
  }

  lemma PrintedTwo(a: string, b: string)
    ensures Printed([a, b]) == a + "\n" + b + "\n"
  {
    assert [a, b][1..] == [b] && [b][1..] == [];
    assert Printed([b]) == b + "\n";
  }

  lemma TwoPrinted(schema: Schema<Field>, name: string, setting: string, key: string, value: string,
      config: map<Field, Value>)
    requires schema.known(name) && Plain(name) && Plain(setting)
    requires ClassifyEarly(name + "\n") == Header(name) && Classify(setting + "\n") == Setting(key, value)
    ensures Meaning(schema, Lines(Printed([name, setting])), config) ==
            Done(Assign(config, schema.target(name, key, value)))
  {
    LinesOfPrinted([name, setting]);
    var lines := Lines(Printed([name, setting]));
    assert lines[0] == name + "\n" && lines[1] == setting + "\n";
    TwoLines(schema, name, key, value, lines, config);
  }

  /** A file of one header and one setting. */
  lemma OneSetting(schema: Schema<Field>, name: string, key: string, value: string, config: map<Field, Value>)
    requires Visible(name) && name[0] == '[' && Plain(name) && schema.known(name)
    requires Visible(key) && '=' !in key && key[0] != '[' && (value == "" || Visible(value)) && Plain(key + "=" + value)
    ensures Meaning(schema, Lines(name + "\n" + (key + "=" + value) + "\n"), config) ==
            Done(Assign(config, schema.target(name, key, value)))
  {
    PrintedTwo(name, key + "=" + value);
    LineOfHeader(name);
    LineOfSetting(key, value);
    TwoPrinted(schema, name, key + "=" + value, key, value, config);
  }

  predicate IsLetter(c: char) { 'A' <= c <= 'Z' }

  /** Capital letters only, like every key of the file and every section between its brackets. */
  predicate IsWord(s: string) { 0 < |s| < 100 && forall k :: 0 <= k < |s| ==> IsLetter(s[k]) }

  lemma WordIsKey(s: string)
    requires IsWord(s)
    ensures Visible(s) && Plain(s) && '=' !in s && s[0] != '['
  {
  }

  lemma KeyWords()
    ensures IsWord("RANK") && IsWord("FILE") && IsWord("PATH") && IsWord("MAXLINE")
            && IsWord("TIME") && IsWord("SSLPATH") && IsWord("SSLPASSWORD") && IsWord("APIQPSLIMIT")
            && IsWord("IP") && IsWord("PORT") && IsWord("IDX") && IsWord("NUMS")
            && IsWord("USERNAME") && IsWord("PASSWORD") && IsWord("DBNAME") && IsWord("NUM")
            && IsWord("APIIP") && IsWord("APIPORT") && IsWord("EMAILIP") && IsWord("EMAILPORT")
            && IsWord("FROM") && IsWord("TO") && IsWord("SUBJECT") && IsWord("ERRORMSG")
  {
  }

  lemma KeyIsListed(f: Field)
    ensures KeyOf(f) == "RANK" || KeyOf(f) == "FILE" || KeyOf(f) == "PATH" || KeyOf(f) == "MAXLINE"
            || KeyOf(f) == "TIME" || KeyOf(f) == "SSLPATH" || KeyOf(f) == "SSLPASSWORD" || KeyOf(f) == "APIQPSLIMIT"
            || KeyOf(f) == "IP" || KeyOf(f) == "PORT" || KeyOf(f) == "IDX" || KeyOf(f) == "NUMS"
            || KeyOf(f) == "USERNAME" || KeyOf(f) == "PASSWORD" || KeyOf(f) == "DBNAME" || KeyOf(f) == "NUM"
            || KeyOf(f) == "APIIP" || KeyOf(f) == "APIPORT" || KeyOf(f) == "EMAILIP" || KeyOf(f) == "EMAILPORT"
            || KeyOf(f) == "FROM" || KeyOf(f) == "TO" || KeyOf(f) == "SUBJECT" || KeyOf(f) == "ERRORMSG"
  {
  }

  lemma KeyIsWord(f: Field)
    ensures IsWord(KeyOf(f))
  {
    KeyWords();
    KeyIsListed(f);
  }

  predicate IsName(s: string) {
    2 < |s| < 100 && s[0] == '[' && s[|s| - 1] == ']' && forall k :: 0 < k < |s| - 1 ==> IsLetter(s[k])
  }

  lemma NameIsVisible(s: string)
    requires IsName(s)
    ensures Visible(s) && Plain(s)
  {
  }

  lemma SectionNames()
    ensures IsName("[LOG]") && IsName("[TRAFFICHIVELOG]") && IsName("[TRAFFICSTATISTICS]")
            && IsName("[REDISSERVER]") && IsName("[LOCALSERVER]") && IsName("[MYSQLSERVER]")
            && IsName("[WORKTHREADS]") && IsName("[MONITORAPIINFO]")
  {
  }

  lemma SectionIsListed(f: Field)
    ensures SectionOf(f) == "[LOG]" || SectionOf(f) == "[TRAFFICHIVELOG]" || SectionOf(f) == "[TRAFFICSTATISTICS]"
            || SectionOf(f) == "[REDISSERVER]" || SectionOf(f) == "[LOCALSERVER]" || SectionOf(f) == "[MYSQLSERVER]"
            || SectionOf(f) == "[WORKTHREADS]" || SectionOf(f) == "[MONITORAPIINFO]"
  {
  }

  lemma SectionIsName(f: Field)
    ensures IsName(SectionOf(f))
  {
    SectionNames();
    SectionIsListed(f);
  }

  lemma SectionIsKnown(f: Field)
    ensures Known(SectionOf(f))
  {
    SectionIsListed(f);
  }

  /** The gateway's own sections and keys: a file that holds the header and the key of a parameter gives it
      its value, and changes nothing else. */
  lemma PrintedSettingIsLoaded(f: Field, value: string, config: map<Field, Value>)
    requires (value == "" || Visible(value)) && Plain(KeyOf(f) + "=" + value)
    ensures Meaning(Gateway(), Lines(SectionOf(f) + "\n" + (KeyOf(f) + "=" + value) + "\n"), config) ==
            Done(config[f := ValueOf(f, value)])
  {
    SectionIsName(f);
    NameIsVisible(SectionOf(f));
    SectionIsKnown(f);
    KeyIsWord(f);
    WordIsKey(KeyOf(f));
    OneSetting(Gateway(), SectionOf(f), KeyOf(f), value, config);
    TargetIff(SectionOf(f), KeyOf(f), value, f);
  }

  // ---------------------------------------------------------------------------------------------
  // Every parameter's place

  function First128(v: string): string { v[..if |v| < 128 then |v| else 128] }

  lemma LogPlace(v: string)
    ensures TargetOf("[LOG]", "RANK", v) ==
            At(LogRank, Num(if v == "INFO" then 1 else if v == "WARNING" then 2 else if v == "ERROR" then 3
                            else if v == "REQUIRED" then 100 else 0))
    ensures TargetOf("[LOG]", "FILE", v) == At(LogFile, Text(v))
    ensures TargetOf("[LOG]", "PATH", v) == At(LogPath, Text(v))
    ensures TargetOf("[LOG]", "MAXLINE", v) == At(LogMaxLine, Num(Atoi(v) % 0x1_0000_0000))
  {
    KeyReaches(LogRank, v);
    KeyReaches(LogFile, v);
    KeyReaches(LogPath, v);
    KeyReaches(LogMaxLine, v);
  }

  lemma HivePlace(v: string)
    ensures TargetOf("[TRAFFICHIVELOG]", "PATH", v) == At(HivePath, Text(v))
    ensures TargetOf("[TRAFFICHIVELOG]", "FILE", v) == At(HiveFile, Text(v))
    ensures TargetOf("[TRAFFICHIVELOG]", "TIME", v) == At(HiveTime, Num(Atoi(v) % 0x1_0000_0000))
  {
    KeyReaches(HivePath, v);
    KeyReaches(HiveFile, v);
    KeyReaches(HiveTime, v);
  }

  lemma StatisticsPlace(v: string)
    ensures TargetOf("[TRAFFICSTATISTICS]", "PATH", v) == At(StatPath, Text(v))
    ensures TargetOf("[TRAFFICSTATISTICS]", "FILE", v) == At(StatFile, Text(v))
    ensures TargetOf("[TRAFFICSTATISTICS]", "TIME", v) == At(StatTime, Num(Atoi(v) % 0x1_0000_0000))
    ensures TargetOf("[TRAFFICSTATISTICS]", "SSLPATH", v) == At(SslPath, Text(v))
    ensures TargetOf("[TRAFFICSTATISTICS]", "SSLPASSWORD", v) == At(SslPassword, Text(v))
    ensures TargetOf("[TRAFFICSTATISTICS]", "APIQPSLIMIT", v) == At(QpsLimit, Num(Atoi(v)))
  {
    KeyReaches(StatPath, v);
    KeyReaches(StatFile, v);
    KeyReaches(StatTime, v);
    KeyReaches(SslPath, v);
    KeyReaches(SslPassword, v);
    KeyReaches(QpsLimit, v);
  }

  lemma RedisPlace(v: string)
    ensures TargetOf("[REDISSERVER]", "IP", v) == At(Ip(Redis), Text(First128(v)))
    ensures TargetOf("[REDISSERVER]", "PORT", v) == At(Port(Redis), Num(Atoi(v) % 0x1_0000))
    ensures TargetOf("[REDISSERVER]", "IDX", v) == At(Idx(Redis), Num(Atoi(v)))
    ensures TargetOf("[REDISSERVER]", "NUMS", v) == At(Nums(Redis), Num(Atoi(v)))
  {
    assert First128(v) == if |v| < 128 then v else v[..128];
    KeyReaches(Ip(Redis), v);
    KeyReaches(Port(Redis), v);
    KeyReaches(Idx(Redis), v);
    KeyReaches(Nums(Redis), v);
  }

  lemma LocalPlace(v: string)
    ensures TargetOf("[LOCALSERVER]", "IP", v) == At(Ip(Local), Text(First128(v)))
    ensures TargetOf("[LOCALSERVER]", "PORT", v) == At(Port(Local), Num(Atoi(v) % 0x1_0000))
    ensures TargetOf("[LOCALSERVER]", "IDX", v) == At(Idx(Local), Num(Atoi(v)))
    ensures TargetOf("[LOCALSERVER]", "NUMS", v) == At(Nums(Local), Num(Atoi(v)))
  {
    assert First128(v) == if |v| < 128 then v else v[..128];
    KeyReaches(Ip(Local), v);
    KeyReaches(Port(Local), v);
    KeyReaches(Idx(Local), v);
    KeyReaches(Nums(Local), v);
  }

  lemma MysqlPlace(v: string)
    ensures TargetOf("[MYSQLSERVER]", "IP", v) == At(SqlIp, Text(First128(v)))
    ensures TargetOf("[MYSQLSERVER]", "PORT", v) == At(SqlPort, Num(Atoi(v) % 0x1_0000))
  {
    assert First128(v) == if |v| < 128 then v else v[..128];
    KeyReaches(SqlIp, v);
    KeyReaches(SqlPort, v);
  }

  lemma MysqlUserPlace(v: string)
    ensures TargetOf("[MYSQLSERVER]", "USERNAME", v) == At(SqlUser, Text(First128(v)))
    ensures TargetOf("[MYSQLSERVER]", "PASSWORD", v) == At(SqlPassword, Text(First128(v)))
    ensures TargetOf("[MYSQLSERVER]", "DBNAME", v) == At(SqlDatabase, Text(First128(v)))
  {
    assert First128(v) == if |v| < 128 then v else v[..128];
    KeyReaches(SqlUser, v);
    KeyReaches(SqlPassword, v);
    KeyReaches(SqlDatabase, v);
  }

  lemma ThreadsPlace(v: string)
    ensures TargetOf("[WORKTHREADS]", "NUM", v) == At(Threads, Num(Atoi(v) % 0x1_0000_0000))
  {
    KeyReaches(Threads, v);
  }

  lemma MonitorPlace(v: string)
    ensures TargetOf("[MONITORAPIINFO]", "APIIP", v) == At(ApiIp, Text(First128(v)))
    ensures TargetOf("[MONITORAPIINFO]", "APIPORT", v) == At(ApiPort, Num(Atoi(v) % 0x1_0000))
    ensures TargetOf("[MONITORAPIINFO]", "EMAILIP", v) == At(MailIp, Text(First128(v)))
    ensures TargetOf("[MONITORAPIINFO]", "EMAILPORT", v) == At(MailPort, Num(Atoi(v) % 0x1_0000))
  {
    assert First128(v) == if |v| < 128 then v else v[..128];
    KeyReaches(ApiIp, v);
    KeyReaches(ApiPort, v);
    KeyReaches(MailIp, v);
    KeyReaches(MailPort, v);
  }

  lemma MailPlace(v: string)
    ensures TargetOf("[MONITORAPIINFO]", "USERNAME", v) == At(MailUser, Text(v))
    ensures TargetOf("[MONITORAPIINFO]", "PASSWORD", v) == At(MailPassword, Text(v))
  {
    KeyReaches(MailUser, v);
    KeyReaches(MailPassword, v);
  }

  lemma MailTextPlace(v: string)
    ensures TargetOf("[MONITORAPIINFO]", "FROM", v) == At(MailFrom, Text(v))
    ensures TargetOf("[MONITORAPIINFO]", "TO", v) == At(MailTo, Text(v))
  {
    KeyReaches(MailFrom, v);
    KeyReaches(MailTo, v);
  }

  lemma MailSubjectPlace(v: string)
    ensures TargetOf("[MONITORAPIINFO]", "SUBJECT", v) == At(MailSubject, Text(v))
    ensures TargetOf("[MONITORAPIINFO]", "ERRORMSG", v) == At(MailError, Text(v))
  {
    KeyReaches(MailSubject, v);
    KeyReaches(MailError, v);
  }

  // ---------------------------------------------------------------------------------------------
  // One small file

  const SMALL := "[LOG]\nRANK=ERROR\n[WORKTHREADS]\nNUM=8\n"

  lemma PrintedFour(a: string, b: string, c: string, d: string)
    ensures Printed([a, b, c, d]) == (a + "\n") + ((b + "\n") + ((c + "\n") + (d + "\n")))
  {
    PrintedTwo(c, d);
    assert [a, b, c, d][1..] == [b, c, d] && [b, c, d][1..] == [c, d];
    assert Printed([b, c, d]) == b + "\n" + Printed([c, d]);
    assert Printed([a, b, c, d]) == a + "\n" + Printed([b, c, d]);
  }

  lemma SmallText()
    ensures SMALL == "[LOG]\n" + ("RANK=ERROR\n" + ("[WORKTHREADS]\n" + "NUM=8\n"))
  {
  }

  lemma SmallLinesEnd()
    ensures "[LOG]" + "\n" == "[LOG]\n" && "RANK=ERROR" + "\n" == "RANK=ERROR\n"
    ensures "[WORKTHREADS]" + "\n" == "[WORKTHREADS]\n" && "NUM=8" + "\n" == "NUM=8\n"
  {
  }

  lemma SmallLinesArePlain()
    ensures Plain("[LOG]") && Plain("RANK=ERROR") && Plain("[WORKTHREADS]") && Plain("NUM=8")
  {
  }

  lemma FourLines(a: string, b: string, c: string, d: string)
    requires Plain(a) && Plain(b) && Plain(c) && Plain(d)
    ensures Lines(Printed([a, b, c, d])) == [a + "\n", b + "\n", c + "\n", d + "\n"]
  {
    LinesOfPrinted([a, b, c, d]);
  }

  lemma SmallLines()
    ensures Lines(SMALL) == ["[LOG]\n", "RANK=ERROR\n", "[WORKTHREADS]\n", "NUM=8\n"]
  {
    SmallLinesArePlain();
    PrintedFour("[LOG]", "RANK=ERROR", "[WORKTHREADS]", "NUM=8");
    FourLines("[LOG]", "RANK=ERROR", "[WORKTHREADS]", "NUM=8");
    SmallLinesEnd();
    SmallText();
  }

  lemma SmallHeaders()
    ensures Visible("[LOG]") && Visible("[WORKTHREADS]") && Known("[LOG]") && Known("[WORKTHREADS]")
  {
  }

  lemma SmallSettings()
    ensures "RANK" + "=" + "ERROR" + "\n" == "RANK=ERROR\n" && "NUM" + "=" + "8" + "\n" == "NUM=8\n"
    ensures Visible("RANK") && '=' !in "RANK" && Visible("ERROR") && Visible("NUM") && '=' !in "NUM" && Visible("8")
  {
  }

  lemma SmallClassified()
    ensures ClassifyEarly("[LOG]\n") == Header("[LOG]") && Classify("RANK=ERROR\n") == Setting("RANK", "ERROR")
    ensures Classify("[WORKTHREADS]\n") == Header("[WORKTHREADS]") && Classify("NUM=8\n") == Setting("NUM", "8")
  {
    SmallHeaders();
    SmallSettings();
    SmallLinesEnd();
    LineOfHeader("[LOG]");
    LineOfHeader("[WORKTHREADS]");
    LineOfSetting("RANK", "ERROR");
    LineOfSetting("NUM", "8");
  }

  lemma SmallValues()
    ensures TargetOf("[LOG]", "RANK", "ERROR") == At(LogRank, Num(3))
    ensures TargetOf("[WORKTHREADS]", "NUM", "8") == At(Threads, Num(8))
  {
    AtoiOfPrint(8, "");
    assert Print(8) + "" == "8";
  }

  lemma FourLinesMean(l0: string, l1: string, l2: string, l3: string, config: map<Field, Value>)
    requires Known("[LOG]") && Known("[WORKTHREADS]")
    requires ClassifyEarly(l0) == Header("[LOG]") && Classify(l1) == Setting("RANK", "ERROR")
    requires Classify(l2) == Header("[WORKTHREADS]") && Classify(l3) == Setting("NUM", "8")
    ensures Meaning(Gateway(), [l0, l1, l2, l3], config) == Done(config[LogRank := Num(3)][Threads := Num(8)])
  {
    SmallValues();
    var g, c1, c2 := Gateway(), config[LogRank := Num(3)], config[LogRank := Num(3)][Threads := Num(8)];
    assert [l0, l1, l2, l3][1..] == [l1, l2, l3] && [l1, l2, l3][1..] == [l2, l3];
    assert [l2, l3][1..] == [l3] && [l3][1..] == [];
    assert Fold(g, "[WORKTHREADS]", [], c2) == Done(c2);
    assert Fold(g, "[WORKTHREADS]", [l3], c1) == Done(c2);
    assert Fold(g, "[LOG]", [l2, l3], c1) == Done(c2);
    assert Fold(g, "[LOG]", [l1, l2, l3], config) == Done(c2);
  }

  lemma SmallMeaning(config: map<Field, Value>)
    ensures Meaning(Gateway(), ["[LOG]\n", "RANK=ERROR\n", "[WORKTHREADS]\n", "NUM=8\n"], config) ==
            Done(config[LogRank := Num(3)][Threads := Num(8)])
  {
    SmallHeaders();
    SmallClassified();
    FourLinesMean("[LOG]\n", "RANK=ERROR\n", "[WORKTHREADS]\n", "NUM=8\n", config);
  }

  /** A file of two sections: the rank of the log is 3, and there are 8 threads. */
  lemma SmallFile(config: map<Field, Value>)
    ensures Meaning(Gateway(), Lines("[LOG]\nRANK=ERROR\n[WORKTHREADS]\nNUM=8\n"), config) ==
            Done(config[LogRank := Num(3)][Threads := Num(8)])
  {
    SmallLines();
    SmallMeaning(config);
  }
}
