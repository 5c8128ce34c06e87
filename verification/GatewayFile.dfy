/** What the gateway's own configuration file means, parameter by parameter. */
module GatewayFile {
  import opened Config
  import opened ConfigReader
  import opened GatewayConfig

  /** Line `i` is "key = text" with the key of `f`, under the section of `f`. */
  predicate Sets(lines: seq<string>, i: nat, f: Field)
    requires i < |lines|
  {
    && i > FirstHeader(lines)
    && Classify(lines[i]).Setting? && Classify(lines[i]).key == KeyOf(f) && SectionAt("", lines, i) == SectionOf(f)
  }

  /** The parameter `f` after reading: the converted text of the last line that sets it, or what it was. */
  predicate HasLastSetting(lines: seq<string>, before: map<Field, Value>, after: map<Field, Value>, f: Field) {
    || ((forall i :: 0 <= i < |lines| ==> !Sets(lines, i, f))
        && (f in after <==> f in before) && (f in before ==> after[f] == before[f]))
    || exists i | 0 <= i < |lines| ::
         && Sets(lines, i, f) && (forall j :: i < j < |lines| ==> !Sets(lines, j, f))
         && f in after && after[f] == ValueOf(f, Classify(lines[i]).value)
  }

  /** When a schema has one place for `f`, a line writes `f` exactly when it is in that place. */
  lemma {:induction false} WritesInPlace<F>(schema: Schema<F>, lines: seq<string>, i: nat, f: F, section: string,
      key: string, v: Value)
    requires i < |lines|
    requires Classify(lines[i]).Setting? ==>
               var s, k := SectionAt("", lines, i), Classify(lines[i]).key;
               var t := schema.target(s, k, Classify(lines[i]).value);
               ((t.At? && t.field == f) <==> s == section && k == key) && (s == section && k == key ==> t == At(f, v))
    ensures var sets := && i > FirstHeader(lines) && Classify(lines[i]).Setting? && Classify(lines[i]).key == key
                        && SectionAt("", lines, i) == section;
            (FileWrites(schema, lines, i, f) <==> sets) && (sets ==> WriteAt(schema, "", lines, i) == At(f, v))
  {
  }

  lemma {:induction false} WritesIff(lines: seq<string>, i: nat, f: Field)
    requires i < |lines|
    ensures FileWrites(Gateway(), lines, i, f) <==> Sets(lines, i, f)
    ensures Sets(lines, i, f) ==> WriteAt(Gateway(), "", lines, i).value == ValueOf(f, Classify(lines[i]).value)
  {
    var line := Classify(lines[i]);
    if line.Setting? {
      TargetIff(SectionAt("", lines, i), line.key, line.value, f);
      WritesInPlace(Gateway(), lines, i, f, SectionOf(f), KeyOf(f), ValueOf(f, line.value));
    }
  }

  /** After any file that is read to its end, every parameter of the gateway has the value of the last line
      with its key under its section. */
  lemma {:induction false} LastSettingWins(lines: seq<string>, config: map<Field, Value>, f: Field)
    requires Meaning(Gateway(), lines, config).Done?
    ensures HasLastSetting(lines, config, Meaning(Gateway(), lines, config).config, f)
  {
    LastWriteWins(Gateway(), lines, config, f);
    forall i | 0 <= i < |lines|
      ensures FileWrites(Gateway(), lines, i, f) <==> Sets(lines, i, f)
      ensures Sets(lines, i, f) ==> WriteAt(Gateway(), "", lines, i).value == ValueOf(f, Classify(lines[i]).value)
    {
      WritesIff(lines, i, f);
    }
  }

  /** The file can be read to its end. */
  predicate Readable(lines: seq<string>) {
    var p := FirstHeader(lines);
    p < |lines| && EarlyGood(lines, p) && AllKnown(Known, lines[p..]) && NoneBad(lines[p..])
  }

  /** `BdxInitConfig` on the gateway's sections, from the text of the file to its parameters. */
  method LoadGateway(text: string, config: map<Field, Value>) returns (outcome: Outcome<Field>)
    ensures outcome == Meaning(Gateway(), Lines(text), config)
    ensures outcome.Done? <==> Readable(Lines(text))
    ensures outcome.Done? ==> forall f :: HasLastSetting(Lines(text), config, outcome.config, f)
  {
    var reader := new Reader(Gateway(), text, config);
    outcome := reader.Load();
    CompletesIff(Gateway(), Lines(text), config);
    if outcome.Done? {
      forall f ensures HasLastSetting(Lines(text), config, outcome.config, f) {
        LastSettingWins(Lines(text), config, f);
      }
    }
  }

  /** The section that was taken out of the program still makes it hang. */
  lemma GoodsSectionSticks(config: map<Field, Value>)
    ensures Meaning(Gateway(), ["[GOODS]"], config) == Stuck("[GOODS]")
  {
    var name := "[GOODS]";
    assert name[1] == 'G';
    UnknownHeaderSticks(Gateway(), name, config);
  }
}
