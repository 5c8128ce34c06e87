/** `BdxInitConfig` as it runs: an outer loop over sections, each read by a loop of its own. */
module ConfigReader {
  import opened CText
  import opened ConfText
  import opened Config

  lemma DropBlanksTwice(s: string)
    ensures DropBlanks(DropBlanks(s)) == DropBlanks(s)
  {
  }

  /** After its blanks are dropped a line can be trimmed on the right unless it starts with a remark. */
  lemma ContentAfterTrim(t: string)
    requires t == "" || !IsBlank(t[0])
    ensures t == "" || Content(t) != "" <==> t == "" || t[0] != '#'
    ensures t != "" && t[0] != '#' ==> Content(t) != "" && Content(t)[0] == t[0]
    ensures Content("") == ""
  {
    if t != "" && t[0] != '#' {
      ContentOfKey(t);
      var cut := t[..IndexOf(t, '#')];
      assert cut[0] == t[0];
      KeepsFirst(cut);
    }
  }

  /** `ConfTrim`. */
  method Trim(a: array<char>, ghost text: string) returns (defined: bool)
    requires Holds(a, 0, text)
    modifies a
    ensures var t := DropBlanks(text);
            && (defined <==> t == "" || t[0] != '#')
            && (defined ==> Holds(a, 0, Content(t)))
  {
    TrimLeft(a, 0, text);
    DropBlanksIsSuffix(text);
    ContentAfterTrim(DropBlanks(text));
    defined := TrimRight(a, DropBlanks(text));
  }

  /** `ConfIsValid`: neither empty nor a remark; drops leading blanks on the way. */
  method IsValid(a: array<char>, ghost text: string) returns (valid: bool)
    requires Holds(a, 0, text)
    modifies a
    ensures valid <==> DropBlanks(text) != "" && text[0] != '#'
    ensures valid ==> Holds(a, 0, DropBlanks(text))
  {
    HeldChar(a, 0, text, 0);
    if a[0] == '#' { return false; }
    TrimLeft(a, 0, text);
    HeldChar(a, 0, DropBlanks(text), 0);
    valid := a[0] != NUL;
  }

  /** What a section reader makes of a line. */
  method Examine(a: array<char>, ghost text: string) returns (line: Line)
    requires Holds(a, 0, text)
    modifies a
    ensures line == Classify(text)
  {
    var valid := IsValid(a, text);
    if !valid { return Ignored; }
    ghost var t := DropBlanks(text);
    DropBlanksTwice(text);
    var defined := Trim(a, t);
    if !defined { return Bad; }
    DropBlanksIsSuffix(text);
    ContentAfterTrim(t);
    line := Parse(a, Content(t));
  }

  /** A trimmed line: a header, a setting, or nothing of interest. */
  method Parse(a: array<char>, ghost text: string) returns (line: Line)
    requires Holds(a, 0, text) && text != "" && !IsBlank(text[0]) && text[0] != '#'
    modifies a
    ensures var i := IndexOf(text, '=');
            line == if text[0] == '[' then Header(text)
                    else if i < |text| then Setting(Content(text[..i]), DropBlanks(text[i + 1..]))
                    else Ignored
  {
    HeldChar(a, 0, text, 0);
    if a[0] == '[' {
      var name := ReadText(a, 0, text);
      return Header(name);
    }
    var found, at := KeyValue(a, text);
    if !found { return Ignored; }
    ghost var i := IndexOf(text, '=');
    var key := ReadText(a, 0, Content(text[..i]));
    var value := ReadText(a, at, DropBlanks(text[i + 1..]));
    line := Setting(key, value);
  }

  /** What the search for the first header makes of a line. */
  method ExamineEarly(a: array<char>, ghost text: string) returns (line: Line)
    requires Holds(a, 0, text)
    modifies a
    ensures line == if ClassifyEarly(text).Setting? then Ignored else ClassifyEarly(text)
  {
    ghost var t := DropBlanks(text);
    DropBlanksIsSuffix(text);
    ContentAfterTrim(t);
    var defined := Trim(a, text);
    if !defined { return Bad; }
    ghost var u := Content(t);
    assert DropBlanks(u) == u;
    var valid := IsValid(a, u);
    if !valid { return Ignored; }
    HeldChar(a, 0, u, 0);
    if a[0] != '[' { return Ignored; }
    var name := ReadText(a, 0, u);
    line := Header(name);
  }

  /** One read stops at the first newline. */
  lemma FirstNewline(text: string)
    requires text != ""
    ensures var n := LineLength(text);
            '\n' !in text[..n - 1] && (text[n - 1] == '\n' || n == 1023 || n == |text|)
  {
    IndexOfIsFirst(text, '\n');
  }

  class Reader<!F(==)> {
    const schema: Schema<F>
    /** The part of the file not read yet. */
    var unread: string
    var config: map<F, Value>

    constructor (schema: Schema<F>, text: string, config: map<F, Value>)
      ensures this.schema == schema && unread == text && this.config == config
    {
      this.schema, this.unread, this.config := schema, text, config;
    }

    /** `fgets`: the next line and a NUL, without touching the rest of the buffer.  It takes `line`: through the
        first newline, or 1023 characters, or what is left, whichever ends first. */
    method GetLine(buf: array<char>) returns (ok: bool, ghost line: string)
      requires buf.Length == PACKET
      modifies this`unread, buf
      ensures ok == (old(unread) != "")
      ensures ok ==> Holds(buf, 0, LineOf(old(unread))) && unread == old(unread)[LineLength(old(unread))..]
      ensures !ok ==> unread == old(unread)
      ensures ok ==> old(unread) == line + unread && 0 < |line| <= 1023 && '\n' !in line[..|line| - 1]
                     && (line[|line| - 1] == '\n' || |line| == 1023 || unread == "")
      ensures ok ==> exists e | 0 <= e <= |line| ::
                       Holds(buf, 0, line[..e]) && NUL !in line[..e] && (e == |line| || line[e] == NUL)
    {
      ok := unread != "";
      line := "";
      if ok {
        var n := LineLength(unread);
        for i := 0 to n
          invariant unread == old(unread)
          invariant forall k :: 0 <= k < i ==> buf[k] == unread[k]
        {
          buf[i] := unread[i];
        }
        buf[n] := NUL;
        line := unread[..n];
        FirstNewline(unread);
        ghost var end := IndexOf(line, NUL);
        assert buf[end] == NUL;
        IndexOfIsFirst(line, NUL);
        unread := unread[n..];
        assert Holds(buf, 0, line[..end]) && NUL !in line[..end];
      }
    }

    /** One section reader: settings go to `section` until the next header or the end of the file, for
        which `next` is empty. */
    method ReadSection(section: string) returns (defined: bool, next: string)
      requires schema.known(section)
      modifies this
      ensures var whole := Fold(schema, section, Lines(old(unread)), old(config));
              whole == if !defined then Undefined
                       else if next == "" then Done(config)
                       else Fold(schema, next, Lines(unread), config)
      ensures defined && next != "" ==> |unread| < |old(unread)|
    {
      var buf := new char[PACKET];
      next := "";
      while true
        invariant |unread| <= |old(unread)|
        invariant Fold(schema, section, Lines(old(unread)), old(config)) == Fold(schema, section, Lines(unread), config)
        decreases |unread|
        modifies this, buf
      {
        ghost var text := LineOf(unread);
        ghost var before := unread;
        var ok, _ := GetLine(buf);
        if !ok { return true, ""; }
        assert Lines(before)[0] == text && Lines(before)[1..] == Lines(unread);
        var line := Examine(buf, text);
        match line {
          case Ignored =>
          case Bad => return false, "";
          case Header(name) =>
            HeadersAreVisible(text);
            return true, name;
          case Setting(key, value) => config := Assign(config, schema.target(section, key, value));
        }
      }
    }

    /** Skips to the first header; `Ignored` stands for the end of the file. */
    method FindHeader() returns (first: Line)
      modifies this`unread
      ensures first.Header? || first.Bad? || first.Ignored?
      ensures Meaning(schema, Lines(old(unread)), config) ==
              if first.Header? then Fold(schema, first.name, Lines(unread), config)
              else if first.Bad? then Undefined else NoHeader
      ensures first.Header? ==> first.name != ""
    {
      var buf := new char[PACKET];
      while true
        invariant Meaning(schema, Lines(old(unread)), config) == Meaning(schema, Lines(unread), config)
        decreases |unread|
        modifies this`unread, buf
      {
        ghost var text := LineOf(unread);
        ghost var before := unread;
        var ok, _ := GetLine(buf);
        if !ok { return Ignored; }
        assert Lines(before)[0] == text && Lines(before)[1..] == Lines(unread);
        first := ExamineEarly(buf, text);
        if first.Header? { HeadersAreVisible(text); }
        if !first.Ignored? { return; }
      }
    }

    /** `BdxInitConfig`.  On an unrecognised header the program never leaves its loop; here that is the
        outcome `Stuck`. */
    method Load() returns (outcome: Outcome<F>)
      modifies this
      ensures outcome == Meaning(schema, Lines(old(unread)), old(config))
      ensures outcome.Done? ==> outcome.config == config
    {
      var first := FindHeader();
      if !first.Header? { return if first.Bad? then Undefined else NoHeader; }
      var section := first.name;
      while section != ""
        invariant Meaning(schema, Lines(old(unread)), old(config)) ==
                  if section == "" then Done(config) else Fold(schema, section, Lines(unread), config)
        decreases section != "", |unread|
      {
        if !schema.known(section) { return Stuck(section); }
        var defined, next := ReadSection(section);
        if !defined { return Undefined; }
        section := next;
      }
      outcome := Done(config);
    }
  }

  lemma HeadersAreVisible(text: string)
    requires Classify(text).Header?
    ensures Classify(text).name != ""
  {
    DropBlanksIsSuffix(text);
    ContentAfterTrim(DropBlanks(text));
  }
}
