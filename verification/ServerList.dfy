/** `redis_serv_list`: the list of Redis servers, "n;host:port,idx;host:port;...". */
module ServerList {
  import opened CText
  import opened Options

  datatype Server = Server(host: string, port: nat, idx: nat)

  /** `Undefined`: a missing ';' or an entry of 256 characters or more is read past its end.
      `Failed` keeps the servers found before the entry without ':'. */
  datatype Parsed = Undefined | Failed(servers: seq<Server>) | Done(servers: seq<Server>)

  /** Reads a number at the start of a string. */
  type Reading = string -> nat

  function Cut16(n: int): nat { n % 0x1_0000 }

  function Cut32(n: int): nat { n % 0x1_0000_0000 }

  /** Ports and indices are cut to 16 bits, the count to 32. */
  function Read16(s: string): nat { Cut16(Atoi(s)) }

  function Read32(s: string): nat { Cut32(Atoi(s)) }

  function ParseEntry(u16: Reading, e: string): Option<Server> {
    var colon := IndexOf(e, ':');
    if colon == |e| then None
    else
      var tail := e[colon..];
      var comma := IndexOf(tail, ',');
      var idx := if comma == |tail| then 0 else u16(tail[comma + 1..]);
      Some(Server(e[..colon], u16(tail[1..]), idx))
  }

  function Prepend(s: Server, p: Parsed): Parsed {
    match p
    case Undefined => Undefined
    case Failed(servers) => Failed([s] + servers)
    case Done(servers) => Done([s] + servers)
  }

  /** How one entry is read. */
  type Parser = string -> Option<Server>

  function Entry(u16: Reading): Parser { e => ParseEntry(u16, e) }

  function ParseEntries(parse: Parser, rest: string, n: nat): Parsed {
    if n == 0 then Done([])
    else
      var i := IndexOf(rest, ';');
      if i == |rest| || i >= 256 then Undefined
      else
        var entry := parse(rest[..i]);
        if entry.None? then Failed([]) else Prepend(entry.value, ParseEntries(parse, rest[i + 1..], n - 1))
  }

  function ParseWith(u16: Reading, u32: Reading, s: string): Parsed {
    var i := IndexOf(s, ';');
    if u32(s) == 0 then Done([]) else if i == |s| then Undefined else ParseEntries(Entry(u16), s[i + 1..], u32(s))
  }

  function Parse(s: string): Parsed { ParseWith(Read16, Read32, s) }

  // ---------------------------------------------------------------------------------------------
  // There and back

  /** An entry; an index of 0 may be left out. */
  function PrintEntry(s: Server, short: bool): string {
    s.host + [':'] + if short then Print(s.port) else Print(s.port) + [','] + Print(s.idx)
  }

  predicate Printable(s: Server, short: bool) {
    && ';' !in s.host && ':' !in s.host && s.port < 0x1_0000 && s.idx < 0x1_0000 && (short ==> s.idx == 0)
    && |PrintEntry(s, short)| < 256
  }

  function PrintEntries(servers: seq<Server>, short: seq<bool>): seq<string>
    requires |short| == |servers|
  {
    seq(|servers|, i requires 0 <= i < |servers| => PrintEntry(servers[i], short[i]))
  }

  /** Each text followed by ';'. */
  function Terminated(es: seq<string>): string {
    if es == [] then "" else es[0] + [';'] + Terminated(es[1..])
  }

  function PrintList(servers: seq<Server>, short: seq<bool>): string
    requires |short| == |servers|
  {
    Print(|servers|) + ([';'] + Terminated(PrintEntries(servers, short)))
  }

  lemma CutEntry(host: string, rest: string)
    requires ':' !in host
    ensures var e := host + [':'] + rest;
            var i := IndexOf(e, ':');
            i < |e| && e[..i] == host && e[i..] == [':'] + rest && e[i..][1..] == rest
  {
    IndexOfIsUnique(host + [':'] + rest, ':', |host|);
  }

  /** An entry cut at its ':' and the first ',' after it. */
  lemma EntryParts(u16: Reading, host: string, port: string, idx: string)
    requires ':' !in host && ',' !in port
    ensures ParseEntry(u16, host + [':'] + port) == Some(Server(host, u16(port), 0))
    ensures ParseEntry(u16, host + [':'] + (port + [','] + idx)) ==
            Some(Server(host, u16(port + [','] + idx), u16(idx)))
  {
    CutEntry(host, port);
    CutIndex(port, "", false);
    CutEntry(host, port + [','] + idx);
    CutIndex(port, idx, true);
  }

  lemma CutIndex(port: string, idx: string, present: bool)
    requires ',' !in port
    ensures var tail := [':'] + if present then port + [','] + idx else port;
            var i := IndexOf(tail, ',');
            if present then i < |tail| && tail[i + 1..] == idx else i == |tail|
  {
    if present {
      var tail := [':'] + (port + [','] + idx);
      IndexOfIsUnique(tail, ',', 1 + |port|);
      assert tail[1 + |port| + 1..] == idx;
    } else {
      IndexOfIsUnique([':'] + port, ',', 1 + |port|);
    }
  }

  lemma OneEntry(parse: Parser, e: string, rest: string, n: nat)
    requires n > 0 && ';' !in e && |e| < 256 && parse(e).Some?
    ensures ParseEntries(parse, e + [';'] + rest, n) == Prepend(parse(e).value, ParseEntries(parse, rest, n - 1))
  {
    var s := e + [';'] + rest;
    IndexOfIsUnique(s, ';', |e|);
    assert s[..|e|] == e && s[|e| + 1..] == rest;
  }

  /** What ends the reading early: an entry without ':', one of 256 characters or more, and one without ';'. */
  lemma EntryErrors(u16: Reading, e: string, rest: string, n: nat)
    requires n > 0 && ';' !in e
    ensures |e| < 256 && ':' !in e ==> ParseEntries(Entry(u16), e + [';'] + rest, n) == Failed([])
    ensures |e| >= 256 ==> ParseEntries(Entry(u16), e + [';'] + rest, n) == Undefined
    ensures ParseEntries(Entry(u16), e, n) == Undefined
  {
    var s := e + [';'] + rest;
    IndexOfIsUnique(s, ';', |e|);
    IndexOfIsUnique(e, ';', |e|);
    assert s[..|e|] == e;
    if ':' !in e { IndexOfIsUnique(e, ':', |e|); }
  }

  predicate IsEntry(parse: Parser, e: string, s: Server) { ';' !in e && |e| < 256 && parse(e) == Some(s) }

  lemma {:induction false} TerminatedParses(parse: Parser, es: seq<string>, servers: seq<Server>)
    requires |es| == |servers| && forall k :: 0 <= k < |es| ==> IsEntry(parse, es[k], servers[k])
    ensures ParseEntries(parse, Terminated(es), |es|) == Done(servers)
  {
    if es != [] {
      assert IsEntry(parse, es[0], servers[0]);
      OneEntry(parse, es[0], Terminated(es[1..]), |es|);
      TerminatedParses(parse, es[1..], servers[1..]);
    }
  }

  lemma PrintedDigits(n: int)
    ensures ',' !in Print(n) && ';' !in Print(n)
  {
  }

  /** Whatever reads the printed numbers of an entry reads the entry. */
  predicate ReadsEntry(u16: Reading, s: Server) {
    && u16(Print(s.port)) == s.port && u16(Print(s.idx)) == s.idx
    && u16(Print(s.port) + [','] + Print(s.idx)) == s.port
  }

  lemma EntryRoundTrip(u16: Reading, s: Server, short: bool)
    requires Printable(s, short) && ReadsEntry(u16, s)
    ensures ParseEntry(u16, PrintEntry(s, short)) == Some(s) && ';' !in PrintEntry(s, short)
  {
    PrintedDigits(s.port);
    PrintedDigits(s.idx);
    EntryParts(u16, s.host, Print(s.port), Print(s.idx));
  }

  lemma ParseCounted(u16: Reading, u32: Reading, count: string, body: string)
    requires ';' !in count
    ensures var s := count + ([';'] + body);
            ParseWith(u16, u32, s) == if u32(s) == 0 then Done([]) else ParseEntries(Entry(u16), body, u32(s))
  {
    var s := count + ([';'] + body);
    IndexOfIsUnique(s, ';', |count|);
    assert s[|count| + 1..] == body;
  }

  lemma Read16OfPrint(n: int, rest: string)
    requires -0x8000_0000 <= n < 0x8000_0000 && (rest == "" || !IsDigit(rest[0]))
    ensures Read16(Print(n)) == Cut16(n) && Read16(Print(n) + rest) == Cut16(n) && (0 <= n < 0x1_0000 ==> Cut16(n) == n)
  {
    AtoiOfPrint(n, rest);
    AtolOfPrint(n);
  }

  lemma Read32OfPrint(n: int, rest: string)
    requires -0x8000_0000 <= n < 0x8000_0000 && (rest == "" || !IsDigit(rest[0]))
    ensures Read32(Print(n) + rest) == if n < 0 then n + 0x1_0000_0000 else n
  {
    AtoiOfPrint(n, rest);
  }

  lemma ReadsEveryEntry(s: Server)
    requires s.port < 0x1_0000 && s.idx < 0x1_0000
    ensures ReadsEntry(Read16, s)
  {
    Read16OfPrint(s.port, [','] + Print(s.idx));
    assert Print(s.port) + ([','] + Print(s.idx)) == Print(s.port) + [','] + Print(s.idx);
    Read16OfPrint(s.idx, "");
  }

  /** A printed list is read back exactly, a missing index being 0. */
  lemma ListRoundTrip(servers: seq<Server>, short: seq<bool>)
    requires |short| == |servers| < 0x8000_0000 && forall k :: 0 <= k < |servers| ==> Printable(servers[k], short[k])
    ensures Parse(PrintList(servers, short)) == Done(servers)
  {
    forall k | 0 <= k < |servers| ensures ReadsEntry(Read16, servers[k]) { ReadsEveryEntry(servers[k]); }
    Read32OfPrint(|servers|, [';'] + Terminated(PrintEntries(servers, short)));
    ListParses(Read16, Read32, servers, short);
  }

  lemma ListParses(u16: Reading, u32: Reading, servers: seq<Server>, short: seq<bool>)
    requires |short| == |servers|
    requires forall k :: 0 <= k < |servers| ==> Printable(servers[k], short[k]) && ReadsEntry(u16, servers[k])
    requires u32(PrintList(servers, short)) == |servers|
    ensures ParseWith(u16, u32, PrintList(servers, short)) == Done(servers)
  {
    var es := PrintEntries(servers, short);
    forall k | 0 <= k < |es| ensures IsEntry(Entry(u16), es[k], servers[k]) {
      EntryRoundTrip(u16, servers[k], short[k]);
    }
    TerminatedParses(Entry(u16), es, servers);
    PrintedDigits(|servers|);
    ParseCounted(u16, u32, Print(|servers|), Terminated(es));
  }

  // ---------------------------------------------------------------------------------------------
  // The string a worker builds

  function WorkerEntry(host: string, port: nat, idx: int): string { host + [':'] + (Print(port) + [','] + Print(idx)) }

  function WorkerList(count: int, host: string, port: nat, idx: int): string {
    Print(count) + ([';'] + (WorkerEntry(host, port, idx) + [';'] + ""))
  }

  lemma WorkerListWith(u16: Reading, u32: Reading, count: int, host: string, port: nat, idx: int, n: nat, x: nat)
    requires ';' !in host && ':' !in host && |WorkerEntry(host, port, idx)| < 256
    requires u32(WorkerList(count, host, port, idx)) == n
    requires u16(Print(port) + [','] + Print(idx)) == port && u16(Print(idx)) == x
    ensures ParseWith(u16, u32, WorkerList(count, host, port, idx)) ==
            if n == 0 then Done([]) else if n == 1 then Done([Server(host, port, x)]) else Undefined
  {
    var e := WorkerEntry(host, port, idx);
    PrintedDigits(count);
    PrintedDigits(port);
    PrintedDigits(idx);
    ParseCounted(u16, u32, Print(count), e + [';'] + "");
    EntryParts(u16, host, Print(port), Print(idx));
    if n > 0 { OneEntry(Entry(u16), e, "", n); }
  }

  /** The worker names one server whatever the configured count is: the list is read back as that
      server exactly when the count is 1. */
  lemma WorkerListParses(count: int, host: string, port: nat, idx: int)
    requires -0x8000_0000 <= count < 0x8000_0000 && -0x8000_0000 <= idx < 0x8000_0000
    requires ';' !in host && ':' !in host && port < 0x1_0000 && |WorkerEntry(host, port, idx)| < 256
    ensures Parse(WorkerList(count, host, port, idx)) ==
            if count == 1 then Done([Server(host, port, Cut16(idx))])
            else if count == 0 then Done([])
            else Undefined
  {
    WorkerCount(count, WorkerEntry(host, port, idx) + [';'] + "");
    WorkerPort(port, idx);
    Read16OfPrint(idx, "");
    var n := if count < 0 then count + 0x1_0000_0000 else count;
    WorkerListWith(Read16, Read32, count, host, port, idx, n, Cut16(idx));
  }

  lemma WorkerCount(count: int, body: string)
    requires -0x8000_0000 <= count < 0x8000_0000
    ensures Read32(Print(count) + ([';'] + body)) == if count < 0 then count + 0x1_0000_0000 else count
  {
    Read32OfPrint(count, [';'] + body);
  }

  lemma WorkerPort(port: nat, idx: int)
    requires port < 0x1_0000
    ensures Read16(Print(port) + [','] + Print(idx)) == port
  {
    Read16OfPrint(port, [','] + Print(idx));
    assert Print(port) + ([','] + Print(idx)) == Print(port) + [','] + Print(idx);
  }

  // ---------------------------------------------------------------------------------------------
  // The loop

  /** The three lists the loop fills. */
  function Zip(hosts: seq<string>, ports: seq<nat>, idxs: seq<nat>): (r: seq<Server>)
    requires |hosts| == |ports| == |idxs|
    ensures |r| == |hosts|
  {
    seq(|hosts|, i requires 0 <= i < |hosts| => Server(hosts[i], ports[i], idxs[i]))
  }

  datatype Status = Bad | False | True

  function Outcome(status: Status, servers: seq<Server>): Parsed {
    match status
    case Bad => Undefined
    case False => Failed(servers)
    case True => Done(servers)
  }

  function PrependAll(front: seq<Server>, p: Parsed): Parsed {
    match p
    case Undefined => Undefined
    case Failed(servers) => Failed(front + servers)
    case Done(servers) => Done(front + servers)
  }

  lemma PrependMore(front: seq<Server>, s: Server, p: Parsed)
    ensures PrependAll(front, Prepend(s, p)) == PrependAll(front + [s], p)
  {
  }

  lemma PrependNothing(p: Parsed)
    ensures PrependAll([], p) == p
  {
  }

  lemma NextEntry(parse: Parser, rest: string, n: nat, front: seq<Server>)
    requires n > 0
    ensures var i := IndexOf(rest, ';');
            PrependAll(front, ParseEntries(parse, rest, n)) ==
            if i == |rest| || i >= 256 then Undefined
            else
              var entry := parse(rest[..i]);
              if entry.None? then Failed(front)
              else PrependAll(front + [entry.value], ParseEntries(parse, rest[i + 1..], n - 1))
  {
    var i := IndexOf(rest, ';');
    if i < |rest| && i < 256 && parse(rest[..i]).Some? {
      PrependMore(front, parse(rest[..i]).value, ParseEntries(parse, rest[i + 1..], n - 1));
    }
    assert front + [] == front;
  }

  lemma ZipOne(hosts: seq<string>, ports: seq<nat>, idxs: seq<nat>, s: Server)
    requires |hosts| == |ports| == |idxs|
    ensures Zip(hosts + [s.host], ports + [s.port], idxs + [s.idx]) == Zip(hosts, ports, idxs) + [s]
  {
  }

  method RedisServList(u16: Reading, u32: Reading, s: string)
    returns (status: Status, hosts: seq<string>, ports: seq<nat>, idxs: seq<nat>)
    ensures |hosts| == |ports| == |idxs|
    ensures Outcome(status, Zip(hosts, ports, idxs)) == ParseWith(u16, u32, s)
  {
    var count := u32(s);
    var token := IndexOf(s, ';');
    if count == 0 || token == |s| {
      status, hosts, ports, idxs := if count == 0 then True else Bad, [], [], [];
      assert Zip(hosts, ports, idxs) == [];
    } else {
      status, hosts, ports, idxs := ReadEntries(u16, s[token + 1..], count);
    }
  }

  method ReadEntries(u16: Reading, text: string, count: nat)
    returns (status: Status, hosts: seq<string>, ports: seq<nat>, idxs: seq<nat>)
    ensures |hosts| == |ports| == |idxs|
    ensures Outcome(status, Zip(hosts, ports, idxs)) == ParseEntries(Entry(u16), text, count)
  {
    status, hosts, ports, idxs := PushEntries(u16, text, count, [], [], []);
    assert Zip([], [], []) == [];
    PrependNothing(ParseEntries(Entry(u16), text, count));
  }

  /** Pushes the servers of `count` entries onto the three lists. */
  method PushEntries(u16: Reading, text: string, count: nat, hosts0: seq<string>, ports0: seq<nat>, idxs0: seq<nat>)
    returns (status: Status, hosts: seq<string>, ports: seq<nat>, idxs: seq<nat>)
    requires |hosts0| == |ports0| == |idxs0|
    ensures |hosts| == |ports| == |idxs|
    ensures Outcome(status, Zip(hosts, ports, idxs)) ==
            PrependAll(Zip(hosts0, ports0, idxs0), ParseEntries(Entry(u16), text, count))
  {
    hosts, ports, idxs := hosts0, ports0, idxs0;
    ghost var done := Zip(hosts, ports, idxs);
    ghost var whole := PrependAll(done, ParseEntries(Entry(u16), text, count));
    var rest := text;
    for i := 0 to count
      invariant |hosts| == |ports| == |idxs| && Zip(hosts, ports, idxs) == done
      invariant whole == PrependAll(done, ParseEntries(Entry(u16), rest, count - i))
    {
      var entry, after := ReadEntry(u16, rest, count - i, done);
      if entry.Undefined? { return Bad, hosts, ports, idxs; }
      if entry.Failed? { return False, hosts, ports, idxs; }
      var s := entry.servers[0];
      ZipOne(hosts, ports, idxs, s);
      hosts, ports, idxs, done, rest := hosts + [s.host], ports + [s.port], idxs + [s.idx], done + [s], after;
    }
    assert done + [] == done;
    status := True;
  }

  /** The next entry and what follows it. */
  method ReadEntry(u16: Reading, rest: string, ghost n: nat, ghost front: seq<Server>)
    returns (entry: Parsed, after: string)
    requires n > 0
    ensures entry.Done? ==> |entry.servers| == 1
    ensures PrependAll(front, ParseEntries(Entry(u16), rest, n)) ==
            match entry
            case Undefined => Undefined
            case Failed(_) => Failed(front)
            case Done(servers) => PrependAll(front + [servers[0]], ParseEntries(Entry(u16), after, n - 1))
  {
    var token := IndexOf(rest, ';');
    if token == |rest| || token >= 256 {
      entry, after := Undefined, "";
    } else {
      entry := ParseToken(u16, rest[..token]);
      after := rest[token + 1..];
    }
    NextEntry(Entry(u16), rest, n, front);
  }

  method ParseToken(u16: Reading, serv: string) returns (entry: Parsed)
    ensures entry == if Entry(u16)(serv).None? then Failed([]) else Done([Entry(u16)(serv).value])
  {
    var e := ParseServer(u16, serv);
    entry := if e.None? then Failed([]) else Done([e.value]);
  }

  method ParseServer(u16: Reading, serv: string) returns (server: Option<Server>)
    ensures server == Entry(u16)(serv)
  {
    var colon := IndexOf(serv, ':');
    if colon == |serv| { return None; }
    var port := serv[colon..];
    var idx := IndexOf(port, ',');
    server := Some(Server(serv[..colon], u16(port[1..]), if idx == |port| then 0 else u16(port[idx + 1..])));
  }
}
