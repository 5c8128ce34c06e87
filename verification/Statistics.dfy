/** Per-user counters: each worker counts on its own, and a collector merges, reports and resets. */
module Statistics {

  // ---------------------------------------------------------------------------------------------
  // 64-bit counters

  const WRAP: nat := 0x1_0000_0000_0000_0000

  type Count = x: int | 0 <= x < WRAP

  /** Addition that wraps around. */
  function Add(a: Count, b: Count): Count { if a + b < WRAP then a + b else a + b - WRAP }

  lemma AddIsModular(a: Count, b: Count)
    ensures Add(a, b) == (a + b) % WRAP
  {
  }

  lemma AddCommutes(a: Count, b: Count)
    ensures Add(a, b) == Add(b, a) && Add(a, 0) == a
  {
  }

  lemma AddAssociates(a: Count, b: Count, c: Count)
    ensures Add(Add(a, b), c) == Add(a, Add(b, c)) && Add(Add(a, b), c) == Add(Add(a, c), b)
  {
  }

  // ---------------------------------------------------------------------------------------------
  // Reports

  datatype Info = Info(req: Count, res: Count, empty: Count, tag: Count, error: Count,
                       totalReq: Count, totalRes: Count, totalEmpty: Count)

  const ZERO := Info(0, 0, 0, 0, 0, 0, 0, 0)

  /** The counters; merging leaves the three totals out. */
  datatype Counter = Req | Res | Empty | Tag | Error | TotalReq | TotalRes | TotalEmpty

  predicate Merged(c: Counter) { c.Req? || c.Res? || c.Empty? || c.Tag? || c.Error? }

  function Value(i: Info, c: Counter): Count {
    match c
    case Req => i.req
    case Res => i.res
    case Empty => i.empty
    case Tag => i.tag
    case Error => i.error
    case TotalReq => i.totalReq
    case TotalRes => i.totalRes
    case TotalEmpty => i.totalEmpty
  }

  function Bump(i: Info, c: Counter): Info {
    match c
    case Req => i.(req := Add(i.req, 1))
    case Res => i.(res := Add(i.res, 1))
    case Empty => i.(empty := Add(i.empty, 1))
    case Tag => i.(tag := Add(i.tag, 1))
    case Error => i.(error := Add(i.error, 1))
    case TotalReq => i.(totalReq := Add(i.totalReq, 1))
    case TotalRes => i.(totalRes := Add(i.totalRes, 1))
    case TotalEmpty => i.(totalEmpty := Add(i.totalEmpty, 1))
  }

  function Plus(a: Info, b: Info): Info {
    a.(req := Add(a.req, b.req), res := Add(a.res, b.res), empty := Add(a.empty, b.empty), tag := Add(a.tag, b.tag),
       error := Add(a.error, b.error))
  }

  type Report = map<string, Info>

  /** A user's counters; looking a user up creates zeros. */
  function Of(r: Report, user: string): Info { if user in r then r[user] else ZERO }

  function Merge(r: Report, other: Report): Report {
    map user | user in r.Keys + other.Keys :: Plus(Of(r, user), Of(other, user))
  }

  function At(r: Report, user: string, c: Counter): Count { Value(Of(r, user), c) }

  lemma MergeAt(r: Report, other: Report, user: string, c: Counter)
    ensures At(Merge(r, other), user, c) ==
            if Merged(c) then Add(At(r, user, c), At(other, user, c)) else At(r, user, c)
  {
  }

  lemma OfMerge(r: Report, other: Report, user: string)
    ensures Of(Merge(r, other), user) == Plus(Of(r, user), Of(other, user))
  {
  }

  lemma MergeKeys(r: Report, other: Report)
    ensures Merge(r, other).Keys == r.Keys + other.Keys
  {
  }

  lemma SameReports(a: Report, b: Report)
    requires a.Keys == b.Keys && forall user :: user in a ==> Of(a, user) == Of(b, user)
    ensures a == b
  {
  }

  /** Which of two workers is merged first makes no difference. */
  lemma MergeCommutes(r: Report, a: Report, b: Report)
    ensures Merge(Merge(r, a), b) == Merge(Merge(r, b), a)
  {
    var x, y := Merge(Merge(r, a), b), Merge(Merge(r, b), a);
    assert x.Keys == y.Keys by {
      MergeKeys(r, a);
      MergeKeys(r, b);
      MergeKeys(Merge(r, a), b);
      MergeKeys(Merge(r, b), a);
    }
    forall user | user in x ensures Of(x, user) == Of(y, user) { MergeCommutesAt(r, a, b, user); }
    SameReports(x, y);
  }

  lemma MergeCommutesAt(r: Report, a: Report, b: Report, user: string)
    ensures Of(Merge(Merge(r, a), b), user) == Of(Merge(Merge(r, b), a), user)
  {
    OfMerge(r, a, user);
    OfMerge(r, b, user);
    OfMerge(Merge(r, a), b, user);
    OfMerge(Merge(r, b), a, user);
    PlusCommutes(Of(r, user), Of(a, user), Of(b, user));
  }

  lemma PlusCommutes(i: Info, a: Info, b: Info)
    ensures Plus(Plus(i, a), b) == Plus(Plus(i, b), a)
  {
  }

  // ---------------------------------------------------------------------------------------------
  // Runs

  /** What the statistics file shows of a user: four of the counters. */
  datatype Line = Line(req: Count, res: Count, empty: Count, tag: Count)

  predicate Shown(c: Counter) { c.Req? || c.Res? || c.Empty? || c.Tag? }

  type Lines = map<string, Line>

  function Print(r: Report): Lines {
    map user | user in r :: Line(r[user].req, r[user].res, r[user].empty, r[user].tag)
  }

  /** A column of a user's line, 0 for a user without one. */
  function Column(p: Lines, user: string, c: Counter): Count
    requires Shown(c)
  {
    if user !in p then 0
    else
      match c
      case Req => p[user].req
      case Res => p[user].res
      case Empty => p[user].empty
      case _ => p[user].tag
  }

  lemma ColumnOfPrint(r: Report, user: string, c: Counter)
    requires Shown(c)
    ensures Column(Print(r), user, c) == At(r, user, c)
  {
  }

  /** The workers' reports, the collector's, and the lines written to the file so far. */
  datatype State = State(workers: seq<Report>, report: Report, written: seq<Lines>)

  datatype Event = Increment(worker: nat, user: string, counter: Counter) | Collect(worker: nat) | Write

  function Init(n: nat): State { State(seq(n, _ => map[]), map[], []) }

  predicate Possible(s: State, e: Event) { e.Write? || e.worker < |s.workers| }

  function Next(s: State, e: Event): State
    requires Possible(s, e)
  {
    match e
    case Increment(i, user, c) =>
      s.(workers := s.workers[i := s.workers[i][user := Bump(Of(s.workers[i], user), c)]])
    case Collect(i) => s.(report := Merge(s.report, s.workers[i]), workers := s.workers[i := map[]])
    case Write => s.(written := s.written + [Print(s.report)], report := map[])
  }

  predicate IsRun(s: State, es: seq<Event>)
    decreases |es|
  {
    es == [] || (Possible(s, es[0]) && IsRun(Next(s, es[0]), es[1..]))
  }

  function After(s: State, es: seq<Event>): State
    requires IsRun(s, es)
    decreases |es|
  {
    if es == [] then s else After(Next(s, es[0]), es[1..])
  }

  /** The sum of one counter of one user over some reports. */
  function Sum(rs: seq<Report>, user: string, c: Counter): Count {
    if rs == [] then 0 else Add(At(rs[0], user, c), Sum(rs[1..], user, c))
  }

  function SumWritten(ps: seq<Lines>, user: string, c: Counter): Count
    requires Shown(c)
  {
    if ps == [] then 0 else Add(Column(ps[0], user, c), SumWritten(ps[1..], user, c))
  }

  /** What the collector and the workers hold of a counter. */
  function Held(s: State, user: string, c: Counter): Count { Add(At(s.report, user, c), Sum(s.workers, user, c)) }

  /** What the reports held of a counter whenever a run reset them. */
  function Flushed(s: State, es: seq<Event>, user: string, c: Counter): Count
    requires IsRun(s, es)
    decreases |es|
  {
    if es == [] then 0
    else Add(if es[0].Write? then At(s.report, user, c) else 0, Flushed(Next(s, es[0]), es[1..], user, c))
  }

  function Incremented(es: seq<Event>, user: string, c: Counter): nat {
    if es == [] then 0 else (if Hits(es[0], user, c) then 1 else 0) + Incremented(es[1..], user, c)
  }

  // ---------------------------------------------------------------------------------------------
  // Nothing is lost or counted twice

  lemma {:induction false} SumUpdate(rs: seq<Report>, i: nat, r: Report, user: string, c: Counter)
    requires i < |rs|
    ensures Add(Sum(rs[i := r], user, c), At(rs[i], user, c)) == Add(Sum(rs, user, c), At(r, user, c))
  {
    var x, y := At(rs[i], user, c), At(r, user, c);
    if i == 0 {
      var rest := Sum(rs[1..], user, c);
      assert rs[i := r][1..] == rs[1..];
      AddCommutes(x, y);
      AddAssociates(y, rest, x);
      AddAssociates(x, rest, y);
    } else {
      assert rs[i := r][1..] == rs[1..][i - 1 := r];
      SumUpdate(rs[1..], i - 1, r, user, c);
      var first := At(rs[0], user, c);
      AddAssociates(first, Sum(rs[1..][i - 1 := r], user, c), x);
      AddAssociates(first, Sum(rs[1..], user, c), y);
    }
  }

  predicate Hits(e: Event, user: string, c: Counter) { e.Increment? && e.user == user && e.counter == c }

  lemma Cancel(p: Count, q: Count, x: Count)
    requires Add(p, x) == Add(q, x)
    ensures p == q
  {
  }

  lemma BumpValue(i: Info, k: Counter, c: Counter)
    ensures Value(Bump(i, k), c) == if k == c then Add(Value(i, c), 1) else Value(i, c)
  {
  }

  /** What one event does to what is held of a counter: an increment adds one, a report takes its part
      away, and merging keeps it. */
  lemma StepHeld(s: State, e: Event, user: string, c: Counter)
    requires Possible(s, e) && Merged(c)
    ensures var flushed: Count := if e.Write? then At(s.report, user, c) else 0;
            var counted: Count := if Hits(e, user, c) then 1 else 0;
            Add(flushed, Held(Next(s, e), user, c)) == Add(Held(s, user, c), counted)
  {
    AddCommutes(Held(s, user, c), 0);
    AddCommutes(0, Held(Next(s, e), user, c));
    match e
    case Increment(i, u, k) => IncrementHeld(s, e, user, c);
    case Collect(i) => CollectHeld(s, i, user, c);
    case Write => AddCommutes(0, Sum(s.workers, user, c));
  }

  lemma IncrementHeld(s: State, e: Event, user: string, c: Counter)
    requires Possible(s, e) && e.Increment?
    ensures Held(Next(s, e), user, c) == if Hits(e, user, c) then Add(Held(s, user, c), 1) else Held(s, user, c)
  {
    var w := s.workers[e.worker];
    var w' := w[e.user := Bump(Of(w, e.user), e.counter)];
    BumpValue(Of(w, e.user), e.counter, c);
    var x, sum, sum' := At(w, user, c), Sum(s.workers, user, c), Sum(s.workers[e.worker := w'], user, c);
    SumUpdate(s.workers, e.worker, w', user, c);
    if Hits(e, user, c) {
      AddAssociates(sum, 1, x);
      AddCommutes(1, x);
      Cancel(sum', Add(sum, 1), x);
      AddAssociates(At(s.report, user, c), sum, 1);
    } else {
      Cancel(sum', sum, x);
    }
  }

  lemma CollectHeld(s: State, i: nat, user: string, c: Counter)
    requires i < |s.workers| && Merged(c)
    ensures Held(Next(s, Collect(i)), user, c) == Held(s, user, c)
  {
    var w := s.workers[i];
    var x, sum, sum' := At(w, user, c), Sum(s.workers, user, c), Sum(s.workers[i := map[]], user, c);
    SumUpdate(s.workers, i, map[], user, c);
    AddCommutes(sum, 0);
    MergeAt(s.report, w, user, c);
    AddAssociates(At(s.report, user, c), x, sum');
    AddCommutes(x, sum');
  }

  /** The increments of a run, counted with wrap-around. */
  function Tally(es: seq<Event>, user: string, c: Counter): Count {
    if es == [] then 0 else Add(if Hits(es[0], user, c) then 1 else 0, Tally(es[1..], user, c))
  }

  lemma {:induction false} TallyWraps(es: seq<Event>, user: string, c: Counter)
    ensures Tally(es, user, c) == Incremented(es, user, c) % WRAP
  {
    if es != [] {
      TallyWraps(es[1..], user, c);
      OneMore(Incremented(es[1..], user, c));
    }
  }

  lemma OneMore(n: nat)
    ensures (n + 1) % WRAP == Add(1, n % WRAP) && Add(0, n % WRAP) == n % WRAP
  {
  }

  lemma {:induction false} RunHeld(s: State, es: seq<Event>, user: string, c: Counter)
    requires IsRun(s, es) && Merged(c)
    ensures Add(Flushed(s, es, user, c), Held(After(s, es), user, c)) == Add(Held(s, user, c), Tally(es, user, c))
    decreases |es|
  {
    if es == [] {
      AddCommutes(0, Held(s, user, c));
    } else {
      var t, rest := Next(s, es[0]), es[1..];
      StepHeld(s, es[0], user, c);
      RunHeld(t, rest, user, c);
      var flushed: Count := if es[0].Write? then At(s.report, user, c) else 0;
      var counted: Count := if Hits(es[0], user, c) then 1 else 0;
      AddAssociates(flushed, Flushed(t, rest, user, c), Held(After(t, rest), user, c));
      AddAssociates(flushed, Held(t, user, c), Tally(rest, user, c));
      AddAssociates(Held(s, user, c), counted, Tally(rest, user, c));
    }
  }

  lemma {:induction false} InitHeld(n: nat, user: string, c: Counter)
    ensures Sum(seq(n, _ => map[]), user, c) == 0
  {
    if n > 0 {
      InitHeld(n - 1, user, c);
      var workers: seq<Report> := seq(n, _ => map[]);
      assert workers[1..] == seq(n - 1, _ => map[]);
    }
  }

  /** Over any run, whatever the interleaving, and for every merged counter: what was counted is what the
      reports held when they were reset, plus what the collector and the workers hold, modulo 2^64. */
  lemma CountsBalance(n: nat, es: seq<Event>, user: string, c: Counter)
    requires IsRun(Init(n), es) && Merged(c)
    ensures Add(Flushed(Init(n), es, user, c), Held(After(Init(n), es), user, c)) == Incremented(es, user, c) % WRAP
  {
    InitHeld(n, user, c);
    RunHeld(Init(n), es, user, c);
    TallyWraps(es, user, c);
    AddCommutes(0, Tally(es, user, c));
  }

  lemma {:induction false} SumWrittenAppend(ps: seq<Lines>, p: Lines, user: string, c: Counter)
    requires Shown(c)
    ensures SumWritten(ps + [p], user, c) == Add(SumWritten(ps, user, c), Column(p, user, c))
  {
    if ps == [] {
      assert (ps + [p])[1..] == [];
      AddCommutes(Column(p, user, c), 0);
    } else {
      assert (ps + [p])[1..] == ps[1..] + [p];
      SumWrittenAppend(ps[1..], p, user, c);
      AddAssociates(Column(ps[0], user, c), SumWritten(ps[1..], user, c), Column(p, user, c));
    }
  }

  /** What the file gains in a run is what the reports held when they were reset. */
  lemma {:induction false} WrittenIsFlushed(s: State, es: seq<Event>, user: string, c: Counter)
    requires IsRun(s, es) && Shown(c)
    ensures SumWritten(After(s, es).written, user, c) == Add(SumWritten(s.written, user, c), Flushed(s, es, user, c))
    decreases |es|
  {
    var sum := SumWritten(s.written, user, c);
    AddCommutes(sum, 0);
    if es != [] {
      var t, rest := Next(s, es[0]), es[1..];
      WrittenIsFlushed(t, rest, user, c);
      if es[0].Write? {
        SumWrittenAppend(s.written, Print(s.report), user, c);
        ColumnOfPrint(s.report, user, c);
      }
      AddAssociates(sum, if es[0].Write? then At(s.report, user, c) else 0, Flushed(t, rest, user, c));
    }
  }

  /** The four counters that are shown: counted = written in the file + collected + with the workers. */
  lemma NothingIsLost(n: nat, es: seq<Event>, user: string, c: Counter)
    requires IsRun(Init(n), es) && Shown(c)
    ensures var s := After(Init(n), es);
            Add(SumWritten(s.written, user, c), Held(s, user, c)) == Incremented(es, user, c) % WRAP
  {
    CountsBalance(n, es, user, c);
    WrittenIsFlushed(Init(n), es, user, c);
    AddCommutes(0, Flushed(Init(n), es, user, c));
  }

  /** The three totals are never merged, so no report ever holds them. */
  lemma {:induction false} TotalsAreNeverReported(s: State, es: seq<Event>, user: string, c: Counter)
    requires IsRun(s, es) && !Merged(c) && At(s.report, user, c) == 0
    ensures At(After(s, es).report, user, c) == 0 && Flushed(s, es, user, c) == 0
    decreases |es|
  {
    if es != [] {
      if es[0].Collect? { MergeAt(s.report, s.workers[es[0].worker], user, c); }
      TotalsAreNeverReported(Next(s, es[0]), es[1..], user, c);
    }
  }

  // ---------------------------------------------------------------------------------------------
  // The error counter is collected and thrown away

  /** The run without the increments that the file does not show. */
  function Visible(es: seq<Event>): seq<Event> {
    if es == [] then []
    else if es[0].Increment? && !Shown(es[0].counter) then Visible(es[1..])
    else [es[0]] + Visible(es[1..])
  }

  ghost predicate SameReport(r: Report, q: Report) {
    forall user, c {:trigger At(r, user, c)} :: Shown(c) ==> At(r, user, c) == At(q, user, c)
  }

  ghost predicate SameLines(p: Lines, q: Lines) {
    forall user, c {:trigger Column(p, user, c)} :: Shown(c) ==> Column(p, user, c) == Column(q, user, c)
  }

  /** Two states that differ in nothing the file shows, now or later. */
  ghost predicate SameState(s: State, t: State) {
    && SameReport(s.report, t.report)
    && |s.workers| == |t.workers| && (forall i :: 0 <= i < |s.workers| ==> SameReport(s.workers[i], t.workers[i]))
    && |s.written| == |t.written| && (forall i :: 0 <= i < |s.written| ==> SameLines(s.written[i], t.written[i]))
  }

  lemma BumpKeepsSame(r: Report, q: Report, user: string, k: Counter)
    requires SameReport(r, q)
    ensures !Shown(k) ==> SameReport(r[user := Bump(Of(r, user), k)], q)
    ensures Shown(k) ==> SameReport(r[user := Bump(Of(r, user), k)], q[user := Bump(Of(q, user), k)])
  {
    var r', q' := r[user := Bump(Of(r, user), k)], q[user := Bump(Of(q, user), k)];
    forall u, c | Shown(c)
      ensures At(r', u, c) == if Shown(k) then At(q', u, c) else At(q, u, c)
    {
      assert At(r, u, c) == At(q, u, c);
      BumpValue(Of(r, user), k, c);
      BumpValue(Of(q, user), k, c);
    }
  }

  lemma MergeKeepsSame(r: Report, q: Report, a: Report, b: Report)
    requires SameReport(r, q) && SameReport(a, b)
    ensures SameReport(Merge(r, a), Merge(q, b))
  {
    forall u, c | Shown(c) ensures At(Merge(r, a), u, c) == At(Merge(q, b), u, c) {
      assert At(r, u, c) == At(q, u, c) && At(a, u, c) == At(b, u, c);
      MergeAt(r, a, u, c);
      MergeAt(q, b, u, c);
    }
  }

  lemma PrintKeepsSame(r: Report, q: Report)
    requires SameReport(r, q)
    ensures SameLines(Print(r), Print(q))
  {
    forall u, c | Shown(c) ensures Column(Print(r), u, c) == Column(Print(q), u, c) {
      assert At(r, u, c) == At(q, u, c);
      ColumnOfPrint(r, u, c);
      ColumnOfPrint(q, u, c);
    }
  }

  lemma StepKeepsSame(s: State, t: State, e: Event)
    requires SameState(s, t) && Possible(s, e)
    ensures if e.Increment? && !Shown(e.counter) then SameState(Next(s, e), t)
            else Possible(t, e) && SameState(Next(s, e), Next(t, e))
  {
    match e
    case Increment(i, user, k) => BumpKeepsSame(s.workers[i], t.workers[i], user, k);
    case Collect(i) => MergeKeepsSame(s.report, t.report, s.workers[i], t.workers[i]);
    case Write => PrintKeepsSame(s.report, t.report);
  }

  lemma {:induction false} RunKeepsSame(s: State, t: State, es: seq<Event>)
    requires SameState(s, t) && IsRun(s, es)
    ensures IsRun(t, Visible(es)) && SameState(After(s, es), After(t, Visible(es)))
    decreases |es|
  {
    if es != [] {
      StepKeepsSame(s, t, es[0]);
      if es[0].Increment? && !Shown(es[0].counter) {
        RunKeepsSame(Next(s, es[0]), t, es[1..]);
      } else {
        RunKeepsSame(Next(s, es[0]), Next(t, es[0]), es[1..]);
        assert Visible(es)[1..] == Visible(es[1..]);
      }
    }
  }

  /** Errors are merged, thrown away when a report is reset, and never shown: leaving all their increments
      out of a run changes no column of any line in the file. */
  lemma ErrorsAreDiscarded(n: nat, es: seq<Event>, user: string)
    requires IsRun(Init(n), es)
    ensures Add(Flushed(Init(n), es, user, Error), Held(After(Init(n), es), user, Error)) ==
            Incremented(es, user, Error) % WRAP
    ensures IsRun(Init(n), Visible(es)) && Incremented(Visible(es), user, Error) == 0
    ensures var file, without := After(Init(n), es).written, After(Init(n), Visible(es)).written;
            |file| == |without| && forall i :: 0 <= i < |file| ==> SameLines(file[i], without[i])
  {
    CountsBalance(n, es, user, Error);
    RunKeepsSame(Init(n), Init(n), es);
    NoErrorsVisible(es, user);
  }

  function One(b: bool): Count { if b then 1 else 0 }

  lemma OneBump(c: Counter)
    requires c.Req? || c.Res? || c.Empty? || c.Tag?
    ensures var i := Plus(ZERO, Bump(ZERO, c));
            i.req == One(c.Req?) && i.res == One(c.Res?) && i.empty == One(c.Empty?) && i.tag == One(c.Tag?)
  {
  }

  /** One count of any other kind, collected and then reported: a one in its own column of the user's line. */
  lemma OneIsShown(user: string, c: Counter)
    requires c.Req? || c.Res? || c.Empty? || c.Tag?
    ensures var es := [Increment(0, user, c), Collect(0), Write];
            && IsRun(Init(1), es)
            && After(Init(1), es).written ==
               [map[user := Line(One(c.Req?), One(c.Res?), One(c.Empty?), One(c.Tag?))]]
  {
    var es := [Increment(0, user, c), Collect(0), Write];
    var s1 := Next(Init(1), es[0]);
    var s2 := Next(s1, es[1]);
    var s3 := Next(s2, es[2]);
    assert es[1..] == [Collect(0), Write] && es[1..][1..] == [Write] && es[1..][1..][1..] == [];
    assert IsRun(s3, []) && IsRun(s2, [Write]) && IsRun(s1, [Collect(0), Write]);
    assert After(s2, [Write]) == s3 && After(s1, [Collect(0), Write]) == s3;
    assert s1.workers[0] == map[user := Bump(ZERO, c)];
    assert s2.report == map[user := Plus(ZERO, Bump(ZERO, c))];
    assert After(Init(1), es) == After(s1, es[1..]) == s3;
    assert s3.written == [Print(s2.report)];
    OneBump(c);
    assert Print(s2.report) == map[user := Line(One(c.Req?), One(c.Res?), One(c.Empty?), One(c.Tag?))];
  }

  /** One error, collected and then reported: counted once, and gone. */
  lemma OneErrorIsLost(user: string)
    ensures var es := [Increment(0, user, Error), Collect(0), Write];
            && IsRun(Init(1), es) && Incremented(es, user, Error) == 1
            && Held(After(Init(1), es), user, Error) == 0 && Flushed(Init(1), es, user, Error) == 1
  {
    var es := [Increment(0, user, Error), Collect(0), Write];
    var s1 := Next(Init(1), es[0]);
    var s2 := Next(s1, es[1]);
    var s3 := Next(s2, es[2]);
    assert es[1..] == [Collect(0), Write] && es[1..][1..] == [Write] && es[1..][1..][1..] == [];
    assert IsRun(s3, []) && IsRun(s2, [Write]) && IsRun(s1, [Collect(0), Write]);
    assert After(s2, [Write]) == s3 && After(s1, [Collect(0), Write]) == s3;
    assert s1.workers == [map[user := Bump(ZERO, Error)]];
    assert s2.workers == [map[]] && s3.report == map[];
    assert Incremented([Write], user, Error) == 0 && Incremented([Collect(0), Write], user, Error) == 0;
    CountsBalance(1, es, user, Error);
    assert Held(s3, user, Error) == 0;
    AddCommutes(Flushed(Init(1), es, user, Error), 0);
  }

  /** A report loses no errors of a user exactly when it holds none, which can be seen before it is written. */
  lemma WriteKeepsErrorsIff(s: State, user: string)
    ensures Held(Next(s, Write), user, Error) == Held(s, user, Error) <==> At(s.report, user, Error) == 0
  {
    StepHeld(s, Write, user, Error);
    var held := Held(Next(s, Write), user, Error);
    AddCommutes(Held(s, user, Error), 0);
    AddCommutes(held, 0);
    AddCommutes(held, At(s.report, user, Error));
  }

  /** Over any run no error of a user is lost exactly when the reports held none whenever they were reset. */
  lemma NoErrorIsLostIff(n: nat, es: seq<Event>, user: string)
    requires IsRun(Init(n), es)
    ensures Held(After(Init(n), es), user, Error) == Incremented(es, user, Error) % WRAP
            <==> Flushed(Init(n), es, user, Error) == 0
  {
    CountsBalance(n, es, user, Error);
    AddCommutes(0, Held(After(Init(n), es), user, Error));
  }

  lemma {:induction false} NoErrorsVisible(es: seq<Event>, user: string)
    ensures Incremented(Visible(es), user, Error) == 0
  {
    if es != [] {
      NoErrorsVisible(es[1..], user);
      if !(es[0].Increment? && !Shown(es[0].counter)) { assert Visible(es)[1..] == Visible(es[1..]); }
    }
  }

  // ---------------------------------------------------------------------------------------------
  // The order of merging

  /** Applies `f` to one element after the other. */
  function Fold<A, B>(f: (A, B) -> A, a: A, bs: seq<B>): A
    decreases |bs|
  {
    if bs == [] then a else Fold(f, f(a, bs[0]), bs[1..])
  }

  ghost predicate Commutes<A(!new), B(!new)>(f: (A, B) -> A) {
    forall a, x, y {:trigger f(f(a, x), y)} :: f(f(a, x), y) == f(f(a, y), x)
  }

  lemma {:induction false} FoldFirst<A(!new), B(!new)>(f: (A, B) -> A, a: A, bs: seq<B>, i: nat)
    requires Commutes(f) && i < |bs|
    ensures Fold(f, a, bs) == Fold(f, f(a, bs[i]), bs[..i] + bs[i + 1..])
    decreases |bs|
  {
    if i == 0 {
      assert bs[..0] + bs[1..] == bs[1..];
    } else {
      var rest := bs[1..];
      FoldFirst(f, f(a, bs[0]), rest, i - 1);
      assert f(f(a, bs[0]), bs[i]) == f(f(a, bs[i]), bs[0]);
      var without := bs[..i] + bs[i + 1..];
      assert without[1..] == rest[..i - 1] + rest[i..];
    }
  }

  lemma RemoveAt<T>(s: seq<T>, i: nat)
    requires i < |s|
    ensures multiset(s[..i] + s[i + 1..]) == multiset(s) - multiset{s[i]}
  {
    assert s == s[..i] + [s[i]] + s[i + 1..];
  }

  lemma SomewhereIn<T>(x: T, s: seq<T>, t: seq<T>) returns (i: nat)
    requires x in s && multiset(s) == multiset(t)
    ensures i < |t| && t[i] == x
  {
    assert x in multiset(s);
    assert x in multiset(t);
    assert x in t;
    i :| 0 <= i < |t| && t[i] == x;
  }

  lemma RemoveBoth<T>(s: seq<T>, t: seq<T>, i: nat)
    requires s != [] && i < |t| && t[i] == s[0] && multiset(s) == multiset(t)
    ensures multiset(s[1..]) == multiset(t[..i] + t[i + 1..])
  {
    RemoveAt(s, 0);
    assert s[..0] + s[1..] == s[1..];
    RemoveAt(t, i);
  }

  lemma SameLength<T>(s: seq<T>, t: seq<T>)
    requires multiset(s) == multiset(t)
    ensures |s| == |t|
  {
    assert |multiset(s)| == |s| && |multiset(t)| == |t|;
  }

  lemma {:induction false} FoldOrder<A(!new), B(!new)>(f: (A, B) -> A, a: A, bs: seq<B>, cs: seq<B>)
    requires Commutes(f) && multiset(bs) == multiset(cs)
    ensures Fold(f, a, bs) == Fold(f, a, cs)
    decreases |bs|
  {
    SameLength(bs, cs);
    if bs != [] {
      var i := SomewhereIn(bs[0], bs, cs);
      FoldFirst(f, a, cs, i);
      RemoveBoth(bs, cs, i);
      FoldOrder(f, f(a, bs[0]), bs[1..], cs[..i] + cs[i + 1..]);
    }
  }

  /** Merging some workers one after the other. */
  function MergeAll(r: Report, rs: seq<Report>): Report { Fold(Merge, r, rs) }

  /** Any order of merging gives the same report. */
  lemma MergeOrderIsIrrelevant(r: Report, rs: seq<Report>, qs: seq<Report>)
    requires multiset(rs) == multiset(qs)
    ensures MergeAll(r, rs) == MergeAll(r, qs)
  {
    forall a: Report, x: Report, y: Report {:trigger Merge(Merge(a, x), y)}
      ensures Merge(Merge(a, x), y) == Merge(Merge(a, y), x)
    {
      MergeCommutes(a, x, y);
    }
    FoldOrder(Merge, r, rs, qs);
  }

  // ---------------------------------------------------------------------------------------------
  // The collector

  class Collector {
    /** `m_vecReport`, shared with the workers. */
    var workers: seq<Report>
    var report: Report
    /** The lines written to the statistics file. */
    var written: seq<Lines>

    ghost function Now(): State
      reads this
    {
      State(workers, report, written)
    }

    constructor (n: nat)
      ensures Now() == Init(n)
    {
      workers := seq(n, _ => map[]);
      report := map[];
      written := [];
    }

    /** A worker counts something for a user. */
    method Count(i: nat, user: string, c: Counter)
      requires i < |workers|
      modifies this
      ensures Now() == Next(old(Now()), Increment(i, user, c))
      ensures user in workers[i] && workers[i].Keys == old(workers)[i].Keys + {user}
              && var was := if user in old(workers)[i] then old(workers)[i][user] else Info(0, 0, 0, 0, 0, 0, 0, 0);
                 IsBumped(was, workers[i][user], c)
    {
      BumpIsBumped(Of(workers[i], user), c);
      workers := workers[i := workers[i][user := Bump(Of(workers[i], user), c)]];
    }

    /** `operator +=`. */
    method AddReport(other: Report)
      modifies this`report
      ensures report == Merge(old(report), other)
      ensures report.Keys == old(report).Keys + other.Keys
      ensures forall u :: u in report ==>
                IsSum(if u in old(report) then old(report)[u] else Info(0, 0, 0, 0, 0, 0, 0, 0),
                      if u in other then other[u] else Info(0, 0, 0, 0, 0, 0, 0, 0), report[u])
    {
      var todo := other.Keys;
      while todo != {}
        invariant todo <= other.Keys
        invariant report.Keys == old(report).Keys + (other.Keys - todo)
        invariant forall u :: u in report ==>
                    report[u] == if u in todo then old(report)[u] else Plus(Of(old(report), u), Of(other, u))
        decreases todo
      {
        var u :| u in todo;
        var mine, theirs := Of(report, u), other[u];
        report := report[u := Plus(mine, theirs)];
        todo := todo - {u};
      }
      PlusNothing(old(report), other);
      MergeMeans(old(report), other);
    }

    /** Merges worker `i` and clears it. */
    method CollectOne(i: nat)
      requires i < |workers|
      modifies this
      ensures Now() == Next(old(Now()), Collect(i))
    {
      AddReport(workers[i]);
      workers := workers[i := map[]];
    }

    /** `BdxQueryCountGetReport`, when nothing else happens meanwhile. */
    method CollectAll()
      modifies this
      ensures report == MergeAll(old(report), old(workers)) && written == old(written)
      ensures |workers| == |old(workers)| && forall k :: 0 <= k < |workers| ==> workers[k] == map[]
    {
      for i := 0 to |workers|
        invariant |workers| == |old(workers)| && written == old(written)
        invariant forall k :: 0 <= k < i ==> workers[k] == map[]
        invariant forall k :: i <= k < |workers| ==> workers[k] == old(workers)[k]
        invariant MergeAll(old(report), old(workers)) == MergeAll(report, old(workers)[i..])
      {
        assert old(workers)[i..][1..] == old(workers)[i + 1..];
        CollectOne(i);
      }
    }

    /** Writes the report and starts a new one. */
    method WriteReport()
      modifies this
      ensures Now() == Next(old(Now()), Write)
      ensures report == map[] && workers == old(workers) && |written| == |old(written)| + 1
      ensures old(written) <= written && written[|old(written)|].Keys == old(report).Keys
      ensures forall u :: u in old(report) ==>
                var i := old(report)[u];
                written[|old(written)|][u] == Line(i.req, i.res, i.empty, i.tag)
    {
      written := written + [Print(report)];
      report := map[];
    }
  }

  /** The counter `c` is one more, modulo 2^64, and the others are as they were. */
  predicate IsBumped(was: Info, now: Info, c: Counter) {
    now == match c
      case Req => was.(req := (was.req + 1) % 0x1_0000_0000_0000_0000)
      case Res => was.(res := (was.res + 1) % 0x1_0000_0000_0000_0000)
      case Empty => was.(empty := (was.empty + 1) % 0x1_0000_0000_0000_0000)
      case Tag => was.(tag := (was.tag + 1) % 0x1_0000_0000_0000_0000)
      case Error => was.(error := (was.error + 1) % 0x1_0000_0000_0000_0000)
      case TotalReq => was.(totalReq := (was.totalReq + 1) % 0x1_0000_0000_0000_0000)
      case TotalRes => was.(totalRes := (was.totalRes + 1) % 0x1_0000_0000_0000_0000)
      case TotalEmpty => was.(totalEmpty := (was.totalEmpty + 1) % 0x1_0000_0000_0000_0000)
  }

  lemma BumpIsBumped(i: Info, c: Counter)
    ensures IsBumped(i, Bump(i, c), c)
  {
  }

  /** The five merged counters are added modulo 2^64, the three totals stay. */
  predicate IsSum(a: Info, b: Info, sum: Info) {
    sum == a.(req := (a.req + b.req) % 0x1_0000_0000_0000_0000,
              res := (a.res + b.res) % 0x1_0000_0000_0000_0000,
              empty := (a.empty + b.empty) % 0x1_0000_0000_0000_0000,
              tag := (a.tag + b.tag) % 0x1_0000_0000_0000_0000,
              error := (a.error + b.error) % 0x1_0000_0000_0000_0000)
  }

  lemma PlusIsSum(a: Info, b: Info)
    ensures IsSum(a, b, Plus(a, b))
  {
    AddIsModular(a.req, b.req);
    AddIsModular(a.res, b.res);
    AddIsModular(a.empty, b.empty);
    AddIsModular(a.tag, b.tag);
    AddIsModular(a.error, b.error);
  }

  lemma MergeMeans(r: Report, other: Report)
    ensures Merge(r, other).Keys == r.Keys + other.Keys
    ensures forall u :: u in Merge(r, other) ==>
              IsSum(if u in r then r[u] else Info(0, 0, 0, 0, 0, 0, 0, 0),
                    if u in other then other[u] else Info(0, 0, 0, 0, 0, 0, 0, 0), Merge(r, other)[u])
  {
    MergeKeys(r, other);
    forall u | u in Merge(r, other)
      ensures IsSum(if u in r then r[u] else Info(0, 0, 0, 0, 0, 0, 0, 0),
                    if u in other then other[u] else Info(0, 0, 0, 0, 0, 0, 0, 0), Merge(r, other)[u])
    {
      OfMerge(r, other, u);
      PlusIsSum(Of(r, u), Of(other, u));
    }
  }

  lemma PlusNothing(r: Report, other: Report)
    ensures forall u :: u in r && u !in other ==> Plus(Of(r, u), Of(other, u)) == r[u]
  {
  }
}
