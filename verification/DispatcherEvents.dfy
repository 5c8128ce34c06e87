/** What the server does with the events of a batch and with the results of its workers, read off the
    actions of a run alone. */
module DispatcherEvents {
  import opened Dispatcher

  /** The server's own actions. */
  function Served(run: seq<Action>): seq<ServerAction> {
    if run == [] then [] else (if run[0].Serve? then [run[0].a] else []) + Served(run[1..])
  }

  lemma {:induction false} ServedAppend(run: seq<Action>, more: seq<Action>)
    ensures Served(run + more) == Served(run) + Served(more)
  {
    if run == [] {
      assert run + more == more;
    } else {
      assert (run + more)[1..] == run[1..] + more;
      ServedAppend(run[1..], more);
    }
  }

  predicate OfEvent(a: ServerAction) { a.Accept? || a.AcceptFails? || a.Read? || a.ReadUnknown? || a.Ignore? }

  /** Those among them that take up an event. */
  function EventActs(acts: seq<ServerAction>): seq<ServerAction> {
    if acts == [] then [] else (if OfEvent(acts[0]) then [acts[0]] else []) + EventActs(acts[1..])
  }

  lemma {:induction false} EventActsAppend(acts: seq<ServerAction>, more: seq<ServerAction>)
    ensures EventActs(acts + more) == EventActs(acts) + EventActs(more)
  {
    if acts == [] {
      assert acts + more == more;
    } else {
      assert (acts + more)[1..] == acts[1..] + more;
      EventActsAppend(acts[1..], more);
    }
  }

  /** The same for a run. */
  function EventsTaken(run: seq<Action>): seq<ServerAction> { EventActs(Served(run)) }

  lemma OneMore(run: seq<Action>, a: Action)
    ensures Served(run + [a]) == Served(run) + if a.Serve? then [a.a] else []
    ensures EventsTaken(run + [a]) == EventsTaken(run) + if a.Serve? && OfEvent(a.a) then [a.a] else []
  {
    ServedAppend(run, [a]);
    assert Served([a]) == if a.Serve? then [a.a] else [];
    EventActsAppend(Served(run), Served([a]));
    if a.Serve? { assert EventActs([a.a]) == if OfEvent(a.a) then [a.a] else []; }
  }

  /** A connection is accepted or refused, a readable descriptor is read, anything else is ignored. */
  predicate Answers(e: Event, a: ServerAction) {
    match e
    case Incoming => a.Accept? || a.AcceptFails?
    case Readable(fd) => a == Read(fd)
    case Other(_) => a == Ignore
  }

  /** One answer for each event, in order. */
  predicate AllAnswered(batch: seq<Event>, acts: seq<ServerAction>) {
    |acts| == |batch| && forall k :: 0 <= k < |batch| ==> Answers(batch[k], acts[k])
  }

  predicate InBatch(pc: ServerPc) {
    pc.Handling? || pc.Trying? || pc.Pushing? || pc.Notifying? || pc.Unlocking?
  }

  lemma {:induction false} RunAppend(s: State, run: seq<Action>, more: seq<Action>)
    requires IsRun(s, run + more)
    ensures IsRun(s, run) && IsRun(Exec(s, run), more) && Exec(s, run + more) == Exec(Exec(s, run), more)
    decreases |run|
  {
    if run == [] {
      assert run + more == more;
    } else {
      assert (run + more)[1..] == run[1..] + more;
      RunAppend(Apply(s, run[0]), run[1..], more);
    }
  }

  /** `acts` take up the first of `events`, and leave `rest`. */
  predicate Through(events: seq<Event>, acts: seq<ServerAction>, rest: seq<Event>) {
    |acts| <= |events| && rest == events[|acts|..] && AllAnswered(events[..|acts|], acts)
  }

  lemma ThroughMore(events: seq<Event>, acts: seq<ServerAction>, middle: seq<Event>, more: seq<ServerAction>,
      rest: seq<Event>)
    requires Through(events, acts, middle) && Through(middle, more, rest)
    ensures Through(events, acts + more, rest)
  {
    forall k | 0 <= k < |acts + more| ensures Answers(events[k], (acts + more)[k]) {
      if k >= |acts| { assert events[k] == middle[k - |acts|]; }
    }
  }

  /** A step in a batch takes up the next event or leaves those still to come as they are. */
  lemma StepAnswers(s: State, a: Action)
    requires Inv(s) && Enabled(s, a) && InBatch(s.server) && a != Serve(BatchDone)
    ensures Inv(Apply(s, a)) && InBatch(Apply(s, a).server)
    ensures Through(s.server.events, EventActs(Served([a])), Apply(s, a).server.events)
  {
    StepInv(s, a);
    NothingIsEverMissing(s);
    assert Served([a]) == if a.Serve? then [a.a] else [];
    if a.Serve? { assert EventActs([a.a]) == if OfEvent(a.a) then [a.a] else []; }
  }

  lemma {:induction false} RestIsAnswered(s: State, run: seq<Action>)
    requires Inv(s) && IsRun(s, run) && InBatch(s.server) && BatchDone !in Served(run)
    ensures InBatch(Exec(s, run).server)
    ensures Through(s.server.events, EventActs(Served(run)), Exec(s, run).server.events)
    decreases |run|
  {
    if run != [] {
      var a, rest := run[0], run[1..];
      assert run == [a] + rest;
      ServedAppend([a], rest);
      EventActsAppend(Served([a]), Served(rest));
      StepAnswers(s, a);
      RestIsAnswered(Apply(s, a), rest);
      ThroughMore(s.server.events, EventActs(Served([a])), Apply(s, a).server.events, EventActs(Served(rest)),
          Exec(s, run).server.events);
    }
  }

  /** Between the wait that reports a batch and the end of the batch, the server takes up every event of
      it, once and in order, however the workers run meanwhile. */
  lemma BatchIsHandled(n: nat, before: seq<Action>, batch: seq<Event>, run: seq<Action>)
    requires IsRun(Init(n), before)
    requires IsRun(Exec(Init(n), before), [Serve(Poll(batch))] + run + [Serve(BatchDone)])
    requires BatchDone !in Served(run)
    ensures AllAnswered(batch, EventsTaken(run))
  {
    InitInv(n);
    RunInv(Init(n), before);
    BatchIsHandledFrom(Exec(Init(n), before), batch, run);
  }

  lemma BatchIsHandledFrom(s: State, batch: seq<Event>, run: seq<Action>)
    requires Inv(s) && BatchDone !in Served(run)
    requires IsRun(s, [Serve(Poll(batch))] + run + [Serve(BatchDone)])
    ensures AllAnswered(batch, EventsTaken(run))
  {
    RunAppend(s, [Serve(Poll(batch))] + run, [Serve(BatchDone)]);
    RunAppend(s, [Serve(Poll(batch))], run);
    StepInv(s, Serve(Poll(batch)));
    var s1 := Exec(s, [Serve(Poll(batch))]);
    assert s1 == Apply(s, Serve(Poll(batch)));
    RestIsAnswered(s1, run);
    assert IsRun(Exec(s1, run), [Serve(BatchDone)]);
    assert batch[..|EventActs(Served(run))|] == batch;
  }

  // ---------------------------------------------------------------------------------------------
  // The results of the workers

  /** How one action ended a task of worker `i`. */
  function OutcomeOf(a: Action, i: nat): seq<bool> {
    match a
    case Work(j, Run(ok)) => if j == i then [ok] else []
    case _ => []
  }

  /** How the tasks that worker `i` ran ended. */
  function Outcomes(run: seq<Action>, i: nat): seq<bool> {
    if run == [] then [] else Outcomes(run[..|run| - 1], i) + OutcomeOf(run[|run| - 1], i)
  }

  /** What an action makes of a status of worker `i`: after a success the descriptor is armed again, or freed
      when that fails; after a failure it is freed. */
  function VerdictOf(a: Action, i: nat): seq<Status> {
    match a
    case Serve(Rearm(j, fd)) => if j == i then [Status(fd, true)] else []
    case Serve(RearmFails(j, fd)) => if j == i then [Status(fd, true)] else []
    case Serve(Drop(j, fd)) => if j == i then [Status(fd, false)] else []
    case _ => []
  }

  function Verdicts(run: seq<Action>, i: nat): seq<Status> {
    if run == [] then [] else Verdicts(run[..|run| - 1], i) + VerdictOf(run[|run| - 1], i)
  }

  /** The results of the first tasks of a worker. */
  function ResultsOf(tasks: seq<Task>, outcomes: seq<bool>): seq<Status>
    requires |outcomes| <= |tasks|
  {
    seq(|outcomes|, k requires 0 <= k < |outcomes| => Status(tasks[k].fd, outcomes[k]))
  }

  /** The results of worker `i` the server still has to deal with, oldest first. */
  function Unanswered(s: State, i: nat): seq<Status>
    requires i < |s.workers|
  {
    var w := s.workers[i];
    (if s.server.Popped? && s.server.i == i then [s.server.status] else []) + w.statuses
    + (if w.pc.Posting? then [w.pc.status] else [])
  }

  /** The tasks a worker has taken are those that ended and the one it runs; the results are the answered
      ones and the others. */
  predicate Tallied(s: State, i: nat, outcomes: seq<bool>, verdicts: seq<Status>)
    requires i < |s.workers|
  {
    var w := s.workers[i];
    && |outcomes| + One(w.pc.Running?) == |w.taken|
    && (w.pc.Running? ==> w.pc.task == w.taken[|outcomes|])
    && ResultsOf(w.taken, outcomes) == verdicts + Unanswered(s, i)
  }

  lemma OwnStepIsTallied(s: State, b: WorkerAction, i: nat, outcomes: seq<bool>, verdicts: seq<Status>)
    requires Enabled(s, Work(i, b)) && Tallied(s, i, outcomes, verdicts)
    ensures Tallied(Apply(s, Work(i, b)), i, outcomes + OutcomeOf(Work(i, b), i), verdicts)
  {
    var w, s' := s.workers[i], Apply(s, Work(i, b));
    if b.Run? {
      var result := Status(w.pc.task.fd, b.ok);
      assert ResultsOf(w.taken, outcomes + [b.ok]) == ResultsOf(w.taken, outcomes) + [result];
      assert Unanswered(s', i) == Unanswered(s, i) + [result];
    } else {
      assert outcomes + OutcomeOf(Work(i, b), i) == outcomes;
      assert ResultsOf(s'.workers[i].taken, outcomes) == ResultsOf(w.taken, outcomes);
      assert Unanswered(s', i) == Unanswered(s, i);
    }
  }

  /** A step of the server leaves what a worker runs alone, and deals with at most one of its results. */
  lemma ServerStepAnswers(s: State, b: ServerAction, i: nat)
    requires ServerEnabled(s, b) && i < |s.workers| && b != PoppedUnknown
    ensures |ServerApply(s, b).workers| == |s.workers|
    ensures var w, w' := s.workers[i], ServerApply(s, b).workers[i];
            w'.taken == w.taken && (w'.pc == w.pc || (w.pc.Asleep? && w'.pc.Woken?))
    ensures Unanswered(s, i) == VerdictOf(Serve(b), i) + Unanswered(ServerApply(s, b), i)
  {
  }

  lemma ServerStepIsTallied(s: State, b: ServerAction, i: nat, outcomes: seq<bool>, verdicts: seq<Status>)
    requires ServerEnabled(s, b) && i < |s.workers| && Tallied(s, i, outcomes, verdicts) && b != PoppedUnknown
    ensures |ServerApply(s, b).workers| == |s.workers|
    ensures Tallied(ServerApply(s, b), i, outcomes, verdicts + VerdictOf(Serve(b), i))
  {
    ServerStepAnswers(s, b, i);
  }

  lemma StepIsTallied(s: State, a: Action, i: nat, outcomes: seq<bool>, verdicts: seq<Status>)
    requires Enabled(s, a) && i < |s.workers| && Tallied(s, i, outcomes, verdicts)
    requires a != Serve(PoppedUnknown)
    ensures |Apply(s, a).workers| == |s.workers|
    ensures Tallied(Apply(s, a), i, outcomes + OutcomeOf(a, i), verdicts + VerdictOf(a, i))
  {
    assert outcomes + [] == outcomes && verdicts + [] == verdicts;
    match a
    case Work(j, b) => if j == i { OwnStepIsTallied(s, b, i, outcomes, verdicts); }
    case Serve(b) => ServerStepIsTallied(s, b, i, outcomes, verdicts);
  }

  lemma {:induction false} RunIsTallied(n: nat, run: seq<Action>, i: nat)
    requires IsRun(Init(n), run) && i < n
    ensures i < |Exec(Init(n), run).workers|
    ensures Tallied(Exec(Init(n), run), i, Outcomes(run, i), Verdicts(run, i))
  {
    if run != [] {
      var before, a := run[..|run| - 1], run[|run| - 1];
      assert run == before + [a];
      RunAppend(Init(n), before, [a]);
      RunIsTallied(n, before, i);
      TasksAreNeverLost(n, before);
      StepIsTallied(Exec(Init(n), before), a, i, Outcomes(before, i), Verdicts(before, i));
    }
  }

  /** In any run the server deals with the results of a worker in the order in which its tasks ended, each
      according to how the task ended, and every result is dealt with or still on its way. */
  lemma ResultsAreAnswered(n: nat, run: seq<Action>, i: nat)
    requires IsRun(Init(n), run) && i < n
    ensures var s, outcomes, verdicts := Exec(Init(n), run), Outcomes(run, i), Verdicts(run, i);
            && i < |s.workers| && |verdicts| <= |outcomes| <= |s.workers[i].taken|
            && (forall k :: 0 <= k < |verdicts| ==> verdicts[k] == Status(s.workers[i].taken[k].fd, outcomes[k]))
            && |outcomes| == |verdicts| + |s.workers[i].statuses| + One(s.workers[i].pc.Posting?)
                             + One(s.server.Popped? && s.server.i == i)
  {
    RunIsTallied(n, run, i);
    var s, outcomes, verdicts := Exec(Init(n), run), Outcomes(run, i), Verdicts(run, i);
    forall k | 0 <= k < |verdicts| ensures verdicts[k] == Status(s.workers[i].taken[k].fd, outcomes[k]) {
      assert verdicts[k] == (verdicts + Unanswered(s, i))[k];
    }
  }
}
