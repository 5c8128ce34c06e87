/** A queued task is taken after a bounded number of steps of its worker, whatever happens in between. */
module DispatcherProgress {
  import opened Dispatcher

  /** How many steps of its own a worker with a queued task is away from taking the next one. */
  function Phase(pc: WorkerPc): nat {
    match pc
    case Locked => 1
    case Start => 2
    case Asleep => 2
    case Woken => 2
    case Unlocked => 3
    case Posted => 4
    case Posting(_) => 5
    case Running(_) => 6
  }

  /** The same for the task at position `p` of its queue. */
  function Distance(w: Worker, p: nat): nat { 6 * p + Phase(w.pc) }

  /** A step of worker `i` itself; being woken is not one. */
  predicate IsOwn(a: Action, i: nat) { a.Work? && a.i == i && !a.w.SpuriousWake? }

  function OwnSteps(run: seq<Action>, i: nat): nat {
    if run == [] then 0 else One(IsOwn(run[0], i)) + OwnSteps(run[1..], i)
  }

  lemma WorkerStepBringsNearer(w: Worker, a: WorkerAction, p: nat)
    requires WorkerEnabled(w, a) && p < |w.queue|
    ensures var w' := WorkerApply(w, a);
            if a.Take? then
              && w'.taken == w.taken + [w.queue[0]] && w'.queue == w.queue[1..]
              && (p > 0 ==> Distance(w', p - 1) + 1 == Distance(w, p))
            else
              && w'.taken == w.taken && w'.queue == w.queue
              && Distance(w', p) + One(!a.SpuriousWake?) == Distance(w, p)
  {
  }

  lemma ServerStepKeepsDistance(s: State, b: ServerAction, i: nat, p: nat)
    requires ServerEnabled(s, b) && i < |s.workers| && p < |s.workers[i].queue|
    ensures i < |ServerApply(s, b).workers|
    ensures var w, w' := s.workers[i], ServerApply(s, b).workers[i];
            w'.taken == w.taken && w.queue <= w'.queue && Distance(w', p) == Distance(w, p)
  {
  }

  /** One step of any thread: the task is taken, or stays queued and comes nearer exactly when the step is its
      worker's own. */
  lemma StepBringsNearer(s: State, a: Action, i: nat, p: nat)
    requires Enabled(s, a) && i < |s.workers| && p < |s.workers[i].queue|
    ensures i < |Apply(s, a).workers|
    ensures var w, w' := s.workers[i], Apply(s, a).workers[i];
            if a == Work(i, Take) then
              && w'.taken == w.taken + [w.queue[0]] && w'.queue == w.queue[1..]
              && (p > 0 ==> Distance(w', p - 1) + 1 == Distance(w, p))
            else
              && w'.taken == w.taken && w.queue <= w'.queue
              && Distance(w', p) + One(IsOwn(a, i)) == Distance(w, p)
  {
    match a
    case Work(j, b) => if j == i { WorkerStepBringsNearer(s.workers[i], b, p); }
    case Serve(b) => ServerStepKeepsDistance(s, b, i, p);
  }

  lemma {:induction false} RunBringsNearer(s: State, run: seq<Action>, i: nat, p: nat)
    requires IsRun(s, run) && i < |s.workers| && p < |s.workers[i].queue|
    requires OwnSteps(run, i) >= Distance(s.workers[i], p)
    ensures var w := s.workers[i];
            && i < |Exec(s, run).workers|
            && |w.taken| + p < |Exec(s, run).workers[i].taken|
            && Exec(s, run).workers[i].taken[|w.taken| + p] == w.queue[p]
    decreases |run|
  {
    var w, a, rest := s.workers[i], run[0], run[1..];
    StepBringsNearer(s, a, i, p);
    var s' := Apply(s, a);
    HistoryGrows(s', rest, i);
    if a != Work(i, Take) {
      RunBringsNearer(s', rest, i, p);
    } else if p > 0 {
      RunBringsNearer(s', rest, i, p - 1);
    }
  }

  /** In any interleaving from any reachable state, the task at position `p` of a queue is taken, and in its
      turn, by the time its worker has made six steps for it and for each task before it. */
  lemma QueuedTaskIsTaken(n: nat, before: seq<Action>, run: seq<Action>, i: nat, p: nat)
    requires IsRun(Init(n), before) && IsRun(Exec(Init(n), before), run)
    requires i < |Exec(Init(n), before).workers| && p < |Exec(Init(n), before).workers[i].queue|
    requires OwnSteps(run, i) >= 6 * (p + 1)
    ensures var s, s' := Exec(Init(n), before), Exec(Exec(Init(n), before), run);
            && i < |s'.workers| && |s.workers[i].taken| + p < |s'.workers[i].taken|
            && s'.workers[i].taken[|s.workers[i].taken| + p] == s.workers[i].queue[p]
  {
    RunBringsNearer(Exec(Init(n), before), run, i, p);
  }
}
