/** The task dispatcher: one server thread hands connections to N worker threads.

    The server owns the descriptor-to-task map and the epoll set.  Every worker owns a queue
    guarded by a mutex with a condition variable, and a queue of statuses that the server drains.
    The two thread bodies are broken into the steps between which another thread may run; a step
    is an `Action`, and a run is any sequence of enabled actions, that is, any interleaving. */
module Dispatcher {

  type Fd = int

  /** A task object.  `id` tells apart two tasks that had the same descriptor at different times. */
  datatype Task = Task(id: nat, fd: Fd)

  datatype Status = Status(fd: Fd, ok: bool)

  datatype Owner = Free | ByWorker | ByServer

  /** Where a worker is in its loop. */
  datatype WorkerPc =
    | Start                      // about to take its own mutex
    | Locked                     // holds the mutex, about to test its queue
    | Asleep                     // in the condition wait, mutex released, not signalled
    | Woken                      // signalled or woken spuriously, must retake the mutex
    | Running(task: Task)        // runs a task, still holding the mutex
    | Posting(status: Status)    // has the result of the task
    | Posted                     // status queued, about to release the mutex
    | Unlocked                   // about to signal its own condition variable

  /** `pushed` and `taken` record the whole history of the queue. */
  datatype Worker = Worker(lock: Owner, pc: WorkerPc, queue: seq<Task>, statuses: seq<Status>,
                           pushed: seq<Task>, taken: seq<Task>)

  datatype Event = Incoming | Readable(fd: Fd) | Other(fd: Fd)

  /** Where the server is in its loop. */
  datatype ServerPc =
    | Draining(i: nat)                                       // about to test status queue i
    | Popped(i: nat, status: Status)                         // popped a status from queue i
    | Polling                                                // about to wait for events
    | Handling(events: seq<Event>)                           // events of this batch still to handle
    | Trying(i: nat, task: Task, events: seq<Event>)         // about to try the mutex of worker i
    | Pushing(i: nat, task: Task, events: seq<Event>)        // holds it, about to push
    | Notifying(i: nat, events: seq<Event>)                  // pushed, about to signal
    | Unlocking(i: nat, events: seq<Event>)                  // signalled, about to release

  /** `accepted` counts the tasks created, `freed` lists the tasks deleted. */
  datatype State = State(server: ServerPc, tasks: map<Fd, Task>, epoll: set<Fd>, workers: seq<Worker>,
                         accepted: nat, freed: seq<Task>)

  datatype WorkerAction = Lock | Sleep | Take | SpuriousWake | Relock | Run(ok: bool) | Post | Release | Signal

  datatype ServerAction =
    | DrainNext | DrainDone | Pop | PoppedUnknown
    | Rearm(i: nat, fd: Fd) | RearmFails(i: nat, fd: Fd) | Drop(i: nat, fd: Fd)
    | Poll(batch: seq<Event>) | BatchDone | Accept(fd: Fd) | AcceptFails | Ignore | ReadUnknown | Read(fd: Fd)
    | TryBusy | TryLock | TryError | NoFreeThread | Push | Notify | Unlock

  datatype Action = Work(i: nat, w: WorkerAction) | Serve(a: ServerAction)

  // ---------------------------------------------------------------------------------------------
  // Steps

  predicate WorkerEnabled(w: Worker, a: WorkerAction) {
    match a
    case Lock => w.pc.Start? && w.lock.Free?
    case Sleep => w.pc.Locked? && w.queue == []
    case Take => w.pc.Locked? && w.queue != []
    case SpuriousWake => w.pc.Asleep?
    case Relock => w.pc.Woken? && w.lock.Free?
    case Run(_) => w.pc.Running?
    case Post => w.pc.Posting?
    case Release => w.pc.Posted?
    case Signal => w.pc.Unlocked?
  }

  /** A step of a worker touches only its own record.  `Signal` wakes nobody: the worker is the
      only thread that ever waits on its condition variable. */
  function WorkerApply(w: Worker, a: WorkerAction): Worker
    requires WorkerEnabled(w, a)
  {
    match a
    case Lock => w.(lock := ByWorker, pc := Locked)
    case Sleep => w.(lock := Free, pc := Asleep)
    case Take => w.(pc := Running(w.queue[0]), queue := w.queue[1..], taken := w.taken + [w.queue[0]])
    case SpuriousWake => w.(pc := Woken)
    case Relock => w.(lock := ByWorker, pc := Locked)
    case Run(ok) => w.(pc := Posting(Status(w.pc.task.fd, ok)))
    case Post => w.(pc := Posted, statuses := w.statuses + [w.pc.status])
    case Release => w.(lock := Free, pc := Unlocked)
    case Signal => w.(pc := Start)
  }

  /** What the kernel may report: each registered descriptor at most once. */
  predicate Reportable(batch: seq<Event>, epoll: set<Fd>) {
    && (forall k :: 0 <= k < |batch| && batch[k].Readable? ==> batch[k].fd in epoll)
    && (forall j, k :: 0 <= j < k < |batch| && batch[j].Readable? && batch[k].Readable? ==> batch[j].fd != batch[k].fd)
  }

  predicate ServerEnabled(s: State, a: ServerAction) {
    var pc, ws := s.server, s.workers;
    match a
    case DrainNext => pc.Draining? && pc.i < |ws| && ws[pc.i].statuses == []
    case DrainDone => pc.Draining? && pc.i >= |ws|
    case Pop => pc.Draining? && pc.i < |ws| && ws[pc.i].statuses != []
    case PoppedUnknown => pc.Popped? && pc.status.fd !in s.tasks
    case Rearm(i, fd) => pc == Popped(i, Status(fd, true)) && fd in s.tasks
    case RearmFails(i, fd) => pc == Popped(i, Status(fd, true)) && fd in s.tasks
    case Drop(i, fd) => pc == Popped(i, Status(fd, false)) && fd in s.tasks
    case Poll(batch) => pc.Polling? && Reportable(batch, s.epoll)
    case BatchDone => pc.Handling? && pc.events == []
    case Accept(fd) => pc.Handling? && pc.events != [] && pc.events[0].Incoming? && fd !in s.tasks
    case AcceptFails => pc.Handling? && pc.events != [] && pc.events[0].Incoming?
    case Ignore => pc.Handling? && pc.events != [] && pc.events[0].Other?
    case ReadUnknown => pc.Handling? && pc.events != [] && pc.events[0].Readable? && pc.events[0].fd !in s.tasks
    case Read(fd) => pc.Handling? && pc.events != [] && pc.events[0] == Readable(fd) && fd in s.tasks
    case TryBusy => pc.Trying? && pc.i < |ws| && !ws[pc.i].lock.Free?
    case TryLock => pc.Trying? && pc.i < |ws| && ws[pc.i].lock.Free?
    case TryError => pc.Trying? && pc.i < |ws| && pc.task.fd in s.tasks
    case NoFreeThread => pc.Trying? && pc.i >= |ws| && pc.task.fd in s.tasks
    case Push => pc.Pushing? && pc.i < |ws|
    case Notify => pc.Notifying? && pc.i < |ws|
    case Unlock => pc.Unlocking? && pc.i < |ws|
  }

  /** Deletes the task registered under `fd` and erases it from the map. */
  function FreeTask(s: State, fd: Fd): State
    requires fd in s.tasks
  {
    s.(tasks := s.tasks - {fd}, freed := s.freed + [s.tasks[fd]])
  }

  function SetWorker(s: State, i: nat, w: Worker): State
    requires i < |s.workers|
  {
    s.(workers := s.workers[i := w])
  }

  function ServerApply(s: State, a: ServerAction): State
    requires ServerEnabled(s, a)
  {
    var pc, ws := s.server, s.workers;
    match a
    case DrainNext => s.(server := Draining(pc.i + 1))
    case DrainDone => s.(server := Polling)
    case Pop =>
      var w := ws[pc.i];
      SetWorker(s, pc.i, w.(statuses := w.statuses[1..])).(server := Popped(pc.i, w.statuses[0]))
    case PoppedUnknown => s.(server := Draining(pc.i))
    case Rearm(i, fd) => s.(server := Draining(i), epoll := s.epoll + {fd})
    case RearmFails(i, fd) => FreeTask(s, fd).(server := Draining(i))
    case Drop(i, fd) => FreeTask(s, fd).(server := Draining(i))
    case Poll(batch) => s.(server := Handling(batch))
    case BatchDone => s.(server := Draining(0))
    case Accept(fd) =>
      s.(server := Handling(pc.events[1..]), epoll := s.epoll + {fd},
         tasks := s.tasks[fd := Task(s.accepted, fd)], accepted := s.accepted + 1)
    case AcceptFails => s.(server := Handling(pc.events[1..]))
    case Ignore => s.(server := Handling(pc.events[1..]))
    case ReadUnknown => s.(server := Handling(pc.events[1..]), epoll := s.epoll - {pc.events[0].fd})
    case Read(fd) => s.(server := Trying(0, s.tasks[fd], pc.events[1..]), epoll := s.epoll - {fd})
    case TryBusy => s.(server := Trying(pc.i + 1, pc.task, pc.events))
    case TryLock => SetWorker(s, pc.i, ws[pc.i].(lock := ByServer)).(server := Pushing(pc.i, pc.task, pc.events))
    case TryError => FreeTask(s, pc.task.fd).(server := Handling(pc.events))
    case NoFreeThread => FreeTask(s, pc.task.fd).(server := Handling(pc.events))
    case Push =>
      var w := ws[pc.i];
      SetWorker(s, pc.i, w.(queue := w.queue + [pc.task], pushed := w.pushed + [pc.task]))
      .(server := Notifying(pc.i, pc.events))
    case Notify =>
      var w := ws[pc.i];
      SetWorker(s, pc.i, w.(pc := if w.pc.Asleep? then Woken else w.pc)).(server := Unlocking(pc.i, pc.events))
    case Unlock => SetWorker(s, pc.i, ws[pc.i].(lock := Free)).(server := Handling(pc.events))
  }

  predicate Enabled(s: State, a: Action) {
    match a
    case Work(i, w) => i < |s.workers| && WorkerEnabled(s.workers[i], w)
    case Serve(b) => ServerEnabled(s, b)
  }

  function Apply(s: State, a: Action): State
    requires Enabled(s, a)
  {
    match a
    case Work(i, w) => SetWorker(s, i, WorkerApply(s.workers[i], w))
    case Serve(b) => ServerApply(s, b)
  }

  function Init(n: nat): State {
    State(Draining(0), map[], {}, seq(n, _ => Worker(Free, Start, [], [], [], [])), 0, [])
  }

  predicate IsRun(s: State, run: seq<Action>)
    decreases |run|
  {
    run == [] || (Enabled(s, run[0]) && IsRun(Apply(s, run[0]), run[1..]))
  }

  function Exec(s: State, run: seq<Action>): State
    requires IsRun(s, run)
    decreases |run|
  {
    if run == [] then s else Exec(Apply(s, run[0]), run[1..])
  }

  // ---------------------------------------------------------------------------------------------
  // Where a descriptor is: how often it occurs in each place

  function One(b: bool): nat { if b then 1 else 0 }

  function InQueue(q: seq<Task>, fd: Fd): nat {
    if q == [] then 0 else One(q[0].fd == fd) + InQueue(q[1..], fd)
  }

  function InStatuses(q: seq<Status>, fd: Fd): nat {
    if q == [] then 0 else One(q[0].fd == fd) + InStatuses(q[1..], fd)
  }

  function InHand(pc: WorkerPc, fd: Fd): nat {
    match pc
    case Running(t) => One(t.fd == fd)
    case Posting(st) => One(st.fd == fd)
    case _ => 0
  }

  function AtWorker(w: Worker, fd: Fd): nat {
    InQueue(w.queue, fd) + InHand(w.pc, fd) + InStatuses(w.statuses, fd)
  }

  function AtWorkers(ws: seq<Worker>, fd: Fd): nat {
    if ws == [] then 0 else AtWorker(ws[0], fd) + AtWorkers(ws[1..], fd)
  }

  function AtServer(pc: ServerPc, fd: Fd): nat {
    match pc
    case Popped(_, st) => One(st.fd == fd)
    case Trying(_, t, _) => One(t.fd == fd)
    case Pushing(_, t, _) => One(t.fd == fd)
    case _ => 0
  }

  /** In how many places `fd` is: registered with epoll, in the server's hands, or at a worker
      (queued, running, or returned in its status queue). */
  function Places(s: State, fd: Fd): nat {
    One(fd in s.epoll) + AtServer(s.server, fd) + AtWorkers(s.workers, fd)
  }

  lemma {:induction false} InQueueAppend(q: seq<Task>, t: Task, fd: Fd)
    ensures InQueue(q + [t], fd) == InQueue(q, fd) + One(t.fd == fd)
  {
    if q == [] {
    } else {
      assert (q + [t])[1..] == q[1..] + [t];
      InQueueAppend(q[1..], t, fd);
    }
  }

  lemma {:induction false} InStatusesAppend(q: seq<Status>, st: Status, fd: Fd)
    ensures InStatuses(q + [st], fd) == InStatuses(q, fd) + One(st.fd == fd)
  {
    if q == [] {
    } else {
      assert (q + [st])[1..] == q[1..] + [st];
      InStatusesAppend(q[1..], st, fd);
    }
  }

  lemma {:induction false} QueuedCounts(q: seq<Task>, t: Task)
    requires t in q
    ensures InQueue(q, t.fd) > 0
  {
    if t != q[0] { QueuedCounts(q[1..], t); }
  }

  /** Replacing one worker changes the total by exactly that worker's own change. */
  lemma {:induction false} ReplaceWorker(ws: seq<Worker>, i: nat, w: Worker, fd: Fd)
    requires i < |ws|
    ensures AtWorkers(ws[i := w], fd) + AtWorker(ws[i], fd) == AtWorkers(ws, fd) + AtWorker(w, fd)
    ensures AtWorker(ws[i], fd) <= AtWorkers(ws, fd)
  {
    if i == 0 {
      assert ws[i := w][1..] == ws[1..];
    } else {
      assert ws[i := w][1..] == ws[1..][i - 1 := w];
      ReplaceWorker(ws[1..], i - 1, w, fd);
    }
  }

  /** No step of a worker makes it gain or lose a descriptor. */
  lemma WorkerKeepsCount(w: Worker, a: WorkerAction, fd: Fd)
    requires WorkerEnabled(w, a)
    ensures AtWorker(WorkerApply(w, a), fd) == AtWorker(w, fd)
  {
    if a.Post? { InStatusesAppend(w.statuses, w.pc.status, fd); }
  }

  // ---------------------------------------------------------------------------------------------
  // The invariant

  /** Every descriptor of the map is in exactly one place, and no other descriptor is anywhere. */
  ghost predicate OnePlace(s: State) {
    forall fd: Fd :: Places(s, fd) == One(fd in s.tasks)
  }

  predicate Live(tasks: map<Fd, Task>, t: Task) {
    t.fd in tasks && tasks[t.fd] == t
  }

  predicate ServerHoldsLock(pc: ServerPc, i: nat) {
    (pc.Pushing? || pc.Notifying? || pc.Unlocking?) && pc.i == i
  }

  predicate WorkerHoldsLock(pc: WorkerPc) {
    pc.Locked? || pc.Running? || pc.Posting? || pc.Posted?
  }

  predicate WorkerOk(tasks: map<Fd, Task>, server: ServerPc, i: nat, w: Worker) {
    && (w.lock.ByServer? <==> ServerHoldsLock(server, i))
    && (w.lock.ByWorker? <==> WorkerHoldsLock(w.pc))
    && (w.pc.Asleep? && w.queue != [] ==> server.Notifying? && server.i == i)
    && w.pushed == w.taken + w.queue
    && (forall t :: t in w.queue ==> Live(tasks, t))
    && (w.pc.Running? ==> Live(tasks, w.pc.task))
  }

  predicate WorkersOk(s: State) {
    forall i: nat :: i < |s.workers| ==> WorkerOk(s.tasks, s.server, i, s.workers[i])
  }

  predicate ServerOk(s: State) {
    var pc, n := s.server, |s.workers|;
    match pc
    case Draining(i) => i <= n
    case Popped(i, _) => i < n
    case Polling => true
    case Handling(events) => Reportable(events, s.epoll)
    case Trying(i, t, events) => i <= n && Live(s.tasks, t) && Reportable(events, s.epoll)
    case Pushing(i, t, events) => i < n && Live(s.tasks, t) && Reportable(events, s.epoll)
    case Notifying(i, events) => i < n && Reportable(events, s.epoll)
    case Unlocking(i, events) => i < n && Reportable(events, s.epoll)
  }

  /** The tasks created are the live ones and the freed ones, each once. */
  predicate Ledger(tasks: map<Fd, Task>, accepted: nat, freed: seq<Task>) {
    && (forall fd :: fd in tasks ==> tasks[fd].fd == fd && tasks[fd].id < accepted)
    && (forall f, g :: f in tasks && g in tasks && f != g ==> tasks[f].id != tasks[g].id)
    && (forall k :: 0 <= k < |freed| ==> freed[k].id < accepted)
    && (forall j, k :: 0 <= j < k < |freed| ==> freed[j].id != freed[k].id)
    && (forall k, fd :: 0 <= k < |freed| && fd in tasks ==> freed[k].id != tasks[fd].id)
    && accepted == |tasks| + |freed|
  }

  ghost predicate Inv(s: State) {
    OnePlace(s) && WorkersOk(s) && ServerOk(s) && Ledger(s.tasks, s.accepted, s.freed)
  }

  lemma {:induction false} IdleHasNothing(ws: seq<Worker>, fd: Fd)
    requires forall i :: 0 <= i < |ws| ==> ws[i] == Worker(Free, Start, [], [], [], [])
    ensures AtWorkers(ws, fd) == 0
  {
    if ws != [] { IdleHasNothing(ws[1..], fd); }
  }

  lemma InitInv(n: nat)
    ensures Inv(Init(n))
  {
    forall fd: Fd ensures Places(Init(n), fd) == 0 { IdleHasNothing(Init(n).workers, fd); }
  }

  lemma WorkerStepInv(s: State, i: nat, a: WorkerAction)
    requires Inv(s) && Enabled(s, Work(i, a))
    ensures Inv(Apply(s, Work(i, a)))
  {
    var w := s.workers[i];
    var w' := WorkerApply(w, a);
    var s' := SetWorker(s, i, w');
    forall fd: Fd ensures Places(s', fd) == One(fd in s.tasks) {
      WorkerKeepsCount(w, a, fd);
      ReplaceWorker(s.workers, i, w', fd);
      assert Places(s, fd) == One(fd in s.tasks);
    }
    assert WorkerOk(s.tasks, s.server, i, w);
    assert WorkerOk(s.tasks, s.server, i, w') by {
      if a.Take? { assert w.queue == [w.queue[0]] + w.queue[1..]; }
    }
    forall j: nat | j < |s.workers| ensures WorkerOk(s'.tasks, s'.server, j, s'.workers[j]) {
      assert WorkerOk(s.tasks, s.server, j, s.workers[j]);
    }
  }

  lemma LedgerFree(tasks: map<Fd, Task>, accepted: nat, freed: seq<Task>, fd: Fd)
    requires Ledger(tasks, accepted, freed) && fd in tasks
    ensures Ledger(tasks - {fd}, accepted, freed + [tasks[fd]])
  {
    assert (tasks - {fd}).Keys == tasks.Keys - {fd};
    assert |tasks - {fd}| == |tasks| - 1;
  }

  lemma LedgerAccept(tasks: map<Fd, Task>, accepted: nat, freed: seq<Task>, fd: Fd)
    requires Ledger(tasks, accepted, freed) && fd !in tasks
    ensures Ledger(tasks[fd := Task(accepted, fd)], accepted + 1, freed)
  {
  }

  function Held(pc: ServerPc): Fd
    requires pc.Popped? || pc.Trying?
  {
    if pc.Popped? then pc.status.fd else pc.task.fd
  }

  /** Nobody but the server has the descriptor the server has in its hands. */
  lemma OnlyServerHas(s: State, i: nat)
    requires Inv(s) && (s.server.Popped? || s.server.Trying?)
    ensures Held(s.server) in s.tasks && Held(s.server) !in s.epoll
    ensures i < |s.workers| ==> AtWorker(s.workers[i], Held(s.server)) == 0
  {
    var fd := Held(s.server);
    assert Places(s, fd) == One(fd in s.tasks);
    if i < |s.workers| { ReplaceWorker(s.workers, i, s.workers[i], fd); }
  }

  /** Freeing the task the server has in its hands cannot disturb any worker. */
  lemma FreeTaskInv(s: State, pc: ServerPc)
    requires Inv(s)
    requires s.server.Popped? || s.server.Trying?
    requires pc == (if s.server.Popped? then Draining(s.server.i) else Handling(s.server.events))
    ensures Held(s.server) in s.tasks && Inv(FreeTask(s, Held(s.server)).(server := pc))
  {
    var fd := Held(s.server);
    OnlyServerHas(s, 0);
    var s' := FreeTask(s, fd).(server := pc);
    LedgerFree(s.tasks, s.accepted, s.freed, fd);
    assert OnePlace(s') by {
      forall f: Fd ensures Places(s', f) == One(f in s'.tasks) {
        assert Places(s, f) == One(f in s.tasks);
      }
    }
    forall i: nat | i < |s.workers| ensures WorkerOk(s'.tasks, pc, i, s.workers[i]) {
      OnlyServerHas(s, i);
      WorkerOkWithout(s.tasks, s.server, pc, i, s.workers[i], fd);
    }
  }

  lemma WorkerOkWithout(tasks: map<Fd, Task>, server: ServerPc, server': ServerPc, i: nat, w: Worker, fd: Fd)
    requires WorkerOk(tasks, server, i, w) && AtWorker(w, fd) == 0
    requires server.Popped? || server.Trying?
    requires server'.Draining? || server'.Handling?
    ensures WorkerOk(tasks - {fd}, server', i, w)
  {
    forall t | t in w.queue ensures Live(tasks - {fd}, t) { QueuedCounts(w.queue, t); }
  }

  lemma ReportableRest(events: seq<Event>, epoll: set<Fd>)
    requires events != [] && Reportable(events, epoll)
    ensures Reportable(events[1..], epoll)
    ensures events[0].Readable? ==> Reportable(events[1..], epoll - {events[0].fd})
  {
  }

  lemma AcceptInv(s: State, fd: Fd)
    requires Inv(s) && ServerEnabled(s, Accept(fd))
    ensures Inv(ServerApply(s, Accept(fd)))
  {
    var s' := ServerApply(s, Accept(fd));
    ReportableRest(s.server.events, s.epoll);
    LedgerAccept(s.tasks, s.accepted, s.freed, fd);
    assert OnePlace(s') by {
      forall f: Fd ensures Places(s', f) == One(f in s'.tasks) {
        assert Places(s, f) == One(f in s.tasks);
      }
    }
    forall i: nat | i < |s.workers| ensures WorkerOk(s'.tasks, s'.server, i, s'.workers[i]) {
      assert WorkerOk(s.tasks, s.server, i, s.workers[i]);
    }
  }

  /** Steps of the server that arm or disarm a descriptor. */
  lemma EpollStepInv(s: State, a: ServerAction)
    requires Inv(s) && ServerEnabled(s, a) && (a.Rearm? || a.Read?)
    ensures Inv(ServerApply(s, a))
  {
    var s' := ServerApply(s, a);
    if a.Read? { ReportableRest(s.server.events, s.epoll); }
    forall f: Fd ensures Places(s', f) == One(f in s'.tasks) {
      assert Places(s, f) == One(f in s.tasks);
    }
    forall i: nat | i < |s.workers| ensures WorkerOk(s'.tasks, s'.server, i, s'.workers[i]) {
      assert WorkerOk(s.tasks, s.server, i, s.workers[i]);
    }
  }

  /** Steps of the server that touch neither a worker nor the map nor the epoll set. */
  lemma LocalStepInv(s: State, a: ServerAction)
    requires Inv(s) && ServerEnabled(s, a)
    requires a.DrainNext? || a.DrainDone? || a.Poll? || a.BatchDone? || a.AcceptFails? || a.Ignore? || a.TryBusy?
    ensures Inv(ServerApply(s, a))
  {
    var s' := ServerApply(s, a);
    if s.server.Handling? && s.server.events != [] { ReportableRest(s.server.events, s.epoll); }
    forall f: Fd ensures Places(s', f) == One(f in s'.tasks) {
      assert Places(s, f) == One(f in s.tasks);
    }
    forall i: nat | i < |s.workers| ensures WorkerOk(s'.tasks, s'.server, i, s'.workers[i]) {
      assert WorkerOk(s.tasks, s.server, i, s.workers[i]);
    }
  }

  lemma RemoteStepPlaces(s: State, a: ServerAction, f: Fd)
    requires ServerEnabled(s, a)
    requires a.Pop? || a.TryLock? || a.Push? || a.Notify? || a.Unlock?
    ensures Places(ServerApply(s, a), f) == Places(s, f)
  {
    var i := s.server.i;
    ReplaceWorker(s.workers, i, ServerApply(s, a).workers[i], f);
    if a.Push? { InQueueAppend(s.workers[i].queue, s.server.task, f); }
  }

  /** Steps of the server that change the record of one worker. */
  lemma RemoteStepInv(s: State, a: ServerAction)
    requires Inv(s) && ServerEnabled(s, a)
    requires a.Pop? || a.TryLock? || a.Push? || a.Notify? || a.Unlock?
    ensures Inv(ServerApply(s, a))
  {
    var s' := ServerApply(s, a);
    assert OnePlace(s') by {
      forall f: Fd ensures Places(s', f) == One(f in s'.tasks) {
        RemoteStepPlaces(s, a, f);
        assert Places(s, f) == One(f in s.tasks);
      }
    }
    forall j: nat | j < |s.workers| ensures WorkerOk(s'.tasks, s'.server, j, s'.workers[j]) {
      RemoteStepWorker(s, a, j);
    }
  }

  lemma RemoteStepWorker(s: State, a: ServerAction, j: nat)
    requires Inv(s) && ServerEnabled(s, a) && j < |s.workers|
    requires a.Pop? || a.TryLock? || a.Push? || a.Notify? || a.Unlock?
    ensures var s' := ServerApply(s, a); j < |s'.workers| && WorkerOk(s'.tasks, s'.server, j, s'.workers[j])
  {
    assert WorkerOk(s.tasks, s.server, j, s.workers[j]);
  }

  /** Both branches that report a missing task are dead. */
  lemma NothingIsEverMissing(s: State)
    requires Inv(s)
    ensures !ServerEnabled(s, PoppedUnknown) && !ServerEnabled(s, ReadUnknown)
  {
  }

  lemma StepInv(s: State, a: Action)
    requires Inv(s) && Enabled(s, a)
    ensures Inv(Apply(s, a))
  {
    match a
    case Work(i, w) => WorkerStepInv(s, i, w);
    case Serve(b) =>
      NothingIsEverMissing(s);
      if b.RearmFails? || b.Drop? {
        FreeTaskInv(s, Draining(s.server.i));
      } else if b.TryError? || b.NoFreeThread? {
        FreeTaskInv(s, Handling(s.server.events));
      } else if b.Accept? {
        AcceptInv(s, b.fd);
      } else if b.Pop? || b.TryLock? || b.Push? || b.Notify? || b.Unlock? {
        RemoteStepInv(s, b);
      } else if b.Rearm? || b.Read? {
        EpollStepInv(s, b);
      } else {
        LocalStepInv(s, b);
      }
  }

  lemma {:induction false} RunInv(s: State, run: seq<Action>)
    requires Inv(s) && IsRun(s, run)
    ensures Inv(Exec(s, run))
    decreases |run|
  {
    if run != [] {
      StepInv(s, run[0]);
      RunInv(Apply(s, run[0]), run[1..]);
    }
  }

  // ---------------------------------------------------------------------------------------------
  // What holds in every reachable state of every interleaving

  /** Each task of the map is in exactly one place, no place holds a descriptor that is not in the
      map, and neither "can not find" branch can be taken. */
  lemma TasksAreNeverLost(n: nat, run: seq<Action>)
    requires IsRun(Init(n), run)
    ensures var s := Exec(Init(n), run);
            && (forall fd: Fd :: Places(s, fd) == One(fd in s.tasks))
            && !ServerEnabled(s, PoppedUnknown) && !ServerEnabled(s, ReadUnknown)
  {
    InitInv(n);
    RunInv(Init(n), run);
    NothingIsEverMissing(Exec(Init(n), run));
  }

  /** Accepted tasks are live or freed; none is freed twice, or while it is queued or running. */
  lemma TasksAreFreedOnce(n: nat, run: seq<Action>)
    requires IsRun(Init(n), run)
    ensures var s := Exec(Init(n), run);
            && s.accepted == |s.tasks| + |s.freed|
            && (forall j, k :: 0 <= j < k < |s.freed| ==> s.freed[j].id != s.freed[k].id)
            && (forall i, t :: 0 <= i < |s.workers| && t in s.workers[i].queue ==> Live(s.tasks, t) && t !in s.freed)
            && (forall i :: 0 <= i < |s.workers| && s.workers[i].pc.Running? ==> s.workers[i].pc.task !in s.freed)
  {
    InitInv(n);
    RunInv(Init(n), run);
    var s := Exec(Init(n), run);
    forall i: nat | i < |s.workers|
      ensures forall t :: t in s.workers[i].queue ==> Live(s.tasks, t) && t !in s.freed
      ensures s.workers[i].pc.Running? ==> s.workers[i].pc.task !in s.freed
    {
      assert WorkerOk(s.tasks, s.server, i, s.workers[i]);
    }
  }

  lemma QueueStep(s: State, a: Action, i: nat)
    requires WorkersOk(s) && Enabled(s, a) && i < |s.workers|
    ensures var w, w' := s.workers[i], Apply(s, a).workers[i];
            w'.queue != w.queue ==>
              || (w.lock.ByServer? && a == Serve(Push) && s.server.i == i)
              || (w.lock.ByWorker? && a == Work(i, Take) && !w.pc.Running?)
  {
    assert WorkerOk(s.tasks, s.server, i, s.workers[i]);
  }

  /** A worker's queue changes only in a step of the thread that holds that worker's mutex, and not
      at all while the worker runs a task. */
  lemma QueueChangesUnderItsLock(n: nat, run: seq<Action>, a: Action, i: nat)
    requires IsRun(Init(n), run) && Enabled(Exec(Init(n), run), a)
    requires i < |Exec(Init(n), run).workers|
    ensures var s := Exec(Init(n), run);
            var w, w' := s.workers[i], Apply(s, a).workers[i];
            && (w'.queue != w.queue ==>
                  || (w.lock.ByServer? && a == Serve(Push) && s.server.i == i)
                  || (w.lock.ByWorker? && a == Work(i, Take)))
            && (w.pc.Running? ==> w'.queue == w.queue)
  {
    InitInv(n);
    RunInv(Init(n), run);
    var s := Exec(Init(n), run);
    QueueStep(s, a, i);
    assert WorkerOk(s.tasks, s.server, i, s.workers[i]);
  }

  /** A worker that sleeps unsignalled has an empty queue, unless the server has just pushed and is
      about to signal it. */
  lemma NoLostWakeUp(n: nat, run: seq<Action>, i: nat)
    requires IsRun(Init(n), run) && i < |Exec(Init(n), run).workers|
    ensures var s := Exec(Init(n), run);
            var w := s.workers[i];
            w.pc.Asleep? && w.queue != [] ==> w.lock.ByServer? && s.server.Notifying? && s.server.i == i
  {
    InitInv(n);
    RunInv(Init(n), run);
    var s := Exec(Init(n), run);
    assert WorkerOk(s.tasks, s.server, i, s.workers[i]);
  }

  lemma {:induction false} HistoryGrows(s: State, run: seq<Action>, i: nat)
    requires IsRun(s, run) && i < |s.workers|
    ensures |Exec(s, run).workers| == |s.workers|
    ensures s.workers[i].pushed <= Exec(s, run).workers[i].pushed
    ensures s.workers[i].taken <= Exec(s, run).workers[i].taken
    decreases |run|
  {
    if run != [] { HistoryGrows(Apply(s, run[0]), run[1..], i); }
  }

  /** Each queue is served first in, first out: the tasks a worker has taken so far are the first
      tasks pushed to it, in order, and what is left is exactly its queue. */
  lemma QueuesAreFifo(n: nat, run: seq<Action>, more: seq<Action>, i: nat)
    requires IsRun(Init(n), run) && IsRun(Exec(Init(n), run), more) && i < n
    ensures var s, s' := Exec(Init(n), run), Exec(Exec(Init(n), run), more);
            && |s.workers| == |s'.workers| == n
            && s.workers[i].pushed <= s'.workers[i].pushed
            && s'.workers[i].pushed == s'.workers[i].taken + s'.workers[i].queue
            && s.workers[i].taken <= s'.workers[i].taken
  {
    InitInv(n);
    RunInv(Init(n), run);
    HistoryGrows(Init(n), run, i);
    var s := Exec(Init(n), run);
    RunInv(s, more);
    HistoryGrows(s, more, i);
    var s' := Exec(s, more);
    assert WorkerOk(s'.tasks, s'.server, i, s'.workers[i]);
  }

  // ---------------------------------------------------------------------------------------------
  // Progress

  lemma ServerCanStep(s: State)
    requires Inv(s)
    ensures ServerEnabled(s, NextOfServer(s))
  {
  }

  lemma WorkerCanStep(s: State, i: nat)
    requires Inv(s) && i < |s.workers| && (s.workers[i].queue != [] || !s.workers[i].pc.Asleep?)
    ensures
      || (WorkerEnabled(s.workers[i], NextOfWorker(s.workers[i])) && !NextOfWorker(s.workers[i]).SpuriousWake?)
      || ServerHoldsLock(s.server, i)
  {
  }

  /** The server never blocks, and a worker with something to do is never stuck: it has a step of
      its own, or the server holds its mutex and is on its way to release it. */
  lemma NobodyIsStuck(n: nat, run: seq<Action>, i: nat)
    requires IsRun(Init(n), run)
    ensures var s := Exec(Init(n), run);
            && ServerEnabled(s, NextOfServer(s))
            && (i < |s.workers| && (s.workers[i].queue != [] || !s.workers[i].pc.Asleep?) ==>
                  || (WorkerEnabled(s.workers[i], NextOfWorker(s.workers[i]))
                     && !NextOfWorker(s.workers[i]).SpuriousWake?)
                  || ServerHoldsLock(s.server, i))
  {
    InitInv(n);
    RunInv(Init(n), run);
    var s := Exec(Init(n), run);
    ServerCanStep(s);
    if i < |s.workers| && (s.workers[i].queue != [] || !s.workers[i].pc.Asleep?) { WorkerCanStep(s, i); }
  }

  function NextOfServer(s: State): ServerAction
  {
    var pc, ws := s.server, s.workers;
    match pc
    case Draining(i) => if i >= |ws| then DrainDone else if ws[i].statuses == [] then DrainNext else Pop
    case Popped(i, st) =>
      if st.fd !in s.tasks then PoppedUnknown else if st.ok then Rearm(i, st.fd) else Drop(i, st.fd)
    case Polling => Poll([])
    case Handling(events) =>
      if events == [] then BatchDone
      else if events[0].Incoming? then AcceptFails
      else if events[0].Other? then Ignore
      else if events[0].fd in s.tasks then Read(events[0].fd) else ReadUnknown
    case Trying(i, _, _) => if i >= |ws| then NoFreeThread else if ws[i].lock.Free? then TryLock else TryBusy
    case Pushing(_, _, _) => Push
    case Notifying(_, _) => Notify
    case Unlocking(_, _) => Unlock
  }

  function NextOfWorker(w: Worker): WorkerAction {
    match w.pc
    case Start => Lock
    case Locked => if w.queue == [] then Sleep else Take
    case Asleep => SpuriousWake
    case Woken => Relock
    case Running(_) => Run(true)
    case Posting(_) => Post
    case Posted => Release
    case Unlocked => Signal
  }

  // ---------------------------------------------------------------------------------------------
  // One drain of the status queues

  function Load(w: Worker): nat {
    |w.queue| + One(w.pc.Running? || w.pc.Posting?) + |w.statuses|
  }

  /** How many tasks are dispatched and not yet returned to the server. */
  function Outstanding(ws: seq<Worker>): nat {
    if ws == [] then 0 else Load(ws[0]) + Outstanding(ws[1..])
  }

  lemma {:induction false} OutstandingUpdate(ws: seq<Worker>, i: nat, w: Worker)
    requires i < |ws|
    ensures Outstanding(ws[i := w]) == Outstanding(ws) - Load(ws[i]) + Load(w)
  {
    if i == 0 {
      assert ws[i := w][1..] == ws[1..];
    } else {
      assert ws[i := w][1..] == ws[1..][i - 1 := w];
      OutstandingUpdate(ws[1..], i - 1, w);
    }
  }

  predicate OfDrain(a: Action) {
    a.Work? || a.a.DrainNext? || a.a.Pop? || a.a.PoppedUnknown? || a.a.Rearm? || a.a.RearmFails? || a.a.Drop?
  }

  function Pops(run: seq<Action>): nat {
    if run == [] then 0 else One(run[0] == Serve(Pop)) + Pops(run[1..])
  }

  function ServerSteps(run: seq<Action>): nat {
    if run == [] then 0 else One(run[0].Serve?) + ServerSteps(run[1..])
  }

  /** Bounds the steps the server can still take before its drain loop ends. */
  function DrainMeasure(s: State): int {
    2 * Outstanding(s.workers) + |s.workers| + One(s.server.Popped?)
    - (if s.server.Draining? || s.server.Popped? then s.server.i else 0)
  }

  lemma DrainStep(s: State, a: Action)
    requires Enabled(s, a) && OfDrain(a)
    requires s.server.Draining? || s.server.Popped?
    ensures var s' := Apply(s, a);
            && (s'.server.Draining? || s'.server.Popped?)
            && Outstanding(s'.workers) == Outstanding(s.workers) - One(a == Serve(Pop))
            && DrainMeasure(s') == DrainMeasure(s) - One(a.Serve?)
  {
    var s' := Apply(s, a);
    match a
    case Work(i, w) => OutstandingUpdate(s.workers, i, WorkerApply(s.workers[i], w));
    case Serve(b) => if b.Pop? { OutstandingUpdate(s.workers, s.server.i, s'.workers[s.server.i]); }
  }

  lemma {:induction false} DrainBalance(s: State, run: seq<Action>)
    requires IsRun(s, run) && forall k :: 0 <= k < |run| ==> OfDrain(run[k])
    requires s.server.Draining? || s.server.Popped?
    ensures Pops(run) + Outstanding(Exec(s, run).workers) == Outstanding(s.workers)
    ensures ServerSteps(run) + DrainMeasure(Exec(s, run)) == DrainMeasure(s)
    ensures Exec(s, run).server.Draining? || Exec(s, run).server.Popped?
    decreases |run|
  {
    if run != [] {
      DrainStep(s, run[0]);
      DrainBalance(Apply(s, run[0]), run[1..]);
    }
  }

  /** One drain ends however the workers run meanwhile: while it lasts, it pops exactly the
      outstanding tasks that disappear from the workers, so at most those outstanding at its start,
      and the server takes at most two steps for each of them and one for each worker. */
  lemma DrainTerminates(n: nat, before: seq<Action>, drain: seq<Action>)
    requires IsRun(Init(n), before) && Exec(Init(n), before).server == Draining(0)
    requires IsRun(Exec(Init(n), before), drain) && forall k :: 0 <= k < |drain| ==> OfDrain(drain[k])
    ensures var s := Exec(Init(n), before);
            var s' := Exec(s, drain);
            && Pops(drain) == Outstanding(s.workers) - Outstanding(s'.workers) <= Outstanding(s.workers)
            && ServerSteps(drain) <= 2 * Outstanding(s.workers) + |s.workers|
  {
    InitInv(n);
    RunInv(Init(n), before);
    var s := Exec(Init(n), before);
    DrainBalance(s, drain);
    RunInv(s, drain);
    assert ServerOk(Exec(s, drain));
    SameWorkerCount(s, drain);
  }

  lemma {:induction false} SameWorkerCount(s: State, run: seq<Action>)
    requires IsRun(s, run)
    ensures |Exec(s, run).workers| == |s.workers|
    decreases |run|
  {
    if run != [] { SameWorkerCount(Apply(s, run[0]), run[1..]); }
  }
}
