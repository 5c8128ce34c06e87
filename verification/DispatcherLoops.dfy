/** The server's own loops, with the workers running freely between any two of its steps.  Everything
    these methods do is recorded in `trace`, which is a run of the state machine in `Dispatcher`, so
    all that is proved there of runs holds of them. */
module DispatcherLoops {
  import opened Dispatcher
  import opened DispatcherEvents

  lemma {:induction false} ExecAppend(s: State, run: seq<Action>, a: Action)
    requires IsRun(s, run) && Enabled(Exec(s, run), a)
    ensures IsRun(s, run + [a]) && Exec(s, run + [a]) == Apply(Exec(s, run), a)
    decreases |run|
  {
    if run == [] {
      assert (run + [a])[1..] == [];
    } else {
      assert (run + [a])[1..] == run[1..] + [a];
      ExecAppend(Apply(s, run[0]), run[1..], a);
    }
  }

  /** In every reachable state the server finds the task it looks for, under the task's own descriptor. */
  lemma NeverMissing(n: nat, run: seq<Action>)
    requires IsRun(Init(n), run)
    ensures var s := Exec(Init(n), run);
            && (s.server.Popped? ==> s.server.status.fd in s.tasks)
            && (s.server.Handling? && s.server.events != [] && s.server.events[0].Readable? ==>
                  s.server.events[0].fd in s.tasks)
            && (forall fd :: fd in s.tasks ==> s.tasks[fd].fd == fd)
  {
    InitInv(n);
    RunInv(Init(n), run);
    NothingIsEverMissing(Exec(Init(n), run));
  }

  lemma WorkKeeps(s: State, i: nat, w: WorkerAction)
    requires Enabled(s, Work(i, w))
    ensures var s' := Apply(s, Work(i, w));
            && s' == s.(workers := s'.workers) && NothingPushed(s.workers, s'.workers)
            && Outstanding(s'.workers) == Outstanding(s.workers)
  {
    OutstandingUpdate(s.workers, i, WorkerApply(s.workers[i], w));
  }

  /** The history of what was pushed to each worker has not changed. */
  predicate NothingPushed(before: seq<Worker>, after: seq<Worker>) {
    |after| == |before| && forall k :: 0 <= k < |after| ==> after[k].pushed == before[k].pushed
  }

  /** One task was pushed, to worker `i`. */
  predicate PushedTo(before: seq<Worker>, after: seq<Worker>, i: nat, t: Task) {
    && |after| == |before| && i < |after| && after[i].pushed == before[i].pushed + [t]
    && forall k :: 0 <= k < |after| && k != i ==> after[k].pushed == before[k].pushed
  }

  datatype Placed = Success | OtherError | NoFree

  /** The server's actions while it offers a task: `k` workers are busy, and what comes then. */
  function Offers(k: nat, res: Placed): seq<ServerAction> {
    seq(k, _ => TryBusy) + if res.Success? then [TryLock, Push, Notify, Unlock] else []
  }

  /** The server's actions after a read that placed, or did not place, the task. */
  function Reading(fd: Fd, k: nat, res: Placed): seq<ServerAction> {
    [Read(fd)] + Offers(k, res)
    + if res.Success? then [] else if res.NoFree? then [NoFreeThread] else [TryError]
  }

  predicate NoneBefore(broken: set<nat>, n: nat) { forall k: nat :: k < n ==> k !in broken }

  class Machine {
    const n: nat
    var s: State
    ghost var trace: seq<Action>
    /** The server's actions in the trace, and those of them that take up an event. */
    ghost var served: seq<ServerAction>
    ghost var events: seq<ServerAction>

    ghost predicate Valid()
      reads this
    {
      IsRun(Init(n), trace) && s == Exec(Init(n), trace) && served == Served(trace) && events == EventsTaken(trace)
    }

    constructor (n: nat)
      ensures Valid() && this.n == n && s == Init(n)
    {
      this.n := n;
      s := Init(n);
      trace, served, events := [], [], [];
    }

    /** One step of some thread. */
    method Do(a: Action)
      requires Valid() && Enabled(s, a)
      modifies this
      ensures Valid() && s == Apply(old(s), a) && trace == old(trace) + [a]
      ensures served == old(served) + if a.Serve? then [a.a] else []
      ensures events == old(events) + if a.Serve? && OfEvent(a.a) then [a.a] else []
    {
      OneMore(trace, a);
      ExecAppend(Init(n), trace, a);
      trace := trace + [a];
      served := served + if a.Serve? then [a.a] else [];
      events := events + if a.Serve? && OfEvent(a.a) then [a.a] else [];
      s := Apply(s, a);
    }

    /** Any number of steps of any workers. */
    method WorkersRun()
      requires Valid()
      modifies this
      ensures Valid() && old(trace) <= trace && served == old(served) && events == old(events)
      ensures s == old(s).(workers := s.workers) && NothingPushed(old(s).workers, s.workers)
      ensures Outstanding(s.workers) == Outstanding(old(s).workers)
    {
      var budget: nat := *;
      while budget > 0
        invariant Valid() && old(trace) <= trace && served == old(served) && events == old(events)
        invariant s == old(s).(workers := s.workers) && NothingPushed(old(s).workers, s.workers)
        invariant Outstanding(s.workers) == Outstanding(old(s).workers)
      {
        var i: nat, w: WorkerAction := *, *;
        if Enabled(s, Work(i, w)) {
          WorkKeeps(s, i, w);
          Do(Work(i, w));
        }
        budget := budget - 1;
      }
    }

    /** `BdxServerGetFreeTask`: it ends although the workers keep posting, and pops exactly the
        outstanding tasks that are gone from the workers afterwards. */
    method GetFreeTask() returns (popped: nat)
      requires Valid() && s.server == Draining(0)
      modifies this
      ensures Valid() && old(trace) <= trace && s.server == Polling
      ensures events == old(events)
      ensures popped + Outstanding(s.workers) == Outstanding(old(s).workers)
    {
      popped := 0;
      var i := 0;
      while i < |s.workers|
        invariant Valid() && old(trace) <= trace && s.server == Draining(i)
        invariant events == old(events)
        invariant popped + Outstanding(s.workers) == Outstanding(old(s).workers)
        invariant |s.workers| == |old(s).workers|
        decreases |old(s).workers| - i
      {
        var more := DrainQueue(i);
        popped := popped + more;
        i := i + 1;
      }
      Do(Serve(DrainDone));
    }

    /** Its inner loop, over one status queue. */
    method DrainQueue(i: nat) returns (popped: nat)
      requires Valid() && s.server == Draining(i) && i < |s.workers|
      modifies this
      ensures Valid() && old(trace) <= trace && s.server == Draining(i + 1) && |s.workers| == |old(s).workers|
      ensures events == old(events) && s.workers[i].statuses == []
      ensures popped + Outstanding(s.workers) == Outstanding(old(s).workers)
    {
      popped := 0;
      WorkersRun();
      while s.workers[i].statuses != []
        invariant Valid() && old(trace) <= trace && s.server == Draining(i) && |s.workers| == |old(s).workers|
        invariant events == old(events)
        invariant popped + Outstanding(s.workers) == Outstanding(old(s).workers)
        decreases Outstanding(s.workers)
      {
        var armed: bool := *;
        HandleStatus(i, armed);
        popped := popped + 1;
        WorkersRun();
      }
      Do(Serve(DrainNext));
    }

    /** One status: the task is armed again, or freed.  That it cannot be found does not happen.  `armed` tells
        whether the epoll set would take the descriptor. */
    method HandleStatus(i: nat, armed: bool)
      requires Valid() && s.server == Draining(i) && i < |s.workers| && s.workers[i].statuses != []
      modifies this
      ensures Valid() && old(trace) <= trace && s.server == Draining(i) && |s.workers| == |old(s).workers|
      ensures Outstanding(s.workers) + 1 == Outstanding(old(s).workers)
      ensures var fd := old(s).workers[i].statuses[0].fd;
              && fd in old(s).tasks
              && if old(s).workers[i].statuses[0].ok && armed then
                   s.epoll == old(s).epoll + {fd} && s.tasks == old(s).tasks && s.freed == old(s).freed
                 else
                   s.epoll == old(s).epoll && s.tasks == old(s).tasks - {fd}
                   && s.freed == old(s).freed + [old(s).tasks[fd]]
      ensures events == old(events)
    {
      DrainStep(s, Serve(Pop));
      Do(Serve(Pop));
      WorkersRun();
      AnswerStatus(i, s.server.status.fd, armed);
    }

    method AnswerStatus(i: nat, fd: Fd, armed: bool)
      requires Valid() && s.server.Popped? && s.server.i == i && s.server.status.fd == fd
      modifies this
      ensures Valid() && old(trace) <= trace && events == old(events)
      ensures s == old(s).(server := Draining(i), epoll := s.epoll, tasks := s.tasks, freed := s.freed)
      ensures fd in old(s).tasks
              && if old(s).server.status.ok && armed then
                   s.epoll == old(s).epoll + {fd} && s.tasks == old(s).tasks && s.freed == old(s).freed
                 else
                   s.epoll == old(s).epoll && s.tasks == old(s).tasks - {fd}
                   && s.freed == old(s).freed + [old(s).tasks[fd]]
    {
      NeverMissing(n, trace);
      if s.server.status.ok {
        if armed { Do(Serve(Rearm(i, fd))); } else { Do(Serve(RearmFails(i, fd))); }
      } else {
        Do(Serve(Drop(i, fd)));
      }
    }

    /** `BdxServerPutTask`: offers the task to the workers in turn until the mutex of one is free; that
        one, and nobody else, gets it.  `broken` are the workers whose mutex cannot even be tried. */
    method PutTask(broken: set<nat>) returns (res: Placed, ghost taker: nat)
      requires Valid() && s.server.Trying? && s.server.i == 0
      modifies this
      ensures Valid() && old(trace) <= trace
      ensures s == old(s).(server := s.server, workers := s.workers)
      ensures var task, events := old(s).server.task, old(s).server.events;
              if res.Success? then s.server == Handling(events) && PushedTo(old(s).workers, s.workers, taker, task)
              else s.server == Trying(taker, task, events) && NothingPushed(old(s).workers, s.workers)
                   && (res.NoFree? <==> taker >= |s.workers|)
      ensures NoneBefore(broken, taker) && (res.OtherError? <==> taker in broken && taker < |s.workers|)
      ensures served == old(served) + Offers(taker, res) && taker <= |s.workers|
      ensures events == old(events)
    {
      var i := 0;
      while i < |s.workers|
        invariant Valid() && old(trace) <= trace
        invariant s == old(s).(server := s.server, workers := s.workers) && NothingPushed(old(s).workers, s.workers)
        invariant s.server == Trying(i, old(s).server.task, old(s).server.events)
        invariant i <= |s.workers| && served == old(served) + seq(i, _ => TryBusy)
        invariant events == old(events) && NoneBefore(broken, i)
        decreases |old(s).workers| - i
      {
        if i in broken { return OtherError, i; }
        var taken := Offer();
        if taken { return Success, i; }
        i := i + 1;
      }
      res, taker := NoFree, i;
    }

    /** Tries the mutex of one worker. */
    method Offer() returns (taken: bool)
      requires Valid() && s.server.Trying? && s.server.i < |s.workers|
      modifies this
      ensures Valid() && old(trace) <= trace && events == old(events)
      ensures s == old(s).(server := s.server, workers := s.workers)
      ensures var Trying(i, task, events) := old(s).server;
              if taken then
                && s.server == Handling(events) && PushedTo(old(s).workers, s.workers, i, task)
                && served == old(served) + [TryLock, Push, Notify, Unlock]
              else
                && s.server == Trying(i + 1, task, events) && NothingPushed(old(s).workers, s.workers)
                && served == old(served) + [TryBusy]
    {
      WorkersRun();
      taken := s.workers[s.server.i].lock.Free?;
      if taken { HandOver(); } else { Do(Serve(TryBusy)); }
    }

    /** Locks, pushes, signals and unlocks. */
    method HandOver()
      requires Valid() && s.server.Trying? && s.server.i < |s.workers| && s.workers[s.server.i].lock.Free?
      modifies this
      ensures Valid() && old(trace) <= trace
      ensures s == old(s).(server := Handling(old(s).server.events), workers := s.workers)
      ensures PushedTo(old(s).workers, s.workers, old(s).server.i, old(s).server.task)
      ensures served == old(served) + [TryLock, Push, Notify, Unlock]
      ensures events == old(events)
    {
      Do(Serve(TryLock));
      WorkersRun();
      Do(Serve(Push));
      WorkersRun();
      Do(Serve(Notify));
      WorkersRun();
      Do(Serve(Unlock));
    }

    /** `BdxServerReadEvent`: the task leaves the epoll set, and the map too when no worker takes it. */
    method ReadEvent(broken: set<nat>) returns (res: Placed, ghost taker: nat)
      requires Valid() && s.server.Handling? && s.server.events != [] && s.server.events[0].Readable?
      modifies this
      ensures Valid() && old(trace) <= trace && s.server == Handling(old(s).server.events[1..])
      ensures var fd := old(s).server.events[0].fd;
              && fd in old(s).tasks && s.epoll == old(s).epoll - {fd}
              && s.tasks == (if res.Success? then old(s).tasks else old(s).tasks - {fd})
              && s.freed == (if res.Success? then old(s).freed else old(s).freed + [old(s).tasks[fd]])
              && (res.Success? ==> PushedTo(old(s).workers, s.workers, taker, old(s).tasks[fd]))
              && served == old(served) + Reading(fd, taker, res) && taker <= |s.workers|
              && (res.NoFree? <==> taker == |s.workers|)
              && NoneBefore(broken, taker) && (res.OtherError? ==> taker in broken)
              && events == old(events) + [Read(fd)]
    {
      NeverMissing(n, trace);
      Do(Serve(Read(s.server.events[0].fd)));
      res, taker := PutTask(broken);
      if !res.Success? { Do(Serve(if res.NoFree? then NoFreeThread else TryError)); }
    }

    /** One turn of `Core`: drain, wait, handle the batch.  `offer` is what the kernel has to report. */
    method Turn(offer: seq<Event>) returns (ghost at: nat)
      requires Valid() && s.server == Draining(0)
      modifies this
      ensures Valid() && old(trace) <= trace && s.server == Draining(0)
      ensures |old(trace)| <= at < |trace| && trace[at].Serve? && trace[at].a.Poll? && IsRun(Init(n), trace[..at])
      ensures trace[at].a.batch == if Reportable(offer, Exec(Init(n), trace[..at]).epoll) then offer else []
      ensures |old(events)| <= |events| && AllAnswered(trace[at].a.batch, events[|old(events)|..])
    {
      var _ := GetFreeTask();
      WorkersRun();
      var batch := if Reportable(offer, s.epoll) then offer else [];
      at := |trace|;
      ghost var before := trace;
      Do(Serve(Poll(batch)));
      HandleBatch(batch);
      assert trace[..at] == before && trace[at] == Serve(Poll(batch));
    }

    method HandleBatch(ghost batch: seq<Event>)
      requires Valid() && s.server == Handling(batch)
      modifies this
      ensures Valid() && old(trace) <= trace && s.server == Draining(0)
      ensures |old(events)| <= |events| && AllAnswered(batch, events[|old(events)|..])
    {
      ghost var acts: seq<ServerAction> := [];
      while s.server.events != []
        invariant Valid() && old(trace) <= trace && s.server.Handling?
        invariant events == old(events) + acts
        invariant Through(batch, acts, s.server.events)
        decreases |s.server.events|
      {
        WorkersRun();
        var accepted: bool, fd: Fd, broken: set<nat> := *, *, *;
        ghost var act := HandleEvent(accepted && fd !in s.tasks, fd, broken);
        acts := acts + [act];
      }
      Do(Serve(BatchDone));
      assert acts == events[|old(events)|..];
    }

    /** The body of the loop over the events.  `accepted` tells whether a connection is accepted and registered,
        under the new descriptor `fd`. */
    method HandleEvent(accepted: bool, fd: Fd, broken: set<nat>) returns (ghost act: ServerAction)
      requires Valid() && s.server.Handling? && s.server.events != [] && (accepted ==> fd !in s.tasks)
      modifies this
      ensures Valid() && old(trace) <= trace && s.server == Handling(old(s).server.events[1..])
      ensures Answers(old(s).server.events[0], act) && events == old(events) + [act]
      ensures old(s).server.events[0].Incoming? ==>
                if accepted then
                  && act == Accept(fd) && s.epoll == old(s).epoll + {fd}
                  && s.tasks == old(s).tasks[fd := Task(old(s).accepted, fd)] && s.accepted == old(s).accepted + 1
                else
                  act == AcceptFails && s == old(s).(server := s.server)
      ensures old(s).server.events[0].Other? ==> s == old(s).(server := s.server)
    {
      if s.server.events[0].Incoming? {
        act := if accepted then Accept(fd) else AcceptFails;
        if accepted { Do(Serve(Accept(fd))); } else { Do(Serve(AcceptFails)); }
      } else if s.server.events[0].Readable? {
        act := Read(s.server.events[0].fd);
        var _, _ := ReadEvent(broken);
      } else {
        act := Ignore;
        Do(Serve(Ignore));
      }
    }
  }
}
