/** What every run of reloads, scheduler passes and worker steps of PoolSwap keeps, and that Reload and
    Stop come to their end. */
module PoolRuns {
  import opened PoolSwap

  // The main result, over any run of reloads, passes and worker steps ended by Stop: no TrySubmit
  // meets a closed channel, no channel is closed twice, no result is sent more often than its job was
  // accepted, and a pool whose Stop returned before any cancellation has dealt with exactly the jobs
  // it accepted: each has had its result sent, or its Poll failed without one.
  lemma {:induction false} ReloadSafe(events: seq<Event>, capacity: nat, workers: nat, room: nat)
    requires workers > 0
    ensures var a := Run(Initial(capacity, workers, room), events, workers);
            && !a.sentOnClosed
            && a.target < |a.pools| && (a.pass.Passing? ==> a.pools[a.target].closes == 0)
            && forall p :: 0 <= p < |a.pools| ==>
                 && a.pools[p].closes <= 1
                 && a.pools[p].offered == a.pools[p].accepted + a.pools[p].refused
                 && a.pools[p].sent + a.pools[p].empty <= a.pools[p].accepted
                 && (a.pools[p].returned && a.pools[p].clean ==> a.pools[p].sent + a.pools[p].empty == a.pools[p].accepted)
  {
    RunKeeps(Initial(capacity, workers, room), events, workers);
    var a := Run(Initial(capacity, workers, room), events, workers);
    forall p | 0 <= p < |a.pools|
      ensures a.pools[p].offered == a.pools[p].accepted + a.pools[p].refused
      ensures a.pools[p].sent + a.pools[p].empty <= a.pools[p].accepted
      ensures a.pools[p].returned && a.pools[p].clean ==> a.pools[p].sent + a.pools[p].empty == a.pools[p].accepted
    {
      assert PoolInv(a.pools[p], a.cancelled, workers);
      if a.pools[p].returned {
        assert a.pools[p].busy == multiset{} && a.pools[p].held == multiset{};
      }
    }
  }

  // At any moment of any run a TrySubmit offers the next job of the pass to the scheduler's pool
  // alone: with room in the queue it joins its end and the accepted jobs, and only a full queue
  // turns it away.
  lemma {:induction false} SubmitExact(events: seq<Event>, capacity: nat, workers: nat, room: nat)
    requires workers > 0 && Enabled(Run(Initial(capacity, workers, room), events, workers), TrySubmit)
    ensures var a := Run(Initial(capacity, workers, room), events, workers);
            var a' := Next(a, TrySubmit, workers);
            var job := a.pass.left[0];
            && |a'.pools| == |a.pools| && (forall p :: 0 <= p < |a.pools| && p != a.target ==> a'.pools[p] == a.pools[p])
            && a'.pass == Passing(a.pass.left[1..]) && a'.target == a.target
            && var pool, pool' := a.pools[a.target], a'.pools[a.target];
            && |pool.queue| <= pool.capacity && pool'.offered == pool.offered + multiset{job}
            && (|pool.queue| < pool.capacity ==>
                  && pool'.queue == pool.queue + [job]
                  && pool'.accepted == pool.accepted + multiset{job} && pool'.refused == pool.refused)
            && (|pool.queue| == pool.capacity ==>
                  && pool'.queue == pool.queue
                  && pool'.accepted == pool.accepted && pool'.refused == pool.refused + multiset{job})
  {
    RunKeeps(Initial(capacity, workers, room), events, workers);
    TargetOpen(Run(Initial(capacity, workers, room), events, workers), workers);
  }

  lemma {:induction false} TargetOpen(a: App, workers: nat)
    requires Inv(a, workers) && a.pass.Passing?
    ensures a.target < |a.pools| && a.pools[a.target].closes == 0
    ensures |a.pools[a.target].queue| <= a.pools[a.target].capacity
  {
    assert PoolInv(a.pools[a.target], a.cancelled, workers);
    assert a.pools[a.target].closes == Closes(a.control, a.owned, a.target);
  }

  lemma {:induction false} SizeStays(a: App, e: Event, p: nat, workers: nat)
    requires Enabled(a, e) && p < |a.pools|
    ensures var a' := Next(a, e, workers);
            p < |a'.pools| && a'.pools[p].capacity == a.pools[p].capacity && a'.room == a.room
  {
    if Working(e) {
      WorkSize(a.pools[e.p], e, a.cancelled);
      assert Next(a, e, workers) == WithPool(a, e.p, Work(a.pools[e.p], e, a.cancelled));
    } else {
      SizeRest(a, e, p, workers);
    }
  }

  lemma {:induction false} WorkSize(pool: Pool, e: Event, cancelled: bool)
    requires Working(e) && CanWork(pool, e, cancelled)
    ensures Work(pool, e, cancelled).capacity == pool.capacity
  {
  }

  lemma {:induction false} SizeRest(a: App, e: Event, p: nat, workers: nat)
    requires Enabled(a, e) && p < |a.pools| && !Working(e)
    ensures var a' := Next(a, e, workers);
            p < |a'.pools| && a'.pools[p].capacity == a.pools[p].capacity && a'.room == a.room
  {
    if e.CloseOld? || e.CloseLast? || e.OldDrained? || e.LastDrained? {
      SizeOwned(a, e, p, workers);
    }
  }

  lemma {:induction false} SizeOwned(a: App, e: Event, p: nat, workers: nat)
    requires Enabled(a, e) && p < |a.pools| && (e.CloseOld? || e.CloseLast? || e.OldDrained? || e.LastDrained?)
    ensures var a' := Next(a, e, workers);
            p < |a'.pools| && a'.pools[p].capacity == a.pools[p].capacity && a'.room == a.room
  {
  }

  // A pool's queue keeps the size it was started with, and the raw channel its own.
  lemma {:induction false} SizesStay(a: App, events: seq<Event>, p: nat, workers: nat)
    requires p < |a.pools|
    ensures var b := Run(a, events, workers);
            p < |b.pools| && b.pools[p].capacity == a.pools[p].capacity && b.room == a.room
    decreases |events|
  {
    if events != [] {
      if Enabled(a, events[0]) {
        SizeStays(a, events[0], p, workers);
      }
      SizesStay(if Enabled(a, events[0]) then Next(a, events[0], workers) else a, events[1..], p, workers);
    }
  }

  lemma {:induction false} SizesGiven(events: seq<Event>, capacity: nat, workers: nat, room: nat)
    ensures var a := Run(Initial(capacity, workers, room), events, workers);
            |a.pools| >= 1 && a.pools[0].capacity == capacity && a.room == room
  {
    SizesStay(Initial(capacity, workers, room), events, 0, workers);
  }

  // The way of an accepted job: the one longest in the queue is taken, polled, and its result goes to
  // the raw channel, or there is none; its worker is then free for the next.
  lemma {:induction false} JobServed(a: App, p: nat, workers: nat)
    requires p < |a.pools| && a.pools[p].queue != [] && |a.pools[p].busy| + |a.pools[p].held| < a.pools[p].live
    requires a.raw < a.room && a.rawCloses == 0
    ensures var pool, job := a.pools[p], a.pools[p].queue[0];
            && Run(a, [Take(p), Finish(p, job, true), Send(p, job)], workers)
               == a.(pools := a.pools[p := pool.(queue := pool.queue[1..], sent := pool.sent + multiset{job})], raw := a.raw + 1)
            && Run(a, [Take(p), Finish(p, job, false)], workers)
               == a.(pools := a.pools[p := pool.(queue := pool.queue[1..], empty := pool.empty + multiset{job})])
  {
    var job := a.pools[p].queue[0];
    JobTaken(a, p, workers);
    var a1 := Next(a, Take(p), workers);
    PollReturns(a, a1, p, workers);
    ResultSent(a, Next(a1, Finish(p, job, true), workers), p, workers);
    RunThree(a, Take(p), Finish(p, job, true), Send(p, job), workers);
    RunTwo(a, Take(p), Finish(p, job, false), workers);
  }

  lemma {:induction false} JobTaken(a: App, p: nat, workers: nat)
    requires p < |a.pools| && a.pools[p].queue != [] && |a.pools[p].busy| + |a.pools[p].held| < a.pools[p].live
    ensures var pool := a.pools[p];
            && Enabled(a, Take(p))
            && Next(a, Take(p), workers)
               == a.(pools := a.pools[p := pool.(queue := pool.queue[1..], busy := pool.busy + multiset{pool.queue[0]})])
  {
  }

  lemma {:induction false} PutTwice(pools: seq<Pool>, p: nat, x: Pool, y: Pool)
    requires p < |pools|
    ensures pools[p := x][p := y] == pools[p := y]
  {
  }

  lemma {:induction false} PollReturns(a: App, a1: App, p: nat, workers: nat)
    requires p < |a.pools| && a.pools[p].queue != []
    requires a1 == a.(pools := a.pools[p := a.pools[p].(queue := a.pools[p].queue[1..],
                                                        busy := a.pools[p].busy + multiset{a.pools[p].queue[0]})])
    ensures var pool, job := a.pools[p], a.pools[p].queue[0];
            && Enabled(a1, Finish(p, job, true)) && Enabled(a1, Finish(p, job, false))
            && Next(a1, Finish(p, job, true), workers)
               == a.(pools := a.pools[p := pool.(queue := pool.queue[1..], held := pool.held + multiset{job})])
            && Next(a1, Finish(p, job, false), workers)
               == a.(pools := a.pools[p := pool.(queue := pool.queue[1..], empty := pool.empty + multiset{job})])
  {
    var pool, job := a.pools[p], a.pools[p].queue[0];
    assert pool.busy + multiset{job} - multiset{job} == pool.busy;
    PutTwice(a.pools, p, a1.pools[p], pool.(queue := pool.queue[1..], held := pool.held + multiset{job}));
    PutTwice(a.pools, p, a1.pools[p], pool.(queue := pool.queue[1..], empty := pool.empty + multiset{job}));
  }

  lemma {:induction false} ResultSent(a: App, a2: App, p: nat, workers: nat)
    requires p < |a.pools| && a.pools[p].queue != [] && a.raw < a.room && a.rawCloses == 0
    requires a2 == a.(pools := a.pools[p := a.pools[p].(queue := a.pools[p].queue[1..],
                                                        held := a.pools[p].held + multiset{a.pools[p].queue[0]})])
    ensures var pool, job := a.pools[p], a.pools[p].queue[0];
            && Enabled(a2, Send(p, job))
            && Next(a2, Send(p, job), workers)
               == a.(pools := a.pools[p := pool.(queue := pool.queue[1..], sent := pool.sent + multiset{job})], raw := a.raw + 1)
  {
    var pool, job := a.pools[p], a.pools[p].queue[0];
    assert pool.held + multiset{job} - multiset{job} == pool.held;
    PutTwice(a.pools, p, a2.pools[p], pool.(queue := pool.queue[1..], sent := pool.sent + multiset{job}));
  }

  lemma {:induction false} RunOne(a: App, e: Event, workers: nat)
    requires Enabled(a, e)
    ensures Run(a, [e], workers) == Next(a, e, workers)
  {
    assert [e][1..] == [];
  }

  lemma {:induction false} RunTwo(a: App, e1: Event, e2: Event, workers: nat)
    requires Enabled(a, e1) && Enabled(Next(a, e1, workers), e2)
    ensures Run(a, [e1, e2], workers) == Next(Next(a, e1, workers), e2, workers)
  {
    assert [e1, e2][1..] == [e2];
    RunOne(Next(a, e1, workers), e2, workers);
  }

  lemma {:induction false} RunThree(a: App, e1: Event, e2: Event, e3: Event, workers: nat)
    requires Enabled(a, e1) && Enabled(Next(a, e1, workers), e2) && Enabled(Next(Next(a, e1, workers), e2, workers), e3)
    ensures Run(a, [e1, e2, e3], workers) == Next(Next(Next(a, e1, workers), e2, workers), e3, workers)
  {
    assert [e1, e2, e3][1..] == [e2, e3];
    RunTwo(Next(a, e1, workers), e2, e3, workers);
  }

  // ... and no worker of any pool, old or new, sends on the closed raw channel, which is closed
  // once, after all of them have gone.
  lemma {:induction false} RawSafe(events: seq<Event>, capacity: nat, workers: nat, room: nat)
    requires workers > 0
    ensures var a := Run(Initial(capacity, workers, room), events, workers);
            && !a.sentOnRaw && a.rawCloses <= 1
            && (a.control == Stopped || a.rawCloses > 0 ==>
                  forall p :: 0 <= p < |a.pools| ==>
                    a.pools[p].live == 0 && a.pools[p].busy == multiset{} == a.pools[p].held)
  {
    RunKeeps(Initial(capacity, workers, room), events, workers);
    var a := Run(Initial(capacity, workers, room), events, workers);
    forall p | 0 <= p < |a.pools| && (a.control == Stopped || a.rawCloses > 0)
      ensures a.pools[p].live == 0 && a.pools[p].busy == multiset{} == a.pools[p].held
    {
      assert PoolInv(a.pools[p], a.cancelled, workers);
      assert Returned(a.control, a.owned, p);
    }
  }

  // ---------- Waiting for a pool ----------

  // A Stop is waiting for the owned pool.
  predicate Awaiting(a: App) {
    a.control == Draining || a.control == Closing
  }

  // Steps of the awaited pool's workers, none of them owed to a cancellation, and of the decode stage.
  predicate DrainEvent(a: App, e: Event) {
    e.Consume? || ((e.Take? || e.Finish? || e.Send? || e.Leave?) && e.p == a.owned)
  }

  // While a worker of the awaited pool is left there is such a step: if the worker is blocked on the
  // full raw channel, it is the decode stage's.
  lemma {:induction false} DrainMoves(a: App, workers: nat) returns (e: Event)
    requires Inv(a, workers) && Awaiting(a) && a.pools[a.owned].live > 0 && a.room > 0
    ensures Enabled(a, e) && DrainEvent(a, e)
  {
    var pool := a.pools[a.owned];
    assert PoolInv(pool, a.cancelled, workers);
    if pool.busy != multiset{} {
      var job :| job in pool.busy;
      return Finish(a.owned, job, true);
    }
    if pool.held != multiset{} {
      var job :| job in pool.held;
      return if a.raw < a.room then Send(a.owned, job) else Consume;
    }
    return if pool.queue != [] then Take(a.owned) else Leave(a.owned);
  }

  // How many of these steps are left at most.
  function Outstanding(a: App): nat
    requires a.owned < |a.pools|
  {
    var pool := a.pools[a.owned];
    4 * |pool.queue| + 3 * |pool.busy| + 2 * |pool.held| + a.raw + pool.live
  }

  lemma {:induction false} WorkerShrinks(a: App, e: Event, workers: nat)
    requires a.owned < |a.pools| && Enabled(a, e) && (e.Take? || e.Finish? || e.Leave?) && e.p == a.owned
    ensures Next(a, e, workers).control == a.control
    ensures a.owned < |Next(a, e, workers).pools| && Outstanding(Next(a, e, workers)) < Outstanding(a)
  {
  }

  lemma {:induction false} SendShrinks(a: App, job: JobId, workers: nat)
    requires a.owned < |a.pools| && Enabled(a, Send(a.owned, job)) && a.rawCloses == 0
    ensures Next(a, Send(a.owned, job), workers).control == a.control
    ensures Outstanding(Next(a, Send(a.owned, job), workers)) < Outstanding(a)
  {
  }

  lemma {:induction false} Shrinks(a: App, e: Event, workers: nat)
    requires a.owned < |a.pools| && Enabled(a, e) && DrainEvent(a, e) && (e.Send? ==> a.rawCloses == 0)
    ensures var a' := Next(a, e, workers);
            && a'.control == a.control && a'.owned == a.owned && a'.room == a.room && a'.owned < |a'.pools|
            && a'.pass == a.pass && |a'.pools| == |a.pools| && a'.target == a.target
    ensures Outstanding(Next(a, e, workers)) < Outstanding(a)
  {
    match e {
      case Send(_, job) => SendShrinks(a, job, workers);
      case Consume =>
      case _ => WorkerShrinks(a, e, workers);
    }
  }

  lemma {:induction false} DrainStep(a: App, e: Event, workers: nat)
    requires workers > 0 && Inv(a, workers) && Awaiting(a) && Enabled(a, e) && DrainEvent(a, e)
    ensures Inv(Next(a, e, workers), workers) && Awaiting(Next(a, e, workers))
    ensures var a' := Next(a, e, workers);
            a'.owned == a.owned && a'.room == a.room && a'.control == a.control && Outstanding(a') < Outstanding(a)
    ensures var a' := Next(a, e, workers);
            a'.pass == a.pass && |a'.pools| == |a.pools| && a'.target == a.target
  {
    Step(a, e, workers);
    if e.Send? {
      SendStep(a, e.p, e.job, workers);
    }
    Shrinks(a, e, workers);
  }

  // Only such steps happen.
  predicate OnlyDrains(a: App, events: seq<Event>) {
    forall i :: 0 <= i < |events| ==> DrainEvent(a, events[i])
  }

  lemma {:induction false} DrainFirst(a: App, e: Event, rest: seq<Event>, workers: nat)
    requires Enabled(a, e) && DrainEvent(a, e) && Next(a, e, workers).owned == a.owned && OnlyDrains(Next(a, e, workers), rest)
    ensures OnlyDrains(a, [e] + rest) && Run(a, [e] + rest, workers) == Run(Next(a, e, workers), rest, workers)
  {
    assert ([e] + rest)[1..] == rest;
  }

  // So the wait can always end, at most Outstanding steps away, with the pool's Stop returning.
  lemma {:induction false} DrainEnds(a: App, workers: nat) returns (events: seq<Event>)
    requires workers > 0 && Inv(a, workers) && Awaiting(a) && a.room > 0
    ensures OnlyDrains(a, events) && |events| <= Outstanding(a)
    ensures var a' := Run(a, events, workers);
            && Inv(a', workers) && a'.control == a.control && a'.owned == a.owned && a'.pass == a.pass
            && Enabled(a', if a.control == Draining then OldDrained else LastDrained)
    decreases Outstanding(a)
  {
    if a.pools[a.owned].live == 0 {
      return [];
    }
    var e := DrainMoves(a, workers);
    DrainStep(a, e, workers);
    var rest := DrainEnds(Next(a, e, workers), workers);
    events := [e] + rest;
    DrainFirst(a, e, rest, workers);
  }

  // ---------- Reload and Stop return ----------

  lemma {:induction false} RunAppend(a: App, e: seq<Event>, f: seq<Event>, workers: nat)
    ensures Run(a, e + f, workers) == Run(Run(a, e, workers), f, workers)
    decreases |e|
  {
    if e == [] {
      assert e + f == f;
    } else {
      assert (e + f)[1..] == e[1..] + f;
      RunAppend(if Enabled(a, e[0]) then Next(a, e[0], workers) else a, e[1..], f, workers);
    }
  }

  // The scheduler can finish the pass it is in, whatever the pool makes of the jobs.
  lemma {:induction false} PassEnds(a: App, workers: nat) returns (events: seq<Event>)
    requires workers > 0 && Inv(a, workers)
    ensures var b := Run(a, events, workers);
            Inv(b, workers) && !b.pass.Passing? && b.control == a.control && b.owned == a.owned && b.room == a.room
    decreases if a.pass.Passing? then |a.pass.left| + 1 else 0
  {
    if !a.pass.Passing? {
      return [];
    }
    var e := if a.pass.left == [] then EndPass else TrySubmit;
    Step(a, e, workers);
    var rest := PassEnds(Next(a, e, workers), workers);
    events := [e] + rest;
    assert events[1..] == rest;
  }

  lemma {:induction false} BeginReload(a: App, capacity: nat, workers: nat)
    requires workers > 0 && Inv(a, workers) && a.control == Idle && !a.pass.Passing?
    ensures var b := Run(a, [StartPool(capacity), Swap, CloseOld], workers);
            && Inv(b, workers) && b.control == Draining && b.owned == a.owned && b.pass == a.pass && b.room == a.room
            && b.pools[b.target].capacity == capacity && b.pools[b.target].live == workers
  {
    RunThree(a, StartPool(capacity), Swap, CloseOld, workers);
    Step(a, StartPool(capacity), workers);
    Step(Next(a, StartPool(capacity), workers), Swap, workers);
    Step(Next(Next(a, StartPool(capacity), workers), Swap, workers), CloseOld, workers);
  }

  // Whenever no reload is under way one can be carried through: there is a run on which Reload
  // returns with the next pool owned and in use and the old one's Stop returned.
  lemma {:induction false} ReloadReturns(a: App, capacity: nat, workers: nat) returns (events: seq<Event>)
    requires workers > 0 && Inv(a, workers) && a.control == Idle && a.room > 0
    ensures var b := Run(a, events, workers);
            && Inv(b, workers) && b.control == Idle && b.owned == b.target == a.owned + 1
            && b.pools[a.owned].returned && !b.pools[b.owned].returned
  {
    var finish := PassEnds(a, workers);
    var a1 := Run(a, finish, workers);
    BeginReload(a1, capacity, workers);
    var a2 := Run(a1, [StartPool(capacity), Swap, CloseOld], workers);
    var drain := DrainEnds(a2, workers);
    var a3 := Run(a2, drain, workers);
    RunTwo(a3, OldDrained, ReloadEntries, workers);
    Step(a3, OldDrained, workers);
    Step(Next(a3, OldDrained, workers), ReloadEntries, workers);
    RunAppend(a2, drain, [OldDrained, ReloadEntries], workers);
    RunAppend(a1, [StartPool(capacity), Swap, CloseOld], drain + [OldDrained, ReloadEntries], workers);
    RunAppend(a, finish, [StartPool(capacity), Swap, CloseOld] + (drain + [OldDrained, ReloadEntries]), workers);
    events := finish + ([StartPool(capacity), Swap, CloseOld] + (drain + [OldDrained, ReloadEntries]));
    var b := Run(a, events, workers);
    assert b.pools[a.owned].returned == Returned(Idle, b.owned, a.owned);
  }

  lemma {:induction false} BeginStop(a: App, workers: nat)
    requires workers > 0 && Inv(a, workers) && a.control == Idle && !a.pass.Passing?
    ensures var b := Run(a, [Cancel, SchedulerExit, CloseLast], workers);
            Inv(b, workers) && b.control == Closing && b.owned == a.owned && b.room == a.room
  {
    RunThree(a, Cancel, SchedulerExit, CloseLast, workers);
    Step(a, Cancel, workers);
    Step(Next(a, Cancel, workers), SchedulerExit, workers);
    Step(Next(Next(a, Cancel, workers), SchedulerExit, workers), CloseLast, workers);
  }

  // ... and so can a Stop, up to the closing of the raw channel.
  lemma {:induction false} StopReturns(a: App, workers: nat) returns (events: seq<Event>)
    requires workers > 0 && Inv(a, workers) && a.control == Idle && a.room > 0
    ensures var b := Run(a, events, workers);
            Inv(b, workers) && b.rawCloses == 1 && forall p :: 0 <= p < |b.pools| ==> b.pools[p].live == 0
  {
    var finish := PassEnds(a, workers);
    var a1 := Run(a, finish, workers);
    BeginStop(a1, workers);
    var a2 := Run(a1, [Cancel, SchedulerExit, CloseLast], workers);
    var drain := DrainEnds(a2, workers);
    var a3 := Run(a2, drain, workers);
    RunTwo(a3, LastDrained, CloseRaw, workers);
    Step(a3, LastDrained, workers);
    Step(Next(a3, LastDrained, workers), CloseRaw, workers);
    RunAppend(a2, drain, [LastDrained, CloseRaw], workers);
    RunAppend(a1, [Cancel, SchedulerExit, CloseLast], drain + [LastDrained, CloseRaw], workers);
    RunAppend(a, finish, [Cancel, SchedulerExit, CloseLast] + (drain + [LastDrained, CloseRaw]), workers);
    events := finish + ([Cancel, SchedulerExit, CloseLast] + (drain + [LastDrained, CloseRaw]));
    var b := Run(a, events, workers);
    forall p | 0 <= p < |b.pools|
      ensures b.pools[p].live == 0
    {
      assert PoolInv(b.pools[p], b.cancelled, workers);
      assert Returned(b.control, b.owned, p);
    }
  }

  // A worker of a cancelled app that is not in a poll can leave.
  lemma {:induction false} OneLeaves(a: App, p: nat, workers: nat) returns (e: Event)
    requires Inv(a, workers) && a.cancelled && p < |a.pools| && a.pools[p].busy == multiset{} && a.pools[p].live > 0
    ensures Enabled(a, e) && (e.GiveUp? || e.Quit?)
    ensures var a' := Next(a, e, workers);
            && a'.cancelled && a'.raw == a.raw && |a'.pools| == |a.pools|
            && a'.pools[p].busy == multiset{} && a'.pools[p].queue == a.pools[p].queue && a'.pools[p].live == a.pools[p].live - 1
  {
    var held := a.pools[p].held;
    if held != multiset{} {
      var job :| job in held;
      e := GiveUp(p, job);
    } else {
      e := Quit(p);
    }
  }

  // So a cancellation frees the workers without the raw channel: those not in a poll can all leave,
  // giving their results up, with whatever is queued left alone.
  lemma {:induction false} CancelFrees(a: App, p: nat, workers: nat) returns (events: seq<Event>)
    requires workers > 0 && Inv(a, workers) && a.cancelled && p < |a.pools| && a.pools[p].busy == multiset{}
    ensures AllLeave(events) && Freed(a, Run(a, events, workers), p)
    decreases a.pools[p].live
  {
    if a.pools[p].live == 0 {
      return [];
    }
    var e := OneLeaves(a, p, workers);
    Step(a, e, workers);
    var rest := CancelFrees(Next(a, e, workers), p, workers);
    events := [e] + rest;
    LeaveFirst(a, e, rest, workers);
  }

  predicate AllLeave(events: seq<Event>) {
    forall i :: 0 <= i < |events| ==> events[i].GiveUp? || events[i].Quit?
  }

  predicate Freed(a: App, b: App, p: nat) {
    p < |a.pools| == |b.pools| && b.pools[p].live == 0 && b.pools[p].queue == a.pools[p].queue && b.raw == a.raw
  }

  lemma {:induction false} LeaveFirst(a: App, e: Event, rest: seq<Event>, workers: nat)
    requires Enabled(a, e) && (e.GiveUp? || e.Quit?) && AllLeave(rest)
    ensures AllLeave([e] + rest) && Run(a, [e] + rest, workers) == Run(Next(a, e, workers), rest, workers)
  {
    assert ([e] + rest)[1..] == rest;
  }
}
