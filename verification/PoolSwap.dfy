/** Swapping worker pools under a running scheduler: App.Reload and App.Stop
    (internal/app/app.go), the scheduler's pass and SetPool (internal/scheduler/scheduler.go) and
    the workers (internal/poller/worker.go). One reloader; Stop does not overlap a Reload. All pools
    send to one bounded raw channel; the decode stage that empties it is in Pipeline, and here takes
    an item whenever there is one. Every Poll returns. */
module PoolSwap {

  type JobId = nat

  datatype Pool = Pool(
    capacity: nat,
    queue: seq<JobId>,
    closes: nat,                // how often the job channel has been closed
    live: nat,                  // workers that have not returned
    busy: multiset<JobId>,      // jobs being polled
    held: multiset<JobId>,      // polled jobs whose worker waits to send the result
    offered: multiset<JobId>,   // every job TrySubmit was called with
    accepted: multiset<JobId>,  // those it enqueued
    refused: multiset<JobId>,   // those it turned away
    sent: multiset<JobId>,      // jobs whose result has gone to the raw channel
    empty: multiset<JobId>,     // jobs whose Poll failed without varbinds
    lost: multiset<JobId>,      // jobs whose worker gave the result up on cancellation
    returned: bool,             // Stop has returned
    clean: bool)                // ... with the pipeline context not cancelled

  datatype Pass = Waiting | Passing(left: seq<JobId>) | Exited

  // Where the goroutine that calls Reload and Stop is.
  datatype Control =
    | Idle
    | Started                   // the new pool runs, the scheduler still has the old one
    | Swapped                   // SetPool done
    | Draining                  // the old pool's channel is closed, its workers are finishing
    | Drained                   // the old pool's Stop has returned
    | Cancelled                 // Stop: context cancelled, waiting for the scheduler
    | Closing                   // Stop: the last pool's channel is closed
    | Stopped                   // ... and its Stop has returned
    | RawClosed

  datatype App = App(
    pools: seq<Pool>,
    owned: nat,                 // App.workerPool
    target: nat,                // the scheduler's pool
    pass: Pass,
    control: Control,
    cancelled: bool,
    sentOnClosed: bool,         // some TrySubmit met a closed channel
    room: nat,                  // the raw channel's buffer size
    raw: nat,                   // results in it
    rawCloses: nat,
    sentOnRaw: bool)            // some worker sent on the closed raw channel

  datatype Event =
    | StartPool(capacity: nat) | Swap | CloseOld | OldDrained | ReloadEntries
    | Cancel | CloseLast | LastDrained | CloseRaw
    | BeginPass(jobs: seq<JobId>) | TrySubmit | EndPass | SchedulerExit
    | Take(p: nat) | Leave(p: nat) | Quit(p: nat)
    | Finish(p: nat, job: JobId, result: bool) | Send(p: nat, job: JobId) | GiveUp(p: nat, job: JobId)
    | Consume                   // a decode worker takes a result

  function NewPool(capacity: nat, workers: nat): Pool {
    Pool(capacity, [], 0, workers, multiset{}, multiset{}, multiset{}, multiset{}, multiset{}, multiset{}, multiset{},
         multiset{}, false, false)
  }

  function Initial(capacity: nat, workers: nat, room: nat): App {
    App([NewPool(capacity, workers)], 0, 0, Waiting, Idle, false, false, room, 0, 0, false)
  }

  predicate FreeWorker(pool: Pool) {
    |pool.busy| + |pool.held| < pool.live
  }

  predicate Enabled(a: App, e: Event) {
    match e
    case StartPool(_) => a.control == Idle
    case Swap => a.control == Started && !a.pass.Passing? && |a.pools| > 0 // SetPool takes the scheduler's lock
    case CloseOld => a.control == Swapped && a.owned < |a.pools|
    case OldDrained => a.control == Draining && a.owned < |a.pools| && a.pools[a.owned].live == 0
    case ReloadEntries => a.control == Drained && !a.pass.Passing? && |a.pools| > 0
    case Cancel => a.control == Idle
    case CloseLast => a.control == Cancelled && a.pass == Exited && a.owned < |a.pools|
    case LastDrained => a.control == Closing && a.owned < |a.pools| && a.pools[a.owned].live == 0
    case CloseRaw => a.control == Stopped
    case BeginPass(_) => a.pass == Waiting
    case TrySubmit => a.pass.Passing? && a.pass.left != [] && a.target < |a.pools|
    case EndPass => a.pass == Passing([])
    case SchedulerExit => a.pass == Waiting && a.cancelled
    case Take(p) => p < |a.pools| && CanWork(a.pools[p], e, a.cancelled)
    case Finish(p, _, _) => p < |a.pools| && CanWork(a.pools[p], e, a.cancelled)
    case Leave(p) => p < |a.pools| && CanWork(a.pools[p], e, a.cancelled)
    case Quit(p) => p < |a.pools| && CanWork(a.pools[p], e, a.cancelled)
    case GiveUp(p, _) => p < |a.pools| && CanWork(a.pools[p], e, a.cancelled)
    case Send(p, job) => p < |a.pools| && job in a.pools[p].held && (a.raw < a.room || a.rawCloses > 0)
    case Consume => a.raw > 0
  }

  // Steps of a pool's worker that concern its pool only.
  predicate Working(e: Event) {
    e.Take? || e.Finish? || e.GiveUp? || e.Leave? || e.Quit?
  }

  predicate CanWork(pool: Pool, e: Event, cancelled: bool)
    requires Working(e)
  {
    match e
    case Take(_) => pool.queue != [] && FreeWorker(pool)
    case Finish(_, job, _) => job in pool.busy
    case GiveUp(_, job) => job in pool.held && cancelled && pool.live > 0
    case Leave(_) => pool.closes > 0 && pool.queue == [] && FreeWorker(pool)
    case Quit(_) => cancelled && FreeWorker(pool)
  }

  // A finished poll leaves the worker with a result to send or, failed with nothing, free again;
  // giving up loses the result.
  function Work(pool: Pool, e: Event, cancelled: bool): Pool
    requires Working(e) && CanWork(pool, e, cancelled)
  {
    match e
    case Take(_) => pool.(queue := pool.queue[1..], busy := pool.busy + multiset{pool.queue[0]})
    case Finish(_, job, result) =>
      var pool' := pool.(busy := pool.busy - multiset{job});
      if result then pool'.(held := pool.held + multiset{job}) else pool'.(empty := pool.empty + multiset{job})
    case GiveUp(_, job) =>
      pool.(held := pool.held - multiset{job}, lost := pool.lost + multiset{job}, live := pool.live - 1)
    case Leave(_) => pool.(live := pool.live - 1)
    case Quit(_) => pool.(live := pool.live - 1)
  }

  // Non-blocking send; on a closed channel it would panic.
  function Submit(pool: Pool, job: JobId): Pool {
    var pool' := pool.(offered := pool.offered + multiset{job});
    if pool.closes == 0 && |pool.queue| < pool.capacity
    then pool'.(queue := pool.queue + [job], accepted := pool.accepted + multiset{job})
    else pool'.(refused := pool.refused + multiset{job})
  }

  function Next(a: App, e: Event, workers: nat): App
    requires Enabled(a, e)
  {
    match e
    case StartPool(capacity) => a.(pools := a.pools + [NewPool(capacity, workers)], control := Started)
    case Swap => a.(target := |a.pools| - 1, control := Swapped)
    case CloseOld => WithPool(a, a.owned, a.pools[a.owned].(closes := a.pools[a.owned].closes + 1)).(control := Draining)
    case OldDrained => WithPool(a, a.owned, a.pools[a.owned].(returned := true, clean := !a.cancelled)).(control := Drained)
    case ReloadEntries => a.(owned := |a.pools| - 1, control := Idle)
    case Cancel => a.(cancelled := true, control := Cancelled)
    case CloseLast => WithPool(a, a.owned, a.pools[a.owned].(closes := a.pools[a.owned].closes + 1)).(control := Closing)
    case LastDrained => WithPool(a, a.owned, a.pools[a.owned].(returned := true, clean := !a.cancelled)).(control := Stopped)
    case CloseRaw => a.(rawCloses := a.rawCloses + 1, control := RawClosed)
    case BeginPass(jobs) => a.(pass := Passing(jobs))
    case TrySubmit =>
      var pool := a.pools[a.target];
      WithPool(a, a.target, Submit(pool, a.pass.left[0]))
        .(pass := Passing(a.pass.left[1..]), sentOnClosed := a.sentOnClosed || pool.closes > 0)
    case EndPass => a.(pass := Waiting)
    case SchedulerExit => a.(pass := Exited)
    case Take(p) => WithPool(a, p, Work(a.pools[p], e, a.cancelled))
    case Finish(p, _, _) => WithPool(a, p, Work(a.pools[p], e, a.cancelled))
    case GiveUp(p, _) => WithPool(a, p, Work(a.pools[p], e, a.cancelled))
    case Leave(p) => WithPool(a, p, Work(a.pools[p], e, a.cancelled))
    case Quit(p) => WithPool(a, p, Work(a.pools[p], e, a.cancelled))
    case Send(p, job) =>
      var pool := a.pools[p];
      var a' := WithPool(a, p, pool.(held := pool.held - multiset{job}, sent := pool.sent + multiset{job}));
      if a.rawCloses > 0 then a'.(sentOnRaw := true) else a'.(raw := a.raw + 1)
    case Consume => a.(raw := a.raw - 1)
  }

  function WithPool(a: App, p: nat, pool: Pool): App
    requires p < |a.pools|
  {
    a.(pools := a.pools[p := pool])
  }

  function Run(a: App, events: seq<Event>, workers: nat): App
    decreases |events|
  {
    if events == [] then a
    else Run(if Enabled(a, events[0]) then Next(a, events[0], workers) else a, events[1..], workers)
  }

  // ---------- Invariants ----------

  // Accepted jobs are queued, being polled, waiting with a result, or done with; workers leave an
  // uncancelled pool only when its channel is closed and empty, and lose no result before a cancellation.
  ghost predicate PoolInv(pool: Pool, cancelled: bool, workers: nat) {
    && pool.offered == pool.accepted + pool.refused
    && pool.accepted == multiset(pool.queue) + pool.busy + pool.held + pool.sent + pool.empty + pool.lost
    && |pool.busy| + |pool.held| <= pool.live <= workers
    && |pool.queue| <= pool.capacity
    && pool.closes <= 1
    && (!cancelled ==> pool.lost == multiset{})
    && (!cancelled && pool.live < workers ==> pool.closes > 0 && pool.queue == [])
    && (pool.returned ==> pool.live == 0 && pool.closes > 0)
    && (pool.returned && pool.clean ==> pool.queue == [] && pool.lost == multiset{})
  }

  predicate Reloading(c: Control) {
    c == Started || c == Swapped || c == Draining || c == Drained
  }

  // How often pool p's channel has been closed, as a function of the reloader's position.
  function Closes(c: Control, owned: nat, p: nat): nat {
    if p < owned || (p == owned && (c == Draining || c == Drained || c == Closing || c == Stopped || c == RawClosed))
    then 1 else 0
  }

  // Whether pool p's Stop has returned.
  predicate Returned(c: Control, owned: nat, p: nat) {
    p < owned || (p == owned && (c == Drained || c == Stopped || c == RawClosed))
  }

  predicate Stopping(c: Control) {
    c == Cancelled || c == Closing || c == Stopped || c == RawClosed
  }

  ghost predicate ControlInv(a: App) {
    && |a.pools| == a.owned + (if Reloading(a.control) then 2 else 1)
    && a.target == a.owned + (if Reloading(a.control) && a.control != Started then 1 else 0)
    && (forall p :: 0 <= p < |a.pools| ==>
          && a.pools[p].closes == Closes(a.control, a.owned, p)
          && a.pools[p].returned == Returned(a.control, a.owned, p))
    && (Stopping(a.control) && a.control != Cancelled ==> a.pass == Exited)
    && (a.pass == Exited ==> a.cancelled)
    && (a.cancelled <==> Stopping(a.control))
    && !a.sentOnClosed && !a.sentOnRaw
    && a.rawCloses == (if a.control == RawClosed then 1 else 0)
    && a.raw <= a.room
  }

  ghost predicate PoolsInv(pools: seq<Pool>, cancelled: bool, workers: nat) {
    forall p :: 0 <= p < |pools| ==> PoolInv(pools[p], cancelled, workers)
  }

  ghost predicate Inv(a: App, workers: nat) {
    ControlInv(a) && PoolsInv(a.pools, a.cancelled, workers)
  }

  lemma {:induction false} TakeKeeps(pool: Pool, e: Event, cancelled: bool, workers: nat)
    requires PoolInv(pool, cancelled, workers) && e.Take? && CanWork(pool, e, cancelled)
    ensures PoolInv(Work(pool, e, cancelled), cancelled, workers)
  {
    assert pool.queue == [pool.queue[0]] + pool.queue[1..];
  }

  lemma {:induction false} ResultHeld(pool: Pool, job: JobId, cancelled: bool, workers: nat)
    requires PoolInv(pool, cancelled, workers) && job in pool.busy
    ensures PoolInv(pool.(busy := pool.busy - multiset{job}, held := pool.held + multiset{job}), cancelled, workers)
    ensures PoolInv(pool.(busy := pool.busy - multiset{job}, empty := pool.empty + multiset{job}), cancelled, workers)
  {
  }

  lemma {:induction false} ResultLost(pool: Pool, job: JobId, workers: nat)
    requires PoolInv(pool, true, workers) && job in pool.held && pool.live > 0
    ensures PoolInv(pool.(held := pool.held - multiset{job}, lost := pool.lost + multiset{job}, live := pool.live - 1),
                    true, workers)
  {
  }

  lemma {:induction false} WorkerGoes(pool: Pool, e: Event, cancelled: bool, workers: nat)
    requires PoolInv(pool, cancelled, workers) && (e.Leave? || e.Quit?) && CanWork(pool, e, cancelled)
    ensures PoolInv(Work(pool, e, cancelled), cancelled, workers)
  {
  }

  lemma {:induction false} WorkKeeps(pool: Pool, e: Event, cancelled: bool, workers: nat)
    requires PoolInv(pool, cancelled, workers) && Working(e) && CanWork(pool, e, cancelled)
    ensures PoolInv(Work(pool, e, cancelled), cancelled, workers)
  {
    if e.Take? {
      TakeKeeps(pool, e, cancelled, workers);
    } else if e.Finish? {
      ResultHeld(pool, e.job, cancelled, workers);
    } else if e.GiveUp? {
      ResultLost(pool, e.job, workers);
    } else {
      WorkerGoes(pool, e, cancelled, workers);
    }
  }

  lemma {:induction false} SendKeeps(pool: Pool, job: JobId, cancelled: bool, workers: nat)
    requires PoolInv(pool, cancelled, workers) && job in pool.held
    ensures PoolInv(pool.(held := pool.held - multiset{job}, sent := pool.sent + multiset{job}), cancelled, workers)
  {
  }

  lemma {:induction false} AcceptKeeps(pool: Pool, job: JobId, cancelled: bool, workers: nat)
    requires PoolInv(pool, cancelled, workers) && pool.closes == 0 && |pool.queue| < pool.capacity
    ensures PoolInv(pool.(offered := pool.offered + multiset{job}, queue := pool.queue + [job],
                          accepted := pool.accepted + multiset{job}), cancelled, workers)
  {
    assert multiset(pool.queue + [job]) == multiset(pool.queue) + multiset{job};
  }

  lemma {:induction false} RefuseKeeps(pool: Pool, job: JobId, cancelled: bool, workers: nat)
    requires PoolInv(pool, cancelled, workers)
    ensures PoolInv(pool.(offered := pool.offered + multiset{job}, refused := pool.refused + multiset{job}), cancelled, workers)
  {
  }

  lemma {:induction false} SubmitKeeps(pool: Pool, job: JobId, cancelled: bool, workers: nat)
    requires PoolInv(pool, cancelled, workers)
    ensures PoolInv(Submit(pool, job), cancelled, workers)
  {
    if pool.closes == 0 && |pool.queue| < pool.capacity {
      AcceptKeeps(pool, job, cancelled, workers);
    } else {
      RefuseKeeps(pool, job, cancelled, workers);
    }
  }

  lemma {:induction false} CloseKeeps(pool: Pool, cancelled: bool, workers: nat)
    requires PoolInv(pool, cancelled, workers) && pool.closes == 0
    ensures PoolInv(pool.(closes := 1), cancelled, workers)
  {
  }

  lemma {:induction false} ReturnKeeps(pool: Pool, cancelled: bool, workers: nat)
    requires workers > 0 && PoolInv(pool, cancelled, workers) && pool.closes == 1 && pool.live == 0
    ensures PoolInv(pool.(returned := true, clean := !cancelled), cancelled, workers)
  {
  }

  lemma {:induction false} OnePool(pools: seq<Pool>, p: nat, pool: Pool, cancelled: bool, workers: nat)
    requires PoolsInv(pools, cancelled, workers) && p < |pools| && PoolInv(pool, cancelled, workers)
    ensures PoolsInv(pools[p := pool], cancelled, workers)
  {
  }

  // Changing one pool without touching its channel's closedness or its Stop.
  lemma {:induction false} OnePoolControl(a: App, p: nat, pool: Pool)
    requires ControlInv(a) && p < |a.pools| && pool.closes == a.pools[p].closes && pool.returned == a.pools[p].returned
    ensures ControlInv(WithPool(a, p, pool))
  {
  }

  lemma {:induction false} WorkerStep(a: App, e: Event, workers: nat)
    requires Inv(a, workers) && Enabled(a, e) && Working(e)
    ensures Inv(Next(a, e, workers), workers)
  {
    WorkKeeps(a.pools[e.p], e, a.cancelled, workers);
    WorkFrame(a.pools[e.p], e, a.cancelled);
    PoolReplaced(a, e.p, Work(a.pools[e.p], e, a.cancelled), workers);
  }

  lemma {:induction false} WorkFrame(pool: Pool, e: Event, cancelled: bool)
    requires Working(e) && CanWork(pool, e, cancelled)
    ensures Work(pool, e, cancelled).closes == pool.closes && Work(pool, e, cancelled).returned == pool.returned
  {
  }

  lemma {:induction false} PoolReplaced(a: App, p: nat, pool: Pool, workers: nat)
    requires Inv(a, workers) && p < |a.pools| && PoolInv(pool, a.cancelled, workers)
    requires pool.closes == a.pools[p].closes && pool.returned == a.pools[p].returned
    ensures Inv(WithPool(a, p, pool), workers)
  {
    OnePool(a.pools, p, pool, a.cancelled, workers);
    OnePoolControl(a, p, pool);
  }

  // A worker sends only while its pool's Stop has not returned, so the raw channel is still open.
  lemma {:induction false} SendStep(a: App, p: nat, job: JobId, workers: nat)
    requires Inv(a, workers) && Enabled(a, Send(p, job))
    ensures a.rawCloses == 0 && Inv(Next(a, Send(p, job), workers), workers)
  {
    var pool := a.pools[p];
    assert PoolInv(pool, a.cancelled, workers);
    assert |pool.held| > 0;
    assert !Returned(a.control, a.owned, p);
    SendKeeps(pool, job, a.cancelled, workers);
    var pool' := pool.(held := pool.held - multiset{job}, sent := pool.sent + multiset{job});
    OnePool(a.pools, p, pool', a.cancelled, workers);
    OnePoolControl(a, p, pool');
  }

  lemma {:induction false} SubmitStep(a: App, workers: nat)
    requires Inv(a, workers) && Enabled(a, TrySubmit)
    ensures Inv(Next(a, TrySubmit, workers), workers)
  {
    var pool := a.pools[a.target];
    var pool' := Submit(pool, a.pass.left[0]);
    SubmitKeeps(pool, a.pass.left[0], a.cancelled, workers);
    OnePool(a.pools, a.target, pool', a.cancelled, workers);
    SubmitControl(a, pool');
  }

  // The scheduler's target is never a closed pool while it is in a pass.
  lemma {:induction false} SubmitControl(a: App, pool: Pool)
    requires ControlInv(a) && Enabled(a, TrySubmit)
    requires pool.closes == a.pools[a.target].closes && pool.returned == a.pools[a.target].returned
    ensures a.pools[a.target].closes == 0
    ensures ControlInv(WithPool(a, a.target, pool).(pass := Passing(a.pass.left[1..])))
  {
    assert a.pools[a.target].closes == Closes(a.control, a.owned, a.target);
    OnePoolControl(a, a.target, pool);
  }

  // Closing the owned pool's channel, and its Stop returning, by Reload or by Stop.
  lemma {:induction false} OwnedStep(a: App, e: Event, workers: nat)
    requires workers > 0 && Inv(a, workers) && Enabled(a, e)
    requires e.CloseOld? || e.CloseLast? || e.OldDrained? || e.LastDrained?
    ensures Inv(Next(a, e, workers), workers)
  {
    var pool := a.pools[a.owned];
    assert pool.closes == Closes(a.control, a.owned, a.owned);
    assert PoolInv(pool, a.cancelled, workers);
    if e.CloseOld? || e.CloseLast? {
      CloseKeeps(pool, a.cancelled, workers);
    } else {
      ReturnKeeps(pool, a.cancelled, workers);
    }
    OnePool(a.pools, a.owned, Next(a, e, workers).pools[a.owned], a.cancelled, workers);
    OwnedControl(a, e, workers);
  }

  lemma {:induction false} OwnedControl(a: App, e: Event, workers: nat)
    requires ControlInv(a) && Enabled(a, e)
    requires e.CloseOld? || e.CloseLast? || e.OldDrained? || e.LastDrained?
    ensures ControlInv(Next(a, e, workers))
  {
    if e.CloseOld? || e.CloseLast? {
      CloseControl(a, e, workers);
    } else {
      ReturnControl(a, e, workers);
    }
  }

  lemma {:induction false} CloseControl(a: App, e: Event, workers: nat)
    requires ControlInv(a) && Enabled(a, e) && (e.CloseOld? || e.CloseLast?)
    ensures ControlInv(Next(a, e, workers))
  {
  }

  lemma {:induction false} ReturnControl(a: App, e: Event, workers: nat)
    requires ControlInv(a) && Enabled(a, e) && (e.OldDrained? || e.LastDrained?)
    ensures ControlInv(Next(a, e, workers))
  {
  }

  lemma {:induction false} CancelStep(a: App, workers: nat)
    requires Inv(a, workers) && Enabled(a, Cancel)
    ensures Inv(Next(a, Cancel, workers), workers)
  {
    CancelControl(a, workers);
    forall p | 0 <= p < |a.pools|
      ensures PoolInv(a.pools[p], true, workers)
    {
      assert PoolInv(a.pools[p], false, workers);
    }
  }

  lemma {:induction false} CancelControl(a: App, workers: nat)
    requires ControlInv(a) && Enabled(a, Cancel)
    ensures !a.cancelled && ControlInv(Next(a, Cancel, workers))
  {
  }

  lemma {:induction false} StartPoolStep(a: App, capacity: nat, workers: nat)
    requires Inv(a, workers) && Enabled(a, StartPool(capacity))
    ensures Inv(Next(a, StartPool(capacity), workers), workers)
  {
    StartPoolControl(a, capacity, workers);
    assert PoolInv(NewPool(capacity, workers), a.cancelled, workers);
  }

  lemma {:induction false} StartPoolControl(a: App, capacity: nat, workers: nat)
    requires ControlInv(a) && Enabled(a, StartPool(capacity))
    ensures ControlInv(Next(a, StartPool(capacity), workers))
  {
  }

  // Steps that leave every pool alone.
  predicate QuietEvent(e: Event) {
    e.Swap? || e.ReloadEntries? || e.BeginPass? || e.EndPass? || e.SchedulerExit? || e.CloseRaw? || e.Consume?
  }

  lemma {:induction false} QuietControl(a: App, e: Event, workers: nat)
    requires ControlInv(a) && Enabled(a, e) && QuietEvent(e)
    ensures Next(a, e, workers).pools == a.pools && Next(a, e, workers).cancelled == a.cancelled
    ensures ControlInv(Next(a, e, workers))
  {
  }

  lemma {:induction false} QuietStep(a: App, e: Event, workers: nat)
    requires Inv(a, workers) && Enabled(a, e) && QuietEvent(e)
    ensures Inv(Next(a, e, workers), workers)
  {
    QuietControl(a, e, workers);
  }

  lemma {:induction false} Step(a: App, e: Event, workers: nat)
    requires workers > 0 && Inv(a, workers) && Enabled(a, e)
    ensures Inv(Next(a, e, workers), workers)
  {
    match e {
      case TrySubmit => SubmitStep(a, workers);
      case Send(p, job) => SendStep(a, p, job, workers);
      case Cancel => CancelStep(a, workers);
      case StartPool(capacity) => StartPoolStep(a, capacity, workers);
      case Take(_) => WorkerStep(a, e, workers);
      case Finish(_, _, _) => WorkerStep(a, e, workers);
      case GiveUp(_, _) => WorkerStep(a, e, workers);
      case Leave(_) => WorkerStep(a, e, workers);
      case Quit(_) => WorkerStep(a, e, workers);
      case CloseOld => OwnedStep(a, e, workers);
      case CloseLast => OwnedStep(a, e, workers);
      case OldDrained => OwnedStep(a, e, workers);
      case LastDrained => OwnedStep(a, e, workers);
      case _ => QuietStep(a, e, workers);
    }
  }

  lemma {:induction false} RunKeeps(a: App, events: seq<Event>, workers: nat)
    requires workers > 0 && Inv(a, workers)
    ensures Inv(Run(a, events, workers), workers)
    decreases |events|
  {
    if events != [] {
      if Enabled(a, events[0]) {
        Step(a, events[0], workers);
        RunKeeps(Next(a, events[0], workers), events[1..], workers);
      } else {
        RunKeeps(a, events[1..], workers);
      }
    }
  }
}
