/** The channel pipeline of internal/app/app.go: decode, produce and format stages and the transport,
    as steps of any number of goroutines over bounded channels.
    Stage k reads channel k and writes channel k + 1; stage 3 is the transport, which delivers.
    Feed is a polling worker's send. That none comes after CloseRaw is proved of the workers in
    PoolRuns (RawSafe), and taken from there. */
module Pipeline {

  // One raw poll result and what will become of it; the outcomes are arbitrary but fixed per item.
  datatype Item = Item(
    id: nat,
    varbinds: nat,        // decoded varbinds
    decodeError: bool,
    pollSuccess: bool,
    produceError: bool,
    metrics: nat,
    formatError: bool,
    failedSends: nat)     // Send attempts that fail before one succeeds

  // The stages' drop rules. The decode worker forwards an empty result only from a failed poll
  // decoded without error, the produce worker an empty one only from a failed poll.
  predicate Keeps(k: nat, x: Item) {
    match k
    case 0 => x.varbinds > 0 || (!x.decodeError && !x.pollSuccess)
    case 1 => !x.produceError && (x.metrics > 0 || !x.pollSuccess)
    case 2 => !x.formatError
    case _ => true
  }

  // Has passed the first n stages' rules.
  predicate Passed(n: nat, x: Item) {
    && (n > 0 ==> Keeps(0, x))
    && (n > 1 ==> Keeps(1, x))
    && (n > 2 ==> Keeps(2, x))
  }

  predicate Survives(x: Item, maxRetry: nat) {
    Passed(3, x) && x.failedSends <= maxRetry
  }

  const TRANSPORT := 3

  datatype Task = Receiving | Sending(item: Item, attempts: nat) | Gone

  type Stage = k: nat | k <= TRANSPORT

  datatype Worker = Worker(stage: Stage, task: Task)

  datatype Channel = Channel(capacity: nat, buffer: seq<Item>, closes: nat)

  datatype State = State(
    channels: seq<Channel>,     // raw, decoded, metric, formatted
    closers: seq<bool>,         // whether the goroutine closing channel k has done so; 0 is Stop
    workers: seq<Worker>,
    fed: multiset<Item>,        // everything put into the raw channel
    dropped: multiset<Item>,
    delivered: multiset<Item>,  // sent successfully by the transport
    lost: multiset<Item>,       // held by the transport when it left its retry wait
    sentOnClosed: bool,
    cancelled: bool,            // Stop has cancelled the context
    early: bool)                // the transport has left through its retry wait's cancellation case

  datatype Action =
    | Feed(item: Item) | Cancel | CloseRaw
    | Take(w: nat) | Send(w: nat) | Attempt(w: nat) | Exit(w: nat)
    | CloseChannel(k: nat)
    | Abandon(w: nat)           // the transport returns from a retry wait because of the cancellation

  // A step of the pipeline's own goroutines, and not the transport's early exit.
  predicate Inner(a: Action) {
    a.Take? || a.Send? || a.Attempt? || a.Exit? || a.CloseChannel?
  }

  predicate Open(s: State, k: nat)
    requires k < |s.channels|
  {
    s.channels[k].closes == 0
  }

  predicate StageGone(s: State, k: nat) {
    forall w :: 0 <= w < |s.workers| && s.workers[w].stage == k ==> s.workers[w].task == Gone
  }

  predicate Shape(s: State) {
    |s.channels| == 4 && |s.closers| == 4
  }

  // Every stage has a worker and every channel a buffer.
  ghost predicate WellFormed(s: State) {
    && Shape(s)
    && (forall k :: 0 <= k < 4 ==> s.channels[k].capacity >= 1)
    && (forall k :: 0 <= k <= TRANSPORT ==> Staffed(s.workers, k))
    && OneTransport(s.workers)
  }

  // Start launches a single transport goroutine.
  predicate OneTransport(workers: seq<Worker>) {
    forall v, w :: 0 <= v < |workers| && 0 <= w < |workers| && workers[v].stage == TRANSPORT == workers[w].stage ==> v == w
  }

  ghost predicate Staffed(workers: seq<Worker>, k: nat) {
    exists w :: 0 <= w < |workers| && workers[w].stage == k
  }

  lemma {:induction false} StaffedStays(workers: seq<Worker>, workers': seq<Worker>, k: nat)
    requires |workers| == |workers'| && forall w :: 0 <= w < |workers| ==> workers[w].stage == workers'[w].stage
    requires Staffed(workers, k)
    ensures Staffed(workers', k)
  {
  }

  ghost predicate Enabled(s: State, a: Action)
    requires Shape(s)
  {
    match a
    case Feed(_) => Open(s, 0) && |s.channels[0].buffer| < s.channels[0].capacity
    case Cancel => !s.cancelled
    case CloseRaw => !s.closers[0] && s.cancelled
    case Take(w) => w < |s.workers| && s.workers[w].task == Receiving && s.channels[s.workers[w].stage].buffer != []
    case Send(w) => w < |s.workers| && s.workers[w].task.Sending? && s.workers[w].stage < TRANSPORT
                    && (var c := s.channels[s.workers[w].stage + 1]; |c.buffer| < c.capacity || c.closes > 0)
    case Attempt(w) => w < |s.workers| && s.workers[w].task.Sending? && s.workers[w].stage == TRANSPORT
    case Exit(w) => w < |s.workers| && s.workers[w].task == Receiving
                    && (var c := s.channels[s.workers[w].stage]; c.closes > 0 && c.buffer == [])
    case CloseChannel(k) => 1 <= k < 4 && !s.closers[k] && StageGone(s, k - 1)
    case Abandon(w) => w < |s.workers| && s.workers[w].stage == TRANSPORT && s.cancelled
                       && s.workers[w].task.Sending? && s.workers[w].task.attempts > 0
  }

  function SetWorker(s: State, w: nat, task: Task): State
    requires w < |s.workers|
  {
    s.(workers := s.workers[w := s.workers[w].(task := task)])
  }

  function SetBuffer(s: State, k: nat, buffer: seq<Item>): State
    requires k < |s.channels|
  {
    s.(channels := s.channels[k := s.channels[k].(buffer := buffer)])
  }

  function Shut(s: State, k: nat): State
    requires k < |s.channels| && k < |s.closers|
  {
    s.(channels := s.channels[k := s.channels[k].(closes := s.channels[k].closes + 1)], closers := s.closers[k := true])
  }

  // A worker takes the head of its channel, and keeps or drops it.
  function AfterTake(s: State, w: nat): State
    requires w < |s.workers| && s.workers[w].stage < |s.channels| && s.channels[s.workers[w].stage].buffer != []
  {
    var k := s.workers[w].stage;
    var x := s.channels[k].buffer[0];
    var s' := SetBuffer(s, k, s.channels[k].buffer[1..]);
    if Keeps(k, x) then SetWorker(s', w, Sending(x, 0)) else s'.(dropped := s.dropped + multiset{x})
  }

  // A worker puts the item it holds into the next channel, and is free again.
  function AfterSend(s: State, w: nat): State
    requires w < |s.workers| && s.workers[w].stage + 1 < |s.channels| && s.workers[w].task.Sending?
  {
    var k := s.workers[w].stage + 1;
    var s' := SetWorker(s, w, Receiving);
    if s.channels[k].closes > 0 then s'.(sentOnClosed := true)
    else SetBuffer(s', k, s.channels[k].buffer + [s.workers[w].task.item])
  }

  // One Send of the transport: success, another try, or giving the message up.
  function AfterAttempt(s: State, w: nat, maxRetry: nat): State
    requires w < |s.workers| && s.workers[w].task.Sending?
  {
    var t := s.workers[w].task;
    if t.attempts >= t.item.failedSends
    then SetWorker(s, w, Receiving).(delivered := s.delivered + multiset{t.item})
    else if t.attempts < maxRetry
    then SetWorker(s, w, Sending(t.item, t.attempts + 1))
    else SetWorker(s, w, Receiving).(dropped := s.dropped + multiset{t.item})
  }

  ghost function Next(s: State, a: Action, maxRetry: nat): State
    requires Shape(s) && Enabled(s, a)
  {
    match a
    case Feed(x) => SetBuffer(s, 0, s.channels[0].buffer + [x]).(fed := s.fed + multiset{x})
    case Cancel => s.(cancelled := true)
    case CloseRaw => Shut(s, 0)
    case Take(w) => AfterTake(s, w)
    case Send(w) => AfterSend(s, w)
    case Attempt(w) => AfterAttempt(s, w, maxRetry)
    case Exit(w) => SetWorker(s, w, Gone)
    case CloseChannel(k) => Shut(s, k)
    case Abandon(w) => SetWorker(s, w, Gone).(early := true, lost := s.lost + multiset{s.workers[w].task.item})
  }

  // ---------- Safety ----------

  // Closing discipline: a channel is closed once, by its closer, when its writers have gone; a
  // worker goes only when its input is closed and empty.
  ghost predicate Lifecycle(s: State, maxRetry: nat)
    requires Shape(s)
  {
    && !s.sentOnClosed && (s.closers[0] ==> s.cancelled) && (s.early ==> StageGone(s, TRANSPORT))
    && (forall k :: 0 <= k < 4 ==> s.channels[k].closes == if s.closers[k] then 1 else 0)
    && (forall k :: 0 <= k < 4 ==> |s.channels[k].buffer| <= s.channels[k].capacity)
    && (forall k :: 1 <= k < 4 && s.closers[k] ==> StageGone(s, k - 1))
    && (forall w :: 0 <= w < |s.workers| && s.workers[w].task == Gone && !(s.early && s.workers[w].stage == TRANSPORT) ==>
          s.closers[s.workers[w].stage] && s.channels[s.workers[w].stage].buffer == [])
    && (forall w :: 0 <= w < |s.workers| && s.workers[w].task.Sending? ==> s.workers[w].task.attempts <= maxRetry)
  }

  // No step changes a worker's stage or a channel's size, or opens a channel again.
  ghost predicate SameLayout(s: State, s': State) {
    && |s'.channels| == |s.channels| && |s'.closers| == |s.closers| && |s'.workers| == |s.workers|
    && (forall w :: 0 <= w < |s.workers| ==> s'.workers[w].stage == s.workers[w].stage)
    && (forall k :: 0 <= k < |s.channels| ==>
          s'.channels[k].capacity == s.channels[k].capacity && s'.channels[k].closes >= s.channels[k].closes)
  }

  lemma {:induction false} LayoutWorker(s: State, w: nat, task: Task)
    requires w < |s.workers|
    ensures SameLayout(s, SetWorker(s, w, task))
  {
  }

  lemma {:induction false} LayoutMove(s: State, k: nat, buffer: seq<Item>, w: nat, task: Task)
    requires k < |s.channels| && w < |s.workers|
    ensures SameLayout(s, SetBuffer(s, k, buffer)) && SameLayout(s, SetWorker(SetBuffer(s, k, buffer), w, task))
  {
  }

  lemma {:induction false} LayoutTake(s: State, w: nat)
    requires Shape(s) && Enabled(s, Take(w))
    ensures SameLayout(s, AfterTake(s, w))
  {
    var k := s.workers[w].stage;
    LayoutMove(s, k, s.channels[k].buffer[1..], w, Sending(s.channels[k].buffer[0], 0));
  }

  lemma {:induction false} LayoutSend(s: State, w: nat)
    requires Shape(s) && Enabled(s, Send(w))
    ensures SameLayout(s, AfterSend(s, w))
  {
    var k := s.workers[w].stage + 1;
    LayoutWorker(s, w, Receiving);
    LayoutMove(s, k, s.channels[k].buffer + [s.workers[w].task.item], w, Receiving);
  }

  lemma {:induction false} LayoutAttempt(s: State, w: nat, maxRetry: nat)
    requires Shape(s) && Enabled(s, Attempt(w))
    ensures SameLayout(s, AfterAttempt(s, w, maxRetry))
  {
    LayoutWorker(s, w, AfterAttempt(s, w, maxRetry).workers[w].task);
  }

  lemma {:induction false} LayoutRest(s: State, a: Action, maxRetry: nat)
    requires Shape(s) && Enabled(s, a) && !a.Take? && !a.Send? && !a.Attempt?
    ensures SameLayout(s, Next(s, a, maxRetry))
  {
  }

  lemma {:induction false} LayoutStays(s: State, a: Action, maxRetry: nat)
    requires Shape(s) && Enabled(s, a)
    ensures SameLayout(s, Next(s, a, maxRetry))
  {
    match a {
      case Take(w) => LayoutTake(s, w);
      case Send(w) => LayoutSend(s, w);
      case Attempt(w) => LayoutAttempt(s, w, maxRetry);
      case _ => LayoutRest(s, a, maxRetry);
    }
  }

  lemma {:induction false} FormedStays(s: State, s': State)
    requires WellFormed(s) && SameLayout(s, s')
    ensures WellFormed(s')
  {
    forall k | 0 <= k <= TRANSPORT
      ensures Staffed(s'.workers, k)
    {
      StaffedStays(s.workers, s'.workers, k);
    }
    forall v, w | 0 <= v < |s'.workers| && 0 <= w < |s'.workers| && s'.workers[v].stage == TRANSPORT == s'.workers[w].stage
      ensures v == w
    {
      assert s.workers[v].stage == TRANSPORT == s.workers[w].stage;
    }
  }

  lemma {:induction false} FeedLife(s: State, x: Item, maxRetry: nat)
    requires Shape(s) && Lifecycle(s, maxRetry) && Enabled(s, Feed(x))
    ensures Lifecycle(Next(s, Feed(x), maxRetry), maxRetry)
  {
  }

  // A worker taking an item: none of its stage can have gone yet.
  lemma {:induction false} ShorterBuffer(s: State, k: nat, maxRetry: nat)
    requires Shape(s) && Lifecycle(s, maxRetry) && k < 4 && s.channels[k].buffer != []
    ensures Lifecycle(SetBuffer(s, k, s.channels[k].buffer[1..]), maxRetry)
  {
  }

  // A worker putting one into an open channel: nobody after it has gone yet, but for the transport.
  lemma {:induction false} LongerBuffer(s: State, k: nat, x: Item, maxRetry: nat)
    requires Shape(s) && Lifecycle(s, maxRetry) && k < 4 && s.channels[k].closes == 0
    requires |s.channels[k].buffer| < s.channels[k].capacity
    ensures Lifecycle(SetBuffer(s, k, s.channels[k].buffer + [x]), maxRetry)
  {
  }

  // A worker that neither goes nor touches a channel.
  lemma {:induction false} StillThere(s: State, w: nat, task: Task, maxRetry: nat)
    requires Shape(s) && Lifecycle(s, maxRetry) && w < |s.workers| && s.workers[w].task != Gone
    requires task != Gone && (task.Sending? ==> task.attempts <= maxRetry)
    ensures Lifecycle(SetWorker(s, w, task), maxRetry)
  {
    forall k | 0 <= k < 4 && StageGone(s, k)
      ensures StageGone(SetWorker(s, w, task), k)
    {
      assert s.workers[w].stage != k;
    }
  }

  lemma {:induction false} LedgerAside(s: State, dropped: multiset<Item>, delivered: multiset<Item>, maxRetry: nat)
    requires Shape(s) && Lifecycle(s, maxRetry)
    ensures Lifecycle(s.(dropped := dropped, delivered := delivered), maxRetry)
  {
  }

  lemma {:induction false} TakeLife(s: State, w: nat, maxRetry: nat)
    requires Shape(s) && Lifecycle(s, maxRetry) && Enabled(s, Take(w))
    ensures Lifecycle(AfterTake(s, w), maxRetry)
  {
    var k := s.workers[w].stage;
    var x := s.channels[k].buffer[0];
    ShorterBuffer(s, k, maxRetry);
    var s' := SetBuffer(s, k, s.channels[k].buffer[1..]);
    if Keeps(k, x) {
      StillThere(s', w, Sending(x, 0), maxRetry);
    } else {
      LedgerAside(s', s.dropped + multiset{x}, s.delivered, maxRetry);
    }
  }

  lemma {:induction false} SendOpen(s: State, w: nat, maxRetry: nat)
    requires Shape(s) && Lifecycle(s, maxRetry) && Enabled(s, Send(w))
    ensures s.channels[s.workers[w].stage + 1].closes == 0
  {
    assert !StageGone(s, s.workers[w].stage);
  }

  lemma {:induction false} SendLife(s: State, w: nat, maxRetry: nat)
    requires Shape(s) && Lifecycle(s, maxRetry) && Enabled(s, Send(w))
    ensures Lifecycle(AfterSend(s, w), maxRetry)
  {
    SendOpen(s, w, maxRetry);
    StillThere(s, w, Receiving, maxRetry);
    LongerBuffer(SetWorker(s, w, Receiving), s.workers[w].stage + 1, s.workers[w].task.item, maxRetry);
  }

  lemma {:induction false} AttemptLife(s: State, w: nat, maxRetry: nat)
    requires Shape(s) && Lifecycle(s, maxRetry) && w < |s.workers| && s.workers[w].task.Sending?
    ensures Lifecycle(AfterAttempt(s, w, maxRetry), maxRetry)
  {
    var t := s.workers[w].task;
    if t.attempts < t.item.failedSends && t.attempts < maxRetry {
      StillThere(s, w, Sending(t.item, t.attempts + 1), maxRetry);
    } else {
      StillThere(s, w, Receiving, maxRetry);
      var s' := AfterAttempt(s, w, maxRetry);
      LedgerAside(SetWorker(s, w, Receiving), s'.dropped, s'.delivered, maxRetry);
    }
  }

  // A worker going, its input closed and empty, or by an early exit.
  lemma {:induction false} ExitLife(s: State, w: nat, maxRetry: nat)
    requires Shape(s) && Lifecycle(s, maxRetry) && Enabled(s, Exit(w))
    ensures Lifecycle(SetWorker(s, w, Gone), maxRetry)
  {
    forall k | 0 <= k < 4 && StageGone(s, k)
      ensures StageGone(SetWorker(s, w, Gone), k)
    {
    }
  }

  lemma {:induction false} AbandonLife(s: State, w: nat, maxRetry: nat)
    requires WellFormed(s) && Lifecycle(s, maxRetry) && Enabled(s, Abandon(w))
    ensures Lifecycle(Next(s, Abandon(w), maxRetry), maxRetry)
  {
    var s' := Next(s, Abandon(w), maxRetry);
    assert StageGone(s', TRANSPORT);
    forall k | 0 <= k < 4 && StageGone(s, k)
      ensures StageGone(s', k)
    {
    }
  }

  lemma {:induction false} CloseLife(s: State, a: Action, maxRetry: nat)
    requires Shape(s) && Lifecycle(s, maxRetry) && Enabled(s, a) && (a.CloseRaw? || a.CloseChannel? || a.Cancel?)
    ensures Lifecycle(Next(s, a, maxRetry), maxRetry)
  {
    forall k | 0 <= k < 4 && StageGone(s, k)
      ensures StageGone(Next(s, a, maxRetry), k)
    {
    }
  }

  lemma {:induction false} LifecycleStep(s: State, a: Action, maxRetry: nat)
    requires WellFormed(s) && Lifecycle(s, maxRetry) && Enabled(s, a)
    ensures WellFormed(Next(s, a, maxRetry)) && Lifecycle(Next(s, a, maxRetry), maxRetry)
  {
    LayoutStays(s, a, maxRetry);
    FormedStays(s, Next(s, a, maxRetry));
    match a {
      case Feed(x) => FeedLife(s, x, maxRetry);
      case Take(w) => TakeLife(s, w, maxRetry);
      case Send(w) => SendLife(s, w, maxRetry);
      case Attempt(w) => AttemptLife(s, w, maxRetry);
      case Exit(w) => ExitLife(s, w, maxRetry);
      case Abandon(w) => AbandonLife(s, w, maxRetry);
      case CloseRaw => CloseLife(s, a, maxRetry);
      case CloseChannel(_) => CloseLife(s, a, maxRetry);
      case Cancel => CloseLife(s, a, maxRetry);
    }
  }

  // ---------- Conservation ----------

  function One(here: bool): nat {
    if here then 1 else 0
  }

  // How many copies of x the workers hold, and the channels.
  function InHands(workers: seq<Worker>, x: Item): nat {
    if workers == [] then 0 else Holds(workers[0], x) + InHands(workers[1..], x)
  }

  function Holds(w: Worker, x: Item): nat {
    One(w.task.Sending? && w.task.item == x)
  }

  function InBuffers(channels: seq<Channel>, x: Item): nat
    requires |channels| == 4
  {
    multiset(channels[0].buffer)[x] + multiset(channels[1].buffer)[x]
    + multiset(channels[2].buffer)[x] + multiset(channels[3].buffer)[x]
  }

  lemma {:induction false} HandsUpdate(workers: seq<Worker>, i: nat, w: Worker, x: Item)
    requires i < |workers|
    ensures InHands(workers[i := w], x) == InHands(workers, x) - Holds(workers[i], x) + Holds(w, x)
    decreases i
  {
    if i == 0 {
      assert workers[0 := w][1..] == workers[1..];
    } else {
      HandsUpdate(workers[1..], i - 1, w, x);
      assert workers[i := w][1..] == workers[1..][i - 1 := w];
    }
  }

  lemma {:induction false} BuffersUpdate(channels: seq<Channel>, k: nat, c: Channel, x: Item)
    requires |channels| == 4 && k < 4
    ensures InBuffers(channels[k := c], x)
         == InBuffers(channels, x) - multiset(channels[k].buffer)[x] + multiset(c.buffer)[x]
  {
  }

  lemma {:induction false} TakeFirst(b: seq<Item>, x: Item)
    requires b != []
    ensures multiset(b)[x] == multiset(b[1..])[x] + One(b[0] == x)
  {
    assert b == [b[0]] + b[1..];
  }

  // Everything fed is somewhere in the pipeline, dropped, delivered, or lost by an early exit.
  ghost predicate BalanceOf(s: State, x: Item)
    requires |s.channels| == 4
  {
    s.fed[x] == InBuffers(s.channels, x) + InHands(s.workers, x) + s.dropped[x] + s.delivered[x] + s.lost[x]
  }

  // One item moves between a channel, a worker's hand and the dropped ones.
  lemma {:induction false} BalanceMove(s: State, k: nat, buffer: seq<Item>, w: nat, task: Task, dropped: multiset<Item>, x: Item)
    requires Shape(s) && k < 4 && w < |s.workers| && BalanceOf(s, x)
    requires multiset(buffer)[x] + Holds(s.workers[w].(task := task), x) + dropped[x]
          == multiset(s.channels[k].buffer)[x] + Holds(s.workers[w], x) + s.dropped[x]
    ensures BalanceOf(SetWorker(SetBuffer(s, k, buffer), w, task).(dropped := dropped), x)
  {
    BuffersUpdate(s.channels, k, s.channels[k].(buffer := buffer), x);
    HandsUpdate(s.workers, w, s.workers[w].(task := task), x);
  }

  // A worker lets go of an item, which is delivered, dropped or lost, or keeps it.
  lemma {:induction false} BalanceHands(s: State, s': State, w: nat, task: Task, x: Item)
    requires Shape(s) && w < |s.workers| && BalanceOf(s, x)
    requires s'.workers == s.workers[w := s.workers[w].(task := task)] && s'.channels == s.channels && s'.fed == s.fed
    requires Holds(s.workers[w].(task := task), x) + s'.dropped[x] + s'.delivered[x] + s'.lost[x]
          == Holds(s.workers[w], x) + s.dropped[x] + s.delivered[x] + s.lost[x]
    ensures BalanceOf(s', x)
  {
    HandsUpdate(s.workers, w, s.workers[w].(task := task), x);
  }

  lemma {:induction false} BalanceFeed(s: State, y: Item, maxRetry: nat, x: Item)
    requires Shape(s) && Enabled(s, Feed(y)) && BalanceOf(s, x)
    ensures BalanceOf(Next(s, Feed(y), maxRetry), x)
  {
    BuffersUpdate(s.channels, 0, s.channels[0].(buffer := s.channels[0].buffer + [y]), x);
  }

  lemma {:induction false} BalanceTake(s: State, w: nat, maxRetry: nat, x: Item)
    requires Shape(s) && Enabled(s, Take(w)) && BalanceOf(s, x)
    ensures Shape(Next(s, Take(w), maxRetry)) && BalanceOf(Next(s, Take(w), maxRetry), x)
  {
    var k := s.workers[w].stage;
    var b := s.channels[k].buffer;
    TakeFirst(b, x);
    if Keeps(k, b[0]) {
      BalanceMove(s, k, b[1..], w, Sending(b[0], 0), s.dropped, x);
    } else {
      BalanceMove(s, k, b[1..], w, Receiving, s.dropped + multiset{b[0]}, x);
      assert s.workers[w := s.workers[w].(task := Receiving)] == s.workers;
    }
  }

  lemma {:induction false} BalanceSend(s: State, w: nat, maxRetry: nat, x: Item)
    requires Shape(s) && Enabled(s, Send(w)) && s.channels[s.workers[w].stage + 1].closes == 0 && BalanceOf(s, x)
    ensures Shape(Next(s, Send(w), maxRetry)) && BalanceOf(Next(s, Send(w), maxRetry), x)
  {
    var k := s.workers[w].stage + 1;
    var y := s.workers[w].task.item;
    BalanceMove(s, k, s.channels[k].buffer + [y], w, Receiving, s.dropped, x);
    SendAsMove(s, w);
  }

  lemma {:induction false} SendAsMove(s: State, w: nat)
    requires Shape(s) && Enabled(s, Send(w)) && s.channels[s.workers[w].stage + 1].closes == 0
    ensures var k := s.workers[w].stage + 1;
            AfterSend(s, w) == SetWorker(SetBuffer(s, k, s.channels[k].buffer + [s.workers[w].task.item]), w, Receiving)
  {
  }

  lemma {:induction false} BalanceAttempt(s: State, w: nat, maxRetry: nat, x: Item)
    requires Shape(s) && Enabled(s, Attempt(w)) && BalanceOf(s, x)
    ensures Shape(Next(s, Attempt(w), maxRetry)) && BalanceOf(Next(s, Attempt(w), maxRetry), x)
  {
    var t := s.workers[w].task;
    var s' := AfterAttempt(s, w, maxRetry);
    if t.attempts < t.item.failedSends && t.attempts < maxRetry {
      BalanceHands(s, s', w, Sending(t.item, t.attempts + 1), x);
    } else {
      BalanceHands(s, s', w, Receiving, x);
    }
  }

  lemma {:induction false} BalanceGone(s: State, a: Action, maxRetry: nat, x: Item)
    requires Shape(s) && Enabled(s, a) && (a.Exit? || a.Abandon?) && BalanceOf(s, x)
    ensures BalanceOf(Next(s, a, maxRetry), x)
  {
    BalanceHands(s, Next(s, a, maxRetry), a.w, Gone, x);
  }

  lemma {:induction false} BalanceShut(s: State, k: nat, x: Item)
    requires Shape(s) && k < 4 && BalanceOf(s, x)
    ensures BalanceOf(Shut(s, k), x)
  {
    BuffersUpdate(s.channels, k, s.channels[k].(closes := s.channels[k].closes + 1), x);
  }

  lemma {:induction false} BalanceRest(s: State, a: Action, maxRetry: nat, x: Item)
    requires Shape(s) && Enabled(s, a) && BalanceOf(s, x) && !a.Take? && !a.Send? && !a.Attempt?
    ensures Shape(Next(s, a, maxRetry)) && BalanceOf(Next(s, a, maxRetry), x)
  {
    match a {
      case Feed(y) => BalanceFeed(s, y, maxRetry, x);
      case CloseRaw => BalanceShut(s, 0, x);
      case CloseChannel(k) => BalanceShut(s, k, x);
      case Cancel =>
      case _ => BalanceGone(s, a, maxRetry, x);
    }
  }

  lemma {:induction false} BalanceStep(s: State, a: Action, maxRetry: nat, x: Item)
    requires Shape(s) && Lifecycle(s, maxRetry) && Enabled(s, a) && BalanceOf(s, x)
    ensures Shape(Next(s, a, maxRetry)) && BalanceOf(Next(s, a, maxRetry), x)
  {
    match a {
      case Take(w) => BalanceTake(s, w, maxRetry, x);
      case Send(w) =>
        SendOpen(s, w, maxRetry);
        BalanceSend(s, w, maxRetry, x);
      case Attempt(w) => BalanceAttempt(s, w, maxRetry, x);
      case _ => BalanceRest(s, a, maxRetry, x);
    }
  }

  // What is past a stage has passed its rule; what is dropped fails some rule; nothing is lost but by
  // an early exit.
  ghost predicate BuffersKept(channels: seq<Channel>)
    requires |channels| == 4
  {
    forall k :: 0 <= k < 4 ==> BufferKept(k, channels[k].buffer)
  }

  ghost predicate BufferKept(k: nat, buffer: seq<Item>) {
    forall i :: 0 <= i < |buffer| ==> Passed(k, buffer[i])
  }

  predicate TaskKept(w: Worker) {
    w.task.Sending? ==> Passed(w.stage + 1, w.task.item) && w.task.attempts <= w.task.item.failedSends
  }

  ghost predicate RulesKept(s: State, maxRetry: nat)
    requires Shape(s)
  {
    && BuffersKept(s.channels)
    && (forall w :: 0 <= w < |s.workers| ==> TaskKept(s.workers[w]))
    && (forall x <- s.dropped :: !Survives(x, maxRetry))
    && (forall x <- s.delivered :: Survives(x, maxRetry))
    && (s.early || s.lost == multiset{})
  }

  lemma {:induction false} OtherBuffersKept(channels: seq<Channel>, k: nat, buffer: seq<Item>)
    requires |channels| == 4 && k < 4 && BuffersKept(channels) && BufferKept(k, buffer)
    ensures BuffersKept(channels[k := channels[k].(buffer := buffer)])
  {
  }

  lemma {:induction false} RulesBuffer(s: State, k: nat, buffer: seq<Item>, maxRetry: nat)
    requires Shape(s) && k < 4 && RulesKept(s, maxRetry) && BufferKept(k, buffer)
    ensures RulesKept(SetBuffer(s, k, buffer), maxRetry)
  {
    OtherBuffersKept(s.channels, k, buffer);
  }

  lemma {:induction false} RulesWorker(s: State, w: nat, task: Task, maxRetry: nat)
    requires Shape(s) && w < |s.workers| && RulesKept(s, maxRetry) && TaskKept(s.workers[w].(task := task))
    ensures RulesKept(SetWorker(s, w, task), maxRetry)
  {
  }

  lemma {:induction false} RulesDrop(s: State, x: Item, maxRetry: nat)
    requires Shape(s) && RulesKept(s, maxRetry) && !Survives(x, maxRetry)
    ensures RulesKept(s.(dropped := s.dropped + multiset{x}), maxRetry)
  {
  }

  lemma {:induction false} RulesDeliver(s: State, x: Item, maxRetry: nat)
    requires Shape(s) && RulesKept(s, maxRetry) && Survives(x, maxRetry)
    ensures RulesKept(s.(delivered := s.delivered + multiset{x}), maxRetry)
  {
  }

  lemma {:induction false} RulesTake(s: State, w: nat, maxRetry: nat)
    requires Shape(s) && Enabled(s, Take(w)) && RulesKept(s, maxRetry)
    ensures Shape(Next(s, Take(w), maxRetry)) && RulesKept(Next(s, Take(w), maxRetry), maxRetry)
  {
    var k := s.workers[w].stage;
    var b := s.channels[k].buffer;
    BufferHead(s.channels, k);
    RulesBuffer(s, k, b[1..], maxRetry);
    if Keeps(k, b[0]) {
      RulesWorker(SetBuffer(s, k, b[1..]), w, Sending(b[0], 0), maxRetry);
    } else {
      RulesDrop(SetBuffer(s, k, b[1..]), b[0], maxRetry);
    }
  }

  lemma {:induction false} BufferHead(channels: seq<Channel>, k: nat)
    requires |channels| == 4 && k < 4 && BuffersKept(channels) && channels[k].buffer != []
    ensures Passed(k, channels[k].buffer[0]) && BufferKept(k, channels[k].buffer[1..])
  {
    assert BufferKept(k, channels[k].buffer);
  }

  lemma {:induction false} RulesSend(s: State, w: nat, maxRetry: nat)
    requires Shape(s) && Enabled(s, Send(w)) && s.channels[s.workers[w].stage + 1].closes == 0 && RulesKept(s, maxRetry)
    ensures Shape(Next(s, Send(w), maxRetry)) && RulesKept(Next(s, Send(w), maxRetry), maxRetry)
  {
    var k := s.workers[w].stage + 1;
    assert TaskKept(s.workers[w]);
    assert BufferKept(k, s.channels[k].buffer);
    RulesWorker(s, w, Receiving, maxRetry);
    RulesBuffer(SetWorker(s, w, Receiving), k, s.channels[k].buffer + [s.workers[w].task.item], maxRetry);
  }

  lemma {:induction false} RulesFeed(s: State, x: Item, maxRetry: nat)
    requires Shape(s) && Enabled(s, Feed(x)) && RulesKept(s, maxRetry)
    ensures Shape(Next(s, Feed(x), maxRetry)) && RulesKept(Next(s, Feed(x), maxRetry), maxRetry)
  {
    assert BufferKept(0, s.channels[0].buffer + [x]);
    RulesBuffer(s, 0, s.channels[0].buffer + [x], maxRetry);
  }

  lemma {:induction false} RulesAttempt(s: State, w: nat, maxRetry: nat)
    requires Shape(s) && Enabled(s, Attempt(w)) && s.workers[w].task.attempts <= maxRetry && RulesKept(s, maxRetry)
    ensures Shape(Next(s, Attempt(w), maxRetry)) && RulesKept(Next(s, Attempt(w), maxRetry), maxRetry)
  {
    RulesAfter(s, w, maxRetry);
  }

  lemma {:induction false} RulesAfter(s: State, w: nat, maxRetry: nat)
    requires Shape(s) && w < |s.workers| && s.workers[w].task.Sending? && s.workers[w].stage == TRANSPORT
    requires s.workers[w].task.attempts <= maxRetry && RulesKept(s, maxRetry)
    ensures RulesKept(AfterAttempt(s, w, maxRetry), maxRetry)
  {
    assert TaskKept(s.workers[w]);
    var t := s.workers[w].task;
    if t.attempts >= t.item.failedSends {
      RulesWorker(s, w, Receiving, maxRetry);
      RulesDeliver(SetWorker(s, w, Receiving), t.item, maxRetry);
    } else if t.attempts < maxRetry {
      RulesWorker(s, w, Sending(t.item, t.attempts + 1), maxRetry);
    } else {
      RulesWorker(s, w, Receiving, maxRetry);
      RulesDrop(SetWorker(s, w, Receiving), t.item, maxRetry);
    }
  }

  // The steps that move no item on: a worker going, a channel closing, the cancellation.
  lemma {:induction false} RulesRest(s: State, a: Action, maxRetry: nat)
    requires Shape(s) && Enabled(s, a) && RulesKept(s, maxRetry)
    requires a.Exit? || a.Abandon? || a.CloseRaw? || a.CloseChannel? || a.Cancel?
    ensures Shape(Next(s, a, maxRetry)) && RulesKept(Next(s, a, maxRetry), maxRetry)
  {
    var s' := Next(s, a, maxRetry);
    assert forall k :: 0 <= k < 4 ==> s'.channels[k].buffer == s.channels[k].buffer;
  }

  lemma {:induction false} RulesStep(s: State, a: Action, maxRetry: nat)
    requires Shape(s) && Lifecycle(s, maxRetry) && Enabled(s, a) && RulesKept(s, maxRetry)
    ensures Shape(Next(s, a, maxRetry)) && RulesKept(Next(s, a, maxRetry), maxRetry)
  {
    match a {
      case Feed(x) => RulesFeed(s, x, maxRetry);
      case Take(w) => RulesTake(s, w, maxRetry);
      case Send(w) =>
        SendOpen(s, w, maxRetry);
        RulesSend(s, w, maxRetry);
      case Attempt(w) => RulesAttempt(s, w, maxRetry);
      case _ => RulesRest(s, a, maxRetry);
    }
  }

  // ---------- Whole runs ----------

  // What Start sets up, for any worker counts (at least one per stage) and buffer sizes.
  ghost predicate Starting(s: State) {
    && WellFormed(s)
    && s.closers == [false, false, false, false]
    && (forall k :: 0 <= k < 4 ==> s.channels[k].buffer == [] && s.channels[k].closes == 0)
    && (forall w :: 0 <= w < |s.workers| ==> s.workers[w].task == Receiving)
    && s.fed == s.dropped == s.delivered == s.lost == multiset{}
    && !s.sentOnClosed && !s.cancelled && !s.early
  }

  ghost predicate Inv(s: State, maxRetry: nat) {
    WellFormed(s) && Lifecycle(s, maxRetry) && RulesKept(s, maxRetry) && forall x :: BalanceOf(s, x)
  }

  lemma {:induction false} IdleHands(workers: seq<Worker>, x: Item)
    requires forall w :: 0 <= w < |workers| ==> !workers[w].task.Sending?
    ensures InHands(workers, x) == 0
    decreases |workers|
  {
    if workers != [] {
      IdleHands(workers[1..], x);
    }
  }

  lemma {:induction false} StartInv(s: State, maxRetry: nat)
    requires Starting(s)
    ensures Inv(s, maxRetry)
  {
    forall x: Item
      ensures BalanceOf(s, x)
    {
      IdleHands(s.workers, x);
    }
  }

  lemma {:induction false} StepInv(s: State, a: Action, maxRetry: nat)
    requires Inv(s, maxRetry) && Enabled(s, a)
    ensures Inv(Next(s, a, maxRetry), maxRetry)
  {
    LifecycleStep(s, a, maxRetry);
    RulesStep(s, a, maxRetry);
    forall x: Item
      ensures BalanceOf(Next(s, a, maxRetry), x)
    {
      BalanceStep(s, a, maxRetry, x);
    }
  }

  // s' is reachable from s by the given actions.
  ghost predicate Reaches(s: State, actions: seq<Action>, s': State, maxRetry: nat)
    decreases |actions|
  {
    if actions == [] then s == s'
    else Shape(s) && Enabled(s, actions[0]) && Reaches(Next(s, actions[0], maxRetry), actions[1..], s', maxRetry)
  }

  lemma {:induction false} ReachFirst(s: State, a: Action, rest: seq<Action>, s': State, maxRetry: nat)
    requires Shape(s) && Enabled(s, a) && Reaches(Next(s, a, maxRetry), rest, s', maxRetry)
    ensures Reaches(s, [a] + rest, s', maxRetry)
  {
    assert ([a] + rest)[1..] == rest;
  }

  lemma {:induction false} ReachRest(s: State, actions: seq<Action>, s': State, maxRetry: nat)
    requires actions != [] && Reaches(s, actions, s', maxRetry)
    ensures Shape(s) && Enabled(s, actions[0]) && Reaches(Next(s, actions[0], maxRetry), actions[1..], s', maxRetry)
  {
  }

  lemma {:induction false} ReachStep(s: State, a: Action, mid: State, rest: seq<Action>, goal: State, maxRetry: nat)
    requires Shape(s) && Enabled(s, a) && Next(s, a, maxRetry) == mid && Reaches(mid, rest, goal, maxRetry)
    ensures Reaches(s, [a] + rest, goal, maxRetry)
  {
    ReachFirst(s, a, rest, goal, maxRetry);
  }

  // Going on from a run: its first step stands before whatever the rest of it is extended to.
  lemma {:induction false} ReachHead(s: State, a: seq<Action>, s': State, b: seq<Action>, s'': State, maxRetry: nat)
    returns (mid: State)
    requires a != [] && Reaches(s, a, s', maxRetry)
    ensures Reaches(mid, a[1..], s', maxRetry)
    ensures Reaches(mid, a[1..] + b, s'', maxRetry) ==> Reaches(s, a + b, s'', maxRetry)
  {
    mid := Next(s, a[0], maxRetry);
    if Reaches(mid, a[1..] + b, s'', maxRetry) {
      ReachFirst(s, a[0], a[1..] + b, s'', maxRetry);
      assert [a[0]] + (a[1..] + b) == a + b;
    }
  }

  lemma {:induction false} ReachAppend(s: State, a: seq<Action>, s': State, b: seq<Action>, s'': State, maxRetry: nat)
    requires Reaches(s, a, s', maxRetry) && Reaches(s', b, s'', maxRetry)
    ensures Reaches(s, a + b, s'', maxRetry)
    decreases |a|
  {
    if a == [] {
      assert a + b == b;
    } else {
      var mid := ReachHead(s, a, s', b, s'', maxRetry);
      ReachAppend(mid, a[1..], s', b, s'', maxRetry);
    }
  }

  lemma {:induction false} ReachInv(s: State, actions: seq<Action>, s': State, maxRetry: nat)
    requires Inv(s, maxRetry) && Reaches(s, actions, s', maxRetry)
    ensures Inv(s', maxRetry)
    decreases |actions|
  {
    if actions != [] {
      StepInv(s, actions[0], maxRetry);
      ReachInv(Next(s, actions[0], maxRetry), actions[1..], s', maxRetry);
    }
  }

  ghost predicate AllGone(s: State)
    requires Shape(s)
  {
    && (forall w :: 0 <= w < |s.workers| ==> s.workers[w].task == Gone)
    && (forall k :: 0 <= k < 4 ==> s.closers[k])
  }

  // The main result: whatever the worker counts, buffer sizes and interleaving, no goroutine of the
  // pipeline sends on a closed channel and no channel is closed twice. What has been delivered passes
  // every stage's rule and the retry limit. When all goroutines have exited, each channel has been
  // closed exactly once and the transport has sent exactly the items that pass, each as often as it
  // was fed, less what an early exit of the transport lost or left in the formatted channel; without
  // one, that is nothing.
  lemma {:induction false} PipelineSafe(s: State, actions: seq<Action>, s': State, maxRetry: nat)
    requires Starting(s) && Reaches(s, actions, s', maxRetry)
    ensures WellFormed(s') && !s'.sentOnClosed
    ensures forall k :: 0 <= k < 4 ==> s'.channels[k].closes <= 1
    ensures forall x <- s'.delivered :: Survives(x, maxRetry)
    ensures AllGone(s') ==>
              && (forall k :: 0 <= k < 4 ==> s'.channels[k].closes == 1)
              && (forall x :: Survives(x, maxRetry) ==>
                    s'.delivered[x] + s'.lost[x] + multiset(s'.channels[TRANSPORT].buffer)[x] == s'.fed[x])
              && (!s'.early ==> s'.lost == multiset{} && s'.channels[TRANSPORT].buffer == [])
  {
    StartInv(s, maxRetry);
    ReachInv(s, actions, s', maxRetry);
    if AllGone(s') {
      DrainedChannels(s', maxRetry);
      forall x | Survives(x, maxRetry)
        ensures s'.delivered[x] + s'.lost[x] + multiset(s'.channels[TRANSPORT].buffer)[x] == s'.fed[x]
      {
        DrainedBalance(s', x, maxRetry);
      }
    }
  }

  // The drop rules in terms of the items alone. In every reachable state, what has left the decode
  // stage has varbinds or comes from a failed poll decoded without error, what has left the produce
  // stage was produced without error and has metrics or comes from a failed poll, and nothing with a
  // format error has left the format stage.
  lemma {:induction false} WhatGoesOn(s: State, actions: seq<Action>, s': State, k: nat, x: Item, maxRetry: nat)
    requires Starting(s) && Reaches(s, actions, s', maxRetry) && k < 4 && Shape(s')
    requires x in s'.channels[k].buffer
             || exists w :: 0 <= w < |s'.workers| && s'.workers[w].task.Sending? && s'.workers[w].stage + 1 == k && s'.workers[w].task.item == x
    ensures k >= 1 ==> x.varbinds > 0 || (!x.pollSuccess && !x.decodeError)
    ensures k >= 2 ==> !x.produceError && (x.metrics > 0 || !x.pollSuccess)
    ensures k >= 3 ==> !x.formatError
  {
    StartInv(s, maxRetry);
    ReachInv(s, actions, s', maxRetry);
    if x in s'.channels[k].buffer {
      assert BufferKept(k, s'.channels[k].buffer);
      var i :| 0 <= i < |s'.channels[k].buffer| && s'.channels[k].buffer[i] == x;
    } else {
      var w :| 0 <= w < |s'.workers| && s'.workers[w].task.Sending? && s'.workers[w].stage + 1 == k && s'.workers[w].task.item == x;
      assert TaskKept(s'.workers[w]);
    }
  }

  // One taking: the head of the channel goes into the worker's hand exactly when its stage's rule lets
  // it through; otherwise the worker drops it and is free again.
  lemma {:induction false} WhatIsTaken(s: State, w: nat, maxRetry: nat)
    requires Shape(s) && Enabled(s, Take(w))
    ensures var k := s.workers[w].stage;
            var x := s.channels[k].buffer[0];
            var goes := if k == 0 then x.varbinds > 0 || (!x.pollSuccess && !x.decodeError)
                        else if k == 1 then !x.produceError && (x.metrics > 0 || !x.pollSuccess)
                        else if k == 2 then !x.formatError
                        else true;
            Next(s, Take(w), maxRetry)
            == s.(channels := s.channels[k := s.channels[k].(buffer := s.channels[k].buffer[1..])],
                  workers := if goes then s.workers[w := Worker(k, Sending(x, 0))] else s.workers,
                  dropped := if goes then s.dropped else s.dropped + multiset{x})
  {
  }

  // ... and when all goroutines have gone, without an early exit, those rules and the retry limit say
  // exactly what has been delivered. A decode error costs an item nothing as long as some of its
  // varbinds were decoded; an empty result goes through only for a failed poll.
  lemma {:induction false} DeliveredExactly(s: State, actions: seq<Action>, s': State, x: Item, maxRetry: nat)
    requires Starting(s) && Reaches(s, actions, s', maxRetry) && Shape(s') && AllGone(s') && !s'.early
    ensures x.varbinds > 0 && x.metrics > 0 && !x.produceError && !x.formatError && x.failedSends <= maxRetry ==>
              s'.delivered[x] == s'.fed[x]
    ensures x.varbinds > 0 && x.metrics == 0 && !x.produceError && !x.formatError && x.failedSends <= maxRetry ==>
              s'.delivered[x] == if x.pollSuccess then 0 else s'.fed[x]
    ensures x.varbinds == 0 && !x.produceError && !x.formatError && x.failedSends <= maxRetry ==>
              s'.delivered[x] == if x.pollSuccess || x.decodeError then 0 else s'.fed[x]
    ensures x.produceError || x.formatError || x.failedSends > maxRetry ==> s'.delivered[x] == 0
  {
    PipelineSafe(s, actions, s', maxRetry);
    assert x in s'.delivered <==> s'.delivered[x] > 0;
  }

  // When all goroutines have gone, only an early exit leaves anything in a channel: the formatted one.
  lemma {:induction false} DrainedChannels(s: State, maxRetry: nat)
    requires WellFormed(s) && Lifecycle(s, maxRetry) && AllGone(s)
    ensures forall k :: 0 <= k < TRANSPORT ==> s.channels[k].buffer == []
    ensures !s.early ==> s.channels[TRANSPORT].buffer == []
  {
    forall k | 0 <= k < 4 && (k < TRANSPORT || !s.early)
      ensures s.channels[k].buffer == []
    {
      assert Staffed(s.workers, k);
      var w :| 0 <= w < |s.workers| && s.workers[w].stage == k;
    }
  }

  lemma {:induction false} DrainedBalance(s: State, x: Item, maxRetry: nat)
    requires Inv(s, maxRetry) && AllGone(s) && Survives(x, maxRetry)
    ensures s.delivered[x] + s.lost[x] + multiset(s.channels[TRANSPORT].buffer)[x] == s.fed[x]
  {
    assert BalanceOf(s, x);
    IdleHands(s.workers, x);
    DrainedChannels(s, maxRetry);
    assert x in s.dropped <==> s.dropped[x] > 0;
  }

  // ---------- Termination ----------

  // Steps an item in channel k still needs, at most; one less once a worker holds it.
  function Weight(k: nat, maxRetry: nat): nat
    requires k <= TRANSPORT
  {
    2 * (TRANSPORT - k) + maxRetry + 2
  }

  function TaskWeight(w: Worker, maxRetry: nat): nat {
    match w.task
    case Gone => 0
    case Receiving => 1
    case Sending(_, attempts) =>
      if w.stage < TRANSPORT then Weight(w.stage, maxRetry)
      else if attempts <= maxRetry then maxRetry + 2 - attempts else 1
  }

  function TaskWeights(workers: seq<Worker>, maxRetry: nat): nat {
    if workers == [] then 0 else TaskWeight(workers[0], maxRetry) + TaskWeights(workers[1..], maxRetry)
  }

  function Times(n: nat, c: nat): nat {
    if n == 0 then 0 else c + Times(n - 1, c)
  }

  function Remaining(s: State, maxRetry: nat): nat
    requires |s.channels| == 4 && |s.closers| == 4
  {
    ChannelWeights(s.channels, 0, maxRetry) + TaskWeights(s.workers, maxRetry)
    + One(!s.closers[0]) + One(!s.closers[1]) + One(!s.closers[2]) + One(!s.closers[3]) + One(!s.cancelled)
  }

  lemma {:induction false} TaskUpdate(workers: seq<Worker>, i: nat, w: Worker, maxRetry: nat)
    requires i < |workers|
    ensures TaskWeights(workers[i := w], maxRetry)
         == TaskWeights(workers, maxRetry) - TaskWeight(workers[i], maxRetry) + TaskWeight(w, maxRetry)
    decreases i
  {
    if i == 0 {
      assert workers[0 := w][1..] == workers[1..];
    } else {
      TaskUpdate(workers[1..], i - 1, w, maxRetry);
      assert workers[i := w][1..] == workers[1..][i - 1 := w];
    }
  }

  function ChannelWeights(channels: seq<Channel>, k: nat, maxRetry: nat): nat
    requires k + |channels| == 4
    decreases |channels|
  {
    if channels == [] then 0
    else Times(|channels[0].buffer|, Weight(k, maxRetry)) + ChannelWeights(channels[1..], k + 1, maxRetry)
  }

  lemma {:induction false} ChannelUpdate(channels: seq<Channel>, k: nat, i: nat, c: Channel, maxRetry: nat)
    requires k + |channels| == 4 && i < |channels|
    ensures ChannelWeights(channels[i := c], k, maxRetry)
         == ChannelWeights(channels, k, maxRetry)
            - Times(|channels[i].buffer|, Weight(k + i, maxRetry)) + Times(|c.buffer|, Weight(k + i, maxRetry))
    decreases i
  {
    if i == 0 {
      assert channels[0 := c][1..] == channels[1..];
    } else {
      ChannelUpdate(channels[1..], k + 1, i - 1, c, maxRetry);
      assert channels[i := c][1..] == channels[1..][i - 1 := c];
    }
  }

  lemma {:induction false} LongerWeight(s: State, k: nat, buffer: seq<Item>, maxRetry: nat)
    requires Shape(s) && k < 4 && |buffer| == |s.channels[k].buffer| + 1
    ensures Remaining(SetBuffer(s, k, buffer), maxRetry) == Remaining(s, maxRetry) + Weight(k, maxRetry)
  {
    ChannelUpdate(s.channels, 0, k, s.channels[k].(buffer := buffer), maxRetry);
  }

  lemma {:induction false} ShorterWeight(s: State, k: nat, buffer: seq<Item>, maxRetry: nat)
    requires Shape(s) && k < 4 && |buffer| + 1 == |s.channels[k].buffer|
    ensures Remaining(SetBuffer(s, k, buffer), maxRetry) == Remaining(s, maxRetry) - Weight(k, maxRetry)
  {
    ChannelUpdate(s.channels, 0, k, s.channels[k].(buffer := buffer), maxRetry);
  }

  lemma {:induction false} WorkerWeight(s: State, w: nat, task: Task, maxRetry: nat)
    requires |s.channels| == 4 && |s.closers| == 4 && w < |s.workers|
    ensures Remaining(SetWorker(s, w, task), maxRetry)
         == Remaining(s, maxRetry) - TaskWeight(s.workers[w], maxRetry) + TaskWeight(s.workers[w].(task := task), maxRetry)
  {
    TaskUpdate(s.workers, w, s.workers[w].(task := task), maxRetry);
  }

  lemma {:induction false} TakeShrinks(s: State, w: nat, maxRetry: nat)
    requires Shape(s) && w < |s.workers| && s.workers[w].task == Receiving
    requires s.channels[s.workers[w].stage].buffer != []
    ensures Shape(AfterTake(s, w)) && Remaining(AfterTake(s, w), maxRetry) < Remaining(s, maxRetry)
  {
    var k := s.workers[w].stage;
    var b := s.channels[k].buffer;
    ShorterWeight(s, k, b[1..], maxRetry);
    WorkerWeight(SetBuffer(s, k, b[1..]), w, Sending(b[0], 0), maxRetry);
  }

  lemma {:induction false} SendShrinks(s: State, w: nat, maxRetry: nat)
    requires Shape(s) && Enabled(s, Send(w)) && s.channels[s.workers[w].stage + 1].closes == 0
    ensures Remaining(Next(s, Send(w), maxRetry), maxRetry) < Remaining(s, maxRetry)
  {
    var k := s.workers[w].stage + 1;
    WorkerWeight(s, w, Receiving, maxRetry);
    LongerWeight(SetWorker(s, w, Receiving), k, s.channels[k].buffer + [s.workers[w].task.item], maxRetry);
  }

  lemma {:induction false} AttemptShrinks(s: State, w: nat, maxRetry: nat)
    requires Shape(s) && w < |s.workers| && s.workers[w].stage == TRANSPORT
    requires s.workers[w].task.Sending? && s.workers[w].task.attempts <= maxRetry
    ensures Remaining(AfterAttempt(s, w, maxRetry), maxRetry) < Remaining(s, maxRetry)
  {
    var t := s.workers[w].task;
    if t.attempts < t.item.failedSends && t.attempts < maxRetry {
      WorkerWeight(s, w, Sending(t.item, t.attempts + 1), maxRetry);
    } else {
      WorkerWeight(s, w, Receiving, maxRetry);
    }
  }

  lemma {:induction false} ShutShrinks(s: State, k: nat, maxRetry: nat)
    requires Shape(s) && k < 4 && !s.closers[k]
    ensures Remaining(Shut(s, k), maxRetry) < Remaining(s, maxRetry)
  {
    ChannelUpdate(s.channels, 0, k, s.channels[k].(closes := s.channels[k].closes + 1), maxRetry);
  }

  lemma {:induction false} Shrinks(s: State, a: Action, maxRetry: nat)
    requires Shape(s) && Enabled(s, a) && !a.Feed? && Shape(Next(s, a, maxRetry))
    requires a.Send? ==> s.channels[s.workers[a.w].stage + 1].closes == 0
    requires a.Attempt? ==> s.workers[a.w].task.attempts <= maxRetry
    ensures Remaining(Next(s, a, maxRetry), maxRetry) < Remaining(s, maxRetry)
  {
    match a {
      case CloseRaw => ShutShrinks(s, 0, maxRetry);
      case CloseChannel(k) => ShutShrinks(s, k, maxRetry);
      case Take(w) => TakeShrinks(s, w, maxRetry);
      case Send(w) => SendShrinks(s, w, maxRetry);
      case Attempt(w) => AttemptShrinks(s, w, maxRetry);
      case Exit(w) => WorkerWeight(s, w, Gone, maxRetry);
      case Abandon(w) => WorkerWeight(s, w, Gone, maxRetry);
      case Cancel =>
    }
  }

  // Every step but feeding brings the end nearer, so after Close the pipeline drains in bounded time.
  lemma {:induction false} StepsTowardsEnd(s: State, a: Action, maxRetry: nat)
    requires WellFormed(s) && Lifecycle(s, maxRetry) && Enabled(s, a) && !a.Feed?
    ensures WellFormed(Next(s, a, maxRetry)) && Remaining(Next(s, a, maxRetry), maxRetry) < Remaining(s, maxRetry)
  {
    LifecycleStep(s, a, maxRetry);
    if a.Send? {
      SendOpen(s, a.w, maxRetry);
    }
    Shrinks(s, a, maxRetry);
  }

  // ---------- When the transport leaves early ----------

  // From then on nobody reads the formatted channel and nothing more is delivered.
  lemma {:induction false} AbandonOrphans(s: State, w: nat, actions: seq<Action>, s': State, maxRetry: nat)
    requires Inv(s, maxRetry) && Enabled(s, Abandon(w)) && Reaches(Next(s, Abandon(w), maxRetry), actions, s', maxRetry)
    ensures WellFormed(s') && s'.early && StageGone(s', TRANSPORT) && s'.delivered == s.delivered
  {
    StepInv(s, Abandon(w), maxRetry);
    NobodyDelivers(Next(s, Abandon(w), maxRetry), actions, s', maxRetry);
  }

  lemma {:induction false} NobodyDelivers(s: State, actions: seq<Action>, s': State, maxRetry: nat)
    requires Inv(s, maxRetry) && s.early && Reaches(s, actions, s', maxRetry)
    ensures Inv(s', maxRetry) && s'.early && s'.delivered == s.delivered
    decreases |actions|
  {
    if actions != [] {
      StepInv(s, actions[0], maxRetry);
      EarlyStays(s, actions[0], maxRetry);
      NobodyDelivers(Next(s, actions[0], maxRetry), actions[1..], s', maxRetry);
    }
  }

  lemma {:induction false} EarlyStays(s: State, a: Action, maxRetry: nat)
    requires Shape(s) && Lifecycle(s, maxRetry) && Enabled(s, a)
    ensures s.early ==> Next(s, a, maxRetry).early && Next(s, a, maxRetry).delivered == s.delivered
    ensures Inner(a) ==> Next(s, a, maxRetry).early == s.early
  {
  }

  // x passes the rules of stages k to 2.
  predicate Will(k: nat, x: Item) {
    && (k <= 0 ==> Keeps(0, x))
    && (k <= 1 ==> Keeps(1, x))
    && (k <= 2 ==> Keeps(2, x))
  }

  // How many items are in, or on their way to, the formatted channel.
  function Coming(buffer: seq<Item>, k: nat): nat {
    if buffer == [] then 0 else One(Will(k, buffer[0])) + Coming(buffer[1..], k)
  }

  function ChannelsComing(channels: seq<Channel>, k: nat): nat {
    if channels == [] then 0 else Coming(channels[0].buffer, k) + ChannelsComing(channels[1..], k + 1)
  }

  function TaskComing(w: Worker): nat {
    One(w.stage < TRANSPORT && w.task.Sending? && Will(w.stage + 1, w.task.item))
  }

  function TasksComing(workers: seq<Worker>): nat {
    if workers == [] then 0 else TaskComing(workers[0]) + TasksComing(workers[1..])
  }

  function Expected(s: State): nat {
    ChannelsComing(s.channels, 0) + TasksComing(s.workers)
  }

  lemma {:induction false} ComingAppend(buffer: seq<Item>, x: Item, k: nat)
    ensures Coming(buffer + [x], k) == Coming(buffer, k) + One(Will(k, x))
    decreases |buffer|
  {
    if buffer != [] {
      assert (buffer + [x])[1..] == buffer[1..] + [x];
      ComingAppend(buffer[1..], x, k);
    }
  }

  lemma {:induction false} ComingUpdate(channels: seq<Channel>, k: nat, i: nat, c: Channel)
    requires i < |channels|
    ensures ChannelsComing(channels[i := c], k)
         == ChannelsComing(channels, k) - Coming(channels[i].buffer, k + i) + Coming(c.buffer, k + i)
    decreases i
  {
    if i == 0 {
      assert channels[0 := c][1..] == channels[1..];
    } else {
      ComingUpdate(channels[1..], k + 1, i - 1, c);
      assert channels[i := c][1..] == channels[1..][i - 1 := c];
    }
  }

  lemma {:induction false} TasksComingUpdate(workers: seq<Worker>, i: nat, w: Worker)
    requires i < |workers|
    ensures TasksComing(workers[i := w]) == TasksComing(workers) - TaskComing(workers[i]) + TaskComing(w)
    decreases i
  {
    if i == 0 {
      assert workers[0 := w][1..] == workers[1..];
    } else {
      TasksComingUpdate(workers[1..], i - 1, w);
      assert workers[i := w][1..] == workers[1..][i - 1 := w];
    }
  }

  lemma {:induction false} TakeExpected(s: State, w: nat)
    requires Shape(s) && w < |s.workers| && s.workers[w].task == Receiving && s.workers[w].stage < TRANSPORT
    requires s.channels[s.workers[w].stage].buffer != []
    ensures Expected(AfterTake(s, w)) == Expected(s)
  {
    var k := s.workers[w].stage;
    var c := s.channels[k];
    var x := c.buffer[0];
    ComingUpdate(s.channels, 0, k, c.(buffer := c.buffer[1..]));
    TasksComingUpdate(s.workers, w, s.workers[w].(task := Sending(x, 0)));
    assert Will(k, x) <==> Keeps(k, x) && Will(k + 1, x);
  }

  lemma {:induction false} SendExpected(s: State, w: nat, maxRetry: nat)
    requires Shape(s) && Enabled(s, Send(w)) && s.channels[s.workers[w].stage + 1].closes == 0
    ensures Expected(Next(s, Send(w), maxRetry)) == Expected(s)
  {
    var k := s.workers[w].stage + 1;
    var c, x := s.channels[k], s.workers[w].task.item;
    ComingAppend(c.buffer, x, k);
    MoveExpected(s, k, c.buffer + [x], w, Receiving);
    SendAsMove(s, w);
  }

  lemma {:induction false} MoveExpected(s: State, k: nat, buffer: seq<Item>, w: nat, task: Task)
    requires Shape(s) && k < 4 && w < |s.workers|
    ensures Expected(SetWorker(SetBuffer(s, k, buffer), w, task))
         == Expected(s) - Coming(s.channels[k].buffer, k) + Coming(buffer, k)
            - TaskComing(s.workers[w]) + TaskComing(s.workers[w].(task := task))
  {
    ComingUpdate(s.channels, 0, k, s.channels[k].(buffer := buffer));
    TasksComingUpdate(s.workers, w, s.workers[w].(task := task));
  }

  lemma {:induction false} ShutExpected(s: State, k: nat)
    requires Shape(s) && k < 4
    ensures Expected(Shut(s, k)) == Expected(s)
  {
    ComingUpdate(s.channels, 0, k, s.channels[k].(closes := s.channels[k].closes + 1));
  }

  // Nothing reads the formatted channel any more, so the number bound for it never changes.
  lemma {:induction false} OrphanStep(s: State, a: Action, maxRetry: nat)
    requires Shape(s) && Lifecycle(s, maxRetry) && s.early && Enabled(s, a) && !a.Feed?
    ensures Expected(Next(s, a, maxRetry)) == Expected(s)
  {
    match a {
      case Take(w) => TakeExpected(s, w);
      case Send(w) =>
        SendOpen(s, w, maxRetry);
        SendExpected(s, w, maxRetry);
      case Exit(w) => TasksComingUpdate(s.workers, w, s.workers[w].(task := Gone));
      case CloseChannel(k) => ShutExpected(s, k);
      case CloseRaw => ShutExpected(s, 0);
      case _ =>
    }
  }

  lemma {:induction false} AllComing(buffer: seq<Item>)
    ensures Coming(buffer, TRANSPORT) == |buffer|
    decreases |buffer|
  {
    if buffer != [] {
      AllComing(buffer[1..]);
    }
  }

  lemma {:induction false} ExpectedSplit(s: State)
    requires |s.channels| == 4
    ensures Expected(s) == Coming(s.channels[0].buffer, 0) + Coming(s.channels[1].buffer, 1)
                           + Coming(s.channels[2].buffer, 2) + |s.channels[3].buffer| + TasksComing(s.workers)
  {
    AllComing(s.channels[3].buffer);
    var c1, c2, c3 := s.channels[1..], s.channels[1..][1..], s.channels[1..][1..][1..];
    assert c1[0] == s.channels[1] && c2[0] == s.channels[2] && c3[0] == s.channels[3] && c3[1..] == [];
    assert ChannelsComing(c3, 3) == Coming(s.channels[3].buffer, 3);
    assert ChannelsComing(c2, 2) == Coming(s.channels[2].buffer, 2) + ChannelsComing(c3, 3);
    assert ChannelsComing(c1, 1) == Coming(s.channels[1].buffer, 1) + ChannelsComing(c2, 2);
  }

  lemma {:induction false} NoTasksComing(workers: seq<Worker>)
    requires forall w :: 0 <= w < |workers| ==> workers[w].task == Gone
    ensures TasksComing(workers) == 0
    decreases |workers|
  {
    if workers != [] {
      NoTasksComing(workers[1..]);
    }
  }

  lemma {:induction false} TaskCounts(workers: seq<Worker>, w: nat)
    requires w < |workers|
    ensures TaskComing(workers[w]) <= TasksComing(workers)
    decreases w
  {
    if w > 0 {
      TaskCounts(workers[1..], w - 1);
    }
  }

  // ---------- Deadlock freedom ----------

  // If channel k is open and empty, somebody at stage k - 1 or before it can move.
  lemma {:induction false} UpstreamMoves(s: State, k: nat, maxRetry: nat) returns (a: Action)
    requires WellFormed(s) && Lifecycle(s, maxRetry) && !Open(s, 0)
    requires 1 <= k < 4 && Open(s, k) && s.channels[k].buffer == []
    ensures Enabled(s, a) && Inner(a)
    decreases k
  {
    if StageGone(s, k - 1) {
      return CloseChannel(k);
    }
    var w :| 0 <= w < |s.workers| && s.workers[w].stage == k - 1 && s.workers[w].task != Gone;
    if s.workers[w].task.Sending? {
      return Send(w);
    }
    if s.channels[k - 1].buffer != [] {
      return Take(w);
    }
    if !Open(s, k - 1) {
      return Exit(w);
    }
    a := UpstreamMoves(s, k - 1, maxRetry);
  }

  // Once Stop has closed the raw channel, until every goroutine has exited one of them can step,
  // provided that the transport is there or what is bound for the formatted channel fits into it.
  lemma {:induction false} NeverStuck(s: State, maxRetry: nat) returns (a: Action)
    requires Inv(s, maxRetry) && !Open(s, 0) && !AllGone(s)
    requires s.early ==> Expected(s) <= s.channels[TRANSPORT].capacity
    ensures Enabled(s, a) && Inner(a)
  {
    if w :| 0 <= w < |s.workers| && s.workers[w].stage == TRANSPORT && s.workers[w].task != Gone {
      if s.workers[w].task.Sending? {
        return Attempt(w);
      }
      if s.channels[TRANSPORT].buffer != [] {
        return Take(w);
      }
      if !Open(s, TRANSPORT) {
        return Exit(w);
      }
      a := UpstreamMoves(s, TRANSPORT, maxRetry);
    } else {
      a := WithoutTransport(s, maxRetry);
    }
  }

  lemma {:induction false} WithoutTransport(s: State, maxRetry: nat) returns (a: Action)
    requires WellFormed(s) && Lifecycle(s, maxRetry) && !Open(s, 0) && !AllGone(s) && StageGone(s, TRANSPORT)
    requires s.early ==> Expected(s) <= s.channels[TRANSPORT].capacity
    ensures Enabled(s, a) && Inner(a)
  {
    if !s.early {
      AllGoneAbove(s, TRANSPORT, maxRetry);
      assert false;
    }
    if StageGone(s, 2) {
      if s.closers[3] {
        AllGoneAbove(s, 2, maxRetry);
      }
      return CloseChannel(3);
    }
    var w :| 0 <= w < |s.workers| && s.workers[w].stage == 2 && s.workers[w].task != Gone;
    if s.workers[w].task.Sending? {
      TaskCounts(s.workers, w);
      ExpectedSplit(s);
      return Send(w);
    }
    if s.channels[2].buffer != [] {
      return Take(w);
    }
    if !Open(s, 2) {
      return Exit(w);
    }
    a := UpstreamMoves(s, 2, maxRetry);
  }

  lemma {:induction false} AllGoneAbove(s: State, k: nat, maxRetry: nat)
    requires WellFormed(s) && Lifecycle(s, maxRetry) && k < 4 && StageGone(s, k) && (k == TRANSPORT ==> !s.early)
    requires forall j :: k < j < 4 ==> StageGone(s, j) && s.closers[j]
    ensures AllGone(s)
    decreases k
  {
    assert Staffed(s.workers, k);
    var w :| 0 <= w < |s.workers| && s.workers[w].stage == k;
    assert s.closers[k];
    if k > 0 {
      AllGoneAbove(s, k - 1, maxRetry);
    } else {
      forall v | 0 <= v < |s.workers|
        ensures s.workers[v].task == Gone
      {
        assert StageGone(s, s.workers[v].stage);
      }
    }
  }

  // ---------- A live pipeline empties its channels ----------

  // Nothing on the way between the raw channel and the transport's last Send.
  predicate Quiet(s: State) {
    && (forall k :: 0 <= k < |s.channels| ==> s.channels[k].buffer == [])
    && (forall w :: 0 <= w < |s.workers| ==> !s.workers[w].task.Sending?)
  }

  // Whether the raw channel is open or not: where an item waits at stage k, somebody at stage k or
  // after it can move.
  lemma {:induction false} DownstreamMoves(s: State, k: nat, w: nat, maxRetry: nat) returns (a: Action)
    requires WellFormed(s) && Lifecycle(s, maxRetry) && !s.early && k <= TRANSPORT
    requires w < |s.workers| && s.workers[w].stage == k && s.workers[w].task != Gone
    requires s.channels[k].buffer != [] || s.workers[w].task.Sending?
    ensures Enabled(s, a) && Inner(a)
    decreases TRANSPORT - k
  {
    if s.workers[w].task == Receiving {
      return Take(w);
    }
    if k == TRANSPORT {
      return Attempt(w);
    }
    var c := s.channels[k + 1];
    if |c.buffer| < c.capacity || c.closes > 0 {
      return Send(w);
    }
    var v := Attended(s, k + 1, maxRetry);
    a := DownstreamMoves(s, k + 1, v, maxRetry);
  }

  // A channel with items in it still has a reader.
  lemma {:induction false} Attended(s: State, k: nat, maxRetry: nat) returns (w: nat)
    requires WellFormed(s) && Lifecycle(s, maxRetry) && !s.early && k <= TRANSPORT && s.channels[k].buffer != []
    ensures w < |s.workers| && s.workers[w].stage == k && s.workers[w].task != Gone
  {
    assert Staffed(s.workers, k);
    w :| 0 <= w < |s.workers| && s.workers[w].stage == k;
  }

  // So no polling worker blocked on a full raw channel waits for ever: until the pipeline is quiet,
  // one of its own goroutines can step.
  lemma {:induction false} KeepsMoving(s: State, maxRetry: nat) returns (a: Action)
    requires Inv(s, maxRetry) && !s.early && !Quiet(s)
    ensures Enabled(s, a) && Inner(a)
  {
    if k :| 0 <= k < 4 && s.channels[k].buffer != [] {
      var w := Attended(s, k, maxRetry);
      a := DownstreamMoves(s, k, w, maxRetry);
    } else {
      var w :| 0 <= w < |s.workers| && s.workers[w].task.Sending?;
      a := DownstreamMoves(s, s.workers[w].stage, w, maxRetry);
    }
  }

  lemma {:induction false} MovesOn(s: State, maxRetry: nat) returns (a: Action)
    requires Inv(s, maxRetry) && !s.early && !Quiet(s)
    ensures Enabled(s, a) && Inner(a) && Inv(Next(s, a, maxRetry), maxRetry) && !Next(s, a, maxRetry).early
    ensures Remaining(Next(s, a, maxRetry), maxRetry) < Remaining(s, maxRetry)
  {
    a := KeepsMoving(s, maxRetry);
    StepInv(s, a, maxRetry);
    StepsTowardsEnd(s, a, maxRetry);
    EarlyStays(s, a, maxRetry);
  }

  ghost predicate AllInner(actions: seq<Action>) {
    forall i :: 0 <= i < |actions| ==> Inner(actions[i])
  }

  lemma {:induction false} InnerFirst(s: State, a: Action, rest: seq<Action>, s': State, maxRetry: nat)
    requires Shape(s) && Enabled(s, a) && Inner(a) && AllInner(rest) && Reaches(Next(s, a, maxRetry), rest, s', maxRetry)
    ensures AllInner([a] + rest) && Reaches(s, [a] + rest, s', maxRetry)
  {
    ReachFirst(s, a, rest, s', maxRetry);
  }

  // ... and at most Remaining such steps empty every channel, the raw one included.
  lemma {:induction false} LiveDrains(s: State, maxRetry: nat) returns (actions: seq<Action>, s': State)
    requires Inv(s, maxRetry) && !s.early
    ensures AllInner(actions) && |actions| <= Remaining(s, maxRetry)
    ensures Reaches(s, actions, s', maxRetry) && Quiet(s')
    decreases Remaining(s, maxRetry)
  {
    if Quiet(s) {
      return [], s;
    }
    var a := MovesOn(s, maxRetry);
    var rest;
    rest, s' := LiveDrains(Next(s, a, maxRetry), maxRetry);
    InnerFirst(s, a, rest, s', maxRetry);
    actions := [a] + rest;
  }

  // ---------- Stop ----------

  // Some way of running on ends with every goroutine gone.
  ghost predicate CanFinish(s: State, maxRetry: nat) {
    exists actions, s' :: Reaches(s, actions, s', maxRetry) && Shape(s') && AllGone(s')
  }

  // Nothing can happen any more.
  ghost predicate Halted(s: State)
    requires Shape(s)
  {
    forall a :: !Enabled(s, a)
  }

  lemma {:induction false} GoneIsHalted(s: State, maxRetry: nat)
    requires Shape(s) && Lifecycle(s, maxRetry) && AllGone(s)
    ensures Halted(s)
  {
  }

  // If all goroutines have exited, what was expected sits in the formatted channel, and so fits it.
  lemma {:induction false} OrphanDone(s: State, maxRetry: nat)
    requires WellFormed(s) && Lifecycle(s, maxRetry) && AllGone(s)
    ensures Expected(s) <= s.channels[TRANSPORT].capacity
  {
    NoTasksComing(s.workers);
    ExpectedSplit(s);
    DrainedChannels(s, maxRetry);
  }

  lemma {:induction false} RunBounded(s: State, actions: seq<Action>, s': State, maxRetry: nat)
    requires Inv(s, maxRetry) && !Open(s, 0) && Reaches(s, actions, s', maxRetry)
    ensures Inv(s', maxRetry) && !Open(s', 0) && |actions| + Remaining(s', maxRetry) <= Remaining(s, maxRetry)
    ensures s.early ==> s'.early && Expected(s') == Expected(s)
    ensures s'.channels[TRANSPORT].capacity == s.channels[TRANSPORT].capacity
    decreases |actions|
  {
    if actions != [] {
      var a := actions[0];
      StepInv(s, a, maxRetry);
      StepsTowardsEnd(s, a, maxRetry);
      StaysClosed(s, a, maxRetry);
      EarlyStays(s, a, maxRetry);
      if s.early {
        OrphanStep(s, a, maxRetry);
      }
      RunBounded(Next(s, a, maxRetry), actions[1..], s', maxRetry);
    }
  }

  lemma {:induction false} StaysClosed(s: State, a: Action, maxRetry: nat)
    requires Shape(s) && Enabled(s, a) && !Open(s, 0)
    ensures |Next(s, a, maxRetry).channels| == 4 && !a.Feed? && !Open(Next(s, a, maxRetry), 0)
    ensures Next(s, a, maxRetry).channels[TRANSPORT].capacity == s.channels[TRANSPORT].capacity
  {
    LayoutStays(s, a, maxRetry);
  }

  // After Stop has closed the raw channel every run is finite, and one that cannot go on has every
  // goroutine gone, unless the transport left early and what is bound for the formatted channel
  // does not fit into it.
  lemma {:induction false} StopReturns(s: State, actions: seq<Action>, s': State, maxRetry: nat)
    requires Inv(s, maxRetry) && !Open(s, 0) && Reaches(s, actions, s', maxRetry)
    ensures WellFormed(s') && |actions| <= Remaining(s, maxRetry)
    ensures Halted(s') ==> (AllGone(s') <==> !s'.early || Expected(s') <= s'.channels[TRANSPORT].capacity)
    ensures AllGone(s') ==> Halted(s')
  {
    RunBounded(s, actions, s', maxRetry);
    if AllGone(s') {
      GoneIsHalted(s', maxRetry);
      OrphanDone(s', maxRetry);
    } else if !s'.early || Expected(s') <= s'.channels[TRANSPORT].capacity {
      var a := NeverStuck(s', maxRetry);
    }
  }

  // Stepping on wherever possible ends with every goroutine gone.
  lemma {:induction false} FinishRun(s: State, maxRetry: nat) returns (actions: seq<Action>, s': State)
    requires Inv(s, maxRetry) && !Open(s, 0)
    requires s.early ==> Expected(s) <= s.channels[TRANSPORT].capacity
    ensures AllInner(actions) && Reaches(s, actions, s', maxRetry) && Shape(s') && AllGone(s')
    decreases Remaining(s, maxRetry)
  {
    if AllGone(s) {
      return [], s;
    }
    var a := StopsOn(s, maxRetry);
    var rest;
    rest, s' := FinishRun(Next(s, a, maxRetry), maxRetry);
    InnerFirst(s, a, rest, s', maxRetry);
    actions := [a] + rest;
  }

  lemma {:induction false} StopsOn(s: State, maxRetry: nat) returns (a: Action)
    requires Inv(s, maxRetry) && !Open(s, 0) && !AllGone(s)
    requires s.early ==> Expected(s) <= s.channels[TRANSPORT].capacity
    ensures Enabled(s, a) && Inner(a) && Inv(Next(s, a, maxRetry), maxRetry) && !Open(Next(s, a, maxRetry), 0)
    ensures var s' := Next(s, a, maxRetry);
            (s'.early ==> Expected(s') <= s'.channels[TRANSPORT].capacity) && Remaining(s', maxRetry) < Remaining(s, maxRetry)
  {
    a := NeverStuck(s, maxRetry);
    StepInv(s, a, maxRetry);
    StepsTowardsEnd(s, a, maxRetry);
    StaysClosed(s, a, maxRetry);
    EarlyStays(s, a, maxRetry);
    if s.early {
      OrphanStep(s, a, maxRetry);
    }
  }

  // The exact condition under which Stop survives the transport's early exit: the items bound for
  // the formatted channel fit into it. Otherwise no interleaving lets the goroutines finish.
  lemma {:induction false} EarlyExitHangsUnlessRoom(s: State, maxRetry: nat)
    requires Inv(s, maxRetry) && s.early && !Open(s, 0)
    ensures CanFinish(s, maxRetry) <==> Expected(s) <= s.channels[TRANSPORT].capacity
  {
    if CanFinish(s, maxRetry) {
      var actions, s' :| Reaches(s, actions, s', maxRetry) && Shape(s') && AllGone(s');
      RunBounded(s, actions, s', maxRetry);
      OrphanDone(s', maxRetry);
    }
    if Expected(s) <= s.channels[TRANSPORT].capacity {
      var actions, s' := FinishRun(s, maxRetry);
    }
  }
}
