/** Runs of the Pipeline: everything fed can be worked off, the transport's retry loop, the channels as
    queues, and a Stop that cannot return. */
module PipelineRuns {
  import opened Pipeline

  // ---------- Everything fed can be delivered ----------

  // What the pipeline's own steps leave alone.
  predicate Untouched(s: State, s': State) {
    && s'.fed == s.fed && s'.early == s.early && s'.cancelled == s.cancelled
    && |s.closers| == |s'.closers| == 4 && s'.closers[0] == s.closers[0]
  }

  lemma {:induction false} InnerStep(s: State, a: Action, maxRetry: nat)
    requires Shape(s) && Enabled(s, a) && Inner(a)
    ensures Untouched(s, Next(s, a, maxRetry))
  {
  }

  lemma {:induction false} InnerRun(s: State, actions: seq<Action>, s': State, maxRetry: nat)
    requires Shape(s) && AllInner(actions) && Reaches(s, actions, s', maxRetry)
    ensures Untouched(s, s')
    decreases |actions|
  {
    if actions != [] {
      ReachRest(s, actions, s', maxRetry);
      InnerStep(s, actions[0], maxRetry);
      LayoutStays(s, actions[0], maxRetry);
      InnerRun(Next(s, actions[0], maxRetry), actions[1..], s', maxRetry);
    }
  }

  // Running, with nothing on the way.
  ghost predicate Ready(s: State, maxRetry: nat) {
    Inv(s, maxRetry) && Quiet(s) && !s.early && !s.cancelled && !s.closers[0]
  }

  lemma {:induction false} FeedOne(s: State, x: Item, maxRetry: nat) returns (actions: seq<Action>, s': State)
    requires Ready(s, maxRetry)
    ensures Reaches(s, actions, s', maxRetry) && Ready(s', maxRetry) && s'.fed == s.fed + multiset{x}
  {
    assert Enabled(s, Feed(x));
    StepInv(s, Feed(x), maxRetry);
    var s1 := Next(s, Feed(x), maxRetry);
    var drain;
    drain, s' := LiveDrains(s1, maxRetry);
    InnerRun(s1, drain, s', maxRetry);
    ReachInv(s1, drain, s', maxRetry);
    ReachFirst(s, Feed(x), drain, s', maxRetry);
    actions := [Feed(x)] + drain;
  }

  lemma {:induction false} FeedAll(s: State, xs: seq<Item>, maxRetry: nat) returns (actions: seq<Action>, s': State)
    requires Ready(s, maxRetry)
    ensures Reaches(s, actions, s', maxRetry) && Ready(s', maxRetry) && s'.fed == s.fed + multiset(xs)
    decreases |xs|
  {
    if xs == [] {
      return [], s;
    }
    var a, s1 := FeedOne(s, xs[0], maxRetry);
    var b;
    b, s' := FeedAll(s1, xs[1..], maxRetry);
    ReachAppend(s, a, s1, b, s', maxRetry);
    actions := a + b;
    assert xs == [xs[0]] + xs[1..];
  }

  lemma {:induction false} CloseDown(s: State, maxRetry: nat) returns (actions: seq<Action>, s': State)
    requires Ready(s, maxRetry)
    ensures Reaches(s, actions, s', maxRetry) && Shape(s') && AllGone(s') && !s'.early && s'.fed == s.fed
  {
    StepInv(s, Cancel, maxRetry);
    var s1 := Next(s, Cancel, maxRetry);
    StepInv(s1, CloseRaw, maxRetry);
    var s2 := Next(s1, CloseRaw, maxRetry);
    var rest;
    rest, s' := FinishRun(s2, maxRetry);
    InnerRun(s2, rest, s', maxRetry);
    ReachFirst(s1, CloseRaw, rest, s', maxRetry);
    ReachFirst(s, Cancel, [CloseRaw] + rest, s', maxRetry);
    actions := [Cancel] + ([CloseRaw] + rest);
  }

  function Feeds(xs: seq<Item>): seq<Action> {
    if xs == [] then [] else [Feed(xs[0])] + Feeds(xs[1..])
  }

  // s with xs in the raw channel.
  function Filled(s: State, xs: seq<Item>): State
    requires Shape(s)
  {
    s.(channels := s.channels[0 := s.channels[0].(buffer := s.channels[0].buffer + xs)], fed := s.fed + multiset(xs))
  }

  lemma {:induction false} FilledBy(s: State, x: Item, rest: seq<Item>)
    requires Shape(s)
    ensures Filled(Filled(s, [x]), rest) == Filled(s, [x] + rest)
  {
    var b := s.channels[0].buffer;
    assert b + [x] + rest == b + ([x] + rest);
    assert s.fed + multiset([x]) + multiset(rest) == s.fed + multiset([x] + rest);
    assert Filled(s, [x]).channels[0 := Filled(s, [x] + rest).channels[0]] == Filled(s, [x] + rest).channels;
  }

  lemma {:induction false} FilledNone(s: State)
    requires Shape(s)
    ensures Filled(s, []) == s
  {
    assert s.channels[0].buffer + [] == s.channels[0].buffer;
    assert s.channels[0 := s.channels[0]] == s.channels;
  }

  lemma {:induction false} FeedFills(s: State, x: Item, maxRetry: nat)
    requires Shape(s) && Open(s, 0) && |s.channels[0].buffer| < s.channels[0].capacity
    ensures Enabled(s, Feed(x)) && Next(s, Feed(x), maxRetry) == Filled(s, [x])
  {
    assert multiset([x]) == multiset{x};
  }

  // While the raw channel is open it takes items up to its size, nobody reading them.
  lemma {:induction false} RawFills(s: State, xs: seq<Item>, maxRetry: nat)
    requires Shape(s) && Open(s, 0) && |s.channels[0].buffer| + |xs| <= s.channels[0].capacity
    ensures Reaches(s, Feeds(xs), Filled(s, xs), maxRetry)
    decreases |xs|
  {
    if xs == [] {
      FilledNone(s);
    } else {
      FeedFills(s, xs[0], maxRetry);
      RawFills(Filled(s, [xs[0]]), xs[1..], maxRetry);
      FilledBy(s, xs[0], xs[1..]);
      assert xs == [xs[0]] + xs[1..];
      ReachStep(s, Feed(xs[0]), Filled(s, [xs[0]]), Feeds(xs[1..]), Filled(s, xs), maxRetry);
    }
  }

  // From any start, whatever the buffer sizes, any sequence of poll results can be fed and worked off
  // to the last goroutine; DeliveredExactly says what the transport has then sent.
  lemma {:induction false} AllThrough(s: State, xs: seq<Item>, maxRetry: nat) returns (actions: seq<Action>, s': State)
    requires Starting(s)
    ensures Reaches(s, actions, s', maxRetry) && Shape(s') && AllGone(s') && !s'.early && s'.fed == multiset(xs)
  {
    StartInv(s, maxRetry);
    var a, s1 := FeedAll(s, xs, maxRetry);
    var b;
    b, s' := CloseDown(s1, maxRetry);
    ReachAppend(s, a, s1, b, s', maxRetry);
    actions := a + b;
  }

  // The transport's retry loop for one message: one Send more than fail, or than the limit allows.
  function Attempts(w: nat, n: nat): seq<Action> {
    if n == 0 then [] else [Attempt(w)] + Attempts(w, n - 1)
  }

  // The message's fate once the loop is done.
  function Settled(s: State, w: nat, x: Item, maxRetry: nat): State
    requires w < |s.workers|
  {
    var idle := SetWorker(s, w, Receiving);
    if x.failedSends <= maxRetry then idle.(delivered := s.delivered + multiset{x})
    else idle.(dropped := s.dropped + multiset{x})
  }

  lemma {:induction false} LastAttempt(s: State, w: nat, x: Item, made: nat, maxRetry: nat)
    requires Shape(s) && w < |s.workers| && s.workers[w].stage == TRANSPORT && s.workers[w].task == Sending(x, made)
    requires made == if x.failedSends <= maxRetry then x.failedSends else maxRetry
    ensures Enabled(s, Attempt(w)) && Next(s, Attempt(w), maxRetry) == Settled(s, w, x, maxRetry)
  {
  }

  lemma {:induction false} FailedAttempt(s: State, w: nat, x: Item, made: nat, maxRetry: nat)
    requires Shape(s) && w < |s.workers| && s.workers[w].stage == TRANSPORT && s.workers[w].task == Sending(x, made)
    requires made < x.failedSends && made < maxRetry
    ensures Enabled(s, Attempt(w)) && Next(s, Attempt(w), maxRetry) == SetWorker(s, w, Sending(x, made + 1))
    ensures Settled(SetWorker(s, w, Sending(x, made + 1)), w, x, maxRetry) == Settled(s, w, x, maxRetry)
  {
    assert SetWorker(SetWorker(s, w, Sending(x, made + 1)), w, Receiving) == SetWorker(s, w, Receiving);
  }

  lemma {:induction false} RetryLoop(s: State, w: nat, x: Item, made: nat, more: nat, maxRetry: nat)
    requires Shape(s) && w < |s.workers| && s.workers[w].stage == TRANSPORT && s.workers[w].task == Sending(x, made)
    requires made + more == if x.failedSends <= maxRetry then x.failedSends else maxRetry
    ensures Reaches(s, Attempts(w, more + 1), Settled(s, w, x, maxRetry), maxRetry)
    decreases more
  {
    var goal := Settled(s, w, x, maxRetry);
    if more == 0 {
      LastAttempt(s, w, x, made, maxRetry);
      assert Reaches(goal, [], goal, maxRetry);
      ReachStep(s, Attempt(w), goal, [], goal, maxRetry);
    } else {
      FailedAttempt(s, w, x, made, maxRetry);
      RetryLoop(SetWorker(s, w, Sending(x, made + 1)), w, x, made + 1, more - 1, maxRetry);
      ReachStep(s, Attempt(w), SetWorker(s, w, Sending(x, made + 1)), Attempts(w, more), goal, maxRetry);
    }
  }

  // ---------- The channels are queues ----------

  // From buffer b a channel's buffer becomes b' by nothing, by its head leaving, or by one item
  // joining at the end where there is room.
  predicate QueueMove(b: seq<Item>, b': seq<Item>, capacity: nat) {
    || b' == b
    || (b != [] && b' == b[1..])
    || (|b| < capacity && |b'| == |b| + 1 && b'[..|b|] == b)
  }

  lemma {:induction false} TakeBuffers(s: State, w: nat)
    requires Shape(s) && Enabled(s, Take(w))
    ensures var k := s.workers[w].stage;
            AfterTake(s, w).channels == s.channels[k := s.channels[k].(buffer := s.channels[k].buffer[1..])]
  {
  }

  lemma {:induction false} QueueTake(s: State, w: nat, k: nat, maxRetry: nat)
    requires Shape(s) && Enabled(s, Take(w)) && k < 4
    ensures |Next(s, Take(w), maxRetry).channels| == 4
    ensures QueueMove(s.channels[k].buffer, Next(s, Take(w), maxRetry).channels[k].buffer, s.channels[k].capacity)
  {
    TakeBuffers(s, w);
  }

  lemma {:induction false} QueueSend(s: State, w: nat, k: nat, maxRetry: nat)
    requires Shape(s) && Enabled(s, Send(w)) && k < 4 && |Next(s, Send(w), maxRetry).channels| == 4
    ensures QueueMove(s.channels[k].buffer, Next(s, Send(w), maxRetry).channels[k].buffer, s.channels[k].capacity)
  {
  }

  lemma {:induction false} QueueRest(s: State, a: Action, k: nat, maxRetry: nat)
    requires Shape(s) && Enabled(s, a) && !a.Take? && !a.Send? && k < 4 && |Next(s, a, maxRetry).channels| == 4
    ensures QueueMove(s.channels[k].buffer, Next(s, a, maxRetry).channels[k].buffer, s.channels[k].capacity)
  {
  }

  // Every step treats every channel as a queue.
  lemma {:induction false} QueueStep(s: State, a: Action, k: nat, maxRetry: nat)
    requires Shape(s) && Enabled(s, a) && k < 4
    ensures |Next(s, a, maxRetry).channels| == 4
    ensures QueueMove(s.channels[k].buffer, Next(s, a, maxRetry).channels[k].buffer, s.channels[k].capacity)
  {
    LayoutStays(s, a, maxRetry);
    match a {
      case Take(w) => QueueTake(s, w, k, maxRetry);
      case Send(w) => QueueSend(s, w, k, maxRetry);
      case _ => QueueRest(s, a, k, maxRetry);
    }
  }

  // ---------- The hang is reachable ----------

  // An item that passes every stage and whose first Send fails.
  const STUBBORN := Item(0, 1, false, true, false, 1, false, 1)

  function Cell(full: bool): Channel {
    Channel(1, if full then [STUBBORN] else [], 0)
  }

  const IDLE := [Worker(0, Receiving), Worker(1, Receiving), Worker(2, Receiving), Worker(3, Receiving)]

  // One worker a stage, buffers of one, and the only item fed so far in channel k (in none for 4).
  function Walking(k: nat, fed: nat): State {
    State([Cell(k == 0), Cell(k == 1), Cell(k == 2), Cell(k == 3)], [false, false, false, false], IDLE,
          multiset{}[STUBBORN := fed], multiset{}, multiset{}, multiset{}, false, false, false)
  }

  lemma {:induction false} WalkingFormed(k: nat, fed: nat)
    ensures WellFormed(Walking(k, fed))
  {
    assert IDLE[0].stage == 0 && IDLE[1].stage == 1 && IDLE[2].stage == 2 && IDLE[3].stage == 3;
    forall j | 0 <= j <= TRANSPORT
      ensures Staffed(IDLE, j)
    {
      assert IDLE[j].stage == j;
    }
  }

  function Walk(k: nat): seq<Action>
    requires k <= TRANSPORT
    decreases TRANSPORT - k
  {
    if k == TRANSPORT then [Take(k)] else [Take(k), Send(k)] + Walk(k + 1)
  }

  // ... and then with worker k.
  function Held(k: nat, fed: nat): State
    requires k <= TRANSPORT
  {
    Walking(4, fed).(workers := IDLE[k := Worker(k, Sending(STUBBORN, 0))])
  }

  lemma {:induction false} TakeStubborn(k: nat, fed: nat, maxRetry: nat)
    requires k <= TRANSPORT
    ensures Enabled(Walking(k, fed), Take(k)) && Next(Walking(k, fed), Take(k), maxRetry) == Held(k, fed)
  {
    assert [STUBBORN][1..] == [];
    assert Walking(k, fed).channels[k := Cell(false)] == Walking(4, fed).channels;
  }

  lemma {:induction false} SendStubborn(k: nat, fed: nat, maxRetry: nat)
    requires k < TRANSPORT
    ensures Enabled(Held(k, fed), Send(k)) && Next(Held(k, fed), Send(k), maxRetry) == Walking(k + 1, fed)
  {
    var none: seq<Item> := [];
    assert none + [STUBBORN] == [STUBBORN];
    assert Walking(4, fed).channels[k + 1 := Cell(true)] == Walking(k + 1, fed).channels;
    assert Held(k, fed).workers[k := Worker(k, Receiving)] == IDLE;
  }

  // The item goes from channel k into the transport's hand.
  lemma {:induction false} WalkThrough(k: nat, fed: nat, rest: seq<Action>, goal: State, maxRetry: nat)
    requires k <= TRANSPORT && Reaches(Held(TRANSPORT, fed), rest, goal, maxRetry)
    ensures Reaches(Walking(k, fed), Walk(k) + rest, goal, maxRetry)
    decreases TRANSPORT - k
  {
    if k < TRANSPORT {
      WalkThrough(k + 1, fed, rest, goal, maxRetry);
      OneStage(k, fed, Walk(k + 1) + rest, goal, maxRetry);
      assert [Take(k), Send(k)] + (Walk(k + 1) + rest) == Walk(k) + rest;
    } else {
      TakeStubborn(k, fed, maxRetry);
      ReachStep(Walking(k, fed), Take(k), Held(k, fed), rest, goal, maxRetry);
    }
  }

  lemma {:induction false} OneStage(k: nat, fed: nat, rest: seq<Action>, goal: State, maxRetry: nat)
    requires k < TRANSPORT && Reaches(Walking(k + 1, fed), rest, goal, maxRetry)
    ensures Reaches(Walking(k, fed), [Take(k), Send(k)] + rest, goal, maxRetry)
  {
    TakeStubborn(k, fed, maxRetry);
    SendStubborn(k, fed, maxRetry);
    ReachStep(Held(k, fed), Send(k), Walking(k + 1, fed), rest, goal, maxRetry);
    ReachStep(Walking(k, fed), Take(k), Held(k, fed), [Send(k)] + rest, goal, maxRetry);
    assert [Take(k)] + ([Send(k)] + rest) == [Take(k), Send(k)] + rest;
  }

  // The transport in its retry wait; raw and busy say whether an item is in the raw channel and one
  // with the decode worker.
  function Retrying(raw: bool, busy: bool, fed: nat, cancelled: bool): State {
    Walking(if raw then 0 else 4, fed).(
      workers := [Worker(0, if busy then Sending(STUBBORN, 0) else Receiving), Worker(1, Receiving),
                  Worker(2, Receiving), Worker(3, Sending(STUBBORN, 1))],
      cancelled := cancelled)
  }

  lemma {:induction false} FirstSendFails(maxRetry: nat)
    requires maxRetry >= 1
    ensures Enabled(Held(TRANSPORT, 1), Attempt(3))
    ensures Next(Held(TRANSPORT, 1), Attempt(3), maxRetry) == Retrying(false, false, 1, false)
  {
    assert Held(TRANSPORT, 1).workers[3 := Worker(3, Sending(STUBBORN, 1))] == Retrying(false, false, 1, false).workers;
  }

  lemma {:induction false} FeedStubborn(s: State, s': State, fed: nat, maxRetry: nat)
    requires Shape(s) && s.channels == Walking(4, fed).channels && s.fed == Walking(4, fed).fed
    requires s' == s.(channels := Walking(0, fed + 1).channels, fed := Walking(0, fed + 1).fed)
    ensures Enabled(s, Feed(STUBBORN)) && Next(s, Feed(STUBBORN), maxRetry) == s'
  {
    var none: seq<Item> := [];
    assert none + [STUBBORN] == [STUBBORN];
    assert Walking(4, fed).channels[0 := Cell(true)] == Walking(0, fed + 1).channels;
    assert Walking(4, fed).fed + multiset{STUBBORN} == Walking(0, fed + 1).fed;
  }

  lemma {:induction false} DecodeTakes(maxRetry: nat)
    ensures Enabled(Retrying(true, false, 2, false), Take(0))
    ensures Next(Retrying(true, false, 2, false), Take(0), maxRetry) == Retrying(false, true, 2, false)
  {
    assert [STUBBORN][1..] == [];
    assert Walking(0, 2).channels[0 := Cell(false)] == Walking(4, 2).channels;
    assert Retrying(true, false, 2, false).workers[0 := Worker(0, Sending(STUBBORN, 0))]
        == Retrying(false, true, 2, false).workers;
  }

  // Stop: the context is cancelled, the transport leaves, the raw channel is closed.
  function Left(): State {
    Retrying(true, true, 3, true).(
      workers := [Worker(0, Sending(STUBBORN, 0)), Worker(1, Receiving), Worker(2, Receiving), Worker(3, Gone)],
      early := true, lost := multiset{STUBBORN})
  }

  lemma {:induction false} TransportLeaves(maxRetry: nat)
    ensures Enabled(Retrying(true, true, 3, false), Cancel)
    ensures Next(Retrying(true, true, 3, false), Cancel, maxRetry) == Retrying(true, true, 3, true)
    ensures Enabled(Retrying(true, true, 3, true), Abandon(3))
    ensures Next(Retrying(true, true, 3, true), Abandon(3), maxRetry) == Left()
    ensures Enabled(Left(), CloseRaw)
  {
    var s := Retrying(true, true, 3, true);
    assert s.workers[3 := Worker(3, Gone)] == Left().workers;
    assert s.lost + multiset{s.workers[3].task.item} == Left().lost;
  }

  lemma {:induction false} TwoExpected(maxRetry: nat)
    ensures Expected(Next(Left(), CloseRaw, maxRetry)) == 2
  {
    var s := Next(Left(), CloseRaw, maxRetry);
    ExpectedSplit(s);
    assert s.channels[0].buffer == [STUBBORN] && Coming([STUBBORN][1..], 0) == 0;
    NoTaskFrom(s.workers, 1);
    assert TasksComing(s.workers) == TaskComing(s.workers[0]) + TasksComing(s.workers[1..]);
  }

  lemma {:induction false} NoTaskFrom(workers: seq<Worker>, n: nat)
    requires n <= |workers| && forall w :: n <= w < |workers| ==> TaskComing(workers[w]) == 0
    ensures TasksComing(workers[n..]) == 0
    decreases |workers| - n
  {
    if n < |workers| {
      NoTaskFrom(workers, n + 1);
      assert workers[n..][0] == workers[n] && workers[n..][1..] == workers[n + 1..];
    }
  }

  // The transport's first Send fails and it waits; two more items are fed, one is taken.
  lemma {:induction false} QueueRun(rest: seq<Action>, goal: State, maxRetry: nat)
    requires Reaches(Retrying(true, true, 3, false), rest, goal, maxRetry)
    ensures Reaches(Retrying(true, false, 2, false), [Take(0), Feed(STUBBORN)] + rest, goal, maxRetry)
  {
    FeedStubborn(Retrying(false, true, 2, false), Retrying(true, true, 3, false), 2, maxRetry);
    ReachStep(Retrying(false, true, 2, false), Feed(STUBBORN), Retrying(true, true, 3, false), rest, goal, maxRetry);
    DecodeTakes(maxRetry);
    ReachStep(Retrying(true, false, 2, false), Take(0), Retrying(false, true, 2, false), [Feed(STUBBORN)] + rest, goal, maxRetry);
    assert [Take(0)] + ([Feed(STUBBORN)] + rest) == [Take(0), Feed(STUBBORN)] + rest;
  }

  lemma {:induction false} WaitRun(rest: seq<Action>, goal: State, maxRetry: nat)
    requires maxRetry >= 1 && Reaches(Retrying(true, false, 2, false), rest, goal, maxRetry)
    ensures Reaches(Held(TRANSPORT, 1), [Attempt(3), Feed(STUBBORN)] + rest, goal, maxRetry)
  {
    FeedStubborn(Retrying(false, false, 1, false), Retrying(true, false, 2, false), 1, maxRetry);
    ReachStep(Retrying(false, false, 1, false), Feed(STUBBORN), Retrying(true, false, 2, false), rest, goal, maxRetry);
    FirstSendFails(maxRetry);
    ReachStep(Held(TRANSPORT, 1), Attempt(3), Retrying(false, false, 1, false), [Feed(STUBBORN)] + rest, goal, maxRetry);
    assert [Attempt(3)] + ([Feed(STUBBORN)] + rest) == [Attempt(3), Feed(STUBBORN)] + rest;
  }

  lemma {:induction false} StopRun(maxRetry: nat)
    ensures Enabled(Left(), CloseRaw)
    ensures Reaches(Retrying(true, true, 3, false), [Cancel, Abandon(3), CloseRaw], Next(Left(), CloseRaw, maxRetry), maxRetry)
  {
    TransportLeaves(maxRetry);
    var goal := Next(Left(), CloseRaw, maxRetry);
    assert Reaches(goal, [], goal, maxRetry);
    ReachStep(Left(), CloseRaw, goal, [], goal, maxRetry);
    ReachStep(Retrying(true, true, 3, true), Abandon(3), Left(), [CloseRaw], goal, maxRetry);
    ReachStep(Retrying(true, true, 3, false), Cancel, Retrying(true, true, 3, true), [Abandon(3), CloseRaw], goal, maxRetry);
    assert [Cancel] + [Abandon(3), CloseRaw] == [Cancel, Abandon(3), CloseRaw];
  }

  lemma {:induction false} LateRun(maxRetry: nat) returns (actions: seq<Action>)
    requires maxRetry >= 1
    ensures Enabled(Left(), CloseRaw)
    ensures Reaches(Held(TRANSPORT, 1), actions, Next(Left(), CloseRaw, maxRetry), maxRetry)
  {
    StopRun(maxRetry);
    var goal := Next(Left(), CloseRaw, maxRetry);
    actions := [Cancel, Abandon(3), CloseRaw];
    QueueRun(actions, goal, maxRetry);
    actions := [Take(0), Feed(STUBBORN)] + actions;
    WaitRun(actions, goal, maxRetry);
    actions := [Attempt(3), Feed(STUBBORN)] + actions;
  }

  lemma {:induction false} HangRun(goal: State, late: seq<Action>, maxRetry: nat) returns (actions: seq<Action>)
    requires Reaches(Held(TRANSPORT, 1), late, goal, maxRetry)
    ensures Reaches(Walking(4, 0), actions, goal, maxRetry)
  {
    WalkThrough(0, 1, late, goal, maxRetry);
    FeedStubborn(Walking(4, 0), Walking(0, 1), 0, maxRetry);
    ReachStep(Walking(4, 0), Feed(STUBBORN), Walking(0, 1), Walk(0) + late, goal, maxRetry);
    actions := [Feed(STUBBORN)] + (Walk(0) + late);
  }

  // Whenever retries are configured there is a run from Start to a Stop that cannot return: buffers of
  // one, one worker a stage, three items whose first Send fails, and a cancellation while the
  // transport waits to retry the first of them.
  lemma {:induction false} StopCanHang(maxRetry: nat)
    requires maxRetry >= 1
    ensures exists s, actions, s' ::
              && Starting(s) && Reaches(s, actions, s', maxRetry)
              && Shape(s') && !Open(s', 0) && !CanFinish(s', maxRetry)
  {
    var s := Walking(4, 0);
    WalkingFormed(4, 0);
    assert s.fed == multiset{};
    var late := LateRun(maxRetry);
    var s' := Next(Left(), CloseRaw, maxRetry);
    var actions := HangRun(s', late, maxRetry);
    Hangs(s, actions, s', maxRetry);
  }

  lemma {:induction false} Hangs(s: State, actions: seq<Action>, s': State, maxRetry: nat)
    requires Starting(s) && Reaches(s, actions, s', maxRetry) && Enabled(Left(), CloseRaw)
    requires s' == Next(Left(), CloseRaw, maxRetry)
    ensures Shape(s') && !Open(s', 0) && !CanFinish(s', maxRetry)
  {
    StartInv(s, maxRetry);
    ReachInv(s, actions, s', maxRetry);
    TwoExpected(maxRetry);
    EarlyExitHangsUnlessRoom(s', maxRetry);
  }
}
