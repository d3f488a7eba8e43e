/** The Kafka batching worker (internal/plugin/transport/kafka/kafka.go).
    SendMessages is a sink that receives the batch; its delivery outcome is not modelled. */
module KafkaWorker {

  type Message = seq<bv8>

  // Where the worker goroutine is: its main select, the shutdown drain, or gone.
  datatype Phase = Selecting | Draining | Exited

  datatype State = State(
    phase: Phase,
    quit: bool,
    channel: seq<Message>,
    batch: seq<Message>,
    flushes: seq<seq<Message>>,
    accepted: seq<Message>,     // every message a Send has put into the channel
    late: seq<Message>)         // those put there after the worker had gone

  datatype Event =
    | Send(msg: Message)        // some caller's channel send succeeds
    | Close                     // quit is closed
    | Receive                   // the select takes a message
    | Tick                      // the select takes the ticker
    | SeeQuit                   // the select takes quit
    | DrainOne                  // the drain loop takes a message
    | DrainEnd                  // the drain loop finds the channel empty

  const INITIAL := State(Selecting, false, [], [], [], [], [])

  predicate Enabled(s: State, e: Event, capacity: nat) {
    match e
    case Send(_) => |s.channel| < capacity
    case Close => !s.quit
    case Receive => s.phase == Selecting && s.channel != []
    case Tick => s.phase == Selecting
    case SeeQuit => s.phase == Selecting && s.quit
    case DrainOne => s.phase == Draining && s.channel != []
    case DrainEnd => s.phase == Draining && s.channel == []
  }

  function Flushed(s: State): State {
    if s.batch == [] then s else s.(batch := [], flushes := s.flushes + [s.batch])
  }

  function Next(s: State, e: Event, capacity: nat, maxEvents: nat): State
    requires Enabled(s, e, capacity)
  {
    match e
    case Send(msg) =>
      s.(channel := s.channel + [msg], accepted := s.accepted + [msg],
         late := if s.phase == Exited then s.late + [msg] else s.late)
    case Close => s.(quit := true)
    case Receive =>
      var s' := s.(channel := s.channel[1..], batch := s.batch + [s.channel[0]]);
      if |s'.batch| >= maxEvents then Flushed(s') else s'
    case Tick => Flushed(s)
    case SeeQuit => s.(phase := Draining)
    case DrainOne => s.(channel := s.channel[1..], batch := s.batch + [s.channel[0]])
    case DrainEnd => Flushed(s).(phase := Exited)
  }

  // Disabled events do not happen.
  function Run(s: State, events: seq<Event>, capacity: nat, maxEvents: nat): State
    decreases |events|
  {
    if events == [] then s
    else Run(if Enabled(s, events[0], capacity) then Next(s, events[0], capacity, maxEvents) else s,
             events[1..], capacity, maxEvents)
  }

  // ---------- The worker over its reused batch slice ----------

  class Worker {
    const capacity: nat
    const maxEvents: nat
    var backing: array<Message> // the batch's backing array, reused after every flush
    var len: nat
    var channel: seq<Message>
    var quit: bool
    var phase: Phase
    var flushes: seq<seq<Message>>
    ghost var accepted: seq<Message>
    ghost var late: seq<Message>

    ghost predicate Valid()
      reads this
    {
      maxEvents > 0 && len <= backing.Length
    }

    ghost function View(): State
      requires Valid()
      reads this, backing
    {
      State(phase, quit, channel, backing[..len], flushes, accepted, late)
    }

    constructor (capacity: nat, maxEvents: nat)
      requires maxEvents > 0
      ensures Valid() && View() == INITIAL && fresh(backing)
      ensures this.capacity == capacity && this.maxEvents == maxEvents
    {
      this.capacity, this.maxEvents := capacity, maxEvents;
      backing := new Message[maxEvents](_ => []);
      len, channel, quit, phase, flushes := 0, [], false, Selecting, [];
      accepted, late := [], [];
    }

    // Go's append: in place while the backing array has room, else into a larger copy.
    method Append(msg: Message)
      requires Valid()
      modifies this`backing, this`len, backing
      ensures Valid() && (backing == old(backing) || fresh(backing))
      ensures backing[..len] == old(backing[..len]) + [msg]
    {
      if len == backing.Length {
        var larger := new Message[2 * len + 1](_ => []);
        var from, n := backing, len;
        for i := 0 to n
          invariant larger[..i] == from[..i]
          modifies larger
        {
          larger[i] := from[i];
        }
        backing := larger;
      }
      backing[len] := msg;
      len := len + 1;
    }

    method Flush()
      requires Valid()
      modifies this`flushes, this`len
      ensures Valid() && View() == Flushed(old(View()))
    {
      if len > 0 {
        flushes := flushes + [backing[..len]];
        len := 0;
      }
    }

    method Take()
      requires Valid() && channel != []
      modifies this`channel, this`backing, this`len, backing
      ensures Valid() && (backing == old(backing) || fresh(backing))
      ensures View() == old(View()).(channel := old(channel)[1..], batch := old(backing[..len]) + [old(channel)[0]])
    {
      var msg := channel[0];
      channel := channel[1..];
      Append(msg);
    }

    // One scheduling choice; the whole effect is the model's step.
    method Do(e: Event)
      requires Valid() && Enabled(View(), e, capacity)
      modifies this, backing
      ensures Valid() && (backing == old(backing) || fresh(backing))
      ensures View() == Next(old(View()), e, capacity, maxEvents)
    {
      match e {
        case Send(msg) =>
          channel := channel + [msg];
          accepted := accepted + [msg];
          if phase == Exited {
            late := late + [msg];
          }
        case Close =>
          quit := true;
        case Receive =>
          Take();
          if len >= maxEvents {
            Flush();
          }
        case Tick =>
          Flush();
        case SeeQuit =>
          phase := Draining;
        case DrainOne =>
          Take();
        case DrainEnd =>
          Flush();
          phase := Exited;
      }
    }

    method Play(events: seq<Event>)
      requires Valid()
      modifies this, backing
      ensures Valid() && View() == Run(old(View()), events, capacity, maxEvents)
    {
      ghost var start := View();
      var i := 0;
      while i < |events|
        invariant 0 <= i <= |events|
        invariant Valid() && (backing == old(backing) || fresh(backing))
        invariant Run(View(), events[i..], capacity, maxEvents) == Run(start, events, capacity, maxEvents)
      {
        assert events[i..][0] == events[i] && events[i..][1..] == events[i + 1..];
        var e := events[i];
        var enabled := match e
          case Send(_) => |channel| < capacity
          case Close => !quit
          case Receive => phase == Selecting && channel != []
          case Tick => phase == Selecting
          case SeeQuit => phase == Selecting && quit
          case DrainOne => phase == Draining && channel != []
          case DrainEnd => phase == Draining && channel == [];
        if enabled {
          Do(e);
        }
        i := i + 1;
      }
    }
  }

  // ---------- Conservation ----------

  function Flatten(parts: seq<seq<Message>>): seq<Message> {
    if parts == [] then [] else Flatten(parts[..|parts| - 1]) + parts[|parts| - 1]
  }

  // Nothing is lost, repeated or reordered; before shutdown every flush has 1..maxEvents messages.
  ghost predicate Inv(s: State, maxEvents: nat) {
    InOrder(s) && Sized(s, maxEvents)
  }

  ghost predicate InOrder(s: State) {
    Flatten(s.flushes) + s.batch + s.channel == s.accepted
  }

  ghost predicate Sized(s: State, maxEvents: nat) {
    && (s.phase == Selecting ==> |s.batch| < maxEvents)
    && (forall i :: 0 <= i < |s.flushes| ==> s.flushes[i] != [])
    && (forall i :: 0 <= i < |s.flushes| && (s.phase != Exited || i < |s.flushes| - 1) ==> |s.flushes[i]| <= maxEvents)
    && (s.phase == Exited ==> s.batch == [] && s.channel == s.late)
    && (s.phase != Exited ==> s.late == [])
    && (s.phase != Selecting ==> s.quit)
  }

  lemma {:induction false} FlushKeeps(s: State)
    ensures Flatten(Flushed(s).flushes) + Flushed(s).batch == Flatten(s.flushes) + s.batch
  {
    if s.batch != [] {
      assert (s.flushes + [s.batch])[..|s.flushes|] == s.flushes;
    }
  }

  lemma {:induction false} TakeKeeps(a: seq<Message>, b: seq<Message>, c: seq<Message>)
    requires c != []
    ensures a + b + c == a + (b + [c[0]]) + c[1..]
  {
  }

  lemma {:induction false} Snoc(a: seq<Message>, b: seq<Message>, c: seq<Message>, msg: Message)
    ensures a + b + (c + [msg]) == a + b + c + [msg]
  {
  }

  // A message moves from the channel to the batch.
  lemma {:induction false} TakeOrder(s: State)
    requires InOrder(s) && s.channel != []
    ensures InOrder(s.(channel := s.channel[1..], batch := s.batch + [s.channel[0]]))
  {
    TakeKeeps(Flatten(s.flushes), s.batch, s.channel);
  }

  lemma {:induction false} FlushOrder(s: State)
    requires InOrder(s)
    ensures InOrder(Flushed(s))
  {
    FlushKeeps(s);
  }

  lemma {:induction false} OrderStep(s: State, e: Event, capacity: nat, maxEvents: nat)
    requires InOrder(s) && Enabled(s, e, capacity)
    ensures InOrder(Next(s, e, capacity, maxEvents))
  {
    match e {
      case Send(msg) => Snoc(Flatten(s.flushes), s.batch, s.channel, msg);
      case Receive =>
        TakeOrder(s);
        FlushOrder(s.(channel := s.channel[1..], batch := s.batch + [s.channel[0]]));
      case Tick => FlushOrder(s);
      case DrainOne => TakeOrder(s);
      case DrainEnd => FlushOrder(s);
      case _ =>
    }
  }

  lemma {:induction false} SizeStep(s: State, e: Event, capacity: nat, maxEvents: nat)
    requires maxEvents > 0 && Sized(s, maxEvents) && Enabled(s, e, capacity)
    ensures Sized(Next(s, e, capacity, maxEvents), maxEvents)
  {
  }

  lemma {:induction false} StepKeeps(s: State, e: Event, capacity: nat, maxEvents: nat)
    requires maxEvents > 0 && Inv(s, maxEvents) && Enabled(s, e, capacity)
    ensures Inv(Next(s, e, capacity, maxEvents), maxEvents)
  {
    OrderStep(s, e, capacity, maxEvents);
    SizeStep(s, e, capacity, maxEvents);
  }

  lemma {:induction false} RunKeeps(s: State, events: seq<Event>, capacity: nat, maxEvents: nat)
    requires maxEvents > 0 && Inv(s, maxEvents)
    ensures Inv(Run(s, events, capacity, maxEvents), maxEvents)
    decreases |events|
  {
    if events != [] {
      if Enabled(s, events[0], capacity) {
        StepKeeps(s, events[0], capacity, maxEvents);
        RunKeeps(Next(s, events[0], capacity, maxEvents), events[1..], capacity, maxEvents);
      } else {
        RunKeeps(s, events[1..], capacity, maxEvents);
      }
    }
  }

  // At every moment of every run.
  lemma {:induction false} Conservation(events: seq<Event>, capacity: nat, maxEvents: nat)
    requires maxEvents > 0
    ensures var s := Run(INITIAL, events, capacity, maxEvents);
            && Flatten(s.flushes) + s.batch + s.channel == s.accepted
            && (s.phase != Exited ==> forall i :: 0 <= i < |s.flushes| ==> 1 <= |s.flushes[i]| <= maxEvents)
            && (s.phase == Exited ==> (Flatten(s.flushes) == s.accepted <==> s.late == []))
  {
    RunKeeps(INITIAL, events, capacity, maxEvents);
  }

  // When every Send has returned before Close, nothing is late.
  lemma {:induction false} CloseAfterSends(s: State, events: seq<Event>, capacity: nat, maxEvents: nat)
    requires maxEvents > 0 && Inv(s, maxEvents) && s.late == []
    requires !s.quit ==> forall i, j :: 0 <= i < j < |events| && events[i].Close? ==> !events[j].Send?
    requires s.quit ==> forall j :: 0 <= j < |events| ==> !events[j].Send?
    ensures Run(s, events, capacity, maxEvents).late == []
    decreases |events|
  {
    if events != [] {
      var rest := events[1..];
      assert forall i :: 0 <= i < |rest| ==> rest[i] == events[i + 1];
      if Enabled(s, events[0], capacity) {
        StepKeeps(s, events[0], capacity, maxEvents);
        CloseAfterSends(Next(s, events[0], capacity, maxEvents), rest, capacity, maxEvents);
      } else {
        CloseAfterSends(s, rest, capacity, maxEvents);
      }
    }
  }

  // The main result: then, once the worker has exited, all accepted messages have been flushed,
  // exactly once and in order.
  lemma {:induction false} EverythingFlushed(events: seq<Event>, capacity: nat, maxEvents: nat)
    requires maxEvents > 0
    requires forall i, j :: 0 <= i < j < |events| && events[i].Close? ==> !events[j].Send?
    requires Run(INITIAL, events, capacity, maxEvents).phase == Exited
    ensures var s := Run(INITIAL, events, capacity, maxEvents);
            Flatten(s.flushes) == s.accepted && s.channel == [] && s.batch == []
  {
    RunKeeps(INITIAL, events, capacity, maxEvents);
    CloseAfterSends(INITIAL, events, capacity, maxEvents);
  }

  // After Close the worker always has a step until it exits, so Close does not hang, and
  // without further Sends every such step after SeeQuit shrinks the channel or exits.
  lemma {:induction false} ShutdownProgress(s: State, capacity: nat, maxEvents: nat)
    requires s.quit && s.phase != Exited
    ensures exists e :: Enabled(s, e, capacity) && (e.SeeQuit? || e.DrainOne? || e.DrainEnd?)
    ensures forall e | Enabled(s, e, capacity) && (e.DrainOne? || e.DrainEnd?) ::
              var s' := Next(s, e, capacity, maxEvents);
              s'.phase == Exited || |s'.channel| < |s.channel|
  {
    assert Enabled(s, SeeQuit, capacity) || Enabled(s, DrainOne, capacity) || Enabled(s, DrainEnd, capacity);
  }

  // ---------- When batches go out ----------

  // After every tick that the worker takes, all it has received has been flushed.
  lemma {:induction false} TickFlushesAll(events: seq<Event>, capacity: nat, maxEvents: nat)
    requires maxEvents > 0 && Enabled(Run(INITIAL, events, capacity, maxEvents), Tick, capacity)
    ensures var s' := Next(Run(INITIAL, events, capacity, maxEvents), Tick, capacity, maxEvents);
            s'.batch == [] && Flatten(s'.flushes) + s'.channel == s'.accepted
  {
    RunKeeps(INITIAL, events, capacity, maxEvents);
    var s := Run(INITIAL, events, capacity, maxEvents);
    StepKeeps(s, Tick, capacity, maxEvents);
    assert Flatten(Next(s, Tick, capacity, maxEvents).flushes) + [] == Flatten(Next(s, Tick, capacity, maxEvents).flushes);
  }

  // Every flush so far is a full batch, and the batch under way is not.
  ghost predicate Full(s: State, maxEvents: nat) {
    && (forall i :: 0 <= i < |s.flushes| && (s.phase != Exited || i < |s.flushes| - 1) ==> |s.flushes[i]| == maxEvents)
    && (s.phase == Selecting ==> |s.batch| < maxEvents)
  }

  lemma {:induction false} FullStep(s: State, e: Event, capacity: nat, maxEvents: nat)
    requires maxEvents > 0 && Full(s, maxEvents) && Enabled(s, e, capacity) && !e.Tick?
    ensures Full(Next(s, e, capacity, maxEvents), maxEvents)
  {
  }

  lemma {:induction false} FullRun(s: State, events: seq<Event>, capacity: nat, maxEvents: nat)
    requires maxEvents > 0 && Full(s, maxEvents) && Tick !in events
    ensures Full(Run(s, events, capacity, maxEvents), maxEvents)
    decreases |events|
  {
    if events != [] {
      if Enabled(s, events[0], capacity) {
        FullStep(s, events[0], capacity, maxEvents);
      }
      FullRun(if Enabled(s, events[0], capacity) then Next(s, events[0], capacity, maxEvents) else s,
              events[1..], capacity, maxEvents);
    }
  }

  // Only ticks and the exit send less than a full batch, and nothing waits for more than one.
  lemma {:induction false} FullBatches(events: seq<Event>, capacity: nat, maxEvents: nat)
    requires maxEvents > 0 && Tick !in events
    ensures var s := Run(INITIAL, events, capacity, maxEvents);
            && (forall i :: 0 <= i < |s.flushes| && (s.phase != Exited || i < |s.flushes| - 1) ==> |s.flushes[i]| == maxEvents)
            && (s.phase == Selecting ==> |s.batch| < maxEvents)
  {
    FullRun(INITIAL, events, capacity, maxEvents);
  }

  lemma {:induction false} ChannelBounded(s: State, events: seq<Event>, capacity: nat, maxEvents: nat)
    requires |s.channel| <= capacity
    ensures |Run(s, events, capacity, maxEvents).channel| <= capacity
    decreases |events|
  {
    if events != [] {
      ChannelBounded(if Enabled(s, events[0], capacity) then Next(s, events[0], capacity, maxEvents) else s,
                     events[1..], capacity, maxEvents);
    }
  }

  function Drain(n: nat): seq<Event> {
    if n == 0 then [DrainEnd] else [DrainOne] + Drain(n - 1)
  }

  lemma {:induction false} DrainRun(s: State, capacity: nat, maxEvents: nat)
    requires s.phase == Draining
    ensures var s' := Run(s, Drain(|s.channel|), capacity, maxEvents);
            && s'.phase == Exited && s'.channel == [] && s'.batch == [] && s'.accepted == s.accepted
            && Flatten(s'.flushes) == Flatten(s.flushes) + s.batch + s.channel
            && s.flushes <= s'.flushes && |s'.flushes| <= |s.flushes| + 1
    decreases |s.channel|
  {
    if s.channel == [] {
      assert [DrainEnd][1..] == [];
      FlushKeeps(s);
    } else {
      var s1 := Next(s, DrainOne, capacity, maxEvents);
      assert ([DrainOne] + Drain(|s.channel| - 1))[1..] == Drain(|s.channel| - 1);
      DrainRun(s1, capacity, maxEvents);
      TakeKeeps(Flatten(s.flushes), s.batch, s.channel);
    }
  }

  // Once Close has been called the worker can see it, empty the channel and exit, with one more
  // flush at most and all that was accepted flushed in order.
  lemma {:induction false} CloseReturns(events: seq<Event>, capacity: nat, maxEvents: nat)
    requires maxEvents > 0
    requires Run(INITIAL, events, capacity, maxEvents).quit
    requires Run(INITIAL, events, capacity, maxEvents).phase == Selecting
    ensures var s := Run(INITIAL, events, capacity, maxEvents);
            var s' := Run(s, [SeeQuit] + Drain(|s.channel|), capacity, maxEvents);
            && s'.phase == Exited && Flatten(s'.flushes) == s.accepted == s'.accepted
            && s.flushes <= s'.flushes && |s'.flushes| <= |s.flushes| + 1
  {
    var s := Run(INITIAL, events, capacity, maxEvents);
    RunKeeps(INITIAL, events, capacity, maxEvents);
    assert ([SeeQuit] + Drain(|s.channel|))[1..] == Drain(|s.channel|);
    DrainRun(Next(s, SeeQuit, capacity, maxEvents), capacity, maxEvents);
  }

  function Sends(msgs: seq<Message>): seq<Event> {
    if msgs == [] then [] else [Send(msgs[0])] + Sends(msgs[1..])
  }

  // Messages are taken in, in order, as long as the channel has room, whatever the worker is doing.
  lemma {:induction false} SendsAccepted(s: State, msgs: seq<Message>, capacity: nat, maxEvents: nat)
    requires |s.channel| + |msgs| <= capacity
    ensures var s' := Run(s, Sends(msgs), capacity, maxEvents);
            s'.channel == s.channel + msgs && s'.accepted == s.accepted + msgs && s'.batch == s.batch && s'.flushes == s.flushes
    decreases |msgs|
  {
    if msgs != [] {
      var s1 := Next(s, Send(msgs[0]), capacity, maxEvents);
      assert ([Send(msgs[0])] + Sends(msgs[1..]))[1..] == Sends(msgs[1..]);
      SendsAccepted(s1, msgs[1..], capacity, maxEvents);
      assert s.channel + [msgs[0]] + msgs[1..] == s.channel + msgs;
      assert s.accepted + [msgs[0]] + msgs[1..] == s.accepted + msgs;
    }
  }
}
