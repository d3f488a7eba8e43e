/** The per-device session pool (internal/poller/pool.go) under SNMPPoller.Poll (internal/poller/poller.go).
    A state machine over the atomic steps of any number of concurrent polls; Dial and the SNMP
    operation itself are arbitrary outcomes. */
module ConnectionPool {
  import opened Common

  type Host = string
  type Session = int   // sessions are numbered as they are dialled
  type PollId = nat

  datatype Idle = Idle(session: Session, returnedAt: int)

  datatype DevicePool = DevicePool(capacity: nat, tokens: nat, idle: seq<Idle>)

  // How far one Poll has come.
  datatype Stage =
    | Entered(host: Host)                    // Get called, device pool exists
    | Waiting(host: Host)                    // past the closed check, at the semaphore
    | Admitted(host: Host)                   // token taken, before popIdle
    | Dialling(host: Host)                   // nothing idle
    | Using(host: Host, session: Session)    // Get has returned
    | Leaving(host: Host)                    // Put or Discard has disposed of the session
    | Finished

  datatype State = State(
    closed: bool,
    pools: map<Host, DevicePool>,
    polls: map<PollId, Stage>,
    dialled: nat,                            // all sessions ever dialled are below this
    shut: set<Session>)                      // sessions whose connection has been closed

  datatype Options = Options(maxIdle: nat, idleTimeout: int)

  const INITIAL := State(false, map[], map[], 0, {})

  function Capacity(maxConcurrent: int): (c: nat)
    ensures c >= 1
  {
    if maxConcurrent <= 0 then 4 else maxConcurrent
  }

  datatype Action =
    | Enter(id: PollId, host: Host, maxConcurrent: int) // getOrCreatePool
    | PassGate(id: PollId)                    // the closed check, and leaving if closed
    | Acquire(id: PollId)
    | GiveUp(id: PollId)                      // the context is done, or the pool closed, while waiting
    | Pop(id: PollId, now: int)
    | DialOk(id: PollId)
    | DialFail(id: PollId)
    | Put(id: PollId, now: int)
    | Discard(id: PollId)
    | Release(id: PollId)
    | Close
    | Drain(host: Host)                       // Close emptying one device's idle list

  predicate At(s: State, id: PollId) {
    id in s.polls && s.polls[id] != Finished && s.polls[id].host in s.pools
  }

  predicate Enabled(s: State, a: Action) {
    match a
    case Enter(id, _, _) => id !in s.polls
    case PassGate(id) => At(s, id) && s.polls[id].Entered?
    case Acquire(id) => At(s, id) && s.polls[id].Waiting?
                        && s.pools[s.polls[id].host].tokens < s.pools[s.polls[id].host].capacity
    case GiveUp(id) => At(s, id) && s.polls[id].Waiting?
    case Pop(id, _) => At(s, id) && s.polls[id].Admitted?
    case DialOk(id) => At(s, id) && s.polls[id].Dialling?
    case DialFail(id) => At(s, id) && s.polls[id].Dialling? && s.pools[s.polls[id].host].tokens > 0
    case Put(id, _) => At(s, id) && s.polls[id].Using?
    case Discard(id) => At(s, id) && s.polls[id].Using?
    case Release(id) => At(s, id) && s.polls[id].Leaving? && s.pools[s.polls[id].host].tokens > 0
    case Close => !s.closed
    case Drain(host) => s.closed && host in s.pools
  }

  // ---------- popIdle: newest first, closing what has expired ----------

  predicate Expired(e: Idle, now: int, o: Options) {
    o.idleTimeout > 0 && now - e.returnedAt > o.idleTimeout
  }

  datatype Popped = Popped(session: Option<Session>, idle: seq<Idle>, closed: set<Session>)

  function PopIdle(idle: seq<Idle>, now: int, o: Options): (r: Popped)
    ensures |r.idle| <= |idle| && r.idle <= idle
  {
    if idle == [] then Popped(None, [], {})
    else
      var last, rest := idle[|idle| - 1], idle[..|idle| - 1];
      if Expired(last, now, o)
      then var r := PopIdle(rest, now, o); r.(closed := r.closed + {last.session})
      else Popped(Some(last.session), rest, {})
  }

  // The loop of the original over the idle slice.
  method PopIdleLoop(idle: seq<Idle>, now: int, o: Options) returns (r: Popped)
    ensures r == PopIdle(idle, now, o)
  {
    var rest, closed := idle, {};
    while |rest| > 0
      invariant PopIdle(idle, now, o) == PopIdle(rest, now, o).(closed := PopIdle(rest, now, o).closed + closed)
      decreases |rest|
    {
      var n := |rest| - 1;
      var entry := rest[n];
      rest := rest[..n];
      if Expired(entry, now, o) {
        closed := closed + {entry.session};
        continue;
      }
      return Popped(Some(entry.session), rest, closed);
    }
    return Popped(None, [], closed);
  }

  // Exactly what popIdle hands out: the newest session that has not been idle for longer than the
  // timeout (none expires without one), closing all newer ones.
  lemma {:induction false} PopIdleMeaning(idle: seq<Idle>, now: int, o: Options)
    ensures var r := PopIdle(idle, now, o);
            && (forall i :: |r.idle| + (if r.session.Some? then 1 else 0) <= i < |idle| ==>
                  o.idleTimeout > 0 && now - idle[i].returnedAt > o.idleTimeout && idle[i].session in r.closed)
            && (forall c <- r.closed :: exists i :: |r.idle| <= i < |idle| && idle[i].session == c && Expired(idle[i], now, o))
            && (r.session.Some? ==> |r.idle| < |idle| && r.session.value == idle[|r.idle|].session
                                    && (o.idleTimeout <= 0 || now - idle[|r.idle|].returnedAt <= o.idleTimeout))
            && (r.session.None? ==> r.idle == [])
  {
    if idle != [] {
      PopIdleMeaning(idle[..|idle| - 1], now, o);
    }
  }

  // ---------- Steps ----------

  function Move(s: State, id: PollId, stage: Stage): State {
    s.(polls := s.polls[id := stage])
  }

  function WithPool(s: State, host: Host, dp: DevicePool): State {
    s.(pools := s.pools[host := dp])
  }

  function Sessions(idle: seq<Idle>): set<Session> {
    set e | e in idle :: e.session
  }

  function Next(s: State, a: Action, o: Options): State
    requires Enabled(s, a)
  {
    match a
    case Enter(id, host, maxConcurrent) =>
      var s' := Move(s, id, Entered(host));
      if host in s.pools then s' else WithPool(s', host, DevicePool(Capacity(maxConcurrent), 0, []))
    case PassGate(id) => Move(s, id, if s.closed then Finished else Waiting(s.polls[id].host))
    case Acquire(id) =>
      var host := s.polls[id].host;
      var dp := s.pools[host];
      WithPool(Move(s, id, Admitted(host)), host, dp.(tokens := dp.tokens + 1))
    case GiveUp(id) => Move(s, id, Finished)
    case Pop(id, now) =>
      var host := s.polls[id].host;
      var dp := s.pools[host];
      var r := PopIdle(dp.idle, now, o);
      var stage := match r.session case Some(c) => Using(host, c) case None => Dialling(host);
      WithPool(Move(s, id, stage), host, dp.(idle := r.idle)).(shut := s.shut + r.closed)
    case DialOk(id) => Move(s, id, Using(s.polls[id].host, s.dialled)).(dialled := s.dialled + 1)
    case DialFail(id) =>
      var host := s.polls[id].host;
      var dp := s.pools[host];
      WithPool(Move(s, id, Finished), host, dp.(tokens := dp.tokens - 1))
    case Put(id, now) =>
      var host, c := s.polls[id].host, s.polls[id].session;
      var dp := s.pools[host];
      if |dp.idle| >= o.maxIdle then Move(s, id, Leaving(host)).(shut := s.shut + {c})
      else WithPool(Move(s, id, Leaving(host)), host, dp.(idle := dp.idle + [Idle(c, now)]))
    case Discard(id) =>
      Move(s, id, Leaving(s.polls[id].host)).(shut := s.shut + {s.polls[id].session})
    case Release(id) =>
      var host := s.polls[id].host;
      var dp := s.pools[host];
      WithPool(Move(s, id, Finished), host, dp.(tokens := dp.tokens - 1))
    case Close => s.(closed := true)
    case Drain(host) =>
      WithPool(s, host, s.pools[host].(idle := [])).(shut := s.shut + Sessions(s.pools[host].idle))
  }

  function Run(s: State, actions: seq<Action>, o: Options): State
    decreases |actions|
  {
    if actions == [] then s
    else Run(if Enabled(s, actions[0]) then Next(s, actions[0], o) else s, actions[1..], o)
  }

  lemma {:induction false} RunSnoc(s: State, before: seq<Action>, a: Action, o: Options)
    ensures var t := Run(s, before, o);
            Run(s, before + [a], o) == if Enabled(t, a) then Next(t, a, o) else t
    decreases |before|
  {
    if before == [] {
      assert [] + [a] == [a] && [a][1..] == [];
    } else {
      assert (before + [a])[1..] == before[1..] + [a];
      RunSnoc(if Enabled(s, before[0]) then Next(s, before[0], o) else s, before[1..], a, o);
    }
  }

  function Drains(hosts: seq<Host>): (r: seq<Action>)
    ensures |r| == |hosts|
  {
    if hosts == [] then [] else Drains(hosts[..|hosts| - 1]) + [Action.Drain(hosts[|hosts| - 1])]
  }

  lemma {:induction false} DrainsMore(order: seq<Host>, h: Host)
    ensures [Action.Close] + Drains(order + [h]) == [Action.Close] + Drains(order) + [Action.Drain(h)]
  {
    assert (order + [h])[..|order|] == order;
  }

  // ---------- The pool's own code, driven by its callers ----------

  class ConnectionPool {
    const options: Options
    var closed: bool
    var pools: map<Host, DevicePool>
    var shut: set<Session>
    var dialled: nat
    var polls: map<PollId, Stage> // the callers

    function View(): State
      reads this
    {
      State(closed, pools, polls, dialled, shut)
    }

    constructor (options: Options)
      ensures View() == INITIAL && this.options == options
    {
      this.options := options;
      closed, pools, shut, dialled, polls := false, map[], {}, 0, map[];
    }

    method GetOrCreatePool(hostname: Host, maxConcurrent: int)
      modifies this`pools
      ensures pools == if hostname in old(pools) then old(pools)
                       else old(pools)[hostname := DevicePool(Capacity(maxConcurrent), 0, [])]
    {
      if hostname in pools {
        return;
      }
      var max := if maxConcurrent <= 0 then 4 else maxConcurrent;
      pools := pools[hostname := DevicePool(max, 0, [])];
    }

    method PopIdleSession(hostname: Host, now: int) returns (conn: Option<Session>)
      requires hostname in pools
      modifies this`pools, this`shut
      ensures var r := PopIdle(old(pools)[hostname].idle, now, options);
              && conn == r.session && shut == old(shut) + r.closed
              && pools == old(pools)[hostname := old(pools)[hostname].(idle := r.idle)]
    {
      var dp := pools[hostname];
      var r := PopIdleLoop(dp.idle, now, options);
      pools := pools[hostname := dp.(idle := r.idle)];
      shut := shut + r.closed;
      return r.session;
    }

    method PutSession(hostname: Host, conn: Session, now: int)
      requires hostname in pools
      modifies this`pools, this`shut
      ensures var idle := old(pools)[hostname].idle;
              if |idle| < options.maxIdle
              then shut == old(shut)
                   && pools == old(pools)[hostname := old(pools)[hostname].(idle := idle + [Idle(conn, now)])]
              else shut == old(shut) + {conn} && pools == old(pools)
    {
      var dp := pools[hostname];
      if |dp.idle| >= options.maxIdle {
        shut := shut + {conn};
        return;
      }
      pools := pools[hostname := dp.(idle := dp.idle + [Idle(conn, now)])];
    }

    method SetTokens(hostname: Host, tokens: nat)
      requires hostname in pools
      modifies this`pools
      ensures pools == old(pools)[hostname := old(pools)[hostname].(tokens := tokens)]
    {
      pools := pools[hostname := pools[hostname].(tokens := tokens)];
    }

    // One atomic section of Get, Put, Discard or Close, on behalf of one caller.
    method Do(a: Action)
      requires Enabled(View(), a)
      modifies this
      ensures View() == Next(old(View()), a, options)
    {
      match a {
        case Enter(id, host, maxConcurrent) =>
          GetOrCreatePool(host, maxConcurrent);
          polls := polls[id := Entered(host)];
        case PassGate(id) =>
          polls := polls[id := if closed then Finished else Waiting(polls[id].host)];
        case Acquire(id) =>
          var host := polls[id].host;
          SetTokens(host, pools[host].tokens + 1);
          polls := polls[id := Admitted(host)];
        case GiveUp(id) =>
          polls := polls[id := Finished];
        case Pop(id, now) =>
          var host := polls[id].host;
          var conn := PopIdleSession(host, now);
          polls := polls[id := match conn case Some(c) => Using(host, c) case None => Dialling(host)];
        case DialOk(id) =>
          polls := polls[id := Using(polls[id].host, dialled)];
          dialled := dialled + 1;
        case DialFail(id) =>
          var host := polls[id].host;
          SetTokens(host, pools[host].tokens - 1);
          polls := polls[id := Finished];
        case Put(id, now) =>
          var host, conn := polls[id].host, polls[id].session;
          PutSession(host, conn, now);
          polls := polls[id := Leaving(host)];
        case Discard(id) =>
          shut := shut + {polls[id].session};
          polls := polls[id := Leaving(polls[id].host)];
        case Release(id) =>
          var host := polls[id].host;
          SetTokens(host, pools[host].tokens - 1);
          polls := polls[id := Finished];
        case Close =>
          closed := true;
        case Drain(host) =>
          var dp := pools[host];
          shut := shut + (set e | e in dp.idle :: e.session);
          pools := pools[host := dp.(idle := [])];
      }
    }

    // Any schedule of the callers: the pool's code goes through the states of the machine.
    method Play(actions: seq<Action>)
      modifies this
      ensures View() == Run(old(View()), actions, options)
    {
      var i := 0;
      while i < |actions|
        invariant 0 <= i <= |actions|
        invariant Run(View(), actions[i..], options) == Run(old(View()), actions, options)
      {
        assert actions[i..][0] == actions[i] && actions[i..][1..] == actions[i + 1..];
        if Enabled(View(), actions[i]) {
          Do(actions[i]);
        }
        i := i + 1;
      }
    }

    // Close, undisturbed: a second call does nothing; the first is the machine's Close followed by
    // draining every device once, in whatever order the map is visited, and leaves nothing idle.
    method CloseAll() returns (ghost order: seq<Host>)
      modifies this
      ensures old(closed) ==> View() == old(View())
      ensures !old(closed) ==>
                && View() == Run(old(View()), [Action.Close] + Drains(order), options)
                && (forall h :: h in order <==> h in old(pools)) && |order| == |old(pools)|
      ensures !old(closed) ==> closed && pools.Keys == old(pools).Keys && forall h <- pools :: pools[h].idle == []
    {
      order := [];
      if closed {
        return;
      }
      ghost var start := View();
      Do(Action.Close);
      assert [Action.Close] + Drains([]) == [] + [Action.Close];
      RunSnoc(start, [], Action.Close, options);
      var todo := pools.Keys;
      while todo != {}
        invariant closed && todo <= pools.Keys == old(pools).Keys
        invariant View() == Run(start, [Action.Close] + Drains(order), options)
        invariant forall h :: h in order <==> h in old(pools) && h !in todo
        invariant |order| + |todo| == |old(pools)|
        invariant forall h <- pools :: h !in todo ==> pools[h].idle == []
        decreases todo
      {
        var h :| h in todo;
        todo := todo - {h};
        RunSnoc(start, [Action.Close] + Drains(order), Action.Drain(h), options);
        Do(Action.Drain(h));
        DrainsMore(order, h);
        order := order + [h];
      }
    }
  }

  // ---------- The invariant ----------

  predicate Holds(stage: Stage, host: Host) {
    (stage.Admitted? || stage.Dialling? || stage.Using? || stage.Leaving?) && stage.host == host
  }

  function Holders(polls: map<PollId, Stage>, host: Host): set<PollId> {
    set id | id in polls && Holds(polls[id], host)
  }

  ghost predicate Counted(s: State, h: Host)
    requires h in s.pools
  {
    && s.pools[h].tokens == |Holders(s.polls, h)|
    && 1 <= s.pools[h].capacity && s.pools[h].tokens <= s.pools[h].capacity
  }

  ghost predicate TokensInv(s: State, o: Options) {
    && (forall h <- s.pools :: Counted(s, h) && |s.pools[h].idle| <= o.maxIdle)
    && (forall id <- s.polls :: Housed(s, id))
  }

  predicate Housed(s: State, id: PollId)
    requires id in s.polls
  {
    s.polls[id] != Finished ==> s.polls[id].host in s.pools
  }

  lemma {:induction false} HoldersMove(polls: map<PollId, Stage>, id: PollId, stage: Stage, host: Host)
    ensures |Holders(polls[id := stage], host)|
         == |Holders(polls, host)|
            - (if id in polls && Holds(polls[id], host) then 1 else 0)
            + (if Holds(stage, host) then 1 else 0)
  {
    var before, after := Holders(polls, host), Holders(polls[id := stage], host);
    assert after - {id} == before - {id};
    assert id in after <==> Holds(stage, host);
    assert |after| == |after - {id}| + (if id in after then 1 else 0);
    assert |before| == |before - {id}| + (if id in before then 1 else 0);
  }

  // The steps of a poll: at most one device's tokens change, with the poll's stage.
  lemma {:induction false} CountPoll(s: State, a: Action, o: Options, h: Host)
    requires Enabled(s, a) && !a.Close? && !a.Drain? && h in s.pools && Counted(s, h)
    ensures h in Next(s, a, o).pools && Counted(Next(s, a, o), h)
  {
    var stage := Next(s, a, o).polls[a.id];
    HoldersMove(s.polls, a.id, stage, h);
    TokensMove(s, a, o, h);
  }

  lemma {:induction false} TokensMove(s: State, a: Action, o: Options, h: Host)
    requires Enabled(s, a) && !a.Close? && !a.Drain? && h in s.pools
    ensures var s' := Next(s, a, o);
            && s'.polls == s.polls[a.id := s'.polls[a.id]]
            && h in s'.pools && s'.pools[h].capacity == s.pools[h].capacity
            && s'.pools[h].tokens == s.pools[h].tokens
                 - (if a.id in s.polls && Holds(s.polls[a.id], h) then 1 else 0)
                 + (if Holds(s'.polls[a.id], h) then 1 else 0)
            && (s'.pools[h].tokens > s.pools[h].tokens ==> s.pools[h].tokens < s.pools[h].capacity)
  {
  }

  lemma {:induction false} CountNew(s: State, a: Action, o: Options, h: Host)
    requires TokensInv(s, o) && Enabled(s, a) && h !in s.pools && h in Next(s, a, o).pools
    ensures Counted(Next(s, a, o), h) && Next(s, a, o).pools[h].idle == []
  {
    var s' := Next(s, a, o);
    assert forall id <- s.polls :: Housed(s, id);
    assert Holders(s'.polls, h) == {};
  }

  lemma {:induction false} IdleStep(s: State, a: Action, o: Options, h: Host)
    requires Enabled(s, a) && h in s.pools && |s.pools[h].idle| <= o.maxIdle
    ensures h in Next(s, a, o).pools && |Next(s, a, o).pools[h].idle| <= o.maxIdle
  {
  }

  lemma {:induction false} HousedStep(s: State, a: Action, o: Options, id: PollId)
    requires Enabled(s, a) && (id in s.polls ==> Housed(s, id)) && id in Next(s, a, o).polls
    ensures Housed(Next(s, a, o), id)
  {
  }

  lemma {:induction false} TokensStep(s: State, a: Action, o: Options)
    requires TokensInv(s, o) && Enabled(s, a)
    ensures TokensInv(Next(s, a, o), o)
  {
    var s' := Next(s, a, o);
    forall h | h in s'.pools
      ensures Counted(s', h) && |s'.pools[h].idle| <= o.maxIdle
    {
      if h !in s.pools {
        CountNew(s, a, o, h);
      } else {
        IdleStep(s, a, o, h);
        if !a.Close? && !a.Drain? {
          CountPoll(s, a, o, h);
        } else {
          assert Counted(s, h);
        }
      }
    }
    forall id | id in s'.polls
      ensures Housed(s', id)
    {
      HousedStep(s, a, o, id);
    }
  }

  // ---------- Where sessions are ----------

  datatype Place = Slot(host: Host, index: int) | Hand(id: PollId)

  predicate Lies(s: State, p: Place, c: Session) {
    match p
    case Slot(h, i) => h in s.pools && 0 <= i < |s.pools[h].idle| && s.pools[h].idle[i].session == c
    case Hand(id) => id in s.polls && s.polls[id].Using? && s.polls[id].session == c
  }

  // No session is in two places, and none that is anywhere has been closed.
  ghost predicate SessionsInv(s: State) {
    && (forall p, c :: Lies(s, p, c) ==> 0 <= c < s.dialled && c !in s.shut)
    && (forall p, p', c :: Lies(s, p, c) && Lies(s, p', c) ==> p == p')
    && (forall c <- s.shut :: c < s.dialled)
  }

  // The place a session at p after the step was in before it.
  function Origin(s: State, a: Action, o: Options, p: Place): Place
    requires Enabled(s, a)
  {
    match a
    case Pop(id, now) =>
      if p == Hand(id) then Slot(s.polls[id].host, |PopIdle(s.pools[s.polls[id].host].idle, now, o).idle|) else p
    case Put(id, _) =>
      if p == Slot(s.polls[id].host, |s.pools[s.polls[id].host].idle|) then Hand(id) else p
    case _ => p
  }

  lemma {:induction false} OriginStep(s: State, a: Action, o: Options, p: Place, c: Session)
    requires Enabled(s, a) && Lies(Next(s, a, o), p, c)
    ensures Lies(s, Origin(s, a, o, p), c) || (a.DialOk? && p == Hand(a.id) && c == s.dialled)
  {
    if a.Pop? {
      PopIdleMeaning(s.pools[s.polls[a.id].host].idle, a.now, o);
    }
  }

  lemma {:induction false} OriginInjective(s: State, a: Action, o: Options, p: Place, p': Place, c: Session)
    requires Enabled(s, a) && Lies(Next(s, a, o), p, c) && Lies(Next(s, a, o), p', c)
    requires Origin(s, a, o, p) == Origin(s, a, o, p')
    ensures p == p'
  {
  }

  lemma {:induction false} Follow(s: State, a: Action, o: Options, q: Place, p: Place, c: Session)
    requires SessionsInv(s) && Enabled(s, a) && Lies(s, q, c)
    ensures Lies(Next(s, a, o), p, c) ==> Origin(s, a, o, p) == q
  {
    if Lies(Next(s, a, o), p, c) {
      OriginStep(s, a, o, p, c);
    }
  }

  // What a step closes was somewhere before, and is nowhere afterwards.
  lemma {:induction false} ShutStep(s: State, a: Action, o: Options, p: Place, c: Session)
    requires SessionsInv(s) && Enabled(s, a)
    requires c in Next(s, a, o).shut && c !in s.shut
    ensures 0 <= c < s.dialled && !Lies(Next(s, a, o), p, c)
  {
    match a {
      case Pop(id, now) =>
        var h := s.polls[id].host;
        var idle := s.pools[h].idle;
        PopIdleMeaning(idle, now, o);
        var r := PopIdle(idle, now, o);
        var i :| |r.idle| <= i < |idle| && idle[i].session == c && Expired(idle[i], now, o);
        assert Lies(s, Slot(h, i), c);
        Follow(s, a, o, Slot(h, i), p, c);
      case Put(id, _) =>
        assert Lies(s, Hand(id), c);
        Follow(s, a, o, Hand(id), p, c);
      case Discard(id) =>
        assert Lies(s, Hand(id), c);
        Follow(s, a, o, Hand(id), p, c);
      case Drain(h) =>
        var e :| e in s.pools[h].idle && e.session == c;
        var i :| 0 <= i < |s.pools[h].idle| && s.pools[h].idle[i] == e;
        assert Lies(s, Slot(h, i), c);
        Follow(s, a, o, Slot(h, i), p, c);
      case _ =>
    }
  }

  lemma {:induction false} SessionsStep(s: State, a: Action, o: Options)
    requires SessionsInv(s) && Enabled(s, a)
    ensures SessionsInv(Next(s, a, o))
  {
    var s' := Next(s, a, o);
    forall p, c | Lies(s', p, c)
      ensures 0 <= c < s'.dialled && c !in s'.shut
    {
      OriginStep(s, a, o, p, c);
      if c in s'.shut && c !in s.shut {
        ShutStep(s, a, o, p, c);
      }
    }
    forall p, p', c | Lies(s', p, c) && Lies(s', p', c)
      ensures p == p'
    {
      OriginStep(s, a, o, p, c);
      OriginStep(s, a, o, p', c);
      if Origin(s, a, o, p) == Origin(s, a, o, p') {
        OriginInjective(s, a, o, p, p', c);
      }
    }
    forall c | c in s'.shut
      ensures c < s'.dialled
    {
      if c !in s.shut {
        ShutStep(s, a, o, Hand(0), c);
      }
    }
  }

  // No session is lost: every one ever dialled is idle, in use or closed.
  ghost predicate Somewhere(s: State, c: Session) {
    exists p :: Lies(s, p, c)
  }

  ghost predicate NoneLost(s: State) {
    forall c :: 0 <= c < s.dialled && c !in s.shut ==> Somewhere(s, c)
  }

  // Where a session at p goes.
  function Destination(s: State, a: Action, o: Options, p: Place): Place
    requires Enabled(s, a)
  {
    match a
    case Pop(id, now) =>
      var host := s.polls[id].host;
      if p == Slot(host, |PopIdle(s.pools[host].idle, now, o).idle|) then Hand(id) else p
    case Put(id, _) =>
      if p == Hand(id) then Slot(s.polls[id].host, |s.pools[s.polls[id].host].idle|) else p
    case _ => p
  }

  lemma {:induction false} AllSessions(idle: seq<Idle>)
    ensures forall i :: 0 <= i < |idle| ==> idle[i].session in Sessions(idle)
  {
    assert forall i :: 0 <= i < |idle| ==> idle[i] in idle;
  }

  lemma {:induction false} PopDestination(s: State, id: PollId, now: int, o: Options, p: Place, c: Session)
    requires Enabled(s, Pop(id, now)) && Lies(s, p, c) && c !in Next(s, Pop(id, now), o).shut
    ensures Lies(Next(s, Pop(id, now), o), Destination(s, Pop(id, now), o, p), c)
  {
    PopIdleMeaning(s.pools[s.polls[id].host].idle, now, o);
  }

  lemma {:induction false} DestinationStep(s: State, a: Action, o: Options, p: Place, c: Session)
    requires Enabled(s, a) && Lies(s, p, c) && c !in Next(s, a, o).shut
    ensures Lies(Next(s, a, o), Destination(s, a, o, p), c)
  {
    match a {
      case Pop(id, now) => PopDestination(s, id, now, o, p, c);
      case Drain(h) => AllSessions(s.pools[h].idle);
      case _ =>
    }
  }

  lemma {:induction false} NoneLostStep(s: State, a: Action, o: Options)
    requires NoneLost(s) && Enabled(s, a)
    ensures NoneLost(Next(s, a, o))
  {
    var s' := Next(s, a, o);
    forall c | 0 <= c < s'.dialled && c !in s'.shut
      ensures Somewhere(s', c)
    {
      if c == s.dialled {
        assert Lies(s', Hand(a.id), c);
      } else {
        assert Somewhere(s, c);
        var p :| Lies(s, p, c);
        DestinationStep(s, a, o, p, c);
      }
    }
  }

  // ---------- Every interleaving ----------

  lemma {:induction false} RunKeeps(s: State, actions: seq<Action>, o: Options)
    requires TokensInv(s, o) && SessionsInv(s) && NoneLost(s)
    ensures TokensInv(Run(s, actions, o), o) && SessionsInv(Run(s, actions, o)) && NoneLost(Run(s, actions, o))
    decreases |actions|
  {
    if actions != [] {
      if Enabled(s, actions[0]) {
        TokensStep(s, actions[0], o);
        SessionsStep(s, actions[0], o);
        NoneLostStep(s, actions[0], o);
        RunKeeps(Next(s, actions[0], o), actions[1..], o);
      } else {
        RunKeeps(s, actions[1..], o);
      }
    }
  }

  // The main result, for any number of polls in any interleaving with Close: the tokens of a device
  // are its polls between acquire and release and never exceed its capacity, the idle list is
  // bounded, no session is in two places, and a dialled session is idle or in use exactly as long
  // as it has not been closed: none is lost, and none is closed under its user.
  lemma {:induction false} PoolSafe(actions: seq<Action>, o: Options)
    ensures var s := Run(INITIAL, actions, o);
            && (forall h <- s.pools ::
                  && s.pools[h].tokens == |Holders(s.polls, h)| <= s.pools[h].capacity
                  && |s.pools[h].idle| <= o.maxIdle)
            && (forall c :: 0 <= c < s.dialled ==> (Somewhere(s, c) <==> c !in s.shut))
            && (forall p, p', c :: Lies(s, p, c) && Lies(s, p', c) ==> p == p')
  {
    RunKeeps(INITIAL, actions, o);
    var s := Run(INITIAL, actions, o);
    assert forall h <- s.pools :: Counted(s, h);
  }

  ghost predicate AllFinished(polls: map<PollId, Stage>) {
    forall id <- polls :: polls[id] == Finished
  }

  lemma {:induction false} NoHolders(polls: map<PollId, Stage>, h: Host)
    requires AllFinished(polls)
    ensures Holders(polls, h) == {}
  {
  }

  // When every poll has finished, whatever way each one took, no device holds a token.
  lemma {:induction false} QuiescentHoldsNothing(actions: seq<Action>, o: Options)
    requires AllFinished(Run(INITIAL, actions, o).polls)
    ensures var s := Run(INITIAL, actions, o);
            forall h <- s.pools :: s.pools[h].tokens == 0
  {
    RunKeeps(INITIAL, actions, o);
    var s := Run(INITIAL, actions, o);
    forall h | h in s.pools
      ensures s.pools[h].tokens == 0
    {
      assert Counted(s, h);
      NoHolders(s.polls, h);
    }
  }

  lemma {:induction false} DrainsKeep(s: State, order: seq<Host>, o: Options)
    requires s.closed && forall h <- order :: h in s.pools
    ensures var t := Run(s, Drains(order), o);
            && t.closed && t.polls == s.polls && t.pools.Keys == s.pools.Keys
            && (forall h <- order :: t.pools[h].idle == [])
    decreases |order|
  {
    if order != [] {
      var n := |order| - 1;
      DrainsKeep(s, order[..n], o);
      RunSnoc(s, Drains(order[..n]), Action.Drain(order[n]), o);
      assert order == order[..n] + [order[n]];
    }
  }

  lemma {:induction false} NowhereLeft(s: State, c: Session)
    requires AllFinished(s.polls) && forall h <- s.pools :: s.pools[h].idle == []
    ensures !Somewhere(s, c)
  {
  }

  // Closing the pool when all polls have finished closes every session ever dialled.
  lemma {:induction false} CloseClosesAll(actions: seq<Action>, order: seq<Host>, o: Options)
    requires AllFinished(Run(INITIAL, actions, o).polls) && !Run(INITIAL, actions, o).closed
    requires forall h :: h in order <==> h in Run(INITIAL, actions, o).pools
    ensures var t := Run(Run(INITIAL, actions, o), [Action.Close] + Drains(order), o);
            forall c :: 0 <= c < t.dialled ==> c in t.shut
  {
    RunKeeps(INITIAL, actions, o);
    var s := Run(INITIAL, actions, o);
    var closing := [Action.Close] + Drains(order);
    assert closing[1..] == Drains(order);
    DrainsKeep(Next(s, Action.Close, o), order, o);
    RunKeeps(s, closing, o);
    var t := Run(s, closing, o);
    forall c | 0 <= c < t.dialled
      ensures c in t.shut
    {
      NowhereLeft(t, c);
    }
  }

  // A device's capacity is the one it was created with, whatever later callers ask for.
  lemma {:induction false} CapacityFixed(s: State, actions: seq<Action>, o: Options, h: Host)
    requires h in s.pools
    ensures h in Run(s, actions, o).pools && Run(s, actions, o).pools[h].capacity == s.pools[h].capacity
    decreases |actions|
  {
    if actions != [] {
      CapacityFixed(if Enabled(s, actions[0]) then Next(s, actions[0], o) else s, actions[1..], o, h);
    }
  }

  // That capacity is the one the first caller for the device asked for, or 4.
  lemma {:induction false} FirstAsks(actions: seq<Action>, n: nat, o: Options, h: Host) returns (i: nat)
    requires n <= |actions| && h in Run(INITIAL, actions[..n], o).pools
    ensures i < n && actions[i].Enter? && actions[i].host == h
    ensures h !in Run(INITIAL, actions[..i], o).pools && Enabled(Run(INITIAL, actions[..i], o), actions[i])
    ensures var asked := actions[i].maxConcurrent;
            Run(INITIAL, actions[..n], o).pools[h].capacity == if asked <= 0 then 4 else asked
    decreases n
  {
    NothingYet(actions, o);
    var m := n - 1;
    var s := Run(INITIAL, actions[..m], o);
    PrefixStep(actions, m, o);
    if h !in s.pools {
      NewDevice(s, actions[m], o, h);
      return m;
    }
    i := FirstAsks(actions, m, o, h);
    if Enabled(s, actions[m]) {
      OldDevice(s, actions[m], o, h);
    }
  }

  lemma {:induction false} NewDevice(s: State, a: Action, o: Options, h: Host)
    requires h !in s.pools && h in (if Enabled(s, a) then Next(s, a, o) else s).pools
    ensures Enabled(s, a) && a.Enter? && a.host == h
    ensures Next(s, a, o).pools[h].capacity == if a.maxConcurrent <= 0 then 4 else a.maxConcurrent
  {
  }

  lemma {:induction false} OldDevice(s: State, a: Action, o: Options, h: Host)
    requires h in s.pools && Enabled(s, a)
    ensures h in Next(s, a, o).pools && Next(s, a, o).pools[h].capacity == s.pools[h].capacity
  {
  }

  lemma {:induction false} NothingYet(actions: seq<Action>, o: Options)
    ensures Run(INITIAL, actions[..0], o) == INITIAL
  {
    assert actions[..0] == [];
  }

  lemma {:induction false} PrefixStep(actions: seq<Action>, m: nat, o: Options)
    requires m < |actions|
    ensures var s := Run(INITIAL, actions[..m], o);
            Run(INITIAL, actions[..m + 1], o) == if Enabled(s, actions[m]) then Next(s, actions[m], o) else s
  {
    assert actions[..m + 1] == actions[..m] + [actions[m]];
    RunSnoc(INITIAL, actions[..m], actions[m], o);
  }

  // Once the pool is closed, a poll not yet past the gate never gets a session.
  lemma {:induction false} GateShut(s: State, actions: seq<Action>, o: Options, id: PollId)
    requires s.closed && (id !in s.polls || s.polls[id].Entered? || s.polls[id].Finished?)
    ensures var t := Run(s, actions, o);
            t.closed && (id !in t.polls || t.polls[id].Entered? || t.polls[id].Finished?)
    decreases |actions|
  {
    if actions != [] {
      GateShut(if Enabled(s, actions[0]) then Next(s, actions[0], o) else s, actions[1..], o, id);
    }
  }

  // An open pool with a token left serves an entering poll: with the newest idle session if that has
  // not expired, else (when none is idle) by dialling.
  lemma {:induction false} ServedWhenOpen(s: State, id: PollId, now: int, o: Options)
    requires !s.closed && id in s.polls && s.polls[id].Entered? && s.polls[id].host in s.pools
    requires s.pools[s.polls[id].host].tokens < s.pools[s.polls[id].host].capacity
    ensures var h := s.polls[id].host;
            var t, idle := Run(s, [PassGate(id), Acquire(id), Pop(id, now)], o), s.pools[h].idle;
            && h in t.pools && t.pools[h].tokens == s.pools[h].tokens + 1 && id in t.polls
            && (idle == [] ==> t.polls[id] == Dialling(h))
            && (idle != [] && (o.idleTimeout <= 0 || now - idle[|idle| - 1].returnedAt <= o.idleTimeout) ==>
                  t.polls[id] == Using(h, idle[|idle| - 1].session) && t.pools[h].idle == idle[..|idle| - 1])
  {
    var s1 := Next(s, PassGate(id), o);
    var s2 := Next(s1, Acquire(id), o);
    RunSnoc(s, [], PassGate(id), o);
    RunSnoc(s, [PassGate(id)], Acquire(id), o);
    RunSnoc(s, [PassGate(id), Acquire(id)], Pop(id, now), o);
    assert [] + [PassGate(id)] == [PassGate(id)] && [PassGate(id)] + [Acquire(id)] == [PassGate(id), Acquire(id)];
    assert [PassGate(id), Acquire(id)] + [Pop(id, now)] == [PassGate(id), Acquire(id), Pop(id, now)];
  }

  lemma {:induction false} RunTwo(s: State, a: Action, b: Action, o: Options)
    requires Enabled(s, a) && Enabled(Next(s, a, o), b)
    ensures Run(s, [a, b], o) == Next(Next(s, a, o), b, o)
  {
    RunSnoc(s, [], a, o);
    RunSnoc(s, [a], b, o);
    assert [] + [a] == [a] && [a] + [b] == [a, b];
  }

  // A poll that is done with its session returns its token whichever way it goes, the pool closed or
  // not: the session joins the idle ones if there is room, else, or if it is discarded, it is closed.
  lemma {:induction false} SessionReturned(s: State, id: PollId, now: int, o: Options)
    requires id in s.polls && s.polls[id].Using? && s.polls[id].host in s.pools && s.pools[s.polls[id].host].tokens > 0
    ensures var h, c := s.polls[id].host, s.polls[id].session;
            var dp := s.pools[h];
            && Run(s, [Put(id, now), Release(id)], o)
               == (if |dp.idle| < o.maxIdle
                   then s.(polls := s.polls[id := Finished],
                           pools := s.pools[h := dp.(tokens := dp.tokens - 1, idle := dp.idle + [Idle(c, now)])])
                   else s.(polls := s.polls[id := Finished], pools := s.pools[h := dp.(tokens := dp.tokens - 1)],
                           shut := s.shut + {c}))
            && Run(s, [Discard(id), Release(id)], o)
               == s.(polls := s.polls[id := Finished], pools := s.pools[h := dp.(tokens := dp.tokens - 1)], shut := s.shut + {c})
  {
    RunTwo(s, Put(id, now), Release(id), o);
    RunTwo(s, Discard(id), Release(id), o);
  }

  // A poll that never gets that far leaves nothing behind: waiting, it can give up at any time, and a
  // failed dial returns the token; a successful one takes the next session number.
  lemma {:induction false} PollAbandoned(s: State, id: PollId, o: Options)
    requires id in s.polls && (s.polls[id].Waiting? || s.polls[id].Dialling?) && s.polls[id].host in s.pools
    ensures s.polls[id].Waiting? ==> Run(s, [GiveUp(id)], o) == s.(polls := s.polls[id := Finished])
    ensures s.polls[id].Dialling? && s.pools[s.polls[id].host].tokens > 0 ==>
              var h := s.polls[id].host;
              Run(s, [DialFail(id)], o)
              == s.(polls := s.polls[id := Finished], pools := s.pools[h := s.pools[h].(tokens := s.pools[h].tokens - 1)])
    ensures s.polls[id].Dialling? ==>
              Run(s, [DialOk(id)], o)
              == s.(polls := s.polls[id := Using(s.polls[id].host, s.dialled)], dialled := s.dialled + 1)
  {
    RunSnoc(s, [], GiveUp(id), o);
    RunSnoc(s, [], DialFail(id), o);
    RunSnoc(s, [], DialOk(id), o);
    assert [] + [GiveUp(id)] == [GiveUp(id)] && [] + [DialFail(id)] == [DialFail(id)] && [] + [DialOk(id)] == [DialOk(id)];
  }

  // The semaphore cannot block everyone: an unfinished poll that cannot step itself waits for a
  // token held by another poll that can.
  lemma {:induction false} SomebodyMoves(s: State, o: Options, id: PollId)
    requires TokensInv(s, o) && id in s.polls && s.polls[id] != Finished
    ensures exists a :: Enabled(s, a) && !a.GiveUp? && !a.Enter? && !a.Close? && !a.Drain?
                        && At(s, a.id) && s.polls[a.id].host == s.polls[id].host
  {
    var h := s.polls[id].host;
    assert Counted(s, h);
    if s.polls[id].Waiting? && s.pools[h].tokens == s.pools[h].capacity {
      assert |Holders(s.polls, h)| >= 1;
      var other :| other in Holders(s.polls, h);
      HolderMoves(s, o, other);
    } else if s.polls[id].Waiting? {
      assert Enabled(s, Acquire(id));
    } else if s.polls[id].Entered? {
      assert Enabled(s, PassGate(id));
    } else {
      assert id in Holders(s.polls, h);
      HolderMoves(s, o, id);
    }
  }

  lemma {:induction false} HolderMoves(s: State, o: Options, id: PollId)
    requires TokensInv(s, o) && id in s.polls && s.polls[id] != Finished && Holds(s.polls[id], s.polls[id].host)
    ensures exists a :: Enabled(s, a) && !a.GiveUp? && !a.Enter? && !a.Close? && !a.Drain? && a.id == id
  {
    var h := s.polls[id].host;
    assert Counted(s, h) && id in Holders(s.polls, h);
    match s.polls[id] {
      case Admitted(_) => assert Enabled(s, Pop(id, 0));
      case Dialling(_) => assert Enabled(s, DialOk(id));
      case Using(_, _) => assert Enabled(s, Discard(id));
      case Leaving(_) =>
        assert |Holders(s.polls, h)| >= 1;
        assert Enabled(s, Release(id));
    }
  }
}
