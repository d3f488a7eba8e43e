/** Active/Standby failover of two nodes (internal/ha/ha.go).
    Every step below is one access to shared state, or one message, of the original; a health check
    is three steps (read the state, digest the response, promote), so that a /demote can fall between. */
module HaManager {
  import opened Common

  datatype NodeState = Unset | Active | Standby

  datatype Callback = StartPolling | StopPolling

  // withDefaults; a negative threshold behaves as 1.
  function WithDefault(threshold: int): int {
    if threshold == 0 then 3 else threshold
  }

  // The number of failures the configured threshold stands for.
  function Effective(threshold: int): (k: nat)
    ensures threshold >= 1 ==> k == threshold
    ensures threshold == 0 ==> k == 3
    ensures threshold < 0 ==> k == 1
  {
    var t := WithDefault(threshold);
    if t < 1 then 1 else t
  }

  // What one finished health check does to the counter, and whether it goes on to promote.
  datatype Decision = Decision(fails: nat, promote: bool)

  function Decide(fails: nat, seen: NodeState, healthy: bool, threshold: int): Decision {
    if healthy then Decision(0, false)
    else if fails + 1 >= WithDefault(threshold) then Decision(0, seen == Standby)
    else Decision(fails + 1, false)
  }

  class Manager {
    const threshold: int // after withDefaults
    var state: NodeState

    constructor (configured: int)
      ensures state == Unset && threshold == WithDefault(configured)
      ensures threshold == if configured == 0 then 3 else configured
    {
      state := Unset;
      threshold := if configured == 0 then 3 else configured;
    }

    // The callback is reported instead of run; the mutex is released before it.
    method TransitionTo(next: NodeState) returns (callback: Option<Callback>)
      modifies this
      ensures state == next
      ensures callback == if next == old(state) then None
                          else if next == Active then Some(StartPolling)
                          else if next == Standby && old(state) == Active then Some(StopPolling)
                          else None
    {
      var prev := state;
      if prev == next {
        return None;
      }
      state := next;
      match next {
        case Active => callback := Some(StartPolling);
        case Standby => callback := if prev == Active then Some(StopPolling) else None;
        case Unset => callback := None;
      }
    }

    // The part of healthCheckCycle after the response (status is None when the request failed),
    // up to but not including transitionTo.
    method DigestResponse(seen: NodeState, status: Option<int>, fails: nat) returns (fails': nat, promote: bool)
      requires threshold != 0
      ensures Decision(fails', promote) == Decide(fails, seen, status == Some(200), threshold)
      ensures status == Some(200) ==> fails' == 0 && !promote
      ensures status != Some(200) && fails + 1 < threshold ==> fails' == fails + 1 && !promote
      ensures status != Some(200) && fails + 1 >= threshold ==> fails' == 0 && (promote <==> seen == Standby)
    {
      fails', promote := fails, false;
      if status == None {
        fails' := fails' + 1;
      } else {
        if status.value == 200 {
          if fails' > 0 {
            fails' := 0;
          }
          return;
        }
        fails' := fails' + 1;
      }
      if fails' >= threshold {
        if seen == Standby {
          fails' := 0;
          promote := true;
        } else {
          fails' := 0;
        }
      }
    }

    // POST /demote yields; any other method is answered 405 and changes nothing.
    method DemoteHandler(post: bool) returns (status: int, callback: Option<Callback>)
      modifies this
      ensures post ==> status == 200 && state == Standby
      ensures !post ==> status == 405 && state == old(state)
      ensures callback == if post && old(state) == Active then Some(StopPolling) else None
    {
      if !post {
        return 405, None;
      }
      callback := TransitionTo(Standby);
      status := 200;
    }

    // The standby's own part of one step of the two nodes below, on this manager and the variables
    // of its health-check loop; a /demote arrives at the handler as a POST.
    method Do(a: Action, w: World) returns (fails: nat, check: Check)
      requires threshold != 0 && Enabled(w, a) && w.standbyUp && state == w.standby
      modifies this
      ensures var w' := Next(w, a, threshold);
              w'.standbyUp ==> state == w'.standby && fails == w'.fails && check == w'.check
    {
      fails, check := w.fails, w.check;
      var callback, status;
      match a {
        case DemoteHandled => status, callback := DemoteHandler(true);
        case StaleDemote => status, callback := DemoteHandler(true);
        case StandbyRun =>
          callback := TransitionTo(Standby);
          check := Idle;
        case CheckBegin =>
          check := Waiting(state);
        case CheckDone(healthy) =>
          var promote;
          fails, promote := DigestResponse(check.seen, if healthy then Some(200) else None, fails);
          check := if promote then Promoting else Idle;
        case Promote =>
          callback := TransitionTo(Active);
          check := Idle;
        case _ =>
      }
    }
  }

  // Any schedule of the two nodes: as long as the standby process lives, its manager's state, its
  // failure counter and its check are those of the machine.
  method Play(actions: seq<Action>, configured: int) returns (m: Manager, w: World)
    ensures m.threshold == WithDefault(configured) && w == Run(INITIAL, actions, configured)
    ensures w.standbyUp ==> m.state == w.standby
  {
    m := new Manager(configured);
    w := INITIAL;
    var i := 0;
    while i < |actions|
      invariant 0 <= i <= |actions| && fresh(m) && m.threshold == WithDefault(configured)
      invariant w.standbyUp ==> m.state == w.standby
      invariant Run(w, actions[i..], configured) == Run(INITIAL, actions, configured)
    {
      var a := actions[i];
      assert actions[i..][0] == a && actions[i..][1..] == actions[i + 1..];
      if Enabled(w, a) {
        var w' := Next(w, a, configured);
        if a == StandbyBoot {
          m := new Manager(configured);
        } else if w.standbyUp {
          var fails, check := m.Do(a, w);
          if w'.standbyUp {
            w' := w'.(standby := m.state, fails := fails, check := check);
          }
        }
        w := w';
      }
      i := i + 1;
    }
  }

  // ---------- The two nodes ----------

  datatype Primary = Down | Demoting | Claiming | Up

  datatype Check = NotRunning | Idle | Waiting(seen: NodeState) | Promoting

  datatype World = World(
    primary: Primary,
    handled: bool,        // this incarnation's /demote has reached the standby's handler
    answered: bool,       // ... and the primary has received the reply
    standbyUp: bool,
    standby: NodeState,
    fails: nat,
    check: Check,
    trail: nat,           // failed checks since the standby's last success or start
    carried: nat,         // the counter when /demote was handled
    since: nat,           // failed checks since then
    pending: bool)        // a promotion was already decided when /demote was handled

  const INITIAL := World(Down, false, false, false, Unset, 0, NotRunning, 0, 0, 0, false)

  datatype Action =
    | PrimaryStart | DemoteHandled | DemoteAnswered | DemoteLost | ClaimActive | PrimaryCrash
    | StaleDemote         // a /demote of an earlier incarnation, or one whose caller gave up
    | StandbyBoot | StandbyRun | StandbyCrash
    | CheckBegin | CheckDone(healthy: bool) | Promote

  predicate Enabled(w: World, a: Action) {
    match a
    case PrimaryStart => w.primary == Down
    case DemoteHandled => w.primary == Demoting && !w.handled && w.standbyUp
    case DemoteAnswered => w.primary == Demoting && w.handled
    case DemoteLost => w.primary == Demoting
    case ClaimActive => w.primary == Claiming
    case PrimaryCrash => w.primary != Down
    case StaleDemote => w.standbyUp
    case StandbyBoot => !w.standbyUp
    case StandbyRun => w.standbyUp && w.check == NotRunning
    case StandbyCrash => w.standbyUp
    case CheckBegin => w.standbyUp && w.check == Idle
    case CheckDone(_) => w.standbyUp && w.check.Waiting?
    case Promote => w.standbyUp && w.check == Promoting
  }

  function Next(w: World, a: Action, threshold: int): World
    requires Enabled(w, a)
  {
    match a
    case PrimaryStart => w.(primary := Demoting, handled := false, answered := false)
    case DemoteHandled =>
      w.(standby := Standby, handled := true, carried := w.fails, since := 0, pending := w.check == Promoting)
    case DemoteAnswered => w.(primary := Claiming, answered := true)
    case DemoteLost => w.(primary := Claiming)
    case ClaimActive => w.(primary := Up)
    case PrimaryCrash => w.(primary := Down)
    case StaleDemote => w.(standby := Standby)
    case StandbyBoot => w.(standbyUp := true, standby := Unset, fails := 0, check := NotRunning, trail := 0)
    case StandbyRun => w.(standby := Standby, check := Idle)
    case StandbyCrash => w.(standbyUp := false, standby := Unset, check := NotRunning)
    case CheckBegin => w.(check := Waiting(w.standby))
    case CheckDone(healthy) =>
      var d := Decide(w.fails, w.check.seen, healthy, threshold);
      w.(fails := d.fails, check := if d.promote then Promoting else Idle,
         trail := if healthy then 0 else w.trail + 1,
         since := if healthy then w.since else w.since + 1)
    case Promote => w.(standby := Active, check := Idle)
  }

  function Run(w: World, actions: seq<Action>, threshold: int): World
    decreases |actions|
  {
    if actions == [] then w
    else Run(if Enabled(w, actions[0]) then Next(w, actions[0], threshold) else w, actions[1..], threshold)
  }

  predicate BothActive(w: World) {
    w.primary == Up && w.standbyUp && w.standby == Active
  }

  ghost predicate Inv(w: World, k: nat)
    requires k >= 1
  {
    && w.fails < k && w.fails == w.trail % k
    && (w.check == Promoting ==> w.trail > 0 && w.fails == 0)
    && (w.answered && w.primary != Down ==> w.handled)
    && (w.handled && w.primary != Down ==>
          && w.carried < k
          && w.fails <= w.carried + w.since
          && (w.standby == Active || w.check == Promoting ==> w.pending || w.carried + w.since >= k))
    && (!w.standbyUp ==> w.standby == Unset && w.check == NotRunning)
  }

  lemma {:induction false} ModStep(t: nat, k: nat)
    requires k >= 1
    ensures (t + 1) % k == if t % k + 1 == k then 0 else t % k + 1
  {
    var q, r := t / k, t % k;
    assert t == q * k + r;
    if r + 1 == k {
      assert t + 1 == (q + 1) * k;
      ModUnique(t + 1, k, q + 1, 0);
    } else {
      ModUnique(t + 1, k, q, r + 1);
    }
  }

  lemma {:induction false} ModUnique(t: nat, k: nat, q: nat, r: nat)
    requires k >= 1 && r < k && t == q * k + r
    ensures t % k == r
  {
    var q', r' := t / k, t % k;
    assert (q - q') * k == r' - r;
    MulAway(q - q', k);
  }

  lemma {:induction false} MulAway(a: int, k: nat)
    ensures a >= 1 ==> a * k >= k
    ensures a <= -1 ==> a * k + k <= 0
  {
    if a >= 1 {
      assert (a - 1) * k >= 0;
      assert (a - 1) * k == a * k - k;
    } else if a <= -1 {
      assert (-a - 1) * k >= 0;
      assert (-a - 1) * k == -(a * k) - k;
    }
  }

  lemma {:induction false} CheckKeeps(w: World, healthy: bool, threshold: int)
    requires Inv(w, Effective(threshold)) && Enabled(w, CheckDone(healthy))
    ensures Inv(Next(w, CheckDone(healthy), threshold), Effective(threshold))
  {
    ModStep(w.trail, Effective(threshold));
    ModUnique(0, Effective(threshold), 0, 0);
  }

  lemma {:induction false} StepKeeps(w: World, a: Action, threshold: int)
    requires Inv(w, Effective(threshold)) && Enabled(w, a)
    ensures Inv(Next(w, a, threshold), Effective(threshold))
  {
    ModStep(w.trail, Effective(threshold));
    ModUnique(0, Effective(threshold), 0, 0);
    if a.CheckDone? {
      CheckKeeps(w, a.healthy, threshold);
    }
  }

  lemma {:induction false} RunKeeps(w: World, actions: seq<Action>, threshold: int)
    requires Inv(w, Effective(threshold))
    ensures Inv(Run(w, actions, threshold), Effective(threshold))
    decreases |actions|
  {
    if actions != [] {
      if Enabled(w, actions[0]) {
        StepKeeps(w, actions[0], threshold);
        RunKeeps(Next(w, actions[0], threshold), actions[1..], threshold);
      } else {
        RunKeeps(w, actions[1..], threshold);
      }
    }
  }

  lemma {:induction false} Start(threshold: int)
    ensures Inv(INITIAL, Effective(threshold))
  {
    ModUnique(0, Effective(threshold), 0, 0);
  }

  // In every reachable world the counter is the trailing failures modulo the threshold, and a
  // check decides to promote only on completing a multiple of it while the state it read was Standby.
  lemma {:induction false} CounterExact(actions: seq<Action>, threshold: int)
    ensures var w := Run(INITIAL, actions, threshold);
            var k := Effective(threshold);
            && w.fails == w.trail % k
            && (w.standbyUp && w.check.Waiting? ==> forall healthy ::
                  var w' := Next(w, CheckDone(healthy), threshold);
                  w'.check == Promoting <==> !healthy && w.check.seen == Standby && (w.trail + 1) % k == 0)
  {
    Start(threshold);
    RunKeeps(INITIAL, actions, threshold);
    var w := Run(INITIAL, actions, threshold);
    ModStep(w.trail, Effective(threshold));
  }

  // The main result: two active nodes mean that this primary incarnation's /demote went unanswered,
  // or that enough checks have failed since it was handled, or that a promotion had already been
  // decided, and only not yet applied, when it was handled.
  lemma {:induction false} SplitBrainCause(actions: seq<Action>, threshold: int)
    ensures var w := Run(INITIAL, actions, threshold);
            BothActive(w) ==> !w.answered || w.pending
                              || (w.carried < Effective(threshold) && w.since >= Effective(threshold) - w.carried)
  {
    Start(threshold);
    RunKeeps(INITIAL, actions, threshold);
  }

  // ---------- The same, read off the run alone ----------

  lemma {:induction false} RunAppend(w: World, a: seq<Action>, b: seq<Action>, threshold: int)
    ensures Run(w, a + b, threshold) == Run(Run(w, a, threshold), b, threshold)
    decreases |a|
  {
    if a == [] {
      assert a + b == b;
    } else {
      assert (a + b)[1..] == a[1..] + b;
      RunAppend(if Enabled(w, a[0]) then Next(w, a[0], threshold) else w, a[1..], b, threshold);
    }
  }

  function After(actions: seq<Action>, n: nat, threshold: int): World
    requires n <= |actions|
  {
    Run(INITIAL, actions[..n], threshold)
  }

  lemma {:induction false} Beginning(actions: seq<Action>, threshold: int)
    ensures After(actions, 0, threshold) == INITIAL
  {
    assert actions[..0] == [];
  }

  // Action i of the run takes place.
  predicate Happens(actions: seq<Action>, i: nat, threshold: int)
    requires i < |actions|
  {
    Enabled(After(actions, i, threshold), actions[i])
  }

  lemma {:induction false} AfterStep(actions: seq<Action>, n: nat, threshold: int)
    requires n < |actions|
    ensures After(actions, n + 1, threshold)
         == if Happens(actions, n, threshold) then Next(After(actions, n, threshold), actions[n], threshold)
            else After(actions, n, threshold)
  {
    assert actions[..n + 1] == actions[..n] + [actions[n]];
    RunAppend(INITIAL, actions[..n], [actions[n]], threshold);
    assert [actions[n]][1..] == [];
  }

  // a takes place at i, and nothing of the given kinds between i and n.
  ghost predicate LastBefore(actions: seq<Action>, i: nat, n: nat, since: set<Action>, threshold: int)
    requires n <= |actions|
  {
    i < n && Happens(actions, i, threshold)
    && forall j :: i < j < n && actions[j] in since ==> !Happens(actions, j, threshold)
  }

  lemma {:induction false} LastLater(actions: seq<Action>, i: nat, n: nat, since: set<Action>, threshold: int)
    requires n < |actions| && LastBefore(actions, i, n, since, threshold)
    requires actions[n] in since ==> !Happens(actions, n, threshold)
    ensures LastBefore(actions, i, n + 1, since, threshold)
  {
  }

  // A running check, or a decided promotion, goes back to the last beginning of a check: what it saw
  // is the state at that moment, and it decides to promote only if that was Standby.
  lemma {:induction false} CheckOrigin(actions: seq<Action>, n: nat, threshold: int) returns (i: nat)
    requires n <= |actions|
    requires After(actions, n, threshold).check.Waiting? || After(actions, n, threshold).check == Promoting
    ensures LastBefore(actions, i, n, {CheckBegin}, threshold) && actions[i] == CheckBegin
    ensures After(actions, n, threshold).check.Waiting? ==>
              After(actions, n, threshold).check.seen == After(actions, i, threshold).standby
    ensures After(actions, n, threshold).check == Promoting ==> After(actions, i, threshold).standby == Standby
    decreases n
  {
    Beginning(actions, threshold);
    var m := n - 1;
    AfterStep(actions, m, threshold);
    if Happens(actions, m, threshold) && actions[m] == CheckBegin {
      return m;
    }
    i := CheckOrigin(actions, m, threshold);
    LastLater(actions, i, m, {CheckBegin}, threshold);
  }

  const STEPPING_DOWN := {DemoteHandled, StaleDemote, StandbyRun, StandbyBoot, StandbyCrash}

  // The standby node is active only since a promotion: no demote, start or crash has come after it.
  lemma {:induction false} ActiveByPromotion(actions: seq<Action>, n: nat, threshold: int) returns (i: nat)
    requires n <= |actions| && After(actions, n, threshold).standby == Active
    ensures LastBefore(actions, i, n, STEPPING_DOWN, threshold) && actions[i] == Promote
    decreases n
  {
    Beginning(actions, threshold);
    var m := n - 1;
    AfterStep(actions, m, threshold);
    if Happens(actions, m, threshold) && actions[m] == Promote {
      return m;
    }
    i := ActiveByPromotion(actions, m, threshold);
    LastLater(actions, i, m, STEPPING_DOWN, threshold);
  }

  // Failed checks among the actions from lo to below hi.
  function Failed(actions: seq<Action>, lo: nat, hi: nat, threshold: int): nat
    requires hi <= |actions|
    decreases hi
  {
    if hi <= lo then 0
    else Failed(actions, lo, hi - 1, threshold)
         + if actions[hi - 1] == CheckDone(false) && Happens(actions, hi - 1, threshold) then 1 else 0
  }

  const RESETTING := {CheckDone(true), StandbyBoot}

  // The trail is the failed checks since the last successful one, or since the process started.
  lemma {:induction false} TrailExact(actions: seq<Action>, n: nat, threshold: int) returns (lo: nat)
    requires n <= |actions|
    ensures lo == 0 || (lo <= n && Happens(actions, lo - 1, threshold) && actions[lo - 1] in RESETTING)
    ensures forall j :: lo <= j < n && actions[j] in RESETTING ==> !Happens(actions, j, threshold)
    ensures After(actions, n, threshold).trail == Failed(actions, lo, n, threshold)
    decreases n
  {
    if n == 0 {
      Beginning(actions, threshold);
      return 0;
    }
    var m := n - 1;
    AfterStep(actions, m, threshold);
    if Happens(actions, m, threshold) && actions[m] in RESETTING {
      return n;
    }
    lo := TrailExact(actions, m, threshold);
  }

  // The counter and the decision to promote, without any bookkeeping of the model: with f failed
  // checks since the last success or start, the counter is f modulo the threshold, and the next check
  // decides to promote exactly when it fails, began in Standby, and f + 1 is a multiple of it.
  lemma {:induction false} CounterRun(actions: seq<Action>, n: nat, threshold: int) returns (lo: nat)
    requires n <= |actions|
    ensures lo == 0 || (lo <= n && Happens(actions, lo - 1, threshold) && actions[lo - 1] in RESETTING)
    ensures forall j :: lo <= j < n && actions[j] in RESETTING ==> !Happens(actions, j, threshold)
    ensures After(actions, n, threshold).fails == Failed(actions, lo, n, threshold) % Effective(threshold)
    ensures After(actions, n, threshold).standbyUp && After(actions, n, threshold).check.Waiting? ==>
              exists i: nat :: LastBefore(actions, i, n, {CheckBegin}, threshold) && actions[i] == CheckBegin
                && forall healthy ::
                     Next(After(actions, n, threshold), CheckDone(healthy), threshold).check == Promoting
                     <==> !healthy && After(actions, i, threshold).standby == Standby
                          && (Failed(actions, lo, n, threshold) + 1) % Effective(threshold) == 0
  {
    lo := TrailExact(actions, n, threshold);
    CounterExact(actions[..n], threshold);
    if After(actions, n, threshold).check.Waiting? {
      var i := CheckOrigin(actions, n, threshold);
    }
  }

  // What the model remembers of the last handled /demote of this primary incarnation.
  lemma {:induction false} DemoteOrigin(actions: seq<Action>, n: nat, threshold: int) returns (i: nat)
    requires n <= |actions| && After(actions, n, threshold).handled
    ensures LastBefore(actions, i, n, {DemoteHandled, PrimaryStart}, threshold) && actions[i] == DemoteHandled
    ensures var w, v := After(actions, n, threshold), After(actions, i, threshold);
            && (w.pending <==> v.check == Promoting) && w.carried == v.fails
            && w.since == Failed(actions, i + 1, n, threshold)
    decreases n
  {
    Beginning(actions, threshold);
    var m := n - 1;
    AfterStep(actions, m, threshold);
    if Happens(actions, m, threshold) && actions[m] == DemoteHandled {
      return m;
    }
    i := DemoteOrigin(actions, m, threshold);
    LastLater(actions, i, m, {DemoteHandled, PrimaryStart}, threshold);
  }

  lemma {:induction false} UnansweredSince(actions: seq<Action>, n: nat, threshold: int) returns (i: nat)
    requires n <= |actions| && After(actions, n, threshold).primary != Down && !After(actions, n, threshold).answered
    ensures LastBefore(actions, i, n, {PrimaryStart, DemoteAnswered}, threshold) && actions[i] == PrimaryStart
    decreases n
  {
    Beginning(actions, threshold);
    var m := n - 1;
    AfterStep(actions, m, threshold);
    if Happens(actions, m, threshold) && actions[m] == PrimaryStart {
      return m;
    }
    i := UnansweredSince(actions, m, threshold);
    LastLater(actions, i, m, {PrimaryStart, DemoteAnswered}, threshold);
  }

  // The causes of two active nodes as events of the run: since the primary started no /demote has been
  // answered; or at the last handled one a promotion was decided and not yet applied, or the counter
  // then and the failed checks since reach the threshold.
  lemma {:induction false} SplitBrainRun(actions: seq<Action>, n: nat, threshold: int)
    requires n <= |actions| && BothActive(After(actions, n, threshold))
    ensures (exists i: nat :: LastBefore(actions, i, n, {PrimaryStart, DemoteAnswered}, threshold) && actions[i] == PrimaryStart)
         || (exists i: nat :: LastBefore(actions, i, n, {DemoteHandled, PrimaryStart}, threshold) && actions[i] == DemoteHandled
               && (After(actions, i, threshold).check == Promoting
                   || After(actions, i, threshold).fails + Failed(actions, i + 1, n, threshold) >= Effective(threshold)))
  {
    Start(threshold);
    RunKeeps(INITIAL, actions[..n], threshold);
    if After(actions, n, threshold).answered {
      var i := DemoteOrigin(actions, n, threshold);
    } else {
      var i := UnansweredSince(actions, n, threshold);
    }
  }

  // A /demote is honoured at any moment the standby process is up, whoever still sends it.
  lemma {:induction false} DemoteHonoured(w: World, threshold: int)
    requires w.standbyUp
    ensures Run(w, [StaleDemote], threshold) == w.(standby := Standby)
  {
    assert [StaleDemote][1..] == [];
  }

  // Whatever has happened, both nodes can crash and the standby start over, with nothing carried on.
  lemma {:induction false} FreshStart(w: World, threshold: int)
    ensures var v := Run(w, [PrimaryCrash, StandbyCrash, StandbyBoot, StandbyRun], threshold);
            && v.primary == Down && v.standbyUp && v.standby == Standby && v.check == Idle
            && v.fails == 0 && v.trail == 0
  {
    var rest := [StandbyCrash, StandbyBoot, StandbyRun];
    assert [PrimaryCrash, StandbyCrash, StandbyBoot, StandbyRun][1..] == rest;
    var w1 := if Enabled(w, PrimaryCrash) then Next(w, PrimaryCrash, threshold) else w;
    assert Run(w, [PrimaryCrash, StandbyCrash, StandbyBoot, StandbyRun], threshold) == Run(w1, rest, threshold);
    assert rest[1..] == [StandbyBoot, StandbyRun];
    var w2 := if Enabled(w1, StandbyCrash) then Next(w1, StandbyCrash, threshold) else w1;
    assert Run(w1, rest, threshold) == Run(w2, [StandbyBoot, StandbyRun], threshold);
    assert [StandbyBoot, StandbyRun][1..] == [StandbyRun] && [StandbyRun][1..] == [];
  }

  // ---------- All three causes are real ----------

  function Failures(n: nat): seq<Action> {
    if n == 0 then [] else [CheckBegin, CheckDone(false)] + Failures(n - 1)
  }

  lemma {:induction false} OneFailure(w: World, threshold: int)
    requires w.standbyUp && w.check == Idle && w.standby == Standby
    ensures Run(w, [CheckBegin, CheckDone(false)], threshold)
         == if w.fails + 1 >= WithDefault(threshold)
            then w.(fails := 0, check := Promoting, trail := w.trail + 1, since := w.since + 1)
            else w.(fails := w.fails + 1, trail := w.trail + 1, since := w.since + 1)
  {
    var w1 := Next(w, CheckBegin, threshold);
    assert [CheckBegin, CheckDone(false)][1..] == [CheckDone(false)];
    assert Run(w, [CheckBegin, CheckDone(false)], threshold) == Run(w1, [CheckDone(false)], threshold);
    assert [CheckDone(false)][1..] == [];
  }

  // n failures in a row take the counter up by n, or to a decided promotion at the threshold.
  lemma {:induction false} FailuresRun(w: World, n: nat, threshold: int)
    requires w.standbyUp && w.check == Idle && w.standby == Standby
    requires w.fails + n <= Effective(threshold) && w.fails < Effective(threshold)
    ensures Run(w, Failures(n), threshold)
         == if w.fails + n == Effective(threshold)
            then w.(fails := 0, check := Promoting, trail := w.trail + n, since := w.since + n)
            else w.(fails := w.fails + n, trail := w.trail + n, since := w.since + n)
    decreases n
  {
    if n > 0 {
      OneFailure(w, threshold);
      var w' := Run(w, [CheckBegin, CheckDone(false)], threshold);
      RunAppend(w, [CheckBegin, CheckDone(false)], Failures(n - 1), threshold);
      if w.fails + 1 < Effective(threshold) {
        FailuresRun(w', n - 1, threshold);
      }
    }
  }

  const READY := INITIAL.(standbyUp := true, standby := Standby, check := Idle)

  lemma {:induction false} GetReady(threshold: int)
    ensures Run(INITIAL, [StandbyBoot, StandbyRun], threshold) == READY
  {
    assert [StandbyBoot, StandbyRun][1..] == [StandbyRun];
    assert [StandbyRun][1..] == [];
  }

  const HANDOFF := [PrimaryStart, DemoteHandled, DemoteAnswered, ClaimActive]

  lemma {:induction false} HandoffRun(w: World, threshold: int)
    requires w.primary == Down && w.standbyUp
    ensures Run(w, HANDOFF, threshold)
         == w.(primary := Up, handled := true, answered := true, standby := Standby,
               carried := w.fails, since := 0, pending := w.check == Promoting)
  {
    assert HANDOFF[1..] == [DemoteHandled, DemoteAnswered, ClaimActive];
    assert HANDOFF[1..][1..] == [DemoteAnswered, ClaimActive];
    assert HANDOFF[1..][1..][1..] == [ClaimActive];
    assert HANDOFF[1..][1..][1..][1..] == [];
  }

  lemma {:induction false} PromoteRun(w: World, threshold: int)
    requires w.standbyUp && w.check == Promoting
    ensures Run(w, [Promote], threshold) == w.(standby := Active, check := Idle)
  {
    assert [Promote][1..] == [];
  }

  // The /demote of a new primary incarnation is lost after the standby has taken over.
  lemma {:induction false} UnansweredDemote(threshold: int)
    ensures exists actions :: var w := Run(INITIAL, actions, threshold);
              BothActive(w) && !w.answered && !w.handled
  {
    var k := Effective(threshold);
    GetReady(threshold);
    FailuresRun(READY, k, threshold);
    var w1 := Run(READY, Failures(k), threshold);
    PromoteRun(w1, threshold);
    var w2 := Run(w1, [Promote], threshold);
    UnheardRun(w2, threshold);
    RunAppend(INITIAL, [StandbyBoot, StandbyRun], Failures(k) + ([Promote] + UNHEARD), threshold);
    RunAppend(READY, Failures(k), [Promote] + UNHEARD, threshold);
    RunAppend(w1, [Promote], UNHEARD, threshold);
    var actions := [StandbyBoot, StandbyRun] + (Failures(k) + ([Promote] + UNHEARD));
    assert BothActive(Run(INITIAL, actions, threshold));
  }

  const UNHEARD := [PrimaryStart, DemoteLost, ClaimActive]

  lemma {:induction false} UnheardRun(w: World, threshold: int)
    requires w.primary == Down
    ensures Run(w, UNHEARD, threshold) == w.(primary := Up, handled := false, answered := false)
  {
    assert UNHEARD[1..] == [DemoteLost, ClaimActive];
    assert UNHEARD[1..][1..] == [ClaimActive];
    assert UNHEARD[1..][1..][1..] == [];
  }

  // The race: a /demote handled between the decision and its application is overtaken, so both
  // nodes are active with the /demote answered and not one failed check since.
  lemma {:induction false} PromotionOvertakesDemote(threshold: int)
    ensures exists actions :: var w := Run(INITIAL, actions, threshold);
              BothActive(w) && w.answered && w.pending && w.carried == 0 && w.since == 0
  {
    var k := Effective(threshold);
    GetReady(threshold);
    FailuresRun(READY, k, threshold);
    var w1 := Run(READY, Failures(k), threshold);
    HandoffRun(w1, threshold);
    var w2 := Run(w1, HANDOFF, threshold);
    PromoteRun(w2, threshold);
    RunAppend(INITIAL, [StandbyBoot, StandbyRun], Failures(k) + (HANDOFF + [Promote]), threshold);
    RunAppend(READY, Failures(k), HANDOFF + [Promote], threshold);
    RunAppend(w1, HANDOFF, [Promote], threshold);
    var actions := [StandbyBoot, StandbyRun] + (Failures(k) + (HANDOFF + [Promote]));
    assert BothActive(Run(INITIAL, actions, threshold));
  }

  // The bound is attained: for every counter f below the threshold, exactly threshold - f failed
  // checks after an answered /demote can make both nodes active.
  lemma {:induction false} BoundIsSharp(f: nat, threshold: int)
    requires f < Effective(threshold)
    ensures exists actions :: var w := Run(INITIAL, actions, threshold);
              BothActive(w) && w.answered && !w.pending && w.carried == f && w.since == Effective(threshold) - f
  {
    var n := Effective(threshold) - f;
    GetReady(threshold);
    FailuresRun(READY, f, threshold);
    var w1 := Run(READY, Failures(f), threshold);
    HandoffRun(w1, threshold);
    var w2 := Run(w1, HANDOFF, threshold);
    FailuresRun(w2, n, threshold);
    var w3 := Run(w2, Failures(n), threshold);
    PromoteRun(w3, threshold);
    RunAppend(INITIAL, [StandbyBoot, StandbyRun], Failures(f) + (HANDOFF + (Failures(n) + [Promote])), threshold);
    RunAppend(READY, Failures(f), HANDOFF + (Failures(n) + [Promote]), threshold);
    RunAppend(w1, HANDOFF, Failures(n) + [Promote], threshold);
    RunAppend(w2, Failures(n), [Promote], threshold);
    var actions := [StandbyBoot, StandbyRun] + (Failures(f) + (HANDOFF + (Failures(n) + [Promote])));
    assert BothActive(Run(INITIAL, actions, threshold));
  }
}
