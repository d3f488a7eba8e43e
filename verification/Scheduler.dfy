/** The scheduling loop (internal/scheduler/scheduler.go). Clock readings are parameters; times are
    integer nanoseconds. */
module Scheduler {
  import opened Common
  import opened Resolve
  import opened EntryHeap

  // ---------- The job queue the scheduler submits to ----------

  class JobQueue {
    const capacity: nat
    var jobs: seq<Job>
    ghost var offered: seq<Job>   // every job TrySubmit was called with
    ghost var accepted: seq<Job>  // those it enqueued

    ghost predicate Valid()
      reads this
    {
      |jobs| <= capacity
    }

    constructor (capacity: nat)
      ensures Valid() && jobs == [] && offered == [] && accepted == [] && this.capacity == capacity
    {
      this.capacity := capacity;
      jobs, offered, accepted := [], [], [];
    }

    // Non-blocking send. Before it, the workers may have taken any number of queued jobs.
    method TrySubmit(job: Job) returns (ok: bool)
      requires Valid()
      modifies this
      ensures Valid()
      ensures offered == old(offered) + [job]
      ensures accepted == if ok then old(accepted) + [job] else old(accepted)
      ensures exists taken :: 0 <= taken <= |old(jobs)| && jobs == old(jobs)[taken..] + if ok then [job] else []
      ensures |old(jobs)| < capacity ==> ok
    {
      var taken :| 0 <= taken <= |jobs|;
      jobs := jobs[taken..];
      offered := offered + [job];
      if |jobs| < capacity {
        jobs := jobs + [job];
        accepted := accepted + [job];
        return true;
      }
      return false;
    }
  }

  // ---------- Entries as timers by host ----------

  // e is one of the timers.
  predicate Has(t: map<string, Entry>, e: Entry) {
    e.hostname in t && t[e.hostname] == e
  }

  // The heap holds exactly the timers of t, each once.
  ghost predicate Tabulates(ms: multiset<Entry>, t: map<string, Entry>) {
    && (forall h <- t :: t[h].hostname == h)
    && (forall e :: ms[e] == if Has(t, e) then 1 else 0)
  }

  predicate Due(e: Entry, now: int) {
    e.nextRun <= now
  }

  function Rearm(e: Entry, now: int): Entry {
    e.(nextRun := now + e.interval)
  }

  // The effect of one pass: every due timer rearmed, all others untouched.
  function Armed(t: map<string, Entry>, now: int): map<string, Entry> {
    map h | h in t :: if Due(t[h], now) then Rearm(t[h], now) else t[h]
  }

  lemma {:induction false} Replace(ms: multiset<Entry>, ms': multiset<Entry>, t: map<string, Entry>, e: Entry, e': Entry)
    requires Tabulates(ms, t) && e in ms && e'.hostname == e.hostname
    requires ms == ms' + multiset{e}
    ensures Has(t, e)
    ensures Tabulates(ms' + multiset{e'}, t[e.hostname := e'])
  {
    var t' := t[e.hostname := e'];
    assert ms[e] >= 1;
    forall x: Entry
      ensures (ms' + multiset{e'})[x] == if Has(t', x) then 1 else 0
    {
      assert ms[x] == ms'[x] + if x == e then 1 else 0;
    }
  }

  // ---------- Job counts ----------

  function Total(es: seq<Entry>): nat {
    if es == [] then 0 else |es[0].jobs| + Total(es[1..])
  }

  function Jobs(es: seq<Entry>): seq<Job> {
    if es == [] then [] else Jobs(es[..|es| - 1]) + es[|es| - 1].jobs
  }

  lemma {:induction false} TotalRemove(es: seq<Entry>, i: nat)
    requires i < |es|
    ensures Total(es) == |es[i].jobs| + Total(es[..i] + es[i + 1..])
    ensures multiset(es) == multiset(es[..i] + es[i + 1..]) + multiset{es[i]}
    decreases i
  {
    assert es == es[..i] + [es[i]] + es[i + 1..];
    if i > 0 {
      TotalRemove(es[1..], i - 1);
      assert es[1..][..i - 1] + es[1..][i..] == (es[..i] + es[i + 1..])[1..];
    } else {
      assert es[..0] + es[1..] == es[1..];
    }
  }

  lemma {:induction false} CancelOne(x: Entry, a: multiset<Entry>, b: multiset<Entry>)
    requires multiset{x} + a <= b + multiset{x}
    ensures a <= b
  {
    forall e: Entry
      ensures a[e] <= b[e]
    {
      assert (multiset{x} + a)[e] <= (b + multiset{x})[e];
    }
  }

  lemma {:induction false} TotalMonotone(a: seq<Entry>, b: seq<Entry>)
    requires multiset(a) <= multiset(b)
    ensures Total(a) <= Total(b)
    decreases |a|
  {
    if a != [] {
      assert a == [a[0]] + a[1..];
      assert a[0] in multiset(a);
      assert a[0] in b;
      var i :| 0 <= i < |b| && b[i] == a[0];
      TotalRemove(b, i);
      CancelOne(a[0], multiset(a[1..]), multiset(b[..i] + b[i + 1..]));
      TotalMonotone(a[1..], b[..i] + b[i + 1..]);
    }
  }

  lemma {:induction false} TotalSnoc(es: seq<Entry>, e: Entry)
    ensures Total(es + [e]) == Total(es) + |e.jobs|
  {
    TotalRemove(es + [e], |es|);
    assert (es + [e])[..|es|] + (es + [e])[|es| + 1..] == es;
  }

  lemma {:induction false} TotalReplaced(all: seq<Entry>, rest: seq<Entry>, again: seq<Entry>, e: Entry, e': Entry)
    requires multiset(all) == multiset(rest) + multiset{e} && multiset(again) == multiset(rest) + multiset{e'}
    requires e.jobs == e'.jobs
    ensures Total(again) == Total(all)
  {
    TotalSnoc(rest, e);
    TotalSnoc(rest, e');
    TotalMonotone(all, rest + [e]);
    TotalMonotone(rest + [e], all);
    TotalMonotone(again, rest + [e']);
    TotalMonotone(rest + [e'], again);
  }

  lemma {:induction false} JobsSnoc(es: seq<Entry>, e: Entry)
    ensures Jobs(es + [e]) == Jobs(es) + e.jobs
  {
    assert (es + [e])[..|es|] == es;
  }

  lemma {:induction false} JobsLength(es: seq<Entry>)
    ensures |Jobs(es)| == Total(es)
    decreases |es|
  {
    if es != [] {
      var n := |es| - 1;
      JobsLength(es[..n]);
      TotalRemove(es, n);
      assert es[..n] + es[n + 1..] == es[..n];
    }
  }

  // ---------- The scheduler ----------

  // The queue's history, and the drop counter, at some moment.
  datatype Mark = Mark(offered: seq<Job>, accepted: seq<Job>, queued: nat, dropped: nat)

  // Between two marks the queue was offered exactly the jobs sent; each was accepted or counted
  // as dropped, and none was dropped if all had room.
  ghost predicate Extends(m: Mark, m': Mark, sent: seq<Job>, capacity: nat) {
    && m'.offered == m.offered + sent
    && m'.dropped >= m.dropped
    && |m'.accepted| + m'.dropped == |m.accepted| + m.dropped + |sent|
    && m'.queued <= m.queued + |sent|
    && (m.queued + |sent| <= capacity ==> m'.dropped == m.dropped && m'.accepted == m.accepted + sent)
  }

  lemma {:induction false} ExtendsChain(m1: Mark, m2: Mark, m3: Mark, a: seq<Job>, b: seq<Job>, capacity: nat)
    requires Extends(m1, m2, a, capacity) && Extends(m2, m3, b, capacity)
    ensures Extends(m1, m3, a + b, capacity)
  {
    assert m1.offered + a + b == m1.offered + (a + b);
    assert m1.accepted + a + b == m1.accepted + (a + b);
  }

  class Scheduler {
    var pool: JobQueue
    var heap: Heap
    var dropped: nat
    ghost var timers: map<string, Entry>

    ghost predicate Valid()
      reads this, heap, pool
    {
      && pool.Valid()
      && IsHeap(heap.entries) && Tabulates(multiset(heap.entries), timers)
      && forall h <- timers :: timers[h].interval > 0
    }

    constructor (pool: JobQueue, heap: Heap, ghost timers: map<string, Entry>)
      requires pool.Valid() && IsHeap(heap.entries) && Tabulates(multiset(heap.entries), timers)
      requires forall h <- timers :: timers[h].interval > 0
      ensures Valid() && this.pool == pool && this.heap == heap && dropped == 0 && this.timers == timers
    {
      this.pool, this.heap, dropped, this.timers := pool, heap, 0, timers;
    }

    method SetPool(next: JobQueue)
      requires Valid() && next.Valid()
      modifies this`pool
      ensures Valid() && pool == next
    {
      pool := next;
    }

    // Every timer starts afresh: all devices of the new configuration are due at once.
    method Reload(jobs: seq<Job>, now: int)
      requires Valid()
      modifies this`heap, this`timers
      ensures Valid() && fresh(heap) && Initial(timers, jobs, now)
      ensures forall h <- timers :: timers[h].nextRun == now
      ensures Total(heap.entries) == |jobs|
    {
      heap, timers := BuildEntries(jobs, now);
    }

    ghost predicate Sent(mark: Mark, sent: seq<Job>)
      reads this, pool
    {
      Extends(mark, Now(), sent, pool.capacity)
    }

    ghost function Now(): Mark
      reads this, pool
    {
      Mark(pool.offered, pool.accepted, |pool.jobs|, dropped)
    }

    method FireEntry(e: Entry, ghost mark: Mark, ghost sent: seq<Job>)
      requires pool.Valid() && Sent(mark, sent)
      modifies pool, this`dropped
      ensures pool.Valid() && Sent(mark, sent + e.jobs)
    {
      for i := 0 to |e.jobs|
        invariant pool.Valid()
        invariant Sent(mark, sent + e.jobs[..i])
      {
        ghost var m := Now();
        var ok := pool.TrySubmit(e.jobs[i]);
        if !ok {
          dropped := dropped + 1;
        }
        ExtendsChain(mark, m, Now(), sent + e.jobs[..i], [e.jobs[i]], pool.capacity);
        assert sent + e.jobs[..i + 1] == sent + e.jobs[..i] + [e.jobs[i]];
      }
      assert e.jobs[..|e.jobs|] == e.jobs;
    }

    // One turn of the due loop: pop the least entry, fire it, push it back rearmed.
    method FireNext(now: int, ghost mark: Mark, ghost sent: seq<Job>)
      returns (e: Entry)
      requires Valid() && Sent(mark, sent)
      requires heap.entries != [] && heap.entries[0].nextRun <= now
      modifies this`dropped, this`timers, heap, pool
      ensures Valid()
      ensures e in old(heap.entries) && Due(e, now)
      ensures forall x <- old(heap.entries) :: e.nextRun <= x.nextRun
      ensures timers == old(timers)[e.hostname := Rearm(e, now)]
      ensures Total(heap.entries) == Total(old(heap.entries))
      ensures Sent(mark, sent + e.jobs)
    {
      ghost var all := heap.entries;
      e := heap.Pop();
      ghost var rest := heap.entries;
      FireEntry(e, mark, sent);
      var e' := e.(nextRun := now + e.interval);
      heap.Push(e');
      TotalReplaced(all, rest, heap.entries, e, e');
      assert e in multiset(all);
      Replace(multiset(all), multiset(rest), timers, e, e');
      timers := timers[e.hostname := e'];
    }

    // The due loop of Start at one clock reading.
    method Pass(now: int) returns (ghost fired: seq<Entry>)
      requires Valid()
      modifies this`dropped, this`timers, heap, pool
      ensures Valid()
      ensures timers == Armed(old(timers), now)
      ensures FiredExactly(fired, old(timers), now)
      ensures Total(heap.entries) == Total(old(heap.entries))
      ensures Sent(old(Now()), Jobs(fired))
    {
      ghost var t0 := timers;
      ghost var done: set<string> := {};
      ghost var mark, total := Now(), Total(heap.entries);
      fired := [];
      while |heap.entries| > 0 && heap.entries[0].nextRun <= now
        invariant Valid() && done <= t0.Keys
        invariant FiredSoFar(fired, done, t0, timers, now)
        invariant Total(heap.entries) == total
        invariant Sent(mark, Jobs(fired))
        decreases t0.Keys - done
      {
        ghost var all, t := heap.entries, timers;
        var e := FireNext(now, mark, Jobs(fired));
        FireStep(fired, done, t0, t, e, now, all);
        JobsSnoc(fired, e);
        done := done + {e.hostname};
        fired := fired + [e];
      }
      NoneLeft(heap.entries, fired, done, t0, timers, now);
    }
  }

  function AfterSome(t: map<string, Entry>, done: set<string>, now: int): map<string, Entry> {
    map h | h in t :: if h in done then Rearm(t[h], now) else t[h]
  }

  ghost predicate Increasing(fired: seq<Entry>) {
    forall i, j :: 0 <= i < j < |fired| ==> fired[i].nextRun <= fired[j].nextRun && fired[i].hostname != fired[j].hostname
  }

  // Exactly the due timers, each once, in nondecreasing nextRun order.
  ghost predicate FiredExactly(fired: seq<Entry>, t: map<string, Entry>, now: int) {
    && Increasing(fired)
    && forall e :: e in fired <==> Has(t, e) && Due(e, now)
  }

  ghost predicate FiredSoFar(fired: seq<Entry>, done: set<string>, t0: map<string, Entry>, t: map<string, Entry>, now: int)
    requires done <= t0.Keys
  {
    && t == AfterSome(t0, done, now)
    && Increasing(fired)
    && (forall e <- fired :: e.hostname in done && Has(t0, e) && Due(e, now))
    && (forall h <- done :: t0[h] in fired)
    && (forall e <- fired, h <- t :: h !in done ==> e.nextRun <= t[h].nextRun)
  }

  lemma {:induction false} FireStep(fired: seq<Entry>, done: set<string>, t0: map<string, Entry>, t: map<string, Entry>,
                                    e: Entry, now: int, all: seq<Entry>)
    requires done <= t0.Keys && Tabulates(multiset(all), t)
    requires forall h <- t :: t[h].interval > 0
    requires FiredSoFar(fired, done, t0, t, now)
    requires e in all && Due(e, now) && forall x <- all :: e.nextRun <= x.nextRun
    ensures e.hostname in t0 && e.hostname !in done
    ensures var done', t' := done + {e.hostname}, t[e.hostname := Rearm(e, now)];
            FiredSoFar(fired + [e], done', t0, t', now)
  {
    assert multiset(all)[e] >= 1;
    assert Has(t, e);
    forall h | h in t
      ensures e.nextRun <= t[h].nextRun
    {
      assert multiset(all)[t[h]] == 1;
      assert t[h] in all;
    }
  }

  lemma {:induction false} NoneLeft(all: seq<Entry>, fired: seq<Entry>, done: set<string>,
                                    t0: map<string, Entry>, t: map<string, Entry>, now: int)
    requires done <= t0.Keys && Tabulates(multiset(all), t)
    requires FiredSoFar(fired, done, t0, t, now)
    requires IsHeap(all) && (all == [] || !Due(all[0], now))
    ensures t == Armed(t0, now) && FiredExactly(fired, t0, now)
  {
    forall h | h in t
      ensures !Due(t[h], now)
    {
      assert multiset(all)[t[h]] == 1;
      assert t[h] in all;
      var j :| 0 <= j < |all| && all[j] == t[h];
      RootIsLeast(all, j);
    }
    forall h | h in t0
      ensures h in done <==> Due(t0[h], now)
    {
      assert h in t;
    }
  }

  // ---------- Whole runs: each device has its own timer ----------

  // The timers after the first n passes.
  function RunTimers(t: map<string, Entry>, clocks: seq<int>, n: nat): map<string, Entry>
    requires n <= |clocks|
  {
    if n == 0 then t else Armed(RunTimers(t, clocks, n - 1), clocks[n - 1])
  }

  // Host h fires in pass i of the run.
  predicate Fires(t: map<string, Entry>, clocks: seq<int>, h: string, i: nat)
    requires h in t && i < |clocks|
  {
    var now := RunTimers(t, clocks, i);
    h in now && Due(now[h], clocks[i])
  }

  function JobsUpTo(fired: seq<seq<Entry>>, n: nat): seq<Job>
    requires n <= |fired|
  {
    if n == 0 then [] else JobsUpTo(fired, n - 1) + Jobs(fired[n - 1])
  }

  lemma {:induction false} JobsUpToSnoc(fired: seq<seq<Entry>>, f: seq<Entry>, n: nat)
    requires n <= |fired|
    ensures JobsUpTo(fired + [f], n) == JobsUpTo(fired, n)
  {
    if n > 0 {
      JobsUpToSnoc(fired, f, n - 1);
    }
  }

  // Pass i of the run fires exactly its due timers.
  ghost predicate RunFires(fired: seq<seq<Entry>>, t: map<string, Entry>, clocks: seq<int>) {
    |fired| <= |clocks|
    && forall i {:trigger fired[i]} :: 0 <= i < |fired| ==> FiredExactly(fired[i], RunTimers(t, clocks, i), clocks[i])
  }

  lemma {:induction false} RunFiresSnoc(fired: seq<seq<Entry>>, f: seq<Entry>, t: map<string, Entry>, clocks: seq<int>)
    requires RunFires(fired, t, clocks) && |fired| < |clocks|
    requires FiredExactly(f, RunTimers(t, clocks, |fired|), clocks[|fired|])
    ensures RunFires(fired + [f], t, clocks)
    ensures JobsUpTo(fired + [f], |fired| + 1) == JobsUpTo(fired, |fired|) + Jobs(f)
  {
    var all := fired + [f];
    JobsUpToSnoc(fired, f, |fired|);
    forall i | 0 <= i < |all|
      ensures FiredExactly(all[i], RunTimers(t, clocks, i), clocks[i])
    {
      if i < |fired| {
        assert all[i] == fired[i];
      }
    }
  }

  // Passes at the given clocks, without a reload.
  method Passes(s: Scheduler, clocks: seq<int>) returns (ghost fired: seq<seq<Entry>>)
    requires s.Valid()
    modifies s`dropped, s`timers, s.heap, s.pool
    ensures s.Valid() && s.timers == RunTimers(old(s.timers), clocks, |clocks|)
    ensures |fired| == |clocks| && RunFires(fired, old(s.timers), clocks)
    ensures s.Sent(old(s.Now()), JobsUpTo(fired, |clocks|))
    ensures Total(s.heap.entries) == Total(old(s.heap.entries))
  {
    fired := [];
    ghost var mark, t0, total := s.Now(), s.timers, Total(s.heap.entries);
    for i := 0 to |clocks|
      invariant s.Valid() && s.timers == RunTimers(t0, clocks, i)
      invariant |fired| == i && RunFires(fired, t0, clocks)
      invariant s.Sent(mark, JobsUpTo(fired, i))
      invariant Total(s.heap.entries) == total
    {
      ghost var m := s.Now();
      ghost var f := s.Pass(clocks[i]);
      ExtendsChain(mark, m, s.Now(), JobsUpTo(fired, i), Jobs(f), s.pool.capacity);
      RunFiresSnoc(fired, f, t0, clocks);
      fired := fired + [f];
    }
  }

  lemma {:induction false} TimerKeeps(t: map<string, Entry>, clocks: seq<int>, h: string, n: nat)
    requires h in t && n <= |clocks|
    ensures h in RunTimers(t, clocks, n)
    ensures RunTimers(t, clocks, n)[h] == t[h].(nextRun := RunTimers(t, clocks, n)[h].nextRun)
  {
    if n > 0 {
      TimerKeeps(t, clocks, h, n - 1);
    }
  }

  // The other devices do not matter.
  lemma {:induction false} Independent(t: map<string, Entry>, clocks: seq<int>, h: string, n: nat)
    requires h in t && n <= |clocks|
    ensures h in RunTimers(t, clocks, n) && h in RunTimers(map[h := t[h]], clocks, n)
    ensures RunTimers(t, clocks, n)[h] == RunTimers(map[h := t[h]], clocks, n)[h]
  {
    if n > 0 {
      Independent(t, clocks, h, n - 1);
    }
  }

  // Between two firings the timer stands still.
  lemma {:induction false} Quiet(t: map<string, Entry>, clocks: seq<int>, h: string, lo: nat, hi: nat)
    requires h in t && lo <= hi <= |clocks|
    requires forall k :: lo <= k < hi ==> !Fires(t, clocks, h, k)
    ensures h in RunTimers(t, clocks, lo) && h in RunTimers(t, clocks, hi)
    ensures RunTimers(t, clocks, hi)[h] == RunTimers(t, clocks, lo)[h]
    decreases hi
  {
    TimerKeeps(t, clocks, h, lo);
    if lo < hi {
      Quiet(t, clocks, h, lo, hi - 1);
      assert !Fires(t, clocks, h, hi - 1);
    }
  }

  // After firing in pass j, and not since, a host fires in pass i exactly when its interval has
  // elapsed since that pass; before its first firing, exactly when its start time has come.
  lemma {:induction false} OwnTimer(t: map<string, Entry>, clocks: seq<int>, h: string, i: nat)
    requires h in t && i < |clocks|
    ensures (forall k :: 0 <= k < i ==> !Fires(t, clocks, h, k)) ==>
              (Fires(t, clocks, h, i) <==> clocks[i] >= t[h].nextRun)
    ensures forall j :: 0 <= j < i && Fires(t, clocks, h, j) && (forall k :: j < k < i ==> !Fires(t, clocks, h, k)) ==>
              (Fires(t, clocks, h, i) <==> clocks[i] >= clocks[j] + t[h].interval)
  {
    if forall k :: 0 <= k < i ==> !Fires(t, clocks, h, k) {
      Quiet(t, clocks, h, 0, i);
    }
    forall j | 0 <= j < i && Fires(t, clocks, h, j) && (forall k :: j < k < i ==> !Fires(t, clocks, h, k))
      ensures Fires(t, clocks, h, i) <==> clocks[i] >= clocks[j] + t[h].interval
    {
      TimerKeeps(t, clocks, h, j);
      Quiet(t, clocks, h, j + 1, i);
    }
  }

  // ---------- Building the entries ----------

  const SECOND := 1_000_000_000

  // Durations are 64-bit nanoseconds; the product wraps around.
  function Wrap64(x: int): (w: int)
    ensures -0x8000_0000_0000_0000 <= w <= 0x7FFF_FFFF_FFFF_FFFF
    ensures -0x8000_0000_0000_0000 <= x <= 0x7FFF_FFFF_FFFF_FFFF ==> w == x
  {
    (x + 0x8000_0000_0000_0000) % 0x1_0000_0000_0000_0000 - 0x8000_0000_0000_0000
  }

  function IntervalOf(pollInterval: Int64): (d: int)
    ensures d > 0
    ensures 0 < pollInterval <= 9_223_372_036 ==> d == pollInterval * SECOND
    ensures pollInterval == 0 ==> d == 60 * SECOND
  {
    var d := Wrap64(pollInterval * SECOND);
    if d <= 0 then 60 * SECOND else d
  }

  function EntryOf(h: string, jobs: seq<Job>, now: int): Entry
    requires jobs != []
  {
    Entry(h, IntervalOf(jobs[0].config.pollInterval), now, jobs)
  }

  // One timer per host that has jobs, due at once, holding exactly that host's jobs.
  ghost predicate Initial(t: map<string, Entry>, jobs: seq<Job>, now: int) {
    forall h :: if JobsOf(jobs, h) == [] then h !in t
                else h in t && t[h] == EntryOf(h, JobsOf(jobs, h), now)
  }

  // A fresh timer: due at once, the interval configured on the host's first job, that host's jobs.
  lemma {:induction false} FreshTimer(t: map<string, Entry>, jobs: seq<Job>, now: int, h: string)
    requires Initial(t, jobs, now)
    ensures h in t <==> exists j <- jobs :: j.hostname == h
    ensures h in t ==>
              && t[h].hostname == h && t[h].nextRun == now && t[h].jobs == JobsOf(jobs, h) && t[h].jobs != []
              && var configured := t[h].jobs[0].config.pollInterval;
              && (0 < configured <= 9_223_372_036 ==> t[h].interval == configured * 1_000_000_000)
              && (configured == 0 ==> t[h].interval == 60_000_000_000)
  {
    var from := JobsOfExact(jobs, h);
    if j :| j in jobs && j.hostname == h {
      JobHasHost(jobs, j);
    }
    if h in t {
      assert jobs[from[0]].hostname == h;
    }
  }

  // After a reload the first pass, whenever it comes, polls everything: every job of the new
  // configuration is among those offered.
  lemma {:induction false} ReloadPollsAll(t: map<string, Entry>, jobs: seq<Job>, now: int, clock: int, fired: seq<Entry>, j: Job)
    requires Initial(t, jobs, now) && now <= clock && FiredExactly(fired, t, clock) && j in jobs
    ensures j in Jobs(fired)
  {
    FreshTimer(t, jobs, now, j.hostname);
    JobHasHost(jobs, j);
    var e := t[j.hostname];
    assert e in fired;
    JobsHolds(fired, e, j);
  }

  lemma {:induction false} JobsHolds(es: seq<Entry>, e: Entry, j: Job)
    requires e in es && j in e.jobs
    ensures j in Jobs(es)
    decreases |es|
  {
    var n := |es| - 1;
    if es[n] != e {
      assert e in es[..n];
      JobsHolds(es[..n], e, j);
    }
  }

  method MakeEntry(h: string, jobs: seq<Job>, now: int) returns (e: Entry)
    requires jobs != []
    ensures e == EntryOf(h, jobs, now)
  {
    var interval := Wrap64(jobs[0].config.pollInterval * SECOND);
    if interval <= 0 {
      interval := 60 * SECOND;
    }
    e := Entry(h, interval, now, jobs);
  }

  // Entries built so far, one per host of the given list, and the timers they stand for.
  ghost predicate Built(es: seq<Entry>, hosts: seq<string>, timers: map<string, Entry>, byHost: map<string, seq<Job>>, now: int)
    requires forall h <- byHost :: byHost[h] != []
  {
    && Distinct(hosts) && |es| == |hosts|
    && (forall h :: h in hosts <==> h in timers)
    && (forall h <- timers :: h in byHost && timers[h] == EntryOf(h, byHost[h], now))
    && (forall i {:trigger es[i]} :: 0 <= i < |es| ==> hosts[i] in byHost && es[i].jobs == byHost[hosts[i]])
    && Tabulates(multiset(es), timers)
  }

  ghost predicate Distinct(hosts: seq<string>) {
    forall i, j :: 0 <= i < j < |hosts| ==> hosts[i] != hosts[j]
  }

  lemma {:induction false} BuildStep(es: seq<Entry>, hosts: seq<string>, timers: map<string, Entry>,
                                     byHost: map<string, seq<Job>>, now: int, h: string)
    requires forall h <- byHost :: byHost[h] != []
    requires Built(es, hosts, timers, byHost, now) && h in byHost && h !in timers
    ensures var e := EntryOf(h, byHost[h], now);
            Built(es + [e], hosts + [h], timers[h := e], byHost, now)
  {
    var e := EntryOf(h, byHost[h], now);
    AddTimer(multiset(es), timers, e);
    assert multiset(es + [e]) == multiset(es) + multiset{e};
    assert h !in hosts;
  }

  // The hosts come up in an arbitrary order.
  method BuildUnordered(byHost: map<string, seq<Job>>, now: int)
    returns (es: seq<Entry>, ghost hosts: seq<string>, ghost timers: map<string, Entry>)
    requires forall h <- byHost :: byHost[h] != []
    ensures Built(es, hosts, timers, byHost, now) && timers.Keys == byHost.Keys
  {
    es, hosts, timers := [], [], map[];
    var todo := byHost.Keys;
    while todo != {}
      invariant todo <= byHost.Keys && timers.Keys == byHost.Keys - todo
      invariant Built(es, hosts, timers, byHost, now)
      decreases todo
    {
      var h :| h in todo;
      todo := todo - {h};
      var e := MakeEntry(h, byHost[h], now);
      BuildStep(es, hosts, timers, byHost, now, h);
      es := es + [e];
      hosts := hosts + [h];
      timers := timers[h := e];
    }
  }

  method BuildEntries(jobs: seq<Job>, now: int) returns (heap: Heap, ghost timers: map<string, Entry>)
    ensures fresh(heap) && IsHeap(heap.entries) && Tabulates(multiset(heap.entries), timers)
    ensures Initial(timers, jobs, now)
    ensures forall h <- timers :: timers[h].interval > 0
    ensures Total(heap.entries) == |jobs|
  {
    var byHost := JobsByHostname(jobs);
    var es: seq<Entry>;
    ghost var hosts;
    es, hosts, timers := BuildUnordered(byHost, now);
    BuildDone(es, hosts, timers, jobs, byHost, now);
    heap := new Heap(es);
    heap.Init();
    TotalMonotone(es, heap.entries);
    TotalMonotone(heap.entries, es);
  }

  lemma {:induction false} BuildDone(es: seq<Entry>, hosts: seq<string>, timers: map<string, Entry>, jobs: seq<Job>,
                                     byHost: map<string, seq<Job>>, now: int)
    requires forall h <- byHost :: byHost[h] != []
    requires Built(es, hosts, timers, byHost, now) && timers.Keys == byHost.Keys
    requires forall h :: JobsOf(jobs, h) == if h in byHost then byHost[h] else []
    ensures Total(es) == |jobs| && Initial(timers, jobs, now)
    ensures forall h <- timers :: timers[h].interval > 0
  {
    HostsCover(jobs, hosts, byHost);
    GroupingConserves(hosts, jobs);
    TotalIsSizes(es, hosts, jobs);
  }

  lemma {:induction false} AddTimer(ms: multiset<Entry>, t: map<string, Entry>, e: Entry)
    requires Tabulates(ms, t) && e.hostname !in t
    ensures Tabulates(ms + multiset{e}, t[e.hostname := e])
  {
  }

  lemma {:induction false} HostsCover(jobs: seq<Job>, hosts: seq<string>, byHost: map<string, seq<Job>>)
    requires forall h :: JobsOf(jobs, h) == if h in byHost then byHost[h] else []
    requires forall h <- byHost :: h in hosts
    ensures forall j <- jobs :: j.hostname in hosts
  {
    forall j | j in jobs
      ensures j.hostname in hosts
    {
      JobHasHost(jobs, j);
      assert JobsOf(jobs, j.hostname) != [];
    }
  }

  lemma {:induction false} JobHasHost(jobs: seq<Job>, j: Job)
    requires j in jobs
    ensures j in JobsOf(jobs, j.hostname)
    decreases |jobs|
  {
    var n := |jobs| - 1;
    if jobs[n] != j {
      assert j in jobs[..n];
      JobHasHost(jobs[..n], j);
    }
  }

  lemma {:induction false} TotalIsSizes(es: seq<Entry>, hosts: seq<string>, jobs: seq<Job>)
    requires |es| == |hosts| && forall i :: 0 <= i < |es| ==> es[i].jobs == JobsOf(jobs, hosts[i])
    ensures Total(es) == Sizes(hosts, jobs)
    decreases |es|
  {
    if es != [] {
      TotalIsSizes(es[1..], hosts[1..], jobs);
    }
  }

  // ---------- The automatic queue size ----------

  // app.Start: as many slots as resolved jobs, at least twice the workers.
  function QueueSize(configured: int, jobs: nat, workers: nat): int {
    if configured > 0 then configured
    else if jobs >= workers * 2 then jobs else workers * 2
  }

  // NewWorkerPool: a size of zero falls back to twice the (defaulted) workers.
  function PoolCapacity(size: int, workers: nat): nat {
    if size <= 0 then (if workers == 0 then 100 else workers) * 2 else size
  }

  method Start(cfg: Config, hostnames: seq<string>, configured: int, workers: nat, now: int) returns (s: Scheduler)
    requires forall h <- hostnames :: h in cfg.devices
    ensures fresh(s) && fresh(s.pool) && fresh(s.heap) && s.Valid()
    ensures s.pool.jobs == [] && s.dropped == 0
    ensures Initial(s.timers, AllJobs(cfg, hostnames), now)
    ensures Total(s.heap.entries) == |AllJobs(cfg, hostnames)|
    ensures configured > 0 ==> s.pool.capacity == configured
    ensures configured <= 0 ==> Total(s.heap.entries) <= s.pool.capacity
    ensures configured <= 0 && Total(s.heap.entries) > 0 && 2 * workers <= Total(s.heap.entries) ==>
              s.pool.capacity == Total(s.heap.entries)
    ensures configured <= 0 && Total(s.heap.entries) < 2 * workers ==> s.pool.capacity == 2 * workers
    ensures configured <= 0 && Total(s.heap.entries) == workers == 0 ==> s.pool.capacity == 200
  {
    var jobs := ResolveJobs(cfg, hostnames);
    var pool := new JobQueue(PoolCapacity(QueueSize(configured, |jobs|, workers), workers));
    var heap: Heap;
    ghost var timers;
    heap, timers := BuildEntries(jobs, now);
    s := new Scheduler(pool, heap, timers);
  }

  lemma {:induction false} NoRepeats(fired: seq<Entry>, e: Entry)
    requires Increasing(fired)
    ensures multiset(fired)[e] <= 1
    decreases |fired|
  {
    if fired != [] {
      var n := |fired| - 1;
      assert fired == fired[..n] + [fired[n]];
      NoRepeats(fired[..n], e);
      if e == fired[n] {
        assert e !in fired[..n];
      }
    }
  }

  lemma {:induction false} FiredFromEntries(fired: seq<Entry>, es: seq<Entry>, t: map<string, Entry>, now: int)
    requires FiredExactly(fired, t, now) && Tabulates(multiset(es), t)
    ensures multiset(fired) <= multiset(es)
  {
    forall e: Entry
      ensures multiset(fired)[e] <= multiset(es)[e]
    {
      NoRepeats(fired, e);
      if e in fired {
        assert multiset(es)[e] == 1;
      }
    }
  }

  // A pass never fires more jobs than all entries together hold, and keeps that total; so with an
  // automatic queue size no pass that finds the queue empty drops a job, in any run.
  method PassFromEmpty(s: Scheduler, now: int) returns (ghost fired: seq<Entry>)
    requires s.Valid() && s.pool.jobs == [] && Total(s.heap.entries) <= s.pool.capacity
    modifies s`dropped, s`timers, s.heap, s.pool
    ensures s.Valid() && s.timers == Armed(old(s.timers), now) && FiredExactly(fired, old(s.timers), now)
    ensures s.dropped == old(s.dropped)
    ensures s.pool.accepted == old(s.pool.accepted) + Jobs(fired)
    ensures Total(s.heap.entries) == Total(old(s.heap.entries))
  {
    ghost var before, t := s.heap.entries, s.timers;
    fired := s.Pass(now);
    FiredFromEntries(fired, before, t, now);
    TotalMonotone(fired, before);
    JobsLength(fired);
  }
}
