/** Counter deltas (internal/producer/metrics/normalize.go).
    Sample times are abstract integers; counters are 64-bit words with explicit wrap-around. */
module CounterState {
  import opened Common

  const MAX_COUNTER32: int := 0xFFFF_FFFF
  const MAX_COUNTER64: int := MAX_WORD

  datatype Key = Key(device: string, attribute: string, instance: string)
  datatype Entry = Entry(value: Word, seenAt: int)
  datatype DeltaResult = DeltaResult(delta: Word, elapsed: int, valid: bool, reset: bool)

  const INVALID := DeltaResult(0, 0, false, false)

  function IsCounterReset(prev: Word, current: Word, wrap: Word): bool
    requires current < prev
  {
    wrap == MAX_COUNTER64 || prev - current <= wrap / 2
  }

  // What one observation reports, given the entry stored before it.
  function Report(prev: Option<Entry>, current: Word, now: int, wrap: Word): DeltaResult {
    match prev
    case None => INVALID
    case Some(e) =>
      if now - e.seenAt <= 0 then INVALID
      else if current >= e.value then DeltaResult(current - e.value, now - e.seenAt, true, false)
      else if IsCounterReset(e.value, current, wrap) then DeltaResult(0, now - e.seenAt, true, true)
      else DeltaResult((wrap - e.value + current + 1) % (MAX_COUNTER64 + 1), now - e.seenAt, true, false)
  }

  predicate IsCounterSyntax(syntax: string) {
    syntax == "Counter32" || syntax == "Counter64"
  }

  function WrapForSyntax(syntax: string): Word {
    if syntax == "Counter32" then MAX_COUNTER32 else MAX_COUNTER64
  }

  function Lookup(m: map<Key, Entry>, key: Key): Option<Entry> {
    if key in m then Some(m[key]) else None
  }

  // The entries a purge with this cutoff keeps.
  function Fresh(m: map<Key, Entry>, cutoff: int): map<Key, Entry> {
    map k | k in m && m[k].seenAt >= cutoff :: m[k]
  }

  class CounterTable {
    var entries: map<Key, Entry>

    constructor ()
      ensures entries == map[]
    {
      entries := map[];
    }

    method Delta(key: Key, current: Word, now: int, wrap: Word) returns (r: DeltaResult)
      modifies this
      ensures entries == old(entries)[key := Entry(current, now)]
      ensures r == Report(Lookup(old(entries), key), current, now, wrap)
      ensures r.valid <==> key in old(entries) && old(entries)[key].seenAt < now
      ensures r.valid ==> r.elapsed == now - old(entries)[key].seenAt
      ensures !r.valid ==> r.delta == 0 && r.elapsed == 0 && !r.reset
    {
      var known := key in entries;
      var prev := if known then entries[key] else Entry(0, 0);
      entries := entries[key := Entry(current, now)];
      if !known {
        return INVALID;
      }
      var elapsed := now - prev.seenAt;
      if elapsed <= 0 {
        return INVALID;
      }
      var delta: Word;
      if current >= prev.value {
        delta := current - prev.value;
      } else if IsCounterReset(prev.value, current, wrap) {
        return DeltaResult(0, elapsed, true, true);
      } else {
        delta := (wrap - prev.value + current + 1) % (MAX_COUNTER64 + 1);
      }
      return DeltaResult(delta, elapsed, true, false);
    }

    method Remove(key: Key)
      modifies this
      ensures entries == old(entries) - {key}
    {
      entries := entries - {key};
    }

    // The map is visited in an arbitrary order, one key at a time.
    method Purge(maxAge: int, now: int) returns (removed: nat)
      modifies this
      ensures entries == Fresh(old(entries), now - maxAge)
      ensures removed == |old(entries)| - |entries|
    {
      var cutoff := now - maxAge;
      removed := 0;
      var todo := entries.Keys;
      while todo != {}
        invariant todo <= entries.Keys <= old(entries).Keys
        invariant forall k <- entries :: entries[k] == old(entries)[k]
        invariant forall k <- old(entries).Keys - todo ::
                    k in entries <==> old(entries)[k].seenAt >= cutoff
        invariant removed == |old(entries)| - |entries|
        decreases todo
      {
        var k :| k in todo;
        todo := todo - {k};
        if entries[k].seenAt < cutoff {
          assert |entries.Keys - {k}| == |entries.Keys| - 1;
          assert (entries - {k}).Keys == entries.Keys - {k};
          entries := entries - {k};
          removed := removed + 1;
        }
      }
      assert entries == Fresh(old(entries), cutoff);
    }
  }

  // ---------- One step: when is the reported delta the true increase? ----------

  // A monotone counter of unbounded value t is observed modulo wrap + 1.
  function Observed(t: nat, wrap: Word): Word
    requires wrap > 0
  {
    t % (wrap + 1)
  }

  // The exact condition on the true value before the step and the true increase.
  predicate Trackable(t: nat, inc: nat, wrap: Word)
    requires wrap > 0
  {
    if wrap == MAX_COUNTER64 then Observed(t, wrap) + inc <= MAX_COUNTER64
    else inc <= wrap && (Observed(t, wrap) + inc <= wrap || inc <= wrap / 2 + 1)
  }

  lemma {:induction false} WrapSplit(t: nat, inc: nat, m: nat) returns (laps: nat)
    requires m > 0
    ensures t % m + inc == (t + inc) % m + laps * m
    ensures inc < m ==> laps <= 1
    ensures laps == 0 <==> t % m + inc < m
  {
    laps := (t + inc) / m - t / m by {
      DivMonotone(t, inc, m);
    }
    var q, p := (t + inc) / m, t / m;
    assert t + inc == q * m + (t + inc) % m;
    assert t == p * m + t % m;
    assert q * m - p * m == (q - p) * m;
    LapBound(laps, (t + inc) % m, t % m + inc, m);
  }

  lemma {:induction false} DivMonotone(t: nat, inc: nat, m: nat)
    requires m > 0
    ensures t / m <= (t + inc) / m
  {
    var p, q := t / m, (t + inc) / m;
    assert t == p * m + t % m;
    assert t + inc == q * m + (t + inc) % m;
    MulMonotone(p, q + 1, m);
  }

  lemma {:induction false} MulMonotone(a: int, b: int, m: nat)
    ensures a >= b ==> a * m >= b * m
  {
    if a >= b {
      assert (a - b) * m >= 0;
      assert (a - b) * m == a * m - b * m;
    }
  }

  lemma {:induction false} LapBound(laps: nat, rest: nat, total: nat, m: nat)
    requires m > 0 && rest < m && total == rest + laps * m
    ensures total < 2 * m ==> laps <= 1
    ensures laps == 0 <==> total < m
  {
    if laps >= 2 {
      assert laps * m >= 2 * m;
    }
    if laps >= 1 {
      assert laps * m >= m;
    }
  }

  // Both counter syntaxes at once. The report is the true increase exactly on trackable steps,
  // never exceeds it, and the wrap arithmetic never leaves 64 bits.
  lemma {:induction false} StepExact(t: nat, inc: nat, at: int, now: int, wrap: Word)
    requires wrap == MAX_COUNTER32 || wrap == MAX_COUNTER64
    requires at < now
    ensures var r := Report(Some(Entry(Observed(t, wrap), at)), Observed(t + inc, wrap), now, wrap);
            && r.valid && r.elapsed == now - at
            && r.delta <= inc
            && (r.delta == inc <==> Trackable(t, inc, wrap))
            && (Trackable(t, inc, wrap) ==> !r.reset)
  {
    var laps := WrapSplit(t, inc, wrap + 1);
    if laps >= 1 {
      assert laps * (wrap + 1) >= wrap + 1;
    }
    if laps >= 2 {
      assert laps * (wrap + 1) >= 2 * (wrap + 1);
    }
  }

  // What an untrackable step reports: a flagged 0 where the observed value fell, for Counter64 by
  // anything, for Counter32 by at most half the range; else the true increase less whole laps.
  lemma {:induction false} StepOtherwise(t: nat, inc: nat, at: int, now: int, wrap: Word)
    requires wrap == 0xFFFF_FFFF || wrap == 0xFFFF_FFFF_FFFF_FFFF
    requires at < now
    ensures var prev, current := t % (wrap + 1), (t + inc) % (wrap + 1);
            var r := Report(Some(Entry(prev, at)), current, now, wrap);
            && (r.reset <==> current < prev && (wrap == 0xFFFF_FFFF_FFFF_FFFF || prev - current <= 0x7FFF_FFFF))
            && (r.reset ==> r.delta == 0)
            && (!r.reset ==> r.delta == inc % (wrap + 1))
  {
    var m := wrap + 1;
    var laps := WrapSplit(t, inc, m);
    var q, rest := inc / m, inc % m;
    assert inc == q * m + rest;
    var prev, current := t % m, (t + inc) % m;
    assert current - prev - rest == (q - laps) * m by {
      assert (q - laps) * m == q * m - laps * m;
    }
    NearMultiple(q - laps, current - prev - rest, m);
  }

  // Only 0 and -m lie within less than two m below and one above.
  lemma {:induction false} NearMultiple(k: int, d: int, m: nat)
    requires m > 0 && d == k * m && -2 * m < d < m
    ensures d == 0 || d + m == 0
  {
    if k >= 1 {
      MulMonotone(k, 1, m);
    } else if k <= -2 {
      MulMonotone(-2, k, m);
    }
  }

  // 2^31 is the largest increment that is safe whatever the counter's position:
  // one more, across a rollover, is taken for a reset.
  lemma {:induction false} HalfRangeIsSharp(t: nat, at: int, now: int)
    requires at < now
    requires Observed(t, MAX_COUNTER32) + 0x8000_0001 > MAX_COUNTER32
    ensures Report(Some(Entry(Observed(t, MAX_COUNTER32), at)),
                   Observed(t + 0x8000_0001, MAX_COUNTER32), now, MAX_COUNTER32)
         == DeltaResult(0, now - at, true, true)
  {
    var laps := WrapSplit(t, 0x8000_0001, MAX_COUNTER32 + 1);
    assert laps == 1;
  }

  // ---------- Whole runs ----------

  datatype Op =
    | Observe(key: Key, current: Word, now: int, wrap: Word)
    | PurgeAll(maxAge: int, now: int)
    | Forget(key: Key)

  function Apply(m: map<Key, Entry>, op: Op): map<Key, Entry> {
    match op
    case Observe(key, current, now, _) => m[key := Entry(current, now)]
    case PurgeAll(maxAge, now) => Fresh(m, now - maxAge)
    case Forget(key) => m - {key}
  }

  // What a run reports for one key, in order.
  function Reports(m: map<Key, Entry>, ops: seq<Op>, key: Key): seq<DeltaResult>
    decreases |ops|
  {
    if ops == [] then []
    else
      var rest := Reports(Apply(m, ops[0]), ops[1..], key);
      if ops[0].Observe? && ops[0].key == key
      then [Report(Lookup(m, key), ops[0].current, ops[0].now, ops[0].wrap)] + rest
      else rest
  }

  // The class drives the same run, operation by operation.
  method Replay(table: CounterTable, ops: seq<Op>, key: Key) returns (reports: seq<DeltaResult>)
    modifies table
    ensures reports == Reports(old(table.entries), ops, key)
  {
    reports := [];
    var i := 0;
    while i < |ops|
      invariant 0 <= i <= |ops|
      invariant reports + Reports(table.entries, ops[i..], key) == Reports(old(table.entries), ops, key)
    {
      assert ops[i..][0] == ops[i] && ops[i..][1..] == ops[i + 1..];
      match ops[i] {
        case Observe(k, current, now, wrap) =>
          var r := table.Delta(k, current, now, wrap);
          if k == key {
            reports := reports + [r];
          }
        case PurgeAll(maxAge, now) =>
          var _ := table.Purge(maxAge, now);
        case Forget(k) =>
          table.Remove(k);
      }
      i := i + 1;
    }
  }

  // The true value of a monotone counter at the moment of a sample.
  datatype Truth = Truth(total: nat, at: int)

  function Observations(key: Key, samples: seq<Truth>, wrap: Word): seq<Op>
    requires wrap > 0
  {
    if samples == [] then []
    else [Observe(key, Observed(samples[0].total, wrap), samples[0].at, wrap)]
         + Observations(key, samples[1..], wrap)
  }

  // Sample times increase strictly and the true counter never decreases.
  predicate Ordered(samples: seq<Truth>)
    decreases |samples|
  {
    |samples| < 2 || (
      && samples[0].at < samples[1].at
      && samples[0].total <= samples[1].total
      && Ordered(samples[1..]))
  }

  predicate AllTrackable(samples: seq<Truth>, wrap: Word)
    requires wrap > 0 && Ordered(samples)
    decreases |samples|
  {
    |samples| < 2 || (
      && Trackable(samples[0].total, samples[1].total - samples[0].total, wrap)
      && AllTrackable(samples[1..], wrap))
  }

  function Sum(rs: seq<DeltaResult>): nat {
    if rs == [] then 0 else (if rs[0].valid then rs[0].delta else 0) + Sum(rs[1..])
  }

  predicate NoReset(rs: seq<DeltaResult>) {
    rs == [] || (!rs[0].reset && NoReset(rs[1..]))
  }

  lemma {:induction false} UnfoldRun(m: map<Key, Entry>, key: Key, samples: seq<Truth>, wrap: Word)
    requires wrap > 0 && samples != []
    ensures var current := Observed(samples[0].total, wrap);
            var r := Report(Lookup(m, key), current, samples[0].at, wrap);
            var rest := Reports(m[key := Entry(current, samples[0].at)], Observations(key, samples[1..], wrap), key);
            var rs := Reports(m, Observations(key, samples, wrap), key);
            && rs == [r] + rest
            && Sum(rs) == (if r.valid then r.delta else 0) + Sum(rest)
            && (NoReset(rs) <==> !r.reset && NoReset(rest))
  {
    var ops := Observations(key, samples, wrap);
    assert ops[1..] == Observations(key, samples[1..], wrap);
    var rs := Reports(m, ops, key);
    assert rs[1..] == Reports(Apply(m, ops[0]), ops[1..], key);
  }

  // From a seeded key: the reported deltas never over-count, and add up to the true growth
  // exactly when every single step is trackable.
  lemma {:induction false} SeededRun(m: map<Key, Entry>, key: Key, samples: seq<Truth>, wrap: Word)
    requires wrap == MAX_COUNTER32 || wrap == MAX_COUNTER64
    requires samples != [] && Ordered(samples)
    requires Lookup(m, key) == Some(Entry(Observed(samples[0].total, wrap), samples[0].at))
    ensures var rs := Reports(m, Observations(key, samples[1..], wrap), key);
            var growth := samples[|samples| - 1].total - samples[0].total;
            && |rs| == |samples| - 1
            && Sum(rs) <= growth
            && (Sum(rs) == growth <==> AllTrackable(samples, wrap))
            && (AllTrackable(samples, wrap) ==> NoReset(rs))
    decreases |samples|
  {
    if |samples| > 1 {
      var rest := samples[1..];
      UnfoldRun(m, key, rest, wrap);
      StepExact(samples[0].total, rest[0].total - samples[0].total, samples[0].at, rest[0].at, wrap);
      SeededRun(m[key := Entry(Observed(rest[0].total, wrap), rest[0].at)], key, rest, wrap);
    }
  }

  // The main result on counters: over a whole run that starts with an unknown key.
  lemma {:induction false} RunExact(m: map<Key, Entry>, key: Key, samples: seq<Truth>, wrap: Word)
    requires wrap == MAX_COUNTER32 || wrap == MAX_COUNTER64
    requires samples != [] && Ordered(samples) && key !in m
    ensures var rs := Reports(m, Observations(key, samples, wrap), key);
            var growth := samples[|samples| - 1].total - samples[0].total;
            && |rs| == |samples| && rs[0] == INVALID
            && Sum(rs) <= growth
            && (Sum(rs) == growth <==> AllTrackable(samples, wrap))
            && (AllTrackable(samples, wrap) ==> NoReset(rs))
  {
    UnfoldRun(m, key, samples, wrap);
    SeededRun(m[key := Entry(Observed(samples[0].total, wrap), samples[0].at)], key, samples, wrap);
  }

  // Increments of at most half the Counter32 range are always trackable.
  lemma {:induction false} HalfRangeSuffices(samples: seq<Truth>)
    requires Ordered(samples)
    requires forall i :: 0 <= i < |samples| - 1 ==> samples[i + 1].total - samples[i].total <= 0x8000_0000
    ensures AllTrackable(samples, MAX_COUNTER32)
    decreases |samples|
  {
    if |samples| > 1 {
      assert samples[0 + 1].total - samples[0].total <= 0x8000_0000;
      HalfRangeSuffices(samples[1..]);
    }
  }

  // ---------- Purging and other keys ----------

  // No purge of the run runs later than maxAge after the key's stored sample,
  // and nobody removes the key.
  ghost predicate Undisturbed(m: map<Key, Entry>, ops: seq<Op>, key: Key)
    decreases |ops|
  {
    ops == [] || (
      && (ops[0].PurgeAll? && key in m ==> ops[0].now <= m[key].seenAt + ops[0].maxAge)
      && ops[0] != Forget(key)
      && Undisturbed(Apply(m, ops[0]), ops[1..], key))
  }

  // The run reduced to the observations of one key.
  function Only(ops: seq<Op>, key: Key): seq<Op> {
    if ops == [] then []
    else if ops[0].Observe? && ops[0].key == key then [ops[0]] + Only(ops[1..], key)
    else Only(ops[1..], key)
  }

  // Purges and the traffic of every other key leave a live key's reports untouched.
  lemma {:induction false} PurgeInvisible(m: map<Key, Entry>, m': map<Key, Entry>, ops: seq<Op>, key: Key)
    requires Lookup(m, key) == Lookup(m', key)
    requires Undisturbed(m, ops, key)
    ensures Reports(m, ops, key) == Reports(m', Only(ops, key), key)
    decreases |ops|
  {
    if ops != [] {
      var rest := Only(ops[1..], key);
      if ops[0].Observe? && ops[0].key == key {
        var only := Only(ops, key);
        assert only[0] == ops[0] && only[1..] == rest;
        PurgeInvisible(Apply(m, ops[0]), Apply(m', ops[0]), ops[1..], key);
      } else {
        PurgeInvisible(Apply(m, ops[0]), m', ops[1..], key);
      }
    }
  }

  // One purge spares a key exactly when the key's last sample is at most maxAge old.
  lemma {:induction false} PurgeSpares(m: map<Key, Entry>, key: Key, maxAge: int, now: int)
    requires key in m
    ensures Lookup(Apply(m, PurgeAll(maxAge, now)), key)
         == if now <= m[key].seenAt + maxAge then Some(m[key]) else None
  {
  }

  // Both results together: a live counter in a busy, purged table still adds up exactly.
  lemma {:induction false} BusyTableExact(m: map<Key, Entry>, ops: seq<Op>, key: Key, samples: seq<Truth>, wrap: Word)
    requires wrap == MAX_COUNTER32 || wrap == MAX_COUNTER64
    requires samples != [] && Ordered(samples) && key !in m
    requires Undisturbed(m, ops, key) && Only(ops, key) == Observations(key, samples, wrap)
    ensures Sum(Reports(m, ops, key)) == samples[|samples| - 1].total - samples[0].total
       <==> AllTrackable(samples, wrap)
  {
    PurgeInvisible(m, m, ops, key);
    RunExact(m, key, samples, wrap);
  }
}
