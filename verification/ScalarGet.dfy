/** Polling scalars (doGet in internal/poller/poller.go): batches of OIDs with a per-OID fallback.
    The agent is an arbitrary function from requested OIDs to an answer; None is a failed request. */
module ScalarGet {
  import opened Common
  import opened Oid
  import opened Varbind

  type Agent = seq<string> -> Option<seq<Pdu>>

  predicate Unusable(vars: seq<Pdu>) {
    forall v <- vars :: IsErrorType(v.kind)
  }

  // The scalar instance of an attribute OID.
  function ScalarOid(oid: string): string {
    if EndsInZero(oid) then oid else oid + ".0"
  }

  // What asking for one OID alone yields; failures yield nothing.
  function Alone(get: Agent, oid: string): seq<Pdu> {
    match get([oid]) case None => [] case Some(vars) => vars
  }

  function AllAlone(get: Agent, oids: seq<string>): seq<Pdu> {
    if oids == [] then [] else AllAlone(get, oids[..|oids| - 1]) + Alone(get, oids[|oids| - 1])
  }

  ghost predicate AnswersFairly(get: Agent, batch: seq<string>) {
    |batch| > 1 && get(batch).Some? ==> get(batch).value == AllAlone(get, batch) || Unusable(get(batch).value)
  }

  // The agents the fallback is written for: a multi-OID answer is complete, or useless as a whole.
  ghost predicate AllOrNothing(get: Agent) {
    forall batch :: AnswersFairly(get, batch)
  }

  method BatchIsUnusable(vars: seq<Pdu>) returns (r: bool)
    ensures r == Unusable(vars)
    ensures r <==> forall v <- vars :: v.kind in {"NoSuchObject", "NoSuchInstance", "EndOfMibView", "Null"}
  {
    for i := 0 to |vars|
      invariant forall k :: 0 <= k < i ==> IsErrorType(vars[k].kind)
    {
      if !IsErrorType(vars[i].kind) {
        return false;
      }
    }
    return true;
  }

  method AskAlone(get: Agent, batch: seq<string>) returns (vars: seq<Pdu>)
    ensures vars == AllAlone(get, batch)
  {
    vars := [];
    for i := 0 to |batch|
      invariant vars == AllAlone(get, batch[..i])
    {
      assert batch[..i + 1][..i] == batch[..i];
      var one := get([batch[i]]);
      if one.None? || |one.value| == 0 {
        continue;
      }
      vars := vars + one.value;
    }
    assert batch[..|batch|] == batch;
  }

  lemma {:induction false} Assoc<T>(a: seq<T>, b: seq<T>, c: seq<T>)
    ensures (a + b) + c == a + (b + c)
  {
  }

  lemma {:induction false} ButLast<T>(a: seq<T>, b: seq<T>)
    requires b != []
    ensures (a + b)[..|a + b| - 1] == a + b[..|b| - 1] && (a + b)[|a + b| - 1] == b[|b| - 1]
  {
  }

  lemma {:induction false} AllAloneSplit(get: Agent, a: seq<string>, b: seq<string>)
    ensures AllAlone(get, a + b) == AllAlone(get, a) + AllAlone(get, b)
    decreases |b|
  {
    if b == [] {
      assert a + b == a;
    } else {
      var n := |b| - 1;
      ButLast(a, b);
      AllAloneSplit(get, a, b[..n]);
      Assoc(AllAlone(get, a), AllAlone(get, b[..n]), Alone(get, b[n]));
    }
  }

  lemma {:induction false} AloneOne(get: Agent, oid: string)
    ensures AllAlone(get, [oid]) == if get([oid]).Some? then get([oid]).value else []
  {
    assert [oid][..0] == [];
  }

  // What one successful batch contributes: its answer, or the per-OID answers if it is unusable.
  function Contribution(get: Agent, batch: seq<string>): seq<Pdu>
    requires get(batch).Some?
  {
    if |batch| > 1 && Unusable(get(batch).value) then AllAlone(get, batch) else get(batch).value
  }

  lemma {:induction false} ContributionMeaning(get: Agent, batch: seq<string>)
    requires get(batch).Some?
    ensures Contribution(get, batch)
         == if |batch| > 1 && forall v <- get(batch).value :: v.kind in {"NoSuchObject", "NoSuchInstance", "EndOfMibView", "Null"}
            then AllAlone(get, batch) else get(batch).value
  {
  }

  method AskBatch(get: Agent, batch: seq<string>) returns (vars: Option<seq<Pdu>>)
    ensures vars == if get(batch).None? then None else Some(Contribution(get, batch))
  {
    var pkt := get(batch);
    if pkt.None? {
      return None;
    }
    var unusable := BatchIsUnusable(pkt.value);
    if |batch| > 1 && unusable {
      var alone := AskAlone(get, batch);
      return Some(alone);
    }
    return pkt;
  }

  lemma {:induction false} ContributionIsAlone(get: Agent, batch: seq<string>)
    requires batch != [] && get(batch).Some? && AllOrNothing(get)
    ensures Contribution(get, batch) == AllAlone(get, batch)
  {
    if |batch| == 1 {
      assert batch == [batch[0]] && batch[..0] == [];
    } else {
      assert AnswersFairly(get, batch);
    }
  }

  // The requests a poll makes: as many OIDs each as the limit allows, the last one what is left.
  function Batches(oids: seq<string>, size: nat): seq<seq<string>>
    requires size > 0
    decreases |oids|
  {
    if oids == [] then []
    else if |oids| <= size then [oids]
    else [oids[..size]] + Batches(oids[size..], size)
  }

  function Flatten(batches: seq<seq<string>>): seq<string> {
    if batches == [] then [] else Flatten(batches[..|batches| - 1]) + batches[|batches| - 1]
  }

  lemma {:induction false} FlattenAppend(a: seq<seq<string>>, b: seq<seq<string>>)
    ensures Flatten(a + b) == Flatten(a) + Flatten(b)
    decreases |b|
  {
    if b == [] {
      assert a + b == a;
    } else {
      var n := |b| - 1;
      ButLast(a, b);
      FlattenAppend(a, b[..n]);
      Assoc(Flatten(a), Flatten(b[..n]), b[n]);
    }
  }

  lemma {:induction false} FlattenOne(batch: seq<string>)
    ensures Flatten([batch]) == batch
  {
    assert [batch][..0] == [];
  }

  ghost predicate NoneEmpty(batches: seq<seq<string>>) {
    forall i :: 0 <= i < |batches| ==> batches[i] != []
  }

  ghost predicate Sized(batches: seq<seq<string>>, size: nat) {
    && (forall i :: 0 <= i < |batches| ==> 1 <= |batches[i]| <= size)
    && (forall i :: 0 <= i < |batches| - 1 ==> |batches[i]| == size)
  }

  // The batches are the OIDs in order, size at a time and at the end what is left.
  lemma {:induction false} BatchesCover(oids: seq<string>, size: nat)
    requires size > 0
    ensures Flatten(Batches(oids, size)) == oids && Sized(Batches(oids, size), size)
    decreases |oids|
  {
    if |oids| > size {
      BatchesCover(oids[size..], size);
      FlattenAppend([oids[..size]], Batches(oids[size..], size));
      FlattenOne(oids[..size]);
      assert oids == oids[..size] + oids[size..];
    } else if oids != [] {
      FlattenOne(oids);
    }
  }

  ghost predicate AllAnswered(get: Agent, batches: seq<seq<string>>) {
    forall i :: 0 <= i < |batches| ==> get(batches[i]).Some?
  }

  ghost function Contributions(get: Agent, batches: seq<seq<string>>): seq<Pdu>
    requires AllAnswered(get, batches)
    decreases |batches|
  {
    if batches == [] then []
    else Contributions(get, batches[..|batches| - 1]) + Contribution(get, batches[|batches| - 1])
  }

  lemma {:induction false} OneMoreBatch(get: Agent, batches: seq<seq<string>>, n: nat)
    requires n < |batches| && AllAnswered(get, batches[..n]) && get(batches[n]).Some?
    ensures AllAnswered(get, batches[..n + 1])
    ensures Contributions(get, batches[..n + 1]) == Contributions(get, batches[..n]) + Contribution(get, batches[n])
  {
    assert batches[..n + 1][..n] == batches[..n];
    assert batches[..n + 1] == batches[..n] + [batches[n]];
  }

  // The poll's result after the first n batches: stopped there by a failed batch, or at the end.
  ghost predicate StoppedAt(get: Agent, batches: seq<seq<string>>, n: nat, all: seq<Pdu>, ok: bool) {
    && n <= |batches|
    && AllAnswered(get, batches[..n]) && all == Contributions(get, batches[..n])
    && (if ok then n == |batches| else n < |batches| && get(batches[n]).None?)
  }

  function BatchSize(configuredMax: int): (size: nat)
    ensures configuredMax > 0 ==> size == configuredMax
    ensures configuredMax <= 0 ==> size == 60
  {
    if configuredMax <= 0 then 60 else configuredMax
  }

  lemma {:induction false} FairContributions(get: Agent, batches: seq<seq<string>>)
    requires AllAnswered(get, batches) && AllOrNothing(get) && NoneEmpty(batches)
    ensures Contributions(get, batches) == AllAlone(get, Flatten(batches))
    decreases |batches|
  {
    if batches != [] {
      var n := |batches| - 1;
      FairContributions(get, batches[..n]);
      ContributionIsAlone(get, batches[n]);
      AllAloneSplit(get, Flatten(batches[..n]), batches[n]);
    }
  }

  // The first n batches cover a prefix of the OIDs.
  lemma {:induction false} CoveredPrefix(oids: seq<string>, size: nat, n: nat) returns (m: nat)
    requires size > 0 && n <= |Batches(oids, size)|
    ensures m <= |oids| && Flatten(Batches(oids, size)[..n]) == oids[..m]
    ensures n == |Batches(oids, size)| ==> m == |oids|
    ensures NoneEmpty(Batches(oids, size)[..n])
  {
    var batches := Batches(oids, size);
    BatchesCover(oids, size);
    FlattenAppend(batches[..n], batches[n..]);
    assert batches == batches[..n] + batches[n..];
    m := |Flatten(batches[..n])|;
    assert oids[..m] == Flatten(batches[..n]);
    assert n == |batches| ==> batches[..n] == batches;
  }

  // The main result. Any agent: the contributions of the batches before the first failed one, and
  // success exactly when none failed. For the agents the fallback is written for, that is exactly
  // what asking for every OID alone returns, in order, whatever the batch limit; a failed batch
  // cuts it to a prefix.
  method DoGet(get: Agent, oids: seq<string>, configuredMax: int) returns (all: seq<Pdu>, ok: bool)
    ensures exists n :: StoppedAt(get, Batches(oids, BatchSize(configuredMax)), n, all, ok)
    ensures ok && AllOrNothing(get) ==> all == AllAlone(get, oids)
    ensures AllOrNothing(get) ==> exists m :: 0 <= m <= |oids| && all == AllAlone(get, oids[..m])
  {
    ghost var n;
    all, ok, n := GetBatches(get, oids, BatchSize(configuredMax));
    ghost var batches := Batches(oids, BatchSize(configuredMax));
    ghost var m := CoveredPrefix(oids, BatchSize(configuredMax), n);
    if AllOrNothing(get) {
      FairContributions(get, batches[..n]);
    }
    assert oids[..|oids|] == oids;
  }

  // The loop; n counts the batches answered.
  method GetBatches(get: Agent, oids: seq<string>, maxOids: nat) returns (all: seq<Pdu>, ok: bool, ghost n: nat)
    requires maxOids > 0
    ensures StoppedAt(get, Batches(oids, maxOids), n, all, ok)
  {
    all, ok := [], true;
    var i := 0;
    ghost var batches := Batches(oids, maxOids);
    ghost var done := 0;
    n := 0;
    assert batches[0..] == batches && oids[0..] == oids;
    while i < |oids|
      invariant 0 <= done <= |oids| && ok && (i < |oids| ==> done == i) && (i >= |oids| ==> done == |oids|)
      invariant n <= |batches| && batches[n..] == Batches(oids[done..], maxOids)
      invariant AllAnswered(get, batches[..n]) && all == Contributions(get, batches[..n])
      decreases |oids| - i
    {
      var end := if i + maxOids < |oids| then i + maxOids else |oids|;
      var batch := oids[i..end];
      BatchAt(oids, i, end, batches, n, maxOids);
      var vars := AskBatch(get, batch);
      if vars.None? {
        return all, false, n;
      }
      OneMoreBatch(get, batches, n);
      all := all + vars.value;
      i := i + maxOids;
      done, n := end, n + 1;
    }
    assert oids[done..] == [];
  }

  // The batch the loop cuts out at i is the next of the batches.
  lemma {:induction false} BatchAt(oids: seq<string>, i: nat, end: nat, batches: seq<seq<string>>, n: nat, size: nat)
    requires size > 0 && i < |oids| && end == (if i + size < |oids| then i + size else |oids|)
    requires n <= |batches| && batches[n..] == Batches(oids[i..], size)
    ensures n < |batches| && batches[n] == oids[i..end] && batches[n + 1..] == Batches(oids[end..], size)
  {
    var rest := oids[i..];
    assert rest[..end - i] == oids[i..end] && rest[end - i..] == oids[end..];
    if |rest| <= size {
      assert rest == oids[i..end] && oids[end..] == [];
      assert Batches(rest, size) == [rest] + [];
    }
    assert batches[n] == batches[n..][0] && batches[n + 1..] == batches[n..][1..];
  }

  // The decoder gives a polled scalar instance "0" however its OID was configured, and the
  // configured attribute exactly when no other attribute sits at the instance itself.
  lemma {:induction false} ScalarInstance(table: map<string, Attribute>, oid: string)
    requires oid in table && Normalise(ScalarOid(oid)) == ScalarOid(oid)
    ensures var m := MatchOf(table, ScalarOid(oid));
            && m.Some? && m.value.instance == "0"
            && (m.value.attr == table[oid] <==> ScalarOid(oid) !in table || table[ScalarOid(oid)] == table[oid])
  {
    var full := ScalarOid(oid);
    if full !in table {
      assert full == oid + ".0" && full[..|oid|] == oid && full[|oid|] == '.';
      assert full[..|full|] == full;
      assert LastDot(full) == |oid|;
      assert full[|oid| + 1..] == "0";
    }
  }

  // Build looks the enum of a polled scalar up at its configured OID exactly when that OID does
  // not already carry the instance.
  lemma {:induction false} ScalarEnumKey(table: map<string, Attribute>, oid: string)
    requires oid in table && Normalise(ScalarOid(oid)) == ScalarOid(oid)
    ensures MatchOf(table, ScalarOid(oid)).Some?
    ensures BaseOid(ScalarOid(oid), MatchOf(table, ScalarOid(oid)).value.instance) == oid <==> !EndsInZero(oid)
  {
    ScalarInstance(table, oid);
    assert "." + "0" == ".0";
    if !EndsInZero(oid) {
      assert (oid + ".0")[|oid|..] == ".0" && (oid + ".0")[..|oid|] == oid;
    }
  }
}
