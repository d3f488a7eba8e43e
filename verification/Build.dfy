/** Assembling metrics from decoded varbinds (internal/producer/metrics/poll.go).
    Go visits maps in an arbitrary order; every such loop here picks its next key with :| . */
module Build {
  import opened Common
  import opened CounterState
  import opened Oid
  import opened Varbind

  datatype Metric = Metric(
    oid: string, name: string, instance: string, value: Value,
    snmpType: string, syntax: string, tags: Option<map<string, string>>)

  // Enum resolution and tag rendering are given; no counters means delta computation is off.
  datatype Options = Options(
    enums: Option<(string, Value) -> Value>,
    tagText: Value -> string,
    counting: bool)

  type Row = (string, string) // instance and attribute name

  function SyntaxPriority(syntax: string): int {
    if syntax == "Counter64" then 20
    else if syntax == "Counter32" then 10
    else if syntax == "BandwidthGBits" then 14
    else if syntax == "BandwidthMBits" then 13
    else if syntax == "BandwidthKBits" then 12
    else if syntax == "BandwidthBits" || syntax == "Gauge32" then 11
    else 0
  }

  predicate IsEnumSyntax(syntax: string) {
    syntax in {"EnumInteger", "EnumIntegerKeepID", "EnumBitmap", "EnumObjectIdentifier", "EnumObjectIdentifierKeepOID"}
  }

  function ToWord(v: Value): Option<Word> {
    match v
    case Unsigned(w) => Some(w)
    case Signed(n) => if n >= 0 then Some(n) else None
    case _ => None
  }

  // ---------- What each row contains ----------

  function Candidates(vbs: seq<DecodedVarbind>, instance: string): (cs: seq<DecodedVarbind>)
    ensures forall vb <- cs :: vb in vbs && !vb.isTag && vb.instance == instance
  {
    if vbs == [] then []
    else
      var vb, before := vbs[|vbs| - 1], Candidates(vbs[..|vbs| - 1], instance);
      if !vb.isTag && vb.instance == instance then before + [vb] else before
  }

  function Winner(cs: seq<DecodedVarbind>, name: string): (w: Option<DecodedVarbind>)
    ensures w.Some? ==> w.value in cs && w.value.name == name
    ensures w.None? ==> forall vb <- cs :: vb.name != name
  {
    if cs == [] then None
    else
      var vb, before := cs[|cs| - 1], Winner(cs[..|cs| - 1], name);
      if vb.name == name && (before.None? || SyntaxPriority(vb.syntax) > SyntaxPriority(before.value.syntax))
      then Some(vb)
      else before
  }

  function TagsOf(vbs: seq<DecodedVarbind>, instance: string, tagText: Value -> string): map<string, string> {
    if vbs == [] then map[]
    else
      var vb, before := vbs[|vbs| - 1], TagsOf(vbs[..|vbs| - 1], instance, tagText);
      if vb.isTag && vb.instance == instance then before[vb.name := tagText(vb.value)] else before
  }

  function Rows(vbs: seq<DecodedVarbind>): set<Row> {
    set vb | vb in vbs && !vb.isTag :: (vb.instance, vb.name)
  }

  lemma {:induction false} RowsAreCandidates(vbs: seq<DecodedVarbind>, vb: DecodedVarbind)
    requires vb in vbs && !vb.isTag
    ensures vb in Candidates(vbs, vb.instance)
    decreases |vbs|
  {
    var last := |vbs| - 1;
    if vb != vbs[last] {
      assert vb in vbs[..last];
      RowsAreCandidates(vbs[..last], vb);
    }
  }

  function WinnerOf(vbs: seq<DecodedVarbind>, row: Row): (vb: DecodedVarbind)
    requires row in Rows(vbs)
    ensures vb in vbs && !vb.isTag && vb.instance == row.0 && vb.name == row.1
  {
    var w := Winner(Candidates(vbs, row.0), row.1);
    assert w.Some? by {
      var vb :| vb in vbs && !vb.isTag && row == (vb.instance, vb.name);
      RowsAreCandidates(vbs, vb);
    }
    w.value
  }

  function Resolved(vb: DecodedVarbind, o: Options): Value {
    if o.enums.Some? && IsEnumSyntax(vb.syntax)
    then (o.enums.value)(BaseOid(vb.oid, vb.instance), vb.value)
    else vb.value
  }

  // The raw counter reading a row feeds to the counter table, if any.
  function Reading(vb: DecodedVarbind, o: Options): Option<Word> {
    if o.counting && IsCounterSyntax(vb.syntax) then ToWord(Resolved(vb, o)) else None
  }

  function Emitted(r: DeltaResult): Value {
    if r.valid && !r.reset then Unsigned(r.delta) else Unsigned(0)
  }

  function CounterKey(host: string, row: Row): Key {
    Key(host, row.1, row.0)
  }

  // One metric, as a function of the counter table from before the whole call.
  function MetricOf(vbs: seq<DecodedVarbind>, row: Row, o: Options, host: string, now: int, before: map<Key, Entry>): (m: Metric)
    requires row in Rows(vbs)
    ensures m.instance == row.0 && m.name == row.1
  {
    var vb := WinnerOf(vbs, row);
    var reading := Reading(vb, o);
    var value := if reading.None? then Resolved(vb, o)
                 else Emitted(Report(Lookup(before, CounterKey(host, row)), reading.value, now, WrapForSyntax(vb.syntax)));
    var tags := TagsOf(vbs, row.0, o.tagText);
    Metric(vb.oid, vb.name, row.0, value, vb.snmpType, vb.syntax, if tags == map[] then None else Some(tags))
  }

  ghost function MetricSet(vbs: seq<DecodedVarbind>, rows: set<Row>, o: Options, host: string, now: int, before: map<Key, Entry>): set<Metric>
    requires rows <= Rows(vbs)
  {
    set row | row in rows :: MetricOf(vbs, row, o, host, now, before)
  }

  // The counter table once the given rows have been read: their keys are reseeded, nothing else changes.
  ghost predicate Reseeded(after: map<Key, Entry>, before: map<Key, Entry>,
                           vbs: seq<DecodedVarbind>, rows: set<Row>, o: Options, host: string, now: int)
    requires rows <= Rows(vbs)
  {
    forall k :: Lookup(after, k) ==
                if k.device == host && (k.instance, k.attribute) in rows
                   && Reading(WinnerOf(vbs, (k.instance, k.attribute)), o).Some?
                then Some(Entry(Reading(WinnerOf(vbs, (k.instance, k.attribute)), o).value, now))
                else Lookup(before, k)
  }

  // ---------- Steps 1 and 2 ----------

  method Partition(vbs: seq<DecodedVarbind>, tagText: Value -> string)
    returns (tags: map<string, map<string, string>>, metrics: map<string, seq<DecodedVarbind>>)
    ensures forall i :: TagsOf(vbs, i, tagText) == if i in tags then tags[i] else map[]
    ensures forall i :: Candidates(vbs, i) == if i in metrics then metrics[i] else []
    ensures forall i <- metrics :: metrics[i] != []
  {
    tags, metrics := map[], map[];
    for n := 0 to |vbs|
      invariant forall i :: TagsOf(vbs[..n], i, tagText) == if i in tags then tags[i] else map[]
      invariant forall i :: Candidates(vbs[..n], i) == if i in metrics then metrics[i] else []
      invariant forall i <- metrics :: metrics[i] != []
    {
      var vb := vbs[n];
      assert vbs[..n + 1][..n] == vbs[..n] && vbs[..n + 1][n] == vb;
      if vb.isTag {
        var earlier := if vb.instance in tags then tags[vb.instance] else map[];
        tags := tags[vb.instance := earlier[vb.name := tagText(vb.value)]];
      } else {
        var earlier := if vb.instance in metrics then metrics[vb.instance] else [];
        metrics := metrics[vb.instance := earlier + [vb]];
      }
    }
    assert vbs[..|vbs|] == vbs;
  }

  // ---------- Step 3 ----------

  method ResolveOverrides(cs: seq<DecodedVarbind>) returns (byName: map<string, DecodedVarbind>)
    ensures forall n :: Winner(cs, n) == if n in byName then Some(byName[n]) else None
  {
    byName := map[];
    for k := 0 to |cs|
      invariant forall n :: Winner(cs[..k], n) == if n in byName then Some(byName[n]) else None
    {
      var vb := cs[k];
      assert cs[..k + 1][..k] == cs[..k] && cs[..k + 1][k] == vb;
      if vb.name !in byName || SyntaxPriority(vb.syntax) > SyntaxPriority(byName[vb.name].syntax) {
        byName := byName[vb.name := vb];
      }
    }
    assert cs[..|cs|] == cs;
  }

  method ResolveAll(vbs: seq<DecodedVarbind>, metrics: map<string, seq<DecodedVarbind>>)
    returns (resolved: map<string, map<string, DecodedVarbind>>)
    requires forall i :: Candidates(vbs, i) == if i in metrics then metrics[i] else []
    ensures resolved.Keys == metrics.Keys
    ensures forall i <- resolved :: forall n :: Winner(Candidates(vbs, i), n) == if n in resolved[i] then Some(resolved[i][n]) else None
  {
    resolved := map[];
    var todo := metrics.Keys;
    while todo != {}
      invariant todo <= metrics.Keys && resolved.Keys == metrics.Keys - todo
      invariant forall i <- resolved :: forall n :: Winner(Candidates(vbs, i), n) == if n in resolved[i] then Some(resolved[i][n]) else None
      decreases todo
    {
      var i :| i in todo;
      todo := todo - {i};
      var byName := ResolveOverrides(metrics[i]);
      assert Candidates(vbs, i) == metrics[i];
      resolved := resolved[i := byName];
    }
  }

  // ---------- Steps 4 to 6 ----------

  lemma {:induction false} RowIffWinner(vbs: seq<DecodedVarbind>, row: Row)
    ensures row in Rows(vbs) <==> Winner(Candidates(vbs, row.0), row.1).Some?
    ensures row in Rows(vbs) ==> Winner(Candidates(vbs, row.0), row.1) == Some(WinnerOf(vbs, row))
  {
    var w := Winner(Candidates(vbs, row.0), row.1);
    if w.Some? {
      assert w.value in vbs && !w.value.isTag && row == (w.value.instance, w.value.name);
    }
    if row in Rows(vbs) {
      RowsAreCandidates(vbs, WinnerOf(vbs, row));
    }
  }

  lemma {:induction false} AddMetric(vbs: seq<DecodedVarbind>, rows: set<Row>, row: Row, o: Options, host: string, now: int, before: map<Key, Entry>)
    requires rows <= Rows(vbs) && row in Rows(vbs) && row !in rows
    ensures multiset(MetricSet(vbs, rows + {row}, o, host, now, before))
         == multiset(MetricSet(vbs, rows, o, host, now, before)) + multiset{MetricOf(vbs, row, o, host, now, before)}
  {
    var m := MetricOf(vbs, row, o, host, now, before);
    var s := MetricSet(vbs, rows, o, host, now, before);
    assert MetricSet(vbs, rows + {row}, o, host, now, before) == s + {m};
    assert m !in s;
  }

  lemma {:induction false} ReseedRow(current: map<Key, Entry>, before: map<Key, Entry>, vbs: seq<DecodedVarbind>,
                                     done: set<Row>, row: Row, o: Options, host: string, now: int)
    requires done <= Rows(vbs) && row in Rows(vbs) && row !in done
    requires Reseeded(current, before, vbs, done, o, host, now)
    ensures Lookup(current, CounterKey(host, row)) == Lookup(before, CounterKey(host, row))
    ensures var reading := Reading(WinnerOf(vbs, row), o);
            var after := if reading.Some? then current[CounterKey(host, row) := Entry(reading.value, now)] else current;
            Reseeded(after, before, vbs, done + {row}, o, host, now)
  {
    var reading := Reading(WinnerOf(vbs, row), o);
    var key := CounterKey(host, row);
    var after := if reading.Some? then current[key := Entry(reading.value, now)] else current;
    forall k: Key
      ensures Lookup(after, k) == if k == key && reading.Some? then Some(Entry(reading.value, now)) else Lookup(current, k)
    {
    }
  }

  // One metric; the only effect is on the row's own counter key.
  method BuildRow(vbs: seq<DecodedVarbind>, row: Row, vb: DecodedVarbind, instanceTags: map<string, string>,
                  o: Options, host: string, now: int, table: CounterTable,
                  ghost done: set<Row>, ghost before: map<Key, Entry>) returns (m: Metric)
    requires done <= Rows(vbs) && row in Rows(vbs) && row !in done
    requires vb == WinnerOf(vbs, row) && instanceTags == TagsOf(vbs, row.0, o.tagText)
    requires Reseeded(table.entries, before, vbs, done, o, host, now)
    modifies table
    ensures m == MetricOf(vbs, row, o, host, now, before)
    ensures Reseeded(table.entries, before, vbs, done + {row}, o, host, now)
  {
    ReseedRow(table.entries, before, vbs, done, row, o, host, now);
    var value := vb.value;
    if o.enums.Some? && IsEnumSyntax(vb.syntax) {
      value := (o.enums.value)(BaseOid(vb.oid, vb.instance), value);
    }
    if o.counting && IsCounterSyntax(vb.syntax) {
      var raw := ToWord(value);
      if raw.Some? {
        var key := Key(host, vb.name, row.0);
        var dr := table.Delta(key, raw.value, now, WrapForSyntax(vb.syntax));
        if dr.reset {
          value := Unsigned(0);
        } else if dr.valid {
          value := Unsigned(dr.delta);
        } else {
          value := Unsigned(0);
        }
      }
    }
    var tags := if |instanceTags| > 0 then Some(instanceTags) else None;
    m := Metric(vb.oid, vb.name, row.0, value, vb.snmpType, vb.syntax, tags);
  }

  // All rows of one instance, in any order of names.
  method BuildInstance(vbs: seq<DecodedVarbind>, instance: string, byName: map<string, DecodedVarbind>,
                       instanceTags: map<string, string>, o: Options, host: string, now: int, table: CounterTable,
                       ghost done: set<Row>, ghost before: map<Key, Entry>)
    returns (metrics: seq<Metric>, ghost done': set<Row>)
    requires done <= Rows(vbs) && forall row <- done :: row.0 != instance
    requires forall n :: Winner(Candidates(vbs, instance), n) == if n in byName then Some(byName[n]) else None
    requires instanceTags == TagsOf(vbs, instance, o.tagText)
    requires Reseeded(table.entries, before, vbs, done, o, host, now)
    modifies table
    ensures done' <= Rows(vbs)
    ensures forall row <- Rows(vbs) :: row in done' <==> row in done || row.0 == instance
    ensures multiset(MetricSet(vbs, done, o, host, now, before)) + multiset(metrics)
         == multiset(MetricSet(vbs, done', o, host, now, before))
    ensures Reseeded(table.entries, before, vbs, done', o, host, now)
  {
    metrics, done' := [], done;
    var names := byName.Keys;
    while names != {}
      invariant names <= byName.Keys && done' <= Rows(vbs)
      invariant forall row <- done' :: row in done || (row.0 == instance && row.1 !in names)
      invariant forall n <- byName.Keys - names :: (instance, n) in done'
      invariant done <= done'
      invariant multiset(MetricSet(vbs, done, o, host, now, before)) + multiset(metrics)
             == multiset(MetricSet(vbs, done', o, host, now, before))
      invariant Reseeded(table.entries, before, vbs, done', o, host, now)
      decreases names
    {
      var name :| name in names;
      names := names - {name};
      var row := (instance, name);
      RowIffWinner(vbs, row);
      assert Winner(Candidates(vbs, instance), name) == Some(byName[name]);
      AddMetric(vbs, done', row, o, host, now, before);
      var m := BuildRow(vbs, row, byName[name], instanceTags, o, host, now, table, done', before);
      metrics := metrics + [m];
      done' := done' + {row};
    }
    forall row | row in Rows(vbs) && row.0 == instance
      ensures row in done'
    {
      RowIffWinner(vbs, row);
      assert Winner(Candidates(vbs, instance), row.1).Some?;
      assert row.1 in byName.Keys - names;
    }
  }

  // The main result: whatever order the maps are visited in, the metrics (up to order) and the
  // final counter table are the same functions of the input and the table before the call.
  method BuildMetrics(vbs: seq<DecodedVarbind>, o: Options, host: string, now: int, table: CounterTable)
    returns (metrics: seq<Metric>)
    modifies table
    ensures multiset(metrics) == multiset(MetricSet(vbs, Rows(vbs), o, host, now, old(table.entries)))
    ensures Reseeded(table.entries, old(table.entries), vbs, Rows(vbs), o, host, now)
  {
    var tagsByInstance, metricsByInstance := Partition(vbs, o.tagText);
    var resolved := ResolveAll(vbs, metricsByInstance);
    ghost var before := table.entries;
    ghost var done: set<Row> := {};
    metrics := [];
    var todo := resolved.Keys;
    assert forall row <- Rows(vbs) :: row.0 in todo by {
      forall row | row in Rows(vbs)
        ensures row.0 in todo
      {
        RowIffWinner(vbs, row);
      }
    }
    while todo != {}
      invariant todo <= resolved.Keys && done <= Rows(vbs)
      invariant forall row <- Rows(vbs) :: row in done <==> row.0 !in todo
      invariant multiset(metrics) == multiset(MetricSet(vbs, done, o, host, now, before))
      invariant Reseeded(table.entries, before, vbs, done, o, host, now)
      decreases todo
    {
      var instance :| instance in todo;
      todo := todo - {instance};
      var instanceTags := if instance in tagsByInstance then tagsByInstance[instance] else map[];
      var ms: seq<Metric>;
      ms, done := BuildInstance(vbs, instance, resolved[instance], instanceTags, o, host, now, table, done, before);
      metrics := metrics + ms;
    }
    assert done == Rows(vbs);
  }

  // The two postconditions above leave no freedom: any two runs from the same table agree.
  lemma {:induction false} Confluent(ms: seq<Metric>, ms': seq<Metric>, after: map<Key, Entry>, after': map<Key, Entry>,
                  vbs: seq<DecodedVarbind>, o: Options, host: string, now: int, before: map<Key, Entry>)
    requires multiset(ms) == multiset(MetricSet(vbs, Rows(vbs), o, host, now, before)) == multiset(ms')
    requires Reseeded(after, before, vbs, Rows(vbs), o, host, now)
    requires Reseeded(after', before, vbs, Rows(vbs), o, host, now)
    ensures multiset(ms) == multiset(ms') && after == after'
    ensures |ms| == |Rows(vbs)|
  {
    forall k: Key
      ensures Lookup(after, k) == Lookup(after', k)
    {
    }
    SameTableByLookup(after, after');
    CountMetrics(vbs, Rows(vbs), o, host, now, before);
    assert |ms| == |multiset(ms)|;
  }

  lemma {:induction false} SameTableByLookup(a: map<Key, Entry>, b: map<Key, Entry>)
    requires forall k :: Lookup(a, k) == Lookup(b, k)
    ensures a == b
  {
    forall k: Key
      ensures k in a <==> k in b
      ensures k in a ==> a[k] == b[k]
    {
      assert Lookup(a, k) == Lookup(b, k);
    }
  }

  lemma {:induction false} CountMetrics(vbs: seq<DecodedVarbind>, rows: set<Row>, o: Options, host: string, now: int, before: map<Key, Entry>)
    requires rows <= Rows(vbs)
    ensures |MetricSet(vbs, rows, o, host, now, before)| == |rows|
    decreases rows
  {
    if rows != {} {
      var row :| row in rows;
      CountMetrics(vbs, rows - {row}, o, host, now, before);
      AddMetric(vbs, rows - {row}, row, o, host, now, before);
      assert rows - {row} + {row} == rows;
      var s, s' := MetricSet(vbs, rows - {row}, o, host, now, before), MetricSet(vbs, rows, o, host, now, before);
      assert |multiset(s')| == |multiset(s)| + 1;
    }
  }

  // ---------- The row join, read back from the OIDs ----------

  // Position i holds the row's winner: no earlier reading of the row has its priority or more,
  // and no later one has more.
  ghost predicate EarliestBest(vbs: seq<DecodedVarbind>, row: Row, i: int) {
    && 0 <= i < |vbs| && InRow(vbs[i], row)
    && forall j :: 0 <= j < |vbs| && InRow(vbs[j], row) ==>
         if j < i then SyntaxPriority(vbs[j].syntax) < SyntaxPriority(vbs[i].syntax)
         else SyntaxPriority(vbs[j].syntax) <= SyntaxPriority(vbs[i].syntax)
  }

  predicate InRow(vb: DecodedVarbind, row: Row) {
    !vb.isTag && vb.instance == row.0 && vb.name == row.1
  }

  lemma {:induction false} CandidatesSnoc(before: seq<DecodedVarbind>, vb: DecodedVarbind, row: Row)
    ensures var w := Winner(Candidates(before, row.0), row.1);
            Winner(Candidates(before + [vb], row.0), row.1)
            == if InRow(vb, row) && (w.None? || SyntaxPriority(vb.syntax) > SyntaxPriority(w.value.syntax)) then Some(vb) else w
  {
    assert (before + [vb])[..|before|] == before;
    var cs := Candidates(before, row.0);
    assert (cs + [vb])[..|cs|] == cs;
  }

  // The row's winner is its earliest reading of maximal priority.
  lemma {:induction false} WinnerMeaning(vbs: seq<DecodedVarbind>, row: Row)
    ensures match Winner(Candidates(vbs, row.0), row.1)
            case None => forall j :: 0 <= j < |vbs| ==> !InRow(vbs[j], row)
            case Some(w) => exists i :: EarliestBest(vbs, row, i) && vbs[i] == w
    decreases |vbs|
  {
    if vbs != [] {
      var n := |vbs| - 1;
      var vb, before := vbs[n], vbs[..n];
      assert vbs == before + [vb];
      WinnerMeaning(before, row);
      CandidatesSnoc(before, vb, row);
      var w := Winner(Candidates(before, row.0), row.1);
      if w.Some? {
        var i :| EarliestBest(before, row, i) && before[i] == w.value;
        BestSnoc(before, vb, row, i);
      } else if InRow(vb, row) {
        FirstReading(before, vb, row);
      }
    }
  }

  lemma {:induction false} FirstReading(before: seq<DecodedVarbind>, vb: DecodedVarbind, row: Row)
    requires InRow(vb, row) && forall j :: 0 <= j < |before| ==> !InRow(before[j], row)
    ensures EarliestBest(before + [vb], row, |before|)
  {
  }

  // One more varbind beside the best so far.
  lemma {:induction false} BestSnoc(before: seq<DecodedVarbind>, vb: DecodedVarbind, row: Row, i: int)
    requires EarliestBest(before, row, i)
    ensures if InRow(vb, row) && SyntaxPriority(vb.syntax) > SyntaxPriority(before[i].syntax)
            then EarliestBest(before + [vb], row, |before|)
            else EarliestBest(before + [vb], row, i) && (before + [vb])[i] == before[i]
  {
  }

  // A tag's value is the one from the last tag varbind of that name at that instance.
  ghost predicate LastTag(vbs: seq<DecodedVarbind>, instance: string, name: string, i: int) {
    && 0 <= i < |vbs| && vbs[i].isTag && vbs[i].instance == instance && vbs[i].name == name
    && forall j :: i < j < |vbs| ==> !(vbs[j].isTag && vbs[j].instance == instance && vbs[j].name == name)
  }

  lemma {:induction false} TagMeaning(vbs: seq<DecodedVarbind>, instance: string, tagText: Value -> string, name: string)
    ensures var tags := TagsOf(vbs, instance, tagText);
            && (name in tags ==> exists i :: LastTag(vbs, instance, name, i) && tags[name] == tagText(vbs[i].value))
            && (forall i :: LastTag(vbs, instance, name, i) ==> name in tags)
    decreases |vbs|
  {
    if vbs != [] {
      var n := |vbs| - 1;
      TagMeaning(vbs[..n], instance, tagText, name);
      if LastTag(vbs, instance, name, n) {
      } else {
        forall i | LastTag(vbs, instance, name, i)
          ensures LastTag(vbs[..n], instance, name, i)
        {
        }
        if name in TagsOf(vbs[..n], instance, tagText) {
          var i :| LastTag(vbs[..n], instance, name, i)
                   && TagsOf(vbs[..n], instance, tagText)[name] == tagText(vbs[..n][i].value);
          assert LastTag(vbs, instance, name, i);
        }
      }
    }
  }

  // Every decoded varbind carries the attribute its OID matches, and the OID suffix as instance.
  ghost predicate FromTable(table: map<string, Attribute>, vb: DecodedVarbind) {
    exists a :: MatchOf(table, vb.oid) == Some(Match(a, vb.instance))
                && a.name == vb.name && a.syntax == vb.syntax && a.isTag == vb.isTag
  }

  lemma {:induction false} ParsedFromTable(table: map<string, Attribute>, pdus: seq<Pdu>, convert: Converter)
    ensures forall vb <- ParseOf(table, pdus, convert).0 :: FromTable(table, vb)
  {
    if pdus != [] {
      ParsedFromTable(table, pdus[1..], convert);
      var step := DecodeOne(table, pdus[0], convert);
      if step.Got? {
        var m := MatchOf(table, Normalise(pdus[0].name)).value;
        assert MatchOf(table, step.vb.oid) == Some(Match(m.attr, step.vb.instance));
        assert FromTable(table, step.vb);
      }
    }
  }

  ghost predicate IsRowMetric(m: Metric, vbs: seq<DecodedVarbind>, row: Row, o: Options,
                              host: string, now: int, before: map<Key, Entry>) {
    && m.instance == row.0 && m.name == row.1
    && (exists i :: EarliestBest(vbs, row, i)
                    && m.oid == vbs[i].oid && m.syntax == vbs[i].syntax && m.snmpType == vbs[i].snmpType
                    && match Reading(vbs[i], o)
                       case None => m.value == Resolved(vbs[i], o)
                       case Some(raw) =>
                         m.value == Emitted(Report(Lookup(before, CounterKey(host, row)), raw, now, WrapForSyntax(m.syntax))))
    && CarriesTags(if m.tags.Some? then m.tags.value else map[], vbs, row.0, o) && m.tags != Some(map[])
  }

  ghost predicate CarriesTags(tags: map<string, string>, vbs: seq<DecodedVarbind>, instance: string, o: Options) {
    && (forall name <- tags :: exists i :: LastTag(vbs, instance, name, i))
    && (forall name, i :: LastTag(vbs, instance, name, i) ==> name in tags && tags[name] == o.tagText(vbs[i].value))
  }

  lemma {:induction false} TagsCarried(vbs: seq<DecodedVarbind>, instance: string, o: Options)
    ensures CarriesTags(TagsOf(vbs, instance, o.tagText), vbs, instance, o)
  {
    var tags := TagsOf(vbs, instance, o.tagText);
    forall name
      ensures name in tags ==> exists i :: LastTag(vbs, instance, name, i)
      ensures forall i :: LastTag(vbs, instance, name, i) ==> name in tags && tags[name] == o.tagText(vbs[i].value)
    {
      TagMeaning(vbs, instance, o.tagText, name);
    }
  }

  // Decoder and producer together: a row has a metric exactly when some decoded metric varbind
  // has that OID suffix and attribute name; it is the earliest of maximal priority, and its tags
  // are the last tag values decoded at the same OID suffix.
  lemma {:induction false} RowJoin(table: map<string, Attribute>, pdus: seq<Pdu>, convert: Converter,
                o: Options, host: string, now: int, before: map<Key, Entry>, row: Row)
    ensures var vbs := ParseOf(table, pdus, convert).0;
            && (forall vb <- vbs :: FromTable(table, vb))
            && (row in Rows(vbs) <==>
                  exists i :: 0 <= i < |vbs| && !vbs[i].isTag && vbs[i].instance == row.0 && vbs[i].name == row.1)
            && (row in Rows(vbs) ==> IsRowMetric(MetricOf(vbs, row, o, host, now, before), vbs, row, o, host, now, before))
  {
    ParsedFromTable(table, pdus, convert);
    var vbs := ParseOf(table, pdus, convert).0;
    RowIffWinner(vbs, row);
    WinnerMeaning(vbs, row);
    TagsCarried(vbs, row.0, o);
  }

  // ---------- The values, in numbers ----------

  lemma {:induction false} OneBest(vbs: seq<DecodedVarbind>, row: Row, i: int)
    requires EarliestBest(vbs, row, i)
    ensures row in Rows(vbs) && WinnerOf(vbs, row) == vbs[i]
  {
    assert row == (vbs[i].instance, vbs[i].name);
    RowIffWinner(vbs, row);
    WinnerMeaning(vbs, row);
    var j :| EarliestBest(vbs, row, j) && vbs[j] == WinnerOf(vbs, row);
    assert i == j;
  }

  // Which of a row's readings wins: the ranking of the syntaxes, and the earliest among equals.
  lemma {:induction false} PreferredSyntax(vbs: seq<DecodedVarbind>, row: Row, i: int, j: int)
    requires EarliestBest(vbs, row, i) && 0 <= j < |vbs|
    requires !vbs[j].isTag && vbs[j].instance == row.0 && vbs[j].name == row.1
    ensures var won, other := vbs[i].syntax, vbs[j].syntax;
            && (other == "Counter64" ==> won == "Counter64")
            && (other == "BandwidthGBits" ==> won in {"Counter64", "BandwidthGBits"})
            && (other == "BandwidthMBits" ==> won in {"Counter64", "BandwidthGBits", "BandwidthMBits"})
            && (other == "BandwidthKBits" ==> won in {"Counter64", "BandwidthGBits", "BandwidthMBits", "BandwidthKBits"})
            && (other in {"BandwidthBits", "Gauge32"} ==>
                  won in {"Counter64", "BandwidthGBits", "BandwidthMBits", "BandwidthKBits", "BandwidthBits", "Gauge32"})
            && (other == "Counter32" ==>
                  won in {"Counter64", "BandwidthGBits", "BandwidthMBits", "BandwidthKBits", "BandwidthBits", "Gauge32", "Counter32"})
            && (won == other || {won, other} == {"BandwidthBits", "Gauge32"} ==> i <= j)
  {
    assert {"BandwidthBits", "Gauge32"} == {vbs[i].syntax, vbs[j].syntax} ==>
        vbs[i].syntax in {"BandwidthBits", "Gauge32"} && vbs[j].syntax in {"BandwidthBits", "Gauge32"};
  }

  // What is not a counter reading goes out as it is, enums resolved.
  lemma {:induction false} PlainValue(vbs: seq<DecodedVarbind>, row: Row, i: int, o: Options, host: string, now: int, before: map<Key, Entry>)
    requires EarliestBest(vbs, row, i)
    requires !o.counting || vbs[i].syntax !in {"Counter32", "Counter64"}
             || !(vbs[i].value.Unsigned? || (vbs[i].value.Signed? && vbs[i].value.number >= 0))
    ensures row in Rows(vbs)
    ensures MetricOf(vbs, row, o, host, now, before).value
         == if o.enums.Some? && vbs[i].syntax in {"EnumInteger", "EnumIntegerKeepID", "EnumBitmap", "EnumObjectIdentifier",
                                                   "EnumObjectIdentifierKeepOID"}
            then (o.enums.value)(BaseOid(vbs[i].oid, vbs[i].instance), vbs[i].value)
            else vbs[i].value
  {
    OneBest(vbs, row, i);
  }

  // A counter reading raw goes out as its growth since the stored sample: plainly, across a
  // plausible Counter32 rollover, or as 0 where there is nothing to compare with or it was reset.
  lemma {:induction false} CounterValue(vbs: seq<DecodedVarbind>, row: Row, i: int, raw: Word, o: Options, host: string,
                                        now: int, before: map<Key, Entry>)
    requires EarliestBest(vbs, row, i) && o.counting && vbs[i].syntax in {"Counter32", "Counter64"}
    requires vbs[i].value == Unsigned(raw) || (vbs[i].value.Signed? && vbs[i].value.number == raw)
    ensures row in Rows(vbs)
    ensures var value, key := MetricOf(vbs, row, o, host, now, before).value, Key(host, row.1, row.0);
            && (key !in before || before[key].seenAt >= now ==> value == Unsigned(0))
            && (key in before && before[key].seenAt < now && raw >= before[key].value ==>
                  value == Unsigned(raw - before[key].value))
            && (key in before && before[key].seenAt < now && raw < before[key].value
                && vbs[i].syntax == "Counter32" && before[key].value - raw > 0x7FFF_FFFF ==>
                  value == Unsigned((raw + 0x1_0000_0000 - before[key].value) % 0x1_0000_0000_0000_0000))
            && (key in before && before[key].seenAt < now && raw < before[key].value
                && (vbs[i].syntax == "Counter64" || before[key].value - raw <= 0x7FFF_FFFF) ==>
                  value == Unsigned(0))
  {
    OneBest(vbs, row, i);
  }

  // Two calls in a row: the second reports the growth between the two readings.
  lemma {:induction false} TwoPolls(vbs: seq<DecodedVarbind>, vbs': seq<DecodedVarbind>, row: Row, i: int, j: int, v: Word, raw: Word,
                                    o: Options, host: string, now: int, now': int, before: map<Key, Entry>, between: map<Key, Entry>)
    requires Reseeded(between, before, vbs, Rows(vbs), o, host, now)
    requires EarliestBest(vbs, row, i) && EarliestBest(vbs', row, j) && o.counting && now < now'
    requires vbs[i].syntax == vbs'[j].syntax == "Counter64" || vbs[i].syntax == vbs'[j].syntax == "Counter32"
    requires vbs[i].value == Unsigned(v) && vbs'[j].value == Unsigned(raw) && v <= raw
    ensures row in Rows(vbs') && MetricOf(vbs', row, o, host, now', between).value == Unsigned(raw - v)
  {
    OneBest(vbs, row, i);
    var key := Key(host, row.1, row.0);
    assert (key.instance, key.attribute) == row;
    assert Lookup(between, key) == Some(Entry(v, now));
    CounterValue(vbs', row, j, raw, o, host, now', between);
  }

  // ... and the stored sample of any other key is what it was.
  lemma {:induction false} OtherKeys(vbs: seq<DecodedVarbind>, o: Options, host: string, now: int, before: map<Key, Entry>,
                                     after: map<Key, Entry>, k: Key)
    requires Reseeded(after, before, vbs, Rows(vbs), o, host, now)
    requires k.device != host || !o.counting
             || forall i :: 0 <= i < |vbs| ==> vbs[i].isTag || vbs[i].instance != k.instance || vbs[i].name != k.attribute
    ensures (k in after <==> k in before) && (k in before ==> after[k] == before[k])
  {
    assert Lookup(after, k) == Lookup(before, k);
  }
}
