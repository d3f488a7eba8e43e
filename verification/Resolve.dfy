/** From configuration to poll jobs (internal/scheduler/resolve.go, internal/config/loader.go).
    The host order is any enumeration of the devices; the original uses the sorted one. */
module Resolve {
  import opened Common

  datatype DeviceConfig = DeviceConfig(
    ip: string, version: string, pollInterval: Int64, maxConcurrentPolls: int, deviceGroups: seq<string>)

  datatype ObjectDef = ObjectDef(key: string, body: string)

  datatype Config = Config(
    devices: map<string, DeviceConfig>,
    deviceGroups: map<string, seq<string>>, // object groups of a device group
    objectGroups: map<string, seq<string>>, // object keys of an object group
    objectDefs: map<string, ObjectDef>)

  datatype Device = Device(hostname: string, ip: string, version: string)

  datatype Job = Job(hostname: string, device: Device, config: DeviceConfig, objectDef: ObjectDef)

  // ---------- The object keys a device refers to, in configuration order ----------

  function Objects(cfg: Config, ogs: seq<string>): seq<string> {
    if ogs == [] then []
    else
      var og := ogs[|ogs| - 1];
      Objects(cfg, ogs[..|ogs| - 1]) + if og in cfg.objectGroups then cfg.objectGroups[og] else []
  }

  function Walk(cfg: Config, dgs: seq<string>): seq<string> {
    if dgs == [] then []
    else
      var dg := dgs[|dgs| - 1];
      Walk(cfg, dgs[..|dgs| - 1]) + if dg in cfg.deviceGroups then Objects(cfg, cfg.deviceGroups[dg]) else []
  }

  function MakeJob(hostname: string, dev: DeviceConfig, def: ObjectDef): Job {
    Job(hostname, Device(hostname, dev.ip, dev.version), dev, def)
  }

  // One job per first occurrence of a defined key.
  function Emit(hostname: string, dev: DeviceConfig, keys: seq<string>, defs: map<string, ObjectDef>): seq<Job> {
    if keys == [] then []
    else
      var key, before := keys[|keys| - 1], keys[..|keys| - 1];
      Emit(hostname, dev, before, defs)
      + if key !in before && key in defs then [MakeJob(hostname, dev, defs[key])] else []
  }

  function DeviceJobs(cfg: Config, hostname: string): seq<Job>
    requires hostname in cfg.devices
  {
    var dev := cfg.devices[hostname];
    Emit(hostname, dev, Walk(cfg, dev.deviceGroups), cfg.objectDefs)
  }

  function AllJobs(cfg: Config, hostnames: seq<string>): seq<Job>
    requires forall h <- hostnames :: h in cfg.devices
  {
    if hostnames == [] then []
    else AllJobs(cfg, hostnames[..|hostnames| - 1]) + DeviceJobs(cfg, hostnames[|hostnames| - 1])
  }

  // ---------- ResolveJobs ----------

  method ResolveDevice(cfg: Config, hostname: string) returns (jobs: seq<Job>)
    requires hostname in cfg.devices
    ensures jobs == DeviceJobs(cfg, hostname)
  {
    var dev := cfg.devices[hostname];
    var dgs := dev.deviceGroups;
    jobs := [];
    var seen: set<string> := {};
    ghost var walked: seq<string> := [];
    for i := 0 to |dgs|
      invariant walked == Walk(cfg, dgs[..i])
      invariant jobs == Emit(hostname, dev, walked, cfg.objectDefs)
      invariant forall k :: k in seen <==> k in walked
    {
      assert dgs[..i + 1][..i] == dgs[..i];
      if dgs[i] !in cfg.deviceGroups {
        continue;
      }
      jobs, seen, walked := EmitGroups(cfg, hostname, dev, cfg.deviceGroups[dgs[i]], jobs, seen, walked);
    }
    assert dgs[..|dgs|] == dgs;
  }

  // The middle loop: the object groups of one device group.
  method EmitGroups(cfg: Config, hostname: string, dev: DeviceConfig, ogs: seq<string>,
                    jobs0: seq<Job>, seen0: set<string>, ghost walked0: seq<string>)
    returns (jobs: seq<Job>, seen: set<string>, ghost walked: seq<string>)
    requires jobs0 == Emit(hostname, dev, walked0, cfg.objectDefs)
    requires forall k :: k in seen0 <==> k in walked0
    ensures walked == walked0 + Objects(cfg, ogs)
    ensures jobs == Emit(hostname, dev, walked, cfg.objectDefs)
    ensures forall k :: k in seen <==> k in walked
  {
    jobs, seen, walked := jobs0, seen0, walked0;
    for j := 0 to |ogs|
      invariant walked == walked0 + Objects(cfg, ogs[..j])
      invariant jobs == Emit(hostname, dev, walked, cfg.objectDefs)
      invariant forall k :: k in seen <==> k in walked
    {
      assert ogs[..j + 1][..j] == ogs[..j];
      if ogs[j] !in cfg.objectGroups {
        continue;
      }
      jobs, seen, walked := EmitGroup(cfg, hostname, dev, cfg.objectGroups[ogs[j]], jobs, seen, walked);
    }
    assert ogs[..|ogs|] == ogs;
  }

  // The innermost loop: one object group.
  method EmitGroup(cfg: Config, hostname: string, dev: DeviceConfig, objects: seq<string>,
                   jobs0: seq<Job>, seen0: set<string>, ghost walked0: seq<string>)
    returns (jobs: seq<Job>, seen: set<string>, ghost walked: seq<string>)
    requires jobs0 == Emit(hostname, dev, walked0, cfg.objectDefs)
    requires forall k :: k in seen0 <==> k in walked0
    ensures walked == walked0 + objects
    ensures jobs == Emit(hostname, dev, walked, cfg.objectDefs)
    ensures forall k :: k in seen <==> k in walked
  {
    jobs, seen, walked := jobs0, seen0, walked0;
    for k := 0 to |objects|
      invariant walked == walked0 + objects[..k]
      invariant jobs == Emit(hostname, dev, walked, cfg.objectDefs)
      invariant forall x :: x in seen <==> x in walked
    {
      var key := objects[k];
      ghost var next := walked + [key];
      assert next[..|walked|] == walked;
      walked := next;
      if key in seen {
        continue;
      }
      seen := seen + {key};
      if key !in cfg.objectDefs {
        continue;
      }
      jobs := jobs + [MakeJob(hostname, dev, cfg.objectDefs[key])];
    }
  }

  method ResolveJobs(cfg: Config, hostnames: seq<string>) returns (jobs: seq<Job>)
    requires forall h <- hostnames :: h in cfg.devices
    ensures jobs == AllJobs(cfg, hostnames)
  {
    jobs := [];
    for i := 0 to |hostnames|
      invariant jobs == AllJobs(cfg, hostnames[..i])
    {
      assert hostnames[..i + 1][..i] == hostnames[..i];
      var more := ResolveDevice(cfg, hostnames[i]);
      jobs := jobs + more;
    }
    assert hostnames[..|hostnames|] == hostnames;
  }

  // ---------- What a job list contains ----------

  lemma {:induction false} EmitMeaning(hostname: string, dev: DeviceConfig, keys: seq<string>, defs: map<string, ObjectDef>, def: ObjectDef)
    requires forall k <- defs :: defs[k].key == k
    ensures MakeJob(hostname, dev, def) in Emit(hostname, dev, keys, defs)
       <==> def.key in keys && def.key in defs && defs[def.key] == def
    ensures forall j <- Emit(hostname, dev, keys, defs) :: j == MakeJob(hostname, dev, j.objectDef)
    decreases |keys|
  {
    if keys != [] {
      EmitMeaning(hostname, dev, keys[..|keys| - 1], defs, def);
    }
  }

  lemma {:induction false} EmitDistinct(hostname: string, dev: DeviceConfig, keys: seq<string>, defs: map<string, ObjectDef>)
    requires forall k <- defs :: defs[k].key == k
    ensures var js := Emit(hostname, dev, keys, defs);
            forall i, j :: 0 <= i < j < |js| ==> js[i].objectDef.key != js[j].objectDef.key
    decreases |keys|
  {
    if keys != [] {
      var before := keys[..|keys| - 1];
      EmitDistinct(hostname, dev, before, defs);
      var js := Emit(hostname, dev, before, defs);
      forall i | 0 <= i < |js|
        ensures js[i].objectDef.key in before
      {
        EmitMeaning(hostname, dev, before, defs, js[i].objectDef);
      }
    }
  }

  // The keys a device's groups reach.
  lemma {:induction false} ObjectsReach(cfg: Config, ogs: seq<string>, key: string)
    ensures key in Objects(cfg, ogs) <==> exists og :: og in ogs && og in cfg.objectGroups && key in cfg.objectGroups[og]
    decreases |ogs|
  {
    if ogs != [] {
      var n := |ogs| - 1;
      ObjectsReach(cfg, ogs[..n], key);
      assert forall og :: og in ogs <==> og in ogs[..n] || og == ogs[n];
    }
  }

  lemma {:induction false} WalkReaches(cfg: Config, dgs: seq<string>, key: string)
    ensures key in Walk(cfg, dgs) <==>
            exists dg, og :: dg in dgs && dg in cfg.deviceGroups && og in cfg.deviceGroups[dg]
                             && og in cfg.objectGroups && key in cfg.objectGroups[og]
    decreases |dgs|
  {
    if dgs != [] {
      var n := |dgs| - 1;
      WalkReaches(cfg, dgs[..n], key);
      assert forall dg :: dg in dgs <==> dg in dgs[..n] || dg == dgs[n];
      if dgs[n] in cfg.deviceGroups {
        ObjectsReach(cfg, cfg.deviceGroups[dgs[n]], key);
      }
    }
  }

  // The keys come in the order of the configuration: group after group, each list as it stands.
  lemma {:induction false} WalkInOrder(cfg: Config, dgs: seq<string>, more: seq<string>)
    ensures Walk(cfg, dgs + more) == Walk(cfg, dgs) + Walk(cfg, more)
    decreases |more|
  {
    if more == [] {
      assert dgs + more == dgs;
    } else {
      var dg := more[|more| - 1];
      ButLast(dgs, more);
      WalkInOrder(cfg, dgs, more[..|more| - 1]);
      Assoc(Walk(cfg, dgs), Walk(cfg, more[..|more| - 1]),
            if dg in cfg.deviceGroups then Objects(cfg, cfg.deviceGroups[dg]) else []);
    }
  }

  lemma {:induction false} ObjectsInOrder(cfg: Config, ogs: seq<string>, more: seq<string>)
    ensures Objects(cfg, ogs + more) == Objects(cfg, ogs) + Objects(cfg, more)
    decreases |more|
  {
    if more == [] {
      assert ogs + more == ogs;
    } else {
      var og := more[|more| - 1];
      ButLast(ogs, more);
      ObjectsInOrder(cfg, ogs, more[..|more| - 1]);
      Assoc(Objects(cfg, ogs), Objects(cfg, more[..|more| - 1]), if og in cfg.objectGroups then cfg.objectGroups[og] else []);
    }
  }

  lemma {:induction false} OneGroup(cfg: Config, group: string)
    ensures Walk(cfg, [group]) == if group in cfg.deviceGroups then Objects(cfg, cfg.deviceGroups[group]) else []
    ensures Objects(cfg, [group]) == if group in cfg.objectGroups then cfg.objectGroups[group] else []
  {
    assert [group][..0] == [];
  }

  lemma {:induction false} ButLast(a: seq<string>, b: seq<string>)
    requires b != []
    ensures (a + b)[..|a + b| - 1] == a + b[..|b| - 1] && (a + b)[|a + b| - 1] == b[|b| - 1]
  {
  }

  lemma {:induction false} Assoc(a: seq<string>, b: seq<string>, c: seq<string>)
    ensures a + (b + c) == (a + b) + c
  {
  }

  // A device's jobs stand in the order in which its groups first name their objects: from[i] is where
  // the i-th object is first named.
  lemma {:induction false} EmitInOrder(hostname: string, dev: DeviceConfig, keys: seq<string>, defs: map<string, ObjectDef>)
    returns (from: seq<nat>)
    requires forall k <- defs :: defs[k].key == k
    ensures |from| == |Emit(hostname, dev, keys, defs)|
    ensures forall i :: 0 <= i < |from| ==>
              from[i] < |keys| && keys[from[i]] == Emit(hostname, dev, keys, defs)[i].objectDef.key
              && keys[from[i]] !in keys[..from[i]]
    ensures forall i :: 0 < i < |from| ==> from[i - 1] < from[i]
    decreases |keys|
  {
    from := [];
    if keys != [] {
      var n := |keys| - 1;
      var before := keys[..n];
      from := EmitInOrder(hostname, dev, before, defs);
      forall i | 0 <= i < |from|
        ensures keys[..from[i]] == before[..from[i]]
      {
      }
      if keys[n] !in before && keys[n] in defs {
        from := from + [n];
      }
    }
  }

  // A host has a job for an object exactly when one of its groups reaches the object and it is
  // defined; the job carries the host's own configuration.
  lemma {:induction false} JobsExact(cfg: Config, hostnames: seq<string>, hostname: string, def: ObjectDef)
    requires forall h <- hostnames :: h in cfg.devices
    requires forall k <- cfg.objectDefs :: cfg.objectDefs[k].key == k
    ensures hostname in hostnames ==>
              var dev := cfg.devices[hostname];
              (Job(hostname, Device(hostname, dev.ip, dev.version), dev, def) in AllJobs(cfg, hostnames) <==>
                 && (exists dg, og :: dg in dev.deviceGroups && dg in cfg.deviceGroups && og in cfg.deviceGroups[dg]
                                      && og in cfg.objectGroups && def.key in cfg.objectGroups[og])
                 && def.key in cfg.objectDefs && cfg.objectDefs[def.key] == def)
    ensures forall j <- AllJobs(cfg, hostnames) ::
              && j.hostname in hostnames
              && var dev := cfg.devices[j.hostname];
              j == Job(j.hostname, Device(j.hostname, dev.ip, dev.version), dev, j.objectDef)
  {
    JobsReached(cfg, hostnames, hostname, def);
    if hostname in hostnames {
      WalkReaches(cfg, cfg.devices[hostname].deviceGroups, def.key);
    }
  }

  lemma {:induction false} JobsReached(cfg: Config, hostnames: seq<string>, hostname: string, def: ObjectDef)
    requires forall h <- hostnames :: h in cfg.devices
    requires forall k <- cfg.objectDefs :: cfg.objectDefs[k].key == k
    ensures hostname in hostnames ==>
              (MakeJob(hostname, cfg.devices[hostname], def) in AllJobs(cfg, hostnames) <==>
                 && def.key in Walk(cfg, cfg.devices[hostname].deviceGroups)
                 && def.key in cfg.objectDefs && cfg.objectDefs[def.key] == def)
    ensures forall j <- AllJobs(cfg, hostnames) ::
              j.hostname in hostnames && j == MakeJob(j.hostname, cfg.devices[j.hostname], j.objectDef)
    decreases |hostnames|
  {
    if hostnames != [] {
      var n := |hostnames| - 1;
      var last, before := hostnames[n], hostnames[..n];
      JobsReached(cfg, before, hostname, def);
      EmitMeaning(last, cfg.devices[last], Walk(cfg, cfg.devices[last].deviceGroups), cfg.objectDefs, def);
    }
  }

  lemma {:induction false} JobsDistinct(cfg: Config, hostnames: seq<string>)
    requires forall h <- hostnames :: h in cfg.devices
    requires forall i, j :: 0 <= i < j < |hostnames| ==> hostnames[i] != hostnames[j]
    requires forall k <- cfg.objectDefs :: cfg.objectDefs[k].key == k
    ensures DistinctPairs(AllJobs(cfg, hostnames))
    decreases |hostnames|
  {
    if hostnames != [] {
      var n := |hostnames| - 1;
      var last, before := hostnames[n], hostnames[..n];
      JobsDistinct(cfg, before);
      var keys := Walk(cfg, cfg.devices[last].deviceGroups);
      EmitDistinct(last, cfg.devices[last], keys, cfg.objectDefs);
      var a, b := AllJobs(cfg, before), DeviceJobs(cfg, last);
      assert last !in before;
      forall i | 0 <= i < |a|
        ensures a[i].hostname != last
      {
        JobsExact(cfg, before, last, a[i].objectDef);
        assert a[i] in a;
      }
      forall i | 0 <= i < |b|
        ensures b[i].hostname == last
      {
        EmitMeaning(last, cfg.devices[last], keys, cfg.objectDefs, b[i].objectDef);
        assert b[i] in b;
      }
      forall i, j | 0 <= i < j < |b|
        ensures Pair(b[i]) != Pair(b[j])
      {
        assert b[i].objectDef.key != b[j].objectDef.key;
      }
      DistinctAppend(a, b);
    }
  }

  function Pair(j: Job): (string, string) {
    (j.hostname, j.objectDef.key)
  }

  ghost predicate DistinctPairs(js: seq<Job>) {
    forall i, j :: 0 <= i < j < |js| ==> Pair(js[i]) != Pair(js[j])
  }

  lemma {:induction false} DistinctAppend(a: seq<Job>, b: seq<Job>)
    requires DistinctPairs(a) && DistinctPairs(b)
    requires forall i, j :: 0 <= i < |a| && 0 <= j < |b| ==> a[i].hostname != b[j].hostname
    ensures DistinctPairs(a + b)
  {
  }

  // ---------- Loading only what is needed ----------

  ghost predicate Needs(cfg: Config, key: string) {
    exists h <- cfg.devices :: key in Walk(cfg, cfg.devices[h].deviceGroups)
  }

  lemma {:induction false} NeededExactly(cfg: Config, key: string)
    ensures Needs(cfg, key) <==>
            exists h, dg, og :: h in cfg.devices && dg in cfg.devices[h].deviceGroups && dg in cfg.deviceGroups
                                && og in cfg.deviceGroups[dg] && og in cfg.objectGroups && key in cfg.objectGroups[og]
  {
    forall h | h in cfg.devices
      ensures key in Walk(cfg, cfg.devices[h].deviceGroups) <==>
              exists dg, og :: dg in cfg.devices[h].deviceGroups && dg in cfg.deviceGroups && og in cfg.deviceGroups[dg]
                               && og in cfg.objectGroups && key in cfg.objectGroups[og]
    {
      WalkReaches(cfg, cfg.devices[h].deviceGroups, key);
    }
  }

  method WalkAll(cfg: Config, dgs: seq<string>, needed0: set<string>) returns (needed: set<string>)
    ensures forall k :: k in needed <==> k in needed0 || k in Walk(cfg, dgs)
  {
    needed := needed0;
    for i := 0 to |dgs|
      invariant forall k :: k in needed <==> k in needed0 || k in Walk(cfg, dgs[..i])
    {
      assert dgs[..i + 1][..i] == dgs[..i];
      if dgs[i] !in cfg.deviceGroups {
        continue;
      }
      var ogs := cfg.deviceGroups[dgs[i]];
      ghost var before := needed;
      for j := 0 to |ogs|
        invariant forall k :: k in needed <==> k in before || k in Objects(cfg, ogs[..j])
      {
        assert ogs[..j + 1][..j] == ogs[..j];
        if ogs[j] !in cfg.objectGroups {
          continue;
        }
        needed := needed + set k | k in cfg.objectGroups[ogs[j]];
      }
      assert ogs[..|ogs|] == ogs;
    }
    assert dgs[..|dgs|] == dgs;
  }

  // Devices are visited in an arbitrary order.
  method ResolveNeededObjects(cfg: Config) returns (needed: set<string>)
    ensures forall k :: k in needed <==> Needs(cfg, k)
  {
    needed := {};
    var todo := cfg.devices.Keys;
    while todo != {}
      invariant todo <= cfg.devices.Keys
      invariant forall k :: k in needed <==> exists h <- cfg.devices.Keys - todo :: k in Walk(cfg, cfg.devices[h].deviceGroups)
      decreases todo
    {
      var h :| h in todo;
      todo := todo - {h};
      needed := WalkAll(cfg, cfg.devices[h].deviceGroups, needed);
    }
  }

  function Converted(raw: map<string, string>): map<string, ObjectDef> {
    map k | k in raw :: ObjectDef(k, raw[k])
  }

  // The parsed object files, later files winning.
  function Merge(files: seq<map<string, string>>): map<string, ObjectDef> {
    if files == [] then map[] else Merge(files[..|files| - 1]) + Converted(files[|files| - 1])
  }

  // An empty needed set switches the filter off.
  function Filtered(defs: map<string, ObjectDef>, needed: set<string>): map<string, ObjectDef> {
    if needed == {} then defs else map k | k in defs && k in needed :: defs[k]
  }

  lemma {:induction false} FilteredUnion(a: map<string, ObjectDef>, b: map<string, ObjectDef>, needed: set<string>)
    ensures Filtered(a + b, needed) == Filtered(a, needed) + Filtered(b, needed)
  {
  }

  // One file's map, visited in an arbitrary order.
  method LoadFile(raw: map<string, string>, needed: set<string>, result0: map<string, ObjectDef>)
    returns (result: map<string, ObjectDef>)
    ensures result == result0 + Filtered(Converted(raw), needed)
  {
    result := result0;
    var filterEnabled := needed != {};
    var todo := raw.Keys;
    while todo != {}
      invariant todo <= raw.Keys
      invariant forall k <- raw.Keys - todo :: !filterEnabled || k in needed ==> k in result && result[k] == ObjectDef(k, raw[k])
      invariant forall k <- result :: k in result0 || (k in raw && (!filterEnabled || k in needed))
      invariant forall k <- result0 :: k in result && (k !in raw || k in todo || (filterEnabled && k !in needed) ==> result[k] == result0[k])
      decreases todo
    {
      var key :| key in todo;
      todo := todo - {key};
      if filterEnabled && key !in needed {
        continue;
      }
      result := result[key := ObjectDef(key, raw[key])];
    }
    assert raw.Keys - todo == raw.Keys;
  }

  method LoadObjectDefs(files: seq<map<string, string>>, needed: set<string>) returns (result: map<string, ObjectDef>)
    ensures result == Filtered(Merge(files), needed)
  {
    result := map[];
    for i := 0 to |files|
      invariant result == Filtered(Merge(files[..i]), needed)
    {
      assert files[..i + 1][..i] == files[..i];
      FilteredUnion(Merge(files[..i]), Converted(files[i]), needed);
      result := LoadFile(files[i], needed, result);
    }
    assert files[..|files|] == files;
  }

  // A definition is loaded exactly when some file has it and it is needed (or nothing is), and it is
  // the one of the last such file.
  lemma {:induction false} LoadMeaning(files: seq<map<string, string>>, needed: set<string>, key: string)
    ensures var defs := Filtered(Merge(files), needed);
            && (key in defs <==> (needed == {} || key in needed) && exists i :: 0 <= i < |files| && key in files[i])
            && (key in defs ==> exists i :: 0 <= i < |files| && key in files[i] && defs[key] == ObjectDef(key, files[i][key])
                                            && forall j :: i < j < |files| ==> key !in files[j])
    decreases |files|
  {
    if files != [] {
      var n := |files| - 1;
      LoadMeaning(files[..n], needed, key);
      FilteredUnion(Merge(files[..n]), Converted(files[n]), needed);
      if key in files[n] {
        assert key in Converted(files[n]);
      }
    }
  }

  lemma {:induction false} MergeKeys(files: seq<map<string, string>>)
    ensures forall k <- Merge(files) :: Merge(files)[k].key == k
    decreases |files|
  {
    if files != [] {
      MergeKeys(files[..|files| - 1]);
    }
  }

  lemma {:induction false} EmitFiltered(hostname: string, dev: DeviceConfig, keys: seq<string>,
                                        defs: map<string, ObjectDef>, needed: set<string>)
    requires forall k <- keys :: k in needed
    ensures Emit(hostname, dev, keys, Filtered(defs, needed)) == Emit(hostname, dev, keys, defs)
    decreases |keys|
  {
    if keys != [] {
      EmitFiltered(hostname, dev, keys[..|keys| - 1], defs, needed);
    }
  }

  lemma {:induction false} WalkIgnoresDefs(cfg: Config, cfg': Config, dgs: seq<string>)
    requires cfg.deviceGroups == cfg'.deviceGroups && cfg.objectGroups == cfg'.objectGroups
    ensures Walk(cfg, dgs) == Walk(cfg', dgs)
    decreases |dgs|
  {
    if dgs != [] {
      WalkIgnoresDefs(cfg, cfg', dgs[..|dgs| - 1]);
      if dgs[|dgs| - 1] in cfg.deviceGroups {
        ObjectsIgnoreDefs(cfg, cfg', cfg.deviceGroups[dgs[|dgs| - 1]]);
      }
    }
  }

  lemma {:induction false} ObjectsIgnoreDefs(cfg: Config, cfg': Config, ogs: seq<string>)
    requires cfg.objectGroups == cfg'.objectGroups
    ensures Objects(cfg, ogs) == Objects(cfg', ogs)
    decreases |ogs|
  {
    if ogs != [] {
      ObjectsIgnoreDefs(cfg, cfg', ogs[..|ogs| - 1]);
    }
  }

  // The main result: filtering the definitions changes no job and no position.
  lemma {:induction false} FilterPreservesJobs(cfg: Config, needed: set<string>, hostnames: seq<string>)
    requires forall h <- hostnames :: h in cfg.devices
    requires forall k :: k in needed <==> Needs(cfg, k)
    ensures AllJobs(cfg.(objectDefs := Filtered(cfg.objectDefs, needed)), hostnames) == AllJobs(cfg, hostnames)
    decreases |hostnames|
  {
    if hostnames != [] {
      var n := |hostnames| - 1;
      var h := hostnames[n];
      var cfg' := cfg.(objectDefs := Filtered(cfg.objectDefs, needed));
      FilterPreservesJobs(cfg, needed, hostnames[..n]);
      var dev := cfg.devices[h];
      WalkIgnoresDefs(cfg, cfg', dev.deviceGroups);
      forall k | k in Walk(cfg, dev.deviceGroups)
        ensures k in needed
      {
        assert Needs(cfg, k);
      }
      EmitFiltered(h, dev, Walk(cfg, dev.deviceGroups), cfg.objectDefs, needed);
    }
  }

  // ---------- Grouping by host ----------

  function JobsOf(jobs: seq<Job>, h: string): seq<Job> {
    if jobs == [] then []
    else JobsOf(jobs[..|jobs| - 1], h) + if jobs[|jobs| - 1].hostname == h then [jobs[|jobs| - 1]] else []
  }

  // Exactly the host's jobs, in their order: from[i] is where the i-th of them stands.
  lemma {:induction false} JobsOfExact(jobs: seq<Job>, h: string) returns (from: seq<nat>)
    ensures |from| == |JobsOf(jobs, h)|
    ensures forall i :: 0 <= i < |from| ==>
              from[i] < |jobs| && jobs[from[i]] == JobsOf(jobs, h)[i] && JobsOf(jobs, h)[i].hostname == h
    ensures forall i :: 0 < i < |from| ==> from[i - 1] < from[i]
    decreases |jobs|
  {
    from := [];
    if jobs != [] {
      var n := |jobs| - 1;
      from := JobsOfExact(jobs[..n], h);
      if jobs[n].hostname == h {
        from := from + [n];
      }
    }
  }

  method JobsByHostname(jobs: seq<Job>) returns (m: map<string, seq<Job>>)
    ensures forall h :: JobsOf(jobs, h) == if h in m then m[h] else []
    ensures forall h <- m :: m[h] != []
  {
    m := map[];
    for i := 0 to |jobs|
      invariant forall h :: JobsOf(jobs[..i], h) == if h in m then m[h] else []
      invariant forall h <- m :: m[h] != []
    {
      assert jobs[..i + 1][..i] == jobs[..i];
      var j := jobs[i];
      m := m[j.hostname := (if j.hostname in m then m[j.hostname] else []) + [j]];
    }
    assert jobs[..|jobs|] == jobs;
  }

  function Sizes(hosts: seq<string>, jobs: seq<Job>): nat {
    if hosts == [] then 0 else |JobsOf(jobs, hosts[0])| + Sizes(hosts[1..], jobs)
  }

  lemma {:induction false} SizesSnoc(hosts: seq<string>, jobs: seq<Job>)
    requires jobs != []
    requires forall i, j :: 0 <= i < j < |hosts| ==> hosts[i] != hosts[j]
    ensures Sizes(hosts, jobs) == Sizes(hosts, jobs[..|jobs| - 1]) + if jobs[|jobs| - 1].hostname in hosts then 1 else 0
    decreases |hosts|
  {
    if hosts != [] {
      SizesSnoc(hosts[1..], jobs);
      assert forall h :: h in hosts <==> h == hosts[0] || h in hosts[1..];
    }
  }

  // Grouping keeps every job exactly once.
  lemma {:induction false} GroupingConserves(hosts: seq<string>, jobs: seq<Job>)
    requires forall i, j :: 0 <= i < j < |hosts| ==> hosts[i] != hosts[j]
    requires forall j <- jobs :: j.hostname in hosts
    ensures Sizes(hosts, jobs) == |jobs|
    decreases |jobs|
  {
    if jobs == [] {
      SizesEmpty(hosts);
    } else {
      SizesSnoc(hosts, jobs);
      GroupingConserves(hosts, jobs[..|jobs| - 1]);
    }
  }

  lemma {:induction false} SizesEmpty(hosts: seq<string>)
    ensures Sizes(hosts, []) == 0
    decreases |hosts|
  {
    if hosts != [] {
      SizesEmpty(hosts[1..]);
    }
  }
}
