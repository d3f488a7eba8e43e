/** Size-based file rotation (internal/plugin/transport/file/rotate.go).
    The directory is a map: index 0 is the active path, index i > 0 its backup ".i".
    File operations succeed unless their source is missing. */
module RotatingFile {
  import opened Common

  type Byte = bv8
  type Disk = map<nat, seq<Byte>>

  function At(d: Disk, i: nat): Option<seq<Byte>> {
    if i in d then Some(d[i]) else None
  }

  function Content(d: Disk, i: nat): seq<Byte> {
    if i in d then d[i] else []
  }

  // Backups hi-1 down to lo, oldest first.
  function Range(d: Disk, lo: nat, hi: nat): seq<Byte>
    decreases hi
  {
    if hi <= lo then [] else Content(d, hi - 1) + Range(d, lo, hi - 1)
  }

  // Some index above every file.
  ghost predicate Bounds(top: nat, d: Disk) {
    forall k <- d :: k < top
  }

  function KeysFrom(d: Disk, from: nat): set<nat> {
    set k | k in d && k >= from
  }

  // The smallest index >= from with no file; the directory is finite.
  function Gap(d: Disk, from: nat): (g: nat)
    ensures from <= g && g !in d
    ensures forall i :: from <= i < g ==> i in d
    decreases KeysFrom(d, from)
  {
    if from in d then
      assert KeysFrom(d, from + 1) == KeysFrom(d, from) - {from};
      assert from in KeysFrom(d, from);
      Gap(d, from + 1)
    else from
  }

  // ---------- What a rotation does ----------

  // Indices below keep move up by one, indices from keep to below high disappear,
  // indices from high on stay where they are.
  datatype Plan = Plan(keep: nat, high: nat)

  function PlanOf(d: Disk, maxBackups: int): (p: Plan)
    ensures 1 <= p.keep < p.high
  {
    if maxBackups > 0 then Plan(maxBackups, Gap(d, maxBackups + 1))
    else if maxBackups == 0 then Plan(Gap(d, 1), Gap(d, 1) + 1)
    else Plan(1, 2)
  }

  function OneUp(d: Disk, keep: nat): set<nat> {
    set k | k in d && k < keep :: k + 1
  }

  // The files below keep, each one index up.
  function MovedUp(d: Disk, keep: nat): Disk {
    map i | i in OneUp(d, keep) :: d[i - 1]
  }

  function From(d: Disk, high: nat): Disk {
    map k | k in d && k >= high :: d[k]
  }

  function Rotated(d: Disk, p: Plan): Disk
    requires 1 <= p.keep < p.high
  {
    From(d, p.high) + MovedUp(d, p.keep) + map[0 := []]
  }

  lemma {:induction false} MovedUpAt(d: Disk, keep: nat, i: nat)
    ensures At(MovedUp(d, keep), i) == if 1 <= i <= keep then At(d, i - 1) else None
  {
    assert 1 <= i <= keep && i - 1 in d ==> (i - 1) + 1 in OneUp(d, keep);
  }

  lemma {:induction false} RotatedAt(d: Disk, p: Plan, i: nat)
    requires 1 <= p.keep < p.high
    ensures At(Rotated(d, p), i)
         == if i == 0 then Some([])
            else if i <= p.keep then At(d, i - 1)
            else if i < p.high then None
            else At(d, i)
  {
    MovedUpAt(d, p.keep, i);
    assert i in From(d, p.high) <==> i in d && i >= p.high;
  }

  // The directory after a rotation, index by index. With a limit every file up to it moves up by one
  // and the files beyond it go, up to the first free index; without one the files before the first
  // free index move up; a negative limit puts the active file over ".1".
  lemma {:induction false} RotationMeaning(d: Disk, maxBackups: int, k: nat)
    requires k >= 1
    ensures var r := Rotated(d, PlanOf(d, maxBackups));
            && At(r, 0) == Some([])
            && (maxBackups > 0 && k <= maxBackups ==> At(r, k) == At(d, k - 1))
            && (maxBackups > 0 && k > maxBackups ==>
                  At(r, k) == if forall i :: maxBackups < i <= k ==> i in d then None else At(d, k))
            && (maxBackups == 0 ==> At(r, k) == if forall i :: 1 <= i < k ==> i in d then At(d, k - 1) else At(d, k))
            && (maxBackups < 0 ==> At(r, k) == if k == 1 then At(d, 0) else At(d, k))
  {
    RotatedAt(d, PlanOf(d, maxBackups), 0);
    RotatedAt(d, PlanOf(d, maxBackups), k);
  }

  lemma {:induction false} RotatedBackups(d: Disk, maxBackups: int)
    ensures forall k: nat :: 1 <= k <= maxBackups ==> At(Rotated(d, PlanOf(d, maxBackups)), k) == At(d, k - 1)
  {
    forall k: nat | 1 <= k <= maxBackups
      ensures At(Rotated(d, PlanOf(d, maxBackups)), k) == At(d, k - 1)
    {
      RotationMeaning(d, maxBackups, k);
    }
  }

  lemma {:induction false} RemoveAt(d: Disk, i: nat)
    ensures forall k: nat :: At(d - {i}, k) == if k == i then None else At(d, k)
  {
  }

  lemma {:induction false} PutAt(d: Disk, i: nat, c: seq<Byte>)
    ensures forall k: nat :: At(d[i := c], k) == if k == i then Some(c) else At(d, k)
  {
    var d' := d[i := c];
    forall k: nat
      ensures At(d', k) == if k == i then Some(c) else At(d, k)
    {
      assert k in d' <==> k == i || k in d;
    }
  }

  lemma {:induction false} SameDisk(d: Disk, e: Disk)
    requires forall i: nat :: At(d, i) == At(e, i)
    ensures d == e
  {
    forall i: nat
      ensures i in d <==> i in e
      ensures i in d ==> d[i] == e[i]
    {
      assert At(d, i) == At(e, i);
    }
    assert d.Keys == e.Keys;
  }

  lemma {:induction false} SameGap(d: Disk, e: Disk, from: nat)
    requires forall i: nat :: i >= from ==> At(d, i) == At(e, i)
    ensures Gap(d, from) == Gap(e, from)
  {
    var g, h := Gap(d, from), Gap(e, from);
    assert At(d, h) == At(e, h) && At(d, g) == At(e, g);
  }

  ghost predicate IsShifted(d: Disk, was: Disk, keep: nat) {
    && 0 !in d
    && (forall k: nat :: k < keep ==> At(d, k + 1) == At(was, k))
    && (forall k: nat :: k > keep ==> At(d, k) == At(was, k))
  }

  lemma {:induction false} RotationResult(was: Disk, shifted: Disk, pruned: Disk, plan: Plan)
    requires 1 <= plan.keep < plan.high && IsShifted(shifted, was, plan.keep)
    requires forall k: nat :: At(pruned, k) == if plan.keep < k < plan.high then None else At(shifted, k)
    ensures pruned[0 := []] == Rotated(was, plan)
  {
    PutAt(pruned, 0, []);
    forall i: nat
      ensures At(pruned[0 := []], i) == At(Rotated(was, plan), i)
    {
      RotatedAt(was, plan, i);
      if 1 <= i <= plan.keep {
        assert At(shifted, (i - 1) + 1) == At(was, i - 1);
      }
    }
    SameDisk(pruned[0 := []], Rotated(was, plan));
  }

  class RotatingFile {
    const maxBytes: int
    const maxBackups: int
    var disk: Disk
    var size: int
    ghost var clobbered: bool // some rename has landed on an existing file

    ghost predicate Valid()
      reads this
    {
      0 in disk && size == |disk[0]|
    }

    // Opening creates the active file when it is missing and measures it.
    constructor (maxBytes: int, maxBackups: int, found: Disk)
      ensures Valid() && !clobbered
      ensures this.maxBytes == maxBytes && this.maxBackups == maxBackups
      ensures disk == if 0 in found then found else found[0 := []]
    {
      this.maxBytes, this.maxBackups := maxBytes, maxBackups;
      disk := if 0 in found then found else found[0 := []];
      size := if 0 in found then |found[0]| else 0;
      clobbered := false;
    }

    method Rename(src: nat, dst: nat)
      requires src != dst
      modifies this`disk, this`clobbered
      ensures clobbered == (old(clobbered) || (src in old(disk) && dst in old(disk)))
      ensures src !in old(disk) ==> disk == old(disk)
      ensures src in old(disk) ==> forall k: nat ::
                (At(disk, k) == if k == src then None else if k == dst then At(old(disk), src) else At(old(disk), k))
    {
      if src in disk {
        clobbered := clobbered || dst in disk;
        disk := disk[dst := disk[src]] - {src};
      }
    }

    method FindMaxBackup() returns (max: nat)
      ensures max + 1 == Gap(disk, 1)
    {
      max := 0;
      var i := 1;
      while i in disk
        invariant 1 <= i && max == i - 1
        invariant Gap(disk, i) == Gap(disk, 1)
        decreases Gap(disk, 1) - i
      {
        max := i;
        i := i + 1;
      }
    }

    method Prune()
      requires maxBackups > 0
      modifies this`disk
      ensures forall k: nat :: At(disk, k) ==
                if maxBackups < k < Gap(old(disk), maxBackups + 1) then None else At(old(disk), k)
    {
      ghost var stop := Gap(disk, maxBackups + 1);
      var i := maxBackups + 1;
      while i in disk
        invariant maxBackups < i <= stop
        invariant forall k: nat :: At(disk, k) == if maxBackups < k < i then None else At(old(disk), k)
        decreases stop - i
      {
        assert At(disk, i) == At(old(disk), i);
        RemoveAt(disk, i);
        disk := disk - {i};
        i := i + 1;
      }
      assert At(disk, i) == At(old(disk), i);
    }

    // Move backups limit..1 up by one, from the top down; slot limit + 1 is free.
    method ShiftUp(limit: nat)
      requires limit + 1 !in disk
      modifies this`disk, this`clobbered
      ensures clobbered == old(clobbered)
      ensures 1 !in disk
      ensures forall k: nat :: (k == 0 || k > limit + 1) ==> At(disk, k) == At(old(disk), k)
      ensures forall k: nat :: 1 <= k <= limit ==> At(disk, k + 1) == At(old(disk), k)
    {
      ghost var was := disk;
      var i := limit;
      while i >= 1
        invariant 0 <= i <= limit
        invariant clobbered == old(clobbered)
        invariant i + 1 !in disk
        invariant forall k: nat :: (k <= i || k > limit + 1) ==> At(disk, k) == At(was, k)
        invariant forall k: nat :: i + 1 <= k <= limit ==> At(disk, k + 1) == At(was, k)
        decreases i
      {
        ghost var d := disk;
        Rename(i, i + 1);
        assert At(disk, i + 1) == At(d, i) == At(was, i);
        i := i - 1;
      }
    }

    // All renames of a rotation. The slot above the shifted backups is free, except when
    // maxBackups is negative: then nothing is shifted and ".1" may be overwritten.
    method ShiftAll(keep: nat)
      requires 0 in disk && keep >= 1 && if maxBackups >= 0 then keep !in disk else keep == 1
      modifies this`disk, this`clobbered
      ensures 0 !in disk
      ensures clobbered == (old(clobbered) || (maxBackups < 0 && 1 in old(disk)))
      ensures forall k: nat :: k < keep ==> At(disk, k + 1) == At(old(disk), k)
      ensures forall k: nat :: k > keep ==> At(disk, k) == At(old(disk), k)
    {
      if maxBackups > 0 {
        Rename(keep, keep + 1); // no effect: the source was removed above
      }
      if maxBackups >= 0 {
        ShiftUp(keep - 1);
      }
      ghost var d := disk;
      assert At(d, 0) == At(old(disk), 0);
      Rename(0, 1);
      assert At(disk, 0 + 1) == At(d, 0);
    }

    // Drop the oldest backup if it has no room, then rename.
    method MakeRoom()
      requires 0 in disk
      modifies this`disk, this`clobbered
      ensures clobbered == (old(clobbered) || (maxBackups < 0 && 1 in old(disk)))
      ensures IsShifted(disk, old(disk), PlanOf(old(disk), maxBackups).keep)
    {
      ghost var was := disk;
      var keep := maxBackups;
      if maxBackups > 0 {
        RemoveAt(disk, keep);
        disk := disk - {keep as nat};
      } else if maxBackups == 0 {
        var max := FindMaxBackup();
        keep := max + 1;
      } else {
        keep := 1;
      }
      ghost var free := disk;
      assert forall k: nat :: k != keep ==> At(free, k) == At(was, k);
      ShiftAll(keep);
      assert forall k: nat :: k < keep ==> At(disk, k + 1) == At(free, k);
    }

    method Rotate()
      requires Valid()
      modifies this
      ensures Valid() && size == 0
      ensures disk == Rotated(old(disk), PlanOf(old(disk), maxBackups))
      ensures clobbered == (old(clobbered) || (maxBackups < 0 && 1 in old(disk)))
    {
      ghost var plan := PlanOf(disk, maxBackups);
      MakeRoom();
      ghost var shifted := disk;
      if maxBackups > 0 {
        SameGap(shifted, old(disk), maxBackups + 1);
        Prune();
      }
      RotationResult(old(disk), shifted, disk, plan);
      disk := disk[0 := []];
      size := 0;
    }

    method Write(p: seq<Byte>)
      requires Valid()
      modifies this
      ensures Valid()
      ensures disk == Written(old(disk), p, maxBytes, maxBackups)
      ensures maxBytes <= 0 || old(size) + |p| <= maxBytes ==> disk == old(disk)[0 := old(disk)[0] + p]
      ensures maxBytes > 0 && old(size) + |p| > maxBytes ==>
                disk[0] == p && forall k: nat :: 1 <= k <= maxBackups ==> At(disk, k) == At(old(disk), k - 1)
      ensures maxBytes > 0 ==> size <= (if |p| > maxBytes then |p| else maxBytes)
      ensures clobbered == (old(clobbered) || (maxBackups < 0 && 1 in old(disk) && Due(old(disk), p, maxBytes)))
    {
      if maxBytes > 0 && size + |p| > maxBytes {
        RotatedBackups(disk, maxBackups);
        Rotate();
      }
      disk := disk[0 := disk[0] + p];
      size := size + |p|;
    }
  }

  predicate Due(d: Disk, p: seq<Byte>, maxBytes: int) {
    maxBytes > 0 && |Content(d, 0)| + |p| > maxBytes
  }

  function Written(d: Disk, p: seq<Byte>, maxBytes: int, maxBackups: int): Disk {
    var d' := if Due(d, p, maxBytes) then Rotated(d, PlanOf(d, maxBackups)) else d;
    d'[0 := Content(d', 0) + p]
  }

  // ---------- The log as a whole ----------

  // All contents, oldest backup first, active file last; any bound above the files will do.
  ghost function Log(d: Disk): seq<Byte> {
    Range(d, 0, Top(d))
  }

  ghost function Top(d: Disk): (top: nat)
    ensures Bounds(top, d)
  {
    SomeBound(d);
    var top: nat :| Bounds(top, d);
    top
  }

  lemma {:induction false} SomeBound(d: Disk)
    ensures exists top :: Bounds(top, d)
    decreases |d|
  {
    if d == map[] {
      assert Bounds(0, d);
    } else {
      var k :| k in d;
      var d' := d - {k};
      SomeBound(d');
      var top: nat :| Bounds(top, d');
      assert forall j <- d :: j == k || j in d';
      assert Bounds(top + k + 1, d);
    }
  }

  lemma {:induction false} RangeSplit(d: Disk, lo: nat, mid: nat, hi: nat)
    requires lo <= mid <= hi
    ensures Range(d, lo, hi) == Range(d, mid, hi) + Range(d, lo, mid)
    decreases hi
  {
    if mid < hi {
      RangeSplit(d, lo, mid, hi - 1);
    }
  }

  lemma {:induction false} RangeSame(d: Disk, e: Disk, lo: nat, hi: nat)
    requires forall i :: lo <= i < hi ==> Content(d, i) == Content(e, i)
    ensures Range(d, lo, hi) == Range(e, lo, hi)
    decreases hi
  {
    if lo < hi {
      RangeSame(d, e, lo, hi - 1);
    }
  }

  lemma {:induction false} RangeUp(d: Disk, e: Disk, lo: nat, hi: nat)
    requires forall i :: lo <= i < hi ==> Content(d, i + 1) == Content(e, i)
    ensures Range(d, lo + 1, hi + 1) == Range(e, lo, hi)
    decreases hi
  {
    if lo < hi {
      RangeUp(d, e, lo, hi - 1);
    }
  }

  lemma {:induction false} RangeEmpty(d: Disk, lo: nat, hi: nat)
    requires forall i :: lo <= i < hi ==> Content(d, i) == []
    ensures Range(d, lo, hi) == []
    decreases hi
  {
    if lo < hi {
      RangeEmpty(d, lo, hi - 1);
    }
  }

  // The contents from index lo up.
  ghost function Above(d: Disk, lo: nat): seq<Byte> {
    Range(d, lo, Top(d))
  }

  lemma {:induction false} AboveIs(d: Disk, lo: nat, top: nat)
    requires Bounds(top, d)
    ensures Above(d, lo) == Range(d, lo, top)
  {
    var t := Top(d);
    if lo <= t <= top {
      RangeSplit(d, lo, t, top);
      RangeEmpty(d, t, top);
    } else if lo <= top < t {
      RangeSplit(d, lo, top, t);
      RangeEmpty(d, top, t);
    } else if t < lo <= top {
      RangeEmpty(d, lo, top);
    } else if top < lo <= t {
      RangeEmpty(d, lo, t);
    }
  }

  lemma {:induction false} LogSplit(d: Disk, mid: nat)
    ensures Log(d) == Above(d, mid) + Range(d, 0, mid)
  {
    var top := Top(d) + mid;
    AboveIs(d, 0, top);
    AboveIs(d, mid, top);
    RangeSplit(d, 0, mid, top);
  }

  lemma {:induction false} RotatedContent(d: Disk, p: Plan, i: nat)
    requires 1 <= p.keep < p.high
    ensures Content(Rotated(d, p), i)
         == if i == 0 then [] else if i <= p.keep then Content(d, i - 1) else if i < p.high then [] else Content(d, i)
  {
    RotatedAt(d, p, i);
  }

  lemma {:induction false} RotatedBelow(d: Disk, p: Plan)
    requires 1 <= p.keep < p.high
    ensures Range(Rotated(d, p), 0, p.keep + 1) == Range(d, 0, p.keep)
  {
    forall i: nat | i <= p.keep
      ensures Content(Rotated(d, p), i) == if i == 0 then [] else Content(d, i - 1)
    {
      RotatedContent(d, p, i);
    }
    RangePushed(Rotated(d, p), d, p.keep);
  }

  lemma {:induction false} RangePushed(r: Disk, d: Disk, n: nat)
    requires forall i: nat :: i <= n ==> Content(r, i) == if i == 0 then [] else Content(d, i - 1)
    ensures Range(r, 0, n + 1) == Range(d, 0, n)
  {
    RangeUp(r, d, 0, n);
    RangeSplit(r, 0, 1, n + 1);
    RangeEmpty(r, 0, 1);
  }

  lemma {:induction false} RotatedAbove(d: Disk, p: Plan)
    requires 1 <= p.keep < p.high
    ensures Above(Rotated(d, p), p.keep + 1) == Above(d, p.high)
    ensures Above(Rotated(d, p), p.high) == Above(d, p.high)
  {
    var r := Rotated(d, p);
    var top := Top(d) + Top(r) + p.high;
    forall i: nat
      ensures p.keep < i < p.high ==> Content(r, i) == []
      ensures i >= p.high ==> Content(r, i) == Content(d, i)
    {
      RotatedContent(d, p, i);
    }
    AboveIs(d, p.high, top);
    AboveIs(r, p.keep + 1, top);
    AboveIs(r, p.high, top);
    RangeSplit(r, p.keep + 1, p.high, top);
    RangeEmpty(r, p.keep + 1, p.high);
    RangeSame(r, d, p.high, top);
  }

  lemma {:induction false} LogInThree(d: Disk, keep: nat, high: nat)
    requires keep <= high
    ensures Log(d) == Above(d, high) + Range(d, keep, high) + Range(d, 0, keep)
  {
    LogSplit(d, high);
    RangeSplit(d, 0, keep, high);
  }

  // A rotation loses exactly the contents from index keep to below high (LogInThree says where they were).
  lemma {:induction false} RotationLoses(d: Disk, p: Plan)
    requires 1 <= p.keep < p.high
    ensures Log(Rotated(d, p)) == Above(d, p.high) + Range(d, 0, p.keep)
  {
    RotatedAbove(d, p);
    RotatedBelow(d, p);
    RejoinLog(Rotated(d, p), p.keep + 1, Above(d, p.high), Range(d, 0, p.keep));
  }

  lemma {:induction false} RejoinLog(d: Disk, mid: nat, above: seq<Byte>, below: seq<Byte>)
    requires Above(d, mid) == above && Range(d, 0, mid) == below
    ensures Log(d) == above + below
  {
    LogSplit(d, mid);
  }

  lemma {:induction false} AppendLog(d: Disk, p: seq<Byte>)
    ensures Log(d[0 := Content(d, 0) + p]) == Log(d) + p
    ensures forall lo: nat :: lo > 0 ==> Above(d[0 := Content(d, 0) + p], lo) == Above(d, lo)
  {
    var e := d[0 := Content(d, 0) + p];
    var top := Top(d) + Top(e);
    forall lo: nat | lo > 0
      ensures Above(e, lo) == Above(d, lo)
    {
      AboveIs(d, lo, top);
      AboveIs(e, lo, top);
      RangeSame(e, d, lo, top);
    }
    LogSplit(d, 1);
    LogSplit(e, 1);
  }

  // ---------- Whole runs ----------

  function WriteAll(d: Disk, ps: seq<seq<Byte>>, maxBytes: int, maxBackups: int): Disk {
    if ps == [] then d
    else Written(WriteAll(d, ps[..|ps| - 1], maxBytes, maxBackups), ps[|ps| - 1], maxBytes, maxBackups)
  }

  function Concat(ps: seq<seq<Byte>>): seq<Byte> {
    if ps == [] then [] else Concat(ps[..|ps| - 1]) + ps[|ps| - 1]
  }

  lemma {:induction false} ConcatSnoc(base: seq<Byte>, ps: seq<seq<Byte>>)
    requires ps != []
    ensures base + Concat(ps) == (base + Concat(ps[..|ps| - 1])) + ps[|ps| - 1]
  {
    Assoc(base, Concat(ps[..|ps| - 1]), ps[|ps| - 1]);
  }

  lemma {:induction false} Assoc(a: seq<Byte>, b: seq<Byte>, c: seq<Byte>)
    ensures a + (b + c) == (a + b) + c
  {
  }

  method WriteMany(file: RotatingFile, ps: seq<seq<Byte>>)
    requires file.Valid()
    modifies file
    ensures file.Valid()
    ensures file.disk == WriteAll(old(file.disk), ps, file.maxBytes, file.maxBackups)
    ensures file.maxBackups >= 0 ==> file.clobbered == old(file.clobbered)
  {
    for i := 0 to |ps|
      invariant file.Valid()
      invariant file.disk == WriteAll(old(file.disk), ps[..i], file.maxBytes, file.maxBackups)
      invariant file.maxBackups >= 0 ==> file.clobbered == old(file.clobbered)
    {
      assert ps[..i + 1][..i] == ps[..i];
      file.Write(ps[i]);
    }
    assert ps[..|ps|] == ps;
  }

  // Writes that fit into the limit together (or come without one) only lengthen the active file.
  lemma {:induction false} FittingRun(d: Disk, ps: seq<seq<Byte>>, maxBytes: int, maxBackups: int)
    requires 0 in d && (maxBytes <= 0 || |d[0]| + |Concat(ps)| <= maxBytes)
    ensures WriteAll(d, ps, maxBytes, maxBackups) == d[0 := d[0] + Concat(ps)]
    decreases |ps|
  {
    if ps == [] {
      assert d[0] + [] == d[0];
    } else {
      FittingRun(d, ps[..|ps| - 1], maxBytes, maxBackups);
      ConcatSnoc(d[0], ps);
    }
  }

  // One write, rotation included: what it appends and what it drops.
  lemma {:induction false} WriteLog(d: Disk, p: seq<Byte>, maxBytes: int, maxBackups: int)
    ensures var plan := PlanOf(d, maxBackups);
            Log(Written(d, p, maxBytes, maxBackups))
            == (if Due(d, p, maxBytes) then Above(d, plan.high) + Range(d, 0, plan.keep) else Log(d)) + p
  {
    if Due(d, p, maxBytes) {
      RotationLoses(d, PlanOf(d, maxBackups));
      AppendLog(Rotated(d, PlanOf(d, maxBackups)), p);
    } else {
      AppendLog(d, p);
    }
  }

  lemma {:induction false} UnlimitedRotation(d: Disk)
    ensures var plan := PlanOf(d, 0);
            Above(d, plan.high) + Range(d, 0, plan.keep) == Log(d)
  {
    var plan := PlanOf(d, 0);
    LogInThree(d, plan.keep, plan.high);
    RangeEmpty(d, plan.keep, plan.high);
  }

  // Without a backup limit, or without rotation, nothing is ever lost, gaps or not.
  lemma {:induction false} NothingLost(d: Disk, ps: seq<seq<Byte>>, maxBytes: int, maxBackups: int)
    requires maxBackups == 0 || maxBytes <= 0
    ensures Log(WriteAll(d, ps, maxBytes, maxBackups)) == Log(d) + Concat(ps)
    decreases |ps|
  {
    if ps != [] {
      var n := |ps| - 1;
      var e := WriteAll(d, ps[..n], maxBytes, maxBackups);
      NothingLost(d, ps[..n], maxBytes, maxBackups);
      WriteLog(e, ps[n], maxBytes, maxBackups);
      if maxBackups == 0 {
        UnlimitedRotation(e);
      }
      ConcatSnoc(Log(d), ps);
    }
  }

  // The contents no rotation will ever reach: files beyond the first free index above maxBackups.
  ghost function Stuck(d: Disk, maxBackups: int): seq<Byte> {
    Above(d, PlanOf(d, maxBackups).high)
  }

  lemma {:induction false} GapIgnoresActive(d: Disk, c: seq<Byte>, from: nat)
    requires from > 0
    ensures Gap(d[0 := c], from) == Gap(d, from)
  {
    PutAt(d, 0, c);
    SameGap(d[0 := c], d, from);
  }

  lemma {:induction false} GapAfterRotation(d: Disk, maxBackups: int)
    requires maxBackups > 0
    ensures Gap(Rotated(d, PlanOf(d, maxBackups)), maxBackups + 1) == maxBackups + 1
  {
    RotatedAt(d, PlanOf(d, maxBackups), maxBackups + 1);
  }

  lemma {:induction false} AboveAppend(d: Disk, p: seq<Byte>, maxBackups: int)
    requires maxBackups != 0
    ensures var e := d[0 := Content(d, 0) + p];
            PlanOf(e, maxBackups) == PlanOf(d, maxBackups) && Stuck(e, maxBackups) == Stuck(d, maxBackups)
  {
    AppendLog(d, p);
    if maxBackups > 0 {
      GapIgnoresActive(d, Content(d, 0) + p, maxBackups + 1);
    }
  }

  lemma {:induction false} StuckStays(d: Disk, p: seq<Byte>, maxBytes: int, maxBackups: int)
    requires maxBackups != 0
    ensures Stuck(Written(d, p, maxBytes, maxBackups), maxBackups) == Stuck(d, maxBackups)
    ensures PlanOf(Written(d, p, maxBytes, maxBackups), maxBackups).high <= PlanOf(d, maxBackups).high
  {
    var plan := PlanOf(d, maxBackups);
    if Due(d, p, maxBytes) {
      AboveAppend(Rotated(d, plan), p, maxBackups);
      RotatedAbove(d, plan);
      if maxBackups > 0 {
        GapAfterRotation(d, maxBackups);
      }
    } else {
      AboveAppend(d, p, maxBackups);
    }
  }

  predicate IsSuffix(s: seq<Byte>, t: seq<Byte>) {
    |s| <= |t| && t[|t| - |s|..] == s
  }

  // With a limit and nothing stuck, what is kept is always a suffix of everything.
  lemma {:induction false} SuffixKept(d: Disk, ps: seq<seq<Byte>>, maxBytes: int, maxBackups: int)
    requires maxBackups != 0 && Stuck(d, maxBackups) == []
    ensures IsSuffix(Log(WriteAll(d, ps, maxBytes, maxBackups)), Log(d) + Concat(ps))
    ensures Stuck(WriteAll(d, ps, maxBytes, maxBackups), maxBackups) == []
    decreases |ps|
  {
    if ps != [] {
      var n := |ps| - 1;
      var e := WriteAll(d, ps[..n], maxBytes, maxBackups);
      SuffixKept(d, ps[..n], maxBytes, maxBackups);
      StuckStays(e, ps[n], maxBytes, maxBackups);
      ConcatSnoc(Log(d), ps);
      KeptSuffix(e, Log(d) + Concat(ps[..n]), ps[n], maxBytes, maxBackups);
    } else {
      assert Log(d) + [] == Log(d);
    }
  }

  lemma {:induction false} KeptSuffix(e: Disk, whole: seq<Byte>, p: seq<Byte>, maxBytes: int, maxBackups: int)
    requires maxBackups != 0 && Stuck(e, maxBackups) == [] && IsSuffix(Log(e), whole)
    ensures IsSuffix(Log(Written(e, p, maxBytes, maxBackups)), whole + p)
  {
    WriteLog(e, p, maxBytes, maxBackups);
    var plan := PlanOf(e, maxBackups);
    LogInThree(e, plan.keep, plan.high);
    SuffixAfterLoss(Log(e), Above(e, plan.high), Range(e, plan.keep, plan.high), Range(e, 0, plan.keep), whole, p);
    SuffixTail([], Log(e), whole, p);
  }

  lemma {:induction false} SuffixAfterLoss(log: seq<Byte>, above: seq<Byte>, lost: seq<Byte>, kept: seq<Byte>, whole: seq<Byte>, p: seq<Byte>)
    requires above == [] && log == above + lost + kept && IsSuffix(log, whole)
    ensures IsSuffix(above + kept + p, whole + p)
    ensures [] + log == log
  {
    assert log == lost + kept && above + kept + p == kept + p;
    SuffixTail(lost, kept, whole, p);
  }

  lemma {:induction false} SuffixTail(a: seq<Byte>, b: seq<Byte>, whole: seq<Byte>, p: seq<Byte>)
    requires IsSuffix(a + b, whole)
    ensures IsSuffix(b + p, whole + p)
  {
    var cut := |whole| - |a + b|;
    assert whole[cut..] == a + b;
    assert whole[cut + |a|..] == b;
    assert (whole + p)[cut + |a|..] == whole[cut + |a|..] + p;
  }

  // ---------- ... and only then ----------

  function MaxLength(d: Disk, hi: nat): (m: nat)
    ensures forall i :: 0 <= i < hi ==> |Content(d, i)| <= m
  {
    if hi == 0 then 0
    else
      var m := MaxLength(d, hi - 1);
      if |Content(d, hi - 1)| > m then |Content(d, hi - 1)| else m
  }

  lemma {:induction false} RangeBound(d: Disk, hi: nat, m: nat)
    requires forall i :: 0 <= i < hi ==> |Content(d, i)| <= m
    ensures |Range(d, 0, hi)| <= hi * m
  {
    if hi > 0 {
      RangeBound(d, hi - 1, m);
      assert hi * m == (hi - 1) * m + m;
    }
  }

  // Every file a rotation can still move is at most m bytes long.
  ghost predicate Short(d: Disk, maxBackups: int, m: nat) {
    forall i: nat :: i < PlanOf(d, maxBackups).high ==> |Content(d, i)| <= m
  }

  lemma {:induction false} ShortStays(d: Disk, p: seq<Byte>, maxBytes: int, maxBackups: int, m: nat)
    requires maxBackups != 0 && 0 < maxBytes <= m && |p| <= m
    requires Short(d, maxBackups, m)
    ensures Short(Written(d, p, maxBytes, maxBackups), maxBackups, m)
  {
    var plan, e := PlanOf(d, maxBackups), Written(d, p, maxBytes, maxBackups);
    StuckStays(d, p, maxBytes, maxBackups);
    forall i: nat | i < PlanOf(e, maxBackups).high
      ensures |Content(e, i)| <= m
    {
      RotatedContent(d, plan, i);
      if Due(d, p, maxBytes) {
        if i == 0 {
          assert Content(e, 0) == [] + p;
        } else {
          assert Content(e, i) == Content(Rotated(d, plan), i);
        }
      } else if i > 0 {
        assert Content(e, i) == Content(d, i);
      }
    }
  }

  function Blocks(p: seq<Byte>, n: nat): seq<seq<Byte>> {
    if n == 0 then [] else Blocks(p, n - 1) + [p]
  }

  lemma {:induction false} BlocksConcat(p: seq<Byte>, c: Byte, n: nat)
    requires p != [] && forall x <- p :: x == c
    ensures |Concat(Blocks(p, n))| >= n
    ensures forall x <- Concat(Blocks(p, n)) :: x == c
  {
    if n > 0 {
      BlocksConcat(p, c, n - 1);
      BlocksLength(p, n - 1);
      var ps := Blocks(p, n);
      assert ps[..n - 1] == Blocks(p, n - 1) && ps[n - 1] == p;
    }
  }

  lemma {:induction false} BlocksSnoc(d: Disk, p: seq<Byte>, n: nat, maxBytes: int, maxBackups: int)
    requires n > 0
    ensures WriteAll(d, Blocks(p, n), maxBytes, maxBackups)
         == Written(WriteAll(d, Blocks(p, n - 1), maxBytes, maxBackups), p, maxBytes, maxBackups)
  {
    var ps := Blocks(p, n);
    BlocksLength(p, n - 1);
    assert ps[..n - 1] == Blocks(p, n - 1) && ps[n - 1] == p;
  }

  // What the blocks cannot change.
  ghost predicate Held(e: Disk, d: Disk, maxBackups: int, m: nat) {
    && Short(e, maxBackups, m) && Stuck(e, maxBackups) == Stuck(d, maxBackups)
    && PlanOf(e, maxBackups).high <= PlanOf(d, maxBackups).high
  }

  lemma {:induction false} HeldStep(e: Disk, d: Disk, p: seq<Byte>, maxBytes: int, maxBackups: int, m: nat)
    requires maxBackups != 0 && 0 < maxBytes <= m && |p| <= m && Held(e, d, maxBackups, m)
    ensures Held(Written(e, p, maxBytes, maxBackups), d, maxBackups, m)
  {
    ShortStays(e, p, maxBytes, maxBackups, m);
    StuckStays(e, p, maxBytes, maxBackups);
  }

  lemma {:induction false} BlocksRun(d: Disk, p: seq<Byte>, n: nat, maxBytes: int, maxBackups: int, m: nat)
    requires maxBackups != 0 && 0 < maxBytes <= m && |p| <= m && Short(d, maxBackups, m)
    ensures Held(WriteAll(d, Blocks(p, n), maxBytes, maxBackups), d, maxBackups, m)
  {
    if n > 0 {
      BlocksRun(d, p, n - 1, maxBytes, maxBackups, m);
      BlocksSnoc(d, p, n, maxBytes, maxBackups);
      HeldStep(WriteAll(d, Blocks(p, n - 1), maxBytes, maxBackups), d, p, maxBytes, maxBackups, m);
    }
  }

  lemma {:induction false} BlocksLength(p: seq<Byte>, n: nat)
    ensures |Blocks(p, n)| == n
  {
    if n > 0 {
      BlocksLength(p, n - 1);
    }
  }

  ghost predicate AlwaysSuffix(d: Disk, maxBytes: int, maxBackups: int) {
    forall ps :: IsSuffix(Log(WriteAll(d, ps, maxBytes, maxBackups)), Log(d) + Concat(ps))
  }

  lemma {:induction false} ShortLog(e: Disk, maxBackups: int, m: nat, high: nat)
    requires Short(e, maxBackups, m) && PlanOf(e, maxBackups).high <= high && Stuck(e, maxBackups) != []
    ensures 0 < |Log(e)| <= |Stuck(e, maxBackups)| + high * m
    ensures Log(e)[0] == Stuck(e, maxBackups)[0]
  {
    var high' := PlanOf(e, maxBackups).high;
    LogSplit(e, high');
    RangeBound(e, high', m);
    MulMonotone(high', high, m);
  }

  // Enough copies of one block push everything out except what is stuck.
  lemma {:induction false} StuckBreaksSuffix(d: Disk, maxBytes: int, maxBackups: int)
    requires maxBackups != 0 && maxBytes > 0 && Stuck(d, maxBackups) != []
    ensures !AlwaysSuffix(d, maxBytes, maxBackups)
  {
    var c: Byte := if Stuck(d, maxBackups)[0] == 0 then 1 else 0;
    var block := seq(maxBytes, _ => c);
    var n := Flood(d, block, maxBytes, maxBackups);
    var ps := Blocks(block, n);
    BlocksConcat(block, c, n);
    LateSuffix(Log(WriteAll(d, ps, maxBytes, maxBackups)), Log(d), Concat(ps), c);
  }

  // So many copies that what is kept is shorter than they are together, and still begins with what is stuck.
  lemma {:induction false} Flood(d: Disk, block: seq<Byte>, maxBytes: int, maxBackups: int) returns (n: nat)
    requires maxBackups != 0 && maxBytes > 0 && Stuck(d, maxBackups) != [] && |block| == maxBytes
    ensures var e := WriteAll(d, Blocks(block, n), maxBytes, maxBackups);
            0 < |Log(e)| <= n && Log(e)[0] == Stuck(d, maxBackups)[0]
  {
    var high := PlanOf(d, maxBackups).high;
    var m := MaxLength(d, high) + maxBytes;
    n := |Stuck(d, maxBackups)| + high * m;
    BlocksRun(d, block, n, maxBytes, maxBackups, m);
    ShortLog(WriteAll(d, Blocks(block, n), maxBytes, maxBackups), maxBackups, m, high);
  }

  lemma {:induction false} MulMonotone(a: nat, b: nat, m: nat)
    requires a <= b
    ensures a * m <= b * m
  {
    assert (b - a) * m >= 0;
    assert (b - a) * m == b * m - a * m;
  }

  lemma {:induction false} LateSuffix(s: seq<Byte>, before: seq<Byte>, tail: seq<Byte>, c: Byte)
    requires s != [] && |s| <= |tail| && s[0] != c
    requires forall x <- tail :: x == c
    ensures !IsSuffix(s, before + tail)
  {
    var t := before + tail;
    var cut := |t| - |s|;
    var x := tail[cut - |before|];
    assert x in tail;
    assert t[cut..][0] == t[cut] == x;
  }

  // The exact condition: with rotation and a limit, the kept files are a suffix of everything
  // written, over every run, exactly when no contents sit beyond the first free index above
  // maxBackups (for a negative limit: above index 1).
  lemma {:induction false} SuffixIffNothingStuck(d: Disk, maxBytes: int, maxBackups: int)
    requires maxBytes > 0 && maxBackups != 0
    ensures AlwaysSuffix(d, maxBytes, maxBackups) <==> Stuck(d, maxBackups) == []
  {
    if Stuck(d, maxBackups) == [] {
      forall ps
        ensures IsSuffix(Log(WriteAll(d, ps, maxBytes, maxBackups)), Log(d) + Concat(ps))
      {
        SuffixKept(d, ps, maxBytes, maxBackups);
      }
    } else {
      StuckBreaksSuffix(d, maxBytes, maxBackups);
    }
  }

  // At most maxBackups backups, if none started above that index.
  lemma {:induction false} BackupsBounded(d: Disk, ps: seq<seq<Byte>>, maxBytes: int, maxBackups: int)
    requires maxBackups > 0 && forall k <- d :: k <= maxBackups
    ensures forall k <- WriteAll(d, ps, maxBytes, maxBackups) :: k <= maxBackups
    decreases |ps|
  {
    if ps != [] {
      var e := WriteAll(d, ps[..|ps| - 1], maxBytes, maxBackups);
      BackupsBounded(d, ps[..|ps| - 1], maxBytes, maxBackups);
      var plan := PlanOf(e, maxBackups);
      forall k | k in Rotated(e, plan)
        ensures k <= maxBackups
      {
        RotatedAt(e, plan, k);
      }
    }
  }
}
