/** The scheduler's min-heap (entryHeap in internal/scheduler/scheduler.go with the sift
    operations of Go's container/heap, which reorder the slice in place). */
module EntryHeap {
  import opened Common
  import opened Resolve

  datatype Entry = Entry(hostname: string, interval: int, nextRun: int, jobs: seq<Job>)

  predicate Le(s: seq<Entry>, p: nat, c: nat)
    requires p < |s| && c < |s|
  {
    s[p].nextRun <= s[c].nextRun
  }

  // p is at most each of its children below n, child hole excepted.
  predicate Ordered(s: seq<Entry>, p: nat, n: nat, hole: int)
    requires p < n <= |s|
  {
    && (2 * p + 1 < n && 2 * p + 1 != hole ==> Le(s, p, 2 * p + 1))
    && (2 * p + 2 < n && 2 * p + 2 != hole ==> Le(s, p, 2 * p + 2))
  }

  // Heap order on s[..n] for every parent at or above index lo.
  ghost predicate HeapFrom(s: seq<Entry>, lo: int, n: int)
    requires n <= |s|
  {
    forall p: nat :: lo <= p < n ==> Ordered(s, p, n, -1)
  }

  ghost predicate IsHeap(s: seq<Entry>) {
    HeapFrom(s, 0, |s|)
  }

  lemma {:induction false} RootIsLeast(s: seq<Entry>, j: nat)
    requires IsHeap(s) && j < |s|
    ensures s[0].nextRun <= s[j].nextRun
    decreases j
  {
    if j > 0 {
      var p := (j - 1) / 2;
      RootIsLeast(s, p);
      assert Ordered(s, p, |s|, -1);
    }
  }

  lemma {:induction false} RootIsMinimum(s: seq<Entry>)
    requires IsHeap(s) && s != []
    ensures forall x <- s :: s[0].nextRun <= x.nextRun
  {
    forall x | x in s
      ensures s[0].nextRun <= x.nextRun
    {
      var j :| 0 <= j < |s| && s[j] == x;
      RootIsLeast(s, j);
    }
  }

  predicate IsChild(i: nat, p: nat) {
    i == 2 * p + 1 || i == 2 * p + 2
  }

  function Swapped(s: seq<Entry>, i: nat, j: nat): seq<Entry>
    requires i < |s| && j < |s|
  {
    s[i := s[j]][j := s[i]]
  }

  // Sifting down: only entry i may exceed its children, and i's parent q does not exceed them.
  ghost predicate DownHole(s: seq<Entry>, i: nat, i0: nat, q: nat, n: nat)
    requires i <= n <= |s|
  {
    && i >= i0
    && (forall p: nat :: i0 <= p < n && p != i ==> Ordered(s, p, n, -1))
    && (i > i0 ==> i0 <= q < n && IsChild(i, q)
                   && forall c: nat :: IsChild(c, i) && c < n ==> Le(s, q, c))
  }

  lemma {:induction false} DownStep(s: seq<Entry>, i: nat, i0: nat, q: nat, n: nat, j: nat)
    requires i < n <= |s| && j < n && IsChild(j, i) && DownHole(s, i, i0, q, n)
    requires s[j].nextRun < s[i].nextRun
    requires forall c: nat :: IsChild(c, i) && c < n ==> Le(s, j, c)
    ensures DownHole(Swapped(s, i, j), j, i0, i, n)
  {
    var s' := Swapped(s, i, j);
    forall p: nat | i0 <= p < n && p != j
      ensures Ordered(s', p, n, -1)
    {
      assert p != i ==> Ordered(s, p, n, -1);
      assert IsChild(2 * i + 1, i) && IsChild(2 * i + 2, i);
    }
    assert Ordered(s, j, n, -1);
  }

  lemma {:induction false} DownDone(s: seq<Entry>, i: nat, i0: nat, q: nat, n: nat)
    requires i < n <= |s| && DownHole(s, i, i0, q, n)
    requires forall c: nat :: IsChild(c, i) && c < n ==> Le(s, i, c)
    ensures HeapFrom(s, i0, n)
  {
  }

  // Sifting up: only entry j may be below its parent, which does not exceed j's children.
  ghost predicate UpHole(s: seq<Entry>, j: nat)
    requires j < |s|
  {
    && (forall p: nat :: p < |s| ==> Ordered(s, p, |s|, j))
    && (forall p: nat, c: nat :: IsChild(j, p) && IsChild(c, j) && c < |s| ==> Le(s, p, c))
  }

  lemma {:induction false} PushHole(s: seq<Entry>, e: Entry)
    requires IsHeap(s)
    ensures UpHole(s + [e], |s|)
  {
    var t, last, n := s + [e], |s|, |s| + 1;
    forall p: nat | p < n
      ensures Ordered(t, p, n, last)
    {
      assert p < last ==> Ordered(s, p, last, -1);
    }
  }

  lemma {:induction false} UpStep(s: seq<Entry>, j: nat, i: nat)
    requires j < |s| && UpHole(s, j) && IsChild(j, i) && s[j].nextRun < s[i].nextRun
    ensures UpHole(Swapped(s, i, j), i)
  {
    var s' := Swapped(s, i, j);
    assert Ordered(s, i, |s|, j);
    forall p: nat | p < |s|
      ensures Ordered(s', p, |s|, i)
    {
      assert Ordered(s, p, |s|, j);
      assert IsChild(2 * j + 1, j) && IsChild(2 * j + 2, j);
    }
    forall p: nat, c: nat | IsChild(i, p) && IsChild(c, i) && c < |s|
      ensures Le(s', p, c)
    {
      assert Ordered(s, p, |s|, j);
    }
  }

  lemma {:induction false} UpDone(s: seq<Entry>, j: nat, i: nat)
    requires j < |s| && UpHole(s, j)
    requires j == 0 || (IsChild(j, i) && Le(s, i, j))
    ensures IsHeap(s)
  {
    forall p: nat | p < |s|
      ensures Ordered(s, p, |s|, -1)
    {
      assert Ordered(s, p, |s|, j);
    }
  }

  lemma {:induction false} SwapKeeps(s: seq<Entry>, i: nat, j: nat)
    requires i < |s| && j < |s|
    ensures multiset(Swapped(s, i, j)) == multiset(s)
  {
  }

  // Putting the last entry at the root leaves only the root out of order.
  lemma {:induction false} SwapForPop(s: seq<Entry>)
    requires IsHeap(s) && s != []
    ensures var n := |s| - 1; HeapFrom(Swapped(s, 0, n), 1, n)
  {
    var n := |s| - 1;
    var s' := Swapped(s, 0, n);
    forall p: nat | 1 <= p < n
      ensures Ordered(s', p, n, -1)
    {
      assert Ordered(s, p, n + 1, -1);
    }
  }

  lemma {:induction false} CutLast(s: seq<Entry>, n: nat)
    requires n + 1 == |s| && HeapFrom(s, 0, n)
    ensures IsHeap(s[..n]) && multiset(s) == multiset(s[..n]) + multiset{s[n]}
  {
    var cut := s[..n];
    assert s == cut + [s[n]];
    forall p: nat | p < n
      ensures Ordered(cut, p, n, -1)
    {
      assert Ordered(s, p, n, -1);
    }
  }

  class Heap {
    var entries: seq<Entry>

    constructor (unordered: seq<Entry>)
      ensures entries == unordered
    {
      entries := unordered;
    }

    method Swap(i: nat, j: nat)
      requires i < |entries| && j < |entries|
      modifies this
      ensures entries == Swapped(old(entries), i, j)
      ensures multiset(entries) == multiset(old(entries))
    {
      SwapKeeps(entries, i, j);
      entries := entries[i := entries[j]][j := entries[i]];
    }

    // Sift entry i0 down within the first n.
    method Down(i0: nat, n: nat)
      requires i0 < n <= |entries| || i0 == n == 0
      requires HeapFrom(entries, i0 + 1, n)
      modifies this
      ensures |entries| == |old(entries)| && entries[n..] == old(entries)[n..]
      ensures multiset(entries) == multiset(old(entries))
      ensures HeapFrom(entries, i0, n)
    {
      if n == 0 {
        return;
      }
      var i := i0;
      ghost var q := 0;
      while true
        invariant i < n <= |entries| == |old(entries)|
        invariant entries[n..] == old(entries)[n..]
        invariant multiset(entries) == multiset(old(entries))
        invariant DownHole(entries, i, i0, q, n)
        decreases n - i
      {
        var j1 := 2 * i + 1;
        if j1 >= n {
          break;
        }
        var j := j1;
        var j2 := j1 + 1;
        if j2 < n && entries[j2].nextRun < entries[j1].nextRun {
          j := j2;
        }
        if !(entries[j].nextRun < entries[i].nextRun) {
          break;
        }
        DownStep(entries, i, i0, q, n, j);
        Swap(i, j);
        q := i;
        i := j;
      }
      DownDone(entries, i, i0, q, n);
    }

    // Sift the last entry up.
    method Up()
      requires entries != [] && UpHole(entries, |entries| - 1)
      modifies this
      ensures IsHeap(entries) && multiset(entries) == multiset(old(entries))
    {
      var j := |entries| - 1;
      var i := if j == 0 then 0 else (j - 1) / 2; // Go's division truncates: the root is its own parent
      while i != j && entries[j].nextRun < entries[i].nextRun
        invariant 0 <= j < |entries| == |old(entries)|
        invariant multiset(entries) == multiset(old(entries))
        invariant if j == 0 then i == 0 else i == (j - 1) / 2
        invariant UpHole(entries, j)
        decreases j
      {
        UpStep(entries, j, i);
        Swap(i, j);
        j := i;
        i := if j == 0 then 0 else (j - 1) / 2;
      }
      UpDone(entries, j, i);
    }

    method Init()
      modifies this
      ensures IsHeap(entries) && multiset(entries) == multiset(old(entries))
    {
      var n := |entries|;
      var i := n / 2;
      while i > 0
        invariant 0 <= i <= n / 2 && |entries| == n
        invariant HeapFrom(entries, i, n)
        invariant multiset(entries) == multiset(old(entries))
      {
        i := i - 1;
        Down(i, n);
      }
    }

    method Push(e: Entry)
      requires IsHeap(entries)
      modifies this
      ensures IsHeap(entries)
      ensures multiset(entries) == multiset(old(entries)) + multiset{e}
    {
      PushHole(entries, e);
      entries := entries + [e];
      Up();
    }

    method Pop() returns (e: Entry)
      requires entries != [] && IsHeap(entries)
      modifies this
      ensures IsHeap(entries)
      ensures e == old(entries)[0]
      ensures multiset(old(entries)) == multiset(entries) + multiset{e}
      ensures forall x <- old(entries) :: e.nextRun <= x.nextRun
    {
      RootIsMinimum(entries);
      var n := |entries| - 1;
      SwapForPop(entries);
      Swap(0, n);
      Down(0, n);
      assert entries[n..][0] == old(entries)[0];
      e := entries[n];
      CutLast(entries, n);
      entries := entries[..n];
    }
  }
}
