/** The root of a table walk (LowestCommonOID in internal/poller/poller.go). */
module WalkRoot {
  import opened Common
  import opened Oid
  import opened Varbind

  // The non-empty attribute OIDs of an object.
  ghost predicate IsOidSet(oids: set<string>, attributes: map<string, Attribute>) {
    && (forall n <- attributes :: attributes[n].oid != "" ==> attributes[n].oid in oids)
    && (forall o <- oids :: o != "" && exists n <- attributes :: attributes[n].oid == o)
  }

  ghost predicate AboveAll(t: string, oids: set<string>) {
    forall o <- oids :: Under(t, o)
  }

  // The greatest common dot-bounded prefix, or "" when there is none.
  ghost predicate IsRoot(root: string, oids: set<string>) {
    if oids == {} then root == ""
    else
      && (root != "" ==> AboveAll(root, oids))
      && forall t :: t != "" && AboveAll(t, oids) ==> root != "" && Under(t, root)
  }

  // So the result depends on the set of OIDs only, not on the order they are visited in.
  lemma {:induction false} RootUnique(r: string, r': string, oids: set<string>)
    requires IsRoot(r, oids) && IsRoot(r', oids)
    ensures r == r'
  {
    if oids != {} {
      assert r != "" ==> AboveAll(r, oids);
      assert r' != "" ==> AboveAll(r', oids);
    }
  }

  ghost predicate CommonArcs(q: seq<string>, oids: set<string>) {
    forall o <- oids :: q <= Split(o)
  }

  ghost predicate GreatestCommon(parts: seq<string>, oids: set<string>) {
    CommonArcs(parts, oids) && forall q :: CommonArcs(q, oids) ==> q <= parts
  }

  lemma {:induction false} JoinIsRoot(parts: seq<string>, oids: set<string>)
    requires oids != {} && GreatestCommon(parts, oids)
    ensures IsRoot(Join(parts), oids)
  {
    var root := Join(parts);
    forall o | o in oids && root != ""
      ensures Under(root, o)
    {
      PrefixUnder(parts, o);
    }
    forall t | t != "" && AboveAll(t, oids)
      ensures root != "" && Under(t, root)
    {
      forall o | o in oids
        ensures Split(t) <= Split(o)
      {
        UnderPrefix(t, o);
      }
      assert CommonArcs(Split(t), oids);
      var o :| o in oids;
      SplitJoinPrefix(parts, o);
      JoinSplit(t);
      PrefixUnder(Split(t), root);
    }
  }

  lemma {:induction false} SingletonCommon(oid: string)
    ensures GreatestCommon(Split(oid), {oid})
  {
    forall q | CommonArcs(q, {oid})
      ensures q <= Split(oid)
    {
      assert oid in {oid};
    }
  }

  lemma {:induction false} ShrinkCommon(parts: seq<string>, oids: set<string>, oid: string, keep: nat)
    requires GreatestCommon(parts, oids)
    requires keep <= |parts| && parts[..keep] <= Split(oid)
    requires keep == |parts| || keep == |Split(oid)| || parts[keep] != Split(oid)[keep]
    ensures GreatestCommon(parts[..keep], oids + {oid})
  {
    assert CommonArcs(parts[..keep], oids + {oid}) by {
      forall o | o in oids
        ensures parts[..keep] <= Split(o)
      {
        assert parts <= Split(o);
      }
    }
    forall q | CommonArcs(q, oids + {oid})
      ensures q <= parts[..keep]
    {
      NarrowCommon(q, oids, oid);
      CutAtMismatch(q, parts, Split(oid), keep);
    }
  }

  lemma {:induction false} NarrowCommon(q: seq<string>, oids: set<string>, oid: string)
    requires CommonArcs(q, oids + {oid})
    ensures CommonArcs(q, oids) && q <= Split(oid)
  {
    assert oid in oids + {oid};
  }

  lemma {:induction false} CutAtMismatch(q: seq<string>, a: seq<string>, b: seq<string>, keep: nat)
    requires q <= a && q <= b && keep <= |a|
    requires keep == |a| || keep == |b| || (keep < |b| && a[keep] != b[keep])
    ensures q <= a[..keep]
  {
  }

  method CollectOids(attributes: map<string, Attribute>) returns (oids: seq<string>, ghost found: set<string>)
    ensures IsOidSet(found, attributes)
    ensures forall o :: o in oids <==> o in found
  {
    oids, found := [], {};
    var todo := attributes.Keys;
    while todo != {}
      invariant todo <= attributes.Keys
      invariant forall n <- attributes.Keys - todo :: attributes[n].oid != "" ==> attributes[n].oid in found
      invariant forall o <- found :: o != "" && exists n <- attributes :: attributes[n].oid == o
      invariant forall o :: o in oids <==> o in found
      decreases todo
    {
      var n :| n in todo;
      todo := todo - {n};
      if attributes[n].oid != "" {
        oids := oids + [attributes[n].oid];
        found := found + {attributes[n].oid};
      }
    }
    assert attributes.Keys - todo == attributes.Keys;
  }

  // The attribute map is visited in an arbitrary order; the root does not depend on it.
  method LowestCommonOID(attributes: map<string, Attribute>, ghost oidSet: set<string>) returns (root: string)
    requires IsOidSet(oidSet, attributes)
    ensures IsRoot(root, oidSet)
  {
    ghost var found;
    var oids: seq<string>;
    oids, found := CollectOids(attributes);
    assert found == oidSet;
    if |oids| == 0 {
      return "";
    }
    SingletonCommon(oids[0]);
    JoinSplit(oids[0]);
    if |oids| == 1 {
      assert oidSet == {oids[0]};
      JoinIsRoot(Split(oids[0]), oidSet);
      return oids[0];
    }
    var parts := Split(oids[0]);
    ghost var seen := {oids[0]};
    for k := 1 to |oids|
      invariant GreatestCommon(parts, seen)
      invariant forall o :: o in seen <==> o in oids[..k]
    {
      var keep := CommonLength(parts, Split(oids[k]));
      ShrinkCommon(parts, seen, oids[k], keep);
      parts := parts[..keep];
      seen := seen + {oids[k]};
    }
    assert oids[..|oids|] == oids;
    assert seen == oidSet && oids[0] in oidSet;
    JoinIsRoot(parts, oidSet);
    root := Join(parts);
  }

  method CommonLength(parts: seq<string>, other: seq<string>) returns (keep: nat)
    ensures keep <= |parts| && parts[..keep] <= other
    ensures keep == |parts| || keep == |other| || parts[keep] != other[keep]
  {
    var minLen := if |parts| < |other| then |parts| else |other|;
    keep := 0;
    while keep < minLen && parts[keep] == other[keep]
      invariant 0 <= keep <= minLen
      invariant parts[..keep] == other[..keep]
    {
      keep := keep + 1;
    }
  }

  // ---------- What the walk reaches ----------

  predicate EndsInSpace(s: string) {
    s != [] && IsSpace(s[|s| - 1])
  }

  // Every OID the parser can match lies at or under a non-empty root, so the walk reaches it,
  // exactly when the root does not end in white space (or is the only OID).
  lemma {:induction false} WalkCovers(attributes: map<string, Attribute>, oids: set<string>, table: map<string, Attribute>,
                                      root: string)
    requires IsTable(table, attributes) && "" !in table
    requires IsOidSet(oids, attributes) && IsRoot(root, oids) && Normalise(root) != ""
    ensures (forall full :: MatchOf(table, full).Some? ==> Under(Normalise(root), full))
       <==> !EndsInSpace(root) || oids == {root}
  {
    if !EndsInSpace(root) || oids == {root} {
      forall full | MatchOf(table, full).Some?
        ensures Under(Normalise(root), full)
      {
        var oid, key := MatchKey(attributes, oids, table, full);
        RootAboveKey(root, oid);
        UnderTransitive(Normalise(root), key, full);
      }
    } else {
      var oid := OtherOid(oids, root);
      var n :| n in attributes && attributes[n].oid == oid;
      MatchMeaning(table, Normalise(oid));
      RootAboveKey(root, oid);
    }
  }

  lemma {:induction false} MatchKey(attributes: map<string, Attribute>, oids: set<string>, table: map<string, Attribute>,
                                    full: string) returns (oid: string, key: string)
    requires IsTable(table, attributes) && "" !in table && IsOidSet(oids, attributes) && MatchOf(table, full).Some?
    ensures oid in oids && key == Normalise(oid) && Under(key, full)
  {
    key := KeyAbove(table, full);
    var n := EntryOf(attributes, table, key);
    oid := attributes[n].oid;
    assert Normalise("") == "";
  }

  lemma {:induction false} KeyAbove(table: map<string, Attribute>, full: string) returns (key: string)
    requires MatchOf(table, full).Some?
    ensures key in table && Under(key, full)
  {
    MatchMeaning(table, full);
    key :| key in table && Under(key, full);
  }

  lemma {:induction false} OtherOid(oids: set<string>, root: string) returns (oid: string)
    requires IsRoot(root, oids) && root != "" && oids != {root}
    ensures oid in oids && DotPrefix(root, oid)
  {
    assert oids != {} && AboveAll(root, oids);
    assert oids != {root} ==> exists o :: o in oids && o != root;
    oid :| oid in oids && oid != root;
  }

  // Normalising keeps a root above an OID unless it trims the root's end.
  lemma {:induction false} RootAboveKey(root: string, oid: string)
    requires Under(root, oid) && Normalise(root) != ""
    ensures Under(Normalise(root), Normalise(oid)) <==> !EndsInSpace(root) || root == oid
  {
    if root != oid {
      var left := TrimLeft(root);
      LeftTrimmed(root);
      assert left != "";
      RightTrimmed(left);
      var tail := oid[|root|..];
      assert oid == root + tail && tail[0] == '.';
      LeftOfMore(root, tail);
      RightOfMore(left, tail);
      var trimmed := TrimRight(left + tail);
      PrefixChars(left, trimmed);
      assert DotPrefix(TrimDot(left), TrimDot(trimmed));
      if EndsInSpace(root) {
        var cut := TrimRight(left);
        assert trimmed[|cut|] == left[|cut|];
        assert TrimDot(trimmed)[|TrimDot(cut)|] == trimmed[|cut|];
      }
    }
  }

  lemma {:induction false} LeftTrimmed(s: string)
    ensures TrimLeft(s) == "" || (!IsSpace(TrimLeft(s)[0]) && (EndsInSpace(TrimLeft(s)) <==> EndsInSpace(s)))
    decreases |s|
  {
    if s != [] && IsSpace(s[0]) {
      LeftTrimmed(s[1..]);
    }
  }

  lemma {:induction false} LeftOfMore(s: string, more: string)
    requires TrimLeft(s) != ""
    ensures TrimLeft(s + more) == TrimLeft(s) + more
    decreases |s|
  {
    if IsSpace(s[0]) {
      assert (s + more)[1..] == s[1..] + more;
      LeftOfMore(s[1..], more);
    }
  }

  // Trimming the right leaves a prefix, cut at a space.
  lemma {:induction false} RightTrimmed(s: string)
    ensures TrimRight(s) <= s && (TrimRight(s) == s <==> !EndsInSpace(s))
    ensures TrimRight(s) != s ==> IsSpace(s[|TrimRight(s)|])
    ensures s != "" && !IsSpace(s[0]) ==> TrimRight(s) != ""
    decreases |s|
  {
    if EndsInSpace(s) {
      RightTrimmed(s[..|s| - 1]);
    }
  }

  lemma {:induction false} RightOfMore(s: string, more: string)
    requires more != "" && more[0] == '.'
    ensures DotPrefix(s, TrimRight(s + more))
    decreases |more|
  {
    var n := |more| - 1;
    if IsSpace(more[n]) {
      assert (s + more)[..|s| + n] == s + more[..n];
      RightOfMore(s, more[..n]);
    }
  }
}
