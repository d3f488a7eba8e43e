/** Dotted object identifiers as strings: normalisation, arcs and dot-bounded prefixes. */
module Oid {

  predicate IsSpace(c: char) {
    c == ' ' || c == '\t' || c == '\n' || c == '\r' || c == '\U{B}' || c == '\U{C}'
    || c == '\U{85}' || c == '\U{A0}'
  }

  function TrimLeft(s: string): string {
    if s != [] && IsSpace(s[0]) then TrimLeft(s[1..]) else s
  }

  function TrimRight(s: string): string {
    if s != [] && IsSpace(s[|s| - 1]) then TrimRight(s[..|s| - 1]) else s
  }

  function TrimDot(s: string): string {
    if s != [] && s[0] == '.' then s[1..] else s
  }

  // The canonical form inside the decoder: no surrounding space, one leading dot dropped.
  function Normalise(oid: string): string {
    TrimDot(TrimRight(TrimLeft(oid)))
  }

  // Surrounding white space goes, and one dot in front.
  lemma {:induction false} NormaliseMeaning(before: string, core: string, after: string)
    requires forall c <- before + after :: c in {' ', '\t', '\n', '\r'}
    requires core != "" && (core[0] == '.' || '0' <= core[0] <= '9')
    requires core[|core| - 1] == '.' || '0' <= core[|core| - 1] <= '9'
    ensures Normalise(before + core + after) == if core[0] == '.' then core[1..] else core
  {
    assert forall c <- before :: c in before + after;
    assert forall c <- after :: c in before + after;
    assert before + core + after == before + (core + after);
    LeftPad(before, core + after);
    RightPad(core, after);
  }

  lemma {:induction false} LeftPad(pad: string, s: string)
    requires s != "" && !IsSpace(s[0]) && forall c <- pad :: IsSpace(c)
    ensures TrimLeft(pad + s) == s
    decreases |pad|
  {
    if pad == "" {
      assert pad + s == s;
    } else {
      assert (pad + s)[1..] == pad[1..] + s;
      LeftPad(pad[1..], s);
    }
  }

  lemma {:induction false} RightPad(s: string, pad: string)
    requires s != "" && !IsSpace(s[|s| - 1]) && forall c <- pad :: IsSpace(c)
    ensures TrimRight(s + pad) == s
    decreases |pad|
  {
    if pad == "" {
      assert s + pad == s;
    } else {
      assert (s + pad)[..|s + pad| - 1] == s + pad[..|pad| - 1];
      RightPad(s, pad[..|pad| - 1]);
    }
  }

  // p followed by a dot begins s.
  predicate DotPrefix(p: string, s: string) {
    |p| < |s| && s[..|p|] == p && s[|p|] == '.'
  }

  // s lies at or below p in the OID tree.
  predicate Under(p: string, s: string) {
    p == s || DotPrefix(p, s)
  }

  lemma {:induction false} UnderTransitive(p: string, q: string, s: string)
    requires Under(p, q) && Under(q, s)
    ensures Under(p, s)
  {
    if p != q && q != s {
      assert s[..|q|] == q;
      assert q[..|p|] == s[..|p|];
    }
  }

  function FirstDot(s: string): (d: int)
    ensures -1 <= d < |s|
    ensures d >= 0 ==> s[d] == '.'
    ensures forall i :: 0 <= i < (if d < 0 then |s| else d) ==> s[i] != '.'
  {
    if s == [] then -1
    else if s[0] == '.' then 0
    else var d := FirstDot(s[1..]); if d < 0 then -1 else d + 1
  }

  function LastDot(s: string): (d: int)
    ensures -1 <= d < |s|
    ensures d >= 0 ==> s[d] == '.'
    ensures forall i :: d < i < |s| ==> s[i] != '.'
  {
    if s == [] then -1
    else if s[|s| - 1] == '.' then |s| - 1
    else LastDot(s[..|s| - 1])
  }

  // ---------- Arcs ----------

  function Split(s: string): (arcs: seq<string>)
    ensures arcs != []
    decreases |s|
  {
    var d := FirstDot(s);
    if d < 0 then [s] else [s[..d]] + Split(s[d + 1..])
  }

  function Join(arcs: seq<string>): string {
    if arcs == [] then []
    else if |arcs| == 1 then arcs[0]
    else arcs[0] + ['.'] + Join(arcs[1..])
  }

  // One level of Split: the first arc, and the arcs of what follows the first dot.
  lemma {:induction false} SplitHead(s: string, d: nat)
    requires d == FirstDot(s)
    ensures Split(s) == [s[..d]] + Split(s[d + 1..])
  {
  }

  lemma {:induction false} JoinCons(head: string, rest: seq<string>)
    requires rest != []
    ensures Join([head] + rest) == head + ['.'] + Join(rest)
  {
    assert ([head] + rest)[1..] == rest;
  }

  lemma {:induction false} JoinSplit(s: string)
    ensures Join(Split(s)) == s
    decreases |s|
  {
    var d := FirstDot(s);
    if d >= 0 {
      SplitHead(s, d);
      JoinSplit(s[d + 1..]);
      JoinCons(s[..d], Split(s[d + 1..]));
      assert s == s[..d] + ['.'] + s[d + 1..];
    }
  }

  lemma {:induction false} UnderGraft(head: string, t: string, s: string)
    requires Under(t, s)
    ensures Under(head + t, head + s)
  {
    assert t != s ==> (head + s)[..|head + t|] == head + s[..|t|];
  }

  lemma {:induction false} PrefixTail(arcs: seq<string>, head: string, rest: seq<string>)
    requires arcs != [] && arcs <= [head] + rest
    ensures arcs == [head] + arcs[1..] && arcs[1..] <= rest
  {
    assert arcs[0] == ([head] + rest)[0];
    assert forall i :: 0 <= i < |arcs[1..]| ==> arcs[1..][i] == ([head] + rest)[i + 1] == rest[i];
  }

  // An arc-prefix of an OID, joined, is a dot-bounded prefix of it.
  lemma {:induction false} PrefixUnder(arcs: seq<string>, s: string)
    requires arcs != [] && arcs <= Split(s)
    ensures Under(Join(arcs), s)
    decreases |s|
  {
    var d := FirstDot(s);
    if d >= 0 {
      SplitHead(s, d);
      var head, tail, rest := s[..d], s[d + 1..], arcs[1..];
      PrefixTail(arcs, head, Split(tail));
      assert s == head + ['.'] + tail;
      if rest != [] {
        PrefixUnder(rest, tail);
        JoinCons(head, rest);
        UnderGraft(head + ['.'], Join(rest), tail);
      }
    }
  }

  lemma {:induction false} FirstDotAt(s: string, d: nat)
    requires d < |s| && s[d] == '.' && forall i :: 0 <= i < d ==> s[i] != '.'
    ensures FirstDot(s) == d
  {
  }

  lemma {:induction false} PrefixChars(t: string, s: string)
    requires DotPrefix(t, s)
    ensures forall i :: 0 <= i < |t| ==> t[i] == s[i]
  {
    assert forall i :: 0 <= i < |t| ==> t[i] == s[..|t|][i];
  }

  lemma {:induction false} UnderTail(t: string, s: string, d: nat)
    requires DotPrefix(t, s) && d < |t|
    ensures t[..d] == s[..d] && t[d] == s[d] && DotPrefix(t[d + 1..], s[d + 1..])
  {
    PrefixChars(t, s);
  }

  // ... and every dot-bounded prefix arises that way.
  lemma {:induction false} UnderPrefix(t: string, s: string)
    requires Under(t, s)
    ensures Split(t) <= Split(s)
    decreases |s|
  {
    if t != s {
      var d := FirstDot(s);
      PrefixChars(t, s);
      assert s[|t|] == '.';
      SplitHead(s, d);
      if d < |t| {
        FirstDotAt(t, d);
        SplitHead(t, d);
        UnderTail(t, s, d);
        UnderPrefix(t[d + 1..], s[d + 1..]);
      } else {
        assert FirstDot(t) < 0;
        assert t == s[..d];
      }
    }
  }

  predicate DotFree(s: string) {
    forall i :: 0 <= i < |s| ==> s[i] != '.'
  }

  lemma {:induction false} SplitDotFree(s: string)
    ensures forall a <- Split(s) :: DotFree(a)
    decreases |s|
  {
    var d := FirstDot(s);
    if d >= 0 {
      SplitHead(s, d);
      SplitDotFree(s[d + 1..]);
    }
  }

  // Split takes dot-free arcs joined together apart again.
  lemma {:induction false} SplitJoin(arcs: seq<string>)
    requires arcs != [] && forall a <- arcs :: DotFree(a)
    ensures Split(Join(arcs)) == arcs
    decreases |arcs|
  {
    var head := arcs[0];
    assert DotFree(head);
    if |arcs| == 1 {
      assert FirstDot(head) < 0;
    } else {
      SplitJoin(arcs[1..]);
      var j := Join(arcs);
      assert j == head + ['.'] + Join(arcs[1..]);
      FirstDotAt(j, |head|);
      SplitHead(j, |head|);
      assert j[..|head|] == head && j[|head| + 1..] == Join(arcs[1..]);
    }
  }

  // The arcs of a joined arc-prefix are that prefix.
  lemma {:induction false} SplitJoinPrefix(arcs: seq<string>, s: string)
    requires arcs != [] && arcs <= Split(s)
    ensures Split(Join(arcs)) == arcs
  {
    SplitDotFree(s);
    assert forall a <- arcs :: a in Split(s);
    SplitJoin(arcs);
  }
}
