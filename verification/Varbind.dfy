/** Matching varbind OIDs to attributes (internal/decoder/varbind.go). */
module Varbind {
  import opened Common
  import opened Oid

  // A decoded value; the converter's Go types int64, uint64, float64, string and []byte.
  datatype Value =
    | Unsigned(word: Word)
    | Signed(number: Int64)
    | Floating(float: real)
    | Text(text: string)
    | Octets(octets: seq<bv8>)

  datatype Attribute = Attribute(oid: string, name: string, syntax: string, isTag: bool)

  datatype Pdu = Pdu(name: string, kind: string, raw: Value)

  datatype DecodedVarbind = DecodedVarbind(
    oid: string, name: string, instance: string, value: Value,
    snmpType: string, syntax: string, isTag: bool)

  predicate IsErrorType(kind: string) {
    kind == "NoSuchObject" || kind == "NoSuchInstance" || kind == "EndOfMibView" || kind == "Null"
  }

  // ---------- Building the lookup table ----------

  // A table some iteration order of the attribute map can produce.
  ghost predicate IsTable(table: map<string, Attribute>, attributes: map<string, Attribute>) {
    && (forall n <- attributes :: Normalise(attributes[n].oid) in table)
    && (forall k <- table :: exists n <- attributes :: attributes[n] == table[k] && Normalise(attributes[n].oid) == k)
  }

  method NewVarbindParser(attributes: map<string, Attribute>) returns (r: Option<map<string, Attribute>>)
    ensures r.None? <==> attributes == map[] || exists n <- attributes :: Normalise(attributes[n].oid) == ""
    ensures r.Some? ==> IsTable(r.value, attributes) && "" !in r.value
  {
    if attributes == map[] {
      return None;
    }
    var table: map<string, Attribute> := map[];
    var todo := attributes.Keys;
    while todo != {}
      invariant todo <= attributes.Keys && "" !in table
      invariant forall n <- attributes.Keys - todo :: Normalise(attributes[n].oid) in table
      invariant forall k <- table :: exists n <- attributes :: attributes[n] == table[k] && Normalise(attributes[n].oid) == k
      decreases todo
    {
      var n :| n in todo;
      todo := todo - {n};
      var norm := Normalise(attributes[n].oid);
      if norm == "" {
        return None;
      }
      table := table[norm := attributes[n]];
    }
    assert attributes.Keys - todo == attributes.Keys;
    return Some(table);
  }

  ghost predicate SharedOidsAgree(attributes: map<string, Attribute>) {
    forall n, n' | n in attributes && n' in attributes ::
      Normalise(attributes[n].oid) == Normalise(attributes[n'].oid) ==> attributes[n] == attributes[n']
  }

  // The table is independent of the iteration order exactly when attributes that share a
  // normalised OID are equal.
  lemma {:induction false} TableDetermined(attributes: map<string, Attribute>)
    ensures SharedOidsAgree(attributes)
       <==> forall t, t' :: IsTable(t, attributes) && IsTable(t', attributes) ==> t == t'
  {
    if SharedOidsAgree(attributes) {
      forall t, t' | IsTable(t, attributes) && IsTable(t', attributes)
        ensures t == t'
      {
        SameTable(attributes, t, t');
      }
    } else {
      var n, n' :| n in attributes && n' in attributes
                   && Normalise(attributes[n].oid) == Normalise(attributes[n'].oid) && attributes[n] != attributes[n'];
      TwoTables(attributes, n, n');
    }
  }

  lemma {:induction false} SameTable(attributes: map<string, Attribute>, t: map<string, Attribute>, t': map<string, Attribute>)
    requires SharedOidsAgree(attributes) && IsTable(t, attributes) && IsTable(t', attributes)
    ensures t == t'
  {
    forall k | k in t
      ensures k in t' && t[k] == t'[k]
    {
      SameEntry(attributes, t, t', k);
    }
    forall k | k in t'
      ensures k in t
    {
      SameEntry(attributes, t', t, k);
    }
  }

  lemma {:induction false} SameEntry(attributes: map<string, Attribute>, t: map<string, Attribute>, t': map<string, Attribute>,
                                     k: string)
    requires SharedOidsAgree(attributes) && IsTable(t, attributes) && IsTable(t', attributes) && k in t
    ensures k in t' && t[k] == t'[k]
  {
    var n := EntryOf(attributes, t, k);
    assert Normalise(attributes[n].oid) in t';
    var n' := EntryOf(attributes, t', k);
    assert attributes[n] == attributes[n'];
  }

  lemma {:induction false} EntryOf(attributes: map<string, Attribute>, t: map<string, Attribute>, k: string) returns (n: string)
    requires IsTable(t, attributes) && k in t
    ensures n in attributes && attributes[n] == t[k] && Normalise(attributes[n].oid) == k
  {
    n :| n in attributes && attributes[n] == t[k] && Normalise(attributes[n].oid) == k;
  }

  lemma {:induction false} TwoTables(attributes: map<string, Attribute>, n: string, n': string)
    requires n in attributes && n' in attributes
    requires Normalise(attributes[n].oid) == Normalise(attributes[n'].oid) && attributes[n] != attributes[n']
    ensures exists t, t' :: IsTable(t, attributes) && IsTable(t', attributes) && t != t'
  {
    var oid := Normalise(attributes[n].oid);
    var base := SomeTable(attributes, attributes.Keys);
    Overwrite(attributes, base, n);
    Overwrite(attributes, base, n');
    var t, t' := base[oid := attributes[n]], base[oid := attributes[n']];
    assert t[oid] != t'[oid];
  }

  // Storing any attribute under its own OID once more gives a table again.
  lemma {:induction false} Overwrite(attributes: map<string, Attribute>, t: map<string, Attribute>, n: string)
    requires IsTable(t, attributes) && n in attributes
    ensures IsTable(t[Normalise(attributes[n].oid) := attributes[n]], attributes)
  {
    var t' := t[Normalise(attributes[n].oid) := attributes[n]];
    forall k | k in t'
      ensures exists m <- attributes :: attributes[m] == t'[k] && Normalise(attributes[m].oid) == k
    {
      if k != Normalise(attributes[n].oid) {
        var m := EntryOf(attributes, t, k);
      }
    }
  }

  lemma {:induction false} SomeTable(attributes: map<string, Attribute>, names: set<string>) returns (t: map<string, Attribute>)
    requires names <= attributes.Keys
    ensures forall n <- names :: Normalise(attributes[n].oid) in t
    ensures forall k <- t :: exists n <- attributes :: attributes[n] == t[k] && Normalise(attributes[n].oid) == k
    decreases names
  {
    t := map[];
    if names != {} {
      var n :| n in names;
      t := SomeTable(attributes, names - {n});
      t := t[Normalise(attributes[n].oid) := attributes[n]];
    }
  }

  // ---------- Longest-prefix match ----------

  datatype Match = Match(attr: Attribute, instance: string)

  // Peel arcs from the right of full[..n] until a configured OID remains.
  function Scan(table: map<string, Attribute>, full: string, n: nat): (p: Option<string>)
    requires n <= |full|
    ensures p.Some? ==> p.value in table && DotPrefix(p.value, full)
    decreases n
  {
    var dot := LastDot(full[..n]);
    if dot < 0 then None
    else if full[..dot] in table then Some(full[..dot])
    else Scan(table, full, dot)
  }

  function MatchOf(table: map<string, Attribute>, full: string): Option<Match> {
    if full in table then Some(Match(table[full], "0"))
    else
      match Scan(table, full, |full|)
      case None => None
      case Some(p) => Some(Match(table[p], full[|p| + 1..]))
  }

  method MatchAttribute(table: map<string, Attribute>, full: string) returns (r: Option<Match>)
    ensures r == MatchOf(table, full)
  {
    if full in table {
      return Some(Match(table[full], "0"));
    }
    var remaining := full;
    while true
      invariant remaining <= full
      invariant Scan(table, full, |full|) == Scan(table, full, |remaining|)
      decreases |remaining|
    {
      assert full[..|remaining|] == remaining;
      var dot := LastDot(remaining);
      if dot < 0 {
        break;
      }
      var prefix := remaining[..dot];
      assert prefix == full[..dot];
      if prefix in table {
        return Some(Match(table[prefix], full[|prefix| + 1..]));
      }
      remaining := prefix;
    }
    return None;
  }

  lemma {:induction false} ScanLongest(table: map<string, Attribute>, full: string, n: nat, q: string)
    requires n <= |full| && q in table && DotPrefix(q, full) && |q| < n
    ensures Scan(table, full, n).Some? && |q| <= |Scan(table, full, n).value|
    decreases n
  {
    assert full[..n][|q|] == '.';
    var dot := LastDot(full[..n]);
    assert |q| <= dot;
    if full[..dot] !in table {
      assert |q| != dot;
      ScanLongest(table, full, dot, q);
    }
  }

  // What a match means: found exactly when some configured OID is the input or a dot-bounded
  // prefix of it, and then the longest such OID, with the arcs after it as the instance.
  lemma {:induction false} MatchMeaning(table: map<string, Attribute>, full: string)
    ensures var r := MatchOf(table, full);
            && (r.Some? <==> exists q :: q in table && Under(q, full))
            && (full in table ==> r == Some(Match(table[full], "0")))
            && (full !in table && r.Some? ==>
                  exists p :: p in table && r.value.attr == table[p]
                              && p + "." + r.value.instance == full
                              && forall q :: q in table && Under(q, full) ==> |q| <= |p|)
  {
    forall q | q in table && DotPrefix(q, full)
      ensures Scan(table, full, |full|).Some? && |q| <= |Scan(table, full, |full|).value|
    {
      ScanLongest(table, full, |full|, q);
    }
    var s := Scan(table, full, |full|);
    if full !in table && s.Some? {
      assert Under(s.value, full);
      assert s.value + "." + full[|s.value| + 1..] == full;
    }
  }

  // ---------- The enum lookup key ----------

  function TrimSuffix(s: string, suffix: string): string {
    if |suffix| <= |s| && s[|s| - |suffix|..] == suffix then s[..|s| - |suffix|] else s
  }

  predicate EndsInZero(s: string) {
    |s| >= 2 && s[|s| - 2..] == ".0"
  }

  // The base OID Build looks enums up with.
  function BaseOid(oid: string, instance: string): string {
    if instance == "" then oid else TrimSuffix(oid, "." + instance)
  }

  // The trim recovers the configured OID for every prefix match with a non-empty instance,
  // and for a direct match exactly when the OID does not end in ".0".
  lemma {:induction false} BaseOidExact(table: map<string, Attribute>, full: string, key: string)
    requires MatchOf(table, full).Some?
    requires if full in table then key == full else Scan(table, full, |full|) == Some(key)
    ensures BaseOid(full, MatchOf(table, full).value.instance) == key
       <==> if full in table then !EndsInZero(full) else MatchOf(table, full).value.instance != ""
  {
    assert "." + "0" == ".0";
    if full !in table {
      var instance := full[|key| + 1..];
      assert full[|key|..] == "." + instance;
      assert full[..|key|] == key;
    }
  }

  // sysUpTime configured with its instance: the enum is looked up at the OID without it.
  lemma {:induction false} BaseOidMisses(table: map<string, Attribute>)
    requires "1.3.6.1.2.1.1.3.0" in table
    ensures var m := MatchOf(table, "1.3.6.1.2.1.1.3.0");
            m == Some(Match(table["1.3.6.1.2.1.1.3.0"], "0"))
            && BaseOid("1.3.6.1.2.1.1.3.0", m.value.instance) == "1.3.6.1.2.1.1.3"
  {
    assert "." + "0" == ".0";
    assert "1.3.6.1.2.1.1.3.0"[15..] == ".0";
  }

  // ---------- Parse ----------

  type Converter = (Pdu, string) -> Option<Value>

  datatype Step = Skip | Fail | Got(vb: DecodedVarbind)

  function DecodeOne(table: map<string, Attribute>, pdu: Pdu, convert: Converter): Step {
    if IsErrorType(pdu.kind) then Skip
    else
      var full := Normalise(pdu.name);
      match MatchOf(table, full)
      case None => Skip
      case Some(m) =>
        match convert(pdu, m.attr.syntax)
        case None => Fail
        case Some(v) => Got(DecodedVarbind(full, m.attr.name, m.instance, v, pdu.kind, m.attr.syntax, m.attr.isTag))
  }

  // Everything decoded before the first failed conversion, and whether there was none.
  function ParseOf(table: map<string, Attribute>, pdus: seq<Pdu>, convert: Converter): (seq<DecodedVarbind>, bool) {
    if pdus == [] then ([], true)
    else
      match DecodeOne(table, pdus[0], convert)
      case Skip => ParseOf(table, pdus[1..], convert)
      case Fail => ([], false)
      case Got(vb) =>
        var (rest, ok) := ParseOf(table, pdus[1..], convert);
        ([vb] + rest, ok)
  }

  method Parse(table: map<string, Attribute>, pdus: seq<Pdu>, convert: Converter)
    returns (result: seq<DecodedVarbind>, ok: bool)
    ensures result == ParseOf(table, pdus, convert).0 && ok == ParseOf(table, pdus, convert).1
  {
    result, ok := [], true;
    var i := 0;
    while i < |pdus|
      invariant 0 <= i <= |pdus| && ok
      invariant var rest, all := ParseOf(table, pdus[i..], convert), ParseOf(table, pdus, convert);
                all.0 == result + rest.0 && all.1 == rest.1
    {
      assert pdus[i..][0] == pdus[i] && pdus[i..][1..] == pdus[i + 1..];
      var pdu := pdus[i];
      i := i + 1;
      if IsErrorType(pdu.kind) {
        continue;
      }
      var full := Normalise(pdu.name);
      var m := MatchAttribute(table, full);
      if m.None? {
        continue;
      }
      var value := convert(pdu, m.value.attr.syntax);
      if value.None? {
        return result, false;
      }
      result := result + [DecodedVarbind(full, m.value.attr.name, m.value.instance, value.value,
                                         pdu.kind, m.value.attr.syntax, m.value.attr.isTag)];
    }
  }

  // How many PDUs there are before the first failed conversion.
  function Good(table: map<string, Attribute>, pdus: seq<Pdu>, convert: Converter): (n: nat)
    ensures n <= |pdus|
  {
    if pdus == [] || DecodeOne(table, pdus[0], convert).Fail? then 0 else 1 + Good(table, pdus[1..], convert)
  }

  // The PDUs the returned varbinds come from, the first PDU being number at.
  function Sources(table: map<string, Attribute>, pdus: seq<Pdu>, convert: Converter, at: nat): seq<nat> {
    if pdus == [] || DecodeOne(table, pdus[0], convert).Fail? then []
    else (if DecodeOne(table, pdus[0], convert).Got? then [at] else []) + Sources(table, pdus[1..], convert, at + 1)
  }

  // Inside the good part, and one for each varbind returned.
  lemma {:induction false} SourcesDecode(table: map<string, Attribute>, pdus: seq<Pdu>, convert: Converter, at: nat, j: nat)
    ensures |Sources(table, pdus, convert, at)| == |ParseOf(table, pdus, convert).0|
    ensures j < |Sources(table, pdus, convert, at)| ==>
              var i := Sources(table, pdus, convert, at)[j];
              && at <= i < at + Good(table, pdus, convert)
              && DecodeOne(table, pdus[i - at], convert) == Got(ParseOf(table, pdus, convert).0[j])
    decreases |pdus|
  {
    if pdus != [] && !DecodeOne(table, pdus[0], convert).Fail? {
      SourcesDecode(table, pdus[1..], convert, at + 1,
                    if DecodeOne(table, pdus[0], convert).Got? && j > 0 then j - 1 else j);
    }
  }

  lemma {:induction false} SourcesIncrease(table: map<string, Attribute>, pdus: seq<Pdu>, convert: Converter, at: nat, j: nat)
    requires 0 < j < |Sources(table, pdus, convert, at)|
    ensures Sources(table, pdus, convert, at)[j - 1] < Sources(table, pdus, convert, at)[j]
    decreases |pdus|
  {
    if DecodeOne(table, pdus[0], convert).Got? {
      if j > 1 {
        SourcesIncrease(table, pdus[1..], convert, at + 1, j - 1);
      } else {
        SourcesDecode(table, pdus[1..], convert, at + 1, 0);
      }
    } else {
      SourcesIncrease(table, pdus[1..], convert, at + 1, j);
    }
  }

  // x is found in b, whatever stands before it.
  lemma {:induction false} InTail(x: nat, a: seq<nat>, b: seq<nat>)
    ensures x in b ==> x in [] + b && x in a + b
  {
    if x in b {
      var j :| 0 <= j < |b| && b[j] == x;
      assert ([] + b)[j] == x && (a + b)[|a| + j] == x;
    }
  }

  lemma {:induction false} SourcesComplete(table: map<string, Attribute>, pdus: seq<Pdu>, convert: Converter, at: nat, i: nat)
    requires i < Good(table, pdus, convert)
    ensures !DecodeOne(table, pdus[i], convert).Fail?
    ensures DecodeOne(table, pdus[i], convert).Got? ==> at + i in Sources(table, pdus, convert, at)
    decreases |pdus|
  {
    var rest := Sources(table, pdus[1..], convert, at + 1);
    if i > 0 {
      SourcesComplete(table, pdus[1..], convert, at + 1, i - 1);
      assert pdus[1..][i - 1] == pdus[i];
      InTail(at + i, [at], rest);
    } else if DecodeOne(table, pdus[0], convert).Got? {
      assert at in [at] + rest;
    }
  }

  lemma {:induction false} GoodEnds(table: map<string, Attribute>, pdus: seq<Pdu>, convert: Converter)
    ensures var n := Good(table, pdus, convert);
            && (n < |pdus| ==> DecodeOne(table, pdus[n], convert).Fail?)
            && (ParseOf(table, pdus, convert).1 <==> n == |pdus|)
    decreases |pdus|
  {
    if pdus != [] && !DecodeOne(table, pdus[0], convert).Fail? {
      GoodEnds(table, pdus[1..], convert);
    }
  }

  lemma {:induction false} SourcesInOrder(table: map<string, Attribute>, pdus: seq<Pdu>, convert: Converter)
    ensures var from := Sources(table, pdus, convert, 0);
            && |from| == |ParseOf(table, pdus, convert).0|
            && (forall j :: 0 <= j < |from| ==>
                  from[j] < Good(table, pdus, convert)
                  && DecodeOne(table, pdus[from[j]], convert) == Got(ParseOf(table, pdus, convert).0[j]))
            && (forall j :: 0 < j < |from| ==> from[j - 1] < from[j])
  {
    var from := Sources(table, pdus, convert, 0);
    SourcesDecode(table, pdus, convert, 0, 0);
    forall j | 0 <= j < |from|
      ensures from[j] < Good(table, pdus, convert)
      ensures DecodeOne(table, pdus[from[j]], convert) == Got(ParseOf(table, pdus, convert).0[j])
      ensures j > 0 ==> from[j - 1] < from[j]
    {
      SourcesDecode(table, pdus, convert, 0, j);
      if j > 0 {
        SourcesIncrease(table, pdus, convert, 0, j);
      }
    }
  }

  lemma {:induction false} SourcesAll(table: map<string, Attribute>, pdus: seq<Pdu>, convert: Converter)
    ensures var n, from := Good(table, pdus, convert), Sources(table, pdus, convert, 0);
            && (forall i :: 0 <= i < n ==> !DecodeOne(table, pdus[i], convert).Fail?)
            && (forall i :: 0 <= i < n && DecodeOne(table, pdus[i], convert).Got? ==> i in from)
  {
    forall i | 0 <= i < Good(table, pdus, convert)
      ensures !DecodeOne(table, pdus[i], convert).Fail?
      ensures DecodeOne(table, pdus[i], convert).Got? ==> i in Sources(table, pdus, convert, 0)
    {
      SourcesComplete(table, pdus, convert, 0, i);
    }
  }

  // What becomes of one PDU.
  lemma {:induction false} DecodeMeaning(table: map<string, Attribute>, pdu: Pdu, convert: Converter)
    ensures var m := MatchOf(table, Normalise(pdu.name));
            match DecodeOne(table, pdu, convert)
            case Skip => pdu.kind in {"NoSuchObject", "NoSuchInstance", "EndOfMibView", "Null"} || m.None?
            case Fail => pdu.kind !in {"NoSuchObject", "NoSuchInstance", "EndOfMibView", "Null"}
                         && m.Some? && convert(pdu, m.value.attr.syntax).None?
            case Got(vb) => pdu.kind !in {"NoSuchObject", "NoSuchInstance", "EndOfMibView", "Null"}
                            && m == Some(Match(m.value.attr, vb.instance)) && IsDecoded(vb, pdu, m.value.attr)
                            && convert(pdu, m.value.attr.syntax) == Some(vb.value)
  {
  }

  predicate IsDecoded(vb: DecodedVarbind, pdu: Pdu, attr: Attribute) {
    && vb.oid == Normalise(pdu.name) && vb.snmpType == pdu.kind
    && vb.name == attr.name && vb.syntax == attr.syntax && vb.isTag == attr.isTag
  }

  // What Parse returns: exactly the varbinds of the matched PDUs before the first failed conversion,
  // in their order, each PDU once; it reports success exactly when there is no failure.
  // from[j] is the PDU the j-th varbind was decoded from.
  lemma {:induction false} ParseMeaning(table: map<string, Attribute>, pdus: seq<Pdu>, convert: Converter)
    returns (n: nat, from: seq<nat>)
    ensures n <= |pdus|
    ensures n < |pdus| ==> DecodeOne(table, pdus[n], convert).Fail?
    ensures ParseOf(table, pdus, convert).1 <==> n == |pdus|
    ensures |from| == |ParseOf(table, pdus, convert).0|
    ensures forall j :: 0 <= j < |from| ==>
              from[j] < n && DecodeOne(table, pdus[from[j]], convert) == Got(ParseOf(table, pdus, convert).0[j])
    ensures forall j :: 0 < j < |from| ==> from[j - 1] < from[j]
    ensures forall i :: 0 <= i < n ==> !DecodeOne(table, pdus[i], convert).Fail?
    ensures forall i :: 0 <= i < n && DecodeOne(table, pdus[i], convert).Got? ==> i in from
  {
    n, from := Good(table, pdus, convert), Sources(table, pdus, convert, 0);
    GoodEnds(table, pdus, convert);
    SourcesInOrder(table, pdus, convert);
    SourcesAll(table, pdus, convert);
  }

  // The same for one returned varbind: it carries the PDU's OID, type and converted value, and the
  // name, syntax and role of the attribute its OID matches.
  lemma {:induction false} VarbindMeaning(table: map<string, Attribute>, pdus: seq<Pdu>, convert: Converter, j: nat)
    requires j < |ParseOf(table, pdus, convert).0|
    ensures var vb := ParseOf(table, pdus, convert).0[j];
            exists pdu, attr :: pdu in pdus && MatchOf(table, vb.oid) == Some(Match(attr, vb.instance))
              && vb.oid == Normalise(pdu.name) && vb.snmpType == pdu.kind
              && vb.name == attr.name && vb.syntax == attr.syntax && vb.isTag == attr.isTag
              && convert(pdu, attr.syntax) == Some(vb.value)
              && pdu.kind !in {"NoSuchObject", "NoSuchInstance", "EndOfMibView", "Null"}
  {
    var n, from := ParseMeaning(table, pdus, convert);
    var pdu := pdus[from[j]];
    DecodeMeaning(table, pdu, convert);
    var attr := MatchOf(table, Normalise(pdu.name)).value.attr;
    assert pdu in pdus;
  }
}
