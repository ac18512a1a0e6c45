/**
 * The parameter-map helpers of multi-db/mysql/builder.go: the map's keys
 * in ascending order (Go randomises map iteration, so the builder sorts),
 * the values in that order, the `SET` list of an UPDATE and the INSERT
 * statement.  Bound values and `?` markers line up because all of them
 * follow the same sorted key order.
 */
module Params {
  import opened GoStrings
  import opened Values
  import opened Db

  type ParamMap = map<string, Value>

  predicate StrictlySorted(s: seq<string>)
  {
    forall i, j :: 0 <= i < j < |s| ==> Less(s[i], s[j])
  }

  predicate IsLeast(m: string, s: set<string>)
  {
    m in s && forall x :: x in s && x != m ==> Less(m, x)
  }

  /** Every non-empty set of strings has a least element. */
  lemma {:induction false} LeastExists(s: set<string>)
    requires s != {}
    ensures exists m :: IsLeast(m, s)
    decreases |s|
  {
    var y :| y in s;
    if s != {y} {
      var rest := s - {y};
      LeastExists(rest);
      var m :| IsLeast(m, rest);
      if Less(m, y) {
        forall x | x in s && x != m ensures Less(m, x) {
          if x == y { } else { assert x in rest; }
        }
        assert IsLeast(m, s);
      } else {
        LessTotal(m, y);
        forall x | x in s && x != y ensures Less(y, x) {
          if x != m { LessTransitive(y, m, x); }
        }
        assert IsLeast(y, s);
      }
    } else {
      assert IsLeast(y, s);
    }
  }

  /** The keys of a set in ascending order: what sort.Strings leaves. */
  ghost function SortedKeys(s: set<string>): (r: seq<string>)
    ensures StrictlySorted(r) && |r| == |s|
    ensures forall x :: x in r <==> x in s
    decreases |s|
  {
    if s == {} then []
    else
      LeastExists(s);
      var m :| IsLeast(m, s);
      var rest := SortedKeys(s - {m});
      LeastCons(m, s, rest);
      [m] + rest
  }

  /** The least key followed by the others in ascending order is ascending. */
  lemma LeastCons(m: string, s: set<string>, rest: seq<string>)
    requires IsLeast(m, s) && StrictlySorted(rest) && |rest| == |s - {m}|
    requires forall x :: x in rest <==> x in s - {m}
    ensures StrictlySorted([m] + rest) && |[m] + rest| == |s|
    ensures forall x :: x in [m] + rest <==> x in s
  {
    var r := [m] + rest;
    forall i, j | 0 <= i < j < |r| ensures Less(r[i], r[j]) {
      assert r[j] == rest[j - 1] && r[j] in s - {m};
      if i > 0 { assert r[i] == rest[i - 1]; }
    }
  }

  /** Sequences with the same elements are empty together. */
  lemma MemberOfNonEmpty(a: seq<string>, b: seq<string>)
    requires forall x :: x in a <==> x in b
    requires |b| > 0
    ensures |a| > 0
  {
    assert b[0] in a;
  }

  /** A strictly ascending sequence is determined by its elements. */
  lemma {:induction false} SortedUnique(a: seq<string>, b: seq<string>)
    requires StrictlySorted(a) && StrictlySorted(b)
    requires forall x :: x in a <==> x in b
    ensures a == b
    decreases |a|
  {
    if |a| == 0 {
      if |b| > 0 {
        MemberOfNonEmpty(a, b);
        assert false;
      }
    } else {
      assert a[0] in b;
      assert |b| > 0 && b[0] in b;
      if a[0] != b[0] {
        var i :| 0 <= i < |b| && b[i] == a[0];
        var j :| 0 <= j < |a| && a[j] == b[0];
        assert Less(b[0], a[0]);
        assert Less(a[0], b[0]);
        LessAsymmetric(a[0], b[0]);
      }
      forall x ensures x in a[1..] <==> x in b[1..] {
        if x in a[1..] {
          var i :| 1 <= i < |a| && a[i] == x;
          assert Less(a[0], x);
          LessIrreflexive(x);
          assert x in b;
        }
        if x in b[1..] {
          var i :| 1 <= i < |b| && b[i] == x;
          assert Less(b[0], x);
          LessIrreflexive(x);
          assert x in a;
        }
      }
      SortedUnique(a[1..], b[1..]);
      assert a == [a[0]] + a[1..] && b == [b[0]] + b[1..];
    }
  }

  /** Exchange two entries of an array. */
  method Swap(a: array<string>, i: nat, j: nat)
    requires i < a.Length && j < a.Length
    modifies a
    ensures a[..] == old(a[..])[i := old(a[j])][j := old(a[i])]
    ensures multiset(a[..]) == old(multiset(a[..]))
  {
    a[i], a[j] := a[j], a[i];
  }

  /** The index of the least entry of a[from..]. */
  method LeastFrom(a: array<string>, from: nat) returns (m: nat)
    requires from < a.Length
    requires Distinct(a[..])
    ensures from <= m < a.Length
    ensures forall k :: from <= k < a.Length && k != m ==> Less(a[m], a[k])
  {
    m := from;
    var k := from + 1;
    while k < a.Length
      invariant from <= m < k <= a.Length
      invariant forall p :: from <= p < k && p != m ==> Less(a[m], a[p])
    {
      if Less(a[k], a[m]) {
        forall p | from <= p < k && p != k ensures Less(a[k], a[p]) {
          if p != m { LessTransitive(a[k], a[m], a[p]); }
        }
        m := k;
      } else {
        LessTotal(a[k], a[m]);
      }
      k := k + 1;
    }
  }

  predicate Distinct(s: seq<string>)
  {
    forall p, q :: 0 <= p < q < |s| ==> s[p] != s[q]
  }

  /** The first `i` entries are in place: each is below every later entry. */
  predicate SortedBelow(s: seq<string>, i: nat)
  {
    forall p, q :: 0 <= p < q < |s| && p < i ==> Less(s[p], s[q])
  }

  /** Swapping the least entry of s[i..] into place i extends the sorted prefix. */
  lemma SelectionStep(s: seq<string>, i: nat, m: nat, t: seq<string>)
    requires i <= m < |s| && Distinct(s) && SortedBelow(s, i)
    requires forall k :: i <= k < |s| && k != m ==> Less(s[m], s[k])
    requires t == s[i := s[m]][m := s[i]]
    ensures Distinct(t) && SortedBelow(t, i + 1)
  {
    forall p, q | 0 <= p < q < |t| ensures t[p] != t[q] {
      var p' := if p == i then m else if p == m then i else p;
      var q' := if q == i then m else if q == m then i else q;
      assert t[p] == s[p'] && t[q] == s[q'];
    }
    forall p, q | 0 <= p < q < |t| && p < i + 1 ensures Less(t[p], t[q]) {
      if p < i {
        var q' := if q == i then m else if q == m then i else q;
        assert t[p] == s[p] && t[q] == s[q'];
      } else {
        var q' := if q == m then i else q;
        assert t[p] == s[m] && t[q] == s[q'];
      }
    }
  }

  /** sort.Strings on an array of distinct strings (selection sort). */
  method SortStrings(a: array<string>)
    requires Distinct(a[..])
    modifies a
    ensures StrictlySorted(a[..])
    ensures multiset(a[..]) == old(multiset(a[..]))
  {
    var i := 0;
    while i < a.Length
      invariant 0 <= i <= a.Length
      invariant Distinct(a[..]) && SortedBelow(a[..], i)
      invariant multiset(a[..]) == old(multiset(a[..]))
    {
      var m := LeastFrom(a, i);
      ghost var before := a[..];
      Swap(a, i, m);
      SelectionStep(before, i, m, a[..]);
      i := i + 1;
    }
  }

  /** The first loop of sortedParamKeys: every key once, in map order. */
  method FillKeys(params: ParamMap) returns (a: array<string>)
    ensures fresh(a) && a.Length == |params|
    ensures Distinct(a[..])
    ensures forall x :: x in a[..] <==> x in params.Keys
  {
    a := new string[|params|];
    var rest := params.Keys;
    ghost var seen: seq<string> := [];
    var i := 0;
    while rest != {}
      invariant i == |seen| && i + |rest| == |params| && a.Length == |params|
      invariant a[..i] == seen
      invariant forall x :: x in params.Keys <==> x in rest || x in seen
      invariant forall x :: x in rest ==> x !in seen
      invariant forall p, q :: 0 <= p < q < i ==> seen[p] != seen[q]
      decreases |rest|
    {
      var k :| k in rest;
      a[i] := k;
      seen := seen + [k];
      rest := rest - {k};
      i := i + 1;
    }
    assert a[..] == a[..i];
  }

  /** sortedParamKeys: copy the keys into an array in map order, then sort. */
  method SortedParamKeys(params: ParamMap) returns (keys: seq<string>)
    ensures keys == SortedKeys(params.Keys)
  {
    var sorted := FillKeys(params);
    ghost var filled := sorted[..];
    SortStrings(sorted);
    keys := sorted[..];
    forall x ensures x in keys <==> x in params.Keys {
      calc {
        x in keys;
        x in multiset(keys);
        x in multiset(filled);
        x in filled;
        x in params.Keys;
      }
    }
    SortedUnique(keys, SortedKeys(params.Keys));
  }

  /** The values bound for a key order. */
  function ValuesFor(keys: seq<string>, params: ParamMap): (r: seq<Value>)
    requires forall k :: k in keys ==> k in params
    ensures |r| == |keys| && forall i :: 0 <= i < |keys| ==> r[i] == params[keys[i]]
    decreases |keys|
  {
    if |keys| == 0 then [] else ValuesFor(keys[..|keys| - 1], params) + [params[keys[|keys| - 1]]]
  }

  /** valuesFromParams: one value per key, in ascending key order. */
  method ValuesFromParams(params: ParamMap) returns (values: seq<Value>)
    ensures values == ValuesFor(SortedKeys(params.Keys), params)
    ensures |values| == |params|
    ensures forall i :: 0 <= i < |values| ==> values[i] == params[SortedKeys(params.Keys)[i]]
  {
    var keys := SortedParamKeys(params);
    values := [];
    for i := 0 to |keys|
      invariant values == ValuesFor(keys[..i], params)
    {
      ValuesForSnoc(keys, i, params);
      values := values + [params[keys[i]]];
    }
    assert keys[..|keys|] == keys;
  }

  lemma ValuesForSnoc(keys: seq<string>, i: nat, params: ParamMap)
    requires i < |keys| && forall k :: k in keys ==> k in params
    ensures forall k :: k in keys[..i + 1] ==> k in params
    ensures ValuesFor(keys[..i + 1], params) == ValuesFor(keys[..i], params) + [params[keys[i]]]
  {
    assert keys[..i + 1][..i] == keys[..i];
  }

  /** The assignments "`col`=?" of an UPDATE, one per key, comma separated. */
  function Assignments(keys: seq<string>): (r: seq<string>)
    ensures |r| == |keys| && forall i :: 0 <= i < |keys| ==> r[i] == QuoteField(keys[i]) + "=?"
    decreases |keys|
  {
    if |keys| == 0 then [] else Assignments(keys[..|keys| - 1]) + [QuoteField(keys[|keys| - 1]) + "=?"]
  }

  lemma AssignmentsSnoc(keys: seq<string>, i: nat)
    requires i < |keys|
    ensures Assignments(keys[..i + 1]) == Assignments(keys[..i]) + [QuoteField(keys[i]) + "=?"]
  {
    assert keys[..i + 1][..i] == keys[..i];
  }

  function SetList(keys: seq<string>): string
  {
    Join(Assignments(keys), ",")
  }

  /** querySQL: the SET list for the keys in ascending order. */
  method QuerySQL(params: ParamMap) returns (r: string)
    ensures r == SetList(SortedKeys(params.Keys))
  {
    var keys := SortedParamKeys(params);
    var output: seq<string> := [];
    for i := 0 to |keys|
      invariant output == Assignments(keys[..i])
    {
      AssignmentsSnoc(keys, i);
      output := output + [QuoteField(keys[i]) + "=?"];
    }
    assert keys[..|keys|] == keys;
    r := Join(output, ",");
  }

  /** The quoted column names and the markers of an INSERT. */
  function Columns(keys: seq<string>): (r: seq<string>)
    ensures |r| == |keys| && forall i :: 0 <= i < |keys| ==> r[i] == QuoteField(keys[i])
    decreases |keys|
  {
    if |keys| == 0 then [] else Columns(keys[..|keys| - 1]) + [QuoteField(keys[|keys| - 1])]
  }

  lemma ColumnsSnoc(keys: seq<string>, i: nat)
    requires i < |keys|
    ensures Columns(keys[..i + 1]) == Columns(keys[..i]) + [QuoteField(keys[i])]
  {
    assert keys[..i + 1][..i] == keys[..i];
  }

  function Markers(n: nat): (r: seq<string>)
    ensures |r| == n && forall i :: 0 <= i < n ==> r[i] == Placeholder(i + 1)
  {
    if n == 0 then [] else Markers(n - 1) + [Placeholder(n)]
  }

  function InsertStatement(tableName: string, keys: seq<string>): string
  {
    "INSERT INTO " + tableName + " (" + Join(Columns(keys), ",")
      + ") VALUES(" + Join(Markers(|keys|), ",") + ")"
  }

  /** formatInsertSQL: the unquoted table name, the quoted columns and one
      marker per key, in ascending key order and without a terminator. */
  method FormatInsertSQL(tableName: string, params: ParamMap) returns (r: string)
    ensures r == InsertStatement(tableName, SortedKeys(params.Keys))
  {
    var keys := SortedParamKeys(params);
    var cols: seq<string> := [];
    var vals: seq<string> := [];
    for i := 0 to |keys|
      invariant cols == Columns(keys[..i]) && vals == Markers(i)
    {
      ColumnsSnoc(keys, i);
      cols := cols + [QuoteField(keys[i])];
      vals := vals + [Placeholder(i + 1)];
    }
    assert keys[..|keys|] == keys;
    r := "INSERT INTO " + tableName + " (" + Join(cols, ",") + ") VALUES(" + Join(vals, ",") + ")";
  }

  // ---------------------------------------------------------------------
  // Markers and bound values agree in number

  function Occurrences(parts: seq<string>, c: char): nat
    decreases |parts|
  {
    if |parts| == 0 then 0 else Occurrences(parts[..|parts| - 1], c) + multiset(parts[|parts| - 1])[c]
  }

  /** A separator without `c` adds no occurrence of `c` to a join. */
  lemma {:induction false} JoinOccurrences(parts: seq<string>, sep: string, c: char)
    requires c !in sep
    ensures multiset(Join(parts, sep))[c] == Occurrences(parts, c)
    decreases |parts|
  {
    if |parts| > 1 {
      JoinOccurrences(parts[..|parts| - 1], sep, c);
      assert multiset(sep)[c] == 0;
    } else if |parts| == 1 {
      assert parts[..0] == [];
    }
  }

  /** Parts with exactly one `c` each hold as many `c` as there are parts. */
  lemma {:induction false} OccurrencesOfSingles(parts: seq<string>, c: char)
    requires forall i :: 0 <= i < |parts| ==> multiset(parts[i])[c] == 1
    ensures Occurrences(parts, c) == |parts|
    decreases |parts|
  {
    if |parts| > 0 { OccurrencesOfSingles(parts[..|parts| - 1], c); }
  }

  predicate NoMarker(s: string) { '?' !in s }

  /** The SET list holds one `?` per key when no key holds a `?` itself. */
  lemma SetListMarkers(keys: seq<string>)
    requires forall i :: 0 <= i < |keys| ==> NoMarker(keys[i])
    ensures multiset(SetList(keys))['?'] == |keys|
  {
    var parts := Assignments(keys);
    forall i | 0 <= i < |parts| ensures multiset(parts[i])['?'] == 1 {
      assert multiset(keys[i])['?'] == 0;
      assert parts[i] == "`" + keys[i] + "`" + "=?";
    }
    OccurrencesOfSingles(parts, '?');
    JoinOccurrences(parts, ",", '?');
  }

  /** The INSERT statement holds one `?` per key when neither the table
      nor any key holds a `?`. */
  lemma InsertMarkers(tableName: string, keys: seq<string>)
    requires NoMarker(tableName) && forall i :: 0 <= i < |keys| ==> NoMarker(keys[i])
    ensures multiset(InsertStatement(tableName, keys))['?'] == |keys|
  {
    var cols := Columns(keys);
    forall i | 0 <= i < |cols| ensures multiset(cols[i])['?'] == 0 {
      assert multiset(keys[i])['?'] == 0;
    }
    ZeroOccurrences(cols, '?');
    JoinOccurrences(cols, ",", '?');
    assert NoMarker(Join(cols, ","));
    var marks := Markers(|keys|);
    OccurrencesOfSingles(marks, '?');
    JoinOccurrences(marks, ",", '?');
    InsertShape(tableName, Join(cols, ","), Join(marks, ","));
  }

  /** The `?` of a concatenation are those of its halves. */
  lemma MarkersOfConcat(x: string, y: string)
    ensures multiset(x + y)['?'] == multiset(x)['?'] + multiset(y)['?']
  {
    assert multiset(x + y) == multiset(x) + multiset(y);
  }

  lemma NoMarkerCount(x: string)
    requires NoMarker(x)
    ensures multiset(x)['?'] == 0
  {
  }

  /** Only the one part that may hold markers contributes any. */
  lemma MarkersOfSevenParts(p1: string, p2: string, p3: string, p4: string, p5: string, p6: string, p7: string)
    requires NoMarker(p1) && NoMarker(p2) && NoMarker(p3) && NoMarker(p4) && NoMarker(p5) && NoMarker(p7)
    ensures multiset(p1 + p2 + p3 + p4 + p5 + p6 + p7)['?'] == multiset(p6)['?']
  {
    NoMarkerCount(p1); NoMarkerCount(p2); NoMarkerCount(p3); NoMarkerCount(p4); NoMarkerCount(p5); NoMarkerCount(p7);
    MarkersOfConcat(p1, p2);
    MarkersOfConcat(p1 + p2, p3);
    MarkersOfConcat(p1 + p2 + p3, p4);
    MarkersOfConcat(p1 + p2 + p3 + p4, p5);
    MarkersOfConcat(p1 + p2 + p3 + p4 + p5, p6);
    MarkersOfConcat(p1 + p2 + p3 + p4 + p5 + p6, p7);
  }

  /** The fixed text of an INSERT adds no marker. */
  lemma InsertShape(t: string, cols: string, marks: string)
    requires NoMarker(t) && NoMarker(cols)
    ensures multiset("INSERT INTO " + t + " (" + cols + ") VALUES(" + marks + ")")['?'] == multiset(marks)['?']
  {
    assert NoMarker("INSERT INTO ");
    assert NoMarker(" (");
    assert NoMarker(") VALUES(");
    assert NoMarker(")");
    MarkersOfSevenParts("INSERT INTO ", t, " (", cols, ") VALUES(", marks, ")");
  }

  lemma {:induction false} ZeroOccurrences(parts: seq<string>, c: char)
    requires forall i :: 0 <= i < |parts| ==> multiset(parts[i])[c] == 0
    ensures Occurrences(parts, c) == 0
    decreases |parts|
  {
    if |parts| > 0 { ZeroOccurrences(parts[..|parts| - 1], c); }
  }

  /** For sorted keys the marker count of an INSERT equals the number of
      values bound to it. */
  lemma InsertBindsEveryValue(tableName: string, params: ParamMap)
    requires NoMarker(tableName) && forall k :: k in params ==> NoMarker(k)
    ensures multiset(InsertStatement(tableName, SortedKeys(params.Keys)))['?'] == |params|
  {
    var keys := SortedKeys(params.Keys);
    forall i | 0 <= i < |keys| ensures NoMarker(keys[i]) { assert keys[i] in params.Keys; }
    InsertMarkers(tableName, keys);
  }

  /** The same for the SET list of an UPDATE. */
  lemma SetListBindsEveryValue(params: ParamMap)
    requires forall k :: k in params ==> NoMarker(k)
    ensures multiset(SetList(SortedKeys(params.Keys)))['?'] == |params|
  {
    var keys := SortedKeys(params.Keys);
    forall i | 0 <= i < |keys| ensures NoMarker(keys[i]) { assert keys[i] in params.Keys; }
    SetListMarkers(keys);
  }
}
