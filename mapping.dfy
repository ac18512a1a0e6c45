/**
 * The conversions between Go records and the loosely-typed maps of
 * multi-db/mysql/builder.go: SetData (a map keyed by `builder` tags into a
 * record), the parameter map InsertObject builds from a record, and
 * ScanRow (one cursor row into a map keyed by column name).
 *
 * A record is described by its struct fields, each with its Go name, its
 * `builder` tag and its reflect kind.
 */
module Mapping {
  import opened Wrappers
  import opened GoStrings
  import opened Values
  import opened Db

  /** The reflect kinds the conversions tell apart. */
  datatype Kind =
    | IntKind | Int8Kind | Int16Kind | Int32Kind | Int64Kind
    | StringKind | Float32Kind | Float64Kind | OtherKind

  /** One struct field: Go name, `builder` tag, kind. */
  datatype Field = Field(name: string, tag: string, kind: Kind)

  /** A field together with the value it currently holds. */
  datatype Member = Member(field: Field, value: Value)

  /** A row of a result set, keyed by column name (Go's `Result`). */
  type ResultMap = map<string, Value>

  // ---------------------------------------------------------------------
  // SetData

  /** The data key a tag binds to: `,omit` and then every comma removed. */
  function Binding(tag: string): string
  {
    ReplaceAll(ReplaceAll(tag, ",omit", ""), ",", "")
  }

  /** No tag binds to a key with a comma in it. */
  lemma BindingHasNoComma(tag: string)
    ensures ',' !in Binding(tag)
  {
    ReplaceAllRemovesChar(ReplaceAll(tag, ",omit", ""), ',');
  }

  predicate IsIntKind(k: Kind)
  {
    k == IntKind || k == Int8Kind || k == Int16Kind || k == Int32Kind || k == Int64Kind
  }

  /** The value SetData stores for a field of kind `k` bound to `v`: integer
      kinds go through fmt's %v and strconv.Atoi (an unparsable text gives
      Atoi's fallback value), strings through %v, float64 through %v and
      ParseFloat, and any other kind is stored as it is. */
  function Convert(k: Kind, v: Value): (r: Value)
    ensures IsIntKind(k) ==> r.Int?
    ensures k == StringKind ==> r == Text(FormatV(v))
    ensures !IsIntKind(k) && k != StringKind && k != Float64Kind ==> r == v
  {
    if IsIntKind(k) then Int(Atoi(FormatV(v)).Value())
    else if k == StringKind then Text(FormatV(v))
    else if k == Float64Kind then Float(FormatV(v))
    else v
  }

  /** An integer field keeps an integer value in 64-bit range. */
  lemma ConvertIntRoundTrip(k: Kind, n: int)
    requires IsIntKind(k) && MinInt64 <= n <= MaxInt64
    ensures Convert(k, Int(n)) == Int(n) && Convert(k, Int64(n)) == Int(n)
  {
    AtoiItoa(n);
  }

  /** An integer field bound to a text that is not a number gets 0, the
      value strconv.Atoi returns with its syntax error. */
  lemma ConvertIntLenient(k: Kind, s: string)
    requires IsIntKind(k) && Atoi(s).SyntaxError?
    ensures Convert(k, Text(s)) == Int(0)
  {
  }

  /** The map SetData builds, field by field; a later field of the same
      name overwrites an earlier one. */
  function Converted(fields: seq<Field>, data: map<string, Value>): map<string, Value>
    decreases |fields|
  {
    if |fields| == 0 then map[]
    else
      var f := fields[|fields| - 1];
      var prev := Converted(fields[..|fields| - 1], data);
      if Binding(f.tag) in data then prev[f.name := Convert(f.kind, data[Binding(f.tag)])] else prev
  }

  /** A field name is set exactly when some field of that name has a tag
      that binds to a data key. */
  lemma {:induction false} ConvertedKeys(fields: seq<Field>, data: map<string, Value>, name: string)
    ensures name in Converted(fields, data) <==>
      exists i :: 0 <= i < |fields| && fields[i].name == name && Binding(fields[i].tag) in data
    decreases |fields|
  {
    if |fields| > 0 {
      var n := |fields| - 1;
      var init := fields[..n];
      ConvertedKeys(init, data, name);
      if name in Converted(fields, data) && !(fields[n].name == name && Binding(fields[n].tag) in data) {
        var i :| 0 <= i < |init| && init[i].name == name && Binding(init[i].tag) in data;
        assert fields[i] == init[i];
      }
      if exists i :: 0 <= i < |fields| && fields[i].name == name && Binding(fields[i].tag) in data {
        var i :| 0 <= i < |fields| && fields[i].name == name && Binding(fields[i].tag) in data;
        if i < n { assert init[i] == fields[i]; }
      }
    }
  }

  predicate DistinctNames(fields: seq<Field>)
  {
    forall i, j :: 0 <= i < j < |fields| ==> fields[i].name != fields[j].name
  }

  /** With distinct field names (as in any Go struct) each bound field
      holds the conversion of its own data value. */
  lemma {:induction false} ConvertedValue(fields: seq<Field>, data: map<string, Value>, i: nat)
    requires DistinctNames(fields) && i < |fields| && Binding(fields[i].tag) in data
    ensures var m := Converted(fields, data);
      fields[i].name in m && m[fields[i].name] == Convert(fields[i].kind, data[Binding(fields[i].tag)])
    decreases |fields|
  {
    var n := |fields| - 1;
    if i < n {
      var init := fields[..n];
      assert init[i] == fields[i];
      ConvertedValue(init, data, i);
      assert fields[n].name != fields[i].name;
    }
  }

  /** SetData: for each field, look through the data keys for the one its tag
      binds to and store the converted value under the field name; then the
      converted map is decoded over the record, whose other fields keep
      their values. */
  method SetData(data: map<string, Value>, fields: seq<Field>, record: map<string, Value>)
    returns (updated: map<string, Value>)
    ensures updated == record + Converted(fields, data)
  {
    var result: map<string, Value> := map[];
    var i := 0;
    while i < |fields|
      invariant 0 <= i <= |fields|
      invariant result == Converted(fields[..i], data)
    {
      var item := fields[i];
      var builder := Binding(item.tag);
      var keys := data.Keys;
      ghost var before := result;
      while keys != {}
        invariant keys <= data.Keys
        invariant result == if builder in data && builder !in keys
          then before[item.name := Convert(item.kind, data[builder])] else before
        decreases keys
      {
        var v :| v in keys;
        if builder == v {
          result := result[item.name := Convert(item.kind, data[v])];
        }
        keys := keys - {v};
      }
      assert fields[..i + 1][..i] == fields[..i];
      i := i + 1;
    }
    assert fields[..i] == fields;
    updated := record + result;
  }

  /** A tagged field is bound by its bare name and by its `,omit` form alike,
      and the fields SetData leaves untouched keep their record value. */
  lemma SetDataOmitTag(name: string, field: string, k: Kind, v: Value, record: map<string, Value>, other: string)
    requires ',' !in name
    requires other != field
    ensures Binding(name + ",omit") == name
    ensures var fs := [Field(field, name + ",omit", k)];
      var m := record + Converted(fs, map[name := v]);
      m[field] == Convert(k, v) && (other in record ==> other in m && m[other] == record[other])
  {
    OmitBinding(name);
    var fs := [Field(field, name + ",omit", k)];
    assert fs[..0] == [];
  }

  /** Stripping `,omit` from `name,omit` and then the commas of a comma-free
      name gives the name back. */
  lemma OmitBinding(name: string)
    requires ',' !in name
    ensures Binding(name + ",omit") == name
  {
    ReplaceAllOmitSuffix(name);
    ReplaceAllNoChar(name, ',');
  }

  lemma {:induction false} ReplaceAllOmitSuffix(name: string)
    requires ',' !in name
    ensures ReplaceAll(name + ",omit", ",omit", "") == name
    decreases |name|
  {
    var s := name + ",omit";
    if |name| == 0 {
      assert s == ",omit";
      assert s[5..] == "";
    } else {
      assert s[..5][0] == name[0] != ',';
      assert s[1..] == name[1..] + ",omit";
      ReplaceAllOmitSuffix(name[1..]);
      assert [name[0]] + name[1..] == name;
    }
  }

  lemma {:induction false} ReplaceAllNoChar(s: string, c: char)
    requires c !in s
    ensures ReplaceAll(s, [c], "") == s
    decreases |s|
  {
    if |s| > 0 {
      assert s[..1] == [s[0]] != [c];
      ReplaceAllNoChar(s[1..], c);
      assert [s[0]] + s[1..] == s;
    }
  }

  // ---------------------------------------------------------------------
  // InsertObject's parameter map

  /** The values a field of each kind can hold. */
  predicate Fits(m: Member)
  {
    match m.field.kind
    case StringKind => m.value.Text?
    case Float32Kind => m.value.Float?
    case Float64Kind => m.value.Float?
    case OtherKind => true
    case _ => m.value.Int? || m.value.Int64?
  }

  /** Fields with a non-empty tag that does not mention `omit`. */
  predicate Tagged(m: Member)
  {
    m.field.tag != "" && !Contains(m.field.tag, "omit")
  }

  /** The parameter a member contributes, if any: int, int16, int32 and
      int64 as int64 values (int8 has no case and is skipped), strings as
      strings, both float kinds as float64, and nothing for other kinds. */
  function Param(m: Member): (r: Option<Value>)
    requires Fits(m)
    ensures r.Some? <==> Tagged(m) && m.field.kind != Int8Kind && m.field.kind != OtherKind
    ensures r.Some? && IsIntKind(m.field.kind) ==> r.value == Int64(m.value.i)
    ensures r.Some? && !IsIntKind(m.field.kind) ==> r.value == m.value
  {
    if !Tagged(m) then None
    else match m.field.kind
      case IntKind => Some(Int64(m.value.i))
      case Int16Kind => Some(Int64(m.value.i))
      case Int32Kind => Some(Int64(m.value.i))
      case Int64Kind => Some(Int64(m.value.i))
      case StringKind => Some(m.value)
      case Float32Kind => Some(m.value)
      case Float64Kind => Some(m.value)
      case _ => None
  }

  predicate AllFit(ms: seq<Member>)
  {
    forall i :: 0 <= i < |ms| ==> Fits(ms[i])
  }

  /** The parameter map, keyed by the full tag; a later field with the same
      tag overwrites an earlier one. */
  function ObjectParams(ms: seq<Member>): map<string, Value>
    requires AllFit(ms)
    decreases |ms|
  {
    if |ms| == 0 then map[]
    else
      var m := ms[|ms| - 1];
      var prev := ObjectParams(ms[..|ms| - 1]);
      match Param(m)
      case Some(v) => prev[m.field.tag := v]
      case None => prev
  }

  /** A key is present exactly when some member with that tag contributes. */
  lemma {:induction false} ObjectParamsKeys(ms: seq<Member>, key: string)
    requires AllFit(ms)
    ensures key in ObjectParams(ms) <==>
      exists i :: 0 <= i < |ms| && ms[i].field.tag == key && Param(ms[i]).Some?
    decreases |ms|
  {
    if |ms| > 0 {
      var n := |ms| - 1;
      var init := ms[..n];
      assert AllFit(init);
      ObjectParamsKeys(init, key);
      if key in ObjectParams(ms) && !(ms[n].field.tag == key && Param(ms[n]).Some?) {
        var i :| 0 <= i < |init| && init[i].field.tag == key && Param(init[i]).Some?;
        assert ms[i] == init[i];
      }
      if exists i :: 0 <= i < |ms| && ms[i].field.tag == key && Param(ms[i]).Some? {
        var i :| 0 <= i < |ms| && ms[i].field.tag == key && Param(ms[i]).Some?;
        if i < n { assert init[i] == ms[i]; }
      }
    }
  }

  /** The value under a key is the one the last contributing member with that tag gave. */
  lemma {:induction false} ObjectParamsLast(ms: seq<Member>, i: nat)
    requires AllFit(ms) && i < |ms| && Param(ms[i]).Some?
    requires forall j :: i < j < |ms| ==> ms[j].field.tag == ms[i].field.tag ==> Param(ms[j]).None?
    ensures var p := ObjectParams(ms); ms[i].field.tag in p && p[ms[i].field.tag] == Param(ms[i]).value
    decreases |ms|
  {
    var n := |ms| - 1;
    if i < n {
      var init := ms[..n];
      assert AllFit(init);
      assert init[i] == ms[i];
      ObjectParamsLast(init, i);
    }
  }

  /** InsertObject's loop over the struct fields. */
  method InsertObjectParams(ms: seq<Member>) returns (params: map<string, Value>)
    requires AllFit(ms)
    ensures params == ObjectParams(ms)
  {
    params := map[];
    var i := 0;
    while i < |ms|
      invariant 0 <= i <= |ms|
      invariant AllFit(ms[..i])
      invariant params == ObjectParams(ms[..i])
    {
      var tag := ms[i].field.tag;
      if tag != "" && !Contains(tag, "omit") {
        match ms[i].field.kind {
          case IntKind => params := params[tag := Int64(ms[i].value.i)];
          case Int16Kind => params := params[tag := Int64(ms[i].value.i)];
          case Int32Kind => params := params[tag := Int64(ms[i].value.i)];
          case Int64Kind => params := params[tag := Int64(ms[i].value.i)];
          case StringKind => params := params[tag := ms[i].value];
          case Float32Kind => params := params[tag := ms[i].value];
          case Float64Kind => params := params[tag := ms[i].value];
          case _ =>
        }
      }
      assert ms[..i + 1][..i] == ms[..i];
      i := i + 1;
    }
    assert ms[..i] == ms;
  }

  // ---------------------------------------------------------------------
  // ScanRow

  /** The type switch of ScanRow: a Go int becomes an int64, bytes become a
      string, and every other value (nil included) is stored as scanned. */
  function Normalize(v: Value): (r: Value)
    ensures !r.Int? && !r.Bytes?
    ensures v.Int? ==> r == Int64(v.i)
    ensures v.Bytes? ==> r == Text(v.data)
    ensures !v.Int? && !v.Bytes? ==> r == v
  {
    match v
    case Int(n) => Int64(n)
    case Bytes(data) => Text(data)
    case _ => v
  }

  /** The row map for scanned values: each column name to its normalised
      value, a later column of the same name overwriting an earlier one. */
  function RowMap(cols: seq<string>, vals: seq<Value>): ResultMap
    requires |cols| == |vals|
    decreases |cols|
  {
    if |cols| == 0 then map[]
    else RowMap(cols[..|cols| - 1], vals[..|vals| - 1])[cols[|cols| - 1] := Normalize(vals[|vals| - 1])]
  }

  /** The row map's keys are exactly the column names. */
  lemma {:induction false} RowMapKeys(cols: seq<string>, vals: seq<Value>)
    requires |cols| == |vals|
    ensures RowMap(cols, vals).Keys == set i | 0 <= i < |cols| :: cols[i]
    decreases |cols|
  {
    if |cols| > 0 {
      var n := |cols| - 1;
      RowMapKeys(cols[..n], vals[..n]);
      var s := set i | 0 <= i < |cols| :: cols[i];
      var s' := set i | 0 <= i < n :: cols[..n][i];
      assert s == s' + {cols[n]} by {
        forall x | x in s ensures x in s' + {cols[n]} {
          var i :| 0 <= i < |cols| && cols[i] == x;
          if i < n { assert cols[..n][i] == x; }
        }
      }
    }
  }

  /** A column holds the normalised value of its last occurrence. */
  lemma {:induction false} RowMapValue(cols: seq<string>, vals: seq<Value>, i: nat)
    requires |cols| == |vals| && i < |cols|
    requires forall j :: i < j < |cols| ==> cols[j] != cols[i]
    ensures var m := RowMap(cols, vals); cols[i] in m && m[cols[i]] == Normalize(vals[i])
    decreases |cols|
  {
    var n := |cols| - 1;
    if i < n {
      assert cols[..n][i] == cols[i] && vals[..n][i] == vals[i];
      RowMapValue(cols[..n], vals[..n], i);
    }
  }

  const ScanCountMismatch: string := "sql: expected a different number of destination arguments in Scan"

  /** ScanRow: one slot per column; a failed scan is reported as a scan
      error, and otherwise every column is stored in the row map. */
  method ScanRow(cols: seq<string>, row: Row) returns (r: Result<ResultMap, Error>)
    ensures row.scan.Failure? ==> r == Failure(ScanError(row.scan.error))
    ensures row.scan.Success? && |row.scan.value| != |cols| ==> r == Failure(ScanError(ScanCountMismatch))
    ensures row.scan.Success? && |row.scan.value| == |cols| ==> r == Success(RowMap(cols, row.scan.value))
  {
    if row.scan.Failure? {
      return Failure(ScanError(row.scan.error));
    }
    var values := row.scan.value;
    if |values| != |cols| {
      return Failure(ScanError(ScanCountMismatch));
    }
    var result: ResultMap := map[];
    var i := 0;
    while i < |cols|
      invariant 0 <= i <= |cols|
      invariant result == RowMap(cols[..i], values[..i])
    {
      var v := values[i];
      match v {
        case Int(n) => result := result[cols[i] := Int64(n)];
        case Bytes(data) => result := result[cols[i] := Text(data)];
        case _ => result := result[cols[i] := v];
      }
      assert cols[..i + 1][..i] == cols[..i];
      assert values[..i + 1][..i] == values[..i];
      i := i + 1;
    }
    assert cols[..i] == cols && values[..i] == values;
    return Success(result);
  }

  /** A tag without the letter o never mentions omit. */
  lemma NoOmit(tag: string)
    requires 'o' !in tag
    ensures !Contains(tag, "omit")
  {
    if Contains(tag, "omit") { ContainsChars(tag, "omit", 0); assert false; }
  }

  /** A tag without the letter m never mentions omit. */
  lemma NoOmitM(tag: string)
    requires 'm' !in tag
    ensures !Contains(tag, "omit")
  {
    if Contains(tag, "omit") { ContainsChars(tag, "omit", 1); assert false; }
  }

  /** Three contributing members give a three-entry parameter map. */
  lemma ThreeParams(m0: Member, m1: Member, m2: Member)
    requires Fits(m0) && Fits(m1) && Fits(m2)
    requires Param(m0).Some? && Param(m1).Some? && Param(m2).Some?
    ensures ObjectParams([m0, m1, m2]) ==
      map[m0.field.tag := Param(m0).value, m1.field.tag := Param(m1).value, m2.field.tag := Param(m2).value]
  {
    var ms := [m0, m1, m2];
    assert ms[..2] == [m0, m1] && [m0, m1][..1] == [m0] && [m0][..0] == [];
    assert ObjectParams([m0]) == map[m0.field.tag := Param(m0).value];
    assert ObjectParams([m0, m1]) == ObjectParams([m0])[m1.field.tag := Param(m1).value];
  }

  lemma IdParam(id: int)
    ensures Param(Member(Field("Id", "id", IntKind), Int(id))) == Some(Int64(id))
  {
    NoOmit("id");
  }

  lemma AdIdParam(adId: int)
    ensures Param(Member(Field("AdId", "ad_id", IntKind), Int(adId))) == Some(Int64(adId))
  {
    NoOmit("ad_id");
  }

  lemma ContentTagNoOmit()
    ensures !Contains("content_tag", "omit")
  {
    NoOmitM("content_tag");
  }

  /** A string field whose tag does not mention omit binds its text. */
  lemma TextParam(name: string, tag: string, text: string)
    requires tag != "" && !Contains(tag, "omit")
    ensures Param(Member(Field(name, tag, StringKind), Text(text))) == Some(Text(text))
  {
  }

  lemma ContentTagParam(tag: string)
    ensures Param(Member(Field("ContentTag", "content_tag", StringKind), Text(tag))) == Some(Text(tag))
  {
    ContentTagNoOmit();
    TextParam("ContentTag", "content_tag", tag);
  }

  /** The record the examples use: ads_tag_copy's id, ad_id and content_tag,
      all three of them bound, the id included even when it is zero. */
  lemma AdsTagCopyParams(id: int, adId: int, tag: string)
    ensures var ms := [
        Member(Field("Id", "id", IntKind), Int(id)),
        Member(Field("AdId", "ad_id", IntKind), Int(adId)),
        Member(Field("ContentTag", "content_tag", StringKind), Text(tag))];
      ObjectParams(ms) == map["id" := Int64(id), "ad_id" := Int64(adId), "content_tag" := Text(tag)]
  {
    IdParam(id);
    AdIdParam(adId);
    ContentTagParam(tag);
    ThreeParams(Member(Field("Id", "id", IntKind), Int(id)),
      Member(Field("AdId", "ad_id", IntKind), Int(adId)),
      Member(Field("ContentTag", "content_tag", StringKind), Text(tag)));
  }
}
