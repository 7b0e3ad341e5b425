/** Redis hashes as the pipeline sees them: a list of (field, value) pairs, the flat array that HGETALL
    returns, and the map both stand for. */
module Records {
  import opened Text

  datatype Pair = Pair(field: string, value: string)

  /** One enumeration of a hash. HGETALL may list the fields in any order. */
  type Record = seq<Pair>

  /** The flat field, value, field, value, ... array. */
  function Flatten(rec: Record): (flat: seq<string>)
    ensures |flat| == 2 * |rec|
  {
    if rec == [] then []
    else Flatten(rec[..|rec| - 1]) + [rec[|rec| - 1].field, rec[|rec| - 1].value]
  }

  lemma {:induction false} FlattenAt(rec: Record, k: nat)
    requires k < |rec|
    ensures Flatten(rec)[2 * k] == rec[k].field && Flatten(rec)[2 * k + 1] == rec[k].value
  {
    if k < |rec| - 1 {
      FlattenAt(rec[..|rec| - 1], k);
    }
  }

  /** Every position of the flat array is the field or the value of one pair. */
  lemma PairAt(rec: Record, i: nat) returns (k: nat)
    requires i < 2 * |rec|
    ensures k < |rec|
    ensures (i == 2 * k && Flatten(rec)[i] == rec[k].field) || (i == 2 * k + 1 && Flatten(rec)[i] == rec[k].value)
  {
    k := i / 2;
    FlattenAt(rec, k);
  }

  /** The hash a list of pairs stands for: a later pair overrides an earlier one. */
  function AsMap(rec: Record): map<string, string>
  {
    if rec == [] then map[]
    else AsMap(rec[..|rec| - 1])[rec[|rec| - 1].field := rec[|rec| - 1].value]
  }

  ghost predicate Distinct(rec: Record)
  {
    forall i, j :: 0 <= i < j < |rec| ==> rec[i].field != rec[j].field
  }

  predicate FieldAt(rec: Record, field: string, k: int)
  {
    0 <= k < |rec| && rec[k].field == field && forall j :: 0 <= j < k ==> rec[j].field != field
  }

  lemma {:induction false} FieldExists(rec: Record, field: string, k: nat)
    requires k < |rec| && rec[k].field == field
    ensures exists i :: FieldAt(rec, field, i)
    decreases k
  {
    if forall j :: 0 <= j < k ==> rec[j].field != field {
      assert FieldAt(rec, field, k);
    } else {
      var j :| 0 <= j < k && rec[j].field == field;
      FieldExists(rec, field, j);
    }
  }

  /** The position of a field, or -1. */
  function Position(rec: Record, field: string): (k: int)
    ensures -1 <= k < |rec|
    ensures k == -1 ==> forall j :: 0 <= j < |rec| ==> rec[j].field != field
    ensures k >= 0 ==> FieldAt(rec, field, k)
  {
    if forall j :: 0 <= j < |rec| ==> rec[j].field != field then -1
    else
      var j :| 0 <= j < |rec| && rec[j].field == field;
      FieldExists(rec, field, j);
      var k :| FieldAt(rec, field, k);
      k
  }

  /** HSET of one field. */
  function SetField(rec: Record, field: string, value: string): Record
  {
    var k := Position(rec, field);
    if k == -1 then rec + [Pair(field, value)] else rec[k := Pair(field, value)]
  }

  lemma {:induction false} AsMapEntry(rec: Record, k: nat)
    requires Distinct(rec) && k < |rec|
    ensures rec[k].field in AsMap(rec) && AsMap(rec)[rec[k].field] == rec[k].value
  {
    if k < |rec| - 1 {
      AsMapEntry(rec[..|rec| - 1], k);
    }
  }

  lemma {:induction false} AsMapDomain(rec: Record, field: string)
    ensures field in AsMap(rec) <==> exists k :: 0 <= k < |rec| && rec[k].field == field
  {
    if rec != [] {
      AsMapDomain(rec[..|rec| - 1], field);
    }
  }

  lemma {:induction false} AsMapValues(rec: Record, value: string)
    requires value in AsMap(rec).Values
    ensures exists k :: 0 <= k < |rec| && rec[k].value == value
  {
    if rec != [] {
      if value in AsMap(rec[..|rec| - 1]).Values {
        AsMapValues(rec[..|rec| - 1], value);
      }
    }
  }

  /** Looking a field up by position and by map agree. */
  lemma Lookup(rec: Record, field: string)
    requires Distinct(rec)
    ensures (Position(rec, field) >= 0) == (field in AsMap(rec))
    ensures field in AsMap(rec) ==> AsMap(rec)[field] == rec[Position(rec, field)].value
  {
    AsMapDomain(rec, field);
    var k := Position(rec, field);
    if k >= 0 {
      AsMapEntry(rec, k);
    }
  }

  lemma SetFieldPositions(rec: Record, field: string, value: string)
    requires Distinct(rec)
    ensures var upd, k := SetField(rec, field, value), Position(rec, field);
            && |upd| == (if k == -1 then |rec| + 1 else |rec|)
            && (forall i :: 0 <= i < |rec| ==> upd[i] == if i == k then Pair(field, value) else rec[i])
            && (k == -1 ==> upd[|rec|] == Pair(field, value))
            && Distinct(upd)
  {
  }

  lemma SetFieldLookup(rec: Record, field: string, value: string, f: string)
    requires Distinct(rec)
    ensures var upd := AsMap(SetField(rec, field, value));
            && (f in upd <==> f == field || f in AsMap(rec))
            && (f in upd ==> upd[f] == if f == field then value else AsMap(rec)[f])
  {
    var upd := SetField(rec, field, value);
    SetFieldPositions(rec, field, value);
    Lookup(rec, f);
    Lookup(upd, f);
    var i, j := Position(rec, f), Position(upd, f);
    assert i >= 0 ==> upd[i].field == f;
    assert 0 <= j < |rec| ==> rec[j].field == f;
  }

  lemma SetFieldAsMap(rec: Record, field: string, value: string)
    requires Distinct(rec)
    ensures Distinct(SetField(rec, field, value))
    ensures AsMap(SetField(rec, field, value)) == AsMap(rec)[field := value]
  {
    SetFieldPositions(rec, field, value);
    var a, b := AsMap(SetField(rec, field, value)), AsMap(rec)[field := value];
    forall f
      ensures f in a <==> f in b
      ensures f in a ==> a[f] == b[f]
    {
      SetFieldLookup(rec, field, value, f);
    }
    assert a.Keys == b.Keys;
  }

  // ---------------------------------------------------------------- src/downloader/kv.ts

  /** The hash a flat array stands for, an absent last value read as "". */
  function ToMap(flat: seq<string>): map<string, string>
  {
    if flat == [] then map[]
    else if |flat| % 2 == 1 then ToMap(flat[..|flat| - 1])[flat[|flat| - 1] := ""]
    else ToMap(flat[..|flat| - 2])[flat[|flat| - 2] := flat[|flat| - 1]]
  }

  method ParseFlatRecord(flat: seq<string>) returns (out: map<string, string>)
    ensures out == ToMap(flat)
  {
    out := map[];
    var i := 0;
    while i < |flat|
      invariant 0 <= i <= |flat| + 1 && i % 2 == 0
      invariant out == ToMap(flat[..if i <= |flat| then i else |flat|])
    {
      out := out[flat[i] := if i + 1 < |flat| then flat[i + 1] else ""];
      if i + 1 < |flat| {
        assert flat[..i + 2][..|flat[..i + 2]| - 2] == flat[..i];
      } else {
        assert flat[..|flat|] == flat;
        assert flat[..|flat| - 1] == flat[..i];
      }
      i := i + 2;
    }
    assert flat[..|flat|] == flat;
  }

  /** Whatever order HGETALL lists a hash in, the parsed record is that hash. */
  lemma {:induction false} ToMapOfFlatten(rec: Record)
    ensures ToMap(Flatten(rec)) == AsMap(rec)
  {
    if rec != [] {
      ToMapOfFlatten(rec[..|rec| - 1]);
      var flat := Flatten(rec);
      assert flat[..|flat| - 2] == Flatten(rec[..|rec| - 1]);
    }
  }
}
