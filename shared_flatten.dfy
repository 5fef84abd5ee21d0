// Flattening of one record into the flat hashes that are written to Redis:
// `prepare_record_to_insert`, the loop over the schema's fields that encodes
// every present value as a string and turns every nested model into a key
// reference and hashes of its own.

module SharedFlatten {
  import opened Common
  import opened Values
  import opened SharedUtils
  import opened SharedFieldTypes

  /** The key of one hash and its field/value pairs. */
  type HashRecord = (string, seq<(string, string)>)

  /** The object's fields as a `HashMap<String, Py<PyAny>>`: a dict with string keys
      as it is, anything else through its `dict()` method. */
  function ObjectFields(obj: PyObj): (r: Result<seq<(string, PyObj)>>)
    ensures r.Ok? <==> (obj.PyDict? && AsStrKeyed(obj.entries).Some?) || obj.PyInstance?
    ensures r.Err? ==> r.error == AttributeError("'" + TypeName(obj) + "' object has no attribute 'dict'")
  {
    match obj
    case PyDict(entries) =>
      (match AsStrKeyed(entries)
       case Some(m) => Ok(m)
       case None => Err(AttributeError("'" + TypeName(obj) + "' object has no attribute 'dict'")))
    case PyInstance(_, fields) => Ok(fields)
    case _ => Err(AttributeError("'" + TypeName(obj) + "' object has no attribute 'dict'"))
  }

  /** The string stored for a value of a field that is not nested. */
  function EncodeValue(t: FieldType, v: PyObj): (r: Result<string>)
    requires !t.Nested?
    ensures t.Datetime? ==>
              (if v.PyDatetime? then r == Ok(v.utcText)
               else r == Err(AttributeError("'" + TypeName(v) + "' object has no attribute 'astimezone'")))
    ensures t.Bool? ==> r == Ok(Lower(PyStrOf(v)))
    ensures !t.Datetime? && !t.Bool? ==> r == Ok(PyStrOf(v))
  {
    match t
    case Datetime =>
      if v.PyDatetime? then Ok(v.utcText)
      else Err(AttributeError("'" + TypeName(v) + "' object has no attribute 'astimezone'"))
    case Bool => Ok(Lower(PyStrOf(v)))
    case _ => Ok(PyStrOf(v))
  }

  /** The key of the record's own hash: the explicit id, or the `str()` of its primary key field. */
  function PrimaryKey(h: Host, collection: string, fields: seq<(string, PyObj)>, pkField: string,
                      id: Option<string>): (r: Result<string>)
    ensures id.Some? ==> r == Ok(GenerateHashKey(collection, id.value))
    ensures id.None? && HasKey(fields, pkField) ==>
              r == Ok(GenerateHashKey(collection, PyStrOf(Lookup(fields, pkField).value)))
    ensures id.None? && !HasKey(fields, pkField) ==>
              r == Err(KeyErrorWith(pkField, "primary key field missing in " + h.debugObjects(fields)))
  {
    match id
    case Some(i) => Ok(GenerateHashKey(collection, i))
    case None =>
      match Lookup(fields, pkField)
      case Some(pk) => Ok(GenerateHashKey(collection, PyStrOf(pk)))
      case None => Err(KeyErrorWith(pkField, "primary key field missing in " + h.debugObjects(fields)))
  }

  /** The record as the hashes that store it: those of its nested records, in schema
      order, then its own, keyed by its primary key. */
  function Flatten(h: Host, collection: string, schema: Schema, obj: PyObj, pkField: string,
                   id: Option<string>): (r: Result<seq<HashRecord>>)
    ensures r.Ok? ==> ObjectFields(obj).Ok?
    ensures r.Ok? ==>
              |r.value| >= 1
              && PrimaryKey(h, collection, ObjectFields(obj).value, pkField, id) == Ok(r.value[|r.value| - 1].0)
    decreases schema, 1
  {
    var fields :- ObjectFields(obj);
    var acc :- FlattenFields(h, schema, fields, |schema.mapping|);
    var key :- PrimaryKey(h, collection, fields, pkField, id);
    Ok(acc.0 + [(key, acc.1)])
  }

  /** The nested hashes and the record's own pairs after the first `i` fields of the schema. */
  function FlattenFields(h: Host, schema: Schema, fields: seq<(string, PyObj)>, i: nat)
    : (r: Result<(seq<HashRecord>, seq<(string, string)>)>)
    requires i <= |schema.mapping|
    ensures r.Ok? ==> PairsInvariant(schema.mapping, fields, i, r.value.1)
    decreases schema, 0, i
  {
    if i == 0 then Ok(([], []))
    else
      match FlattenFields(h, schema, fields, i - 1)
      case Err(e) => Err(e)
      case Ok(acc) =>
        var r := FlattenField(h, schema, fields, i - 1, acc);
        if r.Ok? then PairsStep(schema.mapping, fields, i - 1, acc.1, r.value.1); r else r
  }

  /** Field `j` of the schema, added to what the fields before it gave. */
  function FlattenField(h: Host, schema: Schema, fields: seq<(string, PyObj)>, j: nat,
                        acc: (seq<HashRecord>, seq<(string, string)>))
    : (r: Result<(seq<HashRecord>, seq<(string, string)>)>)
    requires j < |schema.mapping|
    ensures Lookup(fields, schema.mapping[j].0).None? ==> r == Ok(acc)
    ensures r.Ok? ==> |acc.0| <= |r.value.0| && r.value.0[..|acc.0|] == acc.0
    ensures r.Ok? && Lookup(fields, schema.mapping[j].0).Some? ==>
              |r.value.1| > 0 && r.value.1 == acc.1 + [(schema.mapping[j].0, r.value.1[|r.value.1| - 1].1)]
              && StoredValue(Lookup(fields, schema.mapping[j].0).value, schema.mapping[j].1, r.value.1[|r.value.1| - 1].1)
    decreases schema, 0, j, 0
  {
    var (field, t) := schema.mapping[j];
    match Lookup(fields, field)
    case None => Ok(acc)
    case Some(v) =>
      if t.Nested? then
        var data :- Flatten(h, t.modelName, t.schema, v, t.primaryKeyField, None);
        Ok((acc.0 + data, acc.1 + [(field, data[|data| - 1].0)]))
      else
        var s :- EncodeValue(t, v);
        Ok((acc.0, acc.1 + [(field, s)]))
  }

  /** A field that fails fails the whole record, with its own error. */
  lemma {:induction false} FlattenFieldsErrorPersists(h: Host, schema: Schema, fields: seq<(string, PyObj)>,
                                                     i: nat, j: nat)
    requires i <= j <= |schema.mapping|
    requires FlattenFields(h, schema, fields, i).Err?
    ensures FlattenFields(h, schema, fields, j) == FlattenFields(h, schema, fields, i)
    decreases j - i
  {
    if i < j {
      FlattenFieldsErrorPersists(h, schema, fields, i, j - 1);
    }
  }

  /** `prepare_record_to_insert`. */
  method PrepareRecordToInsert(h: Host, collection: string, schema: Schema, obj: PyObj, pkField: string,
                               id: Option<string>) returns (r: Result<seq<HashRecord>>)
    ensures r == Flatten(h, collection, schema, obj, pkField, id)
    decreases schema
  {
    var o := ObjectFields(obj);
    if o.Err? {
      return Err(o.error);
    }
    var fields := o.value;
    var results: seq<HashRecord> := [];
    var parent: seq<(string, string)> := [];
    for i := 0 to |schema.mapping|
      invariant FlattenFields(h, schema, fields, i) == Ok((results, parent))
    {
      var next := AddField(h, schema, fields, i, (results, parent));
      if next.Err? {
        FlattenFieldsErrorPersists(h, schema, fields, i + 1, |schema.mapping|);
        return Err(next.error);
      }
      results, parent := next.value.0, next.value.1;
    }
    var key := PrimaryKey(h, collection, fields, pkField, id);
    if key.Err? {
      return Err(key.error);
    }
    r := Ok(results + [(key.value, parent)]);
  }

  /** One turn of the loop over the schema: field `i` of the object, when it has it, flattened
      (a nested record) or encoded, and added after the hashes and pairs gathered so far. */
  method AddField(h: Host, schema: Schema, fields: seq<(string, PyObj)>, i: nat,
                  acc: (seq<HashRecord>, seq<(string, string)>))
    returns (r: Result<(seq<HashRecord>, seq<(string, string)>)>)
    requires i < |schema.mapping|
    ensures r == FlattenField(h, schema, fields, i, acc)
    decreases schema, 0
  {
    var (field, t) := schema.mapping[i];
    var found := Lookup(fields, field);
    if found.None? {
      return Ok(acc);
    }
    var v := found.value;
    if t.Nested? {
      assert t.schema < schema.mapping[i].1;
      var data := PrepareRecordToInsert(h, t.modelName, t.schema, v, t.primaryKeyField, None);
      if data.Err? {
        return Err(data.error);
      }
      return Ok((acc.0 + data.value, acc.1 + [(field, data.value[|data.value| - 1].0)]));
    }
    var s := EncodeValue(t, v);
    if s.Err? {
      return Err(s.error);
    }
    return Ok((acc.0, acc.1 + [(field, s.value)]));
  }

  // ---------------------------------------------------------------------------
  // What the record's own hash holds
  // ---------------------------------------------------------------------------

  /** `s` is what the record's own hash holds for value `v` of a field of type `t`: the key of
      the nested record's hash when the field is nested, the encoded value otherwise. */
  predicate StoredValue(v: PyObj, t: FieldType, s: string)
  {
    if t.Nested? then
      ObjectFields(v).Ok? && HasKey(ObjectFields(v).value, t.primaryKeyField)
      && s == GenerateHashKey(t.modelName, PyStrOf(Lookup(ObjectFields(v).value, t.primaryKeyField).value))
    else EncodeValue(t, v) == Ok(s)
  }

  /** How declared field `f` of type `t` appears among the record's own pairs: not at all when
      the object lacks it, and with its stored value otherwise. */
  predicate FieldStored(fields: seq<(string, PyObj)>, f: string, t: FieldType, parent: seq<(string, string)>)
  {
    match Lookup(fields, f)
    case None => !HasKey(parent, f)
    case Some(v) => Lookup(parent, f).Some? && StoredValue(v, t, Lookup(parent, f).value)
  }

  /** What the record's own pairs satisfy after the first `i` fields of the schema. */
  ghost predicate PairsInvariant(mapping: seq<(string, FieldType)>, fields: seq<(string, PyObj)>, i: nat,
                           parent: seq<(string, string)>)
    requires i <= |mapping|
  {
    && (forall f :: HasKey(parent, f) <==> HasKey(mapping[..i], f) && HasKey(fields, f))
    && (UniqueKeys(mapping) ==>
          UniqueKeys(parent) && forall j :: 0 <= j < i ==> FieldStored(fields, mapping[j].0, mapping[j].1, parent))
  }

  /** Adding field `i` keeps the invariant. */
  lemma PairsStep(mapping: seq<(string, FieldType)>, fields: seq<(string, PyObj)>, i: nat,
                  before: seq<(string, string)>, parent: seq<(string, string)>)
    requires i < |mapping| && PairsInvariant(mapping, fields, i, before)
    requires Lookup(fields, mapping[i].0).None? ==> parent == before
    requires Lookup(fields, mapping[i].0).Some? ==>
               |parent| > 0 && parent == before + [(mapping[i].0, parent[|parent| - 1].1)]
               && StoredValue(Lookup(fields, mapping[i].0).value, mapping[i].1, parent[|parent| - 1].1)
    ensures PairsInvariant(mapping, fields, i + 1, parent)
  {
    var (f, t) := mapping[i];
    HasKeyPrefix(mapping, i);
    if UniqueKeys(mapping) {
      NotInPrefix(mapping, i);
    }
    if Lookup(fields, f).Some? {
      var s := parent[|parent| - 1].1;
      AppendEntry(before, f, s);
      if UniqueKeys(mapping) {
        forall j | 0 <= j < i
          ensures FieldStored(fields, mapping[j].0, mapping[j].1, parent)
        {
          UniqueKeysDistinct(mapping, j, i);
        }
        assert Lookup(parent, f) == Some(s);
      }
    }
  }

  /** In a map without repeated keys, an entry's key is not among those before it. */
  lemma NotInPrefix<K(!new), V>(a: seq<(K, V)>, i: nat)
    requires UniqueKeys(a) && i < |a|
    ensures !HasKey(a[..i], a[i].0)
  {
    HasKeyIndex(a[..i], a[i].0);
    forall j | 0 <= j < i ensures a[..i][j].0 != a[i].0 {
      UniqueKeysDistinct(a, j, i);
    }
  }

  /** The record's own hash holds exactly its declared fields that the object has, each as
      `FieldStored` says. */
  lemma StoredRecord(h: Host, collection: string, schema: Schema, obj: PyObj, pkField: string, id: Option<string>)
    requires Flatten(h, collection, schema, obj, pkField, id).Ok?
    ensures var r := Flatten(h, collection, schema, obj, pkField, id).value;
            var fields := ObjectFields(obj).value;
            var parent := r[|r| - 1].1;
            (forall f :: HasKey(parent, f) <==> HasKey(schema.mapping, f) && HasKey(fields, f))
            && (UniqueKeys(schema.mapping) ==>
                  UniqueKeys(parent)
                  && forall j :: 0 <= j < |schema.mapping| ==>
                       FieldStored(fields, schema.mapping[j].0, schema.mapping[j].1, parent))
  {
    var fields := ObjectFields(obj).value;
    assert schema.mapping[..|schema.mapping|] == schema.mapping;
  }

  // ---------------------------------------------------------------------------
  // How many hashes a record becomes
  // ---------------------------------------------------------------------------

  /** The number of records in the tree a record forms with the nested records it holds. */
  function EntityCount(schema: Schema, fields: seq<(string, PyObj)>): nat
    decreases schema, 1
  {
    1 + NestedEntityCount(schema, fields, |schema.mapping|)
  }

  /** The records nested under the first `i` fields of the schema. */
  function NestedEntityCount(schema: Schema, fields: seq<(string, PyObj)>, i: nat): nat
    requires i <= |schema.mapping|
    decreases schema, 0, i
  {
    if i == 0 then 0
    else
      var (f, t) := schema.mapping[i - 1];
      NestedEntityCount(schema, fields, i - 1)
      + match Lookup(fields, f)
        case Some(v) =>
          if t.Nested? && ObjectFields(v).Ok? then EntityCount(t.schema, ObjectFields(v).value) else 0
        case None => 0
  }

  /** A record becomes one hash per record in its tree. */
  lemma {:induction false} FlattenCount(h: Host, collection: string, schema: Schema, obj: PyObj, pkField: string,
                                        id: Option<string>)
    requires Flatten(h, collection, schema, obj, pkField, id).Ok?
    ensures |Flatten(h, collection, schema, obj, pkField, id).value| == EntityCount(schema, ObjectFields(obj).value)
    decreases schema, 1
  {
    FlattenFieldsCount(h, schema, ObjectFields(obj).value, |schema.mapping|);
  }

  lemma {:induction false} FlattenFieldsCount(h: Host, schema: Schema, fields: seq<(string, PyObj)>, i: nat)
    requires i <= |schema.mapping| && FlattenFields(h, schema, fields, i).Ok?
    ensures |FlattenFields(h, schema, fields, i).value.0| == NestedEntityCount(schema, fields, i)
    decreases schema, 0, i
  {
    if i > 0 {
      FlattenFieldsCount(h, schema, fields, i - 1);
      var (f, t) := schema.mapping[i - 1];
      match Lookup(fields, f)
      case None =>
      case Some(v) =>
        if t.Nested? {
          FlattenCount(h, t.modelName, t.schema, v, t.primaryKeyField, None);
        }
    }
  }

  /** A record with no nested field in its schema becomes a single hash. */
  lemma FlatRecordIsOneHash(h: Host, collection: string, schema: Schema, obj: PyObj, pkField: string,
                            id: Option<string>)
    requires forall i :: 0 <= i < |schema.mapping| ==> !schema.mapping[i].1.Nested?
    requires Flatten(h, collection, schema, obj, pkField, id).Ok?
    ensures |Flatten(h, collection, schema, obj, pkField, id).value| == 1
  {
    var fields := ObjectFields(obj).value;
    FlattenCount(h, collection, schema, obj, pkField, id);
    NoNestedCount(schema, fields, |schema.mapping|);
  }

  lemma {:induction false} NoNestedCount(schema: Schema, fields: seq<(string, PyObj)>, i: nat)
    requires i <= |schema.mapping|
    requires forall j :: 0 <= j < |schema.mapping| ==> !schema.mapping[j].1.Nested?
    ensures NestedEntityCount(schema, fields, i) == 0
  {
    if i > 0 {
      NoNestedCount(schema, fields, i - 1);
    }
  }

  // ---------------------------------------------------------------------------
  // Stored values read back
  // ---------------------------------------------------------------------------

  /** A string, a 64-bit integer or a bool, stored by the writer and read back by the reader
      of its field type, as a stored string or as a Redis reply, is the value it was. */
  lemma {:induction false} StoredScalarReadsBack(h: Host, g: Generation, t: FieldType, v: PyObj)
    requires (t.Str? && v.PyStr?) || (t.Int? && v.PyInt? && InI64(v.i)) || (t.Bool? && v.PyBool?)
    ensures EncodeValue(t, v).Ok?
    ensures StrToPy(h, g, EncodeValue(t, v).value, t) == Ok(v)
    ensures RedisToPy(h, g, t, Data(EncodeValue(t, v).value)) == Ok(v)
  {
    var s := EncodeValue(t, v).value;
    if t.Int? {
      IntRoundTrip(v.i);
      StoredIntReadsBack(h, g, v.i);
    } else if t.Str? {
      StoredStrReadsBack(h, g, v.s);
    } else {
      StoredBoolReadsBack(h, g, v.b);
    }
    StoredReplyReadsBack(h, g, t, s, v);
  }

  lemma {:induction false} StoredIntReadsBack(h: Host, g: Generation, n: int)
    requires InI64(n) && ParseI64(IntToString(n)) == Some(n)
    ensures StrToPy(h, g, EncodeValue(FieldType.Int, PyInt(n)).value, FieldType.Int) == Ok(PyInt(n))
  { }

  lemma {:induction false} StoredStrReadsBack(h: Host, g: Generation, s: string)
    ensures StrToPy(h, g, EncodeValue(FieldType.Str, PyStr(s)).value, FieldType.Str) == Ok(PyStr(s))
  { }

  lemma {:induction false} StoredBoolReadsBack(h: Host, g: Generation, b: bool)
    ensures StrToPy(h, g, EncodeValue(FieldType.Bool, PyBool(b)).value, FieldType.Bool) == Ok(PyBool(b))
  {
    var shown := PyStrOf(PyBool(b));
    var text: string := if b then "true" else "false";
    assert shown == if b then "True" else "False";
    assert Lower(shown) == text by {
      assert |Lower(shown)| == |text|;
      forall i | 0 <= i < |text| ensures Lower(shown)[i] == text[i] { }
    }
    assert EncodeValue(FieldType.Bool, PyBool(b)).value == text;
  }

  /** A stored string that reads back as `v` also does as a Redis reply. */
  lemma {:induction false} StoredReplyReadsBack(h: Host, g: Generation, t: FieldType, s: string, v: PyObj)
    requires t.Str? || t.Int? || t.Bool?
    requires StrToPy(h, g, s, t) == Ok(v)
    ensures RedisToPy(h, g, t, Data(s)) == Ok(v)
  { }
}
