// The field types of the first generation (`src/field_types.rs`).  Its
// classification and readers are those of `SharedFieldTypes` with the
// generation `Legacy`; this module states where the two generations agree and
// where they part.

module LegacyFieldTypes {
  import opened Common
  import opened Values
  import opened SharedParsers
  import opened SharedFieldTypes
  import LegacyParsers

  /** A type whose stored strings both generations read alike: no tuple and no datetime in it.
      A nested model is kept as its raw string by both. */
  predicate StrAlike(t: FieldType)
  {
    match t
    case Tuple(_) => false
    case Datetime => false
    case Dict(v) => StrAlike(v)
    case List(i) => StrAlike(i)
    case _ => true
  }

  /** A type whose Redis replies both generations read alike: no datetime in it or in the types
      of its nested models, and no tuple inside a collection. */
  predicate RedisAlike(t: FieldType)
  {
    match t
    case Datetime => false
    case Nested(_, s, _, _) => forall i :: 0 <= i < |s.mapping| ==> RedisAlike(s.mapping[i].1)
    case Dict(v) => StrAlike(v)
    case List(i) => StrAlike(i)
    case Tuple(ts) => forall i :: 0 <= i < |ts| ==> StrAlike(ts[i])
    case _ => true
  }

  // ---------------------------------------------------------------------------
  // Where the generations agree
  // ---------------------------------------------------------------------------

  /** A stored string of a type without tuples and datetimes reads the same in both generations. */
  lemma {:induction false} StrReadsAlike(h: Host, data: string, t: FieldType)
    requires StrAlike(t)
    ensures StrToPy(h, Legacy, data, t) == StrToPy(h, Current, data, t)
    decreases t, 1
  {
    match t
    case Dict(v) => ParseDictStrAlike(h, data, v);
    case List(i) => ParseListStrAlike(h, data, i);
    case _ =>
  }

  lemma {:induction false} ParseDictStrAlike(h: Host, data: string, v: FieldType)
    requires StrAlike(v)
    ensures ParseDictStr(h, Legacy, data, v) == ParseDictStr(h, Current, data, v)
    decreases v, 3
  {
    DictItemsAlike(h, SplitItems(ExtractStrPortions(data, "{", "}", ',')), v);
  }

  lemma {:induction false} ParseListStrAlike(h: Host, data: string, i: FieldType)
    requires StrAlike(i)
    ensures ParseListStr(h, Legacy, data, i) == ParseListStr(h, Current, data, i)
    decreases i, 3
  {
    ListItemsAlike(h, ExtractStrPortions(data, "[", "]", ','), i);
  }

  lemma {:induction false} ParseTupleStrAlike(h: Host, data: string, ts: seq<FieldType>)
    requires forall i :: 0 <= i < |ts| ==> StrAlike(ts[i])
    ensures ParseTupleStr(h, Legacy, data, ts) == ParseTupleStr(h, Current, data, ts)
  {
    TupleItemsAlike(h, ExtractStrPortions(data, "(", ")", ','), ts);
  }

  lemma {:induction false} DictItemsAlike(h: Host, kvs: seq<seq<string>>, v: FieldType)
    requires StrAlike(v)
    ensures DictItems(h, Legacy, kvs, v) == DictItems(h, Current, kvs, v)
    decreases v, 2, |kvs|
  {
    if kvs != [] {
      var kv := kvs[|kvs| - 1];
      DictItemsAlike(h, kvs[..|kvs| - 1], v);
      if |kv| == 2 {
        StrReadsAlike(h, kv[1], v);
      }
      DictItemsStepAlike(h, kvs, v);
    }
  }

  /** One more `key:value` pair reads alike in both generations when the pairs before it and its
      value do. */
  lemma DictItemsStepAlike(h: Host, kvs: seq<seq<string>>, v: FieldType)
    requires kvs != []
    requires DictItems(h, Legacy, kvs[..|kvs| - 1], v) == DictItems(h, Current, kvs[..|kvs| - 1], v)
    requires |kvs[|kvs| - 1]| == 2 ==>
               StrToPy(h, Legacy, kvs[|kvs| - 1][1], v) == StrToPy(h, Current, kvs[|kvs| - 1][1], v)
    ensures DictItems(h, Legacy, kvs, v) == DictItems(h, Current, kvs, v)
  {
  }

  lemma {:induction false} ListItemsAlike(h: Host, items: seq<string>, t: FieldType)
    requires StrAlike(t)
    ensures ListItems(h, Legacy, items, t) == ListItems(h, Current, items, t)
    decreases t, 2, |items|
  {
    if items != [] {
      StrReadsAlike(h, items[0], t);
      ListItemsAlike(h, items[1..], t);
    }
  }

  lemma {:induction false} TupleItemsAlike(h: Host, items: seq<string>, ts: seq<FieldType>)
    requires forall i :: 0 <= i < |ts| ==> StrAlike(ts[i])
    ensures TupleItems(h, Legacy, items, ts) == TupleItems(h, Current, items, ts)
    decreases |ts|
  {
    if items != [] && ts != [] {
      StrReadsAlike(h, items[0], ts[0]);
      TupleItemsAlike(h, items[1..], ts[1..]);
    }
  }

  /** A reply of a type without datetimes (and without tuples inside collections) reads the same
      in both generations, nested models included. */
  lemma {:induction false} RedisReadsAlike(h: Host, t: FieldType, data: RValue)
    requires RedisAlike(t)
    ensures RedisToPy(h, Legacy, t, data) == RedisToPy(h, Current, t, data)
    decreases t, 1
  {
    if t.Nested? {
      if AsMapIter(data).Some? {
        NestedFieldsAlike(h, t.schema, AsMapIter(data).value, []);
      }
    } else if t.Dict? || t.List? || t.Tuple? {
      CollectionReplyAlike(h, t, data);
    }
  }

  /** A collection is stored as a string, which reads alike. */
  lemma CollectionReplyAlike(h: Host, t: FieldType, data: RValue)
    requires (t.Dict? || t.List? || t.Tuple?) && RedisAlike(t)
    ensures RedisToPy(h, Legacy, t, data) == RedisToPy(h, Current, t, data)
  {
    if RedisToString(data).Ok? {
      var s := RedisToString(data).value;
      match t
      case Dict(v) => ParseDictStrAlike(h, s, v);
      case List(i) => ParseListStrAlike(h, s, i);
      case Tuple(ts) => ParseTupleStrAlike(h, s, ts);
    }
  }

  lemma {:induction false} NestedFieldsAlike(h: Host, schema: Schema, pairs: seq<(RValue, RValue)>,
                                             acc: seq<(string, PyObj)>)
    requires forall i :: 0 <= i < |schema.mapping| ==> RedisAlike(schema.mapping[i].1)
    ensures NestedFields(h, Legacy, schema, pairs, acc) == NestedFields(h, Current, schema, pairs, acc)
    decreases schema, 0, |pairs|
  {
    if pairs != [] {
      var key := RedisToString(pairs[0].0);
      if key.Ok? {
        match FindIndex(schema.mapping, key.value)
        case None =>
        case Some(i) =>
          RedisReadsAlike(h, schema.mapping[i].1, pairs[0].1);
          var x := RedisToPy(h, Current, schema.mapping[i].1, pairs[0].1);
          if x.Ok? {
            NestedFieldsAlike(h, schema, pairs[1..], Insert(acc, key.value, x.value));
          }
      }
    }
  }

  // ---------------------------------------------------------------------------
  // Where they part
  // ---------------------------------------------------------------------------

  /** A stored datetime is read in the naive "YYYY-MM-DD HH:MM:SS.mmmmmm" format, from a string
      and from a reply alike. */
  lemma LegacyDatetimeIsNaive(h: Host, data: string)
    ensures var r := StrToPy(h, Legacy, data, Datetime);
            && (r.Ok? <==> h.parseNaiveDatetime(data).Some?)
            && (r.Ok? ==> r.value == h.datetimeFromTimestamp(h.parseNaiveDatetime(data).value))
            && (r.Err? ==> r.error == ValueError("error parsing " + data + " as 'YYYY-MM-DD HH:MM:SS.mmmmmm'"))
    ensures RedisToPy(h, Legacy, Datetime, Data(data)) == StrToPy(h, Legacy, data, Datetime)
  {
  }

  /** A nested model that was not registered fails classification with the first generation's
      KeyErrors. */
  lemma LegacyNestedKeyErrors(ref: string, reg: Registry, fuel: nat)
    requires reg.gen.Legacy? && LastSegment(ref, '/') !in reg.definitions
    ensures var name := LastSegment(ref, '/');
            && (name !in reg.primaryKeys ==>
                  NestedField(PyStr(ref), reg, fuel)
                  == Err(KeyErrorWith(name, "model name missing in primary key field map. Try to create the "
                                            + name + " collection first")))
            && (name in reg.primaryKeys && name !in reg.modelTypes ==>
                  NestedField(PyStr(ref), reg, fuel) == Err(KeyErrorWith(name, "model name missing in model type map")))
  {
    NestedClassification(ref, reg, fuel);
  }

  /** As written, a tuple read from a stored string is a Python list, while the same text read
      from a reply is a tuple of the same items. */
  lemma LegacyTupleReadsAsList(h: Host, data: string, ts: seq<FieldType>)
    ensures var fromStr := StrToPy(h, Legacy, data, Tuple(ts));
            var fromReply := RedisToPy(h, Legacy, Tuple(ts), Data(data));
            && (fromStr.Ok? <==> fromReply.Ok?)
            && (fromStr.Ok? ==> fromStr.value.PyList? && fromReply.value == PyTuple(fromStr.value.items))
  {
  }

  /** The current code base reads a stored tuple as a tuple, from a string and from a reply alike. */
  lemma CurrentTupleReadsAsTuple(h: Host, data: string, ts: seq<FieldType>)
    ensures var fromStr := StrToPy(h, Current, data, Tuple(ts));
            && fromStr == RedisToPy(h, Current, Tuple(ts), Data(data))
            && (fromStr.Ok? ==> fromStr.value.PyTuple?)
  {
  }
}
