// The field types: the schema a model class is stored under, its
// classification from pydantic's JSON Schema, and the conversions of stored
// strings and Redis replies back into Python values.  The current code base
// (`src/shared/field_types.rs`) and the first generation (`src/field_types.rs`)
// differ in three places only, and `Generation` selects between them: the
// texts of the KeyErrors of a nested model that was not registered, the
// datetime format, and the Python type a stored tuple is read back as.

module SharedFieldTypes {
  import opened Common
  import opened Values
  import opened SharedParsers
  import opened SharedUtils
  import LegacyParsers

  /** Which code base: the current one, or the first generation. */
  datatype Generation = Current | Legacy

  /** The type of one model field, as far as storage cares. */
  datatype FieldType =
    | Nested(modelName: string, schema: Schema, primaryKeyField: string, modelType: string)
    | Dict(value: FieldType)
    | List(items: FieldType)
    | Tuple(itemTypes: seq<FieldType>)
    | Str
    | Int
    | Float
    | Bool
    | Datetime
    | Date
    | NoneType

  /** Field name to field type; a hash map, so at most one entry per name. */
  datatype Schema = Schema(mapping: seq<(string, FieldType)>)

  /** What a collection knows about its model class (`CollectionMeta`). */
  datatype CollectionMeta = CollectionMeta(
    schema: Schema, modelType: string, primaryKeyField: string, nestedFields: seq<string>)

  /** `Schema::get_type`: a plain lookup. */
  function GetType(s: Schema, field: string): (r: Option<FieldType>)
    ensures r.None? <==> !HasKey(s.mapping, field)
  {
    Lookup(s.mapping, field)
  }

  /** `Schema::empty`. */
  function EmptySchema(): (r: Schema)
    ensures forall f :: GetType(r, f).None?
  {
    Schema([])
  }

  // ---------------------------------------------------------------------------
  // Classification of JSON Schema properties
  // ---------------------------------------------------------------------------

  /** The maps classification consults: the `definitions` of the model's JSON Schema, and the
      primary-key field and model class registered per model name. */
  datatype Registry = Registry(
    gen: Generation, definitions: map<string, PyObj>, primaryKeys: map<string, string>, modelTypes: map<string, string>)

  /** `extract_from_py_schema`: a property with `type` is classified by it, one with `$ref` is a
      nested model, any other is a string.  `fuel` bounds the depth of `$ref` definitions
      followed; running out of it is a RecursionError. */
  function ExtractFromPySchema(prop: PyObj, reg: Registry, fuel: nat): (r: Result<FieldType>)
    ensures r.Ok? ==> Classified(r.value)
    decreases fuel, prop, 3
  {
    if !prop.PyDict? then Err(DowncastError(prop, "PyDict"))
    else
      var entries := prop.entries;
      match DictIndex(entries, "type")
      case Some(i) => NonNestedField(entries, entries[i].1, reg, fuel)
      case None =>
        match DictIndex(entries, "$ref")
        case Some(j) => NestedField(entries[j].1, reg, fuel)
        case None => Ok(Str)
  }

  /** The JSON Schema `type` keywords. */
  function NonNestedField(entries: seq<(PyObj, PyObj)>, dataType: PyObj, reg: Registry, fuel: nat): (r: Result<FieldType>)
    ensures r.Ok? ==> Classified(r.value)
    decreases fuel, entries, 2
  {
    if !dataType.PyStr? then Err(DowncastError(dataType, "PyString"))
    else match dataType.s
      case "null" => Ok(NoneType)
      case "boolean" => Ok(Bool)
      case "string" => Ok(StrOrDatetimeField(entries))
      case "number" => Ok(Float)
      case "integer" => Ok(FieldType.Int)
      case "object" => Ok(Dict(Str))
      case "array" => ArrayOrTupleField(entries, reg, fuel)
      case _ => Ok(Str)
  }

  /** A string property: its `format` (by `str()`) decides between datetime, date and plain str. */
  function StrOrDatetimeField(entries: seq<(PyObj, PyObj)>): (r: FieldType)
    ensures r == Str || r == Datetime || r == Date
  {
    match DictIndex(entries, "format")
    case None => Str
    case Some(i) =>
      var format := PyStrOf(entries[i].1);
      if format == "date-time" then Datetime else if format == "date" then Date else Str
  }

  /** An array property: a list of item schemas is a tuple, a single item schema a list of that
      type, and no `items` a list of strings. */
  function ArrayOrTupleField(entries: seq<(PyObj, PyObj)>, reg: Registry, fuel: nat): (r: Result<FieldType>)
    ensures r.Ok? ==> Classified(r.value)
    decreases fuel, entries, 1
  {
    match DictIndex(entries, "items")
    case None => Ok(List(Str))
    case Some(i) => ItemsField(entries[i], reg, fuel)
  }

  function ItemsField(e: (PyObj, PyObj), reg: Registry, fuel: nat): (r: Result<FieldType>)
    ensures r.Ok? ==> Classified(r.value)
    decreases fuel, e, 0
  {
    if e.1.PyList? then
      (match TupleItemTypes(e.1.items, reg, fuel)
       case Err(err) => Err(err)
       case Ok(ts) => Ok(Tuple(ts)))
    else
      match ExtractFromPySchema(e.1, reg, fuel)
      case Err(err) => Err(err)
      case Ok(t) => Ok(List(t))
  }

  /** One classified type per item schema, in order; the first failure fails them all. */
  function TupleItemTypes(items: seq<PyObj>, reg: Registry, fuel: nat): (r: Result<seq<FieldType>>)
    ensures r.Ok? ==> |r.value| == |items| && forall i :: 0 <= i < |items| ==> Classified(r.value[i])
    decreases fuel, items, 0
  {
    if items == [] then Ok([])
    else
      match ExtractFromPySchema(items[0], reg, fuel)
      case Err(err) => Err(err)
      case Ok(t) =>
        match TupleItemTypes(items[1..], reg, fuel)
        case Err(err) => Err(err)
        case Ok(ts) =>
          var r := [t] + ts;
          assert forall i :: 1 <= i < |items| ==> r[i] == ts[i - 1];
          Ok(r)
  }

  /** A `$ref` property: the model named by the last `/`-segment of the reference, with the
      schema of its definition (none when it is not defined, or defines no `properties`), and
      the primary key and class registered for it. */
  function NestedField(schemaRef: PyObj, reg: Registry, fuel: nat): (r: Result<FieldType>)
    ensures r.Ok? ==> Classified(r.value)
    ensures r.Ok? ==> schemaRef.PyStr? && r.value.Nested? && r.value.modelName == LastSegment(schemaRef.s, '/')
    decreases fuel, schemaRef, 1
  {
    if !schemaRef.PyStr? then Err(DowncastError(schemaRef, "PyString"))
    else
      var modelName := LastSegment(schemaRef.s, '/');
      var schema :- NestedSchema(schemaRef, reg, fuel);
      NestedModel(modelName, schema, reg)
  }

  /** The schema of a nested model: none when it is not defined or defines no `properties`. */
  function NestedSchema(schemaRef: PyObj, reg: Registry, fuel: nat): (r: Result<Schema>)
    requires schemaRef.PyStr?
    ensures r.Ok? ==> ClassifiedSchema(r.value)
    ensures LastSegment(schemaRef.s, '/') !in reg.definitions ==> r == Ok(EmptySchema())
    decreases fuel, schemaRef, 0
  {
    var modelName := LastSegment(schemaRef.s, '/');
    var props := DefinitionProperties(reg, modelName);
    if props.None? then Ok(EmptySchema())
    else if fuel == 0 then Err(RecursionError)
    else FromPyAny(props.value, reg, fuel - 1)
  }

  /** The KeyError of a nested model that has no registered primary key field. */
  function MissingPrimaryKey(g: Generation, modelName: string): Error
  {
    match g
    case Current => KeyErrorWith(modelName, "[primary keys] Try to create the model collection first")
    case Legacy => KeyErrorWith(modelName, "model name missing in primary key field map. Try to create the "
                                           + modelName + " collection first")
  }

  /** The KeyError of a nested model that has no registered class. */
  function MissingModelType(g: Generation, modelName: string): Error
  {
    match g
    case Current => KeyErrorWith(modelName, "[model types] Try to create the model collection first")
    case Legacy => KeyErrorWith(modelName, "model name missing in model type map")
  }

  /** A nested model with its registered primary key field and class. */
  function NestedModel(modelName: string, schema: Schema, reg: Registry): (r: Result<FieldType>)
    ensures r.Ok? <==> modelName in reg.primaryKeys && modelName in reg.modelTypes
    ensures r.Ok? ==> r.value == Nested(modelName, schema, reg.primaryKeys[modelName], reg.modelTypes[modelName])
    ensures modelName !in reg.primaryKeys ==> r == Err(MissingPrimaryKey(reg.gen, modelName))
    ensures modelName in reg.primaryKeys && modelName !in reg.modelTypes ==> r == Err(MissingModelType(reg.gen, modelName))
  {
    if modelName !in reg.primaryKeys then Err(MissingPrimaryKey(reg.gen, modelName))
    else if modelName !in reg.modelTypes then Err(MissingModelType(reg.gen, modelName))
    else Ok(Nested(modelName, schema, reg.primaryKeys[modelName], reg.modelTypes[modelName]))
  }

  /** The `properties` of the definition of `modelName`, if it is defined as a dict that has them. */
  function DefinitionProperties(reg: Registry, modelName: string): (r: Option<PyObj>)
    ensures modelName !in reg.definitions ==> r.None?
  {
    if modelName !in reg.definitions then None
    else
      var v := reg.definitions[modelName];
      if !v.PyDict? then None
      else match DictIndex(v.entries, "properties")
        case None => None
        case Some(i) => Some(v.entries[i].1)
  }

  /** `Schema::from_py_any`: one mapping entry per property; any property that fails
      classification fails the whole schema. */
  function FromPyAny(props: PyObj, reg: Registry, fuel: nat): (r: Result<Schema>)
    ensures r.Ok? ==> ClassifiedSchema(r.value)
    ensures r.Ok? ==> props.PyDict? && forall k :: HasKey(r.value.mapping, k) <==> HasKey(props.entries, PyStr(k))
    decreases fuel, props, 4
  {
    if !props.PyDict? then Err(DowncastError(props, "PyDict"))
    else
      match FromEntries(props.entries, reg, fuel)
      case Err(err) => Err(err)
      case Ok(m) => Ok(Schema(m))
  }

  function FromEntries(entries: seq<(PyObj, PyObj)>, reg: Registry, fuel: nat): (r: Result<seq<(string, FieldType)>>)
    ensures r.Ok? ==> forall i :: 0 <= i < |r.value| ==> Classified(r.value[i].1)
    ensures r.Ok? ==> forall k :: HasKey(r.value, k) <==> HasKey(entries, PyStr(k))
    decreases fuel, entries, 0
  {
    if entries == [] then Ok([])
    else
      match FromEntry(entries[0], reg, fuel)
      case Err(err) => Err(err)
      case Ok(e) =>
        match FromEntries(entries[1..], reg, fuel)
        case Err(err) => Err(err)
        case Ok(rest) =>
          var r := [e] + rest;
          assert r[1..] == rest;
          assert forall i :: 1 <= i < |r| ==> r[i] == rest[i - 1];
          Ok(r)
  }

  function FromEntry(e: (PyObj, PyObj), reg: Registry, fuel: nat): (r: Result<(string, FieldType)>)
    ensures r.Ok? ==> e.0 == PyStr(r.value.0) && Classified(r.value.1)
    decreases fuel, e, 0
  {
    if !e.0.PyStr? then Err(DowncastError(e.0, "PyString"))
    else
      match ExtractFromPySchema(e.1, reg, fuel)
      case Err(err) => Err(err)
      case Ok(t) => Ok((e.0.s, t))
  }

  /** The types classification produces: a dict always holds strings. */
  predicate Classified(t: FieldType)
  {
    match t
    case Nested(_, s, _, _) => ClassifiedSchema(s)
    case Dict(v) => v == Str
    case List(i) => Classified(i)
    case Tuple(ts) => forall i :: 0 <= i < |ts| ==> Classified(ts[i])
    case _ => true
  }

  predicate ClassifiedSchema(s: Schema)
  {
    forall i :: 0 <= i < |s.mapping| ==> Classified(s.mapping[i].1)
  }

  // ---- the inverse: the JSON Schema pydantic generates for a field type ----

  /** A type with no nested model in it, as classification produces it. */
  predicate Plain(t: FieldType)
  {
    match t
    case Nested(_, _, _, _) => false
    case Dict(v) => v == Str
    case List(i) => Plain(i)
    case Tuple(ts) => forall i :: 0 <= i < |ts| ==> Plain(ts[i])
    case _ => true
  }

  function TypeProp(name: string): (PyObj, PyObj) { (PyStr("type"), PyStr(name)) }

  /** The property schema of a plain type. */
  function ToJsonSchema(t: FieldType): (r: PyObj)
    requires Plain(t)
    ensures r.PyDict? && DictIndex(r.entries, "type") == Some(0)
  {
    match t
    case NoneType => PyDict([TypeProp("null")])
    case Bool => PyDict([TypeProp("boolean")])
    case Str => PyDict([TypeProp("string")])
    case Datetime => PyDict([TypeProp("string"), (PyStr("format"), PyStr("date-time"))])
    case Date => PyDict([TypeProp("string"), (PyStr("format"), PyStr("date"))])
    case Float => PyDict([TypeProp("number")])
    case Int => PyDict([TypeProp("integer")])
    case Dict(_) => PyDict([TypeProp("object")])
    case List(i) => PyDict([TypeProp("array"), (PyStr("items"), ToJsonSchema(i))])
    case Tuple(ts) => PyDict([TypeProp("array"), (PyStr("items"), PyList(JsonSchemas(ts)))])
  }

  function JsonSchemas(ts: seq<FieldType>): (r: seq<PyObj>)
    requires forall i :: 0 <= i < |ts| ==> Plain(ts[i])
    ensures |r| == |ts|
  {
    if ts == [] then [] else [ToJsonSchema(ts[0])] + JsonSchemas(ts[1..])
  }

  /** Classification recovers every plain type from its JSON Schema, whatever the registry. */
  lemma {:induction false} ClassifyJsonSchema(t: FieldType, reg: Registry, fuel: nat)
    requires Plain(t)
    ensures ExtractFromPySchema(ToJsonSchema(t), reg, fuel) == Ok(t)
  {
    match t
    case List(i) =>
      ClassifyJsonSchema(i, reg, fuel);
      ClassifyListSchema(i, reg, fuel);
    case Tuple(ts) =>
      ClassifyJsonSchemas(ts, reg, fuel);
      ClassifyTupleSchema(ts, reg, fuel);
    case _ =>
      ClassifyScalarSchema(t, reg, fuel);
  }

  lemma {:induction false} ClassifyListSchema(i: FieldType, reg: Registry, fuel: nat)
    requires Plain(i) && ExtractFromPySchema(ToJsonSchema(i), reg, fuel) == Ok(i)
    ensures ExtractFromPySchema(ToJsonSchema(List(i)), reg, fuel) == Ok(List(i))
  {
    var entries := ToJsonSchema(List(i)).entries;
    assert DictIndex(entries, "items") == Some(1);
    assert !ToJsonSchema(i).PyList?;
    assert ItemsField(entries[1], reg, fuel) == Ok(List(i));
    assert ArrayOrTupleField(entries, reg, fuel) == Ok(List(i));
  }

  lemma {:induction false} ClassifyTupleSchema(ts: seq<FieldType>, reg: Registry, fuel: nat)
    requires Plain(Tuple(ts)) && TupleItemTypes(JsonSchemas(ts), reg, fuel) == Ok(ts)
    ensures ExtractFromPySchema(ToJsonSchema(Tuple(ts)), reg, fuel) == Ok(Tuple(ts))
  {
    var entries := ToJsonSchema(Tuple(ts)).entries;
    assert DictIndex(entries, "items") == Some(1);
    assert entries[1].1 == PyList(JsonSchemas(ts));
    assert ItemsField(entries[1], reg, fuel) == Ok(Tuple(ts));
    assert ArrayOrTupleField(entries, reg, fuel) == Ok(Tuple(ts));
  }

  lemma {:induction false} ClassifyScalarSchema(t: FieldType, reg: Registry, fuel: nat)
    requires Plain(t) && !t.List? && !t.Tuple?
    ensures ExtractFromPySchema(ToJsonSchema(t), reg, fuel) == Ok(t)
  {
    var entries := ToJsonSchema(t).entries;
    match t
    case Datetime =>
      assert DictIndex(entries, "format") == Some(1);
    case Date =>
      assert DictIndex(entries, "format") == Some(1);
    case Str =>
      assert DictIndex(entries, "format") == None;
    case _ =>
  }

  lemma {:induction false} ClassifyJsonSchemas(ts: seq<FieldType>, reg: Registry, fuel: nat)
    requires forall i :: 0 <= i < |ts| ==> Plain(ts[i])
    ensures TupleItemTypes(JsonSchemas(ts), reg, fuel) == Ok(ts)
  {
    if ts != [] {
      ClassifyJsonSchema(ts[0], reg, fuel);
      ClassifyJsonSchemas(ts[1..], reg, fuel);
      TupleItemTypesCons(JsonSchemas(ts), reg, fuel, ts[0], ts[1..]);
      assert [ts[0]] + ts[1..] == ts;
    }
  }

  lemma {:induction false} TupleItemTypesCons(items: seq<PyObj>, reg: Registry, fuel: nat, t: FieldType, ts: seq<FieldType>)
    requires items != [] && ExtractFromPySchema(items[0], reg, fuel) == Ok(t)
    requires TupleItemTypes(items[1..], reg, fuel) == Ok(ts)
    ensures TupleItemTypes(items, reg, fuel) == Ok([t] + ts)
  { }

  /** Unknown `type` names, and properties with neither `type` nor `$ref`, are strings. */
  lemma FallbackToStr(entries: seq<(PyObj, PyObj)>, reg: Registry, fuel: nat)
    ensures (forall i :: 0 <= i < |entries| ==> entries[i].0 != PyStr("type") && entries[i].0 != PyStr("$ref"))
            ==> ExtractFromPySchema(PyDict(entries), reg, fuel) == Ok(Str)
    ensures forall name ::
              (DictIndex(entries, "type").Some? && entries[DictIndex(entries, "type").value].1 == PyStr(name)
               && name !in {"null", "boolean", "string", "number", "integer", "object", "array"})
              ==> ExtractFromPySchema(PyDict(entries), reg, fuel) == Ok(Str)
  {
    if forall i :: 0 <= i < |entries| ==> entries[i].0 != PyStr("type") && entries[i].0 != PyStr("$ref") {
      HasKeyIndex(entries, PyStr("type"));
      HasKeyIndex(entries, PyStr("$ref"));
    }
  }

  /** A `$ref` names the model after its last `/`; a model missing from the primary-key map or
      the model-type map fails with a KeyError, and one without a definition gets an empty
      schema. */
  lemma NestedClassification(ref: string, reg: Registry, fuel: nat)
    requires LastSegment(ref, '/') !in reg.definitions
    ensures var name := LastSegment(ref, '/');
            NestedField(PyStr(ref), reg, fuel)
            == if name !in reg.primaryKeys
               then Err(MissingPrimaryKey(reg.gen, name))
               else if name !in reg.modelTypes
               then Err(MissingModelType(reg.gen, name))
               else Ok(Nested(name, Schema([]), reg.primaryKeys[name], reg.modelTypes[name]))
  {
    var name := LastSegment(ref, '/');
    assert NestedSchema(PyStr(ref), reg, fuel) == Ok(Schema([]));
  }

  // ---------------------------------------------------------------------------
  // Stored strings back to Python values
  // ---------------------------------------------------------------------------

  /** The `key:value` pieces of one dict item. */
  function KeyValue(item: string): (r: seq<string>)
  {
    ExtractStrPortions(item, "", "", ':')
  }

  /** The timestamp of a stored datetime: the zoned format in the current code base, the naive
      "YYYY-MM-DD HH:MM:SS.mmmmmm" one in the first generation. */
  function DatetimeTimestamp(h: Host, g: Generation, s: string): Result<int>
  {
    match g
    case Current => ParseDatetimeToTimestamp(h, s)
    case Legacy => LegacyParsers.ParseDatetimeToTimestamp(h, s)
  }

  /** `str_to_py`: a stored string read as a value of the given type.  A nested model inside a
      collection is kept as its raw string.  A collection is read by the item readers behind
      `ParseDictStr`, `ParseListStr` and `ParseTupleStr` (the portions of the string, then each
      item), called here directly. */
  function StrToPy(h: Host, g: Generation, data: string, t: FieldType): (r: Result<PyObj>)
    ensures t.Str? || t.Nested? ==> r == Ok(PyStr(data))
    ensures t.Int? ==> (r.Ok? <==> ParseI64(data).Some?) && (r.Ok? ==> r.value == PyInt(ParseI64(data).value))
    ensures t.Bool? ==> (r.Ok? <==> data == "true" || data == "false") && (r.Ok? ==> r.value == PyBool(data == "true"))
    ensures t.Float? ==> (r.Ok? <==> h.isFloat(data)) && (r.Ok? ==> r.value == PyFloat(data))
    ensures t.Dict? && r.Ok? ==> r.value.PyDict?
    ensures t.List? && r.Ok? ==> r.value.PyList?
    ensures t.Tuple? && r.Ok? ==> if g.Legacy? then r.value.PyList? else r.value.PyTuple?
    ensures t == NoneType ==> r == Ok(PyNone)
    decreases t, 0
  {
    match t
    case Nested(_, _, _, _) => Ok(PyStr(data))
    case Dict(v) =>
      (match DictItems(h, g, SplitItems(ExtractStrPortions(data, "{", "}", ',')), v)
      case Err(e) => Err(e)
      case Ok(m) => Ok(StrKeyedDict(m)))
    case List(i) =>
      (match ListItems(h, g, ExtractStrPortions(data, "[", "]", ','), i)
      case Err(e) => Err(e)
      case Ok(items) => Ok(PyList(items)))
    case Tuple(ts) =>
      (match TupleItems(h, g, ExtractStrPortions(data, "(", ")", ','), ts)
      case Err(e) => Err(e)
      case Ok(items) => Ok(if g.Legacy? then PyList(items) else PyTuple(items)))
    case Str => Ok(PyStr(data))
    case Int =>
      (match ParseI64Str(data)
      case Err(e) => Err(e)
      case Ok(n) => Ok(PyInt(n)))
    case Float => ParseF64Str(h, data)
    case Bool =>
      (match ParseBoolStr(data)
      case Err(e) => Err(e)
      case Ok(b) => Ok(PyBool(b)))
    case Datetime =>
      (match DatetimeTimestamp(h, g, data)
      case Err(e) => Err(e)
      case Ok(ts) => Ok(h.datetimeFromTimestamp(ts)))
    case Date =>
      (match ParseDateToTimestamp(data)
      case Err(e) => Err(e)
      case Ok(ts) => Ok(h.dateFromTimestamp(ts)))
    case NoneType => Ok(PyNone)
  }

  /** `parse_dict_str`: the `{...}` items that split on `:` into exactly two pieces, the value
      read as type `v`; the other items are dropped, a later key overwrites an earlier one. */
  function ParseDictStr(h: Host, g: Generation, value: string, v: FieldType): (r: Result<seq<(string, PyObj)>>)
    ensures var kvs := SplitItems(ExtractStrPortions(value, "{", "}", ','));
            (r.Ok? <==> AllValuesRead(h, g, kvs, v))
            && (r.Ok? ==> UniqueKeys(r.value) && forall k :: HasKey(r.value, k) <==> IsItemKey(kvs, k))
  {
    var kvs := SplitItems(ExtractStrPortions(value, "{", "}", ','));
    DictItemsOk(h, g, kvs, v);
    DictItemsKeys(h, g, kvs, v);
    DictItems(h, g, kvs, v)
  }

  /** Every item split into its `key:value` pieces. */
  function SplitItems(items: seq<string>): (r: seq<seq<string>>)
    ensures |r| == |items| && forall i :: 0 <= i < |items| ==> r[i] == KeyValue(items[i])
  {
    seq(|items|, i requires 0 <= i < |items| => KeyValue(items[i]))
  }

  /** The dict built from the split items, taken in order. */
  function DictItems(h: Host, g: Generation, kvs: seq<seq<string>>, v: FieldType): (r: Result<seq<(string, PyObj)>>)
    decreases v, 1, |kvs|
  {
    if kvs == [] then Ok([])
    else
      match DictItems(h, g, kvs[..|kvs| - 1], v)
      case Err(e) => Err(e)
      case Ok(m) =>
        var kv := kvs[|kvs| - 1];
        if |kv| != 2 then Ok(m)
        else
          match StrToPy(h, g, kv[1], v)
          case Err(e) => Err(e)
          case Ok(x) => Ok(Insert(m, kv[0], x))
  }

  /** `parse_list_str`: every `[...]` item read as type `i`, in order. */
  function ParseListStr(h: Host, g: Generation, value: string, i: FieldType): (r: Result<seq<PyObj>>)
    ensures var items := ExtractStrPortions(value, "[", "]", ',');
            (r.Ok? <==> AllRead(h, g, items, i))
            && (r.Ok? ==> |r.value| == |items| && forall k :: 0 <= k < |items| ==> StrToPy(h, g, items[k], i) == Ok(r.value[k]))
  {
    var items := ExtractStrPortions(value, "[", "]", ',');
    ListItemsRule(h, g, items, i);
    ListItems(h, g, items, i)
  }

  function ListItems(h: Host, g: Generation, items: seq<string>, t: FieldType): (r: Result<seq<PyObj>>)
    decreases t, 1, |items|
  {
    if items == [] then Ok([])
    else
      match StrToPy(h, g, items[0], t)
      case Err(e) => Err(e)
      case Ok(x) =>
        match ListItems(h, g, items[1..], t)
        case Err(e) => Err(e)
        case Ok(rest) => Ok([x] + rest)
  }

  /** `parse_tuple_str`: the `(...)` items paired with the declared types by position; surplus
      on either side is dropped. */
  function ParseTupleStr(h: Host, g: Generation, value: string, ts: seq<FieldType>): (r: Result<seq<PyObj>>)
    ensures var items := ExtractStrPortions(value, "(", ")", ',');
            (r.Ok? <==> AllReadAs(h, g, items, ts))
            && (r.Ok? ==>
                  |r.value| == (if |items| < |ts| then |items| else |ts|)
                  && forall k :: 0 <= k < |items| && k < |ts| ==> StrToPy(h, g, items[k], ts[k]) == Ok(r.value[k]))
  {
    var items := ExtractStrPortions(value, "(", ")", ',');
    TupleItemsRule(h, g, items, ts);
    TupleItems(h, g, items, ts)
  }

  function TupleItems(h: Host, g: Generation, items: seq<string>, ts: seq<FieldType>): (r: Result<seq<PyObj>>)
    decreases ts, 1
  {
    if items == [] || ts == [] then Ok([])
    else
      match StrToPy(h, g, items[0], ts[0])
      case Err(e) => Err(e)
      case Ok(x) =>
        match TupleItems(h, g, items[1..], ts[1..])
        case Err(e) => Err(e)
        case Ok(rest) => Ok([x] + rest)
  }

  // ---- what the string readers promise ----

  /** Every item reads as type `t`: the first one, and then every item of the rest. */
  predicate AllRead(h: Host, g: Generation, items: seq<string>, t: FieldType)
  {
    items == [] || (StrToPy(h, g, items[0], t).Ok? && AllRead(h, g, items[1..], t))
  }

  /** A list reads every item, in order, and fails exactly when some item fails. */
  lemma ListItemsRule(h: Host, g: Generation, items: seq<string>, t: FieldType)
    ensures ListItems(h, g, items, t).Ok? <==> AllRead(h, g, items, t)
    ensures ListItems(h, g, items, t).Ok? ==>
              |ListItems(h, g, items, t).value| == |items|
              && forall i :: 0 <= i < |items| ==> StrToPy(h, g, items[i], t) == Ok(ListItems(h, g, items, t).value[i])
  {
    ListItemsOk(h, g, items, t);
    ListItemsValues(h, g, items, t);
  }

  lemma {:induction false} ListItemsOk(h: Host, g: Generation, items: seq<string>, t: FieldType)
    ensures ListItems(h, g, items, t).Ok? <==> AllRead(h, g, items, t)
  {
    if items != [] {
      ListItemsOk(h, g, items[1..], t);
      assert ListItems(h, g, items, t).Ok? <==> StrToPy(h, g, items[0], t).Ok? && ListItems(h, g, items[1..], t).Ok?;
    }
  }

  /** Reading every item of `items` by `f` gives `[x] + rest` once the first reads as `x` and
      the others as `rest`. */
  lemma ConsReads<A, B>(f: A -> Result<B>, items: seq<A>, x: B, rest: seq<B>)
    requires items != [] && f(items[0]) == Ok(x) && |rest| == |items| - 1
    requires forall i :: 0 <= i < |rest| ==> f(items[i + 1]) == Ok(rest[i])
    ensures forall i :: 0 <= i < |items| ==> f(items[i]) == Ok(([x] + rest)[i])
  {
    forall i | 0 < i < |items| ensures f(items[i]) == Ok(([x] + rest)[i]) {
      assert f(items[(i - 1) + 1]) == Ok(rest[i - 1]);
    }
  }

  lemma {:induction false} ListItemsValues(h: Host, g: Generation, items: seq<string>, t: FieldType)
    ensures ListItems(h, g, items, t).Ok? ==>
              |ListItems(h, g, items, t).value| == |items|
              && forall i :: 0 <= i < |items| ==> StrToPy(h, g, items[i], t) == Ok(ListItems(h, g, items, t).value[i])
  {
    if items != [] && ListItems(h, g, items, t).Ok? {
      var x, tail := StrToPy(h, g, items[0], t), items[1..];
      var rest := ListItems(h, g, tail, t);
      ListItemsValues(h, g, tail, t);
      assert ListItems(h, g, items, t) == Ok([x.value] + rest.value);
      ConsReads((s: string) => StrToPy(h, g, s, t), items, x.value, rest.value);
    }
  }

  /** The items of `items` up to the shorter length read by their declared types. */
  predicate AllReadAs(h: Host, g: Generation, items: seq<string>, ts: seq<FieldType>)
  {
    forall i :: 0 <= i < |items| && i < |ts| ==> StrToPy(h, g, items[i], ts[i]).Ok?
  }

  /** A tuple reads the first `min(|items|, |ts|)` items, each by its own declared type. */
  lemma TupleItemsRule(h: Host, g: Generation, items: seq<string>, ts: seq<FieldType>)
    ensures TupleItems(h, g, items, ts).Ok? <==> AllReadAs(h, g, items, ts)
    ensures TupleItems(h, g, items, ts).Ok? ==>
              |TupleItems(h, g, items, ts).value| == (if |items| < |ts| then |items| else |ts|)
              && forall i :: 0 <= i < |items| && i < |ts| ==> StrToPy(h, g, items[i], ts[i]) == Ok(TupleItems(h, g, items, ts).value[i])
  {
    TupleItemsOk(h, g, items, ts);
    TupleItemsValues(h, g, items, ts);
  }

  lemma {:induction false} TupleItemsOk(h: Host, g: Generation, items: seq<string>, ts: seq<FieldType>)
    ensures TupleItems(h, g, items, ts).Ok? <==> AllReadAs(h, g, items, ts)
    decreases |ts|
  {
    if items != [] && ts != [] {
      TupleItemsOk(h, g, items[1..], ts[1..]);
      AllReadAsShift(h, g, items, ts);
    }
  }

  /** The zipped items read when the first one does and the rest do. */
  lemma AllReadAsShift(h: Host, g: Generation, items: seq<string>, ts: seq<FieldType>)
    requires items != [] && ts != []
    ensures AllReadAs(h, g, items, ts) <==> StrToPy(h, g, items[0], ts[0]).Ok? && AllReadAs(h, g, items[1..], ts[1..])
  {
    var items', ts' := items[1..], ts[1..];
    forall i | 0 <= i < |items'| && i < |ts'| ensures items'[i] == items[i + 1] && ts'[i] == ts[i + 1] { }
  }

  /** Reading each item of `items` by `f` with the `ts` entry at its position, up to the shorter
      length, gives `[x] + rest` once the first pair reads as `x` and the others as `rest`. */
  lemma ConsPairReads<A, C, B>(f: (A, C) -> Result<B>, items: seq<A>, ts: seq<C>, x: B, rest: seq<B>)
    requires items != [] && ts != [] && f(items[0], ts[0]) == Ok(x)
    requires |rest| == (if |items| < |ts| then |items| else |ts|) - 1
    requires forall i :: 0 <= i < |rest| ==> f(items[i + 1], ts[i + 1]) == Ok(rest[i])
    ensures forall i :: 0 <= i < |items| && i < |ts| ==> f(items[i], ts[i]) == Ok(([x] + rest)[i])
  {
    forall i | 0 < i < |items| && i < |ts| ensures f(items[i], ts[i]) == Ok(([x] + rest)[i]) {
      assert f(items[(i - 1) + 1], ts[(i - 1) + 1]) == Ok(rest[i - 1]);
    }
  }

  lemma {:induction false} TupleItemsValues(h: Host, g: Generation, items: seq<string>, ts: seq<FieldType>)
    ensures TupleItems(h, g, items, ts).Ok? ==>
              |TupleItems(h, g, items, ts).value| == (if |items| < |ts| then |items| else |ts|)
              && forall i :: 0 <= i < |items| && i < |ts| ==> StrToPy(h, g, items[i], ts[i]) == Ok(TupleItems(h, g, items, ts).value[i])
    decreases |ts|
  {
    if items != [] && ts != [] && TupleItems(h, g, items, ts).Ok? {
      var x, items', ts' := StrToPy(h, g, items[0], ts[0]), items[1..], ts[1..];
      var rest := TupleItems(h, g, items', ts');
      TupleItemsValues(h, g, items', ts');
      assert TupleItems(h, g, items, ts) == Ok([x.value] + rest.value);
      ConsPairReads((s: string, ft: FieldType) => StrToPy(h, g, s, ft), items, ts, x.value, rest.value);
    }
  }

  /** Whether split item `i` is a key and a value. */
  predicate IsPair(kvs: seq<seq<string>>, i: int)
    requires 0 <= i < |kvs|
  {
    |kvs[i]| == 2
  }

  /** A split item is not a key and a value, or its value reads as type `v`. */
  predicate ValueReads(h: Host, g: Generation, kv: seq<string>, v: FieldType)
  {
    |kv| == 2 ==> StrToPy(h, g, kv[1], v).Ok?
  }

  /** Every two-piece item's value reads as type `v`: those of all items but the last, and the
      last one's. */
  predicate AllValuesRead(h: Host, g: Generation, kvs: seq<seq<string>>, v: FieldType)
  {
    kvs == [] || (AllValuesRead(h, g, kvs[..|kvs| - 1], v) && ValueReads(h, g, kvs[|kvs| - 1], v))
  }

  /** The keys of the two-piece items. */
  predicate IsItemKey(kvs: seq<seq<string>>, k: string)
  {
    exists i :: 0 <= i < |kvs| && IsPair(kvs, i) && kvs[i][0] == k
  }

  /** One more item: the dict of a prefix extended by the last item. */
  lemma {:induction false} DictItemsStep(h: Host, g: Generation, kvs: seq<seq<string>>, v: FieldType)
    requires kvs != []
    ensures var init := kvs[..|kvs| - 1];
            var kv := kvs[|kvs| - 1];
            DictItems(h, g, kvs, v)
              == if DictItems(h, g, init, v).Err? then DictItems(h, g, init, v)
                 else if |kv| != 2 then DictItems(h, g, init, v)
                 else if StrToPy(h, g, kv[1], v).Err? then Err(StrToPy(h, g, kv[1], v).error)
                 else Ok(Insert(DictItems(h, g, init, v).value, kv[0], StrToPy(h, g, kv[1], v).value))
  {
  }

  /** A dict read fails exactly when the value of some two-piece item fails to read. */
  lemma {:induction false} DictItemsOk(h: Host, g: Generation, kvs: seq<seq<string>>, v: FieldType)
    ensures DictItems(h, g, kvs, v).Ok? <==> AllValuesRead(h, g, kvs, v)
  {
    if kvs != [] {
      DictItemsOk(h, g, kvs[..|kvs| - 1], v);
      DictItemsOkStep(h, g, kvs, v);
    }
  }

  lemma DictItemsOkStep(h: Host, g: Generation, kvs: seq<seq<string>>, v: FieldType)
    requires kvs != []
    ensures DictItems(h, g, kvs, v).Ok? <==> DictItems(h, g, kvs[..|kvs| - 1], v).Ok? && ValueReads(h, g, kvs[|kvs| - 1], v)
  {
    DictItemsStep(h, g, kvs, v);
  }

  /** A dict read holds exactly the keys of its two-piece items, once each. */
  lemma {:induction false} DictItemsKeys(h: Host, g: Generation, kvs: seq<seq<string>>, v: FieldType)
    ensures DictItems(h, g, kvs, v).Ok? ==> UniqueKeys(DictItems(h, g, kvs, v).value)
    ensures DictItems(h, g, kvs, v).Ok? ==> forall k :: HasKey(DictItems(h, g, kvs, v).value, k) <==> IsItemKey(kvs, k)
  {
    if kvs != [] && DictItems(h, g, kvs, v).Ok? {
      var init, kv := kvs[..|kvs| - 1], kvs[|kvs| - 1];
      DictItemsKeys(h, g, init, v);
      DictItemsStep(h, g, kvs, v);
      var prev, r := DictItems(h, g, init, v).value, DictItems(h, g, kvs, v).value;
      if |kv| == 2 {
        var x := StrToPy(h, g, kv[1], v).value;
        assert r == Insert(prev, kv[0], x);
        DictKeysStep(kvs, prev, r);
      } else {
        assert r == prev;
        DictKeysStep(kvs, prev, r);
      }
    }
  }

  /** The dict of one more item has the keys of the items, once each, when the dict before it
      had those of the items before it and the last item was inserted (or skipped). */
  lemma DictKeysStep<V>(kvs: seq<seq<string>>, prev: seq<(string, V)>, r: seq<(string, V)>)
    requires kvs != []
    requires UniqueKeys(prev) && forall k :: HasKey(prev, k) <==> IsItemKey(kvs[..|kvs| - 1], k)
    requires |kvs[|kvs| - 1]| != 2 ==> r == prev
    requires |kvs[|kvs| - 1]| == 2 ==> UniqueKeys(r) && forall k :: HasKey(r, k) <==> k == kvs[|kvs| - 1][0] || HasKey(prev, k)
    ensures UniqueKeys(r) && forall k :: HasKey(r, k) <==> IsItemKey(kvs, k)
  {
    forall k ensures IsItemKey(kvs, k) <==> IsItemKey(kvs[..|kvs| - 1], k) || (|kvs[|kvs| - 1]| == 2 && kvs[|kvs| - 1][0] == k) {
      IsItemKeyStep(kvs, k);
    }
  }

  /** The keys of the items are those of all items but the last, and the last one's key if it
      is a pair. */
  lemma IsItemKeyStep(kvs: seq<seq<string>>, k: string)
    requires kvs != []
    ensures IsItemKey(kvs, k) <==>
              IsItemKey(kvs[..|kvs| - 1], k) || (|kvs[|kvs| - 1]| == 2 && kvs[|kvs| - 1][0] == k)
  {
    var init, last := kvs[..|kvs| - 1], |kvs| - 1;
    if IsItemKey(kvs, k) {
      var i :| 0 <= i < |kvs| && IsPair(kvs, i) && kvs[i][0] == k;
      if i < last { assert init[i] == kvs[i]; assert IsPair(init, i); }
    }
    if IsItemKey(init, k) {
      var i :| 0 <= i < |init| && IsPair(init, i) && init[i][0] == k;
      assert init[i] == kvs[i];
      assert IsPair(kvs, i);
    }
  }

  /** `parse_dict_str` as the source writes it: a loop over the items. */
  method ParseDictStrLoop(h: Host, g: Generation, value: string, v: FieldType) returns (r: Result<seq<(string, PyObj)>>)
    ensures r == ParseDictStr(h, g, value, v)
  {
    var kvs := SplitItems(ExtractStrPortions(value, "{", "}", ','));
    r := DictItemsLoop(h, g, kvs, v);
  }

  /** The loop: the items, split on `:`, are visited in order, and the two-piece ones are read
      and inserted into the map; the first value that fails to read ends it. */
  method DictItemsLoop(h: Host, g: Generation, kvs: seq<seq<string>>, v: FieldType) returns (r: Result<seq<(string, PyObj)>>)
    ensures r == DictItems(h, g, kvs, v)
  {
    var m: seq<(string, PyObj)> := [];
    for i := 0 to |kvs|
      invariant DictItems(h, g, kvs[..i], v) == Ok(m)
    {
      var kv := kvs[i];
      DictItemsExtend(h, g, kvs, v, i, m);
      if |kv| == 2 {
        var x := StrToPy(h, g, kv[1], v);
        if x.Err? {
          r := Err(x.error);
          return;
        }
        m := Insert(m, kv[0], x.value);
      }
    }
    assert kvs[..|kvs|] == kvs;
    r := Ok(m);
  }

  /** One loop step: the dict of one more item, or the error of the whole dict. */
  lemma {:induction false} DictItemsExtend(h: Host, g: Generation, kvs: seq<seq<string>>, v: FieldType, i: nat, m: seq<(string, PyObj)>)
    requires i < |kvs| && DictItems(h, g, kvs[..i], v) == Ok(m)
    ensures |kvs[i]| != 2 ==> DictItems(h, g, kvs[..i + 1], v) == Ok(m)
    ensures |kvs[i]| == 2 && StrToPy(h, g, kvs[i][1], v).Ok? ==>
              DictItems(h, g, kvs[..i + 1], v) == Ok(Insert(m, kvs[i][0], StrToPy(h, g, kvs[i][1], v).value))
    ensures |kvs[i]| == 2 && StrToPy(h, g, kvs[i][1], v).Err? ==>
              DictItems(h, g, kvs, v) == Err(StrToPy(h, g, kvs[i][1], v).error)
  {
    var pre := kvs[..i + 1];
    assert pre[..|pre| - 1] == kvs[..i] && pre[|pre| - 1] == kvs[i];
    DictItemsStep(h, g, pre, v);
    if |kvs[i]| == 2 && StrToPy(h, g, kvs[i][1], v).Err? {
      DictItemsPrefixError(h, g, kvs, v, i + 1);
    }
  }

  /** Once a prefix of the items fails, the whole dict fails with the same error. */
  lemma {:induction false} DictItemsPrefixError(h: Host, g: Generation, kvs: seq<seq<string>>, v: FieldType, n: nat)
    requires n <= |kvs| && DictItems(h, g, kvs[..n], v).Err?
    ensures DictItems(h, g, kvs, v) == DictItems(h, g, kvs[..n], v)
    decreases |kvs| - n
  {
    if n < |kvs| {
      DictItemsStep(h, g, kvs[..n + 1], v);
      assert kvs[..n + 1][..n] == kvs[..n];
      DictItemsPrefixError(h, g, kvs, v, n + 1);
    } else {
      assert kvs[..n] == kvs;
    }
  }

  // ---------------------------------------------------------------------------
  // Redis replies back to Python values
  // ---------------------------------------------------------------------------

  /** `redis_to_py`: a reply read as a value of the given type.  Collections and scalars are
      stored as strings; a nested model arrives expanded, as a field/value array. */
  function RedisToPy(h: Host, g: Generation, t: FieldType, data: RValue): (r: Result<PyObj>)
    ensures t.Nested? && !data.Bulk? ==> r == Ok(PyNone)
    ensures t == NoneType ==> r == Ok(PyNone)
    ensures t.Int? && data.Int? ==> r == Ok(PyInt(data.i))
    ensures !t.Nested? && t != NoneType && !t.Int? && (data.Nil? || data.Bulk?) ==> r.Err?
    decreases t, 0
  {
    match t
    case Nested(_, schema, _, modelType) => NestedToPy(h, g, schema, modelType, data)
    case Dict(v) =>
      (match RedisToString(data)
      case Err(e) => Err(e)
      case Ok(s) =>
        match ParseDictStr(h, g, s, v)
        case Err(e) => Err(e)
        case Ok(m) => Ok(StrKeyedDict(m)))
    case List(i) =>
      (match RedisToString(data)
      case Err(e) => Err(e)
      case Ok(s) =>
        match ParseListStr(h, g, s, i)
        case Err(e) => Err(e)
        case Ok(items) => Ok(PyList(items)))
    case Tuple(ts) =>
      (match RedisToString(data)
      case Err(e) => Err(e)
      case Ok(s) =>
        match ParseTupleStr(h, g, s, ts)
        case Err(e) => Err(e)
        case Ok(items) => Ok(PyTuple(items)))
    case Str =>
      (match RedisToString(data)
      case Err(e) => Err(e)
      case Ok(s) => Ok(PyStr(s)))
    case Int =>
      (match RedisToI64(data)
      case Err(e) => Err(e)
      case Ok(n) => Ok(PyInt(n)))
    case Float => RedisToF64(h, data)
    case Bool =>
      (match RedisToString(data)
      case Err(e) => Err(e)
      case Ok(s) =>
        match ParseBoolStr(s)
        case Err(e) => Err(e)
        case Ok(b) => Ok(PyBool(b)))
    case Datetime =>
      (match RedisToString(data)
      case Err(e) => Err(e)
      case Ok(s) =>
        match DatetimeTimestamp(h, g, s)
        case Err(e) => Err(e)
        case Ok(ts) => Ok(h.datetimeFromTimestamp(ts)))
    case Date =>
      (match RedisToString(data)
      case Err(e) => Err(e)
      case Ok(s) =>
        match ParseDateToTimestamp(s)
        case Err(e) => Err(e)
        case Ok(ts) => Ok(h.dateFromTimestamp(ts)))
    case NoneType => Ok(PyNone)
  }

  /** A field that is not a nested model reads from a bulk string exactly as the string itself
      reads inside a collection (a tuple of the first generation aside, which the collection
      reader turns into a list); any other kind of reply to a string-stored field is an error. */
  lemma ReplyReadsAsStored(h: Host, g: Generation, t: FieldType, s: string)
    requires !t.Nested? && !(g.Legacy? && t.Tuple?)
    ensures RedisToPy(h, g, t, Data(s)) == StrToPy(h, g, s, t)
    ensures t != NoneType && !t.Int? ==> RedisToPy(h, g, t, Nil).Err? && RedisToPy(h, g, t, Bulk([])).Err?
  {
    DataReplyReadsAsStored(h, g, t, s);
  }

  lemma DataReplyReadsAsStored(h: Host, g: Generation, t: FieldType, s: string)
    requires !t.Nested? && !(g.Legacy? && t.Tuple?)
    ensures RedisToPy(h, g, t, Data(s)) == StrToPy(h, g, s, t)
  {
    match t
    case Dict(v) =>
    case List(i) =>
    case Tuple(ts) =>
    case Str =>
    case Int =>
    case Float =>
    case Bool =>
    case Datetime =>
    case Date =>
    case NoneType =>
  }

  /** A nested model: a reply that is not an array reads as None; otherwise its items are read
      as field/value pairs (an unpaired last item is dropped), every field must be declared in
      the nested schema, and the model class is built from them. */
  function NestedToPy(h: Host, g: Generation, schema: Schema, modelType: string, data: RValue): (r: Result<PyObj>)
    ensures !data.Bulk? ==> r == Ok(PyNone)
    ensures r.Ok? && data.Bulk? ==>
              r.value.PyInstance? && r.value.className == modelType
              && forall k :: HasKey(r.value.fields, k) ==> HasKey(schema.mapping, k)
    decreases schema, 1
  {
    match AsMapIter(data)
    case None => Ok(PyNone)
    case Some(pairs) =>
      match NestedFields(h, g, schema, pairs, [])
      case Err(e) => Err(e)
      case Ok(fields) => Ok(PyInstance(modelType, fields))
  }

  /** The fields of a nested model, added to `acc` in reply order. */
  function NestedFields(h: Host, g: Generation, schema: Schema, pairs: seq<(RValue, RValue)>, acc: seq<(string, PyObj)>): (r: Result<seq<(string, PyObj)>>)
    ensures r.Ok? ==> forall k :: HasKey(r.value, k) ==> HasKey(acc, k) || HasKey(schema.mapping, k)
    decreases schema, 0, |pairs|
  {
    if pairs == [] then Ok(acc)
    else
      match RedisToString(pairs[0].0)
      case Err(e) => Err(e)
      case Ok(key) =>
        match FindIndex(schema.mapping, key)
        case None => Err(ValueErrorWith(key, "unexpected field in nested object"))
        case Some(i) =>
          match RedisToPy(h, g, schema.mapping[i].1, pairs[0].1)
          case Err(e) => Err(e)
          case Ok(x) => NestedFields(h, g, schema, pairs[1..], Insert(acc, key, x))
  }

  /** The value of every field of a nested model read from a reply: each pair's field is
      declared in the nested schema, the field of the last pair with a name holds that pair's
      value read by the field's declared type, and a name no pair gives keeps its earlier value. */
  lemma {:induction false} NestedFieldsValues(h: Host, g: Generation, schema: Schema, pairs: seq<(RValue, RValue)>,
                                              acc: seq<(string, PyObj)>)
    requires NestedFields(h, g, schema, pairs, acc).Ok?
    ensures forall j :: 0 <= j < |pairs| ==>
              RedisToString(pairs[j].0).Ok? && GetType(schema, RedisToString(pairs[j].0).value).Some?
    ensures forall j :: 0 <= j < |pairs| && LastOfKey(pairs, j) ==>
              var key := RedisToString(pairs[j].0).value;
              && RedisToPy(h, g, GetType(schema, key).value, pairs[j].1).Ok?
              && Lookup(NestedFields(h, g, schema, pairs, acc).value, key)
                   == Some(RedisToPy(h, g, GetType(schema, key).value, pairs[j].1).value)
    ensures forall k :: (forall j :: 0 <= j < |pairs| ==> RedisToString(pairs[j].0) != Ok(k)) ==>
              Lookup(NestedFields(h, g, schema, pairs, acc).value, k) == Lookup(acc, k)
    ensures forall k :: HasKey(NestedFields(h, g, schema, pairs, acc).value, k) <==>
              HasKey(acc, k) || exists j :: 0 <= j < |pairs| && RedisToString(pairs[j].0) == Ok(k)
  {
    var field := NestedFieldReader(h, g, schema);
    NestedFieldsCollect(h, g, schema, pairs, acc);
    CollectPairsValues(field, pairs, acc);
    forall j | 0 <= j < |pairs|
      ensures GetType(schema, RedisToString(pairs[j].0).value).Some?
      ensures field(RedisToString(pairs[j].0).value, pairs[j].1)
              == RedisToPy(h, g, GetType(schema, RedisToString(pairs[j].0).value).value, pairs[j].1)
    {
      NestedFieldRead(h, g, schema, RedisToString(pairs[j].0).value, pairs[j].1);
    }
  }

  /** How a nested model reads the value of one field: by the field's declared type, and an
      undeclared field is the "unexpected field in nested object" ValueError. */
  function NestedFieldReader(h: Host, g: Generation, schema: Schema): (string, RValue) -> Result<PyObj>
  {
    (key, v) =>
      match FindIndex(schema.mapping, key)
      case None => Err(ValueErrorWith(key, "unexpected field in nested object"))
      case Some(i) => RedisToPy(h, g, schema.mapping[i].1, v)
  }

  /** A field reads by its declared type when it is declared; otherwise it fails. */
  lemma NestedFieldRead(h: Host, g: Generation, schema: Schema, key: string, v: RValue)
    ensures NestedFieldReader(h, g, schema)(key, v).Ok? ==> GetType(schema, key).Some?
    ensures GetType(schema, key).Some? ==> NestedFieldReader(h, g, schema)(key, v) == RedisToPy(h, g, GetType(schema, key).value, v)
  {
  }

  /** The nested read collects the reply's pairs with the nested field reader. */
  lemma {:induction false} NestedFieldsCollect(h: Host, g: Generation, schema: Schema, pairs: seq<(RValue, RValue)>,
                                               acc: seq<(string, PyObj)>)
    ensures NestedFields(h, g, schema, pairs, acc) == CollectPairs(NestedFieldReader(h, g, schema), pairs, acc)
    decreases |pairs|
  {
    if pairs != [] {
      var k := RedisToString(pairs[0].0);
      if k.Ok? {
        var x := NestedFieldReader(h, g, schema)(k.value, pairs[0].1);
        if x.Ok? {
          NestedFieldsCollect(h, g, schema, pairs[1..], Insert(acc, k.value, x.value));
        }
      }
    }
  }

  /** A nested model read from an array reply is an instance of the model class whose fields
      are exactly the names of the reply's pairs, each holding the value of the last pair with
      that name as read by its declared type. */
  lemma NestedToPyValues(h: Host, g: Generation, schema: Schema, modelType: string, data: RValue)
    requires data.Bulk? && NestedToPy(h, g, schema, modelType, data).Ok?
    ensures var r := NestedToPy(h, g, schema, modelType, data).value;
            var pairs := AsMapIter(data).value;
            && r.PyInstance? && r.className == modelType
            && (forall k :: HasKey(r.fields, k) <==> exists j :: 0 <= j < |pairs| && RedisToString(pairs[j].0) == Ok(k))
            && (forall j :: 0 <= j < |pairs| ==> RedisToString(pairs[j].0).Ok?)
            && forall j :: 0 <= j < |pairs| && LastOfKey(pairs, j) ==>
                 var key := RedisToString(pairs[j].0).value;
                 && GetType(schema, key).Some?
                 && RedisToPy(h, g, GetType(schema, key).value, pairs[j].1).Ok?
                 && Lookup(r.fields, key) == Some(RedisToPy(h, g, GetType(schema, key).value, pairs[j].1).value)
  {
    var pairs := AsMapIter(data).value;
    NestedFieldsValues(h, g, schema, pairs, []);
  }

  /** A field the nested schema does not declare fails the read. */
  lemma {:induction false} UndeclaredNestedFieldFails(h: Host, g: Generation, schema: Schema, pairs: seq<(RValue, RValue)>,
                                                       acc: seq<(string, PyObj)>, j: nat)
    requires j < |pairs| && pairs[j].0.Data? && !HasKey(schema.mapping, pairs[j].0.bytes)
    ensures NestedFields(h, g, schema, pairs, acc).Err?
  {
    if j > 0 {
      var k := RedisToString(pairs[0].0);
      if k.Ok? && HasKey(schema.mapping, k.value) {
        var i := FindIndex(schema.mapping, k.value).value;
        var x := RedisToPy(h, g, schema.mapping[i].1, pairs[0].1);
        if x.Ok? {
          assert pairs[1..][j - 1] == pairs[j];
          UndeclaredNestedFieldFails(h, g, schema, pairs[1..], Insert(acc, k.value, x.value), j - 1);
        }
      }
    }
  }
}
