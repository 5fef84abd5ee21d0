// The first generation's field types (`src/records.rs`): each type can carry
// the data of one value, and records hold such typed data per field.  Only
// the classification of a JSON Schema property into a field type is
// implemented there; a classified type carries no data yet.

module Records {
  import opened Common
  import opened Values

  /** The type of one field, with the data of a value of that type once it is known. */
  datatype FieldType =
    | Nested(modelName: string, record: Option<Record>)
    | Dict(key: FieldType, value: FieldType, entries: Option<seq<(FieldType, FieldType)>>)
    | List(items: FieldType, elements: Option<seq<FieldType>>)
    | Tuple(itemTypes: seq<FieldType>, members: Option<seq<FieldType>>)
    | Str(s: Option<string>)
    | Int(i: Option<int>)
      /** a float, by its text */
    | Float(f: Option<string>)
    | Bool(b: Option<bool>)
    | NoneType

  /** The typed data of a whole model instance, or of some of its fields. */
  datatype Record =
    | Full(fields: seq<(string, FieldType)>)
    | Partial(fields: seq<(string, FieldType)>)

  /** A type as classification yields it: no data anywhere, and a dict always of strings. */
  predicate Unfilled(t: FieldType)
  {
    match t
    case Nested(_, d) => d.None?
    case Dict(k, v, d) => k == Str(None) && v == Str(None) && d.None?
    case List(i, d) => Unfilled(i) && d.None?
    case Tuple(ts, d) => d.None? && forall i :: 0 <= i < |ts| ==> Unfilled(ts[i])
    case Str(d) => d.None?
    case Int(d) => d.None?
    case Float(d) => d.None?
    case Bool(d) => d.None?
    case NoneType => true
  }

  /** `FieldType::extract`: a property with `type` is classified by it, one with `$ref` is the
      nested model named by the last `/`-segment of the reference, any other is a string. */
  function Extract(prop: PyObj): (r: Result<FieldType>)
    ensures r.Ok? ==> Unfilled(r.value)
    decreases prop, 2
  {
    if !prop.PyDict? then Err(DowncastError(prop, "PyDict"))
    else
      var entries := prop.entries;
      match DictIndex(entries, "type")
      case Some(i) => TypeField(entries, entries[i].1)
      case None =>
        match DictIndex(entries, "$ref")
        case Some(j) =>
          var ref := entries[j].1;
          if !ref.PyStr? then Err(DowncastError(ref, "PyString"))
          else Ok(Nested(LastSegment(ref.s, '/'), None))
        case None => Ok(Str(None))
  }

  /** The JSON Schema `type` keywords; a string never looks at its `format`. */
  function TypeField(entries: seq<(PyObj, PyObj)>, dataType: PyObj): (r: Result<FieldType>)
    ensures r.Ok? ==> Unfilled(r.value)
    decreases entries, 1
  {
    if !dataType.PyStr? then Err(DowncastError(dataType, "PyString"))
    else match dataType.s
      case "null" => Ok(NoneType)
      case "boolean" => Ok(Bool(None))
      case "string" => Ok(Str(None))
      case "number" => Ok(Float(None))
      case "integer" => Ok(FieldType.Int(None))
      case "object" => Ok(Dict(Str(None), Str(None), None))
      case "array" =>
        (match DictIndex(entries, "items")
        case None => Ok(List(Str(None), None))
        case Some(i) => ArrayField(entries[i]))
      case _ => Ok(Str(None))
  }

  /** The `items` of an array: a list of item schemas is a tuple, anything else one item schema. */
  function ArrayField(e: (PyObj, PyObj)): (r: Result<FieldType>)
    ensures r.Ok? ==> Unfilled(r.value)
    decreases e, 0
  {
    if e.1.PyList? then
      (match ExtractAll(e.1.items)
      case Err(err) => Err(err)
      case Ok(ts) => Ok(Tuple(ts, None)))
    else
      match Extract(e.1)
      case Err(err) => Err(err)
      case Ok(t) => Ok(List(t, None))
  }

  /** `Vec<FieldType>` extracted from a list: one type per item, in order; the first failure
      fails them all. */
  function ExtractAll(items: seq<PyObj>): (r: Result<seq<FieldType>>)
    ensures r.Ok? ==> |r.value| == |items| && forall i :: 0 <= i < |items| ==> Unfilled(r.value[i])
    decreases items, 0
  {
    if items == [] then Ok([])
    else
      match Extract(items[0])
      case Err(err) => Err(err)
      case Ok(t) =>
        match ExtractAll(items[1..])
        case Err(err) => Err(err)
        case Ok(ts) =>
          var r := [t] + ts;
          assert forall i :: 1 <= i < |items| ==> r[i] == ts[i - 1];
          Ok(r)
  }

  // ---- the inverse: the JSON Schema pydantic generates for a field type ----

  /** A type classification can yield, bar nested models: unfilled, and no `$ref` inside. */
  predicate Plain(t: FieldType)
  {
    Unfilled(t) &&
    match t
    case Nested(_, _) => false
    case List(i, _) => Plain(i)
    case Tuple(ts, _) => forall i :: 0 <= i < |ts| ==> Plain(ts[i])
    case _ => true
  }

  function TypeProp(name: string): (PyObj, PyObj) { (PyStr("type"), PyStr(name)) }

  /** The property schema of a plain type. */
  function ToJsonSchema(t: FieldType): (r: PyObj)
    requires Plain(t)
    ensures r.PyDict? && DictIndex(r.entries, "type") == Some(0)
  {
    match t
    case NoneType => PyDict([TypeProp("null")])
    case Bool(_) => PyDict([TypeProp("boolean")])
    case Str(_) => PyDict([TypeProp("string")])
    case Float(_) => PyDict([TypeProp("number")])
    case Int(_) => PyDict([TypeProp("integer")])
    case Dict(_, _, _) => PyDict([TypeProp("object")])
    case List(i, _) => PyDict([TypeProp("array"), (PyStr("items"), ToJsonSchema(i))])
    case Tuple(ts, _) => PyDict([TypeProp("array"), (PyStr("items"), PyList(JsonSchemas(ts)))])
  }

  function JsonSchemas(ts: seq<FieldType>): (r: seq<PyObj>)
    requires forall i :: 0 <= i < |ts| ==> Plain(ts[i])
    ensures |r| == |ts|
  {
    if ts == [] then [] else [ToJsonSchema(ts[0])] + JsonSchemas(ts[1..])
  }

  /** Classification recovers every plain type from its JSON Schema. */
  lemma {:induction false} ExtractJsonSchema(t: FieldType)
    requires Plain(t)
    ensures Extract(ToJsonSchema(t)) == Ok(t)
  {
    var entries := ToJsonSchema(t).entries;
    match t
    case List(i, _) =>
      ExtractJsonSchema(i);
      assert DictIndex(entries, "items") == Some(1);
      assert !ToJsonSchema(i).PyList?;
      assert ArrayField(entries[1]) == Ok(t);
    case Tuple(ts, _) =>
      ExtractJsonSchemas(ts);
      assert DictIndex(entries, "items") == Some(1);
      assert ArrayField(entries[1]) == Ok(t);
    case _ =>
  }

  lemma {:induction false} ExtractJsonSchemas(ts: seq<FieldType>)
    requires forall i :: 0 <= i < |ts| ==> Plain(ts[i])
    ensures ExtractAll(JsonSchemas(ts)) == Ok(ts)
  {
    if ts != [] {
      ExtractJsonSchema(ts[0]);
      ExtractJsonSchemas(ts[1..]);
      assert JsonSchemas(ts)[1..] == JsonSchemas(ts[1..]);
      assert [ts[0]] + ts[1..] == ts;
    }
  }

  /** A `$ref` names the model after its last `/`; a nested type carries no data. */
  lemma NestedReference(ref: string)
    ensures Extract(PyDict([(PyStr("$ref"), PyStr(ref))])) == Ok(Nested(LastSegment(ref, '/'), None))
  {
    assert DictIndex([(PyStr("$ref"), PyStr(ref))], "type") == None;
  }

  /** Unknown `type` names, and properties with neither `type` nor `$ref`, are strings. */
  lemma FallbackToStr(entries: seq<(PyObj, PyObj)>)
    ensures (forall i :: 0 <= i < |entries| ==> entries[i].0 != PyStr("type") && entries[i].0 != PyStr("$ref"))
            ==> Extract(PyDict(entries)) == Ok(Str(None))
    ensures forall name ::
              (DictIndex(entries, "type").Some? && entries[DictIndex(entries, "type").value].1 == PyStr(name)
               && name !in {"null", "boolean", "string", "number", "integer", "object", "array"})
              ==> Extract(PyDict(entries)) == Ok(Str(None))
  {
    if forall i :: 0 <= i < |entries| ==> entries[i].0 != PyStr("type") && entries[i].0 != PyStr("$ref") {
      HasKeyIndex(entries, PyStr("type"));
      HasKeyIndex(entries, PyStr("$ref"));
    }
  }
}
