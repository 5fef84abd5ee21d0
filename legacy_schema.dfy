// The first generation's schema (`src/schema.rs`): a model's JSON Schema read
// into a map from field name to `Records.FieldType`, and the queries made on it.

module LegacySchema {
  import opened Common
  import opened Values
  import Records

  /** Field name to field type; a hash map, so at most one entry per name. */
  datatype Schema = Schema(mapping: seq<(string, Records.FieldType)>)

  /** `Schema::get_type`: a plain lookup. */
  function GetType(s: Schema, field: string): (r: Option<Records.FieldType>)
    ensures r.None? <==> !HasKey(s.mapping, field)
    ensures r.Some? ==> exists i :: 0 <= i < |s.mapping| && s.mapping[i] == (field, r.value)
  {
    match FindIndex(s.mapping, field)
    case None => None
    case Some(i) => Some(s.mapping[i].1)
  }

  /** `Schema::empty`. */
  function Empty(): (r: Schema)
    ensures forall f :: GetType(r, f).None?
  {
    Schema([])
  }

  /** The `definitions` of a JSON Schema as a `HashMap<String, _>`: none when absent; a value that
      is not a dict with string keys does not extract. */
  function Definitions(entries: seq<(PyObj, PyObj)>): (r: Result<seq<(string, PyObj)>>)
    ensures DictIndex(entries, "definitions").None? ==> r == Ok([])
  {
    match DictIndex(entries, "definitions")
    case None => Ok([])
    case Some(i) =>
      var def := entries[i].1;
      if !def.PyDict? then Err(DowncastError(def, "PyDict"))
      else match FirstNonStrKey(def.entries)
        case Some(k) => Err(DowncastError(k, "PyString"))
        case None => Ok(AsStrKeyed(def.entries).value)
  }

  const NoPropertiesError: Error := ValueError("Invalid schema. No 'properties' found")

  /** `Schema::extract`: the schema of the `properties` of a JSON Schema dict.  The `definitions`
      are extracted, but classification does not consult them. */
  function Extract(ob: PyObj): (r: Result<Schema>)
    ensures !ob.PyDict? ==> r.Err?
    ensures ob.PyDict? && !HasKey(ob.entries, PyStr("properties")) ==> r == Err(NoPropertiesError)
    ensures ob.PyDict? && HasKey(ob.entries, PyStr("properties")) && Definitions(ob.entries).Ok? ==>
              r == FromPyAny(ob.entries[DictIndex(ob.entries, "properties").value].1)
  {
    if !ob.PyDict? then Err(DowncastError(ob, "PyDict"))
    else match DictIndex(ob.entries, "properties")
      case None => Err(NoPropertiesError)
      case Some(i) =>
        var _ :- Definitions(ob.entries);
        FromPyAny(ob.entries[i].1)
  }

  /** How a property value is classified (`Records.Extract`). */
  type Classifier = PyObj -> Result<Records.FieldType>

  /** `Schema::from_py_any`: one mapping entry per property, the key a string and the value
      classified; the first property that fails fails the whole schema. */
  function FromPyAny(props: PyObj): (r: Result<Schema>)
    ensures !props.PyDict? ==> r.Err?
  {
    if !props.PyDict? then Err(DowncastError(props, "PyDict"))
    else
      var m :- FromEntries(Records.Extract, props.entries, |props.entries|);
      Ok(Schema(m))
  }

  /** The map collected from the first `n` properties, in dict order. */
  function FromEntries(classify: Classifier, entries: seq<(PyObj, PyObj)>, n: nat)
    : (r: Result<seq<(string, Records.FieldType)>>)
    requires n <= |entries|
  {
    if n == 0 then Ok([])
    else
      var m :- FromEntries(classify, entries, n - 1);
      var e := entries[n - 1];
      if !e.0.PyStr? then Err(DowncastError(e.0, "PyString"))
      else
        var t :- classify(e.1);
        Ok(Insert(m, e.0.s, t))
  }

  /** Property `i` has a string key and a value that classifies. */
  predicate PropertyOk(classify: Classifier, entries: seq<(PyObj, PyObj)>, i: int)
    requires 0 <= i < |entries|
  {
    entries[i].0.PyStr? && classify(entries[i].1).Ok?
  }

  /** Reading the first `n` properties succeeds exactly when each of them has a string key and a
      value that classifies; the schema then has one entry per key. */
  lemma {:induction false} FromEntriesRule(classify: Classifier, entries: seq<(PyObj, PyObj)>, n: nat)
    requires n <= |entries|
    ensures var r := FromEntries(classify, entries, n);
            && (r.Ok? <==> forall i :: 0 <= i < n ==> PropertyOk(classify, entries, i))
            && (r.Ok? ==> UniqueKeys(r.value))
            && (r.Ok? ==> forall k :: HasKey(r.value, k) <==> HasKey(entries[..n], PyStr(k)))
  {
    if n > 0 {
      FromEntriesRule(classify, entries, n - 1);
      var prev := FromEntries(classify, entries, n - 1);
      var r := FromEntries(classify, entries, n);
      assert r.Ok? <==> prev.Ok? && PropertyOk(classify, entries, n - 1);
      HasKeyPrefix(entries, n - 1);
    }
  }

  /** In a dict where no key repeats, each key's type is the classification of its value. */
  lemma {:induction false} FromEntriesTypes(classify: Classifier, entries: seq<(PyObj, PyObj)>, n: nat)
    requires n <= |entries| && UniqueKeys(entries)
    ensures var r := FromEntries(classify, entries, n);
            r.Ok? ==> forall i :: 0 <= i < n && entries[i].0.PyStr? ==>
                        classify(entries[i].1).Ok? && Lookup(r.value, entries[i].0.s) == Some(classify(entries[i].1).value)
  {
    if n > 0 {
      FromEntriesTypes(classify, entries, n - 1);
      var r := FromEntries(classify, entries, n);
      if r.Ok? {
        var prev := FromEntries(classify, entries, n - 1);
        var e := entries[n - 1];
        var t := classify(e.1).value;
        assert r.value == Insert(prev.value, e.0.s, t);
        forall i | 0 <= i < n - 1 && entries[i].0.PyStr?
          ensures classify(entries[i].1).Ok? && Lookup(r.value, entries[i].0.s) == Some(classify(entries[i].1).value)
        {
          UniqueKeysDistinct(entries, i, n - 1);
          InsertOther(prev.value, e.0.s, t, entries[i].0.s);
        }
      }
    }
  }

  /** A schema read from a dict of properties: it succeeds exactly when every key is a string
      and every value classifies; it then has one entry per property and, as no key of a Python
      dict repeats, the classification of each property's value as that property's type. */
  lemma FromPyAnyRule(props: PyObj)
    requires props.PyDict? && UniqueKeys(props.entries)
    ensures var r := FromPyAny(props);
            && (r.Ok? <==> forall i :: 0 <= i < |props.entries| ==>
                  props.entries[i].0.PyStr? && Records.Extract(props.entries[i].1).Ok?)
            && (r.Ok? ==> UniqueKeys(r.value.mapping))
            && (r.Ok? ==> forall k :: HasKey(r.value.mapping, k) <==> HasKey(props.entries, PyStr(k)))
            && (r.Ok? ==> forall i :: 0 <= i < |props.entries| ==>
                  props.entries[i].0.PyStr? && Records.Extract(props.entries[i].1).Ok?
                  && GetType(r.value, props.entries[i].0.s) == Some(Records.Extract(props.entries[i].1).value))
  {
    var entries := props.entries;
    FromEntriesRule(Records.Extract, entries, |entries|);
    FromEntriesTypes(Records.Extract, entries, |entries|);
    assert entries[..|entries|] == entries;
    var m := FromEntries(Records.Extract, entries, |entries|);
    var r := FromPyAny(props);
    assert r.Ok? <==> m.Ok?;
    if m.Ok? {
      assert r.value.mapping == m.value;
      assert forall i :: 0 <= i < |entries| ==> PropertyOk(Records.Extract, entries, i);
      forall i | 0 <= i < |entries|
        ensures entries[i].0.PyStr? && Records.Extract(entries[i].1).Ok?
                && GetType(r.value, entries[i].0.s) == Some(Records.Extract(entries[i].1).value)
      {
        assert PropertyOk(Records.Extract, entries, i);
      }
    }
  }

  /** The model name of a nested type, if it is one. */
  function NestedName(t: Option<Records.FieldType>): Option<string>
  {
    if t.Some? && t.value.Nested? then Some(t.value.modelName) else None
  }

  /** `Schema::extract_nested_fields`: the field name to model name map of the nested fields. */
  function ExtractNestedFields(mapping: seq<(string, Records.FieldType)>): (r: seq<(string, string)>)
    ensures forall k :: HasKey(r, k) ==> HasKey(mapping, k)
    ensures UniqueKeys(mapping) ==> UniqueKeys(r) && forall k :: Lookup(r, k) == NestedName(Lookup(mapping, k))
  {
    if mapping == [] then []
    else
      var rest := ExtractNestedFields(mapping[1..]);
      var e := mapping[0];
      if e.1.Nested? then [(e.0, e.1.modelName)] + rest else rest
  }
}
