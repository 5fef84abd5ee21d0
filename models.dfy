// The model type of the first generation (`src/model.rs`): a model instance
// keeps its field values in a map that attribute access reads and updates in
// place, and `ModelMeta` records what the store needs to know of a model
// class (its public fields and its primary-key field).

module Models {
  import opened Common
  import opened Values

  /** A field's type annotation: a class, by its `__name__`, or any other object (a `typing`
      alias such as `typing.List[int]`), by its `str()` and the `__name__` of its own type
      (`_GenericAlias` for `typing.List[int]`). */
  datatype Annotation = ClassAnn(name: string) | AliasAnn(text: string, typeName: string)

  /** The name the dispatchers compare: `downcast::<PyType>()` then `name()`, else `to_string()`. */
  function AnnotationName(a: Annotation): string
  {
    match a
    case ClassAnn(n) => n
    case AliasAnn(t, _) => t
  }

  /** The panic of `Option::unwrap()` on `None`. */
  const UnwrapNone: Error := Panic("called `Option::unwrap()` on a `None` value")

  /** `__getattr__` and `get`: the stored value, or an AttributeError naming the attribute. */
  function Attr(data: seq<(string, PyObj)>, name: string): (r: Result<PyObj>)
    ensures r.Ok? <==> HasKey(data, name)
    ensures r.Ok? ==> Lookup(data, name) == Some(r.value)
    ensures r.Err? ==> r.error == AttributeError(name)
  {
    match Lookup(data, name)
    case Some(v) => Ok(v)
    case None => Err(AttributeError(name))
  }

  /** An instance of a model class. */
  class Model {
    /** `_data`: field name to value */
    var data: seq<(string, PyObj)>

    ghost predicate Valid()
      reads this
    {
      UniqueKeys(data)
    }

    /** `Model::empty`. */
    constructor Empty()
      ensures Valid() && data == []
    {
      data := [];
    }

    constructor FromMap(d: seq<(string, PyObj)>)
      requires UniqueKeys(d)
      ensures Valid() && data == d
    {
      data := d;
    }

    /** `Model::new(**kwargs)`: no keyword arguments give an empty model; otherwise the map is
        the keyword dict, which must have string keys. */
    static method New(kwargs: Option<seq<(PyObj, PyObj)>>) returns (r: Result<Model>)
      requires kwargs.Some? ==> UniqueKeys(kwargs.value)
      ensures kwargs.None? ==> r.Ok? && r.value.data == []
      ensures kwargs.Some? ==> (r.Ok? <==> AsStrKeyed(kwargs.value).Some?)
      ensures r.Ok? ==> fresh(r.value) && r.value.Valid()
      ensures r.Ok? && kwargs.Some? ==> r.value.data == AsStrKeyed(kwargs.value).value
      ensures r.Err? ==> kwargs.Some? && FirstNonStrKey(kwargs.value).Some?
                         && r.error == DowncastError(FirstNonStrKey(kwargs.value).value, "PyString")
    {
      if kwargs.None? {
        var m := new Model.Empty();
        return Ok(m);
      }
      var d := AsStrKeyed(kwargs.value);
      if d.None? {
        return Err(DowncastError(FirstNonStrKey(kwargs.value).value, "PyString"));
      }
      StrKeyedUnique(kwargs.value);
      var m := new Model.FromMap(d.value);
      return Ok(m);
    }

    function GetAttr(name: string): Result<PyObj>
      reads this
    {
      Attr(data, name)
    }

    /** `dict`: the map, handed out by value, so later updates of the model do not reach it. */
    method Dict() returns (r: seq<(string, PyObj)>)
      ensures r == data
    {
      r := data;
    }

    /** `__setattr__`: the map is updated first, and the `unwrap` of the previous value then
        panics when the attribute was not there before. */
    method SetAttr(name: string, value: PyObj) returns (r: Result<()>)
      requires Valid()
      modifies this
      ensures Valid()
      ensures data == Insert(old(data), name, value)
      ensures r.Err? <==> !HasKey(old(data), name)
      ensures r.Err? ==> r.error == UnwrapNone
      ensures GetAttr(name) == Ok(value)
      ensures forall k :: k != name ==> GetAttr(k) == old(GetAttr(k))
    {
      var present := HasKey(data, name);
      forall k | k != name
        ensures Lookup(Insert(data, name, value), k) == Lookup(data, k)
      {
        InsertOther(data, name, value, k);
      }
      data := Insert(data, name, value);
      r := if present then Ok(()) else Err(UnwrapNone);
    }

    /** `__delattr__`: the attribute is removed, and the `unwrap` panics when it was not there. */
    method DelAttr(name: string) returns (r: Result<()>)
      requires Valid()
      modifies this
      ensures Valid()
      ensures data == Remove(old(data), name)
      ensures r.Err? <==> !HasKey(old(data), name)
      ensures r.Err? ==> r.error == UnwrapNone
      ensures GetAttr(name) == Err(AttributeError(name))
      ensures forall k :: k != name ==> GetAttr(k) == old(GetAttr(k))
    {
      var present := HasKey(data, name);
      forall k | k != name
        ensures Lookup(Remove(data, name), k) == Lookup(data, k)
      {
        RemoveOther(data, name, k);
      }
      data := Remove(data, name);
      r := if present then Ok(()) else Err(UnwrapNone);
    }
  }

  /** `get_name`: the lower-cased class name, which names the model's collection. */
  function ModelName(className: string): (r: string)
    ensures |r| == |className|
    ensures forall i :: 0 <= i < |r| ==> r[i] == LowerChar(className[i])
    ensures Lower(r) == r
  {
    var r := Lower(className);
    assert forall i :: 0 <= i < |r| ==> Lower(r)[i] == r[i];
    r
  }

  /** `get_instance_model_name` as written: `getattr(value, "__class__.__name__")` looks up
      one attribute of that dotted name, which no model instance has, so the lookup falls
      through to the model's `__getattr__` and its field map. */
  function InstanceModelNameAsWritten(fields: seq<(string, PyObj)>): (r: Result<string>)
    ensures !HasKey(fields, "__class__.__name__") ==> r == Err(AttributeError("__class__.__name__"))
    ensures r.Ok? ==> Lookup(fields, "__class__.__name__").Some?
                      && Lookup(fields, "__class__.__name__").value.PyStr?
  {
    var v :- Attr(fields, "__class__.__name__");
    if v.PyStr? then Ok(Lower(v.s)) else Err(DowncastError(v, "PyString"))
  }

  /** A nested model instance with ordinary fields has no model name, as written, while the
      name of its class is at hand. */
  lemma InstanceNameNotFound()
    ensures InstanceModelNameAsWritten([("name", PyStr("Jane"))]) == Err(AttributeError("__class__.__name__"))
    ensures ModelName("Author") == "author"
  {
    assert !HasKey([("name", PyStr("Jane"))], "__class__.__name__");
  }

  // ---------------------------------------------------------------------------
  // ModelMeta
  // ---------------------------------------------------------------------------

  /** What the store keeps of a model class. */
  datatype ModelMeta = ModelMeta(fields: seq<(string, Annotation)>, primaryKeyField: string)

  /** A class handed to `ModelMeta::new`: its `__name__`, its `str()`, whether it derives from
      `Model`, its type hints and its `_primary_key_field`, if set. */
  datatype ModelClass = ModelClass(name: string, text: string, isModel: bool,
                                   hints: seq<(string, Annotation)>, primaryKeyField: Option<string>)

  /** The TypeError of extracting a hint that is not a class as a `PyType`; it names the type
      of the refused object. */
  function NotAClassError(typeName: string): Error
  {
    TypeError("'" + typeName + "' object cannot be converted to 'PyType'")
  }

  /** The type name of the first hint, in iteration order, that is not a class. */
  function FirstAlias(hints: seq<(string, Annotation)>): (r: Option<string>)
    ensures r.None? <==> forall i :: 0 <= i < |hints| ==> hints[i].1.ClassAnn?
    ensures r.Some? ==> exists i :: 0 <= i < |hints| && hints[i].1.AliasAnn? && hints[i].1.typeName == r.value
  {
    if hints == [] then None
    else if hints[0].1.AliasAnn? then Some(hints[0].1.typeName)
    else
      var rest := FirstAlias(hints[1..]);
      assert forall i :: 1 <= i < |hints| ==> hints[i] == hints[1..][i - 1];
      rest
  }

  /** The hints whose names do not start with `_`. */
  function PublicHints(hints: seq<(string, Annotation)>): (r: seq<(string, Annotation)>)
    ensures forall k :: HasKey(r, k) <==> HasKey(hints, k) && !StartsWith(k, "_")
    ensures forall k :: !StartsWith(k, "_") ==> Lookup(r, k) == Lookup(hints, k)
    ensures UniqueKeys(hints) ==> UniqueKeys(r)
  {
    if hints == [] then []
    else
      var rest := PublicHints(hints[1..]);
      if StartsWith(hints[0].0, "_") then rest else [hints[0]] + rest
  }

  /** `get_fields`: the type hints, extracted as a map from names to classes, then those whose
      names do not start with `_`.  The extraction refuses any hint that is not a class (a
      `typing` alias such as `typing.List[str]`), before the filter runs. */
  function GetFields(hints: seq<(string, Annotation)>): (r: Result<seq<(string, Annotation)>>)
    ensures r.Ok? <==> forall i :: 0 <= i < |hints| ==> hints[i].1.ClassAnn?
    ensures r.Err? ==> exists i :: 0 <= i < |hints| && hints[i].1.AliasAnn? && r.error == NotAClassError(hints[i].1.typeName)
    ensures r.Ok? ==> forall k :: HasKey(r.value, k) <==> HasKey(hints, k) && !StartsWith(k, "_")
    ensures r.Ok? ==> forall k :: !StartsWith(k, "_") ==> Lookup(r.value, k) == Lookup(hints, k)
    ensures r.Ok? && UniqueKeys(hints) ==> UniqueKeys(r.value)
  {
    match FirstAlias(hints)
    case Some(t) => Err(NotAClassError(t))
    case None => Ok(PublicHints(hints))
  }

  /** `get_primary_key_field`, or the AttributeError of an unset class attribute. */
  function PrimaryKeyField(c: ModelClass): (r: Result<string>)
    ensures r.Ok? <==> c.primaryKeyField.Some?
    ensures r.Ok? ==> r.value == c.primaryKeyField.value
  {
    match c.primaryKeyField
    case Some(f) => Ok(f)
    case None => Err(AttributeError("type object '" + c.name + "' has no attribute '_primary_key_field'"))
  }

  /** The second argument of Python's `issubclass`: the `Model` class, or some other object. */
  datatype SubclassArg = ModelBase | Text(s: string)

  const IssubclassArgError: Error := TypeError("issubclass() arg 2 must be a class, a tuple of classes, or a union")

  /** Python `issubclass(c, arg)`: only a class is accepted as `arg`. */
  function Issubclass(c: ModelClass, arg: SubclassArg): (r: Result<bool>)
    ensures arg.Text? ==> r == Err(IssubclassArgError)
    ensures arg.ModelBase? ==> r == Ok(c.isModel)
  {
    match arg
    case ModelBase => Ok(c.isModel)
    case Text(_) => Err(IssubclassArgError)
  }

  /** The body of `ModelMeta::new`, with the object it hands to `issubclass`. */
  function NewMetaWith(c: ModelClass, arg: SubclassArg): Result<ModelMeta>
  {
    var isModel :- Issubclass(c, arg);
    if !isModel then Err(ValueError(c.text + " is not of type Model"))
    else
      var fields :- GetFields(c.hints);
      var pk :- PrimaryKeyField(c);
      Ok(ModelMeta(fields, pk))
  }

  /** `ModelMeta::new` as written: it passes the text "builtins.Model" to `issubclass`, which
      refuses it, so no class is ever accepted. */
  function NewMetaAsWritten(c: ModelClass): (r: Result<ModelMeta>)
    ensures r == Err(IssubclassArgError)
  {
    NewMetaWith(c, Text("builtins.Model"))
  }

  /** `ModelMeta::new` with the `Model` class itself: a model class whose hints are all classes
      and which has a primary-key field gives its public fields and that field; any other class
      is a ValueError, and a hint that is not a class is the extraction's TypeError. */
  function NewMeta(c: ModelClass): (r: Result<ModelMeta>)
    ensures r.Ok? <==> c.isModel && (forall i :: 0 <= i < |c.hints| ==> c.hints[i].1.ClassAnn?) && c.primaryKeyField.Some?
    ensures r.Ok? ==> r.value == ModelMeta(PublicHints(c.hints), c.primaryKeyField.value)
    ensures !c.isModel ==> r == Err(ValueError(c.text + " is not of type Model"))
    ensures c.isModel && FirstAlias(c.hints).Some? ==> r == Err(NotAClassError(FirstAlias(c.hints).value))
  {
    NewMetaWith(c, ModelBase)
  }

  /** A model class that `NewMeta` accepts and the code as written refuses. */
  lemma MetaRefusedAsWritten()
    ensures var c := ModelClass("Book", "<class 'Book'>", true, [("title", ClassAnn("str"))], Some("title"));
            && NewMeta(c) == Ok(ModelMeta([("title", ClassAnn("str"))], "title"))
            && NewMetaAsWritten(c).Err?
  {
    var hints := [("title", ClassAnn("str"))];
    assert "title"[..1] == "t";
    assert hints[1..] == [];
    assert PublicHints(hints) == hints;
  }

  /** A model class with a `typing` alias among its hints is refused by the extraction in
      `get_fields`, whatever the hint's name; the error names the alias's type. */
  lemma AliasHintRefused()
    ensures var c := ModelClass("Book", "<class 'Book'>", true,
                                [("title", ClassAnn("str")), ("tags", AliasAnn("typing.List[str]", "_GenericAlias"))], Some("title"));
            NewMeta(c) == Err(NotAClassError("_GenericAlias"))
  {
    var hints := [("title", ClassAnn("str")), ("tags", AliasAnn("typing.List[str]", "_GenericAlias"))];
    assert hints[1..][0].1.AliasAnn?;
    assert FirstAlias(hints[1..]) == Some("_GenericAlias");
  }
}
