// How the first generation turns a stored string back into a Python value
// (`src/pyparsers.rs`): the field's annotation is rendered as a name, the name
// picks a parser, and a name that is no supported type must name a registered
// model, whose instance is then looked up by the stored id.

module PyParsers {
  import opened Common
  import opened Values
  import opened SharedParsers
  import opened LegacyParsers
  import opened Models

  /** The element types of the homogeneous tuple, list and dict parsers. */
  datatype Scalar = IntS | FloatS | StrS | BoolS

  /** The element type's name inside a `typing` annotation. */
  function ScalarName(e: Scalar): string
  {
    match e
    case IntS => "int"
    case FloatS => "float"
    case StrS => "str"
    case BoolS => "bool"
  }

  /** Rust's `type_name` of the element type, which the list parser's error shows. */
  function ScalarTypeName(e: Scalar): string
  {
    match e
    case IntS => "i64"
    case FloatS => "f64"
    case StrS => "alloc::string::String"
    case BoolS => "bool"
  }

  /** `FromStr` of the element type, with the Python value it becomes. */
  function ElemParser(h: Host, e: Scalar): FromStr<PyObj>
  {
    match e
    case IntS => s => if ParseI64(s).Some? then Some(PyInt(ParseI64(s).value)) else None
    case FloatS => s => if h.isFloat(s) then Some(PyFloat(s)) else None
    case StrS => s => Some(PyStr(s))
    case BoolS => s => if s == "true" then Some(PyBool(true)) else if s == "false" then Some(PyBool(false)) else None
  }

  /** What an annotation name is read as. */
  datatype TypeKind =
    | IntK | FloatK | StrK | BoolK | DateK | DatetimeK
    | TupleK(elem: Scalar) | TupleUnsupported
    | ListK(item: Scalar) | ListUnsupported
    | DictK(key: Scalar, value: Scalar) | DictUnsupported
      /** any other name: a model's, or no type at all */
    | OtherK

  /** The element type of a `typing.Tuple[`/`typing.List[` name after its prefix, matched in
      the order int, float, str, bool. */
  function ElemPrefix(name: string, prefix: string): (r: Option<Scalar>)
    ensures r.Some? ==> StartsWith(name, prefix + ScalarName(r.value))
    ensures r.None? ==> forall e :: !StartsWith(name, prefix + ScalarName(e))
  {
    if StartsWith(name, prefix + "int") then Some(IntS)
    else if StartsWith(name, prefix + "float") then Some(FloatS)
    else if StartsWith(name, prefix + "str") then Some(StrS)
    else if StartsWith(name, prefix + "bool") then Some(BoolS)
    else
      assert forall e :: ScalarName(e) in {"int", "float", "str", "bool"};
      None
  }

  /** The twelve dict annotations with a parser: int, str or bool keys, any element type of value. */
  function DictName(k: Scalar, v: Scalar): string
  {
    "typing.Dict[" + ScalarName(k) + ", " + ScalarName(v) + "]"
  }

  predicate DictKey(k: Scalar) { k != FloatS }

  function DictKindOf(name: string): (r: Option<(Scalar, Scalar)>)
    ensures r.Some? <==> exists k, v :: DictKey(k) && name == DictName(k, v)
    ensures r.Some? ==> DictKey(r.value.0) && name == DictName(r.value.0, r.value.1)
  {
    if name == DictName(IntS, IntS) then Some((IntS, IntS))
    else if name == DictName(IntS, FloatS) then Some((IntS, FloatS))
    else if name == DictName(IntS, StrS) then Some((IntS, StrS))
    else if name == DictName(IntS, BoolS) then Some((IntS, BoolS))
    else if name == DictName(StrS, IntS) then Some((StrS, IntS))
    else if name == DictName(StrS, FloatS) then Some((StrS, FloatS))
    else if name == DictName(StrS, StrS) then Some((StrS, StrS))
    else if name == DictName(StrS, BoolS) then Some((StrS, BoolS))
    else if name == DictName(BoolS, StrS) then Some((BoolS, StrS))
    else if name == DictName(BoolS, IntS) then Some((BoolS, IntS))
    else if name == DictName(BoolS, FloatS) then Some((BoolS, FloatS))
    else if name == DictName(BoolS, BoolS) then Some((BoolS, BoolS))
    else None
  }

  /** The dispatch of `str_to_py_obj`: the exact scalar names first, then the tuple and list
      prefixes, then the twelve dict names; a `typing.Tuple[`, `typing.List[` or
      `typing.Dict[` name that none of them takes is unsupported. */
  function Kind(name: string): TypeKind
  {
    if name == "int" then IntK
    else if name == "float" then FloatK
    else if name == "str" then StrK
    else if name == "bool" then BoolK
    else if name == "date" then DateK
    else if name == "datetime" then DatetimeK
    else if ElemPrefix(name, "typing.Tuple[").Some? then TupleK(ElemPrefix(name, "typing.Tuple[").value)
    else if StartsWith(name, "typing.Tuple[") then TupleUnsupported
    else if ElemPrefix(name, "typing.List[").Some? then ListK(ElemPrefix(name, "typing.List[").value)
    else if StartsWith(name, "typing.List[") then ListUnsupported
    else if DictKindOf(name).Some? then DictK(DictKindOf(name).value.0, DictKindOf(name).value.1)
    else if StartsWith(name, "typing.Dict[") then DictUnsupported
    else OtherK
  }

  /** A kind with a parser. */
  predicate Supported(k: TypeKind)
  {
    match k
    case TupleUnsupported => false
    case ListUnsupported => false
    case DictUnsupported => false
    case OtherK => false
    case DictK(key, _) => DictKey(key)
    case _ => true
  }

  /** The annotation name of a supported kind. */
  function KindName(k: TypeKind): string
    requires Supported(k)
  {
    match k
    case IntK => "int"
    case FloatK => "float"
    case StrK => "str"
    case BoolK => "bool"
    case DateK => "date"
    case DatetimeK => "datetime"
    case TupleK(e) => "typing.Tuple[" + ScalarName(e) + "]"
    case ListK(e) => "typing.List[" + ScalarName(e) + "]"
    case DictK(key, v) => DictName(key, v)
  }

  // ---------------------------------------------------------------------------
  // The readers
  // ---------------------------------------------------------------------------

  /** `str_to_py_bool`: lower-cased first, then `bool::from_str`. */
  function ReadBool(value: string): (r: Result<PyObj>)
    ensures r.Ok? <==> Lower(value) == "true" || Lower(value) == "false"
    ensures r.Ok? ==> r.value == PyBool(Lower(value) == "true")
  {
    var b :- ParseBoolStr(Lower(value));
    Ok(PyBool(b))
  }

  /** `str_to_py_date`: midnight of a `%Y-%m-%d` date, as a Python date. */
  function ReadDate(h: Host, value: string): (r: Result<PyObj>)
    ensures r.Ok? <==> ParseDateToTimestamp(value).Ok?
    ensures r.Ok? ==> r.value == h.dateFromTimestamp(ParseDateToTimestamp(value).value)
  {
    var ts :- ParseDateToTimestamp(value);
    Ok(h.dateFromTimestamp(ts))
  }

  /** `str_to_py_datetime` as written: the datetime's timestamp is handed to
      `PyDate::from_timestamp`, so the value read is a date and its time of day is lost. */
  function ReadDatetimeAsWritten(h: Host, value: string): (r: Result<PyObj>)
    ensures r.Ok? <==> h.parseNaiveDatetime(value).Some?
    ensures r.Ok? ==> r.value == h.dateFromTimestamp(h.parseNaiveDatetime(value).value)
  {
    var ts :- LegacyParsers.ParseDatetimeToTimestamp(h, value);
    Ok(h.dateFromTimestamp(ts))
  }

  /** `str_to_py_datetime` as intended: the datetime of the timestamp. */
  function ReadDatetime(h: Host, value: string): (r: Result<PyObj>)
    ensures r.Ok? <==> h.parseNaiveDatetime(value).Some?
    ensures r.Ok? ==> r.value == h.datetimeFromTimestamp(h.parseNaiveDatetime(value).value)
    ensures r.Err? ==> r.error == ValueError("error parsing " + value + " as 'YYYY-MM-DD HH:MM:SS.mmmmmm'")
  {
    var ts :- LegacyParsers.ParseDatetimeToTimestamp(h, value);
    Ok(h.datetimeFromTimestamp(ts))
  }

  /** With Python's `date.fromtimestamp`, which only ever makes dates, the datetime read as
      written is never a datetime. */
  lemma DatetimeReadAsDate(h: Host, value: string)
    requires forall ts :: h.dateFromTimestamp(ts).PyDate?
    ensures ReadDatetimeAsWritten(h, value).Ok? ==> ReadDatetimeAsWritten(h, value).value.PyDate?
  {
  }

  /** With Python's `datetime.fromtimestamp`, the datetime read as intended is a datetime. */
  lemma DatetimeReadAsDatetime(h: Host, value: string)
    requires forall ts :: h.datetimeFromTimestamp(ts).PyDatetime?
    ensures ReadDatetime(h, value).Ok? ==> ReadDatetime(h, value).value.PyDatetime?
  {
  }

  /** `str_to_py_tuple::<T>`: the homogeneous tuple parse, made a Python tuple. */
  function ReadTuple(h: Host, e: Scalar, value: string): (r: Result<PyObj>)
    ensures var items := TuplePortions(value);
            && (r.Ok? <==> forall i :: 0 <= i < |items| ==> ElemParser(h, e)(items[i]).Some?)
            && (r.Ok? ==>
                  r.value.PyTuple? && |r.value.items| == |items|
                  && forall i :: 0 <= i < |items| ==> Some(r.value.items[i]) == ElemParser(h, e)(items[i]))
            && (r.Err? ==> r.error == TupleError)
  {
    var items :- ParseAll(ElemParser(h, e), TuplePortions(value), TupleError);
    Ok(PyTuple(items))
  }

  /** `str_to_py_list::<T>`. */
  function ReadList(h: Host, e: Scalar, value: string): (r: Result<PyObj>)
    ensures var items := ListPortions(value);
            && (r.Ok? <==> forall i :: 0 <= i < |items| ==> ElemParser(h, e)(items[i]).Some?)
            && (r.Ok? ==>
                  r.value.PyList? && |r.value.items| == |items|
                  && forall i :: 0 <= i < |items| ==> Some(r.value.items[i]) == ElemParser(h, e)(items[i]))
            && (r.Err? ==> r.error == ListError(value, ScalarTypeName(e)))
  {
    var items :- ParseAll(ElemParser(h, e), ListPortions(value), ListError(value, ScalarTypeName(e)));
    Ok(PyList(items))
  }

  function DictReader(h: Host, k: Scalar, v: Scalar): DictParser<PyObj, PyObj>
  {
    DictParser(ElemParser(h, k), ElemParser(h, v), ScalarTypeName(k), ScalarTypeName(v), ItemPortions)
  }

  /** `str_to_py_dict::<K, V>`. */
  function ReadDict(h: Host, k: Scalar, v: Scalar, value: string): (r: Result<PyObj>)
    ensures var items := DictPortions(value);
            && (r.Ok? <==> forall i :: 0 <= i < |items| ==> ItemParses(DictReader(h, k, v), items, i))
            && (r.Ok? ==> r.value.PyDict? && UniqueKeys(r.value.entries))
            && (r.Ok? ==> DictRead(DictReader(h, k, v), items, |items|, Ok(r.value.entries)))
  {
    var items := DictPortions(value);
    var entries :- DictOf(DictReader(h, k, v), items, |items|);
    Ok(PyDict(entries))
  }

  /** `find_one_by_raw_id` followed by `to_subclass_instance`: the model's stored instance under
      the raw id, if there is one.  It reads the database, so it is a parameter. */
  type Finder = (ModelMeta, string) -> Result<Option<PyObj>>

  /** `str_to_nested_model`: no stored instance reads as `None`. */
  function ReadNested(find: Finder, meta: ModelMeta, value: string): (r: Result<PyObj>)
    ensures find(meta, value).Err? ==> r == Err(find(meta, value).error)
    ensures find(meta, value) == Ok(None) ==> r == Ok(PyNone)
    ensures find(meta, value).Ok? && find(meta, value).value.Some? ==> r == Ok(find(meta, value).value.value)
  {
    var found :- find(meta, value);
    if found.None? then Ok(PyNone) else Ok(found.value)
  }

  /** `str_to_py_obj`: the stored string `value` read as the annotated type; `models` is the
      store's map from lower-cased model name to its meta. */
  function StrToPyObj(h: Host, models: map<string, ModelMeta>, find: Finder, value: string, ann: Annotation)
    : (r: Result<PyObj>)
    ensures var name := AnnotationName(ann);
            Kind(name) == OtherK && Lower(name) !in models ==> r == Err(TypeError("type annotation " + name + " is not supported"))
    ensures var name := AnnotationName(ann);
            Kind(name) == OtherK && Lower(name) in models ==> r == ReadNested(find, models[Lower(name)], value)
    ensures var k := Kind(AnnotationName(ann));
            (k.TupleUnsupported? || k.ListUnsupported? || k.DictUnsupported?) ==> r.Err? && r.error.TypeError?
    ensures Kind(AnnotationName(ann)) == StrK ==> r == Ok(PyStr(value))
    ensures Kind(AnnotationName(ann)) == BoolK ==> r == ReadBool(value)
    ensures Kind(AnnotationName(ann)) == IntK ==> (r.Ok? <==> ParseI64(value).Some?)
    ensures Kind(AnnotationName(ann)) == IntK && r.Ok? ==> r.value == PyInt(ParseI64(value).value)
    ensures Kind(AnnotationName(ann)) == FloatK ==> (r.Ok? <==> h.isFloat(value))
    ensures Kind(AnnotationName(ann)) == DateK ==> r == ReadDate(h, value)
    ensures Kind(AnnotationName(ann)) == DatetimeK ==> r == ReadDatetime(h, value)
  {
    var name := AnnotationName(ann);
    match Kind(name)
    case IntK =>
      var i :- ParseI64Str(value);
      Ok(PyInt(i))
    case FloatK => ParseF64Str(h, value)
    case StrK => Ok(PyStr(value))
    case BoolK => ReadBool(value)
    case DateK => ReadDate(h, value)
    case DatetimeK => ReadDatetime(h, value)
    case TupleK(e) => ReadTuple(h, e, value)
    case TupleUnsupported => Err(TypeError("tuples of type " + name + " are not supported yet"))
    case ListK(e) => ReadList(h, e, value)
    case ListUnsupported => Err(TypeError("lists of type " + name + " are not supported yet"))
    case DictK(k, v) => ReadDict(h, k, v, value)
    case DictUnsupported => Err(TypeError("dictionaries of type " + name + " are not supported yet"))
    case OtherK =>
      var modelName := Lower(name);
      if modelName in models then ReadNested(find, models[modelName], value)
      else Err(TypeError("type annotation " + name + " is not supported"))
  }

  // ---------------------------------------------------------------------------
  // Properties
  // ---------------------------------------------------------------------------

  /** A supported collection annotation reads its value with the homogeneous tuple, list or dict
      parser of its element types. */
  lemma CollectionsRead(h: Host, models: map<string, ModelMeta>, find: Finder, value: string, ann: Annotation)
    ensures var k := Kind(AnnotationName(ann));
            var r := StrToPyObj(h, models, find, value, ann);
            && (k.TupleK? ==> r == ReadTuple(h, k.elem, value))
            && (k.ListK? ==> r == ReadList(h, k.item, value))
            && (k.DictK? ==> r == ReadDict(h, k.key, k.value, value))
  {
    match Kind(AnnotationName(ann))
    case TupleK(e) =>
    case ListK(e) =>
    case DictK(key, v) =>
    case _ =>
  }

  /** Every supported kind is read back from its own annotation name. */
  lemma KindRoundTrip(k: TypeKind)
    requires Supported(k)
    ensures Kind(KindName(k)) == k
  {
    match k
    case TupleK(e) =>
      var name := KindName(k);
      PrefixOfConcat("typing.Tuple[" + ScalarName(e), "]");
      ElemPrefixOf(name, "typing.Tuple[", e);
    case ListK(e) =>
      var name := KindName(k);
      PrefixOfConcat("typing.List[" + ScalarName(e), "]");
      ElemPrefixOf(name, "typing.List[", e);
      NotPrefixAt(name, "typing.Tuple[", 7);
      NoElemPrefix(name, "typing.Tuple[");
    case DictK(key, v) =>
      var name := DictName(key, v);
      NotPrefixAt(name, "typing.Tuple[", 7);
      NotPrefixAt(name, "typing.List[", 7);
      NoElemPrefix(name, "typing.Tuple[");
      NoElemPrefix(name, "typing.List[");
      DictNameInjective(key, v);
    case _ =>
  }

  /** A string starts with each of its prefixes. */
  lemma PrefixOfConcat(a: string, b: string)
    ensures StartsWith(a + b, a)
  {
    assert (a + b)[..|a|] == a;
  }

  /** A string that differs from `p` at a position inside both does not start with `p`. */
  lemma NotPrefixAt(name: string, p: string, i: nat)
    requires i < |p| && i < |name| && name[i] != p[i]
    ensures !StartsWith(name, p)
  {
    assert |p| <= |name| ==> name[..|p|][i] == name[i];
  }

  /** Whatever starts with `a + b` starts with `a`. */
  lemma PrefixClosed(name: string, a: string, b: string)
    ensures StartsWith(name, a + b) ==> StartsWith(name, a)
  {
    if StartsWith(name, a + b) {
      assert name[..|a|] == (a + b)[..|a|] == a;
    }
  }

  /** The element names start with four different letters. */
  lemma ScalarNameFirst(e: Scalar, e': Scalar)
    requires ScalarName(e)[0] == ScalarName(e')[0]
    ensures e == e'
  {
  }

  /** A name that continues `prefix` with an element name is read as that element type. */
  lemma ElemPrefixOf(name: string, prefix: string, e: Scalar)
    requires StartsWith(name, prefix + ScalarName(e))
    ensures ElemPrefix(name, prefix) == Some(e)
  {
    var n := |prefix|;
    assert name[n] == (prefix + ScalarName(e))[n] == ScalarName(e)[0];
    forall e' | StartsWith(name, prefix + ScalarName(e')) ensures e' == e {
      assert name[n] == (prefix + ScalarName(e'))[n] == ScalarName(e')[0];
      ScalarNameFirst(e, e');
    }
  }

  lemma NoElemPrefix(name: string, prefix: string)
    requires !StartsWith(name, prefix)
    ensures ElemPrefix(name, prefix).None?
  {
    forall e ensures !StartsWith(name, prefix + ScalarName(e)) {
      PrefixClosed(name, prefix, ScalarName(e));
    }
  }

  lemma DictNameInjective(k: Scalar, v: Scalar)
    requires DictKey(k)
    ensures DictKindOf(DictName(k, v)) == Some((k, v))
  {
    var name := DictName(k, v);
    forall k', v' | DictName(k', v') == name ensures k' == k && v' == v {
      DictNameParts(k', v', k, v);
    }
  }

  /** The key and value types are read off a dict name at fixed positions. */
  lemma DictNameParts(k: Scalar, v: Scalar, k': Scalar, v': Scalar)
    requires DictName(k, v) == DictName(k', v')
    ensures k == k' && v == v'
  {
    var a := DictName(k, v);
    assert a[12] == ScalarName(k)[0];
    assert a[12] == DictName(k', v')[12] == ScalarName(k')[0];
    ScalarNameFirst(k, k');
    var j := 12 + |ScalarName(k)| + 2;
    assert a[j] == ScalarName(v)[0];
    assert DictName(k', v')[j] == ScalarName(v')[0];
    ScalarNameFirst(v, v');
  }
}
