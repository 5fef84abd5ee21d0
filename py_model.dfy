// The Python face of the first generation (`orredis/model.py`): a model class
// names its table after itself, normalises the arguments of insert, update,
// delete and select, and hands them to the store, whose methods are not part
// of this model; each operation is modelled by the store call it makes.  After
// a select it converts the rows: partial rows field by field through the
// class's type hints, whole rows through the class's constructor.

module PyModel {
  import opened Common
  import opened Values
  import opened SharedUtils
  import opened Models
  import opened OrredisStore

  /** A type hint of a model field: another model class (by its name and the name of its
      metaclass, which is what `type(x).__name__` gives for a class), or any other type. */
  datatype Hint = ModelHint(className: string, metaclassName: string) | PlainHint(name: string)

  /** A model class: its name, its `_primary_key_field`, its type hints (a dict, so no name twice)
      and its store's default life span. */
  datatype ModelCls = ModelCls(name: string, keyField: string, hints: seq<(string, Hint)>, defaultLifeSpan: Option<nat>)

  /** The call a class method makes on the store's connection, with its arguments. */
  datatype StoreCall =
    | InsertDictList(table: string, keyField: string, rows: seq<seq<(string, PyObj)>>, lifeSpan: Option<nat>)
    | InsertDict(table: string, keyField: string, row: seq<(string, PyObj)>, lifeSpan: Option<nat>)
    | Update(table: string, key: PyObj, data: seq<(PyObj, PyObj)>, lifeSpan: Option<nat>)
    | Delete(table: string, ids: seq<PyObj>)
    | Select(table: string, selected: Option<seq<PyObj>>, columns: Option<seq<string>>, nestedColumns: seq<(string, string)>)

  // ---------------------------------------------------------------------------
  // Names and keys
  // ---------------------------------------------------------------------------

  /** `__get_table_name`: the lower-cased class name, the same name `Model.get_name` gives. */
  function TableName(cls: ModelCls): (r: string)
    ensures r == ModelName(cls.name) && Lower(r) == r
  {
    Lower(cls.name)
  }

  /** `__get_primary_key`: the table name, the separator, and the `str()` of the key value; the
      key of the same hash that `generate_hash_key` names. */
  function PrimaryKeyOf(cls: ModelCls, value: PyObj): (r: string)
    ensures r == GenerateHashKey(TableName(cls), PyStrOf(value))
  {
    Lower(cls.name) + "_%&_" + PyStrOf(value)
  }

  /** Two values with different `str()` get different keys in one table. */
  lemma PrimaryKeyInjective(cls: ModelCls, a: PyObj, b: PyObj)
    requires PrimaryKeyOf(cls, a) == PrimaryKeyOf(cls, b)
    ensures PyStrOf(a) == PyStrOf(b)
  {
    HashKeyInjective(TableName(cls), PyStrOf(a), PyStrOf(b));
  }

  // ---------------------------------------------------------------------------
  // insert, update, delete
  // ---------------------------------------------------------------------------

  /** `type(x)` as an f-string renders it. */
  function ClassText(v: PyObj): string
  {
    "<class '" + TypeName(v) + "'>"
  }

  /** `record.dict()` of a list item: a model instance's fields; anything else has no `dict`. */
  function RowOf(v: PyObj): (r: Result<seq<(string, PyObj)>>)
    ensures r.Ok? <==> v.PyInstance?
    ensures r.Ok? ==> r.value == v.fields
  {
    if v.PyInstance? then Ok(v.fields)
    else Err(AttributeError("'" + TypeName(v) + "' object has no attribute 'dict'"))
  }

  /** `[record.dict() for record in data]`: stops at the first item without `dict`. */
  function Rows(items: seq<PyObj>): (r: Result<seq<seq<(string, PyObj)>>>)
    ensures r.Ok? <==> forall i :: 0 <= i < |items| ==> items[i].PyInstance?
    ensures r.Ok? ==> |r.value| == |items| && forall i :: 0 <= i < |items| ==> r.value[i] == items[i].fields
  {
    if items == [] then Ok([])
    else
      var row :- RowOf(items[0]);
      var rest :- Rows(items[1..]);
      assert forall i :: 1 <= i < |items| ==> items[i] == items[1..][i - 1];
      Ok([row] + rest)
  }

  /** `insert`: a list is written as the rows of its items, a model instance as its own row, and
      anything else is a ValueError; the life span is the explicit one, else the store's. */
  function InsertData(cls: ModelCls, data: PyObj, lifeSpan: Option<nat>): (r: Result<StoreCall>)
    ensures data.PyList? ==>
              (r.Ok? <==> forall i :: 0 <= i < |data.items| ==> data.items[i].PyInstance?)
    ensures data.PyList? && r.Ok? ==>
              r.value.InsertDictList? && |r.value.rows| == |data.items|
              && forall i :: 0 <= i < |data.items| ==> r.value.rows[i] == data.items[i].fields
    ensures data.PyInstance? ==> r == Ok(InsertDict(TableName(cls), cls.keyField, data.fields, EffectiveTtl(lifeSpan, cls.defaultLifeSpan)))
    ensures !data.PyList? && !data.PyInstance? ==>
              r == Err(ValueError("data should be a model or a list of models not " + ClassText(data)))
    ensures r.Ok? ==> r.value.table == TableName(cls) && r.value.lifeSpan == EffectiveTtl(lifeSpan, cls.defaultLifeSpan)
  {
    var ls := EffectiveTtl(lifeSpan, cls.defaultLifeSpan);
    match data
    case PyList(items) =>
      var rows :- Rows(items);
      Ok(InsertDictList(TableName(cls), cls.keyField, rows, ls))
    case PyInstance(_, fields) => Ok(InsertDict(TableName(cls), cls.keyField, fields, ls))
    case _ => Err(ValueError("data should be a model or a list of models not " + ClassText(data)))
  }

  /** `update`: only a dict is accepted as the new data. */
  function UpdateRow(cls: ModelCls, id: PyObj, data: PyObj, lifeSpan: Option<nat>): (r: Result<StoreCall>)
    ensures r.Ok? <==> data.PyDict?
    ensures r.Ok? ==> r.value == Update(TableName(cls), id, data.entries, EffectiveTtl(lifeSpan, cls.defaultLifeSpan))
    ensures r.Err? ==> r.error == ValueError("data should be a dict not " + ClassText(data))
  {
    if data.PyDict? then Ok(Update(TableName(cls), id, data.entries, EffectiveTtl(lifeSpan, cls.defaultLifeSpan)))
    else Err(ValueError("data should be a dict not " + ClassText(data)))
  }

  /** `delete`: a list of ids as it is, None as no ids, any other value as the one id. */
  function DeleteIds(cls: ModelCls, ids: PyObj): (r: StoreCall)
    ensures r.Delete? && r.table == TableName(cls)
    ensures ids.PyList? ==> r.ids == ids.items
    ensures ids.PyNone? ==> r.ids == []
    ensures !ids.PyList? && !ids.PyNone? ==> r.ids == [ids]
  {
    var keys := match ids
      case PyList(items) => items
      case PyNone => []
      case _ => [ids];
    Delete(TableName(cls), keys)
  }

  // ---------------------------------------------------------------------------
  // select
  // ---------------------------------------------------------------------------

  /** The hint of a name, with `str` for a name the class does not declare. */
  function HintOf(hints: seq<(string, Hint)>, name: string): (r: Hint)
    ensures !HasKey(hints, name) ==> r == PlainHint("str")
    ensures HasKey(hints, name) ==> Some(r) == Lookup(hints, name)
  {
    match Lookup(hints, name)
    case Some(t) => t
    case None => PlainHint("str")
  }

  /** `__get_nested_columns`: without columns, every model-typed field of the class; with
      columns, those of them that are model-typed fields.  Each maps to the name of its hint's
      metaclass. */
  method NestedColumns(cls: ModelCls, columns: Option<seq<string>>) returns (r: seq<(string, string)>)
    requires UniqueKeys(cls.hints)
    ensures UniqueKeys(r)
    ensures columns.None? ==> forall c :: HasKey(r, c) <==> HintOf(cls.hints, c).ModelHint?
    ensures columns.Some? ==> forall c :: HasKey(r, c) <==> c in columns.value && HintOf(cls.hints, c).ModelHint?
    ensures forall c :: HasKey(r, c) ==> Lookup(r, c) == Some(HintOf(cls.hints, c).metaclassName)
  {
    r := [];
    if columns.None? {
      var hints := cls.hints;
      for i := 0 to |hints|
        invariant UniqueKeys(r)
        invariant forall c :: HasKey(r, c) <==> HasKey(hints[..i], c) && HintOf(hints, c).ModelHint?
        invariant forall c :: HasKey(r, c) ==> Lookup(r, c) == Some(HintOf(hints, c).metaclassName)
      {
        var field, t := hints[i].0, hints[i].1;
        HasKeyPrefix(hints, i);
        HintAt(hints, i);
        if t.ModelHint? {
          forall c | c != field ensures Lookup(Insert(r, field, t.metaclassName), c) == Lookup(r, c) {
            InsertOther(r, field, t.metaclassName, c);
          }
          r := Insert(r, field, t.metaclassName);
        }
      }
      assert hints[..|hints|] == hints;
      forall c ensures HintOf(hints, c).ModelHint? ==> HasKey(hints, c) { }
    } else {
      var cols := columns.value;
      for i := 0 to |cols|
        invariant UniqueKeys(r)
        invariant forall c :: HasKey(r, c) <==> c in cols[..i] && HintOf(cls.hints, c).ModelHint?
        invariant forall c :: HasKey(r, c) ==> Lookup(r, c) == Some(HintOf(cls.hints, c).metaclassName)
      {
        var col := cols[i];
        var t := HintOf(cls.hints, col);
        assert cols[..i + 1] == cols[..i] + [col];
        if t.ModelHint? {
          forall c | c != col ensures Lookup(Insert(r, col, t.metaclassName), c) == Lookup(r, c) {
            InsertOther(r, col, t.metaclassName, c);
          }
          r := Insert(r, col, t.metaclassName);
        }
      }
      assert cols[..|cols|] == cols;
    }
  }

  /** In a dict the entry at `i` holds the hint of its own name. */
  lemma HintAt(hints: seq<(string, Hint)>, i: nat)
    requires UniqueKeys(hints) && i < |hints|
    ensures HintOf(hints, hints[i].0) == hints[i].1
  {
    HasKeyIndex(hints, hints[i].0);
    var k := FindIndex(hints, hints[i].0).value;
    if k != i {
      if k < i { UniqueKeysDistinct(hints, k, i); } else { UniqueKeysDistinct(hints, i, k); }
    }
  }

  /** The store call of `select`. */
  method SelectCall(cls: ModelCls, columns: Option<seq<string>>, ids: Option<seq<PyObj>>) returns (r: StoreCall)
    requires UniqueKeys(cls.hints)
    ensures r.Select? && r.table == TableName(cls) && r.selected == ids && r.columns == columns
    ensures UniqueKeys(r.nestedColumns)
    ensures columns.None? ==> forall c :: HasKey(r.nestedColumns, c) <==> HintOf(cls.hints, c).ModelHint?
    ensures columns.Some? ==> forall c :: HasKey(r.nestedColumns, c) <==> c in columns.value && HintOf(cls.hints, c).ModelHint?
    ensures forall c :: HasKey(r.nestedColumns, c) ==> Lookup(r.nestedColumns, c) == Some(HintOf(cls.hints, c).metaclassName)
  {
    var nested := NestedColumns(cls, columns);
    r := Select(TableName(cls), ids, columns, nested);
  }

  /** Calling a type hint on a stored value (`int(v)`, `float(v)`, a model class, ...); not part
      of this model. */
  type Converter = (Hint, PyObj) -> Result<PyObj>

  /** The value of a partial row's field: converted by its hint, or `str()` for an undeclared
      name. */
  function ConvertValue(hints: seq<(string, Hint)>, convert: Converter, k: string, v: PyObj): (r: Result<PyObj>)
    ensures !HasKey(hints, k) ==> r == Ok(PyStr(PyStrOf(v)))
    ensures HasKey(hints, k) ==> r == convert(HintOf(hints, k), v)
  {
    match Lookup(hints, k)
    case None => Ok(PyStr(PyStrOf(v)))
    case Some(t) => convert(t, v)
  }

  /** `__parse_partially`: every row, every field converted by the class's hints; the rows keep
      their order and each keeps its field names in order.  A row is a dict, so a name is new
      when it is set and goes last. */
  method ParsePartially(hints: seq<(string, Hint)>, convert: Converter, data: seq<seq<(string, PyObj)>>)
    returns (r: Result<seq<seq<(string, PyObj)>>>)
    ensures r.Ok? <==> forall i, j :: 0 <= i < |data| && 0 <= j < |data[i]| ==>
                         ConvertValue(hints, convert, data[i][j].0, data[i][j].1).Ok?
    ensures r.Ok? ==> |r.value| == |data|
    ensures r.Ok? ==> forall i :: 0 <= i < |data| ==> |r.value[i]| == |data[i]|
    ensures r.Ok? ==> forall i, j :: 0 <= i < |data| && 0 <= j < |data[i]| ==>
                        r.value[i][j] == (data[i][j].0, ConvertValue(hints, convert, data[i][j].0, data[i][j].1).value)
  {
    var parsed: seq<seq<(string, PyObj)>> := [];
    for i := 0 to |data|
      invariant |parsed| == i
      invariant forall a, j :: 0 <= a < i && 0 <= j < |data[a]| ==>
                  ConvertValue(hints, convert, data[a][j].0, data[a][j].1).Ok?
      invariant forall a :: 0 <= a < i ==> |parsed[a]| == |data[a]|
      invariant forall a, j :: 0 <= a < i && 0 <= j < |data[a]| ==>
                  parsed[a][j] == (data[a][j].0, ConvertValue(hints, convert, data[a][j].0, data[a][j].1).value)
    {
      var item := data[i];
      var newValue: seq<(string, PyObj)> := [];
      for j := 0 to |item|
        invariant |newValue| == j
        invariant forall b :: 0 <= b < j ==> ConvertValue(hints, convert, item[b].0, item[b].1).Ok?
        invariant forall b :: 0 <= b < j ==> newValue[b] == (item[b].0, ConvertValue(hints, convert, item[b].0, item[b].1).value)
      {
        var (k, v) := item[j];
        var x := ConvertValue(hints, convert, k, v);
        if x.Err? {
          return Err(x.error);
        }
        newValue := newValue + [(k, x.value)];
      }
      parsed := parsed + [newValue];
    }
    return Ok(parsed);
  }

  /** A row whose every field converts, with each value replaced by its converted one. */
  function ConvertedRow(hints: seq<(string, Hint)>, convert: Converter, row: seq<(string, PyObj)>): seq<(string, PyObj)>
    requires forall j :: 0 <= j < |row| ==> ConvertValue(hints, convert, row[j].0, row[j].1).Ok?
  {
    seq(|row|, j requires 0 <= j < |row| => (row[j].0, ConvertValue(hints, convert, row[j].0, row[j].1).value))
  }

  /** What `select` returns for the store's rows: with columns given (and not empty), the rows
      converted field by field, failing iff some field does not convert; otherwise each row
      built into an instance of the class. */
  method SelectResult(cls: ModelCls, convert: Converter, construct: seq<(string, PyObj)> -> Result<PyObj>,
                      columns: Option<seq<string>>, response: seq<seq<(string, PyObj)>>)
    returns (r: Result<seq<PyObj>>)
    ensures columns.Some? && columns.value != [] ==>
              (r.Ok? <==> forall i, j :: 0 <= i < |response| && 0 <= j < |response[i]| ==>
                            ConvertValue(cls.hints, convert, response[i][j].0, response[i][j].1).Ok?)
    ensures columns.Some? && columns.value != [] && r.Ok? ==>
              |r.value| == |response| &&
              forall i :: 0 <= i < |response| ==> r.value[i] == StrKeyedDict(ConvertedRow(cls.hints, convert, response[i]))
    ensures (columns.None? || columns.value == []) ==>
              (r.Ok? <==> forall i :: 0 <= i < |response| ==> construct(response[i]).Ok?)
    ensures (columns.None? || columns.value == []) && r.Ok? ==>
              |r.value| == |response| && forall i :: 0 <= i < |response| ==> r.value[i] == construct(response[i]).value
  {
    if columns.Some? && columns.value != [] {
      var rows := ParsePartially(cls.hints, convert, response);
      if rows.Err? {
        return Err(rows.error);
      }
      var dicts: seq<PyObj> := [];
      for i := 0 to |rows.value|
        invariant |dicts| == i
        invariant forall a :: 0 <= a < i ==> dicts[a] == StrKeyedDict(ConvertedRow(cls.hints, convert, response[a]))
      {
        assert rows.value[i] == ConvertedRow(cls.hints, convert, response[i]);
        dicts := dicts + [StrKeyedDict(rows.value[i])];
      }
      return Ok(dicts);
    }
    var out: seq<PyObj> := [];
    for i := 0 to |response|
      invariant |out| == i
      invariant forall a :: 0 <= a < i ==> construct(response[a]).Ok? && out[a] == construct(response[a]).value
    {
      var x := construct(response[i]);
      if x.Err? {
        return Err(x.error);
      }
      out := out + [x.value];
    }
    return Ok(out);
  }
}
