// The values the core exchanges with its two neighbours: Python objects
// (what models, dicts and annotations are made of), Redis replies, and the
// commands the core queues on a Redis pipeline.  Also the host functions
// of chrono and of the Python runtime that the core calls and that are not
// part of the model; they are taken as parameters.

module Values {
  import opened Common

  /** A Python object, as far as the core inspects or produces one.  Dicts and
      model instances keep their entries in iteration order. */
  datatype PyObj =
    | PyNone
    | PyBool(b: bool)
    | PyInt(i: int)
    | PyFloat(text: string)
    | PyStr(s: string)
    | PyDate(year: int, month: int, day: int)
      /** a datetime, with its `str()`, its `repr()` and the `str()` of its conversion to UTC */
    | PyDatetime(text: string, reprText: string, utcText: string)
    | PyList(items: seq<PyObj>)
    | PyTuple(items: seq<PyObj>)
    | PyDict(entries: seq<(PyObj, PyObj)>)
      /** an instance of a model class, with its field values */
    | PyInstance(className: string, fields: seq<(string, PyObj)>)

  /** A dict whose keys are all strings, seen as the `HashMap<String, _>` pyo3 extracts from it. */
  function AsStrKeyed(entries: seq<(PyObj, PyObj)>): (r: Option<seq<(string, PyObj)>>)
    ensures r.Some? ==>
              |r.value| == |entries|
              && forall i :: 0 <= i < |entries| ==> entries[i] == (PyStr(r.value[i].0), r.value[i].1)
  {
    if entries == [] then Some([])
    else if !entries[0].0.PyStr? then None
    else match AsStrKeyed(entries[1..])
      case None => None
      case Some(rest) =>
        var r := [(entries[0].0.s, entries[0].1)] + rest;
        assert forall i :: 1 <= i < |entries| ==> entries[i] == entries[1..][i - 1] && r[i] == rest[i - 1];
        Some(r)
  }

  /** The first key of a dict that is not a string, if any. */
  function FirstNonStrKey(entries: seq<(PyObj, PyObj)>): (r: Option<PyObj>)
    ensures r.None? <==> forall i :: 0 <= i < |entries| ==> entries[i].0.PyStr?
    ensures r.Some? ==> !r.value.PyStr?
    ensures r.None? ==> AsStrKeyed(entries).Some?
  {
    if entries == [] then None
    else if !entries[0].0.PyStr? then Some(entries[0].0)
    else
      var r := FirstNonStrKey(entries[1..]);
      assert forall i :: 1 <= i < |entries| ==> entries[i] == entries[1..][i - 1];
      r
  }

  /** Seen with string keys, a dict keeps its keys apart exactly when it did before. */
  lemma {:induction false} StrKeyedUnique(entries: seq<(PyObj, PyObj)>)
    requires AsStrKeyed(entries).Some?
    ensures UniqueKeys(AsStrKeyed(entries).value) <==> UniqueKeys(entries)
  {
    if entries != [] {
      var r := AsStrKeyed(entries).value;
      StrKeyedUnique(entries[1..]);
      assert r[1..] == AsStrKeyed(entries[1..]).value;
      HasKeyIndex(r[1..], r[0].0);
      HasKeyIndex(entries[1..], entries[0].0);
      assert forall i :: 0 <= i < |r| - 1 ==> entries[1..][i] == (PyStr(r[1..][i].0), r[1..][i].1);
    }
  }

  /** A dict from string keys, as `into_py_dict` builds it from a HashMap. */
  function StrKeyedDict(entries: seq<(string, PyObj)>): (r: PyObj)
    ensures r.PyDict? && AsStrKeyed(r.entries) == Some(entries)
  {
    PyDict(StrKeys(entries))
  }

  function StrKeys(entries: seq<(string, PyObj)>): (r: seq<(PyObj, PyObj)>)
    ensures AsStrKeyed(r) == Some(entries)
  {
    if entries == [] then []
    else
      var r := [(PyStr(entries[0].0), entries[0].1)] + StrKeys(entries[1..]);
      assert r[1..] == StrKeys(entries[1..]);
      assert [(entries[0].0, entries[0].1)] + entries[1..] == entries;
      r
  }

  /** The name of the object's Python type. */
  function TypeName(v: PyObj): string
  {
    match v
    case PyNone => "NoneType"
    case PyBool(_) => "bool"
    case PyInt(_) => "int"
    case PyFloat(_) => "float"
    case PyStr(_) => "str"
    case PyDate(_, _, _) => "date"
    case PyDatetime(_, _, _) => "datetime"
    case PyList(_) => "list"
    case PyTuple(_) => "tuple"
    case PyDict(_) => "dict"
    case PyInstance(cls, _) => cls
  }

  /** The error of a failed pyo3 downcast or extraction of `v` to `target` ("PyDict", "PyString"...). */
  function DowncastError(v: PyObj, target: string): Error
  {
    TypeError("'" + TypeName(v) + "' object cannot be converted to '" + target + "'")
  }

  /** `dict.get_item(key)` for a string key: the position of the entry, if any. */
  function DictIndex(entries: seq<(PyObj, PyObj)>, key: string): (r: Option<nat>)
    ensures r.None? <==> !HasKey(entries, PyStr(key))
    ensures r.Some? ==> r.value < |entries| && entries[r.value].0 == PyStr(key)
  {
    FindIndex(entries, PyStr(key))
  }

  // ---------------------------------------------------------------------------
  // Python str() and repr()
  // ---------------------------------------------------------------------------

  /** Escapes a string for a Python string literal delimited by `q`. */
  function EscapeStr(s: string, q: char): string
  {
    if s == [] then []
    else
      var c := s[0];
      var e := if c == '\\' then "\\\\" else if c == q then ['\\', q] else if c == '\n' then "\\n"
               else if c == '\r' then "\\r" else if c == '\t' then "\\t" else [c];
      e + EscapeStr(s[1..], q)
  }

  /** `repr` of a str: single quotes, or double quotes when the text holds a single quote and no double quote. */
  function ReprStr(s: string): string
  {
    if '\'' in s && '"' !in s then "\"" + EscapeStr(s, '"') + "\"" else "'" + EscapeStr(s, '\'') + "'"
  }

  /** Zero-padded decimal of at least `width` digits (`%0Nd`). */
  function PadInt(n: int, width: nat): string
  {
    if n < 0 then "-" + PadDigits(NatToDigits(-n), width) else PadDigits(NatToDigits(n), width)
  }

  function PadDigits(d: string, width: nat): (r: string)
    ensures |r| >= width && |r| >= |d|
    decreases width - |d|
  {
    if |d| >= width then d else PadDigits("0" + d, width)
  }

  /** Python `str(v)`. */
  function PyStrOf(v: PyObj): string
    decreases v, 1
  {
    match v
    case PyNone => "None"
    case PyBool(b) => if b then "True" else "False"
    case PyInt(i) => IntToString(i)
    case PyFloat(t) => t
    case PyStr(s) => s
    case PyDate(y, m, d) => PadInt(y, 4) + "-" + PadInt(m, 2) + "-" + PadInt(d, 2)
    case PyDatetime(t, _, _) => t
    case PyInstance(_, fields) => Join(FieldReprs(fields, "="), " ")
    case _ => PyReprOf(v)
  }

  /** Python `repr(v)`. */
  function PyReprOf(v: PyObj): string
    decreases v, 0
  {
    match v
    case PyStr(s) => ReprStr(s)
    case PyDate(y, m, d) => "datetime.date(" + IntToString(y) + ", " + IntToString(m) + ", " + IntToString(d) + ")"
    case PyDatetime(_, r, _) => r
    case PyList(items) => "[" + Join(ReprItems(items), ", ") + "]"
    case PyTuple(items) => "(" + Join(ReprItems(items), ", ") + (if |items| == 1 then ",)" else ")")
    case PyDict(entries) => "{" + Join(EntryReprs(entries), ", ") + "}"
    case PyInstance(cls, fields) => cls + "(" + Join(FieldReprs(fields, "="), ", ") + ")"
    case PyNone => "None"
    case PyBool(b) => if b then "True" else "False"
    case PyInt(i) => IntToString(i)
    case PyFloat(t) => t
  }

  function ReprItems(items: seq<PyObj>): (r: seq<string>)
    ensures |r| == |items|
    decreases items
  {
    if items == [] then [] else [PyReprOf(items[0])] + ReprItems(items[1..])
  }

  function EntryReprs(entries: seq<(PyObj, PyObj)>): (r: seq<string>)
    ensures |r| == |entries|
    decreases entries
  {
    if entries == [] then [] else [EntryRepr(entries[0])] + EntryReprs(entries[1..])
  }

  function EntryRepr(e: (PyObj, PyObj)): string
    decreases e
  {
    PyReprOf(e.0) + ": " + PyReprOf(e.1)
  }

  function FieldReprs(fields: seq<(string, PyObj)>, sep: string): (r: seq<string>)
    ensures |r| == |fields|
    decreases fields
  {
    if fields == [] then [] else [FieldRepr(fields[0], sep)] + FieldReprs(fields[1..], sep)
  }

  function FieldRepr(f: (string, PyObj), sep: string): string
    decreases f
  {
    f.0 + sep + PyReprOf(f.1)
  }

  // ---------------------------------------------------------------------------
  // Redis
  // ---------------------------------------------------------------------------

  /** A reply of the Redis server, as the redis crate's `Value` gives it. */
  datatype RValue =
    | Nil
    | Int(i: int)
    | Data(bytes: string)
    | Bulk(items: seq<RValue>)
    | Status(text: string)
    | Okay

  /** The four server-side Lua scripts the readers evaluate. */
  datatype Script =
    | SelectSomeFieldsForAllIds
    | SelectAllFieldsForAllIds
    | SelectAllFieldsForSomeIds
    | SelectSomeFieldsForSomeIds

  /** A command queued on a Redis pipeline. */
  datatype Command =
    | Multi
    | Exec
    | HSet(key: string, fields: seq<(string, string)>)
    | Expire(key: string, seconds: nat)
    | SAdd(key: string, member: string)
    | Del(keys: seq<string>)
      /** `EVAL script numKeys args...`: the first `numKeys` args are KEYS, the rest ARGV */
    | Eval(script: Script, numKeys: nat, args: seq<string>)

  // ---------------------------------------------------------------------------
  // Host functions
  // ---------------------------------------------------------------------------

  /** Functions of chrono, of Rust's float parser and of Python's datetime module. */
  datatype Host = Host(
    /** chrono `DateTime::parse_from_str(s, "%Y-%m-%d %H:%M:%S%.6f%:z")`, as a Unix timestamp */
    parseZonedDatetime: string -> Option<int>,
    /** chrono `NaiveDateTime::parse_from_str(s, "%Y-%m-%d %H:%M:%S%.6f")`, as a Unix timestamp */
    parseNaiveDatetime: string -> Option<int>,
    /** whether Rust `f64::from_str` accepts the text */
    isFloat: string -> bool,
    /** Python `date.fromtimestamp(ts)` */
    dateFromTimestamp: int -> PyObj,
    /** Python `datetime.fromtimestamp(ts, timezone.utc)` */
    datetimeFromTimestamp: int -> PyObj,
    /** Rust's `{:?}` rendering of a `HashMap<String, Py<PyAny>>` (it shows object addresses) */
    debugObjects: seq<(string, PyObj)> -> string,
    /** the redis crate's `{:?}` rendering of a reply */
    debugValue: RValue -> string
  )
}
