// The first generation's write and read helpers (`src/redis_utils.rs`) and
// their later copy without a collection index (`src/redis_utils_del.rs`).
// A model instance is written by queueing commands on a pipeline: the hashes
// of its nested model instances first (depth first, field by field), then its
// own HSET, whose nested fields hold the keys of those hashes.  Both files
// share this recursion; they differ only in the collection index, which the
// first maintains (SADD, and an EXPIRE of the index) and the second does not.
// The store these helpers receive is not part of this model: they see only its
// registered models, and whether it holds a connection.

module LegacyRedisUtils {
  import opened Common
  import opened Values
  import opened SharedUtils
  import opened SharedParsers
  import opened SharedReply
  import opened Models

  // ---------------------------------------------------------------------------
  // Keys
  // ---------------------------------------------------------------------------

  /** `get_primary_key`: the key of entity `key` of model `modelName`, the same scheme as the
      current code base's `generate_hash_key`. */
  function GetPrimaryKey(modelName: string, key: string): (r: string)
    ensures r == GenerateHashKey(modelName, key)
  {
    modelName + "_%&_" + key
  }

  /** `get_model_index`: the key of the set of a model's entity keys. */
  function GetModelIndex(modelName: string): (r: string)
    ensures StartsWith(r, modelName) && r[|modelName|..] == "__index"
  {
    modelName + "__index"
  }

  /** The index of a model is never the key of one of its entities: the two differ right after
      the model name, where an entity key has `%` and the index a second `_`. */
  lemma IndexIsNoEntityKey(modelName: string, key: string)
    ensures GetModelIndex(modelName) != GetPrimaryKey(modelName, key)
  {
    var n := |modelName|;
    assert GetModelIndex(modelName)[n + 1] == '_';
    assert GetPrimaryKey(modelName, key)[n + 1] == '%';
  }

  // ---------------------------------------------------------------------------
  // The store as the write path sees it
  // ---------------------------------------------------------------------------

  /** How the model name of a nested model instance is found, from its class name and its
      field values. */
  type NameOf = (string, seq<(string, PyObj)>) -> Result<string>

  /** `Model::get_instance_model_name` as written: it asks for one attribute literally named
      `__class__.__name__`, which falls through to the instance's field map. */
  function NameAsWritten(className: string, fields: seq<(string, PyObj)>): Result<string>
  {
    InstanceModelNameAsWritten(fields)
  }

  /** The evidently intended model name: the lower-cased name of the instance's class. */
  function NameIntended(className: string, fields: seq<(string, PyObj)>): Result<string>
  {
    Ok(ModelName(className))
  }

  /** What the write path uses of the store: its registered models by lower-cased name, how a
      nested instance's model name is found, and whether the collection index is kept
      (`redis_utils.rs`) or not (`redis_utils_del.rs`). */
  datatype Writer = Writer(models: map<string, ModelMeta>, nameOf: NameOf, indexed: bool)

  /** The record handed to `insert_on_pipeline`: a whole model instance, or the fields of an
      update.  Both are written by their field map. */
  datatype Record = Full(model: seq<(string, PyObj)>) | Partial(data: seq<(string, PyObj)>)

  function RecordData(r: Record): seq<(string, PyObj)>
  {
    match r
    case Full(m) => m
    case Partial(d) => d
  }

  // ---------------------------------------------------------------------------
  // The commands of an insert, as functions
  // ---------------------------------------------------------------------------

  /** The commands that write an entity's own hash once its nested entities are queued: HSET,
      SADD to the index when it is kept, then, with a life span, EXPIRE of the key and of the
      index when it is kept. */
  function OwnCommands(indexed: bool, modelName: string, name: string, pairs: seq<(string, string)>,
                       lifeSpan: Option<nat>): seq<Command>
  {
    var index := GetModelIndex(modelName);
    [HSet(name, pairs)]
    + (if indexed then [SAdd(index, name)] else [])
    + (if lifeSpan.Some? then [Expire(name, lifeSpan.value)] + (if indexed then [Expire(index, lifeSpan.value)] else [])
       else [])
  }

  /** `insert_on_pipeline`: the commands it queues and the key it returns. */
  function InsertCommands(w: Writer, modelName: string, lifeSpan: Option<nat>, key: string,
                          data: seq<(string, PyObj)>): (r: Result<(seq<Command>, string)>)
    ensures r.Ok? ==> r.value.1 == GetPrimaryKey(modelName, key)
    decreases data, 2
  {
    var name := GetPrimaryKey(modelName, key);
    var ser :- SerializeCommands(w, lifeSpan, data, |data|);
    Ok((ser.0 + OwnCommands(w.indexed, modelName, name, ser.1, lifeSpan), name))
  }

  /** `serialize_to_key_value_pairs` over the first `n` entries: the commands queued for their
      nested instances, and the field/value pairs of the entity's own hash. */
  function SerializeCommands(w: Writer, lifeSpan: Option<nat>, data: seq<(string, PyObj)>, n: nat)
    : (r: Result<(seq<Command>, seq<(string, string)>)>)
    requires n <= |data|
    ensures r.Ok? ==> |r.value.1| == n
    decreases data, 1, n
  {
    if n == 0 then Ok(([], []))
    else
      var acc :- SerializeCommands(w, lifeSpan, data, n - 1);
      var entry :- SerializeEntry(w, lifeSpan, data[n - 1]);
      Ok((acc.0 + entry.0, acc.1 + [entry.1]))
  }

  /** One entry of the field map: a model instance is inserted first and stored as the key of
      its hash; any other value is stored as its `str()`. */
  function SerializeEntry(w: Writer, lifeSpan: Option<nat>, e: (string, PyObj))
    : (r: Result<(seq<Command>, (string, string))>)
    ensures !e.1.PyInstance? ==> r == Ok(([], (e.0, PyStrOf(e.1))))
    ensures e.1.PyInstance? && w.nameOf(e.1.className, e.1.fields).Err? ==>
              r == Err(w.nameOf(e.1.className, e.1.fields).error)
    ensures e.1.PyInstance? && w.nameOf(e.1.className, e.1.fields).Ok?
            && w.nameOf(e.1.className, e.1.fields).value !in w.models ==>
              r == Err(ValueError(w.nameOf(e.1.className, e.1.fields).value + " does not exist on this store"))
    ensures r.Ok? ==> r.value.1.0 == e.0
    decreases e
  {
    var (k, v) := e;
    match v
    case PyInstance(cls, fields) =>
      var modelName :- w.nameOf(cls, fields);
      if modelName !in w.models then Err(ValueError(modelName + " does not exist on this store"))
      else
        var pk :- Attr(fields, w.models[modelName].primaryKeyField);
        var inserted :- InsertCommands(w, modelName, lifeSpan, PyStrOf(pk), fields);
        Ok((inserted.0, (k, inserted.1)))
    case _ => Ok(([], (k, PyStrOf(v))))
  }

  // ---------------------------------------------------------------------------
  // The pipeline and the methods that fill it
  // ---------------------------------------------------------------------------

  /** A redis pipeline: the commands queued on it so far. */
  class Pipeline {
    var commands: seq<Command>

    constructor ()
      ensures commands == []
    {
      commands := [];
    }

    /** `pipe.cmd(..)`, `hset_multiple`, `sadd`, `expire`: one more command at the end. */
    method Push(c: Command)
      modifies this
      ensures commands == old(commands) + [c]
    {
      commands := commands + [c];
    }
  }

  /** `insert_on_pipeline`: queues the record's nested entities and then its own hash, and returns
      its key.  On an error the pipeline is left half filled; the transaction around it is then
      never sent. */
  method InsertOnPipeline(w: Writer, pipe: Pipeline, modelName: string, lifeSpan: Option<nat>, key: string,
                          record: Record) returns (r: Result<string>)
    modifies pipe
    ensures var spec := InsertCommands(w, modelName, lifeSpan, key, RecordData(record));
            && (r.Ok? <==> spec.Ok?)
            && (spec.Ok? ==> r.value == spec.value.1 && pipe.commands == old(pipe.commands) + spec.value.0)
            && (spec.Err? ==> r.error == spec.error)
    decreases RecordData(record), 2
  {
    var data := RecordData(record);
    var name := GetPrimaryKey(modelName, key);
    ghost var before := pipe.commands;
    var pairs := SerializeToKeyValuePairs(w, pipe, data, lifeSpan);
    if pairs.Err? {
      return Err(pairs.error);
    }
    ghost var nested := pipe.commands[|before|..];
    PushOwnCommands(pipe, w.indexed, modelName, name, pairs.value, lifeSpan);
    assert pipe.commands == before + nested + OwnCommands(w.indexed, modelName, name, pairs.value, lifeSpan);
    return Ok(name);
  }

  /** The record's own hash, its index entry and their expiries, queued in that order. */
  method PushOwnCommands(pipe: Pipeline, indexed: bool, modelName: string, name: string, pairs: seq<(string, string)>,
                         lifeSpan: Option<nat>)
    modifies pipe
    ensures pipe.commands == old(pipe.commands) + OwnCommands(indexed, modelName, name, pairs, lifeSpan)
  {
    var index := GetModelIndex(modelName);
    pipe.Push(HSet(name, pairs));
    if indexed {
      pipe.Push(SAdd(index, name));
    }
    if lifeSpan.Some? {
      pipe.Push(Expire(name, lifeSpan.value));
      if indexed {
        pipe.Push(Expire(index, lifeSpan.value));
      }
    }
  }

  /** `serialize_to_key_value_pairs`: walks the field map, inserting nested model instances on the
      pipeline as it meets them. */
  method SerializeToKeyValuePairs(w: Writer, pipe: Pipeline, data: seq<(string, PyObj)>, lifeSpan: Option<nat>)
    returns (r: Result<seq<(string, string)>>)
    modifies pipe
    ensures var spec := SerializeCommands(w, lifeSpan, data, |data|);
            && (r.Ok? <==> spec.Ok?)
            && (spec.Ok? ==> r.value == spec.value.1 && pipe.commands == old(pipe.commands) + spec.value.0)
            && (spec.Err? ==> r.error == spec.error)
    decreases data, 1
  {
    var pairs: seq<(string, string)> := [];
    ghost var queued: seq<Command> := [];
    for i := 0 to |data|
      invariant SerializeCommands(w, lifeSpan, data, i) == Ok((queued, pairs))
      invariant pipe.commands == old(pipe.commands) + queued
    {
      var pair;
      pair, queued := SerializeNext(w, pipe, lifeSpan, data, i, old(pipe.commands), queued, pairs);
      if pair.Err? {
        SerializeErrorPersists(w, lifeSpan, data, i + 1, |data|);
        return Err(pair.error);
      }
      pairs := pairs + [pair.value];
    }
    return Ok(pairs);
  }

  /** One turn of the loop of `serialize_to_key_value_pairs`: entry `i` is serialized on the
      pipeline, extending what the entries before it queued and paired, or its error ends the walk. */
  method SerializeNext(w: Writer, pipe: Pipeline, lifeSpan: Option<nat>, data: seq<(string, PyObj)>, i: nat,
                       ghost start: seq<Command>, ghost queued: seq<Command>, pairs: seq<(string, string)>)
    returns (pair: Result<(string, string)>, ghost queued': seq<Command>)
    requires i < |data| && SerializeCommands(w, lifeSpan, data, i) == Ok((queued, pairs))
    requires pipe.commands == start + queued
    modifies pipe
    ensures pair.Err? ==> SerializeCommands(w, lifeSpan, data, i + 1) == Err(pair.error)
    ensures pair.Ok? ==> SerializeCommands(w, lifeSpan, data, i + 1) == Ok((queued', pairs + [pair.value]))
                         && pipe.commands == start + queued'
    decreases data, 0
  {
    ghost var entry := SerializeEntry(w, lifeSpan, data[i]);
    SerializeStep(w, lifeSpan, data, i);
    pair := SerializeEntryOnPipeline(w, pipe, lifeSpan, data[i]);
    if pair.Ok? {
      queued' := queued + entry.value.0;
      AppendAssoc(start, queued, entry.value.0);
    } else {
      queued' := queued;
    }
  }

  lemma {:induction false} AppendAssoc<T>(a: seq<T>, b: seq<T>, c: seq<T>)
    ensures a + b + c == a + (b + c)
  { }

  /** The body of the loop of `serialize_to_key_value_pairs` for one entry. */
  method SerializeEntryOnPipeline(w: Writer, pipe: Pipeline, lifeSpan: Option<nat>, e: (string, PyObj))
    returns (r: Result<(string, string)>)
    modifies pipe
    ensures var spec := SerializeEntry(w, lifeSpan, e);
            && (r.Ok? <==> spec.Ok?)
            && (spec.Ok? ==> r.value == spec.value.1 && pipe.commands == old(pipe.commands) + spec.value.0)
            && (spec.Err? ==> r.error == spec.error)
    decreases e
  {
    var (k, v) := e;
    if !v.PyInstance? {
      return Ok((k, PyStrOf(v)));
    }
    var modelName := w.nameOf(v.className, v.fields);
    if modelName.Err? {
      return Err(modelName.error);
    }
    if modelName.value !in w.models {
      return Err(ValueError(modelName.value + " does not exist on this store"));
    }
    var pk := Attr(v.fields, w.models[modelName.value].primaryKeyField);
    if pk.Err? {
      return Err(pk.error);
    }
    assert RecordData(Full(v.fields)) == v.fields;
    var foreignKey := InsertOnPipeline(w, pipe, modelName.value, lifeSpan, PyStrOf(pk.value), Full(v.fields));
    if foreignKey.Err? {
      return Err(foreignKey.error);
    }
    return Ok((k, foreignKey.value));
  }

  /** One more entry: its error, or its commands and pair appended to those of the entries before. */
  lemma SerializeStep(w: Writer, lifeSpan: Option<nat>, data: seq<(string, PyObj)>, i: nat)
    requires i < |data| && SerializeCommands(w, lifeSpan, data, i).Ok?
    ensures var entry := SerializeEntry(w, lifeSpan, data[i]);
            var done := SerializeCommands(w, lifeSpan, data, i).value;
            SerializeCommands(w, lifeSpan, data, i + 1)
              == if entry.Err? then Err(entry.error) else Ok((done.0 + entry.value.0, done.1 + [entry.value.1]))
  {
  }

  lemma {:induction false} SerializeErrorPersists(w: Writer, lifeSpan: Option<nat>, data: seq<(string, PyObj)>, i: nat, j: nat)
    requires i <= j <= |data| && SerializeCommands(w, lifeSpan, data, i).Err?
    ensures SerializeCommands(w, lifeSpan, data, j) == SerializeCommands(w, lifeSpan, data, i)
    decreases j - i
  {
    if i < j {
      SerializeErrorPersists(w, lifeSpan, data, i, j - 1);
    }
  }

  // ---------------------------------------------------------------------------
  // Properties of the insert
  // ---------------------------------------------------------------------------

  /** The serialisation succeeds exactly when every entry does; then the entity's pairs are its
      entries in map order, each under its own name, and the commands are those of the entries
      in the same order. */
  lemma {:induction false} SerializeRule(w: Writer, lifeSpan: Option<nat>, data: seq<(string, PyObj)>, n: nat)
    requires n <= |data|
    ensures var r := SerializeCommands(w, lifeSpan, data, n);
            && (r.Ok? <==> forall i :: 0 <= i < n ==> SerializeEntry(w, lifeSpan, data[i]).Ok?)
            && (r.Ok? ==>
                  forall i :: 0 <= i < n ==> r.value.1[i] == SerializeEntry(w, lifeSpan, data[i]).value.1)
  {
    SerializeOk(w, lifeSpan, data, n);
    SerializePairs(w, lifeSpan, data, n);
  }

  lemma {:induction false} SerializeOk(w: Writer, lifeSpan: Option<nat>, data: seq<(string, PyObj)>, n: nat)
    requires n <= |data|
    ensures SerializeCommands(w, lifeSpan, data, n).Ok? <==> forall i :: 0 <= i < n ==> SerializeEntry(w, lifeSpan, data[i]).Ok?
  {
    if n > 0 {
      SerializeOk(w, lifeSpan, data, n - 1);
      assert SerializeCommands(w, lifeSpan, data, n).Ok?
         <==> SerializeCommands(w, lifeSpan, data, n - 1).Ok? && SerializeEntry(w, lifeSpan, data[n - 1]).Ok?;
    }
  }

  lemma {:induction false} SerializePairs(w: Writer, lifeSpan: Option<nat>, data: seq<(string, PyObj)>, n: nat)
    requires n <= |data|
    ensures var r := SerializeCommands(w, lifeSpan, data, n);
            r.Ok? ==> forall i :: 0 <= i < n ==>
              SerializeEntry(w, lifeSpan, data[i]).Ok? && r.value.1[i] == SerializeEntry(w, lifeSpan, data[i]).value.1
  {
    if n > 0 {
      SerializePairs(w, lifeSpan, data, n - 1);
      var prev := SerializeCommands(w, lifeSpan, data, n - 1);
      if prev.Ok? {
        SerializeStep(w, lifeSpan, data, n - 1);
        var r := SerializeCommands(w, lifeSpan, data, n);
        if r.Ok? {
          var entry := SerializeEntry(w, lifeSpan, data[n - 1]);
          assert r.value.1 == prev.value.1 + [entry.value.1];
          forall i | 0 <= i < n
            ensures SerializeEntry(w, lifeSpan, data[i]).Ok? && r.value.1[i] == SerializeEntry(w, lifeSpan, data[i]).value.1
          {
            if i < n - 1 {
              assert r.value.1[i] == prev.value.1[i];
            }
          }
        }
      }
    }
  }

  /** The entity's own hash comes after every command of its nested entities: the pipeline of an
      insert is the nested entities' commands followed by the entity's HSET, then the index and
      expiry commands; the last command is the HSET itself only without index and life span. */
  lemma ParentLast(w: Writer, modelName: string, lifeSpan: Option<nat>, key: string, data: seq<(string, PyObj)>)
    requires InsertCommands(w, modelName, lifeSpan, key, data).Ok?
    ensures var (cmds, name) := InsertCommands(w, modelName, lifeSpan, key, data).value;
            var tail := (if w.indexed then 1 else 0) + (if lifeSpan.Some? then (if w.indexed then 2 else 1) else 0);
            && |cmds| > tail
            && cmds[|cmds| - 1 - tail].HSet? && cmds[|cmds| - 1 - tail].key == name
            && (forall i :: |cmds| - tail <= i < |cmds| ==> !cmds[i].HSet?)
            && (!w.indexed && lifeSpan.None? ==> cmds[|cmds| - 1].HSet? && cmds[|cmds| - 1].key == name)
  {
  }

  /** A nested model instance is stored in its parent's hash as the key of its own hash: the key
      of its model and of the `str()` of its primary-key field. */
  lemma NestedValueIsForeignKey(w: Writer, lifeSpan: Option<nat>, field: string, cls: string,
                                fields: seq<(string, PyObj)>)
    requires w.nameOf == NameIntended
    requires SerializeEntry(w, lifeSpan, (field, PyInstance(cls, fields))).Ok?
    ensures var model := ModelName(cls);
            && model in w.models && HasKey(fields, w.models[model].primaryKeyField)
            && SerializeEntry(w, lifeSpan, (field, PyInstance(cls, fields))).value.1
               == (field, GenerateHashKey(model, PyStrOf(Lookup(fields, w.models[model].primaryKeyField).value)))
  {
  }

  /** With the model name as written, a nested model instance (whose fields never include one
      named `__class__.__name__`) cannot be written at all: the attribute lookup fails. */
  lemma NestedInsertFailsAsWritten(w: Writer, lifeSpan: Option<nat>, field: string, cls: string,
                                   fields: seq<(string, PyObj)>)
    requires w.nameOf == NameAsWritten
    requires !HasKey(fields, "__class__.__name__")
    ensures SerializeEntry(w, lifeSpan, (field, PyInstance(cls, fields))) == Err(AttributeError("__class__.__name__"))
  {
  }

  /** The copy without an index never touches a set: no SADD anywhere in its pipeline, nested
      entities included. */
  lemma {:induction false} NoIndexWithoutIndex(w: Writer, modelName: string, lifeSpan: Option<nat>, key: string,
                                               data: seq<(string, PyObj)>)
    requires !w.indexed && InsertCommands(w, modelName, lifeSpan, key, data).Ok?
    ensures forall c :: c in InsertCommands(w, modelName, lifeSpan, key, data).value.0 ==> !c.SAdd?
    decreases data, 2
  {
    NoIndexInFields(w, lifeSpan, data, |data|);
  }

  lemma {:induction false} NoIndexInFields(w: Writer, lifeSpan: Option<nat>, data: seq<(string, PyObj)>, n: nat)
    requires !w.indexed && n <= |data| && SerializeCommands(w, lifeSpan, data, n).Ok?
    ensures forall c :: c in SerializeCommands(w, lifeSpan, data, n).value.0 ==> !c.SAdd?
    decreases data, 1, n
  {
    if n > 0 {
      NoIndexInFields(w, lifeSpan, data, n - 1);
      NoIndexInEntry(w, lifeSpan, data[n - 1]);
    }
  }

  lemma {:induction false} NoIndexInEntry(w: Writer, lifeSpan: Option<nat>, e: (string, PyObj))
    requires !w.indexed && SerializeEntry(w, lifeSpan, e).Ok?
    ensures forall c :: c in SerializeEntry(w, lifeSpan, e).value.0 ==> !c.SAdd?
    decreases e
  {
    if e.1.PyInstance? {
      var (_, v) := e;
      var modelName := w.nameOf(v.className, v.fields).value;
      var pk := Lookup(v.fields, w.models[modelName].primaryKeyField).value;
      NoIndexWithoutIndex(w, modelName, lifeSpan, PyStrOf(pk), v.fields);
    }
  }

  /** The indexed copy adds every entity it writes to its model's index, and with a life span
      lets the index expire with it. */
  lemma IndexedInsertJoinsIndex(w: Writer, modelName: string, lifeSpan: Option<nat>, key: string,
                                data: seq<(string, PyObj)>)
    requires w.indexed && InsertCommands(w, modelName, lifeSpan, key, data).Ok?
    ensures var cmds := InsertCommands(w, modelName, lifeSpan, key, data).value.0;
            && SAdd(GetModelIndex(modelName), GetPrimaryKey(modelName, key)) in cmds
            && (lifeSpan.Some? ==> Expire(GetModelIndex(modelName), lifeSpan.value) in cmds
                                   && Expire(GetPrimaryKey(modelName, key), lifeSpan.value) in cmds)
  {
    var (cmds, name) := InsertCommands(w, modelName, lifeSpan, key, data).value;
    var ser := SerializeCommands(w, lifeSpan, data, |data|).value;
    var own := OwnCommands(w.indexed, modelName, name, ser.1, lifeSpan);
    assert cmds == ser.0 + own;
    assert own[1] == SAdd(GetModelIndex(modelName), name);
    if lifeSpan.Some? {
      assert own[2] == Expire(name, lifeSpan.value);
      assert own[3] == Expire(GetModelIndex(modelName), lifeSpan.value);
    }
  }

  // ---------------------------------------------------------------------------
  // Transactions
  // ---------------------------------------------------------------------------

  /** What `run_in_transaction` sends to the server: the commands `f` queued, between MULTI and
      EXEC; nothing when `f` fails or there is no connection. */
  function TransactionSent(built: Result<seq<Command>>, connected: bool): (r: Option<seq<Command>>)
    ensures r.Some? <==> built.Ok? && connected
    ensures r.Some? ==>
              |r.value| == |built.value| + 2 && r.value[0] == Multi && r.value[|r.value| - 1] == Exec
              && r.value[1..|r.value| - 1] == built.value
  {
    if built.Ok? && connected then Some([Multi] + built.value + [Exec]) else None
  }

  /** `run_in_transaction`: `f`'s error first, then the missing connection, then the server's
      answer to the transaction. */
  function RunInTransaction<T>(built: Result<seq<Command>>, connected: bool, query: seq<Command> -> Result<T>)
    : (r: Result<T>)
    ensures built.Err? ==> r == Err(built.error)
    ensures built.Ok? && !connected ==> r == Err(ConnectionError("redis server disconnected"))
    ensures TransactionSent(built, connected).Some? ==> r == query(TransactionSent(built, connected).value)
  {
    if built.Err? then Err(built.error)
    else if !connected then Err(ConnectionError("redis server disconnected"))
    else query([Multi] + built.value + [Exec])
  }

  /** The commands an insert of one record queues on an empty pipeline. */
  function InsertBuilt(w: Writer, modelName: string, lifeSpan: Option<nat>, key: string, record: Record)
    : Result<seq<Command>>
  {
    var inserted :- InsertCommands(w, modelName, lifeSpan, key, RecordData(record));
    Ok(inserted.0)
  }

  /** An insert is all or nothing: when any nested entity fails, nothing at all reaches the
      server, not even the entities queued before the failure; when it succeeds, every hash
      goes out in one MULTI/EXEC transaction. */
  lemma AtomicInsert(w: Writer, modelName: string, lifeSpan: Option<nat>, key: string, record: Record, connected: bool)
    ensures var built := InsertBuilt(w, modelName, lifeSpan, key, record);
            var sent := TransactionSent(built, connected);
            && (InsertCommands(w, modelName, lifeSpan, key, RecordData(record)).Err? ==> sent.None?)
            && (sent.Some? ==>
                  sent.value[0] == Multi && sent.value[|sent.value| - 1] == Exec
                  && exists i :: 1 <= i < |sent.value| - 1 && sent.value[i].HSet? && sent.value[i].key == GetPrimaryKey(modelName, key))
  {
    var built := InsertBuilt(w, modelName, lifeSpan, key, record);
    if built.Ok? && connected {
      ParentLast(w, modelName, lifeSpan, key, RecordData(record));
    }
  }

  // ---------------------------------------------------------------------------
  // Reading
  // ---------------------------------------------------------------------------

  /** serde_json's parse of a stored text as one of the JSON-encoded annotation types, named by
      the annotation; not part of this model. */
  type JsonParser = (string, string) -> Option<PyObj>

  /** `store.find_one(model, id)`: the stored instance of a registered model; it reads the
      database, so it is a parameter. */
  type ModelFinder = (string, string) -> Result<PyObj>

  /** The annotations whose values are stored as JSON. */
  predicate IsJsonType(name: string)
  {
    name in {"typing.List[str]", "typing.List[int]", "typing.List[float]",
             "typing.Dict[str, str]", "typing.Dict[str, int]", "typing.Dict[str, float]"}
  }

  /** `str_to_py_type`: integers, floats and strings by their annotation's name, the six JSON
      types through serde_json, a registered model through a lookup by id, and any other
      annotation as the raw string. */
  function StrToPyType(h: Host, models: map<string, ModelMeta>, json: JsonParser, find: ModelFinder,
                       value: string, ann: Annotation): (r: Result<PyObj>)
    ensures AnnotationName(ann) == "int" ==> (r.Ok? <==> ParseI64(value).Some?)
    ensures AnnotationName(ann) == "int" && r.Ok? ==> r.value == PyInt(ParseI64(value).value)
    ensures AnnotationName(ann) == "str" ==> r == Ok(PyStr(value))
    ensures IsJsonType(AnnotationName(ann)) && json(AnnotationName(ann), value).None? ==>
              r == Err(ValueError(value + " is not of " + AnnotationName(ann)))
    ensures (AnnotationName(ann) !in {"int", "float", "str"} && !IsJsonType(AnnotationName(ann))
             && Lower(AnnotationName(ann)) !in models) ==> r == Ok(PyStr(value))
  {
    var name := AnnotationName(ann);
    if name == "int" then
      var i :- ParseI64Str(value);
      Ok(PyInt(i))
    else if name == "float" then ParseF64Str(h, value)
    else if name == "str" then Ok(PyStr(value))
    else if IsJsonType(name) then
      match json(name, value)
      case None => Err(ValueError(value + " is not of " + name))
      case Some(v) => Ok(v)
    else
      var modelName := Lower(name);
      if modelName in models then find(modelName, value) else Ok(PyStr(value))
  }

  /** The reading context of `parse_model`. */
  datatype Reader = Reader(h: Host, models: map<string, ModelMeta>, json: JsonParser, find: ModelFinder)

  /** `parse_model`: the stored fields that the model declares, each read by its annotation, and
      none of the others; the first field that cannot be read fails the whole model. */
  method ParseModel(rd: Reader, fields: seq<(string, Annotation)>, data: seq<(string, string)>)
    returns (r: Result<seq<(string, PyObj)>>)
    ensures r == ParsePrefix(Converter(rd), fields, data, |data|)
  {
    var out: seq<(string, PyObj)> := [];
    for i := 0 to |data|
      invariant ParsePrefix(Converter(rd), fields, data, i) == Ok(out)
    {
      var (k, v) := data[i];
      match Lookup(fields, k)
      case None =>
      case Some(ann) =>
        var value := StrToPyType(rd.h, rd.models, rd.json, rd.find, v, ann);
        if value.Err? {
          ParseErrorPersists(Converter(rd), fields, data, i + 1, |data|);
          return Err(value.error);
        }
        out := Insert(out, k, value.value);
    }
    return Ok(out);
  }

  /** What `parse_model` returns for a stored hash: it parses iff every declared field in it
      converts, and then holds exactly the declared fields present in the hash, each with its
      converted value. */
  lemma ParsedModel(rd: Reader, fields: seq<(string, Annotation)>, data: seq<(string, string)>)
    requires UniqueKeys(data)
    ensures var r := ParsePrefix(Converter(rd), fields, data, |data|);
            && (r.Ok? <==> forall i :: 0 <= i < |data| && HasKey(fields, data[i].0) ==>
                  StrToPyType(rd.h, rd.models, rd.json, rd.find, data[i].1, Lookup(fields, data[i].0).value).Ok?)
            && (r.Ok? ==> UniqueKeys(r.value))
            && (r.Ok? ==> forall k :: HasKey(r.value, k) <==> HasKey(data, k) && HasKey(fields, k))
            && (r.Ok? ==> forall i :: 0 <= i < |data| && HasKey(fields, data[i].0) ==>
                  Lookup(r.value, data[i].0)
                  == Some(StrToPyType(rd.h, rd.models, rd.json, rd.find, data[i].1, Lookup(fields, data[i].0).value).value))
  {
    ParsePrefixValues(Converter(rd), fields, data, |data|);
    assert data[..|data|] == data;
  }

  /** How the model's fields convert: `str_to_py_type` with the reader's foreign parts. */
  function Converter(rd: Reader): (r: (string, Annotation) -> Result<PyObj>)
    ensures forall v, ann :: AnnotationName(ann) == "str" ==> r(v, ann) == Ok(PyStr(v))
    ensures forall v, ann :: AnnotationName(ann) == "int" ==> (r(v, ann).Ok? <==> ParseI64(v).Some?)
  {
    (v, ann) => StrToPyType(rd.h, rd.models, rd.json, rd.find, v, ann)
  }

  /** The fields of the first `n` entries of a stored hash, parsed in order; the first entry
      that does not convert is the error. */
  function ParsePrefix(conv: (string, Annotation) -> Result<PyObj>, fields: seq<(string, Annotation)>, data: seq<(string, string)>, n: nat)
    : (r: Result<seq<(string, PyObj)>>)
    requires n <= |data|
    ensures r.Ok? <==> forall i :: 0 <= i < n && HasKey(fields, data[i].0) ==> conv(data[i].1, Lookup(fields, data[i].0).value).Ok?
    ensures r.Ok? ==> UniqueKeys(r.value)
    ensures r.Ok? ==> forall k :: HasKey(r.value, k) <==> HasKey(data[..n], k) && HasKey(fields, k)
  {
    if n == 0 then assert data[..0] == []; Ok([])
    else
      HasKeyPrefix(data, n - 1);
      var out :- ParsePrefix(conv, fields, data, n - 1);
      var (k, v) := data[n - 1];
      match Lookup(fields, k)
      case None => Ok(out)
      case Some(ann) =>
        var value :- conv(v, ann);
        Ok(Insert(out, k, value))
  }

  /** Once a prefix fails, every longer prefix fails with the same error. */
  lemma {:induction false} ParseErrorPersists(conv: (string, Annotation) -> Result<PyObj>, fields: seq<(string, Annotation)>, data: seq<(string, string)>,
                                              n: nat, m: nat)
    requires n <= m <= |data| && ParsePrefix(conv, fields, data, n).Err?
    ensures ParsePrefix(conv, fields, data, m) == ParsePrefix(conv, fields, data, n)
    decreases m
  {
    if m > n {
      ParseErrorPersists(conv, fields, data, n, m - 1);
    }
  }

  /** A parsed prefix maps each declared key of the prefix to its converted value. */
  lemma {:induction false} ParsePrefixValues(conv: (string, Annotation) -> Result<PyObj>, fields: seq<(string, Annotation)>, data: seq<(string, string)>, n: nat)
    requires UniqueKeys(data) && n <= |data|
    ensures ParsePrefix(conv, fields, data, n).Ok? ==> forall i :: 0 <= i < n && HasKey(fields, data[i].0) ==>
              conv(data[i].1, Lookup(fields, data[i].0).value).Ok? &&
              Lookup(ParsePrefix(conv, fields, data, n).value, data[i].0)
              == Some(conv(data[i].1, Lookup(fields, data[i].0).value).value)
  {
    if n > 0 && ParsePrefix(conv, fields, data, n).Ok? {
      ParsePrefixValues(conv, fields, data, n - 1);
      var out := ParsePrefix(conv, fields, data, n - 1).value;
      var k := data[n - 1].0;
      if HasKey(fields, k) {
        var value := conv(data[n - 1].1, Lookup(fields, k).value).value;
        forall i | 0 <= i < n - 1 && HasKey(fields, data[i].0)
          ensures Lookup(Insert(out, k, value), data[i].0) == Lookup(out, data[i].0)
        {
          UniqueKeysDistinct(data, i, n - 1);
          InsertOther(out, k, value, data[i].0);
        }
      }
    }
  }

  /** `run_script` of the copy without an index: the shape check of the reply, then every entity,
      empty ones included, through the item parser, in order. */
  function RunScriptDel<T>(h: Host, built: Result<seq<Command>>, connected: bool, query: seq<Command> -> Result<RValue>,
                           parse: RValue -> Result<T>): (r: Result<seq<T>>)
    ensures built.Err? ==> r == Err(built.error)
    ensures built.Ok? && !connected ==> r == Err(ConnectionError("redis server disconnected"))
    ensures built.Ok? && connected && query(built.value).Err? ==> r == Err(query(built.value).error)
    ensures built.Ok? && connected && query(built.value).Ok? ==>
              var reply := query(built.value).value;
              && (!ShapeOk(reply) ==> r.Err?)
              && (ShapeOk(reply) ==>
                    var items := AsSequence(reply.items[0]).value;
                    && (r.Ok? <==> forall i :: 0 <= i < |items| ==> parse(items[i]).Ok?)
                    && (r.Ok? ==> |r.value| == |items| && forall i :: 0 <= i < |items| ==> r.value[i] == parse(items[i]).value))
  {
    var _ :- built;
    if !connected then Err(ConnectionError("redis server disconnected"))
    else
      var reply :- query(built.value);
      var items :- ReplyEntities(h, reply);
      ParseEach(parse, items)
  }

  /** `map(..).collect::<PyResult<Vec<_>>>()`: every item parsed, or the first error. */
  function ParseEach<T>(parse: RValue -> Result<T>, items: seq<RValue>): (r: Result<seq<T>>)
    ensures r.Ok? <==> forall i :: 0 <= i < |items| ==> parse(items[i]).Ok?
    ensures r.Ok? ==> |r.value| == |items| && forall i :: 0 <= i < |items| ==> r.value[i] == parse(items[i]).value
    ensures r.Err? ==> exists i :: 0 <= i < |items| && (forall j :: 0 <= j < i ==> parse(items[j]).Ok?) && parse(items[i]) == Err(r.error)
  {
    if items == [] then Ok([])
    else
      assert forall i :: 1 <= i < |items| ==> items[i] == items[1..][i - 1];
      var x :- parse(items[0]);
      var rest :- ParseEach(parse, items[1..]);
      Ok([x] + rest)
  }

  /** Unlike the current reply loop, an empty entity (an id without a hash) is handed to the item
      parser, and when the parser refuses it the whole read fails. */
  lemma EmptyEntityNotSkipped<T>(h: Host, parse: RValue -> Result<T>, entities: seq<RValue>, j: nat)
    requires j < |entities| && entities[j] == Bulk([]) && parse(Bulk([])).Err?
    ensures RunScriptDel(h, Ok([]), true, _ => Ok(Bulk([Bulk(entities)])), parse).Err?
  {
  }
}
