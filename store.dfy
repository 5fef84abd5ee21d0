// The store and its collections (`Store`/`Collection`; `AsyncStore`/
// `AsyncCollection` are the same state machine and the same operations on an
// asynchronous pool).  The store registers model classes; once a collection
// has been handed out, no further registration is allowed.  A collection turns
// each of its operations into the commands of the client layer and reads the
// replies back.

module OrredisStore {
  import opened Common
  import opened Values
  import opened SharedUtils
  import opened SharedFieldTypes
  import opened SharedFlatten
  import opened SharedReply
  import opened ClientUtils

  /** A model class, as far as the store sees it: its `__qualname__` and the JSON Schema its
      `schema()` returns. */
  datatype ModelClass = ModelClass(qualname: string, jsonSchema: PyObj)

  /** `Schema::from_py_schema`, whose source is not part of this model: the model's JSON
      Schema, the registered primary-key fields and the registered model types give the
      collection's schema or an error. */
  type SchemaBuilder = (PyObj, map<string, string>, map<string, string>) -> Result<Schema>

  /** `extract_nested_fields`: the names of the schema's nested fields, in schema order. */
  function NestedFieldNames(s: seq<(string, FieldType)>): (r: seq<string>)
    ensures forall i :: 0 <= i < |s| && s[i].1.Nested? ==> s[i].0 in r
    ensures forall x :: x in r ==> exists t :: (x, t) in s && t.Nested?
  {
    if s == [] then []
    else
      var rest := NestedFieldNames(s[1..]);
      assert forall i :: 1 <= i < |s| ==> s[i] == s[1..][i - 1];
      assert s == [s[0]] + s[1..];
      if s[0].1.Nested? then [s[0].0] + rest else rest
  }

  /** The life span of a write: the explicit one, otherwise the store's default. */
  function EffectiveTtl(ttl: Option<nat>, defaultTtl: Option<nat>): (r: Option<nat>)
    ensures r.Some? <==> ttl.Some? || defaultTtl.Some?
    ensures ttl.Some? ==> r == ttl
  {
    match ttl
    case None => defaultTtl
    case Some(v) => Some(v)
  }

  /** A collection: the model's name in the store, what the store knows of the model, and the
      store's default life span.  It never changes once handed out. */
  datatype Collection = Collection(name: string, meta: CollectionMeta, defaultTtl: Option<nat>)

  const InUseMessage: string := "a call to 'create_collection()' cannot come after a call to 'get_collection()'."

  class Store {
    var collectionsMeta: map<string, CollectionMeta>
    var primaryKeyFieldMap: map<string, string>
    var modelTypeMap: map<string, string>
    const defaultTtl: Option<nat>
    var isInUse: bool

    /** Every registered model has its meta, its primary-key field and its model type, and the
        meta carries the same primary-key field. */
    ghost predicate Valid()
      reads this
    {
      && collectionsMeta.Keys == primaryKeyFieldMap.Keys == modelTypeMap.Keys
      && forall m :: m in collectionsMeta ==> collectionsMeta[m].primaryKeyField == primaryKeyFieldMap[m]
    }

    /** `Store::new`, without the connection pool. */
    constructor (defaultTtl: Option<nat>)
      ensures Valid()
      ensures collectionsMeta == map[] && primaryKeyFieldMap == map[] && modelTypeMap == map[]
      ensures this.defaultTtl == defaultTtl && !isInUse
    {
      collectionsMeta := map[];
      primaryKeyFieldMap := map[];
      modelTypeMap := map[];
      this.defaultTtl := defaultTtl;
      isInUse := false;
    }

    /** `create_collection`: refused once a collection has been handed out; otherwise the
        model's schema is classified against what is registered so far and the model is
        registered under its qualified name, replacing any previous registration. */
    method CreateCollection(model: ModelClass, primaryKeyField: string, build: SchemaBuilder)
      returns (r: Result<()>)
      requires Valid()
      modifies this
      ensures Valid()
      ensures isInUse == old(isInUse)
      ensures old(isInUse) ==> r == Err(ConnectionError(InUseMessage))
      ensures r.Err? ==> unchanged(this)
      ensures !old(isInUse) ==>
                match build(model.jsonSchema, old(primaryKeyFieldMap), old(modelTypeMap))
                case Err(e) => r == Err(e)
                case Ok(schema) =>
                  var m := model.qualname;
                  && r == Ok(())
                  && collectionsMeta == old(collectionsMeta)[m := CollectionMeta(schema, m, primaryKeyField, NestedFieldNames(schema.mapping))]
                  && primaryKeyFieldMap == old(primaryKeyFieldMap)[m := primaryKeyField]
                  && modelTypeMap == old(modelTypeMap)[m := m]
    {
      if isInUse {
        return Err(ConnectionError(InUseMessage));
      }
      var schema := build(model.jsonSchema, primaryKeyFieldMap, modelTypeMap);
      if schema.Err? {
        return Err(schema.error);
      }
      var m := model.qualname;
      var meta := CollectionMeta(schema.value, m, primaryKeyField, NestedFieldNames(schema.value.mapping));
      collectionsMeta := collectionsMeta[m := meta];
      primaryKeyFieldMap := primaryKeyFieldMap[m := primaryKeyField];
      modelTypeMap := modelTypeMap[m := m];
      return Ok(());
    }

    /** `get_collection`: the collection of a registered model, which puts the store in use;
        an unregistered model is a KeyError and leaves the store as it was. */
    method GetCollection(model: ModelClass) returns (r: Result<Collection>)
      modifies this
      ensures collectionsMeta == old(collectionsMeta) && primaryKeyFieldMap == old(primaryKeyFieldMap)
      ensures modelTypeMap == old(modelTypeMap)
      ensures model.qualname in collectionsMeta ==>
                isInUse && r == Ok(Collection(model.qualname, collectionsMeta[model.qualname], defaultTtl))
      ensures model.qualname !in collectionsMeta ==>
                isInUse == old(isInUse) && r == Err(KeyError(model.qualname + " has not yet been created on the store"))
    {
      var m := model.qualname;
      if m in collectionsMeta {
        isInUse := true;
        return Ok(Collection(m, collectionsMeta[m], defaultTtl));
      }
      return Err(KeyError(m + " has not yet been created on the store"));
    }
  }

  /** Once a collection has been handed out, registration is refused for good: a successful
      `get_collection` followed by any `create_collection` fails and changes nothing. */
  method RegistrationClosesAfterUse(s: Store, model: ModelClass, other: ModelClass, pk: string, build: SchemaBuilder)
    returns (got: Result<Collection>, created: Result<()>)
    requires s.Valid()
    modifies s
    ensures got.Ok? ==> created == Err(ConnectionError(InUseMessage))
    ensures got.Ok? ==> s.collectionsMeta == old(s.collectionsMeta)
  {
    got := s.GetCollection(model);
    created := s.CreateCollection(other, pk, build);
  }

  // ---------------------------------------------------------------------------
  // Collection operations
  // ---------------------------------------------------------------------------

  /** `add_one`: the item's hashes, keyed by its primary key field, written with the effective
      life span. */
  function AddOne(h: Host, c: Collection, item: PyObj, ttl: Option<nat>): (r: Result<seq<Command>>)
    ensures r.Ok? <==> Flatten(h, c.name, c.meta.schema, item, c.meta.primaryKeyField, None).Ok?
  {
    var records :- Flatten(h, c.name, c.meta.schema, item, c.meta.primaryKeyField, None);
    Ok(InsertPipeline(records, EffectiveTtl(ttl, c.defaultTtl)))
  }

  /** `update_one`: the same, keyed by the caller's id. */
  function UpdateOne(h: Host, c: Collection, id: string, data: PyObj, ttl: Option<nat>): (r: Result<seq<Command>>)
    ensures r.Ok? <==> Flatten(h, c.name, c.meta.schema, data, c.meta.primaryKeyField, Some(id)).Ok?
  {
    var records :- Flatten(h, c.name, c.meta.schema, data, c.meta.primaryKeyField, Some(id));
    Ok(InsertPipeline(records, EffectiveTtl(ttl, c.defaultTtl)))
  }

  /** What `prepare_record_to_insert` makes of an item of the collection, keyed by its own
      primary key field. */
  function ItemFlattener(h: Host, c: Collection): PyObj -> Result<seq<HashRecord>>
  {
    item => Flatten(h, c.name, c.meta.schema, item, c.meta.primaryKeyField, None)
  }

  /** The hashes of the first `n` items, item after item; the first failing item fails all. */
  function ItemsRecords(flat: PyObj -> Result<seq<HashRecord>>, items: seq<PyObj>, n: nat): Result<seq<HashRecord>>
    requires n <= |items|
  {
    if n == 0 then Ok([])
    else
      var prev :- ItemsRecords(flat, items, n - 1);
      var records :- flat(items[n - 1]);
      Ok(prev + records)
  }

  /** `add_many`: all items' hashes in one transaction; any failing item stops the call before
      anything is sent. */
  method AddMany(h: Host, c: Collection, items: seq<PyObj>, ttl: Option<nat>) returns (r: Result<seq<Command>>)
    ensures match ItemsRecords(ItemFlattener(h, c), items, |items|)
            case Err(e) => r == Err(e)
            case Ok(records) => r == Ok(InsertPipeline(records, EffectiveTtl(ttl, c.defaultTtl)))
  {
    var records := CollectItemRecords(ItemFlattener(h, c), items);
    if records.Err? {
      return Err(records.error);
    }
    var pipe := InsertRecords(records.value, EffectiveTtl(ttl, c.defaultTtl));
    return Ok(pipe);
  }

  /** The loop of `add_many`: each item's hashes, as `flat` (the collection's
      `prepare_record_to_insert`) gives them, appended in item order; the first item that does
      not flatten ends it with its error. */
  method CollectItemRecords(flat: PyObj -> Result<seq<HashRecord>>, items: seq<PyObj>) returns (r: Result<seq<HashRecord>>)
    ensures r == ItemsRecords(flat, items, |items|)
  {
    var records: seq<HashRecord> := [];
    for i := 0 to |items|
      invariant ItemsRecords(flat, items, i) == Ok(records)
    {
      var toInsert := flat(items[i]);
      ItemsRecordsStep(flat, items, i, records, toInsert);
      if toInsert.Err? {
        ItemsRecordsErrorPersists(flat, items, i + 1, |items|);
        return Err(toInsert.error);
      }
      records := records + toInsert.value;
    }
    return Ok(records);
  }

  /** One more item: its error, or its hashes after those of the items before it. */
  lemma {:induction false} ItemsRecordsStep(flat: PyObj -> Result<seq<HashRecord>>, items: seq<PyObj>, i: nat,
                                            records: seq<HashRecord>, x: Result<seq<HashRecord>>)
    requires i < |items| && ItemsRecords(flat, items, i) == Ok(records) && x == flat(items[i])
    ensures ItemsRecords(flat, items, i + 1) == if x.Err? then Err(x.error) else Ok(records + x.value)
  { }

  lemma {:induction false} ItemsRecordsErrorPersists(flat: PyObj -> Result<seq<HashRecord>>, items: seq<PyObj>, i: nat, j: nat)
    requires i <= j <= |items| && ItemsRecords(flat, items, i).Err?
    ensures ItemsRecords(flat, items, j) == ItemsRecords(flat, items, i)
    decreases j - i
  {
    if i < j {
      ItemsRecordsErrorPersists(flat, items, i, j - 1);
    }
  }

  /** The hashes of every item, item after item, of items that all flatten. */
  function FlatConcat(flat: PyObj -> Result<seq<HashRecord>>, items: seq<PyObj>): seq<HashRecord>
  {
    if items == [] then []
    else
      var x := flat(items[|items| - 1]);
      FlatConcat(flat, items[..|items| - 1]) + (if x.Ok? then x.value else [])
  }

  /** `add_many` succeeds exactly when every item flattens, and then writes each item's hashes
      in item order. */
  lemma {:induction false} ItemsRecordsRule(flat: PyObj -> Result<seq<HashRecord>>, items: seq<PyObj>, n: nat)
    requires n <= |items|
    ensures var r := ItemsRecords(flat, items, n);
            && (r.Ok? <==> forall i :: 0 <= i < n ==> flat(items[i]).Ok?)
            && (r.Ok? ==> r.value == FlatConcat(flat, items[..n]))
  {
    if n > 0 {
      ItemsRecordsRule(flat, items, n - 1);
      assert items[..n][..n - 1] == items[..n - 1];
    }
  }

  /** `delete_many`: one DEL of the ids' hash keys. */
  function DeleteMany(c: Collection, ids: seq<string>): (r: seq<Command>)
    ensures r == RemovePipeline(HashKeys(c.name, ids))
    ensures forall i :: 0 <= i < |ids| ==> GenerateHashKey(c.name, ids[i]) in r[0].keys
  {
    RemovePipeline(HashKeys(c.name, ids))
  }

  /** `Vec::pop` of the records read for one id: the last one, or Python None. */
  function PopOrNone(records: seq<PyObj>): (r: PyObj)
    ensures records == [] ==> r == PyNone
    ensures records != [] ==> r == records[|records| - 1]
  {
    if records == [] then PyNone else records[|records| - 1]
  }

  /** `get_many`: the records of the ids, as model instances built by `construct`.  The script
      raising is a ConnectionError.  On records whose values name no nested field, it reads,
      in id order, every id that has a non-empty hash: the hash's fields with each nested field
      replaced by the hash it names, decoded by the schema. */
  function GetMany(h: Host, c: Collection, construct: ItemParser, db: Db, ids: seq<string>): (r: Result<seq<PyObj>>)
    ensures r.Ok? ==> |r.value| <= |ids|
    ensures SharedUtils.SelectAllFieldsForSomeIdsAsWritten(db, HashKeys(c.name, ids), c.meta.nestedFields).None? ==>
              r == Err(ConnectionError("script error"))
    ensures Clean(db, HashKeys(c.name, ids), set k | k in c.meta.nestedFields) ==>
              ReadsEntities(h, SchemaReader(h, c.meta.schema), construct,
                            SharedUtils.SelectAllFieldsForSomeIds(db, HashKeys(c.name, ids), c.meta.nestedFields), r)
  {
    var cmd := GetRecordsByIdCommand(c.name, c.meta, ids);
    var read := SchemaReader(h, c.meta.schema);
    ByIdReadsKeys(db, c.name, c.meta, ids);
    ReadRecords(h, read, construct, db, cmd)
  }

  /** The entity of one stored hash, as the intended expansion reads it. */
  function StoredEntity(db: Db, key: string, nestedFields: seq<string>): RValue
  {
    Bulk(ExpandValues(db, StoredPairs(db, key), set k | k in nestedFields))
  }

  /** `get_one`: the record of one id, or None when there is none.  On a record whose values
      name no nested field, an id without a hash (or with an empty one) reads as None, and
      otherwise as its decoded entity. */
  function GetOne(h: Host, c: Collection, construct: ItemParser, db: Db, id: string): (r: Result<PyObj>)
    ensures SharedUtils.SelectAllFieldsForSomeIdsAsWritten(db, [GenerateHashKey(c.name, id)], c.meta.nestedFields).None? ==>
              r == Err(ConnectionError("script error"))
    ensures var key := GenerateHashKey(c.name, id);
            Clean(db, [key], set k | k in c.meta.nestedFields) ==>
              && (StoredPairs(db, key) == [] ==> r == Ok(PyNone))
              && (StoredPairs(db, key) != [] ==>
                    var d := DecodeEntity(h, SchemaReader(h, c.meta.schema), construct, StoredEntity(db, key, c.meta.nestedFields));
                    (r.Ok? <==> d.Ok?) && (r.Ok? ==> r == d))
  {
    OneRead(h, c, construct, db, id);
    var records :- GetMany(h, c, construct, db, [id]);
    Ok(PopOrNone(records))
  }

  /** The read of one id gives at most the one entity of its key. */
  lemma OneRead(h: Host, c: Collection, construct: ItemParser, db: Db, id: string)
    ensures SharedUtils.SelectAllFieldsForSomeIdsAsWritten(db, [GenerateHashKey(c.name, id)], c.meta.nestedFields).None? ==>
              GetMany(h, c, construct, db, [id]) == Err(ConnectionError("script error"))
    ensures var key := GenerateHashKey(c.name, id);
            var r := GetMany(h, c, construct, db, [id]);
            Clean(db, [key], set k | k in c.meta.nestedFields) ==>
              && (StoredPairs(db, key) == [] ==> r == Ok([]))
              && (StoredPairs(db, key) != [] ==>
                    var d := DecodeEntity(h, SchemaReader(h, c.meta.schema), construct, StoredEntity(db, key, c.meta.nestedFields));
                    (r.Ok? <==> d.Ok?) && (r.Ok? ==> r.value == [d.value]))
  {
    var key := GenerateHashKey(c.name, id);
    assert HashKeys(c.name, [id]) == [key];
    if Clean(db, [key], set k | k in c.meta.nestedFields) {
      var e := ExpandValues(db, StoredPairs(db, key), set k | k in c.meta.nestedFields);
      assert SharedUtils.SelectAllFieldsForSomeIds(db, [key], c.meta.nestedFields) == [Bulk(e)];
      assert e == [] <==> StoredPairs(db, key) == [];
      ReadsOne(h, SchemaReader(h, c.meta.schema), construct, e, GetMany(h, c, construct, db, [id]));
    }
  }

  /** `get_many_partially`: the requested fields of the ids' records, as dicts.  With ids but
      no field and no nested field, the script raises: a ConnectionError.  Otherwise it reads,
      in id order, every id whose hash holds a requested field: those fields, in column order,
      each nested one replaced by the hash it names when it was requested. */
  function GetManyPartially(h: Host, c: Collection, db: Db, ids: seq<string>, fields: seq<string>): (r: Result<seq<PyObj>>)
    ensures r.Ok? ==> |r.value| <= |ids|
    ensures ids != [] && fields + c.meta.nestedFields == [] ==> r == Err(ConnectionError("script error"))
    ensures !(ids != [] && fields + c.meta.nestedFields == []) ==>
              ReadsEntities(h, SchemaReader(h, c.meta.schema), AsDict,
                            SharedUtils.SelectSomeFieldsForSomeIds(db, HashKeys(c.name, ids), fields + c.meta.nestedFields).value, r)
  {
    var cmd := GetPartialRecordsByIdCommand(c.name, c.meta, ids, fields);
    var read := SchemaReader(h, c.meta.schema);
    PartialByIdReadsKeys(db, c.name, c.meta, ids, fields);
    ReadRecords(h, read, AsDict, db, cmd)
  }

  /** `get_one_partially`: the requested fields of one record as a dict, or None when its hash
      holds none of them; a ConnectionError when nothing at all is requested. */
  function GetOnePartially(h: Host, c: Collection, db: Db, id: string, fields: seq<string>): (r: Result<PyObj>)
    ensures fields + c.meta.nestedFields == [] ==> r == Err(ConnectionError("script error"))
    ensures fields + c.meta.nestedFields != [] ==>
              var (cols, nested) := Columns(fields + c.meta.nestedFields);
              var e := ExpandValues(db, Requested(StoredPairs(db, GenerateHashKey(c.name, id)), cols), nested);
              && (e == [] ==> r == Ok(PyNone))
              && (e != [] ==>
                    var d := DecodeEntity(h, SchemaReader(h, c.meta.schema), AsDict, Bulk(e));
                    (r.Ok? <==> d.Ok?) && (r.Ok? ==> r == d))
  {
    OnePartialRead(h, c, db, id, fields);
    var records :- GetManyPartially(h, c, db, [id], fields);
    Ok(PopOrNone(records))
  }

  /** The partial read of one id gives at most the one entity of its key. */
  lemma OnePartialRead(h: Host, c: Collection, db: Db, id: string, fields: seq<string>)
    ensures fields + c.meta.nestedFields == [] ==> GetManyPartially(h, c, db, [id], fields) == Err(ConnectionError("script error"))
    ensures fields + c.meta.nestedFields != [] ==>
              var (cols, nested) := Columns(fields + c.meta.nestedFields);
              var e := ExpandValues(db, Requested(StoredPairs(db, GenerateHashKey(c.name, id)), cols), nested);
              var r := GetManyPartially(h, c, db, [id], fields);
              && (e == [] ==> r == Ok([]))
              && (e != [] ==>
                    var d := DecodeEntity(h, SchemaReader(h, c.meta.schema), AsDict, Bulk(e));
                    (r.Ok? <==> d.Ok?) && (r.Ok? ==> r.value == [d.value]))
  {
    var args := fields + c.meta.nestedFields;
    if args != [] {
      var key := GenerateHashKey(c.name, id);
      assert HashKeys(c.name, [id]) == [key];
      var (cols, nested) := Columns(args);
      var e := ExpandValues(db, Requested(StoredPairs(db, key), cols), nested);
      var es := SharedUtils.SelectSomeFieldsForSomeIds(db, [key], args);
      assert es.Some? && es.value == [Bulk(e)];
      var read, r := SchemaReader(h, c.meta.schema), GetManyPartially(h, c, db, [id], fields);
      assert ReadsEntities(h, read, AsDict, es.value, r);
      ReadsOne(h, read, AsDict, e, r);
    }
  }

  /** `get_all`: every record of the collection, as model instances.  The script raising is a
      ConnectionError.  On a collection whose values name no nested field, it reads, in SCAN
      order, every non-empty hash of the collection with its nested fields expanded. */
  function GetAll(h: Host, c: Collection, construct: ItemParser, db: Db): (r: Result<seq<PyObj>>)
    ensures r.Ok? ==> |r.value| <= |CollectionKeys(db, c.name)|
    ensures SharedUtils.SelectAllFieldsForSomeIdsAsWritten(db, CollectionKeys(db, c.name), c.meta.nestedFields).None? ==>
              r == Err(ConnectionError("script error"))
    ensures Clean(db, CollectionKeys(db, c.name), set k | k in c.meta.nestedFields) ==>
              ReadsEntities(h, SchemaReader(h, c.meta.schema), construct,
                            SharedUtils.SelectAllFieldsForSomeIds(db, CollectionKeys(db, c.name), c.meta.nestedFields), r)
  {
    var cmd := GetAllRecordsCommand(c.name, c.meta);
    var read := SchemaReader(h, c.meta.schema);
    AllReadsCollection(db, c.name, c.meta);
    ReadRecords(h, read, construct, db, cmd)
  }

  /** `get_all_partially`: the requested fields of every record of the collection, as dicts.
      The script raising is a ConnectionError; otherwise every entity it gives (one per hash
      key of the collection, every column with its value or nil) is decoded. */
  function GetAllPartially(h: Host, c: Collection, db: Db, fields: seq<string>): (r: Result<seq<PyObj>>)
    ensures var argv := [GenerateCollectionKeyPattern(c.name)] + fields + c.meta.nestedFields;
            var es := SharedUtils.SelectSomeFieldsForAllIds(db, argv);
            && (es.None? ==> r == Err(ConnectionError("script error")))
            && (es.Some? ==> ReadsEntities(h, SchemaReader(h, c.meta.schema), AsDict, es.value, r))
  {
    var cmd := GetAllPartialRecordsCommand(c.name, c.meta, fields);
    var read := SchemaReader(h, c.meta.schema);
    assert cmd.args[cmd.numKeys..] == cmd.args;
    ReadRecords(h, read, AsDict, db, cmd)
  }

  /** An id with no hash reads as None: its entity is empty, and empty entities are skipped. */
  lemma MissingIdReadsNone(h: Host, c: Collection, construct: ItemParser, db: Db, id: string)
    requires GenerateHashKey(c.name, id) !in db.hashes
    ensures GetOne(h, c, construct, db, id) == Ok(PyNone)
  {
    var key := GenerateHashKey(c.name, id);
    assert StoredPairs(db, key) == [];
    assert Clean(db, [key], set k | k in c.meta.nestedFields);
  }

  /** A partial read of an id with no hash reads as None when some column is asked for; with no
      column at all the script raises and the read is a ConnectionError. */
  lemma MissingIdReadsNonePartially(h: Host, c: Collection, db: Db, id: string, fields: seq<string>)
    requires GenerateHashKey(c.name, id) !in db.hashes
    ensures fields + c.meta.nestedFields != [] ==> GetOnePartially(h, c, db, id, fields) == Ok(PyNone)
    ensures fields + c.meta.nestedFields == [] ==>
              GetOnePartially(h, c, db, id, fields).Err? && GetOnePartially(h, c, db, id, fields).error.ConnectionError?
  {
    var args := fields + c.meta.nestedFields;
    if args != [] {
      var (cols, nested) := Columns(args);
      assert StoredPairs(db, GenerateHashKey(c.name, id)) == [];
      RequestedOfNothing(cols);
    }
  }

  /** `add_one` writes the record's own hash last, under the key of its primary key field, and
      keeps it for the effective life span. */
  lemma AddOneLayout(h: Host, c: Collection, item: PyObj, ttl: Option<nat>)
    requires AddOne(h, c, item, ttl).Ok?
    ensures var pipe := AddOne(h, c, item, ttl).value;
            var fields := ObjectFields(item).value;
            && HasKey(fields, c.meta.primaryKeyField)
            && var key := GenerateHashKey(c.name, PyStrOf(Lookup(fields, c.meta.primaryKeyField).value));
               && pipe[0] == Multi && pipe[|pipe| - 1] == Exec
               && (EffectiveTtl(ttl, c.defaultTtl).None? ==> pipe[|pipe| - 2].HSet? && pipe[|pipe| - 2].key == key)
               && (EffectiveTtl(ttl, c.defaultTtl).Some? ==>
                     pipe[|pipe| - 3].HSet? && pipe[|pipe| - 3].key == key
                     && pipe[|pipe| - 2] == Expire(key, EffectiveTtl(ttl, c.defaultTtl).value))
  {
    var records := Flatten(h, c.name, c.meta.schema, item, c.meta.primaryKeyField, None).value;
    var fields := ObjectFields(item).value;
    InsertLayout(records, EffectiveTtl(ttl, c.defaultTtl));
    var n := |records| - 1;
    if EffectiveTtl(ttl, c.defaultTtl).Some? {
      assert 2 * n + 1 == |InsertPipeline(records, EffectiveTtl(ttl, c.defaultTtl))| - 3;
    }
  }

  /** `update_one` writes the record's own hash last, under the caller's id whatever the record
      holds in its primary key field. */
  lemma UpdateOneKey(h: Host, c: Collection, id: string, data: PyObj, ttl: Option<nat>)
    requires UpdateOne(h, c, id, data, ttl).Ok?
    ensures var pipe := UpdateOne(h, c, id, data, ttl).value;
            var key := GenerateHashKey(c.name, id);
            && (EffectiveTtl(ttl, c.defaultTtl).None? ==> pipe[|pipe| - 2].HSet? && pipe[|pipe| - 2].key == key)
            && (EffectiveTtl(ttl, c.defaultTtl).Some? ==>
                  pipe[|pipe| - 3].HSet? && pipe[|pipe| - 3].key == key
                  && pipe[|pipe| - 2] == Expire(key, EffectiveTtl(ttl, c.defaultTtl).value))
  {
    var records := Flatten(h, c.name, c.meta.schema, data, c.meta.primaryKeyField, Some(id)).value;
    InsertLayout(records, EffectiveTtl(ttl, c.defaultTtl));
    var n := |records| - 1;
    if EffectiveTtl(ttl, c.defaultTtl).Some? {
      assert 2 * n + 1 == |InsertPipeline(records, EffectiveTtl(ttl, c.defaultTtl))| - 3;
    }
  }
}
