# orredis, modelled in Dafny

orredis is a Redis ORM for pydantic-style models, written in Rust with a Python surface. A model
class describes a collection: every record is one flat Redis hash stored under the key
`<collection>_%&_<primary key>`. A field that holds another model is written as a foreign key,
which is the hash key of the nested record, and that record is written in the same pipeline. The
readers are Lua scripts. They fetch hashes by id or by `SCAN` pattern, follow foreign keys one
level down, and return flat lists that the Rust side parses back into typed Python values.

This project models that mapping layer:

- `common.dfy`: strings, digits, `i64` parsing, and association lists. The lists stand for Rust
  `HashMap`s, held in the order the code iterates them.
- `values.dfy`: Python values, Redis replies, commands and the abstract Redis database.
- `shared_utils.dfy`, `shared_parsers.dfy`, `shared_field_types.dfy`, `shared_flatten.dfy` and
  `shared_reply.dfy`: the current generation in `src/shared/`. This covers key generation, the Lua
  readers over the database, string and reply parsers, the schema and field types, how a record is
  flattened into hashes, and how script replies are decoded.
- `client_utils.dfy`: the pipelines built by `src/syncio/utils.rs` and their effect on the database.
- `store.dfy`: the `Store` and `Collection` objects of `src/store.rs`.
- `legacy_field_types.dfy`, `legacy_parsers.dfy`, `legacy_schema.dfy`, `records.dfy` and
  `legacy_redis_utils.dfy`: the first generation in `src/`.
- `models.dfy` and `pyparsers.dfy`: the first generation's `Model` class and its Python readers.
- `py_model.dfy`: the Python `Model` class in `orredis/model.py`.

Calls into Python, chrono and the float parser become fields of a `Host` value that is passed in.
Both generations share the field-type reader, so a `Generation` parameter selects the behaviour of
`src/shared/field_types.rs` or `src/field_types.rs`.

## Model

| member | source | states |
|---|---|---|
| SharedUtils.GenerateHashKey | src/shared/utils.rs:93-95 | the key is the collection name, the separator `_%&_`, then the id, in that order and nothing else |
| SharedUtils.GenerateCollectionKeyPattern | src/shared/utils.rs:99-101 | the pattern is the hash key of the empty id followed by `*` |
| SharedUtils.HashKeyInjective | src/shared/utils.rs:90-95 | two ids of one collection share a hash key only when they are equal, so entities of a collection never overwrite each other |
| SharedUtils.PrefixPatternMatches | src/shared/utils.rs:99-101 | a literal prefix followed by `*` matches exactly the keys that start with the prefix |
| SharedUtils.PatternSelectsCollectionKeys | src/shared/utils.rs:97-101 | when the collection name holds no glob character, a key matches the collection's pattern iff it is the hash key of some id of that collection |
| SharedUtils.TryGet | src/shared/utils.rs:106-115 | the value stored under the key, or a KeyError naming the key with the given message when the key is absent |
| SharedUtils.HGetAll | src/shared/utils.rs:13-14 | HGETALL of a missing key is the empty array |
| SharedUtils.HMGet | src/shared/utils.rs:12 | HMGET answers one value per column, the stored value or nil when the hash lacks the field |
| SharedUtils.MatchingHashKeys | src/shared/utils.rs:12-13 | the keys the SCAN loop visits are exactly the scanned keys holding a hash and matching the pattern |
| SharedUtils.Columns | src/shared/utils.rs:12 | every argument name is a column and every nested column is a column |
| SharedUtils.ColumnsRule | src/shared/utils.rs:15 | the columns are the distinct argument names without repetition, and a name is a nested column iff it occurs at least twice |
| SharedUtils.ExpandAsWritten | src/shared/utils.rs:14 | the loop over `ipairs(parent)` as written keeps the entity's length when it succeeds |
| SharedUtils.ExpandValues | src/shared/utils.rs:14 | the field names stay in place and the value of every field named as nested is replaced by the HGETALL of the key it holds; other values are kept |
| SharedUtils.AsWrittenExpandsValues | src/shared/utils.rs:13-14 | when no stored value equals a nested field's name, the loop as written gives exactly the intended expansion |
| SharedUtils.ValueNamedLikeNestedFieldCorruptsEntity | src/shared/utils.rs:14 | the record `title = "author"`, `author = "x"` with nested field `author` gets its next field name replaced by the (empty) hash named `author` by the loop as written, while the intended expansion replaces the value `x` by the hash stored under it |
| SharedUtils.SelectAllFieldsForSomeIdsAsWritten | src/shared/utils.rs:14 | the script as written succeeds iff the loop as written succeeds on every KEYS entry's hash, and then gives one entity per entry, that loop's result |
| SharedUtils.SomeIdsAsWrittenIntended | src/shared/utils.rs:14 | when no stored value under the keys is named like a nested field, the some-ids script as written gives exactly the intended entities |
| SharedUtils.Requested | src/shared/utils.rs:15 | the fields HMGET finds: each a column the hash holds, with its stored value, and every column the hash holds among them |
| SharedUtils.SelectAllFieldsForSomeIds | src/shared/utils.rs:14 | one entity per KEYS entry in order, and a key with no hash reads as the empty array |
| SharedUtils.SelectAllFieldsForAllIds | src/shared/utils.rs:13 | the intended all-ids script: it raises iff there is no ARGV; otherwise ARGV[1] is the pattern, ARGV[2..] the nested fields, and the reply is exactly the intended some-ids reply over the hash keys SCAN MATCH yields |
| SharedUtils.SelectAllFieldsForAllIdsAsWritten | src/shared/utils.rs:13 | the all-ids script as written raises without ARGV; otherwise it succeeds iff the loop as written succeeds on the hash of every key SCAN MATCH ARGV[1] yields, with one entity per key |
| SharedUtils.AllIdsAsWrittenIntended | src/shared/utils.rs:13 | when no matching hash stores a value named like a nested field, the all-ids script as written gives exactly the intended reply |
| SharedUtils.AllIdsValueNamedLikeNestedFieldCorruptsEntity | src/shared/utils.rs:13 | over a concrete collection whose record stores a value spelled like the nested field, the all-ids script as written replaces the next field name by a hash, where the intended script expands the nested field |
| SharedUtils.SomeFieldsEntity | src/shared/utils.rs:15 | one entity of the some-ids partial script (HMGET, then the loop over the values) is exactly the requested fields the hash holds, in column order, each after its name, a missing field left out and a nested column replaced by the hash its value names |
| SharedUtils.SelectSomeFieldsForSomeIds | src/shared/utils.rs:15 | the script raises iff it has keys but no column at all (HMGET without fields); otherwise one entity per key, in order, each the expansion of the requested fields that key's hash holds |
| SharedUtils.AllIdsEntity | src/shared/utils.rs:12 | an entity of the all-ids partial script is built iff no nested column has a nil value; it then holds every column name followed by its value, nil included, a nested one replaced by the hash it names |
| SharedUtils.SelectSomeFieldsForAllIds | src/shared/utils.rs:12 | with no ARGV (no pattern) the script raises; otherwise ARGV[1] is the pattern and never a column, and the script succeeds iff it has a column or no key and every key's entity is built, giving one entity per key SCAN MATCH yields |
| SharedUtils.MissingFieldHandling | src/shared/utils.rs:12-15 | for a missing hash, the some-ids script leaves the column out (an empty entity) while the all-ids script keeps the column with nil |
| SharedParsers.StripPortion | src/shared/parsers.rs:46 | a stripped portion neither starts nor ends with a quote |
| SharedParsers.StripAll | src/shared/parsers.rs:45-47 | each portion is stripped on its own, in order |
| SharedParsers.ExtractStrPortions | src/shared/parsers.rs:35-48 | the inner text splits into one more portion than it has separators, and no portion holds the separator |
| SharedParsers.StripKeepsAbsence | src/shared/parsers.rs:46 | trimming only removes characters |
| SharedParsers.EmptyBracketsGiveOneEmptyPortion | src/shared/parsers.rs:35-48 | the portions of an empty bracket pair are a single empty string |
| SharedParsers.ParseI64Str | src/shared/parsers.rs:66-73 | parsing succeeds iff the text is a 64-bit decimal integer and gives its value; otherwise the ValueError carries `ParseIntError`'s text: empty string, or overflow of the sign when the digits before the first non-digit already leave the range, else invalid digit |
| SharedParsers.OverflowBeforeInvalidDigit | src/shared/parsers.rs:66-73 | twenty nines followed by a non-digit report the overflow (too large, or too small with a minus sign), not the invalid digit |
| SharedParsers.ParseBoolStr | src/shared/parsers.rs:66-73 | exactly `true` and `false` parse, to the matching boolean; anything else is the ValueError of Rust's bool parser |
| SharedParsers.ParseF64Str | src/shared/parsers.rs:66-73 | succeeds iff the text is a float literal, keeping the text; otherwise the ValueError says "cannot parse float from empty string" for the empty text and "invalid float literal" for any other |
| SharedParsers.DateFields | src/shared/parsers.rs:26-29 | an accepted text is strictly `Y-M-D` with a year of one to four digits and a month and a day of one or two digits, naming a valid calendar date |
| SharedParsers.ParseDateToTimestamp | src/shared/parsers.rs:26-32 | succeeds iff the text is such a strict `Y-M-D` date, giving the timestamp of its midnight (a multiple of 86400, days counted from 1970-01-01); otherwise the ValueError naming the text |
| SharedParsers.PadIntDigits | src/shared/parsers.rs:26-32 | zero-padding a number below 10^width gives exactly width digits with the number's value |
| SharedParsers.DateRoundTrip | src/shared/parsers.rs:26-32 | the text Python writes for a date parses back to that date's midnight timestamp |
| SharedParsers.ParseDatetimeToTimestamp | src/shared/parsers.rs:15-23 | succeeds iff the zoned format parses, with its timestamp |
| SharedParsers.RedisToString | src/shared/parsers.rs:52-57 | a bulk string, a status or OK reads as text, bulk data as its bytes, and any other reply is an error |
| SharedParsers.RedisToI64 | src/shared/parsers.rs:52-57 | an integer reply is its value, bulk data is parsed as i64, and nil, arrays and OK are errors |
| SharedParsers.RedisToF64 | src/shared/parsers.rs:52-57 | bulk data is parsed as a float, and nil, arrays and OK are errors |
| SharedParsers.AsSequence | src/shared/parsers.rs:101-107 | a reply is a sequence iff it is an array (its items) or nil |
| SharedParsers.AsMapIter | src/shared/parsers.rs:114 | a reply reads as a map iff it is an array; item pair i is items 2i and 2i+1, so an unpaired last item is dropped |
| SharedParsers.PairUp | src/shared/parsers.rs:114 | pair i is items 2i and 2i+1 |
| SharedParsers.Unpair | src/shared/parsers.rs:114 | the flat reply of a hash alternates field and value |
| SharedParsers.PairUpUnpair | src/shared/parsers.rs:114-118 | pairing up undoes flattening: the map read of a flattened hash gives back its pairs |
| SharedParsers.CollectPairsValues | src/shared/parsers.rs:117-128 | collecting a hash reply's pairs into a map reads every pair; the map's keys are exactly the pairs' fields (plus those already collected), the field of the last pair with a name holds that pair's value as read, and other names keep their values |
| SharedParsers.OddArrayDropsLastItem | src/shared/parsers.rs:114 | a concrete array of three items reads as the map of its first pair |
| SharedFieldTypes.GetType | src/shared/field_types.rs:107 | a field has a type iff the schema declares it |
| SharedFieldTypes.EmptySchema | src/shared/field_types.rs:316 | the empty schema declares no field |
| SharedFieldTypes.ExtractFromPySchema | src/shared/field_types.rs:214-239 | a non-dict property is a downcast error; a successful classification is a well-formed field type |
| SharedFieldTypes.NonNestedField | src/shared/field_types.rs:279-304 | each JSON Schema `type` keyword maps to its field type, and a classification that succeeds is well-formed |
| SharedFieldTypes.StrOrDatetimeField | src/shared/field_types.rs:419-431 | a string property is always a string, a datetime or a date |
| SharedFieldTypes.ArrayOrTupleField | src/shared/field_types.rs:350-376 | an array property classifies to a well-formed list or tuple type |
| SharedFieldTypes.ItemsField | src/shared/field_types.rs:356-370 | a list of item schemas makes a tuple, a single item schema a list |
| SharedFieldTypes.TupleItemTypes | src/shared/field_types.rs:401-414 | one classified type per item schema, in order |
| SharedFieldTypes.NestedField | src/shared/field_types.rs:244-274 | a `$ref` classifies only to a nested model named by the reference's last `/` segment |
| SharedFieldTypes.NestedSchema | src/shared/field_types.rs:309-330 | a model without a definition gets the empty schema |
| SharedFieldTypes.NestedModel | src/shared/field_types.rs:257-273 | a nested model is built iff its primary key field and its class are registered; otherwise the KeyError of whichever is missing first, with the source's texts |
| SharedFieldTypes.DefinitionProperties | src/shared/field_types.rs:315-316 | an undefined model has no properties |
| SharedFieldTypes.FromPyAny | src/shared/field_types.rs:320-325 | the schema read from a properties dict declares exactly the dict's string keys, each with a well-formed type |
| SharedFieldTypes.FromEntries | src/shared/field_types.rs:320-325 | the schema's fields are exactly the entries' names |
| SharedFieldTypes.FromEntry | src/shared/field_types.rs:320-325 | a schema entry keeps its property's name |
| SharedFieldTypes.ToJsonSchema | src/shared/field_types.rs:286-303 | the JSON Schema property pydantic writes for a plain type carries a `type` keyword |
| SharedFieldTypes.ClassifyJsonSchema | src/shared/field_types.rs:214-239 | classifying the JSON Schema of a plain type gives that type back, for every registry and any fuel |
| SharedFieldTypes.ClassifyJsonSchemas | src/shared/field_types.rs:401-414 | classifying a list of item schemas gives back the tuple's item types in order |
| SharedFieldTypes.FallbackToStr | src/shared/field_types.rs:236-237 | a property with neither `type` nor `$ref`, or with an unknown `type` keyword, is a string |
| SharedFieldTypes.NestedClassification | src/shared/field_types.rs:244-274 | a reference to an undefined model is a nested model with an empty schema when both registrations exist, and otherwise the missing-primary-key or missing-model-type KeyError |
| SharedFieldTypes.SplitItems | src/shared/field_types.rs:124-125 | each dict item is split on `:` on its own, in order |
| SharedFieldTypes.StrToPy | src/shared/field_types.rs:167-206 | str and nested read as the text; int iff a 64-bit integer, as it; bool iff exactly `true` or `false`; float iff the host parser accepts it; None as None; a dict, list and tuple that read are a dict, a list and a tuple (a list in the first generation) |
| SharedFieldTypes.ParseDictStr | src/shared/field_types.rs:120-136 | the dict reads iff the value of every item that splits in two reads; its keys are then unique and exactly those items' keys |
| SharedFieldTypes.ParseListStr | src/shared/field_types.rs:139-145 | the list reads iff every item reads as the item type, and is then one value per item, each that item read |
| SharedFieldTypes.ParseTupleStr | src/shared/field_types.rs:148-164 | the tuple reads iff every item reads as the type at its position, up to the shorter of items and types; it then has that many values, each its item read |
| SharedFieldTypes.ListItemsRule | src/shared/field_types.rs:139-145 | a list reads iff every item reads as the item type, and then item by item in order |
| SharedFieldTypes.TupleItemsRule | src/shared/field_types.rs:148-164 | a tuple reads item by item with its own type, zipped, so the shorter of items and types decides the length; it fails iff some zipped item fails |
| SharedFieldTypes.DictItemsOk | src/shared/field_types.rs:120-136 | a dict reads iff every item that splits into key and value has a value that reads; items that do not split in two are dropped |
| SharedFieldTypes.DictItemsKeys | src/shared/field_types.rs:120-136 | the read dict has each key once, and its keys are exactly those of the items that split in two (a later item overwrites an earlier one) |
| SharedFieldTypes.ParseDictStrLoop | src/shared/field_types.rs:120-136 | the loop over the items computes the dict the specification function gives |
| SharedFieldTypes.DictItemsLoop | src/shared/field_types.rs:124-133 | the loop returns at the first value that fails, else the dict built so far |
| SharedFieldTypes.DictItemsExtend | src/shared/field_types.rs:124-133 | one loop step: an item not in two pieces is skipped, a value that reads is inserted, a value that fails fails the whole dict |
| SharedFieldTypes.DictItemsPrefixError | src/shared/field_types.rs:124-133 | once a prefix of the items fails, the whole dict fails with that error |
| SharedFieldTypes.ReplyReadsAsStored | src/shared/field_types.rs:42-92 | a non-nested field reads from a bulk string exactly as the string reads inside a collection, and for every type but int and None a nil or array reply is an error |
| SharedFieldTypes.RedisToPy | src/shared/field_types.rs:42-92 | a nested field whose reply is not an array is None; None is None; an integer reply to an int field is that integer; any other type fails on a nil or array reply |
| SharedFieldTypes.NestedToPy | src/shared/field_types.rs:96-117 | a reply that is not an array reads as None; a successful read of an array is an instance of the nested model's class whose every field is declared in the nested schema |
| SharedFieldTypes.NestedFields | src/shared/field_types.rs:104-113 | every field read is declared in the nested schema; the value of each field is stated by NestedFieldsValues |
| SharedFieldTypes.NestedFieldsValues | src/shared/field_types.rs:104-113 | every pair's field reads as text and is declared; the field of the last pair with a name holds that pair's value read by the field's declared type; the fields are exactly the pairs' names (plus those already collected), and a name no pair gives keeps its earlier value |
| SharedFieldTypes.NestedToPyValues | src/shared/field_types.rs:96-117 | a nested model read from an array is an instance of the model class whose fields are exactly the names of the reply's pairs, each holding the last such pair's value read by its declared type |
| SharedFieldTypes.UndeclaredNestedFieldFails | src/shared/field_types.rs:107-110 | a field missing from the nested schema makes the nested read fail |
| SharedFlatten.ObjectFields | src/shared/utils.rs:25-28 | a record is a str-keyed dict or a model instance (through its `dict()`); anything else is the AttributeError for the missing `dict` |
| SharedFlatten.EncodeValue | src/shared/utils.rs:54-68 | a datetime field is stored as its UTC text (a non-datetime value has no `astimezone`), a bool as its lower-cased text, any other field as its `str()` |
| SharedFlatten.PrimaryKey | src/shared/utils.rs:73-84 | a given id wins; otherwise the record's primary-key field's text, and a KeyError naming the field when the record lacks it |
| SharedFlatten.Flatten | src/shared/utils.rs:18-88 | a flattening that succeeds produces at least one hash, the last one being the record's own under its primary key |
| SharedFlatten.FlattenFieldsErrorPersists | src/shared/utils.rs:33-71 | once a field fails, the whole record fails with that error |
| SharedFlatten.FlattenFields | src/shared/utils.rs:30-71 | after the first i schema fields, the record's own pairs hold exactly the fields among them the record has, each once and stored as its type requires |
| SharedFlatten.FlattenField | src/shared/utils.rs:33-71 | a field the record lacks adds nothing; otherwise the earlier hashes are kept and the field is appended to the record's pairs with its stored value |
| SharedFlatten.AddField | src/shared/utils.rs:33-71 | one turn of the loop over the schema computes the specification of that field |
| SharedFlatten.PrepareRecordToInsert | src/shared/utils.rs:18-88 | the loop over the schema's fields computes the flattening function |
| SharedFlatten.StoredRecord | src/shared/utils.rs:33-71 | the record's own hash holds exactly the schema fields the record has, each once, with its encoded value, and a nested field holds the key of the nested model's hash |
| SharedFlatten.FlattenCount | src/shared/utils.rs:42-52 | one hash per nested model present in the record (counted recursively) plus the record's own |
| SharedFlatten.FlatRecordIsOneHash | src/shared/utils.rs:30-87 | a schema without nested fields gives exactly one hash |
| SharedFlatten.StoredScalarReadsBack | src/shared/utils.rs:62-68 | a stored str, 64-bit int or bool reads back as the same value, both from its string and from its Redis reply |
| SharedReply.SchemaReader | src/shared/parsers.rs:120-124 | a field has a reader iff the schema declares it |
| SharedReply.EntityData | src/shared/parsers.rs:117-128 | every decoded field is declared, and keys stay unique; the value of each field is stated by EntityDataValues |
| SharedReply.DecodeEntity | src/shared/parsers.rs:114-128 | an entity that is not an array is the ValueError "redis value is not a map" |
| SharedReply.ReplyEntities | src/shared/parsers.rs:101-107 | the entities are read iff the reply is an array whose first item is an array or nil; otherwise the unexpected-shape ValueError |
| SharedReply.ParseLuaScriptResponse | src/shared/parsers.rs:93-137 | the loop over the entities computes the specification function of the reply |
| SharedReply.ParseEntitiesErrorPersists | src/shared/parsers.rs:112-134 | once an entity fails, the whole reply fails with that error |
| SharedReply.NonEmpty | src/shared/parsers.rs:113 | skipping empty entities never adds one |
| SharedReply.NonEmptyMembers | src/shared/parsers.rs:109-113 | the kept entities are exactly the non-empty ones |
| SharedReply.ParseEntitiesRule | src/shared/parsers.rs:109-136 | the reply reads iff every non-empty entity decodes, and then gives them decoded in reply order |
| SharedReply.ParseReply | src/shared/parsers.rs:93-137 | a reply of the wrong shape is the unexpected-shape error; otherwise it reads iff every non-empty entity decodes, and then gives one result per non-empty entity, each that entity decoded, in reply order |
| SharedReply.UnpairedItemIgnored | src/shared/parsers.rs:114 | an entity with an unpaired last item decodes exactly as its pairs alone |
| SharedReply.UndeclaredFieldFails | src/shared/parsers.rs:120-124 | a field missing from the schema fails the entity |
| SharedReply.EntityDataKeepsFields | src/shared/parsers.rs:117-128 | every field of the entity appears in the decoded data |
| SharedReply.EntityDataValues | src/shared/parsers.rs:117-128 | every pair's key reads as text, is declared and its value reads by the declared type; the field of the last pair with a key holds that pair's value as read (the `HashMap` keeps the last value); the fields are exactly the pairs' keys (plus those already collected), and a key no pair names keeps its earlier value |
| SharedReply.CorruptedEntityIsRejected | src/shared/parsers.rs:114-128 | the entity the some-ids script corrupts (an array in a field-name position) is rejected |
| SharedReply.UndecodableKeyFails | src/shared/parsers.rs:119 | a field name that is not a string fails the entity |
| ClientUtils.InsertRecords | src/syncio/utils.rs:14-38 | the loop queues exactly the insert pipeline: MULTI, each record's HSET and (with a life span) EXPIRE, then EXEC |
| ClientUtils.RecordsLayout | src/syncio/utils.rs:26-32 | without a life span command i is record i's HSET; with one, commands 2i and 2i+1 are record i's HSET and EXPIRE |
| ClientUtils.InsertLayout | src/syncio/utils.rs:24-34 | the pipeline starts with MULTI, ends with EXEC, and holds the records' commands in input order in between, nothing else |
| ClientUtils.RemovePipeline | src/syncio/utils.rs:41-51 | removal is a single DEL, outside any transaction |
| ClientUtils.HSetFieldsRule | src/syncio/utils.rs:27 | after HSET a hash holds its old fields and the command's; a field the command sets takes the command's value, the others keep theirs |
| ClientUtils.HSetApply | src/syncio/utils.rs:27 | one HSET adds its key, leaves every other hash unchanged and stores every field it sets |
| ClientUtils.RecordsStored | src/syncio/utils.rs:26-32 | after the records' commands every hash no record names is unchanged; with a life span of 0 the records' keys are gone (EXPIRE with a zero timeout deletes the key); otherwise the database holds exactly the old keys plus the records' keys, and each record's fields hold the values of the last record written to its key |
| ClientUtils.InsertedRecordsStored | src/syncio/utils.rs:14-38 | the transaction succeeds iff every record has a field; then every other hash is unchanged, with a life span of 0 no record's key is left, and otherwise every record is stored |
| ClientUtils.InsertApply | src/syncio/utils.rs:25-34 | MULTI and EXEC change no hash |
| ClientUtils.InsertWellFormed | src/syncio/utils.rs:24-34 | the pipeline holds a command Redis refuses iff some record has no field |
| ClientUtils.RemovedRecordsGone | src/syncio/utils.rs:41-51 | DEL removes exactly the given keys and keeps every other hash; with no key Redis refuses it |
| ClientUtils.HashKeys | src/syncio/utils.rs:60-63 | one hash key per id, in order |
| ClientUtils.CollectionKeysRule | src/syncio/utils.rs:137-157 | the all-ids reads visit exactly the scanned hashes whose key starts with the collection's prefix |
| ClientUtils.ByIdReadsKeys | src/syncio/utils.rs:54-78 | the by-id read evaluates the some-ids script as written on the ids' keys with the nested fields as ARGV; when no stored value names a nested field, it gives exactly the intended entities |
| ClientUtils.AllReadsCollection | src/syncio/utils.rs:137-157 | the all-ids read evaluates the all-ids script as written over the collection's keys, the pattern not taken for a nested field; when no stored value names a nested field, it gives exactly the intended entities |
| ClientUtils.PartialReadColumns | src/syncio/utils.rs:82-134 | the partial reads fetch every requested field and every nested field once, and expand a name iff the two lists together hold it twice |
| ClientUtils.PartialReadExpandsRequested | src/syncio/utils.rs:82-134 | without repeated names exactly the requested nested fields are expanded |
| ClientUtils.PartialByIdReadsKeys | src/syncio/utils.rs:82-108 | the partial by-id script raises iff there are ids but no field and no nested field; otherwise it is evaluated on the ids' keys with the fields then the nested fields |
| ClientUtils.AllPartialReadsCollection | src/syncio/utils.rs:112-134 | the partial all-ids script takes its columns from the fields and nested fields, never from the pattern, raises when there is no column but some key, and reads the collection's keys otherwise |
| ClientUtils.RunScript | src/syncio/utils.rs:161-218 | a raising script is a ConnectionError; otherwise the reply is read by the shared loop |
| ClientUtils.GetRecordsByIdCommand | src/syncio/utils.rs:65-75 | EVAL of the all-fields some-ids script, the ids' hash keys as KEYS, the nested fields as ARGV |
| ClientUtils.GetPartialRecordsByIdCommand | src/syncio/utils.rs:94-105 | EVAL of the some-fields some-ids script, the ids' hash keys as KEYS, the fields then the nested fields as ARGV |
| ClientUtils.GetAllPartialRecordsCommand | src/syncio/utils.rs:118-132 | EVAL of the some-fields all-ids script with no KEYS, the collection pattern, the fields and the nested fields as ARGV |
| ClientUtils.GetAllRecordsCommand | src/syncio/utils.rs:142-155 | EVAL of the all-fields all-ids script with no KEYS, the collection pattern and the nested fields as ARGV |
| ClientUtils.RunEval | src/shared/utils.rs:12-15 | the scripts as written: more KEYS than arguments fails, a reply is an array, the by-id scripts give one entity per KEYS entry and the all-ids scripts one per hash key SCAN MATCH ARGV[1] yields |
| ClientUtils.ReadsOne | src/store.rs:243-250 | a read of a single entity gives nothing when it is empty, else that entity decoded |
| ClientUtils.ReadRecords | src/syncio/utils.rs:161-218 | a script that raises is a ConnectionError; otherwise the read gives the reply's non-empty entities decoded in reply order, and fails iff one of them fails |
| ClientUtils.AsDict | src/syncio/utils.rs:106 | the partial reads' item parser gives a dict of exactly the decoded fields |
| OrredisStore.NestedFieldNames | src/schema.rs:33-49 | the names are exactly the schema's nested fields |
| OrredisStore.EffectiveTtl | src/store.rs:185-188 | an explicit life span wins, otherwise the store's default; there is a life span iff either is given |
| OrredisStore.Store.constructor | src/store.rs:46-77 | a new store has no registration, the given default life span, and is not in use |
| OrredisStore.Store.CreateCollection | src/store.rs:96-125 | refused with the ConnectionError once the store is in use; otherwise the model is registered under its qualified name with its schema, primary-key field and nested fields, replacing an earlier registration; a failure changes nothing |
| OrredisStore.Store.GetCollection | src/store.rs:128-146 | a registered model's collection carries its meta and the default life span and puts the store in use; an unregistered one is the KeyError and changes nothing |
| OrredisStore.RegistrationClosesAfterUse | src/store.rs:101-105 | after a collection has been handed out, every later registration is refused and leaves the registrations as they were |
| OrredisStore.AddOne | src/store.rs:177-190 | adding succeeds iff the item flattens under its own primary key |
| OrredisStore.UpdateOne | src/store.rs:216-231 | updating succeeds iff the data flattens under the given id |
| OrredisStore.AddMany | src/store.rs:194-213 | the loop over the items fails with the first item's error, or writes all items' hashes in one transaction with the effective life span |
| OrredisStore.CollectItemRecords | src/store.rs:195-205 | the loop appends each item's hashes in item order and returns the first failing item's error, exactly as the item-by-item fold `ItemsRecords` |
| OrredisStore.ItemsRecordsErrorPersists | src/store.rs:196-205 | once an item fails, the whole batch fails with that error |
| OrredisStore.ItemsRecordsRule | src/store.rs:194-205 | the batch flattens iff every item does, and is then the items' hashes concatenated in order |
| OrredisStore.DeleteMany | src/store.rs:234-240 | deletion is one DEL of the ids' hash keys |
| OrredisStore.PopOrNone | src/store.rs:246-249 | the last record read, or None when nothing was read |
| OrredisStore.GetMany | src/store.rs:258-260 | never more records than ids; a script that raises is a ConnectionError; when no stored value names a nested field, the records are exactly the ids' non-empty hashes, nested fields expanded, decoded in id order, and the read fails iff one of them fails to decode |
| OrredisStore.GetManyPartially | src/store.rs:286-292 | never more records than ids; with ids but no field at all a ConnectionError; otherwise the records are the ids' requested fields, nested ones expanded, as dicts in id order, an id whose hash holds none of them skipped |
| OrredisStore.GetAll | src/store.rs:253-255 | never more records than the collection has keys; a script that raises is a ConnectionError; when no stored value names a nested field, the records are the collection's non-empty hashes in SCAN order, nested fields expanded and decoded |
| OrredisStore.GetOne | src/store.rs:243-250 | a script that raises is a ConnectionError; when no stored value names a nested field, an id without a non-empty hash reads as None and otherwise as its entity decoded |
| OrredisStore.OneRead | src/store.rs:243-250 | the read of one id gives nothing for an empty or missing hash and otherwise exactly the one decoded entity |
| OrredisStore.GetOnePartially | src/store.rs:264-276 | with no field at all a ConnectionError; otherwise None when the hash holds none of the requested fields, else those fields, nested ones expanded, decoded as a dict |
| OrredisStore.OnePartialRead | src/store.rs:264-276 | the partial read of one id gives at most the one entity of its key |
| OrredisStore.GetAllPartially | src/store.rs:280-283 | a script that raises is a ConnectionError; otherwise every entity of the all-ids partial script (one per collection key, every column with its value or nil) decoded as a dict |
| OrredisStore.MissingIdReadsNone | src/store.rs:243-250 | an id with no hash reads as None |
| OrredisStore.MissingIdReadsNonePartially | src/store.rs:264-276 | a partial read of an id with no hash is None when some column is asked for, and a ConnectionError when there is no column at all |
| OrredisStore.AddOneLayout | src/store.rs:177-190 | the item's own hash is written last under the key of its primary-key value, followed by its EXPIRE when a life span applies |
| OrredisStore.UpdateOneKey | src/store.rs:216-231 | the updated hash is the one of the given id, with the effective life span |
| LegacyFieldTypes.StrReadsAlike | src/field_types.rs:175-215 | for every type without a datetime or a tuple inside, the first generation reads a stored string exactly as the current code does |
| LegacyFieldTypes.ParseDictStrAlike | src/field_types.rs:137-154 | the first generation's dict parsing agrees with the current one for such value types |
| LegacyFieldTypes.ParseListStrAlike | src/field_types.rs:156-162 | the first generation's list parsing agrees with the current one for such item types |
| LegacyFieldTypes.ParseTupleStrAlike | src/field_types.rs:165-172 | the first generation's tuple parsing agrees with the current one for such item types |
| LegacyFieldTypes.DictItemsAlike | src/field_types.rs:141-151 | the dict item loops of both generations agree item by item |
| LegacyFieldTypes.ListItemsAlike | src/field_types.rs:156-162 | the list item loops of both generations agree |
| LegacyFieldTypes.TupleItemsAlike | src/field_types.rs:165-172 | the tuple item loops of both generations agree |
| LegacyFieldTypes.RedisReadsAlike | src/field_types.rs:57-134 | for every type without a datetime inside (and no tuple inside a collection), a Redis reply reads the same in both generations |
| LegacyFieldTypes.NestedFieldsAlike | src/field_types.rs:60-79 | a nested model whose fields are all such types reads the same in both generations |
| LegacyFieldTypes.LegacyDatetimeIsNaive | src/field_types.rs:122-126 | the first generation reads a datetime iff the naive `%Y-%m-%d %H:%M:%S%.6f` format parses, otherwise the ValueError naming that format, from a string and from a reply alike |
| LegacyFieldTypes.LegacyNestedKeyErrors | src/field_types.rs:305-324 | the first generation's KeyErrors for an unregistered nested model carry its own texts, the primary-key one naming the model |
| LegacyFieldTypes.LegacyTupleReadsAsList | src/field_types.rs:91-104 | a first-generation tuple read from a string inside a collection is a list, and read from a reply is the tuple of the same items |
| LegacyFieldTypes.CurrentTupleReadsAsTuple | src/shared/field_types.rs:148-164 | the current code reads a tuple as a tuple, from a string and from a reply alike |
| LegacyParsers.ParseAllErrorPersists | src/parsers.rs:18-23 | once a portion fails, the whole sequence fails with the given error |
| LegacyParsers.ParseAll | src/parsers.rs:11-45 | a sequence parses iff every portion parses, and then portion by portion in order; otherwise it fails with the given error |
| LegacyParsers.ParseItems | src/parsers.rs:18-23 | the loop over the portions computes the specification function |
| LegacyParsers.ParseTuple | src/parsers.rs:11-26 | `parse_tuple` parses the `(...)` portions, failing with the one-type TypeError |
| LegacyParsers.ParseList | src/parsers.rs:29-45 | `parse_list` parses the `[...]` portions, failing with the TypeError naming the text and the item type |
| LegacyParsers.EmptyListPortions | src/parsers.rs:104-117 | the text `[]` has one empty portion |
| LegacyParsers.OneEmptyPortion | src/parsers.rs:35-41 | a single empty portion is no integer but is the empty string |
| LegacyParsers.StrFromStr | src/parsers.rs:36 | every text parses as a string |
| LegacyParsers.ParseEmptyList | src/parsers.rs:29-45 | the empty list text `[]` fails as a list of integers and reads as `[""]` as a list of strings |
| LegacyParsers.ParseDictItems | src/parsers.rs:56-76 | the loop over the dict items computes the specification function |
| LegacyParsers.ParseDict | src/parsers.rs:48-79 | `parse_dict` reads the `{...}` items through that loop |
| LegacyParsers.DictErrorPersists | src/parsers.rs:62-72 | once an item fails, the whole dict fails with that error |
| LegacyParsers.DictOf | src/parsers.rs:48-79 | a dict parses iff every two-portion item has a key and a value that parse; its keys are unique and are exactly those items' keys, and each key holds the value of the last item naming it |
| LegacyParsers.AddItemRead | src/parsers.rs:62-72 | adding one item to a read of the items before it gives a read of one more item |
| LegacyParsers.ParseDatetimeToTimestamp | src/parsers.rs:84-92 | succeeds iff the naive format parses, with its timestamp, else the ValueError naming the format |
| LegacySchema.GetType | src/schema.rs:52-55 | a field has a type iff the schema declares it, and the type is the declared one |
| LegacySchema.Empty | src/schema.rs:58-62 | the empty schema declares no field |
| LegacySchema.Definitions | src/schema.rs:18-21 | a schema without `definitions` has none |
| LegacySchema.Extract | src/schema.rs:15-28 | a non-dict is a downcast error, a dict without `properties` is the "No 'properties' found" ValueError, and otherwise the schema is read from the properties |
| LegacySchema.FromPyAny | src/schema.rs:66-82 | a non-dict properties object is a downcast error |
| LegacySchema.FromEntriesRule | src/schema.rs:70-81 | the properties read iff every key is a string and every property classifies; the schema then declares exactly the properties' keys, each once |
| LegacySchema.FromEntriesTypes | src/schema.rs:72-80 | each declared field has its property's classification |
| LegacySchema.FromPyAnyRule | src/schema.rs:66-82 | a properties dict reads iff every key is a string and every property classifies, and then each field's type is its property's classification |
| LegacySchema.ExtractNestedFields | src/schema.rs:33-49 | the nested fields are schema fields, each mapped to the name of its nested model, and a field that is not nested is not listed |
| Records.Extract | src/records.rs:49-107 | a classified property carries no data |
| Records.TypeField | src/records.rs:53-88 | each JSON Schema `type` keyword maps to its data-less field type |
| Records.ArrayField | src/records.rs:66-85 | an array property is a data-less tuple or list |
| Records.ExtractAll | src/records.rs:69-72 | one data-less type per item schema, in order |
| Records.ToJsonSchema | src/records.rs:53-88 | the JSON Schema property of a plain type carries a `type` keyword |
| Records.ExtractJsonSchema | src/records.rs:49-107 | classifying the JSON Schema of a plain type gives that type back |
| Records.ExtractJsonSchemas | src/records.rs:66-78 | classifying a list of item schemas gives back the tuple's item types in order |
| Records.NestedReference | src/records.rs:89-103 | a `$ref` property is a nested model named by the reference's last `/` segment, without data |
| Records.FallbackToStr | src/records.rs:86-106 | a property with neither `type` nor `$ref`, or with an unknown `type` keyword, is a data-less string |
| Models.Attr | src/model.rs:65-71 | an attribute reads iff the instance holds it, with the stored value; otherwise the AttributeError naming it |
| Models.Model.Empty | src/model.rs:85-89 | an empty instance holds no attribute |
| Models.Model.FromMap | src/model.rs:12-14 | an instance holds exactly the given attributes |
| Models.Model.New | src/model.rs:20-30 | without keyword arguments the instance is empty; with them it is built iff every key is a string, holding exactly the arguments, and otherwise fails with the downcast error of the first non-string key |
| Models.Model.Dict | src/model.rs:61-63 | `dict()` gives the instance's attributes |
| Models.Model.SetAttr | src/model.rs:73-76 | the attribute is stored (even when the call then panics), every other attribute keeps its value, and the call fails iff the attribute was new, because the unwrap of the previous value fails |
| Models.Model.DelAttr | src/model.rs:78-81 | the attribute is gone afterwards, every other attribute keeps its value, and the call fails iff the attribute was not there |
| Models.ModelName | src/model.rs:47-53 | a model's name is its class name lower-cased character by character, of the same length |
| Models.InstanceModelNameAsWritten | src/model.rs:99-105 | the lookup of the attribute literally named `__class__.__name__` fails with an AttributeError on any instance that has no such attribute |
| Models.InstanceNameNotFound | src/model.rs:99-105 | an ordinary instance has no `__class__.__name__` attribute, while its class name would give the model name |
| Models.GetFields | src/model.rs:33-44 | the hints are extracted iff every hint is a class, and a `typing` alias is the extraction's TypeError naming the alias's type; the fields are then exactly the hints whose names do not start with `_`, with their annotations |
| Models.PublicHints | src/model.rs:38-41 | the kept hints are exactly those whose names do not start with `_`, each with its annotation |
| Models.FirstAlias | src/model.rs:36-37 | there is no alias iff every hint is a class, and a found alias is one of the hints |
| Models.PrimaryKeyField | src/model.rs:56-59 | a class has a primary key field iff it declares `_primary_key_field`, and it is that value |
| Models.Issubclass | src/model.rs:127-130 | `issubclass` with a string as second argument raises; with the Model class it answers whether the class is a model |
| Models.NewMetaAsWritten | src/model.rs:124-145 | as written every call fails, because `issubclass` is given the text `builtins.Model` |
| Models.NewMeta | src/model.rs:124-145 | the meta is built iff the class is a model whose hints are all classes and which has a primary key field, holding its public fields and that field; a non-model is the "is not of type Model" ValueError and an alias hint the extraction's TypeError |
| Models.MetaRefusedAsWritten | src/model.rs:127-130 | a concrete model class gets its meta from the corrected code and none from the code as written |
| Models.AliasHintRefused | src/model.rs:36-37 | a concrete model class with a `typing.List[str]` hint gets the extraction's TypeError naming `_GenericAlias` instead of a meta |
| PyParsers.ElemPrefix | src/pyparsers.rs:38-58 | the element type found after a prefix is the one the name starts with, and none when no element name follows |
| PyParsers.DictKindOf | src/pyparsers.rs:64-87 | a name is a supported dict annotation iff it is built from a key type other than float and a value type, and those two types are returned |
| PyParsers.ReadBool | src/pyparsers.rs:161-164 | a bool reads iff its lower-cased text is `true` or `false`, as that value |
| PyParsers.ReadDate | src/pyparsers.rs:156-159 | a date reads iff the text is a valid `%Y-%m-%d` date, as the date of its timestamp |
| PyParsers.ReadDatetimeAsWritten | src/pyparsers.rs:151-154 | as written a datetime reads iff its text parses, but becomes the date of its timestamp |
| PyParsers.ReadDatetime | src/pyparsers.rs:151-154 | a datetime reads iff its text parses in the naive format, as the datetime of its timestamp; otherwise the ValueError naming the format |
| PyParsers.DatetimeReadAsDate | src/pyparsers.rs:151-154 | the code as written returns a date for a datetime field, so the time of day is lost |
| PyParsers.DatetimeReadAsDatetime | src/pyparsers.rs:151-154 | the corrected reader returns a datetime |
| PyParsers.ReadNested | src/pyparsers.rs:107-119 | a nested model's lookup error is passed on, a missing entity reads as None, and a found one is returned |
| PyParsers.StrToPyObj | src/pyparsers.rs:14-105 | an unknown annotation that names no registered model is the "type annotation ... is not supported" TypeError and one naming a model reads the nested model; unsupported tuples, lists and dicts are TypeErrors; str reads as itself, bool through the bool reader, int iff the text is a 64-bit integer and then as that integer, float iff the host parser accepts it, a date and a datetime through their readers |
| PyParsers.ReadTuple | src/pyparsers.rs:138-149 | a homogeneous tuple reads iff every `(...)` portion parses as the element type; it is then a tuple of those values in order; otherwise the tuple TypeError |
| PyParsers.ReadList | src/pyparsers.rs:130-136 | a homogeneous list reads iff every `[...]` portion parses as the element type; it is then a list of those values in order; otherwise the TypeError naming the text and the type |
| PyParsers.ReadDict | src/pyparsers.rs:121-128 | a dict reads iff every `{...}` item parses, and is then a dict with unique keys holding exactly the keys of the two-portion items, each with the value of the last item of that key |
| PyParsers.CollectionsRead | src/pyparsers.rs:26-87 | a supported tuple, list or dict annotation reads the text with the homogeneous reader of its element types |
| PyParsers.KindRoundTrip | src/pyparsers.rs:26-87 | the annotation name of every supported kind is classified back to that kind, so no branch of the dispatch shadows another |
| PyParsers.ElemPrefixOf | src/pyparsers.rs:38-58 | a name starting with the prefix and an element name selects that element |
| PyParsers.NoElemPrefix | src/pyparsers.rs:38-58 | a name without the prefix selects no element |
| PyParsers.DictNameInjective | src/pyparsers.rs:64-87 | each supported dict annotation is recognised as its own key and value types |
| PyParsers.DictNameParts | src/pyparsers.rs:64-87 | two dict annotations are equal only when their key and value types are |
| PyModel.TableName | orredis/model.py:16-19 | a collection is named by its class name lower-cased |
| PyModel.PrimaryKeyOf | orredis/model.py:21-27 | a record's key is the collection name, the `_%&_` separator and the text of the primary key value |
| PyModel.PrimaryKeyInjective | orredis/model.py:21-27 | two values give the same key only when their texts are equal |
| PyModel.RowOf | orredis/model.py:41 | `.dict()` applies exactly to model instances and gives their fields |
| PyModel.Rows | orredis/model.py:41 | a list converts iff every element is a model instance, element by element |
| PyModel.InsertData | orredis/model.py:29-56 | a list of models becomes one bulk insert of their fields, a single model one insert of its fields, anything else the "data should be a model or a list of models" ValueError; the time to live is the argument, else the store's default |
| PyModel.UpdateRow | orredis/model.py:58-76 | an update is sent iff the data is a dict, with the id, the dict and the effective time to live; otherwise the "data should be a dict" ValueError |
| PyModel.DeleteIds | orredis/model.py:78-93 | a list deletes its elements, None deletes nothing, and any other value deletes that one id |
| PyModel.HintOf | orredis/model.py:132 | a column without a type hint is taken as `str`, a hinted one has its hint |
| PyModel.NestedColumns | orredis/model.py:116-136 | without columns the nested columns are exactly the fields hinted by a model class; with columns, exactly the requested ones hinted by a model class; each maps to its metaclass name, with no column twice |
| PyModel.HintAt | orredis/model.py:122-128 | every declared hint is found by its name |
| PyModel.SelectCall | orredis/model.py:95-109 | the select goes to the class's collection with the ids and columns as given, and its nested columns are exactly the model-hinted fields (without columns) or the model-hinted requested columns (with columns), each mapped to its hint's metaclass name, with no column twice |
| PyModel.ConvertValue | orredis/model.py:151 | an unhinted value is converted by `str`, a hinted one by its hint |
| PyModel.ParsePartially | orredis/model.py:138-154 | the rows parse iff every value converts; then every row keeps its keys in order, each with its converted value |
| PyModel.SelectResult | orredis/model.py:111-114 | with a non-empty column list the result is built iff every field of every row converts by its hint (`str` when unhinted), and then row i is the dict of row i's fields with their converted values in order; otherwise the result is built iff every row constructs a model, one model per row |
| LegacyRedisUtils.GetPrimaryKey | src/redis_utils.rs:95-97 | a record's key is the one the shared key generator gives: model name, `_%&_`, key |
| LegacyRedisUtils.GetModelIndex | src/redis_utils.rs:90-92 | the index key of a model is its name followed by `__index` |
| LegacyRedisUtils.IndexIsNoEntityKey | src/redis_utils.rs:90-97 | a model's index key never coincides with the key of one of its records |
| LegacyRedisUtils.InsertCommands | src/redis_utils.rs:66-87 | a successful insert names the record by its primary key |
| LegacyRedisUtils.SerializeCommands | src/redis_utils.rs:112-139 | the first n entries serialize to exactly n field/value pairs |
| LegacyRedisUtils.SerializeEntry | src/redis_utils.rs:112-137 | a value that is no model is stored as its text under its own field; a model whose name cannot be read passes that error on; a model unknown to the store is the "does not exist on this store" ValueError; a success keeps the field name |
| LegacyRedisUtils.Pipeline.constructor | src/redis_utils.rs:22 | a new pipeline holds no command |
| LegacyRedisUtils.Pipeline.Push | src/redis_utils.rs:78-83 | a queued command is appended after the ones already queued |
| LegacyRedisUtils.InsertOnPipeline | src/redis_utils.rs:66-87 | the insert succeeds iff its specification does, returning the record's key and appending exactly the specified commands to the pipeline; on failure it gives the specified error |
| LegacyRedisUtils.SerializeToKeyValuePairs | src/redis_utils.rs:99-141 | the loop over the record's entries yields the specified pairs and appends the specified commands, or fails with the specified error |
| LegacyRedisUtils.SerializeEntryOnPipeline | src/redis_utils.rs:112-137 | one entry is serialized as specified, appending its nested inserts to the pipeline |
| LegacyRedisUtils.SerializeErrorPersists | src/redis_utils.rs:112-139 | once an entry fails, the loop's result stays that error, because `?` returns at once |
| LegacyRedisUtils.SerializeRule | src/redis_utils.rs:112-139 | the entries serialize iff each one does, and the i-th pair is the i-th entry's pair |
| LegacyRedisUtils.ParentLast | src/redis_utils.rs:74-86 | the record's own HSET comes after every nested record's commands and is followed only by the index and expiry commands |
| LegacyRedisUtils.NestedValueIsForeignKey | src/redis_utils.rs:114-133 | with the model name read from the class, a nested model is stored as the key of its own record in its model's collection |
| LegacyRedisUtils.NestedInsertFailsAsWritten | src/redis_utils.rs:117 | as written, a nested model value always fails with the AttributeError for `__class__.__name__` |
| LegacyRedisUtils.NoIndexWithoutIndex | src/redis_utils_del.rs:94-112 | the later writer adds no record to an index set |
| LegacyRedisUtils.IndexedInsertJoinsIndex | src/redis_utils.rs:76-84 | the indexed writer adds the record's key to its model's index and, given a time to live, sets it on both the record and the index |
| LegacyRedisUtils.TransactionSent | src/redis_utils.rs:17-40 | the commands are sent iff they were built and a connection exists, wrapped between MULTI and EXEC |
| LegacyRedisUtils.RunInTransaction | src/redis_utils.rs:17-40 | a failure while building is returned first, a missing connection is the "redis server disconnected" ConnectionError, and otherwise the reply to the wrapped commands is returned |
| LegacyRedisUtils.AtomicInsert | src/redis_utils.rs:17-87 | an insert that fails sends nothing, and a sent one writes the record's hash inside one MULTI/EXEC block |
| LegacyRedisUtils.StrToPyType | src/redis_utils.rs:168-236 | int reads iff the text is a 64-bit integer, as that integer; str reads as itself; a JSON-typed annotation that does not decode is the "is not of" ValueError; any other annotation not naming a model reads as the text |
| LegacyRedisUtils.ParseModel | src/redis_utils.rs:143-166 | the loop over the hash's entries returns the first conversion error of a declared field, or the map of converted declared fields built in entry order (`ParsePrefix` over the whole hash) |
| LegacyRedisUtils.ParsedModel | src/redis_utils.rs:143-166 | a hash parses iff every declared field in it converts; the model then holds exactly the declared fields present in the hash, each with its converted value, and drops the others |
| LegacyRedisUtils.ParseErrorPersists | src/redis_utils.rs:156 | once a field fails to convert, the rest of the hash does not change the error returned |
| LegacyRedisUtils.Converter | src/redis_utils.rs:168-236 | the converter reads a `str` field as its text and an `int` field iff it is a 64-bit integer |
| LegacyRedisUtils.ParsePrefix | src/redis_utils.rs:143-166 | the first n entries parse iff every declared field among them converts; the map then has unique keys, exactly the declared fields among those entries |
| LegacyRedisUtils.ParsePrefixValues | src/redis_utils.rs:143-166 | each declared field of the parsed entries holds its converted value |
| LegacyRedisUtils.ParseEach | src/redis_utils_del.rs:82-87 | the replies convert iff each does, then in order, one result per reply; a failure is the error of the first reply that does not convert |
| LegacyRedisUtils.RunScriptDel | src/redis_utils_del.rs:48-91 | a build failure is returned first, no connection is the "redis server disconnected" ConnectionError, a query error is passed on, a reply of the wrong shape is an error, and otherwise every entity, empty ones included, is parsed in order and the call fails iff one fails |
| LegacyRedisUtils.EmptyEntityNotSkipped | src/redis_utils_del.rs:63-87 | an empty entity in the script's reply is handed to the reader and fails the whole call instead of being skipped |

## Left out

- Python interop is not modelled: GIL handling, `extract`/`downcast` of arbitrary objects, and pydantic validation. Python objects are a closed `PyObj` datatype.
- Connections, connection pools and network I/O are not modelled. A reply is a parameter, or it is computed from the abstract `Db` by the command semantics in `values.dfy`.
- The async runtime is not modelled. `src/asyncio/utils.rs`, `src/async_utils.rs` and `src/async_store.rs` repeat the pipeline and reply logic of `src/syncio/utils.rs` and `src/store.rs`, which are modelled once.
- Lua scripts are modelled by what they compute over the abstract `Db`, not as Lua.
- `SCAN` cursoring is one pass over the database's key order. The order of `HashMap` iteration is unspecified in the source; the model fixes it as list order.
- Float parsing, datetime parsing and `from_timestamp` conversions are `Host` functions. `%Y-%m-%d` dates are modelled concretely.
- `serde_json` decoding of list and dict fields in `src/redis_utils.rs` is a parameter (`JsonParser`).
- Classifying a `$ref` schema recurses once per nested definition, and on cyclic definitions the Rust code recurses without bound until the stack overflows. The model bounds the depth by a `fuel` parameter; running out of it is `Err(RecursionError)` (`NestedSchema` in `shared_field_types.dfy`), which stands for that overflow.
- `src/shared/schema.rs` is not part of this model. The store takes `Schema::from_py_schema` as a parameter (`SchemaBuilder` in `store.dfy`), and its contracts hold for any builder; nothing ties that builder to `LegacySchema.Extract`.
- `src/schema.rs` calls the field-type extraction of `src/field_types.rs` with the types of `src/records.rs`. It is modelled with the `src/records.rs` classification.
- The `Record` methods in `src/records.rs` (lines 113-160) are `todo!()` stubs, so they are not modelled.
- PyModel.InsertData: `.dict()` also converts nested models to dicts recursively. The model passes the instance's fields on unchanged.
- PyModel.InsertData: `life_span_seconds` is an `Optional[float]`, but the model takes it as an optional natural number. A fractional or negative life span, and whatever the store connection does with one, cannot be expressed.
- PyModel.UpdateRow: its `life_span_seconds` is also an `Optional[float]` modelled as an optional natural number, with the same gap.
- Common.Lower lower-cases ASCII letters only; Python's and Rust's full Unicode case mapping is not modelled.
- `Store.clear` (`FLUSHALL`) and the connection setup in `connect_to_redis` are I/O and are not modelled.
- LegacyRedisUtils.InsertCommands: its own contract states only the returned key. The command layout is stated by ParentLast, NoIndexWithoutIndex and IndexedInsertJoinsIndex.
- LegacyRedisUtils.StrToPyType does not state the `float` branch, which depends on the host float parser, nor the nested-model branch, which depends on the store lookup.
- PyParsers.StrToPyObj: the float branch is stated only as succeeding iff the host float parser accepts the text, since float parsing is a host function. The tuple, list and dict branches go through `ReadTuple`, `ReadList` and `ReadDict`, which call the first generation's parsers in `legacy_parsers.dfy`; `CollectionsRead` states the dispatch and those three readers state what they give.
- PyParsers.StrToPyObj: the datetime branch uses the corrected reader `ReadDatetime`, not the code as written at src/pyparsers.rs:151-154, which reads a date (see Findings; `ReadDatetimeAsWritten` models it).
- SharedParsers.DateFields: it accepts only a strict `Y-M-D` text, with a year of one to four digits and a month and a day of one or two digits. chrono's `%Y-%m-%d` is more lenient. It skips whitespace before each number, and it accepts a signed year or a year of more than four digits (`" 2021-01-01"`, `"+2021-01-01"`). The model rejects those texts.
- SharedParsers.ParseDateToTimestamp: it inherits the strictness of DateFields, so a text that only chrono's leniency accepts is an error in the model.
- `src/field_types.rs` calls `parsers::redis_to_py`, `parsers::parse_str`, `utils::timestamp_to_py_datetime` and `utils::timestamp_to_py_date`, which `src/parsers.rs` and `src/utils.rs` do not define. The model binds those calls to the definitions in `src/shared/parsers.rs`.
- `src/store.rs` imports `crate::utils`, whose `insert_records`, `remove_records`, `get_records_by_id`, `get_partial_records_by_id`, `get_all_partial_records_in_collection`, `get_all_records_in_collection` and `generate_hash_key` in `src/utils.rs` are `todo!()` stubs with other signatures. The model binds the store's calls to the working versions in `src/syncio/utils.rs` and `src/shared/utils.rs`.
- Expiry over time is not modelled: a positive EXPIRE timeout leaves the hash in the database, which has no clock. Only a timeout of 0, which deletes the key at once, changes the hashes.
- ClientUtils.InsertRecords: a life span is an unbounded natural number. Redis refuses an EXPIRE timeout above the largest signed 64-bit integer (and one whose expiry time overflows), which fails that command inside the transaction; the model accepts every timeout.
- `run_without_transaction` (src/redis_utils.rs:43-62) has no caller in the source, so it is not modelled.
- Redis's WRONGTYPE error is not modelled: the database holds only hashes, so a key holding a string, list or set reads as absent. In Redis, the by-id scripts' HGETALL and HMGET on such a key raise WRONGTYPE, which the read turns into a ConnectionError, and an insert's HSET on it fails inside the transaction; the model reads the key as missing and overwrites it on insert.
- SharedUtils.HGetAll: a key holding a non-hash value reads as the empty array, where Redis raises WRONGTYPE (see the line above).
- SharedUtils.HMGet: a key holding a non-hash value answers nils, where Redis raises WRONGTYPE (see the line above).
- ClientUtils.RunScript: a raising script gives `ConnectionError("script error")`, a fixed text. The source passes on the redis crate's rendering of the server's error (src/syncio/utils.rs:180), which depends on the server's wording and is not modelled; the same fixed text appears in ClientUtils.ReadRecords and the store's reads.
- ClientUtils.RunEval evaluates the by-id and all-ids all-fields scripts as written. The store's contracts state the intended entities only when no stored value is named like a nested field; the other case is stated by the as-written lemmas (see Findings).

## Findings

| source | as written | input that shows it | evidently intended | confidence | as-written member | corrected member |
|---|---|---|---|---|---|---|
| src/model.rs:127-130 | `issubclass` is passed the string `"builtins.Model"` instead of the `Model` class, so it raises `TypeError` for every class | any model class, e.g. `Book` with primary key field `title` | compare against the `Model` class and build the meta for models | not executed | Models.MetaRefusedAsWritten | Models.NewMeta |
| src/pyparsers.rs:151-154 | a `datetime` field is read with `PyDate::from_timestamp` and so loses its time of day | `"2021-01-01 10:30:00"` for a `datetime` field | `PyDateTime::from_timestamp` | not executed | PyParsers.DatetimeReadAsDate | PyParsers.DatetimeReadAsDatetime |
| src/model.rs:99-105 | `getattr(obj, "__class__.__name__")` looks up one attribute whose name contains dots, which fails, so nesting a model always fails | a `Book` whose `author` field holds an `Author` instance | read `obj.__class__.__name__` and lower-case it | not executed | LegacyRedisUtils.NestedInsertFailsAsWritten | LegacyRedisUtils.NestedValueIsForeignKey |
| src/shared/utils.rs:14 | in SELECT_ALL_FIELDS_FOR_SOME_IDS the Lua loop `ipairs(parent)` tests keys and values alike against the nested field names, so a value spelled like a nested field name makes the script replace the next field name by the HGETALL of that next field name, and raise when there is no next item or it is already a table | a record with `title = "author"` and nested field `author` | test only the keys, at odd positions | not executed | SharedUtils.ValueNamedLikeNestedFieldCorruptsEntity | SharedUtils.SelectAllFieldsForSomeIds |
| src/shared/utils.rs:13 | SELECT_ALL_FIELDS_FOR_ALL_IDS runs the same loop over every hash SCAN MATCH yields, with the same fault | the collection hash `k` holding `title = "author"`, `author = "x"`, with ARGV `k`, `author` | test only the keys, at odd positions | not executed | SharedUtils.AllIdsValueNamedLikeNestedFieldCorruptsEntity | SharedUtils.SelectAllFieldsForAllIds |
