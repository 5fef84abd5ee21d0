// The client layer between the collections and Redis: the pipeline that writes
// records, the one that deletes them, the EVAL command of each of the four
// readers, and the reading of the script's reply.  The synchronous client, the
// asynchronous one and the older asynchronous copy build exactly the same
// commands and read replies with the same loop; only the connection differs,
// and connections are not modelled.  A pipeline is a sequence of commands; its
// effect is stated over the abstract database of the scripts.

module ClientUtils {
  import opened Common
  import opened Values
  import opened SharedUtils
  import opened SharedFieldTypes
  import opened SharedFlatten
  import opened SharedReply

  // ---------------------------------------------------------------------------
  // Writing and deleting
  // ---------------------------------------------------------------------------

  /** The commands one record adds: HSET of its fields, then EXPIRE when a life span is given. */
  function RecordCommands(record: HashRecord, ttl: Option<nat>): seq<Command>
  {
    [HSet(record.0, record.1)] + (if ttl.Some? then [Expire(record.0, ttl.value)] else [])
  }

  /** The commands of the records, in input order. */
  function RecordsCommands(records: seq<HashRecord>, ttl: Option<nat>): seq<Command>
  {
    if records == [] then []
    else RecordsCommands(records[..|records| - 1], ttl) + RecordCommands(records[|records| - 1], ttl)
  }

  /** The pipeline of `insert_records`: one transaction around all records' commands. */
  function InsertPipeline(records: seq<HashRecord>, ttl: Option<nat>): seq<Command>
  {
    [Multi] + RecordsCommands(records, ttl) + [Exec]
  }

  /** `insert_records`, building the pipeline command by command. */
  method InsertRecords(records: seq<HashRecord>, ttl: Option<nat>) returns (pipe: seq<Command>)
    ensures pipe == InsertPipeline(records, ttl)
  {
    pipe := [Multi];
    for i := 0 to |records|
      invariant pipe == [Multi] + RecordsCommands(records[..i], ttl)
    {
      assert records[..i + 1][..i] == records[..i];
      pipe := pipe + [HSet(records[i].0, records[i].1)];
      if ttl.Some? {
        pipe := pipe + [Expire(records[i].0, ttl.value)];
      }
    }
    assert records[..|records|] == records;
    pipe := pipe + [Exec];
  }

  /** Without a life span every record is one HSET; with one, an HSET followed by its EXPIRE. */
  lemma {:induction false} RecordsLayout(records: seq<HashRecord>, ttl: Option<nat>)
    ensures var c := RecordsCommands(records, ttl);
            && (ttl.None? ==>
                  |c| == |records| && forall i :: 0 <= i < |records| ==> c[i] == HSet(records[i].0, records[i].1))
            && (ttl.Some? ==>
                  |c| == 2 * |records|
                  && forall i :: 0 <= i < |records| ==>
                       c[2 * i] == HSet(records[i].0, records[i].1) && c[2 * i + 1] == Expire(records[i].0, ttl.value))
  {
    if records != [] {
      var n := |records| - 1;
      var init := records[..n];
      RecordsLayout(init, ttl);
      assert forall i :: 0 <= i < n ==> records[i] == init[i];
    }
  }

  /** `insert_records` queues MULTI, then every record in input order (HSET, and EXPIRE iff a life
      span is given), then EXEC, and nothing else. */
  lemma InsertLayout(records: seq<HashRecord>, ttl: Option<nat>)
    ensures var pipe := InsertPipeline(records, ttl);
            && pipe[0] == Multi && pipe[|pipe| - 1] == Exec
            && (ttl.None? ==>
                  |pipe| == |records| + 2
                  && forall i :: 0 <= i < |records| ==> pipe[i + 1] == HSet(records[i].0, records[i].1))
            && (ttl.Some? ==>
                  |pipe| == 2 * |records| + 2
                  && forall i :: 0 <= i < |records| ==>
                       pipe[2 * i + 1] == HSet(records[i].0, records[i].1)
                       && pipe[2 * i + 2] == Expire(records[i].0, ttl.value))
  {
    var c := RecordsCommands(records, ttl);
    var pipe := InsertPipeline(records, ttl);
    RecordsLayout(records, ttl);
    assert forall j :: 0 <= j < |c| ==> pipe[j + 1] == c[j];
  }

  /** The pipeline of `remove_records`: one DEL of every key, outside any transaction. */
  function RemovePipeline(keys: seq<string>): (r: seq<Command>)
    ensures Multi !in r && Exec !in r && |r| == 1 && r[0].Del?
  {
    [Del(keys)]
  }

  // ---- the effect of a pipeline ----

  /** HSET: each field set in turn; a field the hash has keeps its place and takes the new value. */
  function HSetFields(hash: seq<(string, string)>, fields: seq<(string, string)>): seq<(string, string)>
    decreases |fields|
  {
    if fields == [] then hash else HSetFields(Insert(hash, fields[0].0, fields[0].1), fields[1..])
  }

  /** After HSET a field is one of the hash's or the command's; a field the command sets (once)
      has the command's value, any other field keeps its value. */
  lemma {:induction false} HSetFieldsRule(hash: seq<(string, string)>, fields: seq<(string, string)>)
    requires UniqueKeys(fields)
    ensures forall f :: HasKey(HSetFields(hash, fields), f) <==> HasKey(hash, f) || HasKey(fields, f)
    ensures forall f :: Lookup(HSetFields(hash, fields), f) == if HasKey(fields, f) then Lookup(fields, f) else Lookup(hash, f)
    decreases |fields|
  {
    if fields != [] {
      var (k, v) := fields[0];
      var hash' := Insert(hash, k, v);
      var rest := fields[1..];
      assert UniqueKeys(rest) && !HasKey(rest, k) by {
        HasKeyIndex(rest, k);
        forall i | 0 <= i < |rest| ensures rest[i].0 != k {
          UniqueKeysDistinct(fields, 0, i + 1);
        }
        forall i, j | 0 <= i < j < |rest| ensures rest[i].0 != rest[j].0 {
          UniqueKeysDistinct(fields, i + 1, j + 1);
        }
      }
      HSetFieldsRule(hash', rest);
      forall f ensures HasKey(fields, f) <==> f == k || HasKey(rest, f) {
        HasKeyIndex(fields, f);
        HasKeyIndex(rest, f);
        if HasKey(fields, f) && f != k {
          var i :| 0 <= i < |fields| && fields[i].0 == f;
          assert rest[i - 1].0 == f;
        }
        if HasKey(rest, f) {
          var i :| 0 <= i < |rest| && rest[i].0 == f;
          assert fields[i + 1].0 == f;
        }
      }
      forall f ensures Lookup(HSetFields(hash, fields), f) == if HasKey(fields, f) then Lookup(fields, f) else Lookup(hash, f) {
        if f != k {
          InsertOther(hash, k, v, f);
          assert Lookup(fields, f) == Lookup(rest, f);
        }
      }
    }
  }

  /** A command Redis refuses for its arity: HSET without fields, DEL without keys. */
  predicate Malformed(c: Command)
  {
    (c.HSet? && c.fields == []) || (c.Del? && c.keys == [])
  }

  /** The hashes after one command.  EXPIRE with a timeout of 0 deletes the key at once, as
      Redis does for a non-positive timeout; a positive timeout leaves the hashes as they are
      until it runs out, which is not modelled.  MULTI and EXEC leave them as they are. */
  function Apply(db: Db, c: Command): Db
  {
    match c
    case HSet(k, fields) =>
      var prev := if k in db.hashes then db.hashes[k] else [];
      Db(db.hashes[k := HSetFields(prev, fields)], if k in db.scanOrder then db.scanOrder else db.scanOrder + [k])
    case Del(keys) => Db(map k | k in db.hashes && k !in keys :: db.hashes[k], db.scanOrder)
    case Expire(k, seconds) =>
      if seconds == 0 then Db(map k' | k' in db.hashes && k' != k :: db.hashes[k'], db.scanOrder) else db
    case _ => db
  }

  function ApplyAll(db: Db, cmds: seq<Command>): Db
  {
    if cmds == [] then db else Apply(ApplyAll(db, cmds[..|cmds| - 1]), cmds[|cmds| - 1])
  }

  /** Running one of the client's pipelines: a refused command aborts the transaction (and
      is the only command of the DEL pipeline), so the database is then left unchanged and the
      client reports the error. */
  function RunPipeline(db: Db, cmds: seq<Command>): Option<Db>
  {
    if exists i :: 0 <= i < |cmds| && Malformed(cmds[i]) then None else Some(ApplyAll(db, cmds))
  }

  lemma {:induction false} ApplyAllAppend(db: Db, a: seq<Command>, b: seq<Command>)
    ensures ApplyAll(db, a + b) == ApplyAll(ApplyAll(db, a), b)
    decreases |b|
  {
    if b == [] {
      assert a + b == a;
    } else {
      var n := |b| - 1;
      assert (a + b)[..|a + b| - 1] == a + b[..n];
      ApplyAllAppend(db, a, b[..n]);
    }
  }

  /** A record's commands change the hashes as its HSET does, followed by the deletion of its
      key when the life span is 0. */
  lemma RecordCommandsApply(db: Db, record: HashRecord, ttl: Option<nat>)
    ensures ApplyAll(db, RecordCommands(record, ttl))
            == if ttl == Some(0) then Apply(Apply(db, HSet(record.0, record.1)), Expire(record.0, 0))
               else Apply(db, HSet(record.0, record.1))
  {
    var cmds := RecordCommands(record, ttl);
    var set1 := [HSet(record.0, record.1)];
    assert ApplyAll(db, set1) == Apply(ApplyAll(db, []), HSet(record.0, record.1));
    if ttl.Some? {
      assert cmds[..1] == set1;
    } else {
      assert cmds == set1;
    }
  }

  /** One HSET: its key is added, every other hash is unchanged, and the key holds the fields
      the command sets. */
  lemma HSetApply(db: Db, k: string, fields: seq<(string, string)>)
    requires UniqueKeys(fields)
    ensures var db' := Apply(db, HSet(k, fields));
            && (forall k' :: k' in db'.hashes <==> k' in db.hashes || k' == k)
            && (forall k' :: k' in db.hashes && k' != k ==> db'.hashes[k'] == db.hashes[k'])
            && (forall f :: HasKey(fields, f) ==> Lookup(db'.hashes[k], f) == Lookup(fields, f))
  {
    var prev := if k in db.hashes then db.hashes[k] else [];
    HSetFieldsRule(prev, fields);
  }

  /** The hashes after the commands of `records`: every other hash is unchanged; with a life
      span of 0 the keys of the records are gone, otherwise they are added and each key holds the
      fields of the last record written to it (over what the hash held before). */
  lemma {:induction false} RecordsStored(db: Db, records: seq<HashRecord>, ttl: Option<nat>)
    requires forall i :: 0 <= i < |records| ==> UniqueKeys(records[i].1)
    ensures var db' := ApplyAll(db, RecordsCommands(records, ttl));
            && (forall k :: k in db.hashes && !HasKey(records, k) ==> k in db'.hashes && db'.hashes[k] == db.hashes[k])
            && (ttl == Some(0) ==> forall k :: k in db'.hashes <==> k in db.hashes && !HasKey(records, k))
            && (ttl != Some(0) ==>
                  && (forall k :: k in db'.hashes <==> k in db.hashes || HasKey(records, k))
                  && (forall i :: 0 <= i < |records| && !HasKey(records[i + 1..], records[i].0) ==>
                        && records[i].0 in db'.hashes
                        && forall f :: HasKey(records[i].1, f) ==> Lookup(db'.hashes[records[i].0], f) == Lookup(records[i].1, f)))
  {
    if records != [] {
      var n := |records| - 1;
      var init := records[..n];
      var k := records[n].0;
      var fields := records[n].1;
      RecordsStored(db, init, ttl);
      var mid := ApplyAll(db, RecordsCommands(init, ttl));
      ApplyAllAppend(db, RecordsCommands(init, ttl), RecordCommands(records[n], ttl));
      RecordCommandsApply(mid, records[n], ttl);
      var db' := ApplyAll(db, RecordsCommands(records, ttl));
      var written := Apply(mid, HSet(k, fields));
      HSetApply(mid, k, fields);
      assert records == init + [(k, fields)];
      if ttl == Some(0) {
        ExpiredStep(db, mid, written, db', init, k, fields);
      } else {
        assert db' == written;
        AppendEntry(init, k, fields);
        StoredStep(db, mid, db', init, k, fields);
      }
    }
  }

  /** One more record written and at once expired over the hashes without the earlier ones. */
  lemma {:induction false} ExpiredStep(db: Db, mid: Db, written: Db, db': Db, init: seq<HashRecord>, k: string, fields: seq<(string, string)>)
    requires forall k' :: k' in db.hashes && !HasKey(init, k') ==> k' in mid.hashes && mid.hashes[k'] == db.hashes[k']
    requires forall k' :: k' in mid.hashes <==> k' in db.hashes && !HasKey(init, k')
    requires forall k' :: k' in written.hashes <==> k' in mid.hashes || k' == k
    requires forall k' :: k' in mid.hashes && k' != k ==> written.hashes[k'] == mid.hashes[k']
    requires db' == Apply(written, Expire(k, 0))
    ensures var records := init + [(k, fields)];
            && (forall k' :: k' in db.hashes && !HasKey(records, k') ==> k' in db'.hashes && db'.hashes[k'] == db.hashes[k'])
            && (forall k' :: k' in db'.hashes <==> k' in db.hashes && !HasKey(records, k'))
  {
    AppendEntry(init, k, fields);
  }

  /** One more record written over the hashes that hold the earlier ones. */
  lemma {:induction false} StoredStep(db: Db, mid: Db, db': Db, init: seq<HashRecord>, k: string, fields: seq<(string, string)>)
    requires forall k' :: k' in mid.hashes <==> k' in db.hashes || HasKey(init, k')
    requires forall k' :: k' in db.hashes && !HasKey(init, k') ==> mid.hashes[k'] == db.hashes[k']
    requires forall i :: 0 <= i < |init| && !HasKey(init[i + 1..], init[i].0) ==>
               && init[i].0 in mid.hashes
               && forall f :: HasKey(init[i].1, f) ==> Lookup(mid.hashes[init[i].0], f) == Lookup(init[i].1, f)
    requires forall k' :: k' in db'.hashes <==> k' in mid.hashes || k' == k
    requires forall k' :: k' in mid.hashes && k' != k ==> db'.hashes[k'] == mid.hashes[k']
    requires forall f :: HasKey(fields, f) ==> Lookup(db'.hashes[k], f) == Lookup(fields, f)
    ensures var records := init + [(k, fields)];
            && (forall k' :: k' in db'.hashes <==> k' in db.hashes || HasKey(records, k'))
            && (forall k' :: k' in db.hashes && !HasKey(records, k') ==> db'.hashes[k'] == db.hashes[k'])
            && (forall i :: 0 <= i < |records| && !HasKey(records[i + 1..], records[i].0) ==>
                  && records[i].0 in db'.hashes
                  && forall f :: HasKey(records[i].1, f) ==> Lookup(db'.hashes[records[i].0], f) == Lookup(records[i].1, f))
  {
    var records := init + [(k, fields)];
    var n := |init|;
    AppendEntry(init, k, fields);
    forall i | 0 <= i < |records| && !HasKey(records[i + 1..], records[i].0)
      ensures && records[i].0 in db'.hashes
              && forall f :: HasKey(records[i].1, f) ==> Lookup(db'.hashes[records[i].0], f) == Lookup(records[i].1, f)
    {
      if i < n {
        assert records[i] == init[i];
        assert records[i + 1..] == init[i + 1..] + [(k, fields)];
        AppendEntry(init[i + 1..], k, fields);
      }
    }
  }

  /** After a successful write every other hash is unchanged.  With a life span of 0 (given, or
      the collection's default) the records' keys are gone, since EXPIRE deletes them at once;
      otherwise every record is stored: its key holds each of its fields with the value of the
      last record written to that key.  A record without fields makes Redis refuse the whole
      transaction. */
  lemma {:induction false} InsertedRecordsStored(db: Db, records: seq<HashRecord>, ttl: Option<nat>)
    requires forall i :: 0 <= i < |records| ==> UniqueKeys(records[i].1)
    ensures var r := RunPipeline(db, InsertPipeline(records, ttl));
            && (r.Some? <==> forall i :: 0 <= i < |records| ==> records[i].1 != [])
            && (r.Some? ==>
                  && (forall k :: k in db.hashes && !HasKey(records, k) ==> k in r.value.hashes && r.value.hashes[k] == db.hashes[k])
                  && (ttl == Some(0) ==>
                        && (forall k :: k in r.value.hashes <==> k in db.hashes && !HasKey(records, k))
                        && forall i :: 0 <= i < |records| ==> records[i].0 !in r.value.hashes)
                  && (ttl != Some(0) ==>
                        && (forall k :: k in r.value.hashes <==> k in db.hashes || HasKey(records, k))
                        && forall i :: 0 <= i < |records| && !HasKey(records[i + 1..], records[i].0) ==>
                             && records[i].0 in r.value.hashes
                             && forall f :: HasKey(records[i].1, f) ==>
                                  Lookup(r.value.hashes[records[i].0], f) == Lookup(records[i].1, f)))
  {
    InsertApply(db, records, ttl);
    InsertWellFormed(records, ttl);
    RecordsStored(db, records, ttl);
    forall i | 0 <= i < |records| ensures HasKey(records, records[i].0) {
      HasKeyIndex(records, records[i].0);
    }
  }

  /** MULTI and EXEC change no hash. */
  lemma {:induction false} InsertApply(db: Db, records: seq<HashRecord>, ttl: Option<nat>)
    ensures ApplyAll(db, InsertPipeline(records, ttl)) == ApplyAll(db, RecordsCommands(records, ttl))
  {
    var c := RecordsCommands(records, ttl);
    ApplyAllAppend(db, [Multi], c);
    ApplyAllAppend(db, [Multi] + c, [Exec]);
    assert ApplyAll(db, [Multi]) == Apply(ApplyAll(db, []), Multi);
    assert ApplyAll(ApplyAll(db, [Multi] + c), [Exec]) == Apply(ApplyAll(ApplyAll(db, [Multi] + c), []), Exec);
  }

  /** Redis accepts the transaction exactly when every record has a field. */
  lemma {:induction false} InsertWellFormed(records: seq<HashRecord>, ttl: Option<nat>)
    ensures var pipe := InsertPipeline(records, ttl);
            (exists j :: 0 <= j < |pipe| && Malformed(pipe[j])) <==> exists i :: 0 <= i < |records| && records[i].1 == []
  {
    var pipe := InsertPipeline(records, ttl);
    InsertLayout(records, ttl);
    if exists i :: 0 <= i < |records| && records[i].1 == [] {
      var i :| 0 <= i < |records| && records[i].1 == [];
      var j := if ttl.Some? then 2 * i + 1 else i + 1;
      assert Malformed(pipe[j]);
    } else {
      forall j | 0 <= j < |pipe| ensures !Malformed(pipe[j]) {
        if 0 < j < |pipe| - 1 {
          if ttl.Some? {
            var i := (j - 1) / 2;
            assert 2 * i + 1 == j || 2 * i + 2 == j;
            assert 0 <= i < |records|;
            if j == 2 * i + 1 {
              assert pipe[j] == HSet(records[i].0, records[i].1) && records[i].1 != [];
            } else {
              assert pipe[2 * i + 2] == Expire(records[i].0, ttl.value);
            }
          } else {
            assert pipe[j] == HSet(records[j - 1].0, records[j - 1].1) && records[j - 1].1 != [];
          }
        }
      }
    }
  }

  /** DEL removes exactly the given keys; with no key at all Redis refuses it. */
  lemma RemovedRecordsGone(db: Db, keys: seq<string>)
    ensures var r := RunPipeline(db, RemovePipeline(keys));
            && (r.Some? <==> keys != [])
            && (r.Some? ==>
                  (forall k :: k in r.value.hashes <==> k in db.hashes && k !in keys)
                  && forall k :: k in r.value.hashes ==> r.value.hashes[k] == db.hashes[k])
  {
    var pipe := RemovePipeline(keys);
    assert ApplyAll(db, pipe) == Apply(ApplyAll(db, []), Del(keys));
    if keys == [] {
      assert Malformed(pipe[0]);
    }
  }

  // ---------------------------------------------------------------------------
  // Reading
  // ---------------------------------------------------------------------------

  /** The hash keys of the ids of a collection. */
  function HashKeys(collection: string, ids: seq<string>): (r: seq<string>)
    ensures |r| == |ids| && forall i :: 0 <= i < |ids| ==> r[i] == GenerateHashKey(collection, ids[i])
  {
    seq(|ids|, i requires 0 <= i < |ids| => GenerateHashKey(collection, ids[i]))
  }

  /** `get_records_by_id`: the ids' hash keys as KEYS, the nested fields as ARGV. */
  function GetRecordsByIdCommand(collection: string, meta: CollectionMeta, ids: seq<string>): (r: Command)
    ensures r.Eval? && r.script == SelectAllFieldsForSomeIds && r.numKeys == |ids| <= |r.args|
    ensures r.args[..r.numKeys] == HashKeys(collection, ids) && r.args[r.numKeys..] == meta.nestedFields
  {
    Eval(SelectAllFieldsForSomeIds, |ids|, HashKeys(collection, ids) + meta.nestedFields)
  }

  /** `get_partial_records_by_id`: the ids' hash keys as KEYS; the fields and then the nested
      fields as ARGV. */
  function GetPartialRecordsByIdCommand(collection: string, meta: CollectionMeta, ids: seq<string>,
                                        fields: seq<string>): (r: Command)
    ensures r.Eval? && r.script == SelectSomeFieldsForSomeIds && r.numKeys == |ids| <= |r.args|
    ensures r.args[..r.numKeys] == HashKeys(collection, ids) && r.args[r.numKeys..] == fields + meta.nestedFields
  {
    Eval(SelectSomeFieldsForSomeIds, |ids|, HashKeys(collection, ids) + fields + meta.nestedFields)
  }

  /** `get_all_partial_records_in_collection`: no KEYS; the pattern, the fields and the nested
      fields as ARGV. */
  function GetAllPartialRecordsCommand(collection: string, meta: CollectionMeta, fields: seq<string>): (r: Command)
    ensures r.Eval? && r.script == SelectSomeFieldsForAllIds && r.numKeys == 0
    ensures r.args == [GenerateCollectionKeyPattern(collection)] + fields + meta.nestedFields
  {
    Eval(SelectSomeFieldsForAllIds, 0, [GenerateCollectionKeyPattern(collection)] + fields + meta.nestedFields)
  }

  /** `get_all_records_in_collection`: no KEYS; the pattern and the nested fields as ARGV. */
  function GetAllRecordsCommand(collection: string, meta: CollectionMeta): (r: Command)
    ensures r.Eval? && r.script == SelectAllFieldsForAllIds && r.numKeys == 0
    ensures r.args == [GenerateCollectionKeyPattern(collection)] + meta.nestedFields
  {
    Eval(SelectAllFieldsForAllIds, 0, [GenerateCollectionKeyPattern(collection)] + meta.nestedFields)
  }

  /** The reply of an EVAL: its first `numKeys` arguments are KEYS, the others ARGV.  `None` is
      a script that raises, or more keys than arguments.  The scripts are evaluated as written.
      Every script replies with an array: one entity per KEYS entry for the by-id scripts, one
      per hash key that SCAN MATCH ARGV[1] yields for the all-ids scripts. */
  function RunEval(db: Db, c: Command): (r: Option<RValue>)
    requires c.Eval?
    ensures c.numKeys > |c.args| ==> r.None?
    ensures r.Some? ==> r.value.Bulk?
    ensures r.Some? && (c.script == SelectAllFieldsForSomeIds || c.script == SelectSomeFieldsForSomeIds) ==>
              |r.value.items| == c.numKeys
    ensures r.Some? && (c.script == SelectAllFieldsForAllIds || c.script == SelectSomeFieldsForAllIds) ==>
              c.numKeys < |c.args| && |r.value.items| == |MatchingHashKeys(db, c.args[c.numKeys])|
  {
    if c.numKeys > |c.args| then None
    else
      var keys := c.args[..c.numKeys];
      var argv := c.args[c.numKeys..];
      var es := match c.script
        case SelectAllFieldsForSomeIds => SharedUtils.SelectAllFieldsForSomeIdsAsWritten(db, keys, argv)
        case SelectSomeFieldsForSomeIds => SharedUtils.SelectSomeFieldsForSomeIds(db, keys, argv)
        case SelectAllFieldsForAllIds => SharedUtils.SelectAllFieldsForAllIdsAsWritten(db, argv)
        case SelectSomeFieldsForAllIds => SharedUtils.SelectSomeFieldsForAllIds(db, argv);
      match es
      case None => None
      case Some(es) => Some(Bulk(es))
  }

  /** The entities a script reply holds, wrapped as the reply. */
  function Wrap(es: Option<seq<RValue>>): (r: Option<RValue>)
    ensures r.None? <==> es.None?
    ensures r.Some? ==> r.value == Bulk(es.value)
  {
    match es
    case None => None
    case Some(es) => Some(Bulk(es))
  }

  /** The hash keys the all-ids scripts visit for a collection, in SCAN order. */
  function CollectionKeys(db: Db, collection: string): seq<string>
  {
    MatchingHashKeys(db, GenerateCollectionKeyPattern(collection))
  }

  /** When the collection name holds no glob character, its pattern visits exactly the
      scanned hashes whose key starts with the collection's prefix. */
  lemma CollectionKeysRule(db: Db, collection: string)
    requires forall i :: 0 <= i < |collection| ==> !IsGlobChar(collection[i])
    ensures forall k :: k in CollectionKeys(db, collection)
                    <==> k in db.scanOrder && k in db.hashes && StartsWith(k, collection + KeySeparator)
  {
    var q := collection + KeySeparator;
    assert forall i :: 0 <= i < |q| ==> !IsGlobChar(q[i]) by {
      forall i | 0 <= i < |q| ensures !IsGlobChar(q[i]) {
        if i >= |collection| { assert q[i] == KeySeparator[i - |collection|]; }
      }
    }
    forall k ensures GlobMatch(GenerateCollectionKeyPattern(collection), k) <==> StartsWith(k, q) {
      PrefixPatternMatches(q, k);
    }
  }

  /** The by-id read evaluates the some-ids script as written with one KEYS entry per id, in
      order, and the nested fields as ARGV.  On records whose values name no nested field it
      gives the intended entities: each id's hash, nested fields replaced by the hash they name,
      and an empty entity for an id with no hash. */
  lemma ByIdReadsKeys(db: Db, collection: string, meta: CollectionMeta, ids: seq<string>)
    ensures RunEval(db, GetRecordsByIdCommand(collection, meta, ids))
         == Wrap(SharedUtils.SelectAllFieldsForSomeIdsAsWritten(db, HashKeys(collection, ids), meta.nestedFields))
    ensures Clean(db, HashKeys(collection, ids), set k | k in meta.nestedFields) ==>
              RunEval(db, GetRecordsByIdCommand(collection, meta, ids))
              == Some(Bulk(SharedUtils.SelectAllFieldsForSomeIds(db, HashKeys(collection, ids), meta.nestedFields)))
  {
    var c := GetRecordsByIdCommand(collection, meta, ids);
    assert c.args[..c.numKeys] == HashKeys(collection, ids);
    assert c.args[c.numKeys..] == meta.nestedFields;
    if Clean(db, HashKeys(collection, ids), set k | k in meta.nestedFields) {
      SomeIdsAsWrittenIntended(db, HashKeys(collection, ids), meta.nestedFields);
    }
  }

  /** The all-ids read evaluates the all-ids script as written over the collection's keys: the
      pattern is not taken for a nested field.  On a collection whose values name no nested
      field it gives the intended entities of every record. */
  lemma AllReadsCollection(db: Db, collection: string, meta: CollectionMeta)
    ensures var keys := CollectionKeys(db, collection);
            && RunEval(db, GetAllRecordsCommand(collection, meta))
               == Wrap(SharedUtils.SelectAllFieldsForSomeIdsAsWritten(db, keys, meta.nestedFields))
            && (Clean(db, keys, set k | k in meta.nestedFields) ==>
                  RunEval(db, GetAllRecordsCommand(collection, meta))
                  == Some(Bulk(SharedUtils.SelectAllFieldsForSomeIds(db, keys, meta.nestedFields))))
  {
    var c := GetAllRecordsCommand(collection, meta);
    assert c.args[0..] == c.args;
    assert c.args[1..] == meta.nestedFields;
    var keys := CollectionKeys(db, collection);
    if Clean(db, keys, set k | k in meta.nestedFields) {
      SomeIdsAsWrittenIntended(db, keys, meta.nestedFields);
    }
  }

  /** The partial reads take as columns every requested field and every nested field, each
      once; a name becomes a nested column when the fields and the nested fields together hold
      it twice.  So a nested field is always fetched, and expanded only when it is requested. */
  lemma {:induction false} PartialReadColumns(fields: seq<string>, nestedFields: seq<string>)
    ensures var (cols, nested) := Columns(fields + nestedFields);
            && NoDuplicates(cols)
            && (forall k :: k in cols <==> k in fields || k in nestedFields)
            && (forall k :: k in nested <==> Occurrences(fields, k) + Occurrences(nestedFields, k) >= 2)
  {
    ColumnsRule(fields + nestedFields);
    OccurrencesIn(fields);
    OccurrencesIn(nestedFields);
    OccurrencesAppend(fields, nestedFields);
  }

  /** With no repeated names, exactly the requested nested fields are expanded. */
  lemma PartialReadExpandsRequested(fields: seq<string>, nestedFields: seq<string>)
    requires NoDuplicates(fields) && NoDuplicates(nestedFields)
    ensures forall k :: k in Columns(fields + nestedFields).1 <==> k in fields && k in nestedFields
  {
    PartialReadColumns(fields, nestedFields);
    OccurrencesIn(fields);
    OccurrencesIn(nestedFields);
    AtMostOnce(fields);
    AtMostOnce(nestedFields);
  }

  lemma {:induction false} OccurrencesAppend(a: seq<string>, b: seq<string>)
    ensures forall k :: Occurrences(a + b, k) == Occurrences(a, k) + Occurrences(b, k)
    decreases |b|
  {
    if b == [] {
      assert a + b == a;
    } else {
      var n := |b| - 1;
      assert (a + b)[..|a + b| - 1] == a + b[..n];
      OccurrencesAppend(a, b[..n]);
    }
  }

  lemma {:induction false} AtMostOnce(s: seq<string>)
    requires NoDuplicates(s)
    ensures forall k :: Occurrences(s, k) <= 1
  {
    if s != [] {
      var init := s[..|s| - 1];
      AtMostOnce(init);
      OccurrencesIn(init);
      assert s[|s| - 1] !in init;
    }
  }

  /** The partial by-id read evaluates its script with the ids' keys as KEYS and the fields
      followed by the nested fields as ARGV; it raises only when there is no column at all for
      some id. */
  lemma PartialByIdReadsKeys(db: Db, collection: string, meta: CollectionMeta, ids: seq<string>, fields: seq<string>)
    ensures var r := RunEval(db, GetPartialRecordsByIdCommand(collection, meta, ids, fields));
            && (r.None? <==> ids != [] && fields == [] && meta.nestedFields == [])
            && (r.Some? ==>
                  r == Some(Bulk(SharedUtils.SelectSomeFieldsForSomeIds(db, HashKeys(collection, ids), fields + meta.nestedFields).value)))
  {
    var c := GetPartialRecordsByIdCommand(collection, meta, ids, fields);
    assert c.args == HashKeys(collection, ids) + (fields + meta.nestedFields);
    assert c.args[..c.numKeys] == HashKeys(collection, ids);
    assert c.args[c.numKeys..] == fields + meta.nestedFields;
  }

  /** The partial all-ids read takes its columns from the fields and nested fields, never from
      the pattern, and visits the collection's keys. */
  lemma AllPartialReadsCollection(db: Db, collection: string, meta: CollectionMeta, fields: seq<string>)
    ensures var (cols, nested) := Columns(fields + meta.nestedFields);
            var keys := CollectionKeys(db, collection);
            var r := RunEval(db, GetAllPartialRecordsCommand(collection, meta, fields));
            && (cols == [] && keys != [] ==> r.None?)
            && (!(cols == [] && keys != []) ==>
                  match AllIdsEach(db, keys, cols, nested)
                  case None => r.None?
                  case Some(es) => r == Some(Bulk(es)))
  {
    var c := GetAllPartialRecordsCommand(collection, meta, fields);
    var argv := c.args;
    assert c.args[0..] == argv;
    assert argv[1..] == fields + meta.nestedFields && argv[0] == GenerateCollectionKeyPattern(collection);
    assert RunEval(db, c) == Wrap(SharedUtils.SelectSomeFieldsForAllIds(db, argv));
    var (cols, nested) := Columns(argv[1..]);
    var keys := MatchingHashKeys(db, argv[0]);
    assert SharedUtils.SelectSomeFieldsForAllIds(db, argv)
        == if cols == [] && keys != [] then None else AllIdsEach(db, keys, cols, nested);
  }

  // ---- the reply ----

  /** What the query of a one-command pipeline gives back: an array holding the command's reply;
      a script that raises is a connection error. */
  function ReadRecords(h: Host, read: FieldReader, parser: ItemParser, db: Db, c: Command): (r: Result<seq<PyObj>>)
    requires c.Eval?
    ensures RunEval(db, c).None? ==> r == Err(ConnectionError("script error"))
    ensures RunEval(db, c).Some? ==> ReadsEntities(h, read, parser, RunEval(db, c).value.items, r)
  {
    match RunEval(db, c)
    case None => Err(ConnectionError("script error"))
    case Some(reply) => ParseReply(h, read, parser, Bulk([reply]))
  }

  /** `run_script`: query the script, then read its reply with the shared loop. */
  method RunScript(h: Host, read: FieldReader, parser: ItemParser, db: Db, c: Command) returns (r: Result<seq<PyObj>>)
    requires c.Eval?
    ensures r == ReadRecords(h, read, parser, db, c)
  {
    var reply := RunEval(db, c);
    if reply.None? {
      return Err(ConnectionError("script error"));
    }
    r := ParseLuaScriptResponse(h, read, parser, Bulk([reply.value]));
  }

  /** A read gives the non-empty entities of `es` decoded in order, or fails when one of them
      does not decode. */
  predicate ReadsEntities(h: Host, read: FieldReader, parser: ItemParser, es: seq<RValue>, r: Result<seq<PyObj>>)
  {
    var kept := NonEmpty(es);
    && (r.Ok? <==> forall i :: 0 <= i < |kept| ==> DecodeEntity(h, read, parser, kept[i]).Ok?)
    && (r.Ok? ==> |r.value| == |kept| && forall i :: 0 <= i < |kept| ==> Ok(r.value[i]) == DecodeEntity(h, read, parser, kept[i]))
  }

  /** A read of a single entity: nothing when it is empty, else that entity decoded. */
  lemma ReadsOne(h: Host, read: FieldReader, parser: ItemParser, e: seq<RValue>, r: Result<seq<PyObj>>)
    requires ReadsEntities(h, read, parser, [Bulk(e)], r)
    ensures e == [] ==> r == Ok([])
    ensures e != [] ==> var d := DecodeEntity(h, read, parser, Bulk(e));
                        (r.Ok? <==> d.Ok?) && (r.Ok? ==> r.value == [d.value])
  {
    assert [Bulk(e)][..0] == [];
    if r.Ok? && e != [] {
      assert r.value == [r.value[0]];
    }
  }

  /** The item parser of the partial reads: the fields as a dict. */
  function AsDict(data: seq<(string, PyObj)>): (r: Result<PyObj>)
    ensures r.Ok? && r.value.PyDict? && AsStrKeyed(r.value.entries) == Some(data)
  {
    Ok(StrKeyedDict(data))
  }
}
