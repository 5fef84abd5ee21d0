// The client-side reading of a Lua script's reply: `parse_lua_script_response`
// and the identical loop in every `run_script`.  The pipeline's reply holds the
// script's reply first; that is an array of entities, each a field/value array.
// Empty entities (ids with no hash) are skipped, and every field must be
// declared in the collection's schema.  The loop is stated once, over the way
// a schema reads a field, so that the readers of the legacy schema share it.

module SharedReply {
  import opened Common
  import opened Values
  import opened SharedParsers
  import opened SharedFieldTypes

  /** What turns the fields of one entity into the Python value returned for it
      (the model class, or a plain dict). */
  type ItemParser = seq<(string, PyObj)> -> Result<PyObj>

  /** How a schema reads the value of a field: `None` for a field it does not declare. */
  type FieldReader = string -> Option<RValue -> Result<PyObj>>

  /** The reader of a schema of the current code base: `get_type`, then `redis_to_py`. */
  function SchemaReader(h: Host, schema: Schema): (r: FieldReader)
    ensures forall k :: r(k).Some? <==> HasKey(schema.mapping, k)
  {
    k => match GetType(schema, k)
         case None => None
         case Some(t) => Some(v => RedisToPy(h, Current, t, v))
  }

  /** The fields of one entity, in reply order, every key declared and every value read by its
      declared type; a repeated key keeps its first place and its last value. */
  function EntityData(read: FieldReader, pairs: seq<(RValue, RValue)>, acc: seq<(string, PyObj)>)
    : (r: Result<seq<(string, PyObj)>>)
    ensures r.Ok? ==> forall k :: HasKey(r.value, k) ==> HasKey(acc, k) || read(k).Some?
    ensures r.Ok? && UniqueKeys(acc) ==> UniqueKeys(r.value)
    decreases |pairs|
  {
    if pairs == [] then Ok(acc)
    else
      var key :- RedisToString(pairs[0].0);
      match read(key)
      case None => Err(KeyErrorWith(key, "key found in data but not in schema"))
      case Some(readValue) =>
        var value :- readValue(pairs[0].1);
        EntityData(read, pairs[1..], Insert(acc, key, value))
  }

  /** One entity of the reply, decoded. */
  function DecodeEntity(h: Host, read: FieldReader, parser: ItemParser, item: RValue): (r: Result<PyObj>)
    ensures !item.Bulk? ==> r == Err(ValueErrorWith(h.debugValue(item), "redis value is not a map"))
  {
    match AsMapIter(item)
    case None => Err(ValueErrorWith(h.debugValue(item), "redis value is not a map"))
    case Some(pairs) =>
      var data :- EntityData(read, pairs, []);
      parser(data)
  }

  /** An unpaired last item of an entity is ignored: the entity decodes as its pairs alone. */
  lemma UnpairedItemIgnored(h: Host, read: FieldReader, parser: ItemParser, items: seq<RValue>, extra: RValue)
    requires |items| % 2 == 0
    ensures DecodeEntity(h, read, parser, Bulk(items + [extra])) == DecodeEntity(h, read, parser, Bulk(items))
  {
    var a := AsMapIter(Bulk(items + [extra])).value;
    var b := AsMapIter(Bulk(items)).value;
    assert |a| == |b|;
    forall i | 0 <= i < |a| ensures a[i] == b[i] {
      assert (items + [extra])[2 * i] == items[2 * i] && (items + [extra])[2 * i + 1] == items[2 * i + 1];
    }
    assert a == b;
  }

  /** The reply has the expected shape: an array whose first element reads as a sequence
      (an array, or nil, which reads as no entities). */
  predicate ShapeOk(result: RValue)
  {
    result.Bulk? && |result.items| > 0 && AsSequence(result.items[0]).Some?
  }

  /** The entities of the script's reply, or the error for a reply of another shape. */
  function ReplyEntities(h: Host, result: RValue): (r: Result<seq<RValue>>)
    ensures r.Ok? <==> ShapeOk(result)
    ensures r.Ok? ==> r.value == AsSequence(result.items[0]).value
    ensures r.Ok? && result.items[0].Bulk? ==> r.value == result.items[0].items
    ensures r.Err? ==> r.error == ValueErrorWith(h.debugValue(result), "Response from redis is of unexpected shape")
  {
    if ShapeOk(result) then Ok(AsSequence(result.items[0]).value)
    else Err(ValueErrorWith(h.debugValue(result), "Response from redis is of unexpected shape"))
  }

  /** The decoder of the entities of one read. */
  function Decoder(h: Host, read: FieldReader, parser: ItemParser): RValue -> Result<PyObj>
  {
    item => DecodeEntity(h, read, parser, item)
  }

  /** The decoded values of the first `n` entities, the empty ones skipped. */
  function ParseEntities(decode: RValue -> Result<PyObj>, items: seq<RValue>, n: nat): (r: Result<seq<PyObj>>)
    requires n <= |items|
  {
    if n == 0 then Ok([])
    else
      var prev :- ParseEntities(decode, items, n - 1);
      if items[n - 1] == Bulk([]) then Ok(prev)
      else
        var x :- decode(items[n - 1]);
        Ok(prev + [x])
  }

  /** `parse_lua_script_response` as a function of the reply. */
  function ParseReply(h: Host, read: FieldReader, parser: ItemParser, result: RValue): (r: Result<seq<PyObj>>)
    ensures !ShapeOk(result) ==> r == Err(ValueErrorWith(h.debugValue(result), "Response from redis is of unexpected shape"))
    ensures ShapeOk(result) ==>
              var kept := NonEmpty(AsSequence(result.items[0]).value);
              && (r.Ok? <==> forall i :: 0 <= i < |kept| ==> DecodeEntity(h, read, parser, kept[i]).Ok?)
              && (r.Ok? ==>
                    |r.value| == |kept|
                    && forall i :: 0 <= i < |kept| ==> Ok(r.value[i]) == DecodeEntity(h, read, parser, kept[i]))
  {
    ReadAsDecoded(h, read, parser, result);
    var items :- ReplyEntities(h, result);
    ParseEntities(Decoder(h, read, parser), items, |items|)
  }

  /** `parse_lua_script_response`. */
  method ParseLuaScriptResponse(h: Host, read: FieldReader, parser: ItemParser, result: RValue)
    returns (r: Result<seq<PyObj>>)
    ensures r == ParseReply(h, read, parser, result)
  {
    var found := ReplyEntities(h, result);
    if found.Err? {
      return Err(found.error);
    }
    var items := found.value;
    var decode := Decoder(h, read, parser);
    var results: seq<PyObj> := [];
    for i := 0 to |items|
      invariant ParseEntities(decode, items, i) == Ok(results)
    {
      if items[i] != Bulk([]) {
        var x := DecodeEntity(h, read, parser, items[i]);
        assert x == decode(items[i]);
        if x.Err? {
          ParseEntitiesErrorPersists(decode, items, i + 1, |items|);
          return Err(x.error);
        }
        results := results + [x.value];
      }
    }
    return Ok(results);
  }

  lemma {:induction false} ParseEntitiesErrorPersists(decode: RValue -> Result<PyObj>, items: seq<RValue>, i: nat, j: nat)
    requires i <= j <= |items| && ParseEntities(decode, items, i).Err?
    ensures ParseEntities(decode, items, j) == ParseEntities(decode, items, i)
    decreases j - i
  {
    if i < j {
      ParseEntitiesErrorPersists(decode, items, i, j - 1);
    }
  }

  // ---------------------------------------------------------------------------
  // What the reader returns
  // ---------------------------------------------------------------------------

  /** The entities that are not the empty array, in order. */
  function NonEmpty(items: seq<RValue>): (r: seq<RValue>)
    ensures |r| <= |items|
  {
    if items == [] then []
    else
      var rest := NonEmpty(items[..|items| - 1]);
      if items[|items| - 1] == Bulk([]) then rest else rest + [items[|items| - 1]]
  }

  /** `NonEmpty` keeps exactly the entities other than the empty array. */
  lemma {:induction false} NonEmptyMembers(items: seq<RValue>)
    ensures forall x :: x in NonEmpty(items) <==> x in items && x != Bulk([])
  {
    if items != [] {
      var init := items[..|items| - 1];
      NonEmptyMembers(init);
      assert items == init + [items[|items| - 1]];
    }
  }

  /** The reader skips the empty entities and decodes each other one, in reply order; it fails
      exactly when one of them fails to decode. */
  lemma {:induction false} ParseEntitiesRule(decode: RValue -> Result<PyObj>, items: seq<RValue>, n: nat)
    requires n <= |items|
    ensures var r := ParseEntities(decode, items, n);
            var kept := NonEmpty(items[..n]);
            && (r.Ok? <==> forall i :: 0 <= i < |kept| ==> decode(kept[i]).Ok?)
            && (r.Ok? ==> |r.value| == |kept| && forall i :: 0 <= i < |kept| ==> Ok(r.value[i]) == decode(kept[i]))
  {
    if n > 0 {
      ParseEntitiesRule(decode, items, n - 1);
      assert items[..n][..n - 1] == items[..n - 1];
      var prev := ParseEntities(decode, items, n - 1);
      var r := ParseEntities(decode, items, n);
      var kept := NonEmpty(items[..n]);
      var keptBefore := NonEmpty(items[..n - 1]);
      var e := items[n - 1];
      if e != Bulk([]) {
        assert kept == keptBefore + [e];
        var d := decode(e);
        assert r == if prev.Err? then prev else if d.Err? then Err(d.error) else Ok(prev.value + [d.value]);
        if prev.Err? {
          var i :| 0 <= i < |keptBefore| && !decode(keptBefore[i]).Ok?;
          assert kept[i] == keptBefore[i];
          assert !decode(kept[i]).Ok?;
          assert r.Err?;
          assert !(forall k :: 0 <= k < |kept| ==> decode(kept[k]).Ok?);
          assert kept == NonEmpty(items[..n]);
          assert r == ParseEntities(decode, items, n);
        } else if d.Err? {
          assert kept[|keptBefore|] == e;
        } else {
          forall i | 0 <= i < |kept| ensures Ok(r.value[i]) == decode(kept[i]) {
            if i < |keptBefore| {
              assert kept[i] == keptBefore[i];
            }
          }
        }
      } else {
        assert kept == keptBefore;
      }
    }
  }

  /** The reply as a whole: a shape error, or the non-empty entities decoded in order. */
  /** The entities of a reply of the right shape read as `ParseReply` reads them: one decode per
      non-empty entity. */
  lemma ReadAsDecoded(h: Host, read: FieldReader, parser: ItemParser, result: RValue)
    ensures ShapeOk(result) ==>
              var items := AsSequence(result.items[0]).value;
              var r := ParseEntities(Decoder(h, read, parser), items, |items|);
              var kept := NonEmpty(items);
              && (r.Ok? <==> forall i :: 0 <= i < |kept| ==> DecodeEntity(h, read, parser, kept[i]).Ok?)
              && (r.Ok? ==>
                    |r.value| == |kept|
                    && forall i :: 0 <= i < |kept| ==> Ok(r.value[i]) == DecodeEntity(h, read, parser, kept[i]))
  {
    if ShapeOk(result) {
      var items := AsSequence(result.items[0]).value;
      var decode := Decoder(h, read, parser);
      ParseEntitiesRule(decode, items, |items|);
      assert items[..|items|] == items;
      assert forall e :: decode(e) == DecodeEntity(h, read, parser, e);
    }
  }

  /** A field the schema does not declare fails the entity, and with it the whole read. */
  lemma {:induction false} UndeclaredFieldFails(read: FieldReader, pairs: seq<(RValue, RValue)>,
                                                acc: seq<(string, PyObj)>, j: nat)
    requires j < |pairs| && pairs[j].0.Data? && read(pairs[j].0.bytes).None?
    ensures EntityData(read, pairs, acc).Err?
  {
    if j > 0 {
      var k := RedisToString(pairs[0].0);
      if k.Ok? && read(k.value).Some? {
        var x := read(k.value).value(pairs[0].1);
        if x.Ok? {
          assert pairs[1..][j - 1] == pairs[j];
          UndeclaredFieldFails(read, pairs[1..], Insert(acc, k.value, x.value), j - 1);
        }
      }
    }
  }

  /** Every field of the entity is kept under its name. */
  lemma {:induction false} EntityDataKeepsFields(read: FieldReader, pairs: seq<(RValue, RValue)>,
                                                 acc: seq<(string, PyObj)>)
    requires EntityData(read, pairs, acc).Ok?
    ensures forall k :: HasKey(acc, k) ==> HasKey(EntityData(read, pairs, acc).value, k)
    ensures forall i :: 0 <= i < |pairs| ==>
              pairs[i].0.Data? ==> HasKey(EntityData(read, pairs, acc).value, pairs[i].0.bytes)
  {
    if pairs != [] {
      var key := RedisToString(pairs[0].0).value;
      var value := read(key).value(pairs[0].1).value;
      EntityDataKeepsFields(read, pairs[1..], Insert(acc, key, value));
      forall i | 1 <= i < |pairs| ensures pairs[i] == pairs[1..][i - 1] { }
    }
  }

  /** The value of every field of a decoded entity: each pair's key reads as text and is
      declared, each value reads by its declared type, the field of the last pair with a key
      holds that pair's value as read, and a key no pair names keeps its earlier value.  The
      `HashMap` the source collects into keeps the last value of a repeated key. */
  lemma {:induction false} EntityDataValues(read: FieldReader, pairs: seq<(RValue, RValue)>, acc: seq<(string, PyObj)>)
    requires EntityData(read, pairs, acc).Ok?
    ensures forall j :: 0 <= j < |pairs| ==>
              && RedisToString(pairs[j].0).Ok?
              && read(RedisToString(pairs[j].0).value).Some?
              && read(RedisToString(pairs[j].0).value).value(pairs[j].1).Ok?
    ensures forall j :: 0 <= j < |pairs| && LastOfKey(pairs, j) ==>
              Lookup(EntityData(read, pairs, acc).value, RedisToString(pairs[j].0).value)
                == Some(read(RedisToString(pairs[j].0).value).value(pairs[j].1).value)
    ensures forall k :: (forall j :: 0 <= j < |pairs| ==> RedisToString(pairs[j].0) != Ok(k)) ==>
              Lookup(EntityData(read, pairs, acc).value, k) == Lookup(acc, k)
    ensures forall k :: HasKey(EntityData(read, pairs, acc).value, k) <==>
              HasKey(acc, k) || exists j :: 0 <= j < |pairs| && RedisToString(pairs[j].0) == Ok(k)
  {
    var field := EntityField(read);
    EntityDataCollect(read, pairs, acc);
    CollectPairsValues(field, pairs, acc);
  }

  /** How an entity reads the value of one field: by the schema's reader, and an undeclared
      field is the "key found in data but not in schema" KeyError. */
  function EntityField(read: FieldReader): (string, RValue) -> Result<PyObj>
  {
    (key, v) =>
      match read(key)
      case None => Err(KeyErrorWith(key, "key found in data but not in schema"))
      case Some(readValue) => readValue(v)
  }

  /** An entity collects its pairs with the schema's field reader. */
  lemma {:induction false} EntityDataCollect(read: FieldReader, pairs: seq<(RValue, RValue)>, acc: seq<(string, PyObj)>)
    ensures EntityData(read, pairs, acc) == CollectPairs(EntityField(read), pairs, acc)
    decreases |pairs|
  {
    if pairs != [] {
      var k := RedisToString(pairs[0].0);
      if k.Ok? {
        var x := EntityField(read)(k.value, pairs[0].1);
        if x.Ok? {
          EntityDataCollect(read, pairs[1..], Insert(acc, k.value, x.value));
        }
      }
    }
  }

  /** The entity the positional expansion of the Lua scripts produces when a value names a
      nested field (see `SharedUtils.ValueNamedLikeNestedFieldCorruptsEntity`) cannot be
      decoded under any schema: an expanded array lands where a field name belongs. */
  lemma CorruptedEntityIsRejected(h: Host, read: FieldReader, parser: ItemParser)
    ensures DecodeEntity(h, read, parser, Bulk([Data("title"), Data("author"), Bulk([]), Data("x")])).Err?
  {
    var item := Bulk([Data("title"), Data("author"), Bulk([]), Data("x")]);
    var pairs := AsMapIter(item).value;
    assert pairs == [(Data("title"), Data("author")), (Bulk([]), Data("x"))];
    UndecodableKeyFails(read, pairs, [], 1);
  }

  /** A field name that is not text fails the entity. */
  lemma {:induction false} UndecodableKeyFails(read: FieldReader, pairs: seq<(RValue, RValue)>,
                                               acc: seq<(string, PyObj)>, j: nat)
    requires j < |pairs| && pairs[j].0.Bulk?
    ensures EntityData(read, pairs, acc).Err?
  {
    if j > 0 {
      var k := RedisToString(pairs[0].0);
      if k.Ok? && read(k.value).Some? {
        var x := read(k.value).value(pairs[0].1);
        if x.Ok? {
          assert pairs[1..][j - 1] == pairs[j];
          UndecodableKeyFails(read, pairs[1..], Insert(acc, k.value, x.value), j - 1);
        }
      }
    }
  }
}
