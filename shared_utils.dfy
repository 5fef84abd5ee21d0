// The key scheme of the current code base, `try_get`, and what the four Lua
// scripts that the readers evaluate compute, stated over an abstract Redis
// database that maps keys to hashes.

module SharedUtils {
  import opened Common
  import opened Values

  // ---------------------------------------------------------------------------
  // Keys
  // ---------------------------------------------------------------------------

  /** The text between a collection name and an id in an entity key. */
  const KeySeparator: string := "_%&_"

  /** `generate_hash_key`: the key of the hash that holds entity `id` of `collection`. */
  function GenerateHashKey(collection: string, id: string): (r: string)
    ensures StartsWith(r, collection + KeySeparator) && r[|collection| + |KeySeparator|..] == id
    ensures |r| == |collection| + |KeySeparator| + |id|
  {
    collection + KeySeparator + id
  }

  /** `generate_collection_key_pattern`: the SCAN MATCH pattern of a collection's entity keys. */
  function GenerateCollectionKeyPattern(collection: string): (r: string)
    ensures r == collection + KeySeparator + "*"
    ensures EndsWith(r, "*") && r[..|r| - 1] == GenerateHashKey(collection, "")
  {
    collection + KeySeparator + "*"
  }

  /** Two entities of one collection get the same key only when their ids are equal. */
  lemma HashKeyInjective(collection: string, a: string, b: string)
    requires GenerateHashKey(collection, a) == GenerateHashKey(collection, b)
    ensures a == b
  {
    var n := |collection| + |KeySeparator|;
    assert a == GenerateHashKey(collection, a)[n..];
  }

  /** Redis glob matching restricted to `*` (any run of characters), `?` (any one
      character) and literal characters. */
  predicate GlobMatch(p: string, s: string)
    decreases |p| + |s|
  {
    if p == [] then s == []
    else if p[0] == '*' then GlobMatch(p[1..], s) || (s != [] && GlobMatch(p, s[1..]))
    else if p[0] == '?' then s != [] && GlobMatch(p[1..], s[1..])
    else s != [] && s[0] == p[0] && GlobMatch(p[1..], s[1..])
  }

  /** A glob character, one that SCAN MATCH does not read literally. */
  predicate IsGlobChar(c: char) { c == '*' || c == '?' || c == '[' || c == '\\' }

  lemma {:induction false} StarMatchesAll(s: string)
    ensures GlobMatch("*", s)
  {
    if s != [] {
      StarMatchesAll(s[1..]);
    }
  }

  /** A literal prefix followed by `*` matches exactly the strings with that prefix. */
  lemma {:induction false} PrefixPatternMatches(q: string, s: string)
    requires forall i :: 0 <= i < |q| ==> !IsGlobChar(q[i])
    ensures GlobMatch(q + "*", s) <==> StartsWith(s, q)
  {
    if q == [] {
      StarMatchesAll(s);
      assert q + "*" == "*";
    } else {
      assert (q + "*")[0] == q[0] && (q + "*")[1..] == q[1..] + "*";
      if s != [] && s[0] == q[0] {
        PrefixPatternMatches(q[1..], s[1..]);
        StartsWithCons(s, q);
      } else if s != [] && |q| <= |s| {
        assert s[..|q|][0] != q[0];
      }
    }
  }

  lemma StartsWithCons(s: string, q: string)
    requires s != [] && q != [] && s[0] == q[0]
    ensures StartsWith(s, q) <==> StartsWith(s[1..], q[1..])
  {
    if |q| <= |s| {
      assert s[..|q|] == [s[0]] + s[1..][..|q| - 1];
      assert q == [q[0]] + q[1..];
    }
  }

  /** When the collection name holds no glob character, a key matches the collection's pattern
      exactly when it is the key of some id of that collection. */
  lemma PatternSelectsCollectionKeys(collection: string, key: string)
    requires forall i :: 0 <= i < |collection| ==> !IsGlobChar(collection[i])
    ensures GlobMatch(GenerateCollectionKeyPattern(collection), key)
        <==> exists id :: key == GenerateHashKey(collection, id)
  {
    var q := collection + KeySeparator;
    assert forall i :: 0 <= i < |q| ==> !IsGlobChar(q[i]) by {
      forall i | 0 <= i < |q| ensures !IsGlobChar(q[i]) {
        if i >= |collection| { assert q[i] == KeySeparator[i - |collection|]; }
      }
    }
    PrefixPatternMatches(q, key);
    if StartsWith(key, q) {
      assert key == GenerateHashKey(collection, key[|q|..]);
    }
  }

  /** `try_get`: the value under `key`, or a KeyError with the given detail. */
  function TryGet<V>(m: map<string, V>, key: string, msg: string): (r: Result<V>)
    ensures key in m ==> r == Ok(m[key])
    ensures key !in m ==> r == Err(KeyErrorWith(key, msg))
  {
    if key in m then Ok(m[key]) else Err(KeyErrorWith(key, msg))
  }

  // ---------------------------------------------------------------------------
  // The Lua scripts, over an abstract database
  // ---------------------------------------------------------------------------

  /** The part of a Redis database the scripts look at: the hashes by key, with their fields
      in the order HGETALL lists them, and the order in which SCAN enumerates all keys
      (hashes and keys of other types alike). */
  datatype Db = Db(hashes: map<string, seq<(string, string)>>, scanOrder: seq<string>)

  /** A hash's fields and values, alternating, as bulk strings. */
  function FlatPairs(pairs: seq<(string, string)>): (r: seq<RValue>)
    ensures |r| == 2 * |pairs|
    ensures forall i :: 0 <= i < |pairs| ==> r[2 * i] == Data(pairs[i].0) && r[2 * i + 1] == Data(pairs[i].1)
  {
    if pairs == [] then []
    else
      var rest := FlatPairs(pairs[1..]);
      var r := [Data(pairs[0].0), Data(pairs[0].1)] + rest;
      forall i | 1 <= i < |pairs| ensures r[2 * i] == Data(pairs[i].0) && r[2 * i + 1] == Data(pairs[i].1) {
        var j := i - 1;
        assert 2 * i == 2 * j + 2;
        assert pairs[i] == pairs[1..][j];
      }
      r
  }

  /** `HGETALL key`: a missing key reads as an empty hash. */
  function HGetAll(db: Db, key: string): (r: seq<RValue>)
    ensures key !in db.hashes ==> r == []
  {
    if key in db.hashes then FlatPairs(db.hashes[key]) else []
  }

  /** `HMGET key cols...`: one reply per column, nil where the field is missing. */
  function HMGet(db: Db, key: string, cols: seq<string>): (r: seq<RValue>)
    ensures |r| == |cols|
    ensures forall i :: 0 <= i < |cols| ==>
              r[i] == (if key in db.hashes && HasKey(db.hashes[key], cols[i])
                       then Data(Lookup(db.hashes[key], cols[i]).value) else Nil)
  {
    if cols == [] then []
    else
      var first := if key in db.hashes && HasKey(db.hashes[key], cols[0])
                   then Data(Lookup(db.hashes[key], cols[0]).value) else Nil;
      [first] + HMGet(db, key, cols[1..])
  }

  /** The keys the all-ids scripts visit: those SCAN MATCH yields whose TYPE is hash. */
  function MatchingHashKeys(db: Db, pattern: string): (r: seq<string>)
    ensures forall k :: k in r <==> k in db.scanOrder && k in db.hashes && GlobMatch(pattern, k)
  {
    ScanFilter(db, db.scanOrder, pattern)
  }

  function ScanFilter(db: Db, keys: seq<string>, pattern: string): (r: seq<string>)
    ensures forall k :: k in r <==> k in keys && k in db.hashes && GlobMatch(pattern, k)
  {
    if keys == [] then []
    else
      var rest := ScanFilter(db, keys[1..], pattern);
      assert forall k :: k in keys <==> k == keys[0] || k in keys[1..];
      if keys[0] in db.hashes && GlobMatch(pattern, keys[0]) then [keys[0]] + rest else rest
  }

  /** The column rule of the "some fields" scripts: the first occurrence of a name becomes a
      column, any later occurrence marks the column as nested. */
  function Columns(args: seq<string>): (r: (seq<string>, set<string>))
    ensures forall k :: k in r.0 <==> k in args
    ensures r.1 <= set k | k in r.0
  {
    if args == [] then ([], {})
    else
      var (cols, nested) := Columns(args[..|args| - 1]);
      var k := args[|args| - 1];
      assert forall x :: x in args <==> x in args[..|args| - 1] || x == k by {
        assert args == args[..|args| - 1] + [k];
      }
      if k in cols then (cols, nested + {k}) else (cols + [k], nested)
  }

  /** Number of occurrences of `k` in `s`. */
  function Occurrences(s: seq<string>, k: string): nat
  {
    if s == [] then 0 else Occurrences(s[..|s| - 1], k) + (if s[|s| - 1] == k then 1 else 0)
  }

  predicate NoDuplicates(s: seq<string>) { forall i, j :: 0 <= i < j < |s| ==> s[i] != s[j] }

  /** The columns are the distinct names in order of first occurrence, and a name is nested
      exactly when it occurs more than once. */
  lemma {:induction false} ColumnsRule(args: seq<string>)
    ensures NoDuplicates(Columns(args).0)
    ensures forall k :: k in Columns(args).1 <==> Occurrences(args, k) >= 2
    ensures forall k :: k in Columns(args).0 <==> Occurrences(args, k) >= 1
  {
    if args != [] {
      var init := args[..|args| - 1];
      ColumnsRule(init);
      OccurrencesIn(init);
    } else {
      OccurrencesIn(args);
    }
  }

  lemma {:induction false} OccurrencesIn(s: seq<string>)
    ensures forall k :: Occurrences(s, k) >= 1 <==> k in s
  {
    if s != [] {
      OccurrencesIn(s[..|s| - 1]);
      assert forall x :: x in s <==> x in s[..|s| - 1] || x == s[|s| - 1] by {
        assert s == s[..|s| - 1] + [s[|s| - 1]];
      }
    }
  }

  // ---- nested expansion, as the ALL_FIELDS scripts are written ----

  /** The loop `for i, k in ipairs(parent) do if nested_fields[k] then parent[i + 1] =
      HGETALL(parent[i + 1]) end end`, from position `i` on.  It visits every position, field
      names and values alike; HGETALL of a position past the end (or of a table) raises. */
  function ExpandAsWritten(db: Db, parent: seq<RValue>, nested: set<string>, i: nat): (r: Option<seq<RValue>>)
    ensures r.Some? ==> |r.value| == |parent|
    decreases |parent| - i
  {
    if i >= |parent| then Some(parent)
    else if parent[i].Data? && parent[i].bytes in nested then
      if i + 1 < |parent| && parent[i + 1].Data? then
        ExpandAsWritten(db, parent[i + 1 := Bulk(HGetAll(db, parent[i + 1].bytes))], nested, i + 1)
      else None
    else ExpandAsWritten(db, parent, nested, i + 1)
  }

  /** The evidently intended expansion: the value of every field named in `nested` is replaced
      by the hash it names. */
  function ExpandValues(db: Db, pairs: seq<(string, string)>, nested: set<string>): (r: seq<RValue>)
    ensures |r| == 2 * |pairs|
    ensures forall i :: 0 <= i < |pairs| ==>
              r[2 * i] == Data(pairs[i].0)
              && r[2 * i + 1] == (if pairs[i].0 in nested then Bulk(HGetAll(db, pairs[i].1)) else Data(pairs[i].1))
  {
    if pairs == [] then []
    else
      var (f, v) := pairs[0];
      var rest := ExpandValues(db, pairs[1..], nested);
      var r := [Data(f), if f in nested then Bulk(HGetAll(db, v)) else Data(v)] + rest;
      ExpandShift(db, pairs, nested, rest, r);
      r
  }

  /** The expansion of the pairs after the first, behind the expanded first pair. */
  lemma {:induction false} ExpandShift(db: Db, pairs: seq<(string, string)>, nested: set<string>, rest: seq<RValue>,
                                       r: seq<RValue>)
    requires pairs != [] && |rest| == 2 * (|pairs| - 1)
    requires forall i :: 0 <= i < |pairs[1..]| ==>
               rest[2 * i] == Data(pairs[1..][i].0)
               && rest[2 * i + 1] == (if pairs[1..][i].0 in nested then Bulk(HGetAll(db, pairs[1..][i].1)) else Data(pairs[1..][i].1))
    requires r == [Data(pairs[0].0), if pairs[0].0 in nested then Bulk(HGetAll(db, pairs[0].1)) else Data(pairs[0].1)] + rest
    ensures forall i :: 0 <= i < |pairs| ==>
              r[2 * i] == Data(pairs[i].0)
              && r[2 * i + 1] == (if pairs[i].0 in nested then Bulk(HGetAll(db, pairs[i].1)) else Data(pairs[i].1))
  {
    forall i | 1 <= i < |pairs|
      ensures r[2 * i] == Data(pairs[i].0)
      ensures r[2 * i + 1] == (if pairs[i].0 in nested then Bulk(HGetAll(db, pairs[i].1)) else Data(pairs[i].1))
    {
      var j := i - 1;
      assert 2 * i == 2 * j + 2;
      assert pairs[i] == pairs[1..][j];
    }
  }

  /** When no stored value is itself the name of a nested field, the loop as written expands
      exactly the values of the nested fields. */
  lemma AsWrittenExpandsValues(db: Db, pairs: seq<(string, string)>, nested: set<string>)
    requires forall i :: 0 <= i < |pairs| ==> pairs[i].1 !in nested
    ensures ExpandAsWritten(db, FlatPairs(pairs), nested, 0) == Some(ExpandValues(db, pairs, nested))
  {
    ExpandSuffix(db, [], pairs, nested);
    assert [] + FlatPairs(pairs) == FlatPairs(pairs);
    assert [] + ExpandValues(db, pairs, nested) == ExpandValues(db, pairs, nested);
  }

  lemma {:induction false} ExpandSuffix(db: Db, done: seq<RValue>, rest: seq<(string, string)>, nested: set<string>)
    requires forall i :: 0 <= i < |rest| ==> rest[i].1 !in nested
    ensures ExpandAsWritten(db, done + FlatPairs(rest), nested, |done|) == Some(done + ExpandValues(db, rest, nested))
    decreases |rest|
  {
    if rest != [] {
      var (f, v) := rest[0];
      var done' := done + [Data(f), if f in nested then Bulk(HGetAll(db, v)) else Data(v)];
      ExpandSuffixStep(db, done, rest, nested);
      ExpandValuesCons(db, done, rest, nested);
      assert forall i :: 0 <= i < |rest[1..]| ==> rest[1..][i] == rest[i + 1];
      ExpandSuffix(db, done', rest[1..], nested);
    } else {
      assert done + FlatPairs(rest) == done;
      assert done + ExpandValues(db, rest, nested) == done;
    }
  }

  /** The first pair of `rest` moves from the unexpanded suffix to the expanded prefix. */
  lemma {:induction false} ExpandSuffixStep(db: Db, done: seq<RValue>, rest: seq<(string, string)>, nested: set<string>)
    requires rest != [] && rest[0].1 !in nested
    ensures var (f, v) := rest[0];
            var done' := done + [Data(f), if f in nested then Bulk(HGetAll(db, v)) else Data(v)];
            ExpandAsWritten(db, done + FlatPairs(rest), nested, |done|)
            == ExpandAsWritten(db, done' + FlatPairs(rest[1..]), nested, |done'|)
  {
    var (f, v) := rest[0];
    var tail := FlatPairs(rest[1..]);
    FlatPairsCons(rest);
    ExpandPairStep(db, done, f, v, tail, nested);
    assert done + FlatPairs(rest) == done + [Data(f), Data(v)] + tail;
  }

  lemma {:induction false} FlatPairsCons(pairs: seq<(string, string)>)
    requires pairs != []
    ensures FlatPairs(pairs) == [Data(pairs[0].0), Data(pairs[0].1)] + FlatPairs(pairs[1..])
  { }

  lemma {:induction false} ExpandValuesCons(db: Db, done: seq<RValue>, pairs: seq<(string, string)>, nested: set<string>)
    requires pairs != []
    ensures var (f, v) := pairs[0];
            done + [Data(f), if f in nested then Bulk(HGetAll(db, v)) else Data(v)] + ExpandValues(db, pairs[1..], nested)
            == done + ExpandValues(db, pairs, nested)
  {
    var (f, v) := pairs[0];
    var head := [Data(f), if f in nested then Bulk(HGetAll(db, v)) else Data(v)];
    assert ExpandValues(db, pairs, nested) == head + ExpandValues(db, pairs[1..], nested);
  }

  lemma {:induction false} ExpandPairStep(db: Db, done: seq<RValue>, f: string, v: string, tail: seq<RValue>, nested: set<string>)
    requires v !in nested
    ensures var x := if f in nested then Bulk(HGetAll(db, v)) else Data(v);
            ExpandAsWritten(db, done + [Data(f), Data(v)] + tail, nested, |done|)
            == ExpandAsWritten(db, done + [Data(f), x] + tail, nested, |done| + 2)
  {
    var parent := done + [Data(f), Data(v)] + tail;
    assert parent[|done|] == Data(f) && parent[|done| + 1] == Data(v);
    var x := if f in nested then Bulk(HGetAll(db, v)) else Data(v);
    var next := done + [Data(f), x] + tail;
    if f in nested {
      assert parent[|done| + 1 := x] == next;
      assert next[|done| + 1] == x && !x.Data?;
    } else {
      assert next == parent;
    }
  }

  /** A stored value equal to the name of a nested field makes the loop as written replace the
      NEXT FIELD NAME by a hash, and leave the nested field's own value unexpanded. */
  lemma ValueNamedLikeNestedFieldCorruptsEntity(db: Db)
    requires "author" !in db.hashes && "x" in db.hashes && db.hashes["x"] == [("name", "n")]
    ensures var pairs := [("title", "author"), ("author", "x")];
            ExpandAsWritten(db, FlatPairs(pairs), {"author"}, 0)
              == Some([Data("title"), Data("author"), Bulk([]), Data("x")])
            && ExpandValues(db, pairs, {"author"})
              == [Data("title"), Data("author"), Data("author"), Bulk([Data("name"), Data("n")])]
  {
    ExampleAsWritten(db);
    ExampleIntended(db);
  }

  /** The loop as written on the record `title = "author"`, `author = "x"`. */
  lemma ExampleAsWritten(db: Db)
    requires "author" !in db.hashes
    ensures ExpandAsWritten(db, FlatPairs([("title", "author"), ("author", "x")]), {"author"}, 0)
            == Some([Data("title"), Data("author"), Bulk([]), Data("x")])
  {
    var flat := FlatPairs([("title", "author"), ("author", "x")]);
    assert flat == [Data("title"), Data("author"), Data("author"), Data("x")];
    assert HGetAll(db, "author") == [];
    var step := flat[2 := Bulk([])];
    assert step == [Data("title"), Data("author"), Bulk([]), Data("x")];
    assert ExpandAsWritten(db, step, {"author"}, 4) == Some(step);
    assert ExpandAsWritten(db, flat, {"author"}, 0) == ExpandAsWritten(db, flat, {"author"}, 1);
    assert ExpandAsWritten(db, flat, {"author"}, 1) == ExpandAsWritten(db, step, {"author"}, 2);
    assert ExpandAsWritten(db, step, {"author"}, 2) == ExpandAsWritten(db, step, {"author"}, 3);
    assert ExpandAsWritten(db, step, {"author"}, 3) == ExpandAsWritten(db, step, {"author"}, 4);
  }

  /** The intended expansion of the same record. */
  lemma ExampleIntended(db: Db)
    requires "x" in db.hashes && db.hashes["x"] == [("name", "n")]
    ensures ExpandValues(db, [("title", "author"), ("author", "x")], {"author"})
            == [Data("title"), Data("author"), Data("author"), Bulk([Data("name"), Data("n")])]
  {
    assert FlatPairs(db.hashes["x"]) == [Data("name"), Data("n")];
    var pairs := [("title", "author"), ("author", "x")];
    var ev := ExpandValues(db, pairs, {"author"});
    assert pairs[1].0 in {"author"};
    assert ev[2 * 1 + 1] == Bulk(HGetAll(db, pairs[1].1));
  }

  // ---- the four scripts ----

  /** SELECT_ALL_FIELDS_FOR_SOME_IDS as written: every KEYS entry's hash, expanded by the loop
      as written; the script raises when any expansion does. */
  function SelectAllFieldsForSomeIdsAsWritten(db: Db, keys: seq<string>, argv: seq<string>): (r: Option<seq<RValue>>)
    ensures r.Some? <==> forall j :: 0 <= j < |keys| ==> ExpandAsWritten(db, HGetAll(db, keys[j]), set k | k in argv, 0).Some?
    ensures r.Some? ==> |r.value| == |keys|
    ensures r.Some? ==> forall j :: 0 <= j < |keys| ==>
              r.value[j] == Bulk(ExpandAsWritten(db, HGetAll(db, keys[j]), set k | k in argv, 0).value)
  {
    var nested := set k | k in argv;
    ExpandEach(db, keys, nested)
  }

  function ExpandEach(db: Db, keys: seq<string>, nested: set<string>): (r: Option<seq<RValue>>)
    ensures r.Some? <==> forall j :: 0 <= j < |keys| ==> ExpandAsWritten(db, HGetAll(db, keys[j]), nested, 0).Some?
    ensures r.Some? ==> |r.value| == |keys|
    ensures r.Some? ==> forall j :: 0 <= j < |keys| ==>
              r.value[j] == Bulk(ExpandAsWritten(db, HGetAll(db, keys[j]), nested, 0).value)
  {
    ForEachKey(k => ExpandAsWritten(db, HGetAll(db, k), nested, 0), keys)
  }

  /** The loop `for _, key in ... do ... table.insert(result, entity) end` of the scripts: one
      entity per key, in order; the script raises as soon as one entity does. */
  function ForEachKey(entity: string -> Option<seq<RValue>>, keys: seq<string>): (r: Option<seq<RValue>>)
    ensures r.Some? <==> forall j :: 0 <= j < |keys| ==> entity(keys[j]).Some?
    ensures r.Some? ==> |r.value| == |keys|
    ensures r.Some? ==> forall j :: 0 <= j < |keys| ==> r.value[j] == Bulk(entity(keys[j]).value)
  {
    if keys == [] then Some([])
    else
      var rest := ForEachKey(entity, keys[1..]);
      assert forall j :: 1 <= j < |keys| ==> keys[j] == keys[1..][j - 1];
      match entity(keys[0])
      case None => None
      case Some(e) =>
        match rest
        case None => None
        case Some(es) => Some([Bulk(e)] + es)
  }

  /** SELECT_ALL_FIELDS_FOR_ALL_IDS as written: the same expansion loop as the some-ids script,
      over the hash keys that SCAN MATCH ARGV[1] yields, ARGV[2..] naming the nested fields.
      Without ARGV[1] SCAN has no pattern and raises. */
  function SelectAllFieldsForAllIdsAsWritten(db: Db, argv: seq<string>): (r: Option<seq<RValue>>)
    ensures argv == [] ==> r.None?
    ensures argv != [] ==>
              var keys := MatchingHashKeys(db, argv[0]);
              && (r.Some? <==> forall j :: 0 <= j < |keys| ==> ExpandAsWritten(db, HGetAll(db, keys[j]), set k | k in argv[1..], 0).Some?)
              && (r.Some? ==> |r.value| == |keys|
                              && forall j :: 0 <= j < |keys| ==>
                                   r.value[j] == Bulk(ExpandAsWritten(db, HGetAll(db, keys[j]), set k | k in argv[1..], 0).value))
  {
    if argv == [] then None
    else SelectAllFieldsForSomeIdsAsWritten(db, MatchingHashKeys(db, argv[0]), argv[1..])
  }

  /** The fields the script would look up under `key`: its hash, or none when it is missing. */
  function StoredPairs(db: Db, key: string): (r: seq<(string, string)>)
    ensures key !in db.hashes ==> r == []
    ensures key in db.hashes ==> r == db.hashes[key]
  {
    if key in db.hashes then db.hashes[key] else []
  }

  /** No stored value under the given keys is the name of a nested field: the condition under
      which the expansion loop as written does what is intended. */
  predicate Clean(db: Db, keys: seq<string>, nested: set<string>)
  {
    forall j :: 0 <= j < |keys| ==> forall i :: 0 <= i < |StoredPairs(db, keys[j])| ==> StoredPairs(db, keys[j])[i].1 !in nested
  }

  /** The intended SELECT_ALL_FIELDS_FOR_SOME_IDS: one entity per KEYS entry, the values of the
      ARGV-named fields expanded; a missing key gives an empty entity. */
  function SelectAllFieldsForSomeIds(db: Db, keys: seq<string>, argv: seq<string>): (r: seq<RValue>)
    ensures |r| == |keys|
    ensures forall i :: 0 <= i < |keys| ==> keys[i] !in db.hashes ==> r[i] == Bulk([])
    ensures forall i :: 0 <= i < |keys| ==> r[i] == Bulk(ExpandValues(db, StoredPairs(db, keys[i]), set k | k in argv))
  {
    var nested := set k | k in argv;
    seq(|keys|, i requires 0 <= i < |keys| =>
      Bulk(if keys[i] in db.hashes then ExpandValues(db, db.hashes[keys[i]], nested) else []))
  }

  /** On keys whose stored values name no nested field, the some-ids script as written gives
      the intended entities. */
  lemma {:induction false} SomeIdsAsWrittenIntended(db: Db, keys: seq<string>, argv: seq<string>)
    requires Clean(db, keys, set k | k in argv)
    ensures SelectAllFieldsForSomeIdsAsWritten(db, keys, argv) == Some(SelectAllFieldsForSomeIds(db, keys, argv))
  {
    var nested := set k | k in argv;
    forall j | 0 <= j < |keys|
      ensures ExpandAsWritten(db, HGetAll(db, keys[j]), nested, 0) == Some(ExpandValues(db, StoredPairs(db, keys[j]), nested))
    {
      var pairs := StoredPairs(db, keys[j]);
      AsWrittenExpandsValues(db, pairs, nested);
      assert HGetAll(db, keys[j]) == FlatPairs(pairs);
    }
    var r := SelectAllFieldsForSomeIdsAsWritten(db, keys, argv);
    assert r.value == SelectAllFieldsForSomeIds(db, keys, argv);
  }

  /** The intended SELECT_ALL_FIELDS_FOR_ALL_IDS: like the some-ids script, over the hash keys
      that SCAN MATCH ARGV[1] yields; ARGV[2..] are the nested fields.  No pattern raises. */
  function SelectAllFieldsForAllIds(db: Db, argv: seq<string>): (r: Option<seq<RValue>>)
    ensures argv == [] <==> r.None?
    ensures r.Some? ==> r.value == SelectAllFieldsForSomeIds(db, MatchingHashKeys(db, argv[0]), argv[1..])
  {
    if argv == [] then None
    else Some(SelectAllFieldsForSomeIds(db, MatchingHashKeys(db, argv[0]), argv[1..]))
  }

  /** On a database whose matching hashes store no value named like a nested field, the
      all-ids script as written gives the intended entities. */
  lemma AllIdsAsWrittenIntended(db: Db, argv: seq<string>)
    requires argv != [] && Clean(db, MatchingHashKeys(db, argv[0]), set k | k in argv[1..])
    ensures SelectAllFieldsForAllIdsAsWritten(db, argv) == SelectAllFieldsForAllIds(db, argv)
  {
    SomeIdsAsWrittenIntended(db, MatchingHashKeys(db, argv[0]), argv[1..]);
  }

  /** The all-ids script as written has the same fault: over a collection whose one record
      stores a value spelled like the nested field, it replaces the record's next field name by
      a hash, where the intended script expands the nested field's value. */
  lemma AllIdsValueNamedLikeNestedFieldCorruptsEntity()
    ensures var db := Db(map["k" := [("title", "author"), ("author", "x")], "x" := [("name", "n")]], ["k", "x"]);
            var argv := ["k", "author"];
            && SelectAllFieldsForAllIdsAsWritten(db, argv)
               == Some([Bulk([Data("title"), Data("author"), Bulk([]), Data("x")])])
            && SelectAllFieldsForAllIds(db, argv)
               == Some([Bulk([Data("title"), Data("author"), Data("author"), Bulk([Data("name"), Data("n")])])])
  {
    var db := Db(map["k" := [("title", "author"), ("author", "x")], "x" := [("name", "n")]], ["k", "x"]);
    assert GlobMatch("k", "k") && !GlobMatch("k", "x");
    assert ScanFilter(db, ["x"], "k") == [];
    assert ["k", "x"][1..] == ["x"];
    assert ["k", "author"][1..] == ["author"];
    OneKeyCorruptedAsWritten(db, "k");
    OneKeyIntended(db, "k");
  }

  /** The script as written over the one key `k`, holding a value spelled like the nested
      field `author`. */
  lemma OneKeyCorruptedAsWritten(db: Db, k: string)
    requires "author" !in db.hashes
    requires k in db.hashes && db.hashes[k] == [("title", "author"), ("author", "x")]
    requires MatchingHashKeys(db, k) == [k]
    ensures SelectAllFieldsForAllIdsAsWritten(db, [k, "author"])
            == Some([Bulk([Data("title"), Data("author"), Bulk([]), Data("x")])])
  {
    var argv := [k, "author"];
    assert argv[1..] == ["author"];
    assert (set f | f in argv[1..]) == {"author"};
    ExampleAsWritten(db);
    assert HGetAll(db, k) == FlatPairs([("title", "author"), ("author", "x")]);
    var e := ExpandAsWritten(db, HGetAll(db, k), {"author"}, 0);
    assert e == Some([Data("title"), Data("author"), Bulk([]), Data("x")]);
    var written := SelectAllFieldsForSomeIdsAsWritten(db, [k], argv[1..]);
    assert written.Some? && |written.value| == 1 && written.value[0] == Bulk(e.value);
    assert written.value == [written.value[0]];
  }

  /** The intended script over the same key. */
  lemma OneKeyIntended(db: Db, k: string)
    requires "x" in db.hashes && db.hashes["x"] == [("name", "n")]
    requires k in db.hashes && db.hashes[k] == [("title", "author"), ("author", "x")]
    requires MatchingHashKeys(db, k) == [k]
    ensures SelectAllFieldsForAllIds(db, [k, "author"])
            == Some([Bulk([Data("title"), Data("author"), Data("author"), Bulk([Data("name"), Data("n")])])])
  {
    var argv := [k, "author"];
    assert argv[1..] == ["author"];
    assert (set f | f in argv[1..]) == {"author"};
    ExampleIntended(db);
    assert StoredPairs(db, k) == [("title", "author"), ("author", "x")];
    var intended := SelectAllFieldsForSomeIds(db, [k], argv[1..]);
    assert intended == [intended[0]];
  }

  /** The stored fields a list of columns asks for, in column order, each with its value. */
  function Requested(pairs: seq<(string, string)>, cols: seq<string>): (r: seq<(string, string)>)
    ensures |r| <= |cols|
    ensures forall i :: 0 <= i < |r| ==> r[i].0 in cols && HasKey(pairs, r[i].0) && Lookup(pairs, r[i].0) == Some(r[i].1)
    ensures forall c :: c in cols && HasKey(pairs, c) ==> exists i :: 0 <= i < |r| && r[i].0 == c
  {
    if cols == [] then []
    else
      var rest := Requested(pairs, cols[1..]);
      var r := if HasKey(pairs, cols[0]) then [(cols[0], Lookup(pairs, cols[0]).value)] + rest else rest;
      forall c | c in cols && HasKey(pairs, c) ensures exists i :: 0 <= i < |r| && r[i].0 == c {
        if c == cols[0] {
          assert r[0].0 == c;
        } else {
          assert c in cols[1..];
          var i :| 0 <= i < |rest| && rest[i].0 == c;
          if HasKey(pairs, cols[0]) { assert r[i + 1].0 == c; } else { assert r[i].0 == c; }
        }
      }
      r
  }

  /** Nothing is requested from an empty hash. */
  lemma {:induction false} RequestedOfNothing(cols: seq<string>)
    ensures Requested([], cols) == []
  {
    if cols != [] {
      RequestedOfNothing(cols[1..]);
    }
  }

  /** The loop of SELECT_SOME_FIELDS_FOR_SOME_IDS over one HMGET reply: the values that are not
      nil, each after its column name, nested columns expanded. */
  function KeepPresent(db: Db, cols: seq<string>, nested: set<string>, data: seq<RValue>): (r: seq<RValue>)
    requires |data| == |cols|
    ensures |r| % 2 == 0 && |r| <= 2 * |cols|
  {
    if cols == [] then []
    else
      var rest := KeepPresent(db, cols[1..], nested, data[1..]);
      if data[0].Nil? then rest
      else
        var v := if cols[0] in nested && data[0].Data? then Bulk(HGetAll(db, data[0].bytes)) else data[0];
        [Data(cols[0]), v] + rest
  }

  /** One entity of SELECT_SOME_FIELDS_FOR_SOME_IDS: HMGET of the columns, then the loop.  It is
      the intended expansion of the requested fields the hash holds: a missing field is left
      out, the others keep their column order, and nested columns are replaced by the hash
      their value names. */
  function SomeFieldsEntity(db: Db, key: string, cols: seq<string>, nested: set<string>): (r: seq<RValue>)
    ensures r == ExpandValues(db, Requested(StoredPairs(db, key), cols), nested)
  {
    KeepPresentRequested(db, key, cols, nested);
    KeepPresent(db, cols, nested, HMGet(db, key, cols))
  }

  lemma {:induction false} KeepPresentRequested(db: Db, key: string, cols: seq<string>, nested: set<string>)
    ensures KeepPresent(db, cols, nested, HMGet(db, key, cols)) == ExpandValues(db, Requested(StoredPairs(db, key), cols), nested)
  {
    if cols != [] {
      var data := HMGet(db, key, cols);
      assert data[1..] == HMGet(db, key, cols[1..]);
      KeepPresentRequested(db, key, cols[1..], nested);
      var pairs := StoredPairs(db, key);
      if HasKey(pairs, cols[0]) {
        var req := Requested(pairs, cols);
        assert req[0] == (cols[0], Lookup(pairs, cols[0]).value) && req[1..] == Requested(pairs, cols[1..]);
        ExpandValuesHead(db, req, nested);
      }
    }
  }

  lemma {:induction false} ExpandValuesHead(db: Db, pairs: seq<(string, string)>, nested: set<string>)
    requires pairs != []
    ensures ExpandValues(db, pairs, nested)
         == [Data(pairs[0].0), if pairs[0].0 in nested then Bulk(HGetAll(db, pairs[0].1)) else Data(pairs[0].1)]
            + ExpandValues(db, pairs[1..], nested)
  { }

  /** SELECT_SOME_FIELDS_FOR_SOME_IDS: columns and nested columns by the column rule over ARGV,
      one entity per KEYS entry; HMGET with no column at all raises. */
  function SelectSomeFieldsForSomeIds(db: Db, keys: seq<string>, argv: seq<string>): (r: Option<seq<RValue>>)
    ensures r.None? <==> (argv == [] && keys != [])
    ensures r.Some? ==> |r.value| == |keys|
    ensures r.Some? ==> forall i :: 0 <= i < |keys| ==>
              r.value[i] == Bulk(ExpandValues(db, Requested(StoredPairs(db, keys[i]), Columns(argv).0), Columns(argv).1))
  {
    var (cols, nested) := Columns(argv);
    assert cols == [] <==> argv == [] by {
      if argv != [] { assert argv[0] in argv; }
    }
    if cols == [] && keys != [] then None
    else Some(seq(|keys|, i requires 0 <= i < |keys| => Bulk(SomeFieldsEntity(db, keys[i], cols, nested))))
  }

  /** One entity of SELECT_SOME_FIELDS_FOR_ALL_IDS: every column name followed by its HMGET
      value, nil included; a nested column whose value is nil raises (HGETALL of false). */
  function AllIdsEntity(db: Db, cols: seq<string>, nested: set<string>, data: seq<RValue>): (r: Option<seq<RValue>>)
    requires |data| == |cols|
    ensures r.Some? <==> forall i :: 0 <= i < |cols| && cols[i] in nested ==> data[i].Data?
    ensures r.Some? ==> |r.value| == 2 * |cols|
    ensures r.Some? ==> forall i :: 0 <= i < |cols| ==>
              r.value[2 * i] == Data(cols[i])
              && r.value[2 * i + 1] == (if cols[i] in nested then Bulk(HGetAll(db, data[i].bytes)) else data[i])
  {
    if cols == [] then Some([])
    else
      var rest := AllIdsEntity(db, cols[1..], nested, data[1..]);
      assert forall i :: 1 <= i < |cols| ==> cols[i] == cols[1..][i - 1] && data[i] == data[1..][i - 1];
      match rest
      case None => None
      case Some(es) =>
        if cols[0] in nested && !data[0].Data? then None
        else
          var v := if cols[0] in nested then Bulk(HGetAll(db, data[0].bytes)) else data[0];
          AllIdsShift(db, cols, nested, data, es, v);
          Some([Data(cols[0]), v] + es)
  }

  lemma {:induction false} AllIdsShift(db: Db, cols: seq<string>, nested: set<string>, data: seq<RValue>, es: seq<RValue>, v: RValue)
    requires |data| == |cols| && cols != [] && |es| == 2 * (|cols| - 1)
    requires forall i :: 1 <= i < |cols| && cols[i] in nested ==> data[i].Data?
    requires forall i :: 0 <= i < |cols| - 1 ==>
               es[2 * i] == Data(cols[1..][i])
               && es[2 * i + 1] == (if cols[1..][i] in nested then Bulk(HGetAll(db, data[1..][i].bytes)) else data[1..][i])
    requires cols[0] in nested ==> data[0].Data?
    requires v == (if cols[0] in nested then Bulk(HGetAll(db, data[0].bytes)) else data[0])
    ensures forall i :: 0 <= i < |cols| ==>
              ([Data(cols[0]), v] + es)[2 * i] == Data(cols[i])
              && ([Data(cols[0]), v] + es)[2 * i + 1] == (if cols[i] in nested then Bulk(HGetAll(db, data[i].bytes)) else data[i])
  {
    var r := [Data(cols[0]), v] + es;
    forall i | 1 <= i < |cols|
      ensures r[2 * i] == Data(cols[i])
      ensures r[2 * i + 1] == (if cols[i] in nested then Bulk(HGetAll(db, data[i].bytes)) else data[i])
    {
      var j := i - 1;
      assert 2 * i == 2 * j + 2;
      assert cols[i] == cols[1..][j] && data[i] == data[1..][j];
    }
  }

  /** The entity SELECT_SOME_FIELDS_FOR_ALL_IDS builds for one key: HMGET of the columns, then
      every column with its value. */
  function KeyEntity(db: Db, cols: seq<string>, nested: set<string>, key: string): Option<seq<RValue>>
  {
    AllIdsEntity(db, cols, nested, HMGet(db, key, cols))
  }

  /** SELECT_SOME_FIELDS_FOR_ALL_IDS: ARGV[1] is the pattern and is not a column; the columns
      come from ARGV[2..] by the column rule.  It visits the hash keys SCAN MATCH yields, one
      entity per key; it raises without a pattern, with keys but no column, and when a nested
      column of some key is nil. */
  function SelectSomeFieldsForAllIds(db: Db, argv: seq<string>): (r: Option<seq<RValue>>)
    ensures argv == [] ==> r.None?
    ensures argv != [] ==>
              var cols := Columns(argv[1..]).0;
              var keys := MatchingHashKeys(db, argv[0]);
              && (r.Some? <==> (cols != [] || keys == [])
                               && forall j :: 0 <= j < |keys| ==> KeyEntity(db, cols, Columns(argv[1..]).1, keys[j]).Some?)
              && (r.Some? ==> |r.value| == |keys|
                              && forall j :: 0 <= j < |keys| ==>
                                   r.value[j] == Bulk(KeyEntity(db, cols, Columns(argv[1..]).1, keys[j]).value))
  {
    if argv == [] then None
    else
      var (cols, nested) := Columns(argv[1..]);
      var keys := MatchingHashKeys(db, argv[0]);
      if cols == [] && keys != [] then None
      else AllIdsEach(db, keys, cols, nested)
  }

  function AllIdsEach(db: Db, keys: seq<string>, cols: seq<string>, nested: set<string>): (r: Option<seq<RValue>>)
    ensures r.Some? <==> forall j :: 0 <= j < |keys| ==> KeyEntity(db, cols, nested, keys[j]).Some?
    ensures r.Some? ==> |r.value| == |keys|
    ensures r.Some? ==> forall j :: 0 <= j < |keys| ==> r.value[j] == Bulk(KeyEntity(db, cols, nested, keys[j]).value)
  {
    ForEachKey(k => KeyEntity(db, cols, nested, k), keys)
  }

  /** Nil columns: the some-ids script leaves a missing field out, the all-ids script keeps it
      as a nil value after its name. */
  lemma MissingFieldHandling(db: Db, key: string, col: string)
    requires key !in db.hashes
    ensures SelectSomeFieldsForSomeIds(db, [key], [col]) == Some([Bulk([])])
    ensures SomeFieldsEntity(db, key, [col], {}) == []
    ensures AllIdsEntity(db, [col], {}, HMGet(db, key, [col])) == Some([Data(col), Nil])
  {
    assert HMGet(db, key, [col]) == [Nil];
    assert [col][..0] == [] && [] + [col] == [col];
    assert Columns([col]) == ([col], {});
    assert [col][1..] == [] && HMGet(db, key, [col])[1..] == [];
    assert KeepPresent(db, [col], {}, [Nil]) == [];
    assert AllIdsEntity(db, [], {}, []) == Some([]);
    assert [Data(col), Nil] + [] == [Data(col), Nil];
    var r := SelectSomeFieldsForSomeIds(db, [key], [col]);
    assert r.Some? && |r.value| == 1 && r.value[0] == Bulk([]);
    assert r.value == [Bulk([])];
  }
}
