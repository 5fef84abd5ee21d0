// The parsers of the first generation (`src/parsers.rs`): homogeneous tuples,
// lists and dicts read from their Python text form with the `FromStr` of their
// element types, and datetimes in the naive "YYYY-MM-DD HH:MM:SS.mmmmmm"
// format.  The text is cut into portions exactly as in the current code base.

module LegacyParsers {
  import opened Common
  import opened Values
  import opened SharedParsers

  /** Rust `FromStr` of an element type: the value, or none when the text does not parse. */
  type FromStr<T> = string -> Option<T>

  /** The portions of the text of a tuple, a list and a dict. */
  function TuplePortions(value: string): seq<string> { ExtractStrPortions(value, "(", ")", ',') }
  function ListPortions(value: string): seq<string> { ExtractStrPortions(value, "[", "]", ',') }
  function DictPortions(value: string): seq<string> { ExtractStrPortions(value, "{", "}", ',') }

  const TupleError: Error := TypeError("typing.Tuple fields can only have one type.")

  /** Every portion parsed, in order; a portion that does not parse fails the whole sequence
      with `err`. */
  function ParseAll<T>(parse: FromStr<T>, items: seq<string>, err: Error): (r: Result<seq<T>>)
    ensures r.Ok? <==> forall i :: 0 <= i < |items| ==> parse(items[i]).Some?
    ensures r.Ok? ==> |r.value| == |items| && forall i :: 0 <= i < |items| ==> Some(r.value[i]) == parse(items[i])
    ensures r.Err? ==> r.error == err
  {
    if items == [] then Ok([])
    else
      var init := items[..|items| - 1];
      assert forall i :: 0 <= i < |init| ==> init[i] == items[i];
      var prefix :- ParseAll(parse, init, err);
      match parse(items[|items| - 1])
      case None => Err(err)
      case Some(x) => Ok(prefix + [x])
  }

  /** Once a prefix fails, the whole sequence fails. */
  lemma {:induction false} ParseAllErrorPersists<T>(parse: FromStr<T>, items: seq<string>, n: nat, err: Error)
    requires n <= |items| && ParseAll(parse, items[..n], err).Err?
    ensures ParseAll(parse, items, err) == Err(err)
    decreases |items| - n
  {
    if n == |items| {
      assert items[..n] == items;
    } else {
      assert items[..n + 1][..n] == items[..n];
      ParseAllErrorPersists(parse, items, n + 1, err);
    }
  }

  /** The loop of the parsers: the portions visited in order, stopping at the first that does not parse. */
  method ParseItems<T>(parse: FromStr<T>, items: seq<string>, err: Error) returns (r: Result<seq<T>>)
    ensures r == ParseAll(parse, items, err)
  {
    var v: seq<T> := [];
    for i := 0 to |items|
      invariant ParseAll(parse, items[..i], err) == Ok(v)
    {
      var parsed := parse(items[i]);
      assert items[..i + 1][..i] == items[..i];
      if parsed.None? {
        ParseAllErrorPersists(parse, items, i + 1, err);
        return Err(err);
      }
      v := v + [parsed.value];
    }
    assert items[..|items|] == items;
    return Ok(v);
  }

  /** `parse_tuple::<T>`: every `(...)` portion parsed, in order; any portion that does not
      parse fails the whole tuple (see `ParseAll`). */
  method ParseTuple<T>(parse: FromStr<T>, value: string) returns (r: Result<seq<T>>)
    ensures r == ParseAll(parse, TuplePortions(value), TupleError)
  {
    r := ParseItems(parse, TuplePortions(value), TupleError);
  }

  /** The error of a list whose text does not parse as a list of `typeName`. */
  function ListError(value: string, typeName: string): Error
  {
    TypeError("failed to parse " + value + " to List of " + typeName)
  }

  /** `parse_list::<T>`: every `[...]` portion parsed, in order; the first portion that does not
      parse fails the whole list (see `ParseAll`).  `typeName` is Rust's `type_name::<T>()`. */
  method ParseList<T>(parse: FromStr<T>, typeName: string, value: string) returns (r: Result<seq<T>>)
    ensures r == ParseAll(parse, ListPortions(value), ListError(value, typeName))
  {
    r := ParseItems(parse, ListPortions(value), ListError(value, typeName));
  }

  /** The text `"[]"` holds one empty portion. */
  lemma EmptyListPortions()
    ensures ListPortions("[]") == [""]
  {
    EmptyBracketsGiveOneEmptyPortion('[', ']', ',');
  }

  /** One empty portion: it is no integer, and it is the empty string. */
  lemma OneEmptyPortion(items: seq<string>, err: Error)
    requires items == [""]
    ensures ParseAll(ParseI64, items, err) == Err(err)
    ensures ParseAll(StrFromStr, items, err) == Ok([""])
  {
    assert items[..0] == [];
    assert items[0] == "" && ParseI64("") == None;
    assert ParseAll(StrFromStr, items[..0], err) == Ok([]);
    assert StrFromStr(items[0]) == Some("");
    assert [] + [""] == [""];
  }

  /** `String::from_str`: every text parses. */
  function StrFromStr(s: string): (r: Option<string>)
    ensures r == Some(s)
  {
    Some(s)
  }

  /** `"[]"` holds one empty portion: as a list of integers it does not parse, as a list of
      strings it is `[""]`. */
  method ParseEmptyList() returns (ints: Result<seq<int>>, strs: Result<seq<string>>)
    ensures ints == Err(ListError("[]", "i64"))
    ensures strs == Ok([""])
  {
    EmptyListPortions();
    OneEmptyPortion(ListPortions("[]"), ListError("[]", "i64"));
    OneEmptyPortion(ListPortions("[]"), ListError("[]", "alloc::string::String"));
    ints := ParseList(ParseI64, "i64", "[]");
    strs := ParseList(StrFromStr, "alloc::string::String", "[]");
  }

  // ---------------------------------------------------------------------------
  // parse_dict
  // ---------------------------------------------------------------------------

  /** The `key:value` portions of one dict item. */
  function ItemPortions(item: string): seq<string>
  {
    ExtractStrPortions(item, "", "", ':')
  }

  /** What `parse_dict::<K, V>` is instantiated with: the `FromStr` of the key and of the value
      type, their `type_name`s, and the cutting of one item into its `key:value` portions
      (`ItemPortions`; kept as a field so that the proofs below do not depend on how it cuts). */
  datatype DictParser<K, V> = DictParser(key: FromStr<K>, value: FromStr<V>, keyType: string, valueType: string,
                                         split: string -> seq<string>)

  /** The dict of the first `n` items: the items that have exactly two portions, their key and
      their value parsed; a later key overwrites an earlier one.  The key's error shows the
      value portion, as the source formats it. */
  function DictOf<K(==,!new), V>(p: DictParser<K, V>, items: seq<string>, n: nat): (r: Result<seq<(K, V)>>)
    requires n <= |items|
    ensures DictRead(p, items, n, r)
  {
    if n == 0 then Ok([])
    else
      var prev := DictOf(p, items, n - 1);
      AddItemRead(p, items, n, prev);
      AddItem(p, items[n - 1], prev)
  }

  /** One more item added to the dict read so far (or its error kept). */
  function AddItem<K(==,!new), V>(p: DictParser<K, V>, item: string, prev: Result<seq<(K, V)>>): Result<seq<(K, V)>>
  {
    var m :- prev;
    var kv := p.split(item);
    if |kv| != 2 then Ok(m)
    else match p.key(kv[0])
      case None => Err(TypeError("failed to parse key " + kv[1] + " to type of " + p.keyType))
      case Some(k) =>
        match p.value(kv[1])
        case None => Err(TypeError("failed to parse value " + kv[1] + " to type of " + p.valueType))
        case Some(v) => Ok(Insert(m, k, v))
  }

  /** What a read of the first `n` items gives: it succeeds exactly when every two-portion item
      among them parses; it then holds, once each, the keys of those items, and for each key the
      value of the last item that names it. */
  ghost predicate DictRead<K(!new), V>(p: DictParser<K, V>, items: seq<string>, n: nat, r: Result<seq<(K, V)>>)
    requires n <= |items|
  {
    && (r.Ok? <==> forall i :: 0 <= i < n ==> ItemParses(p, items, i))
    && (r.Ok? ==> UniqueKeys(r.value))
    && (r.Ok? ==> forall k :: HasKey(r.value, k) <==>
                    exists i :: 0 <= i < n && ParsedPair(p, items, i) && PairKey(p, items, i) == k)
    && (r.Ok? ==> forall i :: 0 <= i < n && ParsedPair(p, items, i) &&
                    (forall j :: i < j < n && ParsedPair(p, items, j) ==> PairKey(p, items, j) != PairKey(p, items, i))
                    ==> Lookup(r.value, PairKey(p, items, i)) == Some(PairValue(p, items, i)))
  }

  /** Adding item `n - 1` to a read of the items before it gives a read of the first `n`. */
  lemma AddItemRead<K(!new), V>(p: DictParser<K, V>, items: seq<string>, n: nat, prev: Result<seq<(K, V)>>)
    requires 0 < n <= |items| && DictRead(p, items, n - 1, prev)
    ensures DictRead(p, items, n, AddItem(p, items[n - 1], prev))
  {
    var r := AddItem(p, items[n - 1], prev);
    assert r.Ok? <==> prev.Ok? && ItemParses(p, items, n - 1);
    if prev.Ok? && r.Ok? && ParsedPair(p, items, n - 1) {
      var k := PairKey(p, items, n - 1);
      var x := PairValue(p, items, n - 1);
      assert r.value == Insert(prev.value, k, x);
      forall k' | k' != k ensures Lookup(r.value, k') == Lookup(prev.value, k') && (HasKey(r.value, k') <==> HasKey(prev.value, k')) {
        InsertOther(prev.value, k, x, k');
      }
    }
  }

  /** The loop of `parse_dict`: the items visited in order, stopping at the first error. */
  method ParseDictItems<K(==,!new), V>(p: DictParser<K, V>, items: seq<string>) returns (r: Result<seq<(K, V)>>)
    ensures r == DictOf(p, items, |items|)
  {
    var v: seq<(K, V)> := [];
    for i := 0 to |items|
      invariant DictOf(p, items, i) == Ok(v)
    {
      var kv := p.split(items[i]);
      DictOfStep(p, items, i, v);
      if |kv| == 2 {
        var key := p.key(kv[0]);
        if key.None? {
          r := Err(TypeError("failed to parse key " + kv[1] + " to type of " + p.keyType));
          DictErrorPersists(p, items, i + 1, |items|);
          return;
        }
        var val := p.value(kv[1]);
        if val.None? {
          r := Err(TypeError("failed to parse value " + kv[1] + " to type of " + p.valueType));
          DictErrorPersists(p, items, i + 1, |items|);
          return;
        }
        v := Insert(v, key.value, val.value);
      }
    }
    return Ok(v);
  }

  /** `parse_dict::<K, V>`: the items of the `{...}` text, each cut at `:`. */
  method ParseDict<K(==,!new), V>(pk: FromStr<K>, pv: FromStr<V>, keyType: string, valueType: string,
                              value: string) returns (r: Result<seq<(K, V)>>)
    ensures var items := DictPortions(value);
            r == DictOf(DictParser(pk, pv, keyType, valueType, ItemPortions), items, |items|)
  {
    r := ParseDictItems(DictParser(pk, pv, keyType, valueType, ItemPortions), DictPortions(value));
  }

  /** One more item, given the map of the items before it. */
  lemma {:induction false} DictOfStep<K(!new), V>(p: DictParser<K, V>, items: seq<string>, i: nat, m: seq<(K, V)>)
    requires i < |items| && DictOf(p, items, i) == Ok(m)
    ensures var kv := p.split(items[i]);
            DictOf(p, items, i + 1)
            == if |kv| != 2 then Ok(m)
               else if p.key(kv[0]).None? then Err(TypeError("failed to parse key " + kv[1] + " to type of " + p.keyType))
               else if p.value(kv[1]).None? then Err(TypeError("failed to parse value " + kv[1] + " to type of " + p.valueType))
               else Ok(Insert(m, p.key(kv[0]).value, p.value(kv[1]).value))
  { }

  lemma {:induction false} DictErrorPersists<K(!new), V>(p: DictParser<K, V>, items: seq<string>, i: nat, j: nat)
    requires i <= j <= |items| && DictOf(p, items, i).Err?
    ensures DictOf(p, items, j) == DictOf(p, items, i)
    decreases j - i
  {
    if i < j {
      DictErrorPersists(p, items, i, j - 1);
    }
  }

  /** Item `i` has a key and a value that both parse. */
  predicate ParsedPair<K, V>(p: DictParser<K, V>, items: seq<string>, i: int)
    requires 0 <= i < |items|
  {
    var kv := p.split(items[i]);
    |kv| == 2 && p.key(kv[0]).Some? && p.value(kv[1]).Some?
  }

  /** Item `i` is not a key and a value, or both parse. */
  predicate ItemParses<K, V>(p: DictParser<K, V>, items: seq<string>, i: int)
    requires 0 <= i < |items|
  {
    |p.split(items[i])| == 2 ==> ParsedPair(p, items, i)
  }

  /** The key item `i` stands for. */
  function PairKey<K, V>(p: DictParser<K, V>, items: seq<string>, i: int): K
    requires 0 <= i < |items| && ParsedPair(p, items, i)
  {
    p.key(p.split(items[i])[0]).value
  }

  /** The value item `i` stands for. */
  function PairValue<K, V>(p: DictParser<K, V>, items: seq<string>, i: int): V
    requires 0 <= i < |items| && ParsedPair(p, items, i)
  {
    p.value(p.split(items[i])[1]).value
  }

  // ---------------------------------------------------------------------------
  // Dates and datetimes
  // ---------------------------------------------------------------------------

  /** `parse_datetime_to_timestamp`: chrono's parse of the naive format, or a ValueError. */
  function ParseDatetimeToTimestamp(h: Host, s: string): (r: Result<int>)
    ensures r.Ok? <==> h.parseNaiveDatetime(s).Some?
    ensures r.Ok? ==> r.value == h.parseNaiveDatetime(s).value
    ensures r.Err? ==> r.error == ValueError("error parsing " + s + " as 'YYYY-MM-DD HH:MM:SS.mmmmmm'")
  {
    match h.parseNaiveDatetime(s)
    case Some(ts) => Ok(ts)
    case None => Err(ValueError("error parsing " + s + " as 'YYYY-MM-DD HH:MM:SS.mmmmmm'"))
  }
}
