// Helpers shared by every module of the model: error-carrying results,
// the string operations the Rust code calls (trim, split, lower-case),
// decimal rendering and parsing of integers, and association lists that
// stand for hash maps together with the order in which they are iterated.

module Common {

  datatype Option<T> = None | Some(value: T)

  /** The exception classes the core raises, each with the detail text it gives.  The
      errors of the `py_key_error!(v, det)` and `py_value_error!(v, det)` macros keep the
      value and the detail they are built from; `Message` renders their text. */
  datatype Error =
    | KeyError(msg: string)
    | ValueError(msg: string)
    | TypeError(msg: string)
    | AttributeError(msg: string)
    | ConnectionError(msg: string)
    | RecursionError
      /** a Rust panic, which pyo3 raises as `PanicException` */
    | Panic(msg: string)
    | KeyErrorWith(key: string, detail: string)
    | ValueErrorWith(value: string, detail: string)

  datatype Result<T> = Ok(value: T) | Err(error: Error)
  {
    predicate IsFailure() { Err? }
    function PropagateFailure<U>(): Result<U> requires Err? { Err(error) }
    function Extract(): T requires Ok? { value }
  }

  /** Rust's `{:?}` rendering of a string: quoted, with quotes, backslashes and line breaks escaped. */
  function DebugStr(s: string): string
  {
    "\"" + DebugEscape(s) + "\""
  }

  function DebugEscape(s: string): string
  {
    if s == [] then []
    else
      var c := s[0];
      var e := if c == '"' then "\\\"" else if c == '\\' then "\\\\" else if c == '\n' then "\\n"
               else if c == '\r' then "\\r" else if c == '\t' then "\\t" else [c];
      e + DebugEscape(s[1..])
  }

  /** The text of an error.  The macros format the detail and the value with `{:?}`. */
  function Message(e: Error): string
  {
    match e
    case KeyErrorWith(v, det) => DebugStr(det) + " (key was " + DebugStr(v) + ")"
    case ValueErrorWith(v, det) => DebugStr(det) + " (value was " + DebugStr(v) + ")"
    case RecursionError => "maximum recursion depth exceeded"
    case Panic(m) => m
    case KeyError(m) => m
    case ValueError(m) => m
    case TypeError(m) => m
    case AttributeError(m) => m
    case ConnectionError(m) => m
  }

  /** The Python class of an error. */
  function ExceptionClass(e: Error): string
  {
    match e
    case KeyError(_) => "KeyError"
    case KeyErrorWith(_, _) => "KeyError"
    case ValueError(_) => "ValueError"
    case ValueErrorWith(_, _) => "ValueError"
    case TypeError(_) => "TypeError"
    case AttributeError(_) => "AttributeError"
    case ConnectionError(_) => "ConnectionError"
    case RecursionError => "RecursionError"
    case Panic(_) => "PanicException"
  }

  // ---------------------------------------------------------------------------
  // Characters and strings
  // ---------------------------------------------------------------------------

  /** Unicode White_Space, which is what Rust's `char::is_whitespace` tests. */
  predicate IsWhitespace(c: char)
  {
    ('\t' <= c <= '\r') || c == ' ' || c == '\U{85}' || c == '\U{A0}' || c == '\U{1680}'
    || ('\U{2000}' <= c <= '\U{200A}') || c == '\U{2028}' || c == '\U{2029}' || c == '\U{202F}'
    || c == '\U{205F}' || c == '\U{3000}'
  }

  predicate IsDigit(c: char) { '0' <= c <= '9' }

  function DigitValue(c: char): nat requires IsDigit(c) { c as int - '0' as int }

  predicate StartsWith(s: string, p: string) { |p| <= |s| && s[..|p|] == p }

  predicate EndsWith(s: string, p: string) { |p| <= |s| && s[|s| - |p|..] == p }

  /** ASCII lower-casing of one character. */
  function LowerChar(c: char): char
  {
    if 'A' <= c <= 'Z' then (c as int + 32) as char else c
  }

  /** Lower-casing of a string (the ASCII part of Rust `to_lowercase` and Python `lower`). */
  function Lower(s: string): (r: string)
    ensures |r| == |s| && forall i :: 0 <= i < |s| ==> r[i] == LowerChar(s[i])
  {
    if s == [] then [] else [LowerChar(s[0])] + Lower(s[1..])
  }

  /** `str::trim_start`: drops leading white space. */
  function TrimStart(s: string): (r: string)
    ensures r == [] || !IsWhitespace(r[0])
    ensures |r| <= |s| && r == s[|s| - |r|..]
  {
    if s != [] && IsWhitespace(s[0]) then TrimStart(s[1..]) else s
  }

  /** `str::trim_end`: drops trailing white space. */
  function TrimEnd(s: string): (r: string)
    ensures r == [] || !IsWhitespace(r[|r| - 1])
    ensures |r| <= |s| && r == s[..|r|]
  {
    if s != [] && IsWhitespace(s[|s| - 1]) then TrimEnd(s[..|s| - 1]) else s
  }

  /** `str::trim`: drops white space at both ends. */
  function Trim(s: string): (r: string)
    ensures r == [] || (!IsWhitespace(r[0]) && !IsWhitespace(r[|r| - 1]))
  {
    TrimEnd(TrimStart(s))
  }

  /** `str::trim_start_matches(p)`: drops every leading repetition of `p` (nothing when `p` is empty). */
  function TrimStartMatches(s: string, p: string): (r: string)
    ensures |r| <= |s| && r == s[|s| - |r|..]
    ensures p != [] ==> !StartsWith(r, p)
    decreases |s|
  {
    if p != [] && StartsWith(s, p) then TrimStartMatches(s[|p|..], p) else s
  }

  /** `str::trim_end_matches(p)`: drops every trailing repetition of `p` (nothing when `p` is empty). */
  function TrimEndMatches(s: string, p: string): (r: string)
    ensures |r| <= |s| && r == s[..|r|]
    ensures p != [] ==> !EndsWith(r, p)
    decreases |s|
  {
    if p != [] && EndsWith(s, p) then TrimEndMatches(s[..|s| - |p|], p) else s
  }

  /** Number of occurrences of `c` in `s`. */
  function Count(s: string, c: char): nat
  {
    if s == [] then 0 else (if s[0] == c then 1 else 0) + Count(s[1..], c)
  }

  /** `str::split(c)`: the pieces between occurrences of `c`; an empty string gives one empty piece. */
  function Split(s: string, c: char): (r: seq<string>)
    ensures |r| == Count(s, c) + 1
    ensures forall i :: 0 <= i < |r| ==> c !in r[i]
  {
    if s == [] then [[]]
    else
      var rest := Split(s[1..], c);
      if s[0] == c then [[]] + rest else [[s[0]] + rest[0]] + rest[1..]
  }

  /** Joins pieces with a separator (the inverse of Split). */
  function Join(parts: seq<string>, sep: string): string
  {
    if parts == [] then [] else if |parts| == 1 then parts[0] else parts[0] + sep + Join(parts[1..], sep)
  }

  /** Splitting undoes joining with the same separator character, when no piece contains it. */
  lemma {:induction false} SplitJoin(parts: seq<string>, c: char)
    requires parts != []
    requires forall i :: 0 <= i < |parts| ==> c !in parts[i]
    ensures Split(Join(parts, [c]), c) == parts
  {
    if |parts| == 1 {
      SplitNoSeparator(parts[0], c);
    } else {
      var rest := parts[1..];
      assert forall i :: 0 <= i < |rest| ==> rest[i] == parts[i + 1];
      SplitJoin(rest, c);
      assert Join(parts, [c]) == parts[0] + [c] + Join(rest, [c]);
      SplitAppend(parts[0], Join(rest, [c]), c);
      assert [parts[0]] + rest == parts;
    }
  }

  /** A string without the separator splits into itself. */
  lemma {:induction false} SplitNoSeparator(s: string, c: char)
    requires c !in s
    ensures Split(s, c) == [s]
  {
    if s != [] {
      assert s[0] != c && c !in s[1..];
      SplitNoSeparator(s[1..], c);
      assert [s[0]] + s[1..] == s;
    }
  }

  /** Splitting `a + [c] + b`, where `a` has no `c`, puts `a` in front of the pieces of `b`. */
  lemma {:induction false} SplitAppend(a: string, b: string, c: char)
    requires c !in a
    ensures Split(a + [c] + b, c) == [a] + Split(b, c)
  {
    if a == [] {
      assert a + [c] + b == [c] + b;
      assert ([c] + b)[1..] == b;
    } else {
      SplitAppend(a[1..], b, c);
      assert (a + [c] + b)[0] == a[0] != c;
      assert (a + [c] + b)[1..] == a[1..] + [c] + b;
      assert [a[0]] + a[1..] == a;
    }
  }

  /** Joining the pieces of a split gives back the string. */
  lemma {:induction false} JoinSplit(s: string, c: char)
    ensures Join(Split(s, c), [c]) == s
  {
    if s != [] {
      JoinSplit(s[1..], c);
      var rest := Split(s[1..], c);
      if s[0] == c {
        assert Join([[]] + rest, [c]) == [] + [c] + Join(rest, [c]);
        assert s == [c] + s[1..];
      } else {
        var r := [[s[0]] + rest[0]] + rest[1..];
        if |rest| == 1 {
          assert Join(r, [c]) == [s[0]] + rest[0];
        } else {
          assert Join(rest, [c]) == rest[0] + [c] + Join(rest[1..], [c]);
          assert r[1..] == rest[1..];
          assert Join(r, [c]) == [s[0]] + rest[0] + [c] + Join(rest[1..], [c]);
        }
        assert s == [s[0]] + s[1..];
      }
    }
  }

  /** The last piece of `s` split at `c`: what `rsplit(c).next()` returns. */
  function LastSegment(s: string, c: char): (r: string)
    ensures c !in r && EndsWith(s, r)
  {
    if c !in s then s
    else
      var i := LastIndexOf(s, c);
      s[i + 1..]
  }

  function LastIndexOf(s: string, c: char): (i: nat)
    requires c in s
    ensures i < |s| && s[i] == c && c !in s[i + 1..]
  {
    if s[|s| - 1] == c then |s| - 1 else LastIndexOf(s[..|s| - 1], c)
  }

  // ---------------------------------------------------------------------------
  // Decimal integers
  // ---------------------------------------------------------------------------

  const I64Min: int := -0x8000_0000_0000_0000
  const I64Max: int := 0x7FFF_FFFF_FFFF_FFFF

  predicate InI64(n: int) { I64Min <= n <= I64Max }

  predicate AllDigits(s: string) { forall i :: 0 <= i < |s| ==> IsDigit(s[i]) }

  /** The value of a string of decimal digits. */
  function DigitsValue(s: string): nat
    requires AllDigits(s)
  {
    if s == [] then 0 else DigitsValue(s[..|s| - 1]) * 10 + DigitValue(s[|s| - 1])
  }

  /** The shortest decimal digits of a natural number. */
  function NatToDigits(n: nat): (r: string)
    ensures r != [] && AllDigits(r)
    decreases n
  {
    if n < 10 then [('0' as int + n) as char] else NatToDigits(n / 10) + [('0' as int + n % 10) as char]
  }

  /** Decimal rendering of an integer, as Rust `to_string` and Python `str` give it. */
  function IntToString(n: int): (r: string)
    ensures r != []
  {
    if n < 0 then "-" + NatToDigits(-n) else NatToDigits(n)
  }

  lemma {:induction false} NatToDigitsValue(n: nat)
    ensures DigitsValue(NatToDigits(n)) == n
    decreases n
  {
    var r := NatToDigits(n);
    if n >= 10 {
      NatToDigitsValue(n / 10);
      assert r[..|r| - 1] == NatToDigits(n / 10);
    }
  }

  /** Rust `i64::from_str`: an optional sign, one or more ASCII digits, and a value in range. */
  function ParseI64(s: string): (r: Option<int>)
    ensures r.Some? ==> InI64(r.value)
  {
    if s == [] then None
    else
      var neg := s[0] == '-';
      var digits := if s[0] == '-' || s[0] == '+' then s[1..] else s;
      if digits == [] || !AllDigits(digits) then None
      else
        var d: int := DigitsValue(digits);
        var v := if neg then 0 - d else d;
        if InI64(v) then Some(v) else None
  }

  /** Parsing the rendering of any 64-bit integer gives the integer back. */
  lemma {:induction false} IntRoundTrip(n: int)
    requires InI64(n)
    ensures ParseI64(IntToString(n)) == Some(n)
  {
    var s := IntToString(n);
    if n < 0 {
      NatToDigitsValue(-n);
      assert s[0] == '-' && s[1..] == NatToDigits(-n);
    } else {
      NatToDigitsValue(n);
      assert IsDigit(s[0]);
    }
  }

  /** The text of a `usize`/`u64` argument: its decimal digits. */
  function NatToString(n: nat): (r: string)
    ensures r == IntToString(n)
  {
    NatToDigits(n)
  }

  // ---------------------------------------------------------------------------
  // Association lists: hash maps together with their iteration order
  // ---------------------------------------------------------------------------

  /** `k` is the key of some entry. */
  predicate HasKey<K(==), V>(a: seq<(K, V)>, k: K)
  {
    a != [] && (a[0].0 == k || HasKey(a[1..], k))
  }

  /** No key occurs twice, as in a hash map. */
  predicate UniqueKeys<K(==), V>(a: seq<(K, V)>)
  {
    a == [] || (!HasKey(a[1..], a[0].0) && UniqueKeys(a[1..]))
  }

  function KeysOf<K, V>(a: seq<(K, V)>): (r: seq<K>)
    ensures |r| == |a| && forall i :: 0 <= i < |a| ==> r[i] == a[i].0
  {
    if a == [] then [] else [a[0].0] + KeysOf(a[1..])
  }

  lemma {:induction false} HasKeyIndex<K, V>(a: seq<(K, V)>, k: K)
    ensures HasKey(a, k) <==> exists i :: 0 <= i < |a| && a[i].0 == k
  {
    if a != [] {
      HasKeyIndex(a[1..], k);
      if HasKey(a[1..], k) {
        var i :| 0 <= i < |a[1..]| && a[1..][i].0 == k;
        assert a[i + 1].0 == k;
      }
      if exists i :: 0 <= i < |a| && a[i].0 == k {
        var i :| 0 <= i < |a| && a[i].0 == k;
        if i > 0 { assert a[1..][i - 1].0 == k; }
      }
    }
  }

  /** The value stored under `k` (the first entry with that key). */
  function Lookup<K(==), V>(a: seq<(K, V)>, k: K): (r: Option<V>)
    ensures r.None? <==> !HasKey(a, k)
  {
    if a == [] then None
    else if a[0].0 == k then Some(a[0].1)
    else Lookup(a[1..], k)
  }

  /** The position of the first entry with key `k`. */
  function FindIndex<K(==), V>(a: seq<(K, V)>, k: K): (r: Option<nat>)
    ensures r.None? <==> !HasKey(a, k)
    ensures r.Some? ==> r.value < |a| && a[r.value].0 == k && Lookup(a, k) == Some(a[r.value].1)
  {
    if a == [] then None
    else if a[0].0 == k then Some(0)
    else match FindIndex(a[1..], k)
      case None => None
      case Some(i) => Some(i + 1)
  }

  /** `HashMap::insert`: a present key keeps its place and gets the new value; a new key goes last. */
  function Insert<K(==,!new), V>(a: seq<(K, V)>, k: K, v: V): (r: seq<(K, V)>)
    ensures Lookup(r, k) == Some(v)
    ensures forall k' :: HasKey(r, k') <==> k' == k || HasKey(a, k')
    ensures UniqueKeys(a) ==> UniqueKeys(r)
    ensures |r| == if HasKey(a, k) then |a| else |a| + 1
  {
    if a == [] then [(k, v)]
    else if a[0].0 == k then [(k, v)] + a[1..]
    else [a[0]] + Insert(a[1..], k, v)
  }

  /** Insert leaves every other key's value as it was. */
  lemma {:induction false} InsertOther<K(!new), V>(a: seq<(K, V)>, k: K, v: V, k': K)
    requires k' != k
    ensures Lookup(Insert(a, k, v), k') == Lookup(a, k')
  {
    if a != [] && a[0].0 != k {
      InsertOther(a[1..], k, v, k');
      assert Insert(a, k, v)[1..] == Insert(a[1..], k, v);
    }
  }

  /** `HashMap::remove`: drops the entry with key `k`, if any. */
  function Remove<K(==,!new), V>(a: seq<(K, V)>, k: K): (r: seq<(K, V)>)
    requires UniqueKeys(a)
    ensures forall k' :: HasKey(r, k') <==> k' != k && HasKey(a, k')
    ensures UniqueKeys(r)
    ensures |r| == if HasKey(a, k) then |a| - 1 else |a|
  {
    if a == [] then []
    else if a[0].0 == k then a[1..]
    else [a[0]] + Remove(a[1..], k)
  }

  /** Remove leaves every other key's value as it was. */
  lemma {:induction false} RemoveOther<K(!new), V>(a: seq<(K, V)>, k: K, k': K)
    requires UniqueKeys(a) && k' != k
    ensures Lookup(Remove(a, k), k') == Lookup(a, k')
  {
    if a != [] && a[0].0 != k {
      RemoveOther(a[1..], k, k');
      assert Remove(a, k)[1..] == Remove(a[1..], k);
    }
  }

  /** Appending an entry adds its key and leaves the earlier lookups alone. */
  lemma {:induction false} AppendEntry<K(!new), V>(a: seq<(K, V)>, k: K, v: V)
    ensures forall k' :: HasKey(a + [(k, v)], k') <==> HasKey(a, k') || k' == k
    ensures forall k' :: Lookup(a + [(k, v)], k') == if HasKey(a, k') then Lookup(a, k') else if k' == k then Some(v) else None
    ensures UniqueKeys(a) && !HasKey(a, k) ==> UniqueKeys(a + [(k, v)])
  {
    if a != [] {
      AppendEntry(a[1..], k, v);
      assert (a + [(k, v)])[1..] == a[1..] + [(k, v)];
    }
  }

  /** Different positions of a map without repeated keys hold different keys. */
  lemma {:induction false} UniqueKeysDistinct<K, V>(a: seq<(K, V)>, i: nat, j: nat)
    requires UniqueKeys(a) && i < j < |a|
    ensures a[i].0 != a[j].0
  {
    if i == 0 {
      HasKeyIndex(a[1..], a[0].0);
      assert a[1..][j - 1] == a[j];
    } else {
      UniqueKeysDistinct(a[1..], i - 1, j - 1);
    }
  }

  /** A key of a prefix of the entries. */
  lemma {:induction false} HasKeyPrefix<K(!new), V>(a: seq<(K, V)>, i: nat)
    requires i < |a|
    ensures forall k :: HasKey(a[..i + 1], k) <==> HasKey(a[..i], k) || k == a[i].0
  {
    assert a[..i + 1] == a[..i] + [a[i]];
    AppendEntry(a[..i], a[i].0, a[i].1);
  }
}
