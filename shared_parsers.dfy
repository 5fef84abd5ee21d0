// The parsing helpers of the current code base: cutting the text form of a
// dict/list/tuple into portions, parsing scalars with Rust's `FromStr`,
// reading a `%Y-%m-%d` date as the timestamp of its midnight, and the
// conversions of Redis reply values that the redis crate performs.

module SharedParsers {
  import opened Common
  import opened Values

  // ---------------------------------------------------------------------------
  // extract_str_portions
  // ---------------------------------------------------------------------------

  /** One portion after splitting: white space trimmed, then trailing and leading `'` runs. */
  function StripPortion(p: string): (r: string)
    ensures r == [] || (r[0] != '\'' && r[|r| - 1] != '\'')
  {
    var t := TrimEndMatches(Trim(p), "'");
    var r := TrimStartMatches(t, "'");
    QuotesTrimmed(t, r);
    r
  }

  lemma {:induction false} QuotesTrimmed(t: string, r: string)
    requires r == TrimStartMatches(t, "'") && !EndsWith(t, "'")
    ensures r == [] || (r[0] != '\'' && r[|r| - 1] != '\'')
  {
    if r != [] {
      SuffixKeepsLast(t, r, '\'');
      assert r[..1] != "'";
    }
  }

  /** A non-empty suffix of `t` ends as `t` does. */
  lemma {:induction false} SuffixKeepsLast(t: string, r: string, c: char)
    requires r != [] && |r| <= |t| && r == t[|t| - |r|..] && !EndsWith(t, [c])
    ensures r[|r| - 1] != c
  {
    assert t[|t| - 1] == r[|r| - 1];
    assert t[|t| - 1..] == [t[|t| - 1]];
  }

  function StripAll(ps: seq<string>): (r: seq<string>)
    ensures |r| == |ps| && forall i :: 0 <= i < |ps| ==> r[i] == StripPortion(ps[i])
  {
    if ps == [] then [] else [StripPortion(ps[0])] + StripAll(ps[1..])
  }

  /** What is left of `value` once the leading `start` runs and trailing `end` runs are removed. */
  function Inner(value: string, start: string, end: string): (r: string)
    ensures |r| <= |value|
  {
    TrimEndMatches(TrimStartMatches(value, start), end)
  }

  /** `extract_str_portions(value, start, end, sep)`: the stripped pieces of the inner text. */
  function ExtractStrPortions(value: string, start: string, end: string, sep: char): (r: seq<string>)
    ensures |r| == Count(Inner(value, start, end), sep) + 1
    ensures forall i :: 0 <= i < |r| ==> sep !in r[i] || sep == '\''
  {
    var pieces := Split(Inner(value, start, end), sep);
    var r := StripAll(pieces);
    assert forall i :: 0 <= i < |r| ==> sep !in r[i] || sep == '\'' by {
      forall i | 0 <= i < |r| && sep != '\'' ensures sep !in r[i] {
        StripKeepsAbsence(pieces[i], sep);
      }
    }
    r
  }

  /** Stripping only removes characters, so a character absent before is absent after. */
  lemma StripKeepsAbsence(p: string, c: char)
    requires c !in p
    ensures c !in StripPortion(p)
  {
    var t0 := TrimStart(p);
    SliceKeepsAbsence(p, |p| - |t0|, |p|, c);
    var t1 := TrimEnd(t0);
    SliceKeepsAbsence(t0, 0, |t1|, c);
    var t2 := TrimEndMatches(t1, "'");
    SliceKeepsAbsence(t1, 0, |t2|, c);
    var t3 := TrimStartMatches(t2, "'");
    SliceKeepsAbsence(t2, |t2| - |t3|, |t2|, c);
  }

  lemma SliceKeepsAbsence(s: string, i: nat, j: nat, c: char)
    requires i <= j <= |s| && c !in s
    ensures c !in s[i..j]
  {
    forall k | 0 <= k < j - i ensures s[i..j][k] != c {
      assert s[i..j][k] == s[i + k];
    }
  }

  /** The portions of `"[]"` (or of any bracket pair with nothing inside) are one empty string. */
  lemma EmptyBracketsGiveOneEmptyPortion(open: char, close: char, sep: char)
    requires open != close
    ensures ExtractStrPortions([open, close], [open], [close], sep) == [""]
  {
    var s := [open, close];
    assert StartsWith(s, [open]);
    assert s[1..] == [close];
    assert [close][..1] == [close];
    assert TrimStartMatches([close], [open]) == [close];
    assert [close][1..] == [];
    assert Inner(s, [open], [close]) == [];
    assert StripPortion("") == "";
  }

  // ---------------------------------------------------------------------------
  // parse_str and the scalar parsers it stands for
  // ---------------------------------------------------------------------------

  /** Rust's `IntErrorKind`, as far as `i64::from_str` raises it. */
  datatype IntErrorKind = Empty | InvalidDigit | PosOverflow | NegOverflow

  /** The `Display` text of a `ParseIntError` of each kind. */
  function IntErrorText(kind: IntErrorKind): string
  {
    match kind
    case Empty => "cannot parse integer from empty string"
    case InvalidDigit => "invalid digit found in string"
    case PosOverflow => "number too large to fit in target type"
    case NegOverflow => "number too small to fit in target type"
  }

  /** The largest magnitude a value of the given sign may have. */
  function I64Limit(negative: bool): nat
  {
    if negative then -I64Min else I64Max
  }

  /** The length of the run of digits that starts `t`. */
  function DigitRun(t: string): (r: nat)
    ensures r <= |t| && AllDigits(t[..r])
    ensures r < |t| ==> !IsDigit(t[r])
  {
    if t == [] || !IsDigit(t[0]) then 0
    else
      var n := DigitRun(t[1..]);
      assert t[..n + 1] == [t[0]] + t[1..][..n];
      n + 1
  }

  /** The outcome of reading digits: the magnitude read, or the kind of error met. */
  datatype DigitScan = Scanned(magnitude: nat) | Stopped(kind: IntErrorKind)

  /** The checked loop of `from_str_radix` from position `k` on, the value of `digits[..k]`
      already read: a non-digit stops it with `InvalidDigit`, a digit that takes the value past
      the limit of the sign with the overflow of that sign. */
  function ScanDigits(digits: string, negative: bool, k: nat): DigitScan
    requires k <= |digits| && AllDigits(digits[..k]) && DigitsValue(digits[..k]) <= I64Limit(negative)
    decreases |digits| - k
  {
    if k == |digits| then Scanned(DigitsValue(digits[..k]))
    else if !IsDigit(digits[k]) then Stopped(InvalidDigit)
    else
      assert digits[..k + 1][..k] == digits[..k];
      if DigitsValue(digits[..k + 1]) > I64Limit(negative) then Stopped(if negative then NegOverflow else PosOverflow)
      else ScanDigits(digits, negative, k + 1)
  }

  /** The error `i64::from_str` gives for a text it refuses: the empty text, a missing digit, the
      overflow of the sign when the digits before the first non-digit already leave the range,
      and otherwise the invalid digit. */
  function I64ErrorKind(s: string): IntErrorKind
  {
    if s == [] then Empty
    else
      var negative := s[0] == '-';
      var digits := if s[0] == '-' || s[0] == '+' then s[1..] else s;
      var run := digits[..DigitRun(digits)];
      if DigitsValue(run) > I64Limit(negative) then (if negative then NegOverflow else PosOverflow)
      else InvalidDigit
  }

  /** A longer prefix of a digit run has a value at least as large. */
  lemma {:induction false} DigitsPrefixMonotone(t: string, j: nat, m: nat)
    requires j <= m <= |t| && AllDigits(t[..m])
    ensures AllDigits(t[..j]) && DigitsValue(t[..j]) <= DigitsValue(t[..m])
    decreases m - j
  {
    assert t[..m][..j] == t[..j];
    if j < m {
      assert t[..m][..m - 1] == t[..m - 1];
      DigitsPrefixMonotone(t, j, m - 1);
    }
  }

  /** The scan stops exactly where the leading digit run decides: at its overflow, else at the
      non-digit after it, else it reads the whole text. */
  lemma {:induction false} ScanDigitsRule(digits: string, negative: bool, k: nat)
    requires k <= |digits| && AllDigits(digits[..k]) && DigitsValue(digits[..k]) <= I64Limit(negative)
    requires k <= DigitRun(digits)
    ensures var n := DigitRun(digits);
            ScanDigits(digits, negative, k) ==
              if DigitsValue(digits[..n]) > I64Limit(negative) then Stopped(if negative then NegOverflow else PosOverflow)
              else if n < |digits| then Stopped(InvalidDigit)
              else Scanned(DigitsValue(digits[..n]))
    decreases |digits| - k
  {
    var n := DigitRun(digits);
    assert forall i :: 0 <= i < n ==> IsDigit(digits[..n][i]);
    if k == |digits| {
    } else if !IsDigit(digits[k]) {
    } else {
      assert digits[..k + 1][..k] == digits[..k];
      DigitsPrefixMonotone(digits, k + 1, n);
      if DigitsValue(digits[..k + 1]) <= I64Limit(negative) {
        ScanDigitsRule(digits, negative, k + 1);
      }
    }
  }

  /** `str::parse::<i64>` (`from_str_radix`): the sign, then the checked digit loop, with the
      text of its error. */
  function ParseI64Str(s: string): (r: Result<int>)
    ensures r.Ok? <==> ParseI64(s).Some?
    ensures r.Ok? ==> r.value == ParseI64(s).value
    ensures r.Err? ==> r.error == ValueError(IntErrorText(I64ErrorKind(s)))
  {
    if s == [] then Err(ValueError(IntErrorText(Empty)))
    else
      var negative := s[0] == '-';
      var digits := if s[0] == '-' || s[0] == '+' then s[1..] else s;
      if digits == [] then Err(ValueError(IntErrorText(InvalidDigit)))
      else
        ScanDigitsRule(digits, negative, 0);
        assert digits[..|digits|] == digits;
        assert DigitRun(digits) < |digits| ==> !IsDigit(digits[DigitRun(digits)]);
        match ScanDigits(digits, negative, 0)
        case Stopped(kind) => Err(ValueError(IntErrorText(kind)))
        case Scanned(m) => Ok(if negative then 0 - m else m)
  }

  lemma {:induction false} Pow10Sum(j: nat, k: nat)
    ensures Pow10(j + k) == Pow10(j) * Pow10(k)
    decreases k
  {
    if k > 0 {
      Pow10Sum(j, k - 1);
      assert Pow10(j + k) == 10 * Pow10(j + k - 1);
    }
  }

  /** A run of nines is one less than the next power of ten. */
  lemma {:induction false} NinesValue(u: string)
    requires forall i :: 0 <= i < |u| ==> u[i] == '9'
    ensures AllDigits(u) && DigitsValue(u) == Pow10(|u|) - 1
  {
    if u != [] {
      NinesValue(u[..|u| - 1]);
    }
  }

  /** Twenty nines overflow before the loop reaches the non-digit after them (as in
      `"99999999999999999999x"`), so the overflow, not the invalid digit, is reported; with the
      minus sign it is the negative one. */
  lemma OverflowBeforeInvalidDigit(t: string)
    requires |t| > 20 && (forall i :: 0 <= i < 20 ==> t[i] == '9') && !IsDigit(t[20])
    ensures ParseI64Str(t) == Err(ValueError("number too large to fit in target type"))
    ensures ParseI64Str("-" + t) == Err(ValueError("number too small to fit in target type"))
  {
    assert DigitRun(t) == 20;
    NinesValue(t[..20]);
    Pow10Sum(10, 10);
    Pow10Sum(5, 5);
    assert Pow10(5) == 100_000;
    assert I64ErrorKind(t) == PosOverflow;
    assert ("-" + t)[1..] == t;
    assert I64ErrorKind("-" + t) == NegOverflow;
    assert !AllDigits(t);
  }

  /** `str::parse::<bool>`: exactly "true" or "false". */
  function ParseBoolStr(s: string): (r: Result<bool>)
    ensures r.Ok? <==> (s == "true" || s == "false")
    ensures r.Ok? ==> (r.value <==> s == "true")
    ensures r.Err? ==> r.error == ValueError("provided string was not `true` or `false`")
  {
    if s == "true" then Ok(true)
    else if s == "false" then Ok(false)
    else Err(ValueError("provided string was not `true` or `false`"))
  }

  /** `str::parse::<f64>`; the float is kept by its text. */
  function ParseF64Str(h: Host, s: string): (r: Result<PyObj>)
    ensures r.Ok? <==> h.isFloat(s)
    ensures r.Ok? ==> r.value == PyFloat(s)
    ensures s == [] && r.Err? ==> r.error == ValueError("cannot parse float from empty string")
    ensures s != [] && r.Err? ==> r.error == ValueError("invalid float literal")
  {
    if h.isFloat(s) then Ok(PyFloat(s))
    else if s == [] then Err(ValueError("cannot parse float from empty string"))
    else Err(ValueError("invalid float literal"))
  }

  // ---------------------------------------------------------------------------
  // Dates and datetimes
  // ---------------------------------------------------------------------------

  predicate IsLeapYear(y: int) { y % 4 == 0 && (y % 100 != 0 || y % 400 == 0) }

  function DaysInMonth(y: int, m: int): int
    requires 1 <= m <= 12
  {
    if m == 2 then (if IsLeapYear(y) then 29 else 28)
    else if m == 4 || m == 6 || m == 9 || m == 11 then 30
    else 31
  }

  predicate ValidDate(y: int, m: int, d: int) { 1 <= m <= 12 && 1 <= d <= DaysInMonth(y, m) }

  /** Days from 1970-01-01 to the given proleptic Gregorian date. */
  function DaysFromCivil(y: int, m: int, d: int): int
    requires ValidDate(y, m, d)
  {
    var y1 := if m <= 2 then y - 1 else y;
    var era := y1 / 400;
    var yoe := y1 - era * 400;
    var mp := if m > 2 then m - 3 else m + 9;
    var doy := (153 * mp + 2) / 5 + d - 1;
    var doe := yoe * 365 + yoe / 4 - yoe / 100 + doy;
    era * 146097 + doe - 719468
  }

  /** The three `-`-separated fields of a `%Y-%m-%d` text: a year of one to four digits, a month
      and a day of one or two digits each, naming a real calendar date. */
  function DateFields(s: string): (r: Option<(int, int, int)>)
    ensures r.Some? ==> ValidDate(r.value.0, r.value.1, r.value.2) && 0 <= r.value.0 <= 9999
  {
    var parts := Split(s, '-');
    if |parts| != 3 then None
    else if !(1 <= |parts[0]| <= 4 && 1 <= |parts[1]| <= 2 && 1 <= |parts[2]| <= 2) then None
    else if !(AllDigits(parts[0]) && AllDigits(parts[1]) && AllDigits(parts[2])) then None
    else
      var y, m, d := DigitsValue(parts[0]), DigitsValue(parts[1]), DigitsValue(parts[2]);
      DigitsBelowPow10(parts[0]);
      PowMonotone(|parts[0]|, 4);
      if ValidDate(y, m, d) then Some((y, m, d)) else None
  }

  function Pow10(k: nat): (r: nat)
    ensures r >= 1
  {
    if k == 0 then 1 else 10 * Pow10(k - 1)
  }

  lemma {:induction false} PowMonotone(j: nat, k: nat)
    requires j <= k
    ensures Pow10(j) <= Pow10(k)
    ensures k == 4 ==> Pow10(k) == 10000
    ensures k == 2 ==> Pow10(k) == 100
    decreases k
  {
    if j < k { PowMonotone(j, k - 1); }
    assert Pow10(2) == 100 by { assert Pow10(1) == 10; }
    assert Pow10(4) == 10000 by { assert Pow10(3) == 1000; }
  }

  /** A string of `k` digits has a value below `10^k`. */
  lemma {:induction false} DigitsBelowPow10(s: string)
    requires AllDigits(s)
    ensures DigitsValue(s) < Pow10(|s|)
  {
    if s != [] {
      var t := s[..|s| - 1];
      DigitsBelowPow10(t);
      assert DigitsValue(s) == DigitsValue(t) * 10 + DigitValue(s[|s| - 1]);
      assert DigitsValue(t) * 10 <= (Pow10(|t|) - 1) * 10;
    }
  }

  /** `parse_date_to_timestamp`: the Unix timestamp of the date's midnight, or a ValueError. */
  function ParseDateToTimestamp(s: string): (r: Result<int>)
    ensures r.Ok? <==> DateFields(s).Some?
    ensures r.Ok? ==>
              r.value % 86400 == 0
              && r.value == DaysFromCivil(DateFields(s).value.0, DateFields(s).value.1, DateFields(s).value.2) * 86400
    ensures r.Err? ==> r.error == ValueError("error parsing " + s + " as Year-Month-Date")
  {
    match DateFields(s)
    case None => Err(ValueError("error parsing " + s + " as Year-Month-Date"))
    case Some((y, m, d)) =>
      var days := DaysFromCivil(y, m, d);
      WholeDays(days);
      Ok(days * 86400)
  }

  lemma {:induction false} WholeDays(days: int)
    ensures (days * 86400) % 86400 == 0
  {
    var t := days * 86400;
    assert t == 86400 * days + 0;
  }

  /** Zero padding keeps the digits and their value and reaches the width. */
  lemma {:induction false} PadDigitsValue(d: string, width: nat)
    requires AllDigits(d)
    ensures AllDigits(PadDigits(d, width)) && DigitsValue(PadDigits(d, width)) == DigitsValue(d)
    ensures |d| >= width ==> PadDigits(d, width) == d
    ensures |d| < width ==> |PadDigits(d, width)| == width
    decreases width - |d|
  {
    if |d| < width {
      LeadingZero(d);
      PadDigitsValue("0" + d, width);
    }
  }

  lemma {:induction false} LeadingZero(d: string)
    requires AllDigits(d)
    ensures AllDigits("0" + d) && DigitsValue("0" + d) == DigitsValue(d)
    decreases |d|
  {
    var z := "0" + d;
    if d != [] {
      assert z[..|z| - 1] == "0" + d[..|d| - 1];
      LeadingZero(d[..|d| - 1]);
    } else {
      assert z[..0] == [];
    }
  }

  lemma {:induction false} NatToDigitsLength(n: nat, k: nat)
    requires n < Pow10(k) && k >= 1
    ensures |NatToDigits(n)| <= k
    decreases n
  {
    if n >= 10 {
      assert n / 10 < Pow10(k - 1);
      NatToDigitsLength(n / 10, k - 1);
    }
  }

  /** `%0Nd` of a number below `10^N`: exactly N digits whose value is the number. */
  lemma PadIntDigits(n: nat, width: nat)
    requires 1 <= width && n < Pow10(width)
    ensures |PadInt(n, width)| == width && AllDigits(PadInt(n, width))
    ensures DigitsValue(PadInt(n, width)) == n && '-' !in PadInt(n, width)
  {
    NatToDigitsLength(n, width);
    NatToDigitsValue(n);
    PadDigitsValue(NatToDigits(n), width);
    var p := PadInt(n, width);
    forall i | 0 <= i < |p| ensures p[i] != '-' { assert IsDigit(p[i]); }
  }

  /** Python writes a date as `%04d-%02d-%02d` and the reader parses that text back to the
      midnight of the same date. */
  lemma DateRoundTrip(y: int, m: int, d: int)
    requires ValidDate(y, m, d) && 0 <= y <= 9999
    ensures ParseDateToTimestamp(PyStrOf(PyDate(y, m, d))) == Ok(DaysFromCivil(y, m, d) * 86400)
  {
    PowMonotone(4, 4);
    PowMonotone(2, 2);
    var ys, ms, ds := PadInt(y, 4), PadInt(m, 2), PadInt(d, 2);
    PadIntDigits(y, 4);
    PadIntDigits(m, 2);
    PadIntDigits(d, 2);
    var s := ys + "-" + ms + "-" + ds;
    assert PyStrOf(PyDate(y, m, d)) == s;
    assert [ys, ms, ds][1..] == [ms, ds] && [ms, ds][1..] == [ds];
    assert Join([ms, ds], "-") == ms + "-" + ds;
    assert Join([ys, ms, ds], "-") == s;
    SplitJoin([ys, ms, ds], '-');
    assert DateFields(s) == Some((y, m, d));
  }

  /** `parse_datetime_to_timestamp`: chrono's parse of the zoned format, or a ValueError. */
  function ParseDatetimeToTimestamp(h: Host, s: string): (r: Result<int>)
    ensures r.Ok? <==> h.parseZonedDatetime(s).Some?
    ensures r.Ok? ==> r.value == h.parseZonedDatetime(s).value
  {
    match h.parseZonedDatetime(s)
    case Some(ts) => Ok(ts)
    case None => Err(ValueError("error parsing " + s + " as '%Y-%m-%d %H:%M:%S%.6f%:z'"))
  }

  // ---------------------------------------------------------------------------
  // The redis crate's conversions of reply values
  // ---------------------------------------------------------------------------

  /** `from_redis_value::<String>`: bulk data, status text or "OK". */
  function RedisToString(v: RValue): (r: Result<string>)
    ensures r.Ok? <==> (v.Data? || v.Status? || v.Okay?)
    ensures v.Data? ==> r == Ok(v.bytes)
  {
    match v
    case Data(b) => Ok(b)
    case Status(t) => Ok(t)
    case Okay => Ok("OK")
    case _ => Err(ValueError("Response type not string compatible."))
  }

  /** `from_redis_value::<i64>`: an integer reply, or text parsed as i64. */
  function RedisToI64(v: RValue): (r: Result<int>)
    ensures v.Int? ==> r == Ok(v.i)
    ensures v.Data? ==> r == ParseI64Str(v.bytes)
    ensures (v.Nil? || v.Bulk? || v.Okay?) ==> r.Err?
  {
    match v
    case Int(i) => Ok(i)
    case Data(b) => ParseI64Str(b)
    case Status(t) => ParseI64Str(t)
    case _ => Err(ValueError("Response type not convertible to numeric."))
  }

  /** `from_redis_value::<f64>`: an integer reply as a float, or text parsed as f64. */
  function RedisToF64(h: Host, v: RValue): (r: Result<PyObj>)
    ensures v.Data? ==> r == ParseF64Str(h, v.bytes)
    ensures (v.Nil? || v.Bulk? || v.Okay?) ==> r.Err?
  {
    match v
    case Int(i) => Ok(PyFloat(IntToString(i) + ".0"))
    case Data(b) => ParseF64Str(h, b)
    case Status(t) => ParseF64Str(h, t)
    case _ => Err(ValueError("Response type not convertible to numeric."))
  }

  /** `Value::as_sequence`: the items of a bulk reply; nil reads as no items. */
  function AsSequence(v: RValue): (r: Option<seq<RValue>>)
    ensures r.Some? <==> (v.Bulk? || v.Nil?)
    ensures v.Bulk? ==> r == Some(v.items)
  {
    match v
    case Bulk(items) => Some(items)
    case Nil => Some([])
    case _ => None
  }

  /** `Value::as_map_iter`: a bulk reply read as key/value pairs.  The iterator takes two items
      per step and stops when either is missing, so an unpaired last item is dropped. */
  function AsMapIter(v: RValue): (r: Option<seq<(RValue, RValue)>>)
    ensures r.Some? <==> v.Bulk?
    ensures r.Some? ==>
              |r.value| == |v.items| / 2
              && forall i :: 0 <= i < |r.value| ==> r.value[i] == (v.items[2 * i], v.items[2 * i + 1])
  {
    if v.Bulk? then Some(PairUp(v.items[..|v.items| - |v.items| % 2])) else None
  }

  /** An array of odd length still reads as a map: its last item is left unpaired and dropped. */
  lemma OddArrayDropsLastItem()
    ensures AsMapIter(Bulk([Data("title"), Data("x"), Data("extra")])) == Some([(Data("title"), Data("x"))])
  {
    var items := [Data("title"), Data("x"), Data("extra")];
    var r := AsMapIter(Bulk(items));
    assert r.Some? && |r.value| == 1 && r.value[0] == (Data("title"), Data("x"));
    assert r.value == [(Data("title"), Data("x"))];
  }

  function PairUp(items: seq<RValue>): (r: seq<(RValue, RValue)>)
    requires |items| % 2 == 0
    ensures |r| * 2 == |items|
    ensures forall i :: 0 <= i < |r| ==> r[i] == (items[2 * i], items[2 * i + 1])
  {
    if items == [] then []
    else
      var rest := PairUp(items[2..]);
      PairUpStep(items, rest);
      [(items[0], items[1])] + rest
  }

  lemma PairUpStep(items: seq<RValue>, rest: seq<(RValue, RValue)>)
    requires |items| >= 2 && |rest| * 2 == |items| - 2
    requires forall i :: 0 <= i < |rest| ==> rest[i] == (items[2..][2 * i], items[2..][2 * i + 1])
    ensures forall i :: 0 <= i < |rest| + 1 ==>
              ([(items[0], items[1])] + rest)[i] == (items[2 * i], items[2 * i + 1])
  {
    var r := [(items[0], items[1])] + rest;
    forall i | 1 <= i < |r| ensures r[i] == (items[2 * i], items[2 * i + 1]) {
      var j := i - 1;
      assert r[i] == rest[j];
      assert 2 * i == 2 * j + 2;
    }
  }

  /** The reply a hash entity becomes: field and value, alternating. */
  function Unpair(pairs: seq<(RValue, RValue)>): (r: seq<RValue>)
    ensures |r| == 2 * |pairs|
    ensures forall i :: 0 <= i < |pairs| ==> r[2 * i] == pairs[i].0 && r[2 * i + 1] == pairs[i].1
  {
    if pairs == [] then []
    else
      var rest := Unpair(pairs[1..]);
      UnpairStep(pairs, rest);
      [pairs[0].0, pairs[0].1] + rest
  }

  lemma UnpairStep(pairs: seq<(RValue, RValue)>, rest: seq<RValue>)
    requires |pairs| >= 1 && |rest| == 2 * (|pairs| - 1)
    requires forall i :: 0 <= i < |pairs| - 1 ==> rest[2 * i] == pairs[1..][i].0 && rest[2 * i + 1] == pairs[1..][i].1
    ensures forall i :: 0 <= i < |pairs| ==>
              ([pairs[0].0, pairs[0].1] + rest)[2 * i] == pairs[i].0
              && ([pairs[0].0, pairs[0].1] + rest)[2 * i + 1] == pairs[i].1
  {
    var r := [pairs[0].0, pairs[0].1] + rest;
    forall i | 1 <= i < |pairs| ensures r[2 * i] == pairs[i].0 && r[2 * i + 1] == pairs[i].1 {
      var j := i - 1;
      assert 2 * i == 2 * j + 2;
      assert r[2 * i] == rest[2 * j] && r[2 * i + 1] == rest[2 * j + 1];
      assert pairs[i] == pairs[1..][j];
    }
  }

  /** Pairing up is the inverse of flattening into alternating fields and values. */
  lemma PairUpUnpair(pairs: seq<(RValue, RValue)>)
    ensures PairUp(Unpair(pairs)) == pairs
  {
    var u := Unpair(pairs);
    var p := PairUp(u);
    assert |p| == |pairs|;
    forall i | 0 <= i < |pairs| ensures p[i] == pairs[i] {
      assert p[i] == (u[2 * i], u[2 * i + 1]);
    }
  }

  // ---------------------------------------------------------------------------
  // Collecting the pairs of a hash reply into a map
  // ---------------------------------------------------------------------------

  /** Pair `j` of a hash reply is the last one whose field reads as the same text. */
  predicate LastOfKey(pairs: seq<(RValue, RValue)>, j: int)
    requires 0 <= j < |pairs|
  {
    forall j' :: j < j' < |pairs| ==> RedisToString(pairs[j'].0) != RedisToString(pairs[j].0)
  }

  /** `map(|(k, v)| ...).collect::<PyResult<HashMap<String, _>>>()` over the pairs of a hash
      reply: each field read as text, its value read by `field`, the first failure returned,
      and a later value of a field replacing the earlier one (added to `acc`). */
  function CollectPairs(field: (string, RValue) -> Result<PyObj>, pairs: seq<(RValue, RValue)>, acc: seq<(string, PyObj)>)
    : Result<seq<(string, PyObj)>>
    decreases |pairs|
  {
    if pairs == [] then Ok(acc)
    else
      var key :- RedisToString(pairs[0].0);
      var value :- field(key, pairs[0].1);
      CollectPairs(field, pairs[1..], Insert(acc, key, value))
  }

  /** The first pair of a successful collection: its field as text and its value as read. */
  lemma CollectPairsStep(field: (string, RValue) -> Result<PyObj>, pairs: seq<(RValue, RValue)>, acc: seq<(string, PyObj)>)
    returns (key: string, value: PyObj)
    requires pairs != [] && CollectPairs(field, pairs, acc).Ok?
    ensures RedisToString(pairs[0].0) == Ok(key) && field(key, pairs[0].1) == Ok(value)
    ensures CollectPairs(field, pairs, acc) == CollectPairs(field, pairs[1..], Insert(acc, key, value))
  {
    key := RedisToString(pairs[0].0).value;
    value := field(key, pairs[0].1).value;
  }

  /** A successful collection reads every pair. */
  lemma {:induction false} CollectPairsReads(field: (string, RValue) -> Result<PyObj>, pairs: seq<(RValue, RValue)>,
                                             acc: seq<(string, PyObj)>)
    requires CollectPairs(field, pairs, acc).Ok?
    ensures forall j :: 0 <= j < |pairs| ==>
              RedisToString(pairs[j].0).Ok? && field(RedisToString(pairs[j].0).value, pairs[j].1).Ok?
    decreases |pairs|
  {
    if pairs != [] {
      var key, value := CollectPairsStep(field, pairs, acc);
      CollectPairsReads(field, pairs[1..], Insert(acc, key, value));
      assert forall j :: 0 < j < |pairs| ==> pairs[j] == pairs[1..][j - 1];
    }
  }

  /** The fields collected are those of `acc` and the pairs'. */
  lemma {:induction false} CollectPairsKeys(field: (string, RValue) -> Result<PyObj>, pairs: seq<(RValue, RValue)>,
                                            acc: seq<(string, PyObj)>)
    requires CollectPairs(field, pairs, acc).Ok?
    ensures forall k :: HasKey(CollectPairs(field, pairs, acc).value, k) <==>
              HasKey(acc, k) || exists j :: 0 <= j < |pairs| && RedisToString(pairs[j].0) == Ok(k)
    decreases |pairs|
  {
    if pairs != [] {
      var key, value := CollectPairsStep(field, pairs, acc);
      var rest := pairs[1..];
      CollectPairsKeys(field, rest, Insert(acc, key, value));
      forall k ensures (exists j :: 0 <= j < |pairs| && RedisToString(pairs[j].0) == Ok(k))
                       <==> k == key || exists j :: 0 <= j < |rest| && RedisToString(rest[j].0) == Ok(k)
      {
        if exists j :: 0 <= j < |pairs| && RedisToString(pairs[j].0) == Ok(k) {
          var j :| 0 <= j < |pairs| && RedisToString(pairs[j].0) == Ok(k);
          if j > 0 { assert rest[j - 1] == pairs[j]; }
        }
        if exists j :: 0 <= j < |rest| && RedisToString(rest[j].0) == Ok(k) {
          var j :| 0 <= j < |rest| && RedisToString(rest[j].0) == Ok(k);
          assert pairs[j + 1] == rest[j];
        }
      }
    }
  }

  /** A name no pair gives keeps its value in `acc`. */
  lemma {:induction false} CollectPairsUntouched(field: (string, RValue) -> Result<PyObj>, pairs: seq<(RValue, RValue)>,
                                                 acc: seq<(string, PyObj)>, k: string)
    requires CollectPairs(field, pairs, acc).Ok?
    requires forall j :: 0 <= j < |pairs| ==> RedisToString(pairs[j].0) != Ok(k)
    ensures Lookup(CollectPairs(field, pairs, acc).value, k) == Lookup(acc, k)
    decreases |pairs|
  {
    if pairs != [] {
      var key, value := CollectPairsStep(field, pairs, acc);
      var rest := pairs[1..];
      assert forall j :: 0 <= j < |rest| ==> rest[j] == pairs[j + 1];
      CollectPairsUntouched(field, rest, Insert(acc, key, value), k);
      InsertOther(acc, key, value, k);
    }
  }

  /** The field of the last pair with a name holds that pair's value as read. */
  lemma {:induction false} CollectPairsLast(field: (string, RValue) -> Result<PyObj>, pairs: seq<(RValue, RValue)>,
                                            acc: seq<(string, PyObj)>, j: nat)
    requires CollectPairs(field, pairs, acc).Ok? && j < |pairs| && LastOfKey(pairs, j)
    ensures RedisToString(pairs[j].0).Ok? && field(RedisToString(pairs[j].0).value, pairs[j].1).Ok?
    ensures Lookup(CollectPairs(field, pairs, acc).value, RedisToString(pairs[j].0).value)
              == Some(field(RedisToString(pairs[j].0).value, pairs[j].1).value)
    decreases |pairs|
  {
    var key, value := CollectPairsStep(field, pairs, acc);
    var rest := pairs[1..];
    if j == 0 {
      forall j' | 0 <= j' < |rest| ensures RedisToString(rest[j'].0) != Ok(key) {
        assert rest[j'] == pairs[j' + 1];
      }
      CollectPairsUntouched(field, rest, Insert(acc, key, value), key);
    } else {
      assert pairs[j] == rest[j - 1];
      assert LastOfKey(rest, j - 1) by {
        forall j' | j - 1 < j' < |rest| ensures RedisToString(rest[j'].0) != RedisToString(rest[j - 1].0) {
          assert rest[j'] == pairs[j' + 1];
        }
      }
      CollectPairsLast(field, rest, Insert(acc, key, value), j - 1);
    }
  }

  /** A successful collection reads every pair; its fields are those of `acc` and the pairs',
      the field of the last pair with a name holds that pair's value as read, and a name no
      pair gives keeps its value in `acc`. */
  lemma CollectPairsValues(field: (string, RValue) -> Result<PyObj>, pairs: seq<(RValue, RValue)>,
                           acc: seq<(string, PyObj)>)
    requires CollectPairs(field, pairs, acc).Ok?
    ensures forall j :: 0 <= j < |pairs| ==>
              RedisToString(pairs[j].0).Ok? && field(RedisToString(pairs[j].0).value, pairs[j].1).Ok?
    ensures forall j :: 0 <= j < |pairs| && LastOfKey(pairs, j) ==>
              Lookup(CollectPairs(field, pairs, acc).value, RedisToString(pairs[j].0).value)
                == Some(field(RedisToString(pairs[j].0).value, pairs[j].1).value)
    ensures forall k :: (forall j :: 0 <= j < |pairs| ==> RedisToString(pairs[j].0) != Ok(k)) ==>
              Lookup(CollectPairs(field, pairs, acc).value, k) == Lookup(acc, k)
    ensures forall k :: HasKey(CollectPairs(field, pairs, acc).value, k) <==>
              HasKey(acc, k) || exists j :: 0 <= j < |pairs| && RedisToString(pairs[j].0) == Ok(k)
  {
    CollectPairsReads(field, pairs, acc);
    CollectPairsKeys(field, pairs, acc);
    forall j | 0 <= j < |pairs| && LastOfKey(pairs, j)
      ensures Lookup(CollectPairs(field, pairs, acc).value, RedisToString(pairs[j].0).value)
                == Some(field(RedisToString(pairs[j].0).value, pairs[j].1).value)
    {
      CollectPairsLast(field, pairs, acc, j);
    }
    forall k | forall j :: 0 <= j < |pairs| ==> RedisToString(pairs[j].0) != Ok(k)
      ensures Lookup(CollectPairs(field, pairs, acc).value, k) == Lookup(acc, k)
    {
      CollectPairsUntouched(field, pairs, acc, k);
    }
  }
}
