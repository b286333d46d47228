/** The scalar field codecs of the eBird importer: integers, decimals, dates,
    times and durations, composite identifiers, flags, the observation-count
    rule, the last-edit stamp and the two fixed lookup tables (protocol names
    and taxonomy categories). Every codec is total: it returns a value or the
    fault the importer would raise. */
module FieldCodec {
  import opened Wrappers

  /** The two kinds of exception the decoders raise. LookupFault is a failed
      dictionary lookup (a missing column, an unknown protocol name, category or
      parent code); ParseFault is what a malformed scalar raises (a bad integer,
      decimal, date or time). The batch loop treats the two differently. */
  datatype Fault = LookupFault(name: string) | ParseFault(input: string)

  type Parsed<T> = Result<T, Fault>

  // ---------------------------------------------------------------------------
  // Digit strings

  predicate IsDigit(c: char) {
    '0' <= c <= '9'
  }

  predicate AllDigits(s: string) {
    forall i :: 0 <= i < |s| ==> IsDigit(s[i])
  }

  function DigitValue(c: char): nat
    requires IsDigit(c)
  {
    c as int - '0' as int
  }

  function Digit(d: nat): (c: char)
    requires d < 10
    ensures IsDigit(c) && DigitValue(c) == d
  {
    ('0' as int + d) as char
  }

  /** The number a string of decimal digits denotes, most significant digit first. */
  function DigitsValue(s: string): nat
    requires AllDigits(s)
  {
    if s == [] then 0 else DigitsValue(s[..|s| - 1]) * 10 + DigitValue(s[|s| - 1])
  }

  function Pow10(k: nat): (p: nat)
    ensures p >= 1
  {
    if k == 0 then 1 else 10 * Pow10(k - 1)
  }

  /** The shortest decimal spelling of a natural number. */
  function NatToString(n: nat): (s: string)
    ensures |s| > 0 && AllDigits(s) && DigitsValue(s) == n
  {
    if n < 10 then [Digit(n)]
    else
      var s := NatToString(n / 10) + [Digit(n % 10)];
      assert s[..|s| - 1] == NatToString(n / 10);
      s
  }

  /** The k-digit, zero-padded spelling of r. */
  function PadDigits(r: nat, k: nat): (s: string)
    requires r < Pow10(k)
    ensures |s| == k && AllDigits(s) && DigitsValue(s) == r
  {
    if k == 0 then []
    else
      var s := PadDigits(r / 10, k - 1) + [Digit(r % 10)];
      assert s[..|s| - 1] == PadDigits(r / 10, k - 1);
      s
  }

  lemma {:induction false} DigitsAppend(a: string, b: string)
    requires AllDigits(a) && AllDigits(b)
    ensures AllDigits(a + b)
    ensures DigitsValue(a + b) == DigitsValue(a) * Pow10(|b|) + DigitsValue(b)
    decreases |b|
  {
    if b == [] {
      assert a + b == a;
    } else {
      var b' := b[..|b| - 1];
      assert (a + b)[..|a + b| - 1] == a + b';
      assert (a + b)[|a + b| - 1] == b[|b| - 1];
      DigitsAppend(a, b');
      var x, p, y, z := DigitsValue(a), Pow10(|b'|), DigitsValue(b'), DigitValue(b[|b| - 1]);
      assert DigitsValue(a + b) == (x * p + y) * 10 + z;
      assert DigitsValue(b) == y * 10 + z && Pow10(|b|) == 10 * p;
      ShiftDigit(x, p, y, z);
    }
  }

  /** Appending a digit to a number made of a head and a tail. */
  lemma ShiftDigit(x: nat, p: nat, y: nat, z: nat)
    ensures (x * p + y) * 10 + z == x * (10 * p) + (y * 10 + z)
  {
    assert (x * p) * 10 == x * (10 * p);
  }

  lemma {:induction false} ZerosValue(z: string)
    requires forall i :: 0 <= i < |z| ==> z[i] == '0'
    ensures AllDigits(z) && DigitsValue(z) == 0
    decreases |z|
  {
    if z != [] {
      ZerosValue(z[..|z| - 1]);
    }
  }

  /** Leading zeros do not change the value of a digit string. */
  lemma LeadingZeros(z: string, s: string)
    requires forall i :: 0 <= i < |z| ==> z[i] == '0'
    requires AllDigits(s)
    ensures AllDigits(z + s) && DigitsValue(z + s) == DigitsValue(s)
  {
    ZerosValue(z);
    DigitsAppend(z, s);
  }

  // ---------------------------------------------------------------------------
  // Integers (Python's int() on a string)

  /** A decimal integer literal: an optional sign followed by at least one digit. */
  predicate IsIntLiteral(s: string) {
    if |s| > 0 && (s[0] == '-' || s[0] == '+') then |s| > 1 && AllDigits(s[1..])
    else |s| > 0 && AllDigits(s)
  }

  function ParseInt(s: string): (r: Parsed<int>)
    ensures r.Success? <==> IsIntLiteral(s)
    ensures r.Failure? ==> r.error == ParseFault(s)
  {
    if |s| > 0 && (s[0] == '-' || s[0] == '+') then
      if |s| > 1 && AllDigits(s[1..]) then
        Success(if s[0] == '-' then -(DigitsValue(s[1..]) as int) else DigitsValue(s[1..]))
      else Failure(ParseFault(s))
    else if |s| > 0 && AllDigits(s) then Success(DigitsValue(s))
    else Failure(ParseFault(s))
  }

  function IntToString(i: int): string {
    if i < 0 then "-" + NatToString(-i) else NatToString(i)
  }

  lemma ParseNat(n: nat)
    ensures ParseInt(NatToString(n)) == Success(n)
  {
    var s := NatToString(n);
    assert IsDigit(s[0]);
  }

  lemma ParseIntRoundTrip(i: int)
    ensures ParseInt(IntToString(i)) == Success(i)
  {
    if i < 0 {
      var s := IntToString(i);
      assert s[1..] == NatToString(-i);
    } else {
      ParseNat(i);
    }
  }

  /** Digits with leading zeros parse to the value of the unpadded digits. */
  lemma ParseZeroPadded(z: string, n: nat)
    requires forall i :: 0 <= i < |z| ==> z[i] == '0'
    ensures ParseInt(z + NatToString(n)) == Success(n)
  {
    var s := NatToString(n);
    LeadingZeros(z, s);
    if |z| > 0 {
      assert (z + s)[0] == '0';
    } else {
      assert z + s == s;
      ParseNat(n);
    }
  }

  /** int_or_none: the empty string is None, anything else must be an integer. */
  function IntOrNone(s: string): (r: Parsed<Option<int>>)
    ensures r == (if s == "" then Success(None)
                  else if ParseInt(s).Success? then Success(Some(ParseInt(s).value))
                  else Failure(ParseFault(s)))
  {
    if s == "" then Success(None)
    else
      var n :- ParseInt(s);
      Success(Some(n))
  }

  lemma IntOrNoneRoundTrip(i: int)
    ensures IntOrNone(IntToString(i)) == Success(Some(i))
  {
    ParseIntRoundTrip(i);
  }

  // ---------------------------------------------------------------------------
  // Splitting on separators (str.split and re.split on a character class)

  /** Splits at every character of seps, keeping empty pieces; never empty. */
  function Split(s: string, seps: set<char>): (parts: seq<string>)
    ensures |parts| >= 1
  {
    if s == [] then [""]
    else
      var rest := Split(s[1..], seps);
      if s[0] in seps then [""] + rest else [[s[0]] + rest[0]] + rest[1..]
  }

  function Join(parts: seq<string>, sep: char): string
    requires |parts| >= 1
  {
    if |parts| == 1 then parts[0] else parts[0] + [sep] + Join(parts[1..], sep)
  }

  predicate NoSeparator(s: string, seps: set<char>) {
    forall i :: 0 <= i < |s| ==> s[i] !in seps
  }

  lemma {:induction false} SplitNoSeparator(s: string, seps: set<char>)
    requires NoSeparator(s, seps)
    ensures Split(s, seps) == [s]
    decreases |s|
  {
    if s != [] {
      SplitNoSeparator(s[1..], seps);
      assert [s[0]] + s[1..] == s;
    }
  }

  /** Splitting at a separator splits the two sides independently. */
  lemma {:induction false} SplitAtSeparator(x: string, c: char, y: string, seps: set<char>)
    requires c in seps
    ensures Split(x + [c] + y, seps) == Split(x, seps) + Split(y, seps)
    decreases |x|
  {
    if x == [] {
      assert x + [c] + y == [c] + y;
      assert ([c] + y)[1..] == y;
    } else {
      var s := x + [c] + y;
      assert s[0] == x[0];
      assert s[1..] == x[1..] + [c] + y;
      SplitAtSeparator(x[1..], c, y, seps);
    }
  }

  lemma {:induction false} SplitJoin(parts: seq<string>, c: char, seps: set<char>)
    requires c in seps && |parts| >= 1
    requires forall k :: 0 <= k < |parts| ==> NoSeparator(parts[k], seps)
    ensures Split(Join(parts, c), seps) == parts
    decreases |parts|
  {
    SplitNoSeparator(parts[0], seps);
    if |parts| > 1 {
      SplitJoin(parts[1..], c, seps);
      SplitAtSeparator(parts[0], c, Join(parts[1..], c), seps);
      assert [parts[0]] + parts[1..] == parts;
    }
  }

  lemma DigitsHaveNoSeparator(s: string, seps: set<char>)
    requires AllDigits(s)
    requires forall c :: c in seps ==> !IsDigit(c)
    ensures NoSeparator(s, seps)
  {
  }

  /** s[n:] in Python: the empty string when s is shorter than n. */
  function Drop(s: string, n: nat): (r: string)
    ensures |s| <= n ==> r == ""
    ensures |s| > n ==> s == s[..n] + r
  {
    if |s| <= n then "" else s[n..]
  }

  /** s.split(':')[-1]: what follows the last colon (all of s when there is none). */
  function LastSegment(s: string): string {
    var parts := Split(s, {':'});
    parts[|parts| - 1]
  }

  lemma LastSegmentAfterColon(x: string, y: string)
    requires NoSeparator(y, {':'})
    ensures LastSegment(x + ":" + y) == y
  {
    SplitAtSeparator(x, ':', y, {':'});
    SplitNoSeparator(y, {':'});
  }

  // ---------------------------------------------------------------------------
  // Arbitrary-precision decimals (Decimal(s) and decimal_or_none)

  /** A decimal number unscaled / 10^scale, keeping the scale its text had. */
  datatype Decimal = Decimal(unscaled: int, scale: nat)

  /** The numeric value; decimals compare and hash by this value. */
  function DecimalValue(d: Decimal): real {
    d.unscaled as real / Pow10(d.scale) as real
  }

  /** The digits before and after the point of an unsigned decimal literal. */
  function DecimalParts(body: string): (string, string) {
    var parts := Split(body, {'.'});
    (parts[0], if |parts| >= 2 then parts[1] else "")
  }

  /** At most one point, digits on both sides, and at least one digit in all. */
  predicate IsDecimalBody(body: string) {
    var (whole, frac) := DecimalParts(body);
    |Split(body, {'.'})| <= 2 && |whole| + |frac| > 0 && AllDigits(whole) && AllDigits(frac)
  }

  /** The unscaled magnitude of a decimal literal without its sign. */
  function BodyMagnitude(body: string): nat
    requires IsDecimalBody(body)
  {
    var (whole, frac) := DecimalParts(body);
    DigitsValue(whole + frac)
  }

  /** What follows an optional leading sign. */
  function Unsigned(s: string): string {
    if |s| > 0 && (s[0] == '-' || s[0] == '+') then s[1..] else s
  }

  function ParseDecimal(s: string): (r: Parsed<Decimal>)
    ensures r.Success? <==> IsDecimalBody(Unsigned(s))
    ensures r.Failure? ==> r.error == ParseFault(s)
  {
    var body := Unsigned(s);
    if IsDecimalBody(body) then
      var mag := BodyMagnitude(body);
      Success(Decimal(if |s| > 0 && s[0] == '-' then -(mag as int) else mag, |DecimalParts(body).1|))
    else Failure(ParseFault(s))
  }

  /** Text that is not a signed decimal literal fails: letters, a second point,
      a point with no digit, a sign alone, the empty text. */
  lemma DecimalRejects()
    ensures ParseDecimal("abc").Failure? && ParseDecimal("1.2.3").Failure?
    ensures ParseDecimal(".").Failure? && ParseDecimal("-").Failure? && ParseDecimal("").Failure?
  {
  }

  function Abs(i: int): nat {
    if i < 0 then -i else i
  }

  function Zeros(n: nat): (z: string)
    ensures |z| == n && forall i :: 0 <= i < n ==> z[i] == '0'
  {
    seq(n, _ => '0')
  }

  /** The digits of n, zero-padded so that more than scale of them are present. */
  function PaddedDigits(n: nat, scale: nat): (p: string)
    ensures |p| > scale && AllDigits(p) && DigitsValue(p) == n
  {
    var digits := NatToString(n);
    if |digits| <= scale then
      LeadingZeros(Zeros(scale + 1 - |digits|), digits);
      Zeros(scale + 1 - |digits|) + digits
    else digits
  }

  /** The unsigned text of a decimal: the integer digits, then a point and the
      fraction digits when there are any. */
  function DecimalBody(whole: string, frac: string): string {
    whole + (if frac == "" then "" else "." + frac)
  }

  function DecimalText(negative: bool, whole: string, frac: string): string {
    (if negative then "-" else "") + DecimalBody(whole, frac)
  }

  function Signed(negative: bool, mag: nat): int {
    if negative then -(mag as int) else mag
  }

  /** The canonical spelling of a decimal: sign, integer digits (at least one),
      then exactly scale fraction digits. */
  function DecimalToString(d: Decimal): string {
    var p := PaddedDigits(Abs(d.unscaled), d.scale);
    DecimalText(d.unscaled < 0, p[..|p| - d.scale], p[|p| - d.scale..])
  }

  /** An unsigned decimal literal with at least one integer digit. */
  lemma DecimalBodyOf(whole: string, frac: string)
    requires |whole| > 0 && AllDigits(whole) && AllDigits(frac)
    ensures IsDecimalBody(DecimalBody(whole, frac))
    ensures DecimalParts(DecimalBody(whole, frac)) == (whole, frac)
    ensures IsDigit(DecimalBody(whole, frac)[0])
  {
    var body := DecimalBody(whole, frac);
    DigitsHaveNoSeparator(whole, {'.'});
    if frac == "" {
      assert body == whole;
      SplitNoSeparator(whole, {'.'});
    } else {
      DigitsHaveNoSeparator(frac, {'.'});
      assert body == Join([whole, frac], '.');
      SplitJoin([whole, frac], '.', {'.'});
    }
  }

  lemma ParseDecimalText(negative: bool, whole: string, frac: string)
    requires |whole| > 0 && AllDigits(whole) && AllDigits(frac)
    ensures IsDecimalBody(DecimalBody(whole, frac))
    ensures ParseDecimal(DecimalText(negative, whole, frac))
            == Success(Decimal(Signed(negative, BodyMagnitude(DecimalBody(whole, frac))), |frac|))
  {
    var body := DecimalBody(whole, frac);
    DecimalBodyOf(whole, frac);
    var s := DecimalText(negative, whole, frac);
    assert Unsigned(s) == body by {
      if negative {
        assert s[1..] == body;
      } else {
        assert s == body;
      }
    }
    assert |s| > 0 && s[0] == '-' <==> negative;
  }

  lemma BodyMagnitudeOf(whole: string, frac: string)
    requires |whole| > 0 && AllDigits(whole) && AllDigits(frac)
    ensures IsDecimalBody(DecimalBody(whole, frac)) && AllDigits(whole + frac)
    ensures BodyMagnitude(DecimalBody(whole, frac)) == DigitsValue(whole + frac)
  {
    DecimalBodyOf(whole, frac);
    DigitsAppend(whole, frac);
  }

  /** The padded digits split into a non-empty integer part and scale fraction digits. */
  lemma PaddedSplit(n: nat, scale: nat, whole: string, frac: string)
    requires var p := PaddedDigits(n, scale); whole == p[..|p| - scale] && frac == p[|p| - scale..]
    ensures |whole| > 0 && AllDigits(whole) && AllDigits(frac) && |frac| == scale
    ensures DigitsValue(whole + frac) == n
  {
    var p := PaddedDigits(n, scale);
    assert whole + frac == p;
  }

  lemma DecimalRoundTrip(d: Decimal)
    ensures ParseDecimal(DecimalToString(d)) == Success(d)
  {
    var whole, frac := DecimalToStringParts(d);
    DecimalTextParses(d.unscaled < 0, Abs(d.unscaled), whole, frac);
    assert Signed(d.unscaled < 0, Abs(d.unscaled)) == d.unscaled;
  }

  /** The canonical spelling is the sign, a non-empty integer part and scale
      fraction digits, together denoting the magnitude. */
  lemma DecimalToStringParts(d: Decimal) returns (whole: string, frac: string)
    ensures DecimalToString(d) == DecimalText(d.unscaled < 0, whole, frac)
    ensures |whole| > 0 && AllDigits(whole) && AllDigits(frac) && |frac| == d.scale
    ensures DigitsValue(whole + frac) == Abs(d.unscaled)
  {
    var p := PaddedDigits(Abs(d.unscaled), d.scale);
    whole := p[..|p| - d.scale];
    frac := p[|p| - d.scale..];
    PaddedSplit(Abs(d.unscaled), d.scale, whole, frac);
  }

  /** Decimal text built from digits whose value is n parses back to n at the scale of the fraction. */
  lemma DecimalTextParses(negative: bool, n: nat, whole: string, frac: string)
    requires |whole| > 0 && AllDigits(whole) && AllDigits(frac) && DigitsValue(whole + frac) == n
    ensures ParseDecimal(DecimalText(negative, whole, frac)) == Success(Decimal(Signed(negative, n), |frac|))
  {
    ParseDecimalText(negative, whole, frac);
    BodyMagnitudeOf(whole, frac);
  }

  function DecimalOrNone(s: string): (r: Parsed<Option<Decimal>>)
    ensures r.Failure? ==> r.error.ParseFault?
    ensures s == "" <==> r == Success(None)
    ensures s != "" ==> (r.Success? <==> ParseDecimal(s).Success?)
    ensures r.Success? && s != "" ==> r.value == Some(ParseDecimal(s).value)
  {
    if s == "" then Success(None)
    else
      var d :- ParseDecimal(s);
      Success(Some(d))
  }

  // ---------------------------------------------------------------------------
  // Dates and times (datetime(...) and timedelta(minutes=...))

  datatype DateTime = DateTime(year: int, month: int, day: int, hour: int, minute: int, second: int)

  predicate IsLeapYear(y: int) {
    y % 4 == 0 && (y % 100 != 0 || y % 400 == 0)
  }

  function DaysInMonth(y: int, m: int): int
    requires 1 <= m <= 12
  {
    if m == 2 then (if IsLeapYear(y) then 29 else 28)
    else if m == 4 || m == 6 || m == 9 || m == 11 then 30
    else 31
  }

  /** The ranges datetime(...) accepts (years 1 to 9999). */
  predicate ValidDateTime(dt: DateTime) {
    && 1 <= dt.year <= 9999
    && 1 <= dt.month <= 12
    && 1 <= dt.day <= DaysInMonth(dt.year, dt.month)
    && 0 <= dt.hour < 24
    && 0 <= dt.minute < 60
    && 0 <= dt.second < 60
  }

  function MakeDateTime(dt: DateTime): (r: Parsed<DateTime>)
    ensures r.Failure? ==> r.error.ParseFault?
    ensures r.Success? <==> ValidDateTime(dt)
    ensures r.Success? ==> r.value == dt
  {
    if ValidDateTime(dt) then Success(dt) else Failure(ParseFault("datetime"))
  }

  /** [int(x) for x in tokens]: every token an integer, or the first bad one's fault. */
  function ParseInts(tokens: seq<string>): (r: Parsed<seq<int>>)
    ensures r.Failure? ==> r.error.ParseFault?
    ensures r.Success? ==> |r.value| == |tokens|
    ensures r.Success? <==> forall k :: 0 <= k < |tokens| ==> ParseInt(tokens[k]).Success?
    ensures r.Success? ==> forall k :: 0 <= k < |tokens| ==> r.value[k] == ParseInt(tokens[k]).value
  {
    if tokens == [] then Success([])
    else
      var first :- ParseInt(tokens[0]);
      var rest :- ParseInts(tokens[1..]);
      Success([first] + rest)
  }

  /** a, b, c = [int(x) for x in split(s)]: exactly three integer tokens. */
  function ParseTriple(s: string, seps: set<char>): (r: Parsed<(int, int, int)>)
    ensures r.Failure? ==> r.error.ParseFault?
  {
    var xs :- ParseInts(Split(s, seps));
    if |xs| == 3 then Success((xs[0], xs[1], xs[2])) else Failure(ParseFault(s))
  }

  const DateSeparators: set<char> := {'/', '-'}

  /** parse_date: splits on '/' and '-' and returns the tokens in the order
      (year, month, day). */
  function ParseDate(s: string): (r: Parsed<(int, int, int)>)
    ensures r.Failure? ==> r.error.ParseFault?
  {
    ParseTriple(s, DateSeparators)
  }

  /** parse_time: "h:m:s" to (hour, minute, second). */
  function ParseTime(s: string): (r: Parsed<(int, int, int)>)
    ensures r.Failure? ==> r.error.ParseFault?
  {
    ParseTriple(s, {':'})
  }

  lemma {:induction false} ParseTripleOf(a: nat, b: nat, c: nat, sep: char, seps: set<char>)
    requires sep in seps && forall x :: x in seps ==> !IsDigit(x)
    ensures ParseTriple(Join([NatToString(a), NatToString(b), NatToString(c)], sep), seps)
            == Success((a, b, c))
  {
    var parts := [NatToString(a), NatToString(b), NatToString(c)];
    forall k | 0 <= k < 3 ensures NoSeparator(parts[k], seps) {
      DigitsHaveNoSeparator(parts[k], seps);
    }
    SplitJoin(parts, sep, seps);
    ParseNat(a);
    ParseNat(b);
    ParseNat(c);
  }

  /** A checklist's start and its duration in minutes. */
  datatype StartDuration = StartDuration(start: Option<DateTime>, duration: Option<int>)

  /** parse_start_duration: the duration is parsed first; then no date and no
      time give no start, a date alone gives midnight of that date, and every
      other combination needs both a date and a time. */
  function ParseStartDuration(date: string, time: string, minutes: string): (r: Parsed<StartDuration>)
    ensures r.Failure? ==> r.error.ParseFault?
  {
    var duration :- IntOrNone(minutes);
    if date == "" && time == "" then Success(StartDuration(None, duration))
    else if date != "" && time == "" then
      var ymd :- ParseDate(date);
      var start :- MakeDateTime(DateTime(ymd.0, ymd.1, ymd.2, 0, 0, 0));
      Success(StartDuration(Some(start), duration))
    else
      var ymd :- ParseDate(date);
      var hms :- ParseTime(time);
      var start :- MakeDateTime(DateTime(ymd.0, ymd.1, ymd.2, hms.0, hms.1, hms.2));
      Success(StartDuration(Some(start), duration))
  }

  /** The date spelling the importer reads: year-month-day. */
  function DateText(dt: DateTime): string
    requires ValidDateTime(dt)
  {
    Join([NatToString(dt.year), NatToString(dt.month), NatToString(dt.day)], '-')
  }

  function TimeText(dt: DateTime): string
    requires ValidDateTime(dt)
  {
    Join([NatToString(dt.hour), NatToString(dt.minute), NatToString(dt.second)], ':')
  }

  function Midnight(dt: DateTime): DateTime {
    DateTime(dt.year, dt.month, dt.day, 0, 0, 0)
  }

  /** The duration is None exactly when its field is empty; otherwise it is that
      many minutes, and a malformed duration fails the whole field group. */
  lemma DurationIsMinutes(date: string, time: string, minutes: string)
    ensures var r := ParseStartDuration(date, time, minutes);
            && (minutes != "" && ParseInt(minutes).Failure? ==> r == Failure(ParseFault(minutes)))
            && (r.Success? ==> (r.value.duration == None <==> minutes == ""))
            && (r.Success? && minutes != "" ==> r.value.duration == Some(ParseInt(minutes).value))
  {
  }

  /** The four start cases. */
  lemma StartCases(date: string, time: string, minutes: string)
    requires IntOrNone(minutes).Success?
    ensures var r := ParseStartDuration(date, time, minutes);
            && (date == "" && time == "" ==> r.Success? && r.value.start == None)
            && (date == "" && time != "" ==> r.Failure?)
            && (date != "" && time == "" ==>
                  (r.Success? <==> ParseDate(date).Success? && ValidDateTime(DateTime(ParseDate(date).value.0, ParseDate(date).value.1, ParseDate(date).value.2, 0, 0, 0))))
            && (date != "" && time == "" && r.Success? ==>
                  r.value.start == Some(DateTime(ParseDate(date).value.0, ParseDate(date).value.1, ParseDate(date).value.2, 0, 0, 0)))
            && (date != "" && time != "" ==>
                  (r.Success? <==>
                     (ParseDate(date).Success? && ParseTime(time).Success?
                      && ValidDateTime(DateTime(ParseDate(date).value.0, ParseDate(date).value.1, ParseDate(date).value.2,
                                                ParseTime(time).value.0, ParseTime(time).value.1, ParseTime(time).value.2)))))
            && (date != "" && time != "" && r.Success? ==>
                  r.value.start == Some(DateTime(ParseDate(date).value.0, ParseDate(date).value.1, ParseDate(date).value.2,
                                                 ParseTime(time).value.0, ParseTime(time).value.1, ParseTime(time).value.2)))
  {
    if date == "" && time != "" {
      assert Split(date, DateSeparators) == [""];
    }
  }

  /** Round trip: a valid start written as date and time text, with a duration
      in minutes, parses back to exactly that start and duration. */
  lemma StartDurationRoundTrip(dt: DateTime, minutes: nat)
    requires ValidDateTime(dt)
    ensures ParseStartDuration(DateText(dt), TimeText(dt), NatToString(minutes))
            == Success(StartDuration(Some(dt), Some(minutes)))
    ensures ParseStartDuration(DateText(dt), "", "")
            == Success(StartDuration(Some(Midnight(dt)), None))
  {
    ParseNat(minutes);
    ParseTripleOf(dt.year, dt.month, dt.day, '-', DateSeparators);
    ParseTripleOf(dt.hour, dt.minute, dt.second, ':', {':'});
    assert DateText(dt) != "";
    assert TimeText(dt) != "";
  }

  // ---------------------------------------------------------------------------
  // The last-edit stamp (strptime with "%Y-%m-%d %H:%M:%S")

  /** Positions of the six numeric fields of "YYYY-MM-DD HH:MM:SS". */
  predicate IsStampShape(s: string) {
    && |s| == 19
    && s[4] == '-' && s[7] == '-' && s[10] == ' ' && s[13] == ':' && s[16] == ':'
    && AllDigits(s[0..4]) && AllDigits(s[5..7]) && AllDigits(s[8..10])
    && AllDigits(s[11..13]) && AllDigits(s[14..16]) && AllDigits(s[17..19])
  }

  function ParseStamp(s: string): (r: Parsed<DateTime>)
    ensures r.Failure? ==> r.error.ParseFault?
    ensures r.Success? ==> IsStampShape(s) && ValidDateTime(r.value)
  {
    if IsStampShape(s) then
      MakeDateTime(DateTime(DigitsValue(s[0..4]), DigitsValue(s[5..7]), DigitsValue(s[8..10]),
                            DigitsValue(s[11..13]), DigitsValue(s[14..16]), DigitsValue(s[17..19])))
    else Failure(ParseFault(s))
  }

  function StampText(dt: DateTime): (s: string)
    requires ValidDateTime(dt)
  {
    PadDigits(dt.year, 4) + "-" + PadDigits(dt.month, 2) + "-" + PadDigits(dt.day, 2) + " "
    + PadDigits(dt.hour, 2) + ":" + PadDigits(dt.minute, 2) + ":" + PadDigits(dt.second, 2)
  }

  lemma StampRoundTrip(dt: DateTime)
    requires ValidDateTime(dt)
    ensures ParseStamp(StampText(dt)) == Success(dt)
  {
    var y, mo, da := PadDigits(dt.year, 4), PadDigits(dt.month, 2), PadDigits(dt.day, 2);
    var h, mi, se := PadDigits(dt.hour, 2), PadDigits(dt.minute, 2), PadDigits(dt.second, 2);
    StampPieces(y, mo, da, h, mi, se);
  }

  /** Six digit strings of the stamp's widths, joined by its separators, are
      a stamp whose numeric fields are those strings. */
  lemma StampPieces(y: string, mo: string, da: string, h: string, mi: string, se: string)
    requires |y| == 4 && |mo| == 2 && |da| == 2 && |h| == 2 && |mi| == 2 && |se| == 2
    requires AllDigits(y) && AllDigits(mo) && AllDigits(da) && AllDigits(h) && AllDigits(mi) && AllDigits(se)
    ensures var s := y + "-" + mo + "-" + da + " " + h + ":" + mi + ":" + se;
      IsStampShape(s) && s[0..4] == y && s[5..7] == mo && s[8..10] == da
      && s[11..13] == h && s[14..16] == mi && s[17..19] == se
  {
    var s := y + "-" + mo + "-" + da + " " + h + ":" + mi + ":" + se;
    assert s[0..4] == y;
    assert s[5..7] == mo;
    assert s[8..10] == da;
    assert s[11..13] == h;
    assert s[14..16] == mi;
    assert s[17..19] == se;
  }

  /** The LAST EDITED DATE field: empty means None, otherwise a stamp. */
  function LastEdit(s: string): (r: Parsed<Option<DateTime>>)
    ensures r.Failure? ==> r.error.ParseFault?
    ensures s == "" <==> r == Success(None)
    ensures s != "" && r.Success? ==> r.value.Some? && Success(r.value.value) == ParseStamp(s)
    ensures s != "" ==> (r.Success? <==> ParseStamp(s).Success?)
  {
    if s == "" then Success(None)
    else
      var dt :- ParseStamp(s);
      Success(Some(dt))
  }

  // ---------------------------------------------------------------------------
  // Identifiers, flags and the count rule

  /** GLOBAL UNIQUE IDENTIFIER "URN:...:OBS<digits>": the integer left after
      dropping three characters from the last colon-separated segment. */
  function ObservationId(guid: string): (r: Parsed<int>)
    ensures r.Failure? ==> r.error.ParseFault?
  {
    ParseInt(Drop(LastSegment(guid), 3))
  }

  /** SAMPLING EVENT IDENTIFIER "S<digits>", LOCALITY ID "L<digits>" and
      OBSERVER ID "obsr<digits>": the integer after a prefix of the given width. */
  function PrefixedId(s: string, width: nat): (r: Parsed<int>)
    ensures r.Failure? ==> r.error.ParseFault?
  {
    ParseInt(Drop(s, width))
  }

  /** GROUP IDENTIFIER "G<digits>", or None when nothing follows the first character. */
  function GroupId(s: string): (r: Parsed<Option<int>>)
    ensures r.Failure? ==> r.error.ParseFault?
  {
    IntOrNone(Drop(s, 1))
  }

  lemma ObservationIdOf(urn: string, tag: string, n: nat)
    requires |tag| == 3 && NoSeparator(tag, {':'})
    ensures ObservationId(urn + ":" + tag + NatToString(n)) == Success(n)
  {
    var digits := NatToString(n);
    DigitsHaveNoSeparator(digits, {':'});
    assert urn + ":" + tag + digits == urn + ":" + (tag + digits);
    LastSegmentAfterColon(urn, tag + digits);
    assert Drop(tag + digits, 3) == digits;
    ParseNat(n);
  }

  lemma PrefixedIdOf(prefix: string, n: nat)
    ensures PrefixedId(prefix + NatToString(n), |prefix|) == Success(n)
    ensures |prefix| == 1 ==> GroupId(prefix + NatToString(n)) == Success(Some(n))
  {
    assert Drop(prefix + NatToString(n), |prefix|) == NatToString(n);
    ParseNat(n);
  }

  lemma GroupIdNone(s: string)
    ensures GroupId(s) == Success(None) <==> |s| <= 1
  {
  }

  /** The identifier examples of the eBird format. */
  lemma ChecklistIdExample()
    ensures PrefixedId("S1234567", 1) == Success(1234567)
  {
    assert NatToString(1) == "1";
    assert NatToString(12) == "12";
    assert NatToString(123) == "123";
    assert NatToString(1234) == "1234";
    assert NatToString(12345) == "12345";
    assert NatToString(123456) == "123456";
    assert NatToString(1234567) == "1234567";
    PrefixedIdOf("S", 1234567);
    assert "S" + "1234567" == "S1234567";
  }

  lemma ObserverIdExample()
    ensures PrefixedId("obsr000123", 4) == Success(123)
  {
    ParseZeroPadded("000", 123);
    assert Drop("obsr000123", 4) == "000" + NatToString(123);
  }

  lemma ObservationIdExample()
    ensures ObservationId("URN:CornellLabOfOrnithology:EBIRD:OBS999") == Success(999)
  {
    ObservationIdOf("URN:CornellLabOfOrnithology:EBIRD", "OBS", 999);
    assert "URN:CornellLabOfOrnithology:EBIRD" + ":" + "OBS" + NatToString(999)
        == "URN:CornellLabOfOrnithology:EBIRD:OBS999";
  }

  /** bool(int(s)): any integer, true unless it is zero. */
  function Flag(s: string): (r: Parsed<bool>)
    ensures r.Failure? ==> r.error.ParseFault?
    ensures r.Success? <==> ParseInt(s).Success?
    ensures r.Success? ==> (r.value <==> ParseInt(s).value != 0)
  {
    var n :- ParseInt(s);
    Success(n != 0)
  }

  lemma FlagDigits()
    ensures Flag("0") == Success(false) && Flag("1") == Success(true)
  {
    ParseNat(0);
    ParseNat(1);
  }

  /** OBSERVATION COUNT: "X" means present but not counted. */
  datatype ObservedCount = ObservedCount(numberObserved: Option<string>, isX: bool)

  function CountRule(s: string): (c: ObservedCount)
    ensures c.isX <==> s == "X"
    ensures c.isX <==> c.numberObserved == None
    ensures !c.isX ==> c.numberObserved == Some(s)
  {
    if s == "X" then ObservedCount(None, true) else ObservedCount(Some(s), false)
  }

  // ---------------------------------------------------------------------------
  // The protocol table

  /** The first value paired with `name` in `table[from..]`, or a lookup fault
      naming it: a Python dictionary subscript, whose keys are distinct. */
  function Lookup(table: seq<(string, string)>, name: string, from: nat := 0): (r: Parsed<string>)
    requires from <= |table|
    ensures r.Failure? ==> r.error == LookupFault(name)
    decreases |table| - from
  {
    if from == |table| then Failure(LookupFault(name))
    else if table[from].0 == name then Success(table[from].1)
    else Lookup(table, name, from + 1)
  }

  /** A lookup succeeds exactly for the names in the table, and then yields the
      value of an entry with that name. */
  lemma {:induction false} LookupSpec(table: seq<(string, string)>, name: string, from: nat)
    requires from <= |table|
    ensures Lookup(table, name, from).Success? <==>
      exists i :: from <= i < |table| && table[i].0 == name
    ensures Lookup(table, name, from).Success? ==>
      exists i :: from <= i < |table| && table[i] == (name, Lookup(table, name, from).value)
    decreases |table| - from
  {
    if from < |table| && table[from].0 != name {
      LookupSpec(table, name, from + 1);
    }
  }

  /** The 42 protocol names of the dump with their two-digit codes. */
  const ProtocolTable: seq<(string, string)> := [
    ("Incidental", "20"),
    ("Stationary", "21"),
    ("Traveling", "22"),
    ("Area", "23"),
    ("Trail Tracker", "30"),
    ("Banding", "33"),
    ("Waterbird Count", "34"),
    ("RMBO Early Winter Waterbird Count", "34"),
    ("My Yard Counts", "35"),
    ("LoonWatch", "39"),
    ("Standardized Yard Count", "40"),
    ("Rusty Blackbird Spring Migration Blitz", "41"),
    ("Yellow-billed Magpie Survey - General Observations", "44"),
    ("Yellow-billed Magpie Survey - Traveling Count", "45"),
    ("CWC Point Count", "46"),
    ("CWC Area Search", "47"),
    ("Random", "48"),
    ("Coastal Shorebird Survey", "49"),
    ("Caribbean Martin Survey", "50"),
    ("Greater Gulf Refuge Waterbird Count", "51"),
    ("Oiled Birds", "52"),
    ("Nocturnal Flight Call Count", "54"),
    ("Heron Stationary Count*", "55"),
    ("Heron Area Count", "56"),
    ("Great Texas Birding Classic", "57"),
    ("Audubon Coastal Bird Survey", "58"),
    ("TNC California Waterbird Count", "59"),
    ("eBird Pelagic Protocol", "60"),
    ("IBA Canada (protocol)", "61"),
    ("Historical", "62"),
    ("Traveling - Property Specific", "64"),
    ("Breeding Bird Atlas", "65"),
    ("Birds 'n' Bogs Survey", "66"),
    ("CAC--Common Bird Survey", "67"),
    ("RAM--Iberian Seawatch Network", "68"),
    ("California Brown Pelican Survey", "69"),
    ("BirdLife Australia 20min-2ha survey", "70"),
    ("BirdLife Australia 500m radius search", "71"),
    ("BirdLife Australia 5 km radius search", "72"),
    ("PROALAS", "73"),
    ("International Shorebird Survey (ISS)", "74"),
    ("Tricolored Blackbird Winter Survey", "75")
  ]

  /** protocol_words_to_code: the code of a listed protocol name, or a lookup
      fault for any other name. */
  function ProtocolCode(protocol: string): (r: Parsed<string>)
    ensures r.Failure? ==> r.error == LookupFault(protocol)
  {
    Lookup(ProtocolTable, protocol)
  }

  predicate IsTwoDigitCode(c: string) {
    |c| == 2 && AllDigits(c)
  }

  /** Every code in the protocol table has two digits. */
  lemma ProtocolTableCodes()
    ensures forall i :: 0 <= i < |ProtocolTable| ==> IsTwoDigitCode(ProtocolTable[i].1)
  {
    ProtocolCodes0();
    ProtocolCodes14();
    ProtocolCodes28();
  }

  /** The codes of the table's first, middle and last fourteen entries. */
  lemma ProtocolCodes0()
    ensures forall i :: 0 <= i < 14 ==> IsTwoDigitCode(ProtocolTable[i].1)
  {
    forall i | 0 <= i < 14 ensures IsTwoDigitCode(ProtocolTable[i].1) {
      var c := ProtocolTable[i].1;
      assert |c| == 2 && '0' <= c[0] <= '9' && '0' <= c[1] <= '9';
    }
  }

  lemma ProtocolCodes14()
    ensures forall i :: 14 <= i < 28 ==> IsTwoDigitCode(ProtocolTable[i].1)
  {
    forall i | 14 <= i < 28 ensures IsTwoDigitCode(ProtocolTable[i].1) {
      var c := ProtocolTable[i].1;
      assert |c| == 2 && '0' <= c[0] <= '9' && '0' <= c[1] <= '9';
    }
  }

  lemma ProtocolCodes28()
    ensures forall i :: 28 <= i < 42 ==> IsTwoDigitCode(ProtocolTable[i].1)
  {
    forall i | 28 <= i < 42 ensures IsTwoDigitCode(ProtocolTable[i].1) {
      var c := ProtocolTable[i].1;
      assert |c| == 2 && '0' <= c[0] <= '9' && '0' <= c[1] <= '9';
    }
  }

  /** Every listed name, and only a listed name, has a code, and every code has
      two digits. */
  lemma ProtocolCodeSpec(protocol: string)
    ensures ProtocolCode(protocol).Success? <==>
      exists i :: 0 <= i < |ProtocolTable| && ProtocolTable[i].0 == protocol
    ensures ProtocolCode(protocol).Success? ==> IsTwoDigitCode(ProtocolCode(protocol).value)
  {
    LookupSpec(ProtocolTable, protocol, 0);
    ProtocolTableCodes();
  }

  /** A lookup yields the value of the first entry carrying the name. */
  lemma {:induction false} LookupFirst(table: seq<(string, string)>, name: string, from: nat, i: nat)
    requires from <= i < |table| && table[i].0 == name
    requires forall j :: from <= j < i ==> table[j].0 != name
    ensures Lookup(table, name, from) == Success(table[i].1)
    decreases i - from
  {
    if from < i {
      LookupFirst(table, name, from + 1, i);
    }
  }

  /** A lookup of a name no entry carries is a lookup fault. */
  lemma {:induction false} LookupAbsent(table: seq<(string, string)>, name: string, from: nat)
    requires from <= |table|
    requires forall j :: from <= j < |table| ==> table[j].0 != name
    ensures Lookup(table, name, from) == Failure(LookupFault(name))
    decreases |table| - from
  {
    if from < |table| {
      LookupAbsent(table, name, from + 1);
    }
  }

  /** The documented codes of the common protocols. */
  lemma ProtocolHistorical()
    ensures ProtocolCode("Historical") == Success("62")
  {
    assert ProtocolTable[29] == ("Historical", "62");
    LookupFirst(ProtocolTable, "Historical", 0, 29);
  }

  lemma ProtocolStationary()
    ensures ProtocolCode("Stationary") == Success("21")
  {
    assert ProtocolTable[1] == ("Stationary", "21");
    LookupFirst(ProtocolTable, "Stationary", 0, 1);
  }

  lemma ProtocolTraveling()
    ensures ProtocolCode("Traveling") == Success("22")
  {
    assert ProtocolTable[2] == ("Traveling", "22");
    LookupFirst(ProtocolTable, "Traveling", 0, 2);
  }

  lemma ProtocolIncidental()
    ensures ProtocolCode("Incidental") == Success("20")
  {
    assert ProtocolTable[0] == ("Incidental", "20");
    LookupFirst(ProtocolTable, "Incidental", 0, 0);
  }

  /** The Waterbird Count and its RMBO alias share one code. */
  lemma ProtocolWaterbird()
    ensures ProtocolCode("Waterbird Count") == Success("34")
  {
    assert ProtocolTable[6] == ("Waterbird Count", "34");
    LookupFirst(ProtocolTable, "Waterbird Count", 0, 6);
  }

  lemma ProtocolWaterbirdAlias()
    ensures ProtocolCode("RMBO Early Winter Waterbird Count") == Success("34")
  {
    assert ProtocolTable[7] == ("RMBO Early Winter Waterbird Count", "34");
    LookupFirst(ProtocolTable, "RMBO Early Winter Waterbird Count", 0, 7);
  }

  /** A protocol name that is not listed is a lookup fault. */
  lemma ProtocolUnknown()
    ensures ProtocolCode("Exhaustive Area Count") == Failure(LookupFault("Exhaustive Area Count"))
  {
    forall i | 0 <= i < 42 ensures ProtocolTable[i].0 != "Exhaustive Area Count" {
      var n := ProtocolTable[i].0;
      assert |n| != 21 || n[0] != 'E';
    }
    LookupAbsent(ProtocolTable, "Exhaustive Area Count", 0);
  }

  // ---------------------------------------------------------------------------
  // The taxonomy category table

  /** The categories of the table, each stored as its position. */
  const CategoryNames: seq<string> := ["issf", "form", "domestic", "slash", "intergrade", "spuh", "hybrid"]

  /** The position of `category` in `CategoryNames[from..]`, or a lookup fault
      naming it. */
  function CategoryFrom(category: string, from: nat): (r: Parsed<int>)
    requires from <= |CategoryNames|
    ensures r.Failure? ==> r.error == LookupFault(category)
    decreases |CategoryNames| - from
  {
    if from == |CategoryNames| then Failure(LookupFault(category))
    else if CategoryNames[from] == category then Success(from)
    else CategoryFrom(category, from + 1)
  }

  /** The integer stored for each non-species taxonomy category. */
  function CategoryCode(category: string): (r: Parsed<int>)
    ensures r.Failure? ==> r.error == LookupFault(category)
  {
    CategoryFrom(category, 0)
  }

  lemma {:induction false} CategoryFromSpec(category: string, from: nat, n: int)
    requires from <= |CategoryNames|
    ensures CategoryFrom(category, from) == Success(n) <==> from <= n < |CategoryNames| && CategoryNames[n] == category
    decreases |CategoryNames| - from
  {
    if from < |CategoryNames| {
      CategoryFromSpec(category, from + 1, n);
      if CategoryNames[from] == category && n != from && from <= n < |CategoryNames| {
        assert CategoryNames[n] != CategoryNames[from] by {
          CategoryNamesDistinct(from, n);
        }
      }
    }
  }

  lemma CategoryNamesDistinct(i: nat, j: nat)
    requires i < j < |CategoryNames|
    ensures CategoryNames[i] != CategoryNames[j]
  {
    var a, b := CategoryNames[i], CategoryNames[j];
    assert |a| != |b| || a[0] != b[0];
  }

  /** Each category maps to its position in the table, and only the seven
      listed categories map to anything. */
  lemma CategoryCodeBijective(category: string, n: int)
    ensures CategoryCode(category) == Success(n) <==> 0 <= n < |CategoryNames| && CategoryNames[n] == category
  {
    CategoryFromSpec(category, 0, n);
  }

  lemma CategoryCodeExamples()
    ensures CategoryCode("issf") == Success(0) && CategoryCode("hybrid") == Success(6)
    ensures CategoryCode("species") == Failure(LookupFault("species"))
  {
    CategoryCodeBijective("issf", 0);
    CategoryCodeBijective("hybrid", 6);
    forall n | true ensures CategoryCode("species") != Success(n) {
      CategoryCodeBijective("species", n);
    }
  }
}
