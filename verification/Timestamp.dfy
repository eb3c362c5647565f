/** Canonical UTC timestamps (section 5.6 of RFC 3339): parsing, printing and
    the calendar they are ordered by. */
module Timestamp {
  import opened Ordering
  import opened Identity
  import opened Arithmetic

  datatype UtcTimestamp = UtcTimestamp(
    year: nat, month: nat, day: nat, hour: nat, minute: nat, second: nat, nanosecond: nat)

  // ---------- the calendar ----------

  predicate IsLeap(year: nat) {
    year % 400 == 0 || (year % 4 == 0 && year % 100 != 0)
  }

  function DaysInMonth(year: nat, month: nat): nat {
    if month in {1, 3, 5, 7, 8, 10, 12} then 31
    else if month in {4, 6, 9, 11} then 30
    else if month == 2 then (if IsLeap(year) then 29 else 28)
    else 0
  }

  predicate Valid(t: UtcTimestamp) {
    && 1 <= t.year <= 9999 && 1 <= t.month <= 12 && 1 <= t.day <= DaysInMonth(t.year, t.month)
    && t.hour <= 23 && t.minute <= 59 && t.second <= 59 && t.nanosecond < 1_000_000_000
  }

  /** Field by field, most significant first: the derived order. */
  predicate Before(a: UtcTimestamp, b: UtcTimestamp) {
    if a.year != b.year then a.year < b.year
    else if a.month != b.month then a.month < b.month
    else if a.day != b.day then a.day < b.day
    else if a.hour != b.hour then a.hour < b.hour
    else if a.minute != b.minute then a.minute < b.minute
    else if a.second != b.second then a.second < b.second
    else a.nanosecond < b.nanosecond
  }

  function YearLength(year: nat): nat {
    if IsLeap(year) then 366 else 365
  }

  function DaysBeforeYear(year: nat): nat {
    if year <= 1 then 0 else DaysBeforeYear(year - 1) + YearLength(year - 1)
  }

  function DaysBeforeMonth(year: nat, month: nat): nat {
    if month <= 1 then 0 else DaysBeforeMonth(year, month - 1) + DaysInMonth(year, month - 1)
  }

  /** Days since 1 January of year 1. */
  function DayNumber(t: UtcTimestamp): int {
    DaysBeforeYear(t.year) + DaysBeforeMonth(t.year, t.month) + t.day - 1
  }

  function NanoOfDay(t: UtcTimestamp): nat {
    ((t.hour * 60 + t.minute) * 60 + t.second) * 1_000_000_000 + t.nanosecond
  }

  const NANOS_PER_DAY: nat := 86_400_000_000_000

  /** Nanoseconds since the start of year 1. */
  function EpochNanos(t: UtcTimestamp): int {
    DayNumber(t) * NANOS_PER_DAY + NanoOfDay(t)
  }

  lemma {:induction false} MonthsAddUp(year: nat, month: nat, later: nat)
    requires 1 <= month < later
    ensures DaysBeforeMonth(year, month) + DaysInMonth(year, month) <= DaysBeforeMonth(year, later)
    decreases later
  {
    if month + 1 < later { MonthsAddUp(year, month, later - 1); }
  }

  lemma TwelveMonths(year: nat)
    ensures DaysBeforeMonth(year, 13) == YearLength(year)
  {
    var february := DaysInMonth(year, 2);
    assert DaysBeforeMonth(year, 1) == 0;
    assert DaysBeforeMonth(year, 2) == 31;
    assert DaysBeforeMonth(year, 3) == 31 + february;
    assert DaysBeforeMonth(year, 4) == 62 + february;
    assert DaysBeforeMonth(year, 5) == 92 + february;
    assert DaysBeforeMonth(year, 6) == 123 + february;
    assert DaysBeforeMonth(year, 7) == 153 + february;
    assert DaysBeforeMonth(year, 8) == 184 + february;
    assert DaysBeforeMonth(year, 9) == 215 + february;
    assert DaysBeforeMonth(year, 10) == 245 + february;
    assert DaysBeforeMonth(year, 11) == 276 + february;
    assert DaysBeforeMonth(year, 12) == 306 + february;
  }

  lemma {:induction false} YearsAddUp(year: nat, later: nat)
    requires 1 <= year < later
    ensures DaysBeforeYear(year) + YearLength(year) <= DaysBeforeYear(later)
    decreases later
  {
    if year + 1 < later { YearsAddUp(year, later - 1); }
  }

  lemma DayInYear(t: UtcTimestamp)
    requires Valid(t)
    ensures DaysBeforeMonth(t.year, t.month) + t.day <= YearLength(t.year)
  {
    TwelveMonths(t.year);
    MonthsAddUp(t.year, t.month, 13);
  }

  predicate SameDay(a: UtcTimestamp, b: UtcTimestamp) {
    a.year == b.year && a.month == b.month && a.day == b.day
  }

  predicate EarlierDay(a: UtcTimestamp, b: UtcTimestamp) {
    || a.year < b.year
    || (a.year == b.year && (a.month < b.month || (a.month == b.month && a.day < b.day)))
  }

  lemma EarlierDayCounts(a: UtcTimestamp, b: UtcTimestamp)
    requires Valid(a) && Valid(b) && EarlierDay(a, b)
    ensures DayNumber(a) < DayNumber(b)
  {
    if a.year < b.year {
      DayInYear(a);
      YearsAddUp(a.year, b.year);
    } else if a.month < b.month {
      MonthsAddUp(a.year, a.month, b.month);
    }
  }

  lemma NanosFitTheDay(t: UtcTimestamp)
    requires Valid(t)
    ensures NanoOfDay(t) < NANOS_PER_DAY
  {
  }

  lemma EarlierIsSmaller(a: UtcTimestamp, b: UtcTimestamp)
    requires Valid(a) && Valid(b) && Before(a, b)
    ensures EpochNanos(a) < EpochNanos(b)
  {
    NanosFitTheDay(a);
    if !SameDay(a, b) {
      EarlierDayCounts(a, b);
    }
  }

  /** The derived field order is the order of time, for all valid timestamps. */
  lemma OrderIsTime(a: UtcTimestamp, b: UtcTimestamp)
    requires Valid(a) && Valid(b)
    ensures Before(a, b) <==> EpochNanos(a) < EpochNanos(b)
    ensures EpochNanos(a) == EpochNanos(b) <==> a == b
  {
    if Before(a, b) {
      EarlierIsSmaller(a, b);
    } else if a != b {
      EarlierIsSmaller(b, a);
    }
  }

  // ---------- digits ----------

  function Pow10(k: nat): (r: nat)
    ensures r > 0
  {
    if k == 0 then 1 else 10 * Pow10(k - 1)
  }

  predicate IsDigit(c: char) { '0' <= c <= '9' }

  predicate AllDigits(s: string) { forall i :: 0 <= i < |s| ==> IsDigit(s[i]) }

  function DigitValue(c: char): (r: nat)
    requires IsDigit(c)
    ensures r < 10
  {
    c as int - '0' as int
  }

  function Number(s: string): nat
    requires AllDigits(s)
  {
    if s == "" then 0 else Number(s[..|s| - 1]) * 10 + DigitValue(s[|s| - 1])
  }

  function Pad(n: nat, width: nat): (s: string)
    ensures |s| == width && AllDigits(s)
  {
    if width == 0 then "" else Pad(n / 10, width - 1) + [Digit(n % 10)]
  }

  lemma {:induction false} NumberIsBounded(s: string)
    requires AllDigits(s)
    ensures Number(s) < Pow10(|s|)
  {
    if s != "" { NumberIsBounded(s[..|s| - 1]); }
  }

  lemma {:induction false} NumberOfPad(n: nat, width: nat)
    requires n < Pow10(width)
    ensures Number(Pad(n, width)) == n
  {
    if width > 0 {
      NumberOfPad(n / 10, width - 1);
      assert Pad(n, width)[..width - 1] == Pad(n / 10, width - 1);
    }
  }

  lemma {:induction false} PadOfNumber(s: string)
    requires AllDigits(s)
    ensures Pad(Number(s), |s|) == s
  {
    if s != "" {
      var front, last := s[..|s| - 1], s[|s| - 1];
      PadOfNumber(front);
      assert Number(s) / 10 == Number(front) && Number(s) % 10 == DigitValue(last);
      assert Digit(DigitValue(last)) == last;
      assert s == front + [last];
    }
  }

  lemma Powers()
    ensures Pow10(2) == 100 && Pow10(4) == 10_000 && Pow10(9) == 1_000_000_000
  {
    assert Pow10(1) == 10 && Pow10(3) == 1_000 && Pow10(5) == 100_000 && Pow10(6) == 1_000_000;
    assert Pow10(7) == 10_000_000 && Pow10(8) == 100_000_000;
  }

  lemma Regroup(a: nat, b: nat, c: nat)
    ensures a * (10 * b) == 10 * (a * b) && (10 * a) * c == 10 * (a * c)
  {
  }

  lemma {:induction false} PowersMultiply(a: nat, b: nat)
    ensures Pow10(a) * Pow10(b) == Pow10(a + b)
  {
    if a > 0 {
      PowersMultiply(a - 1, b);
      Regroup(Pow10(a - 1), 0, Pow10(b));
      assert Pow10(a + b) == 10 * Pow10(a - 1 + b);
    }
  }

  lemma {:induction false} PowersGrow(a: nat, b: nat)
    requires a <= b
    ensures Pow10(a) <= Pow10(b)
  {
    if a < b { PowersGrow(a, b - 1); }
  }

  // ---------- parsing ----------

  /** Digits folded into 32 bits. Up to nine digits never leave the range. */
  method FoldDigits(digits: string) returns (value: nat)
    requires AllDigits(digits) && |digits| <= 9
    ensures value == Number(digits) <= U32_MAX
  {
    Powers();
    value := 0;
    for i := 0 to |digits|
      invariant value == Number(digits[..i]) <= U32_MAX
    {
      assert digits[..i + 1][..i] == digits[..i];
      NumberIsBounded(digits[..i + 1]);
      PowersGrow(i + 1, 9);
      value := value * 10 + DigitValue(digits[i]);
    }
    assert digits[..|digits|] == digits;
  }

  /** Scales a fraction to nanoseconds by repeated multiplication. */
  method ScaleFraction(digits: string) returns (nanos: nat)
    requires AllDigits(digits) && |digits| <= 9
    ensures nanos == Number(digits) * Pow10(9 - |digits|) < 1_000_000_000
  {
    Powers();
    nanos := FoldDigits(digits);
    NumberIsBounded(digits);
    for k := |digits| to 9
      invariant nanos == Number(digits) * Pow10(k - |digits|)
      invariant nanos < Pow10(k) <= U32_MAX
    {
      PowersGrow(k + 1, 9);
      ScaleStep(Number(digits), k - |digits|);
      nanos := nanos * 10;
    }
  }

  lemma ScaleStep(n: nat, k: nat)
    ensures n * Pow10(k + 1) == (n * Pow10(k)) * 10
  {
    Regroup(n, Pow10(k), 0);
  }

  predicate FixedShape(s: string) {
    |s| >= 20 && s[4] == '-' && s[7] == '-' && s[10] == 'T' && s[13] == ':' && s[16] == ':' && s[|s| - 1] == 'Z'
  }

  predicate DigitsInPlace(s: string)
    requires |s| >= 20
  {
    && AllDigits(s[0..4]) && AllDigits(s[5..7]) && AllDigits(s[8..10])
    && AllDigits(s[11..13]) && AllDigits(s[14..16]) && AllDigits(s[17..19])
  }

  /** The width of a well-formed fraction; none for a bare second. */
  predicate HasFraction(s: string, width: nat)
    requires |s| >= 20
  {
    if width == 0 then |s| == 20
    else width <= 9 && |s| == 21 + width && s[19] == '.' && AllDigits(s[20..20 + width])
  }

  function Fields(s: string, width: nat): UtcTimestamp
    requires FixedShape(s) && DigitsInPlace(s) && HasFraction(s, width)
  {
    UtcTimestamp(Number(s[0..4]), Number(s[5..7]), Number(s[8..10]), Number(s[11..13]), Number(s[14..16]),
      Number(s[17..19]),
      if width == 0 then 0 else Number(s[20..20 + width]) * Pow10(9 - width))
  }

  /** `s` is a timestamp denoting `t`. */
  ghost predicate Denotes(s: string, t: UtcTimestamp) {
    && FixedShape(s) && DigitsInPlace(s) && Valid(t)
    && exists width: nat :: HasFraction(s, width) && t == Fields(s, width)
  }

  datatype TimestampError = NotCanonical | InvalidCalendarValue

  /** `s` has the canonical form, whatever its calendar values. */
  ghost predicate Canonical(s: string) {
    FixedShape(s) && DigitsInPlace(s) && exists width: nat :: HasFraction(s, width)
  }

  method ParseUtcTimestamp(s: string) returns (r: Result<UtcTimestamp, TimestampError>)
    ensures r.Ok? ==> Denotes(s, r.value)
    ensures r == Err(NotCanonical) <==> !Canonical(s)
    ensures r == Err(InvalidCalendarValue) <==> Canonical(s) && forall t :: !Denotes(s, t)
  {
    if !FixedShape(s) || !DigitsInPlace(s) { return Err(NotCanonical); }
    var year := FoldDigits(s[0..4]);
    var month := FoldDigits(s[5..7]);
    var day := FoldDigits(s[8..10]);
    var hour := FoldDigits(s[11..13]);
    var minute := FoldDigits(s[14..16]);
    var second := FoldDigits(s[17..19]);
    var width := if |s| >= 21 then |s| - 21 else 0;
    if !(|s| == 20 || (22 <= |s| <= 30 && s[19] == '.' && AllDigits(s[20..|s| - 1]))) {
      assert forall w: nat :: !HasFraction(s, w);
      return Err(NotCanonical);
    }
    assert HasFraction(s, width) && Canonical(s);
    FieldsDecide(s, width);
    var nanosecond := 0;
    if width > 0 { nanosecond := ScaleFraction(s[20..20 + width]); }
    var t := UtcTimestamp(year, month, day, hour, minute, second, nanosecond);
    assert t == Fields(s, width);
    NumberIsBounded(s[0..4]);
    Powers();
    if year == 0 || !(1 <= month <= 12) || day == 0 || day > DaysInMonth(year, month) || hour > 23 || minute > 59 ||
      second > 59 {
      assert !Valid(t);
      return Err(InvalidCalendarValue);
    }
    assert Valid(t) && Denotes(s, t);
    return Ok(t);
  }

  /** A canonical text denotes its fields, if they are calendar values. */
  lemma FieldsDecide(s: string, width: nat)
    requires FixedShape(s) && DigitsInPlace(s) && HasFraction(s, width)
    ensures forall t :: Denotes(s, t) <==> Valid(t) && t == Fields(s, width)
  {
    assert forall w: nat :: HasFraction(s, w) ==> w == width;
  }

  // ---------- printing ----------

  function Date(t: UtcTimestamp): (s: string)
    ensures |s| == 10
  {
    Pad(t.year, 4) + "-" + Pad(t.month, 2) + "-" + Pad(t.day, 2)
  }

  function Clock(t: UtcTimestamp): (s: string)
    ensures |s| == 8
  {
    Pad(t.hour, 2) + ":" + Pad(t.minute, 2) + ":" + Pad(t.second, 2)
  }

  /** The first `width` fractional digits, as a number. */
  function Leading(t: UtcTimestamp, width: nat): nat
    requires width <= 9
  {
    Quotient(t.nanosecond, Pow10(9 - width))
  }

  function Fraction(t: UtcTimestamp, width: nat): (s: string)
    requires width <= 9
    ensures |s| == if width == 0 then 0 else width + 1
  {
    if width == 0 then "" else "." + Pad(Leading(t, width), width)
  }

  function Print(t: UtcTimestamp, width: nat): string
    requires width <= 9
  {
    Join(Date(t), Clock(t), Fraction(t, width))
  }

  function Join(date: string, clock: string, fraction: string): string {
    date + "T" + clock + fraction + "Z"
  }

  /** A fraction of this width loses nothing. */
  predicate Fits(t: UtcTimestamp, width: nat) {
    width <= 9 && Leading(t, width) * Pow10(9 - width) == t.nanosecond
  }

  lemma JoinParts(date: string, clock: string, fraction: string)
    requires |date| == 10 && |clock| == 8
    ensures var s := Join(date, clock, fraction);
            && |s| == 20 + |fraction| && s[..10] == date && s[10] == 'T' && s[11..19] == clock
            && s[19..|s| - 1] == fraction && s[|s| - 1] == 'Z'
  {
  }

  lemma Rejoin(s: string)
    requires |s| >= 20 && s[10] == 'T' && s[|s| - 1] == 'Z'
    ensures s == Join(s[..10], s[11..19], s[19..|s| - 1])
  {
  }

  lemma Inner(s: string, i: nat, j: nat, a: nat, b: nat)
    requires i <= j <= |s| && a <= b <= j - i
    ensures s[i..j][a..b] == s[i + a..i + b]
  {
    var x, y := s[i..j][a..b], s[i + a..i + b];
    forall k | 0 <= k < b - a ensures x[k] == y[k] {
      assert x[k] == s[i..j][a + k];
    }
  }

  lemma ThreeParts(a: string, sep: string, b: string, c: string)
    requires |sep| == 1
    ensures var s, i := a + sep + b + sep + c, |a| + 1;
            && |s| == |a| + |b| + |c| + 2 && s[0..|a|] == a && s[|a|] == sep[0] && s[i..i + |b|] == b
            && s[i + |b|] == sep[0] && s[i + |b| + 1..] == c
  {
    var s := a + sep + b + sep + c;
    assert s == a + (sep + b + sep + c);
    assert s == (a + sep) + b + (sep + c);
    Middle(a + sep, b, sep + c);
    Middle(a + sep + b + sep, c, "");
    assert s + "" == s;
  }

  lemma Middle(x: string, y: string, z: string)
    ensures (x + y + z)[|x|..|x| + |y|] == y
  {
  }

  lemma DateParts(t: UtcTimestamp)
    ensures var d := Date(t);
            d[0..4] == Pad(t.year, 4) && d[4] == '-' && d[5..7] == Pad(t.month, 2) && d[7] == '-' &&
              d[8..10] == Pad(t.day, 2)
  {
    ThreeParts(Pad(t.year, 4), "-", Pad(t.month, 2), Pad(t.day, 2));
  }

  lemma ClockParts(t: UtcTimestamp)
    ensures var c := Clock(t);
            c[0..2] == Pad(t.hour, 2) && c[2] == ':' && c[3..5] == Pad(t.minute, 2) && c[5] == ':' &&
              c[6..8] == Pad(t.second, 2)
  {
    ThreeParts(Pad(t.hour, 2), ":", Pad(t.minute, 2), Pad(t.second, 2));
  }

  lemma Split(d: string, i: nat, j: nat)
    requires i < j < |d|
    ensures d == d[0..i] + [d[i]] + d[i + 1..j] + [d[j]] + d[j + 1..]
  {
  }

  lemma DateFrom(d: string, t: UtcTimestamp)
    requires |d| == 10 && d[4] == '-' && d[7] == '-'
    requires d[0..4] == Pad(t.year, 4) && d[5..7] == Pad(t.month, 2) && d[8..10] == Pad(t.day, 2)
    ensures d == Date(t)
  {
    Split(d, 4, 7);
    assert d[8..] == d[8..10];
  }

  lemma ClockFrom(c: string, t: UtcTimestamp)
    requires |c| == 8 && c[2] == ':' && c[5] == ':'
    requires c[0..2] == Pad(t.hour, 2) && c[3..5] == Pad(t.minute, 2) && c[6..8] == Pad(t.second, 2)
    ensures c == Clock(t)
  {
    Split(c, 2, 5);
    assert c[6..] == c[6..8];
  }

  /** The slices of a timestamp through its date and its clock. */
  lemma Slices(s: string)
    requires |s| >= 20
    ensures var d, c := s[..10], s[11..19];
            && s[0..4] == d[0..4] && s[4] == d[4] && s[5..7] == d[5..7] && s[7] == d[7] && s[8..10] == d[8..10]
            && s[11..13] == c[0..2] && s[13] == c[2] && s[14..16] == c[3..5] && s[16] == c[5] && s[17..19] == c[6..8]
  {
    Inner(s, 0, 10, 0, 4);
    Inner(s, 0, 10, 5, 7);
    Inner(s, 0, 10, 8, 10);
    Inner(s, 11, 19, 0, 2);
    Inner(s, 11, 19, 3, 5);
    Inner(s, 11, 19, 6, 8);
  }

  lemma LeadingFits(t: UtcTimestamp, width: nat)
    requires t.nanosecond < 1_000_000_000 && Fits(t, width)
    ensures Leading(t, width) < Pow10(width) && Leading(t, width) * Pow10(9 - width) == t.nanosecond
  {
    Powers();
    PowersMultiply(width, 9 - width);
    Grows(Pow10(9 - width), Leading(t, width), Pow10(width));
  }

  lemma PrintedSlices(t: UtcTimestamp, width: nat)
    requires Valid(t) && width <= 9
    ensures var s := Print(t, width);
            && FixedShape(s) && DigitsInPlace(s) && s[19..|s| - 1] == Fraction(t, width)
            && |s| == 20 + |Fraction(t, width)|
            && s[0..4] == Pad(t.year, 4) && s[5..7] == Pad(t.month, 2) && s[8..10] == Pad(t.day, 2)
            && s[11..13] == Pad(t.hour, 2) && s[14..16] == Pad(t.minute, 2) && s[17..19] == Pad(t.second, 2)
  {
    JoinParts(Date(t), Clock(t), Fraction(t, width));
    Slices(Print(t, width));
    DateParts(t);
    ClockParts(t);
  }

  lemma PrintedFraction(t: UtcTimestamp, width: nat)
    requires Valid(t) && 0 < width <= 9
    ensures var s := Print(t, width);
            |s| == 21 + width && s[19] == '.' && s[20..20 + width] == Pad(Leading(t, width), width)
  {
    var s, f := Print(t, width), Fraction(t, width);
    PrintedSlices(t, width);
    assert f[0] == '.' && f[1..] == Pad(Leading(t, width), width);
    Inner(s, 19, |s| - 1, 1, |f|);
    assert s[19..|s| - 1][0] == s[19];
  }

  lemma ReadsBack(t: UtcTimestamp)
    requires Valid(t)
    ensures Number(Pad(t.year, 4)) == t.year && Number(Pad(t.month, 2)) == t.month && Number(Pad(t.day, 2)) == t.day
    ensures Number(Pad(t.hour, 2)) == t.hour && Number(Pad(t.minute, 2)) == t.minute &&
            Number(Pad(t.second, 2)) == t.second
  {
    Powers();
    NumberOfPad(t.year, 4);
    NumberOfPad(t.month, 2);
    NumberOfPad(t.day, 2);
    NumberOfPad(t.hour, 2);
    NumberOfPad(t.minute, 2);
    NumberOfPad(t.second, 2);
  }

  /** Printing then parsing returns the same instant. */
  lemma PrintedDenotes(t: UtcTimestamp, width: nat)
    requires Valid(t) && Fits(t, width)
    ensures Denotes(Print(t, width), t)
  {
    var s := Print(t, width);
    PrintedSlices(t, width);
    ReadsBack(t);
    LeadingFits(t, width);
    if width > 0 {
      PrintedFraction(t, width);
      NumberOfPad(Leading(t, width), width);
    } else {
      Powers();
    }
    assert HasFraction(s, width) && t == Fields(s, width);
  }

  lemma DenotedParts(s: string, t: UtcTimestamp, width: nat)
    requires FixedShape(s) && DigitsInPlace(s) && HasFraction(s, width) && t == Fields(s, width)
    ensures s[..10] == Date(t) && s[11..19] == Clock(t)
  {
    Slices(s);
    PadOfNumber(s[0..4]);
    PadOfNumber(s[5..7]);
    PadOfNumber(s[8..10]);
    PadOfNumber(s[11..13]);
    PadOfNumber(s[14..16]);
    PadOfNumber(s[17..19]);
    DateFrom(s[..10], t);
    ClockFrom(s[11..19], t);
  }

  lemma DenotedFraction(s: string, t: UtcTimestamp, width: nat)
    requires FixedShape(s) && DigitsInPlace(s) && HasFraction(s, width) && t == Fields(s, width)
    ensures Fits(t, width) && s[19..|s| - 1] == Fraction(t, width)
  {
    if width > 0 {
      var f := s[20..20 + width];
      PadOfNumber(f);
      ExactQuotient(Number(f), Pow10(9 - width));
      assert s[19..|s| - 1] == [s[19]] + f;
    }
  }

  /** The accepted strings are exactly the printed forms: every denoted instant
      prints back to the string it came from, at that string's own width. */
  lemma ParsesExactlyThePrinted(s: string, t: UtcTimestamp)
    ensures Denotes(s, t) <==> Valid(t) && exists width: nat :: Fits(t, width) && s == Print(t, width)
  {
    if Denotes(s, t) {
      var width: nat :| HasFraction(s, width) && t == Fields(s, width);
      DenotedParts(s, t, width);
      DenotedFraction(s, t, width);
      Rejoin(s);
      assert Fits(t, width) && s == Print(t, width);
    }
    if Valid(t) && exists width: nat :: Fits(t, width) && s == Print(t, width) {
      var width: nat :| Fits(t, width) && s == Print(t, width);
      PrintedDenotes(t, width);
    }
  }
}
