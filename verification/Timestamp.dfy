/** Instants and their RFC 3339 text with trimmed fraction (section 5.6 of RFC 3339), as
    time.Format and time.Parse have it for layout RFC3339Nano, years 0 to 9999. */
module Timestamp {
  import opened Common

  /** Nanoseconds since 0000-01-01T00:00:00Z in the proleptic Gregorian calendar. */
  type Instant = int

  datatype Civil = Civil(year: int, month: int, day: int, hour: int, minute: int, second: int, nano: int)

  // ---------------------------------------------------------------------------
  // The calendar
  // ---------------------------------------------------------------------------

  predicate IsLeap(year: int) {
    year % 4 == 0 && (year % 100 != 0 || year % 400 == 0)
  }

  function DaysInYear(year: int): int {
    if IsLeap(year) then 366 else 365
  }

  function DaysInMonth(year: int, month: int): int {
    if month == 2 then (if IsLeap(year) then 29 else 28)
    else if month == 4 || month == 6 || month == 9 || month == 11 then 30
    else 31
  }

  function DaysBeforeYear(year: nat): nat {
    if year == 0 then 0 else DaysBeforeYear(year - 1) + DaysInYear(year - 1)
  }

  function DaysBeforeMonth(year: int, month: nat): nat {
    if month <= 1 then 0 else DaysBeforeMonth(year, month - 1) + DaysInMonth(year, month - 1)
  }

  predicate ValidCivil(c: Civil) {
    && 0 <= c.year < 10000 && 1 <= c.month <= 12 && 1 <= c.day <= DaysInMonth(c.year, c.month)
    && 0 <= c.hour < 24 && 0 <= c.minute < 60 && 0 <= c.second < 60 && 0 <= c.nano < 1_000_000_000
  }

  const DAY: int := 86_400_000_000_000
  const MINUTE: int := 60_000_000_000

  /** The local time a calendar reading stands for. */
  function LocalNanos(c: Civil): int
    requires 0 <= c.year && 1 <= c.month
  {
    (DaysBeforeYear(c.year) + DaysBeforeMonth(c.year, c.month) + c.day - 1) * DAY
    + ((c.hour * 60 + c.minute) * 60 + c.second) * 1_000_000_000 + c.nano
  }

  /** The year that contains a day, and the day's number in it, counting on from `year`. */
  function FindYear(year: nat, day: nat): (r: (nat, nat))
    ensures r.0 >= year && DaysBeforeYear(r.0) + r.1 == DaysBeforeYear(year) + day && r.1 < DaysInYear(r.0)
    decreases day
  {
    if day < DaysInYear(year) then (year, day) else FindYear(year + 1, day - DaysInYear(year))
  }

  function FindMonth(year: nat, month: nat, day: nat): (r: (nat, nat))
    requires 1 <= month <= 12 && DaysBeforeMonth(year, month) + day < DaysInYear(year)
    ensures month <= r.0 <= 12 && DaysBeforeMonth(year, r.0) + r.1 == DaysBeforeMonth(year, month) + day
    ensures r.1 < DaysInMonth(year, r.0)
    decreases day
  {
    YearLength(year);
    if day < DaysInMonth(year, month) then (month, day)
    else FindMonth(year, month + 1, day - DaysInMonth(year, month))
  }

  lemma YearLength(year: nat)
    ensures DaysBeforeMonth(year, 12) + DaysInMonth(year, 12) == DaysInYear(year)
  {
    assert DaysBeforeMonth(year, 2) == 31;
    assert DaysBeforeMonth(year, 3) == 31 + DaysInMonth(year, 2);
    assert DaysBeforeMonth(year, 5) == DaysBeforeMonth(year, 3) + 61;
    assert DaysBeforeMonth(year, 7) == DaysBeforeMonth(year, 5) + 61;
    assert DaysBeforeMonth(year, 9) == DaysBeforeMonth(year, 7) + 62;
    assert DaysBeforeMonth(year, 11) == DaysBeforeMonth(year, 9) + 61;
  }

  /** The calendar reading of a local time. */
  function ToCivil(local: nat): Civil {
    var days, rest := local / DAY, local % DAY;
    var (year, yday) := FindYear(0, days);
    var (month, mday) := FindMonth(year, 1, yday);
    var secs := rest / 1_000_000_000;
    Civil(year, month, mday + 1, secs / 3600, secs / 60 % 60, secs % 60, rest % 1_000_000_000)
  }

  /** The Gregorian count: 365 days a year, and the leap days before it. */
  lemma {:induction false} GregorianDays(year: nat)
    requires year > 0
    ensures DaysBeforeYear(year) == 365 * year + (year - 1) / 4 - (year - 1) / 100 + (year - 1) / 400 + 1
  {
    if year == 1 {
      assert DaysBeforeYear(1) == DaysBeforeYear(0) + 366;
    } else {
      GregorianDays(year - 1);
      LeapDays(year - 1);
    }
  }

  lemma LeapDays(year: nat)
    requires year > 0
    ensures year / 4 - year / 100 + year / 400 ==
            (year - 1) / 4 - (year - 1) / 100 + (year - 1) / 400 + (if IsLeap(year) then 1 else 0)
  {
    By4(year);
    By100(year);
    By400(year);
  }

  lemma By4(year: nat)
    requires year > 0
    ensures year / 4 == (year - 1) / 4 + (if year % 4 == 0 then 1 else 0)
  {
  }

  lemma By100(year: nat)
    requires year > 0
    ensures year / 100 == (year - 1) / 100 + (if year % 100 == 0 then 1 else 0)
    ensures year % 100 == 0 ==> year % 4 == 0
  {
    var q, m := (year - 1) / 100, (year - 1) % 100;
    assert year == 100 * q + m + 1;
    if m == 99 {
      assert year == 100 * (q + 1) && year == 4 * (25 * (q + 1));
    }
  }

  lemma By400(year: nat)
    requires year > 0
    ensures year / 400 == (year - 1) / 400 + (if year % 400 == 0 then 1 else 0)
    ensures year % 400 == 0 ==> year % 100 == 0
  {
    var q, m := (year - 1) / 400, (year - 1) % 400;
    assert year == 400 * q + m + 1;
    if m == 399 {
      assert year == 400 * (q + 1) && year == 100 * (4 * (q + 1));
    }
  }

  /** The Unix epoch is day 719528. */
  lemma Epoch()
    ensures LocalNanos(Civil(1970, 1, 1, 0, 0, 0, 0)) == 719528 * DAY
  {
    hide DaysBeforeYear;
    GregorianDays(1970);
    assert DaysBeforeMonth(1970, 1) == 0;
  }

  lemma {:induction false} YearsGrow(a: nat, b: nat)
    requires a <= b
    ensures DaysBeforeYear(a) <= DaysBeforeYear(b)
    decreases b
  {
    if a == b {
    } else {
      YearsGrow(a, b - 1);
    }
  }

  /** Local times before the year 10000. */
  predicate InRange(local: int) {
    0 <= local < DaysBeforeYear(10000) * DAY
  }

  lemma ClockParts(rest: nat)
    requires rest < DAY
    ensures var secs := rest / 1_000_000_000;
            && 0 <= secs / 3600 < 24 && 0 <= secs / 60 % 60 < 60
            && ((secs / 3600 * 60 + secs / 60 % 60) * 60 + secs % 60) * 1_000_000_000 + rest % 1_000_000_000 == rest
  {
    var secs := rest / 1_000_000_000;
    assert secs / 60 / 60 == secs / 3600;
  }

  lemma CivilRoundTrip(local: nat)
    requires InRange(local)
    ensures ValidCivil(ToCivil(local)) && LocalNanos(ToCivil(local)) == local
  {
    var days, rest := local / DAY, local % DAY;
    var (year, yday) := FindYear(0, days);
    if year >= 10000 {
      YearsGrow(10000, year);
      assert false;
    }
    ClockParts(rest);
  }

  // ---------------------------------------------------------------------------
  // Digits
  // ---------------------------------------------------------------------------

  const ZERO: Byte := '0' as int

  predicate IsDigit(b: Byte) {
    ZERO <= b <= ZERO + 9
  }

  function Pow10(n: nat): nat {
    if n == 0 then 1 else 10 * Pow10(n - 1)
  }

  function Digits(v: nat, width: nat): (r: Text)
    ensures |r| == width && forall i | 0 <= i < |r| :: IsDigit(r[i])
  {
    if width == 0 then [] else Digits(v / 10, width - 1) + [ZERO + v % 10]
  }

  function Number(text: Text): Option<nat> {
    if text == [] then Some(0)
    else
      var n := |text| - 1;
      match Number(text[..n])
      case None => None
      case Some(v) => if IsDigit(text[n]) then Some(v * 10 + (text[n] - ZERO)) else None
  }

  lemma {:induction false} NumberOfDigits(v: nat, width: nat)
    requires v < Pow10(width)
    ensures Number(Digits(v, width)) == Some(v)
  {
    if width == 0 {
    } else {
      NumberOfDigits(v / 10, width - 1);
      assert Digits(v, width)[..width - 1] == Digits(v / 10, width - 1);
    }
  }

  function Zeros(n: nat): (r: Text)
    ensures |r| == n && forall i | 0 <= i < n :: r[i] == ZERO
  {
    seq(n, _ => ZERO)
  }

  function TrimZeros(text: Text): (r: Text)
    ensures |r| <= |text| && text == r + Zeros(|text| - |r|)
    ensures r != [] ==> r[|r| - 1] != ZERO
  {
    if text != [] && text[|text| - 1] == ZERO then TrimZeros(text[..|text| - 1]) else text
  }

  // ---------------------------------------------------------------------------
  // Format and parse
  // ---------------------------------------------------------------------------

  const HYPHEN: Byte := '-' as int
  const COLON: Byte := ':' as int
  const DOT: Byte := '.' as int
  const PLUS: Byte := '+' as int
  const T: Byte := 'T' as int
  const Z: Byte := 'Z' as int

  function FormatDateTime(c: Civil): Text
    requires ValidCivil(c)
  {
    Digits(c.year, 4) + [HYPHEN] + Digits(c.month, 2) + [HYPHEN] + Digits(c.day, 2) + [T]
    + Digits(c.hour, 2) + [COLON] + Digits(c.minute, 2) + [COLON] + Digits(c.second, 2)
  }

  function FormatFraction(nano: int): Text
    requires 0 <= nano < 1_000_000_000
  {
    if nano == 0 then [] else [DOT] + TrimZeros(Digits(nano, 9))
  }

  /** Zone offsets are whole minutes, less than a day. */
  predicate ValidOffset(offset: int) {
    -1440 < offset < 1440
  }

  function FormatZone(offset: int): Text
    requires ValidOffset(offset)
  {
    if offset == 0 then [Z]
    else
      var abs := if offset < 0 then -offset else offset;
      [if offset < 0 then HYPHEN else PLUS] + Digits(abs / 60, 2) + [COLON] + Digits(abs % 60, 2)
  }

  function Format(c: Civil, offset: int): Text
    requires ValidCivil(c) && ValidOffset(offset)
  {
    FormatDateTime(c) + FormatFraction(c.nano) + FormatZone(offset)
  }

  function Field(text: Text, from: nat, to: nat, lo: nat, hi: nat): Option<nat>
    requires from <= to <= |text|
  {
    match Number(text[from..to])
    case None => None
    case Some(v) => if lo <= v <= hi then Some(v) else None
  }

  function ParseDateTime(text: Text): Option<Civil>
    requires |text| == 19
  {
    var year, month, day := Field(text, 0, 4, 0, 9999), Field(text, 5, 7, 1, 12), Field(text, 8, 10, 1, 31);
    var hour, minute, second := Field(text, 11, 13, 0, 23), Field(text, 14, 16, 0, 59), Field(text, 17, 19, 0, 59);
    if || year.None? || month.None? || day.None? || hour.None? || minute.None? || second.None?
       || text[4] != HYPHEN || text[7] != HYPHEN || text[10] != T || text[13] != COLON || text[16] != COLON
       || day.value > DaysInMonth(year.value, month.value)
    then None
    else Some(Civil(year.value, month.value, day.value, hour.value, minute.value, second.value, 0))
  }

  function DigitRun(text: Text): (n: nat)
    ensures n <= |text| && forall i | 0 <= i < n :: IsDigit(text[i])
  {
    if text != [] && IsDigit(text[0]) then 1 + DigitRun(text[1..]) else 0
  }

  /** Up to nine digits count; shorter fractions are scaled up. */
  function FractionValue(digits: Text): Option<nat> {
    Number((digits + Zeros(9))[..9])
  }

  /** The fraction, if there is one, and the length of its text. */
  function ParseFraction(text: Text): (nat, nat) {
    if |text| >= 2 && text[0] == DOT && IsDigit(text[1]) then
      var n := DigitRun(text[1..]);
      match FractionValue(text[1..1 + n])
      case Some(v) => (v, 1 + n)
      case None => (0, 1 + n)
    else (0, 0)
  }

  function ParseZone(text: Text): Option<int> {
    if text == [Z] then Some(0)
    else if |text| != 6 || (text[0] != HYPHEN && text[0] != PLUS) || text[3] != COLON then None
    else
      match (Field(text, 1, 3, 0, 23), Field(text, 4, 6, 0, 59))
      case (Some(h), Some(m)) =>
        var minutes: int := h * 60 + m;
        Some(if text[0] == HYPHEN then -minutes else minutes)
      case _ => None
  }

  function Parse(text: Text): (r: Option<(Civil, int)>)
    ensures r.Some? ==> 0 <= r.value.0.year && 1 <= r.value.0.month
  {
    if |text| < 19 then None
    else
      match ParseDateTime(text[..19])
      case None => None
      case Some(c) =>
        var (nano, len) := ParseFraction(text[19..]);
        match ParseZone(text[19 + len..])
        case None => None
        case Some(offset) => Some((c.(nano := nano), offset))
  }

  // ---------------------------------------------------------------------------
  // Round trip
  // ---------------------------------------------------------------------------

  lemma TwoDigits(v: nat)
    requires v < 100
    ensures Number(Digits(v, 2)) == Some(v)
  {
    assert Pow10(2) == 100;
    NumberOfDigits(v, 2);
  }

  lemma DateTimeRoundTrip(c: Civil)
    requires ValidCivil(c)
    ensures |FormatDateTime(c)| == 19 && ParseDateTime(FormatDateTime(c)) == Some(c.(nano := 0))
  {
    var text := FormatDateTime(c);
    assert Pow10(4) == 10000;
    NumberOfDigits(c.year, 4);
    TwoDigits(c.month);
    TwoDigits(c.day);
    TwoDigits(c.hour);
    TwoDigits(c.minute);
    TwoDigits(c.second);
    assert text[0..4] == Digits(c.year, 4);
    assert text[5..7] == Digits(c.month, 2);
    assert text[8..10] == Digits(c.day, 2);
    assert text[11..13] == Digits(c.hour, 2);
    assert text[14..16] == Digits(c.minute, 2);
    assert text[17..19] == Digits(c.second, 2);
  }

  lemma ZoneRoundTrip(offset: int)
    requires ValidOffset(offset)
    ensures ParseZone(FormatZone(offset)) == Some(offset)
    ensures FormatZone(offset) != [] && !IsDigit(FormatZone(offset)[0]) && FormatZone(offset)[0] != DOT
  {
    if offset != 0 {
      var abs := if offset < 0 then -offset else offset;
      var text := FormatZone(offset);
      TwoDigits(abs / 60);
      TwoDigits(abs % 60);
      assert text[1..3] == Digits(abs / 60, 2);
      assert text[4..6] == Digits(abs % 60, 2);
    }
  }

  lemma {:induction false} RunOf(digits: Text, rest: Text)
    requires forall i | 0 <= i < |digits| :: IsDigit(digits[i])
    requires rest != [] && !IsDigit(rest[0])
    ensures DigitRun(digits + rest) == |digits|
  {
    if digits == [] {
      assert digits + rest == rest;
    } else {
      RunOf(digits[1..], rest);
      assert (digits + rest)[1..] == digits[1..] + rest;
    }
  }

  lemma {:induction false} PowPositive(n: nat)
    ensures Pow10(n) > 0
  {
    if n == 0 {
    } else {
      PowPositive(n - 1);
    }
  }

  lemma {:induction false} NumberOfZeros(n: nat)
    ensures Number(Zeros(n)) == Some(0)
  {
    if n == 0 {
    } else {
      NumberOfZeros(n - 1);
      assert Zeros(n)[..n - 1] == Zeros(n - 1);
    }
  }

  lemma TrimmedAway(text: Text)
    requires TrimZeros(text) == []
    ensures Number(text) == Some(0)
  {
    NumberOfZeros(|text|);
    assert text == Zeros(|text|);
  }

  lemma TrimmedValue(nano: int)
    requires 0 < nano < 1_000_000_000
    ensures TrimZeros(Digits(nano, 9)) != []
    ensures FractionValue(TrimZeros(Digits(nano, 9))) == Some(nano)
  {
    var all := Digits(nano, 9);
    var kept := TrimZeros(all);
    assert Pow10(9) == 1_000_000_000 by {
      assert Pow10(3) == 1000;
      assert Pow10(6) == 1000 * Pow10(3);
      assert Pow10(9) == 1000 * Pow10(6);
    }
    NumberOfDigits(nano, 9);
    assert (kept + Zeros(9))[..9] == all;
    if kept == [] {
      TrimmedAway(all);
    }
  }

  lemma ParseFractionOf(digits: Text, zone: Text, v: nat)
    requires digits != [] && (forall i | 0 <= i < |digits| :: IsDigit(digits[i])) && FractionValue(digits) == Some(v)
    requires zone != [] && !IsDigit(zone[0])
    ensures ParseFraction([DOT] + digits + zone) == (v, 1 + |digits|)
  {
    var text := [DOT] + digits + zone;
    RunOf(digits, zone);
    assert text[1..] == digits + zone;
    assert text[1..1 + |digits|] == digits;
    assert text[1] == digits[0];
  }

  lemma FractionRoundTrip(nano: int, zone: Text)
    requires 0 <= nano < 1_000_000_000 && zone != [] && !IsDigit(zone[0]) && zone[0] != DOT
    ensures ParseFraction(FormatFraction(nano) + zone) == (nano, |FormatFraction(nano)|)
  {
    if nano > 0 {
      var all := Digits(nano, 9);
      var kept := TrimZeros(all);
      TrimmedValue(nano);
      assert forall i | 0 <= i < |kept| :: kept[i] == all[i];
      ParseFractionOf(kept, zone, nano);
    } else {
      assert FormatFraction(nano) + zone == zone;
    }
  }

  lemma ParseParts(dateTime: Text, fraction: Text, zone: Text, c: Civil, nano: nat, offset: int)
    requires |dateTime| == 19 && ParseDateTime(dateTime) == Some(c)
    requires ParseFraction(fraction + zone) == (nano, |fraction|) && ParseZone(zone) == Some(offset)
    ensures Parse(dateTime + fraction + zone) == Some((c.(nano := nano), offset))
  {
    var text := dateTime + fraction + zone;
    assert text[..19] == dateTime;
    assert text[19..] == fraction + zone;
    assert text[19 + |fraction|..] == zone;
  }

  lemma FormatRoundTrip(c: Civil, offset: int)
    requires ValidCivil(c) && ValidOffset(offset)
    ensures Parse(Format(c, offset)) == Some((c, offset))
  {
    DateTimeRoundTrip(c);
    ZoneRoundTrip(offset);
    FractionRoundTrip(c.nano, FormatZone(offset));
    ParseParts(FormatDateTime(c), FormatFraction(c.nano), FormatZone(offset), c.(nano := 0), c.nano, offset);
  }

  lemma Two(a: nat, b: nat)
    requires a < 10 && b < 10
    ensures Digits(10 * a + b, 2) == [ZERO + a, ZERO + b]
  {
    assert (10 * a + b) / 10 == a && (10 * a + b) % 10 == b;
    assert Digits(a, 1) == Digits(0, 0) + [ZERO + a % 10];
  }

  lemma Four(a: nat, b: nat, c: nat, d: nat)
    requires a < 10 && b < 10 && c < 10 && d < 10
    ensures Digits(1000 * a + 100 * b + 10 * c + d, 4) == [ZERO + a, ZERO + b, ZERO + c, ZERO + d]
  {
    var v := 1000 * a + 100 * b + 10 * c + d;
    assert v / 10 == 100 * a + 10 * b + c && v / 10 / 10 == 10 * a + b;
    assert Digits(v, 4) == Digits(v / 10 / 10, 2) + [ZERO + c] + [ZERO + d];
    Two(a, b);
  }

  lemma KnownDateTime()
    ensures FormatDateTime(Civil(2024, 2, 29, 12, 34, 56, 0)) == Ascii("2024-02-29T12:34:56")
  {
    hide Digits;
    Four(2, 0, 2, 4);
    Two(0, 2);
    Two(2, 9);
    Two(1, 2);
    Two(3, 4);
    Two(5, 6);
  }

  lemma KnownZone()
    ensures FormatZone(330) == Ascii("+05:30") && FormatZone(-330) == Ascii("-05:30") && FormatZone(0) == Ascii("Z")
  {
    hide Digits;
    Two(0, 5);
    Two(3, 0);
  }

  /** A time as section 5.6 of RFC 3339 has it, with an offset and a fraction. */
  lemma KnownFormat()
    ensures Format(Civil(2024, 2, 29, 12, 34, 56, 120_000_000), 330) == Ascii("2024-02-29T12:34:56.12+05:30")
  {
    hide Digits, FormatDateTime, FormatZone, TrimZeros;
    KnownDateTime();
    KnownZone();
    TwelveHundredths();
    NanoDoesNotShow(Civil(2024, 2, 29, 12, 34, 56, 0), 120_000_000);
    assert Ascii("2024-02-29T12:34:56") + Ascii(".12") + Ascii("+05:30") == Ascii("2024-02-29T12:34:56.12+05:30");
  }

  lemma NanoDoesNotShow(c: Civil, nano: int)
    requires ValidCivil(c) && 0 <= nano < 1_000_000_000
    ensures FormatDateTime(c.(nano := nano)) == FormatDateTime(c)
  {
  }

  lemma TwelveHundredths()
    ensures TrimZeros(Digits(120_000_000, 9)) == [ZERO + 1, ZERO + 2]
  {
    Two(1, 2);
    PadDigits(12, 2, 7);
    assert Pow10(7) == 10_000_000;
    TrimPadded([ZERO + 1, ZERO + 2], 7);
  }

  lemma {:induction false} PadDigits(v: nat, width: nat, n: nat)
    ensures Digits(v * Pow10(n), width + n) == Digits(v, width) + Zeros(n)
  {
    if n == 0 {
    } else {
      PadDigits(v, width, n - 1);
      assert v * Pow10(n) == 10 * (v * Pow10(n - 1));
      assert Zeros(n) == Zeros(n - 1) + [ZERO];
    }
  }

  lemma {:induction false} TrimPadded(text: Text, n: nat)
    requires text != [] && text[|text| - 1] != ZERO
    ensures TrimZeros(text + Zeros(n)) == text
  {
    if n == 0 {
      assert text + Zeros(0) == text;
    } else {
      TrimPadded(text, n - 1);
      assert (text + Zeros(n))[..|text| + n - 1] == text + Zeros(n - 1);
    }
  }
}
