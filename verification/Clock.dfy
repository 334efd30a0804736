/** Points in time and their RFC 3339 text. */
module Clock {
  import opened Text

  const NANOS_PER_SECOND := 1_000_000_000
  const NANOS_PER_DAY := 86_400_000_000_000

  /** Days from year 0 to year 10000. */
  const DAYS_IN_RANGE := 3_652_425

  /** Nanoseconds since the start of year 0, UTC. */
  type Instant = int

  /** Go's zero `time.Time`: the first day of year 1. */
  const ZERO_TIME: Instant := 366 * NANOS_PER_DAY

  /** An instant together with the zone offset, in minutes, it is written in. */
  datatype Stamp = Stamp(nanos: Instant, offset: int)

  /** A time that JSON can carry: its local year has four digits and its offset is under a day.
      Every time decoded from JSON is one. */
  type Time = t: Stamp | Printable(t) witness Stamp(0, 0)

  /** An instant with a four-digit year in UTC. */
  type UtcInstant = n: int | Printable(Stamp(n, 0)) witness 0

  predicate Printable(t: Stamp) {
    0 <= Local(t) < DAYS_IN_RANGE * NANOS_PER_DAY && -1440 < t.offset < 1440
  }

  function Local(t: Stamp): int { t.nanos + t.offset * 60 * NANOS_PER_SECOND }

  predicate IsLeap(year: nat) { year % 4 == 0 && (year % 100 != 0 || year % 400 == 0) }

  /** Days before 1 January of `year`. */
  function YearStart(year: nat): nat {
    365 * year + (year + 3) / 4 - (year + 99) / 100 + (year + 399) / 400
  }

  function YearOf(day: nat, from: nat): (year: nat)
    requires from <= 9999 && YearStart(from) <= day < DAYS_IN_RANGE
    ensures from <= year <= 9999
    ensures YearStart(year) <= day < YearStart(year + 1)
    decreases 10000 - from
  {
    if day < YearStart(from + 1) then from else YearOf(day, from + 1)
  }

  /** Days before the first of `month` in its year. */
  function MonthStart(leap: bool, month: nat): nat
    requires 1 <= month <= 13
  {
    [0, 31, 59, 90, 120, 151, 181, 212, 243, 273, 304, 334, 365][month - 1] + (if leap && month > 2 then 1 else 0)
  }

  lemma MonthLength(leap: bool, month: nat)
    requires 1 <= month <= 12
    ensures MonthStart(leap, month + 1) <= MonthStart(leap, month) + 31
  {}

  function MonthOf(leap: bool, dayOfYear: nat, from: nat): (month: nat)
    requires 1 <= from <= 12 && MonthStart(leap, from) <= dayOfYear < MonthStart(leap, 13)
    ensures from <= month <= 12
    ensures MonthStart(leap, month) <= dayOfYear < MonthStart(leap, month) + 31
    decreases 13 - from
  {
    MonthLength(leap, from);
    if dayOfYear < MonthStart(leap, from + 1) then from else MonthOf(leap, dayOfYear, from + 1)
  }

  lemma FourthYears(year: nat)
    ensures (year + 4) / 4 == (year + 3) / 4 + if year % 4 == 0 then 1 else 0
  {}

  lemma CenturyYears(year: nat)
    ensures (year + 100) / 100 == (year + 99) / 100 + if year % 100 == 0 then 1 else 0
  {
    var century, rest := year / 100, year % 100;
    assert year == 100 * century + rest;
    assert (100 * century + rest + 99) / 100 == century + (rest + 99) / 100;
  }

  lemma FourCenturyYears(year: nat)
    ensures (year + 400) / 400 == (year + 399) / 400 + if year % 400 == 0 then 1 else 0
  {
    var era, rest := year / 400, year % 400;
    assert year == 400 * era + rest;
    assert (400 * era + rest + 399) / 400 == era + (rest + 399) / 400;
  }

  lemma MultipleOfFour(n: nat)
    ensures 4 * n % 4 == 0
  {}

  lemma MultipleOfHundred(n: nat)
    ensures 100 * n % 100 == 0
  {}

  lemma CenturiesDivide(year: nat)
    ensures year % 100 == 0 ==> year % 4 == 0
    ensures year % 400 == 0 ==> year % 100 == 0
  {
    MultipleOfFour(25 * (year / 100));
    MultipleOfHundred(4 * (year / 400));
  }

  lemma YearLength(year: nat)
    ensures YearStart(year + 1) == YearStart(year) + (if IsLeap(year) then 366 else 365)
  {
    FourthYears(year);
    CenturyYears(year);
    FourCenturyYears(year);
    CenturiesDivide(year);
  }

  datatype Civil = Civil(year: nat, month: nat, day: nat, hour: nat, minute: nat, second: nat, nano: nat)

  function ToCivil(t: Time): (c: Civil)
    ensures c.year <= 9999 && 1 <= c.month <= 12 && 1 <= c.day <= 31
    ensures c.hour < 24 && c.minute < 60 && c.second < 60 && c.nano < NANOS_PER_SECOND
  {
    var day, clock := Local(t) / NANOS_PER_DAY, Local(t) / NANOS_PER_SECOND % 86_400;
    ClockParts(clock);
    DayInRange(Local(t));
    var year := YearOf(day, 0);
    YearLength(year);
    var dayOfYear := day - YearStart(year);
    var month := MonthOf(IsLeap(year), dayOfYear, 1);
    Civil(year, month, dayOfYear - MonthStart(IsLeap(year), month) + 1, clock / 3600, clock / 60 % 60, clock % 60,
          Local(t) % NANOS_PER_SECOND)
  }

  lemma ClockParts(clock: nat)
    requires clock < 86_400
    ensures clock / 3600 * 3600 + clock / 60 % 60 * 60 + clock % 60 == clock
    ensures clock / 3600 < 24
  {
    assert clock / 60 / 60 == clock / 3600;
  }

  lemma DayInRange(local: int)
    requires 0 <= local < DAYS_IN_RANGE * NANOS_PER_DAY
    ensures 0 <= local / NANOS_PER_DAY < DAYS_IN_RANGE
  {}

  function FromCivil(c: Civil): int
    requires 1 <= c.month <= 12
  {
    var day := YearStart(c.year) + MonthStart(IsLeap(c.year), c.month) + c.day - 1;
    (day * 86_400 + c.hour * 3600 + c.minute * 60 + c.second) * NANOS_PER_SECOND + c.nano
  }

  /** The calendar fields determine the local time they were read from. */
  lemma CivilRoundTrip(t: Time)
    ensures FromCivil(ToCivil(t)) == Local(t)
  {
    var local := Local(t);
    var seconds, clock := local / NANOS_PER_SECOND, local / NANOS_PER_SECOND % 86_400;
    ClockParts(clock);
    assert local / NANOS_PER_DAY == seconds / 86_400;
    assert seconds == seconds / 86_400 * 86_400 + clock;
  }

  lemma Powers()
    ensures Pow10(2) == 100 && Pow10(4) == 10_000 && Pow10(9) == NANOS_PER_SECOND
  {
    assert Pow10(2) == 100 && Pow10(4) == 10_000;
    assert Pow10(6) == 1_000_000;
    assert Pow10(9) == 1_000_000_000;
  }

  function TrimZeros(s: string): string {
    if s != "" && s[|s| - 1] == '0' then TrimZeros(s[..|s| - 1]) else s
  }

  function Fraction(n: nat, width: nat): string {
    if n == 0 then "" else "." + TrimZeros(Padded(n, width))
  }

  function Zone(offset: int): (s: string)
    requires -1440 < offset < 1440
    ensures s != "" && s[0] in {'Z', '+', '-'}
  {
    if offset == 0 then "Z"
    else
      var size := if offset < 0 then -offset else offset;
      (if offset < 0 then "-" else "+") + Padded(size / 60, 2) + ":" + Padded(size % 60, 2)
  }

  /** The hour, minute and second of `c`, and what follows them. */
  function ClockText(c: Civil, rest: string): string {
    Padded(c.hour, 2) + (":" + (Padded(c.minute, 2) + (":" + (Padded(c.second, 2) + rest))))
  }

  /** `time.RFC3339Nano`, the text `time.Time` takes in JSON. */
  function Rfc3339(t: Time): string {
    var c := ToCivil(t);
    var clock := ClockText(c, Fraction(c.nano, 9) + Zone(t.offset));
    Padded(c.year, 4) + ("-" + (Padded(c.month, 2) + ("-" + (Padded(c.day, 2) + ("T" + clock)))))
  }

  /** Peels one padded number and its separator off two equal texts. */
  lemma SplitNumber(a: nat, b: nat, width: nat, sep: string, s: string, t: string)
    requires a < Pow10(width) && b < Pow10(width)
    requires Padded(a, width) + (sep + s) == Padded(b, width) + (sep + t)
    ensures a == b && s == t
  {
    SplitFixed(Padded(a, width), Padded(b, width), sep + s, sep + t);
    SplitFixed(sep, sep, s, t);
    PaddedInjective(a, b, width);
  }

  lemma {:induction false} TrimZerosPrefix(s: string)
    ensures |TrimZeros(s)| <= |s| && s == TrimZeros(s) + seq(|s| - |TrimZeros(s)|, _ => '0')
  {
    if s != "" && s[|s| - 1] == '0' {
      TrimZerosPrefix(s[..|s| - 1]);
      assert s == s[..|s| - 1] + ['0'];
    }
  }

  lemma TrimmedSplit(p: string, q: string, s: string, t: string)
    requires |p| == |q|
    requires forall i :: 0 <= i < |p| ==> IsDigit(p[i])
    requires forall i :: 0 <= i < |q| ==> IsDigit(q[i])
    requires s != "" && t != "" && !IsDigit(s[0]) && !IsDigit(t[0])
    requires TrimZeros(p) + s == TrimZeros(q) + t
    ensures p == q && s == t
  {
    TrimZerosPrefix(p);
    TrimZerosPrefix(q);
    var a, b := TrimZeros(p), TrimZeros(q);
    assert forall i :: 0 <= i < |a| ==> a[i] == p[i];
    assert forall i :: 0 <= i < |b| ==> b[i] == q[i];
    SplitRun(IsDigit, a, b, s, t);
  }

  lemma DotText(digits: string, s: string)
    ensures var f := ("." + digits) + s; f != "" && f[0] == '.' && f[1..] == digits + s
  {}

  lemma FractionLead(n: nat, width: nat, s: string)
    ensures n == 0 ==> Fraction(n, width) + s == s
    ensures n != 0 ==>
              var f := Fraction(n, width) + s; f != "" && f[0] == '.' && f[1..] == TrimZeros(Padded(n, width)) + s
  {
    if n == 0 { assert "" + s == s; } else { DotText(TrimZeros(Padded(n, width)), s); }
  }

  lemma FractionSplit(a: nat, b: nat, width: nat, s: string, t: string)
    requires a < Pow10(width) && b < Pow10(width)
    requires s != "" && t != "" && !IsDigit(s[0]) && !IsDigit(t[0]) && s[0] != '.' && t[0] != '.'
    requires Fraction(a, width) + s == Fraction(b, width) + t
    ensures a == b && s == t
  {
    FractionLead(a, width, s);
    FractionLead(b, width, t);
    if a != 0 && b != 0 {
      TrimmedSplit(Padded(a, width), Padded(b, width), s, t);
      PaddedInjective(a, b, width);
    }
  }

  lemma ZoneText(offset: int)
    requires -1440 < offset < 1440 && offset != 0
    ensures var size := if offset < 0 then -offset else offset;
            && Zone(offset)[0] == (if offset < 0 then '-' else '+')
            && Zone(offset)[1..] == Padded(size / 60, 2) + (":" + Padded(size % 60, 2))
            && size / 60 < 100 && size % 60 < 100
  {}

  lemma ZoneInjective(a: int, b: int)
    requires -1440 < a < 1440 && -1440 < b < 1440 && Zone(a) == Zone(b)
    ensures a == b
  {
    assert Zone(0)[0] == 'Z';
    if a != 0 { ZoneText(a); }
    if b != 0 { ZoneText(b); }
    if a != 0 && b != 0 {
      var m, n := if a < 0 then -a else a, if b < 0 then -b else b;
      Powers();
      SplitNumber(m / 60, n / 60, 2, ":", Padded(m % 60, 2), Padded(n % 60, 2));
      PaddedInjective(m % 60, n % 60, 2);
    }
  }

  lemma ClockSplit(c: Civil, d: Civil, s: string, t: string)
    requires c.hour < 100 && c.minute < 100 && c.second < 100 && d.hour < 100 && d.minute < 100 && d.second < 100
    requires ClockText(c, s) == ClockText(d, t)
    ensures c.hour == d.hour && c.minute == d.minute && c.second == d.second && s == t
  {
    Powers();
    var s1, t1 := Padded(c.second, 2) + s, Padded(d.second, 2) + t;
    SplitNumber(c.hour, d.hour, 2, ":", Padded(c.minute, 2) + (":" + s1), Padded(d.minute, 2) + (":" + t1));
    SplitNumber(c.minute, d.minute, 2, ":", s1, t1);
    SplitFixed(Padded(c.second, 2), Padded(d.second, 2), s, t);
    PaddedInjective(c.second, d.second, 2);
  }

  lemma DateSplit(c: Civil, d: Civil, s: string, t: string)
    requires c.year < 10_000 && c.month < 100 && c.day < 100 && d.year < 10_000 && d.month < 100 && d.day < 100
    requires Padded(c.year, 4) + ("-" + (Padded(c.month, 2) + ("-" + (Padded(c.day, 2) + ("T" + s))))) ==
             Padded(d.year, 4) + ("-" + (Padded(d.month, 2) + ("-" + (Padded(d.day, 2) + ("T" + t)))))
    ensures c.year == d.year && c.month == d.month && c.day == d.day && s == t
  {
    Powers();
    var s1, t1 := Padded(c.day, 2) + ("T" + s), Padded(d.day, 2) + ("T" + t);
    SplitNumber(c.year, d.year, 4, "-", Padded(c.month, 2) + ("-" + s1), Padded(d.month, 2) + ("-" + t1));
    SplitNumber(c.month, d.month, 2, "-", s1, t1);
    SplitNumber(c.day, d.day, 2, "T", s, t);
  }

  /** Two times with the same text are the same instant in the same zone. */
  lemma Rfc3339Injective(a: Time, b: Time)
    requires Rfc3339(a) == Rfc3339(b)
    ensures a == b
  {
    var c, d := ToCivil(a), ToCivil(b);
    CivilRoundTrip(a);
    CivilRoundTrip(b);
    Powers();
    var s, t := Fraction(c.nano, 9) + Zone(a.offset), Fraction(d.nano, 9) + Zone(b.offset);
    DateSplit(c, d, ClockText(c, s), ClockText(d, t));
    ClockSplit(c, d, s, t);
    FractionSplit(c.nano, d.nano, 9, Zone(a.offset), Zone(b.offset));
    ZoneInjective(a.offset, b.offset);
  }

  /** A microsecond clock reading: the precision Postgres timestamps keep. */
  function TruncateMicros(n: Instant): Instant { n - n % 1000 }

  lemma TruncatedIsPrintable(n: UtcInstant)
    ensures Printable(Stamp(TruncateMicros(n), 0))
  {
    assert Printable(Stamp(n, 0)) && Local(Stamp(n, 0)) == n;
    assert n == n / 1000 * 1000 + n % 1000;
    assert Local(Stamp(n, 0)) == n && Local(Stamp(TruncateMicros(n), 0)) == TruncateMicros(n);
  }

  /** A clock reading as the database store takes it. */
  function MicrosOf(n: UtcInstant): (m: UtcInstant)
    ensures m % 1000 == 0 && m <= n < m + 1000
  {
    TruncatedIsPrintable(n);
    TruncateMicros(n)
  }
}
