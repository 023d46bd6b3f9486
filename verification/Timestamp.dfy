/**
 Execution timestamps of client/sqlite_repository.py: UTC instants, the ISO text stored in
 the lease column, and the text comparisons the SQL statements make on it.
 */
module Timestamp {
  import opened Common

  // ---------------------------------------------------------------------
  // Instants
  // ---------------------------------------------------------------------

  datatype Instant = Instant(year: int, month: int, day: int, hour: int, minute: int, second: int, micro: int)

  predicate Leap(year: int) {
    year % 4 == 0 && (year % 100 != 0 || year % 400 == 0)
  }

  function DaysInMonth(year: int, month: int): (days: int)
    ensures 28 <= days <= 31
  {
    if month == 2 then (if Leap(year) then 29 else 28)
    else if month == 4 || month == 6 || month == 9 || month == 11 then 30
    else 31
  }

  predicate IsInstant(i: Instant) {
    && 1 <= i.year <= 9999 && 1 <= i.month <= 12 && 1 <= i.day <= DaysInMonth(i.year, i.month)
    && 0 <= i.hour < 24 && 0 <= i.minute < 60 && 0 <= i.second < 60 && 0 <= i.micro < 1_000_000
  }

  /** An aware datetime converted to UTC. */
  type Utc = i: Instant | IsInstant(i) witness Instant(1, 1, 1, 0, 0, 0, 0)

  const EPOCH: Utc := Instant(1970, 1, 1, 0, 0, 0, 0)

  /** Days of `year` before the first of `month` (13 stands for the year's end). */
  function DaysBeforeMonth(year: int, month: int): int
    requires 1 <= month <= 13
    decreases month
  {
    if month == 1 then 0 else DaysBeforeMonth(year, month - 1) + DaysInMonth(year, month - 1)
  }

  function DaysBeforeYear(year: int): int
    requires 1 <= year
    decreases year
  {
    if year == 1 then 0 else DaysBeforeYear(year - 1) + DaysBeforeMonth(year - 1, 13)
  }

  function DayNumber(i: Utc): int {
    DaysBeforeYear(i.year) + DaysBeforeMonth(i.year, i.month) + i.day
  }

  /** Microseconds elapsed: what comparing two aware datetimes compares. */
  function Micros(i: Utc): int {
    (((DayNumber(i) * 24 + i.hour) * 60 + i.minute) * 60 + i.second) * 1_000_000 + i.micro
  }

  lemma {:induction false} MonthsGrow(year: int, m: int, n: int)
    requires 1 <= m < n <= 13
    ensures DaysBeforeMonth(year, m) + DaysInMonth(year, m) <= DaysBeforeMonth(year, n)
    decreases n
  {
    if m < n - 1 {
      MonthsGrow(year, m, n - 1);
    }
  }

  lemma {:induction false} YearsGrow(y: int, z: int)
    requires 1 <= y < z
    ensures DaysBeforeYear(y) + DaysBeforeMonth(y, 13) <= DaysBeforeYear(z)
    decreases z
  {
    hide DaysInMonth;
    if y < z - 1 {
      YearsGrow(y, z - 1);
      MonthsGrow(z - 1, 1, 13);
    }
  }

  /** Field-by-field comparison of two calendar dates. */
  predicate DateLess(a: Utc, b: Utc) {
    a.year < b.year || (a.year == b.year && (a.month < b.month || (a.month == b.month && a.day < b.day)))
  }

  predicate ClockLess(a: Utc, b: Utc) {
    a.hour < b.hour || (a.hour == b.hour && (a.minute < b.minute || (a.minute == b.minute &&
      (a.second < b.second || (a.second == b.second && a.micro < b.micro)))))
  }

  predicate SameDate(a: Utc, b: Utc) {
    a.year == b.year && a.month == b.month && a.day == b.day
  }

  predicate FieldsLess(a: Utc, b: Utc) {
    DateLess(a, b) || (SameDate(a, b) && ClockLess(a, b))
  }

  lemma EarlierDateIsEarlierDay(a: Utc, b: Utc)
    requires DateLess(a, b)
    ensures DayNumber(a) < DayNumber(b)
  {
    hide DaysInMonth;
    assert IsInstant(a) && IsInstant(b);
    if a.year < b.year {
      YearsGrow(a.year, b.year);
      MonthsGrow(a.year, a.month, 13);
      if 1 < b.month {
        MonthsGrow(b.year, 1, b.month);
      }
    } else if a.month < b.month {
      MonthsGrow(a.year, a.month, b.month);
    }
  }

  /** Comparing fields in order is comparing elapsed time. */
  lemma FieldOrderIsTimeOrder(a: Utc, b: Utc)
    ensures FieldsLess(a, b) <==> Micros(a) < Micros(b)
    ensures a == b <==> Micros(a) == Micros(b)
  {
    if DateLess(a, b) {
      EarlierDateIsEarlierDay(a, b);
    } else if DateLess(b, a) {
      EarlierDateIsEarlierDay(b, a);
    }
  }

  // ---------------------------------------------------------------------
  // Text
  // ---------------------------------------------------------------------

  function Digit(d: int): char
    requires 0 <= d < 10
  {
    '0' + d as char
  }

  function Pow10(w: nat): int {
    if w == 0 then 1 else 10 * Pow10(w - 1)
  }

  /** `n` in `w` decimal digits, zero padded. */
  function Digits(n: int, w: nat): (s: string)
    requires 0 <= n < Pow10(w)
    ensures |s| == w
    decreases w
  {
    if w == 0 then "" else Digits(n / 10, w - 1) + [Digit(n % 10)]
  }

  function Field(n: int, w: nat, sep: char, rest: string): string
    requires 0 <= n < Pow10(w)
  {
    Digits(n, w) + ([sep] + rest)
  }

  /** Seconds and what follows: `isoformat` leaves out the fraction when it is zero. */
  function Tail(second: int, micro: int): string
    requires 0 <= second < 60 && 0 <= micro < 1_000_000
  {
    assert Pow10(2) == 100 && Pow10(6) == 1_000_000;
    if micro == 0 then Field(second, 2, '+', "00:00")
    else Field(second, 2, '.', Field(micro, 6, '+', "00:00"))
  }

  lemma Widths()
    ensures Pow10(2) == 100 && Pow10(4) == 10_000 && Pow10(6) == 1_000_000
  {
    assert Pow10(4) == 100 * Pow10(2);
    assert Pow10(6) == 100 * Pow10(4);
  }

  /** The text after the date. */
  function ClockText(i: Utc): string {
    Widths();
    Field(i.hour, 2, ':', Field(i.minute, 2, ':', Tail(i.second, i.micro)))
  }

  /** `_timestamp`: isoformat of a UTC datetime. */
  function Text(i: Utc): string {
    Widths();
    Field(i.year, 4, '-', Field(i.month, 2, '-', Field(i.day, 2, 'T', ClockText(i))))
  }

  /** SQLite's BINARY collation: byte by byte, a proper prefix first. */
  predicate TextLess(a: string, b: string) {
    if b == "" then false
    else if a == "" then true
    else if a[0] != b[0] then a[0] < b[0]
    else TextLess(a[1..], b[1..])
  }

  /** Equally long heads decide first. */
  lemma {:induction false} HeadsDecide(p: string, q: string, a: string, b: string)
    requires |p| == |q|
    ensures TextLess(p + a, q + b) <==> TextLess(p, q) || (p == q && TextLess(a, b))
    decreases |p|
  {
    if p == "" {
      assert p + a == a && q + b == b;
    } else {
      assert (p + a)[1..] == p[1..] + a && (q + b)[1..] == q[1..] + b;
      HeadsDecide(p[1..], q[1..], a, b);
      assert p == [p[0]] + p[1..] && q == [q[0]] + q[1..];
    }
  }

  /** Zero-padded numbers of one width sort like the numbers. */
  lemma {:induction false} DigitsOrder(m: int, n: int, w: nat)
    requires 0 <= m < Pow10(w) && 0 <= n < Pow10(w)
    ensures TextLess(Digits(m, w), Digits(n, w)) <==> m < n
    ensures Digits(m, w) == Digits(n, w) <==> m == n
    decreases w
  {
    if w > 0 {
      var p, q := Digits(m / 10, w - 1), Digits(n / 10, w - 1);
      var a, b := [Digit(m % 10)], [Digit(n % 10)];
      DigitsOrder(m / 10, n / 10, w - 1);
      HeadsDecide(p, q, a, b);
      assert TextLess(a, b) <==> m % 10 < n % 10;
      assert p + a == q + b <==> p == q && a == b by {
        assert (p + a)[..w - 1] == p && (q + b)[..w - 1] == q;
        assert (p + a)[w - 1..] == a && (q + b)[w - 1..] == b;
      }
    }
  }

  lemma FieldOrder(m: int, n: int, w: nat, sep: char, r: string, s: string)
    requires 0 <= m < Pow10(w) && 0 <= n < Pow10(w)
    ensures TextLess(Field(m, w, sep, r), Field(n, w, sep, s)) <==> m < n || (m == n && TextLess(r, s))
  {
    HeadsDecide(Digits(m, w), Digits(n, w), [sep] + r, [sep] + s);
    HeadsDecide([sep], [sep], r, s);
    DigitsOrder(m, n, w);
    assert !TextLess([sep], [sep]);
  }

  /** The omitted fraction is harmless: '+' sorts before '.'. */
  lemma TailOrder(s: int, m: int, s': int, m': int)
    requires 0 <= s < 60 && 0 <= m < 1_000_000 && 0 <= s' < 60 && 0 <= m' < 1_000_000
    ensures TextLess(Tail(s, m), Tail(s', m')) <==> s < s' || (s == s' && m < m')
  {
    Widths();
    var zone := "00:00";
    if (m == 0) == (m' == 0) {
      FieldOrder(s, s', 2, '+', zone, zone);
      NotLessItself(zone);
      if m != 0 {
        FieldOrder(s, s', 2, '.', Field(m, 6, '+', zone), Field(m', 6, '+', zone));
        FieldOrder(m, m', 6, '+', zone, zone);
      }
    } else {
      var r := if m == 0 then ['+'] + zone else ['.'] + Field(m, 6, '+', zone);
      var r' := if m' == 0 then ['+'] + zone else ['.'] + Field(m', 6, '+', zone);
      HeadsDecide(Digits(s, 2), Digits(s', 2), r, r');
      DigitsOrder(s, s', 2);
      assert TextLess(r, r') <==> m == 0;
    }
  }

  lemma {:induction false} NotLessItself(s: string)
    ensures !TextLess(s, s)
  {
    if s != "" {
      NotLessItself(s[1..]);
    }
  }

  /** Text order of stored timestamps is time order, although fractions of different width
      are mixed, and equal texts mean equal instants. */
  lemma TextOrderIsTimeOrder(a: Utc, b: Utc)
    ensures TextLess(Text(a), Text(b)) <==> Micros(a) < Micros(b)
    ensures Text(a) == Text(b) <==> a == b
  {
    TextOrderIsFieldOrder(a, b);
    TextOrderIsFieldOrder(b, a);
    FieldOrderIsTimeOrder(a, b);
    FieldOrderIsTimeOrder(b, a);
    if Text(a) == Text(b) {
      NotLessItself(Text(a));
    }
  }

  lemma ClockTextOrder(a: Utc, b: Utc)
    ensures TextLess(ClockText(a), ClockText(b)) <==> ClockLess(a, b)
  {
    hide Field; hide Tail; hide TextLess;
    Widths();
    TailOrder(a.second, a.micro, b.second, b.micro);
    var t, u := Tail(a.second, a.micro), Tail(b.second, b.micro);
    FieldOrder(a.minute, b.minute, 2, ':', t, u);
    FieldOrder(a.hour, b.hour, 2, ':', Field(a.minute, 2, ':', t), Field(b.minute, 2, ':', u));
  }

  lemma TextOrderIsFieldOrder(a: Utc, b: Utc)
    ensures TextLess(Text(a), Text(b)) <==> FieldsLess(a, b)
  {
    hide Field; hide Tail; hide TextLess; hide ClockLess;
    Widths();
    ClockTextOrder(a, b);
    var t, u := ClockText(a), ClockText(b);
    FieldOrder(a.day, b.day, 2, 'T', t, u);
    var t', u' := Field(a.day, 2, 'T', t), Field(b.day, 2, 'T', u);
    FieldOrder(a.month, b.month, 2, '-', t', u');
    FieldOrder(a.year, b.year, 4, '-', Field(a.month, 2, '-', t'), Field(b.month, 2, '-', u'));
  }

  // ---------------------------------------------------------------------
  // Reading a timestamp back
  // ---------------------------------------------------------------------

  predicate IsDigit(c: char) {
    '0' <= c <= '9'
  }

  function Number(s: string): int
  {
    if s == "" then 0 else 10 * Number(s[..|s| - 1]) + (s[|s| - 1] as int - '0' as int)
  }

  /** `w` digits and the separator `sep` in front of `s`. */
  function ReadField(s: string, w: nat, sep: char): Option<(int, string)> {
    if |s| <= w || s[w] != sep || (exists i :: 0 <= i < w && !IsDigit(s[i])) then None
    else Some((Number(s[..w]), s[w + 1..]))
  }

  lemma {:induction false} NumberOfDigits(n: int, w: nat)
    requires 0 <= n < Pow10(w)
    ensures Number(Digits(n, w)) == n
    ensures forall i :: 0 <= i < w ==> IsDigit(Digits(n, w)[i])
    decreases w
  {
    if w > 0 {
      NumberOfDigits(n / 10, w - 1);
      assert Digits(n, w)[..w - 1] == Digits(n / 10, w - 1);
    }
  }

  lemma ReadFieldBack(n: int, w: nat, sep: char, rest: string)
    requires 0 <= n < Pow10(w)
    ensures ReadField(Field(n, w, sep, rest), w, sep) == Some((n, rest))
  {
    NumberOfDigits(n, w);
    var s := Field(n, w, sep, rest);
    assert s[..w] == Digits(n, w) && s[w] == sep && s[w + 1..] == rest;
    assert forall i :: 0 <= i < w ==> s[i] == Digits(n, w)[i];
  }

  /** Seconds, the optional fraction and the UTC offset. */
  function ReadTail(s: string): Option<(int, int)> {
    match ReadField(s, 2, '+')
    case Some((second, zone)) => if zone == "00:00" then Some((second, 0)) else None
    case None =>
      match ReadField(s, 2, '.')
      case None => None
      case Some((second, fraction)) =>
        match ReadField(fraction, 6, '+')
        case None => None
        case Some((micro, zone)) => if zone == "00:00" then Some((second, micro)) else None
  }

  lemma ReadTailBack(second: int, micro: int)
    requires 0 <= second < 60 && 0 <= micro < 1_000_000
    ensures ReadTail(Tail(second, micro)) == Some((second, micro))
  {
    Widths();
    if micro == 0 {
      ReadFieldBack(second, 2, '+', "00:00");
    } else {
      var fraction := Field(micro, 6, '+', "00:00");
      ReadFieldBack(second, 2, '.', fraction);
      ReadFieldBack(micro, 6, '+', "00:00");
      assert Tail(second, micro)[2] == '.';
    }
  }

  /** `_parse_timestamp` on the texts `_timestamp` writes; None is the corrupt case. */
  function Parse(s: string): Option<Utc> {
    match ReadField(s, 4, '-')
    case None => None
    case Some((year, s1)) =>
      match ReadField(s1, 2, '-')
      case None => None
      case Some((month, s2)) =>
        match ReadField(s2, 2, 'T')
        case None => None
        case Some((day, s3)) =>
          match ReadField(s3, 2, ':')
          case None => None
          case Some((hour, s4)) =>
            match ReadField(s4, 2, ':')
            case None => None
            case Some((minute, s5)) =>
              match ReadTail(s5)
              case None => None
              case Some((second, micro)) =>
                var i := Instant(year, month, day, hour, minute, second, micro);
                if IsInstant(i) then Some(i) else None
  }

  /** Reading a stored timestamp gives back the instant that was stored. */
  lemma ParseText(i: Utc)
    ensures Parse(Text(i)) == Some(i)
  {
    Widths();
    ReadTailBack(i.second, i.micro);
    var t0 := Tail(i.second, i.micro);
    ReadFieldBack(i.minute, 2, ':', t0);
    var t1 := Field(i.minute, 2, ':', t0);
    ReadFieldBack(i.hour, 2, ':', t1);
    var t2 := Field(i.hour, 2, ':', t1);
    ReadFieldBack(i.day, 2, 'T', t2);
    var t3 := Field(i.day, 2, 'T', t2);
    ReadFieldBack(i.month, 2, '-', t3);
    ReadFieldBack(i.year, 4, '-', Field(i.month, 2, '-', t3));
  }

  lemma TwoDigits(n: int)
    requires 0 <= n < 10
    ensures Pow10(2) == 100 && Digits(n, 2) == ['0', Digit(n)]
  {
    Widths();
    assert Pow10(1) == 10 * Pow10(0);
    assert n / 10 == 0 && n % 10 == n;
    assert Digits(0, 0) == "";
    assert Digits(0, 1) == Digits(0, 0) + [Digit(0)] == ['0'];
    assert Digits(n, 2) == Digits(0, 1) + [Digit(n)];
  }

  lemma EpochYear()
    ensures Pow10(4) == 10_000 && Digits(1970, 4) == "1970"
  {
    Widths();
    assert Digits(1, 1) == Digits(0, 0) + [Digit(1)];
    assert Digits(19, 2) == Digits(1, 1) + [Digit(9)];
    assert Digits(197, 3) == Digits(19, 2) + [Digit(7)];
    assert Digits(1970, 4) == Digits(197, 3) + [Digit(0)];
  }

  lemma EpochClock()
    ensures Pow10(2) == 100
    ensures Field(0, 2, ':', Field(0, 2, ':', Tail(0, 0))) == "00:00:00+00:00"
  {
    TwoDigits(0);
    var t := Tail(0, 0);
    assert t == "00+00:00";
    var u := Field(0, 2, ':', t);
    assert u == "00:00+00:00";
    assert Field(0, 2, ':', u) == "00:00:00+00:00";
  }

  /** The lease the version 1 migration writes is the epoch. */
  lemma EpochText()
    ensures Text(EPOCH) == "1970-01-01T00:00:00+00:00"
  {
    hide Digits; hide Pow10; hide Tail;
    EpochYear();
    EpochClock();
    TwoDigits(1);
    var t := "00:00:00+00:00";
    var u, v := "01T" + t, "01-01T" + t;
    assert Field(1, 2, 'T', t) == u;
    assert Field(1, 2, '-', u) == v;
    assert Field(1970, 4, '-', v) == "1970-01-01T00:00:00+00:00";
  }
}
