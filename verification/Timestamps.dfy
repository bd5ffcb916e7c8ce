/** UTC timestamps, the fixed-width text in which they are stored, and why comparing texts compares instants. */
module Timestamps {

  datatype Timestamp = Timestamp(year: nat, month: nat, day: nat, hour: nat, minute: nat, second: nat, micro: nat) {
    /** What the datetime type allows. */
    predicate Valid() {
      && 1 <= year <= 9999 && 1 <= month <= 12 && 1 <= day <= DaysInMonth(year, month)
      && hour < 24 && minute < 60 && second < 60 && micro < 1_000_000
    }
  }

  // ---------------------------------------------------------------- instants

  predicate IsLeap(y: nat) {
    y % 4 == 0 && (y % 100 != 0 || y % 400 == 0)
  }

  function DaysInMonth(y: nat, m: nat): nat {
    if m == 2 then (if IsLeap(y) then 29 else 28)
    else if m == 4 || m == 6 || m == 9 || m == 11 then 30
    else 31
  }

  /** Days in the years 1 to `y`. */
  function DaysInYears(y: nat): int {
    y * 365 + y / 4 - y / 100 + y / 400
  }

  function DaysBeforeMonth(y: nat, m: nat): nat {
    if m <= 1 then 0 else DaysBeforeMonth(y, m - 1) + DaysInMonth(y, m - 1)
  }

  /** The proleptic Gregorian ordinal: 0001-01-01 is day 1. */
  function Ordinal(y: nat, m: nat, d: nat): int
    requires y >= 1
  {
    DaysInYears(y - 1) + DaysBeforeMonth(y, m) + d
  }

  /** Microseconds on a scale common to all timestamps. */
  function Instant(t: Timestamp): int
    requires t.Valid()
  {
    (((Ordinal(t.year, t.month, t.day) * 24 + t.hour) * 60 + t.minute) * 60 + t.second) * 1_000_000 + t.micro
  }

  lemma {:induction false} MonthsAddUp(y: nat, m: nat, n: nat)
    requires 1 <= m <= n
    ensures DaysBeforeMonth(y, m) <= DaysBeforeMonth(y, n)
    ensures m < n ==> DaysBeforeMonth(y, m) + DaysInMonth(y, m) <= DaysBeforeMonth(y, n)
    decreases n
  {
    if m < n { MonthsAddUp(y, m, n - 1); }
  }

  lemma YearLength(y: nat)
    ensures DaysBeforeMonth(y, 13) == if IsLeap(y) then 366 else 365
  {
    assert DaysBeforeMonth(y, 3) == DaysBeforeMonth(y, 2) + DaysInMonth(y, 2) && DaysBeforeMonth(y, 2) == 31;
    assert DaysBeforeMonth(y, 5) == DaysBeforeMonth(y, 4) + 30 && DaysBeforeMonth(y, 4) == DaysBeforeMonth(y, 3) + 31;
    assert DaysBeforeMonth(y, 7) == DaysBeforeMonth(y, 6) + 30 && DaysBeforeMonth(y, 6) == DaysBeforeMonth(y, 5) + 31;
    assert DaysBeforeMonth(y, 9) == DaysBeforeMonth(y, 8) + 31 && DaysBeforeMonth(y, 8) == DaysBeforeMonth(y, 7) + 31;
    assert DaysBeforeMonth(y, 11) == DaysBeforeMonth(y, 10) + 31;
    assert DaysBeforeMonth(y, 10) == DaysBeforeMonth(y, 9) + 30;
    assert DaysBeforeMonth(y, 13) == DaysBeforeMonth(y, 12) + 31;
    assert DaysBeforeMonth(y, 12) == DaysBeforeMonth(y, 11) + 30;
  }

  lemma {:induction false} YearsAddUp(y: nat, z: nat)
    requires y <= z
    ensures DaysInYears(y) <= DaysInYears(z)
    ensures y < z ==> DaysInYears(y) + DaysBeforeMonth(y + 1, 13) <= DaysInYears(z)
    decreases z
  {
    if y < z {
      YearsAddUp(y, z - 1);
      NextYear(z);
    }
  }

  lemma NextYear(z: nat)
    requires z >= 1
    ensures DaysInYears(z) == DaysInYears(z - 1) + DaysBeforeMonth(z, 13)
  {
    YearLength(z);
    Every4(z);
    Every100(z);
    Every400(z);
    HundredsAreFours(z);
    FourHundredsAreHundreds(z);
    hide DaysBeforeMonth;
  }

  lemma Every4(z: nat)
    requires z >= 1
    ensures z / 4 == (z - 1) / 4 + (if z % 4 == 0 then 1 else 0)
  {
  }

  lemma Every100(z: nat)
    requires z >= 1
    ensures z / 100 == (z - 1) / 100 + (if z % 100 == 0 then 1 else 0)
  {
  }

  lemma Every400(z: nat)
    requires z >= 1
    ensures z / 400 == (z - 1) / 400 + (if z % 400 == 0 then 1 else 0)
  {
  }

  lemma HundredsAreFours(z: nat)
    ensures z % 100 == 0 ==> z % 4 == 0
  {
    if z % 100 == 0 {
      var q := z / 100;
      assert z == 4 * (25 * q);
    }
  }

  lemma FourHundredsAreHundreds(z: nat)
    ensures z % 400 == 0 ==> z % 100 == 0
  {
    if z % 400 == 0 {
      var q := z / 400;
      assert z == 100 * (4 * q);
    }
  }

  const LAST := Timestamp(9999, 12, 31, 23, 59, 59, 999_999)

  function NextDay(t: Timestamp): Timestamp
    requires t.Valid()
  {
    if t.day < DaysInMonth(t.year, t.month) then t.(day := t.day + 1)
    else if t.month < 12 then t.(day := 1, month := t.month + 1)
    else t.(day := 1, month := 1, year := t.year + 1)
  }

  /** What a clock shows one microsecond later. */
  function Tick(t: Timestamp): Timestamp
    requires t.Valid()
  {
    if t.micro < 999_999 then t.(micro := t.micro + 1)
    else if t.second < 59 then t.(micro := 0, second := t.second + 1)
    else if t.minute < 59 then t.(micro := 0, second := 0, minute := t.minute + 1)
    else if t.hour < 23 then t.(micro := 0, second := 0, minute := 0, hour := t.hour + 1)
    else NextDay(t).(micro := 0, second := 0, minute := 0, hour := 0)
  }

  lemma NextDayIsOneLater(t: Timestamp)
    requires t.Valid()
    ensures Ordinal(NextDay(t).year, NextDay(t).month, NextDay(t).day) == Ordinal(t.year, t.month, t.day) + 1
    ensures t.year < 9999 || t.month < 12 || t.day < 31 ==> NextDay(t).Valid()
  {
    if t.day == DaysInMonth(t.year, t.month) && t.month == 12 {
      NextYear(t.year);
      assert DaysBeforeMonth(t.year, 13) == DaysBeforeMonth(t.year, 12) + 31;
      hide DaysInYears;
    } else {
      hide DaysInYears;
      assert DaysBeforeMonth(t.year, t.month + 1) == DaysBeforeMonth(t.year, t.month) + DaysInMonth(t.year, t.month);
    }
  }

  predicate EndsDay(t: Timestamp) {
    t.micro == 999_999 && t.second == 59 && t.minute == 59 && t.hour == 23
  }

  lemma TickWithinDay(t: Timestamp)
    requires t.Valid() && !EndsDay(t)
    ensures Tick(t).Valid() && Instant(Tick(t)) == Instant(t) + 1
  {
    hide Ordinal;
    hide DaysInMonth;
  }

  lemma TickOverMidnight(t: Timestamp)
    requires t.Valid() && t != LAST && EndsDay(t)
    ensures Tick(t).Valid() && Instant(Tick(t)) == Instant(t) + 1
  {
    NextDayIsOneLater(t);
    assert Tick(t) == NextDay(t).(micro := 0, second := 0, minute := 0, hour := 0);
    assert t.year < 9999 || t.month < 12 || t.day < 31 by { NotLast(t); }
    hide Ordinal;
    hide NextDay;
    hide Tick;
    hide DaysInMonth;
  }

  lemma NotLast(t: Timestamp)
    requires t.Valid() && t != LAST && EndsDay(t)
    ensures t.year < 9999 || t.month < 12 || t.day < 31
  {
  }

  /** Instants count microseconds: each tick of the calendar clock, through every carry and leap day, adds exactly
      one. */
  lemma TickIsOneMicrosecond(t: Timestamp)
    requires t.Valid() && t != LAST
    ensures Tick(t).Valid() && Instant(Tick(t)) == Instant(t) + 1
  {
    hide *;
    if EndsDay(t) { TickOverMidnight(t); } else { TickWithinDay(t); }
  }

  /** The first day is day 1. */
  lemma FirstDay()
    ensures Ordinal(1, 1, 1) == 1
  {
  }

  // ---------------------------------------------------------------- text

  /** Character-by-character comparison, as the database compares text. */
  predicate TextLess(s: string, t: string) {
    t != "" && (s == "" || s[0] < t[0] || (s[0] == t[0] && TextLess(s[1..], t[1..])))
  }

  function Pow10(w: nat): nat {
    if w == 0 then 1 else 10 * Pow10(w - 1)
  }

  /** Decimal digits of `n`, padded with zeros on the left to `w` characters. */
  function Pad(n: nat, w: nat): (s: string)
    ensures |s| == w
  {
    if w == 0 then "" else Pad(n / 10, w - 1) + ['0' + (n % 10) as char]
  }

  function Number(s: string): nat {
    if s == "" then 0
    else
      var d := s[|s| - 1] as int - '0' as int;
      10 * Number(s[..|s| - 1]) + (if d < 0 then 0 else d)
  }

  /** A column of digits and the literal text after it. */
  datatype Column = Column(width: nat, mark: string)

  /** The extended ISO 8601 form with microseconds and the offset of UTC. */
  const FORMAT: seq<Column> := [
    Column(4, "-"), Column(2, "-"), Column(2, "T"), Column(2, ":"), Column(2, ":"), Column(2, "."), Column(6, "+00:00")]

  function Fields(t: Timestamp): seq<nat> {
    [t.year, t.month, t.day, t.hour, t.minute, t.second, t.micro]
  }

  function Render(values: seq<nat>, format: seq<Column>): string
    requires |values| == |format|
  {
    if values == [] then ""
    else Pad(values[0], format[0].width) + (format[0].mark + Render(values[1..], format[1..]))
  }

  /** Reads the digit columns back, skipping the marks. */
  function Scan(s: string, format: seq<Column>): seq<nat> {
    if format == [] then []
    else
      var w := format[0].width;
      if |s| < w + |format[0].mark| then []
      else [Number(s[..w])] + Scan(s[w + |format[0].mark|..], format[1..])
  }

  function Serialize(t: Timestamp): string {
    Render(Fields(t), FORMAT)
  }

  function Deserialize(s: string): Timestamp {
    var v := Scan(s, FORMAT);
    if |v| == 7 then Timestamp(v[0], v[1], v[2], v[3], v[4], v[5], v[6]) else Timestamp(0, 0, 0, 0, 0, 0, 0)
  }

  predicate Fits(values: seq<nat>, format: seq<Column>) {
    |values| == |format| && forall i :: 0 <= i < |values| ==> values[i] < Pow10(format[i].width)
  }

  predicate FieldsLess(a: seq<nat>, b: seq<nat>) {
    b != [] && (a == [] || a[0] < b[0] || (a[0] == b[0] && FieldsLess(a[1..], b[1..])))
  }

  lemma {:induction false} TextLessConcat(a: string, b: string, x: string, y: string)
    requires |a| == |b|
    ensures TextLess(a + x, b + y) <==> TextLess(a, b) || (a == b && TextLess(x, y))
  {
    if a == "" {
      assert a + x == x && b + y == y;
    } else {
      assert (a + x)[1..] == a[1..] + x && (b + y)[1..] == b[1..] + y;
      TextLessConcat(a[1..], b[1..], x, y);
      assert a == [a[0]] + a[1..] && b == [b[0]] + b[1..];
    }
  }

  lemma {:induction false} NeverLessThanItself(s: string)
    ensures !TextLess(s, s)
  {
    if s != "" { NeverLessThanItself(s[1..]); }
  }

  lemma {:induction false} PadKeepsOrder(n: nat, m: nat, w: nat)
    requires n < Pow10(w) && m < Pow10(w)
    ensures TextLess(Pad(n, w), Pad(m, w)) <==> n < m
    ensures Pad(n, w) == Pad(m, w) <==> n == m
  {
    if w > 0 {
      PadKeepsOrder(n / 10, m / 10, w - 1);
      var c, d := '0' + (n % 10) as char, '0' + (m % 10) as char;
      TextLessConcat(Pad(n / 10, w - 1), Pad(m / 10, w - 1), [c], [d]);
      assert TextLess([c], [d]) <==> c < d;
      assert Pad(n, w)[..w - 1] == Pad(n / 10, w - 1) && Pad(m, w)[..w - 1] == Pad(m / 10, w - 1);
      assert Pad(n, w)[w - 1] == c && Pad(m, w)[w - 1] == d;
    }
  }

  lemma {:induction false} RenderKeepsOrder(a: seq<nat>, b: seq<nat>, format: seq<Column>)
    requires Fits(a, format) && Fits(b, format)
    ensures TextLess(Render(a, format), Render(b, format)) <==> FieldsLess(a, b)
  {
    if a != [] {
      var w, mark := format[0].width, format[0].mark;
      RenderKeepsOrder(a[1..], b[1..], format[1..]);
      PadKeepsOrder(a[0], b[0], w);
      TextLessConcat(mark, mark, Render(a[1..], format[1..]), Render(b[1..], format[1..]));
      NeverLessThanItself(mark);
      TextLessConcat(Pad(a[0], w), Pad(b[0], w), mark + Render(a[1..], format[1..]),
                     mark + Render(b[1..], format[1..]));
    }
  }

  lemma {:induction false} NumberOfPad(n: nat, w: nat)
    requires n < Pow10(w)
    ensures Number(Pad(n, w)) == n
  {
    if w > 0 {
      NumberOfPad(n / 10, w - 1);
      assert Pad(n, w)[..w - 1] == Pad(n / 10, w - 1);
    }
  }

  lemma {:induction false} ScanOfRender(values: seq<nat>, format: seq<Column>)
    requires Fits(values, format)
    ensures Scan(Render(values, format), format) == values
  {
    if values != [] {
      var w, mark := format[0].width, format[0].mark;
      var rest := Render(values[1..], format[1..]);
      var s := Render(values, format);
      assert s == Pad(values[0], w) + (mark + rest);
      assert s[..w] == Pad(values[0], w) && s[w + |mark|..] == rest;
      NumberOfPad(values[0], w);
      ScanOfRender(values[1..], format[1..]);
      assert values == [values[0]] + values[1..];
    }
  }

  /** The stored text, column by column. */
  lemma SerializedAs(t: Timestamp)
    requires t.Valid()
    ensures Serialize(t) ==
      Pad(t.year, 4) + ("-" + (Pad(t.month, 2) + ("-" + (Pad(t.day, 2) + ("T" + TimeOfDay(t))))))
    ensures |Serialize(t)| == 32
  {
    var f := Fields(t);
    RenderFirst(f, FORMAT);
    RenderFirst(f[1..], FORMAT[1..]);
    RenderFirst(f[2..], FORMAT[2..]);
    RenderFirst(f[3..], FORMAT[3..]);
    RenderFirst(f[4..], FORMAT[4..]);
    RenderFirst(f[5..], FORMAT[5..]);
    RenderFirst(f[6..], FORMAT[6..]);
    assert f[7..] == [] && Render(f[7..], FORMAT[7..]) == "";
    assert "+00:00" + "" == "+00:00";
    hide Render;
    hide Pad;
  }

  function TimeOfDay(t: Timestamp): string {
    Pad(t.hour, 2) + (":" + (Pad(t.minute, 2) + (":" + (Pad(t.second, 2) + ("." + (Pad(t.micro, 6) + "+00:00"))))))
  }

  lemma RenderFirst(values: seq<nat>, format: seq<Column>)
    requires |values| == |format| && values != []
    ensures Render(values, format) ==
      Pad(values[0], format[0].width) + (format[0].mark + Render(values[1..], format[1..]))
  {
  }

  /** A padded number is `w` decimal digits and reads as the number. */
  lemma {:induction false} PadIsDecimal(n: nat, w: nat)
    ensures forall i :: 0 <= i < w ==> '0' <= Pad(n, w)[i] <= '9'
    ensures n < Pow10(w) ==> Number(Pad(n, w)) == n
  {
    if w > 0 { PadIsDecimal(n / 10, w - 1); }
    if n < Pow10(w) { NumberOfPad(n, w); }
  }

  // ---------------------------------------------------------------- the two orders agree

  /** Where two field lists of one length first differ. */
  lemma {:induction false} FirstDifference(a: seq<nat>, b: seq<nat>) returns (i: nat)
    requires |a| == |b|
    ensures i <= |a| && a[..i] == b[..i]
    ensures if i == |a| then a == b && !FieldsLess(a, b) else a[i] != b[i] && (FieldsLess(a, b) <==> a[i] < b[i])
  {
    if a == [] || a[0] != b[0] {
      i := 0;
    } else {
      var j := FirstDifference(a[1..], b[1..]);
      i := j + 1;
      assert a == [a[0]] + a[1..] && b == [b[0]] + b[1..];
      assert a[..i] == [a[0]] + a[1..][..j] && b[..i] == [b[0]] + b[1..][..j];
    }
  }

  lemma EarlierDate(a: Timestamp, b: Timestamp)
    requires a.Valid() && b.Valid()
    requires a.year < b.year || (a.year == b.year && (a.month < b.month || (a.month == b.month && a.day < b.day)))
    ensures Ordinal(a.year, a.month, a.day) < Ordinal(b.year, b.month, b.day)
  {
    hide DaysInYears;
    hide DaysBeforeMonth;
    hide DaysInMonth;
    if a.year < b.year {
      YearsAddUp(a.year - 1, b.year - 1);
      MonthsAddUp(a.year, a.month, 13);
    } else if a.month < b.month {
      MonthsAddUp(a.year, a.month, b.month);
    }
  }

  lemma EarlierDay(a: Timestamp, b: Timestamp)
    requires a.Valid() && b.Valid() && Ordinal(a.year, a.month, a.day) < Ordinal(b.year, b.month, b.day)
    ensures Instant(a) < Instant(b)
  {
    hide Ordinal;
  }

  lemma EarlierTime(a: Timestamp, b: Timestamp)
    requires a.Valid() && b.Valid() && a.year == b.year && a.month == b.month && a.day == b.day
    requires
      || a.hour < b.hour
      || (a.hour == b.hour && a.minute < b.minute)
      || (a.hour == b.hour && a.minute == b.minute && a.second < b.second)
      || (a.hour == b.hour && a.minute == b.minute && a.second == b.second && a.micro < b.micro)
    ensures Instant(a) < Instant(b)
  {
    hide Ordinal;
  }

  lemma EarlierFields(a: Timestamp, b: Timestamp, i: nat)
    requires a.Valid() && b.Valid() && i < 7
    requires Fields(a)[..i] == Fields(b)[..i] && Fields(a)[i] < Fields(b)[i]
    ensures Instant(a) < Instant(b)
  {
    hide Ordinal;
    hide Instant;
    var fa, fb := Fields(a), Fields(b);
    assert forall j :: 0 <= j < i ==> fa[..i][j] == fa[j] && fb[..i][j] == fb[j];
    assert i > 0 ==> fa[0] == fb[0];
    assert i > 1 ==> fa[1] == fb[1];
    assert i > 2 ==> fa[2] == fb[2];
    assert i > 3 ==> fa[3] == fb[3];
    assert i > 4 ==> fa[4] == fb[4];
    assert i > 5 ==> fa[5] == fb[5];
    if i <= 2 {
      EarlierDate(a, b);
      EarlierDay(a, b);
    } else {
      EarlierTime(a, b);
    }
  }

  lemma FieldsFit(t: Timestamp)
    requires t.Valid()
    ensures Fits(Fields(t), FORMAT)
  {
    assert Pow10(2) == 100 && Pow10(4) == 10000;
    assert Pow10(6) == 100 * Pow10(4);
  }

  /** Comparing stored texts character by character is comparing instants, for all years from 1 to 9999;
      equal instants have equal texts. */
  lemma TextOrderIsTimeOrder(a: Timestamp, b: Timestamp)
    requires a.Valid() && b.Valid()
    ensures TextLess(Serialize(a), Serialize(b)) <==> Instant(a) < Instant(b)
    ensures Serialize(a) == Serialize(b) <==> Instant(a) == Instant(b)
  {
    FieldsFit(a);
    FieldsFit(b);
    RenderKeepsOrder(Fields(a), Fields(b), FORMAT);
    var i := FirstDifference(Fields(a), Fields(b));
    RoundTrip(a);
    RoundTrip(b);
    hide Instant;
    hide Render;
    hide FieldsLess;
    if i == 7 {
      assert a == Timestamp(Fields(a)[0], Fields(a)[1], Fields(a)[2], Fields(a)[3], Fields(a)[4], Fields(a)[5],
                            Fields(a)[6]);
    } else if Fields(a)[i] < Fields(b)[i] {
      EarlierFields(a, b, i);
    } else {
      EarlierFields(b, a, i);
    }
  }

  /** A stored text is read back as the timestamp it was written for. */
  lemma RoundTrip(t: Timestamp)
    requires t.Valid()
    ensures Deserialize(Serialize(t)) == t
  {
    FieldsFit(t);
    ScanOfRender(Fields(t), FORMAT);
  }
}
