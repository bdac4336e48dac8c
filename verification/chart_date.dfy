/** The `M/D/YYYY` day labels of the traffic time series: how the backend writes
    them (`getVlanTrafficChartDate`, backend/utils/utils.js) and how the charts
    read them back (`moment(label, 'MM/DD/YYYY')`, frontend ChartsWorker.js). */
module ChartDate {
  import opened Common
  import opened Decimal
  import opened Text

  /** A calendar day; `month` is 1-based. */
  datatype Day = Day(year: nat, month: nat, day: nat)

  /** `getVlanTrafficChartDate()` for a clock reading whose UTC year, 0-based UTC month
      (`getUTCMonth()`) and UTC day of month are given: month plus one, day and year,
      each in plain decimal, joined by `/`. */
  function TodayLabel(utcYear: nat, utcMonth0: nat, utcDay: nat): (s: string)
    ensures Parse(s) == Some(Day(utcYear, utcMonth0 + 1, utcDay))
    ensures s[0] != '0'
  {
    ParseFormat(Day(utcYear, utcMonth0 + 1, utcDay));
    Format(Day(utcYear, utcMonth0 + 1, utcDay))
  }

  function Format(d: Day): string {
    NatToString(d.month) + "/" + NatToString(d.day) + "/" + NatToString(d.year)
  }

  /** Reads `digits/digits/digits` back into a day (no range check). */
  function Parse(s: string): Option<Day> {
    var f := Split(s, '/');
    if |f| != 3 then None
    else match (ParseNat(f[0]), ParseNat(f[1]), ParseNat(f[2]))
      case (Some(m), Some(d), Some(y)) => Some(Day(y, m, d))
      case _ => None
  }

  lemma {:induction false} SplitNoSep(s: string, sep: char)
    requires sep !in s
    ensures Split(s, sep) == [s]
  {
    if s != [] {
      assert sep !in s[1..] by {
        forall c | c in s[1..] ensures c != sep { }
      }
      SplitNoSep(s[1..], sep);
      assert s[0] in s;
      assert [s[0]] + s[1..] == s;
    }
  }

  lemma {:induction false} SplitAround(a: string, sep: char, b: string)
    requires sep !in a
    ensures Split(a + [sep] + b, sep) == [a] + Split(b, sep)
  {
    if a == [] {
      assert a + [sep] + b == [sep] + b;
      assert ([sep] + b)[1..] == b;
    } else {
      assert (a + [sep] + b)[1..] == a[1..] + [sep] + b;
      assert sep !in a[1..] by {
        forall c | c in a[1..] ensures c != sep { }
      }
      SplitAround(a[1..], sep, b);
      assert [a[0]] + a[1..] == a;
    }
  }

  lemma DigitsHaveNoSlash(n: nat)
    ensures '/' !in NatToString(n)
  {
    var s := NatToString(n);
    forall i | 0 <= i < |s| ensures s[i] != '/' {
      assert IsDigit(s[i]);
    }
  }

  /** A written label reads back as the day it was written for. */
  lemma ParseFormat(d: Day)
    ensures Parse(Format(d)) == Some(d)
  {
    var m, dd, y := NatToString(d.month), NatToString(d.day), NatToString(d.year);
    DigitsHaveNoSlash(d.month);
    DigitsHaveNoSlash(d.day);
    DigitsHaveNoSlash(d.year);
    SplitNoSep(y, '/');
    SplitAround(dd, '/', y);
    assert Format(d) == m + ['/'] + (dd + ['/'] + y);
    SplitAround(m, '/', dd + ['/'] + y);
    ParseNatToString(d.month);
    ParseNatToString(d.day);
    ParseNatToString(d.year);
  }

  /** Distinct days get distinct labels, so looking today's label up in the
      series finds today's point and no other day's. */
  lemma FormatInjective(a: Day, b: Day)
    requires Format(a) == Format(b)
    ensures a == b
  {
    ParseFormat(a);
    ParseFormat(b);
  }

  predicate IsLeapYear(y: nat) {
    (y % 4 == 0 && y % 100 != 0) || y % 400 == 0
  }

  function DaysInMonth(y: nat, m: nat): nat
    requires 1 <= m <= 12
  {
    if m == 2 then (if IsLeapYear(y) then 29 else 28)
    else if m == 4 || m == 6 || m == 9 || m == 11 then 30
    else 31
  }

  predicate ValidDay(d: Day) {
    1 <= d.month <= 12 && 1 <= d.day <= DaysInMonth(d.year, d.month)
  }

  /** `moment(label, 'MM/DD/YYYY')`: a valid calendar day, or None for an invalid date. */
  function ParseMoment(s: string): (r: Option<Day>)
    ensures r.Some? ==> ValidDay(r.value) && Parse(s) == r
    ensures Parse(s).Some? && ValidDay(Parse(s).value) ==> r == Parse(s)
  {
    match Parse(s)
    case Some(d) => if ValidDay(d) then Some(d) else None
    case None => None
  }

  /** Day order (`isBefore(.., 'day')`). */
  predicate Before(a: Day, b: Day) {
    a.year < b.year || (a.year == b.year && (a.month < b.month || (a.month == b.month && a.day < b.day)))
  }
}
