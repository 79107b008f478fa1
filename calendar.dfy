/** Calendar dates as the hospital records use them.

    A date is a day ordinal: the number of days since 1970-01-01 in the
    proleptic Gregorian calendar, so that adding a day count to a date is
    integer addition and comparing dates is integer comparison.  The only
    calendar field the queries need is the month of a date.
 */
module Calendar {

  /** A calendar day, counted in days since 1970-01-01 (negative before it). */
  type Date = int

  /** The month labels a doctor's schedule and a follow-up query are keyed by. */
  const MonthAbbrev: seq<string> :=
    ["Jan", "Feb", "Mar", "Apr", "May", "Jun", "Jul", "Aug", "Sep", "Oct", "Nov", "Dec"]

  /** No two months share a label. */
  lemma MonthAbbrevDistinct()
    ensures |MonthAbbrev| == 12
    ensures forall i, j :: 0 <= i < j < |MonthAbbrev| ==> MonthAbbrev[i] != MonthAbbrev[j]
  {
  }

  /** The 1-based position of `abbrev` in `abbrevs`, or 0 when it is absent. */
  function NumberIn(abbrevs: seq<string>, abbrev: string): (n: nat)
    ensures n <= |abbrevs|
    ensures n == 0 <==> abbrev !in abbrevs
    ensures 0 < n ==> abbrevs[n - 1] == abbrev
  {
    if abbrevs == [] then 0
    else if abbrevs[0] == abbrev then 1
    else
      var k := NumberIn(abbrevs[1..], abbrev);
      if k == 0 then 0 else k + 1
  }

  /** The month number (1 = Jan .. 12 = Dec) of a month label, and 0 for any
      other string. */
  function MonthNumber(abbrev: string): (n: nat)
    ensures n <= 12
    ensures n == 0 <==> abbrev !in MonthAbbrev
    ensures 0 < n ==> MonthAbbrev[n - 1] == abbrev
  {
    NumberIn(MonthAbbrev, abbrev)
  }

  /** The calendar month (1 = January .. 12 = December) of a date.

      The computation counts years from 1 March, so that the leap day is the
      last day of a year: it reduces the date to a 400-year era, then to a
      century, a four-year cycle and a year of that era, and finally turns the
      day of the year into a month. */
  function MonthOf(d: Date): (m: int)
    ensures 1 <= m <= 12
  {
    var z := d + 719468;                                // days since 0000-03-01
    var dayOfEra := z % 146097;                         // 0 .. 146096
    var century := if dayOfEra / 36524 < 4 then dayOfEra / 36524 else 3;
    var dayOfCentury := dayOfEra - 36524 * century;     // 0 .. 36524
    var cycle := dayOfCentury / 1461;
    var dayOfCycle := dayOfCentury - 1461 * cycle;      // 0 .. 1460
    var year := if dayOfCycle / 365 < 4 then dayOfCycle / 365 else 3;
    var dayOfYear := dayOfCycle - 365 * year;           // 0 .. 365, from 1 March
    var marchMonth := (5 * dayOfYear + 2) / 153;        // 0 = March .. 11 = February
    if marchMonth < 10 then marchMonth + 3 else marchMonth - 9
  }

  /** Dates whose months are known: 1969-12-31, 1970-01-01 and the leap
      day 2000-02-29, the last day of a 400-year era. */
  lemma MonthOfExamples()
    ensures MonthOf(-1) == 12
    ensures MonthOf(0) == 1
    ensures MonthOf(11016) == 2
  {
    assert 719467 % 146097 == 135079 && 719468 % 146097 == 135080;
    assert 135079 / 36524 == 3 && 135080 / 36524 == 3;
    assert 25507 / 1461 == 17 && 25508 / 1461 == 17;
    assert 670 / 365 == 1 && 671 / 365 == 1;
    assert 1527 / 153 == 9 && 1532 / 153 == 10;
    assert 730484 % 146097 == 146096 && 146096 / 36524 == 4;
    assert 36524 / 1461 == 24 && 1460 / 365 == 4 && 1827 / 153 == 11;
  }
}
