/** The month key of the analytics page: the text `${month}/${year}` that the
    monthly buckets are grouped by, the `split('/')` and numeric coercion that
    read it back, and the `new Date(year, month - 1)` that the sort compares. */
module MonthKeys {
  import opened Reviews

  function DigitChar(d: int): char
    requires 0 <= d <= 9
  {
    ('0' as int + d) as char
  }

  predicate IsDigit(c: char)
  {
    '0' <= c <= '9'
  }

  /** `String(n)` for a natural number: decimal digits, no leading zeros. */
  function NatToDecimal(n: nat): (s: string)
    ensures |s| >= 1
    ensures forall i :: 0 <= i < |s| ==> IsDigit(s[i])
    decreases n
  {
    if n < 10 then [DigitChar(n)] else NatToDecimal(n / 10) + [DigitChar(n % 10)]
  }

  /** `String(i)` for an integer: a minus sign for negatives, then the digits. */
  function IntToDecimal(i: int): string
  {
    if i < 0 then "-" + NatToDecimal(-i) else NatToDecimal(i)
  }

  /** The value of a run of decimal digits. */
  function DigitsValue(s: string): int
  {
    if s == [] then 0 else DigitsValue(s[..|s| - 1]) * 10 + (s[|s| - 1] as int - '0' as int)
  }

  /** `Number(s)` on text made of an optional minus sign and decimal digits. */
  function ToNumber(s: string): int
  {
    if |s| > 0 && s[0] == '-' then -DigitsValue(s[1..]) else DigitsValue(s)
  }

  /** `s.split(sep)`: the pieces between occurrences of `sep`, at least one. */
  function SplitOn(s: string, sep: char): (parts: seq<string>)
    ensures |parts| >= 1
  {
    if s == [] then [""]
    else
      var rest := SplitOn(s[1..], sep);
      if s[0] == sep then [""] + rest else [[s[0]] + rest[0]] + rest[1..]
  }

  /** The bucket key `${date.getMonth() + 1}/${date.getFullYear()}`. */
  function MonthKey(month: int, year: int): string
  {
    IntToDecimal(month) + "/" + IntToDecimal(year)
  }

  /** `const [m, y] = key.split('/')`, then `m` as a number. */
  function KeyMonth(key: string): int
  {
    ToNumber(SplitOn(key, '/')[0])
  }

  /** `const [m, y] = key.split('/')`, then `y` as a number. Keys built by
      `MonthKey` always have a second piece; for others this reads 0. */
  function KeyYear(key: string): int
  {
    var parts := SplitOn(key, '/');
    if |parts| >= 2 then ToNumber(parts[1]) else 0
  }

  /** The year that `new Date(year, monthIndex)` actually uses: a year in
      0..99 is read as 1900..1999. */
  function DateYear(year: int): int
  {
    if 0 <= year <= 99 then 1900 + year else year
  }

  /** `new Date(year, month - 1).getTime()` counted in months: the sort's
      comparator subtracts two such times, so its sign is the sign of the
      difference of these indices. */
  function MonthIndex(month: int, year: int): int
  {
    DateYear(year) * 12 + (month - 1)
  }

  lemma {:induction false} DecimalRoundTrip(n: nat)
    ensures DigitsValue(NatToDecimal(n)) == n
    decreases n
  {
    if n >= 10 {
      DecimalRoundTrip(n / 10);
      var s := NatToDecimal(n / 10) + [DigitChar(n % 10)];
      assert s[..|s| - 1] == NatToDecimal(n / 10);
    }
  }

  /** `Number(String(i)) == i`. */
  lemma IntRoundTrip(i: int)
    ensures ToNumber(IntToDecimal(i)) == i
  {
    if i < 0 {
      DecimalRoundTrip(-i);
      assert IntToDecimal(i)[1..] == NatToDecimal(-i);
    } else {
      DecimalRoundTrip(i);
      assert IsDigit(NatToDecimal(i)[0]);
    }
  }

  lemma NoSlashInDecimal(i: int)
    ensures '/' !in IntToDecimal(i)
  {
    var d := NatToDecimal(if i < 0 then -i else i);
    assert forall k :: 0 <= k < |d| ==> d[k] != '/';
  }

  lemma {:induction false} SplitWithoutSeparator(s: string, sep: char)
    requires sep !in s
    ensures SplitOn(s, sep) == [s]
  {
    if s != [] {
      SplitWithoutSeparator(s[1..], sep);
      assert [s[0]] + s[1..] == s;
    }
  }

  lemma {:induction false} SplitAroundSeparator(a: string, b: string, sep: char)
    requires sep !in a && sep !in b
    ensures SplitOn(a + [sep] + b, sep) == [a, b]
  {
    if a == [] {
      assert a + [sep] + b == [sep] + b;
      SplitWithoutSeparator(b, sep);
    } else {
      assert (a + [sep] + b)[1..] == a[1..] + [sep] + b;
      SplitAroundSeparator(a[1..], b, sep);
      assert [a[0]] + a[1..] == a;
    }
  }

  /** Splitting the key on `/` gives back exactly the month and the year it
      was built from. */
  lemma KeyRoundTrip(month: int, year: int)
    ensures KeyMonth(MonthKey(month, year)) == month
    ensures KeyYear(MonthKey(month, year)) == year
  {
    NoSlashInDecimal(month);
    NoSlashInDecimal(year);
    assert MonthKey(month, year) == IntToDecimal(month) + ['/'] + IntToDecimal(year);
    SplitAroundSeparator(IntToDecimal(month), IntToDecimal(year), '/');
    IntRoundTrip(month);
    IntRoundTrip(year);
  }

  /** Different (month, year) pairs give different keys. */
  lemma KeyInjective(m1: int, y1: int, m2: int, y2: int)
    requires MonthKey(m1, y1) == MonthKey(m2, y2)
    ensures m1 == m2 && y1 == y2
  {
    KeyRoundTrip(m1, y1);
    KeyRoundTrip(m2, y2);
  }

  /** Outside the two-digit years, the comparator's order is the calendar
      order of (year, month), and it ties only on the same month. */
  lemma MonthIndexIsChronological(m1: Month, y1: int, m2: Month, y2: int)
    requires !(0 <= y1 <= 99) && !(0 <= y2 <= 99)
    ensures MonthIndex(m1, y1) < MonthIndex(m2, y2) <==> (y1 < y2 || (y1 == y2 && m1 < m2))
    ensures MonthIndex(m1, y1) == MonthIndex(m2, y2) <==> (y1 == y2 && m1 == m2)
  {
  }

  /** The two-digit-year reading of `new Date` makes the comparator tie
      January of year 50 with January 1950, although their keys differ. */
  lemma TwoDigitYearTie()
    ensures MonthIndex(1, 50) == MonthIndex(1, 1950)
    ensures MonthKey(1, 50) != MonthKey(1, 1950)
  {
    KeyRoundTrip(1, 50);
    KeyRoundTrip(1, 1950);
  }
}
