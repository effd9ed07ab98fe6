/** The `M-D-YYYY` stamp in the report file names. The clock is an input:
    `month0` is `getMonth()` (0 for January), `day` is `getDate()`, `year`
    is `getFullYear()`. */
module DateStamp {
  import opened Records

  predicate IsDigit(c: char) { '0' <= c <= '9' }

  predicate AllDigits(s: string) { forall i :: 0 <= i < |s| ==> IsDigit(s[i]) }

  function DigitChar(d: int): char
    requires 0 <= d < 10
  {
    ('0' as int + d) as char
  }

  /** Decimal digits of a non-negative integer, without leading zeros. */
  function NatText(n: nat): (s: string)
    ensures |s| > 0 && AllDigits(s)
    ensures s[0] == '0' ==> n == 0
  {
    if n < 10 then [DigitChar(n)] else NatText(n / 10) + [DigitChar(n % 10)]
  }

  /** How a template literal writes an integer of the size the `Date`
      getters return. */
  function IntText(n: int): string
  {
    if n < 0 then "-" + NatText(-n) else NatText(n)
  }

  /** `${month + 1}-${day}-${year}`. */
  function FormattedDate(month0: int, day: int, year: int): (stamp: string)
    ensures 0 <= month0 ==>
      DashIndex(stamp) == |NatText(month0 + 1)| && stamp[..DashIndex(stamp)] == NatText(month0 + 1)
  {
    var stamp := IntText(month0 + 1) + "-" + IntText(day) + "-" + IntText(year);
    if 0 <= month0 then
      DashAfterDigits(NatText(month0 + 1), IntText(day) + "-" + IntText(year));
      assert stamp == NatText(month0 + 1) + "-" + (IntText(day) + "-" + IntText(year));
      stamp
    else
      stamp
  }

  /** The three report files written under `./exported/`. */
  function ReportFileNames(stamp: string): (names: (string, string, string))
    ensures names.0 != names.1 && names.1 != names.2 && names.0 != names.2
  {
    assert ("events-" + stamp + ".csv")[0] == 'e';
    assert ("registrations-" + stamp + ".csv")[0] == 'r';
    assert ("unique-guests-" + stamp + ".csv")[0] == 'u';
    ("events-" + stamp + ".csv", "registrations-" + stamp + ".csv", "unique-guests-" + stamp + ".csv")
  }

  /** Reads a run of decimal digits as a number. */
  function DigitsValue(s: string): int
    requires AllDigits(s)
  {
    if s == [] then 0 else DigitsValue(s[..|s| - 1]) * 10 + (s[|s| - 1] as int - '0' as int)
  }

  /** Reads an optionally negative decimal integer. */
  function ParseInt(s: string): Option<int>
  {
    if |s| > 1 && s[0] == '-' && AllDigits(s[1..]) then
      Some(-DigitsValue(s[1..]))
    else if |s| > 0 && AllDigits(s) then
      Some(DigitsValue(s))
    else None
  }

  /** Position of the first '-', or |s| when there is none. */
  function DashIndex(s: string): (i: nat)
    ensures i <= |s| && (i < |s| ==> s[i] == '-')
    ensures forall j :: 0 <= j < i ==> s[j] != '-'
  {
    if s == [] then 0 else if s[0] == '-' then 0 else 1 + DashIndex(s[1..])
  }

  /** Reads a stamp back as (month, day, year): the text up to the first
      '-', the text up to the next '-', and the rest. */
  function ParseStamp(s: string): Option<(int, int, int)>
  {
    var i := DashIndex(s);
    if i == |s| then None
    else
      var rest := s[i + 1..];
      var j := DashIndex(rest);
      if j == |rest| then None
      else
        match (ParseInt(s[..i]), ParseInt(rest[..j]), ParseInt(rest[j + 1..]))
        case (Some(m), Some(d), Some(y)) => Some((m, d, y))
        case _ => None
  }

  lemma {:induction false} NatTextValue(n: nat)
    ensures DigitsValue(NatText(n)) == n
  {
    if n >= 10 {
      NatTextValue(n / 10);
      var s := NatText(n);
      assert s[..|s| - 1] == NatText(n / 10);
    }
  }

  lemma IntTextRoundTrip(n: int)
    ensures ParseInt(IntText(n)) == Some(n)
  {
    if n < 0 {
      var t := NatText(-n);
      NatTextValue(-n);
      assert ("-" + t)[1..] == t;
    } else {
      var t := NatText(n);
      NatTextValue(n);
      assert IsDigit(t[0]);
    }
  }

  /** A digit string has no '-', so the first '-' after it is the separator. */
  lemma DashAfterDigits(digits: string, tail: string)
    requires AllDigits(digits)
    ensures DashIndex(digits + "-" + tail) == |digits|
  {
    var s := digits + "-" + tail;
    assert s[|digits|] == '-';
    assert forall j :: 0 <= j < |digits| ==> s[j] == digits[j];
  }

  /** Splitting `m-d-y` at its first two dashes gives back the three
      fields when the first two are digit strings. */
  lemma SplitStamp(m: string, d: string, y: string)
    requires AllDigits(m) && AllDigits(d)
    ensures ParseStamp(m + "-" + d + "-" + y) ==
      match (ParseInt(m), ParseInt(d), ParseInt(y))
      case (Some(a), Some(b), Some(c)) => Some((a, b, c))
      case _ => None
  {
    var s := m + "-" + d + "-" + y;
    assert s == m + "-" + (d + "-" + y);
    DashAfterDigits(m, d + "-" + y);
    var rest := s[|m| + 1..];
    assert rest == d + "-" + y;
    DashAfterDigits(d, y);
    assert s[..|m|] == m;
    assert rest[..|d|] == d;
    assert rest[|d| + 1..] == y;
  }

  /** The stamp reads back as the calendar month (1 to 12), the day and the
      year: no zero padding is needed to tell the fields apart. */
  lemma StampRoundTrip(month0: int, day: int, year: int)
    requires 0 <= month0 <= 11 && 1 <= day <= 31
    ensures ParseStamp(FormattedDate(month0, day, year)) == Some((month0 + 1, day, year))
  {
    var m, d, y := IntText(month0 + 1), IntText(day), IntText(year);
    assert m == NatText(month0 + 1) && d == NatText(day);
    SplitStamp(m, d, y);
    IntTextRoundTrip(month0 + 1);
    IntTextRoundTrip(day);
    IntTextRoundTrip(year);
  }

  /** A run on April 20 2024 stamps `4-20-2024`. */
  lemma StampExample()
    ensures FormattedDate(3, 20, 2024) == "4-20-2024"
  {
    assert NatText(4) == "4";
    assert NatText(20) == "20";
    assert NatText(202) == "202";
    assert NatText(2024) == "2024";
  }

  /** The report files of a run on April 20 2024. */
  lemma ReportFileNamesExample()
    ensures ReportFileNames(FormattedDate(3, 20, 2024)) ==
      ("events-4-20-2024.csv", "registrations-4-20-2024.csv", "unique-guests-4-20-2024.csv")
  {
    StampExample();
    var stamp := "4-20-2024";
    assert "events-" + stamp + ".csv" == "events-4-20-2024.csv";
    assert "registrations-" + stamp + ".csv" == "registrations-4-20-2024.csv";
    assert "unique-guests-" + stamp + ".csv" == "unique-guests-4-20-2024.csv";
  }
}
